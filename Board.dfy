/** Lookups by id and the by-id updates the store applies to its roster
    and its locations. A lookup finds the FIRST entry with the id; an
    update rewrites EVERY entry with the id. */
module Board {
  import opened Types
  import opened Rules
  import opened CrisisResolution

  /** The position of the first element satisfying `p`, as the source's
      `find` returns the first match. */
  function FirstWhere<T>(s: seq<T>, p: T -> bool): (r: Option<nat>)
    ensures r.None? <==> forall i :: 0 <= i < |s| ==> !p(s[i])
    ensures r.Some? ==> r.value < |s| && p(s[r.value]) && forall j :: 0 <= j < r.value ==> !p(s[j])
  {
    if s == [] then None
    else if p(s[0]) then Some(0)
    else
      match FirstWhere(s[1..], p)
      case None => assert forall i :: 1 <= i < |s| ==> s[i] == s[1..][i - 1]; None
      case Some(k) => assert forall j :: 1 <= j <= k ==> s[j] == s[1..][j - 1]; Some(k + 1)
  }

  function SurvivorIndex(survivors: seq<Survivor>, id: string): (r: Option<nat>)
    ensures r.None? <==> forall i :: 0 <= i < |survivors| ==> survivors[i].id != id
    ensures r.Some? ==> r.value < |survivors| && survivors[r.value].id == id
    ensures r.Some? ==> forall j :: 0 <= j < r.value ==> survivors[j].id != id
  {
    FirstWhere(survivors, (s: Survivor) => s.id == id)
  }

  function LocationIndex(locations: seq<Location>, id: string): (r: Option<nat>)
    ensures r.None? <==> forall i :: 0 <= i < |locations| ==> locations[i].id != id
    ensures r.Some? ==> r.value < |locations| && locations[r.value].id == id
    ensures r.Some? ==> forall j :: 0 <= j < r.value ==> locations[j].id != id
  {
    FirstWhere(locations, (l: Location) => l.id == id)
  }

  /** An item created from its catalog id: the first catalog entry with
      that id, or nothing for an unknown id. */
  function FindItem(catalog: seq<Item>, id: string): (r: Option<Item>)
    ensures r.None? <==> forall i :: 0 <= i < |catalog| ==> catalog[i].id != id
    ensures r.Some? ==> r.value.id == id && r.value in catalog
    ensures r.Some? ==> exists i :: 0 <= i < |catalog| && catalog[i] == r.value
                                    && forall j :: 0 <= j < i ==> catalog[j].id != id
  {
    match FirstWhere(catalog, (x: Item) => x.id == id)
    case None => None
    case Some(i) => Some(catalog[i])
  }

  /** Every item is the catalog's item for its own id. */
  ghost predicate FromCatalog(items: seq<Item>, catalog: seq<Item>) {
    items == [] || (FindItem(catalog, items[0].id) == Some(items[0]) && FromCatalog(items[1..], catalog))
  }

  lemma {:induction false} FromCatalogMember(items: seq<Item>, catalog: seq<Item>, x: Item)
    requires FromCatalog(items, catalog) && x in items
    ensures FindItem(catalog, x.id) == Some(x)
  {
    if items[0] != x {
      FromCatalogMember(items[1..], catalog, x);
    }
  }

  lemma {:induction false} FromCatalogMembers(items: seq<Item>, stock: seq<Item>, catalog: seq<Item>)
    requires FromCatalog(stock, catalog) && forall x :: x in items ==> x in stock
    ensures FromCatalog(items, catalog)
  {
    if items != [] {
      FromCatalogMember(stock, catalog, items[0]);
      FromCatalogMembers(items[1..], stock, catalog);
    }
  }

  lemma FromCatalogWithin(items: seq<Item>, stock: seq<Item>, catalog: seq<Item>)
    requires FromCatalog(stock, catalog) && Within(items, stock)
    ensures FromCatalog(items, catalog)
  {
    WithinMembers(items, stock);
    FromCatalogMembers(items, stock, catalog);
  }

  /** The item a drawn card yields: an empty id counts as no card, an
      unknown id yields nothing. */
  function ResolveId(catalog: seq<Item>, id: string): (r: seq<Item>)
    ensures |r| <= 1
    ensures r != [] <==> id != "" && FindItem(catalog, id).Some?
    ensures r != [] ==> r == [FindItem(catalog, id).value] && r[0].id == id
  {
    if id == "" then []
    else match FindItem(catalog, id)
      case Some(x) => [x]
      case None => []
  }

  /** The items found for a sequence of drawn ids, in draw order. */
  function ResolveIds(catalog: seq<Item>, ids: seq<string>): (r: seq<Item>)
    ensures |r| <= |ids|
  {
    if ids == [] then []
    else ResolveId(catalog, ids[0]) + ResolveIds(catalog, ids[1..])
  }

  /** Every item found is the catalog's own entry for its id. */
  lemma {:induction false} ResolveIdsFromCatalog(catalog: seq<Item>, ids: seq<string>)
    ensures FromCatalog(ResolveIds(catalog, ids), catalog)
  {
    if ids != [] {
      ResolveIdsFromCatalog(catalog, ids[1..]);
      FromCatalogAppend(ResolveId(catalog, ids[0]), ResolveIds(catalog, ids[1..]), catalog);
    }
  }

  /** The tags show which locations hold at least one survivor. */
  predicate Occupied(survivors: seq<Survivor>, locationId: string) {
    exists j :: 0 <= j < |survivors| && survivors[j].locationId == locationId
  }

  /** The daily spawn: one zombie on every occupied location other than the
      compound. */
  function SpawnZombies(locations: seq<Location>, survivors: seq<Survivor>): (r: seq<Location>)
    ensures |r| == |locations|
    ensures forall i :: 0 <= i < |locations| ==> r[i].(zombies := locations[i].zombies) == locations[i]
    ensures forall i :: 0 <= i < |locations| ==>
      (r[i].zombies == locations[i].zombies + 1 <==> locations[i].id != Compound && Occupied(survivors, locations[i].id))
    ensures forall i :: 0 <= i < |locations| ==>
      r[i].zombies == locations[i].zombies || r[i].zombies == locations[i].zombies + 1
  {
    seq(|locations|, i requires 0 <= i < |locations| =>
      if locations[i].id != Compound && Occupied(survivors, locations[i].id)
      then locations[i].(zombies := locations[i].zombies + 1)
      else locations[i])
  }

  /** Number of survivors standing at a location. */
  function SurvivorsAt(survivors: seq<Survivor>, locationId: string): (n: nat)
    ensures n <= |survivors|
    ensures n == 0 <==> forall i :: 0 <= i < |survivors| ==> survivors[i].locationId != locationId
  {
    if survivors == [] then 0
    else (if survivors[0].locationId == locationId then 1 else 0) + SurvivorsAt(survivors[1..], locationId)
  }

  function Wound(survivors: seq<Survivor>, id: string): (r: seq<Survivor>)
    ensures |r| == |survivors|
  {
    seq(|survivors|, i requires 0 <= i < |survivors| =>
      if survivors[i].id == id then survivors[i].(hp := survivors[i].hp - 1) else survivors[i])
  }

  function Relocate(survivors: seq<Survivor>, id: string, locationId: string): (r: seq<Survivor>)
    ensures |r| == |survivors|
  {
    seq(|survivors|, i requires 0 <= i < |survivors| =>
      if survivors[i].id == id then survivors[i].(locationId := locationId) else survivors[i])
  }

  function GiveItems(survivors: seq<Survivor>, id: string, items: seq<Item>): (r: seq<Survivor>)
    ensures |r| == |survivors|
  {
    seq(|survivors|, i requires 0 <= i < |survivors| =>
      if survivors[i].id == id
      then survivors[i].(personalInventory := survivors[i].personalInventory + items)
      else survivors[i])
  }

  function EmptyInventory(survivors: seq<Survivor>, id: string): (r: seq<Survivor>)
    ensures |r| == |survivors|
  {
    seq(|survivors|, i requires 0 <= i < |survivors| =>
      if survivors[i].id == id then survivors[i].(personalInventory := []) else survivors[i])
  }

  function AddZombie(locations: seq<Location>, id: string): (r: seq<Location>)
    ensures |r| == |locations|
  {
    seq(|locations|, i requires 0 <= i < |locations| =>
      if locations[i].id == id then locations[i].(zombies := locations[i].zombies + 1) else locations[i])
  }

  function ThinZombies(locations: seq<Location>, id: string, killed: nat): (r: seq<Location>)
    ensures |r| == |locations|
  {
    seq(|locations|, i requires 0 <= i < |locations| =>
      if locations[i].id == id
      then locations[i].(zombies := AfterAttack(locations[i].zombies, killed))
      else locations[i])
  }

  function ReplaceDeck(locations: seq<Location>, id: string, deck: seq<string>): (r: seq<Location>)
    ensures |r| == |locations|
  {
    seq(|locations|, i requires 0 <= i < |locations| =>
      if locations[i].id == id then locations[i].(searchDeck := deck) else locations[i])
  }

  function Names(items: seq<Item>): (r: seq<string>)
    ensures |r| == |items|
  {
    seq(|items|, i requires 0 <= i < |items| => items[i].name)
  }

  lemma {:induction false} FromCatalogAppend(a: seq<Item>, b: seq<Item>, catalog: seq<Item>)
    requires FromCatalog(a, catalog) && FromCatalog(b, catalog)
    ensures FromCatalog(a + b, catalog)
  {
    if a != [] {
      assert (a + b)[0] == a[0];
      assert (a + b)[1..] == a[1..] + b;
      FromCatalogAppend(a[1..], b, catalog);
    } else {
      assert a + b == b;
    }
  }

  /** Items created from one catalog never disagree on the category of an
      id, which is what makes id-based removal safe for other kinds. */
  lemma FromCatalogFixesCategory(items: seq<Item>, catalog: seq<Item>)
    requires FromCatalog(items, catalog)
    ensures IdsFixCategory(items)
  {
    forall x, y | x in items && y in items && x.id == y.id
      ensures x.category == y.category
    {
      FromCatalogMember(items, catalog, x);
      FromCatalogMember(items, catalog, y);
    }
  }

  /** How many cards a search takes off the deck: one, and a second for S002
      when the coin falls her way and a card is left. */
  function DrawCount(survivorId: string, extraDraw: bool, deckSize: nat): (n: nat)
    requires deckSize > 0
    ensures 1 <= n <= 2 && n <= deckSize
    ensures n == 2 <==> survivorId == "S002" && extraDraw && deckSize > 1
  {
    if survivorId == "S002" && extraDraw && deckSize > 1 then 2 else 1
  }

  /** The top `n` cards of a deck in the order they are popped off its end. */
  function PopOrder(deck: seq<string>, n: nat): (r: seq<string>)
    requires n <= |deck|
    ensures |r| == n
    ensures forall j :: 0 <= j < n ==> r[j] == deck[|deck| - 1 - j]
    decreases n
  {
    if n == 0 then []
    else [deck[|deck| - 1]] + PopOrder(deck[..|deck| - 1], n - 1)
  }

  function Reversed(s: seq<string>): (r: seq<string>)
    ensures |r| == |s|
    ensures forall i :: 0 <= i < |s| ==> r[i] == s[|s| - 1 - i]
  {
    if s == [] then [] else Reversed(s[1..]) + [s[0]]
  }

  /** Popping `n` cards and putting them back in reverse restores the
      deck. */
  lemma PopOrderReversed(deck: seq<string>, n: nat)
    requires n <= |deck|
    ensures deck[..|deck| - n] + Reversed(PopOrder(deck, n)) == deck
  {
    var m := |deck| - n;
    var popped := PopOrder(deck, n);
    var whole := deck[..m] + Reversed(popped);
    forall i | m <= i < |deck|
      ensures whole[i] == deck[i]
    {
      assert whole[i] == Reversed(popped)[i - m] == popped[n - 1 - (i - m)];
    }
  }

  /** Every item found for a run of cards is the catalog item named by one
      of the cards. */
  lemma {:induction false} ResolveIdsFromCards(catalog: seq<Item>, ids: seq<string>)
    ensures forall x :: x in ResolveIds(catalog, ids) ==> x.id in ids && FindItem(catalog, x.id) == Some(x)
  {
    if ids != [] {
      ResolveIdsFromCards(catalog, ids[1..]);
      assert ResolveIds(catalog, ids) == ResolveId(catalog, ids[0]) + ResolveIds(catalog, ids[1..]);
      forall x | x in ResolveIds(catalog, ids)
        ensures x.id in ids && FindItem(catalog, x.id) == Some(x)
      {
        if x !in ResolveId(catalog, ids[0]) {
          assert x.id in ids[1..];
        }
      }
    }
  }

  /** All survivors have different ids. */
  predicate UniqueIds(survivors: seq<Survivor>) {
    forall i, j :: 0 <= i < j < |survivors| ==> survivors[i].id != survivors[j].id
  }

  lemma EmptyInventoryIsUpdate(survivors: seq<Survivor>, k: nat)
    requires UniqueIds(survivors) && k < |survivors|
    ensures EmptyInventory(survivors, survivors[k].id) ==
            survivors[k := survivors[k].(personalInventory := [])]
  {
  }

  /** Replacing one survivor changes the personal items by exactly what the
      old and the new record carry. */
  lemma FlattenUpdate(survivors: seq<Survivor>, k: nat, s: Survivor)
    requires k < |survivors|
    ensures multiset(Flatten(survivors[k := s])) + multiset(survivors[k].personalInventory)
         == multiset(Flatten(survivors)) + multiset(s.personalInventory)
  {
    var before, after := survivors[..k], survivors[k + 1..];
    assert survivors == before + [survivors[k]] + after;
    assert survivors[k := s] == before + [s] + after;
    FlattenAppend(before + [survivors[k]], after);
    FlattenAppend(before, [survivors[k]]);
    FlattenAppend(before + [s], after);
    FlattenAppend(before, [s]);
    assert Flatten([s]) == s.personalInventory + Flatten([]);
    assert Flatten([survivors[k]]) == survivors[k].personalInventory + Flatten([]);
  }

  /** Depositing moves a survivor's items into the colony: no item is lost
      or duplicated, when survivor ids are unique. */
  lemma DepositConserves(colony: seq<Item>, survivors: seq<Survivor>, k: nat)
    requires UniqueIds(survivors) && k < |survivors|
    ensures multiset(colony + survivors[k].personalInventory)
          + multiset(Flatten(EmptyInventory(survivors, survivors[k].id)))
         == multiset(colony) + multiset(Flatten(survivors))
  {
    var items := survivors[k].personalInventory;
    var emptied := survivors[k].(personalInventory := []);
    var rest := Flatten(EmptyInventory(survivors, survivors[k].id));
    EmptyInventoryIsUpdate(survivors, k);
    assert rest == Flatten(survivors[k := emptied]);
    FlattenUpdate(survivors, k, emptied);
    assert multiset(rest) + multiset(items) == multiset(Flatten(survivors));
    assert multiset(colony + items) == multiset(colony) + multiset(items);
  }

  /** Every personal inventory holds catalog items only. */
  ghost predicate Stocked(survivors: seq<Survivor>, catalog: seq<Item>) {
    forall i :: 0 <= i < |survivors| ==> FromCatalog(survivors[i].personalInventory, catalog)
  }

  lemma GiveItemsStocked(survivors: seq<Survivor>, id: string, items: seq<Item>, catalog: seq<Item>)
    requires Stocked(survivors, catalog) && FromCatalog(items, catalog)
    ensures Stocked(GiveItems(survivors, id, items), catalog)
  {
    var r := GiveItems(survivors, id, items);
    forall i | 0 <= i < |r| ensures FromCatalog(r[i].personalInventory, catalog) {
      if survivors[i].id == id {
        FromCatalogAppend(survivors[i].personalInventory, items, catalog);
      }
    }
  }

  lemma EmptyInventoryStocked(survivors: seq<Survivor>, id: string, catalog: seq<Item>)
    requires Stocked(survivors, catalog)
    ensures Stocked(EmptyInventory(survivors, id), catalog)
  {
  }

  lemma TravelStocked(survivors: seq<Survivor>, id: string, locationId: string, catalog: seq<Item>)
    requires Stocked(survivors, catalog)
    ensures Stocked(Wound(survivors, id), catalog)
    ensures Stocked(Relocate(survivors, id, locationId), catalog)
  {
    var w, r := Wound(survivors, id), Relocate(survivors, id, locationId);
    assert forall i :: 0 <= i < |w| ==> w[i].personalInventory == survivors[i].personalInventory;
    assert forall i :: 0 <= i < |r| ==> r[i].personalInventory == survivors[i].personalInventory;
  }

  lemma ShrinkStocked(before: seq<Survivor>, after: seq<Survivor>, catalog: seq<Item>)
    requires Stocked(before, catalog) && OnlyInventoriesShrink(before, after)
    ensures Stocked(after, catalog)
  {
    forall i | 0 <= i < |after| ensures FromCatalog(after[i].personalInventory, catalog) {
      FromCatalogWithin(after[i].personalInventory, before[i].personalInventory, catalog);
    }
  }

  lemma StockedFixCategory(survivors: seq<Survivor>, catalog: seq<Item>)
    requires Stocked(survivors, catalog)
    ensures InventoriesFixCategory(survivors)
  {
    forall i | 0 <= i < |survivors| ensures IdsFixCategory(survivors[i].personalInventory) {
      FromCatalogFixesCategory(survivors[i].personalInventory, catalog);
    }
  }
}
