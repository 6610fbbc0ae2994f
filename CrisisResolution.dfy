/** Resolving the day's crisis in the Colony phase: whether the eligible
    stock meets every requirement line, and which items are taken when it
    does. Items are taken by id: the first `amount` matching items are
    chosen, and then EVERY item sharing an id with a chosen one is removed,
    so duplicates of a catalog item can all go at once. */
module CrisisResolution {
  import opened Types

  function Min(a: int, b: int): (m: int) {
    if a <= b then a else b
  }

  /** The category a tag names, if any. */
  function TagCategory(kind: string): (c: Option<Category>) {
    if kind == "FOOD" then Some(Food)
    else if kind == "MEDICINE" then Some(Medicine)
    else if kind == "FUEL" then Some(Fuel)
    else if kind == "JUNK" then Some(Junk)
    else if kind == "WEAPON" then Some(Weapon)
    else if kind == "BARRICADE" then Some(Barricade)
    else None
  }

  /** The item's category is written `kind`. */
  predicate IsKind(x: Item, kind: string) {
    TagCategory(kind) == Some(x.category)
  }

  /** Matching through the tag table is matching the category's tag. */
  lemma IsKindIsTagMatch(x: Item, kind: string)
    ensures IsKind(x, kind) <==> CategoryName(x.category) == kind
  {
  }

  /** The items of `xs` whose category tag is `kind`, in order. */
  function Filter(xs: seq<Item>, kind: string): (r: seq<Item>)
    ensures |r| <= |xs|
  {
    if xs == [] then []
    else (if IsKind(xs[0], kind) then [xs[0]] else []) + Filter(xs[1..], kind)
  }

  /** Everything the filter keeps has the kind asked for. */
  lemma {:induction false} FilterKind(xs: seq<Item>, kind: string)
    ensures forall x :: x in Filter(xs, kind) ==> IsKind(x, kind)
  {
    if xs != [] {
      FilterKind(xs[1..], kind);
    }
  }

  function Count(xs: seq<Item>, kind: string): (n: nat) {
    |Filter(xs, kind)|
  }

  /** `xs` is a sub-collection of `ys`: no item occurs in `xs` more often
      than in `ys`. */
  ghost predicate Within(xs: seq<Item>, ys: seq<Item>) {
    multiset(xs) <= multiset(ys)
  }

  /** Every item of a sub-collection is an item of the whole. */
  lemma WithinMembers(xs: seq<Item>, ys: seq<Item>)
    requires Within(xs, ys)
    ensures forall x :: x in xs ==> x in ys
  {
    forall x | x in xs ensures x in ys {
      assert x in multiset(xs);
    }
  }

  lemma {:induction false} FilterWithin(xs: seq<Item>, kind: string)
    ensures Within(Filter(xs, kind), xs)
  {
    if xs != [] {
      FilterWithin(xs[1..], kind);
      assert xs == [xs[0]] + xs[1..];
    }
  }

  lemma {:induction false} FilterAppend(a: seq<Item>, b: seq<Item>, kind: string)
    ensures Filter(a + b, kind) == Filter(a, kind) + Filter(b, kind)
  {
    if a != [] {
      assert (a + b)[0] == a[0];
      assert (a + b)[1..] == a[1..] + b;
      FilterAppend(a[1..], b, kind);
      assert Filter(a + b, kind) == (if IsKind(a[0], kind) then [a[0]] else []) + Filter(a[1..] + b, kind);
    } else {
      assert a + b == b;
    }
  }

  lemma CountAppend(a: seq<Item>, b: seq<Item>, kind: string)
    ensures Count(a + b, kind) == Count(a, kind) + Count(b, kind)
  {
    FilterAppend(a, b, kind);
  }

  /** All personal items, survivor by survivor in roster order. */
  function Flatten(survivors: seq<Survivor>): (items: seq<Item>) {
    if survivors == [] then []
    else survivors[0].personalInventory + Flatten(survivors[1..])
  }

  lemma {:induction false} FlattenAppend(a: seq<Survivor>, b: seq<Survivor>)
    ensures Flatten(a + b) == Flatten(a) + Flatten(b)
  {
    if a != [] {
      assert (a + b)[0] == a[0];
      assert (a + b)[1..] == a[1..] + b;
      FlattenAppend(a[1..], b);
      assert Flatten(a + b) == a[0].personalInventory + Flatten(a[1..] + b);
    } else {
      assert a + b == b;
    }
  }

  /** The stock a crisis may draw on. */
  function Pool(colony: seq<Item>, survivors: seq<Survivor>, scope: CrisisType): (pool: seq<Item>) {
    if scope == Abstract then colony + Flatten(survivors) else colony
  }

  /** The crisis is averted: every requirement line is covered by the pool. */
  predicate Satisfied(pool: seq<Item>, reqs: seq<Requirement>) {
    forall i :: 0 <= i < |reqs| ==> Count(pool, reqs[i].kind) >= reqs[i].amount
  }

  /** A pool with at least as many items of every kind satisfies every
      requirement list the smaller pool satisfies. */
  lemma SatisfiedMonotone(p: seq<Item>, q: seq<Item>, reqs: seq<Requirement>)
    requires forall kind :: Count(p, kind) <= Count(q, kind)
    requires Satisfied(p, reqs)
    ensures Satisfied(q, reqs)
  {
  }

  /** Adding items to the pool, before or after, never turns success into
      failure. */
  lemma {:induction false} SatisfiedExtend(p: seq<Item>, extra: seq<Item>, reqs: seq<Requirement>)
    requires Satisfied(p, reqs)
    ensures Satisfied(p + extra, reqs) && Satisfied(extra + p, reqs)
  {
    forall kind ensures Count(p, kind) <= Count(p + extra, kind) && Count(p, kind) <= Count(extra + p, kind) {
      CountAppend(p, extra, kind);
      CountAppend(extra, p, kind);
    }
  }

  /** A crisis the colony stock alone covers is also covered when personal
      items count too. */
  lemma PhysicalSuccessImpliesAbstract(colony: seq<Item>, survivors: seq<Survivor>, reqs: seq<Requirement>)
    requires Satisfied(Pool(colony, survivors, Physical), reqs)
    ensures Satisfied(Pool(colony, survivors, Abstract), reqs)
  {
    SatisfiedExtend(colony, Flatten(survivors), reqs);
  }

  /** The requirement check with its early exit on the first uncovered line. */
  method CheckRequirements(pool: seq<Item>, reqs: seq<Requirement>) returns (ok: bool)
    ensures ok == Satisfied(pool, reqs)
    ensures !ok ==> exists i :: 0 <= i < |reqs| && Count(pool, reqs[i].kind) < reqs[i].amount
  {
    ok := true;
    var i := 0;
    while i < |reqs|
      invariant 0 <= i <= |reqs|
      invariant forall j :: 0 <= j < i ==> Count(pool, reqs[j].kind) >= reqs[j].amount
    {
      if Count(pool, reqs[i].kind) < reqs[i].amount {
        ok := false;
        break;
      }
      i := i + 1;
    }
  }

  /** The items picked to pay `k` items of `kind`: the first ones of that
      kind, as many as there are up to `k`. */
  function TakeKind(xs: seq<Item>, kind: string, k: nat): (r: seq<Item>)
    ensures |r| == Min(k, Count(xs, kind))
  {
    var f := Filter(xs, kind);
    f[..Min(k, |f|)]
  }

  /** Some item of `taken` carries `id`: the lookup by id the engine makes
      for every item it considers removing. */
  predicate HasId(taken: seq<Item>, id: string) {
    taken != [] && (taken[0].id == id || HasId(taken[1..], id))
  }

  lemma {:induction false} HasIdMember(taken: seq<Item>, x: Item)
    requires x in taken
    ensures HasId(taken, x.id)
  {
    if taken[0] != x {
      assert taken == [taken[0]] + taken[1..];
      HasIdMember(taken[1..], x);
    }
  }

  lemma {:induction false} HasIdWitness(taken: seq<Item>, id: string) returns (x: Item)
    requires HasId(taken, id)
    ensures x in taken && x.id == id
  {
    if taken[0].id == id {
      x := taken[0];
    } else {
      x := HasIdWitness(taken[1..], id);
    }
  }

  /** The items of `xs` sharing no id with an item of `taken`, in order. */
  function RemoveIds(xs: seq<Item>, taken: seq<Item>): (r: seq<Item>)
    ensures |r| <= |xs|
  {
    if xs == [] then []
    else (if HasId(taken, xs[0].id) then [] else [xs[0]]) + RemoveIds(xs[1..], taken)
  }

  lemma {:induction false} RemoveIdsWithin(xs: seq<Item>, taken: seq<Item>)
    ensures Within(RemoveIds(xs, taken), xs)
  {
    if xs != [] {
      RemoveIdsWithin(xs[1..], taken);
      assert xs == [xs[0]] + xs[1..];
    }
  }

  /** Paying one requirement line out of one inventory. */
  function Pay(xs: seq<Item>, kind: string, k: nat): (r: seq<Item>)
  {
    RemoveIds(xs, TakeKind(xs, kind, k))
  }

  lemma {:induction false} RemoveIdsCountLe(xs: seq<Item>, taken: seq<Item>, kind: string)
    ensures Count(RemoveIds(xs, taken), kind) <= Count(xs, kind)
  {
    if xs != [] {
      var head := if HasId(taken, xs[0].id) then [] else [xs[0]];
      RemoveIdsCountLe(xs[1..], taken, kind);
      assert RemoveIds(xs, taken) == head + RemoveIds(xs[1..], taken);
      FilterAppend(head, RemoveIds(xs[1..], taken), kind);
    }
  }

  lemma {:induction false} RemoveIdsCount(xs: seq<Item>, taken: seq<Item>, kind: string, m: nat)
    requires m <= Count(xs, kind)
    requires forall y :: y in Filter(xs, kind)[..m] ==> HasId(taken, y.id)
    ensures Count(RemoveIds(xs, taken), kind) + m <= Count(xs, kind)
  {
    if xs == [] {
      return;
    }
    var head := if HasId(taken, xs[0].id) then [] else [xs[0]];
    assert RemoveIds(xs, taken) == head + RemoveIds(xs[1..], taken);
    FilterAppend(head, RemoveIds(xs[1..], taken), kind);
    if IsKind(xs[0], kind) {
      assert Filter(xs, kind) == [xs[0]] + Filter(xs[1..], kind);
      if m == 0 {
        RemoveIdsCountLe(xs, taken, kind);
      } else {
        var f := Filter(xs, kind)[..m];
        assert f == [xs[0]] + Filter(xs[1..], kind)[..m - 1];
        assert xs[0] in f;
        assert head == [];
        assert forall y :: y in Filter(xs[1..], kind)[..m - 1] ==> y in f;
        RemoveIdsCount(xs[1..], taken, kind, m - 1);
      }
    } else {
      assert Filter(xs, kind) == Filter(xs[1..], kind);
      RemoveIdsCount(xs[1..], taken, kind, m);
    }
  }

  /** Paying `k` items of `kind` removes at least `k` of them when there
      are that many, and all of them otherwise. */
  lemma PayCount(xs: seq<Item>, kind: string, k: nat)
    ensures Count(Pay(xs, kind, k), kind) + Min(k, Count(xs, kind)) <= Count(xs, kind)
  {
    var taken := TakeKind(xs, kind, k);
    forall y | y in Filter(xs, kind)[..Min(k, Count(xs, kind))] ensures HasId(taken, y.id) {
      HasIdMember(taken, y);
    }
    RemoveIdsCount(xs, taken, kind, Min(k, Count(xs, kind)));
  }

  /** Removal goes by id, so a second copy of a paid item goes with it:
      paying one food out of two copies of the same food item leaves none,
      which is why the count above is a bound and not an equality. */
  lemma PayTakesEveryCopy(x: Item)
    requires x.category == Food
    ensures Count(Pay([x, x], "FOOD", 1), "FOOD") == 0
  {
    assert Filter([x, x], "FOOD") == [x, x];
    assert TakeKind([x, x], "FOOD", 1) == [x];
    assert RemoveIds([x], [x]) == [];
  }

  /** Same id, same category: true of items created from one catalog. */
  predicate IdsFixCategory(xs: seq<Item>) {
    forall x, y :: x in xs && y in xs && x.id == y.id ==> x.category == y.category
  }

  lemma {:induction false} RemoveIdsKeepsKind(xs: seq<Item>, taken: seq<Item>, k: string)
    requires forall x :: x in xs && IsKind(x, k) ==> !HasId(taken, x.id)
    ensures Filter(RemoveIds(xs, taken), k) == Filter(xs, k)
  {
    if xs != [] {
      var head := if HasId(taken, xs[0].id) then [] else [xs[0]];
      assert RemoveIds(xs, taken) == head + RemoveIds(xs[1..], taken);
      FilterAppend(head, RemoveIds(xs[1..], taken), k);
      assert forall x :: x in xs[1..] ==> x in xs;
      RemoveIdsKeepsKind(xs[1..], taken, k);
    }
  }

  /** Paying a line of one kind leaves the items of every other kind as
      they were, when ids fix categories. */
  lemma PayKeepsOtherKinds(xs: seq<Item>, kind: string, m: nat, k: string)
    requires IdsFixCategory(xs) && k != kind
    ensures Filter(Pay(xs, kind, m), k) == Filter(xs, k)
  {
    var taken := TakeKind(xs, kind, m);
    FilterWithin(xs, kind);
    WithinMembers(Filter(xs, kind), xs);
    FilterKind(xs, kind);
    forall x | x in xs && IsKind(x, k) ensures !HasId(taken, x.id) {
      if HasId(taken, x.id) {
        var y := HasIdWitness(taken, x.id);
        assert y in Filter(xs, kind);
        assert false;
      }
    }
    RemoveIdsKeepsKind(xs, taken, k);
  }

  /** The personal part of an Abstract payment: survivors in roster order
      each give up to what is still owed; once nothing is owed the walk
      stops. The second component is what is still owed at the end. */
  function PayPersonal(survivors: seq<Survivor>, kind: string, owed: nat): (r: (seq<Survivor>, nat))
    ensures |r.0| == |survivors| && r.1 <= owed
  {
    if survivors == [] || owed == 0 then (survivors, owed)
    else
      var s := survivors[0];
      var taken := TakeKind(s.personalInventory, kind, owed);
      var rest := PayPersonal(survivors[1..], kind, owed - |taken|);
      ([s.(personalInventory := Pay(s.personalInventory, kind, owed))] + rest.0, rest.1)
  }

  /** The personal payment takes at least what is owed, or everything of
      that kind when the survivors hold less. */
  lemma {:induction false} PayPersonalCount(survivors: seq<Survivor>, kind: string, owed: nat)
    ensures Count(Flatten(PayPersonal(survivors, kind, owed).0), kind) + Min(owed, Count(Flatten(survivors), kind))
      <= Count(Flatten(survivors), kind)
  {
    if survivors != [] && owed != 0 {
      var s := survivors[0];
      var t := |TakeKind(s.personalInventory, kind, owed)|;
      var paid := s.(personalInventory := Pay(s.personalInventory, kind, owed));
      var rest := PayPersonal(survivors[1..], kind, owed - t).0;
      var r := PayPersonal(survivors, kind, owed).0;
      assert r == [paid] + rest by {
        PayPersonalStep(survivors, kind, owed);
      }
      assert Count(Flatten(r), kind) == Count(paid.personalInventory, kind) + Count(Flatten(rest), kind) by {
        assert r[0] == paid && r[1..] == rest;
        CountAppend(paid.personalInventory, Flatten(rest), kind);
      }
      assert Count(Flatten(survivors), kind) == Count(s.personalInventory, kind) + Count(Flatten(survivors[1..]), kind) by {
        CountAppend(s.personalInventory, Flatten(survivors[1..]), kind);
      }
      assert Count(paid.personalInventory, kind) + t <= Count(s.personalInventory, kind) by {
        PayCount(s.personalInventory, kind, owed);
      }
      assert Count(Flatten(rest), kind) + Min(owed - t, Count(Flatten(survivors[1..]), kind))
             <= Count(Flatten(survivors[1..]), kind) by {
        PayPersonalCount(survivors[1..], kind, owed - t);
      }
    }
  }

  /** Roster order: once the survivors before position j hold enough of
      the kind, nobody from j on gives anything. */
  lemma {:induction false} PayPersonalRosterOrder(survivors: seq<Survivor>, kind: string, owed: nat, j: nat)
    requires j <= |survivors|
    requires Count(Flatten(survivors[..j]), kind) >= owed
    ensures PayPersonal(survivors, kind, owed).0[j..] == survivors[j..]
  {
    if survivors != [] && owed != 0 {
      var s := survivors[0];
      var t := |TakeKind(s.personalInventory, kind, owed)|;
      var paid := s.(personalInventory := Pay(s.personalInventory, kind, owed));
      var rest := PayPersonal(survivors[1..], kind, owed - t).0;
      assert PayPersonal(survivors, kind, owed).0 == [paid] + rest by {
        PayPersonalStep(survivors, kind, owed);
      }
      assert j > 0;
      assert Count(Flatten(survivors[1..][..j - 1]), kind) >= owed - t by {
        PrefixCount(survivors, j, kind);
      }
      assert rest[j - 1..] == survivors[1..][j - 1..] by {
        PayPersonalRosterOrder(survivors[1..], kind, owed - t, j - 1);
      }
      assert ([paid] + rest)[j..] == rest[j - 1..];
      assert survivors[j..] == survivors[1..][j - 1..];
    }
  }

  /** The first survivor's hand and the next `j - 1` hands make up the
      first `j` hands. */
  lemma PrefixCount(survivors: seq<Survivor>, j: nat, kind: string)
    requires 0 < j <= |survivors|
    ensures Count(Flatten(survivors[..j]), kind)
         == Count(survivors[0].personalInventory, kind) + Count(Flatten(survivors[1..][..j - 1]), kind)
  {
    assert survivors[..j] == [survivors[0]] + survivors[1..][..j - 1];
    FlattenAppend([survivors[0]], survivors[1..][..j - 1]);
    assert Flatten([survivors[0]]) == survivors[0].personalInventory + Flatten([]);
    CountAppend(survivors[0].personalInventory, Flatten(survivors[1..][..j - 1]), kind);
  }

  /** One requirement line: colony stock first; only for an Abstract crisis
      still short of the amount, the survivors' personal items. */
  function PayRequirement(colony: seq<Item>, survivors: seq<Survivor>, scope: CrisisType, req: Requirement)
    : (r: (seq<Item>, seq<Survivor>))
    ensures |r.1| == |survivors|
  {
    var owed := req.amount - |TakeKind(colony, req.kind, req.amount)|;
    var colony' := Pay(colony, req.kind, req.amount);
    if owed > 0 && scope == Abstract then (colony', PayPersonal(survivors, req.kind, owed).0)
    else (colony', survivors)
  }

  /** All requirement lines, paid one after the other in listed order. */
  function PayAll(colony: seq<Item>, survivors: seq<Survivor>, scope: CrisisType, reqs: seq<Requirement>)
    : (r: (seq<Item>, seq<Survivor>))
    ensures |r.1| == |survivors|
    decreases |reqs|
  {
    if reqs == [] then (colony, survivors)
    else
      var before := PayAll(colony, survivors, scope, reqs[..|reqs| - 1]);
      PayRequirement(before.0, before.1, scope, reqs[|reqs| - 1])
  }

  /** Colony first: personal inventories are untouched by a Physical crisis
      and by any line the colony stock covers on its own. */
  lemma PayRequirementColonyFirst(colony: seq<Item>, survivors: seq<Survivor>, scope: CrisisType, req: Requirement)
    requires scope == Physical || Count(colony, req.kind) >= req.amount
    ensures PayRequirement(colony, survivors, scope, req).1 == survivors
  {
  }

  lemma {:induction false} PayAllPhysical(colony: seq<Item>, survivors: seq<Survivor>, reqs: seq<Requirement>)
    ensures PayAll(colony, survivors, Physical, reqs).1 == survivors
    decreases |reqs|
  {
    if reqs != [] {
      PayAllPhysical(colony, survivors, reqs[..|reqs| - 1]);
    }
  }

  /** Roster order within one line: survivor j gives nothing when the
      colony stock and the survivors before j already cover the line. */
  lemma PayRequirementRosterOrder(colony: seq<Item>, survivors: seq<Survivor>, scope: CrisisType,
                                  req: Requirement, j: nat)
    requires j <= |survivors|
    requires Count(colony, req.kind) + Count(Flatten(survivors[..j]), req.kind) >= req.amount
    ensures PayRequirement(colony, survivors, scope, req).1[j..] == survivors[j..]
  {
    var owed := req.amount - |TakeKind(colony, req.kind, req.amount)|;
    if owed > 0 && scope == Abstract {
      PayPersonalRosterOrder(survivors, req.kind, owed, j);
    }
  }

  /** Paying a covered line removes at least its amount from the eligible
      pool (more when several items share an id), and never more than the
      pool holds of that kind. */
  lemma PayRequirementCount(colony: seq<Item>, survivors: seq<Survivor>, scope: CrisisType, req: Requirement)
    ensures var after := PayRequirement(colony, survivors, scope, req);
      Count(Pool(after.0, after.1, scope), req.kind) + Min(req.amount, Count(Pool(colony, survivors, scope), req.kind))
        <= Count(Pool(colony, survivors, scope), req.kind)
  {
    var after := PayRequirement(colony, survivors, scope, req);
    var owed := req.amount - |TakeKind(colony, req.kind, req.amount)|;
    assert Count(after.0, req.kind) + Min(req.amount, Count(colony, req.kind)) <= Count(colony, req.kind) by {
      PayCount(colony, req.kind, req.amount);
    }
    if scope == Abstract {
      assert Count(Pool(colony, survivors, scope), req.kind) == Count(colony, req.kind) + Count(Flatten(survivors), req.kind) by {
        CountAppend(colony, Flatten(survivors), req.kind);
      }
      assert Count(Pool(after.0, after.1, scope), req.kind) == Count(after.0, req.kind) + Count(Flatten(after.1), req.kind) by {
        CountAppend(after.0, Flatten(after.1), req.kind);
      }
      if owed > 0 {
        assert Count(Flatten(after.1), req.kind) + Min(owed, Count(Flatten(survivors), req.kind))
               <= Count(Flatten(survivors), req.kind) by {
          PayPersonalCount(survivors, req.kind, owed);
        }
      }
    }
  }

  /** Each survivor's items of kind `k` are as they were. */
  ghost predicate KindKept(before: seq<Survivor>, after: seq<Survivor>, k: string) {
    |after| == |before|
    && forall i :: 0 <= i < |before| ==>
         Filter(after[i].personalInventory, k) == Filter(before[i].personalInventory, k)
  }

  /** Every personal inventory has ids that fix categories. */
  ghost predicate InventoriesFixCategory(survivors: seq<Survivor>) {
    forall i :: 0 <= i < |survivors| ==> IdsFixCategory(survivors[i].personalInventory)
  }

  lemma InventoriesFixCategoryTail(survivors: seq<Survivor>)
    requires survivors != [] && InventoriesFixCategory(survivors)
    ensures IdsFixCategory(survivors[0].personalInventory) && InventoriesFixCategory(survivors[1..])
  {
    forall i | 0 <= i < |survivors[1..]| ensures IdsFixCategory(survivors[1..][i].personalInventory) {
      assert survivors[1..][i] == survivors[i + 1];
    }
  }

  lemma {:induction false} PayPersonalKeepsOtherKinds(survivors: seq<Survivor>, kind: string, owed: nat, k: string)
    requires k != kind
    requires InventoriesFixCategory(survivors)
    ensures KindKept(survivors, PayPersonal(survivors, kind, owed).0, k)
  {
    if survivors != [] && owed != 0 {
      var s := survivors[0];
      var t := |TakeKind(s.personalInventory, kind, owed)|;
      var paid := s.(personalInventory := Pay(s.personalInventory, kind, owed));
      var rest := PayPersonal(survivors[1..], kind, owed - t).0;
      assert PayPersonal(survivors, kind, owed).0 == [paid] + rest by {
        PayPersonalStep(survivors, kind, owed);
      }
      InventoriesFixCategoryTail(survivors);
      assert Filter(paid.personalInventory, k) == Filter(s.personalInventory, k) by {
        PayKeepsOtherKinds(s.personalInventory, kind, owed, k);
      }
      assert KindKept(survivors[1..], rest, k) by {
        PayPersonalKeepsOtherKinds(survivors[1..], kind, owed - t, k);
      }
      KindKeptCons(s, paid, survivors[1..], rest, k);
      assert [s] + survivors[1..] == survivors;
    }
  }

  lemma KindKeptCons(a: Survivor, b: Survivor, before: seq<Survivor>, after: seq<Survivor>, k: string)
    requires Filter(b.personalInventory, k) == Filter(a.personalInventory, k)
    requires KindKept(before, after, k)
    ensures KindKept([a] + before, [b] + after, k)
  {
    forall i | 0 <= i < |[a] + before|
      ensures Filter(([b] + after)[i].personalInventory, k) == Filter(([a] + before)[i].personalInventory, k)
    {
      if i > 0 {
        assert ([b] + after)[i] == after[i - 1];
        assert ([a] + before)[i] == before[i - 1];
      }
    }
  }

  lemma PayRequirementKeepsOtherKinds(colony: seq<Item>, survivors: seq<Survivor>, scope: CrisisType,
                                      req: Requirement, k: string)
    requires k != req.kind
    requires IdsFixCategory(colony) && InventoriesFixCategory(survivors)
    ensures Filter(PayRequirement(colony, survivors, scope, req).0, k) == Filter(colony, k)
    ensures KindKept(survivors, PayRequirement(colony, survivors, scope, req).1, k)
  {
    PayKeepsOtherKinds(colony, req.kind, req.amount, k);
    var owed := req.amount - |TakeKind(colony, req.kind, req.amount)|;
    if owed > 0 && scope == Abstract {
      PayPersonalKeepsOtherKinds(survivors, req.kind, owed, k);
    }
  }

  /** Survivors are unchanged but for their inventories, which only lose
      items. */
  ghost predicate OnlyInventoriesShrink(before: seq<Survivor>, after: seq<Survivor>) {
    |after| == |before|
    && forall i :: 0 <= i < |before| ==>
         after[i] == before[i].(personalInventory := after[i].personalInventory)
         && Within(after[i].personalInventory, before[i].personalInventory)
  }

  lemma OnlyInventoriesShrinkTrans(a: seq<Survivor>, b: seq<Survivor>, c: seq<Survivor>)
    requires OnlyInventoriesShrink(a, b) && OnlyInventoriesShrink(b, c)
    ensures OnlyInventoriesShrink(a, c)
  {
  }

  lemma PayWithin(xs: seq<Item>, kind: string, k: nat)
    ensures Within(Pay(xs, kind, k), xs)
  {
    RemoveIdsWithin(xs, TakeKind(xs, kind, k));
  }

  lemma {:induction false} PayPersonalShrinks(survivors: seq<Survivor>, kind: string, owed: nat)
    ensures OnlyInventoriesShrink(survivors, PayPersonal(survivors, kind, owed).0)
  {
    if survivors != [] && owed != 0 {
      var s := survivors[0];
      var t := |TakeKind(s.personalInventory, kind, owed)|;
      var paid := s.(personalInventory := Pay(s.personalInventory, kind, owed));
      var rest := PayPersonal(survivors[1..], kind, owed - t).0;
      assert PayPersonal(survivors, kind, owed).0 == [paid] + rest by {
        PayPersonalStep(survivors, kind, owed);
      }
      assert Within(paid.personalInventory, s.personalInventory) by {
        PayWithin(s.personalInventory, kind, owed);
      }
      assert OnlyInventoriesShrink(survivors[1..], rest) by {
        PayPersonalShrinks(survivors[1..], kind, owed - t);
      }
      ShrinkCons(s, paid, survivors[1..], rest);
      assert [s] + survivors[1..] == survivors;
    }
  }

  lemma ShrinkCons(a: Survivor, b: Survivor, before: seq<Survivor>, after: seq<Survivor>)
    requires b == a.(personalInventory := b.personalInventory)
    requires Within(b.personalInventory, a.personalInventory)
    requires OnlyInventoriesShrink(before, after)
    ensures OnlyInventoriesShrink([a] + before, [b] + after)
  {
    forall i | 0 <= i < |[a] + before|
      ensures ([b] + after)[i] == ([a] + before)[i].(personalInventory := ([b] + after)[i].personalInventory)
      ensures Within(([b] + after)[i].personalInventory, ([a] + before)[i].personalInventory)
    {
      if i > 0 {
        assert ([b] + after)[i] == after[i - 1];
        assert ([a] + before)[i] == before[i - 1];
      }
    }
  }

  /** Paying never adds an item anywhere and changes nothing about a
      survivor but the personal inventory. */
  lemma {:induction false} PayAllShrinks(colony: seq<Item>, survivors: seq<Survivor>, scope: CrisisType,
                                       reqs: seq<Requirement>)
    ensures Within(PayAll(colony, survivors, scope, reqs).0, colony)
    ensures OnlyInventoriesShrink(survivors, PayAll(colony, survivors, scope, reqs).1)
    decreases |reqs|
  {
    if reqs != [] {
      var before := PayAll(colony, survivors, scope, reqs[..|reqs| - 1]);
      var req := reqs[|reqs| - 1];
      PayAllShrinks(colony, survivors, scope, reqs[..|reqs| - 1]);
      PayWithin(before.0, req.kind, req.amount);
      var owed := req.amount - |TakeKind(before.0, req.kind, req.amount)|;
      if owed > 0 && scope == Abstract {
        PayPersonalShrinks(before.1, req.kind, owed);
        OnlyInventoriesShrinkTrans(survivors, before.1, PayAll(colony, survivors, scope, reqs).1);
      }
    }
  }

  lemma SubsetFixesCategory(xs: seq<Item>, ys: seq<Item>)
    requires IdsFixCategory(ys) && Within(xs, ys)
    ensures IdsFixCategory(xs)
  {
    WithinMembers(xs, ys);
  }

  /** Items of a kind no requirement line names are left exactly as they
      were, in the colony and in every personal inventory, provided ids fix
      categories (as they do for items created from one catalog). */
  lemma {:induction false} PayAllKeepsOtherKinds(colony: seq<Item>, survivors: seq<Survivor>, scope: CrisisType,
                                               reqs: seq<Requirement>, k: string)
    requires forall i :: 0 <= i < |reqs| ==> reqs[i].kind != k
    requires IdsFixCategory(colony) && InventoriesFixCategory(survivors)
    ensures Filter(PayAll(colony, survivors, scope, reqs).0, k) == Filter(colony, k)
    ensures KindKept(survivors, PayAll(colony, survivors, scope, reqs).1, k)
    decreases |reqs|
  {
    if reqs != [] {
      var prefix := reqs[..|reqs| - 1];
      var before := PayAll(colony, survivors, scope, prefix);
      PayAllKeepsOtherKinds(colony, survivors, scope, prefix, k);
      PayAllShrinks(colony, survivors, scope, prefix);
      SubsetFixesCategory(before.0, colony);
      forall i | 0 <= i < |before.1| ensures IdsFixCategory(before.1[i].personalInventory) {
        SubsetFixesCategory(before.1[i].personalInventory, survivors[i].personalInventory);
      }
      PayRequirementKeepsOtherKinds(before.0, before.1, scope, reqs[|reqs| - 1], k);
    }
  }

  lemma PayPersonalStep(survivors: seq<Survivor>, kind: string, owed: nat)
    requires survivors != [] && owed > 0
    ensures var s := survivors[0];
      var rest := PayPersonal(survivors[1..], kind, owed - |TakeKind(s.personalInventory, kind, owed)|);
      PayPersonal(survivors, kind, owed)
        == ([s.(personalInventory := Pay(s.personalInventory, kind, owed))] + rest.0, rest.1)
  {
  }

  /** Where the walk over the roster stands after the first `j`
      survivors: they are paid, the rest are untouched, and paying the rest
      what is still owed finishes the payment. */
  ghost predicate Walked(survivors0: seq<Survivor>, kind: string, owed0: nat,
                         survivors: seq<Survivor>, j: nat, owed: nat) {
    j <= |survivors| == |survivors0|
    && survivors[j..] == survivors0[j..]
    && PayPersonal(survivors0, kind, owed0).0 == survivors[..j] + PayPersonal(survivors0[j..], kind, owed).0
    && PayPersonal(survivors0, kind, owed0).1 == PayPersonal(survivors0[j..], kind, owed).1
  }

  /** One survivor of the walk: they give what is owed or all they
      have of the kind. */
  lemma WalkStep(survivors0: seq<Survivor>, kind: string, owed0: nat, survivors: seq<Survivor>, j: nat, owed: nat,
                 next: seq<Survivor>, owed': nat)
    requires Walked(survivors0, kind, owed0, survivors, j, owed) && j < |survivors| && owed > 0
    requires next == survivors[j := survivors[j].(personalInventory := Pay(survivors[j].personalInventory, kind, owed))]
    requires owed' == owed - |TakeKind(survivors[j].personalInventory, kind, owed)|
    ensures Walked(survivors0, kind, owed0, next, j + 1, owed')
  {
    var paid := next[j];
    var rest := PayPersonal(survivors0[j + 1..], kind, owed');
    assert PayPersonal(survivors0[j..], kind, owed) == ([paid] + rest.0, rest.1) by {
      var tail := survivors0[j..];
      assert tail[0] == survivors[j] && tail[1..] == survivors0[j + 1..];
      PayPersonalStep(tail, kind, owed);
    }
    assert next[..j + 1] == survivors[..j] + [paid];
    assert next[j + 1..] == survivors0[j + 1..];
    assert survivors[..j] + ([paid] + rest.0) == next[..j + 1] + rest.0;
  }

  /** The inner walk over the roster for one line of an Abstract crisis:
      each survivor in turn gives up to what is still owed, and the walk
      stops as soon as nothing is owed. */
  method PayFromSurvivors(survivors0: seq<Survivor>, kind: string, owed0: nat)
    returns (survivors: seq<Survivor>, owed: nat)
    ensures (survivors, owed) == PayPersonal(survivors0, kind, owed0)
  {
    survivors, owed := survivors0, owed0;
    var j := 0;
    assert survivors0[0..] == survivors0 && survivors[..0] == [];
    while j < |survivors|
      invariant Walked(survivors0, kind, owed0, survivors, j, owed)
    {
      if owed == 0 {
        break;
      }
      var s := survivors[j];
      var fromPersonal := TakeKind(s.personalInventory, kind, owed);
      var paid := s.(personalInventory := RemoveIds(s.personalInventory, fromPersonal));
      ghost var before, owedBefore := survivors, owed;
      survivors := survivors[j := paid];
      owed := owed - |fromPersonal|;
      WalkStep(survivors0, kind, owed0, before, j, owedBefore, survivors, owed);
      j := j + 1;
    }
    assert survivors == survivors[..j] + survivors[j..];
  }

  /** The deduction as the engine runs it: a loop over the requirement
      lines, each paid from the colony first and then, for an Abstract
      crisis still short, from the survivors in roster order. */
  method Deduct(colony0: seq<Item>, survivors0: seq<Survivor>, scope: CrisisType, reqs: seq<Requirement>)
    returns (colony: seq<Item>, survivors: seq<Survivor>)
    ensures (colony, survivors) == PayAll(colony0, survivors0, scope, reqs)
  {
    colony, survivors := colony0, survivors0;
    for i := 0 to |reqs|
      invariant (colony, survivors) == PayAll(colony0, survivors0, scope, reqs[..i])
    {
      assert reqs[..i + 1][..i] == reqs[..i];
      var req := reqs[i];
      var owed: nat := req.amount;
      var fromColony := TakeKind(colony, req.kind, owed);
      colony := RemoveIds(colony, fromColony);
      owed := owed - |fromColony|;
      if owed > 0 && scope == Abstract {
        survivors, owed := PayFromSurvivors(survivors, req.kind, owed);
      }
    }
    assert reqs[..|reqs|] == reqs;
  }
}
