/** The game as a value: the whole store state, and one function per store
    action giving the state that action leaves behind. The store class
    performs these steps in place; the lemmas here say what the steps
    promise. */
module Game {
  import opened Types
  import opened Dice
  import opened Rules
  import opened CrisisResolution
  import opened Board

  datatype Phase = CrisisPhase | PlayerPhase | ColonyPhase | EndPhase

  /** One line of the action log, by what it reports. */
  datatype LogEntry =
    | GameStarted
    | CrisisPhaseBegins(day: int)
    | CrisisDrawn(title: Option<string>)
    | DiceRolled(dice: seq<int>)
    | PlayerPhaseBegins
    | ColonyPhaseBegins
    | CrisisSolved
    | CrisisFailed
    | MoraleLost(amount: int)
    | FoodEaten(eaters: nat)
    | FoodShort(hungry: nat)
    | RatPlague
    | DayEnds
    | GameOver(result: Status)
    | Travelled(survivorName: string, destination: Option<string>)
    | SafeJourney
    | LitterOnRoad
    | ZombieFollowed
    | Ambushed
    | ZombiesSlain(survivorName: string, killed: nat)
    | FoundItems(survivorName: string, itemNames: seq<string>)
    | FoundNothing(survivorName: string)
    | Deposited(survivorName: string, itemNames: seq<string>)

  datatype GameState = GameState(
    morale: int,
    currentDay: int,
    currentPhase: Phase,
    mainObjective: Option<MainObjective>,
    currentCrisis: Option<Crisis>,
    gameStatus: Status,
    actionLog: seq<LogEntry>,
    survivors: seq<Survivor>,
    locations: seq<Location>,
    crisisDeck: seq<Crisis>,
    colonyInventory: seq<Item>,
    waste: nat,
    actionDice: seq<int>,
    selectedSurvivorId: Option<string>)

  /** What the store holds before any game is set up. */
  const Blank: GameState :=
    GameState(0, 0, CrisisPhase, None, None, Playing, [], [], [], [], [], 0, [], None)

  /** The state every action keeps: the dice pool holds pips, at most one
      die per survivor plus one, and every item anyone holds is the
      catalog's item for its id. */
  ghost predicate Consistent(s: GameState, catalog: seq<Item>) {
    PoolFits(s.actionDice, |s.survivors| + 1)
    && FromCatalog(s.colonyInventory, catalog)
    && Stocked(s.survivors, catalog)
  }

  // ---- setup -------------------------------------------------------------

  /** A survivor joining the game: hit points from the skill, standing in
      the compound, carrying nothing. */
  function Recruit(s: Survivor): (recruit: Survivor) {
    s.(hp := HpForSkill(s.skill.name), locationId := Compound, personalInventory := [])
  }

  /** The opening party: the first three of the shuffled roster. */
  function StartingRoster(shuffled: seq<Survivor>): (party: seq<Survivor>) {
    var n := Min(3, |shuffled|);
    seq(n, i requires 0 <= i < n => Recruit(shuffled[i]))
  }

  function ClearedLocations(catalog: seq<Location>): (cleared: seq<Location>) {
    seq(|catalog|, i requires 0 <= i < |catalog| => catalog[i].(zombies := 0, barricades := 0))
  }

  /** A new game. The crisis on display is not reset. */
  function Setup(s: GameState, objective: Option<MainObjective>, survivorShuffle: seq<Survivor>,
                 places: seq<Location>, crisisShuffle: seq<Crisis>): (after: GameState) {
    s.(mainObjective := objective, survivors := StartingRoster(survivorShuffle),
       locations := ClearedLocations(places), crisisDeck := crisisShuffle,
       morale := 5, currentDay := 1, currentPhase := CrisisPhase, gameStatus := Playing,
       actionLog := [GameStarted], waste := 0, colonyInventory := [], actionDice := [],
       selectedSurvivorId := None)
  }

  /** The opening party is at most three survivors, each in the compound
      with nothing in hand and the hit points of their skill. */
  lemma StartingRosterRecruits(shuffled: seq<Survivor>, catalog: seq<Item>)
    ensures |StartingRoster(shuffled)| == Min(3, |shuffled|) <= 3
    ensures Stocked(StartingRoster(shuffled), catalog)
    ensures forall i :: 0 <= i < |StartingRoster(shuffled)| ==>
      StartingRoster(shuffled)[i].locationId == Compound && StartingRoster(shuffled)[i].personalInventory == []
      && StartingRoster(shuffled)[i].hp == HpForSkill(StartingRoster(shuffled)[i].skill.name)
      && StartingRoster(shuffled)[i].id == shuffled[i].id
    ensures forall i :: 0 <= i < |StartingRoster(shuffled)| ==>
      StartingRoster(shuffled)[i]
      == shuffled[i].(hp := HpForSkill(shuffled[i].skill.name), locationId := Compound, personalInventory := [])
  {
  }

  /** A prefix of a shuffle draws each catalog entry at most as often as the
      catalog holds it. */
  lemma ShufflePrefix<T>(shuffled: seq<T>, catalog: seq<T>, n: nat)
    requires multiset(shuffled) == multiset(catalog)
    requires n <= |shuffled|
    ensures |shuffled| == |catalog|
    ensures multiset(shuffled[..n]) <= multiset(catalog)
  {
    assert |multiset(shuffled)| == |multiset(catalog)|;
    assert shuffled == shuffled[..n] + shuffled[n..];
  }

  /** Setting up always yields a consistent state on day 1, whatever came
      before. */
  lemma SetupConsistent(s: GameState, objective: Option<MainObjective>, survivorShuffle: seq<Survivor>,
                        places: seq<Location>, crisisShuffle: seq<Crisis>, catalog: seq<Item>)
    ensures Consistent(Setup(s, objective, survivorShuffle, places, crisisShuffle), catalog)
  {
    StartingRosterRecruits(survivorShuffle, catalog);
  }

  // ---- dice --------------------------------------------------------------

  function Spend(s: GameState, die: int): (after: GameState) {
    s.(actionDice := RemoveFirst(s.actionDice, die))
  }

  lemma SpendConsistent(s: GameState, die: int, catalog: seq<Item>)
    requires Consistent(s, catalog)
    ensures Consistent(Spend(s, die), catalog)
  {
    RemoveFirstKeepsPips(s.actionDice, die, |s.survivors| + 1);
  }

  // ---- the four phases ---------------------------------------------------

  function CrisisTitle(c: Option<Crisis>): (title: Option<string>) {
    match c
    case None => None
    case Some(crisis) => Some(crisis.title)
  }

  /** The Crisis phase: the crisis card comes off the end of the deck (none
      once the deck is spent), every occupied location outside the compound
      gains a zombie, and a fresh roll of one die per survivor plus one
      replaces the pool. */
  function CrisisStep(s: GameState, pip: nat -> int): (after: GameState) {
    var deck := s.crisisDeck;
    var dice := Roll(|s.survivors| + 1, pip);
    var next := if deck == [] then None else Some(deck[|deck| - 1]);
    s.(crisisDeck := if deck == [] then [] else deck[..|deck| - 1],
       currentCrisis := next,
       locations := SpawnZombies(s.locations, s.survivors),
       actionDice := dice,
       currentPhase := PlayerPhase,
       actionLog := s.actionLog + [CrisisPhaseBegins(s.currentDay), CrisisDrawn(CrisisTitle(next)), DiceRolled(dice)])
  }

  function PlayerStep(s: GameState): (after: GameState) {
    s.(currentPhase := ColonyPhase, actionLog := s.actionLog + [PlayerPhaseBegins])
  }

  /** The crisis on display is averted (or there is none). */
  predicate CrisisAverted(s: GameState) {
    s.currentCrisis.None?
    || Satisfied(Pool(s.colonyInventory, s.survivors, s.currentCrisis.value.crisisType),
                 s.currentCrisis.value.requirements)
  }

  /** Morale a failed crisis costs: only LOSE_MORALE penalties are applied. */
  function CrisisPenalty(crisis: Option<Crisis>, success: bool): (loss: int) {
    if crisis.Some? && !success && crisis.value.penalty.kind == "LOSE_MORALE"
    then MoraleLoss(crisis.value.penalty.value)
    else 0
  }

  /** More rats than survivors. */
  predicate RatsOverrun(s: GameState) {
    RatCount(s.waste) > |s.survivors|
  }

  /** The crisis part of the Colony phase report. */
  function CrisisReport(crisis: Option<Crisis>, success: bool): (entries: seq<LogEntry>) {
    match crisis
    case None => []
    case Some(c) =>
      if success then [CrisisSolved]
      else [CrisisFailed] + (if c.penalty.kind == "LOSE_MORALE" then [MoraleLost(MoraleLoss(c.penalty.value))] else [])
  }

  /** The Colony phase report: header, crisis outcome, food, rats. */
  function ColonyReport(crisis: Option<Crisis>, success: bool, food: nat, eaters: nat, plague: bool): (entries: seq<LogEntry>) {
    [ColonyPhaseBegins] + CrisisReport(crisis, success)
    + [if food >= eaters then FoodEaten(eaters) else FoodShort(eaters - food)]
    + (if plague then [RatPlague] else [])
  }

  /** The Colony phase: an averted crisis is paid for, a failed LOSE_MORALE
      crisis costs morale, the food check (on the stock held when the phase
      began) is only reported, and more rats than survivors cost one more
      morale. */
  function ColonyStep(s: GameState): (after: GameState) {
    var c := s.currentCrisis;
    var paid := if c.Some? && CrisisAverted(s)
                then PayAll(s.colonyInventory, s.survivors, c.value.crisisType, c.value.requirements)
                else (s.colonyInventory, s.survivors);
    Settle(s, CrisisAverted(s), paid.0, paid.1)
  }

  /** The rest of the Colony phase once the crisis is decided: `colony` and
      `roster` are the holdings after any payment. */
  function Settle(s: GameState, success: bool, colony: seq<Item>, roster: seq<Survivor>): (after: GameState) {
    s.(colonyInventory := colony,
       survivors := roster,
       morale := s.morale - CrisisPenalty(s.currentCrisis, success) - (if RatsOverrun(s) then 1 else 0),
       currentPhase := EndPhase,
       actionLog := s.actionLog + ColonyReport(s.currentCrisis, success, Count(s.colonyInventory, "FOOD"),
                                               SurvivorsAt(s.survivors, Compound), RatsOverrun(s)))
  }

  /** The End phase: the verdict is taken; a game still on moves to the
      next day's Crisis phase, a finished one records its result. */
  function EndStep(s: GameState): (after: GameState) {
    var status := EndStatus(s.morale, s.mainObjective, s.currentDay);
    if status == Playing
    then s.(currentDay := s.currentDay + 1, currentPhase := CrisisPhase, actionLog := s.actionLog + [DayEnds])
    else s.(gameStatus := status, actionLog := s.actionLog + [DayEnds, GameOver(status)])
  }

  /** Advancing the game: nothing happens once it is over; otherwise the
      current phase runs. `pip` is the random source the Crisis phase rolls
      its dice from. */
  function Advance(s: GameState, pip: nat -> int): (after: GameState) {
    if s.gameStatus != Playing then s
    else match s.currentPhase
      case CrisisPhase => CrisisStep(s, pip)
      case PlayerPhase => PlayerStep(s)
      case ColonyPhase => ColonyStep(s)
      case EndPhase => EndStep(s)
  }

  // ---- survivor actions --------------------------------------------------

  function DestinationName(catalog: seq<Location>, id: string): (name: Option<string>) {
    match LocationIndex(catalog, id)
    case None => None
    case Some(i) => Some(catalog[i].name)
  }

  function ExposureEntry(o: Exposure): (entry: LogEntry) {
    match o
    case Safe => SafeJourney
    case Litter => LitterOnRoad
    case Noise => ZombieFollowed
    case Ambush => Ambushed
  }

  /** A journey: the die is spent first (even for an unknown survivor);
      the exposure roll then brings nothing, one more waste, a zombie at the
      destination or a wound, and the survivor arrives. */
  function Travel(s: GameState, places: seq<Location>, survivorId: string, locationId: string,
                  die: int, roll: int): (after: GameState) {
    Journey(Spend(s, die), places, survivorId, locationId, roll)
  }

  /** The trip once the die is spent. */
  function Journey(t: GameState, places: seq<Location>, survivorId: string, locationId: string, roll: int): (after: GameState) {
    match SurvivorIndex(t.survivors, survivorId)
    case None => t
    case Some(k) =>
      var o := ExposureOf(roll);
      var entries := [Travelled(t.survivors[k].name, DestinationName(places, locationId)), ExposureEntry(o)];
      Arrive(Befall(t, survivorId, locationId, o), survivorId, locationId, entries)
  }

  /** What the road does: litter adds a waste, noise a zombie at the
      destination, an ambush a wound to the traveller. */
  function Befall(t: GameState, survivorId: string, locationId: string, o: Exposure): (after: GameState) {
    t.(waste := t.waste + (if o == Litter then 1 else 0),
       locations := if o == Noise then AddZombie(t.locations, locationId) else t.locations,
       survivors := if o == Ambush then Wound(t.survivors, survivorId) else t.survivors)
  }

  /** The traveller stands at the destination and the trip is logged. */
  function Arrive(t: GameState, survivorId: string, locationId: string, entries: seq<LogEntry>): (after: GameState) {
    t.(survivors := Relocate(t.survivors, survivorId, locationId), actionLog := t.actionLog + entries)
  }

  /** An attack: the die is spent; a survivor on a location with zombies
      kills one (two for S001 on a 5 or 6), never below zero. */
  function Fight(s: GameState, survivorId: string, die: int): (after: GameState) {
    Strike(Spend(s, die), survivorId, die)
  }

  /** The attack once the die is spent. */
  function Strike(t: GameState, survivorId: string, die: int): (after: GameState) {
    match SurvivorIndex(t.survivors, survivorId)
    case None => t
    case Some(k) =>
      var here := t.survivors[k].locationId;
      match LocationIndex(t.locations, here)
      case None => t
      case Some(j) =>
        if t.locations[j].zombies == 0 then t
        else
          var killed := ZombiesKilled(survivorId, die);
          t.(locations := ThinZombies(t.locations, here, killed),
             actionLog := t.actionLog + [ZombiesSlain(t.survivors[k].name, killed)])
  }

  /** A search: the die is spent; a survivor on a location with cards left
      pops one card (two for S002 on a lucky coin with a card left), keeps
      the catalog items they name, and the search adds one waste. With no
      location or an empty deck nothing is found and only the log changes. */
  function Scavenge(s: GameState, catalog: seq<Item>, survivorId: string, die: int, extraDraw: bool): (after: GameState) {
    Rummage(Spend(s, die), catalog, survivorId, extraDraw)
  }

  /** The search after the die is spent. */
  function Rummage(t: GameState, catalog: seq<Item>, survivorId: string, extraDraw: bool): (after: GameState) {
    match SurvivorIndex(t.survivors, survivorId)
    case None => t
    case Some(k) =>
      var name := t.survivors[k].name;
      match LocationIndex(t.locations, t.survivors[k].locationId)
      case None => t.(actionLog := t.actionLog + [FoundNothing(name)])
      case Some(j) =>
        var deck := t.locations[j].searchDeck;
        if deck == [] then t.(actionLog := t.actionLog + [FoundNothing(name)])
        else
          var drawn := Draw(catalog, deck, survivorId, extraDraw);
          Loot(t, survivorId, name, j, drawn.0, drawn.1)
  }

  /** The cards popped off the end of a non-empty deck, resolved against the
      catalog, and the deck that is left. */
  function Draw(catalog: seq<Item>, deck: seq<string>, survivorId: string, extraDraw: bool): (drawn: (seq<Item>, seq<string>))
    requires deck != []
  {
    var n := DrawCount(survivorId, extraDraw, |deck|);
    (ResolveIds(catalog, PopOrder(deck, n)), deck[..|deck| - n])
  }

  /** A draw card by card: the top card's items, then the next card's when
      a second card is popped. */
  lemma DrawByPops(catalog: seq<Item>, deck: seq<string>, survivorId: string, extraDraw: bool)
    requires deck != []
    ensures var rest := deck[..|deck| - 1];
      var two := survivorId == "S002" && extraDraw && |rest| > 0;
      && Draw(catalog, deck, survivorId, extraDraw).0
         == ResolveId(catalog, deck[|deck| - 1]) + (if two then ResolveId(catalog, rest[|rest| - 1]) else [])
      && Draw(catalog, deck, survivorId, extraDraw).1 == if two then rest[..|rest| - 1] else rest
  {
    var n := DrawCount(survivorId, extraDraw, |deck|);
    var popped := PopOrder(deck, n);
    var rest := deck[..|deck| - 1];
    if n == 2 {
      assert popped == [deck[|deck| - 1], rest[|rest| - 1]];
      assert popped[1..][1..] == [];
      assert ResolveIds(catalog, popped[1..]) == ResolveId(catalog, rest[|rest| - 1]);
      assert rest[..|rest| - 1] == deck[..|deck| - 2];
    } else {
      assert popped[1..] == [];
    }
  }

  /** What a draw at location `j` leaves behind: the items go to the
      searcher, the location keeps the rest of its deck, one waste is added
      and the log names what was found. */
  function Loot(t: GameState, survivorId: string, name: string, j: nat, found: seq<Item>, rest: seq<string>): (after: GameState)
    requires j < |t.locations|
  {
    t.(survivors := if found == [] then t.survivors else GiveItems(t.survivors, survivorId, found),
       locations := ReplaceDeck(t.locations, t.locations[j].id, rest),
       waste := t.waste + 1,
       actionLog := t.actionLog + [if found == [] then FoundNothing(name) else FoundItems(name, Names(found))])
  }

  function Clean(s: GameState, die: int): (after: GameState) {
    var t := Spend(s, die);
    t.(waste := CleanedWaste(t.waste))
  }

  /** A survivor in the compound hands the whole personal inventory to the
      colony; anyone else, or an empty hand, changes nothing. */
  function Deposit(s: GameState, survivorId: string): (after: GameState) {
    match SurvivorIndex(s.survivors, survivorId)
    case None => s
    case Some(k) =>
      var who := s.survivors[k];
      if who.locationId != Compound || who.personalInventory == [] then s
      else s.(survivors := EmptyInventory(s.survivors, survivorId),
              colonyInventory := s.colonyInventory + who.personalInventory,
              actionLog := s.actionLog + [Deposited(who.name, Names(who.personalInventory))])
  }

  function Select(s: GameState, survivorId: Option<string>): (after: GameState) {
    s.(selectedSurvivorId := survivorId)
  }

  // ---- the invariant -----------------------------------------------------

  lemma CrisisConsistent(s: GameState, pip: nat -> int, catalog: seq<Item>)
    requires Consistent(s, catalog) && Pips(pip)
    ensures Consistent(CrisisStep(s, pip), catalog)
  {
    RollFits(Roll(|s.survivors| + 1, pip), |s.survivors| + 1);
  }

  lemma ColonyConsistent(s: GameState, catalog: seq<Item>)
    requires Consistent(s, catalog)
    ensures Consistent(ColonyStep(s), catalog)
  {
    var c := s.currentCrisis;
    if c.Some? && CrisisAverted(s) {
      var paid := PayAll(s.colonyInventory, s.survivors, c.value.crisisType, c.value.requirements);
      PayAllShrinks(s.colonyInventory, s.survivors, c.value.crisisType, c.value.requirements);
      FromCatalogWithin(paid.0, s.colonyInventory, catalog);
      ShrinkStocked(s.survivors, paid.1, catalog);
    }
  }

  /** Advancing keeps the invariant, given a random source that shows pips
      when the Crisis phase is the one to run. */
  lemma AdvanceConsistent(s: GameState, pip: nat -> int, catalog: seq<Item>)
    requires Consistent(s, catalog)
    requires s.gameStatus == Playing && s.currentPhase == CrisisPhase ==> Pips(pip)
    ensures Consistent(Advance(s, pip), catalog)
  {
    if s.gameStatus == Playing {
      match s.currentPhase
      case CrisisPhase => CrisisConsistent(s, pip, catalog);
      case PlayerPhase =>
      case ColonyPhase => ColonyConsistent(s, catalog);
      case EndPhase =>
    }
  }

  lemma TravelConsistent(s: GameState, places: seq<Location>, survivorId: string, locationId: string,
                         die: int, roll: int, catalog: seq<Item>)
    requires Consistent(s, catalog)
    ensures Consistent(Travel(s, places, survivorId, locationId, die, roll), catalog)
  {
    SpendConsistent(s, die, catalog);
    TravelStocked(s.survivors, survivorId, locationId, catalog);
    TravelStocked(Wound(s.survivors, survivorId), survivorId, locationId, catalog);
  }

  lemma FightConsistent(s: GameState, survivorId: string, die: int, catalog: seq<Item>)
    requires Consistent(s, catalog)
    ensures Consistent(Fight(s, survivorId, die), catalog)
  {
    SpendConsistent(s, die, catalog);
  }

  lemma ScavengeConsistent(s: GameState, survivorId: string, die: int, extraDraw: bool, catalog: seq<Item>)
    requires Consistent(s, catalog)
    ensures Consistent(Scavenge(s, catalog, survivorId, die, extraDraw), catalog)
  {
    SpendConsistent(s, die, catalog);
    var t := Spend(s, die);
    var k := SurvivorIndex(t.survivors, survivorId);
    if k.Some? {
      var j := LocationIndex(t.locations, t.survivors[k.value].locationId);
      if j.Some? && t.locations[j.value].searchDeck != [] {
        var deck := t.locations[j.value].searchDeck;
        var found := ResolveIds(catalog, PopOrder(deck, DrawCount(survivorId, extraDraw, |deck|)));
        ResolveIdsFromCatalog(catalog, PopOrder(deck, DrawCount(survivorId, extraDraw, |deck|)));
        GiveItemsStocked(t.survivors, survivorId, found, catalog);
      }
    }
  }

  lemma CleanConsistent(s: GameState, die: int, catalog: seq<Item>)
    requires Consistent(s, catalog)
    ensures Consistent(Clean(s, die), catalog)
  {
    SpendConsistent(s, die, catalog);
  }

  lemma DepositConsistent(s: GameState, survivorId: string, catalog: seq<Item>)
    requires Consistent(s, catalog)
    ensures Consistent(Deposit(s, survivorId), catalog)
  {
    var k := SurvivorIndex(s.survivors, survivorId);
    if k.Some? {
      FromCatalogAppend(s.colonyInventory, s.survivors[k.value].personalInventory, catalog);
      EmptyInventoryStocked(s.survivors, survivorId, catalog);
    }
  }

  // ---- what the steps promise --------------------------------------------

  /** A day runs Crisis, Player, Colony and End in turn, and only the End
      phase moves the day on: to the next day's Crisis phase while the game
      is on, and otherwise to a recorded verdict. */
  lemma DayCycle(s: GameState, pip: nat -> int)
    requires s.gameStatus == Playing && s.currentPhase == CrisisPhase
    ensures var a := Advance(s, pip);
            var b := Advance(a, pip);
            var c := Advance(b, pip);
            var d := Advance(c, pip);
            && a.currentPhase == PlayerPhase && b.currentPhase == ColonyPhase && c.currentPhase == EndPhase
            && a.currentDay == b.currentDay == c.currentDay == s.currentDay
            && (d.gameStatus == Playing <==> d.currentPhase == CrisisPhase && d.currentDay == s.currentDay + 1)
            && d.gameStatus == EndStatus(c.morale, s.mainObjective, s.currentDay)
            && (d.gameStatus != Playing ==> d.currentDay == s.currentDay && d.currentPhase == EndPhase)
  {
  }

  /** The Crisis phase rolls one die per survivor plus one, die `i` being
      the `i`-th draw of the random source, takes the last card of the deck
      as the crisis on display, and gives a zombie to exactly the occupied
      locations outside the compound. */
  lemma CrisisDrawsAndSpawns(s: GameState, pip: nat -> int)
    ensures var t := CrisisStep(s, pip);
            && |t.actionDice| == |s.survivors| + 1
            && (forall i :: 0 <= i < |t.actionDice| ==> t.actionDice[i] == pip(i))
            && (Pips(pip) ==> ValidRoll(t.actionDice, |t.survivors| + 1))
            && t.currentPhase == PlayerPhase
            && (s.crisisDeck == [] ==> t.crisisDeck == [] && t.currentCrisis == None)
            && (s.crisisDeck != [] ==> t.currentCrisis.Some? && t.crisisDeck + [t.currentCrisis.value] == s.crisisDeck)
            && |t.locations| == |s.locations|
            && (forall i :: 0 <= i < |s.locations| ==>
                  t.locations[i].zombies == s.locations[i].zombies
                    + (if s.locations[i].id != Compound && Occupied(s.survivors, s.locations[i].id) then 1 else 0))
            && (forall i :: 0 <= i < |s.locations| ==>
                  t.locations[i].(zombies := s.locations[i].zombies) == s.locations[i])
  {
    var deck := s.crisisDeck;
    if deck != [] {
      assert deck[..|deck| - 1] + [deck[|deck| - 1]] == deck;
    }
  }

  /** Moving, attacking, searching and cleaning spend the die before anything
      else, so it is spent even when the rest of the action does nothing; a
      deposit spends none. */
  lemma ActionsSpendDie(s: GameState, places: seq<Location>, catalog: seq<Item>, survivorId: string,
                        locationId: string, die: int, roll: int, extraDraw: bool)
    ensures Travel(s, places, survivorId, locationId, die, roll).actionDice == RemoveFirst(s.actionDice, die)
    ensures Fight(s, survivorId, die).actionDice == RemoveFirst(s.actionDice, die)
    ensures Scavenge(s, catalog, survivorId, die, extraDraw).actionDice == RemoveFirst(s.actionDice, die)
    ensures Clean(s, die).actionDice == RemoveFirst(s.actionDice, die)
    ensures Deposit(s, survivorId).actionDice == s.actionDice
  {
  }

  /** A deposit by a survivor in the compound with a non-empty hand empties
      that hand onto the end of the colony stock and touches no one else;
      otherwise it changes nothing. */
  lemma DepositMovesPack(s: GameState, survivorId: string)
    ensures var t := Deposit(s, survivorId);
            var k := SurvivorIndex(s.survivors, survivorId);
            if k.Some? && s.survivors[k.value].locationId == Compound && s.survivors[k.value].personalInventory != []
            then t.colonyInventory == s.colonyInventory + s.survivors[k.value].personalInventory
                 && |t.survivors| == |s.survivors|
                 && (forall i :: 0 <= i < |s.survivors| ==>
                       t.survivors[i] == if s.survivors[i].id == survivorId
                                         then s.survivors[i].(personalInventory := [])
                                         else s.survivors[i])
            else t == s
  {
  }

  /** Once the game is won or lost, advancing changes nothing. */
  lemma GameOverIsFinal(s: GameState, pip: nat -> int)
    requires s.gameStatus != Playing
    ensures Advance(s, pip) == s
  {
  }

  /** Morale only moves in the Colony phase. */
  lemma MoraleOnlyInColony(s: GameState, pip: nat -> int)
    requires s.currentPhase != ColonyPhase
    ensures Advance(s, pip).morale == s.morale
  {
  }

  /** With non-negative penalty values, the Colony phase never raises
      morale, and lowers it exactly when a LOSE_MORALE crisis fails or the
      rats outnumber the survivors. */
  lemma ColonyMorale(s: GameState)
    requires s.currentCrisis.Some? && s.currentCrisis.value.penalty.value.Some? ==>
             s.currentCrisis.value.penalty.value.value >= 0
    ensures ColonyStep(s).morale <= s.morale
    ensures ColonyStep(s).morale < s.morale <==>
      (s.currentCrisis.Some? && !CrisisAverted(s) && s.currentCrisis.value.penalty.kind == "LOSE_MORALE")
      || RatsOverrun(s)
  {
  }

  /** A crisis that is not averted takes nothing from anyone; an averted one
      takes only items, and leaves every kind its requirement lines do not
      name untouched, in the colony stock and in every hand. */
  lemma ColonyPaysOnlyWhatIsAsked(s: GameState, catalog: seq<Item>, k: string)
    requires Consistent(s, catalog)
    requires s.currentCrisis.Some? ==> Unnamed(s.currentCrisis.value.requirements, k)
    ensures var t := ColonyStep(s);
            && Within(t.colonyInventory, s.colonyInventory)
            && OnlyInventoriesShrink(s.survivors, t.survivors)
            && Filter(t.colonyInventory, k) == Filter(s.colonyInventory, k)
            && KindKept(s.survivors, t.survivors, k)
    ensures !CrisisAverted(s) ==>
      ColonyStep(s).colonyInventory == s.colonyInventory && ColonyStep(s).survivors == s.survivors
  {
    var c := s.currentCrisis;
    var t := ColonyStep(s);
    if c.Some? && CrisisAverted(s) {
      PayAllShrinks(s.colonyInventory, s.survivors, c.value.crisisType, c.value.requirements);
      FromCatalogFixesCategory(s.colonyInventory, catalog);
      StockedFixCategory(s.survivors, catalog);
      PayAllKeepsOtherKinds(s.colonyInventory, s.survivors, c.value.crisisType, c.value.requirements, k);
    } else {
      assert forall i :: 0 <= i < |s.survivors| ==>
        s.survivors[i] == s.survivors[i].(personalInventory := s.survivors[i].personalInventory);
    }
  }

  /** No requirement line asks for kind `k`. */
  predicate Unnamed(reqs: seq<Requirement>, k: string) {
    forall i :: 0 <= i < |reqs| ==> reqs[i].kind != k
  }

  /** A journey moves exactly the travellers with that id, wounds them only
      on an ambush, adds waste only for litter and a zombie at the
      destination only for noise. */
  lemma TravelMovesTraveller(s: GameState, places: seq<Location>, survivorId: string, locationId: string,
                             die: int, roll: int)
    requires SurvivorIndex(s.survivors, survivorId).Some?
    ensures var t := Travel(s, places, survivorId, locationId, die, roll);
            var o := ExposureOf(roll);
            && |t.survivors| == |s.survivors|
            && (forall i :: 0 <= i < |s.survivors| && s.survivors[i].id == survivorId ==>
                  t.survivors[i] == s.survivors[i].(locationId := locationId,
                                                     hp := s.survivors[i].hp - (if o == Ambush then 1 else 0)))
            && (forall i :: 0 <= i < |s.survivors| && s.survivors[i].id != survivorId ==>
                  t.survivors[i] == s.survivors[i])
            && t.waste == s.waste + (if o == Litter then 1 else 0)
            && |t.locations| == |s.locations|
            && (forall i :: 0 <= i < |s.locations| ==>
                  t.locations[i].zombies == s.locations[i].zombies
                    + (if o == Noise && s.locations[i].id == locationId then 1 else 0))
  {
    var t := Travel(s, places, survivorId, locationId, die, roll);
    var o := ExposureOf(roll);
    var u := Befall(Spend(s, die), survivorId, locationId, o);
    assert t.survivors == Relocate(u.survivors, survivorId, locationId);
    assert t.waste == u.waste && t.locations == u.locations;
    if o == Noise {
      assert u.locations == AddZombie(s.locations, locationId);
    }
    if o == Ambush {
      assert u.survivors == Wound(s.survivors, survivorId);
    } else {
      assert u.survivors == s.survivors;
    }
  }

  /** An attack changes only zombie counts and never raises one. It touches
      only the attacker's location, nothing at all when the attacker is
      unknown, and takes one or two zombies there when any are present. */
  lemma FightThins(s: GameState, survivorId: string, die: int)
    ensures var t := Fight(s, survivorId, die);
            && |t.locations| == |s.locations|
            && (forall i :: 0 <= i < |s.locations| ==> t.locations[i].zombies <= s.locations[i].zombies)
            && (forall i :: 0 <= i < |s.locations| ==> t.locations[i].(zombies := s.locations[i].zombies) == s.locations[i])
    ensures SurvivorIndex(s.survivors, survivorId).None? ==> Fight(s, survivorId, die).locations == s.locations
    ensures var t := Fight(s, survivorId, die);
            var k := SurvivorIndex(s.survivors, survivorId);
            k.Some? ==>
              forall i :: 0 <= i < |s.locations| ==>
                (s.locations[i].id != s.survivors[k.value].locationId ==> t.locations[i] == s.locations[i])
    ensures var t := Fight(s, survivorId, die);
            var k := SurvivorIndex(s.survivors, survivorId);
            var j := if k.Some? then LocationIndex(s.locations, s.survivors[k.value].locationId) else None;
            j.Some? && s.locations[j.value].zombies > 0 ==>
              t.locations[j.value].zombies == AfterAttack(s.locations[j.value].zombies, ZombiesKilled(survivorId, die))
  {
  }

  /** A successful search pops one or two cards off the end of the deck; the
      survivor gains at most that many items, each named by one of those
      cards, and the search leaves one more waste. */
  lemma ScavengeDrawsFromTop(s: GameState, catalog: seq<Item>, survivorId: string, die: int, extraDraw: bool)
    requires var k := SurvivorIndex(s.survivors, survivorId);
             var j := if k.Some? then LocationIndex(s.locations, s.survivors[k.value].locationId) else None;
             j.Some? && s.locations[j.value].searchDeck != []
    ensures var k := SurvivorIndex(s.survivors, survivorId).value;
            var j := LocationIndex(s.locations, s.survivors[k].locationId).value;
            var deck := s.locations[j].searchDeck;
            var t := Scavenge(s, catalog, survivorId, die, extraDraw);
            var n := DrawCount(survivorId, extraDraw, |deck|);
            && t.locations[j].searchDeck == deck[..|deck| - n]
            && t.locations[j].searchDeck + Reversed(PopOrder(deck, n)) == deck
            && t.survivors[k].personalInventory
               == s.survivors[k].personalInventory + ResolveIds(catalog, PopOrder(deck, n))
            && t.waste == s.waste + 1
            && |t.survivors[k].personalInventory| <= |s.survivors[k].personalInventory| + n <= |s.survivors[k].personalInventory| + 2
            && (forall x :: x in t.survivors[k].personalInventory ==>
                  x in s.survivors[k].personalInventory || (x.id in PopOrder(deck, n) && FindItem(catalog, x.id) == Some(x)))
  {
    var k := SurvivorIndex(s.survivors, survivorId).value;
    var j := LocationIndex(s.locations, s.survivors[k].locationId).value;
    var deck := s.locations[j].searchDeck;
    var n := DrawCount(survivorId, extraDraw, |deck|);
    var popped := PopOrder(deck, n);
    var found := ResolveIds(catalog, popped);
    var t := Scavenge(s, catalog, survivorId, die, extraDraw);
    PopOrderReversed(deck, n);
    ResolveIdsFromCards(catalog, popped);
    if found != [] {
      assert t.survivors[k].personalInventory == s.survivors[k].personalInventory + found;
    }
  }

  /** With unique survivor ids, depositing loses and creates no item. */
  lemma DepositConservesItems(s: GameState, survivorId: string)
    requires UniqueIds(s.survivors)
    ensures var t := Deposit(s, survivorId);
            multiset(t.colonyInventory) + multiset(Flatten(t.survivors))
            == multiset(s.colonyInventory) + multiset(Flatten(s.survivors))
  {
    var k := SurvivorIndex(s.survivors, survivorId);
    if k.Some? {
      DepositConserves(s.colonyInventory, s.survivors, k.value);
    }
  }
}
