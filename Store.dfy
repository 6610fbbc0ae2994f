/** The game store: one object holding the whole game state, whose actions
    update its fields in place. Each action is proved to leave the state
    its counterpart in module Game describes. Every random draw of the
    game (the objective, the two shuffles, the dice, the exposure roll and
    the scavenger's coin) is a parameter of the action that makes it. */
module Store {
  import opened Types
  import opened Dice
  import opened Rules
  import opened CrisisResolution
  import opened Board
  import opened Game

  /** Resolving the day's crisis: it is averted exactly when the pool it
      may draw on covers every requirement line, and then it is paid for;
      otherwise nothing is taken. */
  method ResolveCrisis(crisis: Crisis, colony0: seq<Item>, survivors0: seq<Survivor>)
    returns (success: bool, colony: seq<Item>, survivors: seq<Survivor>)
    ensures success == Satisfied(Pool(colony0, survivors0, crisis.crisisType), crisis.requirements)
    ensures success ==> (colony, survivors) == PayAll(colony0, survivors0, crisis.crisisType, crisis.requirements)
    ensures !success ==> colony == colony0 && survivors == survivors0
  {
    success := CheckRequirements(Pool(colony0, survivors0, crisis.crisisType), crisis.requirements);
    if success {
      colony, survivors := Deduct(colony0, survivors0, crisis.crisisType, crisis.requirements);
    } else {
      colony, survivors := colony0, survivors0;
    }
  }

  class GameStore {
    const survivorsData: seq<Survivor>
    const locationsData: seq<Location>
    const itemsData: seq<Item>
    const crisisData: seq<Crisis>
    const objectivesData: seq<MainObjective>

    var morale: int
    var currentDay: int
    var currentPhase: Phase
    var mainObjective: Option<MainObjective>
    var currentCrisis: Option<Crisis>
    var gameStatus: Status
    var actionLog: seq<LogEntry>
    var survivors: seq<Survivor>
    var locations: seq<Location>
    var crisisDeck: seq<Crisis>
    var colonyInventory: seq<Item>
    var waste: nat
    var actionDice: seq<int>
    var selectedSurvivorId: Option<string>

    /** The fields, read as one value. */
    ghost function State(): GameState
      reads this
    {
      GameState(morale, currentDay, currentPhase, mainObjective, currentCrisis, gameStatus, actionLog,
                survivors, locations, crisisDeck, colonyInventory, waste, actionDice, selectedSurvivorId)
    }

    ghost predicate Valid()
      reads this
    {
      Consistent(State(), itemsData)
    }

    /** The store before any game is set up. */
    constructor(survivorsData: seq<Survivor>, locationsData: seq<Location>, itemsData: seq<Item>,
                crisisData: seq<Crisis>, objectivesData: seq<MainObjective>)
      ensures Valid() && State() == Blank
      ensures this.survivorsData == survivorsData && this.locationsData == locationsData
      ensures this.itemsData == itemsData && this.crisisData == crisisData
      ensures this.objectivesData == objectivesData
    {
      this.survivorsData := survivorsData;
      this.locationsData := locationsData;
      this.itemsData := itemsData;
      this.crisisData := crisisData;
      this.objectivesData := objectivesData;
      morale, currentDay, currentPhase := 0, 0, CrisisPhase;
      mainObjective, currentCrisis, gameStatus := None, None, Playing;
      actionLog, waste, colonyInventory := [], 0, [];
      survivors, locations, crisisDeck, actionDice := [], [], [], [];
      selectedSurvivorId := None;
    }

    /** A new game, with the objective at `objectiveIndex` and the two
        shuffles given. The recruits are drawn from the roster catalog and
        the crisis deck holds the crisis catalog. */
    method SetupGame(objectiveIndex: nat, survivorShuffle: seq<Survivor>, crisisShuffle: seq<Crisis>)
      requires objectivesData != [] ==> objectiveIndex < |objectivesData|
      requires multiset(survivorShuffle) == multiset(survivorsData)
      requires multiset(crisisShuffle) == multiset(crisisData)
      modifies this
      ensures Valid()
      ensures State() == Setup(old(State()), if objectivesData == [] then None else Some(objectivesData[objectiveIndex]),
                               survivorShuffle, locationsData, crisisShuffle)
      ensures |survivors| == Min(3, |survivorsData|)
      ensures multiset(survivorShuffle[..|survivors|]) <= multiset(survivorsData)
      ensures multiset(crisisDeck) == multiset(crisisData)
    {
      SetupConsistent(State(), if objectivesData == [] then None else Some(objectivesData[objectiveIndex]),
                      survivorShuffle, locationsData, crisisShuffle, itemsData);
      DealSurvivors(survivorShuffle);
      LayOutBoard(objectiveIndex, crisisShuffle);
      ResetCounters();
    }

    method LayOutBoard(objectiveIndex: nat, crisisShuffle: seq<Crisis>)
      requires objectivesData != [] ==> objectiveIndex < |objectivesData|
      modifies this`mainObjective, this`locations, this`crisisDeck
      ensures mainObjective == if objectivesData == [] then None else Some(objectivesData[objectiveIndex])
      ensures locations == ClearedLocations(locationsData)
      ensures crisisDeck == crisisShuffle
    {
      mainObjective := if objectivesData == [] then None else Some(objectivesData[objectiveIndex]);
      locations := ClearedLocations(locationsData);
      crisisDeck := crisisShuffle;
    }

    method ResetCounters()
      modifies this`morale, this`currentDay, this`currentPhase, this`gameStatus, this`actionLog, this`waste,
               this`colonyInventory, this`actionDice, this`selectedSurvivorId
      ensures morale == 5 && currentDay == 1 && currentPhase == CrisisPhase && gameStatus == Playing
      ensures actionLog == [GameStarted] && waste == 0 && colonyInventory == [] && actionDice == []
      ensures selectedSurvivorId == None
    {
      morale, currentDay, currentPhase, gameStatus := 5, 1, CrisisPhase, Playing;
      actionLog, waste, colonyInventory, actionDice := [GameStarted], 0, [], [];
      selectedSurvivorId := None;
    }

    method DealSurvivors(survivorShuffle: seq<Survivor>)
      requires multiset(survivorShuffle) == multiset(survivorsData)
      modifies this`survivors
      ensures survivors == StartingRoster(survivorShuffle)
      ensures |survivors| == Min(3, |survivorsData|)
      ensures multiset(survivorShuffle[..|survivors|]) <= multiset(survivorsData)
    {
      survivors := StartingRoster(survivorShuffle);
      ShufflePrefix(survivorShuffle, survivorsData, |survivors|);
    }

    /** Spending a die takes the first die of that value out of the pool;
        a value not in the pool changes nothing. */
    method SpendDice(die: int)
      requires Valid()
      modifies this`actionDice
      ensures Valid()
      ensures State() == Spend(old(State()), die)
    {
      SpendConsistent(State(), die, itemsData);
      actionDice := TakeDie(actionDice, die);
    }

    method SelectSurvivor(survivorId: Option<string>)
      requires Valid()
      modifies this`selectedSurvivorId
      ensures Valid()
      ensures State() == Select(old(State()), survivorId)
    {
      selectedSurvivorId := survivorId;
    }

    method RunCrisisPhase(pip: nat -> int)
      requires Valid() && Pips(pip)
      modifies this`crisisDeck, this`currentCrisis, this`locations, this`actionDice, this`currentPhase, this`actionLog
      ensures Valid()
      ensures State() == CrisisStep(old(State()), pip)
    {
      CrisisConsistent(State(), pip, itemsData);
      OpenCrisisPhase(pip);
    }

    /** The Crisis phase once its roll is known: draw, spawn, roll, log. */
    method OpenCrisisPhase(pip: nat -> int)
      modifies this`crisisDeck, this`currentCrisis, this`locations, this`actionDice, this`currentPhase, this`actionLog
      ensures State() == CrisisStep(old(State()), pip)
    {
      var next := DrawCrisis();
      locations := SpawnZombies(locations, survivors);
      currentPhase := PlayerPhase;
      var diceCount := |survivors| + 1;
      actionDice := Roll(diceCount, pip);
      actionLog := actionLog + [CrisisPhaseBegins(currentDay), CrisisDrawn(CrisisTitle(next)), DiceRolled(actionDice)];
    }

    /** The crisis card comes off the end of the deck; a spent deck reveals
        no crisis. */
    method DrawCrisis() returns (next: Option<Crisis>)
      modifies this`crisisDeck, this`currentCrisis
      ensures old(crisisDeck) == [] ==> crisisDeck == [] && next == None
      ensures old(crisisDeck) != [] ==>
        crisisDeck == old(crisisDeck)[..|old(crisisDeck)| - 1] && next == Some(old(crisisDeck)[|old(crisisDeck)| - 1])
      ensures currentCrisis == next
    {
      next := None;
      if crisisDeck != [] {
        next := Some(crisisDeck[|crisisDeck| - 1]);
        crisisDeck := crisisDeck[..|crisisDeck| - 1];
      }
      currentCrisis := next;
    }

    method RunPlayerPhase()
      requires Valid()
      modifies this`currentPhase, this`actionLog
      ensures Valid()
      ensures State() == PlayerStep(old(State()))
    {
      currentPhase := ColonyPhase;
      actionLog := actionLog + [PlayerPhaseBegins];
    }

    method RunColonyPhase()
      requires Valid()
      modifies this`colonyInventory, this`survivors, this`morale, this`currentPhase, this`actionLog
      ensures Valid()
      ensures State() == ColonyStep(old(State()))
    {
      ColonyConsistent(State(), itemsData);
      var crisis := currentCrisis;
      var success := true;
      var colony, roster := colonyInventory, survivors;
      if crisis.Some? {
        success, colony, roster := ResolveCrisis(crisis.value, colonyInventory, survivors);
      }
      Settle(success, colony, roster);
    }

    /** Applies the decided crisis: the new holdings, the morale losses, the
        report and the move to the End phase. */
    method Settle(success: bool, colony: seq<Item>, roster: seq<Survivor>)
      modifies this`colonyInventory, this`survivors, this`morale, this`currentPhase, this`actionLog
      ensures State() == Game.Settle(old(State()), success, colony, roster)
    {
      var report := ColonyReport(currentCrisis, success, Count(colonyInventory, "FOOD"),
                                 SurvivorsAt(survivors, Compound), RatCount(waste) > |survivors|);
      var loss := CrisisPenalty(currentCrisis, success) + (if RatCount(waste) > |survivors| then 1 else 0);
      actionLog := actionLog + report;
      morale := morale - loss;
      colonyInventory, survivors := colony, roster;
      currentPhase := EndPhase;
    }

    method RunEndPhase()
      requires Valid()
      requires gameStatus == Playing
      modifies this`gameStatus, this`currentDay, this`currentPhase, this`actionLog
      ensures Valid()
      ensures State() == EndStep(old(State()))
    {
      var status := gameStatus;
      if morale <= 0 {
        status := Lost;
      }
      if mainObjective.Some? && mainObjective.value.winCondition.kind == "SURVIVE_DAYS"
         && mainObjective.value.winCondition.value.Some?
         && currentDay >= mainObjective.value.winCondition.value.value {
        status := Won;
      }
      if status != Playing {
        gameStatus := status;
        actionLog := actionLog + [DayEnds, GameOver(status)];
      } else {
        currentDay := currentDay + 1;
        currentPhase := CrisisPhase;
        actionLog := actionLog + [DayEnds];
      }
    }

    /** Advancing the game by one phase; `pip` is the random source the
        Crisis phase rolls its dice from. */
    method NextPhase(pip: nat -> int)
      requires Valid()
      requires gameStatus == Playing && currentPhase == CrisisPhase ==> Pips(pip)
      modifies this
      ensures Valid()
      ensures State() == Advance(old(State()), pip)
    {
      if gameStatus != Playing {
        return;
      }
      match currentPhase
      case CrisisPhase => RunCrisisPhase(pip);
      case PlayerPhase => RunPlayerPhase();
      case ColonyPhase => RunColonyPhase();
      case EndPhase => RunEndPhase();
    }

    method MoveSurvivor(survivorId: string, locationId: string, die: int, exposureRoll: int)
      requires Valid()
      requires 1 <= exposureRoll <= 100
      modifies this`actionDice, this`survivors, this`locations, this`waste, this`actionLog
      ensures Valid()
      ensures State() == Travel(old(State()), locationsData, survivorId, locationId, die, exposureRoll)
    {
      TravelConsistent(State(), locationsData, survivorId, locationId, die, exposureRoll, itemsData);
      SpendDice(die);
      Journey(survivorId, locationId, exposureRoll);
    }

    /** The trip once the die is spent: the exposure roll decides what
        befalls the traveller on the way. */
    method Journey(survivorId: string, locationId: string, exposureRoll: int)
      modifies this`survivors, this`locations, this`waste, this`actionLog
      ensures State() == Game.Journey(old(State()), locationsData, survivorId, locationId, exposureRoll)
    {
      var k := SurvivorIndex(survivors, survivorId);
      if k.None? {
        return;
      }
      var name := survivors[k.value].name;
      var exposure := ExposureOf(exposureRoll);
      var entries := [Travelled(name, DestinationName(locationsData, locationId)), ExposureEntry(exposure)];
      Befall(survivorId, locationId, exposure);
      Arrive(survivorId, locationId, entries);
    }

    method Befall(survivorId: string, locationId: string, exposure: Exposure)
      modifies this`survivors, this`locations, this`waste
      ensures State() == Game.Befall(old(State()), survivorId, locationId, exposure)
    {
      match exposure {
        case Safe =>
        case Litter => waste := waste + 1;
        case Noise => locations := AddZombie(locations, locationId);
        case Ambush => survivors := Wound(survivors, survivorId);
      }
    }

    method Arrive(survivorId: string, locationId: string, entries: seq<LogEntry>)
      modifies this`survivors, this`actionLog
      ensures State() == Game.Arrive(old(State()), survivorId, locationId, entries)
    {
      survivors := Relocate(survivors, survivorId, locationId);
      actionLog := actionLog + entries;
    }

    method Attack(survivorId: string, die: int)
      requires Valid()
      modifies this`actionDice, this`locations, this`actionLog
      ensures Valid()
      ensures State() == Fight(old(State()), survivorId, die)
    {
      FightConsistent(State(), survivorId, die, itemsData);
      SpendDice(die);
      Strike(survivorId, die);
    }

    /** The attack once the die is spent. */
    method Strike(survivorId: string, die: int)
      modifies this`locations, this`actionLog
      ensures State() == Game.Strike(old(State()), survivorId, die)
    {
      var k := SurvivorIndex(survivors, survivorId);
      if k.None? {
        return;
      }
      var survivor := survivors[k.value];
      var at := LocationIndex(locations, survivor.locationId);
      if at.None? || locations[at.value].zombies == 0 {
        return;
      }
      var killed := 1;
      if survivor.id == "S001" && (die == 5 || die == 6) {
        killed := 2;
      }
      locations := ThinZombies(locations, survivor.locationId, killed);
      actionLog := actionLog + [ZombiesSlain(survivor.name, killed)];
    }

    method Search(survivorId: string, die: int, extraDraw: bool)
      requires Valid()
      modifies this`actionDice, this`survivors, this`locations, this`waste, this`actionLog
      ensures Valid()
      ensures State() == Scavenge(old(State()), itemsData, survivorId, die, extraDraw)
    {
      ScavengeConsistent(State(), survivorId, die, extraDraw, itemsData);
      SpendDice(die);
      Rummage(survivorId, extraDraw);
    }

    /** The search once the die is spent: find the searcher and their
        location, then draw. */
    method Rummage(survivorId: string, extraDraw: bool)
      modifies this`survivors, this`locations, this`waste, this`actionLog
      ensures State() == Game.Rummage(old(State()), itemsData, survivorId, extraDraw)
    {
      var k := SurvivorIndex(survivors, survivorId);
      if k.None? {
        return;
      }
      var survivor := survivors[k.value];
      var at := LocationIndex(locations, survivor.locationId);
      if at.None? || locations[at.value].searchDeck == [] {
        actionLog := actionLog + [FoundNothing(survivor.name)];
        return;
      }
      var itemsFound, deck := DrawCards(locations[at.value].searchDeck, survivorId, extraDraw);
      Loot(survivorId, survivor.name, at.value, itemsFound, deck);
    }

    /** Hands the drawn items to the searcher, puts back the rest of the
        deck of location `j`, adds one waste and logs the find. */
    method Loot(survivorId: string, name: string, j: nat, itemsFound: seq<Item>, deck: seq<string>)
      requires j < |locations|
      modifies this`survivors, this`locations, this`waste, this`actionLog
      ensures State() == Game.Loot(old(State()), survivorId, name, j, itemsFound, deck)
    {
      if itemsFound != [] {
        survivors := GiveItems(survivors, survivorId, itemsFound);
      }
      locations := ReplaceDeck(locations, locations[j].id, deck);
      waste := waste + 1;
      if itemsFound != [] {
        actionLog := actionLog + [FoundItems(name, Names(itemsFound))];
      } else {
        actionLog := actionLog + [FoundNothing(name)];
      }
    }

    /** The cards a search pops off the end of a non-empty deck, and what
        they yield: the top card, then for S002 with `extraDraw` the next
        one if any is left. */
    method DrawCards(deck0: seq<string>, survivorId: string, extraDraw: bool)
      returns (itemsFound: seq<Item>, deck: seq<string>)
      requires deck0 != []
      ensures itemsFound == Draw(itemsData, deck0, survivorId, extraDraw).0
      ensures deck == Draw(itemsData, deck0, survivorId, extraDraw).1
      ensures |itemsFound| <= 2
    {
      DrawByPops(itemsData, deck0, survivorId, extraDraw);
      itemsFound, deck := PopCard(deck0);
      if survivorId == "S002" && extraDraw && |deck| > 0 {
        var more;
        more, deck := PopCard(deck);
        itemsFound := itemsFound + more;
      }
    }

    /** Pops the top card of a deck and looks it up in the item catalog. */
    method PopCard(deck0: seq<string>) returns (found: seq<Item>, deck: seq<string>)
      requires deck0 != []
      ensures found == ResolveId(itemsData, deck0[|deck0| - 1])
      ensures deck == deck0[..|deck0| - 1]
    {
      var top := deck0[|deck0| - 1];
      deck := deck0[..|deck0| - 1];
      found := [];
      if top != "" {
        var item := FindItem(itemsData, top);
        if item.Some? {
          found := [item.value];
        }
      }
    }

    /** Barricade building spends the die and does nothing else. */
    method BuildBarricade(survivorId: string, die: int)
      requires Valid()
      modifies this`actionDice
      ensures Valid()
      ensures State() == Spend(old(State()), die)
    {
      SpendDice(die);
    }

    method CleanWaste(die: int)
      requires Valid()
      modifies this`actionDice, this`waste
      ensures Valid()
      ensures State() == Clean(old(State()), die)
    {
      CleanConsistent(State(), die, itemsData);
      SpendDice(die);
      waste := if waste >= 3 then waste - 3 else 0;
    }

    /** No die is spent on a deposit. */
    method DepositItems(survivorId: string)
      requires Valid()
      modifies this`survivors, this`colonyInventory, this`actionLog
      ensures Valid()
      ensures State() == Deposit(old(State()), survivorId)
    {
      DepositConsistent(State(), survivorId, itemsData);
      Unload(survivorId);
    }

    /** Moves a survivor's whole pack into the colony stock. */
    method Unload(survivorId: string)
      modifies this`survivors, this`colonyInventory, this`actionLog
      ensures State() == Deposit(old(State()), survivorId)
    {
      var k := SurvivorIndex(survivors, survivorId);
      if k.None? || survivors[k.value].locationId != Compound || |survivors[k.value].personalInventory| == 0 {
        return;
      }
      var survivor := survivors[k.value];
      var items := survivor.personalInventory;
      survivors := EmptyInventory(survivors, survivorId);
      colonyInventory := colonyInventory + items;
      actionLog := actionLog + [Deposited(survivor.name, Names(items))];
    }
  }
}
