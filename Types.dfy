/** The records the game engine works on: survivors, locations, items,
    crisis cards and main objectives. Optional fields of the records in
    `src/types.ts` are `Option`s; a value the engine reads as a number is an `int`. */
module Types {

  datatype Option<T> = None | Some(value: T)

  /** A survivor's named skill; the engine reads only its name. */
  datatype Skill = Skill(name: string, description: string)

  datatype Health = Healthy | Infected

  datatype Survivor = Survivor(
    id: string,
    name: string,
    hp: int,
    skill: Skill,
    status: Health,
    locationId: string,
    personalInventory: seq<Item>)

  datatype Location = Location(
    id: string,
    name: string,
    zombieSlots: int,
    searchDeck: seq<string>,
    zombies: nat,
    barricades: int,
    specialRule: Option<string>)

  /** The six item categories. */
  datatype Category = Food | Medicine | Fuel | Junk | Weapon | Barricade

  /** The tag under which a category is written in items and requirements. */
  function CategoryName(c: Category): (s: string)
    ensures |s| > 0
  {
    match c
    case Food => "FOOD"
    case Medicine => "MEDICINE"
    case Fuel => "FUEL"
    case Junk => "JUNK"
    case Weapon => "WEAPON"
    case Barricade => "BARRICADE"
  }

  lemma CategoryNameInjective(c: Category, d: Category)
    ensures CategoryName(c) == CategoryName(d) <==> c == d
  {
  }

  datatype ItemEffect = ItemEffect(
    action: string,
    value: int,
    target: Option<string>,
    description: Option<string>)

  datatype Item = Item(
    id: string,
    name: string,
    category: Category,
    usable: bool,
    description: string,
    effect: Option<ItemEffect>,
    specialRule: Option<string>)

  /** A crisis requirement line: `amount` items whose category tag is `kind`. */
  datatype Requirement = Requirement(kind: string, amount: nat)

  datatype PenaltyEffect = PenaltyEffect(kind: string, value: Option<int>)

  datatype Penalty = Penalty(
    kind: string,
    value: Option<int>,
    effects: seq<PenaltyEffect>,
    effect: Option<string>,
    duration: Option<int>)

  /** Physical crises count colony stock only; Abstract ones also count
      every survivor's personal items. */
  datatype CrisisType = Physical | Abstract

  datatype Crisis = Crisis(
    id: string,
    title: string,
    story: string,
    requirements: seq<Requirement>,
    penalty: Penalty,
    crisisType: CrisisType)

  datatype ObjectiveRequirement = ObjectiveRequirement(
    kind: Option<string>,
    value: Option<int>,
    item: Option<string>)

  datatype WinCondition = WinCondition(
    kind: string,
    value: Option<int>,
    resource: Option<string>,
    requirements: seq<ObjectiveRequirement>,
    locationId: Option<string>,
    item: Option<string>)

  datatype MainObjective = MainObjective(
    id: string,
    title: string,
    description: string,
    winCondition: WinCondition)
}
