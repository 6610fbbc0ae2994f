/** The fixed rules the engine applies: starting hit points, the travel
    exposure table, rat pressure, crisis morale loss, the double kill and
    the end-of-day verdict. */
module Rules {
  import opened Types

  /** The home compound: the only place where food and deposits count and
      where the daily zombie spawn never lands. */
  const Compound: string := "L001"

  datatype Status = Playing | Won | Lost

  /** Starting hit points, chosen by the name of the survivor's skill. */
  function HpForSkill(skillName: string): (hp: int)
    ensures 2 <= hp <= 4
    ensures hp == 4 <==> skillName == "Frank"
    ensures hp == 2 <==> skillName == "Arthur" || skillName == "Chloe"
  {
    if skillName == "Frank" then 4
    else if skillName == "Arthur" || skillName == "Chloe" then 2
    else 3
  }

  /** What can happen on the road: nothing, litter (one more waste), a
      zombie following to the destination, or an ambush (one wound). */
  datatype Exposure = Safe | Litter | Noise | Ambush

  /** The outcome of a percentile exposure roll. */
  function ExposureOf(roll: int): (o: Exposure)
  {
    if roll <= 60 then Safe
    else if roll <= 80 then Litter
    else if roll <= 95 then Noise
    else Ambush
  }

  /** How many rolls in lo..hi give outcome `o`. */
  function CountRolls(o: Exposure, lo: int, hi: int): (count: nat)
    decreases hi - lo
  {
    if hi < lo then 0
    else CountRolls(o, lo, hi - 1) + (if ExposureOf(hi) == o then 1 else 0)
  }

  lemma {:induction false} CountRollsSplit(o: Exposure, lo: int, mid: int, hi: int)
    requires lo <= mid + 1 <= hi + 1
    ensures CountRolls(o, lo, hi) == CountRolls(o, lo, mid) + CountRolls(o, mid + 1, hi)
    decreases hi - mid
  {
    if hi > mid {
      CountRollsSplit(o, lo, mid, hi - 1);
    }
  }

  lemma {:induction false} CountRollsUniform(o: Exposure, lo: int, hi: int, e: Exposure)
    requires lo <= hi + 1
    requires forall r :: lo <= r <= hi ==> ExposureOf(r) == e
    ensures CountRolls(o, lo, hi) == if o == e then hi - lo + 1 else 0
    decreases hi - lo
  {
    if hi >= lo {
      CountRollsUniform(o, lo, hi - 1, e);
    }
  }

  /** Four consecutive bands a..b, b+1..c, c+1..d, d+1..e, each holding a
      single outcome: every outcome is counted exactly its band's width. */
  lemma {:induction false} CountRollsBands(o: Exposure, a: int, b: int, c: int, d: int, e: int)
    requires a <= b + 1 <= c + 1 <= d + 1 <= e + 1
    requires forall r :: a <= r <= b ==> ExposureOf(r) == Safe
    requires forall r :: b < r <= c ==> ExposureOf(r) == Litter
    requires forall r :: c < r <= d ==> ExposureOf(r) == Noise
    requires forall r :: d < r <= e ==> ExposureOf(r) == Ambush
    ensures CountRolls(o, a, e) == match o
      case Safe => b - a + 1
      case Litter => c - b
      case Noise => d - c
      case Ambush => e - d
  {
    CountRollsSplit(o, c + 1, d, e);
    CountRollsSplit(o, b + 1, c, e);
    CountRollsSplit(o, a, b, e);
    CountRollsUniform(o, a, b, Safe);
    CountRollsUniform(o, b + 1, c, Litter);
    CountRollsUniform(o, c + 1, d, Noise);
    CountRollsUniform(o, d + 1, e, Ambush);
  }

  /** Of the hundred equally likely rolls, 60 are safe, 20 bring litter,
      15 draw a zombie and 5 end in an ambush. */
  lemma ExposureWeights(o: Exposure)
    ensures CountRolls(o, 1, 100) == match o
      case Safe => 60
      case Litter => 20
      case Noise => 15
      case Ambush => 5
  {
    CountRollsBands(o, 1, 60, 80, 95, 100);
  }

/** Rat pressure: one rat per three units of waste, rounded down. */
  function RatCount(waste: nat): (rats: nat)
    ensures 3 * rats <= waste < 3 * rats + 3
  {
    waste / 3
  }

  /** Morale lost to a failed LOSE_MORALE crisis: the penalty's value, or 1
      when the value is absent or zero. */
  function MoraleLoss(value: Option<int>): (loss: int)
    ensures loss != 0
    ensures value.Some? && value.value != 0 ==> loss == value.value
    ensures value.None? || value.value == 0 ==> loss == 1
  {
    match value
    case Some(v) => if v != 0 then v else 1
    case None => 1
  }

  /** Zombies one attack removes: two for S001 on a 5 or 6, else one. */
  function ZombiesKilled(survivorId: string, die: int): (k: nat)
    ensures k == 1 || k == 2
    ensures k == 2 <==> survivorId == "S001" && (die == 5 || die == 6)
  {
    if survivorId == "S001" && (die == 5 || die == 6) then 2 else 1
  }

  /** Zombie count after an attack: never below zero. */
  function AfterAttack(zombies: nat, killed: nat): (z: nat)
    ensures z <= zombies
    ensures z == 0 <==> zombies <= killed
    ensures z > 0 ==> z + killed == zombies
  {
    if zombies >= killed then zombies - killed else 0
  }

  /** Waste after one clean-up: three less, floored at zero. */
  function CleanedWaste(waste: nat): (w: nat)
    ensures w <= waste
    ensures w == 0 <==> waste <= 3
    ensures w > 0 ==> w + 3 == waste
  {
    if waste >= 3 then waste - 3 else 0
  }

  /** The objective is a SURVIVE_DAYS one whose day count has been reached. */
  predicate SurviveDaysReached(objective: Option<MainObjective>, day: int) {
    objective.Some?
    && objective.value.winCondition.kind == "SURVIVE_DAYS"
    && objective.value.winCondition.value.Some?
    && day >= objective.value.winCondition.value.value
  }

  /** The verdict at the end of a day: the loss check on morale runs first
      and the SURVIVE_DAYS check last, so a reached objective wins even at
      non-positive morale. */
  function EndStatus(morale: int, objective: Option<MainObjective>, day: int): (s: Status)
    ensures s == Won <==> SurviveDaysReached(objective, day)
    ensures s == Lost <==> morale <= 0 && !SurviveDaysReached(objective, day)
    ensures s == Playing <==> morale > 0 && !SurviveDaysReached(objective, day)
  {
    var status := if morale <= 0 then Lost else Playing;
    if SurviveDaysReached(objective, day) then Won else status
  }
}
