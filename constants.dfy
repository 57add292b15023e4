/**
  Fixed configuration of the game: grid, speed, timer and score constants,
  the five boost types with their configuration, and the scoring tiers.
  Every value is fixed when the game loads; nothing here changes at run time.
 */
module Constants {

  /** The type of the constants that must be positive for the game to make sense. */
  type Positive = n: int | n > 0 witness 1

  const GridSize: Positive := 20          // cells per side
  const GameSpeedStart: Positive := 200   // milliseconds per tick
  const GameTimerStart: Positive := 180   // seconds per game

  const ScoreFood: Positive := 10
  const ScoreBonusFruit: Positive := 50
  const ScorePixelRushBonus: Positive := 5

  const BonusFruitSpawnRate: Positive := 20   // seconds between bonus fruits
  const BoostSpawnRate: Positive := 15        // seconds between boost pickups

  /** The keys of BOOST_TYPES. */
  datatype BoostType = ChronoBrake | PixelRush | GlitchMultiplier | PhaseShift | FruitFiesta

  /** The keys of BOOST_TYPES in declaration order (what `Object.keys` yields). */
  const BoostTypes: seq<BoostType> := [ChronoBrake, PixelRush, GlitchMultiplier, PhaseShift, FruitFiesta]

  /** One entry of BOOST_CONFIG. */
  datatype BoostInfo = BoostInfo(id: BoostType, symbol: string, duration: nat)

  /** BOOST_DURATION, for the four timed boosts. */
  function TimedDuration(t: BoostType): (d: nat)
    requires t != FruitFiesta
    ensures d > 0
  {
    match t
    case ChronoBrake => 8
    case PixelRush => 10
    case GlitchMultiplier => 7
    case PhaseShift => 6
  }

  /**
    BOOST_CONFIG: the entry of each boost type. Each entry is keyed by its own
    id, and the instant FRUIT_FIESTA is the only entry with no duration.
   */
  function BoostConfig(t: BoostType): (info: BoostInfo)
    ensures info.id == t
    ensures info.duration == 0 <==> t == FruitFiesta
    ensures t != FruitFiesta ==> info.duration == TimedDuration(t)
  {
    match t
    case ChronoBrake => BoostInfo(ChronoBrake, "S", TimedDuration(ChronoBrake))
    case PixelRush => BoostInfo(PixelRush, "\U{00BB}", TimedDuration(PixelRush))
    case GlitchMultiplier => BoostInfo(GlitchMultiplier, "x2", TimedDuration(GlitchMultiplier))
    case PhaseShift => BoostInfo(PhaseShift, "\U{2591}", TimedDuration(PhaseShift))
    case FruitFiesta => BoostInfo(FruitFiesta, "!!!", 0)
  }

  /** There are exactly five boost types, each listed once. */
  lemma BoostTypesEnumerated()
    ensures |BoostTypes| == 5
    ensures forall t: BoostType :: t in BoostTypes
    ensures forall i, j :: 0 <= i < j < |BoostTypes| ==> BoostTypes[i] != BoostTypes[j]
  {
    forall t: BoostType
      ensures t in BoostTypes
    {
      var k := match t
        case ChronoBrake => 0
        case PixelRush => 1
        case GlitchMultiplier => 2
        case PhaseShift => 3
        case FruitFiesta => 4;
      assert BoostTypes[k] == t;
    }
  }

  /** One entry of SCORING_TIERS. */
  datatype Tier = Tier(min: int, rank: string)

  const ScoringTiers: seq<Tier> := [
    Tier(0, "Pixel Pilot"),
    Tier(500, "Grid Runner"),
    Tier(1000, "Vector Viper"),
    Tier(1500, "CRT Conqueror"),
    Tier(2000, "Glitch God")
  ]

  /** Tiers listed from the lowest threshold to the highest, each threshold above the last. */
  ghost predicate StrictlyAscending(tiers: seq<Tier>)
  {
    forall i, j :: 0 <= i < j < |tiers| ==> tiers[i].min < tiers[j].min
  }

  /** SCORING_TIERS starts at 0, ascends strictly and names every tier. */
  lemma ScoringTiersWellFormed()
    ensures |ScoringTiers| == 5 && ScoringTiers[0].min == 0
    ensures StrictlyAscending(ScoringTiers)
    ensures forall i :: 0 <= i < |ScoringTiers| ==> ScoringTiers[i].rank != ""
  {
  }
}
