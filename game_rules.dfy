/**
  The rules of the game store, on values: the record of every store field,
  what each action does to it, and the properties the actions keep.
  The class in module Store performs the same actions in place.
 */
module GameRules {
  import opened Wrappers
  import opened Constants
  import opened GameLogic

  datatype GameStatus = Idle | Playing | GameOver

  /** The timed boost in effect and the seconds it has left. */
  datatype ActiveBoost = ActiveBoost(kind: BoostType, timeLeft: int)

  /** A boost pickup waiting on the board. */
  datatype Boost = Boost(kind: BoostType, location: Coord)

  /** The fields of GameState (the wall-clock lastTick is not modelled). */
  datatype GameState = GameState(
    gameStatus: GameStatus,
    snake: seq<Coord>,
    direction: Coord,
    food: Coord,
    bonusFruit: Option<Coord>,
    boosts: seq<Boost>,
    score: int,
    gameTimer: int,
    bonusFruitTimer: int,
    boostSpawnTimer: int,
    gameSpeed: int,
    activeBoost: Option<ActiveBoost>)

  /** The snake of a fresh game: one segment in the middle of the board. */
  const InitialSnake: seq<Coord> := [Coord(GridSize / 2, GridSize / 2)]

  /** A fresh game starts moving up. */
  const InitialDirection: Coord := Coord(0, -1)

  /** initialState with status `status` and food on `food`. */
  function Initial(status: GameStatus, food: Coord): GameState
  {
    GameState(status, InitialSnake, InitialDirection, food, None, [], 0,
              GameTimerStart, BonusFruitSpawnRate, BoostSpawnRate, GameSpeedStart, None)
  }

  predicate IsActive(active: Option<ActiveBoost>, t: BoostType)
  {
    active.Some? && active.value.kind == t
  }

  /** An active boost occupies the slot only for a timed type, with at most its configured time. */
  predicate IsTimedBoost(b: ActiveBoost)
  {
    b.kind != FruitFiesta && 0 <= b.timeLeft <= BoostConfig(b.kind).duration
  }

  /**
    What holds of every state the actions produce: a non-empty snake,
    everything on the board, a non-negative score, a tick interval the game
    can choose, timers between 0 and their reset values, and, while the game
    is playing, timers and the active boost not yet run out.
   */
  ghost predicate Inv(s: GameState)
  {
    && |s.snake| >= 1
    && (forall i :: 0 <= i < |s.snake| ==> InGrid(s.snake[i]))
    && InGrid(s.food)
    && (s.bonusFruit.Some? ==> InGrid(s.bonusFruit.value))
    && (forall i :: 0 <= i < |s.boosts| ==> InGrid(s.boosts[i].location))
    && s.score >= 0
    && s.gameSpeed in {GameSpeedStart / 2, GameSpeedStart, GameSpeedStart * 2}
    && (s.activeBoost.Some? ==> IsTimedBoost(s.activeBoost.value))
    && 0 <= s.gameTimer <= GameTimerStart
    && 0 <= s.bonusFruitTimer <= BonusFruitSpawnRate
    && 0 <= s.boostSpawnTimer <= BoostSpawnRate
    && (s.gameStatus == Playing ==>
          && s.gameTimer > 0 && s.bonusFruitTimer > 0 && s.boostSpawnTimer > 0
          && (s.activeBoost.Some? ==> s.activeBoost.value.timeLeft > 0))
  }

  // ---------------------------------------------------------------------
  // Scoring, speed, wrapping and the pickup list

  /** Points for eating the regular food, given the boost in effect before the move. */
  function FoodPoints(active: Option<ActiveBoost>): (points: int)
    ensures points >= ScoreFood
    ensures IsActive(active, PixelRush) ==> points == 15
    ensures IsActive(active, GlitchMultiplier) ==> points == 20
    ensures !IsActive(active, PixelRush) && !IsActive(active, GlitchMultiplier) ==> points == 10
  {
    var base := ScoreFood;
    var rushed := if IsActive(active, PixelRush) then base + ScorePixelRushBonus else base;
    if IsActive(active, GlitchMultiplier) then rushed * 2 else rushed
  }

  /** Points for eating the bonus fruit, given the boost in effect before the move. */
  function BonusFruitPoints(active: Option<ActiveBoost>): (points: int)
    ensures points >= ScoreBonusFruit
    ensures IsActive(active, GlitchMultiplier) ==> points == 100
    ensures !IsActive(active, GlitchMultiplier) ==> points == 50
  {
    if IsActive(active, GlitchMultiplier) then ScoreBonusFruit * 2 else ScoreBonusFruit
  }

  /** The tick interval in milliseconds for the boost in effect after the move. */
  function TickInterval(active: Option<ActiveBoost>): (ms: int)
    ensures ms in {GameSpeedStart / 2, GameSpeedStart, GameSpeedStart * 2}
    ensures IsActive(active, PixelRush) ==> ms == 100
    ensures IsActive(active, ChronoBrake) ==> ms == 400
    ensures !IsActive(active, PixelRush) && !IsActive(active, ChronoBrake) ==> ms == 200
  {
    if active.None? then GameSpeedStart
    else match active.value.kind
      case PixelRush => GameSpeedStart / 2
      case ChronoBrake => GameSpeedStart * 2
      case _ => GameSpeedStart
  }

  /**
    The PHASE_SHIFT wrap: a coordinate below 0 goes to the last row or
    column and one at GridSize or beyond goes to 0. The result is always on
    the board, a cell already on the board is kept, and for a head that left
    the board by one step the wrap is arithmetic modulo GridSize.
   */
  function Wrap(c: Coord): (w: Coord)
    ensures InGrid(w)
    ensures InGrid(c) ==> w == c
    ensures -1 <= c.x <= GridSize && -1 <= c.y <= GridSize ==>
              w == Coord(c.x % GridSize, c.y % GridSize)
  {
    var x := if c.x < 0 then GridSize - 1 else if c.x >= GridSize then 0 else c.x;
    var y := if c.y < 0 then GridSize - 1 else if c.y >= GridSize then 0 else c.y;
    Coord(x, y)
  }

  /**
    findIndex over the pickups: the index of the first pickup lying on `c`,
    or -1 when none does.
   */
  function FindBoostAt(boosts: seq<Boost>, c: Coord): (index: int)
    ensures -1 <= index < |boosts|
    ensures index == -1 <==> forall j :: 0 <= j < |boosts| ==> boosts[j].location != c
    ensures index >= 0 ==> boosts[index].location == c
    ensures index >= 0 ==> forall j :: 0 <= j < index ==> boosts[j].location != c
  {
    if |boosts| == 0 then -1
    else if boosts[0].location == c then 0
    else
      var rest := FindBoostAt(boosts[1..], c);
      if rest == -1 then -1 else rest + 1
  }

  /** splice(i, 1): drop the pickup at `i`, the others keeping their order. */
  function RemoveAt(boosts: seq<Boost>, i: nat): (rest: seq<Boost>)
    requires i < |boosts|
    ensures |rest| == |boosts| - 1
    ensures forall j :: 0 <= j < i ==> rest[j] == boosts[j]
    ensures forall j :: i <= j < |rest| ==> rest[j] == boosts[j + 1]
  {
    boosts[..i] + boosts[i + 1..]
  }

  /** The once-a-second countdown of the active boost, if there is one. */
  function CountDown(active: Option<ActiveBoost>): (next: Option<ActiveBoost>)
    ensures next.Some? <==> active.Some?
    ensures next.Some? ==> next.value.kind == active.value.kind
    ensures next.Some? ==> next.value.timeLeft == active.value.timeLeft - 1
  {
    match active
    case None => None
    case Some(b) => Some(b.(timeLeft := b.timeLeft - 1))
  }

  /** The bonus fruit as a list of at most one cell. */
  function FruitCells(bonusFruit: Option<Coord>): seq<Coord>
  {
    if bonusFruit.Some? then [bonusFruit.value] else []
  }

  // ---------------------------------------------------------------------
  // changeDirection

  /** Reversing: `d` is the exact negation of `current` on both axes. */
  predicate IsReversal(d: Coord, current: Coord)
  {
    d.x == -current.x && d.y == -current.y
  }

  /** The state after changeDirection(d). */
  function ChangeDirectionSpec(s: GameState, d: Coord): GameState
  {
    if IsReversal(d, s.direction) then s else s.(direction := d)
  }

  // ---------------------------------------------------------------------
  // tick

  /** The cell the head moves to, wrapped under PHASE_SHIFT. */
  function NextHead(s: GameState): Coord
    requires |s.snake| >= 1
  {
    var step := Coord(s.snake[0].x + s.direction.x, s.snake[0].y + s.direction.y);
    if IsActive(s.activeBoost, PhaseShift) then Wrap(step) else step
  }

  /** The move ends the game: a wall or the body, with no PHASE_SHIFT. */
  predicate Crashes(s: GameState)
    requires |s.snake| >= 1
  {
    !IsActive(s.activeBoost, PhaseShift) && (IsOutOfBounds(NextHead(s)) || IsCollision(NextHead(s), s.snake))
  }

  predicate EatsFood(s: GameState)
    requires |s.snake| >= 1
  {
    NextHead(s) == s.food
  }

  predicate EatsBonusFruit(s: GameState)
    requires |s.snake| >= 1
  {
    s.bonusFruit == Some(NextHead(s))
  }

  /** The new head lies on a FRUIT_FIESTA pickup (the first pickup there). */
  predicate CollectsFiesta(s: GameState)
    requires |s.snake| >= 1
  {
    var i := CollectedIndex(s);
    i != -1 && s.boosts[i].kind == FruitFiesta
  }

  /** Where the food is once the regular food has been eaten and respawned on `foodCell`. */
  function FoodAfterMeal(s: GameState, foodCell: Coord): Coord
    requires |s.snake| >= 1
  {
    if EatsFood(s) then foodCell else s.food
  }

  /**
    The random cells a tick draws are the ones getRandomCoord may return:
    the respawned food avoids the snake with its new head, and the food moved
    by FRUIT_FIESTA avoids the snake before the move and the current food.
   */
  predicate TickChoices(s: GameState, foodCell: Coord, fiestaCell: Coord)
    requires |s.snake| >= 1
  {
    s.gameStatus == Playing && !Crashes(s) ==>
      && (EatsFood(s) ==> IsFree(foodCell, [NextHead(s)] + s.snake))
      && (CollectsFiesta(s) ==> IsFree(fiestaCell, s.snake + [FoodAfterMeal(s, foodCell)]))
  }

  /** The snake after a move that does not crash: the new head in front, the tail kept only after eating. */
  function TickSnake(s: GameState): seq<Coord>
    requires |s.snake| >= 1
  {
    if EatsFood(s) || EatsBonusFruit(s) then [NextHead(s)] + s.snake
    else [NextHead(s)] + s.snake[..|s.snake| - 1]
  }

  /** The score after a move that does not crash, scored with the boost in effect before it. */
  function TickScore(s: GameState): int
    requires |s.snake| >= 1
  {
    s.score + (if EatsFood(s) then FoodPoints(s.activeBoost) else 0)
            + (if EatsBonusFruit(s) then BonusFruitPoints(s.activeBoost) else 0)
  }

  function TickBonusFruit(s: GameState): Option<Coord>
    requires |s.snake| >= 1
  {
    if EatsBonusFruit(s) then None else s.bonusFruit
  }

  /** The index of the pickup the new head collects, or -1. */
  function CollectedIndex(s: GameState): (index: int)
    requires |s.snake| >= 1
    ensures -1 <= index < |s.boosts|
  {
    FindBoostAt(s.boosts, NextHead(s))
  }

  function TickBoosts(s: GameState): seq<Boost>
    requires |s.snake| >= 1
  {
    var i := CollectedIndex(s);
    if i == -1 then s.boosts else RemoveAt(s.boosts, i)
  }

  /** The active boost after the move: a collected timed boost with its full duration, or the old one. */
  function TickActiveBoost(s: GameState): Option<ActiveBoost>
    requires |s.snake| >= 1
  {
    var i := CollectedIndex(s);
    if i != -1 && s.boosts[i].kind != FruitFiesta
    then Some(ActiveBoost(s.boosts[i].kind, BoostConfig(s.boosts[i].kind).duration))
    else s.activeBoost
  }

  function TickFood(s: GameState, foodCell: Coord, fiestaCell: Coord): Coord
    requires |s.snake| >= 1
  {
    if CollectsFiesta(s) then fiestaCell else FoodAfterMeal(s, foodCell)
  }

  /** The state after tick, given the cells it draws. */
  function TickSpec(s: GameState, foodCell: Coord, fiestaCell: Coord): GameState
    requires |s.snake| >= 1
  {
    if s.gameStatus != Playing then s
    else if Crashes(s) then s.(gameStatus := GameOver)
    else
      s.(snake := TickSnake(s),
         food := TickFood(s, foodCell, fiestaCell),
         score := TickScore(s),
         bonusFruit := TickBonusFruit(s),
         boosts := TickBoosts(s),
         activeBoost := TickActiveBoost(s),
         gameSpeed := TickInterval(TickActiveBoost(s)))
  }

  /** `t` is a state tick can produce from `s`. */
  ghost predicate TickStep(s: GameState, t: GameState)
  {
    |s.snake| >= 1 && exists f, g :: TickChoices(s, f, g) && t == TickSpec(s, f, g)
  }

  // ---------------------------------------------------------------------
  // advanceTimers

  /** The state right after the first `set` of advanceTimers: every timer one second lower. */
  function CountedDown(s: GameState): GameState
  {
    s.(gameTimer := s.gameTimer - 1,
       bonusFruitTimer := s.bonusFruitTimer - 1,
       boostSpawnTimer := s.boostSpawnTimer - 1,
       activeBoost := CountDown(s.activeBoost))
  }

  /** The bonus fruit once its spawn, if due, has put it on `bonusCell`. */
  function FruitAfterSpawn(s: GameState, bonusCell: Coord): Option<Coord>
  {
    if s.bonusFruitTimer - 1 <= 0 then Some(bonusCell) else s.bonusFruit
  }

  /**
    The random cells advanceTimers draws are the ones getRandomCoord may
    return: the bonus fruit avoids the snake and the food, and a new pickup
    avoids those and the bonus fruit.
   */
  predicate AdvanceTimersChoices(s: GameState, bonusCell: Coord, boostCell: Coord)
  {
    s.gameStatus == Playing && s.gameTimer - 1 > 0 ==>
      && (s.bonusFruitTimer - 1 <= 0 ==> IsFree(bonusCell, s.snake + [s.food]))
      && (s.boostSpawnTimer - 1 <= 0 ==>
            IsFree(boostCell, s.snake + [s.food] + FruitCells(FruitAfterSpawn(s, bonusCell))))
  }

  /** The state after advanceTimers, given the cells it draws and the boost type it picks. */
  function AdvanceTimersSpec(s: GameState, bonusCell: Coord, kind: BoostType, boostCell: Coord): GameState
  {
    if s.gameStatus != Playing then s
    else
      var c := CountedDown(s);
      if c.gameTimer <= 0 then c.(gameStatus := GameOver)
      else
        c.(activeBoost := if c.activeBoost.Some? && c.activeBoost.value.timeLeft <= 0 then None else c.activeBoost,
           bonusFruit := FruitAfterSpawn(s, bonusCell),
           bonusFruitTimer := if c.bonusFruitTimer <= 0 then BonusFruitSpawnRate else c.bonusFruitTimer,
           boosts := if c.boostSpawnTimer <= 0 then s.boosts + [Boost(kind, boostCell)] else s.boosts,
           boostSpawnTimer := if c.boostSpawnTimer <= 0 then BoostSpawnRate else c.boostSpawnTimer)
  }

  /** `t` is a state advanceTimers can produce from `s`. */
  ghost predicate AdvanceTimersStep(s: GameState, t: GameState)
  {
    exists b, k, p :: AdvanceTimersChoices(s, b, p) && t == AdvanceTimersSpec(s, b, k, p)
  }
}
