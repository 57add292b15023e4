/**
  The store itself: one object whose fields are the GameState fields and
  whose methods are the actions startGame, resetGame, changeDirection,
  advanceTimers and tick. Each `set` call of an action is a call of Set with
  the current fields merged with the partial object the action passes, in
  the order the action makes them.
 */
module Store {
  import opened Wrappers
  import opened Constants
  import opened GameLogic
  import opened GameRules
  import opened GameProperties

  class GameStore {
    var gameStatus: GameStatus
    var snake: seq<Coord>
    var direction: Coord
    var food: Coord
    var bonusFruit: Option<Coord>
    var boosts: seq<Boost>
    var score: int
    var gameTimer: int
    var bonusFruitTimer: int
    var boostSpawnTimer: int
    var gameSpeed: int
    var activeBoost: Option<ActiveBoost>

    /** The fields of the store as one value (the store's get). */
    function State(): GameState
      reads this
    {
      GameState(gameStatus, snake, direction, food, bonusFruit, boosts, score,
                gameTimer, bonusFruitTimer, boostSpawnTimer, gameSpeed, activeBoost)
    }

    ghost predicate Valid()
      reads this
    {
      Inv(State())
    }

    /**
      The store's set: every field takes the value it has in `next`, which
      callers form as State() merged with the partial object being set.
     */
    method Set(next: GameState)
      modifies this
      ensures State() == next
    {
      SetBoard(next);
      SetCounters(next);
    }

    /** The fields describing what is on the grid. */
    method SetBoard(next: GameState)
      modifies this`gameStatus, this`snake, this`direction, this`food, this`bonusFruit, this`boosts
      ensures gameStatus == next.gameStatus && snake == next.snake && direction == next.direction
      ensures food == next.food && bonusFruit == next.bonusFruit && boosts == next.boosts
    {
      gameStatus, snake, direction, food, bonusFruit, boosts :=
        next.gameStatus, next.snake, next.direction, next.food, next.bonusFruit, next.boosts;
    }

    /** The score, the timers, the speed and the active boost. */
    method SetCounters(next: GameState)
      modifies this`score, this`gameTimer, this`bonusFruitTimer, this`boostSpawnTimer, this`gameSpeed, this`activeBoost
      ensures score == next.score && gameTimer == next.gameTimer && bonusFruitTimer == next.bonusFruitTimer
      ensures boostSpawnTimer == next.boostSpawnTimer && gameSpeed == next.gameSpeed && activeBoost == next.activeBoost
    {
      score, gameTimer, bonusFruitTimer, boostSpawnTimer, gameSpeed, activeBoost :=
        next.score, next.gameTimer, next.bonusFruitTimer, next.boostSpawnTimer, next.gameSpeed, next.activeBoost;
    }

    /** The store as first created: initialState, with food off the initial snake. */
    constructor ()
      ensures Valid()
      ensures exists c :: IsFree(c, InitialSnake) && State() == Initial(Idle, c)
    {
      FreeCellExists(InitialSnake);
      var cell :| IsFree(cell, InitialSnake);
      gameStatus, snake, direction, food, bonusFruit, boosts := Idle, InitialSnake, InitialDirection, cell, None, [];
      score, gameTimer, bonusFruitTimer, boostSpawnTimer, gameSpeed, activeBoost :=
        0, GameTimerStart, BonusFruitSpawnRate, BoostSpawnRate, GameSpeedStart, None;
      new;
      assert State() == Initial(Idle, cell);
    }

    /** startGame: initialState with freshly drawn food, status playing. */
    method StartGame()
      modifies this
      ensures Valid()
      ensures exists c :: IsFree(c, InitialSnake) && State() == Initial(Playing, c)
    {
      FreeCellExists(InitialSnake);
      var cell :| IsFree(cell, InitialSnake);
      Set(Initial(Playing, cell));
    }

    /** resetGame: initialState with freshly drawn food, status idle. */
    method ResetGame()
      modifies this
      ensures Valid()
      ensures exists c :: IsFree(c, InitialSnake) && State() == Initial(Idle, c)
    {
      FreeCellExists(InitialSnake);
      var cell :| IsFree(cell, InitialSnake);
      Set(Initial(Idle, cell));
    }

    /** changeDirection: any direction but the exact reverse of the stored one. */
    method ChangeDirection(newDirection: Coord)
      modifies this`direction
      ensures IsReversal(newDirection, old(direction)) ==> direction == old(direction)
      ensures !IsReversal(newDirection, old(direction)) ==> direction == newDirection
      ensures State() == ChangeDirectionSpec(old(State()), newDirection)
      ensures old(Valid()) ==> Valid()
    {
      if IsReversal(newDirection, direction) {
        return;
      }
      direction := newDirection;
    }

    /**
      advanceTimers: the one-second countdown. The cells for a new bonus
      fruit and a new pickup, and the pickup's type, are chosen freely among
      those getRandomCoord and the random type choice can give; they are
      returned as ghost results.
     */
    method AdvanceTimers() returns (ghost bonusCell: Coord, ghost boostKind: BoostType, ghost boostCell: Coord)
      requires Valid()
      requires |snake| + 2 < GridSize * GridSize
      modifies this
      ensures Valid()
      ensures AdvanceTimersChoices(old(State()), bonusCell, boostCell)
      ensures State() == AdvanceTimersSpec(old(State()), bonusCell, boostKind, boostCell)
    {
      ghost var before := State();
      bonusCell, boostKind, boostCell := food, FruitFiesta, food;
      if gameStatus != Playing {
        assert State() == AdvanceTimersSpec(before, bonusCell, boostKind, boostCell);
        AdvanceTimersPreservesInv(before, State());
        return;
      }
      Set(State().(gameTimer := gameTimer - 1, bonusFruitTimer := bonusFruitTimer - 1,
                   boostSpawnTimer := boostSpawnTimer - 1, activeBoost := CountDown(activeBoost)));
      assert State() == CountedDown(before);
      if gameTimer <= 0 {
        Set(State().(gameStatus := GameOver));
        assert State() == AdvanceTimersSpec(before, bonusCell, boostKind, boostCell);
        AdvanceTimersPreservesInv(before, State());
        return;
      }
      if activeBoost.Some? && activeBoost.value.timeLeft <= 0 {
        Set(State().(activeBoost := None));
      }
      if bonusFruitTimer <= 0 {
        var exclude := snake + [food];
        FreeCellExists(exclude);
        var cell :| IsFree(cell, exclude);
        Set(State().(bonusFruit := Some(cell), bonusFruitTimer := BonusFruitSpawnRate));
        bonusCell := cell;
      }
      assert bonusFruit == FruitAfterSpawn(before, bonusCell);
      if boostSpawnTimer <= 0 {
        var kind: BoostType :| kind in BoostTypes;
        var exclude := snake + [food] + FruitCells(bonusFruit);
        FreeCellExists(exclude);
        var cell :| IsFree(cell, exclude);
        Set(State().(boosts := boosts + [Boost(kind, cell)], boostSpawnTimer := BoostSpawnRate));
        boostKind, boostCell := kind, cell;
      }
      assert AdvanceTimersChoices(before, bonusCell, boostCell);
      assert State() == AdvanceTimersSpec(before, bonusCell, boostKind, boostCell);
      AdvanceTimersPreservesInv(before, State());
    }

    /**
      tick: one step of the snake. The cells for respawned or relocated food
      are chosen freely among those getRandomCoord can give; they are
      returned as ghost results.
     */
    method Tick() returns (ghost foodCell: Coord, ghost fiestaCell: Coord)
      requires Valid()
      requires |snake| + 2 < GridSize * GridSize
      modifies this
      ensures Valid()
      ensures TickChoices(old(State()), foodCell, fiestaCell)
      ensures State() == TickSpec(old(State()), foodCell, fiestaCell)
    {
      var before := State();
      foodCell, fiestaCell := food, food;
      if gameStatus != Playing {
        assert TickChoices(before, foodCell, fiestaCell) && State() == TickSpec(before, foodCell, fiestaCell);
        TickPreservesInv(before, State());
        return;
      }
      var newHead := Coord(snake[0].x + direction.x, snake[0].y + direction.y);
      var phaseShift := IsActive(activeBoost, PhaseShift);
      if phaseShift {
        newHead := Wrap(newHead);
      }
      if (IsOutOfBounds(newHead) || IsCollision(newHead, snake)) && !phaseShift {
        Set(State().(gameStatus := GameOver));
        assert TickChoices(before, foodCell, fiestaCell) && State() == TickSpec(before, foodCell, fiestaCell);
        TickPreservesInv(before, State());
        return;
      }
      assert newHead == NextHead(before) && !Crashes(before);
      var ateFood, newScore, newFood, newBonusFruit;
      ateFood, newScore, newFood, newBonusFruit, foodCell := EatFruits(before, newHead);
      Set(State().(food := newFood));
      var newBoosts, newActiveBoost;
      newBoosts, newActiveBoost, newFood, fiestaCell := CollectBoost(before, newHead, food, foodCell);
      Set(State().(food := newFood));
      var newSnake := [newHead] + snake;
      if !ateFood {
        newSnake := newSnake[..|newSnake| - 1];
      }
      assert newSnake == TickSnake(before);
      Set(State().(snake := newSnake, score := newScore, activeBoost := newActiveBoost,
                   boosts := newBoosts, bonusFruit := newBonusFruit, gameSpeed := TickInterval(newActiveBoost)));
      assert TickChoices(before, foodCell, fiestaCell) && State() == TickSpec(before, foodCell, fiestaCell);
      TickPreservesInv(before, State());
    }
  }

  /**
    The eating part of tick, for a move that does not crash: the regular
    food scores and respawns off the snake with its new head, the bonus
    fruit scores and disappears.
   */
  method EatFruits(s: GameState, newHead: Coord)
    returns (ateFood: bool, score: int, food: Coord, bonusFruit: Option<Coord>, ghost foodCell: Coord)
    requires |s.snake| >= 1 && |s.snake| + 2 < GridSize * GridSize
    requires newHead == NextHead(s)
    ensures ateFood == (EatsFood(s) || EatsBonusFruit(s))
    ensures score == TickScore(s) && bonusFruit == TickBonusFruit(s)
    ensures food == FoodAfterMeal(s, foodCell)
    ensures EatsFood(s) ==> IsFree(foodCell, [NextHead(s)] + s.snake)
  {
    ateFood, score, food, bonusFruit, foodCell := false, s.score, s.food, s.bonusFruit, s.food;
    var newSnake := [newHead] + s.snake;
    if newHead == s.food {
      ateFood := true;
      score := score + FoodPoints(s.activeBoost);
      FreeCellExists(newSnake);
      var cell :| IsFree(cell, newSnake);
      food, foodCell := cell, cell;
    }
    if bonusFruit.Some? && newHead == bonusFruit.value {
      ateFood := true;
      score := score + BonusFruitPoints(s.activeBoost);
      bonusFruit := None;
    }
  }

  /**
    The pickup part of tick: the first pickup under the new head is removed;
    FRUIT_FIESTA moves the food off the snake and the current food, any other
    type becomes the active boost with its full duration.
   */
  method CollectBoost(s: GameState, newHead: Coord, food: Coord, ghost foodCell: Coord)
    returns (boosts: seq<Boost>, activeBoost: Option<ActiveBoost>, newFood: Coord, ghost fiestaCell: Coord)
    requires |s.snake| >= 1 && |s.snake| + 2 < GridSize * GridSize
    requires newHead == NextHead(s) && food == FoodAfterMeal(s, foodCell)
    ensures boosts == TickBoosts(s) && activeBoost == TickActiveBoost(s)
    ensures newFood == TickFood(s, foodCell, fiestaCell)
    ensures CollectsFiesta(s) ==> IsFree(fiestaCell, s.snake + [food])
  {
    boosts, activeBoost, newFood, fiestaCell := s.boosts, s.activeBoost, food, food;
    var collectedIndex := FindBoostAt(boosts, newHead);
    if collectedIndex > -1 {
      var collected := boosts[collectedIndex];
      boosts := RemoveAt(boosts, collectedIndex);
      if collected.kind == FruitFiesta {
        var exclude := s.snake + [food];
        FreeCellExists(exclude);
        var cell :| IsFree(cell, exclude);
        newFood, fiestaCell := cell, cell;
      } else {
        activeBoost := Some(ActiveBoost(collected.kind, BoostConfig(collected.kind).duration));
      }
    }
  }
}
