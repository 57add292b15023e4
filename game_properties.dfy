/** What the store's actions promise, proved on the value-level rules of module GameRules. */
module GameProperties {
  import opened Wrappers
  import opened Constants
  import opened GameLogic
  import opened GameRules

  // ---------------------------------------------------------------------
  // The invariant

  /** startGame, resetGame and the first store all satisfy the invariant. */
  lemma InitialIsValid(status: GameStatus, food: Coord)
    requires IsFree(food, InitialSnake)
    ensures Inv(Initial(status, food))
  {
  }

  lemma TickPreservesInv(s: GameState, t: GameState)
    requires Inv(s) && TickStep(s, t)
    ensures Inv(t)
  {
    var f, g :| TickChoices(s, f, g) && t == TickSpec(s, f, g);
    if s.gameStatus == Playing && !Crashes(s) {
      TickSnakeInGrid(s);
      TickBoostsInGrid(s);
    }
  }

  /** The moved snake stays on the grid: its new head is on it, the rest is the old snake. */
  lemma TickSnakeInGrid(s: GameState)
    requires Inv(s) && !Crashes(s)
    ensures forall i :: 0 <= i < |TickSnake(s)| ==> InGrid(TickSnake(s)[i])
  {
    var head := NextHead(s);
    assert InGrid(head);
    var t := TickSnake(s);
    forall i | 0 <= i < |t|
      ensures InGrid(t[i])
    {
      if i > 0 {
        assert t[i] == s.snake[i - 1];
      }
    }
  }

  /** Removing a collected pickup leaves the others, all on the grid. */
  lemma TickBoostsInGrid(s: GameState)
    requires Inv(s)
    ensures forall i :: 0 <= i < |TickBoosts(s)| ==> InGrid(TickBoosts(s)[i].location)
  {
    var t := TickBoosts(s);
    var index := CollectedIndex(s);
    forall i | 0 <= i < |t|
      ensures InGrid(t[i].location)
    {
      if index != -1 && i >= index {
        assert t[i] == s.boosts[i + 1];
      }
    }
  }

  lemma AdvanceTimersPreservesInv(s: GameState, t: GameState)
    requires Inv(s) && AdvanceTimersStep(s, t)
    ensures Inv(t)
  {
    var b, k, p :| AdvanceTimersChoices(s, b, p) && t == AdvanceTimersSpec(s, b, k, p);
    if s.gameStatus == Playing && s.gameTimer - 1 > 0 && s.boostSpawnTimer - 1 <= 0 {
      forall i | 0 <= i < |t.boosts|
        ensures InGrid(t.boosts[i].location)
      {
        if i < |s.boosts| {
          assert t.boosts[i] == s.boosts[i];
        }
      }
    }
  }

  // ---------------------------------------------------------------------
  // tick

  /** tick changes nothing unless the game is playing. */
  lemma TickIdle(s: GameState, t: GameState)
    requires TickStep(s, t) && s.gameStatus != Playing
    ensures t == s
  {
  }

  /**
    Without PHASE_SHIFT, a head off the board or on a segment after the
    first ends the game, and every other field keeps its value.
   */
  lemma TickCrash(s: GameState, t: GameState)
    requires TickStep(s, t) && s.gameStatus == Playing
    requires !IsActive(s.activeBoost, PhaseShift)
    requires IsOutOfBounds(NextHead(s)) || exists i :: 1 <= i < |s.snake| && s.snake[i] == NextHead(s)
    ensures t == s.(gameStatus := GameOver)
  {
  }

  /**
    Under PHASE_SHIFT the head is wrapped onto the board and the game goes
    on, even when the head lands on the body.
   */
  lemma TickPhaseShift(s: GameState, t: GameState)
    requires TickStep(s, t) && s.gameStatus == Playing
    requires IsActive(s.activeBoost, PhaseShift)
    ensures t.gameStatus == Playing
    ensures |t.snake| >= 1 && InGrid(t.snake[0])
    ensures t.snake[0] == Wrap(Coord(s.snake[0].x + s.direction.x, s.snake[0].y + s.direction.y))
  {
  }

  /**
    A move that eats nothing puts the new head in front and drops the
    tail: the length and the score stay as they were.
   */
  lemma TickPlainMove(s: GameState, t: GameState)
    requires TickStep(s, t) && s.gameStatus == Playing && !Crashes(s)
    requires !EatsFood(s) && !EatsBonusFruit(s)
    ensures t.snake == [NextHead(s)] + s.snake[..|s.snake| - 1]
    ensures |t.snake| == |s.snake|
    ensures t.score == s.score
  {
  }

  /**
    Eating grows the snake by exactly the new head. Food is worth 10, 15
    under PIXEL_RUSH and 20 under GLITCH_MULTIPLIER, and respawns off the
    new snake; the bonus fruit is worth 50, or 100 under GLITCH_MULTIPLIER,
    and is cleared.
   */
  lemma TickEat(s: GameState, t: GameState)
    requires TickStep(s, t) && s.gameStatus == Playing && !Crashes(s)
    requires EatsFood(s) || EatsBonusFruit(s)
    ensures t.snake == [NextHead(s)] + s.snake && |t.snake| == |s.snake| + 1
    ensures t.score == s.score + (if EatsFood(s) then FoodPoints(s.activeBoost) else 0)
                               + (if EatsBonusFruit(s) then BonusFruitPoints(s.activeBoost) else 0)
    ensures t.score > s.score
    ensures EatsBonusFruit(s) ==> t.bonusFruit == None
    ensures EatsFood(s) && !CollectsFiesta(s) ==> IsFree(t.food, t.snake)
  {
    var f, g :| TickChoices(s, f, g) && t == TickSpec(s, f, g);
  }

  /** No tick lowers the score. */
  lemma TickScoreNeverDecreases(s: GameState, t: GameState)
    requires TickStep(s, t)
    ensures t.score >= s.score
  {
  }

  /**
    Landing on a pickup removes the first pickup there, keeping the others
    in order. FRUIT_FIESTA moves the food off the snake as it was before the
    move and leaves the active boost alone; any other type becomes the active
    boost with its full duration, replacing the previous one. The tick
    interval follows the boost now active.
   */
  lemma TickPickup(s: GameState, t: GameState)
    requires TickStep(s, t) && s.gameStatus == Playing && !Crashes(s)
    requires FindBoostAt(s.boosts, NextHead(s)) != -1
    ensures var i := FindBoostAt(s.boosts, NextHead(s));
      && s.boosts[i].location == NextHead(s)
      && t.boosts == s.boosts[..i] + s.boosts[i + 1..]
      && (s.boosts[i].kind == FruitFiesta ==> t.activeBoost == s.activeBoost && IsFree(t.food, s.snake))
      && (s.boosts[i].kind != FruitFiesta ==>
            t.activeBoost == Some(ActiveBoost(s.boosts[i].kind, BoostConfig(s.boosts[i].kind).duration)))
    ensures t.gameSpeed == TickInterval(t.activeBoost)
  {
  }

  /** Landing on no pickup leaves the pickups and the active boost as they were. */
  lemma TickNoPickup(s: GameState, t: GameState)
    requires TickStep(s, t) && s.gameStatus == Playing && !Crashes(s)
    requires forall j :: 0 <= j < |s.boosts| ==> s.boosts[j].location != NextHead(s)
    ensures t.boosts == s.boosts && t.activeBoost == s.activeBoost
    ensures t.gameSpeed == TickInterval(s.activeBoost)
  {
  }

  // ---------------------------------------------------------------------
  // advanceTimers

  /** advanceTimers changes nothing unless the game is playing. */
  lemma AdvanceTimersIdle(s: GameState, t: GameState)
    requires AdvanceTimersStep(s, t) && s.gameStatus != Playing
    ensures t == s
  {
  }

  /** advanceTimers never touches the snake, its direction, the food, the score or the speed. */
  lemma AdvanceTimersKeepsBoard(s: GameState, t: GameState)
    requires AdvanceTimersStep(s, t)
    ensures t.snake == s.snake && t.direction == s.direction && t.food == s.food
    ensures t.score == s.score && t.gameSpeed == s.gameSpeed
  {
  }

  /**
    When the game timer runs out the game ends: the timers and the active
    boost have been counted down, and nothing is cleared or spawned.
   */
  lemma AdvanceTimersTimeUp(s: GameState, t: GameState)
    requires AdvanceTimersStep(s, t) && s.gameStatus == Playing && s.gameTimer - 1 <= 0
    ensures t.gameStatus == GameOver
    ensures t.gameTimer == s.gameTimer - 1
    ensures t.bonusFruitTimer == s.bonusFruitTimer - 1 && t.boostSpawnTimer == s.boostSpawnTimer - 1
    ensures t.activeBoost == CountDown(s.activeBoost)
    ensures t.bonusFruit == s.bonusFruit && t.boosts == s.boosts
  {
  }

  /**
    While time remains: every timer is one lower, a boost whose time is up is
    cleared, and a spawn timer that runs out is reset (20 for the bonus
    fruit, 15 for pickups) after placing the bonus fruit off the snake and
    the food, or appending exactly one pickup off those and the bonus fruit.
   */
  lemma AdvanceTimersTick(s: GameState, t: GameState)
    requires AdvanceTimersStep(s, t) && s.gameStatus == Playing && s.gameTimer - 1 > 0
    ensures t.gameStatus == Playing && t.gameTimer == s.gameTimer - 1
    ensures s.activeBoost.Some? && s.activeBoost.value.timeLeft - 1 <= 0 ==> t.activeBoost == None
    ensures s.activeBoost.Some? && s.activeBoost.value.timeLeft - 1 > 0 ==>
              t.activeBoost == Some(s.activeBoost.value.(timeLeft := s.activeBoost.value.timeLeft - 1))
    ensures s.activeBoost.None? ==> t.activeBoost == None
    ensures s.bonusFruitTimer - 1 <= 0 ==>
              t.bonusFruitTimer == BonusFruitSpawnRate && t.bonusFruit.Some?
              && IsFree(t.bonusFruit.value, s.snake + [s.food])
    ensures s.bonusFruitTimer - 1 > 0 ==>
              t.bonusFruitTimer == s.bonusFruitTimer - 1 && t.bonusFruit == s.bonusFruit
    ensures s.boostSpawnTimer - 1 <= 0 ==>
              && t.boostSpawnTimer == BoostSpawnRate
              && |t.boosts| == |s.boosts| + 1 && t.boosts[..|s.boosts|] == s.boosts
              && IsFree(t.boosts[|s.boosts|].location, s.snake + [s.food] + FruitCells(t.bonusFruit))
    ensures s.boostSpawnTimer - 1 > 0 ==>
              t.boostSpawnTimer == s.boostSpawnTimer - 1 && t.boosts == s.boosts
  {
    var b, k, p :| AdvanceTimersChoices(s, b, p) && t == AdvanceTimersSpec(s, b, k, p);
    if s.boostSpawnTimer - 1 <= 0 {
      assert t.boosts == s.boosts + [Boost(k, p)];
    }
  }

  // ---------------------------------------------------------------------
  // Runs of actions within one game

  /** One action other than startGame and resetGame. */
  ghost predicate Move(s: GameState, t: GameState)
  {
    TickStep(s, t) || AdvanceTimersStep(s, t) || exists d :: t == ChangeDirectionSpec(s, d)
  }

  /** A sequence of states, each reached from the one before by a Move. */
  ghost predicate IsRun(run: seq<GameState>)
  {
    forall i :: 0 < i < |run| ==> Move(run[i - 1], run[i])
  }

  /** Every state of a run from a valid state is valid. */
  lemma {:induction false} RunKeepsInv(run: seq<GameState>)
    requires |run| >= 1 && IsRun(run) && Inv(run[0])
    ensures forall i :: 0 <= i < |run| ==> Inv(run[i])
  {
    if |run| > 1 {
      var prefix := run[..|run| - 1];
      assert IsRun(prefix) by {
        forall i | 0 < i < |prefix|
          ensures Move(prefix[i - 1], prefix[i])
        {
          assert prefix[i - 1] == run[i - 1] && prefix[i] == run[i];
        }
      }
      RunKeepsInv(prefix);
      var s, t := run[|run| - 2], run[|run| - 1];
      assert prefix[|run| - 2] == s;
      assert Move(s, t);
      if TickStep(s, t) {
        TickPreservesInv(s, t);
      } else if AdvanceTimersStep(s, t) {
        AdvanceTimersPreservesInv(s, t);
      }
      forall i | 0 <= i < |run|
        ensures Inv(run[i])
      {
        if i < |run| - 1 {
          assert run[i] == prefix[i];
        }
      }
    }
  }

  /** Within one game the score never goes down, whatever the actions. */
  lemma {:induction false} RunScoreNeverDecreases(run: seq<GameState>)
    requires |run| >= 1 && IsRun(run)
    ensures run[|run| - 1].score >= run[0].score
  {
    if |run| > 1 {
      var prefix := run[..|run| - 1];
      assert IsRun(prefix) by {
        forall i | 0 < i < |prefix|
          ensures Move(prefix[i - 1], prefix[i])
        {
          assert prefix[i - 1] == run[i - 1] && prefix[i] == run[i];
        }
      }
      RunScoreNeverDecreases(prefix);
      var s, t := run[|run| - 2], run[|run| - 1];
      assert Move(s, t);
      if TickStep(s, t) {
        TickScoreNeverDecreases(s, t);
      } else if AdvanceTimersStep(s, t) {
        AdvanceTimersKeepsBoard(s, t);
      }
    }
  }
}
