# Snake game store — a verified model

This project models the state machine behind a neon Snake game: a 20 × 20
grid, a snake that moves one cell per tick, regular food, a bonus fruit that
appears every 20 seconds, boost pickups that appear every 15 seconds, and a
three-minute game clock. The state lives in a single store. Its actions are:

- `startGame` and `resetGame`, which put back the initial values;
- `changeDirection`, which refuses an exact reversal;
- `advanceTimers`, the once-a-second countdown that ends the game, expires
  boosts and spawns fruit and pickups;
- `tick`, one move of the snake. A move can wrap at the edges under
  PHASE_SHIFT, crash into a wall or the body, eat food or the bonus fruit,
  collect a pickup, and reset the tick interval.

The model also covers the grid helpers, the configuration constants, and the
rank shown on the game-over screen.

Modules:

- `Constants` (`constants.dfy`): the grid, speed, timer and score constants;
  the five boost types with `BOOST_CONFIG`; the scoring tiers.
- `GameLogic` (`game_logic.dfy`): `Coord`, `isOutOfBounds` and
  `isCollision`. `getRandomCoord` is modelled as its rejection-sampling loop
  over an explicit stream of draws. A counting lemma shows that a free cell
  exists whenever fewer than 400 cells are excluded.
- `GameRules` (`game_rules.dfy`): the store's fields as one value
  (`GameState`), and what each action does to that value:
  - `TickSpec` and `AdvanceTimersSpec` take the cells the action draws as
    parameters;
  - `TickChoices` and `AdvanceTimersChoices` state what `getRandomCoord`
    guarantees about those cells;
  - `Inv` is the invariant every reachable state keeps.
- `GameProperties` (`game_properties.dfy`): the properties of the actions,
  proved on those values. They cover every branch of `tick` and
  `advanceTimers`, the invariant, and whole runs of actions.
- `Store` (`game_store.dfy`): the store as a class `GameStore` whose fields
  are the `GameState` fields.
  - Each action is a method that updates the fields in place, through `Set`
    (the store's `set`) in the order the action calls it.
  - Each action is proved to produce exactly the state the value-level rules
    give, for the cells it drew.
  - `Tick` and `AdvanceTimers` return those cells as ghost results.
- `Ranking` (`ranking.dfy`): the game-over rank lookup.

Random choices are not executed. A cell the source draws with
`getRandomCoord(exclude)` is any cell `c` with `IsFree(c, exclude)`: on the
grid and not in `exclude`. The boost type is any of the five types. Every
property below holds for every such choice.

## Model

| member | source | states |
|---|---|---|
| Constants.TimedDuration | src/lib/constants.ts:12-17 | every timed boost lasts a positive number of seconds |
| Constants.BoostConfig | src/lib/constants.ts:26-32 | each entry's id equals its key; FRUIT_FIESTA, and only it, has duration 0; the timed types take their BOOST_DURATION |
| Constants.BoostTypesEnumerated | src/lib/constants.ts:18-25 | there are exactly five boost types, each listed once in key order |
| Constants.ScoringTiersWellFormed | src/lib/constants.ts:33-39 | five tiers, the first at 0, thresholds strictly ascending, every rank non-empty |
| GameLogic.IsOutOfBounds | src/lib/game-logic.ts:17-19 | true exactly for the cells off the board, the negation of InGrid |
| GameLogic.IsCollision | src/lib/game-logic.ts:13-16 | true iff the head equals body[i] for some i >= 1; never true for a body of length at most 1 |
| GameLogic.GetRandomCoord | src/lib/game-logic.ts:3-12 | the loop returns the first draw outside `exclude`: on the grid, not excluded, every earlier draw rejected |
| GameLogic.FreeCellExists | src/lib/game-logic.ts:5-10 | with fewer than 400 excluded cells some free cell exists, so the loop can end |
| GameLogic.FullGridHasNoFreeCell | src/lib/game-logic.ts:5-10 | with all 400 cells excluded no cell is free, so the loop never ends |
| GameRules.FoodPoints | src/store/game-store.ts:133-138 | food is worth 15 under PIXEL_RUSH, 20 under GLITCH_MULTIPLIER, otherwise 10 |
| GameRules.BonusFruitPoints | src/store/game-store.ts:142-147 | the bonus fruit is worth 100 under GLITCH_MULTIPLIER, otherwise 50 |
| GameRules.TickInterval | src/store/game-store.ts:168-179 | the interval is 100 ms under PIXEL_RUSH, 400 under CHRONO_BRAKE, otherwise 200 |
| GameRules.Wrap | src/store/game-store.ts:118-123 | the wrapped head is on the board; a cell on the board is kept; for one step off the board the wrap is modulo GridSize |
| GameRules.FindBoostAt | src/store/game-store.ts:150 | the index of the first pickup on the cell, or -1 exactly when no pickup lies there |
| GameRules.RemoveAt | src/store/game-store.ts:153 | the list loses exactly the element at i; the others keep their order |
| GameRules.CountDown | src/store/game-store.ts:82 | an active boost keeps its type with one second less; no boost stays no boost |
| GameProperties.InitialIsValid | src/store/game-store.ts:43-59 | the initial state, with food off the initial snake, satisfies the invariant |
| GameProperties.TickPreservesInv | src/store/game-store.ts:107-189 | tick keeps the invariant: snake, food, fruit and pickups on the board, score >= 0, interval in {100, 200, 400}, timers in range |
| GameProperties.TickSnakeInGrid | src/store/game-store.ts:131-167 | the moved snake stays on the board |
| GameProperties.TickBoostsInGrid | src/store/game-store.ts:150-153 | the pickups left after a collection stay on the board |
| GameProperties.AdvanceTimersPreservesInv | src/store/game-store.ts:76-106 | advanceTimers keeps the invariant |
| GameProperties.TickIdle | src/store/game-store.ts:108-109 | tick changes nothing unless the game is playing |
| GameProperties.TickCrash | src/store/game-store.ts:124-130 | a wall or body hit without PHASE_SHIFT sets game over and changes no other field |
| GameProperties.TickPhaseShift | src/store/game-store.ts:118-127 | under PHASE_SHIFT the head is wrapped onto the board and the game goes on, even on the body |
| GameProperties.TickPlainMove | src/store/game-store.ts:131-167 | a move that eats nothing gives [new head] + snake without its tail: same length, same score |
| GameProperties.TickEat | src/store/game-store.ts:133-148 | eating grows the snake by exactly the new head, adds the food and fruit points, clears the fruit, and respawns the food off the new snake |
| GameProperties.TickScoreNeverDecreases | src/store/game-store.ts:133-148 | no tick lowers the score |
| GameProperties.TickPickup | src/store/game-store.ts:150-179 | the first pickup on the head is removed, the rest kept in order; FRUIT_FIESTA moves the food off the old snake; another type becomes the active boost with its full duration; the interval follows the new boost |
| GameProperties.TickNoPickup | src/store/game-store.ts:150-179 | with no pickup on the head the pickups and the active boost are unchanged |
| GameProperties.AdvanceTimersIdle | src/store/game-store.ts:77 | advanceTimers changes nothing unless the game is playing |
| GameProperties.AdvanceTimersKeepsBoard | src/store/game-store.ts:76-106 | advanceTimers never changes the snake, direction, food, score or speed |
| GameProperties.AdvanceTimersTimeUp | src/store/game-store.ts:78-88 | at time up every timer and the boost are one lower, the game is over, nothing is cleared or spawned |
| GameProperties.AdvanceTimersTick | src/store/game-store.ts:89-105 | otherwise an expired boost is cleared; a due bonus fruit is placed off snake and food and its timer reset to 20; a due pickup is appended, exactly one, off snake, food and fruit, and its timer reset to 15 |
| GameProperties.RunKeepsInv | src/store/game-store.ts:68-189 | every state of any run of ticks, countdowns and direction changes from a valid state is valid |
| GameProperties.RunScoreNeverDecreases | src/store/game-store.ts:68-189 | within one game the score never goes down |
| Store.GameStore.Set | src/store/game-store.ts:60 | after set, every field holds its value in the merged state |
| Store.GameStore.constructor | src/store/game-store.ts:43-59 | the store starts as initialState, idle, with food off the initial snake |
| Store.GameStore.StartGame | src/store/game-store.ts:62-64 | the initial state with status playing and freshly drawn food off the snake |
| Store.GameStore.ResetGame | src/store/game-store.ts:65-67 | the initial state with status idle and freshly drawn food off the snake |
| Store.GameStore.ChangeDirection | src/store/game-store.ts:68-75 | a reversal leaves the direction alone; any other direction is stored; no other field changes |
| Store.GameStore.AdvanceTimers | src/store/game-store.ts:76-106 | the new state is AdvanceTimersSpec for the cells and type drawn, which satisfy getRandomCoord's guarantee; the invariant is kept |
| Store.GameStore.Tick | src/store/game-store.ts:107-189 | the new state is TickSpec for the cells drawn, which satisfy getRandomCoord's guarantee; the invariant is kept |
| Store.EatFruits | src/store/game-store.ts:132-148 | the eating part of tick: whether anything was eaten, the new score and fruit, and the respawned food off the new snake |
| Store.CollectBoost | src/store/game-store.ts:149-164 | the pickup part of tick: the pickups left, the active boost and the food relocated by FRUIT_FIESTA |
| Ranking.LastTierReached | src/pages/HomePage.tsx:147 | the reversed search returns the last tier whose threshold the score reaches; no later tier is reached; None only when no tier is |
| Ranking.Rank | src/pages/HomePage.tsx:147 | the rank shown is never empty |
| Ranking.LastTierIsBand | src/lib/constants.ts:33-39 | on strictly ascending tiers the search finds tier i exactly when the score lies in [tiers[i].min, tiers[i+1].min) |
| Ranking.RankBands | src/pages/HomePage.tsx:147 | every non-negative score reaches a tier; below 500 Pixel Pilot, then Grid Runner, Vector Viper, CRT Conqueror, and from 2000 Glitch God |
| Ranking.TierReachedMonotone | src/pages/HomePage.tsx:147 | a higher score never reaches a lower tier |

## Left out

- `lastTick: Date.now()` is wall-clock I/O. The field is not part of the state.
- `Math.random` is not modelled as a generator:
  - the store's cells are any cells satisfying `IsFree(c, exclude)`, which is what `getRandomCoord` guarantees;
  - the boost type is any of the five types;
  - `GetRandomCoord` takes its draws as a parameter.
- Store.GameStore.Tick: requires `|snake| + 2 < 400`. It then has a free cell for every draw. With a fuller board the source's draw loop may never return, and that case is not modelled.
- Store.GameStore.AdvanceTimers: requires `|snake| + 2 < 400`, for the same reason.
- zustand's `create`, `get` and the merging of a partial object are not modelled as such. The store's `get` is `State()`. Each `set(partial)` is `Set(State().(partial))`, applied in the same order as in the source.
- Store.GameStore.Tick: the eating part and the FRUIT_FIESTA part each store the food they leave. When nothing was eaten or collected, that is the value the food already had.
- The React screen, sounds, key bindings, the `setInterval` loops that call `tick` and `advanceTimers`, and `formatTime` are display and I/O. They are not part of this model.
- The source's behaviour is kept where it may surprise:
  - the food moved by FRUIT_FIESTA avoids the snake as it was before the move and the current food, but not the new head;
  - when advanceTimers expires a boost, the tick interval is not reset until the next tick;
  - under PHASE_SHIFT the head may land on the body, so body cells are not claimed distinct.
- PHASE_SHIFT wrapping follows the code. A coordinate below 0 becomes GridSize − 1, and one at GridSize or beyond becomes 0. This differs from wrapping modulo GridSize only for cells more than one step off the board, which a move never produces. The contract of `GameRules.Wrap` states the agreement.
