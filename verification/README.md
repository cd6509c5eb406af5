# Survival game rule engine

This project models the game rules inside the React component of the
two-player resource survival game (`survival-game/src/App.js`). The two players
take turns on an 8×8 grid. On each key press the acting player:

- moves one cell, clamped at the edges;
- picks up the resource (water, food or wood) lying on the new cell, if any of
  it is left; that resource then loses one unit and respawns at a random cell;
- ends the game if they hold no food, water or wood;
- otherwise passes the turn.

A countdown of 120 000 ms loses 1000 ms per tick. When it reaches zero the game
ends, and the player with the larger food + water + wood total wins. On a tie
the second player wins.

- `rules.dfy` (module `GameRules`) gives the rules as pure functions on a
  `GameState` value. It covers movement (`Step`, `Move`), the resource lookup
  (`FirstAt`, `Collected`), collection (`Gain`, `Collect`), the end of a turn
  (`Conclude`), one key press (`Turn`), the timer (`TickState`, `TickWinner`)
  and the winner rule (`TimeoutWinner`).
- `runs.dfy` (module `GameRuns`) gives the starting state and runs of key
  presses and ticks. It holds the invariant of every reachable state and its
  proofs.
- `engine.dfy` (module `GameEngine`) is the component's state as a class
  `Game`:
  - the two players are an array of records, updated in place;
  - the three resources are an array of records, updated in place;
  - the turn index, the game-over flag and the timer are fields.

  `HandleKey` and `Tick` change these fields step by step, as the handler and
  the timer effect do. Each is proved to produce exactly the state that `Turn`
  or `TickState` gives for the old state.

The random cell from `getRandomPosition` is a nondeterministic choice of an
in-bounds cell (`RandomPosition`). `HandleKey` hands back the cell it drew as a
ghost result, so that its postcondition can name it.

Three behaviours of the code are modelled as written:

- The resource lookup takes the first resource, in key order (water, food,
  wood), whose position matches. Only then does it check the amount. So a
  used-up resource hides any later resource on the same cell, and nothing is
  collected. `Collected` states this.
- The timer effect does not look at the game-over flag. After a game ends by
  depletion, ticks still lower the timer until it reaches zero, and a winner
  is announced then. Once the timer is at zero or below, no tick is scheduled,
  so `Tick` changes nothing.
- Left and Right change the `y` coordinate and Up and Down change `x`, as the
  handler writes it.

The game ends in only two ways: a player runs out of something
(`survival-game/src/App.js:87`), or the timer runs out
(`survival-game/src/App.js:105`).

## Model

| member | source | states |
|---|---|---|
| `GameRules.Step` | survival-game/src/App.js:53-68 | Left/Right change only y, Up/Down only x, by at most one cell in the key's direction; an in-bounds position stays in bounds; the position is unchanged exactly when the key is not an arrow or points off the grid |
| `GameRules.FirstAt` | survival-game/src/App.js:71-75 | returns the first index, in key order, of a resource on the cell, or none when no resource is on it |
| `GameRules.Collected` | survival-game/src/App.js:71-77 | the collected resource lies on the cell, has amount above zero, and no earlier resource lies there; when nothing is collected, every resource on the cell with some amount left is preceded by a used-up one on the same cell |
| `GameRules.Gain` | survival-game/src/App.js:79-81 | exactly the matching count rises by one; other counts and the position stay the same |
| `GameRules.Collect` | survival-game/src/App.js:70-84 | with no collectable resource nothing changes; otherwise that resource's amount drops by one and it moves to the drawn in-bounds cell, the matching count of the acting player rises by one, and nothing else changes; for every kind, amount plus both players' holdings is conserved |
| `GameRules.Move` | survival-game/src/App.js:49-68 | only the acting player's position changes, to `Step` of the old one; counts, resources, turn, flag and timer stay the same |
| `GameRules.Conclude` | survival-game/src/App.js:86-94 | a depleted acting player ends the game without passing the turn; otherwise the turn passes to the other player and the flag is unchanged |
| `GameRules.Turn` | survival-game/src/App.js:46-95 | a finished game is left unchanged; otherwise the other player is untouched, the acting player moves by `Step`, the game ends iff the acting player is depleted, and the turn advances to `(i+1) % 2` exactly when it does not end; amounts drop by at most one and never below zero, counts never decrease, per-kind totals are conserved; the result is well formed |
| `GameRules.TickState` | survival-game/src/App.js:104-116 | a tick with time left takes 1000 ms off and ends the game when the time reaches zero or below; with no time left nothing changes; players, resources and turn never change |
| `GameRules.TimeoutWinner` | survival-game/src/App.js:107-109 | the winner's food+water+wood total is at least the other's, and a tie goes to the second player |
| `GameRules.TimeoutWinnerUnique` | survival-game/src/App.js:107-109 | those two conditions determine the winner uniquely |
| `GameRules.TickWinner` | survival-game/src/App.js:105-110 | a winner is announced exactly on the tick that runs the time out; it has the higher (or equal) total, and on a tie it is the second player |
| `GameRuns.Initial` | survival-game/src/App.js:7-23 | the starting state satisfies the invariant; the players stand at (0,0) and (7,7), the water, food and wood resources at the three drawn cells; player one moves first, the game is not over, the timer is full, every count is 5 and every amount 3 |
| `GameRuns.Run` | survival-game/src/App.js:46-119 | runs stay well formed; once the game is over it stays over and its players, resources and turn never change again |
| `GameRuns.TurnKeepsInvariant` | survival-game/src/App.js:46-95 | a key press keeps the invariant and, from an invariant state, never ends the game |
| `GameRuns.TickKeepsInvariant` | survival-game/src/App.js:104-116 | a tick keeps the invariant |
| `GameRuns.RunKeepsInvariant` | survival-game/src/App.js:44-119 | any run of key presses and ticks keeps the invariant |
| `GameRuns.InvariantBounds` | survival-game/src/App.js:77-91 | in an invariant state nobody is depleted, counts lie in 5..8, amounts in 0..3, and each kind has been collected at most three times |
| `GameRuns.GameFromStart` | survival-game/src/App.js:12-119 | in every game from the start, whatever keys are pressed and wherever resources respawn, the invariant holds (so the bounds of `InvariantBounds` apply), nobody is depleted, and the game is over exactly when the time is up |
| `GameEngine.RandomPosition` | survival-game/src/App.js:26-31 | the drawn cell is on the grid |
| `GameEngine.Game.constructor` | survival-game/src/App.js:12-23 | the new game's state is `Initial` for some three in-bounds resource cells |
| `GameEngine.Game.ResetResource` | survival-game/src/App.js:34-42 | only the named resource changes, and only its position, to a drawn in-bounds cell |
| `GameEngine.Game.MovePlayer` | survival-game/src/App.js:49-68 | the acting player's record is updated in place to the state `Move` gives |
| `GameEngine.Game.CollectResource` | survival-game/src/App.js:70-84 | the player and resource records are updated in place to the state `Collect` gives for the drawn cell |
| `GameEngine.Game.HandleKey` | survival-game/src/App.js:46-95 | the new state is exactly `Turn` of the old state, the key and the drawn cell; the arrays are the same objects |
| `GameEngine.Game.Tick` | survival-game/src/App.js:104-119 | the new state is `TickState` of the old one, and the announced winner is `TickWinner` of the old one |

## Left out

- React hooks (`useState`, `useEffect`) and the keydown listener's
  registration and removal are left out. They are framework plumbing: a key
  press is a call to `HandleKey`.
- `setInterval` and `clearInterval` scheduling is left out. A tick is a call to
  `Tick`. When ticks fire in real time is not modelled. This includes the
  interval being restarted whenever the players change.
- `alert` calls are left out. They are UI output. The timeout announcement is
  kept as `Tick`'s result, the index of the winning player rather than their
  name.
- Player names, ids and icons are left out. They take no part in the rules.
- The setup form, `onSubmit` and `URL.createObjectURL` (lines 122-129) are
  left out. They are browser input, and the names and icons they set are not
  modelled. The timer starts when the component mounts, before the form is
  submitted. The model starts the countdown from the initial state.
- `Math.random` is replaced by a nondeterministic choice of an in-bounds cell.
  Its distribution is not modelled.
- The `GameGrid` rendering, the framer-motion animations and the conversion
  of milliseconds to seconds for display (lines 132-233 and 170) are left out.
  They are presentation only.
- JavaScript numbers are modelled as unbounded integers. In every state
  reachable from the start (`InvariantBounds`, `TickKeepsInvariant`), player
  counts stay between 5 and 8, resource amounts between 0 and 3, and the timer
  between 0 and 120000 in whole ticks. These are small whole numbers, so
  floating point never matters.
