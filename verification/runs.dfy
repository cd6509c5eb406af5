/** Whole games: the starting state, a run of key presses and timer ticks, and
    what holds of every state a run reaches. */
module GameRuns {
  import opened GameRules

  /** The state the game component starts in: player one in the top corner,
      player two in the opposite one, each holding five of everything; three
      of each resource at the cells drawn for them; player one to move. */
  function Initial(water: Pos, food: Pos, wood: Pos): (s: GameState)
    requires InBounds(water) && InBounds(food) && InBounds(wood)
    ensures Invariant(s)
    ensures !s.gameOver && s.current == 0 && s.timer == GameDuration
    ensures forall i, k | 0 <= i < 2 :: Count(s.players[i], k) == StartCount
    ensures forall j | 0 <= j < 3 :: s.resources[j].amount == StartAmount
    ensures s.players[0].pos == Pos(0, 0) && s.players[1].pos == Pos(GridSize - 1, GridSize - 1)
    ensures s.resources[0].pos == water && s.resources[1].pos == food && s.resources[2].pos == wood
  {
    GameState(
      [Player(Pos(0, 0), StartCount, StartCount, StartCount),
       Player(Pos(GridSize - 1, GridSize - 1), StartCount, StartCount, StartCount)],
      [Resource(Water, StartAmount, water), Resource(Food, StartAmount, food), Resource(Wood, StartAmount, wood)],
      0, false, GameDuration)
  }

  /** What holds of every state reachable from the start: nobody ever holds
      less than they started with, no resource amount is negative, every unit
      of a kind is either left in the resource or held by a player, the timer
      counts down whole ticks from the game length, and the game is over
      exactly when the time is up. */
  predicate Invariant(s: GameState) {
    && WellFormed(s)
    && (forall i, k | 0 <= i < 2 :: Count(s.players[i], k) >= StartCount)
    && (forall j | 0 <= j < 3 :: s.resources[j].amount >= 0)
    && (forall j | 0 <= j < 3 :: Stock(s, j) == StartAmount + 2 * StartCount)
    && 0 <= s.timer <= GameDuration && s.timer % TickLength == 0
    && (s.gameOver <==> s.timer <= 0)
  }

  /** What can happen to the game: a key press (with the cell the random
      draw would give a collected resource) or a timer tick. */
  datatype Event = Press(key: Key, spawn: Pos) | Tick

  /** The random draw of a key press lands on the grid. */
  predicate Drawn(e: Event) {
    e.Press? ==> InBounds(e.spawn)
  }

  function Apply(s: GameState, e: Event): (t: GameState)
    requires WellFormed(s) && Drawn(e)
    ensures WellFormed(t)
  {
    match e
    case Press(key, spawn) => Turn(s, key, spawn)
    case Tick => TickState(s)
  }

  /** The state after the events `evs`, in order. A game that is over stays
      over, and its players, resources and turn never change again. */
  function Run(s: GameState, evs: seq<Event>): (t: GameState)
    requires WellFormed(s) && forall n | 0 <= n < |evs| :: Drawn(evs[n])
    ensures WellFormed(t)
    ensures s.gameOver ==> t.gameOver
    ensures s.gameOver ==> t.players == s.players && t.resources == s.resources && t.current == s.current
    decreases |evs|
  {
    if evs == [] then s else Run(Apply(s, evs[0]), evs[1..])
  }

  /** A key press keeps the invariant, and from such a state it never ends
      the game: the depletion check cannot fire. */
  lemma TurnKeepsInvariant(s: GameState, key: Key, spawn: Pos)
    requires Invariant(s) && InBounds(spawn)
    ensures Invariant(Turn(s, key, spawn))
    ensures Turn(s, key, spawn).gameOver == s.gameOver
  {
    var t, i := Turn(s, key, spawn), s.current;
    forall i', k | 0 <= i' < 2
      ensures Count(t.players[i'], k) >= StartCount
    {
      if i' != i {
        assert t.players[i'] == s.players[i'];
      }
    }
    assert Count(t.players[i], Food) > 0 && Count(t.players[i], Water) > 0 && Count(t.players[i], Wood) > 0;
  }

  lemma TickKeepsInvariant(s: GameState)
    requires Invariant(s)
    ensures Invariant(TickState(s))
  {
    var t := TickState(s);
    forall j | 0 <= j < 3
      ensures Stock(t, j) == Stock(s, j)
    {
    }
  }

  lemma {:induction false} RunKeepsInvariant(s: GameState, evs: seq<Event>)
    requires Invariant(s) && forall n | 0 <= n < |evs| :: Drawn(evs[n])
    ensures Invariant(Run(s, evs))
    decreases |evs|
  {
    if evs != [] {
      match evs[0] {
        case Press(key, spawn) => TurnKeepsInvariant(s, key, spawn);
        case Tick => TickKeepsInvariant(s);
      }
      RunKeepsInvariant(Apply(s, evs[0]), evs[1..]);
    }
  }

  /** What the invariant says about one state, spelled out: nobody has run
      out of anything, so the game is over only when the time is up; every
      count lies between five and eight; every amount between zero and three;
      and no kind has been collected more than three times in all. */
  lemma InvariantBounds(t: GameState)
    requires Invariant(t)
    ensures forall i | 0 <= i < 2 :: !Depleted(t.players[i])
    ensures forall i, k | 0 <= i < 2 :: StartCount <= Count(t.players[i], k) <= StartCount + StartAmount
    ensures forall j | 0 <= j < 3 :: 0 <= t.resources[j].amount <= StartAmount
    ensures forall j | 0 <= j < 3 ::
      Count(t.players[0], t.resources[j].kind) + Count(t.players[1], t.resources[j].kind)
      <= 2 * StartCount + StartAmount
  {
    forall i, k | 0 <= i < 2
      ensures Count(t.players[i], k) <= StartCount + StartAmount
    {
      var j := match k case Water => 0 case Food => 1 case Wood => 2;
      assert t.resources[j].kind == k;
      assert Stock(t, j) == StartAmount + 2 * StartCount;
    }
    forall i | 0 <= i < 2
      ensures !Depleted(t.players[i])
    {
      assert Count(t.players[i], Food) > 0 && Count(t.players[i], Water) > 0 && Count(t.players[i], Wood) > 0;
    }
    forall j | 0 <= j < 3
      ensures t.resources[j].amount <= StartAmount
      ensures Count(t.players[0], t.resources[j].kind) + Count(t.players[1], t.resources[j].kind)
              <= 2 * StartCount + StartAmount
    {
      assert Stock(t, j) == StartAmount + 2 * StartCount;
      assert Count(t.players[0], t.resources[j].kind) >= StartCount;
      assert Count(t.players[1], t.resources[j].kind) >= StartCount;
    }
  }

  /** In every game, whatever is pressed and wherever resources respawn, the
      invariant holds, so the bounds of InvariantBounds hold too; nobody runs
      out of anything, so the game is over exactly when the time is up. */
  lemma GameFromStart(water: Pos, food: Pos, wood: Pos, evs: seq<Event>)
    requires InBounds(water) && InBounds(food) && InBounds(wood)
    requires forall n | 0 <= n < |evs| :: Drawn(evs[n])
    ensures Invariant(Run(Initial(water, food, wood), evs))
    ensures Run(Initial(water, food, wood), evs).gameOver <==> Run(Initial(water, food, wood), evs).timer <= 0
    ensures forall i | 0 <= i < 2 :: !Depleted(Run(Initial(water, food, wood), evs).players[i])
  {
    var s := Initial(water, food, wood);
    RunKeepsInvariant(s, evs);
    InvariantBounds(Run(s, evs));
  }
}
