/** The rules of the two-player resource survival game, as values: movement on
    the grid, collecting a resource, the depletion check, passing the turn, the
    countdown timer and the timeout winner. The class in engine.dfy updates its
    arrays in place and is proved to follow these functions step for step. */
module GameRules {

  datatype Option<T> = None | Some(value: T)

  /** Side length of the square grid. */
  const GridSize := 8
  /** Length of a game, in milliseconds. */
  const GameDuration := 120000
  /** Milliseconds one timer tick takes off the clock. */
  const TickLength := 1000
  /** Food, water and wood each player starts with. */
  const StartCount := 5
  /** Amount each resource starts with. */
  const StartAmount := 3

  datatype Pos = Pos(x: int, y: int)

  /** The keys the keydown handler distinguishes; Other is every other key. */
  datatype Key = ArrowLeft | ArrowRight | ArrowUp | ArrowDown | Other

  datatype Kind = Water | Food | Wood

  datatype Player = Player(pos: Pos, food: int, water: int, wood: int)

  datatype Resource = Resource(kind: Kind, amount: int, pos: Pos)

  /** Everything the game keeps: two players, the three resources in key
      order, whose turn it is, whether the game is over and the time left. */
  datatype GameState = GameState(
    players: seq<Player>,
    resources: seq<Resource>,
    current: int,
    gameOver: bool,
    timer: int)

  /** The order in which the resource object lists its keys. */
  const KeyOrder := [Water, Food, Wood]

  predicate InBounds(p: Pos) {
    0 <= p.x < GridSize && 0 <= p.y < GridSize
  }

  /** The shape every state has: two players and three resources on the
      grid, resources in key order, and a turn index that names a player. */
  predicate WellFormed(s: GameState) {
    && |s.players| == 2
    && (forall i | 0 <= i < 2 :: InBounds(s.players[i].pos))
    && |s.resources| == 3
    && (forall j | 0 <= j < 3 :: s.resources[j].kind == KeyOrder[j] && InBounds(s.resources[j].pos))
    && (s.current == 0 || s.current == 1)
  }

  // ---------------------------------------------------------------------------
  // Movement

  /** True when `key` cannot move a player at `p`: the key is not an arrow, or
      the arrow points off the grid. */
  predicate AgainstEdge(p: Pos, key: Key) {
    match key
    case ArrowLeft => p.y == 0
    case ArrowRight => p.y == GridSize - 1
    case ArrowUp => p.x == 0
    case ArrowDown => p.x == GridSize - 1
    case Other => true
  }

  /** Where a player at `p` stands after `key`: left and right move along y,
      up and down along x, one cell at most, never off the grid. */
  function Step(p: Pos, key: Key): (q: Pos)
    ensures InBounds(p) ==> InBounds(q)
    ensures key.ArrowLeft? || key.ArrowRight? ==> q.x == p.x
    ensures key.ArrowUp? || key.ArrowDown? ==> q.y == p.y
    ensures key.ArrowLeft? ==> q.y == p.y || q.y == p.y - 1
    ensures key.ArrowRight? ==> q.y == p.y || q.y == p.y + 1
    ensures key.ArrowUp? ==> q.x == p.x || q.x == p.x - 1
    ensures key.ArrowDown? ==> q.x == p.x || q.x == p.x + 1
    ensures InBounds(p) ==> (q == p <==> AgainstEdge(p, key))
  {
    match key
    case ArrowLeft => if p.y > 0 then p.(y := p.y - 1) else p
    case ArrowRight => if p.y < GridSize - 1 then p.(y := p.y + 1) else p
    case ArrowDown => if p.x < GridSize - 1 then p.(x := p.x + 1) else p
    case ArrowUp => if p.x > 0 then p.(x := p.x - 1) else p
    case Other => p
  }

  // ---------------------------------------------------------------------------
  // Collection

  /** The index of the first resource, in key order, that lies on cell `p`,
      whatever its amount. */
  function FirstAt(rs: seq<Resource>, p: Pos): (r: Option<nat>)
    ensures r.Some? ==> r.value < |rs| && rs[r.value].pos == p
    ensures r.Some? ==> forall j | 0 <= j < r.value :: rs[j].pos != p
    ensures r.None? ==> forall j | 0 <= j < |rs| :: rs[j].pos != p
  {
    if rs == [] then None
    else if rs[0].pos == p then Some(0)
    else match FirstAt(rs[1..], p)
      case None => None
      case Some(j) => Some(j + 1)
  }

  /** The index of the resource a player on `p` collects: the first resource
      on that cell, and only when its amount is above zero. A used-up resource
      listed earlier on the same cell hides the ones after it. */
  function Collected(rs: seq<Resource>, p: Pos): (c: Option<nat>)
    ensures c.Some? ==> c.value < |rs| && rs[c.value].pos == p && rs[c.value].amount > 0
    ensures c.Some? ==> forall j | 0 <= j < c.value :: rs[j].pos != p
    ensures c.None? ==> forall j | 0 <= j < |rs| && rs[j].pos == p && rs[j].amount > 0 ::
                          exists e | 0 <= e < j :: rs[e].pos == p && rs[e].amount <= 0
  {
    match FirstAt(rs, p)
    case None => None
    case Some(j) => if rs[j].amount > 0 then Some(j) else None
  }

  function Count(pl: Player, k: Kind): int {
    match k
    case Water => pl.water
    case Food => pl.food
    case Wood => pl.wood
  }

  /** The player after collecting one unit of kind `k`. */
  function Gain(pl: Player, k: Kind): (q: Player)
    ensures q.pos == pl.pos
    ensures Count(q, k) == Count(pl, k) + 1
    ensures forall k' | k' != k :: Count(q, k') == Count(pl, k')
  {
    match k
    case Water => pl.(water := pl.water + 1)
    case Food => pl.(food := pl.food + 1)
    case Wood => pl.(wood := pl.wood + 1)
  }

  /** What one resource kind is worth in total: what is left of it plus what
      both players hold of it. */
  function Stock(s: GameState, j: nat): int
    requires WellFormed(s) && j < 3
  {
    s.resources[j].amount + Count(s.players[0], s.resources[j].kind) + Count(s.players[1], s.resources[j].kind)
  }

  /** The acting player picks up what lies on their cell; the picked resource
      loses one unit and is moved to `spawn`, the random cell. */
  function Collect(s: GameState, spawn: Pos): (t: GameState)
    requires WellFormed(s) && InBounds(spawn)
    ensures WellFormed(t)
    ensures t.current == s.current && t.gameOver == s.gameOver && t.timer == s.timer
    ensures t.players[1 - s.current] == s.players[1 - s.current]
    ensures t.players[s.current].pos == s.players[s.current].pos
    ensures var c := Collected(s.resources, s.players[s.current].pos);
      && (c.None? ==> t == s)
      && (c.Some? ==>
            && t.resources[c.value].amount == s.resources[c.value].amount - 1
            && t.resources[c.value].pos == spawn
            && Count(t.players[s.current], s.resources[c.value].kind)
               == Count(s.players[s.current], s.resources[c.value].kind) + 1)
      && (forall j | 0 <= j < 3 && c != Some(j) :: t.resources[j] == s.resources[j])
      && (forall k | c.None? || k != s.resources[c.value].kind ::
            Count(t.players[s.current], k) == Count(s.players[s.current], k))
    ensures forall j | 0 <= j < 3 :: Stock(t, j) == Stock(s, j)
  {
    var i := s.current;
    match Collected(s.resources, s.players[i].pos)
    case None => s
    case Some(j) =>
      var r := s.resources[j];
      s.(players := s.players[i := Gain(s.players[i], r.kind)],
         resources := s.resources[j := r.(amount := r.amount - 1, pos := spawn)])
  }

  // ---------------------------------------------------------------------------
  // One turn

  /** A player whose food, water or wood has run out. */
  predicate Depleted(pl: Player) {
    pl.food <= 0 || pl.water <= 0 || pl.wood <= 0
  }

  /** The acting player moved by `key`. */
  function Move(s: GameState, key: Key): (t: GameState)
    requires WellFormed(s)
    ensures WellFormed(t)
    ensures t.resources == s.resources && t.current == s.current
    ensures t.gameOver == s.gameOver && t.timer == s.timer
    ensures t.players[1 - s.current] == s.players[1 - s.current]
    ensures t.players[s.current].pos == Step(s.players[s.current].pos, key)
    ensures forall k :: Count(t.players[s.current], k) == Count(s.players[s.current], k)
  {
    var i := s.current;
    s.(players := s.players[i := s.players[i].(pos := Step(s.players[i].pos, key))])
  }

  /** The end of a turn: the game ends if the acting player has run out of
      something, and the turn passes to the other player otherwise. */
  function Conclude(s: GameState): (t: GameState)
    requires WellFormed(s)
    ensures WellFormed(t)
    ensures t.players == s.players && t.resources == s.resources && t.timer == s.timer
    ensures Depleted(s.players[s.current]) ==> t.gameOver && t.current == s.current
    ensures !Depleted(s.players[s.current]) ==> t.gameOver == s.gameOver && t.current == 1 - s.current
  {
    if Depleted(s.players[s.current]) then s.(gameOver := true)
    else s.(current := (s.current + 1) % 2)
  }

  /** One key press: ignored once the game is over; otherwise move, collect,
      then either end the game (the acting player ran out of something) or
      pass the turn to the other player. */
  function Turn(s: GameState, key: Key, spawn: Pos): (t: GameState)
    requires WellFormed(s) && InBounds(spawn)
    ensures WellFormed(t)
    ensures s.gameOver ==> t == s
    ensures t.timer == s.timer
    ensures t.players[1 - s.current] == s.players[1 - s.current]
    ensures !s.gameOver ==> t.players[s.current].pos == Step(s.players[s.current].pos, key)
    ensures !s.gameOver ==> (t.gameOver <==> Depleted(t.players[s.current]))
    ensures !t.gameOver ==> t.current == (s.current + 1) % 2
    ensures t.gameOver ==> t.current == s.current
    ensures forall j | 0 <= j < 3 ::
      && Stock(t, j) == Stock(s, j)
      && s.resources[j].amount - 1 <= t.resources[j].amount <= s.resources[j].amount
      && (s.resources[j].amount >= 0 ==> t.resources[j].amount >= 0)
    ensures forall k :: Count(s.players[s.current], k) <= Count(t.players[s.current], k)
  {
    if s.gameOver then s else Conclude(Collect(Move(s, key), spawn))
  }

  // ---------------------------------------------------------------------------
  // Timer

  /** One tick of the countdown. No tick is scheduled once the timer has run
      out; the tick that brings it to zero or below ends the game. */
  function TickState(s: GameState): (t: GameState)
    ensures t.players == s.players && t.resources == s.resources && t.current == s.current
    ensures s.timer <= 0 ==> t == s
    ensures s.timer > 0 ==> t.timer == s.timer - TickLength
    ensures s.gameOver ==> t.gameOver
    ensures t.gameOver <==> s.gameOver || (s.timer > 0 && t.timer <= 0)
  {
    if s.timer <= 0 then s
    else
      var left := s.timer - TickLength;
      if left <= 0 then s.(timer := left, gameOver := true) else s.(timer := left)
  }

  /** Food plus water plus wood. */
  function Score(pl: Player): int {
    pl.food + pl.water + pl.wood
  }

  /** The index of the player declared winner when time runs out: the one
      with the larger score, the second player on a tie. */
  function TimeoutWinner(ps: seq<Player>): (w: nat)
    requires |ps| == 2
    ensures w < 2
    ensures Score(ps[w]) >= Score(ps[1 - w])
    ensures Score(ps[0]) == Score(ps[1]) ==> w == 1
  {
    if Score(ps[0]) > Score(ps[1]) then 0 else 1
  }

  /** The winner announced by a tick of state `s`, if that tick ends the time. */
  function TickWinner(s: GameState): (w: Option<nat>)
    requires WellFormed(s)
    ensures w.Some? <==> s.timer > 0 && TickState(s).timer <= 0
    ensures w.Some? ==> w.value < 2 && Score(s.players[w.value]) >= Score(s.players[1 - w.value])
    ensures w.Some? && Score(s.players[0]) == Score(s.players[1]) ==> w.value == 1
  {
    if s.timer > 0 && s.timer - TickLength <= 0 then Some(TimeoutWinner(s.players)) else None
  }

  /** The winner rule fixes the result: any index that meets both of its
      conditions is the one it returns. */
  lemma TimeoutWinnerUnique(ps: seq<Player>, w: nat)
    requires |ps| == 2 && w < 2
    requires Score(ps[w]) >= Score(ps[1 - w])
    requires Score(ps[0]) == Score(ps[1]) ==> w == 1
    ensures w == TimeoutWinner(ps)
  {
  }
}
