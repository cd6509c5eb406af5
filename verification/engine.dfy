/** The game component's state as the keydown handler and the timer effect
    see it: objects updated in place. Each method is proved to do what the
    matching function of GameRules says. */
module GameEngine {
  import opened GameRules
  import GameRuns

  /** A cell drawn at random: each coordinate anywhere from 0 to the grid
      size minus one, chosen independently. */
  method RandomPosition() returns (p: Pos)
    ensures InBounds(p)
  {
    var x :| 0 <= x < GridSize;
    var y :| 0 <= y < GridSize;
    p := Pos(x, y);
  }

  class Game {
    var players: array<Player>
    var resources: array<Resource>
    var currentPlayerIndex: int
    var gameOver: bool
    var timer: int

    /** The fields as one value. */
    function State(): GameState
      reads this, players, resources
    {
      GameState(players[..], resources[..], currentPlayerIndex, gameOver, timer)
    }

    ghost predicate Valid()
      reads this, players, resources
    {
      WellFormed(State())
    }

    /** The initial state: fixed players, resources at three random cells. */
    constructor ()
      ensures Valid() && fresh(players) && fresh(resources)
      ensures exists water, food, wood | InBounds(water) && InBounds(food) && InBounds(wood) ::
                State() == GameRuns.Initial(water, food, wood)
    {
      players := new Player[] [
        Player(Pos(0, 0), StartCount, StartCount, StartCount),
        Player(Pos(GridSize - 1, GridSize - 1), StartCount, StartCount, StartCount)];
      var water := RandomPosition();
      var food := RandomPosition();
      var wood := RandomPosition();
      resources := new Resource[] [
        Resource(Water, StartAmount, water),
        Resource(Food, StartAmount, food),
        Resource(Wood, StartAmount, wood)];
      currentPlayerIndex := 0;
      gameOver := false;
      timer := GameDuration;
      new;
      assert State() == GameRuns.Initial(water, food, wood);
    }

    /** Moves resource `j` to a random cell; its amount stays as it is. */
    method ResetResource(j: nat) returns (ghost spawn: Pos)
      requires Valid() && j < 3
      modifies resources
      ensures Valid() && InBounds(spawn)
      ensures resources[..] == old(resources[..])[j := old(resources[j]).(pos := spawn)]
    {
      var p := RandomPosition();
      resources[j] := resources[j].(pos := p);
      spawn := p;
    }

    /** The acting player moves one cell as `key` says, unless that would
        leave the grid. */
    method MovePlayer(key: Key)
      requires Valid()
      modifies players
      ensures Valid()
      ensures State() == Move(old(State()), key)
    {
      var i := currentPlayerIndex;
      var pos := players[i].pos;
      match key {
        case ArrowLeft =>
          if pos.y > 0 { players[i] := players[i].(pos := pos.(y := pos.y - 1)); }
        case ArrowRight =>
          if pos.y < GridSize - 1 { players[i] := players[i].(pos := pos.(y := pos.y + 1)); }
        case ArrowDown =>
          if pos.x < GridSize - 1 { players[i] := players[i].(pos := pos.(x := pos.x + 1)); }
        case ArrowUp =>
          if pos.x > 0 { players[i] := players[i].(pos := pos.(x := pos.x - 1)); }
        case Other =>
      }
    }

    /** The acting player collects the first resource on their cell if any
        of it is left; that resource is then moved to `spawn`, a random cell
        (any cell when nothing was collected). */
    method CollectResource() returns (ghost spawn: Pos)
      requires Valid()
      modifies players, resources
      ensures Valid() && InBounds(spawn)
      ensures State() == Collect(old(State()), spawn)
    {
      spawn := Pos(0, 0);
      var i := currentPlayerIndex;
      var here := FirstAt(resources[..], players[i].pos);
      if here.Some? && resources[here.value].amount > 0 {
        var r := here.value;
        resources[r] := resources[r].(amount := resources[r].amount - 1);
        players[i] := Gain(players[i], resources[r].kind);
        spawn := ResetResource(r);
      }
    }

    /** A key press. `spawn` is the cell a collected resource was moved to
        (any cell when nothing was collected). */
    method HandleKey(key: Key) returns (ghost spawn: Pos)
      requires Valid()
      modifies this, players, resources
      ensures Valid() && players == old(players) && resources == old(resources)
      ensures InBounds(spawn)
      ensures State() == Turn(old(State()), key, spawn)
    {
      spawn := Pos(0, 0);
      if gameOver {
        return;
      }
      MovePlayer(key);
      spawn := CollectResource();
      if Depleted(players[currentPlayerIndex]) {
        gameOver := true;
        return;
      }
      currentPlayerIndex := (currentPlayerIndex + 1) % 2;
    }

    /** One second of the countdown. Returns the winner when this tick runs
        the time out. */
    method Tick() returns (winner: Option<nat>)
      requires Valid()
      modifies this
      ensures Valid()
      ensures State() == TickState(old(State()))
      ensures winner == TickWinner(old(State()))
    {
      winner := None;
      if timer <= 0 {
        return;
      }
      timer := timer - TickLength;
      if timer <= 0 {
        gameOver := true;
        winner := Some(TimeoutWinner(players[..]));
      }
    }
  }
}
