/**
 * The server (authority) process: the resources and components it owns and
 * the two systems that change them, server_on_events (player creation) and
 * server_receive_requests (rolls and moves). Each method is proved to have
 * exactly the effect of the corresponding function of the Rules module.
 */
module Authority {
  import opened Wrappers
  import opened Board
  import opened Items
  import opened Walls
  import opened MazeGen
  import opened Rules

  class Server {
    /** The Maze resource, generated before any connection is accepted. */
    const maze: Maze
    /** The AvailableItems resource. */
    const pool: AvailableItems
    /** The MaxPlayers resource (1..=4 by the command line). */
    const maxPlayers: nat
    /** The Player components, in spawn order. */
    var players: seq<Player>
    /** The Dice component's value; 0 until the first roll. */
    var dice: nat
    var game: GameState
    var phase: TurnPhase
    /** The CurrentTurn resource: the number of the player whose turn it is. */
    var turn: nat
    /** The ordered broadcasts sent to all clients. */
    var events: seq<Broadcast>

    ghost function View(): Table
      reads this, pool
    {
      Table(players, dice, game, phase, turn, pool.items, events)
    }

    /** Player k is number k and stands on the board; at most maxPlayers players exist. */
    ghost predicate Valid()
      reads this
    {
      && maze.Valid()
      && 1 <= maxPlayers <= 4
      && |players| <= maxPlayers
      && forall k :: 0 <= k < |players| ==> players[k].number == k && InBounds(players[k].coords)
    }

    /** The server half of init: the resources before any client connects. */
    constructor (maze: Maze, maxPlayers: nat)
      requires maze.Valid() && 1 <= maxPlayers <= 4
      ensures Valid() && fresh(pool)
      ensures this.maze == maze && this.maxPlayers == maxPlayers
      ensures View() == Initial
    {
      this.maze := maze;
      this.maxPlayers := maxPlayers;
      players := [];
      dice := 0;
      game := WaitingPlayers;
      phase := Rolling;
      turn := 0;
      events := [];
      pool := new AvailableItems();
    }

    /** One ClientConnected event: spawn the player and maybe start the game. */
    method Join(clientId: nat, pick: nat)
      requires Valid() && |players| < maxPlayers
      requires pool.items != [] ==> pick < |pool.items|
      modifies this, pool
      ensures Valid()
      ensures |pool.items| == if old(pool.items) == [] then 0 else |old(pool.items)| - 1
      ensures View() == Connect(old(View()), maxPlayers, clientId, pick)
    {
      var count := |players|;
      var coords := StartCoords(count);
      var target := pool.TakeRandom(pick);
      players := players + [Player(clientId, coords, coords, count, target, [])];
      if count + 1 == maxPlayers {
        game := InGame;
        events := events + [GameStateChanged(InGame)];
      }
    }

    /**
     * The ClientConnected events of one server_on_events run, in order. The
     * transport accepts at most maxPlayers clients.
     */
    method OnConnections(ids: seq<nat>, picks: seq<nat>)
      requires Valid() && |players| + |ids| <= maxPlayers
      requires LegalPicks(picks) && |pool.items| == |picks|
      modifies this, pool
      ensures Valid()
      ensures View() == ConnectAll(old(View()), maxPlayers, ids, picks, 0)
    {
      var taken: nat := 0;
      for i := 0 to |ids|
        invariant Valid() && |players| + |ids| - i <= maxPlayers
        invariant |pool.items| + taken == |picks|
        invariant ConnectAll(View(), maxPlayers, ids[i..], picks, taken) == ConnectAll(old(View()), maxPlayers, ids, picks, 0)
      {
        ghost var before := View();
        var empty := pool.items == [];
        var next := if empty then taken else taken + 1;
        assert ConnectAll(before, maxPlayers, ids[i..], picks, taken)
            == ConnectAll(Connect(before, maxPlayers, ids[i], NextPick(picks, taken)), maxPlayers, ids[i + 1..], picks, next) by {
          assert ids[i..][0] == ids[i] && ids[i..][1..] == ids[i + 1..];
        }
        Join(ids[i], NextPick(picks, taken));
        taken := next;
      }
    }

    /** One roll request (first loop of server_receive_requests). */
    method Roll(clientId: nat, face: nat)
      requires Valid() && face < |DiceFaces|
      modifies this
      ensures Valid()
      ensures View() == RollStep(old(View()), clientId, face)
    {
      if phase != Rolling {
        return;
      }
      if FindHolder(players, clientId, turn).Some? {
        dice := DiceFaces[face];
        phase := Moving(0);
        events := events + [TurnPhaseChanged(Moving(0))];
      }
    }

    /**
     * One move request (second loop of server_receive_requests), given
     * new_steps_taken and the number of items drawn so far in this batch.
     */
    method Move(req: MoveRequest, picks: seq<nat>, steps: nat, taken: nat) returns (steps': nat, taken': nat)
      requires Valid() && game == InGame
      requires PicksFit(Batch(View(), steps, taken), picks)
      modifies this, pool
      ensures Valid() && phase == old(phase) && dice == old(dice) && turn == old(turn)
      ensures game == old(game) || game == Win
      ensures Batch(View(), steps', taken') == MoveStep(Batch(old(View()), steps, taken), maze.Bars(), picks, req)
    {
      steps', taken' := steps, taken;
      if steps >= dice {
        return;
      }
      var found := FindHolder(players, req.clientId, turn);
      if found.None? {
        return;
      }
      var k := found.value;
      var player := players[k];
      var next := Target(player.coords, req.dir);
      if !InBounds(next) {
        return;
      }
      player := player.(prevCoords := player.coords);
      if maze.IsBlocked(player.coords, next) {
        events := events + [StartMoveAnimation(player.clientId, true, next)];
        player := player.(coords := StartCoords(player.number));
        steps' := dice;
        players := players[k := player];
        return;
      }
      events := events + [StartMoveAnimation(player.clientId, false, next)];
      player := player.(coords := next);
      steps' := steps + 1;
      taken' := Arrive(k, player, picks, steps', taken);
    }

    /**
     * The end of a successful step of player k, already moved in p: the
     * pickup of its target item, which may win the game or draw a new target.
     */
    method Arrive(k: nat, p: Player, picks: seq<nat>, steps: nat, taken: nat) returns (taken': nat)
      requires Valid() && k < |players| && p.number == k && InBounds(p.coords)
      requires PicksFit(Batch(View(), steps, taken), picks)
      modifies this, pool
      ensures Valid() && phase == old(phase) && dice == old(dice) && turn == old(turn)
      ensures game == old(game) || game == Win
      ensures Batch(View(), steps, taken') == Collect(Batch(old(View()), steps, taken), k, p, picks)
    {
      taken' := taken;
      if p.target.Some? && p.coords == Coords(p.target.value) {
        var achieved := p.achieved + [p.target.value];
        if |achieved| >= ItemsToWin {
          players := players[k := p.(achieved := achieved, target := None)];
          game := Win;
          events := events + [GameStateChanged(Win)];
        } else {
          var item := pool.TakeRandom(NextPick(picks, taken));
          if item.Some? {
            taken' := taken + 1;
          }
          players := players[k := p.(achieved := achieved, target := item)];
        }
      } else {
        players := players[k := p];
      }
    }

    /** The phase/turn update once the move loop is over without a win. */
    method FinishBatch(before: nat, after: nat)
      requires Valid()
      modifies this
      ensures Valid()
      ensures View() == EndOfBatch(old(View()), before, after, maxPlayers)
    {
      if after == before {
        return;
      }
      if after >= dice {
        turn := (turn + 1) % maxPlayers;
        events := events + [CurrentTurnChanged(turn)];
        phase := Rolling;
        events := events + [TurnPhaseChanged(Rolling)];
      } else {
        phase := Moving(after);
        events := events + [TurnPhaseChanged(Moving(after))];
      }
    }

    /** The roll loop of server_receive_requests. */
    method RollAll(rolls: seq<nat>, face: nat)
      requires Valid() && face < |DiceFaces|
      modifies this
      ensures Valid()
      ensures View() == Rolls(old(View()), rolls, face)
    {
      for i := 0 to |rolls|
        invariant Valid()
        invariant Rolls(View(), rolls[i..], face) == Rolls(old(View()), rolls, face)
      {
        assert rolls[i..][0] == rolls[i] && rolls[i..][1..] == rolls[i + 1..];
        Roll(rolls[i], face);
      }
    }

    /**
     * The move loop of server_receive_requests, starting from steps_taken;
     * it stops at the request that wins the game.
     */
    method MoveAll(moves: seq<MoveRequest>, picks: seq<nat>, stepsTaken: nat) returns (newSteps: nat, taken: nat)
      requires Valid() && game == InGame
      requires PicksFit(Batch(View(), stepsTaken, 0), picks)
      modifies this, pool
      ensures Valid() && phase == old(phase) && dice == old(dice) && turn == old(turn)
      ensures Batch(View(), newSteps, taken) == Moves(Batch(old(View()), stepsTaken, 0), maze.Bars(), picks, moves)
    {
      newSteps, taken := stepsTaken, 0;
      ghost var bars := maze.Bars();
      ghost var final := Moves(Batch(View(), stepsTaken, 0), bars, picks, moves);
      for i := 0 to |moves|
        invariant Valid() && game == InGame && phase == old(phase) && dice == old(dice) && turn == old(turn)
        invariant maze.Bars() == bars
        invariant PicksFit(Batch(View(), newSteps, taken), picks)
        invariant Moves(Batch(View(), newSteps, taken), bars, picks, moves[i..]) == final
      {
        ghost var before := Batch(View(), newSteps, taken);
        assert Moves(before, bars, picks, moves[i..]) == Moves(MoveStep(before, bars, picks, moves[i]), bars, picks, moves[i + 1..]) by {
          assert moves[i..][0] == moves[i] && moves[i..][1..] == moves[i + 1..];
        }
        newSteps, taken := Move(moves[i], picks, newSteps, taken);
        if game == Win {
          MovesAfterWin(Batch(View(), newSteps, taken), bars, picks, moves[i + 1..]);
          return;
        }
      }
    }

    /**
     * server_receive_requests: the roll requests, then the move requests of
     * one frame; face is the dice face index chosen by the random generator
     * and picks the schedule of take_random indices.
     */
    method ReceiveRequests(rolls: seq<nat>, moves: seq<MoveRequest>, face: nat, picks: seq<nat>)
      requires Valid() && face < |DiceFaces|
      requires LegalPicks(picks) && |pool.items| == |picks|
      modifies this, pool
      ensures Valid()
      ensures View() == Tick(old(View()), maze.Bars(), maxPlayers, rolls, moves, face, picks)
    {
      if game != InGame {
        return;
      }
      RollAll(rolls, face);
      if phase.Rolling? {
        return;
      }
      var stepsTaken := phase.stepsTaken;
      var newSteps, _ := MoveAll(moves, picks, stepsTaken);
      if game == Win {
        return;
      }
      FinishBatch(stepsTaken, newSteps);
    }
  }
}
