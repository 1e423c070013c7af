/**
 * The authoritative game rules on a value of the server's state: player
 * creation, the roll and move handling of one batch of requests, and the
 * phase/turn update at the end of the batch.
 */
module Rules {
  import opened Wrappers
  import opened Board
  import opened Items
  import opened Walls

  /** ITEMS_TO_WIN. */
  const ItemsToWin: nat := 5

  /** The faces a roll chooses from, uniformly: 2 and 3 are twice as likely as 1 and 4. */
  const DiceFaces: seq<nat> := [1, 2, 2, 3, 3, 4]

  datatype GameState = WaitingPlayers | InGame | Win

  datatype TurnPhase = Rolling | Moving(stepsTaken: nat)

  /** A Player component; number fixes the start corner and the turn order. */
  datatype Player = Player(
    clientId: nat,
    coords: Cell,
    prevCoords: Cell,
    number: nat,
    target: Option<Item>,
    achieved: seq<Item>)

  /** A MoveRequest event as received from client clientId. */
  datatype MoveRequest = MoveRequest(clientId: nat, dir: Direction)

  /** The events the server broadcasts, in emission order. */
  datatype Broadcast =
    | GameStateChanged(state: GameState)
    | TurnPhaseChanged(phase: TurnPhase)
    | CurrentTurnChanged(turn: nat)
    | StartMoveAnimation(mover: nat, fail: bool, moveTo: Cell)

  /**
   * The server's game state: the Player components, the Dice value, the
   * GameState and TurnPhase states, CurrentTurn, the AvailableItems pool and
   * the broadcasts sent so far.
   */
  datatype Table = Table(
    players: seq<Player>,
    dice: nat,
    game: GameState,
    phase: TurnPhase,
    turn: nat,
    pool: seq<Item>,
    events: seq<Broadcast>)

  /** The state after startup: no players, an unrolled die, a full pool. */
  const Initial: Table := Table([], 0, WaitingPlayers, Rolling, 0, All, [])

  /**
   * The random indices for take_random, as a schedule: the k-th draw from a
   * pool that started with |picks| items is picks[k], which lies in range for
   * the |picks| - k items left at that point.
   */
  predicate LegalPicks(picks: seq<nat>) {
    forall k :: 0 <= k < |picks| ==> picks[k] < |picks| - k
  }

  /** The next scheduled pick once `taken` items have been drawn. */
  function NextPick(picks: seq<nat>, taken: nat): nat {
    if taken < |picks| then picks[taken] else 0
  }

  // ---------------------------------------------------------------------
  // Player creation (the ClientConnected branch of server_on_events)

  /**
   * A connection accepted when `count` players are observed to exist: the new
   * player gets number count, starts (and was) at corner StartCoords(count)
   * and takes a target from the pool; play starts when count + 1 reaches the
   * configured maximum.
   */
  function ConnectCounted(t: Table, maxPlayers: nat, count: nat, clientId: nat, pick: nat): (r: Table)
    requires t.pool != [] ==> pick < |t.pool|
    ensures |r.players| == |t.players| + 1 && r.players[..|t.players|] == t.players
    ensures r.players[|t.players|].number == count && r.players[|t.players|].clientId == clientId
    ensures r.players[|t.players|].coords == r.players[|t.players|].prevCoords == StartCoords(count)
    ensures r.dice == t.dice && r.phase == t.phase && r.turn == t.turn
  {
    var start := StartCoords(count);
    var drawn := Take(t.pool, pick);
    var joined := t.(players := t.players + [Player(clientId, start, start, count, drawn.0, [])], pool := drawn.1);
    if count + 1 == maxPlayers then
      joined.(game := InGame, events := joined.events + [GameStateChanged(InGame)])
    else
      joined
  }

  /** One connection: the count is the number of players that exist. */
  function Connect(t: Table, maxPlayers: nat, clientId: nat, pick: nat): (r: Table)
    requires t.pool != [] ==> pick < |t.pool|
    ensures |r.players| == |t.players| + 1 && r.players[|t.players|].number == |t.players|
  {
    ConnectCounted(t, maxPlayers, |t.players|, clientId, pick)
  }

  /** The connections of one server_on_events run, each counting the players before it. */
  function ConnectAll(t: Table, maxPlayers: nat, ids: seq<nat>, picks: seq<nat>, taken: nat): (r: Table)
    requires LegalPicks(picks) && |t.pool| + taken == |picks|
    ensures |r.players| == |t.players| + |ids|
    ensures forall j :: 0 <= j < |t.players| ==> r.players[j] == t.players[j]
    ensures forall j :: |t.players| <= j < |r.players| ==> r.players[j].number == j
    ensures r.dice == t.dice && r.phase == t.phase && r.turn == t.turn
    decreases |ids|
  {
    if ids == [] then t
    else
      var next := Connect(t, maxPlayers, ids[0], NextPick(picks, taken));
      ConnectAll(next, maxPlayers, ids[1..], picks, if t.pool == [] then taken else taken + 1)
  }

  /**
   * The connections of one server_on_events run as the system is written:
   * the player count comes from a query, but the spawns are deferred
   * commands that only take effect after the run, so every event of the run
   * is numbered with the count from before it.
   */
  function ConnectAllDeferred(t: Table, maxPlayers: nat, count: nat, ids: seq<nat>, picks: seq<nat>, taken: nat): (r: Table)
    requires LegalPicks(picks) && |t.pool| + taken == |picks|
    ensures |r.players| == |t.players| + |ids|
    decreases |ids|
  {
    if ids == [] then t
    else
      var next := ConnectCounted(t, maxPlayers, count, ids[0], NextPick(picks, taken));
      ConnectAllDeferred(next, maxPlayers, count, ids[1..], picks, if t.pool == [] then taken else taken + 1)
  }

  // ---------------------------------------------------------------------
  // Roll handling (first loop of server_receive_requests)

  predicate IsTurnHolder(p: Player, clientId: nat, turn: nat) {
    p.clientId == clientId && p.number == turn
  }

  /** The first player that is clientId and holds the turn, if any. */
  function FindHolder(players: seq<Player>, clientId: nat, turn: nat): (r: Option<nat>)
    ensures r.Some? ==> r.value < |players| && IsTurnHolder(players[r.value], clientId, turn)
    ensures r.Some? ==> forall j :: 0 <= j < r.value ==> !IsTurnHolder(players[j], clientId, turn)
    ensures r.None? <==> forall j :: 0 <= j < |players| ==> !IsTurnHolder(players[j], clientId, turn)
    decreases |players|
  {
    if players == [] then None
    else if IsTurnHolder(players[0], clientId, turn) then Some(0)
    else match FindHolder(players[1..], clientId, turn)
      case None => None
      case Some(k) => Some(k + 1)
  }

  /** A roll request: honoured only while Rolling and only from the turn holder. */
  function RollStep(t: Table, clientId: nat, face: nat): (r: Table)
    requires face < |DiceFaces|
    ensures r.players == t.players && r.pool == t.pool && r.game == t.game && r.turn == t.turn
  {
    if t.phase == Rolling && FindHolder(t.players, clientId, t.turn).Some? then
      t.(dice := DiceFaces[face], phase := Moving(0), events := t.events + [TurnPhaseChanged(Moving(0))])
    else
      t
  }

  function Rolls(t: Table, rolls: seq<nat>, face: nat): (r: Table)
    requires face < |DiceFaces|
    ensures r.players == t.players && r.pool == t.pool && r.game == t.game && r.turn == t.turn
    decreases |rolls|
  {
    if rolls == [] then t else Rolls(RollStep(t, rolls[0], face), rolls[1..], face)
  }

  // ---------------------------------------------------------------------
  // Move handling (second loop of server_receive_requests)

  /**
   * The state of the move loop: the game state, new_steps_taken, and how
   * many items this batch has drawn from the pool.
   */
  datatype Batch = Batch(table: Table, steps: nat, taken: nat)

  predicate PicksFit(b: Batch, picks: seq<nat>) {
    LegalPicks(picks) && |b.table.pool| + b.taken == |picks|
  }

  /**
   * After a successful step of player k (already moved in p): if p stands on
   * its target item, the item is achieved; the fifth achieved item wins the
   * game, otherwise a new target is drawn from the pool.
   */
  function Collect(b: Batch, k: nat, p: Player, picks: seq<nat>): (r: Batch)
    requires k < |b.table.players| && PicksFit(b, picks)
    ensures PicksFit(r, picks)
    ensures r.table.phase == b.table.phase && r.table.turn == b.table.turn && r.table.dice == b.table.dice
    ensures r.table.game == b.table.game || r.table.game == Win
    ensures r.steps == b.steps && |r.table.players| == |b.table.players|
  {
    var t := b.table;
    if p.target.Some? && p.coords == Coords(p.target.value) then
      var got := p.achieved + [p.target.value];
      if |got| >= ItemsToWin then
        b.(table := t.(
          players := t.players[k := p.(achieved := got, target := None)],
          game := Win,
          events := t.events + [GameStateChanged(Win)]))
      else
        var drawn := Take(t.pool, NextPick(picks, b.taken));
        Batch(
          t.(players := t.players[k := p.(achieved := got, target := drawn.0)], pool := drawn.1),
          b.steps,
          if drawn.0.Some? then b.taken + 1 else b.taken)
    else
      b.(table := t.(players := t.players[k := p]))
  }

  /** One move request against the batch state. */
  function MoveStep(b: Batch, bars: set<Bar>, picks: seq<nat>, req: MoveRequest): (r: Batch)
    requires PicksFit(b, picks)
    ensures PicksFit(r, picks)
    ensures r.table.phase == b.table.phase && r.table.turn == b.table.turn && r.table.dice == b.table.dice
    ensures r.table.game == b.table.game || r.table.game == Win
    ensures r.steps >= b.steps && |r.table.players| == |b.table.players|
  {
    var t := b.table;
    if t.game == Win || b.steps >= t.dice then b
    else match FindHolder(t.players, req.clientId, t.turn)
      case None => b
      case Some(k) =>
        var p := t.players[k];
        var next := Target(p.coords, req.dir);
        if !InBounds(next) then b
        else if Blocked(bars, p.coords, next) then
          Batch(
            t.(players := t.players[k := p.(prevCoords := p.coords, coords := StartCoords(p.number))],
               events := t.events + [StartMoveAnimation(p.clientId, true, next)]),
            t.dice,
            b.taken)
        else
          Collect(
            Batch(t.(events := t.events + [StartMoveAnimation(p.clientId, false, next)]), b.steps + 1, b.taken),
            k, p.(prevCoords := p.coords, coords := next), picks)
  }

  function Moves(b: Batch, bars: set<Bar>, picks: seq<nat>, reqs: seq<MoveRequest>): (r: Batch)
    requires PicksFit(b, picks)
    ensures PicksFit(r, picks)
    ensures r.table.phase == b.table.phase && r.table.turn == b.table.turn && r.table.dice == b.table.dice
    ensures r.table.game == b.table.game || r.table.game == Win
    ensures r.steps >= b.steps && |r.table.players| == |b.table.players|
    decreases |reqs|
  {
    if reqs == [] then b else Moves(MoveStep(b, bars, picks, reqs[0]), bars, picks, reqs[1..])
  }

  /** Once the game is won the remaining requests of the batch are not processed. */
  lemma {:induction false} MovesAfterWin(b: Batch, bars: set<Bar>, picks: seq<nat>, reqs: seq<MoveRequest>)
    requires PicksFit(b, picks) && b.table.game == Win
    ensures Moves(b, bars, picks, reqs) == b
    decreases |reqs|
  {
    if reqs != [] {
      MovesAfterWin(MoveStep(b, bars, picks, reqs[0]), bars, picks, reqs[1..]);
    }
  }

  /**
   * The phase/turn update after the move loop, given steps_taken before and
   * after it: the turn passes on once the dice value is reached.
   */
  function EndOfBatch(t: Table, before: nat, after: nat, maxPlayers: nat): (r: Table)
    requires maxPlayers > 0
    ensures r.players == t.players && r.pool == t.pool && r.game == t.game && r.dice == t.dice
    ensures r.turn == t.turn || (r.turn == (t.turn + 1) % maxPlayers && r.phase == Rolling)
    ensures |r.events| >= |t.events| && r.events[..|t.events|] == t.events
  {
    if after == before then t
    else if after >= t.dice then
      var next := (t.turn + 1) % maxPlayers;
      t.(turn := next, phase := Rolling,
         events := t.events + [CurrentTurnChanged(next), TurnPhaseChanged(Rolling)])
    else
      t.(phase := Moving(after), events := t.events + [TurnPhaseChanged(Moving(after))])
  }

  /**
   * server_receive_requests: the system only runs in InGame; rolls first,
   * then, if the phase is Moving, the moves; a win stops processing and skips
   * the phase update.
   */
  function Tick(t: Table, bars: set<Bar>, maxPlayers: nat, rolls: seq<nat>, moves: seq<MoveRequest>,
                face: nat, picks: seq<nat>): (r: Table)
    requires maxPlayers > 0 && face < |DiceFaces|
    requires LegalPicks(picks) && |t.pool| == |picks|
    ensures |r.players| == |t.players|
    ensures r.game == t.game || (t.game == InGame && r.game == Win)
    ensures r.turn == t.turn || r.turn == (t.turn + 1) % maxPlayers
  {
    if t.game != InGame then t
    else
      var rolled := Rolls(t, rolls, face);
      match rolled.phase
      case Rolling => rolled
      case Moving(s) =>
        var b := Moves(Batch(rolled, s, 0), bars, picks, moves);
        if b.table.game == Win then b.table else EndOfBatch(b.table, s, b.steps, maxPlayers)
  }
}
