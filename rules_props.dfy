/**
 * What the rules guarantee: the invariants every reachable server state
 * keeps (well-formed players, turn and phase; every item held exactly once),
 * the effect of each kind of request, and that a won game is over.
 */
module RulesProps {
  import opened Wrappers
  import opened Board
  import opened Items
  import opened Walls
  import opened Rules

  // ---------------------------------------------------------------------
  // The structural invariant

  /** Player k is number k, stands and stood on the board, and has not over-collected. */
  predicate PlayerOk(p: Player, k: nat) {
    p.number == k && InBounds(p.coords) && InBounds(p.prevCoords) && |p.achieved| <= ItemsToWin
  }

  predicate SomeoneWon(players: seq<Player>) {
    exists k :: 0 <= k < |players| && |players[k].achieved| == ItemsToWin
  }

  /**
   * The shape of every state the server reaches: players numbered in join
   * order, play only with a full table, a turn that names a player, a dice
   * value that is a face (or 0 before the first roll), a step count below the
   * dice value while moving, and Win exactly when someone holds five items.
   */
  predicate WellFormed(t: Table, maxPlayers: nat) {
    && 1 <= maxPlayers <= 4
    && |t.players| <= maxPlayers
    && (forall k :: 0 <= k < |t.players| ==> PlayerOk(t.players[k], k))
    && (t.game != WaitingPlayers ==> |t.players| == maxPlayers)
    && (t.game == WaitingPlayers ==> t.phase == Rolling)
    && t.turn < maxPlayers
    && t.dice <= 4
    && (t.phase.Moving? ==> 1 <= t.dice && t.phase.stepsTaken < t.dice)
    && (t.game == Win <==> SomeoneWon(t.players))
  }

  lemma InitialWellFormed(maxPlayers: nat)
    requires 1 <= maxPlayers <= 4
    ensures WellFormed(Initial, maxPlayers)
  {
  }

  /** A connection accepted while seats are free keeps the state well formed. */
  lemma ConnectWellFormed(t: Table, maxPlayers: nat, clientId: nat, pick: nat)
    requires WellFormed(t, maxPlayers) && |t.players| < maxPlayers
    requires t.pool != [] ==> pick < |t.pool|
    ensures WellFormed(Connect(t, maxPlayers, clientId, pick), maxPlayers)
  {
    var r := Connect(t, maxPlayers, clientId, pick);
    assert r.players[|t.players|].number == |t.players|;
    assert forall k :: 0 <= k < |t.players| ==> r.players[k] == t.players[k];
    assert !SomeoneWon(r.players) by {
      forall k | 0 <= k < |r.players| ensures |r.players[k].achieved| != ItemsToWin {
        if k < |t.players| {
          assert !SomeoneWon(t.players);
        }
      }
    }
  }

  lemma {:induction false} ConnectAllWellFormed(t: Table, maxPlayers: nat, ids: seq<nat>, picks: seq<nat>, taken: nat)
    requires WellFormed(t, maxPlayers) && |t.players| + |ids| <= maxPlayers
    requires LegalPicks(picks) && |t.pool| + taken == |picks|
    ensures WellFormed(ConnectAll(t, maxPlayers, ids, picks, taken), maxPlayers)
    decreases |ids|
  {
    if ids != [] {
      ConnectWellFormed(t, maxPlayers, ids[0], NextPick(picks, taken));
      var next := Connect(t, maxPlayers, ids[0], NextPick(picks, taken));
      ConnectAllWellFormed(next, maxPlayers, ids[1..], picks, if t.pool == [] then taken else taken + 1);
    }
  }

  lemma {:induction false} RollsWellFormed(t: Table, maxPlayers: nat, rolls: seq<nat>, face: nat)
    requires WellFormed(t, maxPlayers) && t.game == InGame && face < |DiceFaces|
    ensures WellFormed(Rolls(t, rolls, face), maxPlayers)
    decreases |rolls|
  {
    if rolls != [] {
      RollsWellFormed(RollStep(t, rolls[0], face), maxPlayers, rolls[1..], face);
    }
  }

  /**
   * The invariant of the move loop: the table is well formed apart from the
   * step count, which lives in the batch and never exceeds the dice value.
   */
  predicate BatchOk(b: Batch, maxPlayers: nat) {
    WellFormed(b.table, maxPlayers) && b.table.game != WaitingPlayers && b.steps <= b.table.dice
  }

  lemma CollectOk(b: Batch, maxPlayers: nat, k: nat, p: Player, picks: seq<nat>)
    requires BatchOk(b, maxPlayers) && b.table.game == InGame
    requires k < |b.table.players| && PicksFit(b, picks)
    requires PlayerOk(p, k) && p.achieved == b.table.players[k].achieved
    ensures BatchOk(Collect(b, k, p, picks), maxPlayers)
    ensures Collect(b, k, p, picks).steps == b.steps
  {
    var t := b.table;
    assert !SomeoneWon(t.players);
    assert |p.achieved| < ItemsToWin;
    var r := Collect(b, k, p, picks).table;
    assert |r.players| == |t.players|;
    forall j | 0 <= j < |r.players| && j != k
      ensures r.players[j] == t.players[j]
    {
    }
    if r.game == Win {
      assert |r.players[k].achieved| == ItemsToWin;
    } else {
      forall j | 0 <= j < |r.players| ensures |r.players[j].achieved| != ItemsToWin {
      }
    }
  }

  lemma MoveStepOk(b: Batch, maxPlayers: nat, bars: set<Bar>, picks: seq<nat>, req: MoveRequest)
    requires BatchOk(b, maxPlayers) && PicksFit(b, picks)
    ensures BatchOk(MoveStep(b, bars, picks, req), maxPlayers)
  {
    var t := b.table;
    if t.game != Win && b.steps < t.dice {
      match FindHolder(t.players, req.clientId, t.turn)
      case None =>
      case Some(k) =>
        var p := t.players[k];
        var next := Target(p.coords, req.dir);
        if InBounds(next) {
          if Blocked(bars, p.coords, next) {
            var r := MoveStep(b, bars, picks, req).table;
            forall j | 0 <= j < |r.players| ensures PlayerOk(r.players[j], j) {
              if j != k {
                assert r.players[j] == t.players[j];
              }
            }
            assert SomeoneWon(r.players) <==> SomeoneWon(t.players) by {
              forall j | 0 <= j < |r.players| ensures |r.players[j].achieved| == |t.players[j].achieved| {
              }
            }
          } else {
            var b' := Batch(t.(events := t.events + [StartMoveAnimation(p.clientId, false, next)]), b.steps + 1, b.taken);
            CollectOk(b', maxPlayers, k, p.(prevCoords := p.coords, coords := next), picks);
          }
        }
    }
  }

  lemma {:induction false} MovesOk(b: Batch, maxPlayers: nat, bars: set<Bar>, picks: seq<nat>, reqs: seq<MoveRequest>)
    requires BatchOk(b, maxPlayers) && PicksFit(b, picks)
    ensures BatchOk(Moves(b, bars, picks, reqs), maxPlayers)
    decreases |reqs|
  {
    if reqs != [] {
      MoveStepOk(b, maxPlayers, bars, picks, reqs[0]);
      MovesOk(MoveStep(b, bars, picks, reqs[0]), maxPlayers, bars, picks, reqs[1..]);
    }
  }

  /** server_receive_requests keeps the state well formed. */
  lemma TickWellFormed(t: Table, bars: set<Bar>, maxPlayers: nat, rolls: seq<nat>, moves: seq<MoveRequest>,
                       face: nat, picks: seq<nat>)
    requires WellFormed(t, maxPlayers) && face < |DiceFaces|
    requires LegalPicks(picks) && |t.pool| == |picks|
    ensures WellFormed(Tick(t, bars, maxPlayers, rolls, moves, face, picks), maxPlayers)
  {
    if t.game == InGame {
      RollsWellFormed(t, maxPlayers, rolls, face);
      var rolled := Rolls(t, rolls, face);
      if rolled.phase.Moving? {
        var s := rolled.phase.stepsTaken;
        MovesOk(Batch(rolled, s, 0), maxPlayers, bars, picks, moves);
      }
    }
  }

  // ---------------------------------------------------------------------
  // Every item is in exactly one place: the pool, a target, or an achieved list

  function Own(p: Player): multiset<Item> {
    multiset(p.achieved) + if p.target.Some? then multiset{p.target.value} else multiset{}
  }

  /** The items held by the players, as targets or achieved. */
  function Held(players: seq<Player>): multiset<Item>
    decreases |players|
  {
    if players == [] then multiset{} else Own(players[0]) + Held(players[1..])
  }

  /** All items the state accounts for: held by players or still in the pool. */
  function Total(t: Table): multiset<Item> {
    Held(t.players) + multiset(t.pool)
  }

  /** Every item of Item::ALL is accounted for exactly once. */
  predicate Conserved(t: Table) {
    Total(t) == multiset(All)
  }

  lemma {:induction false} HeldAppend(players: seq<Player>, p: Player)
    ensures Held(players + [p]) == Held(players) + Own(p)
    decreases |players|
  {
    if players != [] {
      assert (players + [p])[1..] == players[1..] + [p];
      HeldAppend(players[1..], p);
    }
  }

  lemma {:induction false} HeldConcat(a: seq<Player>, b: seq<Player>)
    ensures Held(a + b) == Held(a) + Held(b)
    decreases |a|
  {
    if a != [] {
      assert (a + b)[0] == a[0] && (a + b)[1..] == a[1..] + b;
      HeldConcat(a[1..], b);
      var own := Own(a[0]);
      calc {
        Held(a + b);
        own + Held(a[1..] + b);
        own + (Held(a[1..]) + Held(b));
        (own + Held(a[1..])) + Held(b);
        Held(a) + Held(b);
      }
    } else {
      assert a + b == b;
    }
  }

  /** Taking player k out of the registry takes exactly its items out of Held. */
  lemma HeldRemove(players: seq<Player>, k: nat)
    requires k < |players|
    ensures Held(players) == Own(players[k]) + Held(Remove(players, k))
  {
    var front, back := players[..k], players[k + 1..];
    assert players == front + ([players[k]] + back);
    assert Remove(players, k) == front + back;
    HeldConcat(front, [players[k]] + back);
    HeldConcat([players[k]], back);
    HeldConcat(front, back);
    assert Held([players[k]]) == Own(players[k]) by {
      assert [players[k]][1..] == [];
    }
    var f, o, r := Held(front), Own(players[k]), Held(back);
    calc {
      Held(players);
      f + Held([players[k]] + back);
      f + (o + r);
      o + (f + r);
      o + Held(Remove(players, k));
    }
  }

  /** Replacing player k by p swaps exactly their items in Held. */
  lemma HeldAt(players: seq<Player>, k: nat, p: Player)
    requires k < |players|
    ensures Held(players[k := p]) == Own(p) + Held(Remove(players, k))
  {
    HeldRemove(players[k := p], k);
    assert Remove(players[k := p], k) == Remove(players, k);
  }

  lemma InitialConserved()
    ensures Conserved(Initial)
  {
  }

  /** A new player's target comes out of the pool. */
  lemma ConnectKeepsTotal(t: Table, maxPlayers: nat, clientId: nat, pick: nat)
    requires t.pool != [] ==> pick < |t.pool|
    ensures Total(Connect(t, maxPlayers, clientId, pick)) == Total(t)
  {
    var drawn := Take(t.pool, pick);
    var p := Player(clientId, StartCoords(|t.players|), StartCoords(|t.players|), |t.players|, drawn.0, []);
    var r := Connect(t, maxPlayers, clientId, pick);
    assert r.players == t.players + [p] && r.pool == drawn.1;
    HeldAppend(t.players, p);
    assert Own(p) == if drawn.0.Some? then multiset{drawn.0.value} else multiset{};
    calc {
      Total(r);
      Held(t.players) + Own(p) + multiset(drawn.1);
      Held(t.players) + (multiset(drawn.1) + Own(p));
      Held(t.players) + multiset(t.pool);
    }
  }

  /** Player creation neither creates nor loses items. */
  lemma {:induction false} ConnectAllConserves(t: Table, maxPlayers: nat, ids: seq<nat>, picks: seq<nat>, taken: nat)
    requires LegalPicks(picks) && |t.pool| + taken == |picks|
    ensures Total(ConnectAll(t, maxPlayers, ids, picks, taken)) == Total(t)
    decreases |ids|
  {
    if ids != [] {
      ConnectKeepsTotal(t, maxPlayers, ids[0], NextPick(picks, taken));
      var next := Connect(t, maxPlayers, ids[0], NextPick(picks, taken));
      ConnectAllConserves(next, maxPlayers, ids[1..], picks, if t.pool == [] then taken else taken + 1);
    }
  }

  /**
   * Replacing player k by q while the pool goes from one value to another
   * keeps the total when q's items and the new pool add up to the old ones.
   */
  lemma SwapKeepsTotal(t: Table, k: nat, q: Player, pool: seq<Item>)
    requires k < |t.players|
    requires Own(q) + multiset(pool) == Own(t.players[k]) + multiset(t.pool)
    ensures Total(t.(players := t.players[k := q], pool := pool)) == Total(t)
  {
    var others := Held(Remove(t.players, k));
    HeldRemove(t.players, k);
    HeldAt(t.players, k, q);
    calc {
      Total(t.(players := t.players[k := q], pool := pool));
      Own(q) + others + multiset(pool);
      others + (Own(q) + multiset(pool));
      others + (Own(t.players[k]) + multiset(t.pool));
      Own(t.players[k]) + others + multiset(t.pool);
      Total(t);
    }
  }

  lemma CollectKeepsTotal(b: Batch, k: nat, p: Player, picks: seq<nat>)
    requires k < |b.table.players| && PicksFit(b, picks)
    requires Own(p) == Own(b.table.players[k])
    ensures Total(Collect(b, k, p, picks).table) == Total(b.table)
  {
    var t := b.table;
    if p.target.Some? && p.coords == Coords(p.target.value) {
      var got := p.achieved + [p.target.value];
      if |got| >= ItemsToWin {
        SwapKeepsTotal(t, k, p.(achieved := got, target := None), t.pool);
      } else {
        var drawn := Take(t.pool, NextPick(picks, b.taken));
        SwapKeepsTotal(t, k, p.(achieved := got, target := drawn.0), drawn.1);
      }
    } else {
      SwapKeepsTotal(t, k, p, t.pool);
    }
  }

  lemma MoveStepKeepsTotal(b: Batch, bars: set<Bar>, picks: seq<nat>, req: MoveRequest)
    requires PicksFit(b, picks)
    ensures Total(MoveStep(b, bars, picks, req).table) == Total(b.table)
  {
    var t := b.table;
    if t.game != Win && b.steps < t.dice {
      match FindHolder(t.players, req.clientId, t.turn)
      case None =>
      case Some(k) =>
        var p := t.players[k];
        var next := Target(p.coords, req.dir);
        if InBounds(next) {
          if Blocked(bars, p.coords, next) {
            SwapKeepsTotal(t, k, p.(prevCoords := p.coords, coords := StartCoords(p.number)), t.pool);
          } else {
            var b' := Batch(t.(events := t.events + [StartMoveAnimation(p.clientId, false, next)]), b.steps + 1, b.taken);
            CollectKeepsTotal(b', k, p.(prevCoords := p.coords, coords := next), picks);
          }
        }
    }
  }

  lemma {:induction false} MovesKeepTotal(b: Batch, bars: set<Bar>, picks: seq<nat>, reqs: seq<MoveRequest>)
    requires PicksFit(b, picks)
    ensures Total(Moves(b, bars, picks, reqs).table) == Total(b.table)
    decreases |reqs|
  {
    if reqs != [] {
      MoveStepKeepsTotal(b, bars, picks, reqs[0]);
      MovesKeepTotal(MoveStep(b, bars, picks, reqs[0]), bars, picks, reqs[1..]);
    }
  }

  /** server_receive_requests neither creates nor loses items. */
  lemma TickConserves(t: Table, bars: set<Bar>, maxPlayers: nat, rolls: seq<nat>, moves: seq<MoveRequest>,
                      face: nat, picks: seq<nat>)
    requires maxPlayers > 0 && face < |DiceFaces|
    requires LegalPicks(picks) && |t.pool| == |picks|
    ensures Total(Tick(t, bars, maxPlayers, rolls, moves, face, picks)) == Total(t)
  {
    if t.game == InGame {
      var rolled := Rolls(t, rolls, face);
      assert Total(rolled) == Total(t) by {
        assert rolled.players == t.players && rolled.pool == t.pool;
      }
      if rolled.phase.Moving? {
        var s := rolled.phase.stepsTaken;
        var b := Moves(Batch(rolled, s, 0), bars, picks, moves);
        MovesKeepTotal(Batch(rolled, s, 0), bars, picks, moves);
        var r := Tick(t, bars, maxPlayers, rolls, moves, face, picks);
        assert r.players == b.table.players && r.pool == b.table.pool by {
          if b.table.game != Win {
            assert r == EndOfBatch(b.table, s, b.steps, maxPlayers);
          }
        }
      }
    }
  }

  /** In a conserved state every item is accounted for exactly once. */
  lemma ConservedOnce(t: Table, i: Item)
    requires Conserved(t)
    ensures Total(t)[i] == 1
  {
    AllOnce(i);
  }

  /**
   * An item accounted for once that is player k's target is neither in the
   * pool nor achieved by anyone, nor another player's target.
   */
  lemma TargetHeldOnce(t: Table, k: nat, i: Item)
    requires Total(t)[i] == 1 && k < |t.players| && t.players[k].target == Some(i)
    ensures i !in t.pool
    ensures forall j :: 0 <= j < |t.players| ==> i !in t.players[j].achieved
    ensures forall j :: 0 <= j < |t.players| && j != k ==> t.players[j].target != Some(i)
  {
    var rest := Remove(t.players, k);
    assert Held(rest)[i] == 0 && multiset(t.pool)[i] == 0 && multiset(t.players[k].achieved)[i] == 0 by {
      HeldRemove(t.players, k);
    }
    forall j | 0 <= j < |t.players| && j != k
      ensures i !in t.players[j].achieved && t.players[j].target != Some(i)
    {
      var j' := if j < k then j else j - 1;
      assert rest[j'] == t.players[j];
      HeldRemove(rest, j');
      assert Own(t.players[j])[i] == 0;
    }
  }

  /** So in every conserved state each target is unique and not yet achieved. */
  lemma ConservedTargets(t: Table, k: nat, i: Item)
    requires Conserved(t) && k < |t.players| && t.players[k].target == Some(i)
    ensures i !in t.pool
    ensures forall j :: 0 <= j < |t.players| ==> i !in t.players[j].achieved
    ensures forall j :: 0 <= j < |t.players| && j != k ==> t.players[j].target != Some(i)
  {
    ConservedOnce(t, i);
    TargetHeldOnce(t, k, i);
  }

  // ---------------------------------------------------------------------
  // Player creation

  /** The four start corners of a well-formed table are pairwise distinct. */
  lemma StartsDistinct(t: Table, maxPlayers: nat, j: nat, k: nat)
    requires WellFormed(t, maxPlayers) && j < |t.players| && k < |t.players| && j != k
    ensures StartCoords(t.players[j].number) != StartCoords(t.players[k].number)
  {
    StartCornersDistinct(j, k);
  }

  /**
   * A connection while seats are free appends one player: it is the next
   * number, starts (and was) on its own corner, has drawn a target unless the
   * pool was empty, and play starts exactly when the table is now full.
   */
  lemma ConnectEffect(t: Table, maxPlayers: nat, clientId: nat, pick: nat)
    requires WellFormed(t, maxPlayers) && |t.players| < maxPlayers
    requires t.pool != [] ==> pick < |t.pool|
    ensures var r := Connect(t, maxPlayers, clientId, pick);
      var n := |t.players|;
      && |r.players| == n + 1 && r.players[..n] == t.players
      && r.players[n].clientId == clientId && r.players[n].number == n
      && r.players[n].coords == r.players[n].prevCoords == StartCoords(n)
      && (forall j :: 0 <= j < n ==> StartCoords(t.players[j].number) != r.players[n].coords)
      && r.players[n].achieved == []
      && (r.players[n].target.None? <==> t.pool == [])
      && (r.players[n].target, r.pool) == Take(t.pool, pick)
      && (r.game == InGame <==> |r.players| == maxPlayers)
      && (r.game != InGame ==> r.game == WaitingPlayers)
      && r.events == (if |r.players| == maxPlayers then t.events + [GameStateChanged(InGame)] else t.events)
      && r.dice == t.dice && r.phase == t.phase && r.turn == t.turn
  {
    var n := |t.players|;
    forall j | 0 <= j < n ensures StartCoords(t.players[j].number) != StartCoords(n) {
      StartCornersDistinct(j, n);
    }
    var r := Connect(t, maxPlayers, clientId, pick);
    assert r.players[..n] == t.players;
  }

  /** The connection that fills the last seat starts the game. */
  lemma {:induction false} ConnectAllStartsGame(t: Table, maxPlayers: nat, ids: seq<nat>, picks: seq<nat>, taken: nat)
    requires WellFormed(t, maxPlayers) && ids != [] && |t.players| + |ids| == maxPlayers
    requires LegalPicks(picks) && |t.pool| + taken == |picks|
    ensures ConnectAll(t, maxPlayers, ids, picks, taken).game == InGame
    ensures |ConnectAll(t, maxPlayers, ids, picks, taken).players| == maxPlayers
    decreases |ids|
  {
    var next := Connect(t, maxPlayers, ids[0], NextPick(picks, taken));
    ConnectWellFormed(t, maxPlayers, ids[0], NextPick(picks, taken));
    if |ids| > 1 {
      ConnectAllStartsGame(next, maxPlayers, ids[1..], picks, if t.pool == [] then taken else taken + 1);
    } else {
      assert ids[1..] == [];
    }
  }

  // ---------------------------------------------------------------------
  // Rolls

  predicate HolderRolled(t: Table, rolls: seq<nat>) {
    exists j :: 0 <= j < |rolls| && FindHolder(t.players, rolls[j], t.turn).Some?
  }

  /**
   * The roll loop honours a roll only while Rolling and only from the turn
   * holder; after the first honoured roll the phase is Moving(0), so every
   * later roll of the batch is ignored. The die shows one of its faces.
   */
  lemma {:induction false} RollsEffect(t: Table, rolls: seq<nat>, face: nat)
    requires face < |DiceFaces|
    ensures 1 <= DiceFaces[face] <= 4
    ensures Rolls(t, rolls, face) ==
      if t.phase == Rolling && HolderRolled(t, rolls) then
        t.(dice := DiceFaces[face], phase := Moving(0), events := t.events + [TurnPhaseChanged(Moving(0))])
      else t
    decreases |rolls|
  {
    if rolls != [] {
      var t1 := RollStep(t, rolls[0], face);
      RollsEffect(t1, rolls[1..], face);
      if t1 == t {
        assert HolderRolled(t, rolls[1..]) ==> HolderRolled(t, rolls) by {
          if HolderRolled(t, rolls[1..]) {
            var j :| 0 <= j < |rolls[1..]| && FindHolder(t.players, rolls[1..][j], t.turn).Some?;
            assert rolls[j + 1] == rolls[1..][j];
          }
        }
        if t.phase == Rolling && HolderRolled(t, rolls) {
          var j :| 0 <= j < |rolls| && FindHolder(t.players, rolls[j], t.turn).Some?;
          assert j != 0;
          assert rolls[1..][j - 1] == rolls[j];
        }
      }
    }
  }

  // ---------------------------------------------------------------------
  // Moves

  /** Requests once the dice value is spent, and requests from anyone but the turn holder, change nothing. */
  lemma MoveIgnored(b: Batch, bars: set<Bar>, picks: seq<nat>, req: MoveRequest)
    requires PicksFit(b, picks)
    requires || b.table.game == Win
             || b.steps >= b.table.dice
             || forall j :: 0 <= j < |b.table.players| ==> !IsTurnHolder(b.table.players[j], req.clientId, b.table.turn)
    ensures MoveStep(b, bars, picks, req) == b
  {
  }

  /** In a well-formed table the turn holder is player number turn and no other. */
  lemma HolderIsTurn(t: Table, maxPlayers: nat, clientId: nat, k: nat)
    requires WellFormed(t, maxPlayers) && k < |t.players| && IsTurnHolder(t.players[k], clientId, t.turn)
    ensures FindHolder(t.players, clientId, t.turn) == Some(k) && k == t.turn
  {
  }

  /** A step off the board is ignored: no animation, no step counted. */
  lemma MoveOffBoard(b: Batch, maxPlayers: nat, bars: set<Bar>, picks: seq<nat>, req: MoveRequest, k: nat)
    requires PicksFit(b, picks) && WellFormed(b.table, maxPlayers)
    requires k < |b.table.players| && IsTurnHolder(b.table.players[k], req.clientId, b.table.turn)
    requires !InBounds(Target(b.table.players[k].coords, req.dir))
    ensures MoveStep(b, bars, picks, req) == b
  {
    HolderIsTurn(b.table, maxPlayers, req.clientId, k);
  }

  /**
   * Walking into a wall sends the player back to its start corner, spends
   * the whole dice value, and animates the failed step; nothing else changes.
   */
  lemma MoveBlocked(b: Batch, maxPlayers: nat, bars: set<Bar>, picks: seq<nat>, req: MoveRequest, k: nat)
    requires PicksFit(b, picks) && WellFormed(b.table, maxPlayers)
    requires b.table.game != Win && b.steps < b.table.dice
    requires k < |b.table.players| && IsTurnHolder(b.table.players[k], req.clientId, b.table.turn)
    requires var p := b.table.players[k]; var next := Target(p.coords, req.dir);
      InBounds(next) && Blocked(bars, p.coords, next)
    ensures var p := b.table.players[k]; var next := Target(p.coords, req.dir);
      var r := MoveStep(b, bars, picks, req);
      && r.steps == b.table.dice && r.taken == b.taken
      && r.table == b.table.(
           players := b.table.players[k := p.(prevCoords := p.coords, coords := StartCoords(k))],
           events := b.table.events + [StartMoveAnimation(req.clientId, true, next)])
  {
    HolderIsTurn(b.table, maxPlayers, req.clientId, k);
  }

  /**
   * An unblocked step moves the holder to the adjacent cell and counts one
   * step; landing on the target achieves it, and the fifth item wins, while
   * any other pickup draws the next target from the pool.
   */
  lemma MoveClear(b: Batch, maxPlayers: nat, bars: set<Bar>, picks: seq<nat>, req: MoveRequest, k: nat)
    requires PicksFit(b, picks) && WellFormed(b.table, maxPlayers)
    requires b.table.game != Win && b.steps < b.table.dice
    requires k < |b.table.players| && IsTurnHolder(b.table.players[k], req.clientId, b.table.turn)
    requires var p := b.table.players[k]; var next := Target(p.coords, req.dir);
      InBounds(next) && !Blocked(bars, p.coords, next)
    ensures var p := b.table.players[k]; var next := Target(p.coords, req.dir);
      var r := MoveStep(b, bars, picks, req);
      var q := r.table.players[k];
      var pickup := p.target.Some? && next == Coords(p.target.value);
      && Adjacent(p.coords, next)
      && r.steps == b.steps + 1
      && |r.table.players| == |b.table.players|
      && (forall j :: 0 <= j < |b.table.players| && j != k ==> r.table.players[j] == b.table.players[j])
      && q.coords == next && q.prevCoords == p.coords && q.number == p.number && q.clientId == p.clientId
      && r.table.events[..|b.table.events| + 1] == b.table.events + [StartMoveAnimation(req.clientId, false, next)]
      && (!pickup ==> r.table == b.table.(players := b.table.players[k := q],
                                          events := b.table.events + [StartMoveAnimation(req.clientId, false, next)])
                      && q.target == p.target && q.achieved == p.achieved)
      && (pickup ==> q.achieved == p.achieved + [p.target.value])
      && (r.table.game == Win <==> pickup && |p.achieved| + 1 >= ItemsToWin)
      && (pickup && r.table.game != Win ==>
            && (q.target, r.table.pool) == Take(b.table.pool, NextPick(picks, b.taken))
            && r.table.events == b.table.events + [StartMoveAnimation(req.clientId, false, next)])
      && (pickup && r.table.game == Win ==>
            && q.target.None? && r.table.pool == b.table.pool && r.taken == b.taken
            && r.table.events == b.table.events + [StartMoveAnimation(req.clientId, false, next), GameStateChanged(Win)])
  {
    HolderIsTurn(b.table, maxPlayers, req.clientId, k);
    var p := b.table.players[k];
    var next := Target(p.coords, req.dir);
    var r := MoveStep(b, bars, picks, req);
    assert r.table.events[..|b.table.events| + 1] == b.table.events + [StartMoveAnimation(req.clientId, false, next)];
  }

  // ---------------------------------------------------------------------
  // A whole batch

  /** A won game is over: server_receive_requests no longer runs. */
  lemma WinIsFinal(t: Table, bars: set<Bar>, maxPlayers: nat, rolls: seq<nat>, moves: seq<MoveRequest>,
                   face: nat, picks: seq<nat>)
    requires maxPlayers > 0 && face < |DiceFaces| && LegalPicks(picks) && |t.pool| == |picks|
    requires t.game == Win
    ensures Tick(t, bars, maxPlayers, rolls, moves, face, picks) == t
  {
  }

  /**
   * Round robin: the turn either stays or passes to the next player number,
   * and it passes exactly when a batch that started moving ends back in
   * Rolling without a win.
   */
  lemma TickTurnOrder(t: Table, bars: set<Bar>, maxPlayers: nat, rolls: seq<nat>, moves: seq<MoveRequest>,
                      face: nat, picks: seq<nat>)
    requires WellFormed(t, maxPlayers) && face < |DiceFaces|
    requires LegalPicks(picks) && |t.pool| == |picks|
    ensures var r := Tick(t, bars, maxPlayers, rolls, moves, face, picks);
      && (r.turn == t.turn || (r.turn == (t.turn + 1) % maxPlayers && r.phase == Rolling))
      && ((t.game == InGame && r.game == InGame && Rolls(t, rolls, face).phase.Moving? && r.phase == Rolling)
          ==> r.turn == (t.turn + 1) % maxPlayers)
  {
    if t.game == InGame {
      RollsWellFormed(t, maxPlayers, rolls, face);
      var rolled := Rolls(t, rolls, face);
      if rolled.phase.Moving? {
        var s := rolled.phase.stepsTaken;
        var b := Moves(Batch(rolled, s, 0), bars, picks, moves);
        assert b.table.turn == t.turn && b.table.phase == rolled.phase;
        var r := Tick(t, bars, maxPlayers, rolls, moves, face, picks);
        if b.table.game == Win {
          assert r == b.table;
        } else {
          assert r == EndOfBatch(b.table, s, b.steps, maxPlayers);
        }
      }
    }
  }

  /** A batch is processed request by request, so it can be split anywhere. */
  lemma {:induction false} MovesConcat(b: Batch, bars: set<Bar>, picks: seq<nat>, a: seq<MoveRequest>, c: seq<MoveRequest>)
    requires PicksFit(b, picks)
    ensures Moves(b, bars, picks, a + c) == Moves(Moves(b, bars, picks, a), bars, picks, c)
    decreases |a|
  {
    if a == [] {
      assert a + c == c;
    } else {
      assert (a + c)[0] == a[0] && (a + c)[1..] == a[1..] + c;
      MovesConcat(MoveStep(b, bars, picks, a[0]), bars, picks, a[1..], c);
    }
  }

  /** Once the dice value is spent, the rest of the batch is ignored. */
  lemma {:induction false} MovesSpent(b: Batch, bars: set<Bar>, picks: seq<nat>, reqs: seq<MoveRequest>)
    requires PicksFit(b, picks) && b.steps >= b.table.dice
    ensures Moves(b, bars, picks, reqs) == b
    decreases |reqs|
  {
    if reqs != [] {
      MovesSpent(MoveStep(b, bars, picks, reqs[0]), bars, picks, reqs[1..]);
    }
  }

  /**
   * The phase and turn after a batch of moves: a win skips the update; no
   * step leaves phase and turn as they were; steps below the dice value keep
   * the turn and record the new count; reaching the dice value passes the
   * turn and goes back to Rolling.
   */
  lemma TickPhase(t: Table, bars: set<Bar>, maxPlayers: nat, rolls: seq<nat>, moves: seq<MoveRequest>,
                  face: nat, picks: seq<nat>)
    requires WellFormed(t, maxPlayers) && t.game == InGame && face < |DiceFaces|
    requires LegalPicks(picks) && |t.pool| == |picks|
    ensures var rolled := Rolls(t, rolls, face);
      rolled.phase == Rolling ==> Tick(t, bars, maxPlayers, rolls, moves, face, picks) == rolled
    ensures var rolled := Rolls(t, rolls, face);
      rolled.phase.Moving? ==>
        var s := rolled.phase.stepsTaken;
        var b := Moves(Batch(rolled, s, 0), bars, picks, moves);
        var r := Tick(t, bars, maxPlayers, rolls, moves, face, picks);
        var next := (t.turn + 1) % maxPlayers;
        && s < rolled.dice && s <= b.steps
        && b.table.turn == t.turn && b.table.phase == Moving(s)
        && (b.table.game == Win ==> r == b.table)
        && (b.table.game != Win && b.steps == s ==> r == b.table)
        && (b.table.game != Win && s < b.steps < rolled.dice ==>
              r == b.table.(phase := Moving(b.steps), events := b.table.events + [TurnPhaseChanged(Moving(b.steps))]))
        && (b.table.game != Win && b.steps >= rolled.dice ==>
              r == b.table.(turn := next, phase := Rolling,
                            events := b.table.events + [CurrentTurnChanged(next), TurnPhaseChanged(Rolling)]))
  {
    RollsWellFormed(t, maxPlayers, rolls, face);
  }

  /**
   * A turn holder whose step hits a wall loses the rest of the turn, whatever
   * the die shows and however many steps it had taken: the requests after it
   * are ignored, it is back on its corner and the next player is to roll.
   */
  lemma BlockedStepEndsTurn(t: Table, bars: set<Bar>, maxPlayers: nat, rolls: seq<nat>,
                            before: seq<MoveRequest>, req: MoveRequest, after: seq<MoveRequest>,
                            face: nat, picks: seq<nat>, k: nat)
    requires WellFormed(t, maxPlayers) && t.game == InGame && face < |DiceFaces|
    requires LegalPicks(picks) && |t.pool| == |picks|
    requires Rolls(t, rolls, face).phase.Moving?
    requires var rolled := Rolls(t, rolls, face);
      var b := Moves(Batch(rolled, rolled.phase.stepsTaken, 0), bars, picks, before);
      && b.table.game != Win && b.steps < b.table.dice
      && k < |b.table.players| && IsTurnHolder(b.table.players[k], req.clientId, b.table.turn)
      && var p := b.table.players[k]; var next := Target(p.coords, req.dir);
         InBounds(next) && Blocked(bars, p.coords, next)
    ensures var rolled := Rolls(t, rolls, face);
      var b := Moves(Batch(rolled, rolled.phase.stepsTaken, 0), bars, picks, before);
      var r := Tick(t, bars, maxPlayers, rolls, before + [req] + after, face, picks);
      && r.game == InGame && r.turn == (t.turn + 1) % maxPlayers && r.phase == Rolling
      && k == t.turn && r.players[k].coords == StartCoords(k)
      && r.pool == b.table.pool
  {
    RollsWellFormed(t, maxPlayers, rolls, face);
    var rolled := Rolls(t, rolls, face);
    var s := rolled.phase.stepsTaken;
    var b0 := Batch(rolled, s, 0);
    MovesOk(b0, maxPlayers, bars, picks, before);
    var b := Moves(b0, bars, picks, before);
    MoveBlocked(b, maxPlayers, bars, picks, req, k);
    var b1 := MoveStep(b, bars, picks, req);
    assert Moves(b, bars, picks, [req]) == b1 by {
      assert Moves(b, bars, picks, [req]) == Moves(b1, bars, picks, [req][1..]);
      assert [req][1..] == [];
    }
    MovesConcat(b0, bars, picks, before, [req]);
    MovesConcat(b0, bars, picks, before + [req], after);
    MovesSpent(b1, bars, picks, after);
    assert Moves(b0, bars, picks, before + [req] + after) == b1;
    assert b1.table.game == InGame;
    TickPhase(t, bars, maxPlayers, rolls, before + [req] + after, face, picks);
  }

  // ---------------------------------------------------------------------
  // Two connections in one run of server_on_events

  /**
   * As written, two clients whose connections arrive in the same run get the
   * same player number and start corner; with two seats the count never
   * reaches the maximum, so the game stays in WaitingPlayers with a full table.
   */
  lemma DeferredSpawnsCollide(t: Table, picks: seq<nat>, taken: nat)
    requires t.players == [] && t.game == WaitingPlayers
    requires LegalPicks(picks) && |t.pool| + taken == |picks|
    ensures var r := ConnectAllDeferred(t, 2, 0, [1, 2], picks, taken);
      && |r.players| == 2
      && r.players[0].number == r.players[1].number == 0
      && r.players[0].coords == r.players[1].coords
      && r.game == WaitingPlayers
  {
    var t1 := ConnectCounted(t, 2, 0, 1, NextPick(picks, taken));
    var taken1 := if t.pool == [] then taken else taken + 1;
    var t2 := ConnectCounted(t1, 2, 0, 2, NextPick(picks, taken1));
    var taken2 := if t1.pool == [] then taken1 else taken1 + 1;
    assert ConnectAllDeferred(t, 2, 0, [1, 2], picks, taken) == ConnectAllDeferred(t1, 2, 0, [2], picks, taken1) by {
      assert [1, 2][1..] == [2];
    }
    assert ConnectAllDeferred(t1, 2, 0, [2], picks, taken1) == ConnectAllDeferred(t2, 2, 0, [], picks, taken2) by {
      assert [2][1..] == [];
    }
  }

  /**
   * Counting each connection after the previous one, the same two clients
   * get numbers 0 and 1, different corners, and the game starts.
   */
  lemma CountedSpawnsStart(t: Table, picks: seq<nat>, taken: nat)
    requires WellFormed(t, 2) && t.players == []
    requires LegalPicks(picks) && |t.pool| + taken == |picks|
    ensures var r := ConnectAll(t, 2, [1, 2], picks, taken);
      && |r.players| == 2
      && r.players[0].number == 0 && r.players[1].number == 1
      && r.players[0].coords != r.players[1].coords
      && r.game == InGame
  {
    ConnectAllStartsGame(t, 2, [1, 2], picks, taken);
    ConnectAllWellFormed(t, 2, [1, 2], picks, taken);
    var t1 := Connect(t, 2, 1, NextPick(picks, taken));
    var taken1 := if t.pool == [] then taken else taken + 1;
    ConnectWellFormed(t, 2, 1, NextPick(picks, taken));
    ConnectEffect(t, 2, 1, NextPick(picks, taken));
    ConnectEffect(t1, 2, 2, NextPick(picks, taken1));
    assert ConnectAll(t, 2, [1, 2], picks, taken) == ConnectAll(t1, 2, [2], picks, taken1) by {
      assert [1, 2][1..] == [2];
    }
    var t2 := Connect(t1, 2, 2, NextPick(picks, taken1));
    assert ConnectAll(t1, 2, [2], picks, taken1) == t2 by {
      assert [2][1..] == [];
    }
    assert t2.players[0] == t1.players[0];
  }

  /** Until the game starts, server_receive_requests does nothing. */
  lemma WaitingIsIdle(t: Table, bars: set<Bar>, maxPlayers: nat, rolls: seq<nat>, moves: seq<MoveRequest>,
                      face: nat, picks: seq<nat>)
    requires maxPlayers > 0 && face < |DiceFaces| && LegalPicks(picks) && |t.pool| == |picks|
    requires t.game == WaitingPlayers
    ensures Tick(t, bars, maxPlayers, rolls, moves, face, picks) == t
  {
  }
}
