/**
 * Barriers and the reachability they leave. A maze is described here by
 * the set of barrier positions that are set; the class in MazeGen keeps the
 * same information in the two boolean grids of the source.
 */
module Walls {
  import opened Board

  /**
   * A barrier position. Horizontal(x, y) is horizontal_bars[y][x] and lies
   * between cells (x, y) and (x, y + 1); Vertical(x, y) is vertical_bars[y][x]
   * and lies between cells (x, y) and (x + 1, y).
   */
  datatype Bar = Horizontal(x: int, y: int) | Vertical(x: int, y: int)

  /** The positions that exist: a 5 x 6 grid of horizontal and a 6 x 5 grid of vertical bars. */
  predicate ValidBar(b: Bar) {
    match b
    case Horizontal(x, y) => 0 <= x < Size && 0 <= y < Size - 1
    case Vertical(x, y) => 0 <= x < Size - 1 && 0 <= y < Size
  }

  /** The two cells a barrier separates. */
  function Sides(b: Bar): (Cell, Cell) {
    match b
    case Horizontal(x, y) => (Cell(x, y), Cell(x, y + 1))
    case Vertical(x, y) => (Cell(x, y), Cell(x + 1, y))
  }

  /** The barrier that is_blocked consults for two adjacent cells. */
  function Between(a: Cell, b: Cell): Bar
    requires Adjacent(a, b)
  {
    if a.x == b.x then Horizontal(a.x, Min(a.y, b.y)) else Vertical(Min(a.x, b.x), a.y)
  }

  /** is_blocked on a set of set barriers. */
  predicate Blocked(bars: set<Bar>, a: Cell, b: Cell)
    requires Adjacent(a, b)
  {
    Between(a, b) in bars
  }

  /**
   * Between names exactly one barrier: the one, and the only one, that
   * separates the two cells; it exists on the board when both cells do, and
   * it does not depend on the order of the cells.
   */
  lemma BetweenIsTheSeparatingBar(a: Cell, b: Cell, bar: Bar)
    requires Adjacent(a, b)
    ensures Sides(Between(a, b)) == (a, b) || Sides(Between(a, b)) == (b, a)
    ensures Sides(bar) == (a, b) || Sides(bar) == (b, a) ==> bar == Between(a, b)
    ensures InBounds(a) && InBounds(b) ==> ValidBar(Between(a, b))
    ensures Between(a, b) == Between(b, a)
  {
  }

  /** A move is blocked exactly when some set barrier separates the two cells. */
  lemma BlockedIffSeparated(bars: set<Bar>, a: Cell, b: Cell)
    requires Adjacent(a, b)
    ensures Blocked(bars, a, b) <==> exists bar :: bar in bars && (Sides(bar) == (a, b) || Sides(bar) == (b, a))
  {
    BetweenIsTheSeparatingBar(a, b, Between(a, b));
    if exists bar :: bar in bars && (Sides(bar) == (a, b) || Sides(bar) == (b, a)) {
      var bar :| bar in bars && (Sides(bar) == (a, b) || Sides(bar) == (b, a));
      BetweenIsTheSeparatingBar(a, b, bar);
    }
  }

  lemma BlockedSymmetric(bars: set<Bar>, a: Cell, b: Cell)
    requires Adjacent(a, b)
    ensures Blocked(bars, a, b) == Blocked(bars, b, a)
  {
    BetweenIsTheSeparatingBar(a, b, Between(a, b));
  }

  /** One unblocked step between two board cells. */
  predicate Step(bars: set<Bar>, a: Cell, b: Cell) {
    InBounds(a) && InBounds(b) && Adjacent(a, b) && !Blocked(bars, a, b)
  }

  /** A walk over the board along unblocked steps. */
  ghost predicate IsPath(bars: set<Bar>, p: seq<Cell>) {
    |p| > 0 && InBounds(p[0]) && forall i :: 0 <= i < |p| - 1 ==> Step(bars, p[i], p[i + 1])
  }

  ghost predicate Connected(bars: set<Bar>, a: Cell, b: Cell) {
    exists p :: IsPath(bars, p) && p[0] == a && p[|p| - 1] == b
  }

  /** The maze invariant: every cell is reachable from (0, 0). */
  ghost predicate FullyConnected(bars: set<Bar>) {
    forall c :: InBounds(c) ==> Connected(bars, Origin, c)
  }

  /** A set of cells that no unblocked step leaves. */
  ghost predicate Closed(bars: set<Bar>, m: set<Cell>) {
    forall c, n :: c in m && Step(bars, c, n) ==> n in m
  }

  lemma ConnectedSelf(bars: set<Bar>, a: Cell)
    requires InBounds(a)
    ensures Connected(bars, a, a)
  {
    assert IsPath(bars, [a]);
  }

  lemma StepConnected(bars: set<Bar>, a: Cell, b: Cell)
    requires Step(bars, a, b)
    ensures Connected(bars, a, b)
  {
    assert IsPath(bars, [a, b]);
  }

  /** Extending a walk by one unblocked step. */
  lemma ConnectedExtend(bars: set<Bar>, a: Cell, b: Cell, c: Cell)
    requires Connected(bars, a, b) && Step(bars, b, c)
    ensures Connected(bars, a, c)
  {
    var p :| IsPath(bars, p) && p[0] == a && p[|p| - 1] == b;
    var q := p + [c];
    forall i | 0 <= i < |q| - 1 ensures Step(bars, q[i], q[i + 1]) {
      if i < |p| - 1 {
        assert q[i] == p[i] && q[i + 1] == p[i + 1];
      }
    }
    assert IsPath(bars, q);
  }

  /** Prefixing a walk by one unblocked step. */
  lemma ConnectedPrepend(bars: set<Bar>, a: Cell, b: Cell, c: Cell)
    requires Step(bars, a, b) && Connected(bars, b, c)
    ensures Connected(bars, a, c)
  {
    var p :| IsPath(bars, p) && p[0] == b && p[|p| - 1] == c;
    var q := [a] + p;
    forall i | 0 <= i < |q| - 1 ensures Step(bars, q[i], q[i + 1]) {
      if i > 0 {
        assert q[i] == p[i - 1] && q[i + 1] == p[i];
      }
    }
    assert IsPath(bars, q);
  }

  /** Dropping the last cell of a walk leaves a walk. */
  lemma PathPrefix(bars: set<Bar>, p: seq<Cell>)
    requires IsPath(bars, p) && |p| > 1
    ensures IsPath(bars, p[..|p| - 1])
  {
    var init := p[..|p| - 1];
    forall i | 0 <= i < |init| - 1 ensures Step(bars, init[i], init[i + 1]) {
      assert init[i] == p[i] && init[i + 1] == p[i + 1];
    }
  }

  /** Steps are symmetric, so walks can be reversed. */
  lemma {:induction false} ConnectedSymmetric(bars: set<Bar>, a: Cell, b: Cell)
    requires Connected(bars, a, b)
    ensures Connected(bars, b, a)
  {
    var p :| IsPath(bars, p) && p[0] == a && p[|p| - 1] == b;
    PathReversed(bars, p);
  }

  lemma {:induction false} PathReversed(bars: set<Bar>, p: seq<Cell>)
    requires IsPath(bars, p)
    ensures Connected(bars, p[|p| - 1], p[0])
    decreases |p|
  {
    if |p| == 1 {
      ConnectedSelf(bars, p[0]);
    } else {
      var init := p[..|p| - 1];
      PathPrefix(bars, p);
      PathReversed(bars, init);
      var b, c := p[|p| - 2], p[|p| - 1];
      assert Step(bars, b, c);
      BlockedSymmetric(bars, b, c);
      assert Step(bars, c, b);
      ConnectedPrepend(bars, c, b, p[0]);
    }
  }

  lemma {:induction false} ConnectedTransitive(bars: set<Bar>, a: Cell, b: Cell, c: Cell)
    requires Connected(bars, a, b) && Connected(bars, b, c)
    ensures Connected(bars, a, c)
  {
    var p :| IsPath(bars, p) && p[0] == b && p[|p| - 1] == c;
    PathFrom(bars, a, p);
  }

  lemma {:induction false} PathFrom(bars: set<Bar>, a: Cell, p: seq<Cell>)
    requires IsPath(bars, p) && Connected(bars, a, p[0])
    ensures Connected(bars, a, p[|p| - 1])
    decreases |p|
  {
    if |p| > 1 {
      var init := p[..|p| - 1];
      PathPrefix(bars, p);
      PathFrom(bars, a, init);
      ConnectedExtend(bars, a, p[|p| - 2], p[|p| - 1]);
    }
  }

  /** A closed set that holds the start of a walk holds its end. */
  lemma {:induction false} ClosedHoldsPath(bars: set<Bar>, m: set<Cell>, p: seq<Cell>)
    requires Closed(bars, m) && IsPath(bars, p) && p[0] in m
    ensures p[|p| - 1] in m
    decreases |p|
  {
    if |p| > 1 {
      var init := p[..|p| - 1];
      PathPrefix(bars, p);
      ClosedHoldsPath(bars, m, init);
      assert Step(bars, p[|p| - 2], p[|p| - 1]);
    }
  }

  lemma ClosedHoldsConnected(bars: set<Bar>, m: set<Cell>, a: Cell, b: Cell)
    requires Closed(bars, m) && a in m && Connected(bars, a, b)
    ensures b in m
  {
    var p :| IsPath(bars, p) && p[0] == a && p[|p| - 1] == b;
    ClosedHoldsPath(bars, m, p);
  }

  /**
   * The state of a flood fill started at pos over cells that were already
   * marked (base): every cell marked since is reachable from pos, and every
   * one of them other than pos has all its unblocked neighbours marked.
   */
  ghost predicate Explored(bars: set<Bar>, pos: Cell, base: set<Cell>, m: set<Cell>) {
    && base + {pos} <= m
    && (forall c :: c in m - base ==> Connected(bars, pos, c))
    && (forall c, n :: c in m - base && c != pos && Step(bars, c, n) ==> n in m)
  }

  /** A finished flood fill from pos: pos's own unblocked neighbours are marked too. */
  ghost predicate Covered(bars: set<Bar>, pos: Cell, base: set<Cell>, m: set<Cell>) {
    Explored(bars, pos, base, m) && forall n :: Step(bars, pos, n) ==> n in m
  }

  /** Marking pos starts a flood fill. */
  lemma ExploredStart(bars: set<Bar>, pos: Cell, base: set<Cell>)
    requires InBounds(pos) && pos !in base
    ensures Explored(bars, pos, base, base + {pos})
  {
    ConnectedSelf(bars, pos);
  }

  /** A finished flood fill from a neighbour next of pos extends the one from pos. */
  lemma ExploredAbsorb(bars: set<Bar>, pos: Cell, next: Cell, base: set<Cell>, m1: set<Cell>, m2: set<Cell>)
    requires Explored(bars, pos, base, m1)
    requires Step(bars, pos, next) && Covered(bars, next, m1, m2)
    ensures Explored(bars, pos, base, m2)
  {
    forall c | c in m2 - base ensures Connected(bars, pos, c) {
      if c !in m1 {
        ConnectedPrepend(bars, pos, next, c);
      }
    }
  }

  /** A flood fill that started from nothing marks a closed set. */
  lemma CoveredFromNothing(bars: set<Bar>, pos: Cell, m: set<Cell>)
    requires Covered(bars, pos, {}, m)
    ensures Closed(bars, m)
    ensures forall c :: c in m ==> Connected(bars, pos, c)
  {
  }

  /**
   * A flood fill from pos over an unmarked grid marks exactly the cells
   * connected to pos by unblocked steps.
   */
  lemma FloodFillMarksReachable(bars: set<Bar>, pos: Cell, m: set<Cell>, c: Cell)
    requires Covered(bars, pos, {}, m)
    ensures c in m <==> Connected(bars, pos, c)
  {
    CoveredFromNothing(bars, pos, m);
    if Connected(bars, pos, c) {
      ClosedHoldsConnected(bars, m, pos, c);
    }
  }

  /** In a fully connected maze any two board cells are joined by a walk. */
  lemma AllPairsConnected(bars: set<Bar>, a: Cell, b: Cell)
    requires FullyConnected(bars) && InBounds(a) && InBounds(b)
    ensures Connected(bars, a, b)
  {
    assert Connected(bars, Origin, a);
    ConnectedSymmetric(bars, Origin, a);
    ConnectedTransitive(bars, a, Origin, b);
  }

  /** The empty maze is fully connected: go along row 0, then up column x. */
  lemma EmptyFullyConnected()
    ensures FullyConnected({})
  {
    forall c | InBounds(c) ensures Connected({}, Origin, c) {
      RowReachable(c.x);
      ColumnReachable(c.x, c.y);
    }
  }

  lemma {:induction false} RowReachable(x: int)
    requires 0 <= x < Size
    ensures Connected({}, Origin, Cell(x, 0))
  {
    if x == 0 {
      ConnectedSelf({}, Origin);
    } else {
      RowReachable(x - 1);
      ConnectedExtend({}, Origin, Cell(x - 1, 0), Cell(x, 0));
    }
  }

  lemma {:induction false} ColumnReachable(x: int, y: int)
    requires 0 <= x < Size && 0 <= y < Size
    requires Connected({}, Origin, Cell(x, 0))
    ensures Connected({}, Origin, Cell(x, y))
  {
    if y > 0 {
      ColumnReachable(x, y - 1);
      ConnectedExtend({}, Origin, Cell(x, y - 1), Cell(x, y));
    }
  }

  /**
   * One attempt of Maze::generate: a position that is already set, or whose
   * barrier would disconnect the maze, leaves the maze as it is; otherwise
   * the barrier is kept.
   */
  ghost function Place(bars: set<Bar>, d: Bar): (r: set<Bar>)
    ensures r == bars || (d !in bars && r == bars + {d} && FullyConnected(r))
    ensures FullyConnected(bars) ==> FullyConnected(r)
    ensures FullyConnected(bars + {d}) ==> d in r
  {
    if d !in bars && FullyConnected(bars + {d}) then bars + {d} else bars
  }

  /**
   * The rejection-sampling loop of Maze::generate on a finite stream of draws:
   * consume draws until `left` more barriers have been kept or the draws run
   * out. Returns the barriers and how many were still missing.
   */
  ghost function Fill(bars: set<Bar>, draws: seq<Bar>, left: nat): (r: (set<Bar>, nat))
    ensures bars <= r.0 && r.1 <= left
    decreases |draws|
  {
    if left == 0 || draws == [] then (bars, left)
    else
      var next := Place(bars, draws[0]);
      Fill(next, draws[1..], if next == bars then left else left - 1)
  }

  /** Fill consumes one draw at a time. */
  lemma FillUnfold(bars: set<Bar>, draws: seq<Bar>, i: nat, left: nat)
    requires i < |draws| && left > 0
    ensures var next := Place(bars, draws[i]);
      Fill(bars, draws[i..], left) == Fill(next, draws[i + 1..], if next == bars then left else left - 1)
  {
    assert draws[i..][0] == draws[i] && draws[i..][1..] == draws[i + 1..];
  }

  /** Every kept barrier leaves the maze fully connected, and only drawn positions are set. */
  lemma {:induction false} FillKeepsConnected(bars: set<Bar>, draws: seq<Bar>, left: nat)
    requires FullyConnected(bars)
    requires forall b :: b in bars ==> ValidBar(b)
    requires forall i :: 0 <= i < |draws| ==> ValidBar(draws[i])
    ensures FullyConnected(Fill(bars, draws, left).0)
    ensures forall b :: b in Fill(bars, draws, left).0 ==> ValidBar(b)
    ensures forall b :: b in Fill(bars, draws, left).0 ==> b in bars || b in draws
    decreases |draws|
  {
    if left > 0 && draws != [] {
      var next := Place(bars, draws[0]);
      FillKeepsConnected(next, draws[1..], if next == bars then left else left - 1);
    }
  }

  /** Each kept barrier is new, so barriers set plus barriers missing stays constant. */
  lemma {:induction false} FillCounts(bars: set<Bar>, draws: seq<Bar>, left: nat)
    ensures |Fill(bars, draws, left).0| + Fill(bars, draws, left).1 == |bars| + left
    ensures Fill(bars, draws, left).1 <= left
    ensures bars <= Fill(bars, draws, left).0
    decreases |draws|
  {
    if left > 0 && draws != [] {
      var next := Place(bars, draws[0]);
      assert next != bars ==> next == bars + {draws[0]} && draws[0] !in bars;
      FillCounts(next, draws[1..], if next == bars then left else left - 1);
    }
  }
}
