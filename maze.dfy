/**
 * The Maze resource: two fixed-size boolean grids of barriers, the
 * flood fill that checks connectivity, and the generator that places
 * barriers by rejection sampling.
 */
module MazeGen {
  import opened Board
  import opened Walls

  /** The cells of a 6 x 6 `reachable` grid that are marked. */
  ghost function Marked(r: array2<bool>): (m: set<Cell>)
    reads r
    requires r.Length0 == Size && r.Length1 == Size
    ensures forall c :: c in m <==> InBounds(c) && r[c.y, c.x]
  {
    set x, y | 0 <= x < Size && 0 <= y < Size && r[y, x] :: Cell(x, y)
  }

  /** The board's cells. */
  ghost const AllCells: set<Cell> := set x, y | 0 <= x < Size && 0 <= y < Size :: Cell(x, y)

  /** The cells of a `reachable` grid that dfs may still visit; it shrinks with every call. */
  ghost function Unmarked(r: array2<bool>): set<Cell>
    reads r
    requires r.Length0 == Size && r.Length1 == Size
  {
    AllCells - Marked(r)
  }

  /** The four cells next to pos are the only adjacent ones. */
  lemma NeighbourCases(pos: Cell, n: Cell)
    requires Adjacent(pos, n)
    ensures n == Cell(pos.x - 1, pos.y) || n == Cell(pos.x + 1, pos.y) || n == Cell(pos.x, pos.y - 1) || n == Cell(pos.x, pos.y + 1)
  {
  }

  class Maze {
    /** horizontal_bars[y][x]: blocks the step between (x, y) and (x, y + 1). */
    const horizontal: array2<bool>
    /** vertical_bars[y][x]: blocks the step between (x, y) and (x + 1, y). */
    const vertical: array2<bool>

    ghost predicate Valid() {
      && horizontal.Length0 == Size - 1 && horizontal.Length1 == Size
      && vertical.Length0 == Size && vertical.Length1 == Size - 1
    }

    /** The barrier positions that are set. */
    ghost function Bars(): (s: set<Bar>)
      reads horizontal, vertical
      requires Valid()
      ensures forall b :: b in s ==> ValidBar(b)
      ensures forall b :: ValidBar(b) && b.Horizontal? ==> (b in s <==> horizontal[b.y, b.x])
      ensures forall b :: ValidBar(b) && b.Vertical? ==> (b in s <==> vertical[b.y, b.x])
    {
      (set x, y | 0 <= x < Size && 0 <= y < Size - 1 && horizontal[y, x] :: Horizontal(x, y)) +
      (set x, y | 0 <= x < Size - 1 && 0 <= y < Size && vertical[y, x] :: Vertical(x, y))
    }

    /** The all-open maze that generate starts from. */
    constructor ()
      ensures Valid() && fresh(horizontal) && fresh(vertical)
      ensures Bars() == {}
    {
      horizontal := new bool[Size - 1, Size]((y, x) => false);
      vertical := new bool[Size, Size - 1]((y, x) => false);
    }

    /** is_blocked: reads the one barrier between two adjacent board cells. */
    function IsBlocked(from: Cell, to: Cell): (r: bool)
      reads horizontal, vertical
      requires Valid() && InBounds(from) && InBounds(to) && Adjacent(from, to)
      ensures r == Blocked(Bars(), from, to)
    {
      BetweenIsTheSeparatingBar(from, to, Between(from, to));
      if from.x == to.x then horizontal[Min(from.y, to.y), from.x]
      else vertical[from.y, Min(from.x, to.x)]
    }

    /**
     * dfs: marks pos and, through unblocked steps, every unmarked cell
     * reachable from it. Every cell it newly marks is reachable from pos, and
     * every such cell has all its unblocked neighbours marked.
     */
    method Dfs(pos: Cell, reachable: array2<bool>)
      requires Valid() && reachable.Length0 == Size && reachable.Length1 == Size
      requires InBounds(pos) && !reachable[pos.y, pos.x]
      modifies reachable
      ensures Covered(Bars(), pos, old(Marked(reachable)), Marked(reachable))
      decreases Unmarked(reachable), 0
    {
      ghost var base := Marked(reachable);
      reachable[pos.y, pos.x] := true;
      assert Marked(reachable) == base + {pos};
      ExploredStart(Bars(), pos, base);
      if pos.x != 0 {
        Visit(pos, Cell(pos.x - 1, pos.y), base, reachable);
      }
      if pos.x != Size - 1 {
        Visit(pos, Cell(pos.x + 1, pos.y), base, reachable);
      }
      if pos.y != 0 {
        Visit(pos, Cell(pos.x, pos.y - 1), base, reachable);
      }
      if pos.y != Size - 1 {
        Visit(pos, Cell(pos.x, pos.y + 1), base, reachable);
      }
      forall n | Step(Bars(), pos, n) ensures n in Marked(reachable) {
        NeighbourCases(pos, n);
      }
    }

    /**
     * One neighbour test of dfs: recurse into next when it is unmarked and the
     * step is not blocked. Afterwards next is marked whenever the step is open.
     */
    method Visit(pos: Cell, next: Cell, ghost base: set<Cell>, reachable: array2<bool>)
      requires Valid() && reachable.Length0 == Size && reachable.Length1 == Size
      requires InBounds(pos) && InBounds(next) && Adjacent(pos, next)
      requires Explored(Bars(), pos, base, Marked(reachable))
      modifies reachable
      ensures Explored(Bars(), pos, base, Marked(reachable))
      ensures old(Marked(reachable)) <= Marked(reachable)
      ensures Step(Bars(), pos, next) ==> next in Marked(reachable)
      decreases Unmarked(reachable), 1
    {
      if !reachable[next.y, next.x] && !IsBlocked(pos, next) {
        ghost var m1 := Marked(reachable);
        Dfs(next, reachable);
        ExploredAbsorb(Bars(), pos, next, base, m1, Marked(reachable));
      }
    }

    /** is_valid: flood fill from (0, 0), then check that all 36 cells were reached. */
    method IsValid() returns (valid: bool)
      requires Valid()
      ensures valid == FullyConnected(Bars())
    {
      var reachable := new bool[Size, Size]((y, x) => false);
      assert Marked(reachable) == {};
      Dfs(Origin, reachable);
      ghost var bars := Bars();
      CoveredFromNothing(bars, Origin, Marked(reachable));
      var y := 0;
      while y < Size
        invariant 0 <= y <= Size
        invariant forall c :: InBounds(c) && c.y < y ==> reachable[c.y, c.x]
      {
        var x := 0;
        while x < Size
          invariant 0 <= x <= Size
          invariant forall c :: InBounds(c) && (c.y < y || (c.y == y && c.x < x)) ==> reachable[c.y, c.x]
        {
          if !reachable[y, x] {
            if FullyConnected(bars) {
              assert Connected(bars, Origin, Cell(x, y));
              ClosedHoldsConnected(bars, Marked(reachable), Origin, Cell(x, y));
            }
            return false;
          }
          x := x + 1;
        }
        y := y + 1;
      }
      forall c | InBounds(c) ensures Connected(bars, Origin, c) {
        assert c in Marked(reachable);
      }
      return true;
    }

    /**
     * One iteration of generate's inner loop: set the drawn barrier if it is
     * not set yet, and revert it unless the maze stays fully connected.
     */
    method TryPlace(d: Bar) returns (placed: bool)
      requires Valid() && ValidBar(d)
      modifies horizontal, vertical
      ensures Bars() == Place(old(Bars()), d)
      ensures placed <==> Bars() != old(Bars())
      ensures placed ==> Bars() == old(Bars()) + {d} && d !in old(Bars())
    {
      match d
      case Horizontal(x, y) => placed := TryHorizontal(x, y);
      case Vertical(x, y) => placed := TryVertical(x, y);
    }

    /** TryPlace for a horizontal barrier position. */
    method TryHorizontal(x: int, y: int) returns (placed: bool)
      requires Valid() && ValidBar(Horizontal(x, y))
      modifies horizontal
      ensures Bars() == Place(old(Bars()), Horizontal(x, y))
      ensures placed <==> Bars() != old(Bars())
      ensures placed ==> Bars() == old(Bars()) + {Horizontal(x, y)} && Horizontal(x, y) !in old(Bars())
    {
      ghost var before := Bars();
      placed := false;
      if !horizontal[y, x] {
        horizontal[y, x] := true;
        assert Bars() == before + {Horizontal(x, y)};
        var ok := IsValid();
        if ok {
          placed := true;
        } else {
          horizontal[y, x] := false;
          assert Bars() == before;
        }
      }
    }

    /** TryPlace for a vertical barrier position. */
    method TryVertical(x: int, y: int) returns (placed: bool)
      requires Valid() && ValidBar(Vertical(x, y))
      modifies vertical
      ensures Bars() == Place(old(Bars()), Vertical(x, y))
      ensures placed <==> Bars() != old(Bars())
      ensures placed ==> Bars() == old(Bars()) + {Vertical(x, y)} && Vertical(x, y) !in old(Bars())
    {
      ghost var before := Bars();
      placed := false;
      if !vertical[y, x] {
        vertical[y, x] := true;
        assert Bars() == before + {Vertical(x, y)};
        var ok := IsValid();
        if ok {
          placed := true;
        } else {
          vertical[y, x] := false;
          assert Bars() == before;
        }
      }
    }

    /**
     * generate's inner `loop`: draw positions from draws[start..] until one
     * barrier is kept, or until the draws run out.
     */
    method PlaceOne(draws: seq<Bar>, start: nat, ghost left: nat) returns (placed: bool, next: nat)
      requires Valid() && start <= |draws| && left > 0
      requires forall i :: 0 <= i < |draws| ==> ValidBar(draws[i])
      modifies horizontal, vertical
      ensures start <= next <= |draws|
      ensures !placed ==> next == |draws|
      ensures Fill(Bars(), draws[next..], if placed then left - 1 else left) == Fill(old(Bars()), draws[start..], left)
    {
      placed, next := false, start;
      while !placed && next < |draws|
        invariant start <= next <= |draws|
        invariant Fill(Bars(), draws[next..], if placed then left - 1 else left) == Fill(old(Bars()), draws[start..], left)
        decreases |draws| - next
      {
        FillUnfold(Bars(), draws, next, left);
        placed := TryPlace(draws[next]);
        next := next + 1;
      }
    }

    /**
     * Maze::generate with the random draws (coin flip and position) supplied as
     * a finite stream. Returns the maze and whether all numTiles barriers were
     * placed before the draws ran out.
     */
    static method Generate(numTiles: nat, draws: seq<Bar>) returns (maze: Maze, complete: bool)
      requires forall i :: 0 <= i < |draws| ==> ValidBar(draws[i])
      ensures maze.Valid() && fresh(maze.horizontal) && fresh(maze.vertical)
      ensures maze.Bars() == Fill({}, draws, numTiles).0
      ensures complete <==> Fill({}, draws, numTiles).1 == 0
      ensures complete ==> |maze.Bars()| == numTiles
      ensures FullyConnected(maze.Bars())
    {
      maze := new Maze();
      EmptyFullyConnected();
      FillKeepsConnected({}, draws, numTiles);
      FillCounts({}, draws, numTiles);
      ghost var goal := Fill({}, draws, numTiles);
      var i := 0;
      for t := 0 to numTiles
        invariant maze.Valid() && fresh(maze.horizontal) && fresh(maze.vertical)
        invariant i <= |draws|
        invariant Fill(maze.Bars(), draws[i..], numTiles - t) == goal
      {
        var placed;
        placed, i := maze.PlaceOne(draws, i, numTiles - t);
        if !placed {
          assert draws[i..] == [];
          complete := false;
          return;
        }
      }
      complete := true;
    }
  }
}
