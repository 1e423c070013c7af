/**
 * The 24 collectible items, each bound to one board cell, and the pool of
 * items not yet handed out as anybody's target (AvailableItems).
 */
module Items {
  import opened Wrappers
  import opened Board

  datatype Item =
    | Bracelet | YinYang | Lightning | Moon | ShootingStar | Fire
    | Bird | Dagger | Crown | Mushroom | Ring | Mouse
    | Sun | Snake | Flower | Candle | Feather | Cat
    | SpiderWeb | Bat | Owl | Eye | PartyHat | MagicWand

  /** Item::coords: the fixed cell of each item. */
  function Coords(i: Item): (c: Cell)
    ensures InBounds(c)
  {
    match i
    case Bracelet => Cell(2, 0)
    case YinYang => Cell(3, 0)
    case Lightning => Cell(1, 1)
    case Moon => Cell(2, 1)
    case ShootingStar => Cell(3, 1)
    case Fire => Cell(4, 1)
    case Bird => Cell(0, 2)
    case Dagger => Cell(1, 2)
    case Crown => Cell(2, 2)
    case Mushroom => Cell(3, 2)
    case Ring => Cell(4, 2)
    case Mouse => Cell(5, 2)
    case Sun => Cell(0, 3)
    case Snake => Cell(1, 3)
    case Flower => Cell(2, 3)
    case Candle => Cell(3, 3)
    case Feather => Cell(4, 3)
    case Cat => Cell(5, 3)
    case SpiderWeb => Cell(1, 4)
    case Bat => Cell(2, 4)
    case Owl => Cell(3, 4)
    case Eye => Cell(4, 4)
    case PartyHat => Cell(2, 5)
    case MagicWand => Cell(3, 5)
  }

  /** Item::ALL, in declaration order. */
  const All: seq<Item> := [
    Bracelet, YinYang, Lightning, Moon, ShootingStar, Fire,
    Bird, Dagger, Crown, Mushroom, Ring, Mouse,
    Sun, Snake, Flower, Candle, Feather, Cat,
    SpiderWeb, Bat, Owl, Eye, PartyHat, MagicWand]

  /** The reverse index: which item, if any, is bound to cell c. */
  function ItemAt(c: Cell): (r: Option<Item>)
    ensures r.Some? ==> Coords(r.value) == c
  {
    if c == Cell(2, 0) then Some(Bracelet)
    else if c == Cell(3, 0) then Some(YinYang)
    else if c == Cell(1, 1) then Some(Lightning)
    else if c == Cell(2, 1) then Some(Moon)
    else if c == Cell(3, 1) then Some(ShootingStar)
    else if c == Cell(4, 1) then Some(Fire)
    else if c == Cell(0, 2) then Some(Bird)
    else if c == Cell(1, 2) then Some(Dagger)
    else if c == Cell(2, 2) then Some(Crown)
    else if c == Cell(3, 2) then Some(Mushroom)
    else if c == Cell(4, 2) then Some(Ring)
    else if c == Cell(5, 2) then Some(Mouse)
    else if c == Cell(0, 3) then Some(Sun)
    else if c == Cell(1, 3) then Some(Snake)
    else if c == Cell(2, 3) then Some(Flower)
    else if c == Cell(3, 3) then Some(Candle)
    else if c == Cell(4, 3) then Some(Feather)
    else if c == Cell(5, 3) then Some(Cat)
    else if c == Cell(1, 4) then Some(SpiderWeb)
    else if c == Cell(2, 4) then Some(Bat)
    else if c == Cell(3, 4) then Some(Owl)
    else if c == Cell(4, 4) then Some(Eye)
    else if c == Cell(2, 5) then Some(PartyHat)
    else if c == Cell(3, 5) then Some(MagicWand)
    else None
  }

  /** The reverse index inverts Coords, so no two items share a cell. */
  lemma ItemAtCoords(i: Item)
    ensures ItemAt(Coords(i)) == Some(i)
  {
    match i
    case Bracelet =>
    case YinYang =>
    case Lightning =>
    case Moon =>
    case ShootingStar =>
    case Fire =>
    case Bird =>
    case Dagger =>
    case Crown =>
    case Mushroom =>
    case Ring =>
    case Mouse =>
    case Sun =>
    case Snake =>
    case Flower =>
    case Candle =>
    case Feather =>
    case Cat =>
    case SpiderWeb =>
    case Bat =>
    case Owl =>
    case Eye =>
    case PartyHat =>
    case MagicWand =>
  }

  lemma CoordsInjective(i: Item, j: Item)
    ensures Coords(i) == Coords(j) ==> i == j
  {
    ItemAtCoords(i);
    ItemAtCoords(j);
  }

  /** No item sits on a start corner. */
  lemma NoItemOnStartCorner(i: Item, n: nat)
    requires n < 4
    ensures Coords(i) != StartCoords(n)
  {
    var c := StartCoords(n);
    assert c in {Cell(0, 0), Cell(0, 5), Cell(5, 0), Cell(5, 5)};
    if Coords(i) == c {
      ItemAtCoords(i);
    }
  }

  /** Item::atlas_index: the item's sprite in the 6x6 board atlas, rows counted from the top. */
  function AtlasIndex(i: Item): (k: int)
    ensures 0 <= k < Size * Size
  {
    (Size - 1 - Coords(i).y) * Size + Coords(i).x
  }

  /** The cell whose sprite is atlas entry k. */
  function AtlasCell(k: int): Cell {
    Cell(k % Size, Size - 1 - k / Size)
  }

  /** The atlas index lies in 0..36 and determines the item's cell, hence the item. */
  lemma AtlasIndexRoundTrip(i: Item, j: Item)
    ensures 0 <= AtlasIndex(i) < Size * Size
    ensures AtlasCell(AtlasIndex(i)) == Coords(i)
    ensures AtlasIndex(i) == AtlasIndex(j) ==> i == j
  {
    var c := Coords(i);
    var k := AtlasIndex(i);
    assert k == (5 - c.y) * 6 + c.x;
    assert k / 6 == 5 - c.y && k % 6 == c.x;
    if AtlasIndex(i) == AtlasIndex(j) {
      var d := Coords(j);
      assert k == (5 - d.y) * 6 + d.x;
      assert k / 6 == 5 - d.y && k % 6 == d.x;
      CoordsInjective(i, j);
    }
  }

  /** Item::ALL has 24 pairwise distinct entries and lists every item. */
  lemma AllDistinct()
    ensures |All| == 24
    ensures forall a, b :: 0 <= a < b < |All| ==> All[a] != All[b]
  {
  }

  lemma AllContains(i: Item)
    ensures i in All
  {
  }

  /** In a sequence without repeats, every element occurs exactly once. */
  lemma {:induction false} DistinctOnce<T>(s: seq<T>, x: T)
    requires forall a, b :: 0 <= a < b < |s| ==> s[a] != s[b]
    ensures multiset(s)[x] == if x in s then 1 else 0
  {
    if s != [] {
      var last := s[|s| - 1];
      var init := s[..|s| - 1];
      assert s == init + [last];
      DistinctOnce(init, x);
      assert last !in init by {
        forall k | 0 <= k < |init| ensures init[k] != last {
          assert init[k] == s[k];
        }
      }
      assert x in s <==> x in init || x == last;
    }
  }

  /** The pool's starting contents hold every item exactly once. */
  lemma AllOnce(i: Item)
    ensures multiset(All)[i] == 1
  {
    AllDistinct();
    AllContains(i);
    DistinctOnce(All, i);
  }

  /** Vec::remove: drops the element at index k, keeping the others in order. */
  function Remove<T>(s: seq<T>, k: nat): (r: seq<T>)
    requires k < |s|
    ensures |r| == |s| - 1
    ensures forall j :: 0 <= j < k ==> r[j] == s[j]
    ensures forall j :: k <= j < |r| ==> r[j] == s[j + 1]
    ensures multiset(r) + multiset{s[k]} == multiset(s)
  {
    assert s == s[..k] + [s[k]] + s[k + 1..];
    s[..k] + s[k + 1..]
  }

  /**
   * AvailableItems::take_random on a pool value, with the random index as an
   * argument: None when the pool is empty, otherwise the item at the index and
   * the pool without it.
   */
  function Take(pool: seq<Item>, index: nat): (r: (Option<Item>, seq<Item>))
    requires pool != [] ==> index < |pool|
    ensures r.0.None? <==> pool == []
    ensures r.0.None? ==> r.1 == pool
    ensures r.0.Some? ==> r.0.value == pool[index] && r.1 == Remove(pool, index)
    ensures multiset(r.1) + (if r.0.Some? then multiset{r.0.value} else multiset{}) == multiset(pool)
  {
    if pool == [] then (None, pool) else (Some(pool[index]), Remove(pool, index))
  }

  /** AvailableItems: the pool, a Vec that only ever shrinks. */
  class AvailableItems {
    var items: seq<Item>

    /** AvailableItems::default: the pool starts with every item, in Item::ALL order. */
    constructor ()
      ensures items == All
    {
      items := All;
    }

    /** take_random, with the random index supplied by the caller. */
    method TakeRandom(index: nat) returns (r: Option<Item>)
      requires items != [] ==> index < |items|
      modifies this
      ensures r.None? <==> old(items) == []
      ensures r.None? ==> items == old(items)
      ensures r.Some? ==> r.value == old(items)[index] && items == Remove(old(items), index)
      ensures (r, items) == Take(old(items), index)
    {
      if items == [] {
        r := None;
      } else {
        r := Some(items[index]);
        items := Remove(items, index);
      }
    }
  }
}
