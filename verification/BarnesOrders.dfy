/** The visiting orders of the Barnes-Hut cost-zone walk. Directions are numbered as in the code, from
    BRC_FUC 0 to FDA_BLA 31. */
module BarnesOrders {
  import opened ChildOrders
  import opened OctantPaths
  import opened Sequences

  predicate AllDifferent(a: nat, b: nat, c: nat, d: nat, e: nat, f: nat, g: nat, h: nat) {
    && a != b && a != c && a != d && a != e && a != f && a != g && a != h
    && b != c && b != d && b != e && b != f && b != g && b != h
    && c != d && c != e && c != f && c != g && c != h
    && d != e && d != f && d != g && d != h
    && e != f && e != g && e != h
    && f != g && f != h
    && g != h
  }

  /** The octants share a face: they lie on different sides along one axis only. */
  predicate Neighbours(i: nat, j: nat)
    requires i < 8 && j < 8
  {
    var (x, y, z) := Bits(i);
    var (u, v, w) := Bits(j);
    (x != u && y == v && z == w) || (x == u && y != v && z == w) || (x == u && y == v && z != w)
  }

  /** The same on octant numbers: all three of their bits differ, the lower two, or the lowest. */
  predicate NextTo(i: nat, j: nat) {
    i + j == 7 || i + j == 3 || i + j == 11 || (i != j && i / 2 == j / 2)
  }

  lemma NextToIsNeighbours(i: nat, j: nat)
    requires i < 8 && j < 8
    ensures NextTo(i, j) <==> Neighbours(i, j)
  {
  }

  predicate Path(row: seq<nat>) {
    forall k :: 0 <= k < |row| - 1 ==> NextTo(row[k], row[k + 1])
  }

  function Octants(a: nat, b: nat, c: nat, d: nat, e: nat, f: nat, g: nat, h: nat): (row: seq<nat>)
    requires a < 8 && b < 8 && c < 8 && d < 8 && e < 8 && f < 8 && g < 8 && h < 8
    requires AllDifferent(a, b, c, d, e, f, g, h)
    requires NextTo(a, b) && NextTo(b, c) && NextTo(c, d) && NextTo(d, e)
    requires NextTo(e, f) && NextTo(f, g) && NextTo(g, h)
    ensures ValidRow(row, 8) && Path(row)
  {
    [a, b, c, d, e, f, g, h]
  }

  function Turns(a: nat, b: nat, c: nat, d: nat, e: nat, f: nat, g: nat, h: nat): (row: seq<nat>)
    requires a < 32 && b < 32 && c < 32 && d < 32 && e < 32 && f < 32 && g < 32 && h < 32
    ensures |row| == 8 && InRange(row, 32)
  {
    [a, b, c, d, e, f, g, h]
  }

  /** The octants in visiting order, for the directions from BRC_FUC to BDA_FLA. */
  function BackFirst(d: nat): (row: seq<nat>)
    requires d < 16
    ensures ValidRow(row, 8) && Path(row)
  {
    match d
    case 0 => Octants(2, 5, 6, 1, 0, 3, 4, 7)
    case 1 => Octants(2, 5, 6, 1, 0, 7, 4, 3)
    case 2 => Octants(1, 6, 5, 2, 3, 0, 7, 4)
    case 3 => Octants(1, 6, 5, 2, 3, 4, 7, 0)
    case 4 => Octants(6, 1, 2, 5, 4, 7, 0, 3)
    case 5 => Octants(6, 1, 2, 5, 4, 3, 0, 7)
    case 6 => Octants(5, 2, 1, 6, 7, 4, 3, 0)
    case 7 => Octants(5, 2, 1, 6, 7, 0, 3, 4)
    case 8 => Octants(1, 2, 5, 6, 7, 4, 3, 0)
    case 9 => Octants(1, 2, 5, 6, 7, 0, 3, 4)
    case 10 => Octants(6, 5, 2, 1, 0, 3, 4, 7)
    case 11 => Octants(6, 5, 2, 1, 0, 7, 4, 3)
    case 12 => Octants(5, 6, 1, 2, 3, 0, 7, 4)
    case 13 => Octants(5, 6, 1, 2, 3, 4, 7, 0)
    case 14 => Octants(2, 1, 6, 5, 4, 7, 0, 3)
    case _ => Octants(2, 1, 6, 5, 4, 3, 0, 7)
  }

  /** The same from FRC_BUC to FDA_BLA, counted from 0. */
  function FrontFirst(d: nat): (row: seq<nat>)
    requires d < 16
    ensures ValidRow(row, 8) && Path(row)
  {
    match d
    case 0 => Octants(3, 4, 7, 0, 1, 2, 5, 6)
    case 1 => Octants(3, 4, 7, 0, 1, 6, 5, 2)
    case 2 => Octants(0, 7, 4, 3, 2, 1, 6, 5)
    case 3 => Octants(0, 7, 4, 3, 2, 5, 6, 1)
    case 4 => Octants(7, 0, 3, 4, 5, 6, 1, 2)
    case 5 => Octants(7, 0, 3, 4, 5, 2, 1, 6)
    case 6 => Octants(4, 3, 0, 7, 6, 5, 2, 1)
    case 7 => Octants(4, 3, 0, 7, 6, 1, 2, 5)
    case 8 => Octants(0, 3, 4, 7, 6, 5, 2, 1)
    case 9 => Octants(0, 3, 4, 7, 6, 1, 2, 5)
    case 10 => Octants(7, 4, 3, 0, 1, 2, 5, 6)
    case 11 => Octants(7, 4, 3, 0, 1, 6, 5, 2)
    case 12 => Octants(4, 7, 0, 3, 2, 1, 6, 5)
    case 13 => Octants(4, 7, 0, 3, 2, 5, 6, 1)
    case 14 => Octants(3, 0, 7, 4, 5, 6, 1, 2)
    case _ => Octants(3, 0, 7, 4, 5, 2, 1, 6)
  }

  /** The directions in which it enters them. */
  function DirectionSequence(d: nat): (row: seq<nat>)
    requires d < 32
    ensures |row| == 8 && InRange(row, 32)
  {
    match d
    case 0 => Turns(16, 3, 30, 6, 9, 26, 3, 31)
    case 1 => Turns(16, 3, 30, 6, 2, 17, 8, 20)
    case 2 => Turns(18, 1, 24, 4, 15, 28, 1, 25)
    case 3 => Turns(18, 1, 24, 4, 9, 26, 3, 31)
    case 4 => Turns(20, 7, 26, 2, 13, 30, 7, 27)
    case 5 => Turns(20, 7, 26, 2, 6, 21, 12, 16)
    case 6 => Turns(22, 5, 28, 0, 11, 24, 5, 29)
    case 7 => Turns(22, 5, 28, 0, 4, 23, 10, 18)
    case 8 => Turns(25, 10, 19, 15, 11, 24, 5, 29)
    case 9 => Turns(25, 10, 19, 15, 4, 23, 10, 18)
    case 10 => Turns(27, 8, 21, 13, 9, 26, 3, 31)
    case 11 => Turns(27, 8, 21, 13, 2, 17, 8, 20)
    case 12 => Turns(29, 14, 23, 11, 15, 28, 1, 25)
    case 13 => Turns(29, 14, 23, 11, 9, 26, 3, 31)
    case 14 => Turns(31, 12, 17, 9, 13, 30, 7, 27)
    case 15 => Turns(31, 12, 17, 9, 6, 21, 12, 16)
    case 16 => Turns(9, 26, 3, 31, 25, 10, 19, 15)
    case 17 => Turns(9, 26, 3, 31, 18, 1, 24, 4)
    case 18 => Turns(2, 17, 8, 20, 31, 12, 17, 9)
    case 19 => Turns(2, 17, 8, 20, 16, 3, 30, 6)
    case 20 => Turns(4, 23, 10, 18, 29, 14, 23, 11)
    case 21 => Turns(4, 23, 10, 18, 22, 5, 28, 0)
    case 22 => Turns(6, 21, 12, 16, 27, 8, 21, 13)
    case 23 => Turns(6, 21, 12, 16, 20, 7, 26, 2)
    case 24 => Turns(9, 26, 3, 31, 27, 8, 21, 13)
    case 25 => Turns(9, 26, 3, 31, 20, 7, 26, 2)
    case 26 => Turns(11, 24, 5, 29, 25, 10, 19, 15)
    case 27 => Turns(11, 24, 5, 29, 18, 1, 24, 4)
    case 28 => Turns(13, 30, 7, 27, 31, 12, 17, 9)
    case 29 => Turns(13, 30, 7, 27, 16, 3, 30, 6)
    case 30 => Turns(15, 28, 1, 25, 29, 14, 23, 11)
    case _ => Turns(15, 28, 1, 25, 22, 5, 28, 0)
  }

  function ChildSequence(d: nat): (row: seq<nat>)
    requires d < 32
    ensures ValidRow(row, 8) && Path(row)
  {
    if d < 16 then BackFirst(d) else FrontFirst(d - 16)
  }

  function Shipped(): Orders {
    Orders(seq(32, d requires 0 <= d < 32 => ChildSequence(d)), seq(32, d requires 0 <= d < 32 => DirectionSequence(d)))
  }

  /** The shipped tables visit every octant exactly once in every direction, and go from each octant to
      one that shares a face with it. */
  lemma OrdersAreValid()
    ensures |Shipped().child| == 32 && ValidOrders(Shipped(), 8)
    ensures forall d, k :: 0 <= d < 32 && 0 <= k < 7 ==> Neighbours(Shipped().child[d][k], Shipped().child[d][k + 1])
  {
    forall d: nat, k: nat | d < 32 && k < 7 ensures Neighbours(ChildSequence(d)[k], ChildSequence(d)[k + 1]) {
      assert Path(ChildSequence(d));
      NextToIsNeighbours(ChildSequence(d)[k], ChildSequence(d)[k + 1]);
    }
  }
}
