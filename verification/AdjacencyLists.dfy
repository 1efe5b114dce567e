/** The FMM adjacency lists: a childless box finds its neighbours by a descent of the box tree that leaves
    out subtrees it does not touch. Coordinates are exact. */
module AdjacencyLists {
  import opened Arithmetic
  import opened BoxGeometry

  datatype Box =
    | NoBox
    | Childless(id: nat, x: real, y: real, length: real)
    | Parent(id: nat, x: real, y: real, length: real, children: seq<Box>)

  // ------------------------------------------------------------------------------- geometry

  /** c is where CreateChild puts child i. */
  predicate ChildAt(b: Box, i: int, c: Box)
    requires b.Parent? && !c.NoBox?
  {
    c.length == b.length / 2.0 && c.x == ChildX(b.x, b.length, i) && c.y == ChildY(b.y, b.length, i)
  }

  predicate WellPlaced(b: Box) {
    match b
    case NoBox => true
    case Childless(_, _, _, length) => length > 0.0
    case Parent(_, _, _, length, children) =>
      && length > 0.0 && |children| == 4
      && forall i :: 0 <= i < 4 ==> WellPlaced(children[i]) && (!children[i].NoBox? ==> ChildAt(b, i, children[i]))
  }

  /** Half of both lengths together: how far apart the centres of touching boxes are. */
  function Reach(a: Box, b: Box): real
    requires !a.NoBox? && !b.NoBox?
  {
    a.length / 2.0 + b.length / 2.0
  }

  predicate AdjacentBoxes(a: Box, b: Box)
    requires !a.NoBox? && !b.NoBox?
  {
    var dx, dy := Abs(a.x - b.x), Abs(a.y - b.y);
    if dx == Reach(a, b) && dy <= Reach(a, b) then true
    else dy == Reach(a, b) && dx <= Reach(a, b)
  }

  predicate AncestorBox(b: Box, ancestor: Box)
    requires !b.NoBox? && !ancestor.NoBox?
  {
    b.length != ancestor.length
    && !(Abs(b.x - ancestor.x) > ancestor.length / 2.0 || Abs(b.y - ancestor.y) > ancestor.length / 2.0)
  }

  /** The interiors do not meet. */
  predicate Disjoint(a: Box, b: Box)
    requires !a.NoBox? && !b.NoBox?
  {
    Abs(a.x - b.x) >= Reach(a, b) || Abs(a.y - b.y) >= Reach(a, b)
  }

  /** Box b lies within box a. */
  predicate Within(b: Box, a: Box)
    requires !a.NoBox? && !b.NoBox?
  {
    && b.length <= a.length
    && Abs(b.x - a.x) <= (a.length - b.length) / 2.0 && Abs(b.y - a.y) <= (a.length - b.length) / 2.0
  }

  // --------------------------------------------------------------------------- the leaves

  /** The childless boxes of a subtree, in the order of its children. */
  function Leaves(b: Box): seq<Box> {
    match b
    case NoBox => []
    case Childless(_, _, _, _) => [b]
    case Parent(_, _, _, _, children) => AllLeaves(children)
  }

  function AllLeaves(children: seq<Box>): seq<Box> {
    if children == [] then [] else AllLeaves(children[..|children| - 1]) + Leaves(children[|children| - 1])
  }

  lemma {:induction false} LeafOfChild(children: seq<Box>, m: Box) returns (i: nat)
    requires m in AllLeaves(children)
    ensures i < |children| && m in Leaves(children[i])
  {
    var last := |children| - 1;
    if m in Leaves(children[last]) {
      return last;
    }
    i := LeafOfChild(children[..last], m);
  }

  /** Every leaf of a subtree lies within its root, and is smaller unless it is the root. */
  lemma {:induction false} LeafWithin(b: Box, m: Box)
    requires WellPlaced(b) && m in Leaves(b)
    ensures !b.NoBox? && m.Childless? && m.length > 0.0 && Within(m, b) && (b.Parent? ==> m.length < b.length)
  {
    if b.Parent? {
      var i := LeafOfChild(b.children, m);
      LeafWithin(b.children[i], m);
      assert ChildAt(b, i, b.children[i]);
    }
  }

  /** A leaf below one child and the whole of another child have disjoint interiors. */
  lemma SiblingsDisjoint(b: Box, i: nat, j: nat, m: Box)
    requires WellPlaced(b) && b.Parent? && i < 4 && j < 4 && i != j && !b.children[j].NoBox?
    requires m in Leaves(b.children[i])
    ensures !m.NoBox? && Disjoint(m, b.children[j])
  {
    LeafWithin(b.children[i], m);
    assert ChildAt(b, i, b.children[i]) && ChildAt(b, j, b.children[j]);
  }

  /** What is disjoint from a box, or does not touch it, is so for every leaf of the box. */
  lemma LeavesFollow(b: Box, n: Box, m: Box)
    requires !b.NoBox? && WellPlaced(n) && m in Leaves(n) && Disjoint(b, n)
    ensures !m.NoBox? && Disjoint(b, m)
    ensures !AdjacentBoxes(b, n) ==> !AdjacentBoxes(b, m)
  {
    LeafWithin(n, m);
  }

  /** Dyadic squares are nested or disjoint: a leaf of the tree is below a node or disjoint from it. */
  predicate BelowOrDisjoint(b: Box, n: Box)
    requires !b.NoBox?
  {
    n.NoBox? || b in Leaves(n) || Disjoint(b, n)
  }

  lemma ChildBelowOrDisjoint(b: Box, n: Box, j: nat)
    requires !b.NoBox? && WellPlaced(n) && n.Parent? && j < 4 && BelowOrDisjoint(b, n)
    ensures BelowOrDisjoint(b, n.children[j])
  {
    var c := n.children[j];
    if !c.NoBox? {
      assert ChildAt(n, j, c);
      if b in Leaves(n) {
        var i := LeafOfChild(n.children, b);
        if i != j {
          SiblingsDisjoint(n, i, j, b);
        }
      }
    }
  }

  // ----------------------------------------------------------------------------- the lists

  /** The reference: the leaves that touch b, in order. */
  function Touching(b: Box, leaves: seq<Box>): seq<Box>
    requires !b.NoBox? && forall m :: m in leaves ==> !m.NoBox?
  {
    if leaves == [] then []
    else
      var last := leaves[|leaves| - 1];
      Touching(b, leaves[..|leaves| - 1]) + (if AdjacentBoxes(b, last) then [last] else [])
  }

  lemma {:induction false} LeavesAreBoxes(b: Box)
    ensures forall m :: m in Leaves(b) ==> m.Childless?
  {
    if b.Parent? {
      AllLeavesAreBoxes(b.children);
    }
  }

  lemma {:induction false} AllLeavesAreBoxes(children: seq<Box>)
    ensures forall m :: m in AllLeaves(children) ==> m.Childless?
  {
    if children != [] {
      AllLeavesAreBoxes(children[..|children| - 1]);
      LeavesAreBoxes(children[|children| - 1]);
    }
  }

  lemma {:induction false} TouchingAppend(b: Box, s: seq<Box>, t: seq<Box>)
    requires !b.NoBox? && (forall m :: m in s ==> !m.NoBox?) && (forall m :: m in t ==> !m.NoBox?)
    ensures forall m :: m in s + t ==> !m.NoBox?
    ensures Touching(b, s + t) == Touching(b, s) + Touching(b, t)
  {
    if t == [] {
      assert s + t == s;
    } else {
      var front := t[..|t| - 1];
      assert (s + t)[..|s + t| - 1] == s + front;
      TouchingAppend(b, s, front);
    }
  }

  lemma {:induction false} TouchingNone(b: Box, s: seq<Box>)
    requires !b.NoBox? && forall m :: m in s ==> !m.NoBox? && !AdjacentBoxes(b, m)
    ensures Touching(b, s) == []
  {
    if s != [] {
      TouchingNone(b, s[..|s| - 1]);
    }
  }

  lemma {:induction false} TouchingMember(b: Box, s: seq<Box>, m: Box)
    requires !b.NoBox? && forall m :: m in s ==> !m.NoBox?
    ensures m in Touching(b, s) <==> m in s && AdjacentBoxes(b, m)
  {
    if s != [] {
      var front, last := s[..|s| - 1], s[|s| - 1];
      assert s == front + [last];
      TouchingMember(b, front, m);
    }
  }

  /** The neighbours of b below a node. */
  function Neighbours(b: Box, n: Box): seq<Box>
    requires !b.NoBox?
  {
    LeavesAreBoxes(n);
    Touching(b, Leaves(n))
  }

  function NeighboursIn(b: Box, children: seq<Box>): seq<Box>
    requires !b.NoBox?
  {
    AllLeavesAreBoxes(children);
    Touching(b, AllLeaves(children))
  }

  lemma NextChild(b: Box, children: seq<Box>, i: nat)
    requires !b.NoBox? && i < |children|
    ensures NeighboursIn(b, children[..i + 1]) == NeighboursIn(b, children[..i]) + Neighbours(b, children[i])
  {
    var front := children[..i + 1];
    assert front[..|front| - 1] == children[..i] && front[|front| - 1] == children[i];
    AllLeavesAreBoxes(children[..i]);
    LeavesAreBoxes(children[i]);
    TouchingAppend(b, AllLeaves(children[..i]), Leaves(children[i]));
  }

  /** A subtree that b neither touches nor lies below has no neighbour of b; a leaf is its own
      neighbour only if it touches b. */
  lemma PrunedHasNone(b: Box, n: Box)
    requires b.Childless? && WellPlaced(b) && WellPlaced(n) && !n.NoBox? && BelowOrDisjoint(b, n)
    requires !AdjacentBoxes(b, n) && !AncestorBox(b, n)
    ensures Neighbours(b, n) == []
  {
    LeavesAreBoxes(n);
    forall m | m in Leaves(n) ensures !AdjacentBoxes(b, m) {
      if b in Leaves(n) {
        LeafWithin(n, b);
        assert n.Childless?;
      } else {
        LeavesFollow(b, n, m);
      }
    }
    TouchingNone(b, Leaves(n));
  }

  lemma TouchedLeaf(b: Box, n: Box)
    requires !b.NoBox? && n.Childless?
    ensures Neighbours(b, n) == if AdjacentBoxes(b, n) then [n] else []
  {
    var leaves := Leaves(n);
    LeavesAreBoxes(n);
    assert leaves == [n] && leaves[..|leaves| - 1] == [];
    assert Touching(b, []) == [];
  }

  /** A childless box's list as the code keeps it. */
  class UList {
    var boxes: seq<Box>

    constructor ()
      ensures boxes == []
    {
      boxes := [];
    }

    /** The pruned descent adds exactly the neighbours of b below pb, in order. */
    method SetUListHelper(b: Box, pb: Box)
      requires b.Childless? && WellPlaced(b) && WellPlaced(pb) && pb.Parent? && BelowOrDisjoint(b, pb)
      modifies this
      ensures boxes == old(boxes) + Neighbours(b, pb)
      decreases pb, 1
    {
      var i := 0;
      ghost var found: seq<Box> := [];
      while i < 4
        invariant 0 <= i <= 4
        invariant found == NeighboursIn(b, pb.children[..i])
        invariant boxes == old(boxes) + found
      {
        NextChild(b, pb.children, i);
        ChildBelowOrDisjoint(b, pb, i);
        Visit(b, pb, pb.children[i]);
        found := found + Neighbours(b, pb.children[i]);
        i := i + 1;
      }
      assert pb.children[..4] == pb.children;
    }

    method Visit(b: Box, ghost pb: Box, child: Box)
      requires b.Childless? && WellPlaced(b) && WellPlaced(child) && BelowOrDisjoint(b, child) && child < pb
      modifies this
      ensures boxes == old(boxes) + Neighbours(b, child)
      decreases pb, 0
    {
      if !child.NoBox? {
        if AdjacentBoxes(b, child) {
          if child.Childless? {
            TouchedLeaf(b, child);
            boxes := boxes + [child];
          } else {
            SetUListHelper(b, child);
          }
        } else if AncestorBox(b, child) {
          if child.Childless? {
            TouchedLeaf(b, child);
          } else {
            SetUListHelper(b, child);
          }
        } else {
          PrunedHasNone(b, child);
        }
      }
    }
  }

  lemma LoneLeaf(grid: Box, b: Box)
    requires grid.Childless? && grid.length > 0.0 && b in Leaves(grid)
    ensures !b.NoBox? && Neighbours(b, grid) == []
  {
    assert Leaves(grid) == [grid];
    TouchedLeaf(b, grid);
  }

  /** SetUList: empty the list, then descend from the grid; a childless grid has no children to look at. */
  method SetUList(u: UList, b: Box, grid: Box)
    requires WellPlaced(grid) && b in Leaves(grid)
    modifies u
    ensures !b.NoBox? && u.boxes == Neighbours(b, grid)
  {
    LeafWithin(grid, b);
    u.boxes := [];
    if grid.Parent? {
      u.SetUListHelper(b, grid);
    } else {
      LoneLeaf(grid, b);
    }
  }

  // ------------------------------------------------------------------- what the lists come to

  predicate PairwiseDisjoint(s: seq<Box>) {
    && (forall i :: 0 <= i < |s| ==> !s[i].NoBox?)
    && forall i, j :: 0 <= i < j < |s| ==> Disjoint(s[i], s[j])
  }

  /** The leaves of a tree have disjoint interiors, so no leaf occurs twice. */
  lemma {:induction false} LeavesAreDisjoint(b: Box)
    requires WellPlaced(b)
    ensures PairwiseDisjoint(Leaves(b))
    decreases b, 1
  {
    if b.Parent? {
      LeavesOfFirstAreDisjoint(b, 4);
      assert b.children[..4] == b.children;
    }
  }

  lemma {:induction false} LeavesOfFirstAreDisjoint(b: Box, n: nat)
    requires WellPlaced(b) && b.Parent? && n <= 4
    ensures PairwiseDisjoint(AllLeaves(b.children[..n]))
    decreases b, 0, n
  {
    if n > 0 {
      var front, last := b.children[..n - 1], b.children[n - 1];
      assert b.children[..n][..n - 1] == front;
      LeavesOfFirstAreDisjoint(b, n - 1);
      LeavesAreDisjoint(last);
      var s, t := AllLeaves(front), Leaves(last);
      forall k, l | 0 <= k < |s| && 0 <= l < |t| ensures Disjoint(s[k], t[l]) {
        AcrossChildren(b, n, s[k], t[l]);
      }
    }
  }

  lemma AcrossChildren(b: Box, n: nat, m: Box, m': Box)
    requires WellPlaced(b) && b.Parent? && 0 < n <= 4
    requires m in AllLeaves(b.children[..n - 1]) && m' in Leaves(b.children[n - 1])
    ensures !m.NoBox? && !m'.NoBox? && Disjoint(m, m')
  {
    var i := LeafOfChild(b.children[..n - 1], m);
    LeafWithin(b.children[n - 1], m');
    SiblingsDisjoint(b, i, n - 1, m);
    LeavesFollow(m, b.children[n - 1], m');
  }

  lemma {:induction false} TouchingDistinct(b: Box, s: seq<Box>)
    requires !b.NoBox? && PairwiseDisjoint(s) && forall i :: 0 <= i < |s| ==> s[i].length > 0.0
    requires forall m :: m in s ==> !m.NoBox?
    ensures forall i, j :: 0 <= i < j < |Touching(b, s)| ==> Touching(b, s)[i] != Touching(b, s)[j]
  {
    if s != [] {
      var front, last := s[..|s| - 1], s[|s| - 1];
      TouchingDistinct(b, front);
      TouchingMember(b, front, last);
      assert last !in front by {
        forall i | 0 <= i < |front| ensures front[i] != last {
          assert Disjoint(s[i], s[|s| - 1]);
        }
      }
    }
  }

  /** The list of a leaf holds exactly the leaves of the whole tree that touch it, each once. */
  lemma UListIsAdjacency(grid: Box, b: Box)
    requires WellPlaced(grid) && b in Leaves(grid)
    ensures !b.NoBox?
    ensures forall c :: c in Neighbours(b, grid) <==> c in Leaves(grid) && !c.NoBox? && AdjacentBoxes(b, c)
    ensures forall i, j :: 0 <= i < j < |Neighbours(b, grid)| ==> Neighbours(b, grid)[i] != Neighbours(b, grid)[j]
  {
    var leaves := Leaves(grid);
    LeafWithin(grid, b);
    LeavesAreBoxes(grid);
    LeavesAreDisjoint(grid);
    forall c ensures c in Touching(b, leaves) <==> c in leaves && !c.NoBox? && AdjacentBoxes(b, c) {
      TouchingMember(b, leaves, c);
    }
    forall i | 0 <= i < |leaves| ensures leaves[i].length > 0.0 {
      LeafWithin(grid, leaves[i]);
    }
    TouchingDistinct(b, leaves);
  }

  /** Two leaves are on each other's lists or on neither. */
  lemma UListsAreSymmetric(grid: Box, b: Box, c: Box)
    requires WellPlaced(grid) && b in Leaves(grid) && c in Leaves(grid)
    ensures !b.NoBox? && !c.NoBox? && (c in Neighbours(b, grid) <==> b in Neighbours(c, grid))
  {
    UListIsAdjacency(grid, b);
    UListIsAdjacency(grid, c);
  }

  /** Touching squares share boundary but no interior, and every pair of leaves either touches or keeps a
      gap: AdjacentBoxes misses no contact. */
  lemma AdjacentIffBoundaryShared(grid: Box, b: Box, c: Box)
    requires WellPlaced(grid) && b in Leaves(grid) && c in Leaves(grid) && b != c
    ensures !b.NoBox? && !c.NoBox?
    ensures AdjacentBoxes(b, c) <==> Abs(b.x - c.x) <= Reach(b, c) && Abs(b.y - c.y) <= Reach(b, c)
  {
    var leaves := Leaves(grid);
    LeafWithin(grid, b);
    LeafWithin(grid, c);
    LeavesAreDisjoint(grid);
    var i :| 0 <= i < |leaves| && leaves[i] == b;
    var j :| 0 <= j < |leaves| && leaves[j] == c;
    assert Disjoint(leaves[if i < j then i else j], leaves[if i < j then j else i]);
  }
}
