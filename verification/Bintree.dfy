/** The ray tracer's bintree over a grid: primitives are pruned at every subdivision to the boxes of the two
    halves, down to single cells. Coordinates are exact. */
module Bintree {

  datatype Vec<T> = Vec(x: T, y: T, z: T)

  function At<T>(v: Vec<T>, axis: nat): T
    requires axis < 3
  {
    if axis == 0 then v.x else if axis == 1 then v.y else v.z
  }

  function Put<T>(v: Vec<T>, axis: nat, t: T): Vec<T>
    requires axis < 3
  {
    if axis == 0 then v.(x := t) else if axis == 1 then v.(y := t) else v.(z := t)
  }

  datatype BBox = BBox(near: Vec<real>, far: Vec<real>)

  /** A primitive by its number, with its bounding volume. */
  datatype Prim = Prim(id: nat, bv: BBox)

  /** axis is -1 for a node that is not subdivided; kids are none or two. */
  datatype Node = Node(axis: int, n: Vec<nat>, i: Vec<nat>, p: Vec<real>, prims: seq<Prim>, kids: seq<Node>)

  const ONE: Vec<nat> := Vec(1, 1, 1)

  // --------------------------------------------------------------------------- the tolerance

  function Larger(a: real, b: real): real {
    if a > b then a else b
  }

  function Eps(b: BBox): real {
    Larger(Larger(b.far.x - b.near.x, b.far.y - b.near.y), b.far.z - b.near.z) * 0.000001
  }

  predicate AxisOverlaps(near: real, far: real, bNear: real, bFar: real, eps: real) {
    !(near > bFar + eps) && !(far < bNear - eps)
  }

  /** The primitive's box meets the box b, within b's own tolerance. */
  predicate Overlaps(b: BBox, bb: BBox) {
    && AxisOverlaps(b.near.x, b.far.x, bb.near.x, bb.far.x, Eps(b))
    && AxisOverlaps(b.near.y, b.far.y, bb.near.y, bb.far.y, Eps(b))
    && AxisOverlaps(b.near.z, b.far.z, bb.near.z, bb.far.z, Eps(b))
  }

  /** The reference: one flat filter that keeps the order. */
  function Kept(prims: seq<Prim>, b: BBox): seq<Prim> {
    if prims == [] then []
    else
      var last := |prims| - 1;
      Kept(prims[..last], b) + (if Overlaps(b, prims[last].bv) then [prims[last]] else [])
  }

  // ------------------------------------------------------------------- what overlapping means

  predicate Proper(b: BBox) {
    b.near.x <= b.far.x && b.near.y <= b.far.y && b.near.z <= b.far.z
  }

  /** The point lies between two corners, give or take eps on every axis. */
  predicate Between(pt: Vec<real>, near: Vec<real>, far: Vec<real>, eps: real) {
    && near.x - eps <= pt.x <= far.x + eps && near.y - eps <= pt.y <= far.y + eps
    && near.z - eps <= pt.z <= far.z + eps
  }

  /** The box bb and the box from near to far, grown by eps on all sides, have a point in common. */
  ghost predicate HavePoint(bb: BBox, near: Vec<real>, far: Vec<real>, eps: real) {
    exists pt :: Between(pt, bb.near, bb.far, 0.0) && Between(pt, near, far, eps)
  }

  lemma OverlapsMeans(b: BBox, bb: BBox)
    requires Proper(b) && Proper(bb)
    ensures Overlaps(b, bb) <==> HavePoint(bb, b.near, b.far, Eps(b))
  {
    var e := Eps(b);
    if Overlaps(b, bb) {
      var pt := Vec(Larger(b.near.x - e, bb.near.x), Larger(b.near.y - e, bb.near.y), Larger(b.near.z - e, bb.near.z));
      assert Between(pt, bb.near, bb.far, 0.0) && Between(pt, b.near, b.far, e);
    }
  }

  /** The filter keeps a primitive as often as it was listed if it overlaps, and drops it otherwise. */
  lemma {:induction false} KeptMeans(prims: seq<Prim>, b: BBox, p: Prim)
    ensures multiset(Kept(prims, b))[p] == if Overlaps(b, p.bv) then multiset(prims)[p] else 0
  {
    if prims != [] {
      var last := |prims| - 1;
      KeptMeans(prims[..last], b, p);
      assert prims == prims[..last] + [prims[last]];
    }
  }

  method PrimsInBox(pepa: seq<Prim>, b: BBox) returns (npepa: seq<Prim>)
    ensures npepa == Kept(pepa, b)
  {
    var side := b.far.y - b.near.y;
    var max := b.far.x - b.near.x;
    max := if max > side then max else side;
    side := b.far.z - b.near.z;
    max := if max > side then max else side;
    var eps := max * 0.000001;
    npepa := [];
    for j := 0 to |pepa|
      invariant npepa == Kept(pepa[..j], b)
    {
      var bb := pepa[j].bv;
      assert pepa[..j + 1][..j] == pepa[..j];
      if !(b.near.x > bb.far.x + eps || b.near.y > bb.far.y + eps || b.near.z > bb.far.z + eps
           || b.far.x < bb.near.x - eps || b.far.y < bb.near.y - eps || b.far.z < bb.near.z - eps) {
        npepa := npepa + [pepa[j]];
      }
    }
    assert pepa[..|pepa|] == pepa;
  }

  // --------------------------------------------------------------------------- boxes of cells

  /** n cells of size c on from p. */
  function On(p: real, n: nat, c: real): real {
    p + n as real * c
  }

  /** The box from p over n cells. */
  function BoxOver(p: Vec<real>, n: Vec<nat>, cell: Vec<real>): BBox {
    BBox(p, CellAt(p, n, cell))
  }

  predicate Positive(cell: Vec<real>) {
    cell.x > 0.0 && cell.y > 0.0 && cell.z > 0.0
  }

  /** Where cell (i, j, k) of a node begins. */
  function CellAt(p: Vec<real>, ijk: Vec<nat>, cell: Vec<real>): Vec<real> {
    Vec(On(p.x, ijk.x, cell.x), On(p.y, ijk.y, cell.y), On(p.z, ijk.z, cell.z))
  }

  predicate Inside(ijk: Vec<nat>, n: Vec<nat>) {
    ijk.x < n.x && ijk.y < n.y && ijk.z < n.z
  }

  lemma StretchWithin(p: real, i: nat, n: nat, c: real)
    requires i < n && c > 0.0
    ensures p <= On(p, i, c) && On(On(p, i, c), 1, c) <= On(p, n, c)
    ensures On(On(p, i, c), 1, c) - On(p, i, c) <= On(p, n, c) - p
  {
    var room := (n - i - 1) as real;
    assert room * c >= 0.0 && i as real * c >= 0.0;
    assert n as real == i as real + room + 1.0;
    assert n as real * c == i as real * c + room * c + c;
    assert 1 as real * c == c;
  }

  /** A cell's box lies in its node's box and has no larger tolerance, so what meets the cell meets the
      node. */
  lemma CellNarrower(p: Vec<real>, n: Vec<nat>, ijk: Vec<nat>, cell: Vec<real>, bb: BBox)
    requires Positive(cell) && Inside(ijk, n)
    ensures Overlaps(BoxOver(CellAt(p, ijk, cell), ONE, cell), bb) ==> Overlaps(BoxOver(p, n, cell), bb)
  {
    var b, c := BoxOver(p, n, cell), BoxOver(CellAt(p, ijk, cell), ONE, cell);
    CellInside(p, n, ijk, cell);
    LargerSides(c, b);
    WiderOverlaps(c, b, bb);
  }

  lemma CellInside(p: Vec<real>, n: Vec<nat>, ijk: Vec<nat>, cell: Vec<real>)
    requires Positive(cell) && Inside(ijk, n)
    ensures var b, c := BoxOver(p, n, cell), BoxOver(CellAt(p, ijk, cell), ONE, cell);
            && b.near.x <= c.near.x && b.near.y <= c.near.y && b.near.z <= c.near.z
            && c.far.x <= b.far.x && c.far.y <= b.far.y && c.far.z <= b.far.z
            && c.far.x - c.near.x <= b.far.x - b.near.x
            && c.far.y - c.near.y <= b.far.y - b.near.y
            && c.far.z - c.near.z <= b.far.z - b.near.z
  {
    StretchWithin(p.x, ijk.x, n.x, cell.x);
    StretchWithin(p.y, ijk.y, n.y, cell.y);
    StretchWithin(p.z, ijk.z, n.z, cell.z);
    assert ONE.x == 1 && ONE.y == 1 && ONE.z == 1;
  }

  lemma WiderOverlaps(c: BBox, b: BBox, bb: BBox)
    requires b.near.x <= c.near.x && b.near.y <= c.near.y && b.near.z <= c.near.z
    requires c.far.x <= b.far.x && c.far.y <= b.far.y && c.far.z <= b.far.z && Eps(c) <= Eps(b)
    ensures Overlaps(c, bb) ==> Overlaps(b, bb)
  {
  }

  lemma LargerSides(c: BBox, b: BBox)
    requires c.far.x - c.near.x <= b.far.x - b.near.x
    requires c.far.y - c.near.y <= b.far.y - b.near.y
    requires c.far.z - c.near.z <= b.far.z - b.near.z
    ensures Eps(c) <= Eps(b)
  {
  }

  /** Filtering by a wider box first makes no difference. */
  lemma {:induction false} PruningIsHarmless(prims: seq<Prim>, p: Vec<real>, n: Vec<nat>, ijk: Vec<nat>,
                                             cell: Vec<real>)
    requires Positive(cell) && Inside(ijk, n)
    ensures var c := BoxOver(CellAt(p, ijk, cell), ONE, cell);
            Kept(Kept(prims, BoxOver(p, n, cell)), c) == Kept(prims, c)
  {
    if prims != [] {
      var last := |prims| - 1;
      var b := BoxOver(p, n, cell);
      PruningIsHarmless(prims[..last], p, n, ijk, cell);
      CellNarrower(p, n, ijk, cell, prims[last].bv);
      if Overlaps(b, prims[last].bv) {
        assert Kept(prims, b)[..|Kept(prims, b)| - 1] == Kept(prims[..last], b);
      } else {
        assert Kept(prims, b) == Kept(prims[..last], b);
      }
    }
  }

  // -------------------------------------------------------------------------------- the tree

  /** The largest dimension, the first one on a tie. */
  function LargestAxis(n: Vec<nat>): (axis: nat)
    ensures axis < 3 && At(n, axis) >= n.x && At(n, axis) >= n.y && At(n, axis) >= n.z
  {
    var imax := if n.x < n.y then 1 else 0;
    if At(n, imax) < n.z then 2 else imax
  }

  predicate Nonempty(n: Vec<nat>) {
    n.x > 0 && n.y > 0 && n.z > 0
  }

  /** The two halves of a node along its largest dimension, with the primitives that meet them. */
  function Half(t: Node, cell: Vec<real>, second: bool): Node
    requires Nonempty(t.n)
  {
    var axis := LargestAxis(t.n);
    var n1 := At(t.n, axis) / 2;
    var n := Put(t.n, axis, if second then At(t.n, axis) - n1 else n1);
    var i := if second then Put(t.i, axis, At(t.i, axis) + n1) else t.i;
    var p := if second then Put(t.p, axis, On(At(t.p, axis), n1, At(cell, axis))) else t.p;
    Node(-1, n, i, p, Kept(t.prims, BoxOver(p, n, cell)), [])
  }

  /** Node and place in the grid, whatever hangs below it. */
  predicate SameNode(a: Node, b: Node) {
    a.n == b.n && a.i == b.i && a.p == b.p && a.prims == b.prims
  }

  /** Subdivided down to single cells. */
  predicate Built(t: Node, cell: Vec<real>) {
    && Nonempty(t.n)
    && if t.n == ONE then t.kids == []
       else
         && t.axis == LargestAxis(t.n) && |t.kids| == 2
         && SameNode(t.kids[0], Half(t, cell, false)) && SameNode(t.kids[1], Half(t, cell, true))
         && Built(t.kids[0], cell) && Built(t.kids[1], cell)
  }

  lemma HalvesAreSmaller(t: Node, cell: Vec<real>)
    requires Nonempty(t.n) && t.n != ONE
    ensures var a, b := Half(t, cell, false), Half(t, cell, true);
            && Nonempty(a.n) && Nonempty(b.n)
            && a.n.x + a.n.y + a.n.z < t.n.x + t.n.y + t.n.z && b.n.x + b.n.y + b.n.z < t.n.x + t.n.y + t.n.z
  {
  }

  /** Builds the halves; in the code both are filled in place. */
  method SubdivBintree(t: Node, cell: Vec<real>) returns (axis: nat, btn1: Node, btn2: Node)
    requires Nonempty(t.n)
    ensures axis == LargestAxis(t.n) && btn1 == Half(t, cell, false) && btn2 == Half(t, cell, true)
  {
    axis := 0;
    var dmax := t.n.x;
    if dmax < t.n.y {
      axis, dmax := 1, t.n.y;
    }
    if dmax < t.n.z {
      axis, dmax := 2, t.n.z;
    }
    var n1 := At(t.n, axis) / 2;
    var n2 := At(t.n, axis) - n1;
    var p2 := Put(t.p, axis, On(At(t.p, axis), n1, At(cell, axis)));
    var pe1 := PrimsInBox(t.prims, BoxOver(t.p, Put(t.n, axis, n1), cell));
    var pe2 := PrimsInBox(t.prims, BoxOver(p2, Put(t.n, axis, n2), cell));
    btn1 := Node(-1, Put(t.n, axis, n1), t.i, t.p, pe1, []);
    btn2 := Node(-1, Put(t.n, axis, n2), Put(t.i, axis, At(t.i, axis) + n1), p2, pe2, []);
  }

  /** The node with its two built halves. */
  function Joined(root: Node, cell: Vec<real>, left: Node, right: Node): (t: Node)
    requires Nonempty(root.n) && root.n != ONE
    requires Built(left, cell) && Built(right, cell)
    requires SameNode(left, Half(root, cell, false)) && SameNode(right, Half(root, cell, true))
    ensures Built(t, cell) && SameNode(t, root)
  {
    Node(LargestAxis(root.n), root.n, root.i, root.p, root.prims, [left, right])
  }

  /** Subdivision ends, and gives a tree down to single cells over the same root. */
  method CreateBintree(root: Node, cell: Vec<real>) returns (t: Node)
    requires Nonempty(root.n) && root.kids == []
    ensures Built(t, cell) && SameNode(t, root)
    decreases root.n.x + root.n.y + root.n.z
  {
    t := root;
    if root.n != ONE {
      HalvesAreSmaller(root, cell);
      var axis, btn1, btn2 := SubdivBintree(root, cell);
      var left := CreateBintree(btn1, cell);
      var right := CreateBintree(btn2, cell);
      t := Joined(root, cell, left, right);
    }
  }

  // ------------------------------------------------------------------------------ the lookup

  /** Which half holds a cell, and which cell of the half it is. */
  function InHalf(t: Node, ijk: Vec<nat>): (bool, Vec<nat>)
  {
    var axis := LargestAxis(t.n);
    var idiv := At(t.n, axis) / 2;
    if At(ijk, axis) + 1 > idiv then (true, Put(ijk, axis, At(ijk, axis) - idiv)) else (false, ijk)
  }

  lemma SameCell(t: Node, cell: Vec<real>, ijk: Vec<nat>)
    requires Nonempty(t.n) && t.n != ONE && Inside(ijk, t.n)
    ensures var (second, ijk') := InHalf(t, ijk); var h := Half(t, cell, second);
            && Inside(ijk', h.n) && CellAt(h.p, ijk', cell) == CellAt(t.p, ijk, cell)
            && h.i.x + ijk'.x == t.i.x + ijk.x && h.i.y + ijk'.y == t.i.y + ijk.y && h.i.z + ijk'.z == t.i.z + ijk.z
  {
    var axis := LargestAxis(t.n);
    var idiv := At(t.n, axis) / 2;
    if At(ijk, axis) + 1 > idiv {
      SamePoint(At(t.p, axis), At(ijk, axis), idiv, At(cell, axis));
      if axis == 0 {
      } else if axis == 1 {
      } else {
      }
    }
  }

  lemma SamePoint(p: real, i: nat, n1: nat, c: real)
    requires n1 <= i
    ensures On(On(p, n1, c), i - n1, c) == On(p, i, c)
  {
  }

  function CellBox(t: Node, ijk: Vec<nat>, cell: Vec<real>): BBox {
    BoxOver(CellAt(t.p, ijk, cell), ONE, cell)
  }

  /** A half keeps, of what its node has for a cell of the half, all; and once it is a single cell, nothing
      else. */
  lemma HalfKeepsCell(t: Node, cell: Vec<real>, ijk: Vec<nat>)
    requires Positive(cell) && Nonempty(t.n) && t.n != ONE && Inside(ijk, t.n)
    ensures var (second, ijk') := InHalf(t, ijk); var h, c := Half(t, cell, second), CellBox(t, ijk, cell);
            && Kept(h.prims, c) == Kept(t.prims, c) && (h.n == ONE ==> h.prims == Kept(t.prims, c))
  {
    var (second, ijk') := InHalf(t, ijk);
    var h := Half(t, cell, second);
    SameCell(t, cell, ijk);
    PruningIsHarmless(t.prims, h.p, h.n, ijk', cell);
    if h.n == ONE {
      assert ijk' == Vec(0, 0, 0);
      assert CellAt(h.p, ijk', cell) == h.p;
    }
  }

  /** The lookup ends at the leaf of the cell asked for; its list is what one flat filter by that cell's box,
      with the cell's own tolerance, leaves of the root's primitives, in their order. A grid of a single cell
      has no subdivision and keeps them all. */
  method BintreeLookup(root: Node, ijk0: Vec<nat>, cell: Vec<real>) returns (pepa: seq<Prim>, ghost leaf: Node)
    requires Built(root, cell) && Positive(cell) && Inside(ijk0, root.n)
    ensures leaf.n == ONE && leaf.prims == pepa
    ensures leaf.i == Vec(root.i.x + ijk0.x, root.i.y + ijk0.y, root.i.z + ijk0.z)
    ensures pepa == if root.n == ONE then root.prims else Kept(root.prims, CellBox(root, ijk0, cell))
  {
    var btn, ijk := root, ijk0;
    while btn.n != ONE
      invariant OnTheWay(root, ijk0, btn, ijk, cell)
      decreases btn
    {
      ghost var before, at := btn, ijk;
      btn, ijk := Descend(btn, ijk, cell);
      WayGoesOn(root, ijk0, before, at, btn, ijk, cell);
    }
    assert ijk == Vec(0, 0, 0);
    pepa, leaf := btn.prims, btn;
  }

  /** The node reached holds the cell asked for, and still has all its primitives. */
  predicate OnTheWay(root: Node, ijk0: Vec<nat>, btn: Node, ijk: Vec<nat>, cell: Vec<real>) {
    && Built(btn, cell) && Inside(ijk, btn.n) && CellAt(btn.p, ijk, cell) == CellAt(root.p, ijk0, cell)
    && btn.i.x + ijk.x == root.i.x + ijk0.x && btn.i.y + ijk.y == root.i.y + ijk0.y
       && btn.i.z + ijk.z == root.i.z + ijk0.z
    && Kept(btn.prims, CellBox(root, ijk0, cell)) == Kept(root.prims, CellBox(root, ijk0, cell))
    && if root.n == ONE then btn == root else btn.n == ONE ==> btn.prims == Kept(root.prims, CellBox(root, ijk0, cell))
  }

  lemma WayGoesOn(root: Node, ijk0: Vec<nat>, btn: Node, ijk: Vec<nat>, next: Node, ijk': Vec<nat>, cell: Vec<real>)
    requires Positive(cell) && OnTheWay(root, ijk0, btn, ijk, cell) && btn.n != ONE && Built(next, cell)
    requires SameNode(next, Half(btn, cell, InHalf(btn, ijk).0)) && ijk' == InHalf(btn, ijk).1
    ensures OnTheWay(root, ijk0, next, ijk', cell)
  {
    HalfKeepsCell(btn, cell, ijk);
    SameCell(btn, cell, ijk);
    assert CellBox(btn, ijk, cell) == CellBox(root, ijk0, cell);
  }

  /** One turn of that loop. */
  method Descend(btn: Node, ijk: Vec<nat>, ghost cell: Vec<real>) returns (next: Node, ijk': Vec<nat>)
    requires Built(btn, cell) && btn.n != ONE && Inside(ijk, btn.n)
    ensures next < btn && Built(next, cell) && SameNode(next, Half(btn, cell, InHalf(btn, ijk).0))
            && ijk' == InHalf(btn, ijk).1
  {
    var child := 0;
    ijk' := ijk;
    var idiv := At(btn.n, btn.axis) / 2;
    if At(ijk, btn.axis) + 1 > idiv {
      child := 1;
      ijk' := Put(ijk, btn.axis, At(ijk, btn.axis) - idiv);
    }
    next := btn.kids[child];
  }

  /** Where cell (i, j, k) of a grid begins and where it ends. */
  function NearCorner(min: Vec<real>, ijk: Vec<nat>, cell: Vec<real>): Vec<real> {
    Vec(min.x + ijk.x as real * cell.x, min.y + ijk.y as real * cell.y, min.z + ijk.z as real * cell.z)
  }

  function FarCorner(min: Vec<real>, ijk: Vec<nat>, cell: Vec<real>): Vec<real> {
    NearCorner(min, Vec(ijk.x + 1, ijk.y + 1, ijk.z + 1), cell)
  }

  /** What a primitive must share with the cell: a point, give or take a millionth of its longest side. */
  ghost predicate TouchesCell(bb: BBox, min: Vec<real>, ijk: Vec<nat>, cell: Vec<real>) {
    HavePoint(bb, NearCorner(min, ijk, cell), FarCorner(min, ijk, cell), LongestSide(cell) / 1000000.0)
  }

  function LongestSide(cell: Vec<real>): (r: real)
    ensures r >= cell.x && r >= cell.y && r >= cell.z && (r == cell.x || r == cell.y || r == cell.z)
  {
    Larger(Larger(cell.x, cell.y), cell.z)
  }

  lemma NextCell(p: real, i: nat, c: real)
    ensures On(On(p, i, c), 1, c) == p + (i + 1) as real * c && On(On(p, i, c), 1, c) - On(p, i, c) == c
  {
    assert (i + 1) as real * c == i as real * c + c;
    assert 1 as real * c == c;
  }

  lemma CellCorners(min: Vec<real>, ijk: Vec<nat>, cell: Vec<real>)
    requires Positive(cell)
    ensures BoxOver(CellAt(min, ijk, cell), ONE, cell) == BBox(NearCorner(min, ijk, cell), FarCorner(min, ijk, cell))
    ensures var c := BoxOver(CellAt(min, ijk, cell), ONE, cell);
            c.far.x - c.near.x == cell.x && c.far.y - c.near.y == cell.y && c.far.z - c.near.z == cell.z
  {
    NextCell(min.x, ijk.x, cell.x);
    NextCell(min.y, ijk.y, cell.y);
    NextCell(min.z, ijk.z, cell.z);
    assert ONE.x == 1 && ONE.y == 1 && ONE.z == 1;
    var c := BoxOver(CellAt(min, ijk, cell), ONE, cell);
    assert c.near == NearCorner(min, ijk, cell);
    assert c.far.x == FarCorner(min, ijk, cell).x;
    assert c.far.y == FarCorner(min, ijk, cell).y;
    assert c.far.z == FarCorner(min, ijk, cell).z;
    assert c.far == FarCorner(min, ijk, cell);
  }

  lemma EpsOfSides(b: BBox, sides: Vec<real>)
    requires b.far.x - b.near.x == sides.x && b.far.y - b.near.y == sides.y && b.far.z - b.near.z == sides.z
    requires Positive(sides)
    ensures Eps(b) == LongestSide(sides) / 1000000.0 && Proper(b)
  {
  }

  lemma TouchingIsOverlap(min: Vec<real>, ijk: Vec<nat>, cell: Vec<real>, bb: BBox)
    requires Positive(cell) && Proper(bb)
    ensures Overlaps(BoxOver(CellAt(min, ijk, cell), ONE, cell), bb) <==> TouchesCell(bb, min, ijk, cell)
  {
    CellCorners(min, ijk, cell);
    EpsOfSides(BoxOver(CellAt(min, ijk, cell), ONE, cell), cell);
    OverlapsMeans(BoxOver(CellAt(min, ijk, cell), ONE, cell), bb);
  }

  /** The flat filter by a cell's box lists what touches the cell, as often as it was listed. */
  lemma CellListMeans(prims: seq<Prim>, min: Vec<real>, ijk: Vec<nat>, cell: Vec<real>, p: Prim)
    requires Positive(cell) && Proper(p.bv)
    ensures multiset(Kept(prims, BoxOver(CellAt(min, ijk, cell), ONE, cell)))[p]
            == if TouchesCell(p.bv, min, ijk, cell) then multiset(prims)[p] else 0
  {
    KeptMeans(prims, BoxOver(CellAt(min, ijk, cell), ONE, cell), p);
    TouchingIsOverlap(min, ijk, cell, p.bv);
  }

  /** init_bintree: the root over a grid of size cubed cells. */
  function InitBintree(min: Vec<real>, size: nat, pepa: seq<Prim>): Node {
    Node(-1, Vec(size, size, size), Vec(0, 0, 0), min, pepa, [])
  }

  /** Built and looked up: for a grid of at least two cells a side, every cell's list is the flat filter, and
      holds a primitive, as often as it was given, if and only if it touches the cell. */
  method BuildAndLookup(min: Vec<real>, size: nat, pepa: seq<Prim>, cell: Vec<real>, ijk: Vec<nat>)
        returns (list: seq<Prim>)
    requires Positive(cell) && size > 0 && Inside(ijk, Vec(size, size, size))
    ensures list == if size == 1 then pepa else Kept(pepa, BoxOver(CellAt(min, ijk, cell), ONE, cell))
    ensures size > 1 ==> forall p: Prim :: Proper(p.bv) ==>
              multiset(list)[p] == if TouchesCell(p.bv, min, ijk, cell) then multiset(pepa)[p] else 0
  {
    var tree := CreateBintree(InitBintree(min, size, pepa), cell);
    ghost var leaf;
    list, leaf := BintreeLookup(tree, ijk, cell);
    forall p: Prim | size > 1 && Proper(p.bv)
      ensures multiset(list)[p] == if TouchesCell(p.bv, min, ijk, cell) then multiset(pepa)[p] else 0
    {
      CellListMeans(pepa, min, ijk, cell, p);
    }
  }
}
