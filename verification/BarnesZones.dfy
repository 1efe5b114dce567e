/** Barnes-Hut cost zones: each processor walks the tree on its own, skipping what lies outside its
    share of the total cost, and collects its bodies. */
module BarnesZones {
  import opened PrefixZones
  import opened ChildOrders
  import opened Sequences
  import opened Arithmetic
  import BarnesOrders

  /** A body by its number, with the cost it had in the last step. */
  type Body = Weighed<nat>

  datatype Node =
    | Null
    | Leaf(cost: nat, bodies: seq<Body>)
    | Cell(cost: nat, sub: seq<Node>)

  function SumCosts(sub: seq<Node>): nat {
    if sub == [] then 0 else CostOf(sub[0]) + SumCosts(sub[1..])
  }

  function CostOf(q: Node): nat {
    if q.Null? then 0 else q.cost
  }

  /** Costs as hackcofm leaves them: a leaf's is the sum over its bodies, a cell's over its octants. */
  predicate CostsSummed(q: Node) {
    match q
    case Null => true
    case Leaf(cost, bodies) => cost == Total(bodies)
    case Cell(cost, sub) => |sub| == 8 && cost == SumCosts(sub) && forall s :: s in sub ==> CostsSummed(s)
  }

  // ------------------------------------------------------------------ the order of all bodies

  /** The bodies in the order of a walk that leaves nothing out. */
  function Traversal(o: Orders, q: Node, direction: nat): seq<Body>
    requires ValidOrders(o, 8) && direction < |o.child| && CostsSummed(q)
    decreases q, 9
  {
    match q
    case Null => []
    case Leaf(_, bodies) => bodies
    case Cell(_, _) => Flat(OctantLists(o, q, direction), 8)
  }

  /** The bodies of the octants of a cell, in the order of the visits. */
  function OctantLists(o: Orders, q: Node, direction: nat): (lists: seq<seq<Body>>)
    requires ValidOrders(o, 8) && direction < |o.child| && CostsSummed(q) && q.Cell?
    ensures |lists| == 8
    ensures forall i :: 0 <= i < 8 ==> lists[i] == Traversal(o, Octant(o, q, direction, i), Turn(o, direction, i))
    decreases q, 8
  {
    seq(8, i requires 0 <= i < 8 => Traversal(o, Octant(o, q, direction, i), Turn(o, direction, i)))
  }

  /** The octant visited in turn i. */
  function Octant(o: Orders, q: Node, direction: nat, i: nat): (r: Node)
    requires ValidOrders(o, 8) && direction < |o.child| && CostsSummed(q) && q.Cell? && i < 8
    ensures CostsSummed(r) && r in q.sub && r < q
  {
    q.sub[o.child[direction][i]]
  }

  /** The direction it is entered with. */
  function Turn(o: Orders, direction: nat, i: nat): (d: nat)
    requires ValidOrders(o, 8) && direction < |o.child| && i < 8
    ensures d < |o.child|
  {
    o.turn[direction][i]
  }

  /** How often body x is stored in the tree. */
  function Stored(q: Node, x: nat): nat {
    match q
    case Null => 0
    case Leaf(_, bodies) => Count(bodies, x)
    case Cell(_, sub) => StoredIn(sub, x)
  }

  function StoredIn(sub: seq<Node>, x: nat): nat {
    if sub == [] then 0 else Stored(sub[0], x) + StoredIn(sub[1..], x)
  }

  function StoredOf(x: nat): Node -> nat {
    q => Stored(q, x)
  }

  function StoredInOf(x: nat): seq<Node> -> nat {
    s => StoredIn(s, x)
  }

  lemma {:induction false} FlatSums(lists: seq<seq<Body>>, n: nat, x: nat, counts: seq<nat>, totals: seq<nat>)
    requires n <= |lists| == |counts| == |totals|
    requires forall j :: 0 <= j < |lists| ==> Count(lists[j], x) == counts[j] && Total(lists[j]) == totals[j]
    ensures Count(Flat(lists, n), x) == Sum(counts[..n]) && Total(Flat(lists, n)) == Sum(totals[..n])
  {
    if n > 0 {
      FlatSums(lists, n - 1, x, counts, totals);
      FlatGrows(lists, n - 1, x);
      SumLast(counts, n);
      SumLast(totals, n);
    }
  }

  /** The walk without omissions meets every body exactly as often as the tree stores it, and its cost is
      the root's, in every direction. */
  lemma {:induction false} TraversalIsTheTree(o: Orders, q: Node, direction: nat, x: nat)
    requires ValidOrders(o, 8) && direction < |o.child| && CostsSummed(q)
    ensures Count(Traversal(o, q, direction), x) == Stored(q, x)
    ensures Total(Traversal(o, q, direction)) == CostOf(q)
    decreases q, 9
  {
    if q.Cell? {
      var stored, costs, row := Mapped(StoredOf(x), q.sub), Mapped(CostOf, q.sub), o.child[direction];
      EachChildOnce(o, direction, stored);
      EachChildOnce(o, direction, costs);
      OctantsAreTheTree(o, q, direction, x, stored, costs);
      SumOf(StoredOf(x), StoredInOf(x), q.sub);
      SumOf(CostOf, SumCosts, q.sub);
    }
  }

  lemma {:induction false} OctantsAreTheTree(o: Orders, q: Node, direction: nat, x: nat, stored: seq<nat>,
                                             costs: seq<nat>)
    requires ValidOrders(o, 8) && direction < |o.child| && CostsSummed(q) && q.Cell?
    requires |stored| == 8 && forall j :: 0 <= j < 8 ==> stored[j] == Stored(q.sub[j], x)
    requires |costs| == 8 && forall j :: 0 <= j < 8 ==> costs[j] == CostOf(q.sub[j])
    ensures Count(Flat(OctantLists(o, q, direction), 8), x) == Sum(Pick(stored, o.child[direction]))
    ensures Total(Flat(OctantLists(o, q, direction), 8)) == Sum(Pick(costs, o.child[direction]))
    decreases q, 8
  {
    var lists, row := OctantLists(o, q, direction), o.child[direction];
    forall j: nat | j < 8
      ensures Count(lists[j], x) == Pick(stored, row)[j] && Total(lists[j]) == Pick(costs, row)[j]
    {
      TraversalIsTheTree(o, Octant(o, q, direction, j), Turn(o, direction, j), x);
    }
    FlatSums(lists, 8, x, Pick(stored, row), Pick(costs, row));
    assert Pick(stored, row)[..8] == Pick(stored, row) && Pick(costs, row)[..8] == Pick(costs, row);
  }

  // ------------------------------------------------------------------------ one processor's walk

  lemma BelowTheZone(o: Orders, q: Node, direction: nat, work: nat, lo: int, hi: int)
    requires ValidOrders(o, 8) && direction < |o.child| && CostsSummed(q) && work + CostOf(q) < lo
    ensures Zone(Traversal(o, q, direction), work, lo, hi) == []
  {
    TraversalIsTheTree(o, q, direction, 0);
    ZoneBelow(Traversal(o, q, direction), work, lo, hi);
  }

  /** The code's comparison of whole-numbered work with a bound less a tenth. */
  predicate Reaches(work: int, bound: int)
    ensures Reaches(work, bound) <==> work >= bound
  {
    work as real >= bound as real - 0.1
  }

  class Processor {
    var mybodytab: seq<Body>
    var workMin: int
    var workMax: int

    /** The pruned walk appends exactly the bodies of the full traversal whose prefix cost lies in the
        processor's bounds, in traversal order. The root is a cell, and a child is entered only below the
        upper bound. */
    method FindMyBodies(o: Orders, mycell: Node, work0: nat, direction: nat)
      requires ValidOrders(o, 8) && direction < |o.child| && CostsSummed(mycell) && !mycell.Null?
      requires mycell.Leaf? ==> work0 < workMax
      modifies this`mybodytab
      ensures mybodytab == old(mybodytab) + Zone(Traversal(o, mycell, direction), work0, workMin, workMax)
      decreases mycell, 3
    {
      if mycell.Leaf? {
        LeafBodies(mycell.bodies, work0);
      } else {
        CellBodies(o, mycell, work0, direction);
      }
    }

    method CellBodies(o: Orders, mycell: Node, work0: nat, direction: nat)
      requires ValidOrders(o, 8) && direction < |o.child| && CostsSummed(mycell) && mycell.Cell?
      modifies this`mybodytab
      ensures mybodytab == old(mybodytab) + Zone(Traversal(o, mycell, direction), work0, workMin, workMax)
      decreases mycell, 2
    {
      ghost var lists, before := OctantLists(o, mycell, direction), mybodytab;
      var work := work0;
      var i := 0;
      while i < 8 && !Reaches(work, workMax)
        invariant 0 <= i <= 8 && work == work0 + Total(Flat(lists, i))
        invariant mybodytab == before + Zone(Flat(lists, i), work0, workMin, workMax)
      {
        work := NextOctant(o, mycell, work0, work, direction, i, lists, before);
        i := i + 1;
      }
      if i < 8 {
        FlatStops(lists, i, 8, work0, workMin, workMax);
      }
    }

    /** From after i octants to after i + 1. */
    method NextOctant(o: Orders, mycell: Node, ghost start: nat, work0: nat, direction: nat, i: nat,
                      ghost lists: seq<seq<Body>>, ghost before: seq<Body>)
        returns (work: nat)
      requires ValidOrders(o, 8) && direction < |o.child| && CostsSummed(mycell) && mycell.Cell? && i < 8
      requires work0 < workMax && lists == OctantLists(o, mycell, direction) && work0 == start + Total(Flat(lists, i))
      requires mybodytab == before + Zone(Flat(lists, i), start, workMin, workMax)
      modifies this`mybodytab
      ensures work == start + Total(Flat(lists, i + 1))
      ensures mybodytab == before + Zone(Flat(lists, i + 1), start, workMin, workMax)
      decreases mycell, 1, 1
    {
      FlatStep(lists, i, start, work0, workMin, workMax);
      FlatOnto(before, lists, i, start, work0, workMin, workMax);
      work := VisitOctant(o, mycell, work0, direction, i, lists[i]);
    }

    /** One turn: the octant is entered unless it is missing or wholly below the lower bound. */
    method VisitOctant(o: Orders, mycell: Node, work0: nat, direction: nat, i: nat, ghost list: seq<Body>)
          returns (work: nat)
      requires ValidOrders(o, 8) && direction < |o.child| && CostsSummed(mycell) && mycell.Cell? && i < 8
      requires work0 < workMax && list == Traversal(o, Octant(o, mycell, direction, i), Turn(o, direction, i))
      modifies this`mybodytab
      ensures work == work0 + Total(list) && mybodytab == old(mybodytab) + Zone(list, work0, workMin, workMax)
      decreases mycell, 1, 0
    {
      var qptr, turn := Octant(o, mycell, direction, i), Turn(o, direction, i);
      work := work0;
      TraversalIsTheTree(o, qptr, turn, 0);
      if qptr != Null {
        if Reaches(work + CostOf(qptr), workMin) {
          FindMyBodies(o, qptr, work, turn);
        } else {
          BelowTheZone(o, qptr, turn, work, workMin, workMax);
        }
        work := work + CostOf(qptr);
      }
    }

    /** The leaf's own loop, which stops at the upper bound. */
    method LeafBodies(bodies: seq<Body>, work0: nat)
      requires work0 < workMax
      modifies this`mybodytab
      ensures mybodytab == old(mybodytab) + Zone(bodies, work0, workMin, workMax)
    {
      var work := work0;
      var i := 0;
      while i < |bodies|
        invariant 0 <= i <= |bodies|
        invariant work == work0 + Total(bodies[..i]) && work < workMax
        invariant mybodytab == old(mybodytab) + Zone(bodies[..i], work0, workMin, workMax)
      {
        ghost var next := [bodies[i]];
        assert bodies[..i + 1] == bodies[..i] + next;
        TotalAppend(bodies[..i], next);
        ZoneAppend(bodies[..i], next, work0, workMin, workMax);
        if Reaches(work, workMin) {
          mybodytab := mybodytab + [bodies[i]];
        }
        work := work + bodies[i].cost;
        if Reaches(work, workMax) {
          assert bodies == bodies[..i + 1] + bodies[i + 1..];
          ZoneAppend(bodies[..i + 1], bodies[i + 1..], work0, workMin, workMax);
          ZoneAbove(bodies[i + 1..], work, workMin, workMax);
          return;
        }
        i := i + 1;
      }
      assert bodies[..|bodies|] == bodies;
    }

    method SetBounds(cost: nat, id: nat, nproc: nat)
      requires id < nproc
      modifies this`workMin, this`workMax
      ensures workMin == Bound(cost, nproc, id) && workMax == Bound(cost, nproc, id + 1)
    {
      var cavg := cost as real / nproc as real;
      workMin := (cavg * id as real).Floor;
      workMax := (cavg * (id + 1) as real + (if id == nproc - 1 then 1.0 else 0.0)).Floor;
    }

    method CollectBodies(o: Orders, root: Node)
      requires ValidOrders(o, 8) && CostsSummed(root) && root.Cell?
      modifies this`mybodytab
      ensures mybodytab == Zone(Traversal(o, root, 0), 0, workMin, workMax)
    {
      mybodytab := [];
      FindMyBodies(o, root, 0, 0);
    }

    /** One processor's share of the step: its bounds, an empty table, and the walk from BRC_FUC. */
    method PartitionStep(root: Node, id: nat, nproc: nat)
      requires id < nproc && CostsSummed(root) && root.Cell?
      modifies this
      ensures workMin == Bounds(root.cost, nproc)[id] && workMax == Bounds(root.cost, nproc)[id + 1]
      ensures mybodytab == Zone(BodyOrder(root), 0, Bounds(root.cost, nproc)[id], Bounds(root.cost, nproc)[id + 1])
    {
      SetBounds(root.cost, id, nproc);
      BarnesOrders.OrdersAreValid();
      CollectBodies(BarnesOrders.Shipped(), root);
    }
  }

  // -------------------------------------------------------------------------- all processors

  /** The common order of all bodies, under the shipped tables. */
  function BodyOrder(root: Node): seq<Body>
    requires CostsSummed(root)
  {
    BarnesOrders.OrdersAreValid();
    Traversal(BarnesOrders.Shipped(), root, 0)
  }

  /** The bounds between the processors' zones; the last one is past the total. */
  function Bound(cost: nat, nproc: nat, p: nat): int
    requires 0 < nproc
  {
    (cost as real / nproc as real * p as real + (if p == nproc then 1.0 else 0.0)).Floor
  }

  function Bounds(cost: nat, nproc: nat): seq<int>
    requires 0 < nproc
  {
    BoundsBy((p: nat) => Bound(cost, nproc, p), nproc)
  }

  lemma ExactShare(cavg: real, cost: nat, nproc: nat, p: nat)
    requires 0 < nproc && cavg * nproc as real == cost as real
    ensures cavg * p as real * nproc as real == (cost * p) as real
  {
    assert cavg * p as real * nproc as real == cavg * nproc as real * p as real;
  }

  lemma FloorOfShare(share: real, nproc: nat, v: nat)
    requires 0 < nproc && share * nproc as real == v as real
    ensures share.Floor * nproc <= v < (share.Floor + 1) * nproc
  {
    var f := share.Floor;
    assert f as real * nproc as real <= share * nproc as real;
    assert share * nproc as real < (f + 1) as real * nproc as real;
    assert (f * nproc) as real == f as real * nproc as real;
    assert ((f + 1) * nproc) as real == (f + 1) as real * nproc as real;
  }

  /** The bounds share the cost out evenly: the p-th is p times the average, rounded down. */
  lemma BoundIsFloor(cost: nat, nproc: nat, p: nat)
    requires p < nproc
    ensures Bound(cost, nproc, p) * nproc <= cost * p < (Bound(cost, nproc, p) + 1) * nproc
  {
    var cavg := cost as real / nproc as real;
    ExactShare(cavg, cost, nproc, p);
    FloorOfShare(cavg * p as real, nproc, cost * p);
  }

  lemma BoundsAscend(cost: nat, nproc: nat)
    requires 0 < nproc
    ensures Ascending(Bounds(cost, nproc)) && Bounds(cost, nproc)[0] == 0 && Bounds(cost, nproc)[nproc] == cost + 1
  {
    var cavg := cost as real / nproc as real;
    assert cavg >= 0.0 && cavg * nproc as real == cost as real;
    forall p | 0 <= p < nproc ensures Bound(cost, nproc, p) <= Bound(cost, nproc, p + 1) {
      assert cavg * p as real <= cavg * (p + 1) as real;
    }
  }

  /** One zone's width, or what is left for the last one, is at most the average rounded up. */
  lemma WidthIsAverage(cost: nat, nproc: nat, p: nat, lo: int, hi: int)
    requires p < nproc && lo * nproc <= cost * p < (lo + 1) * nproc
    requires if p == nproc - 1 then hi == cost else hi * nproc <= cost * (p + 1)
    ensures (hi - lo) * nproc < cost + nproc
  {
    assert cost * (p + 1) == cost * p + cost;
    assert (lo + 1) * nproc == lo * nproc + nproc;
    assert (hi - lo) * nproc == hi * nproc - lo * nproc;
  }

  lemma RoundedUp(width: int, cost: nat, nproc: nat)
    requires 0 < nproc && width * nproc < cost + nproc
    ensures width <= (cost + nproc - 1) / nproc
  {
    var q := (cost + nproc - 1) / nproc;
    assert cost + nproc - 1 < (q + 1) * nproc;
    if width > q {
      MulMonotone(q + 1, width, nproc);
      assert false;
    }
  }

  /** What a processor's bounds are, in whole numbers. */
  lemma BoundsAreEven(cost: nat, nproc: nat, p: nat)
    requires p < nproc
    ensures var lo, hi := Bound(cost, nproc, p), Bound(cost, nproc, p + 1);
            && 0 <= lo && lo * nproc <= cost * p < (lo + 1) * nproc
            && (if p == nproc - 1 then hi == cost + 1 else hi * nproc <= cost * (p + 1) < (hi + 1) * nproc)
  {
    BoundsAscend(cost, nproc);
    BoundIsFloor(cost, nproc, p);
    if p == nproc - 1 {
      assert Bounds(cost, nproc)[nproc] == Bound(cost, nproc, nproc);
    } else {
      BoundIsFloor(cost, nproc, p + 1);
    }
  }

  lemma ShareOfOrder(order: seq<Body>, cost: nat, nproc: nat, p: nat, m: nat)
    requires p < nproc && Total(order) == cost && AllAtMost(order, m)
    ensures Total(Zone(order, 0, Bound(cost, nproc, p), Bound(cost, nproc, p + 1))) <= (cost + nproc - 1) / nproc + m
  {
    var lo, hi := Bound(cost, nproc, p), Bound(cost, nproc, p + 1);
    BoundsAreEven(cost, nproc, p);
    var end := if p == nproc - 1 then cost else hi;
    WidthIsAverage(cost, nproc, p, lo, end);
    RoundedUp(end - lo, cost, nproc);
    ZoneWithin(order, lo, hi, (cost + nproc - 1) / nproc, m);
  }

  /** No processor gets more than the average, rounded up, and one body's cost. */
  lemma ShareIsBounded(root: Node, nproc: nat, p: nat, m: nat)
    requires p < nproc && CostsSummed(root) && root.Cell? && AllAtMost(BodyOrder(root), m)
    ensures Total(Zone(BodyOrder(root), 0, Bounds(root.cost, nproc)[p], Bounds(root.cost, nproc)[p + 1]))
            <= (root.cost + nproc - 1) / nproc + m
  {
    BarnesOrders.OrdersAreValid();
    TraversalIsTheTree(BarnesOrders.Shipped(), root, 0, 0);
    ShareOfOrder(BodyOrder(root), root.cost, nproc, p, m);
  }

  /** Every processor's list in turn gives back the one common order of all bodies: the zones are
      contiguous runs of it and share it out without loss or overlap, whatever the costs. */
  lemma ZonesPartitionTheBodies(root: Node, nproc: nat, x: nat)
    requires 0 < nproc && CostsSummed(root) && root.Cell?
    ensures Joined(BodyOrder(root), Bounds(root.cost, nproc), nproc) == BodyOrder(root)
    ensures Count(Joined(BodyOrder(root), Bounds(root.cost, nproc), nproc), x) == Stored(root, x)
  {
    BarnesOrders.OrdersAreValid();
    BoundsAscend(root.cost, nproc);
    TraversalIsTheTree(BarnesOrders.Shipped(), root, 0, x);
    ZonesJoin(BodyOrder(root), Bounds(root.cost, nproc), nproc);
    ZoneOfAll(BodyOrder(root), 0, 0, root.cost + 1);
  }
}
