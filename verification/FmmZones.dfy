/** FMM cost zones: each processor walks the box tree on its own and puts the boxes of its share, parents
    as well as childless ones, into its partition. */
module FmmZones {
  import opened PrefixZones
  import opened ChildOrders
  import opened Sequences
  import opened Arithmetic
  import opened Partitions

  datatype Box =
    | NoBox
    | Childless(own: Entry)
    | Parent(own: Entry, subtreeCost: nat, children: seq<Box>)

  function CostOf(b: Box): nat {
    match b
    case NoBox => 0
    case Childless(own) => own.cost
    case Parent(_, subtreeCost, _) => subtreeCost
  }

  function SumCosts(children: seq<Box>): nat {
    if children == [] then 0 else CostOf(children[0]) + SumCosts(children[1..])
  }

  /** Costs as ComputeCostOfBox and ComputeSubTreeCosts leave them: at least 1, and summed upwards. */
  predicate CostsSummed(b: Box) {
    match b
    case NoBox => true
    case Childless(own) => own.cost >= 1 && !own.item.parent
    case Parent(own, subtreeCost, children) =>
      && own.cost >= 1 && own.item.parent && |children| == 4 && subtreeCost == own.cost + SumCosts(children)
      && forall c :: c in children ==> CostsSummed(c)
  }

  /** The shipped tables; directions are RIGHT 0, LEFT 1, UP 2, DOWN 3. */
  function Shipped(): (o: Orders)
    ensures |o.child| == 4 && ValidOrders(o, 4)
  {
    Orders([[0, 1, 2, 3], [2, 3, 0, 1], [0, 3, 2, 1], [2, 1, 0, 3]],
           [[2, 0, 0, 3], [3, 1, 1, 2], [0, 2, 2, 1], [1, 3, 3, 0]])
  }

  // ------------------------------------------------------------------- the order of all boxes

  /** The boxes in the order of a walk that leaves nothing out: a parent takes its turn between its third
      and its fourth child. */
  function Traversal(o: Orders, b: Box, direction: nat): seq<Entry>
    requires ValidOrders(o, 4) && direction < |o.child| && CostsSummed(b)
    decreases b, 9
  {
    match b
    case NoBox => []
    case Childless(own) => [own]
    case Parent(_, _, _) => Flat(TurnLists(o, b, direction), 4)
  }

  function OwnTurn(b: Box, i: nat): seq<Entry>
    requires b.Parent?
  {
    if i == 2 then [b.own] else []
  }

  /** What the turns of a parent's loop come to, one by one. */
  function TurnLists(o: Orders, b: Box, direction: nat): (lists: seq<seq<Entry>>)
    requires ValidOrders(o, 4) && direction < |o.child| && CostsSummed(b) && b.Parent?
    ensures |lists| == 4 && forall i :: 0 <= i < 4 ==> lists[i] == TurnItems(o, b, direction, i)
    decreases b, 8
  {
    seq(4, i requires 0 <= i < 4 => TurnItems(o, b, direction, i))
  }

  /** One turn: a child's boxes, and after the third child the parent itself. */
  function TurnItems(o: Orders, b: Box, direction: nat, i: nat): seq<Entry>
    requires ValidOrders(o, 4) && direction < |o.child| && CostsSummed(b) && b.Parent? && i < 4
    decreases b, i
  {
    Traversal(o, Child(o, b, direction, i), Turn(o, direction, i)) + OwnTurn(b, i)
  }

  function Child(o: Orders, b: Box, direction: nat, i: nat): (r: Box)
    requires ValidOrders(o, 4) && direction < |o.child| && CostsSummed(b) && b.Parent? && i < 4
    ensures CostsSummed(r) && r in b.children && r < b
  {
    b.children[o.child[direction][i]]
  }

  function Turn(o: Orders, direction: nat, i: nat): (d: nat)
    requires ValidOrders(o, 4) && direction < |o.child| && i < 4
    ensures d < |o.child|
  {
    o.turn[direction][i]
  }

  /** How often box x occurs in the tree. */
  function Stored(b: Box, x: Label): nat {
    match b
    case NoBox => 0
    case Childless(own) => if own.item == x then 1 else 0
    case Parent(own, _, children) => (if own.item == x then 1 else 0) + StoredIn(children, x)
  }

  function StoredIn(children: seq<Box>, x: Label): nat {
    if children == [] then 0 else Stored(children[0], x) + StoredIn(children[1..], x)
  }

  function StoredOf(x: Label): Box -> nat {
    b => Stored(b, x)
  }

  function StoredInOf(x: Label): seq<Box> -> nat {
    s => StoredIn(s, x)
  }

  /** The walk without omissions meets every box exactly as often as the tree holds it, its cost is the
      subtree cost, and every cost in it is positive. */
  lemma {:induction false} TraversalIsTheTree(o: Orders, b: Box, direction: nat, x: Label)
    requires ValidOrders(o, 4) && direction < |o.child| && CostsSummed(b)
    ensures Count(Traversal(o, b, direction), x) == Stored(b, x)
    ensures Total(Traversal(o, b, direction)) == CostOf(b)
    ensures AllPositive(Traversal(o, b, direction))
    decreases b, 9
  {
    if b.Parent? {
      var stored, costs, row := Mapped(StoredOf(x), b.children), Mapped(CostOf, b.children), o.child[direction];
      EachChildOnce(o, direction, stored);
      EachChildOnce(o, direction, costs);
      TurnsAreTheTree(o, b, direction, 4, x, stored, costs);
      assert Pick(stored, row)[..4] == Pick(stored, row) && Pick(costs, row)[..4] == Pick(costs, row);
      SumOf(StoredOf(x), StoredInOf(x), b.children);
      SumOf(CostOf, SumCosts, b.children);
    }
  }

  lemma {:induction false} TurnsAreTheTree(o: Orders, b: Box, direction: nat, i: nat, x: Label,
                                           stored: seq<nat>, costs: seq<nat>)
    requires ValidOrders(o, 4) && direction < |o.child| && CostsSummed(b) && b.Parent? && i <= 4
    requires |stored| == 4 && forall j :: 0 <= j < 4 ==> stored[j] == Stored(b.children[j], x)
    requires |costs| == 4 && forall j :: 0 <= j < 4 ==> costs[j] == CostOf(b.children[j])
    ensures Count(Flat(TurnLists(o, b, direction), i), x)
            == Sum(Pick(stored, o.child[direction])[..i])
              + (if i > 2 && b.own.item == x then 1 else 0)
    ensures Total(Flat(TurnLists(o, b, direction), i))
            == Sum(Pick(costs, o.child[direction])[..i]) + (if i > 2 then b.own.cost else 0)
    ensures AllPositive(Flat(TurnLists(o, b, direction), i))
    decreases b, i
  {
    if i > 0 {
      var lists := TurnLists(o, b, direction);
      TurnsAreTheTree(o, b, direction, i - 1, x, stored, costs);
      TurnIsItsChild(o, b, direction, i - 1, x);
      FlatGrows(lists, i - 1, x);
      SumLast(Pick(stored, o.child[direction]), i);
      SumLast(Pick(costs, o.child[direction]), i);
    }
  }

  lemma {:induction false} TurnIsItsChild(o: Orders, b: Box, direction: nat, i: nat, x: Label)
    requires ValidOrders(o, 4) && direction < |o.child| && CostsSummed(b) && b.Parent? && i < 4
    ensures Count(TurnItems(o, b, direction, i), x)
            == Stored(Child(o, b, direction, i), x) + (if i == 2 && b.own.item == x then 1 else 0)
    ensures Total(TurnItems(o, b, direction, i))
            == CostOf(Child(o, b, direction, i)) + (if i == 2 then b.own.cost else 0)
    ensures AllPositive(TurnItems(o, b, direction, i))
    decreases b, i
  {
    var next, turn := Child(o, b, direction, i), Turn(o, direction, i);
    TraversalIsTheTree(o, next, turn, x);
    CountAppend(Traversal(o, next, turn), OwnTurn(b, i), x);
    TotalAppend(Traversal(o, next, turn), OwnTurn(b, i));
  }

  // ------------------------------------------------------------------------ one processor's walk

  function TakenFromChild(o: Orders, b: Box, direction: nat, work: nat, lo: int, hi: int, i: nat): seq<Entry>
    requires ValidOrders(o, 4) && direction < |o.child| && CostsSummed(b) && b.Parent? && i < 4
  {
    Zone(Traversal(o, Child(o, b, direction, i), Turn(o, direction, i)), work, lo, hi)
  }

  /** A turn takes what its child does and then, in the third turn and within the bounds, the parent. */
  lemma TakenInTurn(o: Orders, b: Box, direction: nat, work: nat, lo: int, hi: int, i: nat)
    requires ValidOrders(o, 4) && direction < |o.child| && CostsSummed(b) && b.Parent? && i < 4
    ensures var work' := work + CostOf(Child(o, b, direction, i));
            && Total(TurnItems(o, b, direction, i))
               == CostOf(Child(o, b, direction, i)) + (if i == 2 then b.own.cost else 0)
            && TakenFromChild(o, b, direction, work, lo, hi, i) + (if i == 2 && lo <= work' < hi then [b.own] else [])
               == Zone(TurnItems(o, b, direction, i), work, lo, hi)
  {
    var cb, own := Child(o, b, direction, i), OwnTurn(b, i);
    var items := Traversal(o, cb, Turn(o, direction, i));
    TraversalIsTheTree(o, cb, Turn(o, direction, i), b.own.item);
    TotalAppend(items, own);
    ZoneAppend(items, own, work, lo, hi);
  }

  /** Every box lies on a level the partition has a list for. */
  predicate LevelsBelow(b: Box, levels: nat) {
    match b
    case NoBox => true
    case Childless(own) => own.item.level < levels
    case Parent(own, _, children) => own.item.level < levels && forall c :: c in children ==> LevelsBelow(c, levels)
  }

  /** What the walk of one processor puts into its partition. A childless box is put there without a look
      at the upper bound. */
  function Taken(o: Orders, b: Box, work: nat, direction: nat, lo: int, hi: int): seq<Entry>
    requires ValidOrders(o, 4) && direction < |o.child| && CostsSummed(b)
  {
    if b.Childless? then (if work >= lo then [b.own] else []) else Zone(Traversal(o, b, direction), work, lo, hi)
  }

  /** Below the upper bound a child's own share is its zone; it is empty for a missing child and for one
      wholly below the lower bound. */
  lemma ChildTaken(o: Orders, b: Box, work: nat, direction: nat, lo: int, hi: int)
    requires ValidOrders(o, 4) && direction < |o.child| && CostsSummed(b) && work < hi
    ensures Taken(o, b, work, direction, lo, hi) == Zone(Traversal(o, b, direction), work, lo, hi)
    ensures b.NoBox? || work + CostOf(b) < lo ==> Zone(Traversal(o, b, direction), work, lo, hi) == []
  {
    if work + CostOf(b) < lo {
      TraversalIsTheTree(o, b, direction, Label(0, 0, false));
      ZoneBelow(Traversal(o, b, direction), work, lo, hi);
    }
  }

  method CostZonesHelper(p: Partition, o: Orders, b: Box, work0: nat, direction: nat, minWork: int, maxWork: int)
    requires ValidOrders(o, 4) && direction < |o.child| && CostsSummed(b) && !b.NoBox?
    requires p.Valid() && LevelsBelow(b, |p.parentPartition|)
    modifies p
    ensures p.Valid() && |p.parentPartition| == old(|p.parentPartition|)
    ensures p.inserted == old(p.inserted) + Taken(o, b, work0, direction, minWork, maxWork)
    decreases b, 3
  {
    if b.Childless? {
      if work0 >= minWork {
        p.InsertBox(b.own);
      }
    } else {
      ParentTurns(p, o, b, work0, direction, minWork, maxWork);
    }
  }

  method ParentTurns(p: Partition, o: Orders, b: Box, work0: nat, direction: nat, minWork: int, maxWork: int)
    requires ValidOrders(o, 4) && direction < |o.child| && CostsSummed(b) && b.Parent?
    requires p.Valid() && LevelsBelow(b, |p.parentPartition|)
    modifies p
    ensures p.Valid() && |p.parentPartition| == old(|p.parentPartition|)
    ensures p.inserted == old(p.inserted) + Zone(Flat(TurnLists(o, b, direction), 4), work0, minWork, maxWork)
    decreases b, 2
  {
    ghost var lists, before := TurnLists(o, b, direction), p.inserted;
    var work := work0;
    var i := 0;
    while i < 4 && work < maxWork
      invariant 0 <= i <= 4 && work == work0 + Total(Flat(lists, i))
      invariant p.Valid() && |p.parentPartition| == old(|p.parentPartition|)
      invariant p.inserted == before + Zone(Flat(lists, i), work0, minWork, maxWork)
    {
      work := NextTurn(p, o, b, work0, work, direction, i, minWork, maxWork, lists, before);
      i := i + 1;
    }
    if i < 4 {
      FlatStops(lists, i, 4, work0, minWork, maxWork);
    }
  }

  /** From after i turns to after i + 1. */
  method NextTurn(p: Partition, o: Orders, b: Box, ghost start: nat, work0: nat, direction: nat, i: nat,
                  minWork: int, maxWork: int, ghost lists: seq<seq<Entry>>, ghost before: seq<Entry>)
      returns (work: nat)
    requires ValidOrders(o, 4) && direction < |o.child| && CostsSummed(b) && b.Parent? && i < 4
    requires p.Valid() && LevelsBelow(b, |p.parentPartition|) && work0 < maxWork
    requires lists == TurnLists(o, b, direction) && work0 == start + Total(Flat(lists, i))
    requires p.inserted == before + Zone(Flat(lists, i), start, minWork, maxWork)
    modifies p
    ensures p.Valid() && |p.parentPartition| == old(|p.parentPartition|)
    ensures work == start + Total(Flat(lists, i + 1))
    ensures p.inserted == before + Zone(Flat(lists, i + 1), start, minWork, maxWork)
    decreases b, 1, 1
  {
    FlatStep(lists, i, start, work0, minWork, maxWork);
    FlatOnto(before, lists, i, start, work0, minWork, maxWork);
    work := OneTurn(p, o, b, work0, direction, i, minWork, maxWork);
  }

  /** One turn of the loop: a child, and after the third the parent itself. */
  method OneTurn(p: Partition, o: Orders, b: Box, work0: nat, direction: nat, i: nat, minWork: int, maxWork: int)
      returns (work: nat)
    requires ValidOrders(o, 4) && direction < |o.child| && CostsSummed(b) && b.Parent? && i < 4
    requires p.Valid() && LevelsBelow(b, |p.parentPartition|) && work0 < maxWork
    modifies p
    ensures p.Valid() && |p.parentPartition| == old(|p.parentPartition|)
    ensures work == work0 + Total(TurnItems(o, b, direction, i))
    ensures p.inserted == old(p.inserted) + Zone(TurnItems(o, b, direction, i), work0, minWork, maxWork)
    decreases b, 1, 0
  {
    work := VisitChild(p, o, b, work0, direction, i, minWork, maxWork);
    TakenInTurn(o, b, direction, work0, minWork, maxWork, i);
    if i == 2 {
      if minWork <= work < maxWork {
        p.InsertBox(b.own);
      }
      work := work + b.own.cost;
    }
  }

  /** A child is entered unless it is missing or wholly below the lower bound. */
  method VisitChild(p: Partition, o: Orders, b: Box, work0: nat, direction: nat, i: nat, minWork: int, maxWork: int)
      returns (work: nat)
    requires ValidOrders(o, 4) && direction < |o.child| && CostsSummed(b) && b.Parent? && i < 4
    requires p.Valid() && LevelsBelow(b, |p.parentPartition|) && work0 < maxWork
    modifies p
    ensures p.Valid() && |p.parentPartition| == old(|p.parentPartition|)
    ensures work == work0 + CostOf(Child(o, b, direction, i))
    ensures p.inserted == old(p.inserted) + TakenFromChild(o, b, direction, work0, minWork, maxWork, i)
    decreases b, 0
  {
    var cb := Child(o, b, direction, i);
    ChildTaken(o, cb, work0, Turn(o, direction, i), minWork, maxWork);
    work := work0;
    if !cb.NoBox? {
      if work + CostOf(cb) >= minWork {
        CostZonesHelper(p, o, cb, work, Turn(o, direction, i), minWork, maxWork);
      }
      work := work + CostOf(cb);
    }
  }

  /** One processor's share: its bounds from the total work, and the walk from the grid in direction
      RIGHT. */
  method CostZones(grid: Box, id: nat, nproc: nat, levels: nat) returns (p: Partition)
    requires id < nproc && CostsSummed(grid) && !grid.NoBox? && LevelsBelow(grid, levels)
    ensures fresh(p) && p.Valid() && p.inserted == Share(grid, id, nproc)
  {
    var minWork, maxWork := WorkBounds(CostOf(grid), id, nproc);
    p := new Partition(levels);
    CostZonesHelper(p, Shipped(), grid, 0, 0, minWork, maxWork);
  }

  method WorkBounds(totalWork: nat, id: nat, nproc: nat) returns (minWork: int, maxWork: int)
    requires id < nproc
    ensures minWork == Bound(totalWork, nproc, id) && maxWork == Bound(totalWork, nproc, id + 1)
  {
    minWork := totalWork / nproc * id;
    maxWork := if id == nproc - 1 then totalWork else minWork + totalWork / nproc;
    NextBound(totalWork, nproc, id);
  }

  // -------------------------------------------------------------------------- all processors

  /** The bounds between the processors' zones. */
  function Bound(work: nat, nproc: nat, p: nat): int
    requires 0 < nproc
  {
    if p == nproc then work else work / nproc * p
  }

  function Bounds(work: nat, nproc: nat): seq<int>
    requires 0 < nproc
  {
    BoundsBy((p: nat) => Bound(work, nproc, p), nproc)
  }

  lemma NextBound(work: nat, nproc: nat, p: nat)
    requires p < nproc
    ensures Bound(work, nproc, p) == work / nproc * p && Bound(work, nproc, p) <= Bound(work, nproc, p + 1)
    ensures p < nproc - 1 ==> Bound(work, nproc, p + 1) == work / nproc * p + work / nproc
  {
    assert work / nproc * (p + 1) == work / nproc * p + work / nproc;
    MulMonotone(p, nproc, work / nproc);
  }

  /** What processor p's partition holds afterwards. */
  function Share(grid: Box, p: nat, nproc: nat): seq<Entry>
    requires p < nproc && CostsSummed(grid)
  {
    Taken(Shipped(), grid, 0, 0, Bound(CostOf(grid), nproc, p), Bound(CostOf(grid), nproc, p + 1))
  }

  /** The partitions of the first k processors, one after the other. */
  function Shares(grid: Box, k: nat, nproc: nat): seq<Entry>
    requires k <= nproc && CostsSummed(grid)
  {
    if k == 0 then [] else Shares(grid, k - 1, nproc) + Share(grid, k - 1, nproc)
  }

  /** The common order of all boxes, under the shipped tables. */
  function BoxOrder(grid: Box): seq<Entry>
    requires CostsSummed(grid)
  {
    Traversal(Shipped(), grid, 0)
  }

  lemma BoundsAscend(work: nat, nproc: nat)
    requires 0 < nproc
    ensures Ascending(Bounds(work, nproc)) && Bounds(work, nproc)[0] == 0 && Bounds(work, nproc)[nproc] == work
  {
    forall p | 0 <= p < nproc ensures Bounds(work, nproc)[p] <= Bounds(work, nproc)[p + 1] {
      NextBound(work, nproc, p);
    }
  }

  /** The bounds share the work out evenly; what does not divide goes to the last. */
  lemma BoundsAreEven(work: nat, nproc: nat, p: nat)
    requires p < nproc
    ensures Bound(work, nproc, p + 1) - Bound(work, nproc, p)
            == work / nproc + (if p == nproc - 1 then work % nproc else 0)
    ensures 0 <= Bound(work, nproc, p)
  {
    NextBound(work, nproc, p);
    MulMonotone(0, p, work / nproc);
    if p == nproc - 1 {
      assert work / nproc * nproc == work / nproc * p + work / nproc;
      assert work == work / nproc * nproc + work % nproc;
    }
  }

  lemma ShareOfOrder(order: seq<Entry>, work: nat, nproc: nat, p: nat, m: nat)
    requires p < nproc && AllAtMost(order, m)
    ensures Total(Zone(order, 0, Bound(work, nproc, p), Bound(work, nproc, p + 1)))
            <= work / nproc + (if p == nproc - 1 then work % nproc else 0) + m
  {
    BoundsAreEven(work, nproc, p);
    var width := work / nproc + (if p == nproc - 1 then work % nproc else 0);
    ZoneWithin(order, Bound(work, nproc, p), Bound(work, nproc, p + 1), width, m);
  }

  /** No processor gets more than its part of the work and one box's cost. */
  lemma ShareIsBounded(grid: Box, nproc: nat, p: nat, m: nat)
    requires p < nproc && CostsSummed(grid) && grid.Parent? && AllAtMost(BoxOrder(grid), m)
    ensures Total(Share(grid, p, nproc))
            <= CostOf(grid) / nproc + (if p == nproc - 1 then CostOf(grid) % nproc else 0) + m
  {
    ShareOfOrder(BoxOrder(grid), CostOf(grid), nproc, p, m);
  }

  /** What the turn of one child comes to. */
  function ChildItems(o: Orders, b: Box, direction: nat, i: nat): seq<Entry>
    requires ValidOrders(o, 4) && direction < |o.child| && CostsSummed(b) && b.Parent? && i < 4
  {
    Traversal(o, Child(o, b, direction, i), Turn(o, direction, i))
  }

  /** A parent takes its turn between its third and its fourth child. */
  lemma ParentsTurn(o: Orders, b: Box, direction: nat)
    requires ValidOrders(o, 4) && direction < |o.child| && CostsSummed(b) && b.Parent?
    ensures Traversal(o, b, direction)
            == ChildItems(o, b, direction, 0) + ChildItems(o, b, direction, 1) + ChildItems(o, b, direction, 2)
               + [b.own] + ChildItems(o, b, direction, 3)
  {
    var lists := TurnLists(o, b, direction);
    FourLists(lists);
    assert lists[0] == ChildItems(o, b, direction, 0) && lists[1] == ChildItems(o, b, direction, 1);
    assert lists[2] == ChildItems(o, b, direction, 2) + [b.own] && lists[3] == ChildItems(o, b, direction, 3);
    Sequences.Associative(lists[0] + lists[1], ChildItems(o, b, direction, 2), [b.own]);
  }

  /** Under a parent root the partitions, one after the other, are the one common order of all boxes: each
      box, parent or childless, is in exactly one of them, and they are contiguous runs. */
  lemma {:induction false} ParentRootShares(grid: Box, k: nat, nproc: nat)
    requires k <= nproc && 0 < nproc && CostsSummed(grid) && !grid.Childless?
    ensures Shares(grid, k, nproc) == Joined(BoxOrder(grid), Bounds(CostOf(grid), nproc), k)
  {
    if k > 0 {
      ParentRootShares(grid, k - 1, nproc);
    }
  }

  /** A childless root is taken by every processor whose zone starts at 0. */
  lemma ChildlessShare(grid: Box, p: nat, nproc: nat)
    requires p < nproc && CostsSummed(grid) && grid.Childless?
    ensures Share(grid, p, nproc) == if CostOf(grid) < nproc || p == 0 then [grid.own] else []
  {
    var step := CostOf(grid) / nproc;
    if CostOf(grid) < nproc {
      assert step == 0;
    } else if p > 0 {
      assert step >= 1;
      MulMonotone(1, step, p);
    }
    NextBound(CostOf(grid), nproc, p);
  }

  lemma {:induction false} ChildlessRootShares(grid: Box, k: nat, nproc: nat)
    requires 0 < k <= nproc && CostsSummed(grid) && grid.Childless?
    ensures CostOf(grid) < nproc ==> Count(Shares(grid, k, nproc), grid.own.item) == k
    ensures CostOf(grid) >= nproc ==> Shares(grid, k, nproc) == [grid.own]
  {
    ChildlessShare(grid, k - 1, nproc);
    if k > 1 {
      ChildlessRootShares(grid, k - 1, nproc);
      CountAppend(Shares(grid, k - 1, nproc), Share(grid, k - 1, nproc), grid.own.item);
    } else {
      assert Shares(grid, 1, nproc) == Share(grid, 0, nproc);
    }
  }

  lemma ParentRootIsShared(grid: Box, nproc: nat)
    requires 0 < nproc && CostsSummed(grid) && grid.Parent?
    ensures Shares(grid, nproc, nproc) == BoxOrder(grid)
  {
    var order := BoxOrder(grid);
    TraversalIsTheTree(Shipped(), grid, 0, grid.own.item);
    BoundsAscend(CostOf(grid), nproc);
    ParentRootShares(grid, nproc, nproc);
    ZonesJoin(order, Bounds(CostOf(grid), nproc), nproc);
    ZoneOfAll(order, 0, 0, CostOf(grid));
  }

  /** The partitions hold every box exactly once if and only if the root is a parent, or there is at least
      as much work as processors, or only one processor. */
  lemma EachBoxInOnePartition(grid: Box, nproc: nat)
    requires 0 < nproc && CostsSummed(grid) && !grid.NoBox?
    ensures (Shares(grid, nproc, nproc) == BoxOrder(grid)) <==> (grid.Parent? || CostOf(grid) >= nproc || nproc == 1)
    ensures (forall x :: Count(Shares(grid, nproc, nproc), x) == Stored(grid, x))
            <==> (grid.Parent? || CostOf(grid) >= nproc || nproc == 1)
  {
    forall x ensures Count(BoxOrder(grid), x) == Stored(grid, x) {
      TraversalIsTheTree(Shipped(), grid, 0, x);
    }
    if grid.Parent? {
      ParentRootIsShared(grid, nproc);
    } else {
      ChildlessRootShares(grid, nproc, nproc);
      ChildlessShare(grid, 0, nproc);
      assert BoxOrder(grid) == [grid.own];
      assert Stored(grid, grid.own.item) == 1;
      if nproc == 1 {
        assert Shares(grid, 1, 1) == Share(grid, 0, 1);
      }
    }
  }
}
