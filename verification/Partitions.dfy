/** A processor's share of the FMM boxes: one list of childless boxes and one list of parents for each
    level, filled from the front, and walked from the bottom of the tree upwards. */
module Partitions {
  import opened PrefixZones

  /** A box by its number, with its level and whether it is a parent. */
  datatype Label = Label(id: nat, level: nat, parent: bool)

  /** A box as the lists hold it, with its cost. */
  type Entry = Weighed<Label>

  /** The list a box belongs on: -1 for childless boxes, a parent's level otherwise. */
  function ListOf(b: Label): int {
    if b.parent then b.level else -1
  }

  /** The boxes inserted so far that belong on one list, the latest first. */
  function Listed(inserted: seq<Entry>, list: int): seq<Entry> {
    if inserted == [] then []
    else
      var last := inserted[|inserted| - 1];
      (if ListOf(last.item) == list then [last] else []) + Listed(inserted[..|inserted| - 1], list)
  }

  /** The deepest level with a parent on it, or -1. */
  function Deepest(inserted: seq<Entry>): (d: int)
    ensures d >= -1
    ensures forall i :: 0 <= i < |inserted| ==> ListOf(inserted[i].item) <= d
  {
    if inserted == [] then -1
    else
      var d, last := Deepest(inserted[..|inserted| - 1]), inserted[|inserted| - 1];
      if ListOf(last.item) > d then ListOf(last.item) else d
  }

  lemma {:induction false} ListedCount(inserted: seq<Entry>, list: int, x: Label)
    ensures Count(Listed(inserted, list), x) == if ListOf(x) == list then Count(inserted, x) else 0
    ensures forall i :: 0 <= i < |Listed(inserted, list)| ==> ListOf(Listed(inserted, list)[i].item) == list
  {
    if inserted != [] {
      var front, last := inserted[..|inserted| - 1], inserted[|inserted| - 1];
      ListedCount(front, list, x);
      assert inserted == front + [last];
      CountAppend(front, [last], x);
      CountAppend(if ListOf(last.item) == list then [last] else [], Listed(front, list), x);
    }
  }

  /** The parents' lists from level `top` down to level 0. */
  function ParentsFrom(parents: seq<seq<Entry>>, top: int): seq<Entry>
    requires -1 <= top < |parents|
    decreases top + 1
  {
    if top < 0 then [] else parents[top] + ParentsFrom(parents, top - 1)
  }

  predicate HoldsInserted(inserted: seq<Entry>, childless: seq<Entry>, parents: seq<seq<Entry>>, maxParentLevel: int) {
    && childless == Listed(inserted, -1)
    && (forall l :: 0 <= l < |parents| ==> parents[l] == Listed(inserted, l))
    && maxParentLevel == Deepest(inserted)
    && maxParentLevel < |parents|
  }

  /** Bottom-up order: childless boxes before parents, and a deeper parent before a shallower one. */
  predicate BottomUp(order: seq<Entry>) {
    forall i, j :: 0 <= i < j < |order| ==>
      !order[i].item.parent || (order[j].item.parent && order[j].item.level <= order[i].item.level)
  }

  lemma {:induction false} ParentsFromOrder(inserted: seq<Entry>, childless: seq<Entry>, parents: seq<seq<Entry>>,
                                            maxParentLevel: int, top: int, x: Label)
    requires HoldsInserted(inserted, childless, parents, maxParentLevel) && -1 <= top < |parents|
    ensures Count(ParentsFrom(parents, top), x) == if 0 <= ListOf(x) <= top then Count(inserted, x) else 0
    ensures forall i :: 0 <= i < |ParentsFrom(parents, top)| ==> 0 <= ListOf(ParentsFrom(parents, top)[i].item) <= top
    ensures BottomUp(ParentsFrom(parents, top))
    decreases top + 1
  {
    if top >= 0 {
      ParentsFromOrder(inserted, childless, parents, maxParentLevel, top - 1, x);
      assert parents[top] == Listed(inserted, top);
      ListedCount(inserted, top, x);
      CountAppend(parents[top], ParentsFrom(parents, top - 1), x);
    }
  }

  lemma {:induction false} DeepestCovers(inserted: seq<Entry>, x: Label)
    requires Deepest(inserted) < ListOf(x)
    ensures Count(inserted, x) == 0
  {
    if inserted != [] {
      var front, last := inserted[..|inserted| - 1], inserted[|inserted| - 1];
      assert inserted == front + [last];
      DeepestCovers(front, x);
      CountAppend(front, [last], x);
    }
  }

  /** The walk upwards meets every inserted box as often as it was inserted, in bottom-up order. */
  lemma BottomOrderIsComplete(inserted: seq<Entry>, childless: seq<Entry>, parents: seq<seq<Entry>>,
                              maxParentLevel: int, x: Label)
    requires HoldsInserted(inserted, childless, parents, maxParentLevel)
    ensures var order := childless + ParentsFrom(parents, maxParentLevel);
            Count(order, x) == Count(inserted, x) && BottomUp(order)
  {
    ParentsFromOrder(inserted, childless, parents, maxParentLevel, maxParentLevel, x);
    ListedCount(inserted, -1, x);
    CountAppend(childless, ParentsFrom(parents, maxParentLevel), x);
    if ListOf(x) > maxParentLevel {
      DeepestCovers(inserted, x);
    }
  }

  class Partition {
    var childlessPartition: seq<Entry>
    var parentPartition: seq<seq<Entry>>
    var maxParentLevel: int
    ghost var inserted: seq<Entry>

    ghost predicate Valid()
      reads this
    {
      HoldsInserted(inserted, childlessPartition, parentPartition, maxParentLevel)
    }

    constructor (levels: nat)
      ensures Valid() && inserted == [] && |parentPartition| == levels
    {
      childlessPartition := [];
      parentPartition := seq(levels, l => []);
      maxParentLevel := -1;
      inserted := [];
    }

    method InsertBox(b: Entry)
      requires Valid() && b.item.level < |parentPartition|
      modifies this
      ensures Valid() && inserted == old(inserted) + [b] && |parentPartition| == old(|parentPartition|)
    {
      if !b.item.parent {
        childlessPartition := [b] + childlessPartition;
      } else {
        parentPartition := parentPartition[b.item.level := [b] + parentPartition[b.item.level]];
        if b.item.level > maxParentLevel {
          maxParentLevel := b.item.level;
        }
      }
      inserted := inserted + [b];
      assert inserted[..|inserted| - 1] == old(inserted);
      assert Listed(inserted, -1) == (if b.item.parent then [] else [b]) + Listed(old(inserted), -1);
    }

    /** PartitionIterate from BOTTOM: the order in which the boxes are visited. */
    method IterateBottom() returns (order: seq<Entry>)
      requires Valid()
      ensures order == childlessPartition + ParentsFrom(parentPartition, maxParentLevel)
      ensures BottomUp(order) && forall x :: Count(order, x) == Count(inserted, x)
    {
      order := childlessPartition;
      var i := maxParentLevel;
      while i >= 0
        invariant -1 <= i <= maxParentLevel
        invariant order + ParentsFrom(parentPartition, i)
                  == childlessPartition + ParentsFrom(parentPartition, maxParentLevel)
      {
        order := order + parentPartition[i];
        i := i - 1;
      }
      assert order + ParentsFrom(parentPartition, i) == order;
      forall x ensures Count(order, x) == Count(inserted, x) {
        BottomOrderIsComplete(inserted, childlessPartition, parentPartition, maxParentLevel, x);
      }
      BottomOrderIsComplete(inserted, childlessPartition, parentPartition, maxParentLevel, Label(0, 0, false));
    }
  }
}
