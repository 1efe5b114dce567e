/** The bottom-up reduction of box costs: every processor works through its own boxes, a parent box spins
    until all its children have reported, and each finished box reports to its parent under a lock. A
    step is one finished spin with the box's own update, or one locked report; the processors'
    steps interleave freely. */
module SubtreeCosts {
  import opened PrefixZones
  import opened Partitions

  /** parent is -1 for the root. */
  datatype Box = Box(parent: int, level: nat, isParent: bool, cost: nat)

  /** lists[p] is what processor p works through, and home tells where each box is listed. */
  datatype Config = Config(boxes: seq<Box>, maxLevel: nat, lists: seq<seq<nat>>, home: seq<(nat, nat)>)

  datatype State = State(pos: seq<nat>, computed: seq<bool>, synch: seq<nat>, subtreeCost: seq<nat>)

  function Entries(c: Config, list: seq<nat>): seq<Entry>
    requires forall k :: 0 <= k < |list| ==> list[k] < |c.boxes|
  {
    seq(|list|, k requires 0 <= k < |list| =>
      Weighed(Label(list[k], c.boxes[list[k]].level, c.boxes[list[k]].isParent), c.boxes[list[k]].cost))
  }

  /** The boxes form a forest by level; only PARENT boxes have children. */
  predicate ValidTree(c: Config) {
    forall b :: 0 <= b < |c.boxes| ==>
      && -1 <= c.boxes[b].parent < |c.boxes| && c.boxes[b].level <= c.maxLevel
      && (c.boxes[b].parent >= 0 ==>
          c.boxes[c.boxes[b].parent].isParent && c.boxes[b].level == c.boxes[c.boxes[b].parent].level + 1)
  }

  /** Every box is in exactly one processor's partition, once. */
  predicate ValidLists(c: Config) {
    && |c.home| == |c.boxes|
    && (forall p, k :: 0 <= p < |c.lists| && 0 <= k < |c.lists[p]| ==>
          c.lists[p][k] < |c.boxes| && c.home[c.lists[p][k]] == (p, k))
    && (forall b :: 0 <= b < |c.boxes| ==>
          c.home[b].0 < |c.lists| && c.home[b].1 < |c.lists[c.home[b].0]| && c.lists[c.home[b].0][c.home[b].1] == b)
  }

  predicate Valid(c: Config) {
    ValidTree(c) && ValidLists(c)
  }

  predicate AllBottomUp(c: Config)
    requires Valid(c)
  {
    forall p :: 0 <= p < |c.lists| ==> BottomUp(Entries(c, c.lists[p]))
  }

  predicate ValidState(c: Config, s: State) {
    && |s.pos| == |c.lists| && |s.computed| == |c.lists| && |s.synch| == |c.boxes| && |s.subtreeCost| == |c.boxes|
    && forall p :: 0 <= p < |c.lists| ==> s.pos[p] <= |c.lists[p]| && (s.computed[p] ==> s.pos[p] < |c.lists[p]|)
  }

  predicate Init(c: Config, s: State) {
    && ValidState(c, s)
    && (forall p :: 0 <= p < |c.lists| ==> s.pos[p] == 0 && !s.computed[p])
    && (forall b :: 0 <= b < |c.boxes| ==> s.synch[b] == 0 && s.subtreeCost[b] == 0)
  }

  predicate Working(c: Config, s: State, p: nat)
    requires ValidState(c, s)
  {
    p < |c.lists| && s.pos[p] < |c.lists[p]|
  }

  function Current(c: Config, s: State, p: nat): (b: nat)
    requires Valid(c) && ValidState(c, s) && Working(c, s, p)
    ensures b < |c.boxes| && c.home[b] == (p, s.pos[p])
  {
    c.lists[p][s.pos[p]]
  }

  // ------------------------------------------------------------------------------ the steps

  /** num_children: the boxes below n whose parent is b. */
  function Kids(c: Config, b: nat, n: nat): nat
    requires n <= |c.boxes|
  {
    if n == 0 then 0 else Kids(c, b, n - 1) + (if c.boxes[n - 1].parent == b then 1 else 0)
  }

  predicate Enabled(c: Config, s: State, p: nat)
    requires Valid(c) && ValidState(c, s)
  {
    && Working(c, s, p)
    && (s.computed[p] || (var b := Current(c, s, p); c.boxes[b].isParent ==> s.synch[b] == Kids(c, b, |c.boxes|)))
  }

  /** Past the spin: the counter goes back to 0 and the box's own cost is added. */
  function Compute(c: Config, s: State, p: nat): State
    requires Valid(c) && ValidState(c, s) && Working(c, s, p)
  {
    var b := Current(c, s, p);
    s.(computed := s.computed[p := true], synch := s.synch[b := 0],
       subtreeCost := s.subtreeCost[b := s.subtreeCost[b] + c.boxes[b].cost])
  }

  /** The report to the parent, if there is one, and on to the next box. */
  function Report(c: Config, s: State, p: nat): State
    requires Valid(c) && ValidState(c, s) && Working(c, s, p)
  {
    var b := Current(c, s, p);
    var pb := c.boxes[b].parent;
    var s' := s.(pos := s.pos[p := s.pos[p] + 1], computed := s.computed[p := false]);
    if pb < 0 then s'
    else s'.(synch := s.synch[pb := s.synch[pb] + 1],
             subtreeCost := s.subtreeCost[pb := s.subtreeCost[pb] + s.subtreeCost[b]])
  }

  function Step(c: Config, s: State, p: nat): (s': State)
    requires Valid(c) && ValidState(c, s) && Enabled(c, s, p)
    ensures ValidState(c, s')
  {
    if s.computed[p] then Report(c, s, p) else Compute(c, s, p)
  }

  // ------------------------------------------------------------------------ what it computes

  /** The cost of a box and everything below it. */
  function SubtreeTotal(c: Config, b: nat): nat
    requires Valid(c) && b < |c.boxes|
    decreases c.maxLevel - c.boxes[b].level, |c.boxes| + 1
  {
    c.boxes[b].cost + KidTotals(c, b, |c.boxes|)
  }

  function KidTotals(c: Config, b: nat, n: nat): nat
    requires Valid(c) && b < |c.boxes| && n <= |c.boxes|
    decreases c.maxLevel - c.boxes[b].level, n
  {
    if n == 0 then 0
    else KidTotals(c, b, n - 1) + (if c.boxes[n - 1].parent == b then SubtreeTotal(c, n - 1) else 0)
  }

  // -------------------------------------------------------------------------- the invariant

  /** Box b has reported, is between its update and its report, or still to do. */
  predicate Sent(c: Config, s: State, b: nat)
    requires Valid(c) && ValidState(c, s) && b < |c.boxes|
  {
    c.home[b].1 < s.pos[c.home[b].0]
  }

  predicate Todo(c: Config, s: State, b: nat)
    requires Valid(c) && ValidState(c, s) && b < |c.boxes|
  {
    var (p, k) := c.home[b];
    s.pos[p] < k || (s.pos[p] == k && !s.computed[p])
  }

  function SentKids(c: Config, s: State, b: nat, n: nat): nat
    requires Valid(c) && ValidState(c, s) && n <= |c.boxes|
  {
    if n == 0 then 0 else SentKids(c, s, b, n - 1) + (if c.boxes[n - 1].parent == b && Sent(c, s, n - 1) then 1 else 0)
  }

  function SentTotals(c: Config, s: State, b: nat, n: nat): nat
    requires Valid(c) && ValidState(c, s) && n <= |c.boxes|
  {
    if n == 0 then 0
    else
      SentTotals(c, s, b, n - 1)
      + (if c.boxes[n - 1].parent == b && Sent(c, s, n - 1) then SubtreeTotal(c, n - 1) else 0)
  }

  predicate BoxInv(c: Config, s: State, b: nat)
    requires Valid(c) && ValidState(c, s) && b < |c.boxes|
  {
    if Todo(c, s, b) then
      s.synch[b] == SentKids(c, s, b, |c.boxes|) && s.subtreeCost[b] == SentTotals(c, s, b, |c.boxes|)
    else
      s.synch[b] == 0 && s.subtreeCost[b] == SubtreeTotal(c, b) && SentKids(c, s, b, |c.boxes|) == Kids(c, b, |c.boxes|)
  }

  predicate Inv(c: Config, s: State)
    requires Valid(c)
  {
    ValidState(c, s) && forall b :: 0 <= b < |c.boxes| ==> BoxInv(c, s, b)
  }

  lemma {:induction false} SentBound(c: Config, s: State, b: nat, n: nat)
    requires Valid(c) && ValidState(c, s) && b < |c.boxes| && n <= |c.boxes|
    ensures SentKids(c, s, b, n) <= Kids(c, b, n)
    ensures SentKids(c, s, b, n) == Kids(c, b, n) ==> SentTotals(c, s, b, n) == KidTotals(c, b, n)
    ensures SentKids(c, s, b, n) == Kids(c, b, n) <==> forall x :: 0 <= x < n && c.boxes[x].parent == b ==>
            Sent(c, s, x)
  {
    if n > 0 {
      SentBound(c, s, b, n - 1);
    }
  }

  lemma {:induction false} NoneSent(c: Config, s: State, b: nat, n: nat)
    requires Valid(c) && ValidState(c, s) && n <= |c.boxes|
    requires forall x :: 0 <= x < n ==> !Sent(c, s, x)
    ensures SentKids(c, s, b, n) == 0 && SentTotals(c, s, b, n) == 0
  {
    if n > 0 {
      NoneSent(c, s, b, n - 1);
    }
  }

  lemma {:induction false} Childless(c: Config, b: nat, n: nat)
    requires Valid(c) && b < |c.boxes| && !c.boxes[b].isParent && n <= |c.boxes|
    ensures Kids(c, b, n) == 0
  {
    if n > 0 {
      Childless(c, b, n - 1);
    }
  }

  lemma InitInv(c: Config, s: State)
    requires Valid(c) && Init(c, s)
    ensures Inv(c, s)
  {
    forall b | 0 <= b < |c.boxes| ensures BoxInv(c, s, b) {
      NoneSent(c, s, b, |c.boxes|);
    }
  }

  /** Steps that leave the positions alone leave what has been reported alone. */
  lemma {:induction false} SameSent(c: Config, s: State, s': State, b: nat, n: nat)
    requires Valid(c) && ValidState(c, s) && ValidState(c, s') && n <= |c.boxes| && s'.pos == s.pos
    ensures SentKids(c, s', b, n) == SentKids(c, s, b, n) && SentTotals(c, s', b, n) == SentTotals(c, s, b, n)
  {
    if n > 0 {
      SameSent(c, s, s', b, n - 1);
    }
  }

  /** A report counts once, for the box that reports. */
  lemma {:induction false} OneMoreSent(c: Config, s: State, s': State, p: nat, b: nat, n: nat)
    requires Valid(c) && ValidState(c, s) && ValidState(c, s') && n <= |c.boxes|
    requires Working(c, s, p) && s'.pos == s.pos[p := s.pos[p] + 1]
    ensures var x := Current(c, s, p); var counts := x < n && c.boxes[x].parent == b;
            && SentKids(c, s', b, n) == SentKids(c, s, b, n) + (if counts then 1 else 0)
            && SentTotals(c, s', b, n) == SentTotals(c, s, b, n) + (if counts then SubtreeTotal(c, x) else 0)
  {
    if n > 0 {
      OneMoreSent(c, s, s', p, b, n - 1);
      assert Sent(c, s', n - 1) == (Sent(c, s, n - 1) || Current(c, s, p) == n - 1);
    }
  }

  lemma ComputeInv(c: Config, s: State, p: nat)
    requires Valid(c) && Inv(c, s) && Enabled(c, s, p) && !s.computed[p]
    ensures Inv(c, Compute(c, s, p))
  {
    var s', x := Compute(c, s, p), Current(c, s, p);
    forall b | 0 <= b < |c.boxes| ensures BoxInv(c, s', b) {
      assert BoxInv(c, s, b);
      SameSent(c, s, s', b, |c.boxes|);
      SentBound(c, s, b, |c.boxes|);
      if b == x {
        if !c.boxes[x].isParent {
          Childless(c, x, |c.boxes|);
        }
      } else {
        assert c.home[b] != c.home[x];
        assert Todo(c, s', b) == Todo(c, s, b);
      }
    }
  }

  lemma ReportInv(c: Config, s: State, p: nat)
    requires Valid(c) && Inv(c, s) && Enabled(c, s, p) && s.computed[p]
    ensures Inv(c, Report(c, s, p))
  {
    var s', x := Report(c, s, p), Current(c, s, p);
    assert BoxInv(c, s, x) && !Todo(c, s, x);
    forall b | 0 <= b < |c.boxes| ensures BoxInv(c, s', b) {
      assert BoxInv(c, s, b);
      OneMoreSent(c, s, s', p, b, |c.boxes|);
      SentBound(c, s, b, |c.boxes|);
      assert Todo(c, s', b) == Todo(c, s, b);
      if c.boxes[x].parent == b {
        assert !Sent(c, s, x);
        assert Todo(c, s, b);
      }
    }
  }

  // ----------------------------------------------------------------------- deadlock freedom

  /** The highest level on which something below n is still to do, or -1. */
  function DeepestTodo(c: Config, s: State, n: nat): (d: int)
    requires Valid(c) && ValidState(c, s) && n <= |c.boxes|
    ensures forall b :: 0 <= b < n && Todo(c, s, b) ==> c.boxes[b].level <= d
    ensures d == -1 || exists b :: 0 <= b < n && Todo(c, s, b) && c.boxes[b].level == d
  {
    if n == 0 then -1
    else
      var d := DeepestTodo(c, s, n - 1);
      if Todo(c, s, n - 1) && c.boxes[n - 1].level > d then c.boxes[n - 1].level else d
  }

  /** The box a processor is at comes before everything it still has to do. */
  lemma CurrentFirst(c: Config, s: State, b: nat)
    requires Valid(c) && AllBottomUp(c) && ValidState(c, s) && b < |c.boxes| && Todo(c, s, b)
    ensures var p := c.home[b].0;
            Working(c, s, p) && var x := Current(c, s, p);
            x == b || !c.boxes[x].isParent || (c.boxes[b].isParent && c.boxes[b].level <= c.boxes[x].level)
  {
    var (p, k) := c.home[b];
    var entries := Entries(c, c.lists[p]);
    if s.pos[p] < k {
      assert !entries[s.pos[p]].item.parent
             || (entries[k].item.parent && entries[k].item.level <= entries[s.pos[p]].item.level);
    }
  }

  /** Some processor can always take a step, as long as one is working: in bottom-up order nobody waits
      for a box that is behind a waiting one. */
  lemma SomeoneCanStep(c: Config, s: State, p: nat) returns (q: nat)
    requires Valid(c) && AllBottomUp(c) && Inv(c, s) && Working(c, s, p)
    ensures Enabled(c, s, q)
  {
    if r :| 0 <= r < |c.lists| && s.computed[r] {
      return r;
    }
    if r :| 0 <= r < |c.lists| && Working(c, s, r) && !c.boxes[Current(c, s, r)].isParent {
      return r;
    }
    var here := Current(c, s, p);
    assert Todo(c, s, here);
    var d := DeepestTodo(c, s, |c.boxes|);
    var b :| 0 <= b < |c.boxes| && Todo(c, s, b) && c.boxes[b].level == d;
    CurrentFirst(c, s, b);
    q := c.home[b].0;
    AllReported(c, s, Current(c, s, q), d);
  }

  lemma AllReported(c: Config, s: State, x: nat, d: int)
    requires Valid(c) && AllBottomUp(c) && Inv(c, s) && x < |c.boxes| && Todo(c, s, x) && c.boxes[x].level == d
    requires forall b :: 0 <= b < |c.boxes| && Todo(c, s, b) ==> c.boxes[b].level <= d
    requires forall r :: 0 <= r < |c.lists| ==> !s.computed[r]
    ensures s.synch[x] == Kids(c, x, |c.boxes|)
  {
    forall y | 0 <= y < |c.boxes| && c.boxes[y].parent == x ensures Sent(c, s, y) {
      assert c.boxes[y].level == d + 1;
      assert !Todo(c, s, y);
    }
    SentBound(c, s, x, |c.boxes|);
    assert BoxInv(c, s, x);
  }

  // -------------------------------------------------------------------------------- all runs

  /** s' follows from s by the processors' steps in this order. */
  predicate Reaches(c: Config, s: State, steps: seq<nat>, s': State)
    requires Valid(c)
    decreases steps
  {
    if steps == [] then s' == s
    else ValidState(c, s) && Enabled(c, s, steps[0]) && Reaches(c, Step(c, s, steps[0]), steps[1..], s')
  }

  /** Steps taken so far: two for each box passed and one for an unreported update. */
  function Taken(c: Config, s: State, n: nat): nat
    requires ValidState(c, s) && n <= |c.lists|
  {
    if n == 0 then 0 else Taken(c, s, n - 1) + 2 * s.pos[n - 1] + (if s.computed[n - 1] then 1 else 0)
  }

  function Boxes(lists: seq<seq<nat>>, n: nat): nat
    requires n <= |lists|
  {
    if n == 0 then 0 else Boxes(lists, n - 1) + |lists[n - 1]|
  }

  lemma {:induction false} StepTaken(c: Config, s: State, p: nat, n: nat)
    requires Valid(c) && ValidState(c, s) && Enabled(c, s, p) && n <= |c.lists|
    ensures Taken(c, Step(c, s, p), n) == Taken(c, s, n) + (if p < n then 1 else 0)
  {
    if n > 0 {
      StepTaken(c, s, p, n - 1);
    }
  }

  lemma {:induction false} TakenBound(c: Config, s: State, n: nat)
    requires Valid(c) && ValidState(c, s) && n <= |c.lists|
    ensures Taken(c, s, n) <= 2 * Boxes(c.lists, n)
    ensures Taken(c, s, n) == 2 * Boxes(c.lists, n) <==> forall p :: 0 <= p < n ==> !Working(c, s, p)
  {
    if n > 0 {
      TakenBound(c, s, n - 1);
      var own := 2 * s.pos[n - 1] + (if s.computed[n - 1] then 1 else 0);
      assert own <= 2 * |c.lists[n - 1]| && (own == 2 * |c.lists[n - 1]| <==> !Working(c, s, n - 1));
      assert (forall p :: 0 <= p < n ==> !Working(c, s, p))
             <==> !Working(c, s, n - 1) && forall p :: 0 <= p < n - 1 ==> !Working(c, s, p);
    }
  }

  lemma {:induction false} NoneTaken(c: Config, s: State, n: nat)
    requires Valid(c) && Init(c, s) && n <= |c.lists|
    ensures Taken(c, s, n) == 0
  {
    if n > 0 {
      NoneTaken(c, s, n - 1);
    }
  }

  lemma {:induction false} RunInv(c: Config, s: State, steps: seq<nat>, s': State)
    requires Valid(c) && Inv(c, s) && Reaches(c, s, steps, s')
    ensures Inv(c, s') && Taken(c, s', |c.lists|) == Taken(c, s, |c.lists|) + |steps|
    decreases steps
  {
    if steps != [] {
      if s.computed[steps[0]] {
        ReportInv(c, s, steps[0]);
      } else {
        ComputeInv(c, s, steps[0]);
      }
      StepTaken(c, s, steps[0], |c.lists|);
      RunInv(c, Step(c, s, steps[0]), steps[1..], s');
    }
  }

  predicate Finished(c: Config, s: State)
    requires ValidState(c, s)
  {
    forall p :: 0 <= p < |c.lists| ==> !Working(c, s, p)
  }

  /** With partitions in bottom-up order no interleaving deadlocks: every run can be continued until all
      processors are through, which is after exactly two steps per box, and then each box holds the cost of
      its whole subtree and every counter is back at 0. */
  lemma EveryRunSumsUp(c: Config, s: State, steps: seq<nat>, s': State)
    requires Valid(c) && AllBottomUp(c) && Init(c, s) && Reaches(c, s, steps, s')
    ensures ValidState(c, s')
    ensures Finished(c, s') <==> |steps| == 2 * Boxes(c.lists, |c.lists|)
    ensures !Finished(c, s') ==> |steps| < 2 * Boxes(c.lists, |c.lists|) && exists q :: Enabled(c, s', q)
    ensures Finished(c, s') ==>
              forall b :: 0 <= b < |c.boxes| ==> s'.subtreeCost[b] == SubtreeTotal(c, b) && s'.synch[b] == 0
  {
    InitInv(c, s);
    RunInv(c, s, steps, s');
    NoneTaken(c, s, |c.lists|);
    TakenBound(c, s', |c.lists|);
    if Finished(c, s') {
      forall b | 0 <= b < |c.boxes| ensures s'.subtreeCost[b] == SubtreeTotal(c, b) && s'.synch[b] == 0 {
        assert BoxInv(c, s', b);
        assert !Working(c, s', c.home[b].0);
      }
    } else {
      var p :| 0 <= p < |c.lists| && Working(c, s', p);
      var q := SomeoneCanStep(c, s', p);
    }
  }

  /** Processor p has not got past box i of its list. */
  predicate HeldAt(c: Config, s: State, p: nat, i: nat)
    requires ValidState(c, s) && p < |c.lists|
  {
    s.pos[p] < i || (s.pos[p] == i && !s.computed[p])
  }

  lemma {:induction false} StaysHeld(c: Config, s: State, steps: seq<nat>, s': State, p: nat, i: nat, j: nat)
    requires Valid(c) && Inv(c, s) && Reaches(c, s, steps, s')
    requires p < |c.lists| && i < j < |c.lists[p]| && c.boxes[c.lists[p][j]].parent == c.lists[p][i]
    requires HeldAt(c, s, p, i)
    ensures ValidState(c, s') && HeldAt(c, s', p, i)
    decreases steps
  {
    if steps != [] {
      var x, y := c.lists[p][i], c.lists[p][j];
      if steps[0] == p && s.pos[p] == i {
        assert BoxInv(c, s, x);
        SentBound(c, s, x, |c.boxes|);
        assert false;
      }
      RunInv(c, s, steps[..1], Step(c, s, steps[0]));
      StaysHeld(c, Step(c, s, steps[0]), steps[1..], s', p, i, j);
    }
  }

  /** The order is needed: if a processor's list holds a box before one of its own children, no run
      finishes. */
  lemma ParentFirstNeverFinishes(c: Config, s: State, steps: seq<nat>, s': State, p: nat, i: nat, j: nat)
    requires Valid(c) && Init(c, s) && Reaches(c, s, steps, s')
    requires p < |c.lists| && i < j < |c.lists[p]| && c.boxes[c.lists[p][j]].parent == c.lists[p][i]
    ensures ValidState(c, s') && !Finished(c, s')
  {
    InitInv(c, s);
    StaysHeld(c, s, steps, s', p, i, j);
    assert Working(c, s', p);
  }
}
