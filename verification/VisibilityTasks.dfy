/** The visibility tasks of one element at work: each computes the undefined entries of its own segment,
    then takes its count off the element's counter under the lock, and whoever brings the counter to 0
    calls the continuation. A step is one entry or one locked update, in any order. */
module VisibilityTasks {
  import opened VisibilitySplit

  datatype Visibility = Undefined | Known(value: real)

  /** values[i] is what visibility() finds for entry i. */
  datatype Config = Config(tasks: seq<Segment>, before: seq<Visibility>, values: seq<real>)

  datatype State = State(entries: seq<Visibility>, done: seq<nat>, finished: seq<bool>, counter: int, calls: nat)

  function Undef(before: seq<Visibility>): (u: seq<bool>)
    ensures |u| == |before|
  {
    seq(|before|, i requires 0 <= i < |before| => before[i].Undefined?)
  }

  /** The tasks come from a split of the list. */
  predicate Valid(c: Config) {
    && |c.values| == |c.before| && c.tasks != [] && Tiles(c.tasks, |c.before|)
    && forall k :: 0 <= k < |c.tasks| ==> c.tasks[k].start + c.tasks[k].count <= |c.before| && c.tasks[k].count > 0
  }

  function Computed(c: Config, i: nat): Visibility
    requires Valid(c) && i < |c.before|
  {
    if c.before[i].Undefined? then Known(c.values[i]) else c.before[i]
  }

  /** compute_visibility_values on a stretch of the list, in place. */
  method ComputeVisibilityValues(entries: array<Visibility>, start: nat, count: nat, values: seq<real>)
    requires start + count <= entries.Length == |values|
    modifies entries
    ensures forall i :: 0 <= i < entries.Length ==>
              entries[i] == if start <= i < start + count
                && old(entries[i]).Undefined? then Known(values[i]) else old(entries[i])
  {
    var inter, n := start, count;
    while n > 0
      invariant inter + n == start + count && start <= inter
      invariant forall i :: 0 <= i < entries.Length ==>
                  entries[i] == if start <= i < inter
                    && old(entries[i]).Undefined? then Known(values[i]) else old(entries[i])
    {
      if entries[inter].Undefined? {
        entries[inter] := Known(values[inter]);
      }
      inter, n := inter + 1, n - 1;
    }
  }

  predicate ValidState(c: Config, s: State) {
    && |s.entries| == |c.before| && |s.done| == |c.tasks| && |s.finished| == |c.tasks|
    && forall k :: 0 <= k < |c.tasks| ==>
         s.done[k] <= c.tasks[k].count && (s.finished[k] ==> s.done[k] == c.tasks[k].count)
  }

  predicate Init(c: Config, s: State) {
    && ValidState(c, s) && s.entries == c.before && s.counter == |c.before| && s.calls == 0
    && forall k :: 0 <= k < |c.tasks| ==> s.done[k] == 0 && !s.finished[k]
  }

  predicate Enabled(c: Config, s: State, k: nat)
    requires ValidState(c, s)
  {
    k < |c.tasks| && !s.finished[k]
  }

  /** The next entry of task k, or, past the last one, its update of the counter. */
  function Step(c: Config, s: State, k: nat): (s': State)
    requires Valid(c) && ValidState(c, s) && Enabled(c, s, k)
    ensures ValidState(c, s')
  {
    var t := c.tasks[k];
    if s.done[k] < t.count then
      var i := t.start + s.done[k];
      s.(entries := if s.entries[i].Undefined? then s.entries[i := Known(c.values[i])] else s.entries,
         done := s.done[k := s.done[k] + 1])
    else
      var counter := s.counter - t.count;
      s.(finished := s.finished[k := true], counter := counter, calls := if counter == 0 then s.calls + 1 else s.calls)
  }

  // ------------------------------------------------------------------------------- segments

  lemma {:induction false} SegmentsOrdered(tasks: seq<Segment>, end: nat, j: nat, k: nat)
    requires Tiles(tasks, end) && j < k < |tasks|
    ensures tasks[j].start + tasks[j].count <= tasks[k].start && tasks[k].start + tasks[k].count <= end
  {
    var last := |tasks| - 1;
    if k < last {
      SegmentsOrdered(tasks[..last], tasks[last].start, j, k);
    } else if j < last - 1 {
      SegmentsOrdered(tasks[..last], tasks[last].start, j, last - 1);
      assert Tiles(tasks[..last], tasks[last].start);
      assert tasks[..last][last - 1] == tasks[last - 1];
    } else {
      assert tasks[..last][last - 1] == tasks[last - 1];
    }
  }

  lemma {:induction false} SegmentsCover(tasks: seq<Segment>, end: nat, i: nat) returns (k: nat)
    requires Tiles(tasks, end) && i < end
    ensures k < |tasks| && tasks[k].start <= i < tasks[k].start + tasks[k].count
  {
    var last := |tasks| - 1;
    if tasks[last].start <= i {
      k := last;
    } else {
      k := SegmentsCover(tasks[..last], tasks[last].start, i);
    }
  }

  /** What the unfinished among the first n tasks still have to take off the counter. */
  function Owed(tasks: seq<Segment>, finished: seq<bool>, n: nat): nat
    requires n <= |tasks| && n <= |finished|
  {
    if n == 0 then 0 else Owed(tasks, finished, n - 1) + (if finished[n - 1] then 0 else tasks[n - 1].count)
  }

  lemma {:induction false} OwedAtFirst(tasks: seq<Segment>, end: nat, finished: seq<bool>)
    requires Tiles(tasks, end) && |finished| >= |tasks| && forall k :: 0 <= k < |tasks| ==> !finished[k]
    ensures Owed(tasks, finished, |tasks|) == end
  {
    if tasks != [] {
      var last := |tasks| - 1;
      OwedAtFirst(tasks[..last], tasks[last].start, finished);
      OwedPrefix(tasks, tasks[..last], finished, last);
    }
  }

  lemma {:induction false} OwedPrefix(tasks: seq<Segment>, front: seq<Segment>, finished: seq<bool>, n: nat)
    requires n <= |front| <= |tasks| && n <= |finished| && front == tasks[..|front|]
    ensures Owed(tasks, finished, n) == Owed(front, finished, n)
  {
    if n > 0 {
      OwedPrefix(tasks, front, finished, n - 1);
    }
  }

  lemma {:induction false} OwedUpdate(tasks: seq<Segment>, finished: seq<bool>, n: nat, k: nat)
    requires n <= |tasks| == |finished| && k < |tasks| && !finished[k]
    ensures Owed(tasks, finished[k := true], n) == Owed(tasks, finished, n) - (if k < n then tasks[k].count else 0)
  {
    if n > 0 {
      OwedUpdate(tasks, finished, n - 1, k);
    }
  }

  lemma {:induction false} NothingOwed(tasks: seq<Segment>, finished: seq<bool>, n: nat)
    requires n <= |tasks| == |finished| && forall k :: 0 <= k < |tasks| ==> tasks[k].count > 0
    ensures Owed(tasks, finished, n) == 0 <==> forall k :: 0 <= k < n ==> finished[k]
  {
    if n > 0 {
      NothingOwed(tasks, finished, n - 1);
    }
  }

  // -------------------------------------------------------------------------- the invariant

  predicate SegmentInv(c: Config, s: State, k: nat)
    requires Valid(c) && ValidState(c, s) && k < |c.tasks|
  {
    forall j :: c.tasks[k].start <= j < c.tasks[k].start + c.tasks[k].count ==>
      s.entries[j] == if j < c.tasks[k].start + s.done[k] then Computed(c, j) else c.before[j]
  }

  predicate Inv(c: Config, s: State)
    requires Valid(c)
  {
    && ValidState(c, s) && (forall k :: 0 <= k < |c.tasks| ==> SegmentInv(c, s, k))
    && s.counter == Owed(c.tasks, s.finished, |c.tasks|) && s.calls == if s.counter == 0 then 1 else 0
  }

  lemma InitInv(c: Config, s: State)
    requires Valid(c) && Init(c, s)
    ensures Inv(c, s)
  {
    OwedAtFirst(c.tasks, |c.before|, s.finished);
    NothingOwed(c.tasks, s.finished, |c.tasks|);
  }

  lemma StepInv(c: Config, s: State, k: nat)
    requires Valid(c) && Inv(c, s) && Enabled(c, s, k)
    ensures Inv(c, Step(c, s, k))
  {
    var s', t := Step(c, s, k), c.tasks[k];
    NothingOwed(c.tasks, s.finished, |c.tasks|);
    assert SegmentInv(c, s, k);
    if s.done[k] < t.count {
      forall m | 0 <= m < |c.tasks| ensures SegmentInv(c, s', m) {
        assert SegmentInv(c, s, m);
        if m < k {
          SegmentsOrdered(c.tasks, |c.before|, m, k);
        } else if k < m {
          SegmentsOrdered(c.tasks, |c.before|, k, m);
        }
      }
    } else {
      OwedUpdate(c.tasks, s.finished, |c.tasks|, k);
      forall m | 0 <= m < |c.tasks| ensures SegmentInv(c, s', m) {
        assert SegmentInv(c, s, m);
      }
    }
  }

  predicate Reaches(c: Config, s: State, steps: seq<nat>, s': State)
    requires Valid(c)
    decreases steps
  {
    if steps == [] then s' == s
    else ValidState(c, s) && Enabled(c, s, steps[0]) && Reaches(c, Step(c, s, steps[0]), steps[1..], s')
  }

  /** Steps still to come. */
  function Left(c: Config, s: State, n: nat): nat
    requires ValidState(c, s) && n <= |c.tasks|
  {
    if n == 0 then 0
    else Left(c, s, n - 1) + (if s.finished[n - 1] then 0 else c.tasks[n - 1].count - s.done[n - 1] + 1)
  }

  lemma {:induction false} StepCounts(c: Config, s: State, k: nat, n: nat)
    requires Valid(c) && ValidState(c, s) && Enabled(c, s, k) && n <= |c.tasks|
    ensures Left(c, Step(c, s, k), n) + (if k < n then 1 else 0) == Left(c, s, n)
  {
    if n > 0 {
      StepCounts(c, s, k, n - 1);
    }
  }

  lemma {:induction false} RunInv(c: Config, s: State, steps: seq<nat>, s': State)
    requires Valid(c) && Inv(c, s) && Reaches(c, s, steps, s')
    ensures Inv(c, s') && |steps| + Left(c, s', |c.tasks|) == Left(c, s, |c.tasks|)
    decreases steps
  {
    if steps != [] {
      StepInv(c, s, steps[0]);
      StepCounts(c, s, steps[0], |c.tasks|);
      RunInv(c, Step(c, s, steps[0]), steps[1..], s');
    }
  }

  /** In every interleaving the continuation is called at most once, and when it has been called every task
      is finished and every entry defined; when all tasks are finished it has been called exactly once;
      and as long as one is not, another step can be taken, of which there are finitely many. */
  lemma ContinuationCalledOnce(c: Config, s: State, steps: seq<nat>, s': State)
    requires Valid(c) && Init(c, s) && Reaches(c, s, steps, s')
    ensures ValidState(c, s') && |steps| <= Left(c, s, |c.tasks|)
    ensures s'.calls <= 1 && (s'.calls == 1 <==> forall k :: 0 <= k < |c.tasks| ==> s'.finished[k])
    ensures s'.calls == 1 ==>
              forall i :: 0 <= i < |c.before| ==> s'.entries[i] == Computed(c, i) && s'.entries[i].Known?
  {
    InitInv(c, s);
    RunInv(c, s, steps, s');
    NothingOwed(c.tasks, s'.finished, |c.tasks|);
    if s'.calls == 1 {
      forall i | 0 <= i < |c.before| ensures s'.entries[i] == Computed(c, i) {
        var k := SegmentsCover(c.tasks, |c.before|, i);
        assert SegmentInv(c, s', k);
      }
    }
  }

  lemma SharesNonEmpty(undef: seq<bool>, perTask: nat, tasks: seq<Segment>)
    requires FairShares(undef, perTask, tasks)
    ensures forall k :: 0 <= k < |tasks| ==> tasks[k].start + tasks[k].count <= |undef| && tasks[k].count > 0
  {
  }

  /** The tasks that CreateVisibilityTasks enqueues are such a split. */
  lemma SplitIsValid(before: seq<Visibility>, values: seq<real>, perTask: nat, tasks: seq<Segment>)
    requires |values| == |before| && before != [] && Tiles(tasks, |before|) && FairShares(Undef(before), perTask, tasks)
    ensures Valid(Config(tasks, before, values))
  {
    SharesNonEmpty(Undef(before), perTask, tasks);
  }
}
