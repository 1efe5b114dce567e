/** Splitting an element's list of interactions into visibility tasks: by a running remainder, as in
    Bresenham's line drawing, the undefined entries are shared out evenly over the tasks. */
module VisibilitySplit {
  import opened Arithmetic

  /** A task: a stretch of the interaction list. */
  datatype Segment = Segment(start: nat, count: nat)

  datatype Decision =
    | CallContinuation               // nothing to compute
    | SolveImmediately               // one task for the whole list, done on the spot
    | Enqueue(tasks: seq<Segment>)

  /** Undefined entries among the first n; undef[i] says whether entry i is still to be computed. */
  function Undefs(undef: seq<bool>, n: nat): (u: nat)
    requires n <= |undef|
    ensures u <= n
  {
    if n == 0 then 0 else Undefs(undef, n - 1) + (if undef[n - 1] then 1 else 0)
  }

  function UndefsIn(undef: seq<bool>, s: Segment): int
    requires s.start + s.count <= |undef|
  {
    Undefs(undef, s.start + s.count) - Undefs(undef, s.start)
  }

  lemma {:induction false} UndefsGrow(undef: seq<bool>, m: nat, n: nat)
    requires m <= n <= |undef|
    ensures Undefs(undef, m) <= Undefs(undef, n)
    ensures Undefs(undef, m) == Undefs(undef, n) ==> forall i :: m <= i < n ==> !undef[i]
  {
    if m < n {
      UndefsGrow(undef, m, n - 1);
    }
  }

  /** The segments follow each other without gap or overlap from 0 to `end`. */
  predicate Tiles(tasks: seq<Segment>, end: nat) {
    if tasks == [] then end == 0
    else
      var last := tasks[|tasks| - 1];
      last.start + last.count == end && Tiles(tasks[..|tasks| - 1], last.start)
  }

  predicate FairShares(undef: seq<bool>, perTask: nat, tasks: seq<Segment>) {
    forall k :: 0 <= k < |tasks| ==>
      tasks[k].start + tasks[k].count <= |undef| && 1 <= UndefsIn(undef, tasks[k]) <= perTask
  }

  /** Task k of n ends with the undefined entry number ceil((k + 1) * u / n). */
  predicate EndsEvenly(undef: seq<bool>, n: nat, u: nat, k: nat, s: Segment) {
    && s.start + s.count <= |undef|
    && (k + 1) * u <= Undefs(undef, s.start + s.count) * n < (k + 1) * u + n
  }

  predicate EvenEnds(undef: seq<bool>, n: nat, u: nat, tasks: seq<Segment>) {
    forall k :: 0 <= k < |tasks| ==> EndsEvenly(undef, n, u, k, tasks[k])
  }

  /** No task has over one undefined entry more than another. */
  predicate EvenShares(undef: seq<bool>, tasks: seq<Segment>) {
    forall j, k :: 0 <= j < |tasks| && 0 <= k < |tasks| ==>
      && tasks[j].start + tasks[j].count <= |undef| && tasks[k].start + tasks[k].count <= |undef|
      && UndefsIn(undef, tasks[j]) <= UndefsIn(undef, tasks[k]) + 1
  }

  function CeilDiv(a: nat, b: nat): nat
    requires b > 0
  {
    (a + b - 1) / b
  }

  lemma CeilDivFacts(a: nat, b: nat)
    requires b > 0
    ensures a <= CeilDiv(a, b) * b && (a > 0 ==> 0 < CeilDiv(a, b) <= a)
    ensures (CeilDiv(a, b) - 1) * b < a || a == 0
  {
    var q, r := (a + b - 1) / b, (a + b - 1) % b;
    assert a + b - 1 == q * b + r;
    assert (q - 1) * b == q * b - b;
    if a > 0 {
      if q > a {
        assert (a + 1) * b == a * b + b;
        MulMonotone(1, b, a);
        MulMonotone(a + 1, q, b);
        assert false;
      }
    }
  }

  /** One undefined entry more: the count is shared by n tasks over u entries. */
  lemma ShareIsFair(d: nat, n: nat, r: nat, u: nat, perTask: nat)
    requires n > 0 && d * n + r < u <= n * perTask
    ensures d + 1 <= perTask
  {
    if d >= perTask {
      assert perTask * n == n * perTask;
      MulMonotone(perTask, d, n);
      assert false;
    }
  }

  lemma AllCreated(n: nat, created: nat, u: nat, remainder: nat)
    requires u > 0 && u * n == created * u + remainder && remainder < u
    ensures created == n
  {
    assert u * n == n * u;
    if created < n {
      assert (created + 1) * u == created * u + u;
      MulMonotone(created + 1, n, u);
      assert false;
    } else if created > n {
      assert (n + 1) * u == n * u + u;
      MulMonotone(n + 1, created, u);
      assert false;
    }
  }

  lemma AllSeen(n: nat, m: nat, u: nat, remainder: nat)
    requires n > 0 && m <= u && m * n == n * u + remainder
    ensures m == u
  {
  }

  lemma SmallestShare(n: nat, m: nat, created: nat, u: nat, remainder: nat)
    requires n > 0 && u > 0 && m * n == created * u + remainder && m <= u
    ensures created <= n
  {
    if created > n {
      assert (n + 1) * u == n * u + u && u * n == n * u;
      MulMonotone(m, u, n);
      MulMonotone(n + 1, created, u);
      assert false;
    }
  }

  // ------------------------------------------------------------------------------- the split

  /** The state of the loop: what of the list is in tasks, and how the remainder stands. d undefined
      entries have been met since the last task was cut off, when the remainder was r. */
  predicate Cutting(undef: seq<bool>, perTask: nat, n: nat, u: nat, tasks: seq<Segment>, top: nat, i: nat,
                    remainder: nat, d: nat, r: nat)
    requires top <= i <= |undef|
  {
    && Tiles(tasks, top) && FairShares(undef, perTask, tasks)
    && d == Undefs(undef, i) - Undefs(undef, top) && remainder == d * n + r && r < n && remainder < u
    && Undefs(undef, i) * n == |tasks| * u + remainder
  }

  lemma TilesAppend(tasks: seq<Segment>, top: nat, count: nat)
    requires Tiles(tasks, top)
    ensures Tiles(tasks + [Segment(top, count)], top + count)
  {
  }

  /** One undefined entry more that does not complete a share. */
  lemma CountOn(undef: seq<bool>, perTask: nat, n: nat, u: nat, tasks: seq<Segment>, top: nat, i: nat, remainder: nat,
                d: nat, r: nat)
    requires top <= i < |undef| && undef[i] && Cutting(undef, perTask, n, u, tasks, top, i, remainder, d, r)
             && remainder + n < u
    ensures Cutting(undef, perTask, n, u, tasks, top, i + 1, remainder + n, d + 1, r)
  {
    UndefsGrow(undef, top, i);
    assert (d + 1) * n == d * n + n;
    assert (Undefs(undef, i) + 1) * n == Undefs(undef, i) * n + n;
  }

  /** One that does: the task cut off ends here, or, when it is the last one, at `end`. */
  lemma CutOff(undef: seq<bool>, perTask: nat, n: nat, u: nat, tasks: seq<Segment>, top: nat, i: nat, remainder: nat,
               d: nat, r: nat, end: nat)
    requires top <= i < |undef| && undef[i] && Cutting(undef, perTask, n, u, tasks, top, i, remainder, d, r)
             && remainder + n >= u
    requires 0 < n <= u <= n * perTask && u == Undefs(undef, |undef|)
    requires end == if |tasks| + 1 >= n then |undef| else i + 1
    ensures Cutting(undef, perTask, n, u, tasks + [Segment(top, end - top)], end, end, remainder + n - u, 0,
            remainder + n - u)
    ensures |tasks| + 1 <= n && (|tasks| + 1 == n ==> end == |undef|)
  {
    UndefsGrow(undef, top, i);
    UndefsGrow(undef, i + 1, |undef|);
    CutArithmetic(n, u, perTask, |tasks|, Undefs(undef, i), remainder, d, r);
    assert Undefs(undef, end) == Undefs(undef, i + 1);
    TilesAppend(tasks, top, end - top);
    FairAppend(undef, perTask, tasks, Segment(top, end - top));
  }

  lemma FairAppend(undef: seq<bool>, perTask: nat, tasks: seq<Segment>, s: Segment)
    requires FairShares(undef, perTask, tasks) && s.start + s.count <= |undef| && 1 <= UndefsIn(undef, s) <= perTask
    ensures FairShares(undef, perTask, tasks + [s])
  {
  }

  lemma CutArithmetic(n: nat, u: nat, perTask: nat, created: nat, m: nat, remainder: nat, d: nat, r: nat)
    requires 0 < n <= u <= n * perTask && m < u && remainder < u && remainder + n >= u
    requires remainder == d * n + r && m * n == created * u + remainder
    ensures d + 1 <= perTask && created + 1 <= n && (created + 1 == n ==> m + 1 == u)
    ensures (m + 1) * n == (created + 1) * u + (remainder + n - u) && remainder + n - u < n
  {
    ShareIsFair(d, n, r, u, perTask);
    assert (m + 1) * n == m * n + n && (created + 1) * u == created * u + u;
    SmallestShare(n, m + 1, created + 1, u, remainder + n - u);
    if created + 1 == n {
      AllSeen(n, m + 1, u, remainder + n - u);
    }
  }

  lemma EvenAppend(undef: seq<bool>, n: nat, u: nat, tasks: seq<Segment>, s: Segment, remainder: nat)
    requires EvenEnds(undef, n, u, tasks) && s.start + s.count <= |undef| && remainder < n
    requires Undefs(undef, s.start + s.count) * n == (|tasks| + 1) * u + remainder
    ensures EvenEnds(undef, n, u, tasks + [s])
  {
    var more := tasks + [s];
    forall k | 0 <= k < |more| ensures EndsEvenly(undef, n, u, k, more[k]) {
      if k < |tasks| {
        assert EndsEvenly(undef, n, u, k, tasks[k]);
      }
    }
  }

  /** A task starts where the one before it ends. */
  lemma {:induction false} StartsAtEnd(tasks: seq<Segment>, end: nat, k: nat)
    requires Tiles(tasks, end) && k < |tasks|
    ensures tasks[k].start == if k == 0 then 0 else tasks[k - 1].start + tasks[k - 1].count
  {
    var last := |tasks| - 1;
    if k < last {
      StartsAtEnd(tasks[..last], tasks[last].start, k);
    } else if k > 0 {
      assert tasks[..last][k - 1] == tasks[k - 1];
    }
  }

  /** A share times the number of tasks is less than that number away from all the undefined entries. */
  lemma ShareNearAverage(undef: seq<bool>, n: nat, u: nat, tasks: seq<Segment>, end: nat, k: nat)
    requires EvenEnds(undef, n, u, tasks) && Tiles(tasks, end) && k < |tasks| && n > 0
    ensures tasks[k].start + tasks[k].count <= |undef|
    ensures u - n < UndefsIn(undef, tasks[k]) * n < u + n
  {
    StartsAtEnd(tasks, end, k);
    assert EndsEvenly(undef, n, u, k, tasks[k]);
    if k > 0 {
      assert EndsEvenly(undef, n, u, k - 1, tasks[k - 1]);
    }
    NearAverage(n, u, k, Undefs(undef, tasks[k].start), Undefs(undef, tasks[k].start + tasks[k].count));
  }

  lemma NearAverage(n: nat, u: nat, k: nat, first: nat, last: nat)
    requires k * u <= first * n < k * u + n && (k + 1) * u <= last * n < (k + 1) * u + n
    ensures u - n < (last - first) * n < u + n
  {
    assert (k + 1) * u == k * u + u;
    assert (last - first) * n == last * n - first * n;
  }

  lemma SharesAreEven(undef: seq<bool>, n: nat, u: nat, tasks: seq<Segment>, end: nat)
    requires EvenEnds(undef, n, u, tasks) && Tiles(tasks, end) && n > 0
    ensures EvenShares(undef, tasks)
  {
    forall j, k | 0 <= j < |tasks| && 0 <= k < |tasks|
      ensures tasks[j].start + tasks[j].count <= |undef| && tasks[k].start + tasks[k].count <= |undef|
      ensures UndefsIn(undef, tasks[j]) <= UndefsIn(undef, tasks[k]) + 1
    {
      ShareNearAverage(undef, n, u, tasks, end, j);
      ShareNearAverage(undef, n, u, tasks, end, k);
      OneApart(UndefsIn(undef, tasks[j]), UndefsIn(undef, tasks[k]), n, u);
    }
  }

  lemma OneApart(a: int, b: int, n: nat, u: nat)
    requires n > 0 && u - n < a * n < u + n && u - n < b * n < u + n
    ensures a <= b + 1
  {
    assert (b + 2) * n == b * n + 2 * n;
    if a >= b + 2 {
      MulMonotone(b + 2, a, n);
      assert false;
    }
  }

  /** The whole decision. With at least perTask undefined entries and a queue that is not too long, it is
      exactly ceil(undefined / perTask) tasks, which tile the list, hold 1 to perTask undefined entries
      each, and share them evenly. */
  method CreateVisibilityTasks(undef: seq<bool>, perTask: nat, queueTooLong: bool) returns (r: Decision)
    requires perTask > 0
    ensures r == CallContinuation <==> forall i :: 0 <= i < |undef| ==> !undef[i]
    ensures r == SolveImmediately <==> 0 < Undefs(undef, |undef|) && (Undefs(undef, |undef|) < perTask || queueTooLong)
    ensures r.Enqueue? ==>
              |r.tasks| == CeilDiv(Undefs(undef, |undef|), perTask) && Tiles(r.tasks, |undef|)
                && FairShares(undef, perTask, r.tasks) && EvenShares(undef, r.tasks)
                && EvenEnds(undef, |r.tasks|, Undefs(undef, |undef|), r.tasks)
  {
    var totalUndefs := 0;
    for k := 0 to |undef|
      invariant totalUndefs == Undefs(undef, k)
    {
      if undef[k] {
        totalUndefs := totalUndefs + 1;
      }
    }
    NoneUndefined(undef, |undef|);
    if totalUndefs == 0 {
      return CallContinuation;
    }
    if totalUndefs < perTask || queueTooLong {
      return SolveImmediately;
    }
    var tasks := CutIntoTasks(undef, perTask, totalUndefs);
    r := Enqueue(tasks);
  }

  lemma {:induction false} NoneUndefined(undef: seq<bool>, n: nat)
    requires n <= |undef|
    ensures Undefs(undef, n) == 0 <==> forall i :: 0 <= i < n ==> !undef[i]
  {
    if n > 0 {
      NoneUndefined(undef, n - 1);
    }
  }

  method CutIntoTasks(undef: seq<bool>, perTask: nat, totalUndefs: nat) returns (tasks: seq<Segment>)
    requires perTask > 0 && totalUndefs == Undefs(undef, |undef|) && totalUndefs > 0
    ensures |tasks| == CeilDiv(totalUndefs, perTask) && Tiles(tasks, |undef|) && FairShares(undef, perTask, tasks)
    ensures EvenEnds(undef, |tasks|, totalUndefs, tasks) && EvenShares(undef, tasks)
  {
    var n := (totalUndefs + perTask - 1) / perTask;
    CeilDivFacts(totalUndefs, perTask);
    tasks := CutIntoShares(undef, perTask, n, totalUndefs);
  }

  /** The loop that cuts the list by the running remainder. */
  method CutIntoShares(undef: seq<bool>, ghost perTask: nat, n: nat, totalUndefs: nat) returns (tasks: seq<Segment>)
    requires totalUndefs == Undefs(undef, |undef|) && 0 < n <= totalUndefs <= n * perTask
    ensures |tasks| == n && Tiles(tasks, |undef|) && FairShares(undef, perTask, tasks)
    ensures EvenEnds(undef, n, totalUndefs, tasks) && EvenShares(undef, tasks)
  {
    tasks := [];
    var remainder: nat, top: nat, i: nat := 0, 0, 0;
    ghost var d: nat, r: nat := 0, 0;
    while i < |undef|
      invariant top <= i <= |undef| && Cutting(undef, perTask, n, totalUndefs, tasks, top, i, remainder, d, r)
      invariant |tasks| <= n && (|tasks| == n ==> top == |undef|) && EvenEnds(undef, n, totalUndefs, tasks)
    {
      if !undef[i] {
        i := i + 1;
        continue;
      }
      if remainder + n >= totalUndefs {
        var end := if |tasks| + 1 >= n then |undef| else i + 1;
        CutOff(undef, perTask, n, totalUndefs, tasks, top, i, remainder, d, r, end);
        EvenAppend(undef, n, totalUndefs, tasks, Segment(top, end - top), remainder + n - totalUndefs);
        tasks := tasks + [Segment(top, end - top)];
        remainder := remainder + n - totalUndefs;
        top, i := end, end;
        d, r := 0, remainder;
      } else {
        CountOn(undef, perTask, n, totalUndefs, tasks, top, i, remainder, d, r);
        remainder := remainder + n;
        d := d + 1;
        i := i + 1;
      }
    }
    AllCreated(n, |tasks|, totalUndefs, remainder);
    SharesAreEven(undef, n, totalUndefs, tasks, |undef|);
  }
}
