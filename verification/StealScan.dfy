/** The order in which dequeue_task looks at the queues: its own, then one back, two forward, three
    back and so on, each time wrapping around at most once. */
module StealScan {

  /** One wrap, as the code does it. */
  function Wrap(q: int, m: nat): int {
    if q < 0 then q + m else if q >= m then q - m else q
  }

  /** The queue looked at after k visits, following the code's running offset. */
  function Position(start: nat, k: nat, m: nat): int {
    if k == 0 then start
    else if k % 2 == 1 then Wrap(Position(start, k - 1, m) - k, m)
    else Wrap(Position(start, k - 1, m) + k, m)
  }

  /** Where the offsets -1, +2, -3, ... have led after k of them. */
  function Drift(k: nat): int {
    if k % 2 == 0 then k / 2 else -((k + 1) / 2)
  }

  /** The queue index never leaves its range, and is start + Drift(k) up to one turn around. */
  lemma {:induction false} PositionIsDrift(start: nat, k: nat, m: nat)
    requires start < m && k <= m
    ensures 0 <= Position(start, k, m) < m
    ensures Position(start, k, m) == Wrap(start + Drift(k), m)
  {
    if k > 0 {
      PositionIsDrift(start, k - 1, m);
    }
  }

  /** On which visit the scan that starts at `start` reaches queue q. */
  function VisitOf(start: nat, q: nat, m: nat): (k: nat)
    requires start < m && q < m
    ensures k < m
  {
    var d := Wrap(q - start, m);
    if 2 * d < m then 2 * d else 2 * (m - d) - 1
  }

  lemma VisitReaches(start: nat, q: nat, m: nat)
    requires start < m && q < m
    ensures Position(start, VisitOf(start, q, m), m) == q
  {
    PositionIsDrift(start, VisitOf(start, q, m), m);
  }

  lemma ReachedOnVisit(start: nat, k: nat, m: nat)
    requires start < m && k < m
    ensures 0 <= Position(start, k, m) < m && VisitOf(start, Position(start, k, m) as nat, m) == k
  {
  }

  /** The scan visits every queue exactly once: visits and queues are in one-to-one correspondence. */
  lemma ScanIsPermutation(start: nat, m: nat)
    requires start < m
    ensures forall q: nat :: q < m ==> Position(start, VisitOf(start, q, m), m) == q
    ensures forall k: nat :: k < m ==>
              0 <= Position(start, k, m) < m && VisitOf(start, Position(start, k, m) as nat, m) == k
  {
    forall q: nat | q < m ensures Position(start, VisitOf(start, q, m), m) == q {
      VisitReaches(start, q, m);
    }
    forall k: nat | k < m
      ensures 0 <= Position(start, k, m) < m && VisitOf(start, Position(start, k, m) as nat, m) == k
    {
      ReachedOnVisit(start, k, m);
    }
  }

  /** The queues in the order the scan looks at them. */
  function ScanOrder(start: nat, m: nat): (order: seq<nat>)
    requires start < m
    ensures |order| == m && order[0] == start
    ensures forall k :: 0 <= k < m ==> order[k] < m
    ensures forall q: nat :: q < m ==> q in order
  {
    ScanIsPermutation(start, m);
    var order: seq<nat> := seq(m, k requires 0 <= k < m => Position(start, k, m));
    assert forall k: nat :: k < m ==> order[k] == Position(start, k, m) < m;
    assert forall q: nat :: q < m ==> q in order by {
      forall q: nat | q < m ensures q in order {
        assert order[VisitOf(start, q, m)] == q;
      }
    }
    order
  }

  /** Whether the next offset goes forward: the signs alternate, backward first. */
  predicate Forward(visits: nat) {
    visits > 0 && !Forward(visits - 1)
  }

  lemma {:induction false} ForwardIsOdd(k: nat)
    ensures Forward(k) <==> k % 2 == 1
  {
    if k > 0 {
      ForwardIsOdd(k - 1);
    }
  }

  lemma NextInOrder(start: nat, k: nat, m: nat)
    requires start < m && k + 1 < m
    ensures ScanOrder(start, m)[k + 1] == Wrap(ScanOrder(start, m)[k] + (if Forward(k) then k + 1 else 0 - (k + 1)), m)
  {
    ForwardIsOdd(k);
    PositionIsDrift(start, k, m);
    PositionIsDrift(start, k + 1, m);
  }

  /** One turn: the visit count goes up, and the queue index moves by it, forward or backward, with at most
      one wrap. */
  method NextQueue(ghost start: nat, qid: int, visits: nat, sign: int, m: nat) returns (next: int, nextSign: int)
    requires start < m && visits < m && qid == ScanOrder(start, m)[visits]
             && sign == (if Forward(visits) then 1 else -1)
    ensures visits + 1 < m ==> next == ScanOrder(start, m)[visits + 1]
    ensures nextSign == if Forward(visits + 1) then 1 else -1
  {
    if visits + 1 < m {
      NextInOrder(start, visits, m);
    }
    var offset := if sign > 0 then visits + 1 else 0 - (visits + 1);
    nextSign := -sign;
    next := qid + offset;
    if next < 0 {
      next := next + m;
    } else if next >= m {
      next := next - m;
    }
  }

  /** dequeue_task's loop run without interference, on the queues' lengths: the queue it takes from is the
      first in scan order that is not empty, its visit count the number of empty ones before it. A scan of
      all queues finds nothing only if they are all empty. */
  method FindQueue(start: nat, lengths: seq<nat>, maxVisits: nat) returns (found: bool, qid: int, visits: nat)
    requires start < |lengths|
    ensures var order := ScanOrder(start, |lengths|);
            && visits <= |order| && (forall k :: 0 <= k < visits ==> lengths[order[k]] == 0)
            && (found ==> visits < |order| && qid == order[visits] && lengths[qid] > 0)
            && (!found ==> visits == if maxVisits > |order| then |order| else maxVisits)
    ensures !found && maxVisits >= |lengths| ==> forall q :: 0 <= q < |lengths| ==> lengths[q] == 0
  {
    var m: nat := |lengths|;
    ghost var order := ScanOrder(start, m);
    var maxVisit := if maxVisits > m then m else maxVisits;
    var sign := -1;
    qid, visits, found := start, 0, false;
    while visits < maxVisit
      invariant visits <= maxVisit <= m && sign == (if Forward(visits) then 1 else -1)
      invariant visits < m ==> qid == order[visits]
      invariant forall k :: 0 <= k < visits ==> lengths[order[k]] == 0
    {
      if lengths[qid] > 0 {
        found := true;
        return;
      }
      qid, sign := NextQueue(start, qid, visits, sign, m);
      visits := visits + 1;
    }
    forall q: nat | q < m && maxVisits >= m ensures lengths[q] == 0 {
      assert q in order;
    }
  }
}
