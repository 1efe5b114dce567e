/** The sets that an address can be in, one for each processor, as values: what bringing the line into one
    of them does, and what a store's pushes do to each. */
module Columns {
  import opened Protocol
  import opened EventLog
  import opened CacheSets
  import Sequences

  /** The ways of one set: there is at least one. */
  type SetWays = w: seq<Way> | w != [] witness [EMPTY_WAY]

  /** What of an eviction is entered in the log: nothing if it strikes the line being pushed. */
  function Reported(busy: Option<nat>, p: Pid, evicted: Option<nat>): seq<Entry> {
    match evicted
    case None => []
    case Some(a) => if busy == Some(a) then [] else [Entry(a, Invalidate(p))]
  }

  /** Processor p's set has taken the access and holds its tag, and the evictions are the one that this
      causes, or none. */
  predicate Brought(before: SetWays, after: SetWays, a: Access, p: Pid, busy: Option<nat>, evictions: seq<Entry>) {
    && after == Apply(before, a).ways
    && Present(after, a.tag)
    && evictions == Reported(busy, p, Apply(before, a).evicted)
  }

  /** Whether a store to the line by p is one that pushes: the adaptive protocol, and p wrote last. */
  predicate Pushes(detector: bool, l: Line, p: Pid) {
    detector && l.state != INVALID && l.lastWriter == Some(p)
  }

  /** What p's push does to q's place among the sharers. */
  function SharersTurn(sharers: set<Pid>, l: Line, p: Pid, q: Pid): set<Pid>
    requires |l.counts| == MAX_PROCESSORS
  {
    if q == p then sharers else if Qualified(l, q) then sharers + {q} else sharers - {q}
  }

  /** The sharers after the push loop has visited the processors below n. */
  function SharersUpTo(sharers: set<Pid>, l: Line, p: Pid, n: nat): set<Pid>
    requires n <= MAX_PROCESSORS == |l.counts|
  {
    if n == 0 then sharers else SharersTurn(SharersUpTo(sharers, l, p, n - 1), l, p, n - 1)
  }

  lemma {:induction false} SharersAre(sharers: set<Pid>, l: Line, p: Pid, n: nat)
    requires n <= MAX_PROCESSORS == |l.counts|
    ensures forall q: Pid :: q in SharersUpTo(sharers, l, p, n)
                             <==> if q < n && q != p then Qualified(l, q) else q in sharers
  {
    if n > 0 {
      SharersAre(sharers, l, p, n - 1);
    }
  }

  lemma SharersAreTargets(sharers: set<Pid>, l: Line, p: Pid, n: nat)
    requires n <= MAX_PROCESSORS == |l.counts| && p in sharers
    requires forall q :: q in SharersUpTo(sharers, l, p, n) ==> q < n
    ensures SharersUpTo(sharers, l, p, n) == {p} + PushTargets(n, l, p)
  {
    SharersAre(sharers, l, p, n);
  }

  /** The accesses that p's store to the line makes to processor q's set: the writer brings the line back if
      it has lost it, and every qualified reader has it pushed in. */
  function StoreAccess(detector: bool, l: Line, p: Pid, q: Pid, tag: nat, addr: nat): Option<Access>
    requires |l.counts| == MAX_PROCESSORS
  {
    if !Pushes(detector, l, p) then None
    else if q == p then if p in l.sharers then None else Some(Access(tag, addr, true))
    else if Qualified(l, q) then Some(Access(tag, addr, false)) else None
  }

  function ApplyIf(w: SetWays, a: Option<Access>): SetWays {
    match a
    case None => w
    case Some(access) => Apply(w, access).ways
  }

  function ReportIf(w: SetWays, a: Option<Access>, q: Pid): seq<Entry> {
    match a
    case None => []
    case Some(access) => Reported(Some(access.addr), q, Apply(w, access).evicted)
  }

  /** Whoever shares the line after a store has it in its set. */
  lemma SharerHolds(n: nat, detector: bool, w: SetWays, l: Line, p: Pid, q: Pid, tag: nat, addr: nat)
    requires |l.counts| == MAX_PROCESSORS && (l.state == INVALID ==> l.sharers == {})
    requires SetInv(w) && tag != NO_TAG && (q == p ==> Present(w, tag))
    requires q in WriteLine(n, detector, l, p).line.sharers
    ensures Present(ApplyIf(w, StoreAccess(detector, l, p, q, tag, addr)), tag)
  {
    var access := StoreAccess(detector, l, p, q, tag, addr);
    if access.Some? {
      ApplyKeepsInv(w, access.value);
    }
  }

  /** A push does not count as a use of the line: only the writer's own recall does. */
  lemma OnlyRecallsCount(detector: bool, w: SetWays, l: Line, p: Pid, q: Pid, tag: nat, addr: nat)
    requires |l.counts| == MAX_PROCESSORS && SetInv(w) && tag != NO_TAG
    ensures TotalLru(ApplyIf(w, StoreAccess(detector, l, p, q, tag, addr)))
            == TotalLru(w) + (if q == p && Pushes(detector, l, p) && p !in l.sharers then 1 else 0)
  {
    var access := StoreAccess(detector, l, p, q, tag, addr);
    if access.Some? {
      ApplyAddsToLru(w, access.value);
    }
  }

  /** The eviction that p's push to q causes, if it pushes there. */
  function PushReport(w: SetWays, l: Line, p: Pid, q: Pid, tag: nat, addr: nat): seq<Entry>
    requires |l.counts| == MAX_PROCESSORS
  {
    if q == p then [] else ReportIf(w, StoreAccess(true, l, p, q, tag, addr), q)
  }

  /** The evictions that the pushes to processors below n cause, in order. */
  function PushReports(column: seq<SetWays>, l: Line, p: Pid, tag: nat, addr: nat, n: nat): seq<Entry>
    requires n <= |column| <= MAX_PROCESSORS == |l.counts|
  {
    if n == 0 then []
    else PushReports(column, l, p, tag, addr, n - 1) + PushReport(column[n - 1], l, p, n - 1, tag, addr)
  }

  /** The log after those pushes. */
  function PushLog(log: seq<Entry>, column: seq<SetWays>, l: Line, p: Pid, tag: nat, addr: nat, n: nat): seq<Entry>
    requires n <= |column| <= MAX_PROCESSORS == |l.counts|
  {
    if n == 0 then log
    else PushLog(log, column, l, p, tag, addr, n - 1) + PushReport(column[n - 1], l, p, n - 1, tag, addr)
  }

  lemma {:induction false} PushLogAppends(log: seq<Entry>, column: seq<SetWays>, l: Line, p: Pid, tag: nat, addr: nat,
                                          n: nat)
    requires n <= |column| <= MAX_PROCESSORS == |l.counts|
    ensures PushLog(log, column, l, p, tag, addr, n) == log + PushReports(column, l, p, tag, addr, n)
  {
    if n > 0 {
      PushLogAppends(log, column, l, p, tag, addr, n - 1);
      Sequences.Associative(log, PushReports(column, l, p, tag, addr, n - 1),
                            PushReport(column[n - 1], l, p, n - 1, tag, addr));
    }
  }

  /** The evictions of a whole store: first the writer's own, then those of the pushes. */
  function StoreReports(detector: bool, column: seq<SetWays>, l: Line, p: Pid, tag: nat, addr: nat): seq<Entry>
    requires p < |column| <= MAX_PROCESSORS == |l.counts|
  {
    if !Pushes(detector, l, p) then []
    else
      ReportIf(column[p], StoreAccess(true, l, p, p, tag, addr), p)
      + PushReports(column, l, p, tag, addr, |column|)
  }

  /** What is pushed does not depend on the writer's own set. */
  lemma {:induction false} PushReportsAgree(column: seq<SetWays>, other: seq<SetWays>, l: Line, p: Pid, tag: nat,
                                            addr: nat, n: nat)
    requires n <= |column| == |other| <= MAX_PROCESSORS == |l.counts|
    requires forall q: nat :: q < |column| && q != p ==> other[q] == column[q]
    ensures PushReports(other, l, p, tag, addr, n) == PushReports(column, l, p, tag, addr, n)
  {
    if n > 0 {
      PushReportsAgree(column, other, l, p, tag, addr, n - 1);
      assert PushReport(other[n - 1], l, p, n - 1, tag, addr) == PushReport(column[n - 1], l, p, n - 1, tag, addr);
    }
  }

  lemma PushedAfterHold(log: seq<Entry>, before: seq<SetWays>, held: seq<SetWays>, l: Line, p: Pid, tag: nat, addr: nat)
    requires p < |before| == |held| <= MAX_PROCESSORS == |l.counts| && Pushes(true, l, p)
    requires forall q: nat :: q < |before| && q != p ==> held[q] == before[q]
    ensures PushLog(log + ReportIf(before[p], StoreAccess(true, l, p, p, tag, addr), p), held, l, p, tag, addr,
                    |before|)
            == log + StoreReports(true, before, l, p, tag, addr)
  {
    var own := ReportIf(before[p], StoreAccess(true, l, p, p, tag, addr), p);
    PushLogAppends(log + own, held, l, p, tag, addr, |before|);
    PushReportsAgree(before, held, l, p, tag, addr, |before|);
    Sequences.Associative(log, own, PushReports(before, l, p, tag, addr, |before|));
  }

  lemma ReportedElsewhere(evictions: seq<Entry>, addr: nat, q: Pid, evicted: Option<nat>)
    requires EvictionsElsewhere(evictions, addr)
    ensures EvictionsElsewhere(evictions + Reported(Some(addr), q, evicted), addr)
  {
  }

  lemma PushElsewhere(evictions: seq<Entry>, w: SetWays, l: Line, p: Pid, q: Pid, tag: nat, addr: nat)
    requires |l.counts| == MAX_PROCESSORS && EvictionsElsewhere(evictions, addr)
    ensures EvictionsElsewhere(evictions + PushReport(w, l, p, q, tag, addr), addr)
  {
    var access := StoreAccess(true, l, p, q, tag, addr);
    if q != p && access.Some? {
      ReportedElsewhere(evictions, addr, q, Apply(w, access.value).evicted);
    } else {
      assert evictions + [] == evictions;
    }
  }

  lemma {:induction false} PushesElsewhere(column: seq<SetWays>, l: Line, p: Pid, tag: nat, addr: nat, n: nat)
    requires n <= |column| <= MAX_PROCESSORS == |l.counts|
    ensures EvictionsElsewhere(PushReports(column, l, p, tag, addr, n), addr)
  {
    if n > 0 {
      PushesElsewhere(column, l, p, tag, addr, n - 1);
      PushElsewhere(PushReports(column, l, p, tag, addr, n - 1), column[n - 1], l, p, n - 1, tag, addr);
    }
  }

  /** Nothing that a store evicts is entered under the stored line's own address. */
  lemma ReportsElsewhere(detector: bool, column: seq<SetWays>, l: Line, p: Pid, tag: nat, addr: nat)
    requires p < |column| <= MAX_PROCESSORS == |l.counts|
    ensures EvictionsElsewhere(StoreReports(detector, column, l, p, tag, addr), addr)
  {
    PushesElsewhere(column, l, p, tag, addr, |column|);
  }
}
