/** The directory protocol of the cache simulator, seen one line at a time: what a read, a write and
    an eviction do to the set of sharers, the state, the last writer and the reader counters, and
    what follows for every run of such events. The packed words that the simulator stores are in
    DirectoryWords; the imperative handlers are in Simulator. */
module Protocol {

  /** Reader counts sit in 2-bit lanes addressed by a 32-bit int shift, so at most 15 processors. */
  const MAX_PROCESSORS: nat := 15

  type Pid = p: nat | p < MAX_PROCESSORS

  datatype Option<T> = None | Some(value: T)

  datatype CacheState = INVALID | SHARED | MODIFIED

  datatype Event = Read(pid: Pid) | Write(pid: Pid) | Invalidate(pid: Pid)

  /** What one directory line records about one address. */
  datatype Line = Line(state: CacheState, sharers: set<Pid>, lastWriter: Option<Pid>, counts: seq<nat>)

  const NO_READS: seq<nat> := [0, 0, 0, 0, 0, 0, 0, 0, 0, 0, 0, 0, 0, 0, 0]

  const FRESH: Line := Line(INVALID, {}, None, NO_READS)

  // A line and whether the access was reported as a hit.
  datatype Outcome = Outcome(line: Line, hit: bool)

  predicate WellFormed(n: nat, l: Line) {
    && |l.counts| == MAX_PROCESSORS
    && (forall q :: q in l.sharers ==> q < n)
    && (forall q :: 0 <= q < MAX_PROCESSORS ==> l.counts[q] <= 3)
  }

  predicate Qualified(l: Line, q: Pid)
    requires |l.counts| == MAX_PROCESSORS
  {
    l.counts[q] >= 2
  }

  function CountRead(counts: seq<nat>, p: Pid): seq<nat>
    requires |counts| == MAX_PROCESSORS
  {
    if counts[p] < 3 then counts[p := counts[p] + 1] else counts
  }

  function ReadLine(l: Line, p: Pid): Outcome
    requires |l.counts| == MAX_PROCESSORS
  {
    if l.state != INVALID && p in l.sharers then
      Outcome(l, true)
    else
      Outcome(l.(state := SHARED, sharers := l.sharers + {p}, counts := CountRead(l.counts, p)), false)
  }

  /** An eviction. With the detector on, only the last writer gives up MODIFIED. */
  function InvalidateLine(detector: bool, l: Line, p: Pid): Line {
    var claimed := p in l.sharers && l.state == MODIFIED;
    var ownership := if detector then l.lastWriter == Some(p) && claimed else claimed;
    var state := if ownership then (if detector then SHARED else INVALID) else l.state;
    var sharers := l.sharers - {p};
    l.(sharers := sharers, state := if sharers == {} then INVALID else state)
  }

  function PushTargets(n: nat, l: Line, p: Pid): set<Pid>
    requires |l.counts| == MAX_PROCESSORS
  {
    set q: Pid | q < MAX_PROCESSORS && q < n && q != p && Qualified(l, q)
  }

  function WriteLine(n: nat, detector: bool, l: Line, p: Pid): Outcome
    requires |l.counts| == MAX_PROCESSORS
  {
    if l.state == INVALID then
      Outcome(Line(MODIFIED, l.sharers + {p}, Some(p), NO_READS), false)
    else if !detector then
      Outcome(l.(state := MODIFIED, sharers := {p}), p in l.sharers)
    else if l.lastWriter == Some(p) then
      Outcome(l.(state := MODIFIED, sharers := {p} + PushTargets(n, l, p)), p in l.sharers)
    else
      Outcome(Line(MODIFIED, {p}, Some(p), NO_READS), true)
  }

  function Step(n: nat, detector: bool, l: Line, e: Event): Outcome
    requires |l.counts| == MAX_PROCESSORS
  {
    match e
    case Read(p) => ReadLine(l, p)
    case Write(p) => WriteLine(n, detector, l, p)
    case Invalidate(p) => Outcome(InvalidateLine(detector, l, p), false)
  }

  predicate ByProcessors(n: nat, tr: seq<Event>) {
    n <= MAX_PROCESSORS && forall i :: 0 <= i < |tr| ==> tr[i].pid < n
  }

  /** The line after the events of `tr`, in order, starting from a fresh directory entry. */
  function Run(n: nat, detector: bool, tr: seq<Event>): (l: Line)
    requires ByProcessors(n, tr)
    ensures WellFormed(n, l)
  {
    if tr == [] then FRESH
    else Step(n, detector, Run(n, detector, tr[..|tr| - 1]), tr[|tr| - 1]).line
  }

  /** Whether event e, happening right after `tr`, is reported as a hit. */
  predicate ReportedHit(n: nat, detector: bool, tr: seq<Event>, e: Event)
    requires ByProcessors(n, tr)
  {
    Step(n, detector, Run(n, detector, tr), e).hit
  }

  lemma RunSnoc(n: nat, detector: bool, tr: seq<Event>, e: Event)
    requires ByProcessors(n, tr + [e])
    ensures ByProcessors(n, tr)
    ensures Run(n, detector, tr + [e]) == Step(n, detector, Run(n, detector, tr), e).line
  {
    assert forall i :: 0 <= i < |tr| ==> tr[i] == (tr + [e])[i];
    assert (tr + [e])[..|tr + [e]| - 1] == tr;
  }

  // ---------------------------------------------------------------- plain MSI (detector off)

  ghost predicate PlainSafe(l: Line) {
    && (l.state == INVALID <==> l.sharers == {})
    && (l.state == MODIFIED ==> exists p :: l.sharers == {p})
  }

  /** In every run a line is INVALID exactly when nobody shares it, and a MODIFIED line has a single
      sharer, so looking up its owner never fails. */
  lemma {:induction false} PlainSafety(n: nat, tr: seq<Event>)
    requires ByProcessors(n, tr)
    ensures PlainSafe(Run(n, false, tr))
  {
    if tr != [] {
      var l := Run(n, false, tr[..|tr| - 1]);
      PlainSafety(n, tr[..|tr| - 1]);
      match tr[|tr| - 1]
      case Read(p) =>
        assert p in ReadLine(l, p).line.sharers;
      case Write(p) =>
        assert WriteLine(n, false, l, p).line.sharers == {p};
      case Invalidate(p) =>
        if l.state == MODIFIED {
          var q :| l.sharers == {q};
        }
    }
  }

  /** Evicting the owner's copy invalidates the line; other evictions of a MODIFIED line change nothing. */
  lemma PlainEviction(n: nat, tr: seq<Event>, p: Pid)
    requires ByProcessors(n, tr) && ByProcessors(n, tr + [Invalidate(p)]) && Run(n, false, tr).state == MODIFIED
    ensures var l, after := Run(n, false, tr), Run(n, false, tr + [Invalidate(p)]);
            after == if p in l.sharers then l.(state := INVALID, sharers := {}) else l
  {
    PlainSafety(n, tr);
    RunSnoc(n, false, tr, Invalidate(p));
    var l := Run(n, false, tr);
    var owner :| l.sharers == {owner};
    assert l.sharers - {p} == if p == owner then {} else l.sharers;
  }

  predicate AccessBy(e: Event, p: Pid) {
    (e.Read? || e.Write?) && e.pid == p
  }

  predicate TakesCopyFrom(e: Event, p: Pid) {
    (e.Write? && e.pid != p) || e == Invalidate(p)
  }

  /** p accessed the address and since then no other processor wrote it and p did not evict it. */
  ghost predicate HoldsCopy(tr: seq<Event>, p: Pid) {
    exists i :: 0 <= i < |tr| && AccessBy(tr[i], p) && forall j :: i < j < |tr| ==> !TakesCopyFrom(tr[j], p)
  }

  lemma HoldsCopySnoc(tr: seq<Event>, e: Event, p: Pid)
    ensures HoldsCopy(tr + [e], p) <==> AccessBy(e, p) || (HoldsCopy(tr, p) && !TakesCopyFrom(e, p))
  {
    var tr' := tr + [e];
    assert forall i :: 0 <= i < |tr| ==> tr'[i] == tr[i];
    assert tr'[|tr|] == e;
    if AccessBy(e, p) {
      assert 0 <= |tr| < |tr'| && AccessBy(tr'[|tr|], p);
    } else if HoldsCopy(tr, p) && !TakesCopyFrom(e, p) {
      var i :| 0 <= i < |tr| && AccessBy(tr[i], p) && forall j :: i < j < |tr| ==> !TakesCopyFrom(tr[j], p);
      assert AccessBy(tr'[i], p) && forall j :: i < j < |tr'| ==> !TakesCopyFrom(tr'[j], p);
    }
    if HoldsCopy(tr', p) && !AccessBy(e, p) {
      var i :| 0 <= i < |tr'| && AccessBy(tr'[i], p) && forall j :: i < j < |tr'| ==> !TakesCopyFrom(tr'[j], p);
      assert i < |tr| && AccessBy(tr[i], p);
      assert !TakesCopyFrom(tr'[|tr|], p);
      forall j | i < j < |tr| ensures !TakesCopyFrom(tr[j], p) {
        assert tr'[j] == tr[j];
      }
    }
  }

  /** The sharer bits mean what they should: p is recorded exactly when p still holds a copy. */
  lemma {:induction false} SharersHoldCopies(n: nat, tr: seq<Event>, p: Pid)
    requires ByProcessors(n, tr)
    ensures p in Run(n, false, tr).sharers <==> HoldsCopy(tr, p)
  {
    if tr != [] {
      var tr0, e := tr[..|tr| - 1], tr[|tr| - 1];
      SharersHoldCopies(n, tr0, p);
      PlainSafety(n, tr0);
      assert tr == tr0 + [e];
      HoldsCopySnoc(tr0, e, p);
    }
  }

  /** Over any run of the plain protocol, an access is reported as a hit iff the processor has
      accessed the address after every other processor's last write and after its own last eviction. */
  lemma {:induction false} HitIffHoldsCopy(n: nat, tr: seq<Event>, e: Event)
    requires ByProcessors(n, tr) && !e.Invalidate?
    ensures ReportedHit(n, false, tr, e) <==> HoldsCopy(tr, e.pid)
  {
    SharersHoldCopies(n, tr, e.pid);
    PlainSafety(n, tr);
  }

  // ------------------------------------------------------- adaptive protocol (detector on)

  ghost predicate AdaptiveSafe(l: Line)
    requires |l.counts| == MAX_PROCESSORS
  {
    && (l.state == INVALID <==> l.sharers == {})
    && (l.state == MODIFIED ==>
          && l.lastWriter.Some?
          && l.lastWriter.value in l.sharers
          && forall q :: q in l.sharers && q != l.lastWriter.value ==> Qualified(l, q))
  }

  /** In every run a MODIFIED line is held by its last writer, and by no one else but readers that
      missed at least twice since that writer took over. */
  lemma {:induction false} AdaptiveSafety(n: nat, tr: seq<Event>)
    requires ByProcessors(n, tr)
    ensures AdaptiveSafe(Run(n, true, tr))
  {
    if tr != [] {
      var l := Run(n, true, tr[..|tr| - 1]);
      AdaptiveSafety(n, tr[..|tr| - 1]);
      match tr[|tr| - 1]
      case Read(p) =>
        assert p in ReadLine(l, p).line.sharers;
      case Write(p) =>
        assert p in WriteLine(n, true, l, p).line.sharers;
      case Invalidate(p) =>
        assert forall q :: q in InvalidateLine(true, l, p).sharers ==> q in l.sharers;
    }
  }

  /** An eviction takes a line out of MODIFIED iff it strikes the last writer's copy, and then the remaining
      sharers keep the line SHARED. */
  lemma AdaptiveEviction(n: nat, tr: seq<Event>, p: Pid)
    requires ByProcessors(n, tr) && ByProcessors(n, tr + [Invalidate(p)]) && Run(n, true, tr).state == MODIFIED
    ensures var l, after := Run(n, true, tr), Run(n, true, tr + [Invalidate(p)]);
            && after == l.(sharers := l.sharers - {p}, state := after.state)
            && after.state == if l.lastWriter != Some(p) then MODIFIED else if l.sharers == {p} then INVALID else SHARED
  {
    AdaptiveSafety(n, tr);
    RunSnoc(n, true, tr, Invalidate(p));
    var l := Run(n, true, tr);
    assert l.lastWriter != Some(p) ==> l.lastWriter.value in l.sharers - {p};
    assert l.sharers - {p} == {} && p in l.sharers ==> l.sharers == {p};
  }

  /** The event makes its processor the last writer, which clears the reader counts. */
  predicate ChangesWriter(l: Line, e: Event) {
    e.Write? && (l.state == INVALID || l.lastWriter != Some(e.pid))
  }

  predicate ReadMiss(n: nat, tr: seq<Event>, i: nat, p: Pid)
    requires ByProcessors(n, tr) && i < |tr|
  {
    tr[i] == Read(p) && !ReportedHit(n, true, tr[..i], tr[i])
  }

  predicate WriterChangedAt(n: nat, tr: seq<Event>, i: nat)
    requires ByProcessors(n, tr) && i < |tr|
  {
    ChangesWriter(Run(n, true, tr[..i]), tr[i])
  }

  /** How many reads by p missed among the events from..|tr|. */
  function ReadMisses(n: nat, tr: seq<Event>, from: nat, p: Pid): nat
    requires ByProcessors(n, tr) && from <= |tr|
    decreases |tr| - from
  {
    if from == |tr| then 0
    else (if ReadMiss(n, tr, from, p) then 1 else 0) + ReadMisses(n, tr, from + 1, p)
  }

  lemma {:induction false} ReadMissesSnoc(n: nat, tr: seq<Event>, e: Event, from: nat, p: Pid)
    requires ByProcessors(n, tr + [e]) && from <= |tr|
    ensures ByProcessors(n, tr)
    ensures ReadMisses(n, tr + [e], from, p)
            == ReadMisses(n, tr, from, p) + (if ReadMiss(n, tr + [e], |tr|, p) then 1 else 0)
    decreases |tr| - from
  {
    assert forall i :: 0 <= i < |tr| ==> tr[i] == (tr + [e])[i];
    if from < |tr| {
      assert (tr + [e])[..from] == tr[..from];
      ReadMissesSnoc(n, tr, e, from + 1, p);
    } else {
      assert ReadMisses(n, tr + [e], from + 1, p) == 0;
    }
  }

  /** The window since the last writer took over: nothing changes the writer in it, and it starts at
      the beginning of the run or right after a change. */
  ghost predicate SinceWriterChange(n: nat, tr: seq<Event>, from: nat)
    requires ByProcessors(n, tr)
  {
    && from <= |tr|
    && (from > 0 ==> WriterChangedAt(n, tr, from - 1))
    && forall i :: from <= i < |tr| ==> !WriterChangedAt(n, tr, i)
  }

  lemma WindowOfPrefix(n: nat, tr: seq<Event>, e: Event, from: nat)
    requires ByProcessors(n, tr + [e]) && SinceWriterChange(n, tr + [e], from) && from <= |tr|
    ensures ByProcessors(n, tr) && SinceWriterChange(n, tr, from)
  {
    assert forall i :: 0 <= i < |tr| ==> (tr + [e])[..i] == tr[..i] && (tr + [e])[i] == tr[i];
    assert forall i :: 0 <= i < |tr| ==> WriterChangedAt(n, tr + [e], i) == WriterChangedAt(n, tr, i);
  }

  /** Every 2-bit lane is that reader's read misses since the last change of writer, capped at 3. */
  lemma {:induction false} LaneCountsReadMisses(n: nat, tr: seq<Event>, from: nat, p: Pid)
    requires ByProcessors(n, tr) && SinceWriterChange(n, tr, from)
    ensures Run(n, true, tr).counts[p] == if ReadMisses(n, tr, from, p) < 3 then ReadMisses(n, tr, from, p) else 3
    decreases |tr|
  {
    if tr != [] {
      var tr0, e := tr[..|tr| - 1], tr[|tr| - 1];
      assert tr == tr0 + [e] && tr[..|tr0|] == tr0;
      if from == |tr| {
        assert WriterChangedAt(n, tr, |tr0|);
      } else {
        WindowOfPrefix(n, tr0, e, from);
        LaneCountsReadMisses(n, tr0, from, p);
        ReadMissesSnoc(n, tr0, e, from, p);
        assert !WriterChangedAt(n, tr, |tr0|);
      }
    }
  }

  /** What a qualified reader q needs: only its writer writes, and q is not evicted. */
  predicate Undisturbed(sfx: seq<Event>, w: Pid, q: Pid) {
    forall i :: 0 <= i < |sfx| ==> (sfx[i].Write? ==> sfx[i].pid == w) && sfx[i] != Invalidate(q)
  }

  lemma ConsumerKept(n: nat, l: Line, w: Pid, q: Pid, e: Event)
    requires WellFormed(n, l) && e.pid < n && q < n && q != w
    requires l.state != INVALID && l.lastWriter == Some(w) && Qualified(l, q) && q in l.sharers
    requires (e.Write? ==> e.pid == w) && e != Invalidate(q)
    ensures var l' := Step(n, true, l, e).line;
            && |l'.counts| == MAX_PROCESSORS
            && l'.state != INVALID && l'.lastWriter == Some(w) && Qualified(l', q) && q in l'.sharers
  {
    if e.Invalidate? {
      assert q in InvalidateLine(true, l, e.pid).sharers;
    }
  }

  /** The purpose of the protocol: once q has qualified as a reader of w's line, a write by w keeps
      q's copy, and q keeps hitting however often w writes, whoever else reads or is evicted. */
  lemma {:induction false} ConsumersKeepHitting(n: nat, tr: seq<Event>, w: Pid, q: Pid, sfx: seq<Event>)
    requires ByProcessors(n, tr) && ByProcessors(n, sfx) && w < n && q < n && q != w
    requires var l := Run(n, true, tr); l.state != INVALID && l.lastWriter == Some(w) && Qualified(l, q)
    requires Undisturbed(sfx, w, q)
    ensures ByProcessors(n, tr + [Write(w)] + sfx)
    ensures var l := Run(n, true, tr + [Write(w)] + sfx);
            && l.state != INVALID && l.lastWriter == Some(w) && Qualified(l, q) && q in l.sharers
    ensures ReportedHit(n, true, tr + [Write(w)] + sfx, Read(q))
    decreases |sfx|
  {
    if sfx == [] {
      assert tr + [Write(w)] + sfx == tr + [Write(w)];
      RunSnoc(n, true, tr, Write(w));
    } else {
      var s0, e := sfx[..|sfx| - 1], sfx[|sfx| - 1];
      assert sfx == s0 + [e];
      ConsumersKeepHitting(n, tr, w, q, s0);
      var all := tr + [Write(w)] + s0;
      assert tr + [Write(w)] + sfx == all + [e];
      assert sfx[|sfx| - 1] == e && e != Invalidate(q);
      RunSnoc(n, true, all, e);
      ConsumerKept(n, Run(n, true, all), w, q, e);
    }
  }

  /** Under the plain protocol the same write costs every consumer its copy. */
  lemma {:induction false} PlainConsumersMiss(n: nat, tr: seq<Event>, w: Pid, q: Pid)
    requires ByProcessors(n, tr) && w < n && q < n && q != w
    ensures ByProcessors(n, tr + [Write(w)]) && !ReportedHit(n, false, tr + [Write(w)], Read(q))
  {
    HitIffHoldsCopy(n, tr + [Write(w)], Read(q));
    HoldsCopySnoc(tr, Write(w), q);
  }

  /** With the detector on, a store is not always a hit exactly when the writer holds the line: a new
      writer is entered among the sharers before the line is looked up, so its store to a valid line
      is reported as a hit. The report is right iff the line is INVALID, or the writer is the last
      one, or the writer does share the line. */
  lemma {:induction false} AdaptiveStoreReport(n: nat, tr: seq<Event>, p: Pid)
    requires ByProcessors(n, tr) && p < n
    ensures var l := Run(n, true, tr);
            (ReportedHit(n, true, tr, Write(p)) <==> p in l.sharers) <==>
            (l.state == INVALID || l.lastWriter == Some(p) || p in l.sharers)
  {
    AdaptiveSafety(n, tr);
  }

  /** A first-ever access by processor 1, reported as a hit. */
  lemma AdaptiveStoreHitWithoutCopy()
    ensures ByProcessors(2, [Write(0)])
    ensures 1 !in Run(2, true, [Write(0)]).sharers && ReportedHit(2, true, [Write(0)], Write(1))
  {
  }
}
