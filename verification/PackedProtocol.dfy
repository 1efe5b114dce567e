/** The protocol run on packed words instead of sets and counters: bit tests, bit updates and counter
    arithmetic in the order the handlers make them. Every run on words stands for the run on lines. */
module PackedProtocol {
  import opened Protocol
  import opened PackedWords
  import opened DirectoryWords

  function Enter(w: Words, p: Pid): Words {
    w.(sharerVector := SetBit(w.sharerVector, p))
  }

  function Leave(w: Words, p: Pid): Words {
    w.(sharerVector := ClearBit(w.sharerVector, p))
  }

  function CountMiss(w: Words, p: Pid): Words {
    w.(readCountVector := IncreaseReadCount(w.readCountVector, p))
  }

  function UpdateLastWriter(w: Words, p: Pid): Words {
    Enter(w.(lastWriter := p), p).(readCountVector := 0)
  }

  predicate Holds(w: Words, p: Pid) {
    IsSet(w.sharerVector, p)
  }

  predicate Unshared(w: Words) {
    w.sharerVector == 0
  }

  predicate IsLastWriter(w: Words, p: Pid) {
    w.lastWriter == p
  }

  lemma EnterView(w: Words, p: Pid)
    requires Packed(w)
    ensures Packed(Enter(w, p)) && View(Enter(w, p)) == View(w).(sharers := View(w).sharers + {p})
  {
    SetSharer(w.sharerVector, p);
  }

  lemma LeaveView(w: Words, p: Pid)
    requires Packed(w)
    ensures Packed(Leave(w, p)) && View(Leave(w, p)) == View(w).(sharers := View(w).sharers - {p})
  {
    ClearSharer(w.sharerVector, p);
  }

  lemma ClearedView(w: Words)
    requires Packed(w)
    ensures Packed(w.(sharerVector := 0)) && View(w.(sharerVector := 0)) == View(w).(sharers := {})
  {
    NoSharers(0);
  }

  lemma CountMissView(w: Words, p: Pid)
    requires Packed(w)
    ensures Packed(CountMiss(w, p)) && View(CountMiss(w, p)) == View(w).(counts := CountRead(View(w).counts, p))
  {
    CountersFit(w.readCountVector, p, MAX_PROCESSORS);
    CountsIncrease(w.readCountVector, p);
  }

  lemma StateView(w: Words, s: CacheState)
    requires Packed(w)
    ensures Packed(w.(state := s)) && View(w.(state := s)) == View(w).(state := s)
  {
  }

  lemma UpdateLastWriterView(w: Words, p: Pid)
    requires Packed(w)
    ensures Packed(UpdateLastWriter(w, p))
    ensures View(UpdateLastWriter(w, p)) == Line(w.state, View(w).sharers + {p}, Some(p), NO_READS)
  {
    var w1 := w.(lastWriter := p);
    assert View(w1).sharers == View(w).sharers;
    EnterView(w1, p);
    CountsZero();
  }

  lemma TestsView(w: Words, p: Pid)
    requires Packed(w)
    ensures Holds(w, p) <==> p in View(w).sharers
    ensures Unshared(w) <==> View(w).sharers == {}
    ensures IsLastWriter(w, p) <==> View(w).lastWriter == Some(p)
    ensures QualifiedReader(w.readCountVector, p) <==> Qualified(View(w), p)
  {
    NoSharers(w.sharerVector);
    QualifiedIsTwoReads(w.readCountVector, p);
    assert Counts(w.readCountVector)[p] == Lane(w.readCountVector, p);
  }

  datatype PackedOutcome = PackedOutcome(words: Words, hit: bool)

  function FetchWords(w: Words, p: Pid): PackedOutcome {
    if Holds(w, p) then PackedOutcome(w, true) else PackedOutcome(Enter(w, p).(state := SHARED), false)
  }

  function FetchAndInvalidateWords(w: Words, p: Pid): PackedOutcome {
    var f := FetchWords(w, p);
    PackedOutcome(Enter(f.words.(sharerVector := 0), p).(state := MODIFIED), f.hit)
  }

  function ReadWords(w: Words, p: Pid): PackedOutcome {
    var f := if w.state == INVALID then PackedOutcome(Enter(w.(state := SHARED), p), false) else FetchWords(w, p);
    if f.hit then f else PackedOutcome(CountMiss(f.words, p), false)
  }

  function InvalidateWords(detector: bool, w: Words, p: Pid): Words {
    var claimed := Holds(w, p) && w.state == MODIFIED;
    var ownership := if detector then IsLastWriter(w, p) && claimed else claimed;
    var w1 := if ownership then w.(state := if detector then SHARED else INVALID) else w;
    Drop(w1, p)
  }

  function Drop(w: Words, p: Pid): Words {
    var w1 := Leave(w, p);
    if Unshared(w1) then w1.(state := INVALID) else w1
  }

  /** One turn of the push loop. */
  function PushTurn(w: Words, i: Pid): Words {
    if QualifiedReader(w.readCountVector, i) then (if Holds(w, i) then w else Enter(w, i))
    else if Holds(w, i) then Leave(w, i) else w
  }

  /** The push loop from processor i on. */
  function PushWords(n: nat, w: Words, p: Pid, i: nat): Words
    requires n <= MAX_PROCESSORS
    decreases n - i
  {
    if i >= n then w
    else if i == p then PushWords(n, w, p, i + 1)
    else PushWords(n, PushTurn(w, i), p, i + 1)
  }

  /** The counters a new writer takes down on its way, from processor i on. */
  function DecreaseWords(n: nat, w: Words, p: Pid, i: nat): (r: Words)
    requires n <= MAX_PROCESSORS
    ensures Packed(w) ==> Packed(r)
    ensures r == w.(readCountVector := r.readCountVector)
    decreases n - i
  {
    if i >= n then w
    else if i != p && QualifiedReader(w.readCountVector, i) then
      DecreaseWords(n, w.(readCountVector := DecreaseReadCount(w.readCountVector, i)), p, i + 1)
    else DecreaseWords(n, w, p, i + 1)
  }

  function WriteWords(n: nat, detector: bool, w: Words, p: Pid): PackedOutcome
    requires n <= MAX_PROCESSORS
  {
    if w.state == INVALID then
      PackedOutcome(Enter(UpdateLastWriter(w, p).(state := MODIFIED), p), false)
    else if !detector then
      FetchAndInvalidateWords(w, p)
    else if IsLastWriter(w, p) then
      var held := if Holds(w, p) then w else Enter(w, p);
      PackedOutcome(PushWords(n, held, p, 0).(state := MODIFIED), Holds(w, p))
    else
      FetchAndInvalidateWords(UpdateLastWriter(DecreaseWords(n, w, p, 0), p), p)
  }

  lemma FetchStands(w: Words, p: Pid)
    requires Packed(w)
    ensures var f := FetchWords(w, p); var l := View(w);
            && Packed(f.words) && f.hit == (p in l.sharers)
            && View(f.words) == if f.hit then l else l.(state := SHARED, sharers := l.sharers + {p})
  {
    TestsView(w, p);
    EnterView(w, p);
    StateView(Enter(w, p), SHARED);
  }

  lemma FetchAndInvalidateStands(w: Words, p: Pid)
    requires Packed(w)
    ensures var f := FetchAndInvalidateWords(w, p); var l := View(w);
            && Packed(f.words) && f.hit == (p in l.sharers)
            && View(f.words) == l.(state := MODIFIED, sharers := {p})
  {
    FetchStands(w, p);
    var f := FetchWords(w, p).words;
    ClearedView(f);
    EnterView(f.(sharerVector := 0), p);
    StateView(Enter(f.(sharerVector := 0), p), MODIFIED);
  }

  lemma ReadStands(w: Words, p: Pid)
    requires Packed(w) && (w.state == INVALID ==> p !in View(w).sharers)
    ensures var r := ReadWords(w, p);
            Packed(r.words) && Outcome(View(r.words), r.hit) == ReadLine(View(w), p)
  {
    if w.state == INVALID {
      StateView(w, SHARED);
      EnterView(w.(state := SHARED), p);
      CountMissView(Enter(w.(state := SHARED), p), p);
    } else {
      FetchStands(w, p);
      var f := FetchWords(w, p).words;
      CountMissView(f, p);
    }
  }

  lemma InvalidateStands(detector: bool, w: Words, p: Pid)
    requires Packed(w)
    ensures Packed(InvalidateWords(detector, w, p))
            && View(InvalidateWords(detector, w, p)) == InvalidateLine(detector, View(w), p)
  {
    TestsView(w, p);
    var s := if detector then SHARED else INVALID;
    StateView(w, s);
    var claimed := Holds(w, p) && w.state == MODIFIED;
    var ownership := if detector then IsLastWriter(w, p) && claimed else claimed;
    DropStands(if ownership then w.(state := s) else w, p);
  }

  lemma DropStands(w: Words, p: Pid)
    requires Packed(w)
    ensures Packed(Drop(w, p))
    ensures var l := View(w); var sharers := l.sharers - {p};
            View(Drop(w, p)) == l.(sharers := sharers, state := if sharers == {} then INVALID else l.state)
  {
    LeaveView(w, p);
    TestsView(Leave(w, p), p);
    StateView(Leave(w, p), INVALID);
  }

  lemma TurnStands(w: Words, i: Pid)
    requires Packed(w)
    ensures Packed(PushTurn(w, i))
    ensures var l := View(w);
            View(PushTurn(w, i)) == l.(sharers := if Qualified(l, i) then l.sharers + {i} else l.sharers - {i})
  {
    TestsView(w, i);
    if QualifiedReader(w.readCountVector, i) {
      EnterView(w, i);
      if Holds(w, i) {
        assert View(w).sharers == View(w).sharers + {i};
      }
    } else {
      LeaveView(w, i);
      if !Holds(w, i) {
        assert View(w).sharers == View(w).sharers - {i};
      }
    }
  }

  /** The sharers that the turns from i on leave behind. */
  function AfterTurns(n: nat, l: Line, p: Pid, i: nat): set<Pid>
    requires |l.counts| == MAX_PROCESSORS
  {
    set q: Pid | q < MAX_PROCESSORS && (if i <= q < n && q != p then Qualified(l, q) else q in l.sharers)
  }

  lemma {:induction false} PushStands(n: nat, w: Words, p: Pid, i: nat)
    requires n <= MAX_PROCESSORS && Packed(w)
    ensures Packed(PushWords(n, w, p, i))
    ensures View(PushWords(n, w, p, i)) == View(w).(sharers := AfterTurns(n, View(w), p, i))
    decreases n - i
  {
    if i >= n {
      assert View(w).sharers == AfterTurns(n, View(w), p, i);
    } else if i == p {
      PushStands(n, w, p, i + 1);
      assert AfterTurns(n, View(w), p, i) == AfterTurns(n, View(w), p, i + 1);
    } else {
      TurnStands(w, i);
      PushStands(n, PushTurn(w, i), p, i + 1);
      TurnThenRest(n, View(w), p, i);
    }
  }

  lemma TurnThenRest(n: nat, l: Line, p: Pid, i: nat)
    requires |l.counts| == MAX_PROCESSORS && i < n <= MAX_PROCESSORS && i != p
    ensures AfterTurns(n, l.(sharers := if Qualified(l, i) then l.sharers + {i} else l.sharers - {i}), p, i + 1)
         == AfterTurns(n, l, p, i)
  {
  }

  lemma WriteStands(n: nat, detector: bool, w: Words, p: Pid)
    requires n <= MAX_PROCESSORS && Packed(w) && p < n && forall q :: q in View(w).sharers ==> q < n
    ensures var r := WriteWords(n, detector, w, p);
            Packed(r.words) && Outcome(View(r.words), r.hit) == WriteLine(n, detector, View(w), p)
  {
    TestsView(w, p);
    if w.state == INVALID {
      UpdateLastWriterView(w, p);
      StateView(UpdateLastWriter(w, p), MODIFIED);
      EnterView(UpdateLastWriter(w, p).(state := MODIFIED), p);
      assert View(w).sharers + {p} + {p} == View(w).sharers + {p};
    } else if !detector {
      FetchAndInvalidateStands(w, p);
    } else if IsLastWriter(w, p) {
      PushedStands(n, w, p);
    } else {
      var d := DecreaseWords(n, w, p, 0);
      assert View(d).sharers == View(w).sharers;
      UpdateLastWriterView(d, p);
      FetchAndInvalidateStands(UpdateLastWriter(d, p), p);
    }
  }

  lemma PushedStands(n: nat, w: Words, p: Pid)
    requires n <= MAX_PROCESSORS && Packed(w) && p < n && forall q :: q in View(w).sharers ==> q < n
    requires w.state != INVALID && IsLastWriter(w, p)
    ensures var r := WriteWords(n, true, w, p);
            Packed(r.words) && Outcome(View(r.words), r.hit) == WriteLine(n, true, View(w), p)
  {
    TestsView(w, p);
    EnterView(w, p);
    var held := if Holds(w, p) then w else Enter(w, p);
    PushStands(n, held, p, 0);
    var r := PushWords(n, held, p, 0);
    assert View(r).sharers == {p} + PushTargets(n, View(w), p);
    StateView(r, MODIFIED);
  }

  function StepWords(n: nat, detector: bool, w: Words, e: Event): PackedOutcome
    requires n <= MAX_PROCESSORS
  {
    match e
    case Read(p) => ReadWords(w, p)
    case Write(p) => WriteWords(n, detector, w, p)
    case Invalidate(p) => PackedOutcome(InvalidateWords(detector, w, p), false)
  }

  function RunWords(n: nat, detector: bool, tr: seq<Event>): Words
    requires ByProcessors(n, tr)
  {
    if tr == [] then NEW_WORDS
    else StepWords(n, detector, RunWords(n, detector, tr[..|tr| - 1]), tr[|tr| - 1]).words
  }

  /** Fast form against simple form: over every run the packed words stand for the line of the
      protocol, and the same accesses are reported as hits. */
  lemma {:induction false} PackedRunStands(n: nat, detector: bool, tr: seq<Event>, e: Event)
    requires ByProcessors(n, tr) && e.pid < n
    ensures Packed(RunWords(n, detector, tr)) && View(RunWords(n, detector, tr)) == Run(n, detector, tr)
    ensures StepWords(n, detector, RunWords(n, detector, tr), e).hit == ReportedHit(n, detector, tr, e)
    decreases |tr|
  {
    if tr == [] {
      NewWordsAreFresh();
    } else {
      var tr0, e0 := tr[..|tr| - 1], tr[|tr| - 1];
      PackedRunStands(n, detector, tr0, e0);
      StepStands(n, detector, RunWords(n, detector, tr0), tr0, e0);
    }
    StepStands(n, detector, RunWords(n, detector, tr), tr, e);
  }

  lemma StepStands(n: nat, detector: bool, w: Words, tr: seq<Event>, e: Event)
    requires ByProcessors(n, tr) && e.pid < n
    requires Packed(w) && View(w) == Run(n, detector, tr)
    ensures var r := StepWords(n, detector, w, e);
            && Packed(r.words) && View(r.words) == Step(n, detector, Run(n, detector, tr), e).line
            && r.hit == ReportedHit(n, detector, tr, e)
  {
    if detector {
      AdaptiveSafety(n, tr);
    } else {
      PlainSafety(n, tr);
    }
    match e
    case Read(p) => ReadStands(w, p);
    case Write(p) => WriteStands(n, detector, w, p);
    case Invalidate(p) => InvalidateStands(detector, w, p);
  }
}
