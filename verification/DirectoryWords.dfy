/** A directory line as the simulator packs it: one bit per sharer in a 32-bit word, a 2-bit
    saturating read counter per processor in a 64-bit word, and the last writer's number. Every
    operation on the words is shown to be the operation on the line that the words stand for. */
module DirectoryWords {
  import opened Arithmetic
  import opened Protocol
  import opened PackedWords

  datatype Words = Words(sharerVector: nat, state: CacheState, lastWriter: nat, readCountVector: nat)

  const NEW_WORDS: Words := Words(0, INVALID, 0xFFFF_FFFF, 0)

  function Sharers(v: nat): set<Pid> {
    set p: Pid | p < MAX_PROCESSORS && IsSet(v, p)
  }

  lemma SetSharer(v: nat, p: Pid)
    requires v < Pow2(MAX_PROCESSORS)
    ensures SetBit(v, p) < Pow2(MAX_PROCESSORS) && Sharers(SetBit(v, p)) == Sharers(v) + {p}
  {
    BitsFit(v, p, MAX_PROCESSORS);
    forall q: Pid ensures q in Sharers(SetBit(v, p)) <==> q in Sharers(v) + {p} {
      IsSetAfterSet(v, p, q);
    }
  }

  lemma ClearSharer(v: nat, p: Pid)
    ensures Sharers(ClearBit(v, p)) == Sharers(v) - {p} && ClearBit(v, p) <= v
  {
    forall q: Pid ensures q in Sharers(ClearBit(v, p)) <==> q in Sharers(v) - {p} {
      IsSetAfterClear(v, p, q);
    }
  }

  /** The test of the whole word against zero is the test for having no sharer. */
  lemma NoSharers(v: nat)
    requires v < Pow2(MAX_PROCESSORS)
    ensures v == 0 <==> Sharers(v) == {}
  {
    if v == 0 {
      forall p: Pid ensures p !in Sharers(v) {
        ZeroHasNoBits(p);
      }
    } else if Sharers(v) == {} {
      forall p: nat | p < MAX_PROCESSORS ensures !IsSet(v, p) {
        assert p !in Sharers(v);
      }
      NoBitsIsZero(v, MAX_PROCESSORS);
      assert false;
    }
  }

  function Counts(v: nat): (c: seq<nat>)
    ensures |c| == MAX_PROCESSORS
  {
    seq(MAX_PROCESSORS, p requires 0 <= p < MAX_PROCESSORS => Lane(v, p))
  }

  lemma CountsIncrease(v: nat, p: Pid)
    ensures Counts(IncreaseReadCount(v, p)) == CountRead(Counts(v), p)
  {
    if Lane(v, p) < 3 {
      forall q: Pid ensures Counts(IncreaseReadCount(v, p))[q] == CountRead(Counts(v), p)[q] {
        LaneIncrease(v, p, q);
      }
    }
  }

  lemma CountsZero()
    ensures Counts(0) == NO_READS
  {
    assert forall q: Pid :: NO_READS[q] == 0;
    forall q: Pid ensures Counts(0)[q] == 0 {
      ZeroLane(q);
    }
  }

  // -------------------------------------------------------------------- the line behind the words

  function Writer(w: nat): Option<Pid> {
    if w < MAX_PROCESSORS then Some(w) else None
  }

  /** The words keep to the bits of 15 processors, so nothing in them ever overflows. */
  predicate Packed(w: Words) {
    w.sharerVector < Pow2(MAX_PROCESSORS) && w.readCountVector < Pow4(MAX_PROCESSORS)
  }

  function View(w: Words): (l: Line)
    ensures |l.counts| == MAX_PROCESSORS
  {
    Line(w.state, Sharers(w.sharerVector), Writer(w.lastWriter), Counts(w.readCountVector))
  }

  lemma NewWordsAreFresh()
    ensures Packed(NEW_WORDS) && View(NEW_WORDS) == FRESH
  {
    NoSharers(0);
    CountsZero();
  }
}
