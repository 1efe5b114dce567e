/** The log of the simulator's events, and what it means for the directory's lines to agree with it:
    every line is what the protocol makes of the events of its own address. */
module EventLog {
  import opened Protocol

  datatype Entry = Entry(addr: nat, event: Event)

  /** The events of one address, in order. */
  function EventsAt(log: seq<Entry>, a: nat): seq<Event> {
    if log == [] then []
    else if log[|log| - 1].addr == a then EventsAt(log[..|log| - 1], a) + [log[|log| - 1].event]
    else EventsAt(log[..|log| - 1], a)
  }

  lemma EventsAtSnoc(log: seq<Entry>, e: Entry, a: nat)
    ensures EventsAt(log + [e], a) == if e.addr == a then EventsAt(log, a) + [e.event] else EventsAt(log, a)
  {
  }

  /** Evictions of other addresses leave the events of a alone. */
  lemma {:induction false} EventsAtOthers(log: seq<Entry>, extra: seq<Entry>, a: nat)
    requires forall i :: 0 <= i < |extra| ==> extra[i].addr != a
    ensures EventsAt(log + extra, a) == EventsAt(log, a)
  {
    if extra == [] {
      assert log + extra == log;
    } else {
      var n := |extra| - 1;
      assert log + extra == (log + extra[..n]) + [extra[n]];
      EventsAtOthers(log, extra[..n], a);
      EventsAtSnoc(log + extra[..n], extra[n], a);
    }
  }

  /** The line of an address, whether or not it has an entry yet. */
  function LineOf(lines: map<nat, Line>, a: nat): Line {
    if a in lines then lines[a] else FRESH
  }

  ghost predicate Consistent(processors: nat, detector: bool, lines: map<nat, Line>, log: seq<Entry>, a: nat) {
    && ByProcessors(processors, EventsAt(log, a))
    && LineOf(lines, a) == Run(processors, detector, EventsAt(log, a))
  }

  /** Every line but the busy one is what the protocol makes of that address's events. */
  ghost predicate AllConsistent(processors: nat, detector: bool, lines: map<nat, Line>, log: seq<Entry>,
                                busy: Option<nat>) {
    forall a: nat :: busy != Some(a) ==> Consistent(processors, detector, lines, log, a)
  }

  /** Logging an event together with the protocol's step for it keeps every line consistent. */
  lemma LogStep(processors: nat, detector: bool, lines: map<nat, Line>, lines': map<nat, Line>, log: seq<Entry>,
                e: Entry, busy: Option<nat>)
    requires AllConsistent(processors, detector, lines, log, busy)
    requires Consistent(processors, detector, lines, log, e.addr) && e.event.pid < processors
    requires lines' == lines[e.addr := Step(processors, detector, LineOf(lines, e.addr), e.event).line]
    ensures AllConsistent(processors, detector, lines', log + [e], busy)
    ensures Consistent(processors, detector, lines', log + [e], e.addr)
  {
  }

  /** The write that was under way, seen from the log: its own line takes one step, and the others have
      followed their evictions all along. */
  lemma CompleteWrite(processors: nat, detector: bool, line0: Line, log0: seq<Entry>, lines1: map<nat, Line>,
                      log1: seq<Entry>, evictions: seq<Entry>, e: Entry)
    requires ByProcessors(processors, EventsAt(log0, e.addr))
             && line0 == Run(processors, detector, EventsAt(log0, e.addr))
    requires e.event.pid < processors && log1 == log0 + evictions && EvictionsElsewhere(evictions, e.addr)
    requires AllConsistent(processors, detector, lines1, log1, Some(e.addr))
    requires LineOf(lines1, e.addr) == Step(processors, detector, line0, e.event).line
    ensures AllConsistent(processors, detector, lines1, log1 + [e], None)
  {
    EventsAtOthers(log0, evictions, e.addr);
    assert EventsAt(log1, e.addr) == EventsAt(log0, e.addr);
    forall a: nat ensures Consistent(processors, detector, lines1, log1 + [e], a) {
      if a == e.addr {
        WrittenLine(processors, detector, line0, lines1, log1, e);
      } else {
        assert Consistent(processors, detector, lines1, log1, a);
        EventsAtSnoc(log1, e, a);
      }
    }
  }

  /** The line once a store is through, and the line it found. */
  lemma LineAfterStore(processors: nat, detector: bool, lines: map<nat, Line>, log: seq<Entry>, evictions: seq<Entry>,
                       e: Entry)
    requires ByProcessors(processors, EventsAt(log, e.addr)) && EvictionsElsewhere(evictions, e.addr)
    requires Consistent(processors, detector, lines, log + evictions + [e], e.addr)
    ensures LineOf(lines, e.addr)
            == Step(processors, detector, Run(processors, detector, EventsAt(log, e.addr)), e.event).line
    ensures var l := Run(processors, detector, EventsAt(log, e.addr)); l.state == INVALID ==> l.sharers == {}
  {
    EventsAtOthers(log, evictions, e.addr);
    EventsAtSnoc(log + evictions, e, e.addr);
    if detector {
      AdaptiveSafety(processors, EventsAt(log, e.addr));
    } else {
      PlainSafety(processors, EventsAt(log, e.addr));
    }
  }

  lemma WrittenLine(processors: nat, detector: bool, line0: Line, lines1: map<nat, Line>, log1: seq<Entry>, e: Entry)
    requires ByProcessors(processors, EventsAt(log1, e.addr))
             && line0 == Run(processors, detector, EventsAt(log1, e.addr))
    requires e.event.pid < processors && LineOf(lines1, e.addr) == Step(processors, detector, line0, e.event).line
    ensures Consistent(processors, detector, lines1, log1 + [e], e.addr)
  {
  }

  /** A line that is not INVALID has a sharer, whichever protocol has run. */
  lemma SharedWhenValid(processors: nat, detector: bool, lines: map<nat, Line>, log: seq<Entry>, a: nat)
    requires Consistent(processors, detector, lines, log, a)
    ensures LineOf(lines, a).state != INVALID ==> LineOf(lines, a).sharers != {}
  {
  }

  /** What telling the directory about one eviction does to its lines and its log. */
  ghost predicate AfterEviction(detector: bool, p: Pid, a: nat, busy: Option<nat>,
                                lines: map<nat, Line>, log: seq<Entry>, lines': map<nat, Line>, log': seq<Entry>) {
    && lines' == lines[a := InvalidateLine(detector, LineOf(lines, a), p)]
    && log' == if busy == Some(a) then log else log + [Entry(a, Invalidate(p))]
  }

  predicate EvictionsElsewhere(evictions: seq<Entry>, addr: nat) {
    forall i :: 0 <= i < |evictions| ==> evictions[i].event.Invalidate? && evictions[i].addr != addr
  }
}
