/** The simulator's objects: the directory, the cache sets and the controller that ties them together.
    Each handler updates its object step by step, and is proved to take the lines through the protocol's
    steps; a ghost log of the events makes that hold over whole runs, including the evictions that
    re-enter the directory in the middle of a push. */
module Simulator {
  import opened Protocol
  import opened EventLog
  import opened CacheSets
  import opened Columns
  import opened AddressSplit
  import opened Arithmetic

  class Directory {
    const processors: nat
    const detector: bool
    var lines: map<nat, Line>
    // Every event handled so far.
    ghost var log: seq<Entry>
    // The address whose line is being written, while a push is under way.
    ghost var busy: Option<nat>

    ghost predicate Valid()
      reads this
    {
      && 0 < processors <= MAX_PROCESSORS
      && (forall a :: a in lines ==> WellFormed(processors, lines[a]))
      && AllConsistent(processors, detector, lines, log, busy)
    }

    constructor (processors: nat, detector: bool)
      requires 0 < processors <= MAX_PROCESSORS
      ensures Valid() && log == [] && busy == None && this.processors == processors && this.detector == detector
    {
      this.processors := processors;
      this.detector := detector;
      lines := map[];
      log := [];
      busy := None;
    }

    method GetDirectoryLine(addr: nat)
      modifies this`lines
      ensures lines == old(lines)[addr := LineOf(old(lines), addr)]
    {
      if addr !in lines {
        lines := lines[addr := FRESH];
      }
    }

    /** The scan for the owner of a MODIFIED line: it stops at the least sharer, and never runs off
        the end when there is one. */
    method Owner(addr: nat) returns (owner: nat)
      requires processors <= MAX_PROCESSORS && addr in lines && WellFormed(processors, lines[addr])
      requires lines[addr].state == MODIFIED && lines[addr].sharers != {}
      ensures owner < processors && owner in lines[addr].sharers
      ensures forall q: Pid :: q < owner ==> q !in lines[addr].sharers
    {
      ghost var least: Pid :| least in lines[addr].sharers;
      owner := 0;
      while owner < processors && owner !in lines[addr].sharers
        invariant owner <= least
        invariant forall r: Pid :: r < owner ==> r !in lines[addr].sharers
      {
        owner := owner + 1;
      }
      assert owner != processors;
    }

    method Fetch(pid: Pid, addr: nat) returns (hit: bool)
      requires processors <= MAX_PROCESSORS && addr in lines && WellFormed(processors, lines[addr])
      requires lines[addr].state != INVALID && lines[addr].sharers != {}
      modifies this`lines
      ensures var l := old(lines)[addr];
              && hit == (pid in l.sharers)
              && lines == old(lines)[addr := if hit then l else l.(state := SHARED, sharers := l.sharers + {pid})]
    {
      hit := pid in lines[addr].sharers;
      if !hit {
        if lines[addr].state == MODIFIED {
          var owner := Owner(addr);
        }
        lines := lines[addr := lines[addr].(sharers := lines[addr].sharers + {pid})];
        lines := lines[addr := lines[addr].(state := SHARED)];
      }
    }

    method FetchAndInvalidate(pid: Pid, addr: nat) returns (hit: bool)
      requires processors <= MAX_PROCESSORS && addr in lines && WellFormed(processors, lines[addr])
      requires lines[addr].state != INVALID && lines[addr].sharers != {}
      modifies this`lines
      ensures var l := old(lines)[addr];
              && hit == (pid in l.sharers)
              && lines == old(lines)[addr := l.(state := MODIFIED, sharers := {pid})]
    {
      hit := Fetch(pid, addr);
      assert lines[addr].state != INVALID;
      lines := lines[addr := lines[addr].(sharers := {})];
      lines := lines[addr := lines[addr].(sharers := lines[addr].sharers + {pid})];
      assert lines[addr].sharers == {pid};
      lines := lines[addr := lines[addr].(state := MODIFIED)];
      assert lines[addr] == old(lines)[addr].(state := MODIFIED, sharers := {pid});
    }

    method UpdateLastWriter(pid: Pid, addr: nat)
      requires addr in lines
      modifies this`lines
      ensures lines == old(lines)[addr := Line(old(lines)[addr].state, old(lines)[addr].sharers + {pid}, Some(pid),
              NO_READS)]
    {
      lines := lines[addr := lines[addr].(lastWriter := Some(pid))];
      lines := lines[addr := lines[addr].(sharers := lines[addr].sharers + {pid})];
      lines := lines[addr := lines[addr].(counts := NO_READS)];
    }

    /** A processor loses its copy. The log records it unless it strikes the line being pushed. */
    method InvalidateCopy(pid: Pid, addr: nat)
      requires Valid() && pid < processors
      modifies this`lines, this`log
      ensures Valid() && busy == old(busy)
      ensures AfterEviction(detector, pid, addr, busy, old(lines), old(log), lines, log)
    {
      ghost var lines0 := lines;
      InvalidateLineAt(pid, addr);
      if busy != Some(addr) {
        LogStep(processors, detector, lines0, lines, log, Entry(addr, Invalidate(pid)), busy);
        log := log + [Entry(addr, Invalidate(pid))];
      } else {
        KeepOthers(lines0, addr);
      }
    }

    method InvalidateLineAt(pid: Pid, addr: nat)
      modifies this`lines
      ensures lines == old(lines)[addr := InvalidateLine(detector, LineOf(old(lines), addr), pid)]
    {
      GetDirectoryLine(addr);
      var claimed := pid in lines[addr].sharers && lines[addr].state == MODIFIED;
      var ownership := if detector then lines[addr].lastWriter == Some(pid) && claimed else claimed;
      if ownership {
        lines := lines[addr := lines[addr].(state := if detector then SHARED else INVALID)];
      }
      lines := lines[addr := lines[addr].(sharers := lines[addr].sharers - {pid})];
      if lines[addr].sharers == {} {
        lines := lines[addr := lines[addr].(state := INVALID)];
      }
    }

    /** A load. Over the whole run so far, hit is what the protocol reports for the events of addr. */
    method ProcessRead(pid: Pid, addr: nat) returns (hit: bool)
      requires Valid() && busy == None && pid < processors
      modifies this`lines, this`log
      ensures Valid() && busy == None
      ensures log == old(log) + [Entry(addr, Read(pid))]
      ensures ByProcessors(processors, EventsAt(old(log), addr))
      ensures hit == ReportedHit(processors, detector, EventsAt(old(log), addr), Read(pid))
    {
      ghost var lines0 := lines;
      assert Consistent(processors, detector, lines, log, addr);
      SharedWhenValid(processors, detector, lines, log, addr);
      hit := ReadLineAt(pid, addr);
      LogStep(processors, detector, lines0, lines, log, Entry(addr, Read(pid)), busy);
      log := log + [Entry(addr, Read(pid))];
    }

    method ReadLineAt(pid: Pid, addr: nat) returns (hit: bool)
      requires processors <= MAX_PROCESSORS && WellFormed(processors, LineOf(lines, addr))
      requires LineOf(lines, addr).state != INVALID ==> LineOf(lines, addr).sharers != {}
      modifies this`lines
      ensures var o := ReadLine(LineOf(old(lines), addr), pid);
              lines == old(lines)[addr := o.line] && hit == o.hit
    {
      GetDirectoryLine(addr);
      if lines[addr].state == INVALID {
        hit := false;
        lines := lines[addr := lines[addr].(state := SHARED)];
        lines := lines[addr := lines[addr].(sharers := lines[addr].sharers + {pid})];
      } else {
        hit := Fetch(pid, addr);
      }
      if !hit {
        lines := lines[addr := lines[addr].(counts := CountRead(lines[addr].counts, pid))];
      }
    }

    /** A store. Whatever evictions the pushes cause, and whichever lines they strike, the written
        line ends as the protocol says and every other line has only seen those evictions. */
    method ProcessWrite(pid: Pid, addr: nat, controller: Controller) returns (hit: bool, ghost evictions: seq<Entry>)
      requires controller.directory == this && controller.Valid() && controller.Tagged(addr)
      requires busy == None && pid < processors
      modifies this`lines, this`log, this`busy, controller.Column(addr)
      ensures controller.Valid() && busy == None
      ensures controller.StoredInto(detector, old(controller.Ways(addr)), LineOf(old(lines), addr), pid, addr)
      ensures evictions == StoreReports(detector, old(controller.Ways(addr)), LineOf(old(lines), addr), pid,
              controller.Tag(addr), addr)
      ensures log == old(log) + evictions + [Entry(addr, Write(pid))]
      ensures EvictionsElsewhere(evictions, addr)
      ensures ByProcessors(processors, EventsAt(old(log), addr))
      ensures hit == ReportedHit(processors, detector, EventsAt(old(log), addr), Write(pid))
    {
      evictions := StoreReports(detector, controller.Ways(addr), LineOf(lines, addr), pid, controller.Tag(addr), addr);
      ReportsElsewhere(detector, controller.Ways(addr), LineOf(lines, addr), pid, controller.Tag(addr), addr);
      assert Consistent(processors, detector, lines, log, addr);
      controller.OthersAre(pid, addr);
      if detector && LineOf(lines, addr).state != INVALID {
        hit := WriteAndPush(pid, addr, controller);
      } else {
        hit := WriteOnly(pid, addr);
      }
    }

    /** A store that leaves the caches alone: to an INVALID line, or without the detector. */
    method WriteOnly(pid: Pid, addr: nat) returns (hit: bool)
      requires Valid() && busy == None && pid < processors
      requires LineOf(lines, addr).state == INVALID || !detector
      modifies this`lines, this`log
      ensures Valid() && log == old(log) + [Entry(addr, Write(pid))]
      ensures hit == WriteLine(processors, detector, LineOf(old(lines), addr), pid).hit
    {
      ghost var lines0, e := lines, Entry(addr, Write(pid));
      ghost var o := WriteLine(processors, detector, LineOf(lines, addr), pid);
      assert Consistent(processors, detector, lines, log, addr);
      SharedWhenValid(processors, detector, lines, log, addr);
      assert Step(processors, detector, LineOf(lines, addr), e.event) == o;
      hit := WriteLineAt(pid, addr);
      assert lines == lines0[addr := o.line];
      LogStep(processors, detector, lines0, lines, log, e, busy);
      log := log + [e];
    }

    method WriteLineAt(pid: Pid, addr: nat) returns (hit: bool)
      requires processors <= MAX_PROCESSORS && WellFormed(processors, LineOf(lines, addr))
      requires LineOf(lines, addr).state == INVALID || (!detector && LineOf(lines, addr).sharers != {})
      modifies this`lines
      ensures var o := WriteLine(processors, detector, LineOf(old(lines), addr), pid);
              lines == old(lines)[addr := o.line] && hit == o.hit
    {
      if LineOf(lines, addr).state == INVALID {
        hit := false;
        WriteMiss(pid, addr);
      } else {
        GetDirectoryLine(addr);
        hit := FetchAndInvalidate(pid, addr);
      }
    }

    /** A store to a valid line with the detector on: the line is busy while it is pushed. */
    method WriteAndPush(pid: Pid, addr: nat, controller: Controller) returns (hit: bool)
      requires controller.directory == this && controller.Valid() && controller.Tagged(addr) && detector
      requires busy == None && pid < processors && LineOf(lines, addr).state != INVALID
      modifies this`lines, this`log, this`busy, controller.Column(addr)
      ensures controller.Valid() && busy == None
      ensures controller.StoredInto(true, old(controller.Ways(addr)), LineOf(old(lines), addr), pid, addr)
      ensures log
              == old(log)
                 + StoreReports(true, old(controller.Ways(addr)), LineOf(old(lines), addr), pid,
                                controller.Tag(addr), addr)
                 + [Entry(addr, Write(pid))]
      ensures hit == WriteLine(processors, true, LineOf(old(lines), addr), pid).hit
    {
      ghost var log0, e := log, Entry(addr, Write(pid));
      ghost var column, l, tag := controller.Ways(addr), LineOf(lines, addr), controller.Tag(addr);
      assert Consistent(processors, detector, lines, log, addr);
      BeginWrite(addr, controller);
      hit := PushAndInvalidate(pid, addr, controller);
      ghost var evictions := StoreReports(true, column, l, pid, tag, addr);
      ReportsElsewhere(true, column, l, pid, tag, addr);
      controller.OthersAre(pid, addr);
      EndWrite(e, controller, l, log0, evictions);
    }

    /** The line's own event is entered once the line is what the protocol makes of it. */
    ghost method EndWrite(e: Entry, controller: Controller, l: Line, log0: seq<Entry>, evictions: seq<Entry>)
      requires controller.directory == this && controller.Valid() && busy == Some(e.addr) && e.event.pid < processors
      requires ByProcessors(processors, EventsAt(log0, e.addr))
      requires l == Run(processors, detector, EventsAt(log0, e.addr))
      requires log == log0 + evictions && EvictionsElsewhere(evictions, e.addr)
      requires LineOf(lines, e.addr) == Step(processors, detector, l, e.event).line
      modifies this`log, this`busy
      ensures controller.Valid() && busy == None && log == old(log) + [e]
    {
      CompleteWrite(processors, detector, l, log0, lines, log, evictions, e);
      busy := None;
      log := log + [e];
    }

    /** From here to the end of the push the line has no events of its own in the log. */
    method BeginWrite(addr: nat, controller: Controller)
      requires controller.directory == this && controller.Valid() && busy == None
      modifies this`lines, this`busy
      ensures controller.Valid() && busy == Some(addr) && lines == old(lines)[addr := LineOf(old(lines), addr)]
      ensures controller.Ways(addr) == old(controller.Ways(addr))
    {
      controller.OthersAre(0, addr);
      busy := Some(addr);
      GetDirectoryLine(addr);
      KeepOthers(old(lines), addr);
    }

    method WriteMiss(pid: Pid, addr: nat)
      requires LineOf(lines, addr).state == INVALID
      modifies this`lines
      ensures lines == old(lines)[addr := Line(MODIFIED, LineOf(old(lines), addr).sharers + {pid}, Some(pid), NO_READS)]
    {
      GetDirectoryLine(addr);
      UpdateLastWriter(pid, addr);
      assert lines[addr].state == INVALID;
      lines := lines[addr := lines[addr].(state := MODIFIED)];
      lines := lines[addr := lines[addr].(sharers := lines[addr].sharers + {pid})];
    }

    /** Changing the busy line leaves the consistency of the others alone. */
    lemma KeepOthers(lines0: map<nat, Line>, addr: nat)
      requires busy == Some(addr) && addr in lines && lines == lines0[addr := lines[addr]]
      requires AllConsistent(processors, detector, lines0, log, Some(addr))
      ensures AllConsistent(processors, detector, lines, log, Some(addr))
    {
    }

    /** Changes the busy line in place. */
    method SetBusyLine(addr: nat, l: Line)
      requires Valid() && busy == Some(addr) && WellFormed(processors, l)
      modifies this`lines
      ensures Valid() && lines == old(lines)[addr := l]
    {
      lines := lines[addr := l];
      KeepOthers(old(lines), addr);
    }

    /** The store of the adaptive protocol: the last writer pushes the line to its qualified readers
        and drops the others; a new writer takes the line over. */
    method PushAndInvalidate(pid: Pid, addr: nat, controller: Controller)
      returns (hit: bool)
      requires controller.directory == this && controller.Valid() && controller.Tagged(addr) && detector
      requires busy == Some(addr) && addr in lines && lines[addr].state != INVALID && pid < processors
      modifies this`lines, this`log, controller.Column(addr)
      ensures controller.Valid() && busy == Some(addr)
      ensures controller.StoredInto(true, old(controller.Ways(addr)), old(lines)[addr], pid, addr)
      ensures log
              == old(log) + StoreReports(true, old(controller.Ways(addr)), old(lines)[addr], pid,
                                         controller.Tag(addr), addr)
      ensures addr in lines
      ensures WriteLine(processors, detector, old(lines)[addr], pid) == Outcome(lines[addr], hit)
    {
      controller.OthersAre(pid, addr);
      if lines[addr].lastWriter == Some(pid) {
        hit := PushByLastWriter(pid, addr, controller);
      } else {
        hit := TakeOver(pid, addr);
      }
    }

    /** A new writer. The counters it takes down are cleared at once by UpdateLastWriter. */
    method TakeOver(pid: Pid, addr: nat) returns (hit: bool)
      requires Valid() && busy == Some(addr) && addr in lines && lines[addr].state != INVALID && pid < processors
      modifies this`lines
      ensures Valid() && hit && lines == old(lines)[addr := Line(MODIFIED, {pid}, Some(pid), NO_READS)]
    {
      ghost var l := lines[addr];
      var i := 0;
      while i < processors
        invariant i <= processors && addr in lines && WellFormed(processors, lines[addr])
        invariant lines == old(lines)[addr := l.(counts := lines[addr].counts)]
      {
        if i != pid && Qualified(lines[addr], i) {
          lines := lines[addr := lines[addr].(counts := lines[addr].counts[i := lines[addr].counts[i] - 1])];
        }
        i := i + 1;
      }
      UpdateLastWriter(pid, addr);
      assert lines[addr] == Line(l.state, l.sharers + {pid}, Some(pid), NO_READS);
      hit := FetchAndInvalidate(pid, addr);
      assert lines == old(lines)[addr := Line(MODIFIED, {pid}, Some(pid), NO_READS)];
      KeepOthers(old(lines), addr);
    }

    method PushByLastWriter(pid: Pid, addr: nat, controller: Controller) returns (hit: bool)
      requires controller.directory == this && controller.Valid() && controller.Tagged(addr)
      requires busy == Some(addr) && addr in lines && pid < processors
      requires lines[addr].lastWriter == Some(pid) && lines[addr].state != INVALID
      modifies this`lines, this`log, controller.Column(addr)
      ensures controller.Valid() && busy == Some(addr)
      ensures controller.StoredInto(true, old(controller.Ways(addr)), old(lines)[addr], pid, addr)
      ensures log
              == old(log) + StoreReports(true, old(controller.Ways(addr)), old(lines)[addr], pid,
                                         controller.Tag(addr), addr)
      ensures addr in lines && hit == (pid in old(lines)[addr].sharers)
      ensures lines[addr] == Line(MODIFIED, {pid} + PushTargets(processors, old(lines)[addr], pid), Some(pid),
              old(lines)[addr].counts)
    {
      controller.OthersAre(pid, addr);
      hit := HoldAndPush(pid, addr, controller);
      SetBusyLine(addr, lines[addr].(state := MODIFIED));
    }

    /** All of that but the new state. */
    method HoldAndPush(pid: Pid, addr: nat, controller: Controller) returns (hit: bool)
      requires controller.directory == this && controller.Valid() && controller.Tagged(addr)
      requires busy == Some(addr) && addr in lines && pid < processors && Pushes(true, lines[addr], pid)
      modifies this`lines, this`log, controller.Column(addr)
      ensures controller.Valid() && busy == Some(addr)
      ensures controller.StoredInto(true, old(controller.Ways(addr)), old(lines)[addr], pid, addr)
      ensures log
              == old(log) + StoreReports(true, old(controller.Ways(addr)), old(lines)[addr], pid,
                                         controller.Tag(addr), addr)
      ensures addr in lines && hit == (pid in old(lines)[addr].sharers)
      ensures lines[addr].sharers == {pid} + PushTargets(processors, old(lines)[addr], pid)
      ensures lines[addr].lastWriter == Some(pid) && lines[addr].counts == old(lines)[addr].counts
    {
      ghost var l, before := lines[addr], controller.Ways(addr);
      hit := Hold(pid, addr, controller);
      ghost var held := controller.Ways(addr);
      assert held[pid] == ApplyIf(before[pid], controller.StoreAccessTo(l, pid, pid, addr));
      assert forall q: nat :: q < processors && q != pid ==> held[q] == before[q];
      PushToReaders(pid, addr, controller, l);
      PushedAfterHold(old(log), before, held, l, pid, controller.Tag(addr), addr);
    }

    /** Brings the busy line into a cache. Whatever that evicts, the line itself can only lose the
        processor's own copy. */
    method PullIn(pid: Pid, addr: nat, controller: Controller, replace: bool) returns (ghost evictions: seq<Entry>)
      requires controller.directory == this && controller.Valid() && controller.Tagged(addr)
      requires busy == Some(addr) && addr in lines && pid < processors
      modifies this`lines, this`log, controller.SetOf(addr, pid)
      ensures controller.Valid() && busy == Some(addr) && addr in lines
      ensures Brought(old(controller.SetOf(addr, pid).ways), controller.SetOf(addr, pid).ways,
                      controller.AccessTo(addr, replace), pid, busy, evictions)
      ensures forall q: nat :: q < processors && q != pid ==>
                controller.SetOf(addr, q).ways == old(controller.SetOf(addr, q).ways)
      ensures log == old(log) + evictions
      ensures lines[addr].counts == old(lines)[addr].counts && lines[addr].lastWriter == old(lines)[addr].lastWriter
      ensures lines[addr].sharers == old(lines)[addr].sharers || lines[addr].sharers == old(lines)[addr].sharers - {pid}
    {
      controller.OthersAre(pid, addr);
      evictions := controller.FetchCacheLine(pid, addr, replace);
    }

    /** The last writer brings the line back if it has lost it. */
    method Hold(pid: Pid, addr: nat, controller: Controller) returns (hit: bool)
      requires controller.directory == this && controller.Valid() && controller.Tagged(addr)
      requires busy == Some(addr) && addr in lines && pid < processors && Pushes(true, lines[addr], pid)
      modifies this`lines, this`log, controller.SetOf(addr, pid)
      ensures controller.Valid() && busy == Some(addr)
      ensures controller.SetOf(addr, pid).ways
              == ApplyIf(old(controller.SetOf(addr, pid).ways),
                         controller.StoreAccessTo(old(lines)[addr], pid, pid, addr))
      ensures log
              == old(log) + ReportIf(old(controller.SetOf(addr, pid).ways),
                                     controller.StoreAccessTo(old(lines)[addr], pid, pid, addr), pid)
      ensures forall q: nat :: q < processors && q != pid ==>
                controller.SetOf(addr, q).ways == old(controller.SetOf(addr, q).ways)
      ensures addr in lines && hit == (pid in old(lines)[addr].sharers)
      ensures pid in lines[addr].sharers
      ensures lines[addr].counts == old(lines)[addr].counts && lines[addr].lastWriter == old(lines)[addr].lastWriter
    {
      controller.OthersAre(pid, addr);
      hit := pid in lines[addr].sharers;
      if !hit {
        ghost var evictions := PullIn(pid, addr, controller, true);
        assert controller.StoreAccessTo(old(lines)[addr], pid, pid, addr) == Some(controller.AccessTo(addr, true));
        assert controller.SetOf(addr, pid).ways
               == Apply(old(controller.SetOf(addr, pid).ways), controller.AccessTo(addr, true)).ways;
        SetBusyLine(addr, lines[addr].(sharers := lines[addr].sharers + {pid}));
      }
    }

    /** The push loop. `l` is the line when the write began: its counters decide who is pushed to. */
    method PushToReaders(pid: Pid, addr: nat, controller: Controller, ghost l: Line)
      requires controller.directory == this && controller.Valid() && controller.Tagged(addr)
      requires busy == Some(addr) && addr in lines && pid < processors
      requires lines[addr].counts == l.counts && |l.counts| == MAX_PROCESSORS && Pushes(true, l, pid)
      requires pid in lines[addr].sharers
      modifies this`lines, this`log, controller.Column(addr)
      ensures controller.Valid() && busy == Some(addr)
      ensures controller.PushedInto(old(controller.Ways(addr)), l, pid, addr, processors)
      ensures log == PushLog(old(log), old(controller.Ways(addr)), l, pid, controller.Tag(addr), addr, processors)
      ensures addr in lines && lines[addr].counts == l.counts
      ensures lines[addr].lastWriter == old(lines)[addr].lastWriter
      ensures lines[addr].sharers == {pid} + PushTargets(processors, l, pid)
    {
      ghost var log0, writer := log, lines[addr].lastWriter;
      ghost var column, sharers := controller.Ways(addr), lines[addr].sharers;
      var i: nat := 0;
      while i < processors
        invariant i <= processors
        invariant controller.PushedInto(column, l, pid, addr, i)
        invariant log == PushLog(log0, column, l, pid, controller.Tag(addr), addr, i)
        invariant controller.Valid() && busy == Some(addr) && addr in lines
        invariant lines[addr].counts == l.counts && lines[addr].lastWriter == writer
        invariant lines[addr].sharers == SharersUpTo(sharers, l, pid, i)
      {
        PushTurn(i, addr, controller, l, pid, column);
        i := i + 1;
      }
      SharersAreTargets(sharers, l, pid, processors);
    }

    /** One turn of the push loop. */
    method PushTurn(i: Pid, addr: nat, controller: Controller, ghost l: Line, pid: Pid, ghost column: seq<SetWays>)
      requires controller.directory == this && controller.Valid() && controller.Tagged(addr)
      requires busy == Some(addr) && addr in lines && i < processors == |column|
      requires lines[addr].counts == l.counts && |l.counts| == MAX_PROCESSORS && Pushes(true, l, pid)
      requires controller.PushedInto(column, l, pid, addr, i)
      modifies this`lines, this`log, controller.SetOf(addr, i)
      ensures controller.Valid() && busy == Some(addr)
      ensures controller.PushedInto(column, l, pid, addr, i + 1)
      ensures log == old(log) + PushReport(column[i], l, pid, i, controller.Tag(addr), addr)
      ensures addr in lines
      ensures lines[addr].counts == l.counts && lines[addr].lastWriter == old(lines)[addr].lastWriter
      ensures lines[addr].sharers == SharersTurn(old(lines)[addr].sharers, l, pid, i)
    {
      if i != pid {
        PushOne(i, addr, controller, l, pid);
      }
    }

    /** A processor other than the writer: i ends up a sharer iff it qualifies, nobody else's bit changes. */
    method PushOne(i: Pid, addr: nat, controller: Controller, ghost l: Line, ghost pid: Pid)
      requires controller.directory == this && controller.Valid() && controller.Tagged(addr)
      requires busy == Some(addr) && addr in lines && i < processors && i != pid
      requires lines[addr].counts == l.counts && |l.counts| == MAX_PROCESSORS && Pushes(true, l, pid)
      modifies this`lines, this`log, controller.SetOf(addr, i)
      ensures controller.Valid() && busy == Some(addr)
      ensures controller.SetOf(addr, i).ways
              == ApplyIf(old(controller.SetOf(addr, i).ways), controller.StoreAccessTo(l, pid, i, addr))
      ensures log
              == old(log) + ReportIf(old(controller.SetOf(addr, i).ways), controller.StoreAccessTo(l, pid, i, addr), i)
      ensures forall q: nat :: q < processors && q != i ==>
                controller.SetOf(addr, q).ways == old(controller.SetOf(addr, q).ways)
      ensures addr in lines
      ensures lines[addr].counts == l.counts && lines[addr].lastWriter == old(lines)[addr].lastWriter
      ensures lines[addr].sharers == SharersTurn(old(lines)[addr].sharers, l, pid, i)
    {
      controller.OthersAre(i, addr);
      if Qualified(lines[addr], i) {
        ghost var evictions := PullIn(i, addr, controller, false);
        assert controller.StoreAccessTo(l, pid, i, addr) == Some(controller.AccessTo(addr, false));
        assert controller.SetOf(addr, i).ways
               == Apply(old(controller.SetOf(addr, i).ways), controller.AccessTo(addr, false)).ways;
        if i !in lines[addr].sharers {
          SetBusyLine(addr, lines[addr].(sharers := lines[addr].sharers + {i}));
        }
      } else if i in lines[addr].sharers {
        SetBusyLine(addr, lines[addr].(sharers := lines[addr].sharers - {i}));
      }
    }
  }

  class CacheSet {
    var ways: SetWays
    // The accesses made so far that count towards replacement.
    ghost var replacing: nat
    // Nothing has been pushed into this set yet.
    ghost var demandOnly: bool

    ghost predicate Valid()
      reads this
    {
      && SetInv(ways)
      && TotalLru(ways) == replacing
      && (demandOnly ==> DemandCounted(ways))
    }

    constructor (associativity: nat)
      requires associativity > 0
      ensures Valid() && |ways| == associativity && replacing == 0 && demandOnly
    {
      ways := seq(associativity, _ => EMPTY_WAY);
      replacing := 0;
      demandOnly := true;
      new;
      TotalLruEmpty(associativity);
    }

    /** Looks the tag up and counts the access on the way that has it. */
    method Fetch(tag: nat, replace: bool) returns (cached: bool)
      modifies this`ways
      ensures cached == Present(old(ways), tag)
      ensures ways == AfterLookup(old(ways), Access(tag, 0, replace))
    {
      var i := 0;
      while i < |ways|
        invariant i <= |ways| && ways == old(ways)
        invariant forall j :: 0 <= j < i ==> ways[j].tag != tag
      {
        if ways[i].tag == tag {
          assert Find(ways, tag) == i;
          if replace {
            ways := ways[i := ways[i].(lru := ways[i].lru + 1)];
          }
          return ways[i].cached;
        }
        i := i + 1;
      }
      return false;
    }

    /** Chooses the leftmost least-used way, telling the directory if it held a line. */
    method Evict(pid: Pid, directory: Directory) returns (victim: nat)
      requires SetInv(ways) && directory.Valid() && pid < directory.processors
      modifies directory`lines, directory`log
      ensures directory.Valid() && directory.busy == old(directory.busy)
      ensures victim == Victim(ways)
      ensures !ways[victim].cached ==> directory.lines == old(directory.lines) && directory.log == old(directory.log)
      ensures ways[victim].cached ==>
                AfterEviction(directory.detector, pid, EvictedAddress(ways, victim), directory.busy,
                              old(directory.lines), old(directory.log), directory.lines, directory.log)
    {
      var min, evictAddr := ways[0].lru, 0;
      victim := 0;
      var i := 1;
      while i < |ways|
        invariant 1 <= i <= |ways| && victim < i
        invariant min == ways[victim].lru && evictAddr == EvictedAddress(ways, victim)
        invariant forall j :: 0 <= j < i ==> min <= ways[j].lru
        invariant forall j :: 0 <= j < victim ==> min < ways[j].lru
      {
        if ways[i].lru < min {
          victim, evictAddr, min := i, ways[i].addr, ways[i].lru;
        }
        i := i + 1;
      }
      VictimUnique(ways, victim, Victim(ways));
      if ways[victim].cached {
        directory.InvalidateCopy(pid, evictAddr);
      }
    }

    method Fill(index: nat, tag: nat, addr: nat, replace: bool)
      requires index < |ways|
      modifies this`ways
      ensures ways == Install(old(ways), index, Access(tag, addr, replace))
    {
      if replace {
        ways := ways[index := ways[index].(lru := ways[index].lru + 1)];
      }
      ways := ways[index := ways[index].(tag := tag)];
      ways := ways[index := ways[index].(addr := addr)];
      ways := ways[index := ways[index].(cached := true)];
    }

    /** Brings a line in. The set takes the step of CacheSets.Apply and the directory hears of at most
        one eviction. With loads and stores only, that takes a full set. */
    method FetchSingleLine(pid: Pid, tag: nat, addr: nat, directory: Directory, replace: bool)
      returns (ghost evicted: Option<nat>)
      requires Valid() && directory.Valid() && pid < directory.processors && tag != NO_TAG
      modifies this, directory`lines, directory`log
      ensures Valid() && directory.Valid() && directory.busy == old(directory.busy)
      ensures Apply(old(ways), Access(tag, addr, replace)) == Result(ways, evicted)
      ensures replacing == old(replacing) + (if replace then 1 else 0)
      ensures demandOnly == (old(demandOnly) && replace)
      ensures evicted.Some? && demandOnly ==> AllCached(old(ways))
      ensures evicted.None? ==> directory.lines == old(directory.lines) && directory.log == old(directory.log)
      ensures evicted.Some? ==>
                AfterEviction(directory.detector, pid, evicted.value, directory.busy,
                              old(directory.lines), old(directory.log), directory.lines, directory.log)
    {
      ghost var before, access := ways, Access(tag, addr, replace);
      ApplyKeepsInv(before, access);
      ApplyAddsToLru(before, access);
      ApplyDemand(before, access);
      FoundIsCached(before, tag);
      evicted := None;
      var cached := Fetch(tag, replace);
      if !cached {
        assert ways == before;
        var index := Evict(pid, directory);
        if ways[index].cached {
          evicted := Some(EvictedAddress(before, index));
        }
        Fill(index, tag, addr, replace);
      }
      replacing := replacing + (if replace then 1 else 0);
      demandOnly := demandOnly && replace;
    }
  }

  ghost predicate Apart(sets: seq<seq<CacheSet>>, p: nat, i: nat, q: nat, j: nat) {
    p < |sets| && i < |sets[p]| && q < |sets| && j < |sets[q]| && sets[p][i] == sets[q][j] ==> p == q && i == j
  }

  ghost predicate AllDistinct(sets: seq<seq<CacheSet>>, numSets: nat) {
    && (forall p :: 0 <= p < |sets| ==> |sets[p]| == numSets)
    && (forall p: nat, i: nat, q: nat, j: nat {:trigger Apart(sets, p, i, q, j)} :: Apart(sets, p, i, q, j))
  }

  lemma AddRow(sets: seq<seq<CacheSet>>, row: seq<CacheSet>, numSets: nat)
    requires AllDistinct(sets, numSets) && |row| == numSets
    requires forall i, j :: 0 <= i < j < numSets ==> row[i] != row[j]
    requires forall p, i, j :: 0 <= p < |sets| && 0 <= i < numSets && 0 <= j < numSets ==> sets[p][i] != row[j]
    ensures AllDistinct(sets + [row], numSets)
  {
    forall p: nat, i: nat, q: nat, j: nat ensures Apart(sets + [row], p, i, q, j) {
      assert Apart(sets, p, i, q, j);
    }
  }

  class Controller {
    const directory: Directory
    const sets: seq<seq<CacheSet>>
    const offsetBits: nat
    const indexBits: nat

    /** lineSize and numSets are powers of two, as the simulator demands. */
    constructor (processors: nat, numSets: nat, lineSize: nat, associativity: nat, detector: bool, ghost o: nat,
                 ghost s: nat)
      requires 0 < processors <= MAX_PROCESSORS && associativity > 0
      requires lineSize == Pow2(o) && numSets == Pow2(s)
      ensures Valid() && directory.busy == None && directory.log == [] && fresh(directory) && fresh(AllSets())
      ensures directory.processors == processors && directory.detector == detector && offsetBits == o && indexBits == s
      ensures AllDistinct(sets, numSets)
    {
      var coherence := new Directory(processors, detector);
      var offset := GetNumBits(lineSize);
      var index := GetNumBits(numSets);
      Pow2Unique(offset, o);
      Pow2Unique(index, s);
      var cache: seq<seq<CacheSet>> := [];
      while |cache| < processors
        invariant |cache| <= processors
        invariant coherence.Valid() && coherence.busy == None && coherence.log == [] && fresh(coherence)
        invariant forall p :: 0 <= p < |cache| ==> |cache[p]| == numSets
        invariant forall p, i :: 0 <= p < |cache| && 0 <= i < numSets ==> cache[p][i].Valid() && fresh(cache[p][i])
        invariant AllDistinct(cache, numSets)
      {
        var row := NewCache(associativity, numSets);
        AddRow(cache, row, numSets);
        cache := cache + [row];
      }
      directory := coherence;
      sets := cache;
      offsetBits := offset;
      indexBits := index;
    }

    static method NewCache(associativity: nat, numSets: nat) returns (row: seq<CacheSet>)
      requires associativity > 0
      ensures |row| == numSets
      ensures forall i :: 0 <= i < numSets ==> row[i].Valid() && fresh(row[i])
      ensures forall i, j :: 0 <= i < j < numSets ==> row[i] != row[j]
    {
      row := [];
      while |row| < numSets
        invariant |row| <= numSets
        invariant forall i :: 0 <= i < |row| ==> row[i].Valid() && fresh(row[i])
        invariant forall i, j :: 0 <= i < j < |row| ==> row[i] != row[j]
      {
        var cacheSet := new CacheSet(associativity);
        row := row + [cacheSet];
      }
    }

    ghost function AllSets(): set<CacheSet> {
      set p, i | 0 <= p < |sets| && 0 <= i < |sets[p]| :: sets[p][i]
    }

    ghost predicate Shape() {
      && |sets| == directory.processors
      && AllDistinct(sets, Pow2(indexBits))
    }

    ghost predicate Valid()
      reads directory, AllSets()
    {
      Shape() && directory.Valid() && forall s :: s in AllSets() ==> s.Valid()
    }

    /** The address's tag is not the one of an empty way: any address, unless the whole of it is the tag. */
    predicate Tagged(addr: nat) {
      offsetBits + indexBits > 0 || addr != NO_TAG
    }

    lemma TagIsReal(addr: nat)
      requires Tagged(addr)
      ensures TagOf(addr, offsetBits, indexBits) != NO_TAG
    {
      if offsetBits + indexBits > 0 {
        TagIsEven(addr, offsetBits, indexBits);
      } else {
        WholeTag(addr);
      }
    }

    function Tag(addr: nat): nat {
      TagOf(addr, offsetBits, indexBits)
    }

    function AccessTo(addr: nat, replace: bool): Access {
      Access(Tag(addr), addr, replace)
    }

    /** The set of processor pid that an address can be in. */
    function SetOf(addr: nat, pid: nat): CacheSet
      requires Shape() && pid < |sets|
    {
      IndexFits(addr, offsetBits, indexBits);
      sets[pid][IndexOf(addr, offsetBits, indexBits)]
    }

    ghost function Column(addr: nat): set<CacheSet>
      requires Shape()
    {
      set p: nat | p < |sets| :: SetOf(addr, p)
    }

    /** The sets of one address belong to different processors. */
    lemma OwnSets(addr: nat, p: nat, q: nat)
      requires Shape() && p < |sets| && q < |sets| && SetOf(addr, p) == SetOf(addr, q)
      ensures p == q
    {
      IndexFits(addr, offsetBits, indexBits);
      var i := IndexOf(addr, offsetBits, indexBits);
      assert SetOf(addr, p) == sets[p][i] && SetOf(addr, q) == sets[q][i];
      assert Apart(sets, p, i, q, i);
    }

    /** What is in them, by processor. */
    ghost function Ways(addr: nat): (ways: seq<SetWays>)
      requires Shape()
      reads Column(addr)
      ensures |ways| == |sets| && forall p :: 0 <= p < |sets| ==> ways[p] == SetOf(addr, p).ways
    {
      seq(|sets|, p requires 0 <= p < |sets| reads Column(addr) => SetOf(addr, p).ways)
    }

    function StoreAccessTo(l: Line, p: Pid, q: Pid, addr: nat): Option<Access>
      requires |l.counts| == MAX_PROCESSORS
    {
      StoreAccess(true, l, p, q, Tag(addr), addr)
    }

    lemma OthersAre(p: Pid, addr: nat)
      requires Shape() && p < |sets|
      ensures forall q: nat {:trigger SetOf(addr, q)} :: q < |sets| ==>
                allocated(SetOf(addr, q)) && (q != p ==> SetOf(addr, q) != SetOf(addr, p))
    {
      forall q: nat | q < |sets| && q != p ensures SetOf(addr, q) != SetOf(addr, p) {
        if SetOf(addr, q) == SetOf(addr, p) {
          OwnSets(addr, q, p);
        }
      }
    }

    /** The sets after the push loop has visited the processors below n. */
    ghost predicate PushedInto(before: seq<SetWays>, l: Line, p: Pid, addr: nat, n: nat)
      requires Shape() && |before| == |sets| <= MAX_PROCESSORS == |l.counts|
      reads Column(addr)
    {
      forall q: Pid :: q < |sets| ==>
        SetOf(addr, q).ways
        == if q == p || n <= q then before[q] else ApplyIf(before[q], StoreAccessTo(l, p, q, addr))
    }

    /** Every processor's set has taken the access that p's store makes to it, and no other. */
    ghost predicate StoredInto(detector: bool, before: seq<SetWays>, l: Line, p: Pid, addr: nat)
      requires Shape() && |before| == |sets| <= MAX_PROCESSORS == |l.counts|
      reads Column(addr)
    {
      forall q: Pid :: q < |sets| ==>
        SetOf(addr, q).ways == ApplyIf(before[q], StoreAccess(detector, l, p, q, Tag(addr), addr))
    }

    /** Brings the line of addr into processor pid's cache: the set takes one access, no other set is touched,
        and the directory hears of the eviction, if there is one. If that strikes the busy line only pid's
        copy goes. */
    method FetchCacheLine(pid: Pid, addr: nat, replace: bool) returns (ghost evictions: seq<Entry>)
      requires Valid() && pid < directory.processors && Tagged(addr)
      modifies directory`lines, directory`log, SetOf(addr, pid)
      ensures Valid() && directory.busy == old(directory.busy)
      ensures Brought(old(SetOf(addr, pid).ways), SetOf(addr, pid).ways, AccessTo(addr, replace), pid,
                      directory.busy, evictions)
      ensures directory.lines == match Apply(old(SetOf(addr, pid).ways), AccessTo(addr, replace)).evicted
                                 case None => old(directory.lines)
                                 case Some(a) => old(directory.lines)[a :=
                                   InvalidateLine(directory.detector, LineOf(old(directory.lines), a), pid)]
      ensures directory.log == old(directory.log) + evictions
    {
      TagIsReal(addr);
      var cacheSet := SetOf(addr, pid);
      IndexFits(addr, offsetBits, indexBits);
      assert cacheSet == sets[pid][IndexOf(addr, offsetBits, indexBits)] && cacheSet in AllSets();
      ApplyKeepsInv(cacheSet.ways, AccessTo(addr, replace));
      ghost var evicted := cacheSet.FetchSingleLine(pid, Tag(addr), addr, directory, replace);
      evictions := Reported(directory.busy, pid, evicted);
    }

    /** One load: the line is brought in, then the read is handled. */
    method LoadSingleLine(addr: nat, pid: Pid) returns (hit: bool, ghost evictions: seq<Entry>)
      requires Valid() && directory.busy == None && pid < directory.processors && Tagged(addr)
      modifies directory`lines, directory`log, SetOf(addr, pid)
      ensures Valid() && directory.busy == None
      ensures Brought(old(SetOf(addr, pid).ways), SetOf(addr, pid).ways, AccessTo(addr, true), pid, None, evictions)
      ensures directory.log == old(directory.log) + evictions + [Entry(addr, Read(pid))]
      ensures ByProcessors(directory.processors, EventsAt(old(directory.log) + evictions, addr))
      ensures hit == ReportedHit(directory.processors, directory.detector,
              EventsAt(old(directory.log) + evictions, addr), Read(pid))
    {
      evictions := FetchCacheLine(pid, addr, true);
      hit := directory.ProcessRead(pid, addr);
    }

    lemma ColumnInv(addr: nat)
      requires Valid()
      ensures forall q: nat :: q < |sets| ==> SetInv(Ways(addr)[q])
    {
      forall q: nat | q < |sets| ensures SetInv(Ways(addr)[q]) {
        IndexFits(addr, offsetBits, indexBits);
        assert SetOf(addr, q) == sets[q][IndexOf(addr, offsetBits, indexBits)] && SetOf(addr, q) in AllSets();
      }
    }

    /** After a store everyone whom the directory lists as a sharer holds the line. */
    lemma SharersHold(before: seq<SetWays>, log: seq<Entry>, pushed: seq<Entry>, pid: Pid, addr: nat)
      requires Valid() && directory.busy == None && pid < |sets| == |before| && Tagged(addr)
      requires ByProcessors(directory.processors, EventsAt(log, addr)) && EvictionsElsewhere(pushed, addr)
      requires directory.log == log + pushed + [Entry(addr, Write(pid))]
      requires StoredInto(directory.detector, before,
                          Run(directory.processors, directory.detector, EventsAt(log, addr)), pid, addr)
      requires (forall q: nat :: q < |sets| ==> SetInv(before[q])) && Present(before[pid], Tag(addr))
      ensures forall q: Pid :: q in LineOf(directory.lines, addr).sharers ==>
                q < |sets| && Present(SetOf(addr, q).ways, Tag(addr))
    {
      var e := Entry(addr, Write(pid));
      var l := Run(directory.processors, directory.detector, EventsAt(log, addr));
      assert Consistent(directory.processors, directory.detector, directory.lines, directory.log, addr);
      LineAfterStore(directory.processors, directory.detector, directory.lines, log, pushed, e);
      TagIsReal(addr);
      forall q: Pid | q in LineOf(directory.lines, addr).sharers
        ensures q < |sets| && Present(SetOf(addr, q).ways, Tag(addr))
      {
        SharerHolds(directory.processors, directory.detector, before[q], l, pid, q, Tag(addr), addr);
      }
    }

    /** One store: the line is brought in, then the write is handled, which may push it into other sets. */
    method StoreSingleLine(addr: nat, pid: Pid)
          returns (hit: bool, ghost evictions: seq<Entry>, ghost pushed: seq<Entry>)
      requires Valid() && directory.busy == None && pid < directory.processors && Tagged(addr)
      modifies directory`lines, directory`log, directory`busy, Column(addr)
      ensures Valid() && directory.busy == None
      ensures directory.log == old(directory.log) + evictions + pushed + [Entry(addr, Write(pid))]
      ensures ByProcessors(directory.processors, EventsAt(old(directory.log) + evictions, addr))
      ensures var before, own := old(Ways(addr)), AccessTo(addr, true);
              var l := Run(directory.processors, directory.detector, EventsAt(old(directory.log) + evictions, addr));
              var filled := before[pid := Apply(before[pid], own).ways];
              && Present(filled[pid], own.tag) && evictions == Reported(None, pid, Apply(before[pid], own).evicted)
              && StoredInto(directory.detector, filled, l, pid, addr)
              && pushed == StoreReports(directory.detector, filled, l, pid, own.tag, addr)
      ensures EvictionsElsewhere(pushed, addr)
      ensures forall q: Pid :: q in LineOf(directory.lines, addr).sharers ==>
                q < |sets| && Present(SetOf(addr, q).ways, Tag(addr))
      ensures hit == ReportedHit(directory.processors, directory.detector,
              EventsAt(old(directory.log) + evictions, addr), Write(pid))
    {
      ghost var column := Ways(addr);
      OthersAre(pid, addr);
      evictions := FetchCacheLine(pid, addr, true);
      assert forall q: nat :: q < |sets| && q != pid ==> SetOf(addr, q).ways == column[q];
      assert Ways(addr) == column[pid := Apply(column[pid], AccessTo(addr, true)).ways];
      assert Consistent(directory.processors, directory.detector, directory.lines, directory.log, addr);
      ghost var filled, log0 := Ways(addr), directory.log;
      ColumnInv(addr);
      hit, pushed := directory.ProcessWrite(pid, addr, this);
      SharersHold(filled, log0, pushed, pid, addr);
    }
  }
}
