/** The radiosity workers' phases: each worker empties its own task queue, steals from the others, and
    waits at a barrier that keeps polling for work. A step is one lock region or one unlocked look at
    a shared counter; steps of the workers interleave freely. */
module WorkQueues {
  import opened StealScan

  /** A task by its number; what running one does is left to the tasks it creates. */
  type Task = nat

  /** own[w] is the queue of worker w; queues may be shared and there may be more of them. order[w]
      is the order in which worker w looks at the queues. */
  datatype Config = Config(own: seq<nat>, queues: nat, order: seq<seq<nat>>)

  predicate ValidConfig(c: Config) {
    && |c.own| > 0 && |c.order| == |c.own|
    && (forall w :: 0 <= w < |c.own| ==> c.own[w] < c.queues)
    && (forall w :: 0 <= w < |c.own| ==> c.order[w] == ScanOrder(c.own[w], c.queues))
  }

  datatype Pc =
    | Setup                                   // filling queues before process_tasks
    | Scan(counted: bool, visit: nat)         // dequeue_task, about to look at a queue's length
    | Claim(counted: bool, visit: nat)        // saw it positive, about to lock that queue
    | Took(counted: bool, task: Task)         // dequeue_task returned a task
    | Running(task: Task)
    | Arriving                                // found nothing, about to enter the barrier
    | Spinning                                // counted, about to test the barrier counter
    | Waiting                                 // counted, saw the counter too low
    | AtBarrier                               // gone on to the final barrier

  datatype State = State(workers: seq<Pc>, queues: seq<seq<Task>>, pbarCount: int,
                         created: multiset<Task>, done: multiset<Task>)

  datatype Move =
    | Enqueue(queue: nat, task: Task, append: bool)
    | Proceed                                 // the worker's next step
    | Poll                                    // look for work again while waiting
    | Release                                 // the final barrier opens

  predicate ValidState(c: Config, s: State) {
    && |s.workers| == |c.own| && |s.queues| == c.queues
    && (forall w :: 0 <= w < |s.workers| && s.workers[w].Scan? ==> s.workers[w].visit <= c.queues)
    && (forall w :: 0 <= w < |s.workers| && s.workers[w].Claim? ==> s.workers[w].visit < c.queues)
  }

  ghost predicate Init(c: Config, s: State) {
    && ValidState(c, s)
    && (forall w :: 0 <= w < |s.workers| ==> s.workers[w] == Setup)
    && s.pbarCount == 0
    && (forall t :: s.created[t] == Queued(s.queues, t)) && s.done == multiset{}
  }

  predicate AllAtBarrier(s: State) {
    forall w :: 0 <= w < |s.workers| ==> s.workers[w] == AtBarrier
  }

  predicate Enabled(c: Config, s: State, w: nat, m: Move)
    requires ValidConfig(c) && ValidState(c, s)
  {
    && w < |s.workers|
    && match m
       case Enqueue(q, t, append) => q < c.queues && (s.workers[w].Setup? || s.workers[w].Running?)
       case Proceed => !s.workers[w].AtBarrier? && (s.workers[w].Waiting? ==> s.pbarCount >= |s.workers|)
       case Poll => s.workers[w].Waiting?
       case Release => AllAtBarrier(s)
  }

  function At(s: State, w: nat, pc: Pc): State
    requires w < |s.workers|
  {
    s.(workers := s.workers[w := pc])
  }

  /** dequeue_task returned nothing. */
  function Nothing(counted: bool): Pc {
    if counted then Spinning else Arriving
  }

  /** Under the queue's lock: a worker's own queue gives up its top, another's its tail. */
  function DoTake(c: Config, s: State, w: nat, counted: bool, i: nat): State
    requires ValidConfig(c) && ValidState(c, s) && w < |s.workers| && i < c.queues && s.queues[i] != []
  {
    var q := s.queues[i];
    if i == c.own[w] then At(s, w, Took(counted, q[0])).(queues := s.queues[i := q[1..]])
    else At(s, w, Took(counted, q[|q| - 1])).(queues := s.queues[i := q[..|q| - 1]])
  }

  /** The worker is about to lock a queue that still has a task. */
  predicate Takes(c: Config, s: State, w: nat)
    requires ValidConfig(c) && ValidState(c, s) && w < |s.workers|
  {
    s.workers[w].Claim? && s.queues[c.order[w][s.workers[w].visit]] != []
  }

  /** Where a worker goes on to when it does not take a task from a queue. */
  function NextPc(c: Config, s: State, w: nat): Pc
    requires ValidConfig(c) && ValidState(c, s) && w < |s.workers|
  {
    match s.workers[w]
    case Setup => Scan(false, 0)
    case Scan(counted, k) =>
      if k == c.queues then Nothing(counted)
      else if s.queues[c.order[w][k]] != [] then Claim(counted, k)
      else Scan(counted, k + 1)
    case Claim(counted, k) => Nothing(counted)
    case Took(counted, t) => Running(t)
    case Running(t) => Scan(false, 0)
    case Arriving => Spinning
    case Spinning => if s.pbarCount < |s.workers| then Waiting else AtBarrier
    case Waiting => if s.pbarCount >= |s.workers| then AtBarrier else Waiting
    case AtBarrier => AtBarrier
  }

  function NextCount(s: State, w: nat): int
    requires w < |s.workers|
  {
    match s.workers[w]
    case Took(counted, _) => if counted then s.pbarCount - 1 else s.pbarCount
    case Arriving => (if s.pbarCount >= |s.workers| then 0 else s.pbarCount) + 1
    case _ => s.pbarCount
  }

  function NextDone(s: State, w: nat): multiset<Task>
    requires w < |s.workers|
  {
    match s.workers[w]
    case Running(t) => s.done + multiset{t}
    case _ => s.done
  }

  function DoProceed(c: Config, s: State, w: nat): State
    requires ValidConfig(c) && ValidState(c, s) && w < |s.workers|
  {
    if Takes(c, s, w) then DoTake(c, s, w, s.workers[w].counted, c.order[w][s.workers[w].visit])
    else At(s, w, NextPc(c, s, w)).(pbarCount := NextCount(s, w), done := NextDone(s, w))
  }

  function Do(c: Config, s: State, w: nat, m: Move): State
    requires ValidConfig(c) && ValidState(c, s) && Enabled(c, s, w, m)
  {
    match m
    case Enqueue(q, t, append) =>
      s.(queues := s.queues[q := if append then s.queues[q] + [t] else [t] + s.queues[q]],
         created := s.created + multiset{t})
    case Proceed => DoProceed(c, s, w)
    case Poll => At(s, w, Scan(true, 0))
    case Release => s.(workers := seq(|s.workers|, _ => Setup))
  }

  // ------------------------------------------------------------------------- counting workers

  predicate Counted(pc: Pc) {
    match pc
    case Scan(counted, _) => counted
    case Claim(counted, _) => counted
    case Took(counted, _) => counted
    case Spinning => true
    case Waiting => true
    case AtBarrier => true
    case _ => false
  }

  function CountedWorkers(ws: seq<Pc>): (r: nat)
    ensures r <= |ws|
  {
    if ws == [] then 0 else CountedWorkers(ws[..|ws| - 1]) + (if Counted(ws[|ws| - 1]) then 1 else 0)
  }

  lemma {:induction false} CountedUpdate(ws: seq<Pc>, w: nat, pc: Pc)
    requires w < |ws|
    ensures CountedWorkers(ws[w := pc]) + (if Counted(ws[w]) then 1 else 0)
            == CountedWorkers(ws) + (if Counted(pc) then 1 else 0)
  {
    var n := |ws| - 1;
    if w == n {
      assert ws[w := pc][..n] == ws[..n];
    } else {
      assert ws[w := pc][..n] == ws[..n][w := pc];
      CountedUpdate(ws[..n], w, pc);
    }
  }

  lemma {:induction false} NoneCounted(ws: seq<Pc>)
    requires forall w :: 0 <= w < |ws| ==> !Counted(ws[w])
    ensures CountedWorkers(ws) == 0
  {
    if ws != [] {
      NoneCounted(ws[..|ws| - 1]);
    }
  }

  lemma {:induction false} SomeUncounted(ws: seq<Pc>, w: nat)
    requires w < |ws| && !Counted(ws[w])
    ensures CountedWorkers(ws) < |ws|
  {
    if w < |ws| - 1 {
      SomeUncounted(ws[..|ws| - 1], w);
    }
  }

  /** The barrier counter is the number of counted workers, except that a counter left over from the
      previous phase stands until the first worker of this one arrives. */
  predicate CounterOk(s: State) {
    s.pbarCount == CountedWorkers(s.workers) || (CountedWorkers(s.workers) == 0 && s.pbarCount >= |s.workers|)
  }

  // ------------------------------------------------------------------------ where the tasks are

  /** How many copies of t are in the queues. */
  function Queued(qs: seq<seq<Task>>, t: Task): nat {
    if qs == [] then 0 else Queued(qs[..|qs| - 1], t) + multiset(qs[|qs| - 1])[t]
  }

  lemma {:induction false} QueuedUpdate(qs: seq<seq<Task>>, i: nat, q: seq<Task>, t: Task)
    requires i < |qs|
    ensures Queued(qs[i := q], t) + multiset(qs[i])[t] == Queued(qs, t) + multiset(q)[t]
  {
    var n := |qs| - 1;
    if i == n {
      assert qs[i := q][..n] == qs[..n];
    } else {
      assert qs[i := q][..n] == qs[..n][i := q];
      QueuedUpdate(qs[..n], i, q, t);
    }
  }

  predicate HasTask(pc: Pc) {
    pc.Took? || pc.Running?
  }

  function Hand(pc: Pc, t: Task): nat {
    if HasTask(pc) && pc.task == t then 1 else 0
  }

  /** How many copies of t the workers have in hand. */
  function Held(ws: seq<Pc>, t: Task): nat {
    if ws == [] then 0 else Held(ws[..|ws| - 1], t) + Hand(ws[|ws| - 1], t)
  }

  lemma {:induction false} HeldUpdate(ws: seq<Pc>, w: nat, pc: Pc, t: Task)
    requires w < |ws|
    ensures Held(ws[w := pc], t) + Hand(ws[w], t) == Held(ws, t) + Hand(pc, t)
  {
    var n := |ws| - 1;
    if w == n {
      assert ws[w := pc][..n] == ws[..n];
    } else {
      assert ws[w := pc][..n] == ws[..n][w := pc];
      HeldUpdate(ws[..n], w, pc, t);
    }
  }

  lemma {:induction false} EmptyHands(ws: seq<Pc>, t: Task)
    requires forall w :: 0 <= w < |ws| ==> !HasTask(ws[w])
    ensures Held(ws, t) == 0
  {
    if ws != [] {
      EmptyHands(ws[..|ws| - 1], t);
    }
  }

  lemma {:induction false} EmptyQueues(qs: seq<seq<Task>>, t: Task)
    requires forall i :: 0 <= i < |qs| ==> qs[i] == []
    ensures Queued(qs, t) == 0
  {
    if qs != [] {
      EmptyQueues(qs[..|qs| - 1], t);
    }
  }

  /** Every task ever created is finished, in a worker's hands, or in a queue, exactly once. */
  ghost predicate TasksConserved(s: State) {
    forall t :: s.created[t] == s.done[t] + Held(s.workers, t) + Queued(s.queues, t)
  }

  // ------------------------------------------------------------------- who will find the tasks

  /** Worker w will come across queue q, or has work that sends it around again. A worker about to
      lock a queue counts only while that queue is not empty: if it is, it gives up on all others. */
  predicate WillFind(c: Config, s: State, w: nat, q: nat)
    requires ValidConfig(c) && ValidState(c, s) && w < |s.workers| && q < c.queues
  {
    match s.workers[w]
    case Setup => true
    case Took(_, _) => true
    case Running(_) => true
    case Scan(_, k) => q in c.order[w][k..]
    case Claim(_, k) => s.queues[c.order[w][k]] != []
    case _ => false
  }

  ghost predicate Found(c: Config, s: State, q: nat)
    requires ValidConfig(c) && ValidState(c, s) && q < c.queues
  {
    exists w :: 0 <= w < |s.workers| && WillFind(c, s, w, q)
  }

  ghost predicate NothingForgotten(c: Config, s: State)
    requires ValidConfig(c) && ValidState(c, s)
  {
    forall q: nat :: q < c.queues && s.queues[q] != [] ==> Found(c, s, q)
  }

  ghost predicate Inv(c: Config, s: State) {
    && ValidConfig(c) && ValidState(c, s)
    && CounterOk(s) && TasksConserved(s) && NothingForgotten(c, s)
  }

  lemma InitInv(c: Config, s: State)
    requires ValidConfig(c) && Init(c, s)
    ensures Inv(c, s)
  {
    NoneCounted(s.workers);
    forall t ensures Held(s.workers, t) == 0 {
      EmptyHands(s.workers, t);
    }
    forall q: nat | q < c.queues && s.queues[q] != [] ensures Found(c, s, q) {
      assert WillFind(c, s, 0, q);
    }
  }

  lemma CounterStep(c: Config, s: State, w: nat, m: Move)
    requires ValidConfig(c) && ValidState(c, s) && CounterOk(s) && Enabled(c, s, w, m)
    ensures CounterOk(Do(c, s, w, m))
  {
    var s' := Do(c, s, w, m);
    match m
    case Release =>
      NoneCounted(s'.workers);
      AllCounted(s.workers);
    case Enqueue(_, _, _) =>
    case Poll =>
      CountedUpdate(s.workers, w, Scan(true, 0));
    case Proceed => CounterProceed(c, s, w);
  }

  lemma CounterProceed(c: Config, s: State, w: nat)
    requires ValidConfig(c) && ValidState(c, s) && CounterOk(s) && w < |s.workers|
    ensures CounterOk(DoProceed(c, s, w))
  {
    var s' := DoProceed(c, s, w);
    CountedUpdate(s.workers, w, s'.workers[w]);
    assert s'.workers == s.workers[w := s'.workers[w]];
    if !Counted(s.workers[w]) {
      SomeUncounted(s.workers, w);
    }
  }

  lemma {:induction false} AllCounted(ws: seq<Pc>)
    requires forall w :: 0 <= w < |ws| ==> Counted(ws[w])
    ensures CountedWorkers(ws) == |ws|
  {
    if ws != [] {
      AllCounted(ws[..|ws| - 1]);
    }
  }

  lemma TasksStep(c: Config, s: State, w: nat, m: Move)
    requires ValidConfig(c) && ValidState(c, s) && TasksConserved(s) && Enabled(c, s, w, m)
    ensures TasksConserved(Do(c, s, w, m))
  {
    var s' := Do(c, s, w, m);
    forall t ensures s'.created[t] == s'.done[t] + Held(s'.workers, t) + Queued(s'.queues, t) {
      match m
      case Release =>
        EmptyHands(s.workers, t);
        EmptyHands(s'.workers, t);
      case Enqueue(q, task, append) =>
        QueuedUpdate(s.queues, q, s'.queues[q], t);
        OneIn(s.queues[q], task, t);
      case Poll =>
        HeldUpdate(s.workers, w, Scan(true, 0), t);
      case Proceed =>
        TasksProceed(c, s, w, t);
    }
  }

  lemma TasksProceed(c: Config, s: State, w: nat, t: Task)
    requires ValidConfig(c) && ValidState(c, s) && TasksConserved(s) && w < |s.workers|
    ensures var s' := DoProceed(c, s, w);
            s'.created[t] == s'.done[t] + Held(s'.workers, t) + Queued(s'.queues, t)
  {
    if Takes(c, s, w) {
      TasksTake(c, s, w, s.workers[w].counted, c.order[w][s.workers[w].visit], t);
    } else {
      HeldUpdate(s.workers, w, NextPc(c, s, w), t);
    }
  }

  lemma TasksTake(c: Config, s: State, w: nat, counted: bool, i: nat, t: Task)
    requires ValidConfig(c) && ValidState(c, s) && TasksConserved(s) && w < |s.workers|
    requires i < c.queues && s.queues[i] != [] && !HasTask(s.workers[w])
    ensures var s' := DoTake(c, s, w, counted, i);
            s'.created[t] == s'.done[t] + Held(s'.workers, t) + Queued(s'.queues, t)
  {
    var s' := DoTake(c, s, w, counted, i);
    HeldUpdate(s.workers, w, s'.workers[w], t);
    QueuedUpdate(s.queues, i, s'.queues[i], t);
    OneOut(s.queues[i], t);
  }

  lemma OneIn(q: seq<Task>, task: Task, t: Task)
    ensures multiset(q + [task])[t] == multiset(q)[t] + (if task == t then 1 else 0)
    ensures multiset([task] + q)[t] == multiset(q)[t] + (if task == t then 1 else 0)
  {
  }

  lemma OneOut(q: seq<Task>, t: Task)
    requires q != []
    ensures multiset(q)[t] == multiset(q[1..])[t] + (if q[0] == t then 1 else 0)
    ensures multiset(q)[t] == multiset(q[..|q| - 1])[t] + (if q[|q| - 1] == t then 1 else 0)
  {
    assert q == [q[0]] + q[1..];
    assert q == q[..|q| - 1] + [q[|q| - 1]];
    OneIn(q[1..], q[0], t);
    OneIn(q[..|q| - 1], q[|q| - 1], t);
  }

  lemma ValidStep(c: Config, s: State, w: nat, m: Move)
    requires ValidConfig(c) && ValidState(c, s) && Enabled(c, s, w, m)
    ensures ValidState(c, Do(c, s, w, m))
  {
  }

  lemma ForgottenStep(c: Config, s: State, w: nat, m: Move)
    requires ValidConfig(c) && ValidState(c, s) && NothingForgotten(c, s) && Enabled(c, s, w, m)
    requires ValidState(c, Do(c, s, w, m))
    ensures NothingForgotten(c, Do(c, s, w, m))
  {
    var s' := Do(c, s, w, m);
    match m
    case Release =>
      forall q: nat | q < c.queues ensures Found(c, s', q) {
        assert WillFind(c, s', 0, q);
      }
    case Enqueue(_, _, _) =>
      forall q: nat | q < c.queues ensures Found(c, s', q) {
        assert WillFind(c, s', w, q);
      }
    case Poll =>
      assert c.order[w][0..] == c.order[w];
      forall q: nat | q < c.queues ensures Found(c, s', q) {
        assert WillFind(c, s', w, q);
      }
    case Proceed =>
      forall q: nat | q < c.queues && s'.queues[q] != [] ensures Found(c, s', q) {
        ProceedFinds(c, s, w, q);
      }
  }

  /** Why no task is left behind by one step of a worker: if the worker that was to find queue q has
      just been beaten to the queue it was about to lock, the one that beat it now has a task. */
  lemma ProceedFinds(c: Config, s: State, w: nat, q: nat)
    requires ValidConfig(c) && ValidState(c, s) && NothingForgotten(c, s) && Enabled(c, s, w, Proceed)
    requires ValidState(c, DoProceed(c, s, w))
    requires q < c.queues && DoProceed(c, s, w).queues[q] != []
    ensures Found(c, DoProceed(c, s, w), q)
  {
    var s' := DoProceed(c, s, w);
    assert s.queues[q] != [];
    var f :| 0 <= f < |s.workers| && WillFind(c, s, f, q);
    if s'.workers[w].Took? || s'.workers[w].Running? {
      assert WillFind(c, s', w, q);
    } else {
      assert s'.queues == s.queues;
      if f != w {
        assert s'.workers[f] == s.workers[f];
        assert WillFind(c, s', f, q);
      } else {
        match s.workers[w]
        case Scan(counted, k) =>
          assert k < c.queues;
          assert c.order[w][k..] == [c.order[w][k]] + c.order[w][k + 1..];
          assert WillFind(c, s', w, q);
        case Setup =>
          assert c.order[w][0..] == c.order[w];
          assert WillFind(c, s', w, q);
        case Running(_) =>
          assert c.order[w][0..] == c.order[w];
          assert WillFind(c, s', w, q);
        case Claim(_, _) =>
        case _ =>
      }
    }
  }

  lemma StepInv(c: Config, s: State, w: nat, m: Move)
    requires Inv(c, s) && Enabled(c, s, w, m)
    ensures Inv(c, Do(c, s, w, m))
  {
    CounterStep(c, s, w, m);
    TasksStep(c, s, w, m);
    ValidStep(c, s, w, m);
    ForgottenStep(c, s, w, m);
  }

  // --------------------------------------------------------------------------------- all runs

  datatype Act = Act(worker: nat, move: Move)

  /** s follows from a start by the interleaving `acts`. */
  predicate Reaches(c: Config, start: State, acts: seq<Act>, s: State)
    requires ValidConfig(c)
    decreases acts
  {
    if acts == [] then s == start
    else
      && ValidState(c, start) && Enabled(c, start, acts[0].worker, acts[0].move)
      && Reaches(c, Do(c, start, acts[0].worker, acts[0].move), acts[1..], s)
  }

  lemma {:induction false} RunInv(c: Config, start: State, acts: seq<Act>, s: State)
    requires Inv(c, start) && Reaches(c, start, acts, s)
    ensures Inv(c, s)
    decreases acts
  {
    if acts != [] {
      StepInv(c, start, acts[0].worker, acts[0].move);
      RunInv(c, Do(c, start, acts[0].worker, acts[0].move), acts[1..], s);
    }
  }

  /** In every interleaving, when all workers stand at the final barrier every queue is empty, nobody
      holds a task, and each task created so far has been executed exactly as often as created. That
      holds however queues are shared and wherever running tasks put new ones. */
  lemma NothingLeftBehind(c: Config, start: State, acts: seq<Act>, s: State)
    requires ValidConfig(c) && Init(c, start) && Reaches(c, start, acts, s) && AllAtBarrier(s)
    ensures forall q :: 0 <= q < |s.queues| ==> s.queues[q] == []
    ensures s.created == s.done
  {
    InitInv(c, start);
    RunInv(c, start, acts, s);
    forall q: nat | q < |s.queues| ensures s.queues[q] == [] {
      assert !Found(c, s, q);
    }
    forall t ensures s.created[t] == s.done[t] {
      EmptyQueues(s.queues, t);
      EmptyHands(s.workers, t);
    }
  }

  /** The barrier counter counts the counted workers, stays at most n while any is counted, and a
      worker that arrives finds it too high, and so resets it, only when it is the first to arrive. */
  lemma CounterCounts(c: Config, start: State, acts: seq<Act>, s: State)
    requires ValidConfig(c) && Init(c, start) && Reaches(c, start, acts, s)
    ensures CountedWorkers(s.workers) > 0 ==> s.pbarCount == CountedWorkers(s.workers) <= |s.workers|
    ensures forall w :: 0 <= w < |s.workers| && s.workers[w].Arriving? && s.pbarCount >= |s.workers| ==>
              CountedWorkers(s.workers) == 0
  {
    InitInv(c, start);
    RunInv(c, start, acts, s);
    forall w | 0 <= w < |s.workers| && s.workers[w].Arriving? && s.pbarCount >= |s.workers|
      ensures CountedWorkers(s.workers) == 0
    {
      SomeUncounted(s.workers, w);
    }
  }

  lemma EveryoneCounted(ws: seq<Pc>)
    requires CountedWorkers(ws) == |ws|
    ensures forall w :: 0 <= w < |ws| ==> Counted(ws[w])
  {
    forall w | 0 <= w < |ws| ensures Counted(ws[w]) {
      if !Counted(ws[w]) {
        SomeUncounted(ws, w);
      }
    }
  }

  /** A worker in the barrier loop goes on to the final barrier if and only if all workers are counted;
      until then it waits, and may poll. */
  lemma BarrierHolds(c: Config, start: State, acts: seq<Act>, s: State, w: nat)
    requires ValidConfig(c) && Init(c, start) && Reaches(c, start, acts, s) && w < |s.workers|
    requires s.workers[w].Spinning? || s.workers[w].Waiting?
    ensures ValidState(c, s)
    ensures s.workers[w].Spinning? ==>
              NextPc(c, s, w) == if CountedWorkers(s.workers) == |s.workers| then AtBarrier else Waiting
    ensures s.workers[w].Waiting? ==>
              Enabled(c, s, w, Poll) && (Enabled(c, s, w, Proceed) <==> CountedWorkers(s.workers) == |s.workers|)
              && (Enabled(c, s, w, Proceed) ==> NextPc(c, s, w) == AtBarrier)
  {
    InitInv(c, start);
    RunInv(c, start, acts, s);
    if CountedWorkers(s.workers) == 0 {
      CountedUpdate(s.workers, w, Setup);
    }
  }

  /** Nobody passes early: when a step takes a worker to the final barrier, every worker is counted, so none
      is still setting up, running a task, or on its way to the barrier. */
  lemma NobodyPassesEarly(c: Config, start: State, acts: seq<Act>, s: State, w: nat, m: Move, x: nat)
    requires ValidConfig(c) && Init(c, start) && Reaches(c, start, acts, s)
    requires ValidState(c, s) && Enabled(c, s, w, m) && x < |s.workers|
    requires s.workers[x] != AtBarrier && Do(c, s, w, m).workers[x] == AtBarrier
    ensures x == w && CountedWorkers(s.workers) == |s.workers|
    ensures forall y :: 0 <= y < |s.workers| ==> Counted(s.workers[y])
  {
    assert x == w;
    BarrierHolds(c, start, acts, s, w);
    EveryoneCounted(s.workers);
  }

  // ----------------------------------------------------------------------------- polling for work

  lemma ScanFinds(c: Config, s: State, w: nat, k: nat, q: nat) returns (acts: seq<Act>, s': State)
    requires ValidConfig(c) && ValidState(c, s) && w < |s.workers| && k <= c.queues
    requires s.workers[w] == Scan(true, k) && q in c.order[w][k..] && s.queues[q] != []
    ensures Reaches(c, s, acts, s') && forall i :: 0 <= i < |acts| ==> acts[i] == Act(w, Proceed)
    ensures |s'.workers| == |s.workers| && s'.workers[w].Took? && s'.workers[w].counted
    decreases c.queues - k
  {
    assert k < c.queues && c.order[w][k] < c.queues;
    var s1 := DoProceed(c, s, w);
    var rest: seq<Act>;
    if s.queues[c.order[w][k]] != [] {
      s' := DoProceed(c, s1, w);
      rest := [Act(w, Proceed)];
      assert rest[1..] == [];
      assert Reaches(c, s', [], s');
    } else {
      assert c.order[w][k..] == [c.order[w][k]] + c.order[w][k + 1..];
      rest, s' := ScanFinds(c, s1, w, k + 1, q);
    }
    acts := [Act(w, Proceed)] + rest;
    assert acts[1..] == rest;
  }

  /** A waiting worker leaves the barrier loop to steal: if there is a task in any queue, a poll that is not
      interfered with takes one. */
  lemma PollFindsWork(c: Config, s: State, w: nat, q: nat) returns (acts: seq<Act>, s': State)
    requires ValidConfig(c) && ValidState(c, s) && w < |s.workers| && s.workers[w].Waiting?
    requires q < c.queues && s.queues[q] != []
    ensures Reaches(c, s, [Act(w, Poll)] + acts, s') && forall i :: 0 <= i < |acts| ==> acts[i] == Act(w, Proceed)
    ensures |s'.workers| == |s.workers| && s'.workers[w].Took? && s'.workers[w].counted
  {
    var s1 := Do(c, s, w, Poll);
    assert c.order[w][0..] == c.order[w];
    acts, s' := ScanFinds(c, s1, w, 0, q);
    assert ([Act(w, Poll)] + acts)[1..] == acts;
  }

  /** The owner takes what was put on top last, and leaves its queue as it was before. */
  lemma OwnerTakesNewest(c: Config, s: State, w: nat, t: Task)
    requires ValidConfig(c) && ValidState(c, s) && w < |s.workers|
    requires s.workers[w].Claim? && c.order[w][s.workers[w].visit] == c.own[w]
    ensures var more := s.(queues := s.queues[c.own[w] := [t] + s.queues[c.own[w]]]);
            DoProceed(c, more, w) == At(s, w, Took(s.workers[w].counted, t))
  {
    var more := s.(queues := s.queues[c.own[w] := [t] + s.queues[c.own[w]]]);
    assert ([t] + s.queues[c.own[w]])[1..] == s.queues[c.own[w]];
    assert DoProceed(c, more, w).queues == s.queues;
  }

  /** A thief takes what was appended last. */
  lemma ThiefTakesTail(c: Config, s: State, w: nat, t: Task)
    requires ValidConfig(c) && ValidState(c, s) && w < |s.workers|
    requires s.workers[w].Claim? && c.order[w][s.workers[w].visit] != c.own[w]
    ensures c.order[w][s.workers[w].visit] < c.queues
    ensures var i := c.order[w][s.workers[w].visit];
            DoProceed(c, s.(queues := s.queues[i := s.queues[i] + [t]]), w) == At(s, w, Took(s.workers[w].counted, t))
  {
    var i := c.order[w][s.workers[w].visit];
    var more := s.(queues := s.queues[i := s.queues[i] + [t]]);
    assert (s.queues[i] + [t])[..|s.queues[i]|] == s.queues[i];
    assert DoProceed(c, more, w).queues == s.queues;
  }

  // ------------------------------------------------------------------------ phases can finish

  function Rank(c: Config, pc: Pc): nat {
    match pc
    case Setup => 2 * c.queues + 6
    case Scan(_, k) => if k <= c.queues then 2 * (c.queues - k) + 5 else 0
    case Claim(_, k) => if k <= c.queues then 2 * (c.queues - k) + 4 else 0
    case Took(_, _) => 4
    case Running(_) => 3
    case Arriving => 3
    case Spinning => 2
    case Waiting => 1
    case AtBarrier => 0
  }

  function TotalRank(c: Config, ws: seq<Pc>): nat {
    if ws == [] then 0 else TotalRank(c, ws[..|ws| - 1]) + Rank(c, ws[|ws| - 1])
  }

  lemma {:induction false} TotalRankUpdate(c: Config, ws: seq<Pc>, w: nat, pc: Pc)
    requires w < |ws|
    ensures TotalRank(c, ws[w := pc]) + Rank(c, ws[w]) == TotalRank(c, ws) + Rank(c, pc)
  {
    var n := |ws| - 1;
    if w == n {
      assert ws[w := pc][..n] == ws[..n];
    } else {
      assert ws[w := pc][..n] == ws[..n][w := pc];
      TotalRankUpdate(c, ws[..n], w, pc);
    }
  }

  /** How many tasks are still in queues or in hands. */
  function Unfinished(s: State): nat {
    Hands(s.workers) + Lengths(s.queues)
  }

  function Hands(ws: seq<Pc>): nat {
    if ws == [] then 0 else Hands(ws[..|ws| - 1]) + (if HasTask(ws[|ws| - 1]) then 1 else 0)
  }

  lemma {:induction false} HandsUpdate(ws: seq<Pc>, w: nat, pc: Pc)
    requires w < |ws|
    ensures Hands(ws[w := pc]) + (if HasTask(ws[w]) then 1 else 0) == Hands(ws) + (if HasTask(pc) then 1 else 0)
  {
    var n := |ws| - 1;
    if w == n {
      assert ws[w := pc][..n] == ws[..n];
    } else {
      assert ws[w := pc][..n] == ws[..n][w := pc];
      HandsUpdate(ws[..n], w, pc);
    }
  }

  function Lengths(qs: seq<seq<Task>>): nat {
    if qs == [] then 0 else Lengths(qs[..|qs| - 1]) + |qs[|qs| - 1]|
  }

  lemma {:induction false} LengthsUpdate(qs: seq<seq<Task>>, i: nat, q: seq<Task>)
    requires i < |qs|
    ensures Lengths(qs[i := q]) + |qs[i]| == Lengths(qs) + |q|
  {
    var n := |qs| - 1;
    if i == n {
      assert qs[i := q][..n] == qs[..n];
    } else {
      assert qs[i := q][..n] == qs[..n][i := q];
      LengthsUpdate(qs[..n], i, q);
    }
  }

  /** A worker that can take a step forward without polling. */
  predicate CanAdvance(s: State, w: nat) {
    w < |s.workers| && !s.workers[w].AtBarrier? && (s.workers[w].Waiting? ==> s.pbarCount >= |s.workers|)
  }

  /** The barrier cannot wedge: unless all are at the final barrier, some worker can advance. */
  lemma SomeoneCanAdvance(c: Config, s: State) returns (w: nat)
    requires Inv(c, s) && !AllAtBarrier(s)
    ensures CanAdvance(s, w)
  {
    if busy :| 0 <= busy < |s.workers| && !s.workers[busy].AtBarrier? && !s.workers[busy].Waiting? {
      w := busy;
    } else {
      AllCounted(s.workers);
      w :| 0 <= w < |s.workers| && !s.workers[w].AtBarrier?;
    }
  }

  predicate Progress(c: Config, s: State, s': State) {
    || Unfinished(s') < Unfinished(s)
    || (Unfinished(s') == Unfinished(s) && TotalRank(c, s'.workers) < TotalRank(c, s.workers))
  }

  /** Advancing finishes a task or brings a worker closer to the barrier. */
  lemma AdvanceProgresses(c: Config, s: State, w: nat)
    requires ValidConfig(c) && ValidState(c, s) && CanAdvance(s, w)
    ensures Progress(c, s, DoProceed(c, s, w))
  {
    if Takes(c, s, w) {
      TakeProgresses(c, s, w, s.workers[w].counted, c.order[w][s.workers[w].visit]);
    } else {
      var pc := NextPc(c, s, w);
      HandsUpdate(s.workers, w, pc);
      TotalRankUpdate(c, s.workers, w, pc);
      assert s.workers[w].Running? || Rank(c, pc) < Rank(c, s.workers[w]);
    }
  }

  lemma TakeProgresses(c: Config, s: State, w: nat, counted: bool, i: nat)
    requires ValidConfig(c) && ValidState(c, s) && w < |s.workers| && s.workers[w].Claim?
    requires i < c.queues && s.queues[i] != []
    ensures Progress(c, s, DoTake(c, s, w, counted, i))
  {
    var s' := DoTake(c, s, w, counted, i);
    HandsUpdate(s.workers, w, s'.workers[w]);
    TotalRankUpdate(c, s.workers, w, s'.workers[w]);
    LengthsUpdate(s.queues, i, s'.queues[i]);
  }

  /** From every reachable state some interleaving leads all workers to the final barrier. */
  lemma {:induction false} PhaseCanFinish(c: Config, s: State) returns (acts: seq<Act>, s': State)
    requires Inv(c, s)
    ensures Reaches(c, s, acts, s') && AllAtBarrier(s')
    decreases Unfinished(s), TotalRank(c, s.workers)
  {
    if AllAtBarrier(s) {
      acts, s' := [], s;
    } else {
      var w := SomeoneCanAdvance(c, s);
      StepInv(c, s, w, Proceed);
      AdvanceProgresses(c, s, w);
      acts, s' := PhaseCanFinish(c, DoProceed(c, s, w));
      var first := [Act(w, Proceed)];
      assert (first + acts)[1..] == acts;
      acts := first + acts;
    }
  }
}
