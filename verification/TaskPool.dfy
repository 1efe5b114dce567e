/** The task descriptors: linked through their `next` fields into task queues, shared free lists and
    the workers' local free lists. Every method is one lock region or one operation on a worker's own list;
    a run is any sequence of them. Lists are numbered: the queues, then the shared free lists, then the
    local ones. */
module TaskPool {
  import opened Sequences
  import opened Arithmetic

  const N_ALLOCATE_LOCAL_TASK := 8
  const NULL := -1

  /** Where a descriptor is. One fresh from get_task is unlinked. */
  datatype Place = On(list: nat) | InHand(worker: nat, unlinked: bool)

  /** next is the link of each descriptor; head, tail and count are the fields of each list; `lists` and
      `place` are what they stand for. */
  datatype Pool = Pool(next: seq<int>, head: seq<int>, tail: seq<int>, count: seq<int>, lists: seq<seq<nat>>,
                       place: seq<Place>)

  function First(s: seq<nat>): int {
    if s == [] then NULL else s[0]
  }

  function Last(s: seq<nat>): int {
    if s == [] then NULL else s[|s| - 1]
  }

  /** The links lead through the list in order and end in NULL, so it has no cycle. */
  predicate Chained(next: seq<int>, s: seq<nat>) {
    && InRange(s, |next|)
    && forall k :: 0 <= k < |s| ==> LinkOk(next, s, k)
  }

  predicate LinkOk(next: seq<int>, s: seq<nat>, k: nat)
    requires k < |s| && s[k] < |next|
  {
    next[s[k]] == if k + 1 < |s| then s[k + 1] else NULL
  }

  /** Queues come first and are the only lists that keep a tail. */
  predicate Shaped(p: Pool) {
    && |p.place| == |p.next| && |p.head| == |p.lists| && |p.count| == |p.lists| && 2 * |p.tail| <= |p.lists|
  }

  predicate ListOk(p: Pool, l: nat)
    requires Shaped(p) && l < |p.lists|
  {
    && Distinct(p.lists[l]) && Chained(p.next, p.lists[l])
    && p.head[l] == First(p.lists[l]) && p.count[l] == |p.lists[l]| && (l < |p.tail| ==> p.tail[l] == Last(p.lists[l]))
  }

  predicate PlaceOk(p: Pool, d: nat)
    requires Shaped(p) && d < |p.next|
  {
    match p.place[d]
    case On(l) => l < |p.lists| && d in p.lists[l]
    case InHand(_, unlinked) => unlinked ==> p.next[d] == NULL
  }

  predicate OnList(p: Pool, l: nat)
    requires Shaped(p) && l < |p.lists|
  {
    forall k :: 0 <= k < |p.lists[l]| ==> p.lists[l][k] < |p.next| && p.place[p.lists[l][k]] == On(l)
  }

  /** Between operations a local list holds fewer than 16. */
  predicate ShortLocals(p: Pool)
    requires Shaped(p)
  {
    forall l :: 2 * |p.tail| <= l < |p.lists| ==> |p.lists[l]| < 2 * N_ALLOCATE_LOCAL_TASK
  }

  /** Every descriptor is in exactly one place, and every list is what its fields say. */
  predicate Valid(p: Pool) {
    && Shaped(p)
    && (forall l :: 0 <= l < |p.lists| ==> ListOk(p, l) && OnList(p, l))
    && (forall d :: 0 <= d < |p.next| ==> PlaceOk(p, d))
  }

  /** The descriptor is on one of two lists or in someone's hands. */
  predicate Around(place: Place, a: nat, b: nat) {
    place == On(a) || place == On(b) || place.InHand?
  }

  /** A change confined to two lists and to descriptors around them keeps everything else in order. */
  lemma Rewired(p: Pool, p': Pool, a: nat, b: nat)
    requires Valid(p) && Shaped(p') && a < |p.lists| && b < |p.lists|
    requires |p'.next| == |p.next| && |p'.lists| == |p.lists| && |p'.tail| == |p.tail|
    requires forall l :: 0 <= l < |p.lists| && l != a && l != b ==>
               p'.lists[l] == p.lists[l] && p'.head[l] == p.head[l] && p'.count[l] == p.count[l]
               && (l < |p.tail| ==> p'.tail[l] == p.tail[l])
    requires forall d :: 0 <= d < |p.next| && (p'.next[d] != p.next[d] || p'.place[d] != p.place[d]) ==>
               Around(p.place[d], a, b) && Around(p'.place[d], a, b)
    requires ListOk(p', a) && OnList(p', a) && ListOk(p', b) && OnList(p', b)
    requires forall d :: 0 <= d < |p.next| && Around(p'.place[d], a, b) ==> PlaceOk(p', d)
    ensures Valid(p')
  {
    forall l | 0 <= l < |p.lists| ensures ListOk(p', l) && OnList(p', l) {
      assert ListOk(p, l) && OnList(p, l);
      if l != a && l != b {
        forall k | 0 <= k < |p.lists[l]| ensures p'.place[p.lists[l][k]] == On(l) && LinkOk(p'.next, p.lists[l], k) {
          assert p.place[p.lists[l][k]] == On(l) && LinkOk(p.next, p.lists[l], k);
        }
      }
    }
    forall d | 0 <= d < |p.next| ensures PlaceOk(p', d) {
      assert PlaceOk(p, d);
    }
  }

  // -------------------------------------------------------------------------- the first state

  function Filled(n: nat, v: int): (s: seq<int>)
    ensures |s| == n && forall i :: 0 <= i < n ==> s[i] == v
  {
    seq(n, i => v)
  }

  /** How many descriptors a queue is meant to get, where its block starts and where it ends. */
  function PerQueue(m: nat, queues: nat): nat
    requires queues > 0
  {
    (m + queues - 1) / queues
  }

  function Start(m: nat, queues: nat, k: nat): nat
    requires queues > 0
  {
    if k * PerQueue(m, queues) < m then k * PerQueue(m, queues) else m
  }

  function Block(m: nat, queues: nat, k: nat): (s: seq<nat>)
    requires queues > 0
    ensures |s| == if Start(m, queues, k) <= Start(m, queues, k + 1)
                   then Start(m, queues, k + 1) - Start(m, queues, k) else 0
    ensures forall i :: 0 <= i < |s| ==> s[i] == Start(m, queues, k) + i
  {
    var first, end := Start(m, queues, k), Start(m, queues, k + 1);
    seq(if first <= end then end - first else 0, i requires 0 <= i => first + i)
  }

  /** Every queue gets at least one descriptor. */
  predicate Fits(m: nat, queues: nat)
    requires queues > 0
  {
    (queues - 1) * PerQueue(m, queues) < m
  }

  lemma FitsExactly(m: nat, queues: nat)
    requires queues > 0
    ensures Fits(m, queues) <==> forall k :: 0 <= k < queues ==> Start(m, queues, k) < m
  {
    forall k | 0 <= k < queues && Fits(m, queues) ensures Start(m, queues, k) < m {
      MulMonotone(k, queues - 1, PerQueue(m, queues));
    }
    if !Fits(m, queues) {
      assert Start(m, queues, queues - 1) == m;
    }
  }

  /** It is enough that the square of the other queues' number is less than that of the descriptors. */
  lemma FewQueuesFit(m: nat, queues: nat)
    requires queues > 0 && (queues - 1) * (queues - 1) < m
    ensures Fits(m, queues)
  {
    var t, others := PerQueue(m, queues), queues - 1;
    assert m + others == t * queues + (m + others) % queues;
    assert t * queues == t * others + t;
    if t <= others {
      MulMonotone(t, others, others);
      assert t * others == others * t;
    } else {
      assert t * others + t <= m + others < m + t;
    }
  }

  /** The numbers of descriptors and queues that the program is built with, by machine. */
  datatype Build = Simulator | Dash | SgiGl | Sun4 {
    function MaxTasks(): nat {
      match this
      case Simulator => 32768
      case Dash => 32768
      case SgiGl => 8192
      case Sun4 => 1024
    }

    function MaxTaskqueues(): nat {
      match this
      case Simulator => 128
      case Dash => 64
      case SgiGl => 8
      case Sun4 => 1
    }
  }

  /** So in every build the descriptors suffice for every number of queues that the program accepts. */
  lemma BuildsFit(b: Build, queues: nat)
    requires 1 <= queues <= b.MaxTaskqueues()
    ensures Fits(b.MaxTasks(), queues)
    ensures forall k :: 0 <= k < queues ==> Start(b.MaxTasks(), queues, k) < b.MaxTasks()
  {
    MulMonotone(queues - 1, b.MaxTaskqueues() - 1, queues - 1);
    MulMonotone(queues - 1, b.MaxTaskqueues() - 1, b.MaxTaskqueues() - 1);
    FewQueuesFit(b.MaxTasks(), queues);
    FitsExactly(b.MaxTasks(), queues);
  }

  /** The blocks follow each other and end at the last descriptor. */
  lemma BlocksFit(m: nat, queues: nat, k: nat)
    requires queues > 0 && Fits(m, queues) && k < queues
    ensures var t := PerQueue(m, queues);
            && Start(m, queues, k) == k * t < m && Start(m, queues, k + 1) == (if k * t + t > m then m else k * t + t)
            && t > 0 && (k + 1 == queues ==> Start(m, queues, k + 1) == m)
  {
    var t := PerQueue(m, queues);
    MulMonotone(k, queues - 1, t);
    assert (k + 1) * t == k * t + t;
    assert m + queues - 1 == t * queues + (m + queues - 1) % queues;
    assert t * queues == queues * t >= m;
  }

  /** The loop of init_taskq after qid queues. */
  predicate InitDone(m: nat, queues: nat, workers: nat, qid: nat, next: seq<int>, head: seq<int>, tail: seq<int>,
                     count: seq<int>)
    requires queues > 0
  {
    && |next| == m && |head| == 2 * queues + workers && |count| == 2 * queues + workers && tail == Filled(queues, NULL)
    && (forall l :: 0 <= l < |head| ==>
          if queues <= l < queues + qid then head[l] == First(Block(m, queues, l - queues))
            && count[l] == |Block(m, queues, l - queues)|
          else head[l] == NULL && count[l] == 0)
    && (forall k :: 0 <= k < qid ==> Chained(next, Block(m, queues, k)))
  }

  lemma BlockLinked(m: nat, queues: nat, workers: nat, qid: nat, before: seq<int>, next: seq<int>, head: seq<int>,
                    tail: seq<int>, count: seq<int>)
    requires queues > 0 && Fits(m, queues) && qid < queues && |before| == m && |next| == m
    requires forall k :: 0 <= k < qid ==> Chained(before, Block(m, queues, k))
    requires var first, end := Start(m, queues, qid), Start(m, queues, qid + 1);
             forall x :: 0 <= x < m ==> next[x] == if first <= x < end - 1 then x + 1
                                        else if x == end - 1 then NULL else before[x]
    requires |head| == 2 * queues + workers && |count| == 2 * queues + workers && tail == Filled(queues, NULL)
    requires forall l :: 0 <= l < |head| ==>
               if queues <= l <= queues + qid then head[l] == First(Block(m, queues, l - queues))
                 && count[l] == |Block(m, queues, l - queues)|
               else head[l] == NULL && count[l] == 0
    ensures InitDone(m, queues, workers, qid + 1, next, head, tail, count)
  {
    BlocksFit(m, queues, qid);
    var B := Block(m, queues, qid);
    forall j | 0 <= j < |B| ensures B[j] < |next| && LinkOk(next, B, j) {
    }
    forall k | 0 <= k < qid ensures Chained(next, Block(m, queues, k)) {
      BlocksFit(m, queues, k);
      MulMonotone(k + 1, qid, PerQueue(m, queues));
      var A := Block(m, queues, k);
      forall j | 0 <= j < |A| ensures A[j] < |next| && LinkOk(next, A, j) {
        assert LinkOk(before, A, j);
      }
    }
  }

  function InitLists(m: nat, queues: nat, workers: nat): (lists: seq<seq<nat>>)
    requires queues > 0
    ensures |lists| == 2 * queues + workers
    ensures forall l :: 0 <= l < |lists| ==>
            lists[l] == if queues <= l < 2 * queues then Block(m, queues, l - queues) else []
  {
    seq(2 * queues + workers, l requires 0 <= l =>
      if queues <= l < 2 * queues then Block(m, queues, l - queues) else [])
  }

  function InitPlaces(m: nat, queues: nat, perQueue: nat): (place: seq<Place>)
    requires perQueue > 0
    ensures |place| == m && forall d :: 0 <= d < m ==> place[d] == On(queues + d / perQueue)
  {
    seq(m, d requires 0 <= d => On(queues + d / perQueue))
  }

  lemma InItsBlock(m: nat, queues: nat, d: nat)
    requires queues > 0 && Fits(m, queues) && d < m
    ensures PerQueue(m, queues) > 0
    ensures var k := d / PerQueue(m, queues); k < queues && Start(m, queues, k) <= d < Start(m, queues, k + 1)
  {
  }

  lemma BlockPlace(m: nat, queues: nat, k: nat, j: nat)
    requires queues > 0 && Fits(m, queues) && k < queues && j < |Block(m, queues, k)|
    ensures PerQueue(m, queues) > 0 && Block(m, queues, k)[j] < m && Block(m, queues, k)[j] / PerQueue(m, queues) == k
  {
    BlocksFit(m, queues, k);
    DivisionUnique(Block(m, queues, k)[j], PerQueue(m, queues), k, j);
  }

  lemma InitValid(m: nat, queues: nat, workers: nat, p: Pool)
    requires queues > 0 && Fits(m, queues) && InitDone(m, queues, workers, queues, p.next, p.head, p.tail, p.count)
    requires PerQueue(m, queues) > 0
    requires p.lists == InitLists(m, queues, workers) && p.place == InitPlaces(m, queues, PerQueue(m, queues))
    ensures Valid(p) && ShortLocals(p)
  {
    forall l | 0 <= l < |p.lists| ensures ListOk(p, l) && OnList(p, l) {
      if queues <= l < 2 * queues {
        forall j | 0 <= j < |p.lists[l]| ensures p.lists[l][j] < |p.next| && p.place[p.lists[l][j]] == On(l) {
          BlockPlace(m, queues, l - queues, j);
        }
      }
    }
    forall d | 0 <= d < |p.next| ensures PlaceOk(p, d) {
      InItsBlock(m, queues, d);
      var k := d / PerQueue(m, queues);
      assert Block(m, queues, k)[d - Start(m, queues, k)] == d;
      assert d in p.lists[queues + k];
    }
  }

  /** The places after some descriptors have gone elsewhere. */
  function Replaced(place: seq<Place>, moved: seq<nat>, to: Place): (r: seq<Place>)
    ensures |r| == |place| && forall x :: 0 <= x < |place| ==> r[x] == if x in moved then to else place[x]
  {
    seq(|place|, x requires 0 <= x < |place| => if x in moved then to else place[x])
  }

  lemma Members(p: Pool, l: nat)
    requires Valid(p) && l < |p.lists|
    ensures forall x :: 0 <= x < |p.next| && |p.place| == |p.next| ==> (p.place[x] == On(l) <==> x in p.lists[l])
  {
    assert OnList(p, l);
    forall x | 0 <= x < |p.next| ensures p.place[x] == On(l) <==> x in p.lists[l] {
      assert PlaceOk(p, x);
    }
  }

  class TaskLists {
    var next: seq<int>
    var head: seq<int>
    var tail: seq<int>
    var count: seq<int>
    ghost var lists: seq<seq<nat>>
    ghost var place: seq<Place>

    ghost function Now(): Pool
      reads this
    {
      Pool(next, head, tail, count, lists, place)
    }

    ghost predicate Ok()
      reads this
    {
      Valid(Now()) && ShortLocals(Now())
    }

    /** init_taskq: the descriptors in equal blocks on the shared free lists, everything else empty. Every
        queue must get at least one; see BlocksFit. */
    constructor (m: nat, queues: nat, workers: nat)
      requires queues > 0 && Fits(m, queues)
      ensures Ok() && |next| == m && |tail| == queues && |head| == 2 * queues + workers
      ensures forall l :: 0 <= l < |lists| ==>
                lists[l] == if queues <= l < 2 * queues then Block(m, queues, l - queues) else []
    {
      next := Filled(m, NULL);
      head := Filled(2 * queues + workers, NULL);
      tail := Filled(queues, NULL);
      count := Filled(2 * queues + workers, 0);
      new;
      var taskPerQueue := (m + queues - 1) / queues;
      var taskIndex, qid := 0, 0;
      while qid < queues
        invariant 0 <= qid <= queues && taskIndex == Start(m, queues, qid) && taskPerQueue == PerQueue(m, queues)
        invariant InitDone(m, queues, workers, qid, next, head, tail, count)
      {
        BlocksFit(m, queues, qid);
        var n := if taskIndex + taskPerQueue > m then m - taskIndex else taskPerQueue;
        ghost var before := next;
        LinkBlock(taskIndex, n);
        head := head[queues + qid := taskIndex];
        count := count[queues + qid := n];
        BlockLinked(m, queues, workers, qid, before, next, head, tail, count);
        taskIndex := taskIndex + n;
        qid := qid + 1;
      }
      lists := InitLists(m, queues, workers);
      BlocksFit(m, queues, 0);
      place := InitPlaces(m, queues, PerQueue(m, queues));
      InitValid(m, queues, workers, Now());
    }

    method LinkBlock(taskIndex: nat, n: nat)
      requires 0 < n && taskIndex + n <= |next|
      modifies this`next
      ensures |next| == old(|next|)
      ensures forall x :: 0 <= x < |next| ==>
                next[x] == if taskIndex <= x < taskIndex + n - 1 then x + 1
                           else if x == taskIndex + n - 1 then NULL else old(next[x])
    {
      var i := taskIndex;
      while i < taskIndex + n - 1
        invariant taskIndex <= i <= taskIndex + n - 1 && |next| == old(|next|)
        invariant forall x :: 0 <= x < |next| ==> next[x] == if taskIndex <= x < i then x + 1 else old(next[x])
      {
        next := next[i := i + 1];
        i := i + 1;
      }
      next := next[i := NULL];
    }

    /** enqueue_task, under the queue's lock, with a descriptor fresh from get_task. */
    method Enqueue(q: nat, d: nat, ghost worker: nat, append: bool)
      requires Ok() && q < |tail| && d < |next| && place[d] == InHand(worker, true)
      modifies this
      ensures Ok() && |next| == old(|next|) && |tail| == old(|tail|)
      ensures lists == old(lists)[q := if append then old(lists[q]) + [d] else [d] + old(lists[q])]
      ensures place == old(place)[d := On(q)]
    {
      ghost var was := Now();
      assert ListOk(was, q) && OnList(was, q) && PlaceOk(was, d);
      if tail[q] == NULL {
        tail := tail[q := d];
        head := head[q := d];
        count := count[q := 1];
      } else if append {
        next := next[tail[q] := d];
        tail := tail[q := d];
        count := count[q := count[q] + 1];
      } else {
        next := next[d := head[q]];
        head := head[q := d];
        count := count[q := count[q] + 1];
      }
      lists := lists[q := if append then lists[q] + [d] else [d] + lists[q]];
      place := place[d := On(q)];
      if append {
        Appended(was, Now(), q, d, worker);
      } else {
        Prepended(was, Now(), q, d, worker);
      }
    }

    /** A list gives up its first descriptor; NULL if it has none. The worker's own queue gives it with its
        link as it was, a local free list clears the link. */
    method TakeFirst(l: nat, ghost worker: nat, clear: bool) returns (d: int)
      requires Ok() && l < |head|
      modifies this
      ensures Ok() && |next| == old(|next|) && |tail| == old(|tail|)
      ensures if old(lists[l]) == [] then d == NULL && lists == old(lists) && place == old(place)
              else d == old(lists[l][0]) && lists == old(lists)[l := old(lists[l])[1..]]
                   && 0 <= d < |place| && place == old(place)[d := InHand(worker, clear)]
    {
      ghost var was := Now();
      assert ListOk(was, l) && OnList(was, l);
      d := head[l];
      if d == NULL {
        return;
      }
      ChainedRest(next, lists[l]);
      head := head[l := next[d]];
      if l < |tail| && head[l] == NULL {
        tail := tail[l := NULL];
      }
      count := count[l := count[l] - 1];
      if clear {
        next := next[d := NULL];
      }
      lists := lists[l := lists[l][1..]];
      place := place[d := InHand(worker, clear)];
      TookFirst(was, Now(), l, d, worker, clear);
    }

    /** get_task, when the local list is empty: under a free list's lock, its first descriptors, at most 8,
        become the local list. */
    method Refill(f: nat, l: nat) returns (ok: bool)
      requires Ok() && |tail| <= f < 2 * |tail| <= l < |head| && lists[l] == []
      modifies this
      ensures Ok() && |next| == old(|next|) && |tail| == old(|tail|)
      ensures ok <==> old(lists[f]) != []
      ensures ok ==>
                var n := if old(|lists[f]|) < N_ALLOCATE_LOCAL_TASK then old(|lists[f]|) else N_ALLOCATE_LOCAL_TASK;
                lists == old(lists)[f := old(lists[f])[n..]][l := old(lists[f])[..n]]
      ensures !ok ==> lists == old(lists) && place == old(place)
      ensures forall d :: 0 <= d < |place| && old(place[d]).InHand? ==> place[d] == old(place[d])
    {
      ghost var was := Now();
      assert ListOk(was, f) && OnList(was, f) && ListOk(was, l);
      if head[f] == NULL {
        return false;
      }
      var i, p := ScanFree(f, was);
      head := head[l := head[f]];
      count := count[l := i];
      head := head[f := next[p]];
      count := count[f := count[f] - i];
      next := next[p := NULL];
      lists := lists[f := was.lists[f][i..]][l := was.lists[f][..i]];
      place := Replaced(place, was.lists[f][..i], On(l));
      Refilled(was, Now(), f, l, i);
      ok := true;
    }

    method ScanFree(f: nat, ghost was: Pool) returns (i: nat, p: nat)
      requires Valid(Now()) && was == Now() && f < |head| && lists[f] != []
      ensures i == if |lists[f]| < N_ALLOCATE_LOCAL_TASK then |lists[f]| else N_ALLOCATE_LOCAL_TASK
      ensures p == lists[f][i - 1] && p < |next|
    {
      ghost var L := lists[f];
      assert ListOk(was, f) && LinkOk(next, L, 0);
      i, p := 1, head[f];
      while i < N_ALLOCATE_LOCAL_TASK && next[p] != NULL
        invariant 1 <= i <= |L| && i <= N_ALLOCATE_LOCAL_TASK && p == L[i - 1] && p < |next| && LinkOk(next, L, i - 1)
      {
        i, p := i + 1, next[p];
        assert LinkOk(next, L, i - 1);
      }
    }

    /** free_task: onto the local list, and when that reaches 16, its first 8 go to the front of the shared
        free list. */
    method FreeTask(d: nat, f: nat, l: nat, ghost worker: nat, ghost unlinked: bool)
      requires Ok() && |tail| <= f < 2 * |tail| <= l < |head| && d < |next| && place[d] == InHand(worker, unlinked)
      modifies this
      ensures Ok() && |next| == old(|next|) && |tail| == old(|tail|)
      ensures var L := [d] + old(lists[l]);
              lists == if |L| < 2 * N_ALLOCATE_LOCAL_TASK then old(lists)[l := L]
                       else old(lists)[f := L[..N_ALLOCATE_LOCAL_TASK] + old(lists[f])][l := L[N_ALLOCATE_LOCAL_TASK..]]
      ensures place[d] == On(l) || place[d] == On(f)
      ensures forall x :: 0 <= x < |place| && x != d && old(place[x]).InHand? ==> place[x] == old(place[x])
    {
      PushLocal(d, l, worker, unlinked);
      Members(Now(), l);
      if count[l] >= 2 * N_ALLOCATE_LOCAL_TASK {
        ghost var L := lists[l];
        assert forall x :: x in L[..N_ALLOCATE_LOCAL_TASK] ==> x in L;
        Export(f, l);
      }
    }

    method PushLocal(d: nat, l: nat, ghost worker: nat, ghost unlinked: bool)
      requires Valid(Now()) && 2 * |tail| <= l < |head| && d < |next| && place[d] == InHand(worker, unlinked)
      modifies this
      ensures Valid(Now()) && |next| == old(|next|) && tail == old(tail) && |head| == old(|head|)
      ensures lists == old(lists)[l := [d] + old(lists[l])] && place == old(place)[d := On(l)] && count[l] == |lists[l]|
    {
      ghost var was := Now();
      assert ListOk(was, l) && OnList(was, l);
      ChainedPrepend(next, lists[l], d);
      next := next[d := head[l]];
      head := head[l := d];
      count := count[l := count[l] + 1];
      lists := lists[l := [d] + lists[l]];
      place := place[d := On(l)];
      OneMore(was, Now(), l, d);
    }

    method Export(f: nat, l: nat)
      requires Valid(Now()) && |tail| <= f < 2 * |tail| <= l < |head| && |lists[l]| >= N_ALLOCATE_LOCAL_TASK
      modifies this
      ensures Valid(Now()) && |next| == old(|next|) && tail == old(tail) && |head| == old(|head|)
      ensures var L := old(lists[l]);
              lists == old(lists)[f := L[..N_ALLOCATE_LOCAL_TASK] + old(lists[f])][l := L[N_ALLOCATE_LOCAL_TASK..]]
              && place == Replaced(old(place), L[..N_ALLOCATE_LOCAL_TASK], On(f))
    {
      ghost var was := Now();
      ghost var L := lists[l];
      assert ListOk(was, f) && OnList(was, f) && ListOk(was, l) && OnList(was, l);
      var top := head[l];
      var p := EighthOf(top, L);
      assert LinkOk(next, L, N_ALLOCATE_LOCAL_TASK - 1);
      head := head[l := next[p]];
      count := count[l := count[l] - N_ALLOCATE_LOCAL_TASK];
      next := next[p := head[f]];
      head := head[f := top];
      count := count[f := count[f] + N_ALLOCATE_LOCAL_TASK];
      lists := lists[f := L[..N_ALLOCATE_LOCAL_TASK] + was.lists[f]][l := L[N_ALLOCATE_LOCAL_TASK..]];
      place := Replaced(place, L[..N_ALLOCATE_LOCAL_TASK], On(f));
      Exported(was, Now(), f, l);
    }

    method EighthOf(top: nat, ghost L: seq<nat>) returns (p: nat)
      requires Chained(next, L) && |L| >= N_ALLOCATE_LOCAL_TASK && top == L[0]
      ensures p == L[N_ALLOCATE_LOCAL_TASK - 1]
    {
      var i := 1;
      p := top;
      while i < N_ALLOCATE_LOCAL_TASK
        invariant 1 <= i <= N_ALLOCATE_LOCAL_TASK && p == L[i - 1]
      {
        assert LinkOk(next, L, i - 1);
        i, p := i + 1, next[p];
      }
    }

    /** dequeue_task from another worker's queue: its last descriptor, found by walking the links. */
    method Steal(q: nat, ghost worker: nat) returns (d: int)
      requires Ok() && q < |tail|
      modifies this
      ensures Ok() && |next| == old(|next|) && |tail| == old(|tail|)
      ensures if old(lists[q]) == [] then d == NULL && lists == old(lists) && place == old(place)
              else d == Last(old(lists[q])) && lists == old(lists)[q := old(lists[q])[..|old(lists[q])| - 1]]
                   && 0 <= d < |place| && place == old(place)[d := InHand(worker, true)]
    {
      ghost var was := Now();
      ghost var L := lists[q];
      assert ListOk(was, q) && OnList(was, q);
      if head[q] == NULL {
        return NULL;
      }
      var prev;
      prev, d := WalkToLast(q, was);
      if prev == NULL {
        head := head[q := NULL];
      } else {
        next := next[prev := NULL];
      }
      tail := tail[q := prev];
      count := count[q := count[q] - 1];
      lists := lists[q := L[..|L| - 1]];
      place := place[d := InHand(worker, true)];
      TookLast(was, Now(), q, d, worker);
    }

    method WalkToLast(q: nat, ghost was: Pool) returns (prev: int, d: int)
      requires Valid(Now()) && was == Now() && q < |tail| && lists[q] != []
      ensures d == Last(lists[q]) && prev == Last(lists[q][..|lists[q]| - 1])
    {
      ghost var L := lists[q];
      ghost var k := 0;
      assert ListOk(was, q);
      prev, d := NULL, head[q];
      while next[d] != NULL
        invariant 0 <= k < |L| && L == lists[q] && d == L[k] && 0 <= d < |next| && LinkOk(next, L, k)
        invariant prev == if k == 0 then NULL else L[k - 1]
        decreases |L| - k
      {
        prev, d := d, next[d];
        k := k + 1;
        assert LinkOk(next, L, k);
      }
    }
  }

  lemma Appended(p: Pool, p': Pool, q: nat, d: nat, worker: nat)
    requires Valid(p) && q < |p.tail| && d < |p.next| && p.place[d] == InHand(worker, true)
             && InRange(p.lists[q], |p.next|)
    requires var L := p.lists[q];
             && p'.lists == p.lists[q := L + [d]] && p'.place == p.place[d := On(q)]
                && p'.count == p.count[q := p.count[q] + 1]
             && p'.next == (if L == [] then p.next else p.next[L[|L| - 1] := d])
             && p'.head == (if L == [] then p.head[q := d] else p.head) && p'.tail == p.tail[q := d]
    ensures Valid(p')
  {
    assert ListOk(p, q) && OnList(p, q) && PlaceOk(p, d);
    ChainedAppend(p.next, p.lists[q], d);
    OneMore(p, p', q, d);
  }

  lemma Prepended(p: Pool, p': Pool, q: nat, d: nat, worker: nat)
    requires Valid(p) && q < |p.tail| && d < |p.next| && p.place[d] == InHand(worker, true)
    requires var L := p.lists[q];
             && p'.lists == p.lists[q := [d] + L] && p'.place == p.place[d := On(q)]
                && p'.count == p.count[q := p.count[q] + 1]
             && p'.next == (if L == [] then p.next else p.next[d := L[0]])
             && p'.head == p.head[q := d] && p'.tail == (if L == [] then p.tail[q := d] else p.tail)
    ensures Valid(p')
  {
    assert ListOk(p, q) && OnList(p, q) && PlaceOk(p, d);
    ChainedPrepend(p.next, p.lists[q], d);
    assert p'.next == p.next[d := First(p.lists[q])];
    OneMore(p, p', q, d);
  }

  /** A list takes in a descriptor from someone's hands. */
  lemma OneMore(p: Pool, p': Pool, l: nat, d: nat)
    requires Valid(p) && Shaped(p') && l < |p.lists| && d < |p.next| && p.place[d].InHand?
    requires |p'.next| == |p.next| && |p'.tail| == |p.tail| && |p'.lists| == |p.lists|
    requires p'.lists == p.lists[l := p'.lists[l]] && p'.place == p.place[d := On(l)]
    requires p'.lists[l] == p.lists[l] + [d] || p'.lists[l] == [d] + p.lists[l]
    requires forall m :: 0 <= m < |p.lists| && m != l ==>
               p'.head[m] == p.head[m] && p'.count[m] == p.count[m] && (m < |p.tail| ==> p'.tail[m] == p.tail[m])
    requires forall x :: 0 <= x < |p.next| && p'.next[x] != p.next[x] ==> x == d || p.place[x] == On(l)
    requires ListOk(p', l)
    ensures Valid(p')
  {
    assert OnList(p, l);
    assert forall x :: x in p'.lists[l] <==> x in p.lists[l] || x == d;
    assert OnList(p', l);
    forall x | 0 <= x < |p.next| && Around(p'.place[x], l, l) ensures PlaceOk(p', x) {
      assert PlaceOk(p, x);
    }
    Rewired(p, p', l, l);
  }

  lemma TookFirst(p: Pool, p': Pool, l: nat, d: nat, worker: nat, clear: bool)
    requires Valid(p) && l < |p.lists| && p.lists[l] != [] && p.lists[l][0] == d && d < |p.next|
             && |p.place| == |p.next|
    requires |p.head| == |p.lists| && |p.count| == |p.lists|
    requires p'.lists == p.lists[l := p.lists[l][1..]] && p'.place == p.place[d := InHand(worker, clear)]
    requires p'.count == p.count[l := p.count[l] - 1] && p'.next == (if clear then p.next[d := NULL] else p.next)
    requires p'.head == p.head[l := p.next[d]]
    requires p'.tail == if l < |p.tail| && p.next[d] == NULL then p.tail[l := NULL] else p.tail
    ensures Valid(p')
  {
    var L, M := p.lists[l], p.lists[l][1..];
    assert ListOk(p, l) && OnList(p, l);
    ChainedRest(p.next, L);
    assert forall x :: x in L <==> x in M || x == d;
    forall k | 0 <= k < |M| ensures M[k] != d {
      assert M[k] == L[k + 1];
    }
    if clear {
      ChainedElsewhere(p.next, M, d);
    }
    OneLess(p, p', l, d, worker, clear);
  }

  lemma ChainedElsewhere(next: seq<int>, M: seq<nat>, d: nat)
    requires Chained(next, M) && d < |next| && d !in M
    ensures Chained(next[d := NULL], M)
  {
    var next' := next[d := NULL];
    forall k | 0 <= k < |M| ensures LinkOk(next', M, k) {
      assert M[k] in M && LinkOk(next, M, k);
    }
  }

  lemma TookLast(p: Pool, p': Pool, q: nat, d: nat, worker: nat)
    requires Valid(p) && q < |p.tail| && q < |p.lists| && p.lists[q] != [] && Last(p.lists[q]) == d && d < |p.next|
             && |p.place| == |p.next|
    requires |p.head| == |p.lists| && |p.count| == |p.lists| && InRange(p.lists[q], |p.next|)
    requires var L := p.lists[q]; var M := L[..|L| - 1];
             && p'.lists == p.lists[q := M] && p'.place == p.place[d := InHand(worker, true)]
             && p'.count == p.count[q := p.count[q] - 1] && p'.tail == p.tail[q := Last(M)]
             && p'.next == (if M == [] then p.next else p.next[L[|L| - 2] := NULL])
             && p'.head == (if M == [] then p.head[q := NULL] else p.head)
    ensures Valid(p')
  {
    var L := p.lists[q];
    var M := L[..|L| - 1];
    assert ListOk(p, q) && OnList(p, q);
    LastGone(p.next, L);
    WithoutLast(L);
    OneLess(p, p', q, d, worker, true);
  }

  lemma LastGone(next: seq<int>, L: seq<nat>)
    requires Chained(next, L) && Distinct(L) && L != []
    ensures var M := L[..|L| - 1]; var next' := if M == [] then next else next[L[|L| - 2] := NULL];
            Chained(next', M) && next'[Last(L)] == NULL
  {
    assert LinkOk(next, L, |L| - 1);
    if |L| > 1 {
      ChainedCut(next, L, |L| - 1);
    }
  }

  lemma WithoutLast(L: seq<nat>)
    requires L != [] && Distinct(L)
    ensures var M := L[..|L| - 1]; Last(L) !in M && Distinct(M) && forall x :: x in L <==> x in M || x == Last(L)
  {
  }

  /** A list gives a descriptor into someone's hands. */
  lemma OneLess(p: Pool, p': Pool, l: nat, d: nat, worker: nat, unlinked: bool)
    requires Valid(p) && Shaped(p') && l < |p.lists| && d < |p.next| && p.place[d] == On(l)
    requires |p'.next| == |p.next| && |p'.tail| == |p.tail| && |p'.lists| == |p.lists|
    requires p'.lists == p.lists[l := p'.lists[l]] && p'.place == p.place[d := InHand(worker, unlinked)]
    requires forall x :: x in p.lists[l] <==> x in p'.lists[l] || x == d
    requires d !in p'.lists[l] && (unlinked ==> p'.next[d] == NULL)
    requires forall m :: 0 <= m < |p.lists| && m != l ==>
               p'.head[m] == p.head[m] && p'.count[m] == p.count[m] && (m < |p.tail| ==> p'.tail[m] == p.tail[m])
    requires forall x :: 0 <= x < |p.next| && p'.next[x] != p.next[x] ==> p.place[x] == On(l)
    requires ListOk(p', l)
    ensures Valid(p')
  {
    assert OnList(p, l);
    forall k | 0 <= k < |p'.lists[l]| ensures p'.lists[l][k] < |p'.next| && p'.place[p'.lists[l][k]] == On(l) {
      assert p'.lists[l][k] in p'.lists[l];
    }
    forall x | 0 <= x < |p.next| && Around(p'.place[x], l, l) ensures PlaceOk(p', x) {
      assert PlaceOk(p, x);
    }
    Rewired(p, p', l, l);
  }

  lemma Refilled(p: Pool, p': Pool, f: nat, l: nat, i: nat)
    requires Valid(p) && f < |p.lists| && l < |p.lists| && |p.tail| <= f < 2 * |p.tail| <= l && p.lists[l] == []
    requires |p.place| == |p.next| && |p.head| == |p.lists| && |p.count| == |p.lists| && InRange(p.lists[f], |p.next|)
    requires 0 < i <= |p.lists[f]| && i <= N_ALLOCATE_LOCAL_TASK
    requires var L := p.lists[f];
             && p'.lists == p.lists[f := L[i..]][l := L[..i]] && p'.next == p.next[L[i - 1] := NULL]
                && p'.tail == p.tail
             && p'.head == p.head[l := L[0]][f := p.next[L[i - 1]]]
             && p'.count == p.count[l := i][f := p.count[f] - i]
             && |p'.place| == |p.place|
             && forall d :: 0 <= d < |p.place| ==> p'.place[d] == if d in L[..i] then On(l) else p.place[d]
    ensures Valid(p')
  {
    var L := p.lists[f];
    assert ListOk(p, f) && OnList(p, f);
    ChainedCut(p.next, L, i);
    SplitMembers(L, i);
    Members(p, f);
    Members(p, l);
    Moved(p, p', f, l);
  }

  lemma SplitMembers(L: seq<nat>, i: nat)
    requires Distinct(L) && i <= |L|
    ensures forall x :: x in L <==> x in L[..i] || x in L[i..]
    ensures forall x :: x in L[i..] ==> x !in L[..i]
  {
  }

  lemma Exported(p: Pool, p': Pool, f: nat, l: nat)
    requires Valid(p) && f < |p.lists| && l < |p.lists| && |p.tail| <= f < 2 * |p.tail| <= l
    requires |p.place| == |p.next| && |p.head| == |p.lists| && |p.count| == |p.lists|
    requires InRange(p.lists[l], |p.next|) && |p.lists[l]| >= N_ALLOCATE_LOCAL_TASK
    requires var L, n, F := p.lists[l], N_ALLOCATE_LOCAL_TASK, p.lists[f];
             && p'.lists == p.lists[f := L[..n] + F][l := L[n..]] && p'.tail == p.tail
             && p'.next == p.next[L[n - 1] := First(F)]
             && p'.head == p.head[l := First(L[n..])][f := L[0]]
             && p'.count == p.count[l := p.count[l] - n][f := p.count[f] + n]
             && p'.place == Replaced(p.place, L[..n], On(f))
    ensures Valid(p')
  {
    var L, n, F := p.lists[l], N_ALLOCATE_LOCAL_TASK, p.lists[f];
    assert ListOk(p, f) && OnList(p, f) && ListOk(p, l) && OnList(p, l);
    Members(p, f);
    Members(p, l);
    forall x | x in F ensures x !in L {
      assert p.place[x] == On(f);
    }
    ChainedJoin(p.next, L, n, F);
    SplitMembers(L, n);
    assert forall x :: x in L[..n] + F <==> x in L[..n] || x in F;
    Moved(p, p', f, l);
  }

  /** Two lists after some descriptors moved between them and perhaps in from a hand. */
  lemma Moved(p: Pool, p': Pool, a: nat, b: nat)
    requires Valid(p) && Shaped(p') && a < |p.lists| && b < |p.lists| && a != b
    requires |p'.next| == |p.next| && |p'.lists| == |p.lists| && |p'.tail| == |p.tail| && |p'.place| == |p.place|
    requires forall m :: 0 <= m < |p.lists| && m != a && m != b ==>
               p'.lists[m] == p.lists[m] && p'.head[m] == p.head[m] && p'.count[m] == p.count[m]
                 && (m < |p.tail| ==> p'.tail[m] == p.tail[m])
    requires forall x :: 0 <= x < |p.next| && (p'.next[x] != p.next[x] || p'.place[x] != p.place[x]) ==>
               Around(p.place[x], a, b) && (p'.place[x] == On(a) || p'.place[x] == On(b))
    requires forall x :: 0 <= x < |p.next| ==>
               (p'.place[x] == On(a) <==> x in p'.lists[a]) && (p'.place[x] == On(b) <==> x in p'.lists[b])
    requires ListOk(p', a) && ListOk(p', b)
    ensures Valid(p')
  {
    forall k | 0 <= k < |p'.lists[a]| ensures p'.lists[a][k] < |p'.next| && p'.place[p'.lists[a][k]] == On(a) {
      assert p'.lists[a][k] in p'.lists[a];
    }
    forall k | 0 <= k < |p'.lists[b]| ensures p'.lists[b][k] < |p'.next| && p'.place[p'.lists[b][k]] == On(b) {
      assert p'.lists[b][k] in p'.lists[b];
    }
    forall x | 0 <= x < |p.next| && Around(p'.place[x], a, b) ensures PlaceOk(p', x) {
      assert PlaceOk(p, x);
    }
    Rewired(p, p', a, b);
  }

  // ------------------------------------------------------------------------ links of one list

  lemma ChainedPrepend(next: seq<int>, L: seq<nat>, d: nat)
    requires Chained(next, L) && Distinct(L) && d < |next| && d !in L
    ensures Chained(next[d := First(L)], [d] + L) && Distinct([d] + L)
  {
    var M, next' := [d] + L, next[d := First(L)];
    forall k | 0 <= k < |M| ensures M[k] < |next'| && LinkOk(next', M, k) {
      if k > 0 {
        assert M[k] == L[k - 1] && L[k - 1] in L && LinkOk(next, L, k - 1);
      }
    }
  }

  lemma ChainedAppend(next: seq<int>, L: seq<nat>, d: nat)
    requires Chained(next, L) && Distinct(L) && d < |next| && d !in L && next[d] == NULL
    ensures Distinct(L + [d]) && Chained(if L == [] then next else next[L[|L| - 1] := d], L + [d])
  {
    var M, next' := L + [d], if L == [] then next else next[L[|L| - 1] := d];
    forall k | 0 <= k < |M| ensures M[k] < |next'| && LinkOk(next', M, k) {
      if k < |L| {
        assert M[k] == L[k] && LinkOk(next, L, k);
      } else if L != [] {
        assert L[|L| - 1] in L;
      }
    }
  }

  lemma ChainedRest(next: seq<int>, L: seq<nat>)
    requires Chained(next, L) && Distinct(L) && L != []
    ensures Chained(next, L[1..]) && Distinct(L[1..]) && next[L[0]] == First(L[1..])
  {
    var M := L[1..];
    forall k | 0 <= k < |M| ensures M[k] < |next| && LinkOk(next, M, k) {
      assert M[k] == L[k + 1] && LinkOk(next, L, k + 1);
    }
    assert LinkOk(next, L, 0);
  }

  lemma ChainedCut(next: seq<int>, L: seq<nat>, i: nat)
    requires Chained(next, L) && Distinct(L) && 0 < i <= |L|
    ensures Chained(next[L[i - 1] := NULL], L[..i]) && Chained(next[L[i - 1] := NULL], L[i..])
    ensures Distinct(L[..i]) && Distinct(L[i..]) && next[L[i - 1]] == First(L[i..])
  {
    var A, B, next' := L[..i], L[i..], next[L[i - 1] := NULL];
    forall k | 0 <= k < |A| ensures A[k] < |next'| && LinkOk(next', A, k) {
      assert A[k] == L[k] && LinkOk(next, L, k);
      if k < i - 1 {
        assert L[k] != L[i - 1];
      }
    }
    forall k | 0 <= k < |B| ensures B[k] < |next'| && LinkOk(next', B, k) {
      assert B[k] == L[i + k] && LinkOk(next, L, i + k);
      assert L[i - 1] != L[i + k];
    }
    assert LinkOk(next, L, i - 1);
  }

  lemma ChainedJoin(next: seq<int>, L: seq<nat>, i: nat, F: seq<nat>)
    requires Chained(next, L) && Distinct(L) && 0 < i <= |L| && Chained(next, F) && Distinct(F)
    requires forall x :: x in F ==> x !in L
    ensures Chained(next[L[i - 1] := First(F)], L[..i] + F) && Chained(next[L[i - 1] := First(F)], L[i..])
    ensures Distinct(L[..i] + F) && Distinct(L[i..]) && next[L[i - 1]] == First(L[i..])
  {
    var A, B, next' := L[..i] + F, L[i..], next[L[i - 1] := First(F)];
    assert L[i - 1] in L;
    forall k | 0 <= k < |A| ensures A[k] < |next'| && LinkOk(next', A, k) {
      if k < i {
        assert A[k] == L[k] && LinkOk(next, L, k);
        if k < i - 1 {
          assert L[k] != L[i - 1];
        }
      } else {
        assert A[k] == F[k - i] && F[k - i] in F && LinkOk(next, F, k - i);
      }
    }
    ChainedCut(next, L, i);
    forall k | 0 <= k < |B| ensures B[k] < |next'| && LinkOk(next', B, k) {
      assert B[k] == L[i + k] && LinkOk(next, L, i + k);
      assert L[i - 1] != L[i + k];
    }
    JoinedDistinct(L, i, F);
  }

  lemma JoinedDistinct(L: seq<nat>, i: nat, F: seq<nat>)
    requires Distinct(L) && i <= |L| && Distinct(F) && forall x :: x in F ==> x !in L
    ensures Distinct(L[..i] + F)
  {
    var A := L[..i] + F;
    forall j, k | 0 <= j < k < |A| ensures A[j] != A[k] {
      if k < i {
        assert A[j] == L[j] && A[k] == L[k];
      } else if j < i {
        assert A[j] == L[j] && L[j] in L && A[k] == F[k - i] && F[k - i] in F;
      } else {
        assert A[j] == F[j - i] && A[k] == F[k - i];
      }
    }
  }

  // ---------------------------------------------------------------------- what Valid comes to

  /** Conservation: a descriptor in someone's hands is on no list, and any other one is on exactly one list,
      once. */
  lemma ExactlyOnePlace(p: Pool, d: nat)
    requires Valid(p) && d < |p.next|
    ensures |p.place| == |p.next|
    ensures p.place[d].InHand? <==> forall l :: 0 <= l < |p.lists| ==> d !in p.lists[l]
    ensures forall l, m :: 0 <= l < |p.lists| && 0 <= m < |p.lists| && d in p.lists[l] && d in p.lists[m] ==> l == m
    ensures forall l, i, j :: 0 <= l < |p.lists| && 0 <= i < j < |p.lists[l]| ==> p.lists[l][i] != p.lists[l][j]
  {
    assert PlaceOk(p, d);
    forall l | 0 <= l < |p.lists| ensures d in p.lists[l] ==> p.place[d] == On(l) {
      Members(p, l);
    }
    forall l, i, j | 0 <= l < |p.lists| && 0 <= i < j < |p.lists[l]| ensures p.lists[l][i] != p.lists[l][j] {
      assert ListOk(p, l);
    }
  }

  /** init_taskq as the program calls it: every build and every accepted number of queues will do. */
  method InitTaskq(b: Build, queues: nat, workers: nat) returns (t: TaskLists)
    requires 1 <= queues <= b.MaxTaskqueues()
    ensures fresh(t) && t.Ok() && |t.next| == b.MaxTasks() && |t.tail| == queues && |t.head| == 2 * queues + workers
    ensures forall l :: 0 <= l < |t.lists| ==>
              t.lists[l] == if queues <= l < 2 * queues then Block(b.MaxTasks(), queues, l - queues) else []
  {
    BuildsFit(b, queues);
    t := new TaskLists(b.MaxTasks(), queues, workers);
  }

  /** Where the links lead from h in n steps. */
  function Follow(next: seq<int>, h: int, n: nat): int
    decreases n
  {
    if n == 0 || !(0 <= h < |next|) then h else Follow(next, next[h], n - 1)
  }

  /** Walking a list from its head meets its descriptors in order and NULL after exactly `count` steps: no
      list has a cycle or a loose end. */
  lemma WalkIsTheList(p: Pool, l: nat, k: nat)
    requires Valid(p) && l < |p.lists| && k <= |p.lists[l]|
    ensures Shaped(p) && p.count[l] == |p.lists[l]|
    ensures Follow(p.next, p.head[l], k) == if k < |p.lists[l]| then p.lists[l][k] else NULL
  {
    assert ListOk(p, l);
    WalkFrom(p.next, p.lists[l], 0, k);
  }

  lemma {:induction false} WalkFrom(next: seq<int>, L: seq<nat>, i: nat, k: nat)
    requires Chained(next, L) && i + k <= |L|
    ensures Follow(next, if i < |L| then L[i] else NULL, k) == if i + k < |L| then L[i + k] else NULL
    decreases k
  {
    if k > 0 {
      assert LinkOk(next, L, i);
      WalkFrom(next, L, i + 1, k - 1);
    }
  }
}
