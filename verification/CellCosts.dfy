/** The bottom-up costs of the Barnes-Hut tree: every processor works through the leaves it created and then
    its cells, last created first; a cell takes the costs of its octants one by one, spinning until each
    is done. A step is a leaf, an octant taken, or a cell done; the processors' steps interleave freely. */
module CellCosts {
  import opened PrefixZones
  import opened Sequences
  import BarnesZones

  /** Nodes are numbered so that cells come in the order of their creation; -1 is no node. */
  datatype Node = Leaf(bodies: seq<BarnesZones.Body>) | Cell(sub: seq<int>)

  /** leaftab[p] and celltab[p] are what processor p created, in order; parent tells in which cell and octant
      a node hangs, and home where it comes in its processor's work. */
  datatype Config = Config(nodes: seq<Node>, leaftab: seq<seq<nat>>, celltab: seq<seq<nat>>,
                           parent: seq<(int, nat)>, home: seq<(nat, nat)>)

  datatype State = State(pos: seq<nat>, octant: seq<nat>, done: seq<bool>, cost: seq<nat>)

  function Reversed(s: seq<nat>): (r: seq<nat>)
    ensures |r| == |s| && forall i :: 0 <= i < |s| ==> r[i] == s[|s| - 1 - i]
  {
    seq(|s|, i requires 0 <= i < |s| => s[|s| - 1 - i])
  }

  /** What processor p works through. */
  function Work(c: Config, p: nat): seq<nat>
    requires p < |c.leaftab| && |c.celltab| == |c.leaftab|
  {
    Reversed(c.leaftab[p]) + Reversed(c.celltab[p])
  }

  /** A cell's octants are nodes that hang in no other place; cells among them were created after it. */
  predicate CellOk(c: Config, q: nat)
    requires q < |c.nodes| == |c.parent|
  {
    c.nodes[q].Cell? ==>
      && |c.nodes[q].sub| == 8
      && forall i :: 0 <= i < 8 && c.nodes[q].sub[i] != -1 ==> OctantOk(c, q, i, c.nodes[q].sub[i])
  }

  predicate OctantOk(c: Config, q: nat, i: nat, r: int)
    requires |c.nodes| == |c.parent|
  {
    0 <= r < |c.nodes| && c.parent[r] == (q, i) && (c.nodes[r].Cell? ==> r > q)
  }

  /** Every processor has entered its leaves and its cells in its tables, cells in the order of creation. */
  predicate TablesOk(c: Config, p: nat)
    requires p < |c.leaftab| == |c.celltab|
  {
    && (forall k :: 0 <= k < |c.leaftab[p]| ==> c.leaftab[p][k] < |c.nodes| && c.nodes[c.leaftab[p][k]].Leaf?)
    && (forall k :: 0 <= k < |c.celltab[p]| ==> c.celltab[p][k] < |c.nodes| && c.nodes[c.celltab[p][k]].Cell?)
    && (forall j, k :: 0 <= j < k < |c.celltab[p]| ==> c.celltab[p][j] < c.celltab[p][k])
  }

  predicate HomeOk(c: Config, b: nat)
    requires b < |c.home| && |c.leaftab| == |c.celltab|
  {
    var (p, k) := c.home[b];
    p < |c.leaftab| && k < |Work(c, p)| && Work(c, p)[k] == b
  }

  predicate WorkOk(c: Config, p: nat, k: nat)
    requires p < |c.leaftab| == |c.celltab| && k < |Work(c, p)|
  {
    Work(c, p)[k] < |c.home| && c.home[Work(c, p)[k]] == (p, k)
  }

  predicate Valid(c: Config) {
    && |c.parent| == |c.nodes| && |c.home| == |c.nodes| && |c.celltab| == |c.leaftab|
    && (forall q {:trigger CellOk(c, q)} :: 0 <= q < |c.nodes| ==> CellOk(c, q))
    && (forall p {:trigger TablesOk(c, p)} :: 0 <= p < |c.leaftab| ==> TablesOk(c, p))
    && (forall p, k {:trigger WorkOk(c, p, k)} :: 0 <= p < |c.leaftab| && 0 <= k < |Work(c, p)| ==> WorkOk(c, p, k))
    && (forall b {:trigger HomeOk(c, b)} :: 0 <= b < |c.nodes| ==> HomeOk(c, b))
  }

  predicate ValidState(c: Config, s: State) {
    && |s.pos| == |c.leaftab| == |c.celltab| && |s.octant| == |c.leaftab|
    && |s.done| == |c.nodes| && |s.cost| == |c.nodes|
    && forall p :: 0 <= p < |c.leaftab| ==> s.pos[p] <= |Work(c, p)| && s.octant[p] <= 8
  }

  predicate Init(c: Config, s: State) {
    && ValidState(c, s)
    && (forall p :: 0 <= p < |c.leaftab| ==> s.pos[p] == 0 && s.octant[p] == 0)
    && (forall b :: 0 <= b < |c.nodes| ==> !s.done[b])
  }

  predicate Working(c: Config, s: State, p: nat)
    requires ValidState(c, s)
  {
    p < |c.leaftab| && s.pos[p] < |Work(c, p)|
  }

  predicate Finished(c: Config, s: State)
    requires ValidState(c, s)
  {
    forall p :: 0 <= p < |c.leaftab| ==> !Working(c, s, p)
  }

  function Current(c: Config, s: State, p: nat): (b: nat)
    requires Valid(c) && ValidState(c, s) && Working(c, s, p)
    ensures b < |c.nodes| && c.home[b] == (p, s.pos[p])
  {
    assert WorkOk(c, p, s.pos[p]);
    Work(c, p)[s.pos[p]]
  }

  // -------------------------------------------------------------------------------- the steps

  /** A processor waits only at an octant that is not done. */
  predicate Enabled(c: Config, s: State, p: nat)
    requires Valid(c) && ValidState(c, s)
  {
    && Working(c, s, p)
    && var b := Current(c, s, p);
       assert CellOk(c, b);
       (c.nodes[b].Cell? && s.octant[p] < 8 && c.nodes[b].sub[s.octant[p]] != -1 ==>
          s.done[c.nodes[b].sub[s.octant[p]]])
  }

  function LeafDone(c: Config, s: State, p: nat): (s': State)
    requires Valid(c) && ValidState(c, s) && Working(c, s, p) && c.nodes[Current(c, s, p)].Leaf?
    ensures ValidState(c, s')
  {
    assert s.pos[p] < |Work(c, p)|;
    var b := Current(c, s, p);
    s.(pos := s.pos[p := s.pos[p] + 1], done := s.done[b := true], cost := s.cost[b := Total(c.nodes[b].bodies)])
  }

  function CellDone(c: Config, s: State, p: nat): (s': State)
    requires Valid(c) && ValidState(c, s) && Working(c, s, p)
    ensures ValidState(c, s')
  {
    assert s.pos[p] < |Work(c, p)|;
    s.(pos := s.pos[p := s.pos[p] + 1], octant := s.octant[p := 0], done := s.done[Current(c, s, p) := true])
  }

  /** The next octant of a cell; with the first one the cost starts at 0. */
  function TakeOctant(c: Config, s: State, p: nat): (s': State)
    requires Valid(c) && ValidState(c, s) && Working(c, s, p)
    requires c.nodes[Current(c, s, p)].Cell? && s.octant[p] < 8
    ensures ValidState(c, s')
  {
    var b, i := Current(c, s, p), s.octant[p];
    assert CellOk(c, b);
    var r, before := c.nodes[b].sub[i], if i == 0 then 0 else s.cost[b];
    if r == -1 then s.(octant := s.octant[p := i + 1], cost := s.cost[b := before])
    else
      s.(octant := s.octant[p := i + 1], cost := s.cost[b := before + s.cost[r]], done := s.done[r := false])
  }

  function Step(c: Config, s: State, p: nat): (s': State)
    requires Valid(c) && ValidState(c, s) && Enabled(c, s, p)
    ensures ValidState(c, s')
  {
    if c.nodes[Current(c, s, p)].Leaf? then LeafDone(c, s, p)
    else if s.octant[p] < 8 then TakeOctant(c, s, p)
    else CellDone(c, s, p)
  }

  // ------------------------------------------------------------------------ what should come out

  /** The cost of all bodies below a node. */
  function SubtreeCost(c: Config, b: nat): nat
    requires Valid(c) && b < |c.nodes|
    decreases if b < |c.nodes| && c.nodes[b].Cell? then 1 + |c.nodes| - b else 0, 9
  {
    match c.nodes[b]
    case Leaf(bodies) => Total(bodies)
    case Cell(_) => assert CellOk(c, b); OctantCosts(c, b, 8)
  }

  /** The cost below the first n octants of a cell. */
  function OctantCosts(c: Config, b: nat, n: nat): nat
    requires Valid(c) && b < |c.nodes| && c.nodes[b].Cell? && n <= 8
    decreases 1 + |c.nodes| - b, n
  {
    assert CellOk(c, b);
    if n == 0 then 0
    else OctantCosts(c, b, n - 1) + (if c.nodes[b].sub[n - 1] == -1 then 0 else SubtreeCost(c, c.nodes[b].sub[n - 1]))
  }

  // ---------------------------------------------------------------------------- the invariant

  predicate IsFinished(c: Config, s: State, b: nat)
    requires Valid(c) && ValidState(c, s) && b < |c.nodes|
  {
    assert HomeOk(c, b);
    c.home[b].1 < s.pos[c.home[b].0]
  }

  /** The cell that b hangs in has passed b's octant. */
  predicate Taken(c: Config, s: State, b: nat)
    requires Valid(c) && ValidState(c, s) && b < |c.nodes|
  {
    var (q, i) := c.parent[b];
    0 <= q < |c.nodes| && c.nodes[q].Cell? && (assert CellOk(c, q); i < 8 && c.nodes[q].sub[i] == b)
    && (IsFinished(c, s, q) || (assert HomeOk(c, q); s.pos[c.home[q].0] == c.home[q].1 && i < s.octant[c.home[q].0]))
  }

  predicate NodeInv(c: Config, s: State, b: nat)
    requires Valid(c) && ValidState(c, s) && b < |c.nodes|
  {
    && (s.done[b] <==> IsFinished(c, s, b) && !Taken(c, s, b))
    && (Taken(c, s, b) ==> IsFinished(c, s, b))
    && (IsFinished(c, s, b) ==> s.cost[b] == SubtreeCost(c, b))
  }

  /** A processor part of the way through a cell has added up the octants so far. */
  predicate ProcInv(c: Config, s: State, p: nat)
    requires Valid(c) && ValidState(c, s) && p < |c.leaftab|
  {
    && (s.octant[p] > 0 ==> Working(c, s, p) && c.nodes[Current(c, s, p)].Cell?)
    && (s.octant[p] > 0 ==> s.cost[Current(c, s, p)] == OctantCosts(c, Current(c, s, p), s.octant[p]))
  }

  predicate Inv(c: Config, s: State)
    requires Valid(c)
  {
    && ValidState(c, s)
    && (forall b {:trigger NodeInv(c, s, b)} :: 0 <= b < |c.nodes| ==> NodeInv(c, s, b))
    && (forall p {:trigger ProcInv(c, s, p)} :: 0 <= p < |c.leaftab| ==> ProcInv(c, s, p))
  }

  lemma InitInv(c: Config, s: State)
    requires Valid(c) && Init(c, s)
    ensures Inv(c, s)
  {
    forall b | 0 <= b < |c.nodes| ensures NodeInv(c, s, b) {
      assert HomeOk(c, b);
      assert 0 <= c.parent[b].0 < |c.nodes| ==> HomeOk(c, c.parent[b].0);
    }
  }

  /** Finishing the current node finishes no other. */
  lemma OneMoreFinished(c: Config, s: State, s': State, p: nat, x: nat)
    requires Valid(c) && ValidState(c, s) && ValidState(c, s') && Working(c, s, p) && x < |c.nodes|
    requires s'.pos == s.pos[p := s.pos[p] + 1]
    ensures IsFinished(c, s', x) <==> IsFinished(c, s, x) || x == Current(c, s, p)
  {
    assert HomeOk(c, x) && WorkOk(c, p, s.pos[p]);
  }

  /** When a node is finished, and its processor starts afresh on the next, no octant counts as passed that
      did not before. */
  lemma PassedStays(c: Config, s: State, s': State, p: nat, x: nat)
    requires Valid(c) && Inv(c, s) && ValidState(c, s') && Working(c, s, p) && x < |c.nodes|
    requires s'.pos == s.pos[p := s.pos[p] + 1] && s'.octant == s.octant[p := 0]
    requires c.nodes[Current(c, s, p)].Leaf? || s.octant[p] == 8
    ensures Taken(c, s', x) <==> Taken(c, s, x)
  {
    var (q, i) := c.parent[x];
    if 0 <= q < |c.nodes| && c.nodes[q].Cell? {
      assert CellOk(c, q) && HomeOk(c, q) && WorkOk(c, p, s.pos[p]) && ProcInv(c, s, p);
      OneMoreFinished(c, s, s', p, q);
    }
  }

  /** Everyone else's sum is untouched by a change to one unfinished node of processor p. */
  lemma OtherProcs(c: Config, s: State, s': State, p: nat, p': nat)
    requires Valid(c) && Inv(c, s) && ValidState(c, s') && Working(c, s, p) && p' < |c.leaftab| && p' != p
    requires s'.pos[p'] == s.pos[p'] && s'.octant[p'] == s.octant[p']
    requires forall x :: 0 <= x < |c.nodes| && x != Current(c, s, p) ==> s'.cost[x] == s.cost[x]
    ensures ProcInv(c, s', p')
  {
    assert ProcInv(c, s, p');
    if s.octant[p'] > 0 {
      assert c.home[Current(c, s, p')] == (p', s.pos[p']) && c.home[Current(c, s, p)] == (p, s.pos[p]);
    }
  }

  lemma NotYetFinished(c: Config, s: State, p: nat)
    requires Valid(c) && Inv(c, s) && Working(c, s, p)
    ensures var b := Current(c, s, p); !IsFinished(c, s, b) && !Taken(c, s, b) && !s.done[b]
  {
    assert NodeInv(c, s, Current(c, s, p)) && HomeOk(c, Current(c, s, p));
  }

  /** A node becomes done, with the cost of its subtree, and its processor goes on to the next. */
  lemma DoneInv(c: Config, s: State, s': State, p: nat)
    requires Valid(c) && Inv(c, s) && ValidState(c, s') && Working(c, s, p)
    requires c.nodes[Current(c, s, p)].Leaf? || s.octant[p] == 8
    requires var b := Current(c, s, p);
             && s'.pos == s.pos[p := s.pos[p] + 1] && s'.octant == s.octant[p := 0] && s'.done == s.done[b := true]
             && s'.cost == s.cost[b := SubtreeCost(c, b)]
    ensures Inv(c, s')
  {
    NotYetFinished(c, s, p);
    forall x | 0 <= x < |c.nodes| ensures NodeInv(c, s', x) {
      assert NodeInv(c, s, x);
      OneMoreFinished(c, s, s', p, x);
      PassedStays(c, s, s', p, x);
    }
    forall p' | 0 <= p' < |c.leaftab| ensures ProcInv(c, s', p') {
      if p' != p {
        OtherProcs(c, s, s', p, p');
      }
    }
  }

  lemma LeafDoneInv(c: Config, s: State, p: nat)
    requires Valid(c) && Inv(c, s) && Working(c, s, p) && c.nodes[Current(c, s, p)].Leaf?
    ensures Inv(c, LeafDone(c, s, p))
  {
    assert ProcInv(c, s, p);
    assert s.octant == s.octant[p := 0];
    DoneInv(c, s, LeafDone(c, s, p), p);
  }

  lemma CellDoneInv(c: Config, s: State, p: nat)
    requires Valid(c) && Inv(c, s) && Working(c, s, p) && c.nodes[Current(c, s, p)].Cell? && s.octant[p] == 8
    ensures Inv(c, CellDone(c, s, p))
  {
    var b := Current(c, s, p);
    assert ProcInv(c, s, p) && CellOk(c, b);
    assert s.cost == s.cost[b := SubtreeCost(c, b)];
    DoneInv(c, s, CellDone(c, s, p), p);
  }

  /** Passing an octant takes the node in it, if any, and no other. */
  lemma OneMoreTaken(c: Config, s: State, s': State, p: nat, x: nat)
    requires Valid(c) && Inv(c, s) && ValidState(c, s') && Working(c, s, p) && x < |c.nodes|
    requires c.nodes[Current(c, s, p)].Cell? && s.octant[p] < 8
    requires s'.pos == s.pos && s'.octant == s.octant[p := s.octant[p] + 1]
    ensures CellOk(c, Current(c, s, p))
    ensures Taken(c, s', x) <==> Taken(c, s, x) || x == c.nodes[Current(c, s, p)].sub[s.octant[p]]
    ensures x == c.nodes[Current(c, s, p)].sub[s.octant[p]] ==> !Taken(c, s, x)
  {
    var b := Current(c, s, p);
    assert CellOk(c, b) && HomeOk(c, b);
    var r := c.nodes[b].sub[s.octant[p]];
    assert r != -1 ==> OctantOk(c, b, s.octant[p], r);
    var (q, i) := c.parent[x];
    if 0 <= q < |c.nodes| && c.nodes[q].Cell? {
      assert CellOk(c, q) && HomeOk(c, q);
    }
    NotYetFinished(c, s, p);
  }

  lemma TakeOctantInv(c: Config, s: State, p: nat)
    requires Valid(c) && Inv(c, s) && Enabled(c, s, p) && c.nodes[Current(c, s, p)].Cell? && s.octant[p] < 8
    ensures Inv(c, TakeOctant(c, s, p))
  {
    var s', b := TakeOctant(c, s, p), Current(c, s, p);
    NotYetFinished(c, s, p);
    OctantCounted(c, s, p);
    forall x | 0 <= x < |c.nodes| ensures NodeInv(c, s', x) {
      assert NodeInv(c, s, x);
      OneMoreTaken(c, s, s', p, x);
    }
    forall p' | 0 <= p' < |c.leaftab| ensures ProcInv(c, s', p') {
      if p' != p {
        OtherProcs(c, s, s', p, p');
      }
    }
  }

  lemma OctantCounted(c: Config, s: State, p: nat)
    requires Valid(c) && Inv(c, s) && Enabled(c, s, p) && c.nodes[Current(c, s, p)].Cell? && s.octant[p] < 8
    ensures ProcInv(c, TakeOctant(c, s, p), p)
  {
    var b, i := Current(c, s, p), s.octant[p];
    assert CellOk(c, b) && ProcInv(c, s, p);
    var r := c.nodes[b].sub[i];
    if r != -1 {
      assert OctantOk(c, b, i, r) && NodeInv(c, s, r);
    }
  }

  /** Every step of every processor keeps the costs right, each node's flag up exactly from when it is
      finished until it is taken, and each partial sum in step with the octants passed. */
  lemma StepInv(c: Config, s: State, p: nat)
    requires Valid(c) && Inv(c, s) && Enabled(c, s, p)
    ensures Inv(c, Step(c, s, p))
  {
    if c.nodes[Current(c, s, p)].Leaf? {
      LeafDoneInv(c, s, p);
    } else if s.octant[p] < 8 {
      TakeOctantInv(c, s, p);
    } else {
      CellDoneInv(c, s, p);
    }
  }

  // ------------------------------------------------------------------------- nothing gets stuck

  /** Behind a cell there are only cells created earlier. */
  lemma WorkFalls(c: Config, p: nat, j: nat, k: nat)
    requires Valid(c) && p < |c.leaftab| && j < k < |Work(c, p)|
    ensures WorkOk(c, p, j) && WorkOk(c, p, k)
    ensures c.nodes[Work(c, p)[j]].Cell? ==> c.nodes[Work(c, p)[k]].Cell? && Work(c, p)[k] < Work(c, p)[j]
  {
    assert WorkOk(c, p, j) && WorkOk(c, p, k) && TablesOk(c, p);
    var leaves, cells := |c.leaftab[p]|, |c.celltab[p]|;
    if j < leaves {
      assert Work(c, p)[j] == c.leaftab[p][leaves - 1 - j];
    } else {
      assert Work(c, p)[j] == c.celltab[p][cells - 1 - (j - leaves)];
      assert Work(c, p)[k] == c.celltab[p][cells - 1 - (k - leaves)];
    }
  }

  /** Whoever has the octant that p waits for is at a leaf, or at a cell created after p's. */
  lemma WaitsForLater(c: Config, s: State, p: nat) returns (q: nat)
    requires Valid(c) && Inv(c, s) && Working(c, s, p) && !Enabled(c, s, p)
    ensures Working(c, s, q)
    ensures c.nodes[Current(c, s, q)].Leaf? || (c.nodes[Current(c, s, p)].Cell? && Current(c, s, q) > Current(c, s, p))
  {
    var b, i := Current(c, s, p), s.octant[p];
    assert CellOk(c, b);
    var r := c.nodes[b].sub[i];
    assert OctantOk(c, b, i, r) && NodeInv(c, s, r) && HomeOk(c, b) && HomeOk(c, r);
    NotYetFinished(c, s, p);
    assert !Taken(c, s, r);
    var (r0, k) := c.home[r];
    q := r0;
    if s.pos[q] < k {
      WorkFalls(c, q, s.pos[q], k);
    }
  }

  /** Some processor can always take a step, as long as one is working. */
  lemma {:induction false} SomeoneCanStep(c: Config, s: State, p: nat) returns (q: nat)
    requires Valid(c) && Inv(c, s) && Working(c, s, p)
    ensures Enabled(c, s, q)
    decreases if Valid(c) && ValidState(c, s) && Working(c, s, p) && c.nodes[Current(c, s, p)].Cell?
              then 1 + |c.nodes| - Current(c, s, p) else 0
  {
    if Enabled(c, s, p) {
      q := p;
    } else {
      var later := WaitsForLater(c, s, p);
      q := SomeoneCanStep(c, s, later);
    }
  }

  // ----------------------------------------------------------------------------- all the steps

  /** A leaf takes one step, a cell one for each octant and one to be done. */
  function Weight(n: Node): nat {
    if n.Leaf? then 1 else 9
  }

  /** The steps for what is listed from place k on. */
  function StepsFrom(c: Config, list: seq<nat>, k: nat): nat
    requires InRange(list, |c.nodes|) && k <= |list|
    decreases |list| - k
  {
    if k == |list| then 0 else Weight(c.nodes[list[k]]) + StepsFrom(c, list, k + 1)
  }

  lemma WorkInRange(c: Config, p: nat)
    requires Valid(c) && p < |c.leaftab|
    ensures InRange(Work(c, p), |c.nodes|)
  {
    forall k | 0 <= k < |Work(c, p)| ensures Work(c, p)[k] < |c.nodes| {
      assert WorkOk(c, p, k);
    }
  }

  function StepsLeft(c: Config, s: State, p: nat): int
    requires Valid(c) && ValidState(c, s) && p < |c.leaftab|
  {
    WorkInRange(c, p);
    StepsFrom(c, Work(c, p), s.pos[p]) - s.octant[p]
  }

  /** The steps that the first n processors have left. */
  function AllLeft(c: Config, s: State, n: nat): int
    requires Valid(c) && ValidState(c, s) && n <= |c.leaftab|
  {
    if n == 0 then 0 else AllLeft(c, s, n - 1) + StepsLeft(c, s, n - 1)
  }

  lemma StepTaken(c: Config, s: State, p: nat)
    requires Valid(c) && Inv(c, s) && Enabled(c, s, p)
    ensures StepsLeft(c, Step(c, s, p), p) == StepsLeft(c, s, p) - 1
    ensures forall p' :: 0 <= p' < |c.leaftab| && p' != p ==> StepsLeft(c, Step(c, s, p), p') == StepsLeft(c, s, p')
  {
    assert ProcInv(c, s, p);
    WorkInRange(c, p);
  }

  lemma {:induction false} OneStepLess(c: Config, s: State, p: nat, n: nat)
    requires Valid(c) && Inv(c, s) && Enabled(c, s, p) && n <= |c.leaftab|
    ensures AllLeft(c, Step(c, s, p), n) == AllLeft(c, s, n) - (if p < n then 1 else 0)
  {
    if n > 0 {
      OneStepLess(c, s, p, n - 1);
      StepTaken(c, s, p);
    }
  }

  lemma WorkingHasSteps(c: Config, s: State, p: nat)
    requires Valid(c) && Inv(c, s) && p < |c.leaftab|
    ensures StepsLeft(c, s, p) >= 0 && (StepsLeft(c, s, p) > 0 <==> Working(c, s, p))
  {
    assert ProcInv(c, s, p);
    WorkInRange(c, p);
  }

  lemma {:induction false} NoneLeft(c: Config, s: State, n: nat)
    requires Valid(c) && Inv(c, s) && n <= |c.leaftab|
    ensures AllLeft(c, s, n) >= 0 && (AllLeft(c, s, n) == 0 <==> forall p :: 0 <= p < n ==> !Working(c, s, p))
  {
    if n > 0 {
      NoneLeft(c, s, n - 1);
      WorkingHasSteps(c, s, n - 1);
    }
  }

  /** s' follows from s by the interleaving `steps`. */
  predicate Reaches(c: Config, s: State, steps: seq<nat>, s': State)
    requires Valid(c)
    decreases steps
  {
    if steps == [] then s' == s
    else ValidState(c, s) && Enabled(c, s, steps[0]) && Reaches(c, Step(c, s, steps[0]), steps[1..], s')
  }

  lemma {:induction false} RunInv(c: Config, s: State, steps: seq<nat>, s': State)
    requires Valid(c) && Inv(c, s) && Reaches(c, s, steps, s')
    ensures Inv(c, s') && AllLeft(c, s', |c.leaftab|) + |steps| == AllLeft(c, s, |c.leaftab|)
    decreases steps
  {
    if steps != [] {
      StepInv(c, s, steps[0]);
      OneStepLess(c, s, steps[0], |c.leaftab|);
      RunInv(c, Step(c, s, steps[0]), steps[1..], s');
    }
  }

  /** b hangs in an octant of some cell. */
  predicate Hangs(c: Config, b: nat)
    requires Valid(c) && b < |c.nodes|
  {
    var (q, i) := c.parent[b];
    0 <= q < |c.nodes| && c.nodes[q].Cell? && (assert CellOk(c, q); i < 8 && c.nodes[q].sub[i] == b)
  }

  lemma AtTheEnd(c: Config, s: State, b: nat)
    requires Valid(c) && Inv(c, s) && Finished(c, s) && b < |c.nodes|
    ensures s.cost[b] == SubtreeCost(c, b) && (s.done[b] <==> !Hangs(c, b))
  {
    assert NodeInv(c, s, b) && HomeOk(c, b);
    assert !Working(c, s, c.home[b].0);
    var q := c.parent[b].0;
    if 0 <= q < |c.nodes| {
      assert HomeOk(c, q) && !Working(c, s, c.home[q].0);
    }
  }

  /** No interleaving deadlocks: every run can go on until all processors are through, which is after a fixed
      number of steps; then each node has the cost of its subtree, and only a root's flag is still up. */
  lemma EveryRunSumsUp(c: Config, s: State, steps: seq<nat>, s': State)
    requires Valid(c) && Init(c, s) && Reaches(c, s, steps, s')
    ensures ValidState(c, s') && |steps| <= AllLeft(c, s, |c.leaftab|)
    ensures Finished(c, s') <==> |steps| == AllLeft(c, s, |c.leaftab|)
    ensures !Finished(c, s') ==> exists q :: Enabled(c, s', q)
    ensures Finished(c, s') ==>
              forall b :: 0 <= b < |c.nodes| ==> s'.cost[b] == SubtreeCost(c, b) && (s'.done[b] <==> !Hangs(c, b))
  {
    InitInv(c, s);
    RunInv(c, s, steps, s');
    NoneLeft(c, s', |c.leaftab|);
    if !Finished(c, s') {
      var p :| 0 <= p < |c.leaftab| && Working(c, s', p);
      var q := SomeoneCanStep(c, s', p);
    } else {
      forall b | 0 <= b < |c.nodes|
        ensures s'.cost[b] == SubtreeCost(c, b) && (s'.done[b] <==> !Hangs(c, b))
      {
        AtTheEnd(c, s', b);
      }
    }
  }

  // ---------------------------------------------------------------- the tree that is walked then

  /** The tree below a node with its costs, as the cost zones are cut from it. */
  function TreeOf(c: Config, cost: seq<nat>, b: int): BarnesZones.Node
    requires Valid(c) && |cost| == |c.nodes| && -1 <= b < |c.nodes|
    decreases if 0 <= b < |c.nodes| && c.nodes[b].Cell? then 1 + |c.nodes| - b else 0, 9
  {
    if b == -1 then BarnesZones.Null
    else match c.nodes[b]
      case Leaf(bodies) => BarnesZones.Leaf(cost[b], bodies)
      case Cell(_) => assert CellOk(c, b); BarnesZones.Cell(cost[b], Octants(c, cost, b, 0))
  }

  /** The trees in a cell's octants from the n-th on. */
  function Octants(c: Config, cost: seq<nat>, b: nat, n: nat): (r: seq<BarnesZones.Node>)
    requires Valid(c) && |cost| == |c.nodes| && b < |c.nodes| && c.nodes[b].Cell? && n <= 8
    ensures |r| == 8 - n
    decreases 1 + |c.nodes| - b, 8 - n
  {
    assert CellOk(c, b);
    if n == 8 then []
    else
      assert c.nodes[b].sub[n] != -1 ==> OctantOk(c, b, n, c.nodes[b].sub[n]);
      [TreeOf(c, cost, c.nodes[b].sub[n])] + Octants(c, cost, b, n + 1)
  }

  predicate AllRight(c: Config, cost: seq<nat>)
    requires Valid(c)
  {
    |cost| == |c.nodes| && forall b :: 0 <= b < |c.nodes| ==> cost[b] == SubtreeCost(c, b)
  }

  /** What the walk of the cost zones asks of its tree: these costs are summed upwards. */
  lemma {:induction false} CostsAreSummed(c: Config, cost: seq<nat>, b: int)
    requires Valid(c) && AllRight(c, cost) && -1 <= b < |c.nodes|
    ensures BarnesZones.CostsSummed(TreeOf(c, cost, b))
    ensures BarnesZones.CostOf(TreeOf(c, cost, b)) == if b == -1 then 0 else SubtreeCost(c, b)
    decreases if 0 <= b < |c.nodes| && c.nodes[b].Cell? then 1 + |c.nodes| - b else 0, 9
  {
    if b != -1 && c.nodes[b].Cell? {
      assert CellOk(c, b);
      OctantsAreSummed(c, cost, b, 0);
    }
  }

  lemma {:induction false} OctantsAreSummed(c: Config, cost: seq<nat>, b: nat, n: nat)
    requires Valid(c) && AllRight(c, cost) && b < |c.nodes| && c.nodes[b].Cell? && n <= 8
    ensures forall t :: t in Octants(c, cost, b, n) ==> BarnesZones.CostsSummed(t)
    ensures BarnesZones.SumCosts(Octants(c, cost, b, n)) == OctantCosts(c, b, 8) - OctantCosts(c, b, n)
    decreases 1 + |c.nodes| - b, 8 - n
  {
    assert CellOk(c, b);
    if n < 8 {
      var r := c.nodes[b].sub[n];
      assert r != -1 ==> OctantOk(c, b, n, r);
      CostsAreSummed(c, cost, r);
      OctantsAreSummed(c, cost, b, n + 1);
      assert Octants(c, cost, b, n)[1..] == Octants(c, cost, b, n + 1);
    }
  }

  /** So after the reduction every tree is ready for the cost zones. */
  lemma ReadyForZones(c: Config, s: State, steps: seq<nat>, s': State, root: nat)
    requires Valid(c) && Init(c, s) && Reaches(c, s, steps, s') && root < |c.nodes|
    ensures ValidState(c, s')
    ensures Finished(c, s') ==>
              var t := TreeOf(c, s'.cost, root);
              BarnesZones.CostsSummed(t) && BarnesZones.CostOf(t) == SubtreeCost(c, root)
  {
    EveryRunSumsUp(c, s, steps, s');
    if Finished(c, s') {
      CostsAreSummed(c, s'.cost, root);
    }
  }
}
