/** Barnes-Hut tree building: all processors insert their bodies into one octree at the same time, looking
    at a slot without a lock and looking again under the lock of its cell. A step is one look or one
    locked region; the processors' steps interleave freely. Nodes are named by their path from the root,
    and a slot that is not in the map is NULL. */
module ConcurrentOctree {
  import opened Arithmetic
  import opened Sequences
  import opened OctantPaths

  const MAX_BODIES_PER_LEAF := 10

  type Path = seq<nat>

  datatype Node = Leaf(level: nat, bodies: seq<nat>) | Cell(level: nat)

  /** lists[p] holds the bodies of processor p, and place where each body is listed; octantOf(b, l) is the
      octant body b belongs to on level l. */
  datatype Config = Config(maxLevel: nat, bodies: nat, octantOf: (nat, nat) -> nat, lists: seq<seq<nat>>,
                           place: seq<(nat, nat)>)

  /** Where a processor is in inserting its next body; `at` is mynode. */
  datatype Pc =
    | Next                       // about to start on a body, or through
    | Top(at: Path)              // about to look at the slot
    | LockEmpty(at: Path)        // saw NULL
    | SecondLook(at: Path)       // about to look whether it is a leaf
    | LockLeaf(at: Path)         // saw a leaf
    | Down(at: Path)             // about to move down one level
    | NotEnoughLevels(at: Path)  // the error exit

  /** next counts the bodies a processor has finished; loaded is the history of what was put in. */
  datatype State = State(nodes: map<Path, Node>, next: seq<nat>, pc: seq<Pc>, loaded: set<nat>)

  ghost predicate Valid(c: Config) {
    && c.maxLevel > 1 && |c.place| == c.bodies
    && (forall b, l :: c.octantOf(b, l) < 8)
    && (forall p, k :: 0 <= p < |c.lists| && 0 <= k < |c.lists[p]| ==>
          c.lists[p][k] < c.bodies && c.place[c.lists[p][k]] == (p, k))
  }

  predicate ValidState(c: Config, s: State) {
    && |s.next| == |c.lists| && |s.pc| == |c.lists|
    && forall p :: 0 <= p < |c.lists| ==> s.next[p] <= |c.lists[p]|
  }

  predicate Init(c: Config, s: State) {
    && ValidState(c, s) && s.nodes == map[[] := Cell(Level(c.maxLevel, 0))] && s.loaded == {}
    && forall p :: 0 <= p < |c.lists| ==> s.next[p] == 0 && s.pc[p] == Next
  }

  // -------------------------------------------------------------------------------- the steps

  /** The bodies of a full leaf that go to octant i of the cell replacing it. */
  function Octant(c: Config, bodies: seq<nat>, l: nat, i: nat): (r: seq<nat>)
    ensures |r| <= |bodies|
    ensures forall b :: b in r <==> b in bodies && c.octantOf(b, l) == i
    ensures Distinct(bodies) ==> Distinct(r)
  {
    if bodies == [] then []
    else
      var last := |bodies| - 1;
      var front := Octant(c, bodies[..last], l, i);
      if c.octantOf(bodies[last], l) == i then front + [bodies[last]] else front
  }

  /** SubdivideLeaf: a cell in the leaf's slot, with a leaf for every octant that gets a body. */
  function Subdivided(c: Config, nodes: map<Path, Node>, slot: Path, l: nat, bodies: seq<nat>): map<Path, Node>
  {
    nodes[slot := Cell(l)]
    + (map path: Path | path in Below(slot) && Octant(c, bodies, l, path[|slot|]) != []
         :: Leaf(l / 2, Octant(c, bodies, l, path[|slot|])))
  }

  /** SubdivideLeaf's loop over the old leaf's bodies; kids[i] is the new leaf in octant i. */
  method DistributeBodies(c: Config, bodies: seq<nat>, l: nat) returns (kids: seq<seq<nat>>)
    requires Valid(c)
    ensures |kids| == 8 && forall i :: 0 <= i < 8 ==> kids[i] == Octant(c, bodies, l, i)
  {
    kids := [[], [], [], [], [], [], [], []];
    var i := 0;
    while i < |bodies|
      invariant 0 <= i <= |bodies| && |kids| == 8
      invariant forall q :: 0 <= q < 8 ==> kids[q] == Octant(c, bodies[..i], l, q)
    {
      var index := c.octantOf(bodies[i], l);
      assert bodies[..i + 1][..i] == bodies[..i];
      kids := kids[index := kids[index] + [bodies[i]]];
      i := i + 1;
    }
    assert bodies[..i] == bodies;
  }

  /** The slots of a cell. */
  function Below(slot: Path): (r: set<Path>)
    ensures forall path :: path in r ==> |path| == |slot| + 1 && path[..|slot|] == slot && path[|slot|] < 8
    ensures forall i: nat :: i < 8 ==> slot + [i] in r
  {
    {slot + [0], slot + [1], slot + [2], slot + [3], slot + [4], slot + [5], slot + [6], slot + [7]}
  }

  predicate Working(c: Config, s: State, p: nat)
    requires ValidState(c, s)
  {
    p < |c.lists| && s.next[p] < |c.lists[p]|
  }

  function Current(c: Config, s: State, p: nat): (b: nat)
    requires Valid(c) && ValidState(c, s) && Working(c, s, p)
    ensures b < c.bodies && c.place[b] == (p, s.next[p])
  {
    c.lists[p][s.next[p]]
  }

  /** mynode is a cell, and its level still has a bit to offer. */
  predicate AtCell(nodes: map<Path, Node>, at: Path) {
    at in nodes && nodes[at].Cell? && nodes[at].level > 0
  }

  /** qptr: the slot of mynode that the body's coordinates pick. */
  function Slot(c: Config, nodes: map<Path, Node>, at: Path, b: nat): Path
    requires AtCell(nodes, at)
  {
    at + [c.octantOf(b, nodes[at].level)]
  }

  predicate HasAt(pc: Pc) {
    pc != Next
  }

  predicate Enabled(c: Config, s: State, p: nat)
    requires Valid(c) && ValidState(c, s)
  {
    Working(c, s, p) && !s.pc[p].NotEnoughLevels?
  }

  /** The nodes a step looks at are there: mynode is a cell, and past the look at the level the slot has a
      level of its own. */
  predicate Ready(c: Config, s: State, p: nat)
    requires Valid(c) && ValidState(c, s) && Enabled(c, s, p)
  {
    && (HasAt(s.pc[p]) ==> AtCell(s.nodes, s.pc[p].at))
    && (HasAt(s.pc[p]) && !s.pc[p].Top? ==> s.nodes[s.pc[p].at].level / 2 > 0)
  }

  /** The body is in the tree; on to the processor's next one. */
  function Placed(c: Config, s: State, p: nat, slot: Path, leaf: Node): State
    requires Valid(c) && ValidState(c, s) && Working(c, s, p)
  {
    State(s.nodes[slot := leaf], s.next[p := s.next[p] + 1], s.pc[p := Next], s.loaded + {Current(c, s, p)})
  }

  function Go(s: State, p: nat, pc: Pc): State
    requires p < |s.pc|
  {
    s.(pc := s.pc[p := pc])
  }

  function Step(c: Config, s: State, p: nat): State
    requires Valid(c) && ValidState(c, s) && Enabled(c, s, p) && Ready(c, s, p)
  {
    var b := Current(c, s, p);
    match s.pc[p]
    case Next => Go(s, p, Top([]))
    case Top(at) =>
      var slot, l := Slot(c, s.nodes, at, b), s.nodes[at].level / 2;
      Go(s, p, if l == 0 then NotEnoughLevels(at) else if slot !in s.nodes then LockEmpty(at) else SecondLook(at))
    case LockEmpty(at) =>
      var slot, l := Slot(c, s.nodes, at, b), s.nodes[at].level / 2;
      if slot !in s.nodes then Placed(c, s, p, slot, Leaf(l, [b])) else Go(s, p, SecondLook(at))
    case SecondLook(at) =>
      var slot := Slot(c, s.nodes, at, b);
      Go(s, p, if slot in s.nodes && s.nodes[slot].Leaf? then LockLeaf(at) else Down(at))
    case LockLeaf(at) =>
      var slot, l := Slot(c, s.nodes, at, b), s.nodes[at].level / 2;
      if slot !in s.nodes || !s.nodes[slot].Leaf? then Go(s, p, Down(at))
      else
        var bodies := s.nodes[slot].bodies;
        if |bodies| == MAX_BODIES_PER_LEAF then Go(s, p, Down(at)).(nodes := Subdivided(c, s.nodes, slot, l, bodies))
        else Placed(c, s, p, slot, s.nodes[slot].(bodies := bodies + [b]))
    case Down(at) => Go(s, p, Top(Slot(c, s.nodes, at, b)))
  }

  // -------------------------------------------------------------------------- the invariant

  /** The path leads towards the body. */
  predicate Leads(c: Config, path: Path, b: nat) {
    b < c.bodies && path == WayOf(c, b, |path|)
  }

  /** The first n octants on the way of a body. */
  function WayOf(c: Config, b: nat, n: nat): (path: Path)
    ensures |path| == n
  {
    if n == 0 then [] else WayOf(c, b, n - 1) + [c.octantOf(b, Level(c.maxLevel, n - 1))]
  }

  /** Loaded bodies a path leads to. */
  function Under(c: Config, loaded: set<nat>, path: Path): set<nat> {
    set b | b in loaded && Leads(c, path, b)
  }

  predicate LeafInv(c: Config, loaded: set<nat>, path: Path, bodies: seq<nat>) {
    && 1 <= |bodies| <= MAX_BODIES_PER_LEAF && Distinct(bodies)
    && forall k :: 0 <= k < |bodies| ==> bodies[k] in loaded && Leads(c, path, bodies[k])
  }

  predicate NodeInv(c: Config, loaded: set<nat>, nodes: map<Path, Node>, path: Path)
    requires path in nodes
  {
    && |path| <= c.maxLevel && nodes[path].level == Level(c.maxLevel, |path|)
    && (path != [] ==> path[..|path| - 1] in nodes && nodes[path[..|path| - 1]].Cell?)
    && match nodes[path]
       case Leaf(_, bodies) => path != [] && LeafInv(c, loaded, path, bodies)
       case Cell(level) => level > 0 && (path != [] ==> |Under(c, loaded, path)| >= MAX_BODIES_PER_LEAF)
  }

  predicate TreeInv(c: Config, loaded: set<nat>, nodes: map<Path, Node>) {
    [] in nodes && forall path {:trigger NodeInv(c, loaded, nodes, path)} :: path in nodes ==>
      NodeInv(c, loaded, nodes, path)
  }

  /** The body is in a leaf on its own way. */
  predicate HasHome(c: Config, nodes: map<Path, Node>, b: nat)
    requires b < c.bodies
  {
    exists d :: 0 < d <= c.maxLevel && IsHome(c, nodes, b, d)
  }

  predicate IsHome(c: Config, nodes: map<Path, Node>, b: nat, d: nat)
    requires b < c.bodies && d <= c.maxLevel
  {
    var path := WayOf(c, b, d);
    path in nodes && nodes[path].Leaf? && b in nodes[path].bodies
  }

  predicate LoadedInv(c: Config, s: State)
    requires ValidState(c, s)
  {
    && (forall p, k :: 0 <= p < |c.lists| && 0 <= k < s.next[p] ==> c.lists[p][k] in s.loaded)
    && (forall b :: b in s.loaded ==>
          && b < c.bodies && b < |c.place| && c.place[b].0 < |c.lists| && c.place[b].1 < s.next[c.place[b].0]
          && c.lists[c.place[b].0][c.place[b].1] == b)
    && (forall b :: b in s.loaded && b < c.bodies ==> HasHome(c, s.nodes, b))
  }

  /** What a processor knows about the nodes it is at. */
  predicate PcInv(c: Config, nodes: map<Path, Node>, pc: Pc, b: nat) {
    HasAt(pc) ==>
      && AtCell(nodes, pc.at) && Leads(c, pc.at, b)
      && (!pc.Top? && !pc.NotEnoughLevels? ==> nodes[pc.at].level / 2 > 0)
      && (pc.NotEnoughLevels? ==> |pc.at| + 1 == c.maxLevel)
      && (pc.SecondLook? || pc.LockLeaf? || pc.Down? ==> Slot(c, nodes, pc.at, b) in nodes)
      && (pc.Down? ==> nodes[Slot(c, nodes, pc.at, b)].Cell?)
  }

  /** A processor that goes on from a cell on the lowest level, which ends in the error exit. */
  predicate Deep(c: Config, pc: Pc) {
    pc.NotEnoughLevels? || (pc.Top? && |pc.at| + 1 == c.maxLevel) || (pc.Down? && |pc.at| + 2 == c.maxLevel)
  }

  predicate DeepInv(c: Config, s: State) {
    (exists path :: path in s.nodes && s.nodes[path].Cell? && |path| + 1 == c.maxLevel && path != []) ==>
    exists p :: 0 <= p < |s.pc| && Deep(c, s.pc[p])
  }

  predicate Inv(c: Config, s: State)
    requires Valid(c)
  {
    && ValidState(c, s) && TreeInv(c, s.loaded, s.nodes) && LoadedInv(c, s)
    && (forall p :: 0 <= p < |c.lists| && Working(c, s, p) ==> PcInv(c, s.nodes, s.pc[p], Current(c, s, p)))
    && (forall p :: 0 <= p < |c.lists| && !Working(c, s, p) ==> s.pc[p] == Next)
  }

  lemma InvIsReady(c: Config, s: State, p: nat)
    requires Valid(c) && Inv(c, s) && Enabled(c, s, p)
    ensures Ready(c, s, p)
  {
  }

  /** One more octant still leads to the body. */
  lemma SlotLeads(c: Config, loaded: set<nat>, nodes: map<Path, Node>, at: Path, b: nat)
    requires Valid(c) && TreeInv(c, loaded, nodes) && b < c.bodies && AtCell(nodes, at) && Leads(c, at, b)
    ensures |at| < c.maxLevel && Leads(c, Slot(c, nodes, at, b), b)
    ensures nodes[at].level == Level(c.maxLevel, |at|) && nodes[at].level / 2 == Level(c.maxLevel, |at| + 1)
    ensures nodes[at].level / 2 == 0 <==> |at| + 1 == c.maxLevel
  {
    LevelOfCell(c, loaded, nodes, at);
    LeadsFurther(c, at, b);
  }

  lemma LevelOfCell(c: Config, loaded: set<nat>, nodes: map<Path, Node>, at: Path)
    requires TreeInv(c, loaded, nodes) && AtCell(nodes, at)
    ensures |at| < c.maxLevel && nodes[at].level == Level(c.maxLevel, |at|)
            && nodes[at].level / 2 == Level(c.maxLevel, |at| + 1)
    ensures nodes[at].level / 2 == 0 <==> |at| + 1 == c.maxLevel
  {
    assert NodeInv(c, loaded, nodes, at);
    LevelRunsOut(c.maxLevel, |at|);
    LevelRunsOut(c.maxLevel, |at| + 1);
  }

  lemma LeadsFurther(c: Config, at: Path, b: nat)
    requires Leads(c, at, b)
    ensures Leads(c, at + [c.octantOf(b, Level(c.maxLevel, |at|))], b)
  {
  }

  // ------------------------------------------------------------------ one body more in a leaf

  /** Nodes stay, on their level, and cells stay cells. */
  predicate Grew(nodes: map<Path, Node>, nodes': map<Path, Node>) {
    forall path :: path in nodes ==>
      path in nodes' && nodes'[path].level == nodes[path].level && (nodes[path].Cell? ==> nodes'[path].Cell?)
  }

  lemma PcStays(c: Config, nodes: map<Path, Node>, nodes': map<Path, Node>, pc: Pc, b: nat)
    requires b < c.bodies && PcInv(c, nodes, pc, b) && Grew(nodes, nodes')
    ensures PcInv(c, nodes', pc, b)
  {
  }

  lemma NodeStays(c: Config, loaded: set<nat>, loaded': set<nat>, nodes: map<Path, Node>, nodes': map<Path, Node>,
                  path: Path)
    requires path in nodes && NodeInv(c, loaded, nodes, path) && loaded <= loaded' && Grew(nodes, nodes')
    requires nodes'[path] == nodes[path]
    ensures NodeInv(c, loaded', nodes', path)
  {
    SubsetSize(Under(c, loaded, path), Under(c, loaded', path));
  }

  /** The leaf of a slot after one more body, whether it was there or not. */
  function Extended(nodes: map<Path, Node>, slot: Path, l: nat, b: nat): Node
    requires slot in nodes ==> nodes[slot].Leaf?
  {
    if slot in nodes then nodes[slot].(bodies := nodes[slot].bodies + [b]) else Leaf(l, [b])
  }

  lemma ExtendedTreeInv(c: Config, loaded: set<nat>, nodes: map<Path, Node>, at: Path, b: nat)
    requires Valid(c) && TreeInv(c, loaded, nodes) && AtCell(nodes, at) && nodes[at].level / 2 > 0
    requires b < c.bodies && b !in loaded && Leads(c, at, b)
    requires var slot := Slot(c, nodes, at, b);
             slot in nodes ==> nodes[slot].Leaf? && |nodes[slot].bodies| < MAX_BODIES_PER_LEAF
    ensures var slot := Slot(c, nodes, at, b);
            var nodes' := nodes[slot := Extended(nodes, slot, nodes[at].level / 2, b)];
            TreeInv(c, loaded + {b}, nodes') && Grew(nodes, nodes')
  {
    var slot := Slot(c, nodes, at, b);
    var nodes' := nodes[slot := Extended(nodes, slot, nodes[at].level / 2, b)];
    SlotLeads(c, loaded, nodes, at, b);
    if slot in nodes {
      assert NodeInv(c, loaded, nodes, slot);
    }
    forall path | path in nodes' ensures NodeInv(c, loaded + {b}, nodes', path) {
      if path == slot {
        assert slot[..|slot| - 1] == at;
        ExtendedLeafInv(c, loaded, nodes, slot, nodes[at].level / 2, b);
      } else {
        assert NodeInv(c, loaded, nodes, path);
        NodeStays(c, loaded, loaded + {b}, nodes, nodes', path);
      }
    }
  }

  lemma ExtendedLeafInv(c: Config, loaded: set<nat>, nodes: map<Path, Node>, slot: Path, l: nat, b: nat)
    requires b !in loaded && Leads(c, slot, b)
    requires slot in nodes ==> nodes[slot].Leaf? && |nodes[slot].bodies| < MAX_BODIES_PER_LEAF
    requires slot in nodes ==> LeafInv(c, loaded, slot, nodes[slot].bodies)
    ensures LeafInv(c, loaded + {b}, slot, Extended(nodes, slot, l, b).bodies)
  {
  }

  lemma ExtendedHomes(c: Config, loaded: set<nat>, nodes: map<Path, Node>, slot: Path, l: nat, b: nat)
    requires Valid(c) && b < c.bodies && Leads(c, slot, b) && 0 < |slot| <= c.maxLevel
    requires slot in nodes ==> nodes[slot].Leaf?
    requires forall x :: x in loaded && x < c.bodies ==> HasHome(c, nodes, x)
    ensures forall x :: x in loaded + {b} && x < c.bodies ==> HasHome(c, nodes[slot := Extended(nodes, slot, l, b)], x)
  {
    var nodes' := nodes[slot := Extended(nodes, slot, l, b)];
    forall x | x in loaded + {b} && x < c.bodies ensures HasHome(c, nodes', x) {
      if x == b {
        assert IsHome(c, nodes', b, |slot|);
      } else {
        var d :| 0 < d <= c.maxLevel && IsHome(c, nodes, x, d);
        assert IsHome(c, nodes', x, d);
      }
    }
  }

  // ------------------------------------------------------------------------- a leaf subdivided

  lemma NodeAt(c: Config, loaded: set<nat>, nodes: map<Path, Node>, path: Path)
    requires TreeInv(c, loaded, nodes) && path in nodes
    ensures NodeInv(c, loaded, nodes, path)
  {
  }

  lemma BelowSlot(nodes: map<Path, Node>, c: Config, loaded: set<nat>, slot: Path, path: Path)
    requires TreeInv(c, loaded, nodes) && slot in nodes && nodes[slot].Leaf? && path in Below(slot)
    ensures path !in nodes && path[..|path| - 1] == slot
  {
    if path in nodes {
      NodeAt(c, loaded, nodes, path);
      assert false;
    }
  }

  lemma SubdividedGrew(c: Config, loaded: set<nat>, nodes: map<Path, Node>, slot: Path)
    requires TreeInv(c, loaded, nodes) && slot in nodes && nodes[slot].Leaf? && nodes[slot].level > 0
    ensures var nodes' := Subdivided(c, nodes, slot, nodes[slot].level, nodes[slot].bodies);
            && Grew(nodes, nodes') && slot in nodes' && nodes'[slot] == Cell(nodes[slot].level)
            && (forall path :: path in nodes && path != slot ==> nodes'[path] == nodes[path])
  {
    forall path | path in Below(slot) ensures path !in nodes {
      BelowSlot(nodes, c, loaded, slot, path);
    }
  }

  lemma SubdividedTreeInv(c: Config, loaded: set<nat>, nodes: map<Path, Node>, slot: Path)
    requires Valid(c) && TreeInv(c, loaded, nodes) && slot in nodes && nodes[slot].Leaf? && nodes[slot].level > 0
    requires |nodes[slot].bodies| == MAX_BODIES_PER_LEAF
    ensures TreeInv(c, loaded, Subdivided(c, nodes, slot, nodes[slot].level, nodes[slot].bodies))
  {
    var l, bodies := nodes[slot].level, nodes[slot].bodies;
    var nodes' := Subdivided(c, nodes, slot, l, bodies);
    SubdividedGrew(c, loaded, nodes, slot);
    assert NodeInv(c, loaded, nodes, slot);
    forall path | path in nodes' ensures NodeInv(c, loaded, nodes', path) {
      if path == slot {
        NewCellIsFull(c, loaded, slot, bodies);
      } else if path in nodes {
        assert NodeInv(c, loaded, nodes, path);
        NodeStays(c, loaded, loaded, nodes, nodes', path);
      } else {
        NewLeafNodeInv(c, loaded, nodes, slot, path);
      }
    }
  }

  lemma NewLeafNodeInv(c: Config, loaded: set<nat>, nodes: map<Path, Node>, slot: Path, path: Path)
    requires Valid(c) && TreeInv(c, loaded, nodes) && slot in nodes && nodes[slot].Leaf? && nodes[slot].level > 0
    requires var nodes' := Subdivided(c, nodes, slot, nodes[slot].level, nodes[slot].bodies);
             path in nodes' && path !in nodes && slot in nodes' && nodes'[slot].Cell?
    ensures NodeInv(c, loaded, Subdivided(c, nodes, slot, nodes[slot].level, nodes[slot].bodies), path)
  {
    assert NodeInv(c, loaded, nodes, slot);
    NewNodeIs(c, nodes, slot, path);
    BelowSlot(nodes, c, loaded, slot, path);
    NewLeafInv(c, loaded, nodes, slot, path[|slot|]);
    LevelRunsOut(c.maxLevel, |slot|);
  }

  lemma NewNodeIs(c: Config, nodes: map<Path, Node>, slot: Path, path: Path)
    requires slot in nodes && nodes[slot].Leaf? && path !in nodes
    requires path in Subdivided(c, nodes, slot, nodes[slot].level, nodes[slot].bodies)
    ensures path in Below(slot) && path == slot + [path[|slot|]]
    ensures var l, bodies := nodes[slot].level, nodes[slot].bodies;
            && Subdivided(c, nodes, slot, l, bodies)[path] == Leaf(l / 2, Octant(c, bodies, l, path[|slot|]))
            && Octant(c, bodies, l, path[|slot|]) != []
  {
  }

  lemma NewCellIsFull(c: Config, loaded: set<nat>, slot: Path, bodies: seq<nat>)
    requires LeafInv(c, loaded, slot, bodies) && |bodies| == MAX_BODIES_PER_LEAF
    ensures |Under(c, loaded, slot)| >= MAX_BODIES_PER_LEAF
  {
    DistinctCounts(bodies);
    SubsetSize(Elements(bodies), Under(c, loaded, slot));
  }

  lemma NewLeafInv(c: Config, loaded: set<nat>, nodes: map<Path, Node>, slot: Path, i: nat)
    requires slot in nodes && nodes[slot].Leaf? && NodeInv(c, loaded, nodes, slot) && nodes[slot].level > 0 && i < 8
    requires Octant(c, nodes[slot].bodies, nodes[slot].level, i) != []
    ensures LeafInv(c, loaded, slot + [i], Octant(c, nodes[slot].bodies, nodes[slot].level, i))
  {
    var l, bodies := nodes[slot].level, nodes[slot].bodies;
    var kept := Octant(c, bodies, l, i);
    LevelRunsOut(c.maxLevel, |slot|);
    forall k | 0 <= k < |kept| ensures kept[k] in loaded && Leads(c, slot + [i], kept[k]) {
      assert kept[k] in kept;
      assert kept[k] in bodies;
      LeadsFurther(c, slot, kept[k]);
    }
  }

  lemma SubdividedHomes(c: Config, loaded: set<nat>, nodes: map<Path, Node>, slot: Path)
    requires Valid(c) && TreeInv(c, loaded, nodes) && slot in nodes && nodes[slot].Leaf? && nodes[slot].level > 0
    requires forall x :: x in loaded && x < c.bodies ==> HasHome(c, nodes, x)
    ensures forall x :: x in loaded && x < c.bodies ==>
              HasHome(c, Subdivided(c, nodes, slot, nodes[slot].level, nodes[slot].bodies), x)
  {
    var nodes' := Subdivided(c, nodes, slot, nodes[slot].level, nodes[slot].bodies);
    SubdividedGrew(c, loaded, nodes, slot);
    forall x | x in loaded && x < c.bodies ensures HasHome(c, nodes', x) {
      var d :| 0 < d <= c.maxLevel && IsHome(c, nodes, x, d);
      if WayOf(c, x, d) == slot {
        MovedDown(c, loaded, nodes, slot, x);
        assert IsHome(c, nodes', x, d + 1);
      } else {
        assert IsHome(c, nodes', x, d);
      }
    }
  }

  lemma MovedDown(c: Config, loaded: set<nat>, nodes: map<Path, Node>, slot: Path, x: nat)
    requires Valid(c) && TreeInv(c, loaded, nodes) && slot in nodes && nodes[slot].Leaf? && nodes[slot].level > 0
    requires x in nodes[slot].bodies && Leads(c, slot, x)
    ensures |slot| < c.maxLevel
            && IsHome(c, Subdivided(c, nodes, slot, nodes[slot].level, nodes[slot].bodies), x, |slot| + 1)
  {
    var l, bodies := nodes[slot].level, nodes[slot].bodies;
    var i := c.octantOf(x, l);
    assert NodeInv(c, loaded, nodes, slot);
    LevelRunsOut(c.maxLevel, |slot|);
    LeadsFurther(c, slot, x);
    assert slot + [i] in Below(slot) && (slot + [i])[|slot|] == i;
    assert x in Octant(c, bodies, l, i);
  }

  // ------------------------------------------------------------------------------ every step

  lemma InitInv(c: Config, s: State)
    requires Valid(c) && Init(c, s)
    ensures Inv(c, s) && DeepInv(c, s)
  {
    LevelRunsOut(c.maxLevel, 0);
  }

  /** A step that only moves the processor on. */
  lemma GoInv(c: Config, s: State, p: nat, pc: Pc)
    requires Valid(c) && Inv(c, s) && Enabled(c, s, p) && PcInv(c, s.nodes, pc, Current(c, s, p))
    ensures Inv(c, Go(s, p, pc))
  {
    var s' := Go(s, p, pc);
    forall q | 0 <= q < |c.lists| && Working(c, s', q) ensures PcInv(c, s'.nodes, s'.pc[q], Current(c, s', q)) {
      assert Working(c, s, q) && PcInv(c, s.nodes, s.pc[q], Current(c, s, q));
    }
  }

  lemma CurrentNotLoaded(c: Config, s: State, p: nat)
    requires Valid(c) && ValidState(c, s) && LoadedInv(c, s) && Working(c, s, p)
    ensures Current(c, s, p) !in s.loaded
  {
  }

  lemma PlacedInv(c: Config, s: State, p: nat)
    requires Valid(c) && Inv(c, s) && Enabled(c, s, p) && (s.pc[p].LockEmpty? || s.pc[p].LockLeaf?)
    requires PcInv(c, s.nodes, s.pc[p], Current(c, s, p))
    requires var slot := Slot(c, s.nodes, s.pc[p].at, Current(c, s, p));
             slot in s.nodes ==> s.nodes[slot].Leaf? && |s.nodes[slot].bodies| < MAX_BODIES_PER_LEAF
    ensures var at := s.pc[p].at; var slot := Slot(c, s.nodes, at, Current(c, s, p));
            Inv(c, Placed(c, s, p, slot, Extended(s.nodes, slot, s.nodes[at].level / 2, Current(c, s, p))))
  {
    var at, b := s.pc[p].at, Current(c, s, p);
    var slot, l := Slot(c, s.nodes, at, b), s.nodes[at].level / 2;
    var s' := Placed(c, s, p, slot, Extended(s.nodes, slot, l, b));
    CurrentNotLoaded(c, s, p);
    ExtendedTreeInv(c, s.loaded, s.nodes, at, b);
    SlotLeads(c, s.loaded, s.nodes, at, b);
    ExtendedHomes(c, s.loaded, s.nodes, slot, l, b);
    OthersStay(c, s, p, s');
    PlacedLoaded(c, s, p, s');
  }

  lemma OthersStay(c: Config, s: State, p: nat, s': State)
    requires Valid(c) && Inv(c, s) && ValidState(c, s') && p < |c.lists| && Grew(s.nodes, s'.nodes)
    requires s'.pc == s.pc[p := s'.pc[p]] && s'.next == s.next[p := s'.next[p]]
             && (s'.pc[p] == Next || Working(c, s', p))
    requires Working(c, s', p) ==> PcInv(c, s'.nodes, s'.pc[p], Current(c, s', p))
    ensures forall q :: 0 <= q < |c.lists| && Working(c, s', q) ==> PcInv(c, s'.nodes, s'.pc[q], Current(c, s', q))
    ensures forall q :: 0 <= q < |c.lists| && !Working(c, s', q) ==> s'.pc[q] == Next
  {
    forall q | 0 <= q < |c.lists| && Working(c, s', q) ensures PcInv(c, s'.nodes, s'.pc[q], Current(c, s', q)) {
      if q != p {
        assert Working(c, s, q);
        PcStays(c, s.nodes, s'.nodes, s.pc[q], Current(c, s, q));
      }
    }
  }

  lemma PlacedLoaded(c: Config, s: State, p: nat, s': State)
    requires Valid(c) && ValidState(c, s) && LoadedInv(c, s) && Working(c, s, p)
    requires s'.next == s.next[p := s.next[p] + 1] && s'.loaded == s.loaded + {Current(c, s, p)} && |s'.pc| == |s.pc|
    requires forall x :: x in s'.loaded && x < c.bodies ==> HasHome(c, s'.nodes, x)
    ensures ValidState(c, s') && LoadedInv(c, s')
  {
  }

  lemma SubdivideStep(c: Config, s: State, p: nat) returns (s': State)
    requires Valid(c) && ValidState(c, s) && Enabled(c, s, p) && s.pc[p].LockLeaf? && Ready(c, s, p)
    requires var slot := Slot(c, s.nodes, s.pc[p].at, Current(c, s, p));
             slot in s.nodes && s.nodes[slot].Leaf? && |s.nodes[slot].bodies| == MAX_BODIES_PER_LEAF
             && s.nodes[slot].level == s.nodes[s.pc[p].at].level / 2
    ensures s' == Step(c, s, p)
    ensures var slot := Slot(c, s.nodes, s.pc[p].at, Current(c, s, p));
            s' == Go(s, p, Down(s.pc[p].at)).(
                    nodes := Subdivided(c, s.nodes, slot, s.nodes[slot].level, s.nodes[slot].bodies))
  {
    s' := Step(c, s, p);
  }

  lemma SubdivideInv(c: Config, s: State, p: nat)
    requires Valid(c) && Inv(c, s) && Enabled(c, s, p) && s.pc[p].LockLeaf? && Ready(c, s, p)
    requires PcInv(c, s.nodes, s.pc[p], Current(c, s, p))
    requires var slot := Slot(c, s.nodes, s.pc[p].at, Current(c, s, p));
             s.nodes[slot].Leaf? && |s.nodes[slot].bodies| == MAX_BODIES_PER_LEAF
    ensures Inv(c, Step(c, s, p))
  {
    var at, b := s.pc[p].at, Current(c, s, p);
    var slot := Slot(c, s.nodes, at, b);
    SlotLeads(c, s.loaded, s.nodes, at, b);
    assert NodeInv(c, s.loaded, s.nodes, slot);
    var s' := SubdivideStep(c, s, p);
    SubdividedGrew(c, s.loaded, s.nodes, slot);
    SubdividedTreeInv(c, s.loaded, s.nodes, slot);
    SubdividedHomes(c, s.loaded, s.nodes, slot);
    OthersStay(c, s, p, s');
  }

  lemma {:induction false} StepInv(c: Config, s: State, p: nat)
    requires Valid(c) && Inv(c, s) && Enabled(c, s, p) && Ready(c, s, p)
    ensures Inv(c, Step(c, s, p))
  {
    var b, pc := Current(c, s, p), s.pc[p];
    assert PcInv(c, s.nodes, pc, b);
    match pc
    case Next =>
      assert NodeInv(c, s.loaded, s.nodes, []);
      RootIsCell(c, s.loaded, s.nodes);
      GoInv(c, s, p, Top([]));
    case Top(at) =>
      SlotLeads(c, s.loaded, s.nodes, at, b);
      GoInv(c, s, p, Step(c, s, p).pc[p]);
    case LockEmpty(at) =>
      if Slot(c, s.nodes, at, b) !in s.nodes {
        PlacedInv(c, s, p);
      } else {
        GoInv(c, s, p, SecondLook(at));
      }
    case SecondLook(at) => GoInv(c, s, p, Step(c, s, p).pc[p]);
    case LockLeaf(at) => LockLeafInv(c, s, p);
    case Down(at) =>
      SlotLeads(c, s.loaded, s.nodes, at, b);
      assert NodeInv(c, s.loaded, s.nodes, Slot(c, s.nodes, at, b));
      GoInv(c, s, p, Top(Slot(c, s.nodes, at, b)));
  }

  lemma RootIsCell(c: Config, loaded: set<nat>, nodes: map<Path, Node>)
    requires TreeInv(c, loaded, nodes)
    ensures AtCell(nodes, [])
  {
    assert NodeInv(c, loaded, nodes, []);
  }

  lemma LockLeafInv(c: Config, s: State, p: nat)
    requires Valid(c) && Inv(c, s) && Enabled(c, s, p) && Ready(c, s, p) && s.pc[p].LockLeaf?
    ensures Inv(c, Step(c, s, p))
  {
    var b, at := Current(c, s, p), s.pc[p].at;
    assert PcInv(c, s.nodes, s.pc[p], b);
    var slot := Slot(c, s.nodes, at, b);
    assert NodeInv(c, s.loaded, s.nodes, slot);
    if !s.nodes[slot].Leaf? {
      GoInv(c, s, p, Down(at));
    } else if |s.nodes[slot].bodies| == MAX_BODIES_PER_LEAF {
      SubdivideInv(c, s, p);
    } else {
      PlacedInv(c, s, p);
    }
  }

  lemma NewCellIsSlot(c: Config, s: State, p: nat, path: Path)
    requires Valid(c) && ValidState(c, s) && Enabled(c, s, p) && Ready(c, s, p)
    requires path in Step(c, s, p).nodes && Step(c, s, p).nodes[path].Cell?
    ensures (path in s.nodes && s.nodes[path].Cell?)
            || (s.pc[p].LockLeaf? && path == Slot(c, s.nodes, s.pc[p].at, Current(c, s, p))
               && Step(c, s, p).pc[p] == Down(s.pc[p].at))
  {
  }

  lemma DeepStays(c: Config, s: State, p: nat, q: nat)
    requires Valid(c) && Inv(c, s) && Enabled(c, s, p) && Ready(c, s, p) && q < |s.pc| && Deep(c, s.pc[q])
    ensures |Step(c, s, p).pc| == |s.pc| && Deep(c, Step(c, s, p).pc[q])
  {
    if p == q {
      assert PcInv(c, s.nodes, s.pc[p], Current(c, s, p));
      SlotLeads(c, s.loaded, s.nodes, s.pc[p].at, Current(c, s, p));
    }
  }

  /** As long as there is a cell on the lowest level, someone is on the way to the error exit or at it. */
  lemma StepDeep(c: Config, s: State, p: nat)
    requires Valid(c) && Inv(c, s) && DeepInv(c, s) && Enabled(c, s, p) && Ready(c, s, p)
    ensures DeepInv(c, Step(c, s, p))
  {
    var s' := Step(c, s, p);
    forall path | path in s'.nodes && s'.nodes[path].Cell? && |path| + 1 == c.maxLevel && path != []
      ensures (path in s.nodes && s.nodes[path].Cell?) || Deep(c, s'.pc[p])
    {
      NewCellIsSlot(c, s, p, path);
    }
    forall q: nat | q < |s.pc| && Deep(c, s.pc[q]) ensures q < |s'.pc| && Deep(c, s'.pc[q]) {
      DeepStays(c, s, p, q);
    }
    DeepKept(c, s, s', p);
  }

  lemma DeepKept(c: Config, s: State, s': State, p: nat)
    requires DeepInv(c, s) && |s'.pc| == |s.pc| && p < |s.pc|
    requires forall path :: path in s'.nodes && s'.nodes[path].Cell? && |path| + 1 == c.maxLevel && path != [] ==>
               (path in s.nodes && s.nodes[path].Cell?) || Deep(c, s'.pc[p])
    requires forall q: nat :: q < |s.pc| && Deep(c, s.pc[q]) ==> Deep(c, s'.pc[q])
    ensures DeepInv(c, s')
  {
  }

  // --------------------------------------------------------------------------------- all runs

  /** s' follows from s by the processors' steps in this order. */
  predicate Reaches(c: Config, s: State, steps: seq<nat>, s': State)
    requires Valid(c)
    decreases steps
  {
    if steps == [] then s' == s
    else
      && ValidState(c, s) && Enabled(c, s, steps[0]) && Ready(c, s, steps[0])
      && Reaches(c, Step(c, s, steps[0]), steps[1..], s')
  }

  /** Steps a processor may still take: at most five on each level, for each of its bodies. */
  function PcSteps(c: Config, pc: Pc): nat {
    match pc
    case Next => 5 * c.maxLevel + 5
    case NotEnoughLevels(_) => 0
    case Top(at) => if |at| <= c.maxLevel then 5 * (c.maxLevel - |at|) + 4 else 4
    case LockEmpty(at) => if |at| <= c.maxLevel then 5 * (c.maxLevel - |at|) + 3 else 3
    case SecondLook(at) => if |at| <= c.maxLevel then 5 * (c.maxLevel - |at|) + 2 else 2
    case LockLeaf(at) => if |at| <= c.maxLevel then 5 * (c.maxLevel - |at|) + 1 else 1
    case Down(at) => if |at| <= c.maxLevel then 5 * (c.maxLevel - |at|) else 0
  }

  function ProcSteps(c: Config, s: State, p: nat): nat
    requires ValidState(c, s) && p < |c.lists|
  {
    (|c.lists[p]| - s.next[p]) * (5 * c.maxLevel + 6) + PcSteps(c, s.pc[p])
  }

  function StepsLeft(c: Config, s: State, n: nat): nat
    requires ValidState(c, s) && n <= |c.lists|
  {
    if n == 0 then 0 else StepsLeft(c, s, n - 1) + ProcSteps(c, s, n - 1)
  }

  /** Where a step that does not finish a body can lead. */
  predicate Follows(pc: Pc, pc': Pc) {
    match pc
    case Next => pc' == Top([])
    case Top(at) => pc' == NotEnoughLevels(at) || pc' == LockEmpty(at) || pc' == SecondLook(at)
    case LockEmpty(at) => pc' == SecondLook(at)
    case SecondLook(at) => pc' == LockLeaf(at) || pc' == Down(at)
    case LockLeaf(at) => pc' == Down(at)
    case Down(at) => pc'.Top? && |pc'.at| == |at| + 1
    case NotEnoughLevels(_) => false
  }

  lemma StepFollows(c: Config, s: State, p: nat)
    requires Valid(c) && ValidState(c, s) && Enabled(c, s, p) && Ready(c, s, p)
    ensures var s' := Step(c, s, p);
            && s'.next == s.next[p := s'.next[p]] && s'.pc == s.pc[p := s'.pc[p]]
            && ((Follows(s.pc[p], s'.pc[p]) && s'.next[p] == s.next[p])
               || (s'.pc[p] == Next && s'.next[p] == s.next[p] + 1))
  {
  }

  lemma FollowShrinks(c: Config, pc: Pc, pc': Pc)
    requires Follows(pc, pc') && (HasAt(pc) ==> |pc.at| < c.maxLevel)
    ensures PcSteps(c, pc') < PcSteps(c, pc)
  {
  }

  lemma OwnStepsShrink(c: Config, s: State, s': State, p: nat)
    requires Valid(c) && ValidState(c, s) && ValidState(c, s') && Working(c, s, p)
    requires if s'.next[p] == s.next[p] then PcSteps(c, s'.pc[p]) < PcSteps(c, s.pc[p])
             else s'.next[p] == s.next[p] + 1 && s'.pc[p] == Next
    ensures ProcSteps(c, s', p) < ProcSteps(c, s, p)
  {
    if s'.next[p] != s.next[p] {
      var m, k := 5 * c.maxLevel + 6, |c.lists[p]| - s.next[p];
      assert (k - 1) * m == k * m - m;
    }
  }

  lemma {:induction false} SumShrinks(c: Config, s: State, s': State, p: nat, n: nat)
    requires ValidState(c, s) && ValidState(c, s') && n <= |c.lists| && p < |c.lists|
    requires s'.next == s.next[p := s'.next[p]] && s'.pc == s.pc[p := s'.pc[p]]
             && ProcSteps(c, s', p) < ProcSteps(c, s, p)
    ensures if p < n then StepsLeft(c, s', n) < StepsLeft(c, s, n) else StepsLeft(c, s', n) == StepsLeft(c, s, n)
  {
    if n > 0 {
      SumShrinks(c, s, s', p, n - 1);
    }
  }

  lemma StepsShrink(c: Config, s: State, p: nat)
    requires Valid(c) && Inv(c, s) && Enabled(c, s, p) && Ready(c, s, p)
    ensures ValidState(c, Step(c, s, p)) && StepsLeft(c, Step(c, s, p), |c.lists|) < StepsLeft(c, s, |c.lists|)
  {
    var s', pc := Step(c, s, p), s.pc[p];
    StepFollows(c, s, p);
    if HasAt(pc) {
      assert PcInv(c, s.nodes, pc, Current(c, s, p));
      SlotLeads(c, s.loaded, s.nodes, pc.at, Current(c, s, p));
    }
    if Follows(pc, s'.pc[p]) {
      FollowShrinks(c, pc, s'.pc[p]);
    }
    OwnStepsShrink(c, s, s', p);
    SumShrinks(c, s, s', p, |c.lists|);
  }

  lemma {:induction false} RunInv(c: Config, s: State, steps: seq<nat>, s': State)
    requires Valid(c) && Inv(c, s) && DeepInv(c, s) && Reaches(c, s, steps, s')
    ensures Inv(c, s') && DeepInv(c, s')
    ensures |steps| + StepsLeft(c, s', |c.lists|) <= StepsLeft(c, s, |c.lists|)
    decreases steps
  {
    if steps != [] {
      InvIsReady(c, s, steps[0]);
      StepInv(c, s, steps[0]);
      StepDeep(c, s, steps[0]);
      StepsShrink(c, s, steps[0]);
      RunInv(c, Step(c, s, steps[0]), steps[1..], s');
    }
  }

  // ---------------------------------------------------------------------- what every run builds

  /** The octants are those subindex computes from the bodies' integer coordinates. */
  ghost predicate Faithful(c: Config, coords: seq<Coords>) {
    && |coords| == c.bodies && (forall b :: 0 <= b < c.bodies ==> InCube(c.maxLevel, coords[b]))
    && forall b, l :: 0 <= b < c.bodies && l > 0 ==> c.octantOf(b, l) == SubIndex(coords[b], l)
  }

  lemma {:induction false} WayIsByCoordinates(c: Config, coords: seq<Coords>, b: nat, n: nat)
    requires Faithful(c, coords) && b < c.bodies && n <= c.maxLevel
    ensures WayOf(c, b, n) == Way(c.maxLevel, coords[b], n)
  {
    if n > 0 {
      LevelRunsOut(c.maxLevel, n - 1);
      WayIsByCoordinates(c, coords, b, n - 1);
    }
  }

  lemma {:induction false} AncestorsAreCells(c: Config, loaded: set<nat>, nodes: map<Path, Node>, path: Path, m: nat)
    requires TreeInv(c, loaded, nodes) && path in nodes && m < |path|
    ensures path[..m] in nodes && nodes[path[..m]].Cell?
    decreases |path|
  {
    assert NodeInv(c, loaded, nodes, path);
    var parent := path[..|path| - 1];
    if m < |path| - 1 {
      AncestorsAreCells(c, loaded, nodes, parent, m);
      assert parent[..m] == path[..m];
    }
  }

  lemma {:induction false} WayOfPrefix(c: Config, b: nat, m: nat, n: nat)
    requires m <= n
    ensures WayOf(c, b, n)[..m] == WayOf(c, b, m)
  {
    if m < n {
      WayOfPrefix(c, b, m, n - 1);
      assert WayOf(c, b, n)[..m] == WayOf(c, b, n - 1)[..m];
    }
  }

  /** No body is in two leaves: both would be on its way, and what is above a leaf is a cell. */
  lemma OneLeafEach(c: Config, loaded: set<nat>, nodes: map<Path, Node>, path: Path, path': Path, b: nat)
    requires TreeInv(c, loaded, nodes) && path in nodes && path' in nodes && nodes[path].Leaf? && nodes[path'].Leaf?
    requires Leads(c, path, b) && Leads(c, path', b)
    ensures path == path'
  {
    if |path| < |path'| {
      AncestorsAreCells(c, loaded, nodes, path', |path|);
      WayOfPrefix(c, b, |path|, |path'|);
    } else if |path'| < |path| {
      AncestorsAreCells(c, loaded, nodes, path, |path'|);
      WayOfPrefix(c, b, |path'|, |path|);
    }
  }

  /** Every leaf holds 1 to 10 loaded bodies, each on its own way by subindex and in no other leaf, once;
      levels halve along every edge and only cells have something below them. */
  ghost predicate GoodTree(c: Config, coords: seq<Coords>, s: State)
    requires |coords| == c.bodies
  {
    && [] in s.nodes
    && (forall path {:trigger GoodNode(c, s.nodes, path)} :: path in s.nodes ==> GoodNode(c, s.nodes, path))
    && (forall path, b: nat :: InLeaf(s.nodes, path, b) ==>
          b in s.loaded && b < c.bodies && |path| <= c.maxLevel && path == Way(c.maxLevel, coords[b], |path|))
    && (forall path, path', b :: InLeaf(s.nodes, path, b) && InLeaf(s.nodes, path', b) ==> path == path')
    && (forall b :: b in s.loaded ==> exists path :: InLeaf(s.nodes, path, b))
  }

  predicate InLeaf(nodes: map<Path, Node>, path: Path, b: nat) {
    path in nodes && nodes[path].Leaf? && b in nodes[path].bodies
  }

  /** Levels halve along every edge, only cells have something below them, and leaves are neither empty nor
      overfull. */
  predicate GoodNode(c: Config, nodes: map<Path, Node>, path: Path)
    requires path in nodes
  {
    && |path| <= c.maxLevel && nodes[path].level == Level(c.maxLevel, |path|)
    && (path != [] ==>
          var parent := path[..|path| - 1];
          parent in nodes && nodes[parent].Cell? && nodes[path].level == nodes[parent].level / 2)
    && (nodes[path].Leaf? ==> 1 <= |nodes[path].bodies| <= MAX_BODIES_PER_LEAF && Distinct(nodes[path].bodies))
  }

  lemma LeafBody(c: Config, coords: seq<Coords>, s: State, path: Path, b: nat)
    requires Valid(c) && Faithful(c, coords) && Inv(c, s) && InLeaf(s.nodes, path, b)
    ensures b in s.loaded && Leads(c, path, b) && |path| <= c.maxLevel && path == Way(c.maxLevel, coords[b], |path|)
  {
    assert NodeInv(c, s.loaded, s.nodes, path);
    WayIsByCoordinates(c, coords, b, |path|);
  }

  lemma NodeIsGood(c: Config, s: State, path: Path)
    requires Valid(c) && Inv(c, s) && path in s.nodes
    ensures GoodNode(c, s.nodes, path)
  {
    assert NodeInv(c, s.loaded, s.nodes, path);
    if path != [] {
      assert NodeInv(c, s.loaded, s.nodes, path[..|path| - 1]);
    }
  }

  lemma InvIsGoodTree(c: Config, coords: seq<Coords>, s: State)
    requires Valid(c) && Faithful(c, coords) && Inv(c, s)
    ensures GoodTree(c, coords, s)
  {
    forall path {:trigger GoodNode(c, s.nodes, path)} | path in s.nodes ensures GoodNode(c, s.nodes, path) {
      NodeIsGood(c, s, path);
    }
    forall path, b: nat | InLeaf(s.nodes, path, b)
      ensures b in s.loaded && b < c.bodies && |path| <= c.maxLevel && path == Way(c.maxLevel, coords[b], |path|)
    {
      LeafBody(c, coords, s, path, b);
    }
    forall path, path', b | InLeaf(s.nodes, path, b) && InLeaf(s.nodes, path', b) ensures path == path' {
      LeafBody(c, coords, s, path, b);
      LeafBody(c, coords, s, path', b);
      OneLeafEach(c, s.loaded, s.nodes, path, path', b);
    }
    forall b | b in s.loaded ensures exists path :: InLeaf(s.nodes, path, b) {
      var d :| 0 < d <= c.maxLevel && IsHome(c, s.nodes, b, d);
      assert InLeaf(s.nodes, WayOf(c, b, d), b);
    }
  }

  /** In every interleaving the tree is good at all times, no step touches a node that is not there, and
      insertion ends within a fixed number of steps. */
  lemma EveryRunBuildsGoodTrees(c: Config, coords: seq<Coords>, s: State, steps: seq<nat>, s': State)
    requires Valid(c) && Faithful(c, coords) && Init(c, s) && Reaches(c, s, steps, s')
    ensures ValidState(c, s') && GoodTree(c, coords, s')
    ensures forall p :: Enabled(c, s', p) ==> Ready(c, s', p)
    ensures |steps| <= StepsLeft(c, s, |c.lists|)
  {
    InitInv(c, s);
    RunInv(c, s, steps, s');
    InvIsGoodTree(c, coords, s');
    forall p | Enabled(c, s', p) ensures Ready(c, s', p) {
      InvIsReady(c, s', p);
    }
  }

  // ---------------------------------------------------------------------- when it succeeds

  /** The body is on some processor's list. */
  predicate Listed(c: Config, b: nat) {
    b < |c.place| && c.place[b].0 < |c.lists| && c.place[b].1 < |c.lists[c.place[b].0]|
      && c.lists[c.place[b].0][c.place[b].1] == b
  }

  /** Eleven or more bodies whose coordinates agree in all bits but the lowest. */
  predicate Crowd(c: Config, coords: seq<Coords>, crowd: set<nat>) {
    && |crowd| > MAX_BODIES_PER_LEAF
    && (forall x :: x in crowd ==> Listed(c, x) && x < |coords|)
    && forall x, y :: x in crowd && y in crowd ==> SameAbove(coords[x], coords[y], 2)
  }

  /** The error exit is reached only in front of a crowd. */
  lemma ErrorMeansCrowd(c: Config, coords: seq<Coords>, s: State, p: nat)
    requires Valid(c) && Faithful(c, coords) && Inv(c, s) && p < |s.pc| && s.pc[p].NotEnoughLevels?
    ensures exists crowd :: Crowd(c, coords, crowd)
  {
    assert Working(c, s, p);
    var at, b := s.pc[p].at, Current(c, s, p);
    assert PcInv(c, s.nodes, s.pc[p], b);
    assert NodeInv(c, s.loaded, s.nodes, at);
    CurrentNotLoaded(c, s, p);
    var crowd := Under(c, s.loaded, at) + {b};
    forall x | x in crowd ensures Listed(c, x) && Leads(c, at, x) {
    }
    forall x, y | x in crowd && y in crowd ensures SameAbove(coords[x], coords[y], 2) {
      SameWayAgrees(c, coords, at, x, y);
    }
    assert Crowd(c, coords, crowd);
  }

  lemma SameWayAgrees(c: Config, coords: seq<Coords>, at: Path, x: nat, y: nat)
    requires Valid(c) && Faithful(c, coords) && |at| + 1 == c.maxLevel && Leads(c, at, x) && Leads(c, at, y)
    ensures SameAbove(coords[x], coords[y], 2)
  {
    WayIsByCoordinates(c, coords, x, c.maxLevel - 1);
    WayIsByCoordinates(c, coords, y, c.maxLevel - 1);
    SharedButLowestBit(c.maxLevel, coords[x], coords[y]);
  }

  /** Two bodies of a crowd are at home in the same leaf. */
  lemma CrowdSharesLeaf(c: Config, coords: seq<Coords>, s: State, x: nat, y: nat, d: nat, e: nat)
    requires Valid(c) && Faithful(c, coords) && Inv(c, s) && x < c.bodies && y < c.bodies
    requires SameAbove(coords[x], coords[y], 2) && d < c.maxLevel && e < c.maxLevel
    requires IsHome(c, s.nodes, x, d) && IsHome(c, s.nodes, y, e)
    ensures WayOf(c, x, d) == WayOf(c, y, e)
  {
    WayIsByCoordinates(c, coords, x, c.maxLevel - 1);
    WayIsByCoordinates(c, coords, y, c.maxLevel - 1);
    SharedButLowestBit(c.maxLevel, coords[x], coords[y]);
    WayOfPrefix(c, x, d, c.maxLevel - 1);
    WayOfPrefix(c, y, d, c.maxLevel - 1);
    OneLeafEach(c, s.loaded, s.nodes, WayOf(c, x, d), WayOf(c, y, e), y);
  }

  /** Without a cell on the lowest level every leaf is above it. */
  lemma HomeIsHigh(c: Config, s: State, b: nat, d: nat)
    requires Valid(c) && Inv(c, s) && DeepInv(c, s) && b < c.bodies && d <= c.maxLevel && IsHome(c, s.nodes, b, d)
    requires forall p :: 0 <= p < |s.pc| ==> s.pc[p] == Next
    ensures d < c.maxLevel
  {
    NoDeepCell(c, s);
    NodeAt(c, s.loaded, s.nodes, WayOf(c, b, d));
  }

  lemma NoDeepCell(c: Config, s: State)
    requires DeepInv(c, s) && forall p :: 0 <= p < |s.pc| ==> s.pc[p] == Next
    ensures forall path :: path in s.nodes && s.nodes[path].Cell? && path != [] ==> |path| + 1 != c.maxLevel
  {
  }

  lemma NoCrowdFits(c: Config, coords: seq<Coords>, s: State, crowd: set<nat>)
    requires Valid(c) && Faithful(c, coords) && Inv(c, s) && DeepInv(c, s) && crowd <= s.loaded
    requires forall p :: 0 <= p < |s.pc| ==> s.pc[p] == Next
    requires forall x, y :: x in crowd && y in crowd ==>
               x < c.bodies && y < c.bodies && SameAbove(coords[x], coords[y], 2)
    ensures |crowd| <= MAX_BODIES_PER_LEAF
  {
    if x :| x in crowd {
      var d :| 0 < d <= c.maxLevel && IsHome(c, s.nodes, x, d);
      HomeIsHigh(c, s, x, d);
      var leaf := s.nodes[WayOf(c, x, d)].bodies;
      forall y | y in crowd ensures y in leaf {
        var e :| 0 < e <= c.maxLevel && IsHome(c, s.nodes, y, e);
        HomeIsHigh(c, s, y, e);
        CrowdSharesLeaf(c, coords, s, x, y, d, e);
      }
      assert NodeInv(c, s.loaded, s.nodes, WayOf(c, x, d));
      DistinctCounts(leaf);
      SubsetSize(crowd, Elements(leaf));
    }
  }

  /** A run that can go no further has loaded every listed body, unless it ended in the error exit; and it
      ends there if and only if eleven bodies agree in all bits but the lowest. */
  lemma ErrorExactlyOnCrowds(c: Config, coords: seq<Coords>, s: State, steps: seq<nat>, s': State)
    requires Valid(c) && Faithful(c, coords) && Init(c, s) && Reaches(c, s, steps, s')
    requires ValidState(c, s') && forall p :: !Enabled(c, s', p)
    ensures (exists p :: 0 <= p < |s'.pc| && s'.pc[p].NotEnoughLevels?) <==> (exists crowd :: Crowd(c, coords, crowd))
    ensures (forall p :: 0 <= p < |s'.pc| ==> !s'.pc[p].NotEnoughLevels?) ==> forall b :: Listed(c, b) ==>
            b in s'.loaded
  {
    InitInv(c, s);
    RunInv(c, s, steps, s');
    if p :| 0 <= p < |s'.pc| && s'.pc[p].NotEnoughLevels? {
      ErrorMeansCrowd(c, coords, s', p);
    } else {
      forall p | 0 <= p < |s'.pc| ensures s'.pc[p] == Next && s'.next[p] == |c.lists[p]| {
        assert !Enabled(c, s', p);
      }
      forall crowd | Crowd(c, coords, crowd) ensures false {
        assert crowd <= s'.loaded;
        NoCrowdFits(c, coords, s', crowd);
      }
    }
  }
}
