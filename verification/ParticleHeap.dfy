/** The FMM quadtree: boxes live in one growing heap and point to each other by position in it. What one
    update does to it, and what handing a leaf's particles to its children leaves behind. Coordinates
    are exact. */
module ParticleHeap {
  import opened Arithmetic
  import opened BoxGeometry

  const MAX_PARTICLES_PER_BOX := 40

  datatype Particle = Particle(id: nat, x: real, y: real)

  /** parent and children are positions in the heap, -1 for none. */
  datatype Box = Box(x: real, y: real, length: real, isParent: bool, particles: seq<Particle>,
                     parent: int, childNum: nat, children: seq<int>, numChildren: nat)

  // ------------------------------------------------------------------------------- geometry

  /** The closed square of the box contains the particle. */
  predicate Contains(b: Box, p: Particle) {
    Abs(p.x - b.x) <= b.length / 2.0 && Abs(p.y - b.y) <= b.length / 2.0
  }

  /** The child a particle belongs to: 0 upper right, 1 upper left, 2 lower left, 3 lower right. */
  function Quadrant(b: Box, p: Particle): (q: nat)
    ensures q < 4
  {
    if p.y > b.y then (if p.x > b.x then 0 else 1) else (if p.x > b.x then 3 else 2)
  }

  /** InitBox and the placement by CreateChild. */
  function NewChild(b: Box, at: nat, q: nat): Box {
    Box(ChildX(b.x, b.length, q), ChildY(b.y, b.length, q), b.length / 2.0, false, [], at, q, [-1, -1, -1, -1], 0)
  }

  predicate SamePlace(b: Box, c: Box) {
    b.x == c.x && b.y == c.y && b.length == c.length
  }

  /** The child a particle belongs to contains it. */
  lemma QuadrantContains(b: Box, at: nat, p: Particle)
    requires Contains(b, p)
    ensures Contains(NewChild(b, at, Quadrant(b, p)), p)
  {
  }

  // ------------------------------------------------------------------------------ the heap

  /** A box other than the root sits in its parent's place for it. */
  predicate UpLink(boxes: seq<Box>, i: nat)
    requires i < |boxes|
  {
    if i == 0 then boxes[0].parent == -1
    else
      && 0 <= boxes[i].parent < i && boxes[i].childNum < 4 && |boxes[boxes[i].parent].children| == 4
      && boxes[boxes[i].parent].children[boxes[i].childNum] == i
      && SamePlace(boxes[i], NewChild(boxes[boxes[i].parent], boxes[i].parent, boxes[i].childNum))
  }

  predicate DownLinks(boxes: seq<Box>, i: nat)
    requires i < |boxes|
  {
    && |boxes[i].children| == 4
    && forall q :: 0 <= q < 4 ==> DownLink(boxes, i, boxes[i].children[q], q)
  }

  predicate DownLink(boxes: seq<Box>, i: nat, c: int, q: nat) {
    c == -1 || (i < c < |boxes| && boxes[c].parent == i && boxes[c].childNum == q)
  }

  predicate HoldsOwn(b: Box) {
    b.length > 0.0 && forall k :: 0 <= k < |b.particles| ==> Contains(b, b.particles[k])
  }

  /** Tree links, geometry and containment, which hold at all times. */
  predicate Linked(boxes: seq<Box>) {
    && |boxes| > 0
    && forall i {:trigger UpLink(boxes, i)} {:trigger DownLinks(boxes, i)} {:trigger HoldsOwn(boxes[i])} ::
         0 <= i < |boxes| ==>
         UpLink(boxes, i) && DownLinks(boxes, i) && HoldsOwn(boxes[i])
  }

  predicate NoChildren(b: Box) {
    b.children == [-1, -1, -1, -1] && b.numChildren == 0
  }

  /** A parent holds no particles, and a leaf no children and no more particles than allowed. */
  predicate Settled(b: Box, limit: nat) {
    if b.isParent then b.particles == [] else NoChildren(b) && |b.particles| <= limit
  }

  predicate SettledBut(boxes: seq<Box>, except: int) {
    forall i :: 0 <= i < |boxes| && i != except ==> Settled(boxes[i], MAX_PARTICLES_PER_BOX)
  }

  predicate Valid(boxes: seq<Box>) {
    Linked(boxes) && SettledBut(boxes, -1)
  }

  // ----------------------------------------------------------------------------- the particles

  /** All particles in the boxes, each as often as it is stored. */
  function Particles(boxes: seq<Box>): multiset<Particle> {
    if boxes == [] then multiset{}
    else Particles(boxes[..|boxes| - 1]) + multiset(boxes[|boxes| - 1].particles)
  }

  lemma Exchange(a: multiset<Particle>, b: multiset<Particle>, c: multiset<Particle>)
    ensures a + b + c == a + c + b
  {
  }

  lemma Cancel(a: multiset<Particle>, b: multiset<Particle>, c: multiset<Particle>)
    requires a + c == b + c
    ensures a == b
  {
    forall x ensures a[x] == b[x] {
      assert (a + c)[x] == (b + c)[x];
    }
  }

  lemma CancelLeft(a: multiset<Particle>, b: multiset<Particle>, c: multiset<Particle>)
    requires c + a == c + b
    ensures a == b
  {
    forall x ensures a[x] == b[x] {
      assert (c + a)[x] == (c + b)[x];
    }
  }

  lemma {:induction false} ParticlesUpdate(boxes: seq<Box>, i: nat, b: Box)
    requires i < |boxes|
    ensures Particles(boxes[i := b]) + multiset(boxes[i].particles) == Particles(boxes) + multiset(b.particles)
  {
    var n := |boxes| - 1;
    if i == n {
      assert boxes[n := b][..n] == boxes[..n];
      Exchange(Particles(boxes[..n]), multiset(b.particles), multiset(boxes[n].particles));
    } else {
      assert boxes[i := b][..n] == boxes[..n][i := b];
      ParticlesUpdate(boxes[..n], i, b);
      Exchange(Particles(boxes[..n][i := b]), multiset(boxes[n].particles), multiset(boxes[i].particles));
      Exchange(Particles(boxes[..n]), multiset(boxes[n].particles), multiset(b.particles));
    }
  }

  lemma {:induction false} ParticlesCover(boxes: seq<Box>, i: nat)
    requires i < |boxes|
    ensures multiset(boxes[i].particles) <= Particles(boxes)
  {
    if i < |boxes| - 1 {
      ParticlesCover(boxes[..|boxes| - 1], i);
    }
  }

  // -------------------------------------------------------------------- effects of one update

  /** The heap after CreateChild. */
  function WithChild(boxes: seq<Box>, i: nat, q: nat): seq<Box>
    requires i < |boxes| && q < 4 && |boxes[i].children| == 4
  {
    boxes[i := boxes[i].(children := boxes[i].children[q := |boxes|], numChildren := boxes[i].numChildren + 1)]
    + [NewChild(boxes[i], i, q)]
  }

  lemma WithChildLinked(boxes: seq<Box>, i: nat, q: nat)
    requires Linked(boxes) && i < |boxes| && q < 4 && |boxes[i].children| == 4 && boxes[i].children[q] == -1
    ensures Linked(WithChild(boxes, i, q))
  {
    var boxes' := WithChild(boxes, i, q);
    forall j | 0 <= j < |boxes'| ensures UpLink(boxes', j) && DownLinks(boxes', j) && HoldsOwn(boxes'[j]) {
      if j < |boxes| {
        assert UpLink(boxes, j) && DownLinks(boxes, j) && HoldsOwn(boxes[j]);
        forall r | 0 <= r < 4 ensures DownLink(boxes', j, boxes'[j].children[r], r) {
          assert DownLink(boxes, j, boxes[j].children[r], r);
        }
      } else {
        assert boxes'[i].children[q] == |boxes|;
        assert HoldsOwn(boxes[i]);
      }
    }
  }

  lemma WithChildParticles(boxes: seq<Box>, i: nat, q: nat)
    requires i < |boxes| && q < 4 && |boxes[i].children| == 4
    ensures Particles(WithChild(boxes, i, q)) == Particles(boxes)
  {
    var b' := boxes[i].(children := boxes[i].children[q := |boxes|], numChildren := boxes[i].numChildren + 1);
    ParticlesUpdate(boxes, i, b');
    Cancel(Particles(boxes[i := b']), Particles(boxes), multiset(boxes[i].particles));
    assert WithChild(boxes, i, q)[..|boxes|] == boxes[i := b'];
  }

  /** The heap with other particles in one box. */
  function WithParticles(boxes: seq<Box>, i: nat, particles: seq<Particle>): seq<Box>
    requires i < |boxes|
  {
    boxes[i := boxes[i].(particles := particles)]
  }

  /** A box may change what it holds and its type without disturbing the links. */
  lemma RelabelledLinked(boxes: seq<Box>, i: nat, b: Box)
    requires Linked(boxes) && i < |boxes| && HoldsOwn(b) && SamePlace(b, boxes[i])
    requires b.parent == boxes[i].parent && b.childNum == boxes[i].childNum && b.children == boxes[i].children
    ensures Linked(boxes[i := b])
  {
    var boxes' := boxes[i := b];
    forall j | 0 <= j < |boxes'| ensures UpLink(boxes', j) && DownLinks(boxes', j) && HoldsOwn(boxes'[j]) {
      assert UpLink(boxes, j) && DownLinks(boxes, j) && HoldsOwn(boxes[j]);
      forall r | 0 <= r < 4 ensures DownLink(boxes', j, boxes'[j].children[r], r) {
        assert DownLink(boxes, j, boxes[j].children[r], r);
      }
    }
  }

  lemma WithParticlesLinked(boxes: seq<Box>, i: nat, particles: seq<Particle>)
    requires Linked(boxes) && i < |boxes| && forall k :: 0 <= k < |particles| ==> Contains(boxes[i], particles[k])
    ensures Linked(WithParticles(boxes, i, particles))
  {
    assert HoldsOwn(boxes[i]);
    RelabelledLinked(boxes, i, boxes[i].(particles := particles));
  }

  /** One more particle in box d. */
  function WithOneMore(boxes: seq<Box>, d: nat, p: Particle): seq<Box>
    requires d < |boxes|
  {
    WithParticles(boxes, d, boxes[d].particles + [p])
  }

  lemma OneMore(boxes: seq<Box>, d: nat, p: Particle)
    requires d < |boxes|
    ensures Particles(WithOneMore(boxes, d, p)) == Particles(boxes) + multiset{p}
  {
    var own := multiset(boxes[d].particles);
    ParticlesUpdate(boxes, d, boxes[d].(particles := boxes[d].particles + [p]));
    assert multiset(boxes[d].particles + [p]) == own + multiset{p};
    Exchange(Particles(boxes), own, multiset{p});
    Cancel(Particles(WithOneMore(boxes, d, p)), Particles(boxes) + multiset{p}, own);
  }

  // --------------------------------------------------------------------- while distributing

  function Size(boxes: seq<Box>, c: int): nat {
    if 0 <= c < |boxes| then |boxes[c].particles| else 0
  }

  /** How many particles the children of b hold together. */
  function KidSizes(boxes: seq<Box>, children: seq<int>): nat
    requires |children| == 4
  {
    Size(boxes, children[0]) + Size(boxes, children[1]) + Size(boxes, children[2]) + Size(boxes, children[3])
  }

  function Present(c: int): nat {
    if c == -1 then 0 else 1
  }

  function KidCount(children: seq<int>): nat
    requires |children| == 4
  {
    Present(children[0]) + Present(children[1]) + Present(children[2]) + Present(children[3])
  }

  /** A child made during the distribution: a leaf with something in it. */
  predicate FreshKid(k: Box, b: nat) {
    EmptyKid(k, b) && k.particles != []
  }

  predicate EmptyKid(k: Box, b: nat) {
    k.parent == b && !k.isParent && NoChildren(k)
  }

  /** The state after the first i particles of box b have been handed to its children; child `next`, if
      any, may still be empty. */
  predicate Distributed(was: seq<Box>, boxes: seq<Box>, b: nat, i: nat, next: int)
    requires b < |was| && i <= |was[b].particles|
  {
    && |was| <= |boxes| && (forall j :: 0 <= j < |was| && j != b ==> boxes[j] == was[j])
    && boxes[b] == was[b].(particles := was[b].particles[i..], children := boxes[b].children,
       numChildren := boxes[b].numChildren)
    && |boxes[b].children| == 4
    && (forall q :: 0 <= q < 4 ==> boxes[b].children[q] == -1 || boxes[b].children[q] >= |was|)
    && (forall j :: |was| <= j < |boxes| ==> EmptyKid(boxes[j], b) && (j != next ==> FreshKid(boxes[j], b)))
    && KidSizes(boxes, boxes[b].children) == i && boxes[b].numChildren == KidCount(boxes[b].children)
  }

  /** Particle i goes to child c of b, which exists by now. */
  function Handed(boxes: seq<Box>, b: nat, c: nat, p: Particle): seq<Box>
    requires b < |boxes| && c < |boxes| && b != c && boxes[b].particles != []
  {
    WithParticles(WithOneMore(boxes, c, p), b, boxes[b].particles[1..])
  }

  lemma HandedParticles(boxes: seq<Box>, b: nat, c: nat, p: Particle)
    requires b < |boxes| && c < |boxes| && b != c && boxes[b].particles != [] && boxes[b].particles[0] == p
    ensures Particles(Handed(boxes, b, c, p)) == Particles(boxes)
  {
    var mid := WithOneMore(boxes, c, p);
    OneMore(boxes, c, p);
    OneLess(mid, b, p);
    Cancel(Particles(Handed(boxes, b, c, p)), Particles(boxes), multiset{p});
  }

  lemma OneLess(boxes: seq<Box>, b: nat, p: Particle)
    requires b < |boxes| && boxes[b].particles != [] && boxes[b].particles[0] == p
    ensures Particles(WithParticles(boxes, b, boxes[b].particles[1..])) + multiset{p} == Particles(boxes)
  {
    var rest := boxes[b].particles[1..];
    var less, m := Particles(WithParticles(boxes, b, rest)), multiset(rest);
    ParticlesUpdate(boxes, b, boxes[b].(particles := rest));
    assert boxes[b].particles == [p] + rest;
    assert less + (multiset{p} + m) == less + multiset{p} + m;
    Cancel(less + multiset{p}, Particles(boxes), m);
  }

  lemma HandedLinked(boxes: seq<Box>, b: nat, c: nat, p: Particle)
    requires Linked(boxes) && b < |boxes| && c < |boxes| && b != c && boxes[b].particles != []
    requires Contains(boxes[c], p)
    ensures Linked(Handed(boxes, b, c, p))
  {
    assert HoldsOwn(boxes[c]) && HoldsOwn(boxes[b]);
    WithParticlesLinked(boxes, c, boxes[c].particles + [p]);
    WithParticlesLinked(WithOneMore(boxes, c, p), b, boxes[b].particles[1..]);
  }

  /** The child of a distributing box in a particle's quadrant contains the particle. */
  lemma KidContains(boxes: seq<Box>, b: nat, p: Particle)
    requires Linked(boxes) && b < |boxes| && Contains(boxes[b], p) && |boxes[b].children| == 4
    ensures var c := boxes[b].children[Quadrant(boxes[b], p)]; c == -1 || (b < c < |boxes| && Contains(boxes[c], p))
  {
    var q := Quadrant(boxes[b], p);
    var c := boxes[b].children[q];
    assert DownLinks(boxes, b) && DownLink(boxes, b, c, q);
    if c != -1 {
      assert UpLink(boxes, c);
      QuadrantContains(boxes[b], b, p);
    }
  }

  lemma WithChildSettled(boxes: seq<Box>, i: nat, q: nat)
    requires i < |boxes| && q < 4 && |boxes[i].children| == 4 && boxes[i].isParent && SettledBut(boxes, -1)
    ensures SettledBut(WithChild(boxes, i, q), -1)
  {
  }

  lemma NoChildrenYet(was: seq<Box>, b: nat)
    requires Linked(was) && b < |was| && NoChildren(was[b])
    ensures Distributed(was, was, b, 0, -1)
  {
  }

  /** The children of one box are different boxes. */
  lemma KidsApart(boxes: seq<Box>, b: nat)
    requires Linked(boxes) && b < |boxes| && |boxes[b].children| == 4
    ensures forall q, r :: 0 <= q < r < 4 && boxes[b].children[q] != -1 ==> boxes[b].children[q] != boxes[b].children[r]
  {
    assert DownLinks(boxes, b);
    forall q, r | 0 <= q < r < 4 && boxes[b].children[q] != -1
      ensures boxes[b].children[q] != boxes[b].children[r]
    {
      assert DownLink(boxes, b, boxes[b].children[q], q) && DownLink(boxes, b, boxes[b].children[r], r);
    }
  }

  /** Adding to one child's particles adds to their sum. */
  lemma OneKidGrows(boxes: seq<Box>, boxes': seq<Box>, b: nat, q: nat, c: nat)
    requires Linked(boxes) && b < |boxes| && |boxes[b].children| == 4 && q < 4 && boxes[b].children[q] == c
             && c < |boxes|
    requires |boxes'| == |boxes| && (forall j :: 0 <= j < |boxes| && j != b && j != c ==> boxes'[j] == boxes[j])
    requires |boxes'[c].particles| == |boxes[c].particles| + 1 && boxes'[b].children == boxes[b].children
    ensures KidSizes(boxes', boxes[b].children) == KidSizes(boxes, boxes[b].children) + 1
  {
    KidsApart(boxes, b);
    assert DownLinks(boxes, b);
    forall r | 0 <= r < 4 && r != q ensures Size(boxes', boxes[b].children[r]) == Size(boxes, boxes[b].children[r]) {
      assert DownLink(boxes, b, boxes[b].children[r], r);
    }
  }

  /** Handing the next particle to the child it belongs to. */
  lemma HandedDistributes(was: seq<Box>, boxes: seq<Box>, b: nat, i: nat, c: nat)
    requires Linked(boxes) && b < |was| && i < |was[b].particles| && Distributed(was, boxes, b, i, c)
    requires c < |boxes| && boxes[b].children[Quadrant(was[b], was[b].particles[i])] == c
    ensures boxes[b].particles != [] && boxes[b].particles[0] == was[b].particles[i] && c != b
            && |boxes[c].particles| <= i
    ensures Distributed(was, Handed(boxes, b, c, was[b].particles[i]), b, i + 1, -1)
  {
    var q, p := Quadrant(was[b], was[b].particles[i]), was[b].particles[i];
    var boxes' := Handed(boxes, b, c, p);
    assert c >= |was|;
    assert boxes[b].particles[1..] == was[b].particles[i + 1..];
    OneKidGrows(boxes, boxes', b, q, c);
    assert KidSizes(boxes, boxes[b].children) == i;
    assert Size(boxes, c) <= KidSizes(boxes, boxes[b].children);
    assert EmptyKid(boxes[c], b);
    forall j | |was| <= j < |boxes'| ensures FreshKid(boxes'[j], b) {
      assert EmptyKid(boxes[j], b);
    }
  }

  /** A new child joins the distribution still empty. */
  lemma NewKidDistributes(was: seq<Box>, boxes: seq<Box>, b: nat, i: nat, q: nat)
    requires Linked(boxes) && b < |was| && i < |was[b].particles| && Distributed(was, boxes, b, i, -1)
    requires q < 4 && boxes[b].children[q] == -1
    ensures Distributed(was, WithChild(boxes, b, q), b, i, |boxes|)
  {
    var boxes' := WithChild(boxes, b, q);
    var kids, kids' := boxes[b].children, boxes'[b].children;
    assert DownLinks(boxes, b);
    forall r | 0 <= r < 4 ensures Size(boxes', kids'[r]) == Size(boxes, kids[r]) {
      assert DownLink(boxes, b, kids[r], r);
    }
    forall j | |was| <= j < |boxes'| ensures EmptyKid(boxes'[j], b) && (j != |boxes| ==> FreshKid(boxes'[j], b)) {
      if j < |boxes| {
        assert FreshKid(boxes[j], b);
      }
    }
  }

  lemma KidIsFresh(was: seq<Box>, boxes: seq<Box>, b: nat, q: nat)
    requires Linked(boxes) && b < |was| && Distributed(was, boxes, b, |was[b].particles|, -1) && q < 4
    ensures var c := boxes[b].children[q];
            if c == -1 then Size(boxes, c) == 0 else |was| <= c < |boxes| && Size(boxes, c) == |boxes[c].particles| > 0
  {
    var c := boxes[b].children[q];
    assert DownLinks(boxes, b) && DownLink(boxes, b, c, q);
    if c != -1 {
      assert FreshKid(boxes[c], b);
    }
  }

  /** An only child holds everything; of several, each holds less. */
  lemma OnlyChildHoldsAll(was: seq<Box>, boxes: seq<Box>, b: nat, q: nat)
    requires Linked(boxes) && b < |was| && Distributed(was, boxes, b, |was[b].particles|, -1) && q < 4
    requires boxes[b].children[q] != -1
    ensures var c := boxes[b].children[q];
            && |was| <= c < |boxes|
            && (boxes[b].numChildren == 1 ==> |boxes[c].particles| == |was[b].particles|)
            && (boxes[b].numChildren != 1 ==> |boxes[c].particles| < |was[b].particles|)
  {
    KidIsFresh(was, boxes, b, q);
    KidsAreFull(was, boxes, b);
    SizesOfKids(boxes, boxes[b].children, q);
  }

  /** A child is present exactly when it holds something. */
  predicate PresentMeansFull(boxes: seq<Box>, kids: seq<int>) {
    |kids| == 4 && forall q :: 0 <= q < 4 ==> (Size(boxes, kids[q]) == 0 <==> kids[q] == -1)
  }

  lemma KidsAreFull(was: seq<Box>, boxes: seq<Box>, b: nat)
    requires Linked(boxes) && b < |was| && Distributed(was, boxes, b, |was[b].particles|, -1)
    ensures PresentMeansFull(boxes, boxes[b].children)
  {
    forall q | 0 <= q < 4
      ensures Size(boxes, boxes[b].children[q]) == 0 <==> boxes[b].children[q] == -1
    {
      KidIsFresh(was, boxes, b, q);
    }
  }

  lemma SizesOfKids(boxes: seq<Box>, kids: seq<int>, q: nat)
    requires PresentMeansFull(boxes, kids) && q < 4 && kids[q] != -1
    ensures var size, total := Size(boxes, kids[q]), KidSizes(boxes, kids);
            if KidCount(kids) == 1 then size == total else size < total
  {
  }

  /** Every box made by a subdivision is one of the four children. */
  lemma NewBoxIsAKid(was: seq<Box>, boxes: seq<Box>, b: nat, j: nat)
    requires Linked(boxes) && b < |was| && Distributed(was, boxes, b, |was[b].particles|, -1) && |was| <= j < |boxes|
    ensures boxes[j].childNum < 4 && boxes[b].children[boxes[j].childNum] == j
  {
    assert UpLink(boxes, j) && EmptyKid(boxes[j], b);
  }

  /** After a subdivision everything is settled, but for an only child that took everything. */
  lemma Subdivided(was: seq<Box>, boxes: seq<Box>, b: nat)
    requires Linked(boxes) && b < |was| <= |boxes| && SettledBut(was, b) && boxes[b].isParent && NoChildren(was[b])
    requires |was[b].particles| == MAX_PARTICLES_PER_BOX + 1
    requires Distributed(was, boxes[b := boxes[b].(isParent := false)], b, MAX_PARTICLES_PER_BOX + 1, -1)
    ensures Settled(boxes[b], MAX_PARTICLES_PER_BOX) && SamePlace(boxes[0], was[0])
    ensures |boxes[b].children| == 4 && boxes[b].numChildren == KidCount(boxes[b].children)
    ensures boxes[b].numChildren != 1 ==> SettledBut(boxes, -1)
  {
    var handed := boxes[b := boxes[b].(isParent := false)];
    assert was[b].particles[MAX_PARTICLES_PER_BOX + 1..] == [];
    StillLinked(boxes, b);
    if boxes[b].numChildren != 1 {
      forall j | 0 <= j < |boxes| ensures Settled(boxes[j], MAX_PARTICLES_PER_BOX) {
        if j >= |was| {
          SeveralAreSettled(was, handed, b, j);
        } else if j != b {
          assert boxes[j] == was[j];
        }
      }
    }
  }

  lemma SeveralAreSettled(was: seq<Box>, handed: seq<Box>, b: nat, j: nat)
    requires Linked(handed) && b < |was| <= j < |handed| && |was[b].particles| == MAX_PARTICLES_PER_BOX + 1
    requires Distributed(was, handed, b, MAX_PARTICLES_PER_BOX + 1, -1) && handed[b].numChildren != 1
    ensures Settled(handed[j], MAX_PARTICLES_PER_BOX)
  {
    NewBoxIsAKid(was, handed, b, j);
    OnlyChildHoldsAll(was, handed, b, handed[j].childNum);
    assert EmptyKid(handed[j], b);
  }

  lemma StillLinked(boxes: seq<Box>, b: nat)
    requires Linked(boxes) && b < |boxes|
    ensures Linked(boxes[b := boxes[b].(isParent := false)])
  {
    assert HoldsOwn(boxes[b]);
    RelabelledLinked(boxes, b, boxes[b].(isParent := false));
  }

  lemma TwoPresent(kids: seq<int>, q: nat, r: nat)
    requires |kids| == 4 && q < 4 && r < 4 && q != r && kids[q] != -1 && kids[r] != -1
    ensures KidCount(kids) >= 2
  {
  }

  /** The only child: half as long, with everything in it, and all else settled. */
  lemma OnlyChild(was: seq<Box>, boxes: seq<Box>, b: nat, q: nat)
    requires Linked(boxes) && b < |was| <= |boxes| && SettledBut(was, b) && boxes[b].isParent && NoChildren(was[b])
    requires |was[b].particles| == MAX_PARTICLES_PER_BOX + 1
    requires Distributed(was, boxes[b := boxes[b].(isParent := false)], b, MAX_PARTICLES_PER_BOX + 1, -1)
    requires q < 4 && boxes[b].numChildren == 1 && boxes[b].children[q] != -1
    ensures var c := boxes[b].children[q];
            && |was| <= c < |boxes| && SettledBut(boxes, c) && !boxes[c].isParent && NoChildren(boxes[c])
            && |boxes[c].particles| == MAX_PARTICLES_PER_BOX + 1 && boxes[c].length == was[b].length / 2.0
  {
    var handed, c := boxes[b := boxes[b].(isParent := false)], boxes[b].children[q];
    StillLinked(boxes, b);
    OnlyChildHoldsAll(was, handed, b, q);
    assert EmptyKid(handed[c], b) && UpLink(boxes, c);
    assert was[b].particles[MAX_PARTICLES_PER_BOX + 1..] == [];
    forall j | 0 <= j < |boxes| && j != c ensures Settled(boxes[j], MAX_PARTICLES_PER_BOX) {
      if j >= |was| {
        NewBoxIsAKid(was, handed, b, j);
        TwoPresent(boxes[b].children, boxes[j].childNum, q);
        assert false;
      }
    }
  }
}
