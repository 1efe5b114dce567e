/** Subdividing an overflowing leaf of the FMM quadtree, again and again while all its particles fall into
    one child: what each turn keeps, and exactly when the turns come to an end. */
module ParticleCascade {
  import opened Arithmetic
  import opened Loops
  import opened ParticleHeap

  // ---------------------------------------------------------------------------- one subdivision

  /** The first particle of box b goes to the child it belongs to, which is made if it is missing. */
  function DealOne(boxes: seq<Box>, b: nat): seq<Box>
    requires Linked(boxes) && b < |boxes| && boxes[b].particles != []
  {
    var p := boxes[b].particles[0];
    var q := Quadrant(boxes[b], p);
    assert DownLinks(boxes, b) && DownLink(boxes, b, boxes[b].children[q], q);
    var made := if boxes[b].children[q] == -1 then WithChild(boxes, b, q) else boxes;
    Handed(made, b, made[b].children[q], p)
  }

  lemma DealOneKeeps(boxes: seq<Box>, b: nat)
    requires Linked(boxes) && b < |boxes| && boxes[b].particles != []
    ensures Linked(DealOne(boxes, b)) && Particles(DealOne(boxes, b)) == Particles(boxes)
    ensures |DealOne(boxes, b)| >= |boxes| && DealOne(boxes, b)[b].particles == boxes[b].particles[1..]
  {
    var p := boxes[b].particles[0];
    var q := Quadrant(boxes[b], p);
    assert HoldsOwn(boxes[b]) && DownLinks(boxes, b);
    if boxes[b].children[q] == -1 {
      WithChildLinked(boxes, b, q);
      WithChildParticles(boxes, b, q);
    }
    var made := if boxes[b].children[q] == -1 then WithChild(boxes, b, q) else boxes;
    KidContains(made, b, p);
    HandedLinked(made, b, made[b].children[q], p);
    HandedParticles(made, b, made[b].children[q], p);
  }

  lemma DealOneDistributes(was: seq<Box>, boxes: seq<Box>, b: nat, i: nat)
    requires Linked(boxes) && b < |was| && i < |was[b].particles| && Distributed(was, boxes, b, i, -1)
    ensures boxes[b].particles != [] && Distributed(was, DealOne(boxes, b), b, i + 1, -1)
  {
    var q := Quadrant(was[b], was[b].particles[i]);
    var made := if boxes[b].children[q] == -1 then WithChild(boxes, b, q) else boxes;
    assert DownLinks(boxes, b);
    if boxes[b].children[q] == -1 {
      NewKidDistributes(was, boxes, b, i, q);
      WithChildLinked(boxes, b, q);
    }
    HandedDistributes(was, made, b, i, made[b].children[q]);
  }

  /** All particles of box b dealt to its children. */
  function Dealt(boxes: seq<Box>, b: nat): seq<Box>
    requires Linked(boxes) && b < |boxes|
    decreases if b < |boxes| then |boxes[b].particles| else 0
  {
    if boxes[b].particles == [] then boxes
    else
      DealOneKeeps(boxes, b);
      Dealt(DealOne(boxes, b), b)
  }

  lemma {:induction false} DealtKeeps(was: seq<Box>, boxes: seq<Box>, b: nat, i: nat)
    requires Linked(boxes) && b < |was| && i <= |was[b].particles| && Distributed(was, boxes, b, i, -1)
    ensures Linked(Dealt(boxes, b)) && Particles(Dealt(boxes, b)) == Particles(boxes)
    ensures Distributed(was, Dealt(boxes, b), b, |was[b].particles|, -1)
    decreases |was[b].particles| - i
  {
    if i < |was[b].particles| {
      DealOneDistributes(was, boxes, b, i);
      DealOneKeeps(boxes, b);
      DealtKeeps(was, DealOne(boxes, b), b, i + 1);
    }
  }

  /** SubdivideBox: all particles dealt, and the leaf is a parent. */
  function Split(boxes: seq<Box>, b: nat): seq<Box>
    requires Linked(boxes) && b < |boxes| && NoChildren(boxes[b])
  {
    NoChildrenYet(boxes, b);
    DealtKeeps(boxes, boxes, b, 0);
    Dealt(boxes, b)[b := Dealt(boxes, b)[b].(isParent := true)]
  }

  lemma SplitKeeps(boxes: seq<Box>, b: nat)
    requires Linked(boxes) && b < |boxes| && NoChildren(boxes[b]) && !boxes[b].isParent
    ensures var r := Split(boxes, b);
            && Linked(r) && Particles(r) == Particles(boxes) && |r| >= |boxes| && r[b].isParent
            && Distributed(boxes, r[b := r[b].(isParent := false)], b, |boxes[b].particles|, -1)
  {
    NoChildrenYet(boxes, b);
    DealtKeeps(boxes, boxes, b, 0);
    var dealt, r := Dealt(boxes, b), Split(boxes, b);
    MadeParent(dealt, b);
    assert r[b := r[b].(isParent := false)] == dealt;
  }

  lemma MadeParent(boxes: seq<Box>, b: nat)
    requires Linked(boxes) && b < |boxes|
    ensures var r := boxes[b := boxes[b].(isParent := true)]; Linked(r) && Particles(r) == Particles(boxes)
  {
    var boxes' := boxes[b := boxes[b].(isParent := true)];
    assert HoldsOwn(boxes[b]);
    RelabelledLinked(boxes, b, boxes'[b]);
    ParticlesUpdate(boxes, b, boxes'[b]);
    Cancel(Particles(boxes'), Particles(boxes), multiset(boxes[b].particles));
  }

  // -------------------------------------------------------------------------------- one turn

  /** The heap and the box that the cascade has come to. */
  datatype Spot = Spot(boxes: seq<Box>, at: nat)

  /** All boxes are settled but this one, a leaf that may hold one particle too many, or a parent. */
  predicate Cascading(s: Spot) {
    && Linked(s.boxes) && s.at < |s.boxes| && SettledBut(s.boxes, s.at)
    && Settled(s.boxes[s.at], MAX_PARTICLES_PER_BOX + 1)
  }

  predicate Full(s: Spot) {
    s.at < |s.boxes| && |s.boxes[s.at].particles| > MAX_PARTICLES_PER_BOX
  }

  function Held(s: Spot): multiset<Particle> {
    if s.at < |s.boxes| then multiset(s.boxes[s.at].particles) else multiset{}
  }

  function LengthAt(s: Spot): real {
    if s.at < |s.boxes| then s.boxes[s.at].length else 0.0
  }

  function FirstKid(kids: seq<int>): (q: nat)
    requires |kids| == 4 && KidCount(kids) > 0
    ensures q < 4 && kids[q] != -1 && forall r :: 0 <= r < q ==> kids[r] == -1
  {
    if kids[0] != -1 then 0 else if kids[1] != -1 then 1 else if kids[2] != -1 then 2 else 3
  }

  /** One turn of the loop: subdivide, and go on to an only child. */
  function Turn(s: Spot): (r: Spot)
    requires Cascading(s) && Full(s)
    ensures Cascading(r) && SamePlace(r.boxes[0], s.boxes[0]) && Particles(r.boxes) == Particles(s.boxes)
  {
    SplitKeeps(s.boxes, s.at);
    Subdivided(s.boxes, Split(s.boxes, s.at), s.at);
    var boxes := Split(s.boxes, s.at);
    if boxes[s.at].numChildren != 1 then Spot(boxes, s.at)
    else
      var q := FirstKid(boxes[s.at].children);
      OnlyChild(s.boxes, boxes, s.at, q);
      Spot(boxes, boxes[s.at].children[q])
  }

  /** An overflowing only child is half as long and holds the same particles. */
  lemma OnlyChildSame(s: Spot)
    requires Cascading(s) && Full(s) && Full(Turn(s))
    ensures Held(Turn(s)) == Held(s) && LengthAt(Turn(s)) == LengthAt(s) / 2.0
  {
    SplitKeeps(s.boxes, s.at);
    Subdivided(s.boxes, Split(s.boxes, s.at), s.at);
    OnlyChildTakesOver(s.boxes, Split(s.boxes, s.at), s.at);
  }

  lemma OnlyChildTakesOver(was: seq<Box>, boxes: seq<Box>, b: nat)
    requires Linked(boxes) && b < |was| <= |boxes| && SettledBut(was, b) && boxes[b].isParent && NoChildren(was[b])
    requires |was[b].particles| == MAX_PARTICLES_PER_BOX + 1 && Particles(boxes) == Particles(was)
    requires Distributed(was, boxes[b := boxes[b].(isParent := false)], b, MAX_PARTICLES_PER_BOX + 1, -1)
    requires |boxes[b].children| == 4 && boxes[b].numChildren == KidCount(boxes[b].children) == 1
    ensures var c := boxes[b].children[FirstKid(boxes[b].children)];
            && 0 <= c < |boxes| && multiset(boxes[c].particles) == multiset(was[b].particles)
            && boxes[c].length == was[b].length / 2.0
  {
    var q := FirstKid(boxes[b].children);
    OnlyChild(was, boxes, b, q);
    OnlyNewBox(was, boxes, b, q);
    assert was[b].particles[MAX_PARTICLES_PER_BOX + 1..] == [];
    OnlyChildTakesAll(was, boxes, b);
  }

  lemma OnlyNewBox(was: seq<Box>, boxes: seq<Box>, b: nat, q: nat)
    requires Linked(boxes) && b < |was| <= |boxes| && boxes[b].isParent && NoChildren(was[b])
    requires |was[b].particles| == MAX_PARTICLES_PER_BOX + 1
    requires Distributed(was, boxes[b := boxes[b].(isParent := false)], b, MAX_PARTICLES_PER_BOX + 1, -1)
    requires q < 4 && boxes[b].numChildren == 1 && |was| <= boxes[b].children[q] < |boxes|
    ensures boxes[b].children[q] == |was| && |boxes| == |was| + 1
  {
    var handed := boxes[b := boxes[b].(isParent := false)];
    StillLinked(boxes, b);
    if |boxes| > |was| + 1 {
      OneKidOnly(was, handed, b, q, |was|);
      OneKidOnly(was, handed, b, q, |was| + 1);
      assert false;
    }
  }

  lemma OneKidOnly(was: seq<Box>, handed: seq<Box>, b: nat, q: nat, j: nat)
    requires Linked(handed) && b < |was| <= j < |handed| && |was[b].particles| == MAX_PARTICLES_PER_BOX + 1
    requires Distributed(was, handed, b, MAX_PARTICLES_PER_BOX + 1, -1)
    requires q < 4 && handed[b].numChildren == 1 && handed[b].children[q] != -1
    ensures handed[b].children[q] == j
  {
    NewBoxIsAKid(was, handed, b, j);
    if handed[j].childNum != q {
      TwoPresent(handed[b].children, handed[j].childNum, q);
      assert false;
    }
  }

  lemma OnlyChildTakesAll(was: seq<Box>, boxes: seq<Box>, b: nat)
    requires b < |was| && |boxes| == |was| + 1 && boxes[b].particles == [] && Particles(boxes) == Particles(was)
    requires forall j :: 0 <= j < |was| && j != b ==> boxes[j] == was[j]
    ensures multiset(boxes[|was|].particles) == multiset(was[b].particles)
  {
    var rest := was[b := boxes[b]];
    assert boxes[..|was|] == rest;
    ParticlesUpdate(was, b, boxes[b]);
    var child, own := multiset(boxes[|was|].particles), multiset(was[b].particles);
    assert multiset(boxes[b].particles) == multiset{};
    assert Particles(rest) + child == Particles(boxes) == Particles(was) == Particles(rest) + own;
    CancelLeft(child, own, Particles(rest));
  }

  // -------------------------------------------------------------- particles in the same place

  predicate SamePoint(p: Particle, q: Particle) {
    p.x == q.x && p.y == q.y
  }

  predicate OnePlace(m: multiset<Particle>) {
    forall p, q :: p in m && q in m ==> SamePoint(p, q)
  }

  /** All particles left in the box belong to child q, and it has no other. */
  predicate OneWay(b: Box, q: nat) {
    && |b.children| == 4 && (forall r :: 0 <= r < 4 && r != q ==> b.children[r] == -1)
    && forall k :: 0 <= k < |b.particles| ==> Quadrant(b, b.particles[k]) == q
  }

  lemma DealOneOneWay(boxes: seq<Box>, b: nat, q: nat)
    requires Linked(boxes) && b < |boxes| && boxes[b].particles != [] && OneWay(boxes[b], q)
    ensures |DealOne(boxes, b)| >= |boxes| && OneWay(DealOne(boxes, b)[b], q)
  {
    var p, r := boxes[b].particles[0], boxes[b].particles[1..];
    assert Quadrant(boxes[b], p) == q;
    assert DownLinks(boxes, b) && DownLink(boxes, b, boxes[b].children[q], q);
    var b' := DealOne(boxes, b)[b];
    assert b'.particles == r && SamePlace(b', boxes[b]);
    forall k | 0 <= k < |r| ensures Quadrant(b', r[k]) == q {
      assert Quadrant(boxes[b], boxes[b].particles[k + 1]) == q;
    }
  }

  lemma {:induction false} DealtOneWay(boxes: seq<Box>, b: nat, q: nat)
    requires Linked(boxes) && b < |boxes| && OneWay(boxes[b], q)
    ensures |Dealt(boxes, b)| >= |boxes| && OneWay(Dealt(boxes, b)[b], q)
    decreases if b < |boxes| then |boxes[b].particles| else 0
  {
    if boxes[b].particles != [] {
      DealOneKeeps(boxes, b);
      DealOneOneWay(boxes, b, q);
      DealtOneWay(DealOne(boxes, b), b, q);
    }
  }

  /** Particles in one place all go to one child, which overflows in its turn. */
  lemma OnePlaceStaysFull(s: Spot)
    requires Cascading(s) && Full(s) && OnePlace(Held(s))
    ensures Full(Turn(s))
  {
    var was, b, ps := s.boxes, s.at, s.boxes[s.at].particles;
    var q := Quadrant(was[b], ps[0]);
    forall k | 0 <= k < |ps| ensures Quadrant(was[b], ps[k]) == q {
      assert ps[k] in multiset(ps) && ps[0] in multiset(ps);
      assert SamePoint(ps[k], ps[0]);
    }
    DealtOneWay(was, b, q);
    SplitKeeps(was, b);
    var boxes := Split(was, b);
    Subdivided(was, boxes, b);
    var kids := boxes[b].children;
    assert KidSizes(boxes[b := boxes[b].(isParent := false)], kids) > 0;
    assert kids[q] != -1 && KidCount(kids) == 1;
    OnlyChild(was, boxes, b, FirstKid(kids));
  }

  // -------------------------------------------------------------------------------- the loop

  /** A turn as the loop takes it. */
  function Next(s: Spot): Spot {
    if Cascading(s) && Full(s) then Turn(s) else s
  }

  /** The loop comes to an end from here. */
  ghost predicate CascadeEnds(s: Spot) {
    Ends(Next, Full, s)
  }

  predicate Crowded(s: Spot, m: multiset<Particle>) {
    Cascading(s) && Full(s) && Held(s) == m
  }

  lemma CrowdedTurn(s: Spot, m: multiset<Particle>)
    requires Crowded(s, m) && OnePlace(m)
    ensures Crowded(Next(s), m) && LengthAt(Next(s)) == LengthAt(s) / 2.0
  {
    OnePlaceStaysFull(s);
    OnlyChildSame(s);
  }

  function Crowding(m: multiset<Particle>): Spot -> bool {
    s => Crowded(s, m)
  }

  lemma CrowdingIsKept(m: multiset<Particle>)
    requires OnePlace(m)
    ensures Kept(Next, Full, Crowding(m))
    ensures forall x {:trigger LengthAt(Next(x))} :: Crowding(m)(x) ==> LengthAt(Next(x)) == LengthAt(x) / 2.0
  {
    forall x | Crowding(m)(x) ensures Crowding(m)(Next(x)) && LengthAt(Next(x)) == LengthAt(x) / 2.0 {
      CrowdedTurn(x, m);
    }
  }

  lemma CrowdGoesOn(next: Spot -> Spot, s: Spot, n: nat, m: multiset<Particle>)
    requires Kept(next, Full, Crowding(m)) && Crowding(m)(s)
    requires forall x {:trigger LengthAt(next(x))} :: Crowding(m)(x) ==> LengthAt(next(x)) == LengthAt(x) / 2.0
    ensures var r := Iterate(next, Full, s, n);
            Full(r) && Held(r) == m && LengthAt(r) == Halved(LengthAt(s), n)
  {
    HalvingGoesOn(next, Full, Crowding(m), LengthAt, s, n);
    assert Crowding(m)(Iterate(next, Full, s, n));
  }

  /** From particles in one place the guard is still true after any number of turns: the box has been
      halved that often and still holds them all. */
  lemma OnePlaceGoesOn(s: Spot, n: nat)
    requires Cascading(s) && Full(s) && OnePlace(Held(s))
    ensures var r := Iterate(Next, Full, s, n);
            Full(r) && Held(r) == Held(s) && LengthAt(r) == Halved(LengthAt(s), n)
  {
    CrowdingIsKept(Held(s));
    assert Crowding(Held(s))(s);
    CrowdGoesOn(Next, s, n, Held(s));
  }

  predicate Apart(m: multiset<Particle>, p: Particle, q: Particle, delta: real) {
    p in m && q in m && (Abs(p.x - q.x) >= delta || Abs(p.y - q.y) >= delta)
  }

  /** How often a length can still be halved before it is below delta. */
  function Halvings(length: real, delta: real): nat {
    if length > 0.0 && delta > 0.0 then (2.0 * length / delta).Floor else 0
  }

  lemma HalvingCounts(length: real, delta: real)
    requires delta > 0.0 && length >= delta
    ensures Halvings(length / 2.0, delta) < Halvings(length, delta)
  {
    var r := length / delta;
    assert r >= 1.0;
    assert 2.0 * (length / 2.0) / delta == r;
    assert 2.0 * length / delta == r + r;
  }

  /** A box that holds two particles delta apart is at least delta long. */
  lemma HoldingBoxIsLong(s: Spot, p: Particle, q: Particle, delta: real)
    requires Cascading(s) && Apart(Held(s), p, q, delta)
    ensures LengthAt(s) >= delta
  {
    assert HoldsOwn(s.boxes[s.at]);
    var ps := s.boxes[s.at].particles;
    var i :| 0 <= i < |ps| && ps[i] == p;
    var j :| 0 <= j < |ps| && ps[j] == q;
    assert Contains(s.boxes[s.at], ps[i]) && Contains(s.boxes[s.at], ps[j]);
  }

  /** An overflowing box holds both of two particles apart. */
  predicate Spread(s: Spot, p: Particle, q: Particle, delta: real) {
    Cascading(s) && (Full(s) ==> Apart(Held(s), p, q, delta))
  }

  lemma SpreadTurn(s: Spot, p: Particle, q: Particle, delta: real)
    requires Spread(s, p, q, delta) && Full(s) && delta > 0.0
    ensures Spread(Next(s), p, q, delta)
    ensures Full(Next(s)) ==> Halvings(LengthAt(Next(s)), delta) < Halvings(LengthAt(s), delta)
  {
    if Full(Turn(s)) {
      OnlyChildSame(s);
      HoldingBoxIsLong(s, p, q, delta);
      HalvingCounts(LengthAt(s), delta);
    }
  }

  /** Two particles apart end the loop. */
  lemma ApartEnds(s: Spot, p: Particle, q: Particle, delta: real)
    requires Spread(s, p, q, delta) && delta > 0.0
    ensures CascadeEnds(s)
  {
    var good := (x: Spot) => Spread(x, p, q, delta);
    var measure := (x: Spot) => Halvings(LengthAt(x), delta);
    forall x | good(x) && Full(x)
      ensures good(Next(x)) && (Full(Next(x)) ==> measure(Next(x)) < measure(x))
    {
      SpreadTurn(x, p, q, delta);
    }
    assert Kept(Next, Full, good);
    var n := MeasureEnds(Next, Full, good, measure, s);
  }

  /** Exactly when the cascade comes to an end: unless all particles of an overflowing leaf are in one
      place. */
  lemma CascadeEndsExactly(s: Spot)
    requires Cascading(s)
    ensures CascadeEnds(s) <==> !Full(s) || !OnePlace(Held(s))
  {
    if !Full(s) {
      assert !Full(Iterate(Next, Full, s, 0));
    } else if OnePlace(Held(s)) {
      forall n: nat ensures Full(Iterate(Next, Full, s, n)) {
        OnePlaceGoesOn(s, n);
      }
    } else {
      var p, q :| p in Held(s) && q in Held(s) && !SamePoint(p, q);
      ApartEnds(s, p, q, if p.x != q.x then Abs(p.x - q.x) else Abs(p.y - q.y));
    }
  }

  /** What the loop keeps, and where it stops. */
  predicate Settling(s: Spot, root: Box, particles: multiset<Particle>) {
    Cascading(s) && SamePlace(s.boxes[0], root) && Particles(s.boxes) == particles
  }

  ghost function StopsAt(s: Spot): (r: Spot)
    requires Cascading(s) && CascadeEnds(s)
    ensures Valid(r.boxes) && r.at < |r.boxes| && SamePlace(r.boxes[0], s.boxes[0])
    ensures Particles(r.boxes) == Particles(s.boxes)
  {
    var root, all := s.boxes[0], Particles(s.boxes);
    var good := (x: Spot) => Settling(x, root, all);
    assert Kept(Next, Full, good);
    GoodAtLast(Next, Full, good, s);
    Last(Next, Full, s)
  }
}
