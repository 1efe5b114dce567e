/** Putting particles into the FMM quadtree: each goes down to the leaf it belongs to, starting from the
    last one's destination, and an overflowing leaf is subdivided. Which lists of particles the
    insertion comes to an end on. */
module ParticleTree {
  import opened Arithmetic
  import opened Loops
  import opened ParticleHeap
  import opened ParticleCascade

  // ------------------------------------------------------------------------ finding the leaf

  /** Up from a box to one whose closed square contains the particle. */
  function Climb(boxes: seq<Box>, p: Particle, home: nat): (r: nat)
    requires Linked(boxes) && home < |boxes| && Contains(boxes[0], p)
    ensures r < |boxes| && Contains(boxes[r], p)
    decreases home
  {
    if Contains(boxes[home], p) then home
    else
      assert UpLink(boxes, home);
      Climb(boxes, p, boxes[home].parent)
  }

  /** The child of a parent box that the particle belongs to, which is made if it is missing. */
  function Below(s: Spot, p: Particle): Spot
    requires Valid(s.boxes) && s.at < |s.boxes| && s.boxes[s.at].isParent && Contains(s.boxes[s.at], p)
  {
    var q := Quadrant(s.boxes[s.at], p);
    assert DownLinks(s.boxes, s.at) && DownLink(s.boxes, s.at, s.boxes[s.at].children[q], q);
    if s.boxes[s.at].children[q] == -1 then Spot(WithChild(s.boxes, s.at, q), |s.boxes|)
    else Spot(s.boxes, s.boxes[s.at].children[q])
  }

  lemma MadeBelow(boxes: seq<Box>, b: nat, p: Particle)
    requires Valid(boxes) && b < |boxes| && boxes[b].isParent && Contains(boxes[b], p)
    requires |boxes[b].children| == 4 && boxes[b].children[Quadrant(boxes[b], p)] == -1
    ensures var r := WithChild(boxes, b, Quadrant(boxes[b], p));
            && Valid(r) && SamePlace(r[0], boxes[0]) && Particles(r) == Particles(boxes)
            && Contains(r[|boxes|], p) && !r[|boxes|].isParent
  {
    var q := Quadrant(boxes[b], p);
    WithChildSettled(boxes, b, q);
    WithChildLinked(boxes, b, q);
    WithChildParticles(boxes, b, q);
    QuadrantContains(boxes[b], b, p);
  }

  lemma BelowKeeps(s: Spot, p: Particle)
    requires Valid(s.boxes) && s.at < |s.boxes| && s.boxes[s.at].isParent && Contains(s.boxes[s.at], p)
    ensures var r := Below(s, p);
            && Valid(r.boxes) && SamePlace(r.boxes[0], s.boxes[0]) && Particles(r.boxes) == Particles(s.boxes)
            && r.at < |r.boxes| && Contains(r.boxes[r.at], p)
            && (r.boxes[r.at].isParent ==> r.at > s.at && |r.boxes| == |s.boxes|)
  {
    assert DownLinks(s.boxes, s.at);
    if s.boxes[s.at].children[Quadrant(s.boxes[s.at], p)] == -1 {
      MadeBelow(s.boxes, s.at, p);
    } else {
      KidContains(s.boxes, s.at, p);
    }
  }

  function ToGo(s: Spot): nat {
    if s.at < |s.boxes| && s.boxes[s.at].isParent then |s.boxes| - s.at else 0
  }

  /** Down to a leaf. */
  function Descend(s: Spot, p: Particle): (r: Spot)
    requires Valid(s.boxes) && s.at < |s.boxes| && Contains(s.boxes[s.at], p)
    ensures Valid(r.boxes) && SamePlace(r.boxes[0], s.boxes[0]) && Particles(r.boxes) == Particles(s.boxes)
    ensures r.at < |r.boxes| && !r.boxes[r.at].isParent && Contains(r.boxes[r.at], p)
    decreases ToGo(s)
  {
    if !s.boxes[s.at].isParent then s
    else
      BelowKeeps(s, p);
      Descend(Below(s, p), p)
  }

  /** The heap with the particle in its leaf, which may now hold one too many. */
  function Placed(s: Spot, p: Particle): Spot
    requires Valid(s.boxes) && s.at < |s.boxes| && Contains(s.boxes[0], p)
  {
    var h := Descend(Spot(s.boxes, Climb(s.boxes, p, s.at)), p);
    Spot(WithOneMore(h.boxes, h.at, p), h.at)
  }

  /** The particle lies in its leaf, which may be the one box that is not settled, and nothing is lost. */
  lemma PlacedKeeps(s: Spot, p: Particle)
    requires Valid(s.boxes) && s.at < |s.boxes| && Contains(s.boxes[0], p)
    ensures var r := Placed(s, p);
            && Cascading(r) && SamePlace(r.boxes[0], s.boxes[0]) && Contains(r.boxes[r.at], p)
            && Particles(r.boxes) == Particles(s.boxes) + multiset{p}
  {
    AddedKeeps(Descend(Spot(s.boxes, Climb(s.boxes, p, s.at)), p), p);
  }

  lemma AddedKeeps(h: Spot, p: Particle)
    requires Valid(h.boxes) && h.at < |h.boxes| && !h.boxes[h.at].isParent && Contains(h.boxes[h.at], p)
    ensures var r := WithOneMore(h.boxes, h.at, p);
            && Cascading(Spot(r, h.at)) && SamePlace(r[0], h.boxes[0]) && Contains(r[h.at], p)
            && Particles(r) == Particles(h.boxes) + multiset{p}
  {
    assert HoldsOwn(h.boxes[h.at]);
    WithParticlesLinked(h.boxes, h.at, h.boxes[h.at].particles + [p]);
    OneMore(h.boxes, h.at, p);
  }

  // ----------------------------------------------------------------------------- whole lists

  predicate InSquare(b: Box, list: seq<Particle>) {
    forall k :: 0 <= k < |list| ==> Contains(b, list[k])
  }

  /** A valid tree, the last destination in it, and particles that lie in its root's square. */
  predicate Ready(s: Spot, list: seq<Particle>) {
    Valid(s.boxes) && s.at < |s.boxes| && InSquare(s.boxes[0], list)
  }

  lemma NextReady(s: Spot, list: seq<Particle>)
    requires Ready(s, list) && list != []
    ensures var t := Placed(s, list[0]);
            Cascading(t) && (CascadeEnds(t) ==> Ready(StopsAt(t), list[1..]))
  {
    PlacedKeeps(s, list[0]);
    var t := Placed(s, list[0]);
    if CascadeEnds(t) {
      StaysInSquare(s.boxes[0], StopsAt(t).boxes[0], list);
    }
  }

  lemma StaysInSquare(b: Box, b': Box, list: seq<Particle>)
    requires SamePlace(b', b) && InSquare(b, list) && list != []
    ensures InSquare(b', list[1..])
  {
  }

  /** Every cascade that the particles of the list set off comes to an end. */
  ghost predicate InsertionEnds(s: Spot, list: seq<Particle>)
    requires Ready(s, list)
    decreases |list|
  {
    list == [] ||
    (NextReady(s, list);
     var t := Placed(s, list[0]);
     CascadeEnds(t) && InsertionEnds(StopsAt(t), list[1..]))
  }

  /** At no place are there more particles than one box may hold. */
  ghost predicate NoCrowd(m: multiset<Particle>) {
    forall c: multiset<Particle> :: c <= m && |c| == MAX_PARTICLES_PER_BOX + 1 ==> !OnePlace(c)
  }

  /** An overflowing leaf is not in one place if no 41 particles anywhere are. */
  lemma NoCrowdCascades(t: Spot, m: multiset<Particle>)
    requires Cascading(t) && Particles(t.boxes) <= m && NoCrowd(m)
    ensures CascadeEnds(t)
  {
    CascadeEndsExactly(t);
    if Full(t) {
      ParticlesCover(t.boxes, t.at);
      assert Held(t) <= m && |Held(t)| == MAX_PARTICLES_PER_BOX + 1;
    }
  }

  lemma NextCascadeEnds(s: Spot, list: seq<Particle>)
    requires Ready(s, list) && list != [] && NoCrowd(Particles(s.boxes) + multiset(list))
    ensures var t := Placed(s, list[0]);
            Cascading(t) && CascadeEnds(t) && Ready(StopsAt(t), list[1..])
            && Particles(StopsAt(t).boxes) + multiset(list[1..]) == Particles(s.boxes) + multiset(list)
  {
    NextReady(s, list);
    PlacedKeeps(s, list[0]);
    MoveOne(Particles(s.boxes), list);
    NoCrowdCascades(Placed(s, list[0]), Particles(s.boxes) + multiset(list));
  }

  lemma MoveOne(m: multiset<Particle>, list: seq<Particle>)
    requires list != []
    ensures m + multiset{list[0]} + multiset(list[1..]) == m + multiset(list)
    ensures m + multiset{list[0]} <= m + multiset(list)
  {
    assert list == [list[0]] + list[1..];
    assert multiset(list) == multiset{list[0]} + multiset(list[1..]);
  }

  /** Insertion comes to an end, in whatever order and from whatever valid tree, if no 41 of the stored and
      listed particles are in one place. */
  lemma {:induction false} NoCrowdEnds(s: Spot, list: seq<Particle>)
    requires Ready(s, list) && NoCrowd(Particles(s.boxes) + multiset(list))
    ensures InsertionEnds(s, list)
    decreases |list|
  {
    if list != [] {
      NextCascadeEnds(s, list);
      NoCrowdEnds(StopsAt(Placed(s, list[0])), list[1..]);
    }
  }

  // ------------------------------------------------------------- which lists can be relied upon

  /** An empty grid: one leaf without particles. */
  predicate EmptyGrid(root: Box) {
    && root.length > 0.0 && root.parent == -1 && NoChildren(root) && !root.isParent && root.particles == []
  }

  /** The grid while its only leaf fills up. */
  function Filling(root: Box, stored: seq<Particle>): Spot {
    Spot([root.(particles := stored)], 0)
  }

  ghost predicate Finishes(s: Spot, list: seq<Particle>) {
    Ready(s, list) && InsertionEnds(s, list)
  }

  lemma FillingIsReady(root: Box, stored: seq<Particle>, list: seq<Particle>)
    requires EmptyGrid(root) && InSquare(root, stored) && InSquare(root, list) && |stored| <= MAX_PARTICLES_PER_BOX
    ensures Ready(Filling(root, stored), list)
  {
  }

  /** One more particle fills the leaf further, and as long as it is not overflowing that is all. */
  lemma FillsUp(root: Box, stored: seq<Particle>, list: seq<Particle>)
    requires EmptyGrid(root) && InSquare(root, stored) && InSquare(root, list) && list != []
    requires |stored| <= MAX_PARTICLES_PER_BOX
    ensures Ready(Filling(root, stored), list)
    ensures Placed(Filling(root, stored), list[0]) == Filling(root, stored + [list[0]])
    ensures |stored| < MAX_PARTICLES_PER_BOX ==>
              var t := Placed(Filling(root, stored), list[0]);
              Cascading(t) && CascadeEnds(t) && StopsAt(t) == Filling(root, stored + [list[0]])
  {
    var s := Filling(root, stored);
    FillingIsReady(root, stored, list);
    assert Contains(s.boxes[0], list[0]);
    assert Descend(Spot(s.boxes, Climb(s.boxes, list[0], 0)), list[0]) == s;
    PlacedKeeps(s, list[0]);
    StopsAtOnce(Placed(s, list[0]));
  }

  lemma StopsAtOnce(t: Spot)
    requires Cascading(t)
    ensures !Full(t) ==> CascadeEnds(t) && StopsAt(t) == t
  {
    if !Full(t) {
      assert Iterate(Next, Full, t, 0) == t;
      LastIsReached(Next, Full, t, 0);
    }
  }

  lemma LastOneOverflows(root: Box, crowd: seq<Particle>, list: seq<Particle>)
    requires EmptyGrid(root) && InSquare(root, crowd) && InSquare(root, list) && list != []
    requires |crowd| == MAX_PARTICLES_PER_BOX && OnePlace(multiset(crowd + [list[0]]))
    ensures !Finishes(Filling(root, crowd), list)
  {
    FillsUp(root, crowd, list);
    NextReady(Filling(root, crowd), list);
    CascadeEndsExactly(Filling(root, crowd + [list[0]]));
  }

  lemma NotYetFull(root: Box, stored: seq<Particle>, list: seq<Particle>)
    requires EmptyGrid(root) && InSquare(root, stored) && InSquare(root, list) && list != []
    requires |stored| < MAX_PARTICLES_PER_BOX && !Finishes(Filling(root, stored + [list[0]]), list[1..])
    ensures !Finishes(Filling(root, stored), list)
  {
    FillsUp(root, stored, list);
    NextReady(Filling(root, stored), list);
  }

  lemma EndInSight(s: Spot) returns (n: nat)
    requires Cascading(s) && (Full(s) ==> !OnePlace(Held(s)))
    ensures CascadeEnds(s) && StopsWithin(Next, Full, s, n, StopsAt(s))
  {
    CascadeEndsExactly(s);
    n :| !Full(Iterate(Next, Full, s, n));
    LastIsWithin(Next, Full, s, n);
  }

  lemma TurnByCases(s: Spot)
    requires Cascading(s) && Full(s)
    ensures var boxes := Split(s.boxes, s.at);
            && s.at < |boxes| && |boxes[s.at].children| == 4
            && (boxes[s.at].numChildren != 1 ==> Turn(s) == Spot(boxes, s.at))
            && (boxes[s.at].numChildren == 1 ==>
                  && KidCount(boxes[s.at].children) > 0 && boxes[s.at].children[FirstKid(boxes[s.at].children)] >= 0
                  && Turn(s) == Spot(boxes, boxes[s.at].children[FirstKid(boxes[s.at].children)]))
  {
    SplitKeeps(s.boxes, s.at);
    Subdivided(s.boxes, Split(s.boxes, s.at), s.at);
    if Split(s.boxes, s.at)[s.at].numChildren == 1 {
      OnlyChild(s.boxes, Split(s.boxes, s.at), s.at, FirstKid(Split(s.boxes, s.at)[s.at].children));
    }
  }

  /** An empty grid that is given 41 particles of one place first never gets beyond them. */
  lemma {:induction false} CrowdFirst(root: Box, crowd: seq<Particle>, rest: seq<Particle>, k: nat)
    requires EmptyGrid(root) && InSquare(root, crowd) && InSquare(root, rest)
    requires |crowd| == MAX_PARTICLES_PER_BOX + 1 && OnePlace(multiset(crowd)) && k <= MAX_PARTICLES_PER_BOX
    ensures !Finishes(Filling(root, crowd[..k]), crowd[k..] + rest)
    decreases MAX_PARTICLES_PER_BOX - k
  {
    var list := crowd[k..] + rest;
    assert crowd[..k] + [list[0]] == crowd[..k + 1] && list[1..] == crowd[k + 1..] + rest;
    if k < MAX_PARTICLES_PER_BOX {
      CrowdFirst(root, crowd, rest, k + 1);
      NotYetFull(root, crowd[..k], list);
    } else {
      assert crowd[..k + 1] == crowd;
      LastOneOverflows(root, crowd[..k], list);
    }
  }

  lemma {:induction false} InSomeOrder(m: multiset<Particle>) returns (s: seq<Particle>)
    ensures multiset(s) == m
    decreases |m|
  {
    if m == multiset{} {
      s := [];
    } else {
      var p :| p in m;
      var rest := InSomeOrder(m - multiset{p});
      s := [p] + rest;
      assert m == multiset{p} + (m - multiset{p});
    }
  }

  lemma InSquareByParts(root: Box, list: seq<Particle>, part: seq<Particle>)
    requires InSquare(root, list) && multiset(part) <= multiset(list)
    ensures InSquare(root, part)
  {
    forall k | 0 <= k < |part| ensures Contains(root, part[k]) {
      assert part[k] in multiset(part);
      assert part[k] in list;
    }
  }

  /** Exactly which lists can be relied upon: an empty grid takes a list in every order of it if and only
      if no 41 of its particles are in one place. */
  lemma EveryOrderEnds(root: Box, list: seq<Particle>)
    requires EmptyGrid(root) && InSquare(root, list)
    ensures (forall order :: multiset(order) == multiset(list) ==> Finishes(Filling(root, []), order))
            <==> NoCrowd(multiset(list))
  {
    if NoCrowd(multiset(list)) {
      forall order | multiset(order) == multiset(list) ensures Finishes(Filling(root, []), order) {
        InSquareByParts(root, list, order);
        FillingIsReady(root, [], order);
        assert Particles(Filling(root, []).boxes) + multiset(order) == multiset(order);
        NoCrowdEnds(Filling(root, []), order);
      }
    } else {
      var c: multiset<Particle> :| c <= multiset(list) && |c| == MAX_PARTICLES_PER_BOX + 1 && OnePlace(c);
      var crowd := InSomeOrder(c);
      var rest := InSomeOrder(multiset(list) - c);
      InSquareByParts(root, list, crowd);
      InSquareByParts(root, list, rest);
      assert |multiset(crowd)| == |crowd|;
      CrowdFirst(root, crowd, rest, 0);
      assert crowd[..0] == [] && crowd[0..] == crowd;
      assert multiset(crowd + rest) == multiset(list);
    }
  }

  /** Forty-one particles in the middle of a grid. */
  lemma FortyOneInTheMiddle()
    ensures var root := Box(0.0, 0.0, 2.0, false, [], -1, 0, [-1, -1, -1, -1], 0);
            !Finishes(Filling(root, []), seq(41, i requires 0 <= i < 41 => Particle(i, 0.0, 0.0)))
  {
    var root := Box(0.0, 0.0, 2.0, false, [], -1, 0, [-1, -1, -1, -1], 0);
    var list := seq(41, i requires 0 <= i < 41 => Particle(i, 0.0, 0.0));
    CrowdFirst(root, list, [], 0);
    assert list[..0] == [] && list[0..] + [] == list;
  }

  /** A grid whose upper right quarter holds some particles, and nothing else. */
  function CornerGrid(held: seq<Particle>): seq<Box> {
    var root := Box(0.0, 0.0, 2.0, true, [], -1, 0, [1, -1, -1, -1], 1);
    [root, NewChild(root, 0, 0).(particles := held)]
  }

  lemma CornerIsValid(held: seq<Particle>)
    requires |held| <= MAX_PARTICLES_PER_BOX && forall k :: 0 <= k < |held| ==> held[k].x == 0.0 && held[k].y == 0.0
    ensures Valid(CornerGrid(held)) && Particles(CornerGrid(held)) == multiset(held)
  {
    var boxes := CornerGrid(held);
    assert boxes[..1] == [boxes[0]] && boxes[..1][..0] == [];
    assert Particles(boxes[..1]) == multiset{};
  }

  /** A particle that finds room one level down sets off no cascade. */
  lemma RoomBelow(s: Spot, p: Particle)
    requires Valid(s.boxes) && s.at < |s.boxes| && s.boxes[s.at].isParent
    requires Contains(s.boxes[0], p) && Contains(s.boxes[s.at], p)
    requires var below := Below(s, p);
             below.at < |below.boxes| && !below.boxes[below.at].isParent
             && |below.boxes[below.at].particles| < MAX_PARTICLES_PER_BOX
    ensures !Full(Placed(s, p))
  {
    BelowKeeps(s, p);
    assert Climb(s.boxes, p, s.at) == s.at;
    assert Descend(s, p) == Below(s, p);
  }

  /** A particle at the common corner goes to the lower left quarter. */
  lemma CornerTakesOne(held: seq<Particle>, p: Particle)
    requires Valid(CornerGrid(held)) && p.x == 0.0 && p.y == 0.0
    ensures Ready(Spot(CornerGrid(held), 0), [p]) && !Full(Placed(Spot(CornerGrid(held), 0), p))
  {
    var s := Spot(CornerGrid(held), 0);
    assert Contains(s.boxes[0], p) && Quadrant(s.boxes[0], p) == 2;
    assert Below(s, p) == Spot(WithChild(s.boxes, 0, 2), 2);
    RoomBelow(s, p);
  }

  /** The order does matter: a place on the border of boxes can hold more than 40, if they are spread over
      several leaves. Here 40 particles lie in the corner of one quarter and a 41st at the same point. */
  lemma BorderTakesMore()
    ensures var forty := seq(40, i requires 0 <= i < 40 => Particle(i, 0.0, 0.0));
            var p, grid := Particle(40, 0.0, 0.0), CornerGrid(forty);
            Finishes(Spot(grid, 0), [p]) && !NoCrowd(Particles(grid) + multiset{p})
  {
    var forty := seq(40, i requires 0 <= i < 40 => Particle(i, 0.0, 0.0));
    var p := Particle(40, 0.0, 0.0);
    CornerIsValid(forty);
    CornerTakesOne(forty, p);
    var s := Spot(CornerGrid(forty), 0);
    NextReady(s, [p]);
    StopsAtOnce(Placed(s, p));
    var crowd := multiset(forty) + multiset{p};
    assert OnePlace(crowd) && |crowd| == MAX_PARTICLES_PER_BOX + 1;
  }

  // ------------------------------------------------------------------------------ where they are

  /** In a valid tree a particle that occurs once is in exactly one box, a leaf whose closed square contains
      it and which holds no more than the limit. */
  lemma HasOneHome(boxes: seq<Box>, x: Particle) returns (home: nat)
    requires Valid(boxes) && Particles(boxes)[x] == 1
    ensures home < |boxes| && x in boxes[home].particles && !boxes[home].isParent && Contains(boxes[home], x)
    ensures |boxes[home].particles| <= MAX_PARTICLES_PER_BOX
    ensures forall j :: 0 <= j < |boxes| && x in boxes[j].particles ==> j == home
  {
    home := Holder(boxes, x);
    assert HoldsOwn(boxes[home]);
  }

  lemma {:induction false} Holder(boxes: seq<Box>, x: Particle) returns (home: nat)
    requires Particles(boxes)[x] == 1
    ensures home < |boxes| && x in boxes[home].particles
    ensures forall j :: 0 <= j < |boxes| && x in boxes[j].particles ==> j == home
  {
    var n := |boxes| - 1;
    if x in multiset(boxes[n].particles) {
      home := n;
      forall j | 0 <= j < n ensures x !in boxes[j].particles {
        ParticlesCover(boxes[..n], j);
        assert x !in multiset(boxes[j].particles);
      }
    } else {
      home := Holder(boxes[..n], x);
      assert forall j :: 0 <= j < n ==> boxes[..n][j] == boxes[j];
      assert x !in boxes[n].particles;
    }
  }

  // ---------------------------------------------------------------------------------- in place

  class Tree {
    var boxes: seq<Box>

    method CreateChild(b: nat, q: nat) returns (c: nat)
      requires Linked(boxes) && b < |boxes| && q < 4 && |boxes[b].children| == 4 && boxes[b].children[q] == -1
      modifies this
      ensures c == old(|boxes|) && boxes == WithChild(old(boxes), b, q) && Linked(boxes)
    {
      WithChildLinked(boxes, b, q);
      c := |boxes|;
      boxes := boxes[b := boxes[b].(children := boxes[b].children[q := c], numChildren := boxes[b].numChildren + 1)]
               + [NewChild(boxes[b], b, q)];
    }

    /** Hands all particles of a leaf to its children, which are made as needed, and makes it a parent. */
    method SubdivideBox(b: nat)
      requires Linked(boxes) && b < |boxes| && NoChildren(boxes[b]) && !boxes[b].isParent
      modifies this
      ensures boxes == Split(old(boxes), b) && Linked(boxes) && Particles(boxes) == Particles(old(boxes))
      ensures |boxes| >= old(|boxes|) && boxes[b].isParent && boxes[b].particles == []
    {
      SplitKeeps(boxes, b);
      while boxes[b].particles != []
        invariant Linked(boxes) && |boxes| >= old(|boxes|) && Dealt(boxes, b) == Dealt(old(boxes), b)
        decreases |boxes[b].particles|
      {
        HandOver(b);
      }
      boxes := boxes[b := boxes[b].(isParent := true)];
    }

    /** One turn of that loop: the next particle, to its child. */
    method HandOver(b: nat)
      requires Linked(boxes) && b < |boxes| && boxes[b].particles != []
      modifies this
      ensures boxes == DealOne(old(boxes), b) && Linked(boxes) && |boxes| >= old(|boxes|)
      ensures boxes[b].particles == old(boxes[b].particles)[1..]
    {
      DealOneKeeps(boxes, b);
      var p := boxes[b].particles[0];
      var q := Quadrant(boxes[b], p);
      assert DownLinks(boxes, b) && DownLink(boxes, b, boxes[b].children[q], q);
      if boxes[b].children[q] == -1 {
        var made := CreateChild(b, q);
      }
      var c := boxes[b].children[q];
      boxes := WithOneMore(boxes, c, p);
      boxes := WithParticles(boxes, b, boxes[b].particles[1..]);
    }

    /** Up from the last destination to a box whose closed square contains the particle. */
    method FindInitialRoot(p: Particle, currentHome: nat) returns (r: nat)
      requires Linked(boxes) && currentHome < |boxes| && Contains(boxes[0], p)
      ensures r == Climb(boxes, p, currentHome) && r < |boxes| && Contains(boxes[r], p)
    {
      r := currentHome;
      while Abs(p.x - boxes[r].x) > boxes[r].length / 2.0 || Abs(p.y - boxes[r].y) > boxes[r].length / 2.0
        invariant r < |boxes| && Climb(boxes, p, r) == Climb(boxes, p, currentHome)
        decreases r
      {
        assert UpLink(boxes, r);
        r := boxes[r].parent;
      }
    }

    /** Down to the leaf the particle belongs to, which is made if it is missing. */
    method FindHome(p: Particle, currentHome: nat) returns (pb: nat)
      requires Valid(boxes) && currentHome < |boxes| && Contains(boxes[0], p)
      modifies this
      ensures Spot(boxes, pb) == Descend(Spot(old(boxes), Climb(old(boxes), p, currentHome)), p)
      ensures Valid(boxes) && SamePlace(boxes[0], old(boxes[0])) && Particles(boxes) == Particles(old(boxes))
      ensures pb < |boxes| && !boxes[pb].isParent && Contains(boxes[pb], p)
    {
      pb := FindInitialRoot(p, currentHome);
      ghost var start := Spot(boxes, pb);
      while boxes[pb].isParent
        invariant Valid(boxes) && pb < |boxes| && Contains(boxes[pb], p)
        invariant Descend(Spot(boxes, pb), p) == Descend(start, p)
        decreases ToGo(Spot(boxes, pb))
      {
        pb := StepDown(p, pb);
      }
    }

    /** One turn of that loop. */
    method StepDown(p: Particle, b: nat) returns (c: nat)
      requires Valid(boxes) && b < |boxes| && boxes[b].isParent && Contains(boxes[b], p)
      modifies this
      ensures Spot(boxes, c) == Below(Spot(old(boxes), b), p)
      ensures Valid(boxes) && c < |boxes| && Contains(boxes[c], p)
      ensures ToGo(Spot(boxes, c)) < ToGo(Spot(old(boxes), b))
    {
      BelowKeeps(Spot(boxes, b), p);
      var q := Quadrant(boxes[b], p);
      assert DownLinks(boxes, b) && DownLink(boxes, b, boxes[b].children[q], q);
      if boxes[b].children[q] == -1 {
        c := CreateChild(b, q);
      } else {
        c := boxes[b].children[q];
      }
    }

    /** Subdivides an overflowing leaf for as long as all its particles go to one child. */
    method SplitWhileFull(start: nat) returns (dest: nat)
      requires Cascading(Spot(boxes, start))
      requires Full(Spot(boxes, start)) ==> !OnePlace(Held(Spot(boxes, start)))
      modifies this
      ensures CascadeEnds(Spot(old(boxes), start)) && Spot(boxes, dest) == StopsAt(Spot(old(boxes), start))
    {
      dest := start;
      ghost var n := EndInSight(Spot(boxes, start));
      ghost var end := StopsAt(Spot(boxes, start));
      while |boxes[dest].particles| > MAX_PARTICLES_PER_BOX
        invariant Cascading(Spot(boxes, dest)) && StopsWithin(Next, Full, Spot(boxes, dest), n, end)
        decreases n
      {
        dest := SplitOnce(dest);
        n := n - 1;
      }
    }

    /** One turn of that loop. */
    method SplitOnce(b: nat) returns (dest: nat)
      requires Cascading(Spot(boxes, b)) && Full(Spot(boxes, b))
      modifies this
      ensures Spot(boxes, dest) == Turn(Spot(old(boxes), b))
    {
      TurnByCases(Spot(boxes, b));
      SubdivideBox(b);
      if boxes[b].numChildren != 1 {
        return b;
      }
      var j := FirstChild(b);
      dest := boxes[b].children[j];
    }

    method FirstChild(b: nat) returns (j: nat)
      requires b < |boxes| && |boxes[b].children| == 4 && KidCount(boxes[b].children) > 0
      ensures j == FirstKid(boxes[b].children)
    {
      j := 0;
      while boxes[b].children[j] == -1
        invariant 0 <= j < 4 && forall r :: 0 <= r < j ==> boxes[b].children[r] == -1
        decreases 4 - j
      {
        j := j + 1;
      }
    }

    /** Puts a list of particles into the tree, if no 41 of them and of those stored are in one place.
        Every particle must lie in the root's square. */
    method InsertParticlesInTree(list: seq<Particle>)
      requires Valid(boxes) && InSquare(boxes[0], list) && NoCrowd(Particles(boxes) + multiset(list))
      modifies this
      ensures Valid(boxes) && SamePlace(boxes[0], old(boxes[0]))
      ensures Particles(boxes) == Particles(old(boxes)) + multiset(list)
    {
      var dest: nat := 0;
      var i := 0;
      ghost var all := Particles(boxes) + multiset(list);
      assert list[0..] == list;
      while i < |list|
        invariant 0 <= i <= |list| && Ready(Spot(boxes, dest), list[i..]) && SamePlace(boxes[0], old(boxes[0]))
        invariant Particles(boxes) + multiset(list[i..]) == all
      {
        assert list[i..][1..] == list[i + 1..];
        dest := InsertOne(list[i], dest, list[i..]);
        i := i + 1;
      }
      assert list[i..] == [];
    }

    /** One turn of that loop. */
    method InsertOne(p: Particle, dest: nat, ghost list: seq<Particle>) returns (d: nat)
      requires list != [] && p == list[0] && Ready(Spot(boxes, dest), list)
      requires NoCrowd(Particles(boxes) + multiset(list))
      modifies this
      ensures var t := Placed(Spot(old(boxes), dest), p);
              Cascading(t) && CascadeEnds(t) && Spot(boxes, d) == StopsAt(t)
      ensures Ready(Spot(boxes, d), list[1..]) && SamePlace(boxes[0], old(boxes[0]))
      ensures Particles(boxes) + multiset(list[1..]) == Particles(old(boxes)) + multiset(list)
    {
      NextCascadeEnds(Spot(boxes, dest), list);
      PlacedKeeps(Spot(boxes, dest), p);
      CascadeEndsExactly(Placed(Spot(boxes, dest), p));
      d := FindHome(p, dest);
      boxes := WithOneMore(boxes, d, p);
      d := SplitWhileFull(d);
    }
  }
}
