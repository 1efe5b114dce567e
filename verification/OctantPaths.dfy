/** Where a body belongs in the octree: at each level one bit of its three integer coordinates picks an
    octant, in a Gray-code order. */
module OctantPaths {
  import opened Arithmetic

  /** Integer coordinates below IMAX = 2^maxLevel. */
  datatype Coords = Coords(x: nat, y: nat, z: nat)

  predicate BitSet(v: nat, l: nat)
    requires l > 0
  {
    v / l % 2 == 1
  }

  /** subindex, by the code's running flag. */
  function SubIndex(xp: Coords, l: nat): (i: nat)
    requires l > 0
    ensures i < 8
  {
    var i0 := if BitSet(xp.x, l) then 4 else 0;
    var yes0 := BitSet(xp.x, l);
    var yes1 := (BitSet(xp.y, l) && !yes0) || (!BitSet(xp.y, l) && yes0);
    var yes2 := (BitSet(xp.z, l) && !yes1) || (!BitSet(xp.z, l) && yes1);
    i0 + (if yes1 then 2 else 0) + (if yes2 then 1 else 0)
  }

  /** The same by the code's loop over the three coordinates. */
  method ComputeSubIndex(x: seq<nat>, l: nat) returns (i: nat)
    requires |x| == 3 && l > 0
    ensures i == SubIndex(Coords(x[0], x[1], x[2]), l)
  {
    var share := 8 / 2;
    var yes := false;
    i := 0;
    if BitSet(x[0], l) {
      i := i + share;
      yes := true;
    }
    ghost var yes1 := BitSet(x[1], l) != BitSet(x[0], l);
    var k := 1;
    while k < 3
      invariant 1 <= k <= 3 && share == [4, 2, 1][k - 1]
      invariant yes == if k == 1 then BitSet(x[0], l) else if k == 2 then yes1 else BitSet(x[2], l) != yes1
      invariant i == (if BitSet(x[0], l) then 4 else 0) + (if k > 1 && yes1 then 2 else 0)
                + (if k > 2 && yes then 1 else 0)
    {
      share := share / 2;
      if (BitSet(x[k], l) && !yes) || (!BitSet(x[k], l) && yes) {
        i := i + share;
        yes := true;
      } else {
        yes := false;
      }
      k := k + 1;
    }
  }

  /** The three bits behind an octant number. */
  function Bits(i: nat): (bool, bool, bool)
    requires i < 8
  {
    var b0, b1, b2 := i / 4 % 2 == 1, i / 2 % 2 == 1, i % 2 == 1;
    (b0, b0 != b1, b1 != b2)
  }

  /** Octant numbers and bit triples are in one-to-one correspondence. */
  lemma SubIndexIsBijective(xp: Coords, l: nat, i: nat)
    requires l > 0 && i < 8
    ensures SubIndex(xp, l) == i <==> (BitSet(xp.x, l), BitSet(xp.y, l), BitSet(xp.z, l)) == Bits(i)
  {
  }

  // --------------------------------------------------------------------------------- levels

  /** The level d edges below the root: half of IMAX at the root, halved along every edge. */
  function Level(maxLevel: nat, d: nat): nat {
    if d == 0 then Pow2(maxLevel) / 2 else Level(maxLevel, d - 1) / 2
  }

  lemma {:induction false} LevelIsPower(maxLevel: nat, d: nat)
    ensures Level(maxLevel, d) == if d < maxLevel then Pow2(maxLevel - 1 - d) else 0
  {
    if d > 0 {
      LevelIsPower(maxLevel, d - 1);
    }
  }

  /** The first n octants on the way of a body, from the root down. */
  function Way(maxLevel: nat, xp: Coords, n: nat): (path: seq<nat>)
    requires n <= maxLevel
    ensures |path| == n
  {
    if n == 0 then []
    else
      LevelRunsOut(maxLevel, n - 1);
      Way(maxLevel, xp, n - 1) + [SubIndex(xp, Level(maxLevel, n - 1))]
  }

  lemma LevelRunsOut(maxLevel: nat, d: nat)
    ensures Level(maxLevel, d) > 0 <==> d < maxLevel
  {
    LevelIsPower(maxLevel, d);
  }

  /** A shorter way is the beginning of a longer one. */
  lemma {:induction false} WayPrefix(maxLevel: nat, xp: Coords, m: nat, n: nat)
    requires m <= n <= maxLevel
    ensures Way(maxLevel, xp, n)[..m] == Way(maxLevel, xp, m)
  {
    if m < n {
      WayPrefix(maxLevel, xp, m, n - 1);
      assert Way(maxLevel, xp, n)[..m] == Way(maxLevel, xp, n - 1)[..m];
    }
  }

  predicate InCube(maxLevel: nat, xp: Coords) {
    xp.x < Pow2(maxLevel) && xp.y < Pow2(maxLevel) && xp.z < Pow2(maxLevel)
  }

  /** Numbers below 2l agree after division by l if and only if they have the same bit l, once they agree
      after division by 2l. */
  lemma OneMoreBit(v: nat, w: nat, l: nat)
    requires l > 0
    ensures v / l == w / l <==> v / (2 * l) == w / (2 * l) && BitSet(v, l) == BitSet(w, l)
  {
    HalfOfQuotient(v, l);
    HalfOfQuotient(w, l);
  }

  lemma HalfOfQuotient(v: nat, l: nat)
    requires l > 0
    ensures v / (2 * l) == v / l / 2
  {
    var q, r := v / l / 2, v / l % 2;
    assert v / l == 2 * q + r;
    var rest := v % l;
    assert v == (2 * q + r) * l + rest;
    assert (2 * q + r) * l == q * (2 * l) + r * l;
    DivisionUnique(v, 2 * l, q, r * l + rest);
  }

  predicate SameAbove(a: Coords, b: Coords, l: nat)
    requires l > 0
  {
    a.x / l == b.x / l && a.y / l == b.y / l && a.z / l == b.z / l
  }

  /** Two bodies share the first n octants of their ways if and only if their coordinates agree in all bits
      from the n-th down to the top. */
  lemma {:induction false} SharedWay(maxLevel: nat, a: Coords, b: Coords, n: nat)
    requires InCube(maxLevel, a) && InCube(maxLevel, b) && n <= maxLevel
    ensures Way(maxLevel, a, n) == Way(maxLevel, b, n) <==> SameAbove(a, b, Pow2(maxLevel - n))
  {
    if n == 0 {
      AllBelow(a, Pow2(maxLevel));
      AllBelow(b, Pow2(maxLevel));
    } else {
      SharedWay(maxLevel, a, b, n - 1);
      LevelIsPower(maxLevel, n - 1);
      OneMoreOctant(a, b, Pow2(maxLevel - n));
      SameLonger(Way(maxLevel, a, n - 1), Way(maxLevel, b, n - 1), SubIndex(a, Pow2(maxLevel - n)),
        SubIndex(b, Pow2(maxLevel - n)));
    }
  }

  lemma SameLonger(p: seq<nat>, q: seq<nat>, i: nat, j: nat)
    requires |p| == |q|
    ensures p + [i] == q + [j] <==> p == q && i == j
  {
    if p + [i] == q + [j] {
      assert (p + [i])[..|p|] == p && (q + [j])[..|p|] == q;
      assert (p + [i])[|p|] == i && (q + [j])[|p|] == j;
    }
  }

  lemma OneMoreOctant(a: Coords, b: Coords, l: nat)
    requires l > 0
    ensures SameAbove(a, b, l) <==> SameAbove(a, b, 2 * l) && SubIndex(a, l) == SubIndex(b, l)
  {
    OneMoreBit(a.x, b.x, l);
    OneMoreBit(a.y, b.y, l);
    OneMoreBit(a.z, b.z, l);
    SubIndexIsBijective(a, l, SubIndex(b, l));
    SubIndexIsBijective(b, l, SubIndex(b, l));
  }

  lemma AllBelow(a: Coords, m: nat)
    requires m > 0 && a.x < m && a.y < m && a.z < m
    ensures a.x / m == 0 && a.y / m == 0 && a.z / m == 0
  {
  }

  /** In particular, all octants but the last agree exactly when all bits but the lowest do. */
  lemma SharedButLowestBit(maxLevel: nat, a: Coords, b: Coords)
    requires maxLevel > 0 && InCube(maxLevel, a) && InCube(maxLevel, b)
    ensures Way(maxLevel, a, maxLevel - 1) == Way(maxLevel, b, maxLevel - 1) <==> SameAbove(a, b, 2)
  {
    SharedWay(maxLevel, a, b, maxLevel - 1);
    assert Pow2(1) == 2;
  }
}
