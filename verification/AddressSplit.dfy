/** How the cache controller splits an address into tag, set index and offset. Masks and shifts by a
    number of bits are taken as remainders and quotients by that power of two. */
module AddressSplit {
  import opened Arithmetic

  lemma {:induction false} Pow2Adds(m: nat, n: nat)
    ensures Pow2(m + n) == Pow2(m) * Pow2(n)
  {
    if m > 0 {
      Pow2Adds(m - 1, n);
      assert Pow2(m + n) == 2 * Pow2(m - 1 + n);
      TwiceProduct(Pow2(m - 1), Pow2(n));
    }
  }

  lemma TwiceProduct(a: nat, b: nat)
    ensures 2 * (a * b) == (2 * a) * b
  {
  }

  lemma {:induction false} Pow2Grows(m: nat, n: nat)
    requires m < n
    ensures 2 * Pow2(m) <= Pow2(n)
  {
    if m + 1 < n {
      Pow2Grows(m, n - 1);
    }
  }

  lemma Pow2Unique(bits: nat, k: nat)
    requires Pow2(bits) <= Pow2(k) < Pow2(bits + 1)
    ensures bits == k
  {
    if bits < k {
      Pow2Grows(bits, k);
      assert false;
    } else if k < bits {
      Pow2Grows(k, bits);
      assert false;
    }
  }

  /** The number of bits below the leading one; for a power of two, its exponent. */
  method GetNumBits(num: nat) returns (bits: nat)
    requires num > 0
    ensures Pow2(bits) <= num < Pow2(bits + 1)
  {
    var n: nat, count: nat := num, 0;
    ghost var p := 1;
    while n > 0
      invariant p == Pow2(count) && n * p <= num < (n + 1) * p
      invariant n == 0 ==> count > 0 && Pow2(count - 1) <= num
    {
      HalvingBounds(n, p, num);
      n := n / 2;
      count := count + 1;
      p := 2 * p;
    }
    bits := count - 1;
  }

  lemma HalvingBounds(n: nat, p: nat, num: nat)
    requires n > 0 && n * p <= num < (n + 1) * p
    ensures (n / 2) * (2 * p) <= num < (n / 2 + 1) * (2 * p)
    ensures n / 2 == 0 ==> p <= num
  {
    var h := n / 2;
    assert h * (2 * p) == (2 * h) * p && (h + 1) * (2 * p) == (2 * h + 2) * p;
    MulMonotone(2 * h, n, p);
    MulMonotone(n + 1, 2 * h + 2, p);
    MulMonotone(1, n, p);
  }

  // Remainder and quotient by repeated subtraction: where an address is only passed on, its parts then
  // bring no products into a proof.
  function Mod(a: nat, d: nat): (r: nat)
    requires d > 0
    ensures r < d && r <= a
  {
    if a < d then a else Mod(a - d, d)
  }

  function Div(a: nat, d: nat): nat
    requires d > 0
  {
    if a < d then 0 else 1 + Div(a - d, d)
  }

  lemma {:induction false} ModAndDiv(a: nat, d: nat)
    requires d > 0
    ensures Mod(a, d) == a % d && Div(a, d) == a / d
  {
    if a < d {
      DivisionUnique(a, d, 0, a);
    } else {
      ModAndDiv(a - d, d);
      assert a == (1 + (a - d) / d) * d + (a - d) % d;
      DivisionUnique(a, d, 1 + (a - d) / d, (a - d) % d);
    }
  }

  /** The tag keeps the address's upper bits, the set index the middle ones. */
  function TagOf(addr: nat, offsetBits: nat, indexBits: nat): nat {
    addr - Mod(addr, Pow2(offsetBits + indexBits))
  }

  function IndexOf(addr: nat, offsetBits: nat, indexBits: nat): nat {
    Div(Mod(addr, Pow2(offsetBits + indexBits)), Pow2(offsetBits))
  }

  function OffsetOf(addr: nat, offsetBits: nat): nat {
    Mod(addr, Pow2(offsetBits))
  }

  lemma Regroup(q: nat, i: nat, f: nat, l: nat, s: nat)
    ensures q * (l * s) + i * l + f == (q * s + i) * l + f
  {
    assert q * (l * s) == (q * s) * l;
    assert (q * s + i) * l == (q * s) * l + i * l;
  }

  lemma SplitParts(addr: nat, l: nat, s: nat)
    requires l > 0 && s > 0
    ensures l * s > 0
    ensures (addr % (l * s)) / l * l + addr % l == addr % (l * s)
    ensures (addr % (l * s)) / l < s
  {
    MulMonotone(1, l, s);
    var d := l * s;
    var r, q := addr % d, addr / d;
    assert addr == q * d + r;
    assert d == s * l;
    QuotientBounds(r, l, s);
    var i, f := r / l, r % l;
    Regroup(q, i, f, l, s);
    DivisionUnique(addr, l, q * s + i, f);
  }

  /** Splitting an address loses nothing: the parts are in range and add up to it again. */
  lemma SplitRoundTrip(addr: nat, o: nat, s: nat)
    ensures addr == TagOf(addr, o, s) + IndexOf(addr, o, s) * Pow2(o) + OffsetOf(addr, o)
    ensures IndexOf(addr, o, s) < Pow2(s) && OffsetOf(addr, o) < Pow2(o)
  {
    Pow2Adds(o, s);
    SplitParts(addr, Pow2(o), Pow2(s));
    ModAndDiv(addr, Pow2(o + s));
    ModAndDiv(Mod(addr, Pow2(o + s)), Pow2(o));
    ModAndDiv(addr, Pow2(o));
  }

  /** There is no other way to split it: a tag with its low bits clear, an index and an offset in range. */
  lemma SplitUnique(addr: nat, o: nat, s: nat, t: nat, i: nat, f: nat)
    requires i < Pow2(s) && f < Pow2(o)
    ensures addr == t * Pow2(o + s) + i * Pow2(o) + f
            <==> TagOf(addr, o, s) == t * Pow2(o + s) && IndexOf(addr, o, s) == i && OffsetOf(addr, o) == f
  {
    SplitRoundTrip(addr, o, s);
    if addr == t * Pow2(o + s) + i * Pow2(o) + f {
      PartsFromSum(addr, o, s, t, i, f);
    }
  }

  lemma PartsFromSum(addr: nat, o: nat, s: nat, t: nat, i: nat, f: nat)
    requires i < Pow2(s) && f < Pow2(o) && addr == t * Pow2(o + s) + i * Pow2(o) + f
    ensures TagOf(addr, o, s) == t * Pow2(o + s) && IndexOf(addr, o, s) == i && OffsetOf(addr, o) == f
  {
    Pow2Adds(o, s);
    QuotientsOfSum(addr, Pow2(o), Pow2(s), t, i, f);
    ModAndDiv(addr, Pow2(o + s));
    ModAndDiv(Mod(addr, Pow2(o + s)), Pow2(o));
    ModAndDiv(addr, Pow2(o));
  }

  lemma QuotientsOfSum(v: nat, l: nat, n: nat, t: nat, i: nat, f: nat)
    requires i < n && f < l && v == t * (l * n) + i * l + f
    ensures l * n > 0 && v % (l * n) == i * l + f
    ensures (i * l + f) / l == i && v % l == f
  {
    var d, low := l * n, i * l + f;
    MulMonotone(i + 1, n, l);
    assert (i + 1) * l == i * l + l && n * l == d;
    Remainder(v, d, t, low);
    DivisionUnique(low, l, i, f);
    Regroup(t, i, f, l, n);
    Remainder(v, l, t * n + i, f);
  }

  lemma Remainder(v: nat, d: nat, q: nat, r: nat)
    requires v == q * d + r && r < d
    ensures v % d == r
  {
    DivisionUnique(v, d, q, r);
  }

  lemma IndexFits(addr: nat, o: nat, s: nat)
    ensures IndexOf(addr, o, s) < Pow2(s)
  {
    SplitRoundTrip(addr, o, s);
  }

  /** Two addresses with the same tag, index and offset are the same address. */
  lemma SplitInjective(a: nat, b: nat, o: nat, s: nat)
    requires TagOf(a, o, s) == TagOf(b, o, s) && IndexOf(a, o, s) == IndexOf(b, o, s)
             && OffsetOf(a, o) == OffsetOf(b, o)
    ensures a == b
  {
    SplitRoundTrip(a, o, s);
    SplitRoundTrip(b, o, s);
  }

  /** A tag is a multiple of two, so no tag is the all-ones word of an empty way. */
  lemma TagIsEven(addr: nat, o: nat, s: nat)
    requires o + s > 0
    ensures TagOf(addr, o, s) % 2 == 0
  {
    var d := Pow2(o + s - 1);
    assert Pow2(o + s) == 2 * d;
    var q := addr / (2 * d);
    assert addr == q * (2 * d) + addr % (2 * d);
    assert q * (2 * d) == 2 * (q * d);
    ModAndDiv(addr, 2 * d);
    assert TagOf(addr, o, s) == 2 * (q * d);
  }

  /** Without offset and index bits the whole address is its tag. */
  lemma WholeTag(addr: nat)
    ensures TagOf(addr, 0, 0) == addr
  {
  }
}
