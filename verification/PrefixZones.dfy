/** Cutting a weighed list into zones by prefix cost: an item belongs to the zone in whose bounds the
    cost of everything before it falls. */
module PrefixZones {
  import Sequences

  datatype Weighed<T> = Weighed(item: T, cost: nat)

  function Total<T>(s: seq<Weighed<T>>): nat {
    if s == [] then 0 else s[0].cost + Total(s[1..])
  }

  /** The items before which, counting from `work`, a cost in [lo, hi) has been passed. */
  function Zone<T>(s: seq<Weighed<T>>, work: nat, lo: int, hi: int): seq<Weighed<T>> {
    if s == [] then []
    else (if lo <= work < hi then [s[0]] else []) + Zone(s[1..], work + s[0].cost, lo, hi)
  }

  lemma {:induction false} TotalAppend<T>(a: seq<Weighed<T>>, b: seq<Weighed<T>>)
    ensures Total(a + b) == Total(a) + Total(b)
  {
    if a == [] {
      assert a + b == b;
    } else {
      assert (a + b)[1..] == a[1..] + b;
      TotalAppend(a[1..], b);
    }
  }

  lemma {:induction false} ZoneAppend<T>(a: seq<Weighed<T>>, b: seq<Weighed<T>>, work: nat, lo: int, hi: int)
    ensures Zone(a + b, work, lo, hi) == Zone(a, work, lo, hi) + Zone(b, work + Total(a), lo, hi)
  {
    if a == [] {
      assert a + b == b;
    } else {
      assert (a + b)[1..] == a[1..] + b;
      ZoneAppend(a[1..], b, work + a[0].cost, lo, hi);
    }
  }

  /** Nothing is taken once the upper bound is reached. */
  lemma {:induction false} ZoneAbove<T>(s: seq<Weighed<T>>, work: nat, lo: int, hi: int)
    requires work >= hi
    ensures Zone(s, work, lo, hi) == []
  {
    if s != [] {
      ZoneAbove(s[1..], work + s[0].cost, lo, hi);
    }
  }

  /** Nothing is taken from a list that stays below the lower bound. */
  lemma {:induction false} ZoneBelow<T>(s: seq<Weighed<T>>, work: nat, lo: int, hi: int)
    requires work + Total(s) < lo
    ensures Zone(s, work, lo, hi) == []
  {
    if s != [] {
      ZoneBelow(s[1..], work + s[0].cost, lo, hi);
    }
  }

  /** A list cut off past the upper bound loses nothing. */
  lemma ZoneStops<T>(a: seq<Weighed<T>>, b: seq<Weighed<T>>, work: nat, lo: int, hi: int)
    requires work + Total(a) >= hi
    ensures Zone(a + b, work, lo, hi) == Zone(a, work, lo, hi) && work + Total(a + b) >= hi
  {
    TotalAppend(a, b);
    ZoneAppend(a, b, work, lo, hi);
    ZoneAbove(b, work + Total(a), lo, hi);
  }

  // --------------------------------------------------------------------------- turn by turn

  /** The first n lists, one after the other. */
  function Flat<T>(lists: seq<seq<Weighed<T>>>, n: nat): seq<Weighed<T>>
    requires n <= |lists|
  {
    if n == 0 then [] else Flat(lists, n - 1) + lists[n - 1]
  }

  /** What one more list adds. */
  lemma FlatStep<T>(lists: seq<seq<Weighed<T>>>, n: nat, start: nat, work: nat, lo: int, hi: int)
    requires n < |lists| && work == start + Total(Flat(lists, n))
    ensures work + Total(lists[n]) == start + Total(Flat(lists, n + 1))
    ensures Zone(Flat(lists, n), start, lo, hi) + Zone(lists[n], work, lo, hi)
            == Zone(Flat(lists, n + 1), start, lo, hi)
  {
    var taken := Flat(lists, n);
    assert Flat(lists, n + 1) == taken + lists[n];
    TotalAppend(taken, lists[n]);
    ZoneAppend(taken, lists[n], start, lo, hi);
  }

  lemma FourLists<T>(lists: seq<seq<Weighed<T>>>)
    requires |lists| == 4
    ensures Flat(lists, 4) == lists[0] + lists[1] + lists[2] + lists[3]
  {
    assert Flat(lists, 1) == lists[0];
    assert Flat(lists, 2) == lists[0] + lists[1];
    assert Flat(lists, 3) == Flat(lists, 2) + lists[2];
  }

  /** The same behind what was taken before. */
  lemma FlatOnto<T>(before: seq<Weighed<T>>, lists: seq<seq<Weighed<T>>>, n: nat, start: nat, work: nat, lo: int,
                    hi: int)
    requires n < |lists| && work == start + Total(Flat(lists, n))
    ensures before + Zone(Flat(lists, n), start, lo, hi) + Zone(lists[n], work, lo, hi)
            == before + Zone(Flat(lists, n + 1), start, lo, hi)
  {
    FlatStep(lists, n, start, work, lo, hi);
    Sequences.Associative(before, Zone(Flat(lists, n), start, lo, hi), Zone(lists[n], work, lo, hi));
  }

  /** Stopping after n lists loses nothing once the upper bound is reached. */
  lemma {:induction false} FlatStops<T>(lists: seq<seq<Weighed<T>>>, n: nat, m: nat, start: nat, lo: int, hi: int)
    requires n <= m <= |lists| && start + Total(Flat(lists, n)) >= hi
    ensures Zone(Flat(lists, m), start, lo, hi) == Zone(Flat(lists, n), start, lo, hi)
            && start + Total(Flat(lists, m)) >= hi
    decreases m
  {
    if n < m {
      FlatStops(lists, n, m - 1, start, lo, hi);
      ZoneStops(Flat(lists, m - 1), lists[m - 1], start, lo, hi);
    }
  }

  // ------------------------------------------------------------------------- adjacent zones

  /** Two adjacent zones, one after the other, are the zone of the outer bounds: each is a contiguous run
      of the list. */
  lemma {:induction false} ZonesMeet<T>(s: seq<Weighed<T>>, work: nat, lo: int, mid: int, hi: int)
    requires lo <= mid <= hi
    ensures Zone(s, work, lo, mid) + Zone(s, work, mid, hi) == Zone(s, work, lo, hi)
  {
    if s != [] {
      var rest, work' := s[1..], work + s[0].cost;
      ZonesMeet(rest, work', lo, mid, hi);
      if mid <= work {
        ZoneAbove(rest, work', lo, mid);
        assert Zone(s, work, lo, mid) == [];
      } else if lo <= work {
        assert Zone(s, work, lo, mid) == [s[0]] + Zone(rest, work', lo, mid);
      }
    }
  }

  predicate AllPositive<T>(s: seq<Weighed<T>>) {
    forall i :: 0 <= i < |s| ==> s[i].cost >= 1
  }

  /** Bounds around the whole cost take everything; with positive costs the upper one may be the total. */
  lemma {:induction false} ZoneOfAll<T>(s: seq<Weighed<T>>, work: nat, lo: int, hi: int)
    requires lo <= work && (work + Total(s) < hi || (work + Total(s) <= hi && AllPositive(s)))
    ensures Zone(s, work, lo, hi) == s
  {
    if s != [] {
      ZoneOfAll(s[1..], work + s[0].cost, lo, hi);
    }
  }

  predicate AllAtMost<T>(s: seq<Weighed<T>>, m: nat) {
    forall i :: 0 <= i < |s| ==> s[i].cost <= m
  }

  /** A zone costs less than its width and one item more. */
  lemma {:induction false} ZoneAtMost<T>(s: seq<Weighed<T>>, work: nat, lo: int, hi: int, m: nat)
    requires lo < hi && AllAtMost(s, m)
    ensures Total(Zone(s, work, lo, hi))
            <= (if work < lo then hi - lo else if work < hi then hi - work else 1 - m) - 1 + m
  {
    if s != [] {
      ZoneAtMost(s[1..], work + s[0].cost, lo, hi, m);
      TotalAppend(if lo <= work < hi then [s[0]] else [], Zone(s[1..], work + s[0].cost, lo, hi));
    }
  }

  /** A zone costs no more than what comes after its lower bound. */
  lemma {:induction false} ZoneAfter<T>(s: seq<Weighed<T>>, work: nat, lo: int, hi: int)
    ensures Total(Zone(s, work, lo, hi))
            <= if work >= lo then Total(s) else if work + Total(s) < lo then 0 else work + Total(s) - lo
  {
    if s != [] {
      ZoneAfter(s[1..], work + s[0].cost, lo, hi);
      TotalAppend(if lo <= work < hi then [s[0]] else [], Zone(s[1..], work + s[0].cost, lo, hi));
    }
  }

  /** A zone that is `width` wide, or that far from the end, costs at most that and one item more. */
  lemma ZoneWithin<T>(s: seq<Weighed<T>>, lo: int, hi: int, width: nat, m: nat)
    requires AllAtMost(s, m) && 0 <= lo && (hi - lo <= width || Total(s) - lo <= width)
    ensures Total(Zone(s, 0, lo, hi)) <= width + m
  {
    if hi <= lo {
      NothingBetween(s, 0, lo, hi);
    } else {
      ZoneAtMost(s, 0, lo, hi, m);
      ZoneAfter(s, 0, lo, hi);
    }
  }

  /** The bounds between the zones of nproc processors. */
  function BoundsBy(bound: nat -> int, nproc: nat): (b: seq<int>)
    ensures |b| == nproc + 1 && forall p :: 0 <= p <= nproc ==> b[p] == bound(p)
  {
    seq(nproc + 1, p requires 0 <= p => bound(p))
  }

  predicate Ascending(bounds: seq<int>) {
    forall i :: 0 <= i < |bounds| - 1 ==> bounds[i] <= bounds[i + 1]
  }

  /** The zones between the first k + 1 bounds, one after the other. */
  function Joined<T>(s: seq<Weighed<T>>, bounds: seq<int>, k: nat): seq<Weighed<T>>
    requires k < |bounds|
  {
    if k == 0 then [] else Joined(s, bounds, k - 1) + Zone(s, 0, bounds[k - 1], bounds[k])
  }

  lemma {:induction false} NothingBetween<T>(s: seq<Weighed<T>>, work: nat, lo: int, hi: int)
    requires hi <= lo
    ensures Zone(s, work, lo, hi) == []
  {
    if s != [] {
      NothingBetween(s[1..], work + s[0].cost, lo, hi);
    }
  }

  /** All zones up to bound k, one after the other, are one zone: nothing is lost, taken twice or
      reordered. */
  lemma {:induction false} ZonesJoin<T>(s: seq<Weighed<T>>, bounds: seq<int>, k: nat)
    requires Ascending(bounds) && k < |bounds|
    ensures bounds[0] <= bounds[k]
    ensures Joined(s, bounds, k) == Zone(s, 0, bounds[0], bounds[k])
  {
    if k == 0 {
      NothingBetween(s, 0, bounds[0], bounds[0]);
    } else {
      ZonesJoin(s, bounds, k - 1);
      ZonesMeet(s, 0, bounds[0], bounds[k - 1], bounds[k]);
    }
  }

  /** How often an item occurs. */
  function Count<T(==)>(s: seq<Weighed<T>>, x: T): nat {
    if s == [] then 0 else (if s[0].item == x then 1 else 0) + Count(s[1..], x)
  }

  lemma {:induction false} CountAppend<T>(a: seq<Weighed<T>>, b: seq<Weighed<T>>, x: T)
    ensures Count(a + b, x) == Count(a, x) + Count(b, x)
  {
    if a == [] {
      assert a + b == b;
    } else {
      assert (a + b)[1..] == a[1..] + b;
      CountAppend(a[1..], b, x);
    }
  }

  /** What one more list adds to the counts and the cost. */
  lemma FlatGrows<T>(lists: seq<seq<Weighed<T>>>, n: nat, x: T)
    requires n < |lists|
    ensures Count(Flat(lists, n + 1), x) == Count(Flat(lists, n), x) + Count(lists[n], x)
    ensures Total(Flat(lists, n + 1)) == Total(Flat(lists, n)) + Total(lists[n])
    ensures AllPositive(Flat(lists, n)) && AllPositive(lists[n]) ==> AllPositive(Flat(lists, n + 1))
  {
    CountAppend(Flat(lists, n), lists[n], x);
    TotalAppend(Flat(lists, n), lists[n]);
  }
}
