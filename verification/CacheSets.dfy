/** One set of a processor's cache, as a value: how a way is found, which way is the victim, and what
    holds after any sequence of accesses. The class that updates a set in place is in Simulator. */
module CacheSets {
  import opened Protocol

  /** A tag no address has: every address loses its offset and index bits. */
  const NO_TAG: nat := 0xFFFF_FFFF_FFFF_FFFF

  datatype Way = Way(lru: nat, tag: nat, addr: nat, cached: bool)

  const EMPTY_WAY: Way := Way(0, NO_TAG, 0, false)

  datatype Access = Access(tag: nat, addr: nat, replace: bool)

  /** The ways after an access, and the address handed to the directory if a line was evicted. */
  datatype Result = Result(ways: seq<Way>, evicted: Option<nat>)

  /** The first way with the tag, or the number of ways. */
  function Find(ways: seq<Way>, tag: nat): (i: nat)
    ensures i <= |ways|
    ensures i < |ways| ==> ways[i].tag == tag
    ensures forall j :: 0 <= j < i ==> ways[j].tag != tag
  {
    if ways == [] || ways[0].tag == tag then 0 else 1 + Find(ways[1..], tag)
  }

  /** k is the leftmost of the ways with the least counter. */
  predicate IsVictim(ways: seq<Way>, k: nat) {
    && k < |ways|
    && (forall j :: 0 <= j < |ways| ==> ways[k].lru <= ways[j].lru)
    && (forall j :: 0 <= j < k ==> ways[k].lru < ways[j].lru)
  }

  lemma VictimUnique(ways: seq<Way>, k: nat, m: nat)
    requires IsVictim(ways, k) && IsVictim(ways, m)
    ensures k == m
  {
    var lo, hi := if k < m then k else m, if k < m then m else k;
    var low, high := ways[lo].lru, ways[hi].lru;
    assert low <= high && (lo < hi ==> high < low);
  }

  function Victim(ways: seq<Way>): (k: nat)
    requires ways != []
    ensures IsVictim(ways, k)
  {
    if |ways| == 1 then 0
    else
      var k := Victim(ways[..|ways| - 1]);
      if ways[|ways| - 1].lru < ways[k].lru then |ways| - 1 else k
  }

  function Bump(w: Way, replace: bool): Way {
    if replace then w.(lru := w.lru + 1) else w
  }

  /** The address the directory is told about: the scan starts at way 0 without recording it. */
  function EvictedAddress(ways: seq<Way>, k: nat): nat
    requires k < |ways|
  {
    if k == 0 then 0 else ways[k].addr
  }

  function AfterLookup(ways: seq<Way>, a: Access): (r: seq<Way>)
    ensures |r| == |ways|
  {
    var i := Find(ways, a.tag);
    if i < |ways| then ways[i := Bump(ways[i], a.replace)] else ways
  }

  predicate Present(ways: seq<Way>, tag: nat) {
    Find(ways, tag) < |ways| && ways[Find(ways, tag)].cached
  }

  /** Way k now holds the accessed line; its counter is kept. */
  function Install(ways: seq<Way>, k: nat, a: Access): (r: seq<Way>)
    requires k < |ways|
    ensures |r| == |ways|
  {
    ways[k := Way(if a.replace then ways[k].lru + 1 else ways[k].lru, a.tag, a.addr, true)]
  }

  function Apply(ways: seq<Way>, a: Access): (r: Result)
    requires ways != []
    ensures |r.ways| == |ways|
  {
    var ways1 := AfterLookup(ways, a);
    if Present(ways, a.tag) then Result(ways1, None)
    else
      var k := Victim(ways1);
      Result(Install(ways1, k, a), if ways1[k].cached then Some(EvictedAddress(ways1, k)) else None)
  }

  predicate SetInv(ways: seq<Way>) {
    && ways != []
    && (forall i :: 0 <= i < |ways| && !ways[i].cached ==> ways[i] == EMPTY_WAY)
    && (forall i :: 0 <= i < |ways| && ways[i].cached ==> ways[i].tag != NO_TAG)
    && (forall i, j :: 0 <= i < j < |ways| && ways[i].cached && ways[j].cached ==> ways[i].tag != ways[j].tag)
  }

  lemma FoundIsCached(ways: seq<Way>, tag: nat)
    requires SetInv(ways) && tag != NO_TAG
    ensures Present(ways, tag) <==> exists i :: 0 <= i < |ways| && ways[i].tag == tag
  {
  }

  lemma BumpKeepsInv(ways: seq<Way>, i: nat, replace: bool)
    requires SetInv(ways) && i < |ways| && ways[i].cached
    ensures SetInv(ways[i := Bump(ways[i], replace)])
  {
  }

  lemma InstallKeepsInv(ways: seq<Way>, k: nat, a: Access)
    requires SetInv(ways) && k < |ways| && a.tag != NO_TAG
    requires forall i :: 0 <= i < |ways| ==> ways[i].tag != a.tag
    ensures SetInv(Install(ways, k, a))
  {
  }

  /** No two cached ways ever hold the same tag, and the accessed tag ends up cached. */
  lemma ApplyKeepsInv(ways: seq<Way>, a: Access)
    requires SetInv(ways) && a.tag != NO_TAG
    ensures SetInv(Apply(ways, a).ways) && Present(Apply(ways, a).ways, a.tag)
  {
    FoundIsCached(ways, a.tag);
    var r := Apply(ways, a).ways;
    if Present(ways, a.tag) {
      var i := Find(ways, a.tag);
      BumpKeepsInv(ways, i, a.replace);
      assert r[i].tag == a.tag;
    } else {
      assert Find(ways, a.tag) == |ways|;
      InstallKeepsInv(ways, Victim(ways), a);
      assert r[Victim(ways)].tag == a.tag;
    }
    FoundIsCached(r, a.tag);
  }

  // ------------------------------------------------------------------------ runs of accesses

  predicate RealTags(run: seq<Access>) {
    forall i :: 0 <= i < |run| ==> run[i].tag != NO_TAG
  }

  /** A set of `ways` ways after the accesses of `run`, starting empty. */
  function RunSet(ways: nat, run: seq<Access>): (r: seq<Way>)
    requires ways > 0 && RealTags(run)
    ensures |r| == ways && SetInv(r)
  {
    if run == [] then seq(ways, _ => EMPTY_WAY)
    else
      var before := RunSet(ways, run[..|run| - 1]);
      ApplyKeepsInv(before, run[|run| - 1]);
      Apply(before, run[|run| - 1]).ways
  }

  /** Every cached way holds the address of an access that was made to it under its tag. */
  lemma {:induction false} AddressesWereAsked(ways: nat, run: seq<Access>, i: nat)
    requires ways > 0 && RealTags(run) && i < ways && RunSet(ways, run)[i].cached
    ensures var w := RunSet(ways, run)[i];
            exists k :: 0 <= k < |run| && run[k].tag == w.tag && run[k].addr == w.addr
  {
    if run != [] {
      var run0, a := run[..|run| - 1], run[|run| - 1];
      var before, w := RunSet(ways, run0), RunSet(ways, run)[i];
      if w.tag == before[i].tag && w.addr == before[i].addr && before[i].cached {
        AddressesWereAsked(ways, run0, i);
        var k :| 0 <= k < |run0| && run0[k].tag == w.tag && run0[k].addr == w.addr;
        assert run[k] == run0[k];
      } else {
        FoundIsCached(before, a.tag);
        assert run[|run| - 1].tag == w.tag && run[|run| - 1].addr == w.addr;
      }
    }
  }

  function TotalLru(ways: seq<Way>): nat {
    if ways == [] then 0 else TotalLru(ways[..|ways| - 1]) + ways[|ways| - 1].lru
  }

  lemma {:induction false} TotalLruUpdate(ways: seq<Way>, i: nat, w: Way)
    requires i < |ways|
    ensures TotalLru(ways[i := w]) + ways[i].lru == TotalLru(ways) + w.lru
  {
    var n := |ways| - 1;
    if i < n {
      assert ways[i := w][..n] == ways[..n][i := w];
      TotalLruUpdate(ways[..n], i, w);
    } else {
      assert ways[i := w][..n] == ways[..n];
    }
  }

  lemma ApplyAddsToLru(ways: seq<Way>, a: Access)
    requires SetInv(ways) && a.tag != NO_TAG
    ensures TotalLru(Apply(ways, a).ways) == TotalLru(ways) + (if a.replace then 1 else 0)
  {
    FoundIsCached(ways, a.tag);
    var i := Find(ways, a.tag);
    if Present(ways, a.tag) {
      TotalLruUpdate(ways, i, Bump(ways[i], a.replace));
    } else {
      var k := Victim(ways);
      TotalLruUpdate(ways, k, Install(ways, k, a)[k]);
    }
  }

  function Replacing(run: seq<Access>): nat {
    if run == [] then 0 else Replacing(run[..|run| - 1]) + (if run[|run| - 1].replace then 1 else 0)
  }

  lemma {:induction false} TotalLruEmpty(n: nat)
    ensures TotalLru(seq(n, _ => EMPTY_WAY)) == 0
  {
    if n > 0 {
      assert seq(n, _ => EMPTY_WAY)[..n - 1] == seq(n - 1, _ => EMPTY_WAY);
      TotalLruEmpty(n - 1);
    }
  }

  /** The counters of a set add up to the number of replacing accesses made to it: a new line
      inherits its predecessor's counter, so none is ever lost. */
  lemma {:induction false} CountersAddUp(ways: nat, run: seq<Access>)
    requires ways > 0 && RealTags(run)
    ensures TotalLru(RunSet(ways, run)) == Replacing(run)
  {
    if run == [] {
      TotalLruEmpty(ways);
    } else {
      CountersAddUp(ways, run[..|run| - 1]);
      ApplyAddsToLru(RunSet(ways, run[..|run| - 1]), run[|run| - 1]);
    }
  }

  predicate Demand(run: seq<Access>) {
    RealTags(run) && forall i :: 0 <= i < |run| ==> run[i].replace
  }

  predicate AllCached(ways: seq<Way>) {
    forall i :: 0 <= i < |ways| ==> ways[i].cached
  }

  /** Every cached way has been asked for. */
  predicate DemandCounted(ways: seq<Way>) {
    forall i :: 0 <= i < |ways| && ways[i].cached ==> ways[i].lru > 0
  }

  lemma ApplyDemand(ways: seq<Way>, a: Access)
    requires SetInv(ways) && a.tag != NO_TAG
    ensures DemandCounted(ways) && a.replace ==> DemandCounted(Apply(ways, a).ways)
    ensures DemandCounted(ways) && Apply(ways, a).evicted.Some? ==> AllCached(ways)
  {
  }

  lemma {:induction false} DemandRuns(ways: nat, run: seq<Access>)
    requires ways > 0 && Demand(run)
    ensures DemandCounted(RunSet(ways, run))
  {
    if run != [] {
      DemandRuns(ways, run[..|run| - 1]);
      ApplyDemand(RunSet(ways, run[..|run| - 1]), run[|run| - 1]);
    }
  }

  /** With loads and stores only, nothing is evicted while the set still has a free way. */
  lemma NoEarlyEviction(ways: nat, run: seq<Access>, a: Access)
    requires ways > 0 && Demand(run) && a.tag != NO_TAG
    requires Apply(RunSet(ways, run), a).evicted.Some?
    ensures AllCached(RunSet(ways, run))
  {
    DemandRuns(ways, run);
    ApplyDemand(RunSet(ways, run), a);
  }

  function Tags(run: seq<Access>): set<nat> {
    set i | 0 <= i < |run| :: run[i].tag
  }

  function CachedTags(ways: seq<Way>): set<nat> {
    set i | 0 <= i < |ways| && ways[i].cached :: ways[i].tag
  }

  lemma {:induction false} FullSetHasDistinctTags(ways: seq<Way>)
    requires AllCached(ways)
    requires forall i, j :: 0 <= i < j < |ways| ==> ways[i].tag != ways[j].tag
    ensures |CachedTags(ways)| == |ways|
  {
    if ways != [] {
      var n := |ways| - 1;
      FullSetHasDistinctTags(ways[..n]);
      assert CachedTags(ways) == CachedTags(ways[..n]) + {ways[n].tag} by {
        assert ways[n].cached;
        forall t | t in CachedTags(ways) ensures t in CachedTags(ways[..n]) + {ways[n].tag} {
          var i :| 0 <= i < |ways| && ways[i].cached && ways[i].tag == t;
          assert i < n ==> ways[..n][i] == ways[i];
        }
        forall t | t in CachedTags(ways[..n]) ensures t in CachedTags(ways) {
          var i :| 0 <= i < n && ways[..n][i].cached && ways[..n][i].tag == t;
          assert ways[i].cached && ways[i].tag == t;
        }
      }
      assert ways[n].tag !in CachedTags(ways[..n]);
    }
  }

  /** A working set that fits: while no more distinct tags than ways have been asked for, every one
      of them is cached and nothing has been evicted. */
  lemma {:induction false} WorkingSetStays(ways: nat, run: seq<Access>)
    requires ways > 0 && Demand(run) && |Tags(run)| <= ways
    ensures CachedTags(RunSet(ways, run)) == Tags(run)
    ensures run != [] ==> Apply(RunSet(ways, run[..|run| - 1]), run[|run| - 1]).evicted == None
  {
    if run != [] {
      var run0, a := run[..|run| - 1], run[|run| - 1];
      assert Tags(run) == Tags(run0) + {a.tag};
      if a.tag in Tags(run0) {
        assert Tags(run) == Tags(run0);
      }
      WorkingSetStays(ways, run0);
      TagsAfter(RunSet(ways, run0), a);
      if Apply(RunSet(ways, run0), a).evicted.Some? {
        assert a.tag !in Tags(run0);
        NoEarlyEviction(ways, run0, a);
        FullSetHasDistinctTags(RunSet(ways, run0));
        assert false;
      }
    }
  }

  lemma TagsAfter(w: seq<Way>, a: Access)
    requires SetInv(w) && a.tag != NO_TAG
    ensures a.tag in CachedTags(w) ==> Apply(w, a).evicted == None
    ensures Apply(w, a).evicted == None ==> CachedTags(Apply(w, a).ways) == CachedTags(w) + {a.tag}
  {
    FoundIsCached(w, a.tag);
    if Present(w, a.tag) {
      KeepingTags(w, a);
      assert w[Find(w, a.tag)].tag in CachedTags(w);
    } else if Apply(w, a).evicted == None {
      AddingTag(w, a);
    }
  }

  lemma KeepingTags(w: seq<Way>, a: Access)
    requires SetInv(w) && a.tag != NO_TAG && Present(w, a.tag)
    ensures CachedTags(Apply(w, a).ways) == CachedTags(w)
  {
    var r := Apply(w, a).ways;
    assert forall i :: 0 <= i < |w| ==> r[i].cached == w[i].cached && r[i].tag == w[i].tag;
  }

  lemma AddingTag(w: seq<Way>, a: Access)
    requires SetInv(w) && a.tag != NO_TAG && !Present(w, a.tag) && Apply(w, a).evicted == None
    ensures CachedTags(Apply(w, a).ways) == CachedTags(w) + {a.tag}
  {
    var r := Apply(w, a).ways;
    assert Find(w, a.tag) == |w|;
    var k := Victim(w);
    assert r == w[k := r[k]] && r[k].cached && r[k].tag == a.tag && !w[k].cached;
    forall t | t in CachedTags(w) ensures t in CachedTags(r) {
      var i :| 0 <= i < |w| && w[i].cached && w[i].tag == t;
      assert r[i] == w[i];
    }
    forall t | t in CachedTags(r) ensures t in CachedTags(w) + {a.tag} {
      var i :| 0 <= i < |r| && r[i].cached && r[i].tag == t;
      assert i != k ==> r[i] == w[i];
    }
  }

  /** The directory is told to invalidate the victim's own address iff the victim is not way 0, or
      way 0 happens to hold address 0. */
  lemma EvictionNamesVictim(ways: seq<Way>, a: Access)
    requires SetInv(ways) && a.tag != NO_TAG && Apply(ways, a).evicted.Some?
    ensures Apply(ways, a).evicted.value == ways[Victim(ways)].addr <==> Victim(ways) != 0 || ways[0].addr == 0
  {
  }

  /** A run of a direct-mapped set: the second access evicts the line at address 64, and the directory is
      told about address 0. */
  lemma WrongAddressEvicted()
    ensures var first, second := Access(64, 64, true), Access(128, 128, true);
            && RunSet(1, [first]) == [Way(1, 64, 64, true)] && Victim(RunSet(1, [first])) == 0
            && Apply(RunSet(1, [first]), second).evicted == Some(0)
  {
    var first, second := Access(64, 64, true), Access(128, 128, true);
    var empty := RunSet(1, []);
    assert empty == [EMPTY_WAY];
    assert Find(empty, 64) == 1 && Victim(empty) == 0;
    assert [first][..0] == [];
    assert Apply(empty, first).ways == [Way(1, 64, 64, true)];
    var w := RunSet(1, [first]);
    assert Find(w, 128) == 1 && Victim(w) == 0;
  }
}
