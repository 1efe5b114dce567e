/** Tables that fix in which order the children of a tree cell are visited, and with which direction
    each of them is entered. */
module ChildOrders {
  import opened Sequences

  /** child[d][i] is the child visited in turn i of a walk in direction d, turn[d][i] the direction it is
      entered with. */
  datatype Orders = Orders(child: seq<seq<nat>>, turn: seq<seq<nat>>)

  function UpTo(n: nat): (s: seq<nat>)
    ensures |s| == n && forall i :: 0 <= i < n ==> s[i] == i
  {
    seq(n, i => i)
  }

  /** Under every direction each turn visits another one of the n children. */
  predicate ValidOrders(o: Orders, n: nat) {
    && |o.child| > 0 && |o.turn| == |o.child|
    && (forall d :: 0 <= d < |o.child| ==> ValidRow(o.child[d], n) && |o.turn[d]| == n && InRange(o.turn[d], |o.child|))
  }

  predicate ValidRow(row: seq<nat>, n: nat) {
    && |row| == n && InRange(row, n)
    && forall i, j :: 0 <= i < j < n ==> row[i] != row[j]
  }

  function Sum(c: seq<nat>): nat {
    if c == [] then 0 else c[0] + Sum(c[1..])
  }

  /** Adding up over a list one by one is summing. */
  lemma {:induction false} SumOf<A(!new)>(f: A -> nat, total: seq<A> -> nat, s: seq<A>)
    requires total([]) == 0
    requires forall t {:trigger total(t[1..])} :: t != [] ==> total(t) == f(t[0]) + total(t[1..])
    ensures Sum(Mapped(f, s)) == total(s)
  {
    if s != [] {
      SumOf(f, total, s[1..]);
      assert Mapped(f, s)[1..] == Mapped(f, s[1..]);
    }
  }

  /** The values at the places the row names. */
  function Pick(c: seq<nat>, row: seq<nat>): (r: seq<nat>)
    requires InRange(row, |c|)
    ensures |r| == |row| && forall i :: 0 <= i < |row| ==> r[i] == c[row[i]]
  {
    seq(|row|, i requires 0 <= i < |row| => c[row[i]])
  }

  lemma {:induction false} SumAppend(a: seq<nat>, b: seq<nat>)
    ensures Sum(a + b) == Sum(a) + Sum(b)
  {
    if a == [] {
      assert a + b == b;
    } else {
      assert (a + b)[1..] == a[1..] + b;
      SumAppend(a[1..], b);
    }
  }

  lemma SumLast(c: seq<nat>, i: nat)
    requires 0 < i <= |c|
    ensures Sum(c[..i]) == Sum(c[..i - 1]) + c[i - 1]
  {
    assert c[..i] == c[..i - 1] + [c[i - 1]];
    SumAppend(c[..i - 1], [c[i - 1]]);
  }

  lemma {:induction false} SameElementsSameSum(a: seq<nat>, b: seq<nat>)
    requires multiset(a) == multiset(b)
    ensures Sum(a) == Sum(b)
  {
    if a == [] {
      assert |multiset(b)| == 0;
    } else {
      assert a[0] in multiset(b);
      var k :| 0 <= k < |b| && b[k] == a[0];
      var rest := b[..k] + b[k + 1..];
      RemoveFirst(a);
      RemoveAt(b, k);
      assert b == b[..k] + ([b[k]] + b[k + 1..]);
      SameElementsSameSum(a[1..], rest);
      SumAppend(b[..k], b[k + 1..]);
      SumAppend(b[..k], [b[k]] + b[k + 1..]);
    }
  }

  lemma PickWithout(c: seq<nat>, row: seq<nat>, k: nat)
    requires k < |row| && InRange(row, |c|)
    ensures InRange(row[..k] + row[k + 1..], |c|)
    ensures multiset(Pick(c, row)) == multiset(Pick(c, row[..k] + row[k + 1..])) + multiset{c[row[k]]}
  {
    var picked := Pick(c, row);
    RemoveAt(picked, k);
    assert picked[..k] + picked[k + 1..] == Pick(c, row[..k] + row[k + 1..]);
    assert picked[k] in multiset(picked);
  }

  lemma Find(s: seq<nat>, x: nat, t: seq<nat>) returns (k: nat)
    requires multiset(s) == multiset(t) && x in t
    ensures k < |s| && s[k] == x
  {
    assert x in multiset(s);
    k :| 0 <= k < |s| && s[k] == x;
  }

  lemma {:induction false} PickSameElements(c: seq<nat>, row: seq<nat>, row': seq<nat>)
    requires InRange(row, |c|) && InRange(row', |c|) && multiset(row) == multiset(row')
    ensures multiset(Pick(c, row)) == multiset(Pick(c, row'))
  {
    if row == [] {
      assert |multiset(row')| == 0;
    } else {
      var k := Find(row', row[0], row);
      var rest, rest' := row[..0] + row[1..], row'[..k] + row'[k + 1..];
      assert multiset(rest) == multiset(rest') by {
        RemoveAt(row, 0);
        RemoveAt(row', k);
      }
      assert InRange(rest, |c|) && InRange(rest', |c|);
      PickSameElements(c, rest, rest');
      PickWithout(c, row, 0);
      PickWithout(c, row', k);
    }
  }

  lemma RowIsPermutation(row: seq<nat>, n: nat)
    requires ValidRow(row, n)
    ensures multiset(row) == multiset(UpTo(n))
  {
    DistinctCounts(row);
    DistinctCounts(UpTo(n));
    var all, got := Elements(UpTo(n)), Elements(row);
    assert got <= all by {
      forall x | x in got ensures x in all {
        var i :| 0 <= i < |row| && row[i] == x;
        assert UpTo(n)[x] == x;
      }
    }
    assert |all - got| == |all| - |got| == 0;
    assert all == got;
  }

  /** Summing in visiting order is summing. */
  lemma EachChildOnce(o: Orders, d: nat, c: seq<nat>)
    requires ValidOrders(o, |c|) && d < |o.child|
    ensures InRange(o.child[d], |c|) && Sum(Pick(c, o.child[d])) == Sum(c)
  {
    RowIsPermutation(o.child[d], |c|);
    PickSameElements(c, o.child[d], UpTo(|c|));
    assert Pick(c, UpTo(|c|)) == c;
    SameElementsSameSum(Pick(c, o.child[d]), c);
  }
}
