/** A while loop as a guard and a turn that takes one state to the next: when it comes to an end, and what
    holds as long as it does not. */
module Loops {
  import opened Arithmetic

  /** The state after n turns, or fewer if the guard fails before. */
  function Iterate<S>(turn: S -> S, guard: S -> bool, s: S, n: nat): S
    decreases n
  {
    if n == 0 || !guard(s) then s else Iterate(turn, guard, turn(s), n - 1)
  }

  ghost predicate Ends<S(!new)>(turn: S -> S, guard: S -> bool, s: S) {
    exists n: nat :: !guard(Iterate(turn, guard, s, n))
  }

  ghost predicate Kept<S(!new)>(turn: S -> S, guard: S -> bool, good: S -> bool) {
    forall s {:trigger good(turn(s))} :: good(s) && guard(s) ==> good(turn(s))
  }

  lemma {:induction false} GoodThroughout<S(!new)>(turn: S -> S, guard: S -> bool, good: S -> bool, s: S, n: nat)
    requires Kept(turn, guard, good) && good(s)
    ensures good(Iterate(turn, guard, s, n))
    decreases n
  {
    if n > 0 && guard(s) {
      GoodThroughout(turn, guard, good, turn(s), n - 1);
    }
  }

  /** A loop whose turns lower a measure while the guard holds comes to an end. */
  lemma {:induction false} MeasureEnds<S(!new)>(turn: S -> S, guard: S -> bool, good: S -> bool,
                                               measure: S -> nat, s: S)
      returns (n: nat)
    requires Kept(turn, guard, good) && good(s)
    requires forall x {:trigger measure(turn(x))} :: good(x) && guard(x) && guard(turn(x)) ==>
               measure(turn(x)) < measure(x)
    ensures !guard(Iterate(turn, guard, s, n))
    decreases if guard(s) then 1 + measure(s) else 0
  {
    if guard(s) {
      assert good(turn(s)) && (guard(turn(s)) ==> measure(turn(s)) < measure(s));
      var m := MeasureEnds(turn, guard, good, measure, turn(s));
      n := m + 1;
    } else {
      n := 0;
    }
  }

  /** A length after n halvings. */
  function Halved(length: real, n: nat): real
    decreases n
  {
    if n == 0 then length else Halved(length / 2.0, n - 1)
  }

  lemma {:induction false} HalvedByPower(length: real, n: nat)
    ensures Halved(length, n) * Pow2(n) as real == length
    decreases n
  {
    if n > 0 {
      HalvedByPower(length / 2.0, n - 1);
      var last, p := Halved(length, n), Pow2(n - 1) as real;
      assert Pow2(n) as real == 2.0 * p;
      assert last * (2.0 * p) == 2.0 * (last * p);
    }
  }

  /** A loop whose guard every good state meets, and whose turns halve a length, goes on for ever. */
  lemma {:induction false} HalvingGoesOn<S(!new)>(turn: S -> S, guard: S -> bool, good: S -> bool, length: S -> real,
                                                  s: S, n: nat)
    requires Kept(turn, guard, good) && good(s) && forall x :: good(x) ==> guard(x)
    requires forall x {:trigger length(turn(x))} :: good(x) ==> length(turn(x)) == length(x) / 2.0
    ensures var r := Iterate(turn, guard, s, n); good(r) && guard(r) && length(r) == Halved(length(s), n)
    decreases n
  {
    if n > 0 {
      assert good(turn(s)) && length(turn(s)) == length(s) / 2.0;
      HalvingGoesOn(turn, guard, good, length, turn(s), n - 1);
    }
  }

  /** However many turns it is given, it stops in the same state. */
  lemma {:induction false} StopsInOneState<S>(turn: S -> S, guard: S -> bool, s: S, m: nat, n: nat)
    requires !guard(Iterate(turn, guard, s, m)) && !guard(Iterate(turn, guard, s, n))
    ensures Iterate(turn, guard, s, m) == Iterate(turn, guard, s, n)
    decreases m
  {
    if guard(s) {
      StopsInOneState(turn, guard, turn(s), m - 1, n - 1);
    }
  }

  /** Where a loop that ends stops. */
  ghost function Last<S(!new)>(turn: S -> S, guard: S -> bool, s: S): (r: S)
    requires Ends(turn, guard, s)
    ensures !guard(r)
  {
    var n: nat :| !guard(Iterate(turn, guard, s, n));
    Iterate(turn, guard, s, n)
  }

  lemma LastIsReached<S(!new)>(turn: S -> S, guard: S -> bool, s: S, n: nat)
    requires !guard(Iterate(turn, guard, s, n))
    ensures Ends(turn, guard, s) && Last(turn, guard, s) == Iterate(turn, guard, s, n)
  {
    var m: nat :| !guard(Iterate(turn, guard, s, m)) && Last(turn, guard, s) == Iterate(turn, guard, s, m);
    StopsInOneState(turn, guard, s, m, n);
  }

  /** From s the loop stops in the state `end` after at most n turns. */
  ghost predicate StopsWithin<S>(turn: S -> S, guard: S -> bool, s: S, n: nat, end: S)
    decreases n
  {
    if guard(s) then n > 0 && StopsWithin(turn, guard, turn(s), n - 1, end) else s == end
  }

  lemma {:induction false} IterateIsWithin<S>(turn: S -> S, guard: S -> bool, s: S, n: nat)
    requires !guard(Iterate(turn, guard, s, n))
    ensures StopsWithin(turn, guard, s, n, Iterate(turn, guard, s, n))
    decreases n
  {
    if guard(s) {
      IterateIsWithin(turn, guard, turn(s), n - 1);
    }
  }

  lemma LastIsWithin<S(!new)>(turn: S -> S, guard: S -> bool, s: S, n: nat)
    requires !guard(Iterate(turn, guard, s, n))
    ensures Ends(turn, guard, s) && StopsWithin(turn, guard, s, n, Last(turn, guard, s))
  {
    LastIsReached(turn, guard, s, n);
    IterateIsWithin(turn, guard, s, n);
  }

  lemma GoodAtLast<S(!new)>(turn: S -> S, guard: S -> bool, good: S -> bool, s: S)
    requires Ends(turn, guard, s) && Kept(turn, guard, good) && good(s)
    ensures good(Last(turn, guard, s))
  {
    var n: nat :| !guard(Iterate(turn, guard, s, n));
    LastIsReached(turn, guard, s, n);
    GoodThroughout(turn, guard, good, s, n);
  }
}
