/** Searching what rows contribute, in order: the first hit comes from the first row that has one. */
module Firsts {
  import opened Wrappers
  import opened Text
  import opened Permutations

  lemma {:induction false} FirstHasIndex<T>(s: seq<T>, p: T -> bool) returns (i: nat)
    requires First(s, p).Some?
    ensures i < |s| && First(s, p).value == s[i] && p(s[i]) && forall k | 0 <= k < i :: !p(s[k])
  {
    if p(s[0]) {
      i := 0;
    } else {
      i := FirstHasIndex(s[1..], p);
      i := i + 1;
    }
  }

  lemma {:induction false} FirstOfConcat<T>(a: seq<T>, b: seq<T>, p: T -> bool)
    ensures First(a + b, p) == if First(a, p).Some? then First(a, p) else First(b, p)
  {
    if a == [] {
      assert a + b == b;
    } else {
      assert (a + b)[1..] == a[1..] + b;
      FirstOfConcat(a[1..], b, p);
    }
  }

  // What is found among the results of rows comes from the first row that has any.
  lemma {:induction false} FirstOfRows<R, T>(rows: seq<R>, f: R -> seq<T>, p: T -> bool, i: nat)
    requires i < |rows| && First(f(rows[i]), p).Some?
    requires forall k | 0 <= k < i :: First(f(rows[k]), p).None?
    ensures First(FlatMap(rows, f), p) == First(f(rows[i]), p)
    decreases |rows|
  {
    var init, last := rows[..|rows| - 1], rows[|rows| - 1];
    FirstOfConcat(FlatMap(init, f), f(last), p);
    if i < |init| {
      FirstOfRows(init, f, p, i);
    } else {
      NoneInRows(init, f, p);
    }
  }

  lemma {:induction false} NoneInRows<R, T>(rows: seq<R>, f: R -> seq<T>, p: T -> bool)
    requires forall k | 0 <= k < |rows| :: First(f(rows[k]), p).None?
    ensures First(FlatMap(rows, f), p).None?
  {
    if rows != [] {
      var init, last := rows[..|rows| - 1], rows[|rows| - 1];
      NoneInRows(init, f, p);
      FirstOfConcat(FlatMap(init, f), f(last), p);
    }
  }
}
