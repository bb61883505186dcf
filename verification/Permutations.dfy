/** Facts about reorderings of sequences. */
module Permutations {
  // Some index holds x, and two do when x occurs twice.
  lemma IndexOf<T>(s: seq<T>, x: T) returns (i: nat)
    requires x in multiset(s)
    ensures i < |s| && s[i] == x
  {
    i :| 0 <= i < |s| && s[i] == x;
  }

  lemma {:induction false} TwoIndices<T>(s: seq<T>, x: T) returns (i: nat, j: nat)
    requires multiset(s)[x] >= 2
    ensures i < j < |s| && s[i] == x == s[j]
  {
    j := |s| - 1;
    assert s == s[..j] + [s[j]];
    if s[j] == x {
      i := IndexOf(s[..j], x);
    } else {
      i, j := TwoIndices(s[..j], x);
    }
  }

  lemma CountTwo<T>(s: seq<T>, i: nat, j: nat)
    requires i < j < |s| && s[i] == s[j]
    ensures multiset(s)[s[i]] >= 2
  {
    assert s == s[..j] + [s[j]] + s[j + 1..];
    assert s[i] == s[..j][i];
    assert s[i] in multiset(s[..j]);
  }

  lemma AnyOf<T>(s: set<T>) returns (x: T)
    requires s != {}
    ensures x in s
  {
    x :| x in s;
  }

  predicate Pairwise<T>(s: seq<T>, related: (T, T) -> bool) {
    forall i, j | 0 <= i < j < |s| :: related(s[i], s[j])
  }

  // A symmetric relation that holds between all pairs does so in every order.
  lemma PairwisePermutes<T(!new)>(s: seq<T>, t: seq<T>, related: (T, T) -> bool)
    requires multiset(s) == multiset(t)
    requires forall x, y :: related(x, y) ==> related(y, x)
    requires Pairwise(s, related)
    ensures Pairwise(t, related)
  {
    forall i, j | 0 <= i < j < |t| ensures related(t[i], t[j]) {
      assert t[i] in multiset(t) && t[j] in multiset(t);
      if t[i] == t[j] {
        CountTwo(t, i, j);
        var a, b := TwoIndices(s, t[i]);
      } else {
        var a := IndexOf(s, t[i]);
        var b := IndexOf(s, t[j]);
      }
    }
  }

  function Map<A, B>(s: seq<A>, f: A -> B): (r: seq<B>)
    ensures |r| == |s| && forall i | 0 <= i < |s| :: r[i] == f(s[i])
  {
    seq(|s|, i requires 0 <= i < |s| => f(s[i]))
  }

  ghost predicate Increasing(s: seq<int>) {
    forall i, j | 0 <= i < j < |s| :: s[i] < s[j]
  }

  lemma SplitFirst<T>(s: seq<T>)
    requires s != []
    ensures multiset(s) == multiset{s[0]} + multiset(s[1..])
  {
    assert s == [s[0]] + s[1..];
  }

  lemma SplitAt<T>(s: seq<T>, i: nat)
    requires i < |s|
    ensures multiset(s) == multiset{s[i]} + multiset(s[..i] + s[i + 1..])
  {
    assert s == s[..i] + [s[i]] + s[i + 1..];
  }

  lemma Cancel<T>(x: T, a: multiset<T>, b: multiset<T>)
    requires multiset{x} + a == multiset{x} + b
    ensures a == b
  {
    assert a == multiset{x} + a - multiset{x};
    assert b == multiset{x} + b - multiset{x};
  }

  // A set of numbers has one strictly increasing listing.
  lemma {:induction false} IncreasingIsUnique(s: seq<int>, t: seq<int>)
    requires Increasing(s) && Increasing(t) && multiset(s) == multiset(t)
    ensures s == t
  {
    assert |multiset(s)| == |s| && |multiset(t)| == |t|;
    if s != [] {
      SameLeast(s, t);
      RestsAgree(s, t);
      IncreasingIsUnique(s[1..], t[1..]);
      assert s == [s[0]] + s[1..] && t == [t[0]] + t[1..];
    }
  }

  lemma SameLeast(s: seq<int>, t: seq<int>)
    requires Increasing(s) && Increasing(t) && multiset(s) == multiset(t) && s != [] && t != []
    ensures s[0] == t[0]
  {
    assert s[0] in multiset(s) && t[0] in multiset(t);
    var i := IndexOf(t, s[0]);
    var j := IndexOf(s, t[0]);
    assert s[0] <= s[j] && t[0] <= t[i];
  }

  lemma RestsAgree<T>(s: seq<T>, t: seq<T>)
    requires multiset(s) == multiset(t) && s != [] && t != [] && s[0] == t[0]
    ensures multiset(s[1..]) == multiset(t[1..])
  {
    SplitFirst(s);
    SplitFirst(t);
    Cancel(s[0], multiset(s[1..]), multiset(t[1..]));
  }

  lemma {:induction false} MapMultiset<A, B>(s: seq<A>, t: seq<A>, f: A -> B)
    requires multiset(s) == multiset(t)
    ensures multiset(Map(s, f)) == multiset(Map(t, f))
  {
    hide Map;
    if s == [] {
      assert |multiset(t)| == |t| == 0;
    } else {
      var x := s[0];
      SplitFirst(s);
      var i := IndexOf(t, x);
      SplitAt(t, i);
      var rest := t[..i] + t[i + 1..];
      Cancel(x, multiset(s[1..]), multiset(rest));
      MapMultiset(s[1..], rest, f);
      assert Map(s, f) == [f(x)] + Map(s[1..], f);
      assert Map(rest, f) == Map(t[..i], f) + Map(t[i + 1..], f);
      assert Map(t, f) == Map(t[..i], f) + [f(x)] + Map(t[i + 1..], f);
    }
  }

  // What appending f of each element in turn builds up.
  function FlatMap<A, B>(s: seq<A>, f: A -> seq<B>): seq<B> {
    if s == [] then [] else FlatMap(s[..|s| - 1], f) + f(s[|s| - 1])
  }

  lemma FlatMapNext<A, B>(s: seq<A>, f: A -> seq<B>, i: nat)
    requires i < |s|
    ensures FlatMap(s[..i + 1], f) == FlatMap(s[..i], f) + f(s[i])
  {
    assert s[..i + 1][..i] == s[..i];
  }

  lemma {:induction false} FlatMapSource<A, B>(s: seq<A>, f: A -> seq<B>, x: B) returns (i: nat)
    requires x in FlatMap(s, f)
    ensures i < |s| && x in f(s[i])
  {
    if x in f(s[|s| - 1]) {
      i := |s| - 1;
    } else {
      i := FlatMapSource(s[..|s| - 1], f, x);
    }
  }

  lemma PairwiseConcat<T>(s: seq<T>, t: seq<T>, related: (T, T) -> bool)
    requires Pairwise(s, related) && Pairwise(t, related)
    requires forall x, y | x in s && y in t :: related(x, y)
    ensures Pairwise(s + t, related)
  {
  }

  lemma {:induction false} PairwiseFlatMap<A, B>(s: seq<A>, f: A -> seq<B>, related: (B, B) -> bool)
    requires forall i | 0 <= i < |s| :: Pairwise(f(s[i]), related)
    requires forall i, j, x, y | 0 <= i < j < |s| && x in f(s[i]) && y in f(s[j]) :: related(x, y)
    ensures Pairwise(FlatMap(s, f), related)
  {
    if s != [] {
      var init, last := s[..|s| - 1], s[|s| - 1];
      PairwiseFlatMap(init, f, related);
      forall x, y | x in FlatMap(init, f) && y in f(last) ensures related(x, y) {
        var i := FlatMapSource(init, f, x);
        assert x in f(s[i]);
      }
      PairwiseConcat(FlatMap(init, f), f(last), related);
    }
  }

  // And back: results from different elements stand at different places.
  lemma {:induction false} PairwiseFromFlatMap<A, B>(
      s: seq<A>, f: A -> seq<B>, related: (B, B) -> bool, i: nat, j: nat, x: B, y: B)
    requires Pairwise(FlatMap(s, f), related) && i < j < |s| && x in f(s[i]) && y in f(s[j])
    ensures related(x, y)
  {
    var init, last := s[..|s| - 1], s[|s| - 1];
    var before := FlatMap(init, f);
    if j < |s| - 1 {
      PairwisePrefix(before, f(last), related);
      PairwiseFromFlatMap(init, f, related, i, j, x, y);
    } else {
      InFlatMap(init, f, i, x);
      PairwiseAcross(before, f(last), related, x, y);
    }
  }

  lemma PairwisePrefix<T>(s: seq<T>, t: seq<T>, related: (T, T) -> bool)
    requires Pairwise(s + t, related)
    ensures Pairwise(s, related) && Pairwise(t, related)
  {
    var all := s + t;
    forall i, j | 0 <= i < j < |s| ensures related(s[i], s[j]) {
      assert all[i] == s[i] && all[j] == s[j];
    }
    forall i, j | 0 <= i < j < |t| ensures related(t[i], t[j]) {
      assert all[|s| + i] == t[i] && all[|s| + j] == t[j];
    }
  }

  lemma PairwiseAcross<T>(s: seq<T>, t: seq<T>, related: (T, T) -> bool, x: T, y: T)
    requires Pairwise(s + t, related) && x in s && y in t
    ensures related(x, y)
  {
    var i :| 0 <= i < |s| && s[i] == x;
    var j :| 0 <= j < |t| && t[j] == y;
    assert (s + t)[i] == x && (s + t)[|s| + j] == y;
  }

  lemma {:induction false} FlatMapConcat<A, B>(s: seq<A>, t: seq<A>, f: A -> seq<B>)
    ensures FlatMap(s + t, f) == FlatMap(s, f) + FlatMap(t, f)
  {
    if t == [] {
      assert s + t == s;
    } else {
      FlatMapConcat(s, t[..|t| - 1], f);
      assert (s + t)[..|s + t| - 1] == s + t[..|t| - 1];
    }
  }

  lemma FlatMapEmpty<A, B>(f: A -> seq<B>)
    ensures FlatMap([], f) == []
  {
  }

  lemma FlatMapOne<A, B>(x: A, f: A -> seq<B>)
    ensures FlatMap([x], f) == f(x)
  {
    assert [x][..0] == [];
  }

  lemma {:induction false} InFlatMap<A, B>(s: seq<A>, f: A -> seq<B>, j: nat, x: B)
    requires j < |s| && x in f(s[j])
    ensures x in FlatMap(s, f)
  {
    if j < |s| - 1 {
      InFlatMap(s[..|s| - 1], f, j, x);
    }
  }

  // Where the results of s[k] begin among all of them.
  function Place<A, B>(s: seq<A>, f: A -> seq<B>, k: nat): nat
    requires k <= |s|
  {
    |FlatMap(s[..k], f)|
  }

  lemma PlaceHolds<A, B>(s: seq<A>, f: A -> seq<B>, k: nat)
    requires k < |s| && |f(s[k])| == 1
    ensures Place(s, f, k) < |FlatMap(s, f)| && FlatMap(s, f)[Place(s, f, k)] == f(s[k])[0]
  {
    hide FlatMap;
    FlatMapNext(s, f, k);
    FlatMapConcat(s[..k + 1], s[k + 1..], f);
    assert s == s[..k + 1] + s[k + 1..];
  }

  lemma PlacesApart<A, B>(s: seq<A>, f: A -> seq<B>, j: nat, k: nat)
    requires j < k <= |s| && |f(s[j])| == 1
    ensures Place(s, f, j) < Place(s, f, k)
  {
    hide FlatMap;
    FlatMapNext(s, f, j);
    FlatMapConcat(s[..j + 1], s[j + 1..k], f);
    assert s[..k] == s[..j + 1] + s[j + 1..k];
  }

  lemma {:induction false} PlaceOf<A, B>(s: seq<A>, f: A -> seq<B>, i: nat) returns (k: nat)
    requires i < |FlatMap(s, f)| && forall j | 0 <= j < |s| :: |f(s[j])| <= 1
    ensures k < |s| && |f(s[k])| == 1 && Place(s, f, k) == i
  {
    var n := |s| - 1;
    if i < |FlatMap(s[..n], f)| {
      k := PlaceOf(s[..n], f, i);
      assert s[..n][..k] == s[..k];
    } else {
      k := n;
    }
  }
}
