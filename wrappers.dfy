/** Failure-carrying values: the model's stand-in for Go's `(value, error)` returns. */
module Wrappers {

  datatype Option<+T> = None | Some(value: T)

  datatype Result<+R, +E> = Success(value: R) | Failure(error: E)

  /** The values present in a sequence of options, in order. */
  function Somes<T>(s: seq<Option<T>>): seq<T>
  {
    if s == [] then []
    else Somes(s[..|s| - 1]) + match s[|s| - 1] case None => [] case Some(x) => [x]
  }

  lemma {:induction false} SomesAppend<T>(a: seq<Option<T>>, b: seq<Option<T>>)
    ensures Somes(a + b) == Somes(a) + Somes(b)
    decreases |b|
  {
    if b == [] {
      assert a + b == a;
    } else {
      assert (a + b)[..|a + b| - 1] == a + b[..|b| - 1];
      SomesAppend(a, b[..|b| - 1]);
    }
  }

  /** A single option contributes its value, if any. */
  lemma SomesSingleton<T>(x: Option<T>)
    ensures Somes([x]) == match x case None => [] case Some(v) => [v]
  {
    assert [x][..0] == [];
  }

  /** Three options contribute their values one after another. */
  lemma SomesOfThree<T>(s: seq<Option<T>>)
    requires |s| == 3
    ensures Somes(s) == Somes([s[0]]) + Somes([s[1]]) + Somes([s[2]])
  {
    SomesAppend([s[0]], [s[1]]);
    SomesAppend([s[0], s[1]], [s[2]]);
    assert [s[0]] + [s[1]] == [s[0], s[1]];
    assert [s[0], s[1]] + [s[2]] == s;
  }

  lemma {:induction false} SomesMember<T>(s: seq<Option<T>>, x: T)
    ensures x in Somes(s) <==> exists i :: 0 <= i < |s| && s[i] == Some(x)
  {
    if s != [] {
      var n := |s| - 1;
      SomesMember(s[..n], x);
      if x in Somes(s[..n]) {
        var i :| 0 <= i < n && s[..n][i] == Some(x);
        assert s[i] == Some(x);
      } else if s[n] != Some(x) {
        assert forall i :: 0 <= i < n ==> s[..n][i] == s[i];
      }
    }
  }

  /** The present values do not depend on the order of the options. */
  lemma {:induction false} SomesPerm<T>(s: seq<Option<T>>, t: seq<Option<T>>)
    requires multiset(s) == multiset(t)
    ensures multiset(Somes(s)) == multiset(Somes(t))
    decreases |s|
  {
    if s != [] {
      var n := |s| - 1;
      var x := s[n];
      assert x in multiset(t);
      var j :| 0 <= j < |t| && t[j] == x;
      var t' := t[..j] + t[j + 1..];
      assert s == s[..n] + [x];
      assert t == t[..j] + [x] + t[j + 1..];
      assert multiset(t) == multiset(t[..j]) + multiset{x} + multiset(t[j + 1..]);
      assert multiset(s[..n]) == multiset(s) - multiset{x};
      assert multiset(t') == multiset(t) - multiset{x};
      SomesPerm(s[..n], t');
      SomesAppend(s[..n], [x]);
      SomesAppend(t[..j], [x]);
      SomesAppend(t[..j] + [x], t[j + 1..]);
      SomesAppend(t[..j], t[j + 1..]);
    } else {
      assert t == [];
    }
  }

  /** `f` applied to every element. */
  function MapSeq<T, U>(f: T -> U, s: seq<T>): (r: seq<U>)
    ensures |r| == |s|
    ensures forall i :: 0 <= i < |s| ==> r[i] == f(s[i])
  {
    seq(|s|, i requires 0 <= i < |s| => f(s[i]))
  }

  /** Mapping preserves "same elements in another order". */
  lemma {:induction false} MapSeqPerm<T, U>(f: T -> U, a: seq<T>, b: seq<T>)
    requires multiset(a) == multiset(b)
    ensures multiset(MapSeq(f, a)) == multiset(MapSeq(f, b))
    decreases |a|
  {
    if a != [] {
      var n := |a| - 1;
      assert a[n] in multiset(b);
      var j :| 0 <= j < |b| && b[j] == a[n];
      MapSeqRemove(f, a, n);
      MapSeqRemove(f, b, j);
      assert a[..n] + a[n + 1..] == a[..n];
      MapSeqPerm(f, a[..n], b[..j] + b[j + 1..]);
    } else {
      assert b == [];
    }
  }

  /** Taking out the element at `j` takes its image out of the mapped sequence. */
  lemma MapSeqRemove<T, U>(f: T -> U, s: seq<T>, j: nat)
    requires j < |s|
    ensures multiset(s[..j] + s[j + 1..]) == multiset(s) - multiset{s[j]}
    ensures multiset(MapSeq(f, s)) == multiset(MapSeq(f, s[..j] + s[j + 1..])) + multiset{f(s[j])}
  {
    var x := s[j];
    assert s == s[..j] + [x] + s[j + 1..];
    assert multiset(s) == multiset(s[..j]) + multiset{x} + multiset(s[j + 1..]);
    var m := MapSeq(f, s);
    assert m == m[..j] + [f(x)] + m[j + 1..];
    assert MapSeq(f, s[..j] + s[j + 1..]) == m[..j] + m[j + 1..];
    assert multiset(m) == multiset(m[..j]) + multiset{f(x)} + multiset(m[j + 1..]);
  }

  /** The multiset of a sequence with the element at `j` taken out. */
  lemma SeqRemove<T>(s: seq<T>, j: nat)
    requires j < |s|
    ensures multiset(s[..j] + s[j + 1..]) == multiset(s) - multiset{s[j]}
  {
    assert s == s[..j] + [s[j]] + s[j + 1..];
    assert multiset(s) == multiset(s[..j]) + multiset{s[j]} + multiset(s[j + 1..]);
  }
}
