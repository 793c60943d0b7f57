/** Order-preserving filtering, JavaScript's Array.prototype.filter, and the facts the models use about it. */
module Seqs {

  /** The elements of s that satisfy p, in their order in s. */
  function Filter<T>(p: T -> bool, s: seq<T>): (r: seq<T>)
    ensures |r| <= |s|
    decreases |s|
  {
    if s == [] then [] else (if p(s[0]) then [s[0]] else []) + Filter(p, s[1..])
  }

  /** Filter keeps exactly the elements that satisfy p. */
  lemma {:induction false} FilterMembership<T>(p: T -> bool, s: seq<T>, x: T)
    ensures x in Filter(p, s) <==> x in s && p(x)
    decreases |s|
  {
    if s != [] {
      FilterMembership(p, s[1..], x);
      assert s == [s[0]] + s[1..];
    }
  }

  /** Filtering distributes over concatenation: what one part keeps does not depend on the other part. */
  lemma {:induction false} FilterConcat<T>(p: T -> bool, a: seq<T>, b: seq<T>)
    ensures Filter(p, a + b) == Filter(p, a) + Filter(p, b)
    decreases |a|
  {
    if a == [] {
      assert a + b == b;
    } else {
      var h := if p(a[0]) then [a[0]] else [];
      assert (a + b)[0] == a[0];
      assert (a + b)[1..] == a[1..] + b;
      FilterConcat(p, a[1..], b);
      assert Filter(p, a + b) == h + Filter(p, a[1..] + b);
      assert Filter(p, a) == h + Filter(p, a[1..]);
      assert h + (Filter(p, a[1..]) + Filter(p, b)) == (h + Filter(p, a[1..])) + Filter(p, b);
    }
  }

  /** Filtering one element more at the end. */
  lemma FilterSnoc<T>(p: T -> bool, a: seq<T>, x: T)
    ensures Filter(p, a + [x]) == Filter(p, a) + (if p(x) then [x] else [])
  {
    FilterConcat(p, a, [x]);
    assert [x][1..] == [];
  }

  /** A filter that keeps every element of s returns s itself. */
  lemma {:induction false} FilterAll<T>(p: T -> bool, s: seq<T>)
    requires forall i :: 0 <= i < |s| ==> p(s[i])
    ensures Filter(p, s) == s
    decreases |s|
  {
    if s != [] {
      FilterAll(p, s[1..]);
    }
  }

  /** A filter that keeps no element of s returns the empty sequence. */
  lemma {:induction false} FilterNone<T>(p: T -> bool, s: seq<T>)
    requires forall i :: 0 <= i < |s| ==> !p(s[i])
    ensures Filter(p, s) == []
    decreases |s|
  {
    if s != [] {
      FilterNone(p, s[1..]);
    }
  }

  /** No element of s occurs twice. */
  predicate Distinct<T(==)>(s: seq<T>)
  {
    forall i, j :: 0 <= i < j < |s| ==> s[i] != s[j]
  }

  /** Filtering a sequence without repetitions yields one without repetitions. */
  lemma {:induction false} FilterDistinct<T>(p: T -> bool, s: seq<T>)
    requires Distinct(s)
    ensures Distinct(Filter(p, s))
    decreases |s|
  {
    if s != [] {
      FilterDistinct(p, s[1..]);
      FilterMembership(p, s[1..], s[0]);
      assert s[0] !in s[1..];
    }
  }

  /** A prefix one element longer is the prefix followed by that element. */
  lemma TakeSnoc<T>(s: seq<T>, i: nat)
    requires i < |s|
    ensures s[..i + 1] == s[..i] + [s[i]]
  {
  }

  /** The elements of s that fail p, in their order in s: the complement of Filter(p, s). */
  function Reject<T>(p: T -> bool, s: seq<T>): (r: seq<T>)
    ensures |r| <= |s|
    decreases |s|
  {
    if s == [] then [] else (if p(s[0]) then [] else [s[0]]) + Reject(p, s[1..])
  }

  /** Reject keeps exactly the elements that fail p. */
  lemma {:induction false} RejectMembership<T>(p: T -> bool, s: seq<T>, x: T)
    ensures x in Reject(p, s) <==> x in s && !p(x)
    decreases |s|
  {
    if s != [] {
      RejectMembership(p, s[1..], x);
      assert s == [s[0]] + s[1..];
    }
  }

  /** Rejecting distributes over concatenation. */
  lemma {:induction false} RejectConcat<T>(p: T -> bool, a: seq<T>, b: seq<T>)
    ensures Reject(p, a + b) == Reject(p, a) + Reject(p, b)
    decreases |a|
  {
    if a == [] {
      assert a + b == b;
    } else {
      var h := if p(a[0]) then [] else [a[0]];
      assert (a + b)[0] == a[0];
      assert (a + b)[1..] == a[1..] + b;
      RejectConcat(p, a[1..], b);
      assert Reject(p, a + b) == h + Reject(p, a[1..] + b);
      assert Reject(p, a) == h + Reject(p, a[1..]);
      assert h + (Reject(p, a[1..]) + Reject(p, b)) == (h + Reject(p, a[1..])) + Reject(p, b);
    }
  }

  /** Rejecting one element more at the end. */
  lemma RejectSnoc<T>(p: T -> bool, a: seq<T>, x: T)
    ensures Reject(p, a + [x]) == Reject(p, a) + (if p(x) then [] else [x])
  {
    RejectConcat(p, a, [x]);
    assert [x][1..] == [];
  }

  /** A rejection that drops no element of s returns s itself. */
  lemma {:induction false} RejectAll<T>(p: T -> bool, s: seq<T>)
    requires forall i :: 0 <= i < |s| ==> !p(s[i])
    ensures Reject(p, s) == s
    decreases |s|
  {
    if s != [] {
      RejectAll(p, s[1..]);
    }
  }

  /** The sequences f yields for the elements of s, concatenated in order. */
  function FlatMap<T, U>(f: T -> seq<U>, s: seq<T>): seq<U>
    decreases |s|
  {
    if s == [] then [] else f(s[0]) + FlatMap(f, s[1..])
  }

  /** FlatMap over one element is what f yields for it. */
  lemma FlatMapSingle<T, U>(f: T -> seq<U>, x: T)
    ensures FlatMap(f, [x]) == f(x)
  {
    assert [x][1..] == [];
    assert f(x) + [] == f(x);
  }

  /** FlatMap distributes over concatenation. */
  lemma {:induction false} FlatMapConcat<T, U>(f: T -> seq<U>, a: seq<T>, b: seq<T>)
    ensures FlatMap(f, a + b) == FlatMap(f, a) + FlatMap(f, b)
    decreases |a|
  {
    if a == [] {
      assert a + b == b;
    } else {
      assert (a + b)[0] == a[0];
      assert (a + b)[1..] == a[1..] + b;
      FlatMapConcat(f, a[1..], b);
      assert f(a[0]) + (FlatMap(f, a[1..]) + FlatMap(f, b)) == (f(a[0]) + FlatMap(f, a[1..])) + FlatMap(f, b);
    }
  }

  /** s is the two sequences a and b merged: each element of s is taken, in order, from exactly one
      of them, and a and b keep their relative order. */
  ghost predicate Interleaving<T>(s: seq<T>, a: seq<T>, b: seq<T>)
    decreases |s|
  {
    if s == [] then a == [] && b == []
    else
      || (a != [] && a[0] == s[0] && Interleaving(s[1..], a[1..], b))
      || (b != [] && b[0] == s[0] && Interleaving(s[1..], a, b[1..]))
  }

  /** Splitting a sequence by a predicate interleaves what is kept with what is rejected. */
  lemma {:induction false} FilterSplitInterleaves<T>(p: T -> bool, s: seq<T>)
    ensures Interleaving(s, Filter(p, s), Reject(p, s))
    decreases |s|
  {
    if s != [] {
      FilterSplitInterleaves(p, s[1..]);
      if p(s[0]) {
        assert Filter(p, s)[1..] == Filter(p, s[1..]);
        assert Reject(p, s) == Reject(p, s[1..]);
      } else {
        assert Filter(p, s) == Filter(p, s[1..]);
        assert Reject(p, s)[1..] == Reject(p, s[1..]);
      }
    }
  }

  /** Splitting a sequence by a predicate loses and invents nothing. */
  lemma {:induction false} FilterSplitMultiset<T>(p: T -> bool, s: seq<T>)
    ensures multiset(Filter(p, s)) + multiset(Reject(p, s)) == multiset(s)
    decreases |s|
  {
    if s != [] {
      FilterSplitMultiset(p, s[1..]);
      assert s == [s[0]] + s[1..];
    }
  }
}
