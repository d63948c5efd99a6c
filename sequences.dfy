/**
 * Order-preserving deduplication: the list obtained by walking a sequence and
 * appending every element that is not already in the list.
 */
module Sequences {
  import opened Wrappers

  predicate Distinct<T(==)>(s: seq<T>) {
    forall i, j :: 0 <= i < j < |s| ==> s[i] != s[j]
  }

  /** A list without repetitions has as many elements as its set. */
  lemma {:induction false} DistinctSetSize<T>(s: seq<T>)
    requires Distinct(s)
    ensures |set x | x in s| == |s|
    decreases |s|
  {
    if |s| > 0 {
      var p := s[..|s| - 1];
      assert Distinct(p);
      DistinctSetSize(p);
      assert (set x | x in s) == (set x | x in p) + {s[|s| - 1]};
      assert s[|s| - 1] !in p;
    }
  }

  /** Index of the first occurrence of x in s. */
  function FirstIndex<T(==)>(s: seq<T>, x: T): (k: nat)
    requires x in s
    ensures k < |s| && s[k] == x && x !in s[..k]
  {
    if s[0] == x then 0 else 1 + FirstIndex(s[1..], x)
  }

  lemma FirstIndexUnique<T>(s: seq<T>, x: T, k: nat)
    requires k < |s| && s[k] == x && x !in s[..k]
    ensures FirstIndex(s, x) == k
  {
    var f := FirstIndex(s, x);
    assert forall i :: 0 <= i < k ==> s[..k][i] == s[i];
    assert forall i :: 0 <= i < f ==> s[..f][i] == s[i];
  }

  /** An element already present in p keeps its first index when p grows. */
  lemma FirstIndexInPrefix<T>(p: seq<T>, y: T, x: T)
    requires x in p
    ensures FirstIndex(p + [y], x) == FirstIndex(p, x)
  {
    var k := FirstIndex(p, x);
    assert (p + [y])[..k] == p[..k];
    FirstIndexUnique(p + [y], x, k);
  }

  /** The elements of xs, each once, in the order they are first seen. */
  function Dedup<T(==)>(xs: seq<T>): seq<T>
    decreases |xs|
  {
    if |xs| == 0 then []
    else
      var p, x := xs[..|xs| - 1], xs[|xs| - 1];
      if x in p then Dedup(p) else Dedup(p) + [x]
  }

  /** Dedup keeps exactly the elements of its input, each once, and no more of
      them than the input has. */
  lemma {:induction false} DedupMembers<T>(xs: seq<T>)
    ensures forall x :: x in Dedup(xs) <==> x in xs
    ensures forall k :: 0 <= k < |Dedup(xs)| ==> Dedup(xs)[k] in xs
    ensures Distinct(Dedup(xs))
    ensures |Dedup(xs)| <= |xs|
    decreases |xs|
  {
    if |xs| > 0 {
      var p, x := xs[..|xs| - 1], xs[|xs| - 1];
      assert xs == p + [x];
      DedupMembers(p);
    }
  }

  /** Dedup(xs) lists elements of xs in the order of their first occurrence. */
  predicate InFirstSeenOrder<T(==)>(d: seq<T>, xs: seq<T>) {
    forall i, j :: 0 <= i < j < |d| ==> d[i] in xs && d[j] in xs && FirstIndex(xs, d[i]) < FirstIndex(xs, d[j])
  }

  /** One more element keeps Dedup in first-seen order. */
  lemma DedupOrderStep<T>(p: seq<T>, x: T)
    requires forall k :: 0 <= k < |Dedup(p)| ==> Dedup(p)[k] in p
    requires x in p <==> x in Dedup(p)
    requires InFirstSeenOrder(Dedup(p), p)
    ensures InFirstSeenOrder(Dedup(p + [x]), p + [x])
  {
    var xs := p + [x];
    assert xs[..|xs| - 1] == p;
    var d, e := Dedup(p), Dedup(xs);
    assert e == if x in p then d else d + [x];
    forall i, j | 0 <= i < j < |e|
      ensures e[i] in xs && e[j] in xs && FirstIndex(xs, e[i]) < FirstIndex(xs, e[j])
    {
      assert e[i] == d[i];
      FirstIndexInPrefix(p, x, d[i]);
      if j < |d| {
        assert e[j] == d[j];
        FirstIndexInPrefix(p, x, d[j]);
      } else {
        assert e[j] == x && x !in p;
        assert xs[|p|] == x && xs[..|p|] == p;
        FirstIndexUnique(xs, x, |p|);
      }
    }
  }

  /** Dedup keeps the elements in the order of their first occurrence. */
  lemma {:induction false} DedupOrder<T>(xs: seq<T>)
    ensures InFirstSeenOrder(Dedup(xs), xs)
    decreases |xs|
  {
    if |xs| > 0 {
      var p, x := xs[..|xs| - 1], xs[|xs| - 1];
      DedupOrder(p);
      DedupMembers(p);
      DedupOrderStep(p, x);
      assert xs == p + [x];
    }
  }

  /** Dedup keeps exactly the elements of its input, each once, no more of them than
      the input has, in first-seen order. */
  lemma DedupSpec<T>(xs: seq<T>)
    ensures forall x :: x in Dedup(xs) <==> x in xs
    ensures Distinct(Dedup(xs))
    ensures |Dedup(xs)| <= |xs|
    ensures forall i, j :: 0 <= i < j < |Dedup(xs)| ==>
      Dedup(xs)[i] in xs && Dedup(xs)[j] in xs && FirstIndex(xs, Dedup(xs)[i]) < FirstIndex(xs, Dedup(xs)[j])
  {
    DedupMembers(xs);
    DedupOrder(xs);
  }

  /** The defined results of f over xs, in order: a list built by a loop that
      appends f's value for each element where it has one. */
  function FilterMap<A, B>(xs: seq<A>, f: A -> Option<B>): seq<B>
    decreases |xs|
  {
    if |xs| == 0 then []
    else
      var rest := FilterMap(xs[..|xs| - 1], f);
      match f(xs[|xs| - 1])
      case Some(y) => rest + [y]
      case None => rest
  }

  /** The results for a concatenation are the results for each part, in order. */
  lemma {:induction false} FilterMapAppend<A, B>(a: seq<A>, b: seq<A>, f: A -> Option<B>)
    ensures FilterMap(a + b, f) == FilterMap(a, f) + FilterMap(b, f)
    decreases |b|
  {
    if |b| == 0 {
      assert a + b == a;
    } else {
      var b' := b[..|b| - 1];
      assert (a + b)[..|a + b| - 1] == a + b';
      assert (a + b)[|a + b| - 1] == b[|b| - 1];
      FilterMapAppend(a, b', f);
    }
  }

  /** y is a result exactly when f yields y for some element; there are no more
      results than elements, and as many when f is defined everywhere. */
  lemma {:induction false} FilterMapSpec<A, B>(xs: seq<A>, f: A -> Option<B>)
    ensures forall y :: y in FilterMap(xs, f) ==> exists i :: 0 <= i < |xs| && f(xs[i]) == Some(y)
    ensures forall i :: 0 <= i < |xs| && f(xs[i]).Some? ==> f(xs[i]).value in FilterMap(xs, f)
    ensures |FilterMap(xs, f)| <= |xs|
    ensures (forall i :: 0 <= i < |xs| ==> f(xs[i]).Some?) ==> |FilterMap(xs, f)| == |xs|
    decreases |xs|
  {
    if |xs| > 0 {
      var p := xs[..|xs| - 1];
      FilterMapSpec(p, f);
      assert forall i :: 0 <= i < |p| ==> p[i] == xs[i];
      forall y | y in FilterMap(xs, f)
        ensures exists i :: 0 <= i < |xs| && f(xs[i]) == Some(y)
      {
        if y in FilterMap(p, f) {
          var i :| 0 <= i < |p| && f(p[i]) == Some(y);
          assert xs[i] == p[i];
        } else {
          assert f(xs[|xs| - 1]) == Some(y);
        }
      }
    }
  }
}
