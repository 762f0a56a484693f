/** Order-keeping selection over sequences: the indices of the elements that
    satisfy a predicate, the subsequence they form, and the first of them. */
module Seqs {
  import opened Results

  /** Strictly increasing, so the indices list positions in order and once each. */
  predicate Increasing(idx: seq<nat>) {
    forall i, j :: 0 <= i < j < |idx| ==> idx[i] < idx[j]
  }

  /** The positions at or after `from` whose elements satisfy `p`, in order. */
  function IndicesFrom<T>(s: seq<T>, p: T -> bool, from: nat): (idx: seq<nat>)
    requires from <= |s|
    ensures Increasing(idx)
    ensures forall i :: i in idx <==> from <= i < |s| && p(s[i])
    ensures forall k :: 0 <= k < |idx| ==> from <= idx[k] < |s|
    decreases |s| - from
  {
    if from == |s| then []
    else if p(s[from]) then [from] + IndicesFrom(s, p, from + 1)
    else IndicesFrom(s, p, from + 1)
  }

  /** The positions whose elements satisfy `p`, in order. */
  function Indices<T>(s: seq<T>, p: T -> bool): (idx: seq<nat>)
    ensures Increasing(idx)
    ensures forall i :: i in idx <==> 0 <= i < |s| && p(s[i])
  {
    IndicesFrom(s, p, 0)
  }

  /** The elements satisfying `p`, in their order in `s`. */
  function Filter<T(!new)>(s: seq<T>, p: T -> bool): (r: seq<T>)
    ensures |r| <= |s|
    ensures forall x :: x in r <==> x in s && p(x)
  {
    if |s| == 0 then []
    else (if p(s[0]) then [s[0]] else []) + Filter(s[1..], p)
  }

  /** The subsequence `Filter` keeps is the one the indices pick out. */
  lemma {:induction false} FilterAtIndicesFrom<T(!new)>(s: seq<T>, p: T -> bool, from: nat)
    requires from <= |s|
    ensures var r, idx := Filter(s[from..], p), IndicesFrom(s, p, from);
      |r| == |idx| && forall k :: 0 <= k < |r| ==> r[k] == s[idx[k]]
    decreases |s| - from
  {
    if from < |s| {
      assert s[from..][0] == s[from];
      assert s[from..][1..] == s[from + 1..];
      FilterAtIndicesFrom(s, p, from + 1);
    }
  }

  /** `Filter` keeps exactly the elements at `Indices`, in order. */
  lemma FilterAtIndices<T(!new)>(s: seq<T>, p: T -> bool)
    ensures var r, idx := Filter(s, p), Indices(s, p);
      |r| == |idx| && forall k :: 0 <= k < |r| ==> r[k] == s[idx[k]]
  {
    assert s[0..] == s;
    FilterAtIndicesFrom(s, p, 0);
  }

  /** Filtering a concatenation filters each part. */
  lemma {:induction false} FilterAppend<T(!new)>(a: seq<T>, b: seq<T>, p: T -> bool)
    ensures Filter(a + b, p) == Filter(a, p) + Filter(b, p)
  {
    if |a| == 0 {
      assert a + b == b;
    } else {
      assert (a + b)[0] == a[0];
      assert (a + b)[1..] == a[1..] + b;
      FilterAppend(a[1..], b, p);
    }
  }

  /** The first element satisfying `p`. */
  function FirstWith<T>(s: seq<T>, p: T -> bool): (r: Option<T>)
    ensures r.Some? ==> exists i :: 0 <= i < |s| && s[i] == r.value && p(s[i])
                                 && forall j :: 0 <= j < i ==> !p(s[j])
    ensures r.None? <==> forall i :: 0 <= i < |s| ==> !p(s[i])
  {
    if |s| == 0 then None
    else if p(s[0]) then Some(s[0])
    else
      var r := FirstWith(s[1..], p);
      assert forall i :: 1 <= i < |s| ==> s[i] == s[1..][i - 1];
      r
  }

  /** The first element satisfying both `p` and `q` is the first element of
      `Filter(s, p)` satisfying `q`. */
  lemma {:induction false} FirstWithOfFilter<T(!new)>(s: seq<T>, p: T -> bool, q: T -> bool, pq: T -> bool)
    requires forall x :: pq(x) == (p(x) && q(x))
    ensures FirstWith(s, pq) == FirstWith(Filter(s, p), q)
  {
    if |s| > 0 {
      FirstWithOfFilter(s[1..], p, q, pq);
      if p(s[0]) {
        var f := Filter(s, p);
        assert f[0] == s[0] && f[1..] == Filter(s[1..], p);
      } else {
        assert Filter(s, p) == Filter(s[1..], p);
      }
    }
  }

  /** An element satisfying `p` with none before it is the first one. */
  lemma FirstWithAt<T>(s: seq<T>, p: T -> bool, i: nat)
    requires i < |s| && p(s[i]) && forall j :: 0 <= j < i ==> !p(s[j])
    ensures FirstWith(s, p) == Some(s[i])
  {
    var r := FirstWith(s, p);
    var i' :| 0 <= i' < |s| && s[i'] == r.value && p(s[i']) && forall j :: 0 <= j < i' ==> !p(s[j]);
    assert !(i' < i) && !(i < i');
  }

  /** The images of the elements under `f`, concatenated in order. */
  function Flatten<T, U>(s: seq<T>, f: T -> seq<U>): seq<U> {
    if |s| == 0 then [] else f(s[0]) + Flatten(s[1..], f)
  }

  /** Flattening a concatenation flattens each part. */
  lemma {:induction false} FlattenAppend<T, U>(a: seq<T>, b: seq<T>, f: T -> seq<U>)
    ensures Flatten(a + b, f) == Flatten(a, f) + Flatten(b, f)
  {
    if |a| == 0 {
      assert a + b == b;
    } else {
      assert (a + b)[0] == a[0];
      assert (a + b)[1..] == a[1..] + b;
      FlattenAppend(a[1..], b, f);
    }
  }

  /** The values of the elements `f` accepts, in order; the elements it
      rejects leave no trace. */
  function KeepOk<A, B, E>(xs: seq<A>, f: A -> Result<B, E>): (r: seq<B>)
    ensures |r| <= |xs|
    ensures forall k :: 0 <= k < |r| ==> exists i :: 0 <= i < |xs| && f(xs[i]) == Ok(r[k])
  {
    if |xs| == 0 then []
    else
      var rest := KeepOk(xs[1..], f);
      assert forall i :: 1 <= i < |xs| ==> xs[i] == xs[1..][i - 1];
      (if f(xs[0]).Ok? then [f(xs[0]).value] else []) + rest
  }

  /** The first element contributes its value, if `f` accepts it, ahead of
      the values of the rest. */
  lemma KeepOkCons<A, B, E>(x: A, xs: seq<A>, f: A -> Result<B, E>)
    ensures KeepOk([x] + xs, f) == (if f(x).Ok? then [f(x).value] else []) + KeepOk(xs, f)
  {
    assert ([x] + xs)[0] == x && ([x] + xs)[1..] == xs;
  }

  /** Whether `f` accepts an element, as a value to filter with. */
  function Accepts<A, B, E>(f: A -> Result<B, E>): A -> bool {
    (x: A) => f(x).Ok?
  }

  /** `KeepOk` holds the values of the accepted elements, one for one. */
  lemma {:induction false} KeepOkOfFilter<A(!new), B, E>(xs: seq<A>, f: A -> Result<B, E>)
    ensures var r, kept := KeepOk(xs, f), Filter(xs, Accepts(f));
      |r| == |kept| && forall k :: 0 <= k < |r| ==> f(kept[k]) == Ok(r[k])
  {
    if |xs| > 0 {
      var r, kept := KeepOk(xs, f), Filter(xs, Accepts(f));
      var rest, keptRest := KeepOk(xs[1..], f), Filter(xs[1..], Accepts(f));
      KeepOkOfFilter(xs[1..], f);
      if f(xs[0]).Ok? {
        assert r == [f(xs[0]).value] + rest;
        assert kept == [xs[0]] + keptRest;
        forall k | 0 <= k < |r|
          ensures f(kept[k]) == Ok(r[k])
        {
          if k > 0 {
            assert kept[k] == keptRest[k - 1] && r[k] == rest[k - 1];
          }
        }
      } else {
        assert r == rest;
        assert kept == keptRest;
      }
    }
  }

  /** `KeepOk` of a concatenation is the concatenation of each part's. */
  lemma {:induction false} KeepOkAppend<A, B, E>(a: seq<A>, b: seq<A>, f: A -> Result<B, E>)
    ensures KeepOk(a + b, f) == KeepOk(a, f) + KeepOk(b, f)
  {
    if |a| == 0 {
      assert a + b == b;
    } else {
      assert (a + b)[0] == a[0];
      assert (a + b)[1..] == a[1..] + b;
      KeepOkAppend(a[1..], b, f);
    }
  }

  /** An element `f` rejects changes nothing about the others. */
  lemma KeepOkSkips<A, B, E>(a: seq<A>, x: A, b: seq<A>, f: A -> Result<B, E>)
    requires !f(x).Ok?
    ensures KeepOk(a + [x] + b, f) == KeepOk(a + b, f)
  {
    KeepOkAppend(a + [x], b, f);
    KeepOkAppend(a, [x], f);
    KeepOkAppend(a, b, f);
    assert [x][1..] == [];
  }

  /** Filtering with two predicates that agree everywhere gives the same. */
  lemma {:induction false} FilterSame<T(!new)>(s: seq<T>, p: T -> bool, q: T -> bool)
    requires forall x :: p(x) == q(x)
    ensures Filter(s, p) == Filter(s, q)
  {
    if |s| > 0 {
      FilterSame(s[1..], p, q);
    }
  }
}
