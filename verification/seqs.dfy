/** The two array searches the handlers rely on: "find the first element
    satisfying a test" and "keep the elements satisfying a test". */
module Seqs {
  import opened Wrappers

  /** Index of the first element of s satisfying p, or None when no element does. */
  function FirstIndex<T>(s: seq<T>, p: T -> bool): (r: Option<nat>)
    ensures r.Some? ==> r.value < |s| && p(s[r.value])
    ensures r.Some? ==> forall j :: 0 <= j < r.value ==> !p(s[j])
    ensures r.None? <==> forall j :: 0 <= j < |s| ==> !p(s[j])
  {
    if |s| == 0 then None
    else if p(s[0]) then Some(0)
    else match FirstIndex(s[1..], p)
      case None => None
      case Some(i) => Some(i + 1)
  }

  /** The elements of s that satisfy p, in their original order. */
  function Filter<T(!new)>(s: seq<T>, p: T -> bool): (r: seq<T>)
    ensures |r| <= |s|
    ensures forall x :: x in r <==> x in s && p(x)
    ensures forall x :: multiset(r)[x] == if p(x) then multiset(s)[x] else 0
    ensures |s| == 1 ==> r == if p(s[0]) then s else []
  {
    if |s| == 0 then []
    else
      assert s == [s[0]] + s[1..];
      if p(s[0]) then [s[0]] + Filter(s[1..], p)
      else Filter(s[1..], p)
  }

  /** Filtering distributes over concatenation. Together with the one-element
      clause of Filter's contract this fixes the result completely, and in
      particular the survivors keep their original relative order. */
  lemma {:induction false} FilterAppend<T(!new)>(s: seq<T>, t: seq<T>, p: T -> bool)
    ensures Filter(s + t, p) == Filter(s, p) + Filter(t, p)
  {
    if |s| == 0 {
      assert s + t == t;
    } else {
      assert (s + t)[0] == s[0];
      assert (s + t)[1..] == s[1..] + t;
      FilterAppend(s[1..], t, p);
    }
  }

  /** When every element q selects survives p, the first q-element of the
      filtered sequence is the first q-element of the original: filtering
      never reorders the elements that remain. */
  lemma {:induction false} FilterKeepsFirst<T(!new)>(s: seq<T>, p: T -> bool, q: T -> bool)
    requires forall x :: q(x) ==> p(x)
    ensures FirstIndex(Filter(s, p), q).None? <==> FirstIndex(s, q).None?
    ensures FirstIndex(Filter(s, p), q).Some? ==>
              Filter(s, p)[FirstIndex(Filter(s, p), q).value] == s[FirstIndex(s, q).value]
  {
    if |s| > 0 {
      var f := Filter(s, p);
      var f1 := Filter(s[1..], p);
      FilterKeepsFirst(s[1..], p, q);
      if p(s[0]) {
        assert f == [s[0]] + f1;
        assert f[1..] == f1;
      } else {
        assert f == f1;
      }
    }
  }

  /** Overwriting an element that p rejects with another value that p rejects
      does not change the result of filtering. */
  lemma {:induction false} FilterIgnoresRejectedUpdate<T(!new)>(s: seq<T>, p: T -> bool, i: nat, v: T)
    requires i < |s| && !p(s[i]) && !p(v)
    ensures Filter(s[i := v], p) == Filter(s, p)
  {
    if i > 0 {
      assert s[i := v][1..] == s[1..][i - 1 := v];
      FilterIgnoresRejectedUpdate(s[1..], p, i - 1, v);
    } else {
      assert s[i := v][1..] == s[1..];
    }
  }
}
