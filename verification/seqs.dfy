/** The two array operations the smart-select code relies on, as total
    functions on sequences: `Array.prototype.filter` and an
    `Array.prototype.map` whose callback may throw. */
module Seqs {
  import opened Wrappers

  /** The elements of `s` that satisfy `p`, in their original order. */
  function Filter<T>(s: seq<T>, p: T -> bool): (r: seq<T>)
    ensures |r| <= |s|
    ensures forall i :: 0 <= i < |r| ==> p(r[i])
    ensures forall x :: x in r ==> x in s
  {
    if |s| == 0 then []
    else if p(s[0]) then [s[0]] + Filter(s[1..], p)
    else Filter(s[1..], p)
  }

  /** An element survives filtering exactly when it is in `s` and satisfies `p`. */
  lemma {:induction false} FilterMembership<T>(s: seq<T>, p: T -> bool, x: T)
    ensures x in Filter(s, p) <==> x in s && p(x)
  {
    if |s| > 0 {
      FilterMembership(s[1..], p, x);
      assert s == [s[0]] + s[1..];
    }
  }

  /** Filtering yields nothing exactly when no element satisfies `p`. */
  lemma {:induction false} FilterEmpty<T>(s: seq<T>, p: T -> bool)
    ensures |Filter(s, p)| == 0 <==> forall i :: 0 <= i < |s| ==> !p(s[i])
  {
    if |Filter(s, p)| != 0 {
      var x := Filter(s, p)[0];
      FilterMembership(s, p, x);
    } else {
      forall i | 0 <= i < |s|
        ensures !p(s[i])
      {
        FilterMembership(s, p, s[i]);
      }
    }
  }

  /** If `s[i]` is the first element of `s` that satisfies `p`, filtering
      starts with it. */
  lemma {:induction false} FilterFirst<T>(s: seq<T>, p: T -> bool, i: nat)
    requires i < |s| && p(s[i])
    requires forall j :: 0 <= j < i ==> !p(s[j])
    ensures Filter(s, p) == [s[i]] + Filter(s[i + 1..], p)
  {
    if i > 0 {
      assert !p(s[0]);
      FilterFirst(s[1..], p, i - 1);
      assert s[1..][i..] == s[i + 1..];
    }
  }

  /** If `s[k]` is the last element of `s` that satisfies `p`, filtering
      ends with it, preceded by the filtering of `s[..k]`. */
  lemma {:induction false} FilterLast<T>(s: seq<T>, p: T -> bool, k: nat)
    requires k < |s| && p(s[k])
    requires forall j :: k < j < |s| ==> !p(s[j])
    ensures Filter(s, p) == Filter(s[..k], p) + [s[k]]
  {
    if k == 0 {
      FilterEmpty(s[1..], p);
      assert s[..0] == [];
    } else {
      FilterLast(s[1..], p, k - 1);
      assert s[1..][..k - 1] == s[..k][1..];
      assert s[..k][0] == s[0];
    }
  }

  /** If `s[i]` and `s[k]` are the first and the last elements of `s` that
      satisfy `p`, the filtered sequence starts with `s[i]`, ends with
      `s[k]`, and without its last element is the filtering of `s[..k]`;
      it has a single element exactly when `i == k`. */
  lemma {:induction false} FilterEnds<T>(s: seq<T>, p: T -> bool, i: nat, k: nat)
    requires i <= k < |s| && p(s[i]) && p(s[k])
    requires forall j :: 0 <= j < i ==> !p(s[j])
    requires forall j :: k < j < |s| ==> !p(s[j])
    ensures |Filter(s, p)| >= 1
    ensures Filter(s, p)[0] == s[i]
    ensures Filter(s, p)[|Filter(s, p)| - 1] == s[k]
    ensures Filter(s, p)[..|Filter(s, p)| - 1] == Filter(s[..k], p)
    ensures |Filter(s, p)| == 1 <==> i == k
  {
    FilterFirst(s, p, i);
    FilterLast(s, p, k);
    var f := Filter(s, p);
    assert f[..|f| - 1] == Filter(s[..k], p);
    if i < k {
      assert s[..k][i] == s[i];
      FilterMembership(s[..k], p, s[i]);
    } else {
      FilterEmpty(s[..k], p);
    }
  }

  /** Some element of the filtered sequence has property `q` exactly when
      some element of `s` satisfies both `p` and `q`. */
  lemma {:induction false} FilterExists<T>(s: seq<T>, p: T -> bool, q: T -> bool)
    ensures (exists x :: 0 <= x < |Filter(s, p)| && q(Filter(s, p)[x])) <==>
            (exists j :: 0 <= j < |s| && p(s[j]) && q(s[j]))
  {
    var f := Filter(s, p);
    if x :| 0 <= x < |f| && q(f[x]) {
      FilterMembership(s, p, f[x]);
      var j :| 0 <= j < |s| && s[j] == f[x];
      assert p(s[j]) && q(s[j]);
    }
    if j :| 0 <= j < |s| && p(s[j]) && q(s[j]) {
      FilterMembership(s, p, s[j]);
      var x :| 0 <= x < |f| && f[x] == s[j];
      assert q(f[x]);
    }
  }

  /** Maps `f` over `s` in order; the first element on which `f` fails
      makes the whole map fail with that element's error. */
  function MapAll<T, U, E>(s: seq<T>, f: T --> Result<U, E>): (r: Result<seq<U>, E>)
    requires forall i :: 0 <= i < |s| ==> f.requires(s[i])
    ensures r.Success? <==> forall i :: 0 <= i < |s| ==> f(s[i]).Success?
    ensures r.Success? ==> |r.value| == |s|
    ensures r.Success? ==> forall i :: 0 <= i < |s| ==> r.value[i] == f(s[i]).value
    ensures r.Failure? ==>
      exists i :: 0 <= i < |s| && f(s[i]) == Failure(r.error) &&
        forall j :: 0 <= j < i ==> f(s[j]).Success?
  {
    if |s| == 0 then Success([])
    else
      var head :- f(s[0]);
      var tail :- MapAll(s[1..], f);
      Success([head] + tail)
  }

  /** Mapping over a filtered sequence fails exactly when `f` fails on some
      element of `s` that satisfies `p`, and then with one such failure. */
  lemma {:induction false} MapFilterFailure<T, U, E>(s: seq<T>, p: T -> bool, f: T -> Result<U, E>)
    ensures MapAll(Filter(s, p), f).Failure? <==>
      exists j :: 0 <= j < |s| && p(s[j]) && f(s[j]).Failure?
    ensures MapAll(Filter(s, p), f).Failure? ==>
      exists j :: 0 <= j < |s| && p(s[j]) && f(s[j]) == Failure(MapAll(Filter(s, p), f).error)
  {
    var at := Filter(s, p);
    var r := MapAll(at, f);
    if r.Failure? {
      var x :| 0 <= x < |at| && f(at[x]) == Failure(r.error);
      FilterMembership(s, p, at[x]);
      var j :| 0 <= j < |s| && s[j] == at[x];
      assert p(s[j]) && f(s[j]) == Failure(r.error);
    }
    if j :| 0 <= j < |s| && p(s[j]) && f(s[j]).Failure? {
      FilterMembership(s, p, s[j]);
      var x :| 0 <= x < |at| && at[x] == s[j];
      assert f(at[x]).Failure?;
    }
  }

  /** A successful map over a filtered sequence holds the image of every
      element of `s` that satisfies `p`, and only such images. */
  lemma {:induction false} MapFilterMembers<T, U, E>(s: seq<T>, p: T -> bool, f: T -> Result<U, E>)
    requires MapAll(Filter(s, p), f).Success?
    ensures forall j :: 0 <= j < |s| && p(s[j]) ==>
      f(s[j]).Success? && f(s[j]).value in MapAll(Filter(s, p), f).value
    ensures forall u :: u in MapAll(Filter(s, p), f).value ==>
      exists j :: 0 <= j < |s| && p(s[j]) && f(s[j]) == Success(u)
  {
    var at := Filter(s, p);
    var r := MapAll(at, f);
    forall j | 0 <= j < |s| && p(s[j])
      ensures f(s[j]).Success? && f(s[j]).value in r.value
    {
      FilterMembership(s, p, s[j]);
      var x :| 0 <= x < |at| && at[x] == s[j];
      assert r.value[x] == f(s[j]).value;
    }
    forall u | u in r.value
      ensures exists j :: 0 <= j < |s| && p(s[j]) && f(s[j]) == Success(u)
    {
      var x :| 0 <= x < |r.value| && r.value[x] == u;
      FilterMembership(s, p, at[x]);
      var j :| 0 <= j < |s| && s[j] == at[x];
      assert p(s[j]) && f(s[j]) == Success(u);
    }
  }
}
