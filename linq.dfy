// The LINQ operators the services rely on: `OrderBy` as a stable insertion
// sort specified by sortedness and permutation, and `Skip`/`Take` for paging.

module Linq {

  /** `le` orders every pair and is transitive. */
  ghost predicate TotalPreorder<T(!new)>(le: (T, T) -> bool) {
    (forall a, b :: le(a, b) || le(b, a))
    && (forall a, b, c :: le(a, b) && le(b, c) ==> le(a, c))
  }

  predicate SortedBy<T>(s: seq<T>, le: (T, T) -> bool) {
    forall i, j :: 0 <= i < j < |s| ==> le(s[i], s[j])
  }

  /** Comparing by an integer key, as `OrderBy(x => key(x))` does. */
  function ByKey<T>(key: T -> int): (T, T) -> bool {
    (a, b) => key(a) <= key(b)
  }

  /** Comparing by an integer key in descending order, as `OrderByDescending` does. */
  function ByKeyDescending<T>(key: T -> int): (T, T) -> bool {
    (a, b) => key(a) >= key(b)
  }

  lemma ByKeyIsPreorder<T(!new)>(key: T -> int)
    ensures TotalPreorder(ByKey(key))
    ensures TotalPreorder(ByKeyDescending(key))
  {
  }

  /** Places `x` before the first element it does not follow; equal elements keep `x` first. */
  function Insert<T(!new)>(x: T, s: seq<T>, le: (T, T) -> bool): (r: seq<T>)
    requires TotalPreorder(le) && SortedBy(s, le)
    ensures multiset(r) == multiset(s) + multiset{x}
    ensures |r| == |s| + 1
    ensures SortedBy(r, le)
  {
    if s == [] || le(x, s[0]) then
      [x] + s
    else
      var t := Insert(x, s[1..], le);
      HeadBeforeInserted(x, s, le, t);
      [s[0]] + t
  }

  /** The head of a sorted list, when `x` does not precede it, stays first
    * once `x` is inserted into the rest. */
  lemma HeadBeforeInserted<T(!new)>(x: T, s: seq<T>, le: (T, T) -> bool, t: seq<T>)
    requires TotalPreorder(le) && SortedBy(s, le) && s != [] && !le(x, s[0])
    requires SortedBy(t, le) && multiset(t) == multiset(s[1..]) + multiset{x}
    ensures multiset([s[0]] + t) == multiset(s) + multiset{x}
    ensures SortedBy([s[0]] + t, le)
  {
    assert s == [s[0]] + s[1..];
    forall k | 0 <= k < |t| ensures le(s[0], t[k]) {
      assert t[k] in multiset(t);
      if t[k] != x {
        assert t[k] in multiset(s[1..]);
        var j :| 0 <= j < |s[1..]| && s[1..][j] == t[k];
      }
    }
  }

  /** `OrderBy`: the result is sorted by `le` and is a permutation of the
    * input; the sort is stable: the elements `le` cannot tell apart from any
    * given `x` come out in the order, and with the repetitions, they went in. */
  function SortBy<T(!new)>(s: seq<T>, le: (T, T) -> bool): (r: seq<T>)
    requires TotalPreorder(le)
    ensures multiset(r) == multiset(s)
    ensures |r| == |s|
    ensures SortedBy(r, le)
    ensures KeepsTiesInOrder(r, s, le)
  {
    if s == [] then []
    else
      assert s == [s[0]] + s[1..];
      var t := SortBy(s[1..], le);
      InsertStable(s[0], t, le);
      Insert(s[0], t, le)
  }

  /** Stability: for every `x`, the elements of `r` that `le` ranks level
    * with `x` are those of `s`, in the same order and as often. */
  ghost predicate KeepsTiesInOrder<T(!new)>(r: seq<T>, s: seq<T>, le: (T, T) -> bool) {
    forall x :: Where(r, Equivalent(le, x)) == Where(s, Equivalent(le, x))
  }

  /** The elements `le` ranks level with `x`. */
  function Equivalent<T>(le: (T, T) -> bool, x: T): T -> bool {
    y => le(x, y) && le(y, x)
  }

  /** Inserting `y` puts it in front of every element level with it. */
  lemma InsertStable<T(!new)>(y: T, t: seq<T>, le: (T, T) -> bool)
    requires TotalPreorder(le) && SortedBy(t, le)
    ensures forall x :: Where(Insert(y, t, le), Equivalent(le, x))
                        == (if Equivalent(le, x)(y) then [y] else []) + Where(t, Equivalent(le, x))
  {
    forall x ensures Where(Insert(y, t, le), Equivalent(le, x))
                     == (if Equivalent(le, x)(y) then [y] else []) + Where(t, Equivalent(le, x))
    {
      InsertStableAt(y, t, le, x);
    }
  }

  lemma {:induction false} InsertStableAt<T(!new)>(y: T, t: seq<T>, le: (T, T) -> bool, x: T)
    requires TotalPreorder(le) && SortedBy(t, le)
    ensures Where(Insert(y, t, le), Equivalent(le, x))
            == (if Equivalent(le, x)(y) then [y] else []) + Where(t, Equivalent(le, x))
  {
    var e := Equivalent(le, x);
    var r := Insert(y, t, le);
    if t == [] || le(y, t[0]) {
      assert r == [y] + t;
      WhereCons(y, t, e);
    } else {
      InsertStableAt(y, t[1..], le, x);
      var u := Insert(y, t[1..], le);
      assert r == [t[0]] + u;
      WhereCons(t[0], u, e);
      assert t == [t[0]] + t[1..];
      WhereCons(t[0], t[1..], e);
      var h := t[0];
      assert e(y) && e(h) ==> le(y, x) && le(x, h);
    }
  }

  /** `Where` on a list with a known head. */
  lemma WhereCons<T(!new)>(a: T, t: seq<T>, p: T -> bool)
    ensures Where([a] + t, p) == (if p(a) then [a] else []) + Where(t, p)
  {
    assert ([a] + t)[1..] == t;
  }

  /** `Where(p)`: the elements that satisfy `p`, in their order. */
  function Where<T(!new)>(s: seq<T>, p: T -> bool): (r: seq<T>)
    ensures |r| <= |s|
    ensures forall x {:trigger x in r} :: x in r <==> x in s && p(x)
  {
    if s == [] then [] else (if p(s[0]) then [s[0]] else []) + Where(s[1..], p)
  }

  /** When every element satisfies `p`, `Where(p)` keeps the list as it is. */
  lemma {:induction false} WhereAllKept<T(!new)>(s: seq<T>, p: T -> bool)
    requires forall i :: 0 <= i < |s| ==> p(s[i])
    ensures Where(s, p) == s
  {
    if s != [] {
      WhereAllKept(s[1..], p);
      assert s == [s[0]] + s[1..];
    }
  }

  /** `ix` picks the elements of `r` out of `s` at strictly increasing positions. */
  ghost predicate SelectsAt<T>(r: seq<T>, s: seq<T>, ix: seq<int>) {
    && |ix| == |r|
    && (forall k :: 0 <= k < |ix| ==> 0 <= ix[k] < |s| && r[k] == s[ix[k]])
    && (forall k, l :: 0 <= k < l < |ix| ==> ix[k] < ix[l])
  }

  /** `r` is the subsequence of `s` made of exactly the positions whose
    * element satisfies `p`: order and repetitions are kept. */
  ghost predicate IsSelection<T>(r: seq<T>, s: seq<T>, p: T -> bool) {
    exists ix :: SelectsAt(r, s, ix) && forall i :: 0 <= i < |s| ==> (i in ix <==> p(s[i]))
  }

  /** `Where` keeps the satisfying elements in order, each as often as it occurs. */
  lemma {:induction false} WhereIsSelection<T(!new)>(s: seq<T>, p: T -> bool)
    ensures IsSelection(Where(s, p), s, p)
  {
    var ix := WhereIndices(s, p);
    WhereIndicesSelect(s, p);
    assert SelectsAt(Where(s, p), s, ix);
  }

  /** The positions `Where` keeps. */
  ghost function WhereIndices<T>(s: seq<T>, p: T -> bool): seq<int>
  {
    if s == [] then []
    else
      (if p(s[0]) then [0] else []) + Shifted(WhereIndices(s[1..], p))
  }

  /** Every position one further on. */
  ghost function Shifted(ix: seq<int>): (r: seq<int>)
    ensures |r| == |ix| && forall k :: 0 <= k < |ix| ==> r[k] == ix[k] + 1
  {
    seq(|ix|, k requires 0 <= k < |ix| => ix[k] + 1)
  }

  lemma {:induction false} WhereIndicesSelect<T(!new)>(s: seq<T>, p: T -> bool)
    ensures SelectsAt(Where(s, p), s, WhereIndices(s, p))
    ensures forall i :: 0 <= i < |s| ==> (i in WhereIndices(s, p) <==> p(s[i]))
  {
    if s != [] {
      var t := s[1..];
      WhereIndicesSelect(t, p);
      ShiftedSelects(s, p);
      ShiftedPositions(s, p);
    }
  }

  /** One step of `WhereIndicesSelect`: the positions picked. */
  lemma ShiftedSelects<T(!new)>(s: seq<T>, p: T -> bool)
    requires s != [] && SelectsAt(Where(s[1..], p), s[1..], WhereIndices(s[1..], p))
    ensures SelectsAt(Where(s, p), s, WhereIndices(s, p))
  {
    if p(s[0]) {
      assert WhereIndices(s, p) == [0] + Shifted(WhereIndices(s[1..], p));
      assert Where(s, p) == [s[0]] + Where(s[1..], p);
      KeptHeadSelects(s, Where(s[1..], p), WhereIndices(s[1..], p));
    } else {
      assert WhereIndices(s, p) == Shifted(WhereIndices(s[1..], p));
      assert Where(s, p) == Where(s[1..], p);
      ShiftedSelectsTail(s, Where(s[1..], p), WhereIndices(s[1..], p));
    }
  }

  /** The picks of the tail, shifted by one, pick the same elements out of `s`. */
  lemma ShiftedSelectsTail<T>(s: seq<T>, r: seq<T>, ix: seq<int>)
    requires s != [] && SelectsAt(r, s[1..], ix)
    ensures SelectsAt(r, s, Shifted(ix))
  {
    var sh := Shifted(ix);
    forall k | 0 <= k < |sh| ensures 0 <= sh[k] < |s| && r[k] == s[sh[k]] {
      assert s[1..][ix[k]] == s[ix[k] + 1];
    }
  }

  /** The head kept: position 0 goes before the shifted picks of the tail. */
  lemma KeptHeadSelects<T>(s: seq<T>, r: seq<T>, ix: seq<int>)
    requires s != [] && SelectsAt(r, s[1..], ix)
    ensures SelectsAt([s[0]] + r, s, [0] + Shifted(ix))
  {
    var sh := Shifted(ix);
    ShiftedSelectsTail(s, r, ix);
    var jx := [0] + sh;
    var q := [s[0]] + r;
    forall k | 0 <= k < |jx| ensures 0 <= jx[k] < |s| && q[k] == s[jx[k]] {
      if k > 0 {
        assert jx[k] == sh[k - 1] && q[k] == r[k - 1];
      }
    }
    forall k, l | 0 <= k < l < |jx| ensures jx[k] < jx[l] {
      assert jx[l] == sh[l - 1];
      if k > 0 {
        assert jx[k] == sh[k - 1];
      }
    }
  }

  /** One step of `WhereIndicesSelect`: which positions are picked. */
  lemma ShiftedPositions<T(!new)>(s: seq<T>, p: T -> bool)
    requires s != [] && SelectsAt(Where(s[1..], p), s[1..], WhereIndices(s[1..], p))
    requires forall i :: 0 <= i < |s[1..]| ==> (i in WhereIndices(s[1..], p) <==> p(s[1..][i]))
    ensures forall i :: 0 <= i < |s| ==> (i in WhereIndices(s, p) <==> p(s[i]))
  {
    var rest := WhereIndices(s[1..], p);
    ShiftedMembers(rest);
    var ix := WhereIndices(s, p);
    assert ix == (if p(s[0]) then [0] else []) + Shifted(rest);
    forall i | 0 <= i < |s| ensures i in ix <==> p(s[i]) {
      if i > 0 {
        assert s[i] == s[1..][i - 1];
      } else {
        assert -1 !in rest;
      }
    }
  }

  /** A position is in the shifted list iff the one before it is in the list. */
  lemma ShiftedMembers(ix: seq<int>)
    ensures forall i :: i in Shifted(ix) <==> i - 1 in ix
  {
    var sh := Shifted(ix);
    forall i ensures i in sh <==> i - 1 in ix {
      if i in sh {
        var k :| 0 <= k < |sh| && sh[k] == i;
        assert ix[k] == i - 1;
      }
      if i - 1 in ix {
        var k :| 0 <= k < |ix| && ix[k] == i - 1;
        assert sh[k] == i;
      }
    }
  }

  /** Membership is preserved by sorting. */
  lemma SortByMembers<T(!new)>(s: seq<T>, le: (T, T) -> bool, x: T)
    requires TotalPreorder(le)
    ensures x in SortBy(s, le) <==> x in s
  {
    var r := SortBy(s, le);
    assert x in r <==> x in multiset(r);
    assert x in s <==> x in multiset(s);
  }

  /** `Skip(n)`: drops the first `n` elements; a negative count drops nothing. */
  function Skip<T>(s: seq<T>, n: int): (r: seq<T>)
    ensures n <= 0 ==> r == s
    ensures 0 <= n <= |s| ==> r == s[n..]
    ensures n >= |s| ==> r == []
  {
    if n <= 0 then s else if n >= |s| then [] else s[n..]
  }

  /** `Take(n)`: keeps the first `n` elements; a negative count keeps nothing. */
  function Take<T>(s: seq<T>, n: int): (r: seq<T>)
    ensures |r| <= |s| && (n >= 0 ==> |r| <= n)
    ensures r <= s
    ensures n <= 0 ==> r == []
    ensures 0 <= n <= |s| ==> |r| == n
    ensures n >= |s| ==> r == s
  {
    if n <= 0 then [] else if n >= |s| then s else s[..n]
  }

  /** One page of a list: the elements at positions from `skip` up to, not
    * including, `skip + size`, all taken in order from the list. */
  lemma PageContents<T>(s: seq<T>, skip: int, size: int, i: int)
    requires 0 <= skip && 0 <= i < |Take(Skip(s, skip), size)|
    ensures skip + i < |s| && i < size
    ensures Take(Skip(s, skip), size)[i] == s[skip + i]
  {
  }

  /** An element at two positions is counted twice. */
  lemma TwiceCounted<T>(r: seq<T>, i: nat, j: nat)
    requires i < j < |r| && r[i] == r[j]
    ensures multiset(r)[r[i]] >= 2
  {
    assert r == r[..i] + [r[i]] + r[i + 1..j] + [r[j]] + r[j + 1..];
  }
}
