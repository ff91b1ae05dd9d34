// The operations of .NET's observable collections that the editors use on
// their lists: finding, moving and removing an element.

module Collections {
  /** `IndexOf`: the first position holding `x`, or -1. */
  function IndexOf<T(==)>(s: seq<T>, x: T): (r: int)
    ensures -1 <= r < |s|
    ensures r == -1 <==> x !in s
    ensures r >= 0 ==> s[r] == x && forall j :: 0 <= j < r ==> s[j] != x
  {
    if s == [] then -1
    else if s[0] == x then 0
    else
      var k := IndexOf(s[1..], x);
      if k == -1 then -1 else k + 1
  }

  /** `ObservableCollection.Move`: the element at `from` taken out and put
    * back at `to`. */
  function Moved<T>(s: seq<T>, from: int, to: int): (r: seq<T>)
    requires 0 <= from < |s| && 0 <= to < |s|
    ensures |r| == |s| && r[to] == s[from]
  {
    var rest := s[..from] + s[from + 1..];
    rest[..to] + [s[from]] + rest[to..]
  }

  /** Moving keeps every element: it is a permutation. */
  lemma MovedIsPermutation<T>(s: seq<T>, from: int, to: int)
    requires 0 <= from < |s| && 0 <= to < |s|
    ensures multiset(Moved(s, from, to)) == multiset(s)
  {
    var rest := s[..from] + s[from + 1..];
    assert s == s[..from] + [s[from]] + s[from + 1..];
    assert multiset(s) == multiset(s[..from]) + multiset{s[from]} + multiset(s[from + 1..]);
    assert multiset(rest) == multiset(s[..from]) + multiset(s[from + 1..]);
    assert rest == rest[..to] + rest[to..];
    assert multiset(rest) == multiset(rest[..to]) + multiset(rest[to..]);
    var m := rest[..to] + [s[from]] + rest[to..];
    assert Moved(s, from, to) == m;
    calc {
      multiset(m);
      multiset(rest[..to]) + multiset{s[from]} + multiset(rest[to..]);
      multiset(rest) + multiset{s[from]};
      multiset(s[..from]) + multiset(s[from + 1..]) + multiset{s[from]};
      multiset(s);
    }
  }

  /** A move by one place swaps two neighbours and leaves the rest in place. */
  lemma AdjacentMoveSwaps<T>(s: seq<T>, i: int)
    requires 0 < i < |s|
    ensures Moved(s, i, i - 1) == s[i - 1 := s[i]][i := s[i - 1]]
    ensures Moved(s, i - 1, i) == s[i - 1 := s[i]][i := s[i - 1]]
  {
    var swapped := s[i - 1 := s[i]][i := s[i - 1]];
    var up := Moved(s, i, i - 1);
    var rest := s[..i] + s[i + 1..];
    assert forall j :: 0 <= j < |s| ==> up[j] == swapped[j] by {
      forall j | 0 <= j < |s| ensures up[j] == swapped[j] {
        if j < i - 1 {
          assert up[j] == rest[j];
        } else if j > i {
          assert up[j] == rest[j - 1];
        }
      }
    }
    var down := Moved(s, i - 1, i);
    var rest2 := s[..i - 1] + s[i..];
    assert forall j :: 0 <= j < |s| ==> down[j] == swapped[j] by {
      forall j | 0 <= j < |s| ensures down[j] == swapped[j] {
        if j < i - 1 {
          assert down[j] == rest2[j];
        } else if j == i - 1 {
          assert down[j] == rest2[j];
        } else if j > i {
          assert down[j] == rest2[j - 1];
        }
      }
    }
  }

  /** `Collection.Remove`: the first occurrence taken out, if there is one. */
  function Removed<T(==)>(s: seq<T>, x: T): (r: seq<T>)
    ensures x in s ==> |r| == |s| - 1 && multiset(r) == multiset(s) - multiset{x}
    ensures x !in s ==> r == s
  {
    var i := IndexOf(s, x);
    if i < 0 then s
    else
      assert s == s[..i] + [x] + s[i + 1..];
      s[..i] + s[i + 1..]
  }
}
