/**
 * Python's `sorted(xs, key=...)`: a stable sort. It is modelled as insertion
 * sort over a total preorder `le` ("key(a) <= key(b)"); sortedness,
 * permutation and stability together determine its result.
 */
module Sorting {

  ghost predicate TotalPreorder<T(!new)>(le: (T, T) -> bool) {
    && (forall a, b :: le(a, b) || le(b, a))
    && (forall a, b, c :: le(a, b) && le(b, c) ==> le(a, c))
  }

  predicate SortedBy<T>(s: seq<T>, le: (T, T) -> bool) {
    forall i, j :: 0 <= i < j < |s| ==> le(s[i], s[j])
  }

  /** Insert `x` before the first element it is not after. */
  function Insert<T>(x: T, s: seq<T>, le: (T, T) -> bool): (r: seq<T>)
    ensures multiset(r) == multiset(s) + multiset{x}
  {
    if |s| == 0 || le(x, s[0]) then [x] + s
    else
      assert s == [s[0]] + s[1..];
      [s[0]] + Insert(x, s[1..], le)
  }

  function Sort<T>(s: seq<T>, le: (T, T) -> bool): (r: seq<T>)
    ensures multiset(r) == multiset(s)
  {
    if |s| == 0 then []
    else
      assert s == [s[0]] + s[1..];
      Insert(s[0], Sort(s[1..], le), le)
  }

  lemma {:induction false} InsertSorted<T(!new)>(x: T, s: seq<T>, le: (T, T) -> bool)
    requires TotalPreorder(le) && SortedBy(s, le)
    ensures SortedBy(Insert(x, s, le), le)
    decreases |s|
  {
    if |s| > 0 && !le(x, s[0]) {
      InsertSorted(x, s[1..], le);
      var r := Insert(x, s[1..], le);
      assert forall k :: 0 <= k < |r| ==> le(s[0], r[k]) by {
        forall k | 0 <= k < |r| ensures le(s[0], r[k]) {
          assert r[k] in multiset(r);
          assert r[k] == x || r[k] in multiset(s[1..]);
          if r[k] != x {
            var m :| 0 <= m < |s[1..]| && s[1..][m] == r[k];
            assert s[m + 1] == r[k];
          }
        }
      }
    }
  }

  /** `sorted` returns its input in order. */
  lemma {:induction false} SortSorted<T(!new)>(s: seq<T>, le: (T, T) -> bool)
    requires TotalPreorder(le)
    ensures SortedBy(Sort(s, le), le)
    decreases |s|
  {
    if |s| > 0 {
      SortSorted(s[1..], le);
      InsertSorted(s[0], Sort(s[1..], le), le);
    }
  }

  /** The elements of `s` that compare equal to `x`, in order. */
  function Ties<T>(s: seq<T>, x: T, le: (T, T) -> bool): seq<T>
  {
    if |s| == 0 then []
    else (if le(s[0], x) && le(x, s[0]) then [s[0]] else []) + Ties(s[1..], x, le)
  }

  lemma {:induction false} TiesCons<T>(a: T, s: seq<T>, x: T, le: (T, T) -> bool)
    ensures Ties([a] + s, x, le) == (if le(a, x) && le(x, a) then [a] else []) + Ties(s, x, le)
  {
    assert ([a] + s)[1..] == s;
  }

  lemma {:induction false} InsertTies<T(!new)>(y: T, s: seq<T>, x: T, le: (T, T) -> bool)
    requires TotalPreorder(le)
    ensures Ties(Insert(y, s, le), x, le)
         == (if le(y, x) && le(x, y) then [y] else []) + Ties(s, x, le)
    decreases |s|
  {
    if |s| == 0 || le(y, s[0]) {
      assert Insert(y, s, le) == [y] + s;
      TiesCons(y, s, x, le);
    } else {
      var r := Insert(y, s[1..], le);
      var rest := Ties(s[1..], x, le);
      var t0 := if le(s[0], x) && le(x, s[0]) then [s[0]] else [];
      var ty := if le(y, x) && le(x, y) then [y] else [];
      assert Ties(Insert(y, s, le), x, le) == t0 + Ties(r, x, le) by {
        assert Insert(y, s, le) == [s[0]] + r;
        TiesCons(s[0], r, x, le);
      }
      assert Ties(r, x, le) == ty + rest by {
        InsertTies(y, s[1..], x, le);
      }
      assert Ties(s, x, le) == t0 + rest by {
        assert s == [s[0]] + s[1..];
        TiesCons(s[0], s[1..], x, le);
      }
      if ty != [] {
        // s[0] is strictly before y, so it cannot tie with x
        assert t0 == [] by { StrictlyBefore(s[0], y, x, le); }
        assert t0 + (ty + rest) == ty + (t0 + rest);
      } else {
        assert t0 + (ty + rest) == ty + (t0 + rest);
      }
    }
  }

  lemma {:induction false} StrictlyBefore<T(!new)>(a: T, y: T, x: T, le: (T, T) -> bool)
    requires TotalPreorder(le) && !le(y, a) && le(y, x)
    ensures !le(x, a)
  {
  }

  /** Stability: elements that compare equal keep their input order. */
  lemma {:induction false} SortStable<T(!new)>(s: seq<T>, x: T, le: (T, T) -> bool)
    requires TotalPreorder(le)
    ensures Ties(Sort(s, le), x, le) == Ties(s, x, le)
    decreases |s|
  {
    if |s| > 0 {
      SortStable(s[1..], x, le);
      InsertTies(s[0], Sort(s[1..], le), x, le);
    }
  }
}
