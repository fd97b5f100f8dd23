/** A stable sort parameterised by a "sorts no later than" relation. Python's
    `sorted(xs, key=...)` and JavaScript's `Array.prototype.sort` are both stable:
    elements whose keys compare equal keep their input order. */
module Sorting {

  /** `le` is total and transitive: a total preorder, as "key(a) <= key(b)" is. */
  ghost predicate TotalPreorder<T(!new)>(le: (T, T) -> bool) {
    (forall a, b :: le(a, b) || le(b, a)) &&
    (forall a, b, c :: le(a, b) && le(b, c) ==> le(a, c))
  }

  ghost predicate SortedBy<T>(s: seq<T>, le: (T, T) -> bool) {
    forall i, j :: 0 <= i < j < |s| ==> le(s[i], s[j])
  }

  /** x is placed before the first element it sorts no later than. */
  function Insert<T>(x: T, s: seq<T>, le: (T, T) -> bool): (r: seq<T>)
    ensures multiset(r) == multiset(s) + multiset{x}
  {
    if |s| == 0 then [x]
    else if le(x, s[0]) then [x] + s
    else
      assert s == [s[0]] + s[1..];
      [s[0]] + Insert(x, s[1..], le)
  }

  /** Insertion sort: the result is a rearrangement of the input. */
  function Sort<T>(s: seq<T>, le: (T, T) -> bool): (r: seq<T>)
    ensures multiset(r) == multiset(s)
  {
    if |s| == 0 then []
    else
      assert s == [s[0]] + s[1..];
      Insert(s[0], Sort(s[1..], le), le)
  }

  lemma {:induction false} InsertSorted<T(!new)>(x: T, s: seq<T>, le: (T, T) -> bool)
    requires TotalPreorder(le) && SortedBy(s, le)
    ensures SortedBy(Insert(x, s, le), le)
  {
    if |s| > 0 && !le(x, s[0]) {
      InsertSorted(x, s[1..], le);
      var r := Insert(x, s, le);
      var t := Insert(x, s[1..], le);
      assert r == [s[0]] + t;
      forall j | 0 < j < |r| ensures le(r[0], r[j]) {
        assert r[j] in multiset(t);
        assert r[j] in multiset(s[1..]) + multiset{x};
        if r[j] == x {
        } else {
          assert r[j] in s[1..];
        }
      }
    }
  }

  /** The sorted output is ordered by `le`. */
  lemma {:induction false} SortSorted<T(!new)>(s: seq<T>, le: (T, T) -> bool)
    requires TotalPreorder(le)
    ensures SortedBy(Sort(s, le), le)
  {
    if |s| > 0 {
      SortSorted(s[1..], le);
      InsertSorted(s[0], Sort(s[1..], le), le);
    }
  }

  // ----- stability -----

  /** The elements of s that tie with x under le, in their order in s. */
  function Ties<T>(s: seq<T>, x: T, le: (T, T) -> bool): seq<T> {
    if |s| == 0 then []
    else (if le(s[0], x) && le(x, s[0]) then [s[0]] else []) + Ties(s[1..], x, le)
  }

  lemma TiesCons<T>(a: T, t: seq<T>, x: T, le: (T, T) -> bool)
    ensures Ties([a] + t, x, le) == (if le(a, x) && le(x, a) then [a] else []) + Ties(t, x, le)
  {
    assert ([a] + t)[1..] == t;
  }

  /** The recursive case of InsertTies, with the facts it needs passed in. */
  lemma InsertTiesStep<T>(a: T, y: T, t: seq<T>, x: T, le: (T, T) -> bool)
    requires Ties(Insert(y, t, le), x, le) == (if le(y, x) && le(x, y) then [y] else []) + Ties(t, x, le)
    requires !(le(y, x) && le(x, y) && le(a, x) && le(x, a))
    ensures Ties([a] + Insert(y, t, le), x, le)
         == (if le(y, x) && le(x, y) then [y] else []) + Ties([a] + t, x, le)
  {
    TiesCons(a, Insert(y, t, le), x, le);
    TiesCons(a, t, x, le);
  }

  lemma {:induction false} InsertTies<T(!new)>(y: T, s: seq<T>, x: T, le: (T, T) -> bool)
    requires TotalPreorder(le)
    ensures Ties(Insert(y, s, le), x, le)
         == (if le(y, x) && le(x, y) then [y] else []) + Ties(s, x, le)
  {
    if |s| == 0 {
      TiesCons(y, [], x, le);
    } else if le(y, s[0]) {
      TiesCons(y, s, x, le);
    } else {
      var a := s[0];
      InsertTies(y, s[1..], x, le);
      // a cannot tie with x when y does: it would then tie with y, yet !le(y, a).
      assert le(y, x) && le(x, a) ==> le(y, a);
      InsertTiesStep(a, y, s[1..], x, le);
      assert s == [a] + s[1..];
      assert Insert(y, s, le) == [a] + Insert(y, s[1..], le);
    }
  }

  /** When every element ties with x, the ties are the whole sequence. */
  lemma {:induction false} TiesAll<T>(s: seq<T>, x: T, le: (T, T) -> bool)
    requires forall i :: 0 <= i < |s| ==> le(s[i], x) && le(x, s[i])
    ensures Ties(s, x, le) == s
  {
    if |s| > 0 {
      TiesAll(s[1..], x, le);
      assert s == [s[0]] + s[1..];
    }
  }

  /** Stability: among elements that tie, the output keeps the input order. */
  lemma {:induction false} SortStable<T(!new)>(s: seq<T>, x: T, le: (T, T) -> bool)
    requires TotalPreorder(le)
    ensures Ties(Sort(s, le), x, le) == Ties(s, x, le)
  {
    if |s| > 0 {
      SortStable(s[1..], x, le);
      InsertTies(s[0], Sort(s[1..], le), x, le);
    }
  }
}
