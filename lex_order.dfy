/** Python's ordering of `str` values and its `sorted` built-in, on which the planner,
    the executor, the validator and the schema guard rely for deterministic output.
    Strings compare code point by code point, and a proper prefix comes first. */
module LexOrder {

  /** `a <= b` on Python strings. */
  predicate LexLe(a: string, b: string)
  {
    |a| == 0 || (|b| > 0 && (a[0] < b[0] || (a[0] == b[0] && LexLe(a[1..], b[1..]))))
  }

  predicate LexLt(a: string, b: string)
  {
    LexLe(a, b) && a != b
  }

  lemma {:induction false} LexLeRefl(a: string)
    ensures LexLe(a, a)
  {
    if |a| > 0 { LexLeRefl(a[1..]); }
  }

  lemma {:induction false} LexLeAntisym(a: string, b: string)
    requires LexLe(a, b) && LexLe(b, a)
    ensures a == b
  {
    if |a| > 0 && |b| > 0 && a[0] == b[0] {
      LexLeAntisym(a[1..], b[1..]);
      assert a == [a[0]] + a[1..] && b == [b[0]] + b[1..];
    }
  }

  lemma {:induction false} LexLeTrans(a: string, b: string, c: string)
    requires LexLe(a, b) && LexLe(b, c)
    ensures LexLe(a, c)
  {
    if |a| > 0 && |b| > 0 && |c| > 0 && a[0] == b[0] == c[0] {
      LexLeTrans(a[1..], b[1..], c[1..]);
    }
  }

  lemma {:induction false} LexLeTotal(a: string, b: string)
    ensures LexLe(a, b) || LexLe(b, a)
  {
    if |a| > 0 && |b| > 0 && a[0] == b[0] {
      LexLeTotal(a[1..], b[1..]);
    }
  }

  /** Antisymmetry for every pair at once: what makes a least element unique. */
  lemma LexLeAntisymAll()
    ensures forall a, b :: LexLe(a, b) && LexLe(b, a) ==> a == b
  {
    forall a, b | LexLe(a, b) && LexLe(b, a) ensures a == b {
      LexLeAntisym(a, b);
    }
  }

  /** Ascending order, as `sorted` leaves a list. */
  predicate Sorted(s: seq<string>)
  {
    forall i, j :: 0 <= i < j < |s| ==> LexLe(s[i], s[j])
  }

  /** Ascending without repetitions, as `sorted` leaves the keys of a dict or a set. */
  predicate StrictlySorted(s: seq<string>)
  {
    forall i, j :: 0 <= i < j < |s| ==> LexLt(s[i], s[j])
  }

  function Insert(x: string, s: seq<string>): (r: seq<string>)
    requires Sorted(s)
    ensures Sorted(r) && multiset(r) == multiset(s) + multiset{x}
  {
    if s == [] then [x]
    else if LexLe(x, s[0]) then
      InsertFront(x, s); [x] + s
    else
      LexLeTotal(x, s[0]);
      var rest := Insert(x, s[1..]);
      assert s == [s[0]] + s[1..];
      InsertBehind(s[0], rest, x, s[1..]);
      [s[0]] + rest
  }

  lemma InsertFront(x: string, s: seq<string>)
    requires Sorted(s) && s != [] && LexLe(x, s[0])
    ensures Sorted([x] + s)
  {
    forall j | 0 < j < |[x] + s| ensures LexLe(x, ([x] + s)[j]) {
      if j > 1 { LexLeTrans(x, s[0], s[j - 1]); }
    }
  }

  lemma InsertBehind(y: string, rest: seq<string>, x: string, tail: seq<string>)
    requires Sorted(rest) && multiset(rest) == multiset(tail) + multiset{x}
    requires LexLe(y, x) && forall t :: t in tail ==> LexLe(y, t)
    ensures Sorted([y] + rest)
  {
    forall j | 0 <= j < |rest| ensures LexLe(y, rest[j]) {
      assert rest[j] in multiset(rest);
    }
  }

  /** `sorted(s)` for a list of strings: the ascending permutation of `s`. */
  function Sort(s: seq<string>): (r: seq<string>)
    ensures Sorted(r) && multiset(r) == multiset(s)
  {
    if s == [] then []
    else
      assert s == [s[0]] + s[1..];
      Insert(s[0], Sort(s[1..]))
  }

  /** Sorting keeps the members. */
  lemma MembersOfSort(s: seq<string>)
    ensures forall k :: k in Sort(s) <==> k in s
  {
    forall k ensures k in Sort(s) <==> k in s {
      assert k in Sort(s) <==> k in multiset(Sort(s));
      assert k in s <==> k in multiset(s);
    }
  }

  /** There is only one ascending arrangement of a multiset of strings. */
  lemma {:induction false} SortedUnique(a: seq<string>, b: seq<string>)
    requires Sorted(a) && Sorted(b) && multiset(a) == multiset(b)
    ensures a == b
  {
    if a != [] {
      assert |b| == |a| by { assert |multiset(a)| == |a| && |multiset(b)| == |b|; }
      HeadIsLeast(b, a[0]);
      HeadIsLeast(a, b[0]);
      LexLeAntisym(a[0], b[0]);
      DropHead(a);
      DropHead(b);
      SortedUnique(a[1..], b[1..]);
    }
  }

  lemma HeadIsLeast(a: seq<string>, x: string)
    requires Sorted(a) && x in multiset(a)
    ensures LexLe(a[0], x)
  {
    var i :| 0 <= i < |a| && a[i] == x;
    if i == 0 { LexLeRefl(x); }
  }

  lemma DropHead(a: seq<string>)
    requires Sorted(a) && a != []
    ensures Sorted(a[1..]) && multiset(a[1..]) == multiset(a) - multiset{a[0]}
  {
    assert a == [a[0]] + a[1..];
  }

  /** Sorting a list that is already ascending gives it back unchanged. */
  lemma SortOfSorted(s: seq<string>)
    requires Sorted(s)
    ensures Sort(s) == s
  {
    SortedUnique(Sort(s), s);
  }

  /** A finite non-empty set of strings has a least element. */
  lemma LeastExists(s: set<string>)
    requires s != {}
    ensures exists m :: m in s && forall y :: y in s ==> LexLe(m, y)
  {
    var m := Least(s);
  }

  lemma {:induction false} Least(s: set<string>) returns (m: string)
    requires s != {}
    ensures m in s && forall y :: y in s ==> LexLe(m, y)
  {
    var x :| x in s;
    if s == {x} {
      LexLeRefl(x);
      m := x;
    } else {
      var m' := Least(s - {x});
      LexLeTotal(x, m');
      if LexLe(x, m') {
        m := x;
        forall y | y in s ensures LexLe(x, y) {
          if y == x { LexLeRefl(x); } else { LexLeTrans(x, m', y); }
        }
      } else {
        m := m';
      }
    }
  }

  /** `sorted(keys)` for the keys of a dict or the members of a set. */
  function SortSet(s: set<string>): (r: seq<string>)
    ensures StrictlySorted(r) && |r| == |s|
    ensures forall x :: x in r <==> x in s
    decreases |s|
  {
    if s == {} then []
    else
      LeastExists(s);
      LexLeAntisymAll();
      var m :| m in s && forall y :: y in s ==> LexLe(m, y);
      var rest := SortSet(s - {m});
      ConsStrictlySorted(m, rest, s);
      [m] + rest
  }

  lemma ConsStrictlySorted(m: string, rest: seq<string>, s: set<string>)
    requires StrictlySorted(rest) && m in s && forall y :: y in s ==> LexLe(m, y)
    requires forall x :: x in rest <==> x in s - {m}
    ensures StrictlySorted([m] + rest)
  {
    forall i, j | 0 <= i < j < |[m] + rest| ensures LexLt(([m] + rest)[i], ([m] + rest)[j]) {
      if i == 0 { assert rest[j - 1] in s - {m}; }
    }
  }

  /** What makes `sorted(set(xs))` the sorted list without repetitions: it is `sorted` of
      any duplicate-free list with the same members. */
  lemma SortSetIsSort(s: set<string>, q: seq<string>)
    requires forall x :: x in q <==> x in s
    requires forall i, j :: 0 <= i < j < |q| ==> q[i] != q[j]
    ensures SortSet(s) == Sort(q)
  {
    var r := SortSet(s);
    assert Sorted(r);
    DistinctMultiset(r);
    DistinctMultiset(q);
    assert multiset(r) == multiset(q) by {
      forall x ensures multiset(r)[x] == multiset(q)[x] {
        if x in s { assert x in r && x in q; }
      }
    }
    SortedUnique(r, Sort(q));
  }

  lemma DistinctMultiset(q: seq<string>)
    requires forall i, j :: 0 <= i < j < |q| ==> q[i] != q[j]
    ensures forall x :: multiset(q)[x] == if x in q then 1 else 0
  {
    if q != [] {
      assert q == [q[0]] + q[1..];
      DistinctMultiset(q[1..]);
    }
  }

  /** Python's `(len(p), p)` sort key used to break ties between candidate paths:
      shorter first, then alphabetical. */
  predicate ShortLexLe(a: string, b: string)
  {
    |a| < |b| || (|a| == |b| && LexLe(a, b))
  }
}
