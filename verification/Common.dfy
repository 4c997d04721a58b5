/** Small types, and facts about filtering and sorting sequences. */
module Common {

  datatype Option<+T> = None | Some(value: T)

  // ----- Distinct elements ------------------------------------------------------

  ghost predicate NoDup<T>(s: seq<T>) {
    forall i, j :: 0 <= i < j < |s| ==> s[i] != s[j]
  }

  ghost function Elements<T>(s: seq<T>): set<T> {
    set x | x in s
  }

  lemma {:induction false} NoDupSize<T>(s: seq<T>)
    requires NoDup(s)
    ensures |Elements(s)| == |s|
  {
    if s != [] {
      var front, x := s[..|s| - 1], s[|s| - 1];
      NoDupSize(front);
      assert x !in front;
      assert Elements(s) == Elements(front) + {x};
    }
  }

  // ----- Filter -----------------------------------------------------------------

  function Filter<T>(f: T -> bool, s: seq<T>): seq<T> {
    if s == [] then []
    else
      var x := s[|s| - 1];
      Filter(f, s[..|s| - 1]) + if f(x) then [x] else []
  }

  lemma {:induction false} FilterMembers<T(!new)>(f: T -> bool, s: seq<T>)
    ensures forall x :: x in Filter(f, s) <==> x in s && f(x)
    ensures |Filter(f, s)| <= |s|
  {
    if s != [] {
      var front, x := s[..|s| - 1], s[|s| - 1];
      FilterMembers(f, front);
      assert s == front + [x];
    }
  }

  lemma FilterAppend<T(!new)>(f: T -> bool, s: seq<T>, x: T)
    ensures Filter(f, s + [x]) == Filter(f, s) + if f(x) then [x] else []
  {
    assert (s + [x])[..|s|] == s;
  }

  lemma {:induction false} FilterConcat<T(!new)>(f: T -> bool, s: seq<T>, t: seq<T>)
    ensures Filter(f, s + t) == Filter(f, s) + Filter(f, t)
    decreases |t|
  {
    if t == [] {
      assert s + t == s;
    } else {
      var front, x := t[..|t| - 1], t[|t| - 1];
      FilterConcat(f, s, front);
      assert s + t == (s + front) + [x];
      FilterAppend(f, s + front, x);
      assert t == front + [x];
      FilterAppend(f, front, x);
    }
  }

  lemma {:induction false} FilterNoDup<T(!new)>(f: T -> bool, s: seq<T>)
    requires NoDup(s)
    ensures NoDup(Filter(f, s))
  {
    if s != [] {
      var front, x := s[..|s| - 1], s[|s| - 1];
      FilterNoDup(f, front);
      FilterMembers(f, front);
      assert x !in front;
    }
  }

  // Whatever holds of every pair in order holds of every pair a filter leaves.
  ghost predicate Pairwise<T>(r: (T, T) -> bool, s: seq<T>) {
    forall i, j :: 0 <= i < j < |s| ==> r(s[i], s[j])
  }

  lemma {:induction false} FilterPairwise<T(!new)>(f: T -> bool, r: (T, T) -> bool, s: seq<T>)
    requires Pairwise(r, s)
    ensures Pairwise(r, Filter(f, s))
  {
    if s != [] {
      var front, x := s[..|s| - 1], s[|s| - 1];
      FilterPairwise(f, r, front);
      FilterMembers(f, front);
      assert forall y :: y in front ==> r(y, x);
    }
  }

  // Filtering on two conditions in either order is filtering on both.
  lemma {:induction false} FilterFilter<T(!new)>(f: T -> bool, g: T -> bool, s: seq<T>)
    ensures Filter(f, Filter(g, s)) == Filter(g, Filter(f, s))
  {
    if s != [] {
      var front, x := s[..|s| - 1], s[|s| - 1];
      FilterFilter(f, g, front);
      var a, b := Filter(f, front), Filter(g, front);
      FilterAppend(f, b, x);
      FilterAppend(g, a, x);
      assert a + [] == a && b + [] == b;
    }
  }

  lemma {:induction false} FilterAll<T(!new)>(f: T -> bool, s: seq<T>)
    requires forall x :: x in s ==> f(x)
    ensures Filter(f, s) == s
  {
    if s != [] {
      var front, x := s[..|s| - 1], s[|s| - 1];
      assert x in s && forall y :: y in front ==> y in s;
      FilterAll(f, front);
      assert front + [x] == s;
    }
  }

  // A filter that drops nothing kept everything.
  lemma {:induction false} FilterFull<T(!new)>(f: T -> bool, s: seq<T>)
    requires |Filter(f, s)| == |s|
    ensures forall x :: x in s ==> f(x)
  {
    if s != [] {
      var front, x := s[..|s| - 1], s[|s| - 1];
      FilterMembers(f, front);
      FilterFull(f, front);
      assert s == front + [x];
    }
  }

  // Removing distinct members shortens by exactly their number.
  lemma RemovalLength<T(!new)>(s: seq<T>, gone: seq<T>)
    requires NoDup(s) && NoDup(gone)
    requires forall x :: x in gone ==> x in s
    ensures |Filter(x => x !in gone, s)| == |s| - |gone|
  {
    var kept := Filter(x => x !in gone, s);
    FilterNoDup(x => x !in gone, s);
    FilterMembers(x => x !in gone, s);
    NoDupSize(s);
    NoDupSize(gone);
    NoDupSize(kept);
    assert Elements(kept) == Elements(s) - Elements(gone);
    assert Elements(s) == Elements(kept) + Elements(gone);
  }

  // ----- Where things come in a sequence ----------------------------------------

  ghost predicate Before<T>(s: seq<T>, x: T, y: T) {
    exists i, j :: 0 <= i < j < |s| && s[i] == x && s[j] == y
  }

  lemma BeforeFront<T>(s: seq<T>, x: T, y: T)
    requires s != [] && Before(s[..|s| - 1], x, y)
    ensures Before(s, x, y)
  {
    var front := s[..|s| - 1];
    var i, j :| 0 <= i < j < |front| && front[i] == x && front[j] == y;
    assert s[i] == x && s[j] == y;
  }

  lemma BeforeLast<T>(s: seq<T>, x: T)
    requires s != [] && x in s[..|s| - 1]
    ensures Before(s, x, s[|s| - 1])
  {
    var i :| 0 <= i < |s| - 1 && s[..|s| - 1][i] == x;
    assert s[i] == x;
  }

  // Of two elements one comes first.
  lemma BeforeOneWay<T>(s: seq<T>, x: T, y: T)
    requires NoDup(s) && Before(s, x, y)
    ensures !Before(s, y, x)
  {
  }

  // A filter keeps the order.
  lemma {:induction false} FilterBefore<T(!new)>(f: T -> bool, s: seq<T>, x: T, y: T)
    requires Before(Filter(f, s), x, y)
    ensures Before(s, x, y)
  {
    if s != [] {
      var front, last := s[..|s| - 1], s[|s| - 1];
      var r := Filter(f, s);
      var i, j :| 0 <= i < j < |r| && r[i] == x && r[j] == y;
      if j < |Filter(f, front)| {
        assert Before(Filter(f, front), x, y);
        FilterBefore(f, front, x, y);
        BeforeFront(s, x, y);
      } else {
        FilterMembers(f, front);
        assert Filter(f, front)[i] == x;
        BeforeLast(s, x);
      }
    }
  }

  // Filtering twice is filtering on both conditions.
  lemma {:induction false} FilterTwice<T(!new)>(f: T -> bool, g: T -> bool, both: T -> bool, s: seq<T>)
    requires forall x :: x in s ==> both(x) == (f(x) && g(x))
    ensures Filter(f, Filter(g, s)) == Filter(both, s)
  {
    if s != [] {
      var front, x := s[..|s| - 1], s[|s| - 1];
      FilterTwice(f, g, both, front);
      FilterAppend(f, Filter(g, front), x);
      assert Filter(g, front) + [] == Filter(g, front);
      assert x in s;
    }
  }

  // ----- Stable sort ------------------------------------------------------------

  ghost predicate SortedBy<T>(key: T -> int, s: seq<T>) {
    forall i, j :: 0 <= i < j < |s| ==> key(s[i]) <= key(s[j])
  }

  // Inserts after every element that is not larger.
  function InsertBy<T>(key: T -> int, x: T, s: seq<T>): seq<T> {
    if s == [] || key(s[|s| - 1]) <= key(x) then s + [x]
    else InsertBy(key, x, s[..|s| - 1]) + [s[|s| - 1]]
  }

  // A stable sort, smallest key first.
  function SortBy<T>(key: T -> int, s: seq<T>): seq<T> {
    if s == [] then [] else InsertBy(key, s[|s| - 1], SortBy(key, s[..|s| - 1]))
  }

  lemma {:induction false} InsertMultiset<T>(key: T -> int, x: T, s: seq<T>)
    ensures multiset(InsertBy(key, x, s)) == multiset(s) + multiset{x}
  {
    if s != [] && key(s[|s| - 1]) > key(x) {
      InsertMultiset(key, x, s[..|s| - 1]);
      assert s == s[..|s| - 1] + [s[|s| - 1]];
    }
  }

  lemma {:induction false} InsertSorts<T>(key: T -> int, x: T, s: seq<T>)
    requires SortedBy(key, s)
    ensures SortedBy(key, InsertBy(key, x, s))
  {
    if s != [] && key(s[|s| - 1]) > key(x) {
      var front, last := s[..|s| - 1], s[|s| - 1];
      InsertSorts(key, x, front);
      InsertMultiset(key, x, front);
      var r := InsertBy(key, x, front);
      forall i | 0 <= i < |r|
        ensures key(r[i]) <= key(last)
      {
        assert r[i] in multiset(r);
        assert r[i] == x || r[i] in front;
      }
    }
  }

  // Sorting permutes, and it sorts.
  lemma {:induction false} SortSorts<T>(key: T -> int, s: seq<T>)
    ensures SortedBy(key, SortBy(key, s))
    ensures multiset(SortBy(key, s)) == multiset(s)
    ensures |SortBy(key, s)| == |s|
  {
    if s != [] {
      var front, x := s[..|s| - 1], s[|s| - 1];
      SortSorts(key, front);
      InsertSorts(key, x, SortBy(key, front));
      InsertMultiset(key, x, SortBy(key, front));
      assert s == front + [x];
      assert |SortBy(key, s)| == |multiset(SortBy(key, s))|;
    }
  }

  lemma {:induction false} InsertNoDup<T>(key: T -> int, x: T, s: seq<T>)
    requires NoDup(s) && x !in s
    ensures NoDup(InsertBy(key, x, s))
  {
    if s != [] && key(s[|s| - 1]) > key(x) {
      var front, last := s[..|s| - 1], s[|s| - 1];
      InsertNoDup(key, x, front);
      InsertMultiset(key, x, front);
      var r := InsertBy(key, x, front);
      forall i | 0 <= i < |r|
        ensures r[i] != last
      {
        assert r[i] in multiset(r);
        assert r[i] == x || r[i] in front;
      }
    }
  }

  lemma {:induction false} SortNoDup<T>(key: T -> int, s: seq<T>)
    requires NoDup(s)
    ensures NoDup(SortBy(key, s))
  {
    if s != [] {
      var front, x := s[..|s| - 1], s[|s| - 1];
      SortNoDup(key, front);
      SortSorts(key, front);
      assert x !in multiset(SortBy(key, front));
      InsertNoDup(key, x, SortBy(key, front));
    }
  }

  lemma SortMembers<T(!new)>(key: T -> int, s: seq<T>)
    ensures forall y :: y in SortBy(key, s) <==> y in s
    ensures |SortBy(key, s)| == |s|
  {
    SortSorts(key, s);
    var r := SortBy(key, s);
    assert forall y :: y in r <==> y in multiset(r);
  }

  // Smaller keys first, and equal ones in the order they were in.
  ghost predicate Stably<T>(key: T -> int, s: seq<T>, x: T, y: T) {
    key(x) < key(y) || (key(x) == key(y) && Before(s, x, y))
  }

  ghost predicate SortedStably<T>(key: T -> int, s: seq<T>, r: seq<T>) {
    forall i, j :: 0 <= i < j < |r| ==> Stably(key, s, r[i], r[j])
  }

  lemma {:induction false} InsertStably<T>(key: T -> int, s: seq<T>, x: T, r: seq<T>)
    requires SortedStably(key, s, r) && forall k :: 0 <= k < |r| ==> Before(s, r[k], x)
    ensures SortedStably(key, s, InsertBy(key, x, r))
  {
    if r != [] && key(r[|r| - 1]) > key(x) {
      var front, last := r[..|r| - 1], r[|r| - 1];
      InsertStably(key, s, x, front);
      InsertMultiset(key, x, front);
      var r' := InsertBy(key, x, front);
      forall g | 0 <= g < |r'|
        ensures Stably(key, s, r'[g], last)
      {
        assert r'[g] in multiset(r');
        if r'[g] != x {
          assert r'[g] in front;
          var k :| 0 <= k < |front| && front[k] == r'[g];
          assert Stably(key, s, r[k], r[|r| - 1]);
        }
      }
    } else if r != [] {
      forall g | 0 <= g < |r|
        ensures Stably(key, s, r[g], x)
      {
        assert g < |r| - 1 ==> Stably(key, s, r[g], r[|r| - 1]);
      }
    }
  }

  lemma {:induction false} SortIsStable<T(!new)>(key: T -> int, s: seq<T>)
    ensures SortedStably(key, s, SortBy(key, s))
  {
    if s != [] {
      var front, x := s[..|s| - 1], s[|s| - 1];
      var r := SortBy(key, front);
      SortIsStable(key, front);
      SortMembers(key, front);
      forall i, j | 0 <= i < j < |r|
        ensures Stably(key, s, r[i], r[j])
      {
        assert Stably(key, front, r[i], r[j]);
        if key(r[i]) == key(r[j]) {
          BeforeFront(s, r[i], r[j]);
        }
      }
      forall k | 0 <= k < |r|
        ensures Before(s, r[k], x)
      {
        assert r[k] in r;
        BeforeLast(s, r[k]);
      }
      InsertStably(key, s, x, r);
    }
  }

  // ----- Text in chunks -----------------------------------------------------------

  function Join(chunks: seq<string>): string {
    if chunks == [] then "" else chunks[0] + Join(chunks[1..])
  }

  // The last `n` characters.
  function Last(s: string, n: nat): string {
    if |s| <= n then s else s[|s| - n..]
  }

  ghost predicate IsSuffix(s: string, t: string) {
    |s| <= |t| && s == t[|t| - |s|..]
  }

  lemma {:induction false} JoinConcat(a: seq<string>, b: seq<string>)
    ensures Join(a + b) == Join(a) + Join(b)
  {
    if a == [] {
      assert a + b == b;
    } else {
      JoinConcat(a[1..], b);
      assert (a + b)[1..] == a[1..] + b && (a + b)[0] == a[0];
      assert a[0] + (Join(a[1..]) + Join(b)) == (a[0] + Join(a[1..])) + Join(b);
    }
  }

  lemma JoinOne(s: string)
    ensures Join([s]) == s
  {
    assert [s][1..] == [];
  }

  lemma JoinAppend(a: seq<string>, s: string)
    ensures Join(a + [s]) == Join(a) + s
  {
    JoinConcat(a, [s]);
    JoinOne(s);
  }

  // ----- Text cut at a separator ----------------------------------------------------

  function IndexOf(s: string, c: char): (i: nat)
    ensures i <= |s|
  {
    if s == "" || s[0] == c then 0 else 1 + IndexOf(s[1..], c)
  }

  // The parts between separators; a text without one is its only part.
  function Split(s: string, sep: char): seq<string>
    decreases |s|
  {
    var i := IndexOf(s, sep);
    if i == |s| then [s] else [s[..i]] + Split(s[i + 1..], sep)
  }

  function JoinBy(parts: seq<string>, sep: char): string {
    if parts == [] then ""
    else if |parts| == 1 then parts[0]
    else parts[0] + [sep] + JoinBy(parts[1..], sep)
  }

  lemma {:induction false} IndexOfIs(s: string, c: char, i: nat)
    requires i <= |s| && (forall k :: 0 <= k < i ==> s[k] != c) && (i < |s| ==> s[i] == c)
    ensures IndexOf(s, c) == i
  {
    if i > 0 {
      IndexOfIs(s[1..], c, i - 1);
    }
  }

  ghost predicate Lacks(s: string, c: char) {
    forall i :: 0 <= i < |s| ==> s[i] != c
  }

  // Parts that hold no separator come back.
  lemma {:induction false} SplitJoin(parts: seq<string>, sep: char)
    requires parts != [] && forall i :: 0 <= i < |parts| ==> Lacks(parts[i], sep)
    ensures Split(JoinBy(parts, sep), sep) == parts
  {
    var s := JoinBy(parts, sep);
    var w := parts[0];
    if |parts| == 1 {
      IndexOfIs(s, sep, |w|);
    } else {
      var rest := JoinBy(parts[1..], sep);
      assert s == w + [sep] + rest;
      IndexOfIs(s, sep, |w|);
      assert s[..|w|] == w && s[|w| + 1..] == rest;
      SplitJoin(parts[1..], sep);
    }
  }

  // ----- One character over and over --------------------------------------------------

  ghost function Repeat(c: char, n: nat): (r: string)
    ensures |r| == n && forall k :: 0 <= k < n ==> r[k] == c
  {
    if n == 0 then "" else [c] + Repeat(c, n - 1)
  }
}
