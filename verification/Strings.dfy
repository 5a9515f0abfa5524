/** The string operations that the modelled code relies on: the byte order in which it
    sorts, sorting itself, and trimming. */
module Strings {

  /** Lexicographic order, as `sort.Strings` and `<` on strings have it. */
  predicate Leq(a: string, b: string) {
    a == [] || (b != [] && (a[0] < b[0] || (a[0] == b[0] && Leq(a[1..], b[1..]))))
  }

  lemma LeqReflexive(a: string)
    ensures Leq(a, a)
  {
  }

  lemma {:induction false} LeqTotal(a: string, b: string)
    ensures Leq(a, b) || Leq(b, a)
  {
    if a != [] && b != [] { LeqTotal(a[1..], b[1..]); }
  }

  lemma {:induction false} LeqAntisymmetric(a: string, b: string)
    requires Leq(a, b) && Leq(b, a)
    ensures a == b
  {
    if a != [] && b != [] {
      LeqAntisymmetric(a[1..], b[1..]);
      assert a == [a[0]] + a[1..] && b == [b[0]] + b[1..];
    }
  }

  lemma {:induction false} LeqTransitive(a: string, b: string, c: string)
    requires Leq(a, b) && Leq(b, c)
    ensures Leq(a, c)
  {
    if a != [] && a[0] == b[0] && b[0] == c[0] {
      LeqTransitive(a[1..], b[1..], c[1..]);
    }
  }

  ghost predicate Sorted(s: seq<string>) {
    forall i, j :: 0 <= i < j < |s| ==> Leq(s[i], s[j])
  }

  function Insert(x: string, s: seq<string>): seq<string> {
    if s == [] || Leq(x, s[0]) then [x] + s else [s[0]] + Insert(x, s[1..])
  }

  lemma {:induction false} InsertMultiset(x: string, s: seq<string>)
    ensures multiset(Insert(x, s)) == multiset(s) + multiset{x}
  {
    if s != [] && !Leq(x, s[0]) {
      InsertMultiset(x, s[1..]);
      assert s == [s[0]] + s[1..];
    }
  }

  lemma {:induction false} InsertSorted(x: string, s: seq<string>)
    requires Sorted(s)
    ensures Sorted(Insert(x, s))
  {
    if s != [] && Leq(x, s[0]) {
      forall i | 0 < i < |s| ensures Leq(x, s[i]) { LeqTransitive(x, s[0], s[i]); }
    } else if s != [] {
      LeqTotal(x, s[0]);
      var r := Insert(x, s[1..]);
      InsertSorted(x, s[1..]);
      InsertMultiset(x, s[1..]);
      forall i | 0 <= i < |r| ensures Leq(s[0], r[i]) {
        assert r[i] in multiset(r);
        if r[i] != x { assert r[i] in multiset(s[1..]); }
      }
    }
  }

  function Sort(s: seq<string>): seq<string> {
    if s == [] then [] else Insert(s[0], Sort(s[1..]))
  }

  lemma {:induction false} SortIsSorted(s: seq<string>)
    ensures Sorted(Sort(s)) && multiset(Sort(s)) == multiset(s)
  {
    if s != [] {
      SortIsSorted(s[1..]);
      InsertSorted(s[0], Sort(s[1..]));
      InsertMultiset(s[0], Sort(s[1..]));
      assert s == [s[0]] + s[1..];
    }
  }

  lemma HeadIsLeast(s: seq<string>, x: string)
    requires Sorted(s) && x in multiset(s)
    ensures s != [] && Leq(s[0], x)
  {
    LeqReflexive(s[0]);
  }

  lemma TailMultiset(s: seq<string>)
    requires s != []
    ensures multiset(s[1..]) == multiset(s) - multiset{s[0]}
  {
    assert s == [s[0]] + s[1..];
  }

  /** A sorted sequence is determined by its elements. */
  lemma {:induction false} SortedUnique(s: seq<string>, t: seq<string>)
    requires Sorted(s) && Sorted(t) && multiset(s) == multiset(t)
    ensures s == t
  {
    if s == [] {
      assert |multiset(t)| == 0;
    } else {
      assert s[0] in multiset(s);
      HeadIsLeast(t, s[0]);
      assert t[0] in multiset(t);
      HeadIsLeast(s, t[0]);
      LeqAntisymmetric(s[0], t[0]);
      TailMultiset(s);
      TailMultiset(t);
      SortedUnique(s[1..], t[1..]);
    }
  }

  /** Sorting forgets the order of its input, and nothing else. */
  lemma SortDeterminesMultiset(s: seq<string>, t: seq<string>)
    ensures Sort(s) == Sort(t) <==> multiset(s) == multiset(t)
  {
    SortIsSorted(s);
    SortIsSorted(t);
    if multiset(s) == multiset(t) { SortedUnique(Sort(s), Sort(t)); }
  }

  ghost function Enumerate(s: set<string>): seq<string> {
    if s == {} then []
    else
      var x :| x in s;
      [x] + Enumerate(s - {x})
  }

  lemma {:induction false} EnumerateMultiset(s: set<string>)
    ensures multiset(Enumerate(s)) == multiset(s)
  {
    if s != {} {
      var x := Enumerate(s)[0];
      assert Enumerate(s) == [x] + Enumerate(s - {x});
      EnumerateMultiset(s - {x});
      assert s == (s - {x}) + {x};
    }
  }

  /** The elements of a set, in order. */
  ghost function SortedSet(s: set<string>): seq<string> {
    Sort(Enumerate(s))
  }

  lemma SortedSetIsSorted(s: set<string>)
    ensures Sorted(SortedSet(s)) && multiset(SortedSet(s)) == multiset(s)
  {
    SortIsSorted(Enumerate(s));
    EnumerateMultiset(s);
  }

  lemma InSortedSet(s: set<string>)
    ensures forall x :: x in SortedSet(s) <==> x in s
  {
    SortedSetIsSorted(s);
    ListedOnce(s, SortedSet(s));
  }

  lemma SortedPair(a: string, b: string)
    requires Leq(a, b) && a != b
    ensures SortedSet({a, b}) == [a, b]
  {
    SortedSetIsSorted({a, b});
    assert multiset({a, b}) == multiset([a, b]);
    SortedUnique(SortedSet({a, b}), [a, b]);
  }

  lemma SortedSingle(a: string)
    ensures SortedSet({a}) == [a]
  {
    SortedSetIsSorted({a});
    assert multiset({a}) == multiset([a]);
    SortedUnique(SortedSet({a}), [a]);
  }

  /** A listing of a set has no duplicates. */
  lemma ListedOnce(s: set<string>, r: seq<string>)
    requires multiset(r) == multiset(s)
    ensures forall x :: x in r <==> x in s
    ensures forall i, j :: 0 <= i < j < |r| ==> r[i] != r[j]
  {
    forall x ensures x in r <==> x in s { assert x in r <==> x in multiset(r); }
    forall i, j | 0 <= i < j < |r| ensures r[i] != r[j] {
      assert r == r[..j] + [r[j]] + r[j + 1..];
      assert r[i] == r[..j][i] && multiset(s)[r[j]] <= 1;
    }
  }

  /** How the code walks a map: collect the keys, then sort them. */
  method SortedKeys(s: set<string>) returns (r: seq<string>)
    ensures r == SortedSet(s)
    ensures forall x :: x in r <==> x in s
    ensures forall i, j :: 0 <= i < j < |r| ==> r[i] != r[j]
  {
    r := [];
    var rest := s;
    while rest != {}
      invariant Sorted(r) && rest <= s && multiset(r) == multiset(s - rest)
      decreases rest
    {
      var x :| x in rest;
      assert s - (rest - {x}) == (s - rest) + {x};
      InsertSorted(x, r);
      InsertMultiset(x, r);
      r := Insert(x, r);
      rest := rest - {x};
    }
    assert s - rest == s;
    SortedSetIsSorted(s);
    SortedUnique(r, SortedSet(s));
    ListedOnce(s, r);
  }

  predicate IsSpace(c: char) {
    || c in {' ', '\t', '\n', '\r', '\U{0B}', '\U{0C}', '\U{85}', '\U{A0}', '\U{1680}'}
    || '\U{2000}' <= c <= '\U{200A}'
    || c in {'\U{2028}', '\U{2029}', '\U{202F}', '\U{205F}', '\U{3000}'}
  }

  /** Leading and trailing white space removed. */
  function Trim(s: string): string {
    if s == [] then []
    else if IsSpace(s[0]) then Trim(s[1..])
    else if IsSpace(s[|s| - 1]) then Trim(s[..|s| - 1])
    else s
  }
}
