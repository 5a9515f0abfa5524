/** Which secrets can come out of the replacement that is meant to remove them, brackets or
    not: exactly those that can overlap a placeholder next to what is left of the text. */
module SecretOverlap {
  import opened Redaction
  import opened Scrubber

  /** The replacement pass, from any point of a text on. */
  function Replaced(x: string, s: string): string {
    Redact(CutSecret(x), "", s)
  }

  lemma {:induction false} BeforeDoesNotMatter(x: string, a: string, b: string, s: string)
    ensures Redact(CutSecret(x), a, s) == Redact(CutSecret(x), b, s)
    decreases |s|
  {
    if s != "" {
      var n := CutSecret(x)(a, s);
      assert n == CutSecret(x)(b, s);
      if 0 < n <= |s| {
        BeforeDoesNotMatter(x, a + s[..n], b + s[..n], s[n..]);
      } else {
        BeforeDoesNotMatter(x, a + [s[0]], b + [s[0]], s[1..]);
      }
    }
  }

  lemma ReplacedHead(x: string, s: string)
    requires x != "" && x <= s
    ensures Replaced(x, s) == REDACTED + Replaced(x, s[|x|..])
  {
    BeforeDoesNotMatter(x, "" + s[..|x|], "", s[|x|..]);
  }

  lemma ReplacedNext(x: string, s: string)
    requires s != "" && !(x <= s)
    ensures Replaced(x, s) == [s[0]] + Replaced(x, s[1..])
  {
    BeforeDoesNotMatter(x, "" + [s[0]], "", s[1..]);
  }

  /** Occurrences behind a text are those in what follows it. */
  lemma OccursShift(x: string, a: string, s: string, i: nat)
    ensures OccursAt(x, a + s, |a| + i) <==> OccursAt(x, s, i)
  {
    if i + |x| <= |s| { assert (a + s)[|a| + i..|a| + i + |x|] == s[i..i + |x|]; }
  }

  /** Occurrences within a text are occurrences in every longer one. */
  lemma OccursLonger(x: string, s: string, a: string, i: nat)
    requires i + |x| <= |s|
    ensures OccursAt(x, s + a, i) <==> OccursAt(x, s, i)
  {
    assert (s + a)[i..i + |x|] == s[i..i + |x|];
  }

  /** The text is found at n and not before. */
  ghost predicate FirstFound(x: string, s: string, n: nat) {
    OccursAt(x, s, n) && forall j: nat :: j < n ==> !OccursAt(x, s, j)
  }

  lemma FoundFrom(x: string, s: string, n: nat, i: nat)
    requires FirstFound(x, s, n) && i <= n
    ensures FirstFound(x, s[i..], n - i)
  {
    assert s == s[..i] + s[i..];
    OccursShift(x, s[..i], s[i..], n - i);
    forall j: nat | j < n - i ensures !OccursAt(x, s[i..], j) { OccursShift(x, s[..i], s[i..], j); }
  }

  /** The pass leaves what comes before the first occurrence, replaces that, and goes on. */
  lemma {:induction false} ReplacesFirst(x: string, s: string, n: nat)
    requires x != "" && FirstFound(x, s, n)
    ensures Replaced(x, s) == s[..n] + REDACTED + Replaced(x, s[n + |x|..])
  {
    if n == 0 {
      ReplacedHead(x, s);
      assert s[..0] + REDACTED == REDACTED;
    } else {
      assert !OccursAt(x, s, 0);
      FoundFrom(x, s, n, 1);
      ReplacesFirst(x, s[1..], n - 1);
      ReplacedNext(x, s);
      assert s[1..][n - 1 + |x|..] == s[n + |x|..];
      Behind([s[0]], s[1..][..n - 1], REDACTED, Replaced(x, s[n + |x|..]));
      assert [s[0]] + s[1..][..n - 1] == s[..n];
    }
  }

  lemma Behind(a: string, b: string, c: string, d: string)
    ensures a + (b + c + d) == (a + b) + c + d
  {
  }

  lemma {:induction false} FindFirst(x: string, s: string, i: nat) returns (n: nat)
    requires OccursAt(x, s, i)
    ensures n <= i && FirstFound(x, s, n)
  {
    if j: nat :| j < i && OccursAt(x, s, j) {
      n := FindFirst(x, s, j);
    } else {
      n := i;
    }
  }

  // ----- the four ways to overlap -----

  ghost predicate InPlaceholder(x: string) {
    Occurs(x, REDACTED)
  }

  ghost predicate HoldsPlaceholder(x: string) {
    Occurs(REDACTED, x)
  }

  /** The secret begins like an end of the placeholder. */
  ghost predicate StartsInPlaceholder(x: string) {
    exists m :: 0 < m < 10 && REDACTED[m..] <= x
  }

  /** The rest of the secret from n on begins the placeholder, and behind its own first n
      characters the secret is not found earlier than it should. */
  ghost predicate EndsInPlaceholder(x: string, n: nat) {
    0 < n < |x| && x[n..] <= REDACTED && FirstFound(x, x[..n] + x, n)
  }

  ghost predicate Overlaps(x: string) {
    InPlaceholder(x) || HoldsPlaceholder(x) || StartsInPlaceholder(x) || exists n: nat :: EndsInPlaceholder(x, n)
  }

  ghost predicate Leaks(x: string) {
    exists text :: Occurs(x, Replaced(x, text))
  }

  // ----- each of them leaks -----

  lemma LeftAlone(x: string, s: string)
    requires |s| < |x|
    ensures Replaced(x, s) == s
  {
    NotInShorter(x, "", s);
  }

  /** The secret behind p and before a shorter q. */
  lemma ReplacedBetween(x: string, p: string, q: string)
    requires x != "" && |q| < |x| && FirstFound(x, p + x + q, |p|)
    ensures Replaced(x, p + x + q) == p + REDACTED + q
  {
    var s := p + x + q;
    ReplacesFirst(x, s, |p|);
    assert s[..|p|] == p && s[|p| + |x|..] == q;
    LeftAlone(x, q);
  }

  lemma InLeaks(x: string)
    requires x != "" && InPlaceholder(x)
    ensures Leaks(x)
  {
    SelfIsReplaced(x);
    assert Occurs(x, Replaced(x, x));
  }

  lemma StartLeaks(x: string)
    requires x != "" && StartsInPlaceholder(x)
    ensures Leaks(x)
  {
    var m :| 0 < m < 10 && REDACTED[m..] <= x;
    CompletedBehind(REDACTED, x, m);
    StartLeaksAt(x, x[10 - m..], m);
  }

  lemma StartLeaksAt(x: string, q: string, m: nat)
    requires x != "" && |q| < |x| && OccursAt(x, REDACTED + q, m)
    ensures Leaks(x)
  {
    assert "" + x + q == x + q && "" + REDACTED + q == REDACTED + q;
    OccursLonger(x, x, q, 0);
    ReplacedBetween(x, "", q);
    assert Occurs(x, Replaced(x, "" + x + q));
  }

  /** A text that begins like an end of r is completed by what it has besides. */
  lemma CompletedBehind(r: string, x: string, m: nat)
    requires m <= |r| && r[m..] <= x
    ensures OccursAt(x, r + x[|r| - m..], m)
  {
    var q := x[|r| - m..];
    assert x == r[m..] + q && (r + q)[m..m + |x|] == x;
  }

  lemma HoldsLeaks(x: string)
    requires HoldsPlaceholder(x)
    ensures Leaks(x)
  {
    var i: nat :| OccursAt(REDACTED, x, i);
    var n := FindFirst(REDACTED, x, i);
    var u, v := x[..n], x[n + 10..];
    assert x == u + REDACTED + v;
    NotFoundEarlier(x, n);
    ReplacedBetween(x, u, v);
    assert OccursAt(x, u + REDACTED + v, 0);
    assert Occurs(x, Replaced(x, u + x + v));
  }

  /** What the secret holds at n, it also holds at every place where it is found too early. */
  lemma HeldEarlier(r: string, x: string, n: nat, j: nat)
    requires OccursAt(r, x, n) && j < n && OccursAt(x, x[..n] + x + x[n + |r|..], j)
    ensures OccursAt(r, x, j)
  {
    var s := x[..n] + x + x[n + |r|..];
    assert forall k :: 0 <= k < |x| ==> s[j + k] == x[k];
    assert forall k :: 0 <= k < |x| ==> s[n + k] == x[k];
    assert forall k :: 0 <= k < |r| ==> x[n + k] == r[k];
    forall k | 0 <= k < |r| ensures x[j + k] == r[k] {
      assert x[j + k] == s[n + (j + k)] && x[n + k] == s[j + (n + k)];
    }
    assert x[j..j + |r|] == r;
  }

  lemma NotFoundEarlier(x: string, n: nat)
    requires FirstFound(REDACTED, x, n)
    ensures FirstFound(x, x[..n] + x + x[n + 10..], n)
  {
    var s := x[..n] + x + x[n + 10..];
    assert s[n..n + |x|] == x;
    forall j: nat | j < n ensures !OccursAt(x, s, j) {
      if OccursAt(x, s, j) { HeldEarlier(REDACTED, x, n, j); }
    }
  }

  lemma EndLeaks(x: string, n: nat)
    requires EndsInPlaceholder(x, n)
    ensures Leaks(x)
  {
    var w := x[..n];
    assert w + x + "" == w + x;
    ReplacedBetween(x, w, "");
    var out := w + REDACTED + "";
    assert out == w + REDACTED && x == w + x[n..] && x[n..] == REDACTED[..|x| - n];
    assert out[0..0 + |x|] == x;
    assert OccursAt(x, out, 0);
    assert Occurs(x, Replaced(x, w + x + ""));
  }

  // ----- nothing else does -----

  lemma ComparedAtStart(x: string, rest: string, i: nat)
    requires x != "" && i < 10 && OccursAt(x, REDACTED + rest, i)
    ensures Overlaps(x)
  {
    InsideIsComparable(x, rest, i);
    if x <= REDACTED[i..] {
      assert REDACTED[i..i + |x|] == x;
      assert OccursAt(x, REDACTED, i);
    } else if i == 0 {
      assert REDACTED[0..] == REDACTED;
      PrefixOccurs(REDACTED, x);
    }
  }

  lemma EndsOverlaps(x: string, s: string, n: nat)
    requires FirstFound(x, s, n) && n < |x| && n > 0
    requires x <= s[..n] + REDACTED + Replaced(x, s[n + |x|..])
    ensures Overlaps(x)
  {
    var rest := Replaced(x, s[n + |x|..]);
    var out := s[..n] + REDACTED + rest;
    assert x[..n] == out[..n] == s[..n];
    assert out[n..] == REDACTED + rest && x[n..] <= out[n..];
    StartsWithPlaceholder(x[n..], rest);
    if REDACTED <= x[n..] {
      assert x[n..n + 10] == REDACTED;
      assert OccursAt(REDACTED, x, n);
    } else {
      SameStart(x, s, n);
      assert EndsInPlaceholder(x, n);
    }
  }

  lemma SameStart(x: string, s: string, n: nat)
    requires FirstFound(x, s, n) && n < |x| && x[..n] == s[..n]
    ensures FirstFound(x, x[..n] + x, n)
  {
    var t := x[..n] + x;
    assert s[..n + |x|] == s[..n] + s[n..n + |x|] == t;
    assert s == t + s[n + |x|..];
    assert t[n..n + |x|] == x;
    forall j: nat | j < n ensures !OccursAt(x, t, j) { OccursLonger(x, t, s[n + |x|..], j); }
  }

  lemma {:induction false} OnlyOverlapsLeak(x: string, s: string, i: nat)
    requires x != "" && OccursAt(x, Replaced(x, s), i)
    ensures Overlaps(x)
    decreases |s|
  {
    if Occurs(x, s) {
      var k: nat :| OccursAt(x, s, k);
      var n := FindFirst(x, s, k);
      ReplacesFirst(x, s, n);
      var head, rest := s[..n] + REDACTED, Replaced(x, s[n + |x|..]);
      if i >= |head| {
        OccursShift(x, head, rest, i - |head|);
        OnlyOverlapsLeak(x, s[n + |x|..], i - |head|);
      } else {
        AtFirstPlaceholder(x, s, n, i, rest);
      }
    } else {
      AbsentSecretChangesNothing(x, "", s);
    }
  }

  lemma AtFirstPlaceholder(x: string, s: string, n: nat, i: nat, rest: string)
    requires x != "" && FirstFound(x, s, n) && i < n + 10 && rest == Replaced(x, s[n + |x|..])
    requires OccursAt(x, s[..n] + REDACTED + rest, i)
    ensures Overlaps(x)
  {
    if i >= n {
      assert s[..n] + REDACTED + rest == s[..n] + (REDACTED + rest);
      OccursShift(x, s[..n], REDACTED + rest, i - n);
      ComparedAtStart(x, rest, i - n);
    } else {
      BeforeTheFirst(x, s, n, i, rest);
    }
  }

  /** An occurrence that begins before the first placeholder reaches into it. */
  lemma BeforeTheFirst(x: string, s: string, n: nat, i: nat, rest: string)
    requires x != "" && FirstFound(x, s, n) && i < n && rest == Replaced(x, s[n + |x|..])
    requires OccursAt(x, s[..n] + REDACTED + rest, i)
    ensures Overlaps(x)
  {
    var out, t, m := s[..n] + REDACTED + rest, s[i..], n - i;
    assert out == s[..n] + (REDACTED + rest);
    ReachesIn(x, s, n, i, REDACTED + rest);
    FoundFrom(x, s, n, i);
    assert t[m + |x|..] == s[n + |x|..] && t[..m] == s[i..n];
    assert t[..m] + REDACTED + rest == out[i..];
    assert x <= out[i..];
    EndsOverlaps(x, t, m);
  }

  lemma ReachesIn(x: string, s: string, n: nat, i: nat, behind: string)
    requires FirstFound(x, s, n) && i < n && OccursAt(x, s[..n] + behind, i)
    ensures n < i + |x|
  {
    assert s == s[..n] + s[n..];
    if i + |x| <= n {
      OccursLonger(x, s[..n], behind, i);
      OccursLonger(x, s[..n], s[n..], i);
    }
  }

  /** For every secret: some text still contains it after its own replacement if and only if it
      overlaps the placeholder in one of the four ways. */
  lemma LeaksExactlyWhen(x: string)
    requires x != ""
    ensures Leaks(x) <==> Overlaps(x)
  {
    if Leaks(x) {
      var text :| Occurs(x, Replaced(x, text));
      var i: nat :| OccursAt(x, Replaced(x, text), i);
      OnlyOverlapsLeak(x, text, i);
    }
    if InPlaceholder(x) { InLeaks(x); }
    if HoldsPlaceholder(x) { HoldsLeaks(x); }
    if StartsInPlaceholder(x) { StartLeaks(x); }
    if n: nat :| EndsInPlaceholder(x, n) { EndLeaks(x, n); }
  }

  /** A secret that ends like the placeholder begins, for instance: of two in a row that share
      their middle, the second is replaced and the first comes back. */
  lemma TrailingBracketLeaks()
    ensures Occurs("abcdef[", Replaced("abcdef[", "abcdefabcdef["))
  {
    var x, w := "abcdef[", "abcdef";
    assert x[..6] == w && x[6..] == "[" && "[" <= REDACTED;
    forall j: nat | j < 6 ensures !OccursAt(x, w + x, j) {
      assert (w + x)[j..j + 7][6] == (w + x)[j + 6] == x[j] != x[6];
    }
    assert (w + x)[6..13] == x && FirstFound(x, w + x, 6);
    assert w + x + "" == w + x;
    ReplacedBetween(x, w, "");
    var out := w + REDACTED + "";
    assert out[0..7] == x;
    assert OccursAt(x, out, 0) && w + x == "abcdefabcdef[";
  }
}
