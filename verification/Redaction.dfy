/** Rewriting a text from left to right, putting a placeholder in place of some stretches.
    Both passes of the scrubber are of this kind. */
module Redaction {

  const REDACTED := "[REDACTED]"
  const INNER := "REDACTED"

  /** How many characters to take out at the head of the rest, given what came before;
      zero keeps the next character. */
  type Cut = (string, string) -> nat

  function Redact(cut: Cut, before: string, s: string): string
    decreases |s|
  {
    if s == "" then ""
    else
      var n := cut(before, s);
      if 0 < n <= |s| then REDACTED + Redact(cut, before + s[..n], s[n..])
      else [s[0]] + Redact(cut, before + [s[0]], s[1..])
  }

  predicate OccursAt(x: string, s: string, i: nat) {
    i + |x| <= |s| && s[i..i + |x|] == x
  }

  ghost predicate Occurs(x: string, s: string) {
    exists i: nat :: OccursAt(x, s, i)
  }

  ghost predicate BracketFree(x: string) {
    x != "" && '[' !in x && ']' !in x
  }

  // ----- occurrences in pieces -----

  lemma PrefixOccurs(x: string, s: string)
    requires x <= s
    ensures Occurs(x, s)
  {
    assert OccursAt(x, s, 0);
  }

  lemma OccursLater(x: string, a: string, s: string)
    requires Occurs(x, s)
    ensures Occurs(x, a + s)
  {
    var i: nat :| OccursAt(x, s, i);
    assert (a + s)[|a| + i..|a| + i + |x|] == s[i..i + |x|];
    assert OccursAt(x, a + s, |a| + i);
  }

  /** An occurrence in a longer text starts at its first character or lies in the rest. */
  lemma OccursInCons(x: string, c: char, s: string)
    requires Occurs(x, [c] + s)
    ensures x <= [c] + s || Occurs(x, s)
  {
    var i: nat :| OccursAt(x, [c] + s, i);
    if i > 0 {
      assert s[i - 1..i - 1 + |x|] == ([c] + s)[i..i + |x|];
      assert OccursAt(x, s, i - 1);
    }
  }

  predicate Comparable(a: string, b: string) {
    a <= b || b <= a
  }

  /** The text and the placeholder cannot overlap: neither occurs in the other, and no end of
      one is a beginning of the other. */
  ghost predicate Apart(x: string) {
    && x != ""
    && (forall i :: 0 <= i < |x| ==> !Comparable(x[i..], REDACTED))
    && (forall i :: 0 <= i < |REDACTED| ==> !Comparable(x, REDACTED[i..]))
  }

  /** No end of the text begins like the placeholder, and the placeholder is not in it. */
  ghost predicate EndsApart(x: string) {
    forall i :: 0 <= i < |x| ==> !Comparable(x[i..], REDACTED)
  }

  lemma EndsApartTail(x: string)
    requires x != "" && EndsApart(x)
    ensures EndsApart(x[1..])
  {
    forall i | 0 <= i < |x[1..]| ensures !Comparable(x[1..][i..], REDACTED) {
      assert x[1..][i..] == x[i + 1..];
    }
  }

  /** What occurs from a place inside the placeholder on is comparable with its rest. */
  lemma InsideIsComparable(x: string, s: string, i: nat)
    requires i < 10 && OccursAt(x, REDACTED + s, i)
    ensures Comparable(x, REDACTED[i..])
  {
    var t, rest := REDACTED + s, REDACTED[i..];
    assert t[i..] == rest + s && x == t[i..][..|x|];
    if |x| <= |rest| {
      assert x == rest[..|x|];
    } else {
      assert rest == x[..|rest|];
    }
  }

  /** An occurrence that is apart from the placeholder lies behind it. */
  lemma OccursPastPlaceholder(x: string, s: string)
    requires Apart(x) && Occurs(x, REDACTED + s)
    ensures Occurs(x, s)
  {
    var t := REDACTED + s;
    var i: nat :| OccursAt(x, t, i);
    if i < 10 {
      InsideIsComparable(x, s, i);
    } else {
      assert s[i - 10..i - 10 + |x|] == t[i..i + |x|];
      assert OccursAt(x, s, i - 10);
    }
  }

  /** For texts without brackets it is enough not to be part of the placeholder. */
  lemma BracketFreeIsApart(x: string)
    requires BracketFree(x)
    ensures Apart(x) <==> !Occurs(x, INNER)
  {
    forall i | 0 <= i < |x| ensures !Comparable(x[i..], REDACTED) {
      assert x[i..][0] == x[i] && x[i] in x && REDACTED[0] == '[';
    }
    forall i | 0 <= i < 10 && Comparable(x, REDACTED[i..]) ensures Occurs(x, INNER) { ComparedWithInner(x, i); }
    if Occurs(x, INNER) {
      var i: nat :| OccursAt(x, INNER, i);
      assert forall k :: 0 <= k < 8 ==> INNER[k] == REDACTED[1 + k];
      assert x == REDACTED[i + 1..][..|x|];
      assert Comparable(x, REDACTED[i + 1..]);
    }
  }

  /** What lies between the ends of a bracketed text occurs in its inner part. */
  lemma OccursInside(r: string, inner: string, x: string, i: nat)
    requires r == ['['] + inner + [']'] && 0 < i && i + |x| < |r| && x == r[i..i + |x|]
    ensures Occurs(x, inner)
  {
    assert inner[i - 1..i - 1 + |x|] == r[i..i + |x|];
    assert OccursAt(x, inner, i - 1);
  }

  lemma ComparedWithInner(x: string, i: nat)
    requires x != "" && i < 10 && Comparable(x, REDACTED[i..])
    ensures '[' in x || ']' in x || Occurs(x, INNER)
  {
    var rest := REDACTED[i..];
    if |rest| <= |x| {
      assert x[|rest| - 1] == rest[|rest| - 1] == REDACTED[9] == ']';
    } else if i == 0 {
      assert x[0] == rest[0] == REDACTED[0] == '[';
    } else {
      assert x == rest[..|x|] == REDACTED[i..i + |x|];
      assert REDACTED == ['['] + INNER + [']'];
      OccursInside(REDACTED, INNER, x, i);
    }
  }

  // ----- what a pass can and cannot bring about -----

  /** A beginning of the result that no placeholder can lie in was there already. */
  lemma {:induction false} PrefixIsKept(cut: Cut, before: string, s: string, x: string)
    requires EndsApart(x) && x <= Redact(cut, before, s)
    ensures x <= s
    decreases |s|
  {
    if s != "" && x != "" {
      var n := cut(before, s);
      if 0 < n <= |s| {
        assert x[0..] == x && !Comparable(x[0..], REDACTED);
        StartsWithPlaceholder(x, Redact(cut, before + s[..n], s[n..]));
      } else {
        var rest := Redact(cut, before + [s[0]], s[1..]);
        assert x[0] == ([s[0]] + rest)[0] && x[1..] <= rest;
        EndsApartTail(x);
        PrefixIsKept(cut, before + [s[0]], s[1..], x[1..]);
        assert x == [x[0]] + x[1..];
      }
    }
  }

  lemma StartsWithPlaceholder(x: string, rest: string)
    requires x <= REDACTED + rest
    ensures Comparable(x, REDACTED)
  {
    if |x| <= 10 {
      assert x == REDACTED[..|x|];
    } else {
      assert REDACTED == x[..10];
    }
  }

  /** No pass brings about a text that is apart from the placeholder. */
  lemma {:induction false} NothingNew(cut: Cut, before: string, s: string, x: string)
    requires Apart(x) && Occurs(x, Redact(cut, before, s))
    ensures Occurs(x, s)
    decreases |s|
  {
    if s == "" {
      assert |x| == 0;
    } else {
      var n := cut(before, s);
      if 0 < n <= |s| {
        OccursPastPlaceholder(x, Redact(cut, before + s[..n], s[n..]));
        NothingNew(cut, before + s[..n], s[n..], x);
        OccursLater(x, s[..n], s[n..]);
        assert s[..n] + s[n..] == s;
      } else {
        var rest := Redact(cut, before + [s[0]], s[1..]);
        OccursInCons(x, s[0], rest);
        if x <= [s[0]] + rest {
          PrefixIsKept(cut, before, s, x);
          PrefixOccurs(x, s);
        } else {
          NothingNew(cut, before + [s[0]], s[1..], x);
          OccursLater(x, [s[0]], s[1..]);
          assert [s[0]] + s[1..] == s;
        }
      }
    }
  }

  /** A pass leaves the text alone or puts in a placeholder. */
  lemma {:induction false} UnchangedOrMarked(cut: Cut, before: string, s: string)
    ensures Redact(cut, before, s) == s || Occurs(REDACTED, Redact(cut, before, s))
    decreases |s|
  {
    if s != "" {
      var n := cut(before, s);
      if 0 < n <= |s| {
        PrefixOccurs(REDACTED, REDACTED + Redact(cut, before + s[..n], s[n..]));
      } else {
        UnchangedOrMarked(cut, before + [s[0]], s[1..]);
        if Redact(cut, before + [s[0]], s[1..]) != s[1..] {
          OccursLater(REDACTED, [s[0]], Redact(cut, before + [s[0]], s[1..]));
        }
      }
    }
  }

  /** Nowhere in the text is anything to be taken out. */
  ghost predicate Untouched(cut: Cut, before: string, s: string) {
    forall i :: 0 <= i < |s| ==> cut(before + s[..i], s[i..]) == 0
  }

  /** A pass that cuts within the text, and never at a bracket, leaves the text alone exactly
      when it has nothing to take out. */
  lemma {:induction false} UnchangedExactlyWhen(cut: Cut, before: string, s: string)
    requires forall b, t :: cut(b, t) > 0 ==> cut(b, t) <= |t| && t[0] != '['
    ensures Redact(cut, before, s) == s <==> Untouched(cut, before, s)
    decreases |s|
  {
    if s != "" {
      assert before + s[..0] == before && s[0..] == s;
      if cut(before, s) > 0 {
        assert Redact(cut, before, s)[0] == '[';
      } else {
        UnchangedExactlyWhen(cut, before + [s[0]], s[1..]);
        UntouchedCons(cut, before, s);
        assert Redact(cut, before, s)[1..] == Redact(cut, before + [s[0]], s[1..]);
      }
    }
  }

  lemma UntouchedCons(cut: Cut, before: string, s: string)
    requires s != ""
    ensures Untouched(cut, before, s) <==> cut(before, s) == 0 && Untouched(cut, before + [s[0]], s[1..])
  {
    assert before + s[..0] == before && s[0..] == s;
    forall i | 0 <= i < |s[1..]|
      ensures before + [s[0]] + s[1..][..i] == before + s[..i + 1] && s[1..][i..] == s[i + 1..]
    {
      assert [s[0]] + s[1..][..i] == s[..i + 1];
    }
    forall i | 0 < i < |s| ensures before + s[..i] == before + [s[0]] + s[1..][..i - 1] && s[i..] == s[1..][i - 1..] {
      assert [s[0]] + s[1..][..i - 1] == s[..i];
    }
  }
}
