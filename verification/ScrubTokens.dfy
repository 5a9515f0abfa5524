/** Which secrets a scrubber keeps and what its second pass does to a token, in plain terms. */
module ScrubTokens {
  import opened TextLemmas
  import opened Redaction
  import opened Scrubber

  // ----- secrets -----

  /** A scrubber removes the given values, less those of under six bytes, common words and plain
      numbers: each once, longer ones first. */
  lemma KeptExactlyWhen(rules: Rules, values: seq<string>, kept: seq<string>, v: string)
    requires IsKeptList(rules, values, kept)
    ensures v in kept <==>
      && v in values && |v| >= 6 && (exists i :: 0 <= i < |v| && (v[i] < '0' || '9' < v[i]))
      && rules.lower(v) !in {"true", "false", "null", "none", "nil", "password", "secret", "token", "changeme", "admin"}
    ensures forall i, j :: 0 <= i < j < |kept| ==> kept[i] != kept[j] && |kept[i]| >= |kept[j]|
    ensures forall i, j :: 0 <= i < j < |kept| && |kept[i]| == |kept[j]| ==> ComesFirst(values, kept[i], kept[j])
  {
    forall i, j | 0 <= i < j < |kept| && |kept[i]| == |kept[j]| ensures ComesFirst(values, kept[i], kept[j]) {
      assert kept[i] in kept && kept[j] in kept;
      FirstAtFinds(values, kept[i]);
      FirstAtFinds(values, kept[j]);
      assert kept[j] !in values[..FirstAt(values, kept[i])];
    }
  }

  /** The one is found before the other is found at all. */
  ghost predicate ComesFirst(values: seq<string>, v: string, w: string) {
    exists p :: 0 <= p < |values| && values[p] == v && w !in values[..p]
  }

  lemma {:induction false} FirstAtFinds(values: seq<string>, v: string)
    requires v in values
    ensures FirstAt(values, v) < |values| && values[FirstAt(values, v)] == v && v !in values[..FirstAt(values, v)]
  {
    if values[0] != v {
      FirstAtFinds(values[1..], v);
      var n := FirstAt(values[1..], v);
      assert values[..n + 1] == [values[0]] + values[1..][..n];
    }
  }

  // ----- tokens -----

  /** Letters, digits and the signs of base64 and of its URL-safe form. */
  predicate InToken(c: char) {
    'a' <= c <= 'z' || 'A' <= c <= 'Z' || '0' <= c <= '9' || c == '+' || c == '/' || c == '=' || c == '_' || c == '-'
  }

  predicate AllInToken(s: string) {
    forall i :: 0 <= i < |s| ==> InToken(s[i])
  }

  predicate BeginsOutside(s: string) {
    s == "" || !InToken(s[0])
  }

  predicate EndsOutside(s: string) {
    s == "" || !InToken(s[|s| - 1])
  }

  lemma EndsLikeTail(b: string, t: string)
    requires t != ""
    ensures EndsInToken(b + t) <==> InToken(t[|t| - 1])
  {
    assert (b + t)[|b + t| - 1] == t[|t| - 1];
  }

  /** Of what comes before, only its last character matters. */
  lemma {:induction false} SameBefore(rules: Rules, b: string, b': string, s: string)
    requires EndsInToken(b) == EndsInToken(b')
    ensures Redact(CutToken(rules), b, s) == Redact(CutToken(rules), b', s)
    decreases |s|
  {
    var n := CutToken(rules)(b, s);
    if s != "" && 0 < n <= |s| {
      EndsLikeTail(b, s[..n]);
      EndsLikeTail(b', s[..n]);
      SameBefore(rules, b + s[..n], b' + s[..n], s[n..]);
    } else if s != "" {
      EndsLikeTail(b, [s[0]]);
      EndsLikeTail(b', [s[0]]);
      SameBefore(rules, b + [s[0]], b' + [s[0]], s[1..]);
    }
  }

  lemma {:induction false} RunStops(u: string, t: string)
    requires u != "" && EndsOutside(u)
    ensures Run(u + t) == Run(u) < |u|
  {
    if InToken(u[0]) {
      assert |u| > 1 && (u + t)[1..] == u[1..] + t && u[1..][|u| - 2] == u[|u| - 1];
      RunStops(u[1..], t);
    } else {
      assert (u + t)[0] == u[0];
    }
  }

  lemma Rejoin(b: string, u: string, k: nat)
    requires k <= |u|
    ensures b + u[..k] + u[k..] == b + u
  {
  }

  lemma SplitAt(u: string, t: string, k: nat)
    requires k <= |u|
    ensures (u + t)[..k] == u[..k] && (u + t)[k..] == u[k..] + t
  {
  }

  /** The first k characters are left as they are or replaced, whatever follows. */
  lemma StepApart(rules: Rules, b: string, u: string, t: string) returns (k: nat, head: string)
    requires u != "" && EndsOutside(u)
    ensures 0 < k <= |u| && (u + t)[k..] == u[k..] + t && EndsOutside(u[k..])
    ensures Redact(CutToken(rules), b, u) == head + Redact(CutToken(rules), b + u[..k], u[k..])
    ensures Redact(CutToken(rules), b, u + t) == head + Redact(CutToken(rules), b + u[..k], u[k..] + t)
  {
    RunStops(u, t);
    SplitAt(u, t, Run(u));
    assert (u + t)[0] == u[0];
    var cut := CutToken(rules)(b, u);
    assert cut == CutToken(rules)(b, u + t) && cut < |u|;
    k, head := if cut > 0 then cut else 1, if cut > 0 then REDACTED else [u[0]];
    SplitAt(u, t, k);
    assert u[..1] == [u[0]];
  }

  /** A text that ends outside a token is scrubbed apart from what follows it. */
  lemma {:induction false} ScrubbedApart(rules: Rules, b: string, u: string, t: string)
    requires EndsOutside(u)
    ensures Redact(CutToken(rules), b, u + t) == Redact(CutToken(rules), b, u) + Redact(CutToken(rules), b + u, t)
    decreases |u|
  {
    if u == "" {
      assert u + t == t && b + u == b;
    } else {
      var k, head := StepApart(rules, b, u, t);
      ScrubbedApart(rules, b + u[..k], u[k..], t);
      Rejoin(b, u, k);
      Assoc(head, Redact(CutToken(rules), b + u[..k], u[k..]), Redact(CutToken(rules), b + u, t));
    }
  }

  lemma {:induction false} RunOfToken(tok: string, b: string)
    requires AllInToken(tok) && BeginsOutside(b)
    ensures Run(tok + b) == |tok|
  {
    if tok == "" {
      assert tok + b == b;
    } else {
      assert (tok + b)[1..] == tok[1..] + b && (tok + b)[0] == tok[0];
      RunOfToken(tok[1..], b);
    }
  }

  /** Behind the beginning of a token nothing more is looked at. */
  lemma {:induction false} RestOfToken(rules: Rules, before: string, w: string, b: string)
    requires EndsInToken(before) && AllInToken(w)
    ensures Redact(CutToken(rules), before, w + b) == w + Redact(CutToken(rules), before + w, b)
    decreases |w|
  {
    if w == "" {
      assert w + b == b && before + w == before;
    } else {
      assert (w + b)[0] == w[0] && (w + b)[1..] == w[1..] + b && before + [w[0]] + w[1..] == before + w;
      EndsLikeTail(before, [w[0]]);
      RestOfToken(rules, before + [w[0]], w[1..], b);
      assert w == [w[0]] + w[1..];
    }
  }

  /** What follows a token is scrubbed as if it stood alone. */
  lemma BehindToken(rules: Rules, before: string, b: string)
    requires BeginsOutside(b)
    ensures Redact(CutToken(rules), before, b) == Redact(CutToken(rules), "", b)
  {
    if b != "" {
      assert Run(b) == 0;
      EndsLikeTail(before, [b[0]]);
      EndsLikeTail("", [b[0]]);
      SameBefore(rules, before + [b[0]], "" + [b[0]], b[1..]);
    }
  }

  lemma TokenCut(rules: Rules, a: string, tok: string, b: string)
    requires EndsOutside(a) && BeginsOutside(b) && AllInToken(tok) && |tok| >= 20 && rules.suspicious(tok)
    ensures Redact(CutToken(rules), a, tok + b) == REDACTED + ScrubHighEntropy(rules, b)
  {
    RunOfToken(tok, b);
    assert (tok + b)[..|tok|] == tok && (tok + b)[|tok|..] == b && !EndsInToken(a);
    BehindToken(rules, a + tok, b);
  }

  lemma HeadOf(tok: string, b: string)
    requires tok != ""
    ensures tok == [tok[0]] + tok[1..] && (tok + b)[0] == tok[0] && (tok + b)[1..] == tok[1..] + b
    ensures (tok + b)[..|tok|] == tok
  {
  }

  lemma TokenKept(rules: Rules, a: string, tok: string, b: string)
    requires EndsOutside(a) && BeginsOutside(b) && tok != "" && AllInToken(tok)
    requires |tok| < 20 || !rules.suspicious(tok)
    ensures Redact(CutToken(rules), a, tok + b) == tok + ScrubHighEntropy(rules, b)
  {
    RunOfToken(tok, b);
    HeadOf(tok, b);
    assert CutToken(rules)(a, tok + b) == 0;
    EndsLikeTail(a, [tok[0]]);
    RestOfToken(rules, a + [tok[0]], tok[1..], b);
    Rejoin(a, tok, 1);
    BehindToken(rules, a + [tok[0]] + tok[1..], b);
    Assoc([tok[0]], tok[1..], ScrubHighEntropy(rules, b));
  }

  /** A whole token is replaced exactly if it has twenty characters or more and looks like a
      secret; around it, the text is scrubbed as if it stood alone. */
  lemma TokenIsReplacedExactlyWhen(rules: Rules, a: string, tok: string, b: string)
    requires EndsOutside(a) && BeginsOutside(b) && tok != "" && AllInToken(tok)
    ensures ScrubHighEntropy(rules, a + tok + b)
         == ScrubHighEntropy(rules, a) + (if |tok| >= 20 && rules.suspicious(tok) then REDACTED else tok)
            + ScrubHighEntropy(rules, b)
  {
    Assoc(a, tok, b);
    ScrubbedApart(rules, "", a, tok + b);
    assert "" + a == a;
    Assoc(ScrubHighEntropy(rules, a), if |tok| >= 20 && rules.suspicious(tok) then REDACTED else tok,
         ScrubHighEntropy(rules, b));
    if |tok| >= 20 && rules.suspicious(tok) { TokenCut(rules, a, tok, b); } else { TokenKept(rules, a, tok, b); }
  }

  // ----- what looks like a secret -----

  predicate IsHex(tok: string) {
    tok != "" && forall i :: 0 <= i < |tok| ==>
      '0' <= tok[i] <= '9' || 'a' <= tok[i] <= 'f' || 'A' <= tok[i] <= 'F'
  }

  predicate HasIn(tok: string, low: char, high: char) {
    exists i :: 0 <= i < |tok| && low <= tok[i] <= high
  }

  /** At least two of lower-case letters, upper-case letters and digits. */
  predicate IsMixed(tok: string) {
    || (HasIn(tok, 'a', 'z') && HasIn(tok, 'A', 'Z'))
    || (HasIn(tok, 'a', 'z') && HasIn(tok, '0', '9'))
    || (HasIn(tok, 'A', 'Z') && HasIn(tok, '0', '9'))
  }

  method LooksLikeSecretToken(tok: string, entropy: string -> real) returns (looks: bool)
    ensures looks <==> |tok| >= 20 && !IsHex(tok) && IsMixed(tok) && entropy(tok) >= 3.5
  {
    if |tok| < 20 {
      return false;
    }
    if IsHex(tok) {
      return false;
    }
    var hasLower, hasUpper, hasDigit := false, false, false;
    for i := 0 to |tok|
      invariant hasLower <==> HasIn(tok[..i], 'a', 'z')
      invariant hasUpper <==> HasIn(tok[..i], 'A', 'Z')
      invariant hasDigit <==> HasIn(tok[..i], '0', '9')
    {
      HasInMore(tok, i, 'a', 'z');
      HasInMore(tok, i, 'A', 'Z');
      HasInMore(tok, i, '0', '9');
      if 'a' <= tok[i] <= 'z' {
        hasLower := true;
      } else if 'A' <= tok[i] <= 'Z' {
        hasUpper := true;
      } else if '0' <= tok[i] <= '9' {
        hasDigit := true;
      }
    }
    assert tok[..|tok|] == tok;
    var classes := (if hasLower then 1 else 0) + (if hasUpper then 1 else 0) + if hasDigit then 1 else 0;
    if classes < 2 {
      return false;
    }
    return entropy(tok) >= 3.5;
  }

  lemma HasInMore(tok: string, i: nat, low: char, high: char)
    requires i < |tok|
    ensures HasIn(tok[..i + 1], low, high) <==> HasIn(tok[..i], low, high) || low <= tok[i] <= high
  {
    assert forall j :: 0 <= j < i ==> tok[..i + 1][j] == tok[..i][j];
    assert tok[..i + 1][i] == tok[i];
  }
}
