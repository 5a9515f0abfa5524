/** The scrubber of log text: exact removal of known secrets, then of suspicious tokens.
    Texts are byte strings. Lower-casing and the entropy test are parameters. */
module Scrubber {
  import opened Redaction

  const MIN_SCRUB_LENGTH := 6
  const MIN_TOKEN_LENGTH := 20
  const DENYLIST := {"true", "false", "null", "none", "nil", "password", "secret", "token", "changeme", "admin"}

  datatype Rules = Rules(lower: string -> string, suspicious: string -> bool)

  // ----- which secrets are removed -----

  predicate IsAllDigits(v: string) {
    v != "" && forall i :: 0 <= i < |v| ==> '0' <= v[i] <= '9'
  }

  predicate Scrubbable(rules: Rules, v: string) {
    |v| >= MIN_SCRUB_LENGTH && rules.lower(v) !in DENYLIST && !IsAllDigits(v)
  }

  predicate Distinct(s: seq<string>) {
    forall i, j :: 0 <= i < j < |s| ==> s[i] != s[j]
  }

  predicate LongestFirst(s: seq<string>) {
    forall i, j :: 0 <= i < j < |s| ==> |s[i]| >= |s[j]|
  }

  function FirstAt(values: seq<string>, v: string): nat
    requires v in values
  {
    if values[0] == v then 0 else 1 + FirstAt(values[1..], v)
  }

  /** Secrets of one length keep the order in which they first came. */
  ghost predicate InFirstOrder(values: seq<string>, s: seq<string>) {
    forall i, j :: 0 <= i < j < |s| && |s[i]| == |s[j]| && s[i] in values && s[j] in values ==>
      FirstAt(values, s[i]) < FirstAt(values, s[j])
  }

  /** The list that a scrubber for these secret values works through. */
  ghost predicate IsKeptList(rules: Rules, values: seq<string>, kept: seq<string>) {
    && (forall v :: v in kept <==> v in values && Scrubbable(rules, v))
    && Distinct(kept) && LongestFirst(kept) && InFirstOrder(values, kept)
  }

  lemma {:induction false} FirstAtIs(values: seq<string>, i: nat)
    requires i < |values| && values[i] !in values[..i]
    ensures FirstAt(values, values[i]) == i
  {
    if i > 0 {
      assert values[0] == values[..i][0];
      assert values[1..][..i - 1] == values[..i][1..];
      FirstAtIs(values[1..], i - 1);
    }
  }

  lemma {:induction false} FirstAtBelow(values: seq<string>, i: nat, v: string)
    requires i <= |values| && v in values[..i]
    ensures v in values && FirstAt(values, v) < i
  {
    if values[0] != v {
      assert values[1..][..i - 1] == values[..i][1..];
      assert v in values[..i][1..];
      FirstAtBelow(values[1..], i - 1, v);
    }
  }

  /** Insert before the first shorter secret: a stable sort by length, one step. */
  function InsertByLength(v: string, s: seq<string>): seq<string> {
    if s == [] then [v] else if |v| > |s[0]| then [v] + s else [s[0]] + InsertByLength(v, s[1..])
  }

  lemma {:induction false} InsertElements(v: string, s: seq<string>)
    ensures forall x :: x in InsertByLength(v, s) <==> x == v || x in s
  {
    if s != [] { InsertElements(v, s[1..]); }
  }

  lemma {:induction false} InsertLongestFirst(v: string, s: seq<string>)
    requires LongestFirst(s)
    ensures LongestFirst(InsertByLength(v, s))
  {
    if s != [] && |v| <= |s[0]| {
      var r := InsertByLength(v, s[1..]);
      InsertLongestFirst(v, s[1..]);
      InsertElements(v, s[1..]);
      forall i | 0 <= i < |r| ensures |s[0]| >= |r[i]| { assert r[i] in r; }
    }
  }

  lemma {:induction false} InsertDistinct(v: string, s: seq<string>)
    requires Distinct(s) && v !in s
    ensures Distinct(InsertByLength(v, s))
  {
    if s != [] && |v| <= |s[0]| {
      var r := InsertByLength(v, s[1..]);
      InsertDistinct(v, s[1..]);
      InsertElements(v, s[1..]);
      forall i | 0 <= i < |r| ensures s[0] != r[i] { assert r[i] in r; }
    }
  }

  /** A value that comes later than all others goes behind those of its length. */
  lemma {:induction false} InsertInFirstOrder(values: seq<string>, v: string, s: seq<string>)
    requires v in values && LongestFirst(s) && InFirstOrder(values, s)
    requires forall x :: x in s ==> x in values && FirstAt(values, x) < FirstAt(values, v)
    ensures InFirstOrder(values, InsertByLength(v, s))
  {
    if s != [] && |v| <= |s[0]| {
      var r := InsertByLength(v, s[1..]);
      InsertInFirstOrder(values, v, s[1..]);
      InsertElements(v, s[1..]);
      forall i | 0 <= i < |r| && |r[i]| == |s[0]|
        ensures r[i] in values && FirstAt(values, s[0]) < FirstAt(values, r[i])
      {
        assert r[i] in r;
        if r[i] != v {
          var j :| 0 <= j < |s[1..]| && s[1..][j] == r[i];
          assert s[j + 1] == r[i];
        }
      }
    }
  }

  lemma InsertKeeps(rules: Rules, values: seq<string>, i: nat, s: seq<string>)
    requires i < |values| && Scrubbable(rules, values[i]) && values[i] !in s
    requires IsKeptSoFar(rules, values, i, s)
    ensures IsKeptSoFar(rules, values, i + 1, InsertByLength(values[i], s))
  {
    InsertElements(values[i], s);
    assert values[..i + 1] == values[..i] + [values[i]];
    InsertLongestFirst(values[i], s);
    InsertDistinct(values[i], s);
    FirstAtIs(values, i);
    forall x | x in s ensures x in values && FirstAt(values, x) < FirstAt(values, values[i]) {
      FirstAtBelow(values, i, x);
    }
    InsertInFirstOrder(values, values[i], s);
  }

  ghost predicate IsKeptSoFar(rules: Rules, values: seq<string>, i: nat, kept: seq<string>)
    requires i <= |values|
  {
    && (forall v :: v in kept <==> v in values[..i] && Scrubbable(rules, v))
    && Distinct(kept) && LongestFirst(kept) && InFirstOrder(values, kept)
  }

  // ----- the two passes -----

  /** Take out the secret wherever the rest of the text starts with it. */
  function CutSecret(x: string): Cut {
    (before: string, s: string) => if x <= s then |x| else 0
  }

  function ReplaceAll(s: string, x: string): string {
    Redact(CutSecret(x), "", s)
  }

  predicate IsTokenChar(c: char) {
    'A' <= c <= 'Z' || 'a' <= c <= 'z' || '0' <= c <= '9' || c in {'+', '/', '=', '_', '-'}
  }

  /** The length of the run of token characters at the head. */
  function Run(s: string): (n: nat)
    ensures n <= |s|
  {
    if s == "" || !IsTokenChar(s[0]) then 0 else 1 + Run(s[1..])
  }

  predicate EndsInToken(before: string) {
    before != "" && IsTokenChar(before[|before| - 1])
  }

  /** Take out a suspicious token. A token is a whole run, so it is looked at once, where
      it begins. */
  function CutToken(rules: Rules): Cut {
    (before: string, s: string) =>
      if !EndsInToken(before) && Run(s) >= MIN_TOKEN_LENGTH && rules.suspicious(s[..Run(s)]) then Run(s) else 0
  }

  function ScrubHighEntropy(rules: Rules, s: string): string {
    Redact(CutToken(rules), "", s)
  }

  function ReplaceEach(s: string, secrets: seq<string>): string {
    if secrets == [] then s else ReplaceAll(ReplaceEach(s, secrets[..|secrets| - 1]), secrets[|secrets| - 1])
  }

  function Scrubbed(rules: Rules, secrets: seq<string>, text: string): string {
    ScrubHighEntropy(rules, ReplaceEach(text, secrets))
  }

  class Scrubber {
    const rules: Rules
    var secrets: seq<string>

    constructor (rules: Rules, secretValues: seq<string>)
      ensures this.rules == rules && IsKeptList(rules, secretValues, secrets)
    {
      var kept: seq<string> := [];
      for i := 0 to |secretValues|
        invariant IsKeptSoFar(rules, secretValues, i, kept)
      {
        var v := secretValues[i];
        assert secretValues[..i + 1] == secretValues[..i] + [v];
        if Scrubbable(rules, v) && v !in kept {
          InsertKeeps(rules, secretValues, i, kept);
          kept := InsertByLength(v, kept);
        }
      }
      assert secretValues[..|secretValues|] == secretValues;
      this.rules := rules;
      this.secrets := kept;
    }

    method Scrub(text: string) returns (out: string)
      ensures out == Scrubbed(rules, secrets, text)
    {
      out := text;
      for i := 0 to |secrets|
        invariant out == ReplaceEach(text, secrets[..i])
      {
        assert secrets[..i + 1][..i] == secrets[..i];
        out := ReplaceAll(out, secrets[i]);
      }
      assert secrets[..|secrets|] == secrets;
      out := ScrubHighEntropy(rules, out);
    }
  }

  // ----- no secret survives -----

  lemma {:induction false} ReplacedSecretIsGone(x: string, before: string, s: string)
    requires Apart(x)
    ensures !Occurs(x, Redact(CutSecret(x), before, s))
    decreases |s|
  {
    var out := Redact(CutSecret(x), before, s);
    if s != "" && x <= s {
      ReplacedSecretIsGone(x, before + s[..|x|], s[|x|..]);
      if Occurs(x, out) { OccursPastPlaceholder(x, Redact(CutSecret(x), before + s[..|x|], s[|x|..])); }
    } else if s != "" {
      ReplacedSecretIsGone(x, before + [s[0]], s[1..]);
      if Occurs(x, out) {
        OccursInCons(x, s[0], Redact(CutSecret(x), before + [s[0]], s[1..]));
        if x <= out { PrefixIsKept(CutSecret(x), before, s, x); }
      }
    }
  }

  lemma {:induction false} EachSecretIsGone(secrets: seq<string>, text: string, x: string)
    requires x in secrets && Apart(x)
    ensures !Occurs(x, ReplaceEach(text, secrets))
  {
    var front, last := secrets[..|secrets| - 1], secrets[|secrets| - 1];
    if x == last {
      ReplacedSecretIsGone(x, "", ReplaceEach(text, front));
    } else {
      assert x in front;
      EachSecretIsGone(front, text, x);
      if Occurs(x, ReplaceEach(text, secrets)) { NothingNew(CutSecret(last), "", ReplaceEach(text, front), x); }
    }
  }

  /** No kept secret occurs in the output, not even across the borders of placeholders. */
  lemma NoSecretSurvives(rules: Rules, secrets: seq<string>, text: string, x: string)
    requires x in secrets && Apart(x)
    ensures !Occurs(x, Scrubbed(rules, secrets, text))
  {
    EachSecretIsGone(secrets, text, x);
    if Occurs(x, Scrubbed(rules, secrets, text)) { NothingNew(CutToken(rules), "", ReplaceEach(text, secrets), x); }
  }

  // ----- exactly when -----

  /** A secret inside the placeholder leaks whenever any placeholder is written. */
  lemma {:induction false} MarkStays(secrets: seq<string>, text: string)
    requires Occurs(REDACTED, text)
    ensures Occurs(REDACTED, ReplaceEach(text, secrets))
  {
    if secrets != [] {
      var front := secrets[..|secrets| - 1];
      MarkStays(front, text);
      UnchangedOrMarked(CutSecret(secrets[|secrets| - 1]), "", ReplaceEach(text, front));
    }
  }

  lemma {:induction false} LongerSecretsPass(secrets: seq<string>, x: string)
    requires x != "" && forall y :: y in secrets ==> |y| >= |x| && y != x
    ensures ReplaceEach(x, secrets) == x
  {
    if secrets != [] {
      var last := secrets[|secrets| - 1];
      LongerSecretsPass(secrets[..|secrets| - 1], x);
      NotInShorter(last, "", x);
    }
  }

  lemma {:induction false} NotInShorter(y: string, before: string, s: string)
    requires |y| > |s| || (|y| == |s| && y != s)
    ensures Redact(CutSecret(y), before, s) == s
    decreases |s|
  {
    if s != "" {
      NotInShorter(y, before + [s[0]], s[1..]);
    }
  }

  lemma SelfIsReplaced(x: string)
    requires x != ""
    ensures ReplaceAll(x, x) == REDACTED
  {
    assert x[|x|..] == "";
    assert ReplaceAll(x, x) == REDACTED + Redact(CutSecret(x), "" + x[..|x|], x[|x|..]);
  }

  lemma {:induction false} ReplaceEachSplit(text: string, a: seq<string>, b: seq<string>)
    ensures ReplaceEach(text, a + b) == ReplaceEach(ReplaceEach(text, a), b)
  {
    if b == [] {
      assert a + b == a;
    } else {
      ReplaceEachSplit(text, a, b[..|b| - 1]);
      assert (a + b)[..|a + b| - 1] == a + b[..|b| - 1];
    }
  }

  /** The secret itself, as a text, is turned into a placeholder that contains it. */
  lemma PartOfPlaceholderLeaks(rules: Rules, secrets: seq<string>, x: string)
    requires x in secrets && x != "" && Occurs(x, REDACTED) && Distinct(secrets) && LongestFirst(secrets)
    ensures Occurs(x, Scrubbed(rules, secrets, x))
  {
    var k :| 0 <= k < |secrets| && secrets[k] == x;
    var a, b := secrets[..k], secrets[k + 1..];
    assert secrets == (a + [x]) + b;
    ReplaceEachSplit(x, a + [x], b);
    LongerSecretsPass(a, x);
    assert (a + [x])[..|a|] == a;
    SelfIsReplaced(x);
    PrefixOccurs(REDACTED, REDACTED);
    MarkStays(b, REDACTED);
    UnchangedOrMarked(CutToken(rules), "", ReplaceEach(x, secrets));
    OccursWithin(x, REDACTED, Scrubbed(rules, secrets, x));
  }

  lemma OccursWithin(x: string, y: string, s: string)
    requires Occurs(x, y) && Occurs(y, s)
    ensures Occurs(x, s)
  {
    var i: nat :| OccursAt(x, y, i);
    var j: nat :| OccursAt(y, s, j);
    assert forall k :: 0 <= k < |x| ==> x[k] == y[i + k] == s[j + (i + k)];
    assert OccursAt(x, s, j + i);
  }

  /** The secret is apart from the placeholder or part of it. All secrets without brackets are. */
  ghost predicate Tame(x: string) {
    Apart(x) || Occurs(x, REDACTED)
  }

  lemma BracketFreeIsTame(x: string)
    requires BracketFree(x)
    ensures Tame(x)
  {
    BracketFreeIsApart(x);
    if Occurs(x, INNER) {
      assert REDACTED[1..9] == INNER && OccursAt(INNER, REDACTED, 1);
      OccursWithin(x, INNER, REDACTED);
    }
  }

  /** No secret ever survives if and only if none of them is part of the placeholder. */
  lemma ScrubbingIsSafeExactlyWhen(rules: Rules, values: seq<string>, secrets: seq<string>)
    requires IsKeptList(rules, values, secrets) && forall x :: x in secrets ==> Tame(x)
    ensures (forall text, x :: x in secrets ==> !Occurs(x, Scrubbed(rules, secrets, text)))
       <==> (forall x :: x in secrets ==> Apart(x))
  {
    if forall x :: x in secrets ==> Apart(x) {
      forall text, x | x in secrets ensures !Occurs(x, Scrubbed(rules, secrets, text)) {
        NoSecretSurvives(rules, secrets, text, x);
      }
    } else {
      var x :| x in secrets && !Apart(x);
      PartOfPlaceholderLeaks(rules, secrets, x);
    }
  }

  // ----- what a second pass finds -----

  lemma {:induction false} AbsentSecretChangesNothing(x: string, before: string, s: string)
    requires x != "" && !Occurs(x, s)
    ensures Redact(CutSecret(x), before, s) == s
    decreases |s|
  {
    if s != "" {
      if x <= s { PrefixOccurs(x, s); }
      if Occurs(x, s[1..]) { OccursLater(x, [s[0]], s[1..]); }
      assert [s[0]] + s[1..] == s;
      AbsentSecretChangesNothing(x, before + [s[0]], s[1..]);
    }
  }

  /** Replacing the placeholder by itself changes nothing. */
  lemma {:induction false} PlaceholderAsSecret(before: string, s: string)
    ensures Redact(CutSecret(REDACTED), before, s) == s
    decreases |s|
  {
    if s != "" {
      if REDACTED <= s {
        assert s == REDACTED + s[10..] && s[..10] == REDACTED;
        PlaceholderAsSecret(before + s[..10], s[10..]);
      } else {
        PlaceholderAsSecret(before + [s[0]], s[1..]);
      }
    }
  }

  /** No secret occurs, except perhaps the placeholder itself. */
  ghost predicate NothingToReplace(secrets: seq<string>, s: string) {
    forall x :: x in secrets && x != REDACTED ==> !Occurs(x, s)
  }

  lemma {:induction false} AbsentSecretsChangeNothing(secrets: seq<string>, s: string)
    requires NothingToReplace(secrets, s) && forall x :: x in secrets ==> x != ""
    ensures ReplaceEach(s, secrets) == s
  {
    if secrets != [] {
      var front, last := secrets[..|secrets| - 1], secrets[|secrets| - 1];
      assert last in secrets && forall x :: x in front ==> x in secrets;
      AbsentSecretsChangeNothing(front, s);
      if last == REDACTED { PlaceholderAsSecret("", s); } else { AbsentSecretChangesNothing(last, "", s); }
    }
  }

  /** In the middle of a token nothing is cut, so the rest of the token stays. */
  lemma {:induction false} RestOfTokenStays(rules: Rules, before: string, s: string)
    requires EndsInToken(before)
    ensures Run(Redact(CutToken(rules), before, s)) == Run(s)
    ensures Redact(CutToken(rules), before, s)[..Run(s)] == s[..Run(s)]
    decreases |s|
  {
    if s != "" && IsTokenChar(s[0]) {
      RestOfTokenStays(rules, before + [s[0]], s[1..]);
      var rest := Redact(CutToken(rules), before + [s[0]], s[1..]);
      assert ([s[0]] + rest)[1..] == rest;
      assert ([s[0]] + rest)[..Run(s)] == [s[0]] + rest[..Run(s[1..])];
      assert s[..Run(s)] == [s[0]] + s[1..][..Run(s[1..])];
    }
  }

  /** A token that is kept stays a token of the output. */
  lemma KeptTokenStays(rules: Rules, before: string, s: string)
    requires s != "" && CutToken(rules)(before, s) == 0
    ensures Run(Redact(CutToken(rules), before, s)) == Run(s)
    ensures Redact(CutToken(rules), before, s)[..Run(s)] == s[..Run(s)]
  {
    var rest := Redact(CutToken(rules), before + [s[0]], s[1..]);
    assert ([s[0]] + rest)[1..] == rest;
    if IsTokenChar(s[0]) {
      RestOfTokenStays(rules, before + [s[0]], s[1..]);
      assert ([s[0]] + rest)[..Run(s)] == [s[0]] + rest[..Run(s[1..])];
      assert s[..Run(s)] == [s[0]] + s[1..][..Run(s[1..])];
    }
  }

  /** The placeholder is shorter than a token must be, so it is passed over. */
  lemma PlaceholderPasses(rules: Rules, before: string, rest: string)
    ensures Redact(CutToken(rules), before, REDACTED + rest)
      == REDACTED + Redact(CutToken(rules), before + REDACTED, rest)
  {
    PassOver(rules, before, REDACTED, rest);
  }

  /** Text without a long token in front of a bracket is passed over. */
  lemma {:induction false} PassOver(rules: Rules, before: string, p: string, rest: string)
    requires p != "" && p[|p| - 1] == ']' && |p| <= 10
    ensures Redact(CutToken(rules), before, p + rest) == p + Redact(CutToken(rules), before + p, rest)
    decreases |p|
  {
    RunStopsAtBracket(p, rest);
    assert (p + rest)[1..] == p[1..] + rest;
    if |p| == 1 {
      assert p[1..] + rest == rest && p == [p[0]];
    } else {
      PassOver(rules, before + [p[0]], p[1..], rest);
      assert before + [p[0]] + p[1..] == before + p;
      assert [p[0]] + (p[1..] + Redact(CutToken(rules), before + p, rest))
        == p + Redact(CutToken(rules), before + p, rest);
    }
  }

  lemma {:induction false} RunStopsAtBracket(p: string, rest: string)
    requires p != "" && p[|p| - 1] == ']'
    ensures Run(p + rest) < |p|
  {
    if |p| > 1 {
      assert (p + rest)[1..] == p[1..] + rest;
      RunStopsAtBracket(p[1..], rest);
    }
  }

  /** The two contexts agree on whether the head of the text begins a token. */
  ghost predicate Agree(a: string, b: string, s: string) {
    s == "" || !IsTokenChar(s[0]) || (EndsInToken(a) <==> EndsInToken(b))
  }

  lemma {:induction false} RunIsMaximal(s: string)
    ensures Run(s) == |s| || !IsTokenChar(s[Run(s)])
  {
    if s != "" && IsTokenChar(s[0]) { RunIsMaximal(s[1..]); }
  }

  lemma {:induction false} SecondPassCutsNothing(rules: Rules, before: string, again: string, s: string)
    requires Agree(before, again, s)
    ensures Redact(CutToken(rules), again, Redact(CutToken(rules), before, s)) == Redact(CutToken(rules), before, s)
    decreases |s|
  {
    if s != "" {
      var cut := CutToken(rules);
      var n := cut(before, s);
      var out := Redact(cut, before, s);
      if n > 0 {
        RunIsMaximal(s);
        PlaceholderPasses(rules, again, Redact(cut, before + s[..n], s[n..]));
        SecondPassCutsNothing(rules, before + s[..n], again + REDACTED, s[n..]);
      } else {
        var rest := Redact(cut, before + [s[0]], s[1..]);
        KeptTokenStays(rules, before, s);
        assert out == [s[0]] + rest && out[1..] == rest;
        assert cut(again, out) == 0;
        SecondPassCutsNothing(rules, before + [s[0]], again + [s[0]], s[1..]);
      }
    }
  }

  // ----- nothing else is touched -----

  /** No maximal run of token characters is long and suspicious. */
  ghost predicate NoSuspiciousToken(rules: Rules, text: string) {
    forall i :: 0 <= i < |text| && !EndsInToken(text[..i]) && Run(text[i..]) >= MIN_TOKEN_LENGTH ==>
      !rules.suspicious(text[i..][..Run(text[i..])])
  }

  lemma TokensDecide(rules: Rules, s: string)
    ensures ScrubHighEntropy(rules, s) == s <==> NoSuspiciousToken(rules, s)
  {
    forall b, t | CutToken(rules)(b, t) > 0 ensures CutToken(rules)(b, t) <= |t| && t[0] != '[' {
      assert Run(t) > 0 && IsTokenChar(t[0]) && !IsTokenChar('[');
    }
    UnchangedExactlyWhen(CutToken(rules), "", s);
    forall i | 0 <= i < |s| ensures "" + s[..i] == s[..i] {}
  }

  // ----- brackets never get fewer -----

  function Brackets(s: string): nat {
    if s == "" then 0 else Brackets(s[..|s| - 1]) + if s[|s| - 1] in {'[', ']'} then 1 else 0
  }

  lemma {:induction false} BracketsConcat(a: string, b: string)
    ensures Brackets(a + b) == Brackets(a) + Brackets(b)
  {
    if b == "" {
      assert a + b == a;
    } else {
      BracketsConcat(a, b[..|b| - 1]);
      assert (a + b)[..|a + b| - 1] == a + b[..|b| - 1];
    }
  }

  lemma BracketsOfPart(x: string, s: string)
    requires Occurs(x, s)
    ensures Brackets(x) <= Brackets(s)
  {
    var i: nat :| OccursAt(x, s, i);
    assert s == s[..i] + x + s[i + |x|..];
    BracketsConcat(s[..i] + x, s[i + |x|..]);
    BracketsConcat(s[..i], x);
  }

  lemma {:induction false} NoBrackets(s: string)
    requires '[' !in s && ']' !in s
    ensures Brackets(s) == 0
  {
    if s != "" {
      assert s[|s| - 1] in s;
      NoBrackets(s[..|s| - 1]);
    }
  }

  lemma PlaceholderBrackets()
    ensures Brackets("[" + INNER) == 1 && Brackets(INNER + "]") == 1 && Brackets(REDACTED) == 2
  {
    NoBrackets(INNER);
    assert ("[")[..0] == "" && ("]")[..0] == "";
    assert Brackets("[") == 1 && Brackets("]") == 1;
    BracketsConcat("[", INNER);
    BracketsConcat(INNER, "]");
    BracketsConcat("[" + INNER, "]");
    assert REDACTED == "[" + INNER + "]";
  }

  /** A proper part of the placeholder has not both of its brackets. */
  lemma ProperPartBrackets(x: string)
    requires Occurs(x, REDACTED) && x != REDACTED
    ensures Brackets(x) <= 1
  {
    PlaceholderBrackets();
    var i: nat :| OccursAt(x, REDACTED, i);
    if i > 0 {
      assert REDACTED[1..] == INNER + "]" && (INNER + "]")[i - 1..i - 1 + |x|] == x;
      assert OccursAt(x, INNER + "]", i - 1);
      BracketsOfPart(x, INNER + "]");
    } else {
      assert |x| < 10 && REDACTED[..9] == "[" + INNER && ("[" + INNER)[0..|x|] == x;
      assert OccursAt(x, "[" + INNER, 0);
      BracketsOfPart(x, "[" + INNER);
    }
  }

  lemma OneLess(c: char, s: string)
    ensures Brackets([c] + s) == Brackets([c]) + Brackets(s)
  {
    BracketsConcat([c], s);
  }

  /** Replacing a proper part of the placeholder leaves the text alone or adds brackets. */
  lemma {:induction false} ReplacingAddsBrackets(x: string, before: string, s: string)
    requires x != "" && Brackets(x) <= 1
    ensures var out := Redact(CutSecret(x), before, s);
      if Occurs(x, s) then Brackets(out) > Brackets(s) else out == s
    decreases |s|
  {
    if !Occurs(x, s) {
      AbsentSecretChangesNothing(x, before, s);
    } else if x <= s {
      var rest := Redact(CutSecret(x), before + s[..|x|], s[|x|..]);
      ReplacingAddsBrackets(x, before + s[..|x|], s[|x|..]);
      assert s == x + s[|x|..];
      BracketsConcat(x, s[|x|..]);
      BracketsConcat(REDACTED, rest);
      PlaceholderBrackets();
    } else {
      var rest := Redact(CutSecret(x), before + [s[0]], s[1..]);
      assert s == [s[0]] + s[1..];
      OccursInCons(x, s[0], s[1..]);
      ReplacingAddsBrackets(x, before + [s[0]], s[1..]);
      OneLess(s[0], s[1..]);
      OneLess(s[0], rest);
    }
  }

  lemma {:induction false} RunHasNoBrackets(s: string)
    ensures '[' !in s[..Run(s)] && ']' !in s[..Run(s)]
  {
    if s != "" && IsTokenChar(s[0]) {
      RunHasNoBrackets(s[1..]);
      assert s[..Run(s)] == [s[0]] + s[1..][..Run(s[1..])];
    }
  }

  lemma {:induction false} TokensKeepBrackets(rules: Rules, before: string, s: string)
    ensures Brackets(Redact(CutToken(rules), before, s)) >= Brackets(s)
    decreases |s|
  {
    if s != "" {
      var n := CutToken(rules)(before, s);
      if n > 0 {
        assert n == Run(s) <= |s|;
        var rest := Redact(CutToken(rules), before + s[..n], s[n..]);
        TokensKeepBrackets(rules, before + s[..n], s[n..]);
        RunHasNoBrackets(s);
        NoBrackets(s[..n]);
        assert s == s[..n] + s[n..];
        BracketsConcat(s[..n], s[n..]);
        BracketsConcat(REDACTED, rest);
      } else {
        var rest := Redact(CutToken(rules), before + [s[0]], s[1..]);
        TokensKeepBrackets(rules, before + [s[0]], s[1..]);
        assert s == [s[0]] + s[1..];
        OneLess(s[0], s[1..]);
        OneLess(s[0], rest);
      }
    }
  }

  /** If no secret that is apart occurs, the secrets leave the text alone or add brackets. */
  lemma {:induction false} SecretsAddBrackets(secrets: seq<string>, text: string)
    requires forall x :: x in secrets ==> x != "" && Tame(x) && (Apart(x) ==> !Occurs(x, text))
    ensures var out := ReplaceEach(text, secrets);
      if NothingToReplace(secrets, text) then out == text else Brackets(out) > Brackets(text)
    ensures forall x :: Apart(x) && !Occurs(x, text) ==> !Occurs(x, ReplaceEach(text, secrets))
  {
    if secrets != [] {
      var front, last := secrets[..|secrets| - 1], secrets[|secrets| - 1];
      assert last in secrets && forall x :: x in secrets <==> x in front || x == last;
      SecretsAddBrackets(front, text);
      var cur := ReplaceEach(text, front);
      LastAddsBrackets(last, cur);
      forall x | Apart(x) && !Occurs(x, text) ensures !Occurs(x, ReplaceEach(text, secrets)) {
        if Occurs(x, ReplaceEach(text, secrets)) { NothingNew(CutSecret(last), "", cur, x); }
      }
    }
  }

  lemma LastAddsBrackets(x: string, cur: string)
    requires x != "" && Tame(x) && (Apart(x) ==> !Occurs(x, cur))
    ensures if x != REDACTED && Occurs(x, cur) then Brackets(ReplaceAll(cur, x)) > Brackets(cur)
            else ReplaceAll(cur, x) == cur
  {
    if x == REDACTED {
      PlaceholderAsSecret("", cur);
    } else if Occurs(x, cur) {
      ProperPartBrackets(x);
      ReplacingAddsBrackets(x, "", cur);
    } else {
      AbsentSecretChangesNothing(x, "", cur);
    }
  }

  /** A text passes unchanged exactly when it has nothing to hide: no secret, other than the
      placeholder itself, and no suspicious token. */
  lemma UnchangedExactlyWhenNothingToHide(rules: Rules, secrets: seq<string>, text: string)
    requires forall x :: x in secrets ==> x != "" && Tame(x)
    ensures Scrubbed(rules, secrets, text) == text <==>
      NothingToReplace(secrets, text) && NoSuspiciousToken(rules, text)
  {
    if NothingToReplace(secrets, text) {
      AbsentSecretsChangeNothing(secrets, text);
      TokensDecide(rules, text);
    } else if Scrubbed(rules, secrets, text) == text {
      forall x | x in secrets && Apart(x) ensures !Occurs(x, text) { NoSecretSurvives(rules, secrets, text, x); }
      SecretsAddBrackets(secrets, text);
      TokensKeepBrackets(rules, "", ReplaceEach(text, secrets));
    }
  }

  // ----- scrubbing twice -----

  lemma OnceHasNoSuspiciousToken(rules: Rules, secrets: seq<string>, text: string)
    ensures NoSuspiciousToken(rules, Scrubbed(rules, secrets, text))
  {
    SecondPassCutsNothing(rules, "", "", ReplaceEach(text, secrets));
    TokensDecide(rules, Scrubbed(rules, secrets, text));
  }

  /** Scrubbing a second time changes nothing, whatever the text, if and only if no secret is
      a proper part of the placeholder. */
  lemma IdempotentExactlyWhen(rules: Rules, values: seq<string>, secrets: seq<string>)
    requires IsKeptList(rules, values, secrets) && forall x :: x in secrets ==> Tame(x)
    ensures (forall text :: Scrubbed(rules, secrets, Scrubbed(rules, secrets, text)) == Scrubbed(rules, secrets, text))
       <==> (forall x :: x in secrets ==> Apart(x) || x == REDACTED)
  {
    if forall x :: x in secrets ==> Apart(x) || x == REDACTED {
      forall text ensures Scrubbed(rules, secrets, Scrubbed(rules, secrets, text)) == Scrubbed(rules, secrets, text) {
        var once := Scrubbed(rules, secrets, text);
        forall x | x in secrets && x != REDACTED ensures !Occurs(x, once) { NoSecretSurvives(rules, secrets, text, x); }
        OnceHasNoSuspiciousToken(rules, secrets, text);
        UnchangedExactlyWhenNothingToHide(rules, secrets, once);
      }
    } else {
      var x :| x in secrets && !Apart(x) && x != REDACTED;
      PartOfPlaceholderLeaks(rules, secrets, x);
      UnchangedExactlyWhenNothingToHide(rules, secrets, Scrubbed(rules, secrets, x));
    }
  }
}
