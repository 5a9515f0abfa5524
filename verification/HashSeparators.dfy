/** Why the identity theorem asks for clean fields: a separator inside a field lets two
    different inputs write the same stream. */
module HashSeparators {
  import opened Strings
  import opened TextLemmas
  import opened HashPreimage

  lemma {:induction false} StreamConcat(text: Line -> string, xs: seq<Line>, ys: seq<Line>)
    ensures StreamWith(text, xs + ys) == StreamWith(text, xs) + StreamWith(text, ys)
  {
    if xs == [] {
      assert xs + ys == ys;
    } else {
      StreamConcat(text, xs[1..], ys);
      assert (xs + ys)[1..] == xs[1..] + ys && (xs + ys)[0] == xs[0];
      Assoc(text(xs[0]), StreamWith(text, xs[1..]), StreamWith(text, ys));
    }
  }

  /** Tables of payloads whose blocks have the same text give the same stream. */
  lemma {:induction false} BlocksDecide(text: Line -> string, p: Tag -> seq<string>, q: Tag -> seq<string>,
                                        tags: seq<Tag>)
    requires forall t :: StreamWith(text, Tagged(t, p(t))) == StreamWith(text, Tagged(t, q(t)))
    ensures StreamWith(text, LinesOf(p, tags)) == StreamWith(text, LinesOf(q, tags))
  {
    if tags != [] {
      BlocksDecide(text, p, q, tags[1..]);
      StreamConcat(text, Tagged(tags[0], p(tags[0])), LinesOf(p, tags[1..]));
      StreamConcat(text, Tagged(tags[0], q(tags[0])), LinesOf(q, tags[1..]));
    }
  }

  lemma BlockOf(text: Line -> string, h: HashInput, a: Env, b: Env, t: Tag)
    requires StreamWith(text, Tagged(EnvVar, Pairs(a))) == StreamWith(text, Tagged(EnvVar, Pairs(b)))
    ensures StreamWith(text, Tagged(t, Payloads(h.(env := a), t)))
      == StreamWith(text, Tagged(t, Payloads(h.(env := b), t)))
  {
    if t != EnvVar { assert Payloads(h.(env := a), t) == Payloads(h.(env := b), t); }
  }

  /** Two environments whose lines join up to the same text are hashed alike. */
  lemma EnvDecides(text: Line -> string, h: HashInput, a: Env, b: Env, tags: seq<Tag>)
    requires StreamWith(text, Tagged(EnvVar, Pairs(a))) == StreamWith(text, Tagged(EnvVar, Pairs(b)))
    ensures StreamWith(text, LinesUnder(h.(env := a), tags)) == StreamWith(text, LinesUnder(h.(env := b), tags))
  {
    forall t { BlockOf(text, h, a, b, t); }
    BlocksDecide(text, PayloadTable(h.(env := a)), PayloadTable(h.(env := b)), tags);
  }

  lemma PairsOfOne(k: string, v: string)
    ensures Pairs(map[k := v]) == [Pair(k, v)]
  {
    var m := map[k := v];
    assert m.Keys == {k};
    SortedSingle(k);
    assert [k][0] == k && [k][1..] == [] && PairsIn(m, []) == [];
    assert PairsIn(m, [k]) == [Pair(k, m[k])] + [];
  }

  lemma PairsOfTwo(k: string, v: string, k': string, v': string)
    requires Leq(k, k') && k != k'
    ensures Pairs(map[k := v, k' := v']) == [Pair(k, v), Pair(k', v')]
  {
    var m := map[k := v, k' := v'];
    assert m.Keys == {k, k'};
    SortedPair(k, k');
    assert [k, k'][1..] == [k'] && [k'][1..] == [];
    assert PairsIn(m, [k']) == [Pair(k', v')];
  }

  lemma StreamOfTwo(text: Line -> string, t: Tag, p: string, q: string)
    ensures StreamWith(text, Tagged(t, [p, q])) == text(Line(t, p)) + text(Line(t, q))
  {
    assert Tagged(t, [p, q]) == Tagged(t, [p]) + Tagged(t, [q]);
    StreamConcat(text, Tagged(t, [p]), Tagged(t, [q]));
  }

  lemma TwoEnvLinesAsOne(p: string, q: string)
    ensures LineText(Line(EnvVar, p)) + LineText(Line(EnvVar, q)) == LineText(Line(EnvVar, p + ("\n" + "env:" + q)))
  {
    var tag := TagText(EnvVar) + ":";
    assert tag == "env:";
  }

  /** A newline inside a value forges a line: one variable then hashes like two. */
  lemma NewlineForgesALine(h: HashInput, k: string, v: string, k': string, v': string)
    requires Leq(k, k') && k != k'
    ensures Preimage(h.(env := map[k := v, k' := v']))
      == Preimage(h.(env := map[k := v + ("\n" + "env:" + Pair(k', v'))]))
    ensures map[k := v, k' := v'] != map[k := v + ("\n" + "env:" + Pair(k', v'))]
  {
    var tail := "\n" + "env:" + Pair(k', v');
    PairsOfOne(k, v + tail);
    PairsOfTwo(k, v, k', v');
    StreamOfTwo(LineText, EnvVar, Pair(k, v), Pair(k', v'));
    TwoEnvLinesAsOne(Pair(k, v), Pair(k', v'));
    Assoc(k + "=", v, tail);
    EnvDecides(LineText, h, map[k := v, k' := v'], map[k := v + tail], TAGS);
    assert k' in map[k := v, k' := v'] && k' !in map[k := v + tail];
  }

  /** An equals sign inside a key moves the border between key and value. */
  lemma EqualsSignMovesTheBorder(h: HashInput, k: string, m: string, v: string)
    ensures Preimage(h.(env := map[k + "=" + m := v])) == Preimage(h.(env := map[k := m + "=" + v]))
    ensures k !in map[k + "=" + m := v]
  {
    PairsOfOne(k + "=" + m, v);
    PairsOfOne(k, m + "=" + v);
    EnvDecides(LineText, h, map[k + "=" + m := v], map[k := m + "=" + v], TAGS);
  }

  /** Inputs with the same payloads under every tag are hashed alike. */
  lemma PayloadsDecide(h: HashInput, h': HashInput)
    requires forall t :: Payloads(h, t) == Payloads(h', t)
    ensures Preimage(h) == Preimage(h')
  {
    BlocksDecide(LineText, PayloadTable(h), PayloadTable(h'), TAGS);
  }

  lemma MountKeysBetween(before: seq<Mount>, m: Mount, after: seq<Mount>)
    ensures MountKeys(before + [m] + after) == MountKeys(before) + [MountKey(m)] + MountKeys(after)
  {
  }

  /** A colon inside a mount moves the border between its fields. */
  lemma ColonMovesTheMountBorder(h: HashInput, before: seq<Mount>, after: seq<Mount>, s: string, m: string, t: string,
                                 kind: string, readOnly: bool)
    ensures var a, b := Mount(s + ":" + m, t, kind, readOnly), Mount(s, m + ":" + t, kind, readOnly);
      a != b && Preimage(h.(mounts := before + [a] + after)) == Preimage(h.(mounts := before + [b] + after))
  {
    var a, b := Mount(s + ":" + m, t, kind, readOnly), Mount(s, m + ":" + t, kind, readOnly);
    assert |a.source| > |b.source|;
    assert s + ":" + m + ":" + t == s + ":" + (m + ":" + t);
    assert MountKey(a) == MountKey(b);
    MountKeysBetween(before, a, after);
    MountKeysBetween(before, b, after);
    PayloadsDecide(h.(mounts := before + [a] + after), h.(mounts := before + [b] + after));
  }

  lemma OutputsOfOne(n: string, k: string, v: string)
    ensures Outputs(map[n := map[k := v]]) == [n + ":" + Pair(k, v)]
  {
    var m := map[n := map[k := v]];
    assert m.Keys == {n};
    SortedSingle(n);
    PairsOfOne(k, v);
    assert [n][0] == n && [n][1..] == [] && OutputsIn(m, []) == [];
    assert OutputsIn(m, [n]) == Prefixed(n + ":", [Pair(k, v)]) + [];
  }

  /** A colon inside the name of a predecessor moves the border between name and key. */
  lemma ColonMovesTheNameBorder(h: HashInput, n: string, m: string, k: string, v: string)
    ensures Preimage(h.(predOutputs := map[n + ":" + m := map[k := v]]))
      == Preimage(h.(predOutputs := map[n := map[m + ":" + k := v]]))
    ensures n !in map[n + ":" + m := map[k := v]]
  {
    OutputsOfOne(n + ":" + m, k, v);
    OutputsOfOne(n, m + ":" + k, v);
    assert n + ":" + m + ":" + Pair(k, v) == n + ":" + Pair(m + ":" + k, v);
    assert |n| < |n + ":" + m|;
    PayloadsDecide(h.(predOutputs := map[n + ":" + m := map[k := v]]),
                   h.(predOutputs := map[n := map[m + ":" + k := v]]));
  }

  /** The separator of command words inside a word makes one word hash like two. */
  lemma SeparatorSplitsAWord(h: HashInput, a: string, b: string, rest: seq<string>)
    ensures Preimage(h.(command := [a + ['\0'] + b] + rest)) == Preimage(h.(command := [a, b] + rest))
    ensures IdentityOf(h.(command := [a + ['\0'] + b] + rest)) != IdentityOf(h.(command := [a, b] + rest))
  {
    var one, two := [a + ['\0'] + b] + rest, [a, b] + rest;
    assert one[1..] == rest && two[1..] == [b] + rest && two[1..][1..] == rest;
    assert |one| != |two|;
    assert Join(one, '\0') == Join(two, '\0');
    PayloadsDecide(h.(command := one), h.(command := two));
  }
}
