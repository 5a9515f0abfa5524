/** The hashed stream says exactly what identifies a task: inputs with the same identity give
    the same stream, and from a stream of clean inputs the identity can be read back. */
module HashIdentity {
  import opened Permutations
  import opened Strings
  import opened TextLemmas
  import opened HashPreimage

  // ----- streams and lines -----

  predicate LongTag(t: Tag) {
    t.Account? || t.Automount? || t.Annotation?
  }

  predicate MediumTag(t: Tag) {
    t.ImageDigest? || t.VolumeMount? || t.PredOutput? || t.CacheVersion?
  }

  lemma LongTagFree(t: Tag, c: char)
    requires (c == ':' || c == '\n') && LongTag(t)
    ensures c !in TagText(t)
  {
  }

  lemma MediumTagFree(t: Tag, c: char)
    requires (c == ':' || c == '\n') && MediumTag(t)
    ensures c !in TagText(t)
  {
  }

  lemma ShortTagFree(t: Tag, c: char)
    requires (c == ':' || c == '\n') && !LongTag(t) && !MediumTag(t)
    ensures c !in TagText(t)
  {
  }

  lemma TagTextFree(t: Tag, c: char)
    requires c == ':' || c == '\n'
    ensures c !in TagText(t)
  {
    if LongTag(t) {
      LongTagFree(t, c);
    } else if MediumTag(t) {
      MediumTagFree(t, c);
    } else {
      ShortTagFree(t, c);
    }
  }

  lemma LineUnique(l: Line, rest: string, l': Line, rest': string)
    requires CleanText(l.payload) && CleanText(l'.payload)
    requires LineText(l) + rest == LineText(l') + rest'
    ensures l == l' && rest == rest'
  {
    TagTextFree(l.tag, ':');
    TagTextFree(l'.tag, ':');
    TagTextFree(l.tag, '\n');
    TagTextFree(l'.tag, '\n');
    var a, a' := TagText(l.tag) + ":" + l.payload, TagText(l'.tag) + ":" + l'.payload;
    assert LineText(l) + rest == a + ['\n'] + rest && LineText(l') + rest' == a' + ['\n'] + rest';
    SplitUnique(a, rest, a', rest', '\n');
    SplitUnique(TagText(l.tag), l.payload, TagText(l'.tag), l'.payload, ':');
  }

  ghost predicate CleanLines(ls: seq<Line>) {
    forall i :: 0 <= i < |ls| ==> CleanText(ls[i].payload)
  }

  lemma {:induction false} StreamUnique(ls: seq<Line>, ls': seq<Line>)
    requires CleanLines(ls) && CleanLines(ls') && StreamOf(ls) == StreamOf(ls')
    ensures ls == ls'
  {
    if ls != [] && ls' != [] {
      LineUnique(ls[0], StreamOf(ls[1..]), ls'[0], StreamOf(ls'[1..]));
      StreamUnique(ls[1..], ls'[1..]);
      assert ls == [ls[0]] + ls[1..] && ls' == [ls'[0]] + ls'[1..];
    }
  }

  /** The payloads of one tag, in order. */
  function Select(t: Tag, ls: seq<Line>): seq<string> {
    if ls == [] then []
    else (if ls[0].tag == t then [ls[0].payload] else []) + Select(t, ls[1..])
  }

  lemma {:induction false} SelectConcat(t: Tag, xs: seq<Line>, ys: seq<Line>)
    ensures Select(t, xs + ys) == Select(t, xs) + Select(t, ys)
  {
    if xs == [] {
      assert xs + ys == ys;
    } else {
      SelectConcat(t, xs[1..], ys);
      assert (xs + ys)[1..] == xs[1..] + ys && (xs + ys)[0] == xs[0];
      Assoc(if xs[0].tag == t then [xs[0].payload] else [], Select(t, xs[1..]), Select(t, ys));
    }
  }

  lemma {:induction false} SelectTagged(t: Tag, u: Tag, ps: seq<string>)
    ensures Select(t, Tagged(u, ps)) == if t == u then ps else []
  {
    if ps != [] {
      assert Tagged(u, ps)[1..] == Tagged(u, ps[1..]) && Tagged(u, ps)[0] == Line(u, ps[0]);
      SelectTagged(t, u, ps[1..]);
      assert Select(t, Tagged(u, ps)) == (if u == t then [ps[0]] else []) + Select(t, Tagged(u, ps[1..]));
      assert ps == [ps[0]] + ps[1..];
    }
  }

  ghost predicate DistinctTags(tags: seq<Tag>) {
    forall i, j :: 0 <= i < j < |tags| ==> tags[i] != tags[j]
  }

  lemma {:induction false} SelectUnder(p: Tag -> seq<string>, t: Tag, tags: seq<Tag>)
    requires DistinctTags(tags)
    ensures Select(t, LinesOf(p, tags)) == if t in tags then p(t) else []
  {
    if tags != [] {
      SelectConcat(t, Tagged(tags[0], p(tags[0])), LinesOf(p, tags[1..]));
      SelectTagged(t, tags[0], p(tags[0]));
      SelectUnder(p, t, tags[1..]);
    }
  }

  lemma TagsDistinct()
    ensures DistinctTags(TAGS)
  {
  }

  lemma TagsComplete(t: Tag)
    ensures t in TAGS
  {
    assert t in CONTAINER_TAGS || t in KUBERNETES_TAGS || t in INPUT_TAGS;
  }

  // ----- the payloads of a clean input are clean -----

  lemma {:induction false} PairsClean(m: Env, keys: seq<string>)
    requires CleanEnv(m)
    ensures Free(PairsIn(m, keys), '\n')
  {
    if keys != [] { PairsClean(m, keys[1..]); }
  }

  lemma {:induction false} OutputsClean(m: map<string, Env>, names: seq<string>)
    requires forall n :: n in m ==> CleanText(n) && CleanEnv(m[n])
    ensures Free(OutputsIn(m, names), '\n')
  {
    if names != [] {
      OutputsClean(m, names[1..]);
      if names[0] in m { PairsClean(m[names[0]], SortedSet(m[names[0]].Keys)); }
    }
  }

  lemma SortClean(s: seq<string>)
    requires Free(s, '\n')
    ensures Free(Sort(s), '\n')
  {
    SortIsSorted(s);
    forall i | 0 <= i < |Sort(s)| ensures '\n' !in Sort(s)[i] {
      assert Sort(s)[i] in multiset(s);
    }
  }

  lemma PayloadsClean(h: HashInput, t: Tag)
    requires Clean(h)
    ensures Free(Payloads(h, t), '\n')
  {
    match t
    case Command => JoinFree(h.command, '\0', '\n');
    case EnvVar => PairsClean(h.env, SortedSet(h.env.Keys));
    case MountLine =>
      assert Free(MountKeys(h.mounts), '\n');
      SortClean(MountKeys(h.mounts));
    case VolumeMount => SortClean(h.volumeMounts);
    case Annotation =>
      if HasIdentity(h.kubernetes) {
        PairsClean(h.kubernetes.value.annotations, SortedSet(h.kubernetes.value.annotations.Keys));
      }
    case PredHash => SortClean(h.predHashes);
    case PredOutput => OutputsClean(h.predOutputs, SortedSet(h.predOutputs.Keys));
    case Param => PairsClean(h.runParams, SortedSet(h.runParams.Keys));
    case _ =>
  }

  lemma {:induction false} LinesClean(p: Tag -> seq<string>, tags: seq<Tag>)
    requires forall t :: Free(p(t), '\n')
    ensures CleanLines(LinesOf(p, tags))
  {
    if tags != [] { LinesClean(p, tags[1..]); }
  }

  lemma InputLinesClean(h: HashInput)
    requires Clean(h)
    ensures CleanLines(LinesUnder(h, TAGS))
  {
    forall t ensures Free(Payloads(h, t), '\n') { PayloadsClean(h, t); }
    LinesClean(PayloadTable(h), TAGS);
  }

  /** From the stream of a clean input the payloads under every tag can be read back. */
  lemma StreamDeterminesPayloads(h: HashInput, h': HashInput, t: Tag)
    requires Clean(h) && Clean(h') && Preimage(h) == Preimage(h')
    ensures Payloads(h, t) == Payloads(h', t)
  {
    InputLinesClean(h);
    InputLinesClean(h');
    StreamUnique(LinesUnder(h, TAGS), LinesUnder(h', TAGS));
    TagsComplete(t);
    TagsDistinct();
    SelectUnder(PayloadTable(h), t, TAGS);
    SelectUnder(PayloadTable(h'), t, TAGS);
  }

  // ----- reading maps back -----

  lemma {:induction false} PairsMembers(m: Env, keys: seq<string>, p: string)
    ensures p in PairsIn(m, keys) <==> exists k :: k in keys && k in m && p == Pair(k, m[k])
  {
    if keys != [] {
      PairsMembers(m, keys[1..], p);
      assert forall k :: k in keys <==> k == keys[0] || k in keys[1..];
    }
  }

  lemma PairsMembersAll(m: Env, p: string)
    ensures p in Pairs(m) <==> exists k :: k in m && p == Pair(k, m[k])
  {
    InSortedSet(m.Keys);
    PairsMembers(m, SortedSet(m.Keys), p);
  }

  lemma PairUnique(k: string, v: string, k': string, v': string)
    requires '=' !in k && '=' !in k' && Pair(k, v) == Pair(k', v')
    ensures k == k' && v == v'
  {
    SplitUnique(k, v, k', v', '=');
  }

  lemma PairsInclude(m: Env, m': Env, k: string)
    requires CleanEnv(m) && CleanEnv(m') && k in m && Pair(k, m[k]) in Pairs(m')
    ensures k in m' && m'[k] == m[k]
  {
    PairsMembersAll(m', Pair(k, m[k]));
    var k' :| k' in m' && Pair(k, m[k]) == Pair(k', m'[k']);
    PairUnique(k, m[k], k', m'[k']);
  }

  lemma PairsUnique(m: Env, m': Env)
    requires CleanEnv(m) && CleanEnv(m') && Pairs(m) == Pairs(m')
    ensures m == m'
  {
    forall k | k in m ensures k in m' && m'[k] == m[k] {
      PairsMembersAll(m, Pair(k, m[k]));
      PairsInclude(m, m', k);
    }
    forall k | k in m' ensures k in m {
      PairsMembersAll(m', Pair(k, m'[k]));
      PairsInclude(m', m, k);
    }
  }

  ghost predicate IsOutput(m: map<string, Env>, n: string, k: string, p: string) {
    n in m && k in m[n] && p == n + ":" + Pair(k, m[n][k])
  }

  lemma PrefixedMembers(m: map<string, Env>, n: string, p: string)
    requires n in m
    ensures p in Prefixed(n + ":", Pairs(m[n])) <==> exists k :: IsOutput(m, n, k, p)
  {
    var ps := Pairs(m[n]);
    if i :| 0 <= i < |ps| && p == n + ":" + ps[i] {
      PairsMembersAll(m[n], ps[i]);
      var k :| k in m[n] && ps[i] == Pair(k, m[n][k]);
      assert IsOutput(m, n, k, p);
    }
    if k :| IsOutput(m, n, k, p) {
      PairsMembersAll(m[n], Pair(k, m[n][k]));
      var i :| 0 <= i < |ps| && ps[i] == Pair(k, m[n][k]);
      assert Prefixed(n + ":", ps)[i] == p;
    }
  }

  lemma {:induction false} OutputsMembers(m: map<string, Env>, names: seq<string>, p: string)
    ensures p in OutputsIn(m, names) <==> exists n, k :: n in names && IsOutput(m, n, k, p)
  {
    if names != [] {
      OutputsMembers(m, names[1..], p);
      if names[0] in m { PrefixedMembers(m, names[0], p); }
      assert forall x :: x in names <==> x == names[0] || x in names[1..];
    }
  }

  ghost predicate CleanOutputs(m: map<string, Env>) {
    forall n :: n in m ==> ':' !in n && CleanEnv(m[n])
  }

  lemma OutputUnique(m: map<string, Env>, n: string, k: string, m': map<string, Env>, n': string, k': string, p: string)
    requires CleanOutputs(m) && CleanOutputs(m') && IsOutput(m, n, k, p) && IsOutput(m', n', k', p)
    ensures n == n' && k == k' && m[n][k] == m'[n'][k']
  {
    SplitUnique(n, Pair(k, m[n][k]), n', Pair(k', m'[n'][k']), ':');
    PairUnique(k, m[n][k], k', m'[n'][k']);
  }

  lemma OutputsInclude(m: map<string, Env>, m': map<string, Env>, n: string, k: string)
    requires CleanOutputs(m) && CleanOutputs(m') && Outputs(m) == Outputs(m')
    requires n in m && k in m[n]
    ensures n in m' && k in m'[n] && m'[n][k] == m[n][k]
  {
    var p := n + ":" + Pair(k, m[n][k]);
    InSortedSet(m.Keys);
    OutputsMembers(m, SortedSet(m.Keys), p);
    assert IsOutput(m, n, k, p);
    OutputsMembers(m', SortedSet(m'.Keys), p);
    var n', k' :| n' in SortedSet(m'.Keys) && IsOutput(m', n', k', p);
    OutputUnique(m, n, k, m', n', k', p);
  }

  lemma OutputsOfOne(m: map<string, Env>, m': map<string, Env>, n: string)
    requires CleanOutputs(m) && CleanOutputs(m') && Outputs(m) == Outputs(m')
    requires n in m && m[n] != map[]
    ensures n in m' && m'[n] == m[n]
  {
    var k :| k in m[n];
    OutputsInclude(m, m', n, k);
    forall j | j in m[n] ensures j in m'[n] && m'[n][j] == m[n][j] { OutputsInclude(m, m', n, j); }
    forall j | j in m'[n] ensures j in m[n] { OutputsInclude(m', m, n, j); }
  }

  /** Every predecessor with outputs in one map has the same outputs in the other. */
  ghost predicate Covers(m: map<string, Env>, m': map<string, Env>) {
    forall n :: n in m && m[n] != map[] ==> n in m' && m'[n] == m[n]
  }

  lemma OutputsCover(m: map<string, Env>, m': map<string, Env>)
    requires CleanOutputs(m) && CleanOutputs(m') && Outputs(m) == Outputs(m')
    ensures Covers(m, m')
  {
    forall n | n in m && m[n] != map[] ensures n in m' && m'[n] == m[n] { OutputsOfOne(m, m', n); }
  }

  lemma OutputsUnique(m: map<string, Env>, m': map<string, Env>)
    requires CleanOutputs(m) && CleanOutputs(m') && Outputs(m) == Outputs(m')
    ensures NonEmpty(m) == NonEmpty(m')
  {
    OutputsCover(m, m');
    OutputsCover(m', m);
  }

  // ----- reading multisets back -----

  lemma FieldsUnique(a: string, rest: string, b: string, rest': string, key: string)
    requires ':' !in a && ':' !in b && key == a + ":" + rest == b + ":" + rest'
    ensures a == b && rest == rest'
  {
    SplitUnique(a, rest, b, rest', ':');
  }

  function Access(m: Mount): string {
    m.kind + ":" + BoolText(m.readOnly)
  }

  lemma AccessUnique(a: Mount, b: Mount)
    requires CleanMount(a) && CleanMount(b) && Access(a) == Access(b)
    ensures a.kind == b.kind && a.readOnly == b.readOnly
  {
    FieldsUnique(a.kind, BoolText(a.readOnly), b.kind, BoolText(b.readOnly), Access(a));
    assert |BoolText(true)| != |BoolText(false)|;
  }

  lemma FourFields(a: string, b: string, c: string, d: string)
    ensures a + ":" + b + ":" + c + ":" + d == a + ":" + (b + ":" + (c + ":" + d))
  {
    Assoc(a + ":" + b + ":" + c, ":", d);
    Assoc(a + ":" + b + ":", c, ":" + d);
    Assoc(a + ":" + b, ":", c + (":" + d));
    Assoc(a + ":", b, ":" + (c + (":" + d)));
    Assoc(c, ":", d);
    Assoc(b, ":", c + (":" + d));
  }

  lemma MountKeyUnique(a: Mount, b: Mount)
    requires CleanMount(a) && CleanMount(b) && MountKey(a) == MountKey(b)
    ensures a == b
  {
    FourFields(a.source, a.target, a.kind, BoolText(a.readOnly));
    FourFields(b.source, b.target, b.kind, BoolText(b.readOnly));
    FieldsUnique(a.source, a.target + ":" + Access(a), b.source, b.target + ":" + Access(b), MountKey(a));
    FieldsUnique(a.target, Access(a), b.target, Access(b), a.target + ":" + Access(a));
    AccessUnique(a, b);
  }

  ghost predicate CleanMounts(ms: seq<Mount>) {
    forall i :: 0 <= i < |ms| ==> CleanMount(ms[i])
  }

  function KeysWith(key: Mount -> string, ms: seq<Mount>): seq<string> {
    seq(|ms|, i requires 0 <= i < |ms| => key(ms[i]))
  }

  /** A mount occurs as often as its key does, if no other mount has its key. */
  lemma {:induction false} KeyCount(key: Mount -> string, ms: seq<Mount>, m: Mount)
    requires forall i :: 0 <= i < |ms| && key(ms[i]) == key(m) ==> ms[i] == m
    ensures multiset(KeysWith(key, ms))[key(m)] == multiset(ms)[m]
  {
    if ms != [] {
      var front, last := ms[..|ms| - 1], ms[|ms| - 1];
      KeyCount(key, front, m);
      assert ms == front + [last] && KeysWith(key, ms) == KeysWith(key, front) + [key(last)];
    }
  }

  lemma MountCount(ms: seq<Mount>, m: Mount)
    requires CleanMounts(ms) && CleanMount(m)
    ensures multiset(MountKeys(ms))[MountKey(m)] == multiset(ms)[m]
  {
    forall i | 0 <= i < |ms| && MountKey(ms[i]) == MountKey(m) ensures ms[i] == m { MountKeyUnique(ms[i], m); }
    KeyCount(MountKey, ms, m);
    assert MountKeys(ms) == KeysWith(MountKey, ms);
  }

  lemma MountsUnique(ms: seq<Mount>, ms': seq<Mount>)
    requires CleanMounts(ms) && CleanMounts(ms') && multiset(MountKeys(ms)) == multiset(MountKeys(ms'))
    ensures multiset(ms) == multiset(ms')
  {
    forall m | m in multiset(ms) + multiset(ms') ensures multiset(ms)[m] == multiset(ms')[m] {
      assert m in ms || m in ms';
      MountCount(ms, m);
      MountCount(ms', m);
    }
  }

  lemma MountKeysConcat(a: seq<Mount>, b: seq<Mount>)
    ensures MountKeys(a + b) == MountKeys(a) + MountKeys(b)
  {
  }

  /** Reordered mounts have reordered keys. */
  lemma {:induction false} MountKeysMultiset(ms: seq<Mount>, ms': seq<Mount>)
    requires multiset(ms) == multiset(ms')
    ensures multiset(MountKeys(ms)) == multiset(MountKeys(ms'))
    decreases |ms|
  {
    if ms == [] {
      assert |multiset(ms')| == 0;
    } else {
      var i := TakeOut(ms, ms');
      MountKeysMultiset(ms[1..], ms'[..i] + ms'[i + 1..]);
      MountKeysConcat(ms'[..i], ms'[i + 1..]);
      MountKeysConcat(ms'[..i], [ms[0]] + ms'[i + 1..]);
      MountKeysConcat([ms[0]], ms'[i + 1..]);
      MountKeysConcat([ms[0]], ms[1..]);
      assert ms == [ms[0]] + ms[1..];
    }
  }
}
