/** How the stream is written: block after block, each block a loop over a sorted copy. */
module HashCompute {
  import opened Options
  import opened Strings
  import opened TextLemmas
  import opened HashPreimage

  // ----- the stream grows by blocks -----

  lemma {:induction false} LinesConcat(p: Tag -> seq<string>, xs: seq<Tag>, ys: seq<Tag>)
    ensures LinesOf(p, xs + ys) == LinesOf(p, xs) + LinesOf(p, ys)
  {
    if xs == [] {
      assert xs + ys == ys;
    } else {
      LinesConcat(p, xs[1..], ys);
      assert (xs + ys)[1..] == xs[1..] + ys && (xs + ys)[0] == xs[0];
      Assoc(Tagged(xs[0], p(xs[0])), LinesOf(p, xs[1..]), LinesOf(p, ys));
    }
  }

  /** The lines of the first `n` tags. */
  ghost function Written(h: HashInput, n: nat): seq<Line>
    requires n <= |TAGS|
  {
    LinesUnder(h, TAGS[..n])
  }

  lemma NextBlock(h: HashInput, n: nat)
    requires n < |TAGS|
    ensures Written(h, n + 1) == Written(h, n) + Tagged(TAGS[n], Payloads(h, TAGS[n]))
  {
    assert TAGS[..n + 1] == TAGS[..n] + [TAGS[n]];
    var p := PayloadTable(h);
    LinesConcat(p, TAGS[..n], [TAGS[n]]);
  }

  // ----- the loops -----

  method WriteLines(lines: seq<Line>, t: Tag, ps: seq<string>) returns (out: seq<Line>)
    ensures out == lines + Tagged(t, ps)
  {
    out := lines;
    for i := 0 to |ps|
      invariant out == lines + Tagged(t, ps[..i])
    {
      assert ps[..i + 1] == ps[..i] + [ps[i]];
      assert Tagged(t, ps[..i + 1]) == Tagged(t, ps[..i]) + [Line(t, ps[i])];
      out := out + [Line(t, ps[i])];
    }
    assert ps[..|ps|] == ps;
  }

  lemma {:induction false} PairsPush(m: Env, keys: seq<string>, k: string)
    requires k in m
    ensures PairsIn(m, keys + [k]) == PairsIn(m, keys) + [Pair(k, m[k])]
  {
    if keys == [] {
      assert keys + [k] == [k];
    } else {
      PairsPush(m, keys[1..], k);
      assert (keys + [k])[1..] == keys[1..] + [k];
    }
  }

  /** The keys of a map, in order. */
  method KeysInOrder(s: set<string>) returns (r: seq<string>)
    ensures r == SortedSet(s) && forall i :: 0 <= i < |r| ==> r[i] in s
  {
    r := SortedKeys(s);
  }

  lemma PairsStep(m: Env, keys: seq<string>, i: nat)
    requires i < |keys| && keys[i] in m
    ensures PairsIn(m, keys[..i + 1]) == PairsIn(m, keys[..i]) + [Pair(keys[i], m[keys[i]])]
  {
    PairsPush(m, keys[..i], keys[i]);
    assert keys[..i + 1] == keys[..i] + [keys[i]];
  }

  /** The entries of a map, in key order. */
  method SortedPairs(m: Env) returns (pairs: seq<string>)
    ensures pairs == Pairs(m)
  {
    var keys := KeysInOrder(m.Keys);
    pairs := [];
    for i := 0 to |keys|
      invariant pairs == PairsIn(m, keys[..i])
    {
      PairsStep(m, keys, i);
      pairs := pairs + [Pair(keys[i], m[keys[i]])];
    }
    assert keys[..|keys|] == keys;
  }

  lemma {:induction false} OutputsPush(m: map<string, Env>, names: seq<string>, n: string)
    requires n in m
    ensures OutputsIn(m, names + [n]) == OutputsIn(m, names) + Prefixed(n + ":", Pairs(m[n]))
  {
    if names == [] {
      assert names + [n] == [n] && [n][1..] == [];
    } else {
      OutputsPush(m, names[1..], n);
      assert (names + [n])[1..] == names[1..] + [n] && (names + [n])[0] == names[0];
      Assoc(if names[0] in m then Prefixed(names[0] + ":", Pairs(m[names[0]])) else [],
            OutputsIn(m, names[1..]), Prefixed(n + ":", Pairs(m[n])));
    }
  }

  lemma OutputsStep(m: map<string, Env>, names: seq<string>, i: nat)
    requires i < |names| && names[i] in m
    ensures OutputsIn(m, names[..i + 1]) == OutputsIn(m, names[..i]) + Prefixed(names[i] + ":", Pairs(m[names[i]]))
  {
    OutputsPush(m, names[..i], names[i]);
    assert names[..i + 1] == names[..i] + [names[i]];
  }

  /** The outputs of all predecessors, in name order and then in key order. */
  method SortedOutputs(m: map<string, Env>) returns (outputs: seq<string>)
    ensures outputs == Outputs(m)
  {
    var names := KeysInOrder(m.Keys);
    outputs := [];
    for i := 0 to |names|
      invariant outputs == OutputsIn(m, names[..i])
    {
      OutputsStep(m, names, i);
      var pairs := SortedPairs(m[names[i]]);
      outputs := outputs + Prefixed(names[i] + ":", pairs);
    }
    assert names[..|names|] == names;
  }

  // ----- sorting mounts by key -----

  function InsertMount(m: Mount, ms: seq<Mount>): seq<Mount> {
    if ms == [] || Leq(MountKey(m), MountKey(ms[0])) then [m] + ms else [ms[0]] + InsertMount(m, ms[1..])
  }

  lemma {:induction false} InsertMountMultiset(m: Mount, ms: seq<Mount>)
    ensures multiset(InsertMount(m, ms)) == multiset(ms) + multiset{m}
  {
    if ms != [] {
      InsertMountMultiset(m, ms[1..]);
      assert ms == [ms[0]] + ms[1..];
    }
  }

  lemma {:induction false} InsertMountKeys(m: Mount, ms: seq<Mount>)
    ensures MountKeys(InsertMount(m, ms)) == Insert(MountKey(m), MountKeys(ms))
  {
    if ms != [] && !Leq(MountKey(m), MountKey(ms[0])) {
      InsertMountKeys(m, ms[1..]);
      assert MountKeys(ms)[1..] == MountKeys(ms[1..]);
    }
  }

  /** A copy of the mounts, ordered by key. */
  method SortedMounts(ms: seq<Mount>) returns (out: seq<Mount>)
    ensures MountKeys(out) == Sort(MountKeys(ms)) && multiset(out) == multiset(ms)
  {
    out := [];
    var i := |ms|;
    while i > 0
      invariant 0 <= i <= |ms|
      invariant MountKeys(out) == Sort(MountKeys(ms[i..])) && multiset(out) == multiset(ms[i..])
    {
      i := i - 1;
      assert ms[i..] == [ms[i]] + ms[i + 1..];
      assert MountKeys(ms[i..])[1..] == MountKeys(ms[i + 1..]);
      InsertMountKeys(ms[i], out);
      InsertMountMultiset(ms[i], out);
      out := InsertMount(ms[i], out);
    }
    assert ms[0..] == ms;
  }

  // ----- the whole stream -----

  method WriteContainer(h: HashInput) returns (lines: seq<Line>)
    ensures lines == Written(h, 7)
  {
    lines := [Line(JobAlias, h.jobAlias), Line(TaskName, h.taskName), Line(Image, h.image)];
    if h.imageDigest != "" {
      lines := lines + [Line(ImageDigest, h.imageDigest)];
    }
    lines := lines + [Line(Command, Join(h.command, '\0'))];
    var pairs := SortedPairs(h.env);
    lines := WriteLines(lines, EnvVar, pairs);
    lines := lines + [Line(WorkDir, h.workDir)];
    HeadBlocks(h);
    NextBlock(h, 4);
    NextBlock(h, 5);
    NextBlock(h, 6);
  }

  lemma HeadBlocks(h: HashInput)
    ensures Written(h, 4) == [Line(JobAlias, h.jobAlias), Line(TaskName, h.taskName), Line(Image, h.image)]
                           + if h.imageDigest != "" then [Line(ImageDigest, h.imageDigest)] else []
  {
    assert TAGS[..0] == [];
    NextBlock(h, 0);
    NextBlock(h, 1);
    NextBlock(h, 2);
    NextBlock(h, 3);
  }

  method WriteMounts(h: HashInput, soFar: seq<Line>) returns (lines: seq<Line>)
    requires soFar == Written(h, 7)
    ensures lines == Written(h, 9)
  {
    var mounts := SortedMounts(h.mounts);
    lines := WriteLines(soFar, MountLine, MountKeys(mounts));
    NextBlock(h, 7);
    lines := WriteLines(lines, VolumeMount, Sort(h.volumeMounts));
    NextBlock(h, 8);
  }

  lemma KubernetesBlocks(h: HashInput)
    ensures Written(h, 12) == Written(h, 9) + Tagged(Account, AccountPayload(h.kubernetes))
                            + Tagged(Automount, AutomountPayload(h.kubernetes))
                            + Tagged(Annotation, AnnotationPayload(h.kubernetes))
  {
    NextBlock(h, 9);
    NextBlock(h, 10);
    NextBlock(h, 11);
  }

  method WriteKubernetes(k: Option<Kubernetes>, soFar: seq<Line>) returns (lines: seq<Line>)
    ensures lines == soFar + Tagged(Account, AccountPayload(k)) + Tagged(Automount, AutomountPayload(k))
                           + Tagged(Annotation, AnnotationPayload(k))
  {
    lines := soFar;
    if HasIdentity(k) {
      lines := lines + [Line(Account, k.value.serviceAccount)];
      if k.value.automount.Some? {
        lines := lines + [Line(Automount, BoolText(k.value.automount.value))];
      }
      var pairs := SortedPairs(k.value.annotations);
      lines := WriteLines(lines, Annotation, pairs);
    }
  }

  method WriteInputs(h: HashInput, soFar: seq<Line>) returns (lines: seq<Line>)
    requires soFar == Written(h, 12)
    ensures lines == Written(h, 15)
  {
    lines := WriteLines(soFar, PredHash, Sort(h.predHashes));
    NextBlock(h, 12);
    var outputs := SortedOutputs(h.predOutputs);
    lines := WriteLines(lines, PredOutput, outputs);
    NextBlock(h, 13);
    var params := SortedPairs(h.runParams);
    lines := WriteLines(lines, Param, params);
    NextBlock(h, 14);
  }

  method WriteVersion(h: HashInput, soFar: seq<Line>) returns (lines: seq<Line>)
    requires soFar == Written(h, 15)
    ensures lines == Written(h, 16)
  {
    lines := soFar + [Line(CacheVersion, IntText(h.cacheVersion))];
    NextBlock(h, 15);
  }

  lemma AllWritten(h: HashInput)
    ensures Written(h, 16) == LinesUnder(h, TAGS)
  {
    assert TAGS[..16] == TAGS;
  }

  /** What the digest is fed, one line at a time. */
  method Compute(h: HashInput) returns (stream: string)
    ensures stream == Preimage(h)
  {
    var lines := WriteContainer(h);
    lines := WriteMounts(h, lines);
    lines := WriteKubernetes(h.kubernetes, lines);
    KubernetesBlocks(h);
    lines := WriteInputs(h, lines);
    lines := WriteVersion(h, lines);
    AllWritten(h);
    stream := StreamOf(lines);
  }
}
