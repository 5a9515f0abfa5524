/** The hashed stream says exactly what identifies a task: inputs of one identity give one
    stream, and clean inputs with one stream have one identity. */
module HashTheorems {
  import opened Options
  import opened Strings
  import opened TextLemmas
  import opened HashPreimage
  import opened HashIdentity

  // ----- from the stream to the identity -----

  /** The two inputs write the same lines. */
  ghost predicate SamePayloads(h: HashInput, h': HashInput) {
    forall t :: Payloads(h, t) == Payloads(h', t)
  }

  lemma ScalarsReadBack(h: HashInput, h': HashInput)
    requires SamePayloads(h, h')
    ensures h.jobAlias == h'.jobAlias && h.taskName == h'.taskName && h.image == h'.image && h.workDir == h'.workDir
    ensures h.imageDigest == h'.imageDigest && h.cacheVersion == h'.cacheVersion
  {
    assert Payloads(h, JobAlias) == Payloads(h', JobAlias) && Payloads(h, TaskName) == Payloads(h', TaskName);
    assert Payloads(h, Image) == Payloads(h', Image) && Payloads(h, WorkDir) == Payloads(h', WorkDir);
    assert [h.jobAlias][0] == [h'.jobAlias][0] && [h.taskName][0] == [h'.taskName][0];
    assert [h.image][0] == [h'.image][0] && [h.workDir][0] == [h'.workDir][0];
    assert Payloads(h, ImageDigest) == Payloads(h', ImageDigest);
    assert h.imageDigest != "" ==> Payloads(h, ImageDigest)[0] == h.imageDigest;
    assert Payloads(h, CacheVersion) == Payloads(h', CacheVersion);
    assert [IntText(h.cacheVersion)][0] == [IntText(h'.cacheVersion)][0];
    IntTextUnique(h.cacheVersion, h'.cacheVersion);
  }

  function Words(command: seq<string>): seq<string> {
    if command == [] then [""] else command
  }

  lemma CommandReadsBack(h: HashInput, h': HashInput)
    requires Clean(h) && Clean(h') && SamePayloads(h, h')
    ensures Words(h.command) == Words(h'.command)
  {
    assert Payloads(h, Command) == Payloads(h', Command);
    assert [Join(h.command, '\0')][0] == [Join(h'.command, '\0')][0];
    assert Join(Words(h.command), '\0') == Join(h.command, '\0');
    assert Join(Words(h'.command), '\0') == Join(h'.command, '\0');
    JoinUnique(Words(h.command), Words(h'.command), '\0');
  }

  lemma MountsReadBack(h: HashInput, h': HashInput)
    requires Clean(h) && Clean(h') && SamePayloads(h, h')
    ensures multiset(h.mounts) == multiset(h'.mounts)
  {
    assert Sort(MountKeys(h.mounts)) == Sort(MountKeys(h'.mounts)) by {
      assert Payloads(h, MountLine) == Payloads(h', MountLine);
    }
    SortDeterminesMultiset(MountKeys(h.mounts), MountKeys(h'.mounts));
    MountsUnique(h.mounts, h'.mounts);
  }

  lemma ListsReadBack(h: HashInput, h': HashInput)
    requires SamePayloads(h, h')
    ensures multiset(h.volumeMounts) == multiset(h'.volumeMounts) && multiset(h.predHashes) == multiset(h'.predHashes)
  {
    assert Sort(h.volumeMounts) == Sort(h'.volumeMounts) by {
      assert Payloads(h, VolumeMount) == Payloads(h', VolumeMount);
    }
    SortDeterminesMultiset(h.volumeMounts, h'.volumeMounts);
    assert Sort(h.predHashes) == Sort(h'.predHashes) by { assert Payloads(h, PredHash) == Payloads(h', PredHash); }
    SortDeterminesMultiset(h.predHashes, h'.predHashes);
  }

  lemma MapsReadBack(h: HashInput, h': HashInput)
    requires Clean(h) && Clean(h') && SamePayloads(h, h')
    ensures h.env == h'.env && h.runParams == h'.runParams
  {
    assert Pairs(h.env) == Pairs(h'.env) by { assert Payloads(h, EnvVar) == Payloads(h', EnvVar); }
    PairsUnique(h.env, h'.env);
    assert Pairs(h.runParams) == Pairs(h'.runParams) by { assert Payloads(h, Param) == Payloads(h', Param); }
    PairsUnique(h.runParams, h'.runParams);
  }

  lemma OutputsReadBack(h: HashInput, h': HashInput)
    requires Clean(h) && Clean(h') && SamePayloads(h, h')
    ensures NonEmpty(h.predOutputs) == NonEmpty(h'.predOutputs)
  {
    assert Outputs(h.predOutputs) == Outputs(h'.predOutputs) by {
      assert Payloads(h, PredOutput) == Payloads(h', PredOutput);
    }
    OutputsUnique(h.predOutputs, h'.predOutputs);
  }

  lemma AutomountReadsBack(k: Option<Kubernetes>, k': Option<Kubernetes>)
    requires HasIdentity(k) && HasIdentity(k') && AutomountPayload(k) == AutomountPayload(k')
    ensures k.value.automount == k'.value.automount
  {
    if k.value.automount.Some? && k'.value.automount.Some? {
      assert AutomountPayload(k)[0] == BoolText(k.value.automount.value);
      assert |BoolText(true)| != |BoolText(false)|;
    }
  }

  lemma KubernetesUnique(k: Option<Kubernetes>, k': Option<Kubernetes>)
    requires k.Some? ==> CleanEnv(k.value.annotations)
    requires k'.Some? ==> CleanEnv(k'.value.annotations)
    requires AccountPayload(k) == AccountPayload(k') && AutomountPayload(k) == AutomountPayload(k')
    requires AnnotationPayload(k) == AnnotationPayload(k')
    ensures HashableKubernetes(k) == HashableKubernetes(k')
  {
    assert HasIdentity(k) <==> |AccountPayload(k)| == 1;
    assert HasIdentity(k') <==> |AccountPayload(k')| == 1;
    if HasIdentity(k) {
      assert AccountPayload(k)[0] == k.value.serviceAccount;
      AutomountReadsBack(k, k');
      PairsUnique(k.value.annotations, k'.value.annotations);
    }
  }

  lemma KubernetesReadsBack(h: HashInput, h': HashInput)
    requires Clean(h) && Clean(h') && SamePayloads(h, h')
    ensures HashableKubernetes(h.kubernetes) == HashableKubernetes(h'.kubernetes)
  {
    assert AccountPayload(h.kubernetes) == AccountPayload(h'.kubernetes) by {
      assert Payloads(h, Account) == Payloads(h', Account);
    }
    assert AutomountPayload(h.kubernetes) == AutomountPayload(h'.kubernetes) by {
      assert Payloads(h, Automount) == Payloads(h', Automount);
    }
    assert AnnotationPayload(h.kubernetes) == AnnotationPayload(h'.kubernetes) by {
      assert Payloads(h, Annotation) == Payloads(h', Annotation);
    }
    KubernetesUnique(h.kubernetes, h'.kubernetes);
  }

  lemma PayloadsDetermineIdentity(h: HashInput, h': HashInput)
    requires Clean(h) && Clean(h') && SamePayloads(h, h')
    ensures IdentityOf(h) == IdentityOf(h')
  {
    ScalarsReadBack(h, h');
    CommandReadsBack(h, h');
    MountsReadBack(h, h');
    ListsReadBack(h, h');
    MapsReadBack(h, h');
    OutputsReadBack(h, h');
    KubernetesReadsBack(h, h');
  }

  /** A stream of clean fields determines the identity. */
  lemma StreamDeterminesIdentity(h: HashInput, h': HashInput)
    requires Clean(h) && Clean(h') && Preimage(h) == Preimage(h')
    ensures IdentityOf(h) == IdentityOf(h')
  {
    forall t ensures Payloads(h, t) == Payloads(h', t) { StreamDeterminesPayloads(h, h', t); }
    PayloadsDetermineIdentity(h, h');
  }

  // ----- from the identity to the stream -----

  lemma {:induction false} OutputsSkipEmpty(m: map<string, Env>, names: seq<string>)
    ensures OutputsIn(m, names) == OutputsIn(NonEmpty(m), names)
  {
    if names != [] {
      OutputsSkipEmpty(m, names[1..]);
      if names[0] in m && m[names[0]] == map[] {
        assert SortedSet(m[names[0]].Keys) == [];
      }
    }
  }

  /** The names that have an entry in `m`. */
  function Known(m: map<string, Env>, names: seq<string>): seq<string> {
    if names == [] then [] else (if names[0] in m then [names[0]] else []) + Known(m, names[1..])
  }

  lemma {:induction false} OutputsOfKnown(m: map<string, Env>, names: seq<string>)
    ensures OutputsIn(m, names) == OutputsIn(m, Known(m, names))
  {
    if names != [] {
      OutputsOfKnown(m, names[1..]);
      if names[0] in m {
        assert Known(m, names) == [names[0]] + Known(m, names[1..]);
        assert Known(m, names)[1..] == Known(m, names[1..]);
      } else {
        assert Known(m, names) == Known(m, names[1..]);
      }
    }
  }

  lemma {:induction false} KnownCount(m: map<string, Env>, names: seq<string>, n: string)
    ensures multiset(Known(m, names))[n] == if n in m then multiset(names)[n] else 0
  {
    if names != [] {
      KnownCount(m, names[1..], n);
      assert names == [names[0]] + names[1..];
    }
  }

  lemma {:induction false} KnownSorted(m: map<string, Env>, names: seq<string>)
    requires Sorted(names)
    ensures Sorted(Known(m, names))
  {
    if names != [] {
      var rest := Known(m, names[1..]);
      KnownSorted(m, names[1..]);
      forall i | 0 <= i < |rest| ensures Leq(names[0], rest[i]) {
        KnownCount(m, names[1..], rest[i]);
        assert rest[i] in multiset(rest);
        assert rest[i] in multiset(names[1..]);
      }
      assert Known(m, names) == [names[0]] + rest || Known(m, names) == rest;
    }
  }

  /** Predecessors without outputs leave no line. */
  lemma OutputsOfNonEmpty(m: map<string, Env>)
    ensures Outputs(m) == Outputs(NonEmpty(m))
  {
    var names, m' := SortedSet(m.Keys), NonEmpty(m);
    OutputsSkipEmpty(m, names);
    SortedSetIsSorted(m.Keys);
    SortedSetIsSorted(m'.Keys);
    OutputsOfKnown(m', names);
    KnownSorted(m', names);
    forall n ensures multiset(Known(m', names))[n] == multiset(m'.Keys)[n] { KnownCount(m', names, n); }
    SortedUnique(Known(m', names), SortedSet(m'.Keys));
  }

  lemma IdentityDeterminesPayloads(h: HashInput, h': HashInput, t: Tag)
    requires IdentityOf(h) == IdentityOf(h')
    ensures Payloads(h, t) == Payloads(h', t)
  {
    match t
    case Command =>
      assert Join(h.command, '\0') == Join(Words(h.command), '\0');
      assert Join(h'.command, '\0') == Join(Words(h'.command), '\0');
    case MountLine =>
      MountKeysMultiset(h.mounts, h'.mounts);
      SortDeterminesMultiset(MountKeys(h.mounts), MountKeys(h'.mounts));
    case VolumeMount => SortDeterminesMultiset(h.volumeMounts, h'.volumeMounts);
    case PredHash => SortDeterminesMultiset(h.predHashes, h'.predHashes);
    case PredOutput =>
      OutputsOfNonEmpty(h.predOutputs);
      OutputsOfNonEmpty(h'.predOutputs);
    case _ =>
  }

  lemma {:induction false} SameLines(p: Tag -> seq<string>, p': Tag -> seq<string>, tags: seq<Tag>)
    requires forall t :: t in tags ==> p(t) == p'(t)
    ensures LinesOf(p, tags) == LinesOf(p', tags)
  {
    if tags != [] { SameLines(p, p', tags[1..]); }
  }

  /** Reordering mounts, volume mounts and predecessor hashes, changing the queue name or
      adding predecessors without outputs leaves the stream as it is. */
  lemma IdentityDeterminesStream(h: HashInput, h': HashInput)
    requires IdentityOf(h) == IdentityOf(h')
    ensures Preimage(h) == Preimage(h')
  {
    forall t ensures Payloads(h, t) == Payloads(h', t) { IdentityDeterminesPayloads(h, h', t); }
    SameLines(PayloadTable(h), PayloadTable(h'), TAGS);
  }

  lemma StreamIsIdentity(h: HashInput, h': HashInput)
    requires Clean(h) && Clean(h')
    ensures Preimage(h) == Preimage(h') <==> IdentityOf(h) == IdentityOf(h')
  {
    if Preimage(h) == Preimage(h') { StreamDeterminesIdentity(h, h'); }
    if IdentityOf(h) == IdentityOf(h') { IdentityDeterminesStream(h, h'); }
  }
}
