/** The stream as text: which blocks there are, in which order, and what is in them. */
module HashFormat {
  import opened Options
  import opened Strings
  import opened TextLemmas
  import opened HashPreimage

  /** A line for each payload. */
  function Block(name: string, payloads: seq<string>): string {
    if payloads == [] then "" else name + ":" + payloads[0] + "\n" + Block(name, payloads[1..])
  }

  function Blocks(format: seq<(string, seq<string>)>): string {
    if format == [] then "" else Block(format[0].0, format[0].1) + Blocks(format[1..])
  }

  /** The specification sets something besides the queue. */
  predicate SetsIdentity(k: Option<Kubernetes>) {
    k != None && (k.value.serviceAccount != "" || |k.value.annotations| > 0 || k.value.automount != None)
  }

  ghost function BlockOf(h: HashInput, t: Tag): (string, seq<string>) {
    var k := h.kubernetes;
    match t
    case JobAlias => ("job_alias", [h.jobAlias])
    case TaskName => ("task_name", [h.taskName])
    case Image => ("image", [h.image])
    case ImageDigest => ("image_digest", if h.imageDigest == "" then [] else [h.imageDigest])
    case Command => ("command", [Join(h.command, '\0')])
    case EnvVar => ("env", Pairs(h.env))
    case WorkDir => ("workdir", [h.workDir])
    case MountLine => ("mount", Sort(MountKeys(h.mounts)))
    case VolumeMount => ("volume_mount", Sort(h.volumeMounts))
    case Account => ("kubernetes.service_account", if SetsIdentity(k) then [k.value.serviceAccount] else [])
    case Automount =>
      ("kubernetes.automount",
       if SetsIdentity(k) && k.value.automount.Some? then [if k.value.automount.value then "true" else "false"] else [])
    case Annotation => ("kubernetes.annotation", if SetsIdentity(k) then Pairs(k.value.annotations) else [])
    case PredHash => ("pred_hash", Sort(h.predHashes))
    case PredOutput => ("pred_output", Outputs(h.predOutputs))
    case Param => ("param", Pairs(h.runParams))
    case CacheVersion => ("cache_version", [IntText(h.cacheVersion)])
  }

  /** The blocks of an input, in order. */
  ghost function Format(h: HashInput): seq<(string, seq<string>)> {
    [BlockOf(h, JobAlias), BlockOf(h, TaskName), BlockOf(h, Image), BlockOf(h, ImageDigest), BlockOf(h, Command),
     BlockOf(h, EnvVar), BlockOf(h, WorkDir), BlockOf(h, MountLine), BlockOf(h, VolumeMount), BlockOf(h, Account),
     BlockOf(h, Automount), BlockOf(h, Annotation), BlockOf(h, PredHash), BlockOf(h, PredOutput), BlockOf(h, Param),
     BlockOf(h, CacheVersion)]
  }

  lemma {:induction false} StreamOfTagged(t: Tag, ps: seq<string>, rest: seq<Line>)
    ensures StreamOf(Tagged(t, ps) + rest) == Block(TagText(t), ps) + StreamOf(rest)
  {
    if ps == [] {
      assert Tagged(t, ps) + rest == rest;
    } else {
      var lines := Tagged(t, ps) + rest;
      assert lines[0] == Line(t, ps[0]) && lines[1..] == Tagged(t, ps[1..]) + rest;
      StreamOfTagged(t, ps[1..], rest);
      Assoc(LineText(lines[0]), Block(TagText(t), ps[1..]), StreamOf(rest));
    }
  }

  lemma {:induction false} StreamOfBlocks(h: HashInput, tags: seq<Tag>, format: seq<(string, seq<string>)>)
    requires |tags| == |format|
    requires forall i :: 0 <= i < |tags| ==> format[i] == (TagText(tags[i]), Payloads(h, tags[i]))
    ensures StreamOf(LinesUnder(h, tags)) == Blocks(format)
  {
    if tags != [] {
      StreamOfBlocks(h, tags[1..], format[1..]);
      StreamOfTagged(tags[0], Payloads(h, tags[0]), LinesUnder(h, tags[1..]));
    }
  }

  lemma TagsInOrder()
    ensures TAGS == [JobAlias, TaskName, Image, ImageDigest, Command, EnvVar, WorkDir, MountLine, VolumeMount, Account,
                     Automount, Annotation, PredHash, PredOutput, Param, CacheVersion]
  {
  }

  /** The block under each tag. */
  lemma BlockUnder(h: HashInput, t: Tag)
    ensures (TagText(t), Payloads(h, t)) == BlockOf(h, t)
  {
    assert HasIdentity(h.kubernetes) <==> SetsIdentity(h.kubernetes);
  }

  /** The stream of every input is the text of its blocks. */
  lemma StreamIsItsBlocks(h: HashInput)
    ensures Preimage(h) == Blocks(Format(h))
  {
    TagsInOrder();
    forall i | 0 <= i < |TAGS| ensures Format(h)[i] == (TagText(TAGS[i]), Payloads(h, TAGS[i])) {
      BlockUnder(h, TAGS[i]);
    }
    StreamOfBlocks(h, TAGS, Format(h));
  }

  /** An entry of a map is written as its key, an equals sign and its value. */
  lemma {:induction false} PairsAreEntries(m: Env, keys: seq<string>, i: nat)
    requires i < |keys| && forall j :: 0 <= j < |keys| ==> keys[j] in m
    ensures |PairsIn(m, keys)| == |keys| && PairsIn(m, keys)[i] == keys[i] + "=" + m[keys[i]]
  {
    if |keys| > 1 {
      PairsAreEntries(m, keys[1..], if i > 0 then i - 1 else 0);
    }
  }

  /** A mount is written as its source, target, kind and whether it is read-only. */
  lemma MountsAreWritten(ms: seq<Mount>, i: nat)
    requires i < |ms|
    ensures |MountKeys(ms)| == |ms|
    ensures MountKeys(ms)[i]
         == ms[i].source + ":" + ms[i].target + ":" + ms[i].kind + ":" + if ms[i].readOnly then "true" else "false"
  {
  }

  /** An output is written as the predecessor's name, a colon and the entry. */
  lemma {:induction false} OutputsAreWritten(m: map<string, Env>, names: seq<string>, n: string, k: string)
    requires n in names && n in m && k in m[n]
    ensures n + ":" + (k + "=" + m[n][k]) in OutputsIn(m, names)
  {
    if names[0] == n {
      var keys := SortedSet(m[n].Keys);
      InSortedSet(m[n].Keys);
      var i :| 0 <= i < |keys| && keys[i] == k;
      PairsAreEntries(m[n], keys, i);
      var block := Prefixed(n + ":", Pairs(m[n]));
      assert block[i] == n + ":" + (k + "=" + m[n][k]);
      assert block[i] in block;
    } else {
      OutputsAreWritten(m, names[1..], n, k);
    }
  }
}
