/** When two inputs are hashed alike, field by field. */
module HashAgreement {
  import opened Options
  import opened HashPreimage
  import opened HashTheorems

  // An absent specification counts as one that sets nothing.

  function AccountOf(h: HashInput): string {
    if h.kubernetes.Some? then h.kubernetes.value.serviceAccount else ""
  }

  function AnnotationsOf(h: HashInput): Env {
    if h.kubernetes.Some? then h.kubernetes.value.annotations else map[]
  }

  function AutomountOf(h: HashInput): Option<bool> {
    if h.kubernetes.Some? then h.kubernetes.value.automount else None
  }

  ghost predicate SameKubernetes(h: HashInput, h': HashInput) {
    && AccountOf(h) == AccountOf(h') && AnnotationsOf(h) == AnnotationsOf(h') && AutomountOf(h) == AutomountOf(h')
  }

  /** The predecessor `n` printed `v` under the key `k`. */
  predicate Prints(h: HashInput, n: string, k: string, v: string) {
    n in h.predOutputs && k in h.predOutputs[n] && h.predOutputs[n][k] == v
  }

  ghost predicate SameOutputs(h: HashInput, h': HashInput) {
    forall n, k, v :: Prints(h, n, k, v) <==> Prints(h', n, k, v)
  }

  ghost predicate SameCommand(h: HashInput, h': HashInput) {
    h.command == h'.command || (h.command in {[], [""]} && h'.command in {[], [""]})
  }

  ghost predicate SameContainer(h: HashInput, h': HashInput) {
    && h.jobAlias == h'.jobAlias && h.taskName == h'.taskName && h.image == h'.image
    && h.imageDigest == h'.imageDigest && SameCommand(h, h') && h.env == h'.env && h.workDir == h'.workDir
    && multiset(h.mounts) == multiset(h'.mounts) && multiset(h.volumeMounts) == multiset(h'.volumeMounts)
  }

  /** Everything that is hashed agrees. */
  ghost predicate Agree(h: HashInput, h': HashInput) {
    && SameContainer(h, h') && SameKubernetes(h, h') && multiset(h.predHashes) == multiset(h'.predHashes)
    && SameOutputs(h, h') && h.runParams == h'.runParams && h.cacheVersion == h'.cacheVersion
  }

  lemma SpecificationsAgree(h: HashInput, h': HashInput)
    ensures HashableKubernetes(h.kubernetes) == HashableKubernetes(h'.kubernetes) <==> SameKubernetes(h, h')
  {
  }

  lemma OutputsAgree(h: HashInput, h': HashInput)
    ensures NonEmpty(h.predOutputs) == NonEmpty(h'.predOutputs) <==> SameOutputs(h, h')
  {
    var a, b := NonEmpty(h.predOutputs), NonEmpty(h'.predOutputs);
    if a == b {
      forall n, k, v ensures Prints(h, n, k, v) <==> Prints(h', n, k, v) {
        PrintsIsNonEmpty(h, n, k, v);
        PrintsIsNonEmpty(h', n, k, v);
      }
    }
    if SameOutputs(h, h') {
      OutputsWithin(h, h');
      OutputsWithin(h', h);
    }
  }

  lemma PrintsIsNonEmpty(h: HashInput, n: string, k: string, v: string)
    ensures Prints(h, n, k, v) <==>
      n in NonEmpty(h.predOutputs) && k in NonEmpty(h.predOutputs)[n] && NonEmpty(h.predOutputs)[n][k] == v
  {
  }

  lemma OutputsWithin(h: HashInput, h': HashInput)
    requires SameOutputs(h, h')
    ensures forall n :: n in NonEmpty(h.predOutputs) ==>
      n in NonEmpty(h'.predOutputs) && NonEmpty(h'.predOutputs)[n] == h.predOutputs[n]
  {
    forall n | n in NonEmpty(h.predOutputs)
      ensures n in NonEmpty(h'.predOutputs) && NonEmpty(h'.predOutputs)[n] == h.predOutputs[n]
    {
      var k :| k in h.predOutputs[n];
      assert Prints(h, n, k, h.predOutputs[n][k]) && Prints(h', n, k, h.predOutputs[n][k]);
      forall x ensures x in h.predOutputs[n] <==> x in h'.predOutputs[n] {
        if x in h.predOutputs[n] { assert Prints(h', n, x, h.predOutputs[n][x]); }
        if x in h'.predOutputs[n] { assert Prints(h, n, x, h'.predOutputs[n][x]); }
      }
      forall x | x in h.predOutputs[n] ensures h.predOutputs[n][x] == h'.predOutputs[n][x] {
        assert Prints(h', n, x, h.predOutputs[n][x]);
      }
    }
  }

  lemma IdentitiesAgree(h: HashInput, h': HashInput)
    ensures IdentityOf(h) == IdentityOf(h') <==> Agree(h, h')
  {
    SpecificationsAgree(h, h');
    OutputsAgree(h, h');
  }

  /** Clean inputs have one stream exactly if they agree in every field that is hashed. */
  lemma SameStreamExactlyWhen(h: HashInput, h': HashInput)
    requires Clean(h) && Clean(h')
    ensures Preimage(h) == Preimage(h') <==> Agree(h, h')
  {
    StreamIsIdentity(h, h');
    IdentitiesAgree(h, h');
  }

  /** Inputs that differ in their specifications only have one stream exactly if account,
      annotations and automount agree. */
  lemma SpecificationDecides(h: HashInput, k: Option<Kubernetes>)
    requires Clean(h) && Clean(h.(kubernetes := k))
    ensures Preimage(h) == Preimage(h.(kubernetes := k)) <==> SameKubernetes(h, h.(kubernetes := k))
  {
    SameStreamExactlyWhen(h, h.(kubernetes := k));
  }
}
