/** The byte stream that a task's identity hash is taken of. */
module HashPreimage {
  import opened Options
  import opened Strings
  import opened TextLemmas

  type Env = map<string, string>

  datatype Mount = Mount(source: string, target: string, kind: string, readOnly: bool)

  datatype Kubernetes = Kubernetes(serviceAccount: string, automount: Option<bool>, annotations: Env, queueName: string)

  /** Volume mounts are given by their canonical sort keys. */
  datatype HashInput = HashInput(
    jobAlias: string,
    taskName: string,
    image: string,
    imageDigest: string,
    command: seq<string>,
    env: Env,
    workDir: string,
    mounts: seq<Mount>,
    volumeMounts: seq<string>,
    kubernetes: Option<Kubernetes>,
    predHashes: seq<string>,
    predOutputs: map<string, Env>,
    runParams: Env,
    cacheVersion: int)

  // ----- the lines of the stream -----

  datatype Tag =
    | JobAlias | TaskName | Image | ImageDigest | Command | EnvVar | WorkDir | MountLine | VolumeMount
    | Account | Automount | Annotation | PredHash | PredOutput | Param | CacheVersion

  function TagText(t: Tag): string {
    match t
    case JobAlias => "job_alias"
    case TaskName => "task_name"
    case Image => "image"
    case ImageDigest => "image_digest"
    case Command => "command"
    case EnvVar => "env"
    case WorkDir => "workdir"
    case MountLine => "mount"
    case VolumeMount => "volume_mount"
    case Account => "kubernetes.service_account"
    case Automount => "kubernetes.automount"
    case Annotation => "kubernetes.annotation"
    case PredHash => "pred_hash"
    case PredOutput => "pred_output"
    case Param => "param"
    case CacheVersion => "cache_version"
  }

  const CONTAINER_TAGS: seq<Tag> :=
    [JobAlias, TaskName, Image, ImageDigest, Command, EnvVar, WorkDir, MountLine, VolumeMount]
  const KUBERNETES_TAGS: seq<Tag> := [Account, Automount, Annotation]
  const INPUT_TAGS: seq<Tag> := [PredHash, PredOutput, Param, CacheVersion]

  /** The order of the blocks. */
  const TAGS: seq<Tag> := CONTAINER_TAGS + KUBERNETES_TAGS + INPUT_TAGS

  datatype Line = Line(tag: Tag, payload: string)

  function LineText(l: Line): string {
    TagText(l.tag) + ":" + l.payload + "\n"
  }

  function StreamWith(text: Line -> string, ls: seq<Line>): string {
    if ls == [] then "" else text(ls[0]) + StreamWith(text, ls[1..])
  }

  function StreamOf(ls: seq<Line>): string {
    StreamWith(LineText, ls)
  }

  function Tagged(t: Tag, ps: seq<string>): seq<Line> {
    seq(|ps|, i requires 0 <= i < |ps| => Line(t, ps[i]))
  }

  // ----- the payloads under each tag -----

  function BoolText(b: bool): string {
    if b then "true" else "false"
  }

  function MountKey(m: Mount): string {
    m.source + ":" + m.target + ":" + m.kind + ":" + BoolText(m.readOnly)
  }

  function MountKeys(ms: seq<Mount>): seq<string> {
    seq(|ms|, i requires 0 <= i < |ms| => MountKey(ms[i]))
  }

  function Pair(k: string, v: string): string {
    k + "=" + v
  }

  /** The pairs of a map in the given key order. */
  function PairsIn(m: Env, keys: seq<string>): seq<string> {
    if keys == [] then []
    else (if keys[0] in m then [Pair(keys[0], m[keys[0]])] else []) + PairsIn(m, keys[1..])
  }

  ghost function Pairs(m: Env): seq<string> {
    PairsIn(m, SortedSet(m.Keys))
  }

  function Prefixed(prefix: string, ps: seq<string>): seq<string> {
    seq(|ps|, i requires 0 <= i < |ps| => prefix + ps[i])
  }

  /** The outputs of all predecessors, by predecessor name and then by key. */
  ghost function OutputsIn(m: map<string, Env>, names: seq<string>): seq<string> {
    if names == [] then []
    else (if names[0] in m then Prefixed(names[0] + ":", Pairs(m[names[0]])) else []) + OutputsIn(m, names[1..])
  }

  ghost function Outputs(m: map<string, Env>): seq<string> {
    OutputsIn(m, SortedSet(m.Keys))
  }

  predicate HasIdentity(k: Option<Kubernetes>) {
    k.Some? && (k.value.serviceAccount != "" || k.value.annotations != map[] || k.value.automount.Some?)
  }

  function AccountPayload(k: Option<Kubernetes>): seq<string> {
    if HasIdentity(k) then [k.value.serviceAccount] else []
  }

  function AutomountPayload(k: Option<Kubernetes>): seq<string> {
    if HasIdentity(k) && k.value.automount.Some? then [BoolText(k.value.automount.value)] else []
  }

  ghost function AnnotationPayload(k: Option<Kubernetes>): seq<string> {
    if HasIdentity(k) then Pairs(k.value.annotations) else []
  }

  ghost function Payloads(h: HashInput, t: Tag): seq<string> {
    match t
    case JobAlias => [h.jobAlias]
    case TaskName => [h.taskName]
    case Image => [h.image]
    case ImageDigest => if h.imageDigest == "" then [] else [h.imageDigest]
    case Command => [Join(h.command, '\0')]
    case EnvVar => Pairs(h.env)
    case WorkDir => [h.workDir]
    case MountLine => Sort(MountKeys(h.mounts))
    case VolumeMount => Sort(h.volumeMounts)
    case Account => AccountPayload(h.kubernetes)
    case Automount => AutomountPayload(h.kubernetes)
    case Annotation => AnnotationPayload(h.kubernetes)
    case PredHash => Sort(h.predHashes)
    case PredOutput => Outputs(h.predOutputs)
    case Param => Pairs(h.runParams)
    case CacheVersion => [IntText(h.cacheVersion)]
  }

  /** The lines of the given tags, for payloads looked up tag by tag. */
  ghost function LinesOf(payloads: Tag -> seq<string>, tags: seq<Tag>): seq<Line> {
    if tags == [] then [] else Tagged(tags[0], payloads(tags[0])) + LinesOf(payloads, tags[1..])
  }

  ghost function PayloadTable(h: HashInput): Tag -> seq<string> {
    t => Payloads(h, t)
  }

  ghost function LinesUnder(h: HashInput, tags: seq<Tag>): seq<Line> {
    LinesOf(PayloadTable(h), tags)
  }

  ghost function Preimage(h: HashInput): string {
    StreamOf(LinesUnder(h, TAGS))
  }

  // ----- what the stream identifies -----

  /** An input up to what the hash ignores: the order of mounts and predecessor hashes, the
      queue name, predecessors without outputs, and an empty command against [""]. */
  datatype Identity = Identity(
    jobAlias: string, taskName: string, image: string, imageDigest: string, command: seq<string>,
    env: Env, workDir: string, mounts: multiset<Mount>, volumeMounts: multiset<string>,
    kubernetes: Option<Kubernetes>, predHashes: multiset<string>, predOutputs: map<string, Env>,
    runParams: Env, cacheVersion: int)

  /** The specification with the fields that are no part of the identity cleared. */
  function HashableKubernetes(k: Option<Kubernetes>): Option<Kubernetes> {
    if HasIdentity(k) then Some(k.value.(queueName := "")) else None
  }

  function NonEmpty(m: map<string, Env>): map<string, Env> {
    map n | n in m && m[n] != map[] :: m[n]
  }

  function IdentityOf(h: HashInput): Identity {
    Identity(h.jobAlias, h.taskName, h.image, h.imageDigest, if h.command == [] then [""] else h.command,
             h.env, h.workDir, multiset(h.mounts), multiset(h.volumeMounts), HashableKubernetes(h.kubernetes),
             multiset(h.predHashes), NonEmpty(h.predOutputs), h.runParams, h.cacheVersion)
  }

  ghost predicate CleanText(s: string) {
    '\n' !in s
  }

  ghost predicate CleanEnv(m: Env) {
    forall k :: k in m ==> CleanText(k) && CleanText(m[k]) && '=' !in k
  }

  ghost predicate CleanMount(m: Mount) {
    && CleanText(m.source) && CleanText(m.target) && CleanText(m.kind)
    && ':' !in m.source && ':' !in m.target && ':' !in m.kind
  }

  /** No field contains the separators that the stream puts between fields. */
  ghost predicate Clean(h: HashInput) {
    && CleanText(h.jobAlias) && CleanText(h.taskName) && CleanText(h.image) && CleanText(h.imageDigest)
    && Free(h.command, '\n') && Free(h.command, '\0') && CleanText(h.workDir)
    && CleanEnv(h.env) && CleanEnv(h.runParams)
    && (forall i :: 0 <= i < |h.mounts| ==> CleanMount(h.mounts[i]))
    && Free(h.volumeMounts, '\n') && Free(h.predHashes, '\n')
    && (h.kubernetes.Some? ==> CleanText(h.kubernetes.value.serviceAccount) && CleanEnv(h.kubernetes.value.annotations))
    && (forall n :: n in h.predOutputs ==> CleanText(n) && ':' !in n && CleanEnv(h.predOutputs[n]))
  }
}
