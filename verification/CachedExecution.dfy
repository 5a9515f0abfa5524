/** Any number of job runs over one shared cache, interleaved step by step, against the
    plain execution of every task. */
module CachedExecution {
  import opened Options
  import opened TextLemmas
  import opened HashPreimage
  import opened ShortCircuit
  import opened CacheTable
  import opened Executions

  // ----- the cached system -----

  /** A task handed to execution: its input, its key if it may be cached, and what its
      execution depends on. */
  datatype Pending = Pending(input: HashInput, hash: Option<string>, trace: Trace)

  /** `traces` says what the executions behind the finished tasks depended on; `hashes` is
      what they are presented under. */
  datatype Run = Run(job: Job, done: map<nat, Outcome>, traces: map<nat, Trace>, hashes: map<nat, string>,
                     pending: map<nat, Pending>)

  /** `origins` says for each stored result what its execution depended on. */
  datatype State = State(rows: Rows, origins: map<string, Trace>, runs: seq<Run>)

  datatype Step =
    | Begin(job: Job)
    | Lookup(r: nat, t: nat, clock: int, lookupFails: bool)
    | Complete(r: nat, t: nat, clock: int, priors: seq<PriorEntry>, presented: string, stored: bool,
               expires: Option<int>)
    | Restart(r: nat)
    | Invalidate(jobId: nat, task: string)
    | InvalidateJob(jobId: nat)
    | Prune(clock: int)

  predicate Ready(run: Run, t: nat) {
    && t < |run.job.tasks| && t !in run.done && t !in run.pending
    && forall p :: p in run.job.tasks[t].preds ==> p in run.done
  }

  function Before(run: Run, t: nat): map<nat, Outcome>
    requires t < |run.job.tasks|
  {
    map p | p in run.job.tasks[t].preds && p in run.done :: run.done[p]
  }

  function InputNow(w: World, run: Run, t: nat): HashInput
    requires t < |run.job.tasks|
  {
    InputOf(w, run.job, run.job.tasks[t], Before(run, t), GatherHashes(run.job.tasks[t].preds, run.hashes))
  }

  function TraceNow(w: World, run: Run, t: nat): Trace
    requires t < |run.job.tasks|
  {
    Trace(Visible(InputNow(w, run, t)), GatherSilent(run.job.tasks[t].preds, Before(run, t), run.traces))
  }

  function Finish(run: Run, t: nat, o: Outcome, trace: Trace): Run {
    run.(done := run.done[t := o], traces := run.traces[t := trace])
  }

  /** A task that is ready is skipped, served from the cache, or handed to execution. */
  function LookupIn(w: World, rows: Rows, origins: map<string, Trace>, run: Run, t: nat, clock: int, fails: bool): Run
    requires Ready(run, t)
  {
    var spec, input, trace := run.job.tasks[t], InputNow(w, run, t), TraceNow(w, run, t);
    var hash := w.hash(input);
    if !w.rule(spec, Before(run, t)) then run.(done := run.done[t := Skipped])
    else if !spec.caching then run.(pending := run.pending[t := Pending(input, None, trace)])
    else if !fails && Hit(rows, hash, clock) && hash in origins
    then Finish(run, t, Finished(rows[hash].cached), origins[hash]).(hashes := run.hashes[t := hash])
    else run.(pending := run.pending[t := Pending(input, Some(hash), trace)])
  }

  /** Only a successful execution of a caching task has an identity and may be stored. */
  predicate Publishes(p: Pending, o: Outcome) {
    Succeeds(o) && p.hash.Some?
  }

  function CompleteIn(w: World, run: Run, t: nat, presented: string): Run
    requires t in run.pending
  {
    var p := run.pending[t];
    var o := w.exec(p.trace);
    Finish(run, t, o, p.trace).(hashes := if Publishes(p, o) then run.hashes[t := presented] else run.hashes,
                                pending := run.pending - {t})
  }

  function StoreRow(w: World, rows: Rows, run: Run, t: nat, clock: int, expires: Option<int>): Rows
    requires t in run.pending && t < |run.job.tasks|
  {
    var p := run.pending[t];
    var o := w.exec(p.trace);
    if Publishes(p, o) then rows[p.hash.value := Entry(run.job.id, run.job.tasks[t].name, o.cached, clock, expires)]
    else rows
  }

  function StoreOrigin(w: World, origins: map<string, Trace>, run: Run, t: nat): map<string, Trace>
    requires t in run.pending
  {
    var p := run.pending[t];
    if Publishes(p, w.exec(p.trace)) then origins[p.hash.value := p.trace] else origins
  }

  /** The presented hash is the one that the short-circuit computes. A failed query counts
      as a query without priors. */
  ghost predicate PresentedRightly(w: World, rows: Rows, run: Run, t: nat, clock: int, priors: seq<PriorEntry>,
                                   presented: string)
    requires t in run.pending && t < |run.job.tasks|
  {
    var p := run.pending[t];
    var o := w.exec(p.trace);
    Publishes(p, o) ==>
      && (priors == [] || IsPriorList(rows, run.job.id, run.job.tasks[t].name, p.hash.value, clock, priors))
      && IsPresented(p.hash.value, o.cached.output, priors, presented)
  }

  ghost predicate CompleteEnabled(w: World, s: State, step: Step)
    requires step.Complete?
  {
    && step.r < |s.runs| && step.t in s.runs[step.r].pending && step.t < |s.runs[step.r].job.tasks|
    && PresentedRightly(w, s.rows, s.runs[step.r], step.t, step.clock, step.priors, step.presented)
  }

  predicate LookupEnabled(s: State, step: Step)
    requires step.Lookup?
  {
    step.r < |s.runs| && Ready(s.runs[step.r], step.t)
  }

  ghost function Next(w: World, s: State, step: Step): State {
    match step
    case Begin(job) =>
      if Numbered(job) && CleanJob(job) then s.(runs := s.runs + [Run(job, map[], map[], map[], map[])]) else s
    case Lookup(r, t, clock, fails) =>
      if LookupEnabled(s, step) then s.(runs := s.runs[r := LookupIn(w, s.rows, s.origins, s.runs[r], t, clock, fails)])
      else s
    case Complete(r, t, clock, priors, presented, stored, expires) =>
      if CompleteEnabled(w, s, step)
      then State(if stored then StoreRow(w, s.rows, s.runs[r], t, clock, expires) else s.rows,
                 if stored then StoreOrigin(w, s.origins, s.runs[r], t) else s.origins,
                 s.runs[r := CompleteIn(w, s.runs[r], t, presented)])
      else s
    case Restart(r) =>
      if r < |s.runs| then s.(runs := s.runs[r := s.runs[r].(hashes := map[], pending := map[])]) else s
    case Invalidate(job, task) => s.(rows := WithoutTask(s.rows, job, task))
    case InvalidateJob(job) => s.(rows := WithoutJob(s.rows, job))
    case Prune(clock) => s.(rows := Pruned(s.rows, clock))
  }

  // ----- assumptions on the outside -----

  /** Tasks are numbered so that predecessors come first. */
  ghost predicate Numbered(job: Job) {
    forall t, p :: 0 <= t < |job.tasks| && p in job.tasks[t].preds ==> p < t
  }

  ghost predicate CleanOutputMap(m: map<string, Env>) {
    forall n :: n in m ==> CleanText(n) && ':' !in n && CleanEnv(m[n])
  }

  ghost predicate CleanJob(job: Job) {
    forall t :: 0 <= t < |job.tasks| ==>
      Clean(job.tasks[t].base) && CleanText(job.tasks[t].name) && ':' !in job.tasks[t].name
  }

  /** Hashes and what tasks print contain no separators. */
  ghost predicate CleanWorld(w: World) {
    && (forall h :: CleanText(w.hash(h)))
    && (forall i :: w.exec(i).Finished? ==> CleanEnv(w.exec(i).cached.output))
    && (forall m :: CleanOutputMap(m) ==> CleanEnv(w.outputEnv(m)))
  }

  ghost predicate Trusted(w: World) {
    CollisionFree(w) && CleanWorld(w)
  }

  // ----- the condition -----

  /** Every silent predecessor of the task has published its hash. */
  predicate PredecessorsCovered(run: Run, t: nat)
    requires t < |run.job.tasks|
  {
    forall p :: p in run.job.tasks[t].preds && p in run.done && Silent(run.done[p]) ==> p in run.hashes
  }

  /** A caching task that will run is looked up while a silent predecessor has no hash: that
      one does not cache, did not succeed, or finished before the process restarted. */
  predicate LooksUpUncovered(w: World, s: State, step: Step) {
    && step.Lookup? && LookupEnabled(s, step)
    && s.runs[step.r].job.tasks[step.t].caching
    && w.rule(s.runs[step.r].job.tasks[step.t], Before(s.runs[step.r], step.t))
    && !PredecessorsCovered(s.runs[step.r], step.t)
  }

  // ----- the invariant -----

  /** The hash is a key, and the execution behind it is the given one. */
  ghost predicate KeyOf(w: World, hash: string, trace: Trace) {
    exists k :: ValidTree(w, k) && w.hash(k.input) == hash && TraceOf(w, k) == trace
  }

  type KeyTable = (string, Trace) -> bool

  ghost function Keys(w: World): KeyTable {
    (hash, trace) => KeyOf(w, hash, trace)
  }

  /** Keys are clean, and each stands for one execution. */
  ghost predicate SoundKeys(keys: KeyTable) {
    && (forall hash, trace :: keys(hash, trace) ==> CleanText(hash))
    && (forall hash, a, b :: keys(hash, a) && keys(hash, b) ==> a == b)
  }

  /** What a finished task may be presented under: if it is silent, a key of its own
      execution; if it has output, a key of some execution with that very output. */
  ghost predicate StandsFor(w: World, keys: KeyTable, hash: string, o: Outcome, trace: Trace) {
    if Silent(o) then keys(hash, trace) else exists tr :: keys(hash, tr) && SameOutput(w.exec(tr), o)
  }

  ghost predicate SameOutput(a: Outcome, b: Outcome) {
    Loud(a) && Loud(b) && a.cached.output == b.cached.output
  }

  /** The entry holds the outcome of the execution that is noted for it. */
  ghost predicate EntrySound(w: World, keys: KeyTable, hash: string, e: Entry, origin: Trace) {
    keys(hash, origin) && w.exec(origin) == Finished(e.cached) && Succeeds(Finished(e.cached))
  }

  ghost predicate CacheSound(w: World, keys: KeyTable, rows: Rows, origins: map<string, Trace>) {
    forall h :: h in rows ==> h in origins && EntrySound(w, keys, h, rows[h], origins[h])
  }

  ghost predicate TaskDone(w: World, plain: seq<Done>, t: nat, o: Outcome, traces: map<nat, Trace>) {
    && t < |plain| && o == plain[t].outcome
    && (!o.Skipped? ==> t in traces && traces[t] == plain[t].trace && o == w.exec(traces[t]))
  }

  ghost predicate DoneSound(w: World, plain: seq<Done>, done: map<nat, Outcome>, traces: map<nat, Trace>) {
    forall t :: t in done ==> TaskDone(w, plain, t, done[t], traces)
  }

  ghost predicate HashSound(w: World, keys: KeyTable, done: map<nat, Outcome>, traces: map<nat, Trace>, t: nat,
                            hash: string) {
    t in done && t in traces && !done[t].Skipped? && StandsFor(w, keys, hash, done[t], traces[t])
  }

  ghost predicate HashesSound(w: World, keys: KeyTable, done: map<nat, Outcome>, traces: map<nat, Trace>,
                              hashes: map<nat, string>) {
    forall t :: t in hashes ==> HashSound(w, keys, done, traces, t, hashes[t])
  }

  ghost predicate PendingSound(w: World, keys: KeyTable, plain: seq<Done>, t: nat, p: Pending) {
    && t < |plain| && p.trace == plain[t].trace && w.exec(p.trace) == plain[t].outcome
    && (p.hash.Some? ==> keys(p.hash.value, p.trace))
  }

  ghost predicate PendingsSound(w: World, keys: KeyTable, plain: seq<Done>, pending: map<nat, Pending>) {
    forall t :: t in pending ==> PendingSound(w, keys, plain, t, pending[t])
  }

  ghost predicate RunSound(w: World, keys: KeyTable, plain: seq<Done>, run: Run) {
    && |plain| == |run.job.tasks| && Numbered(run.job) && CleanJob(run.job)
    && DoneSound(w, plain, run.done, run.traces)
    && HashesSound(w, keys, run.done, run.traces, run.hashes)
    && PendingsSound(w, keys, plain, run.pending)
    && run.pending.Keys !! run.done.Keys
  }

  ghost predicate Inv(w: World, keys: KeyTable, s: State) {
    CacheSound(w, keys, s.rows, s.origins) && forall r :: 0 <= r < |s.runs| ==>
      RunSound(w, keys, PlainRun(w, s.runs[r].job), s.runs[r])
  }

  // ----- inputs are clean and executions are the plain ones -----

  lemma {:induction false} GatherClean(job: Job, preds: seq<nat>, outcomes: map<nat, Outcome>)
    requires CleanJob(job)
    requires forall p :: p in outcomes && outcomes[p].Finished? ==> CleanEnv(outcomes[p].cached.output)
    ensures CleanOutputMap(Gather(job, preds, outcomes))
  {
    if preds != [] { GatherClean(job, preds[..|preds| - 1], outcomes); }
  }

  lemma {:induction false} GatherHashesClean(preds: seq<nat>, hashes: map<nat, string>)
    requires forall t :: t in hashes ==> CleanText(hashes[t])
    ensures Free(GatherHashes(preds, hashes), '\n')
  {
    if preds != [] { GatherHashesClean(preds[..|preds| - 1], hashes); }
  }

  lemma PublishedHashesClean(w: World, keys: KeyTable, run: Run)
    requires SoundKeys(keys) && HashesSound(w, keys, run.done, run.traces, run.hashes)
    ensures forall t :: t in run.hashes ==> CleanText(run.hashes[t])
  {
    forall t | t in run.hashes ensures CleanText(run.hashes[t]) {
      assert HashSound(w, keys, run.done, run.traces, t, run.hashes[t]);
    }
  }

  lemma OutcomesClean(w: World, plain: seq<Done>, run: Run, t: nat)
    requires CleanWorld(w) && DoneSound(w, plain, run.done, run.traces) && t < |run.job.tasks|
    ensures forall p :: p in Before(run, t) && Before(run, t)[p].Finished? ==> CleanEnv(Before(run, t)[p].cached.output)
  {
    forall p | p in Before(run, t) && Before(run, t)[p].Finished? ensures CleanEnv(Before(run, t)[p].cached.output) {
      assert TaskDone(w, plain, p, run.done[p], run.traces);
    }
  }

  lemma InputClean(w: World, keys: KeyTable, plain: seq<Done>, run: Run, t: nat)
    requires CleanWorld(w) && SoundKeys(keys) && RunSound(w, keys, plain, run) && t < |run.job.tasks|
    ensures Clean(InputNow(w, run, t))
  {
    OutcomesClean(w, plain, run, t);
    GatherClean(run.job, run.job.tasks[t].preds, Before(run, t));
    PublishedHashesClean(w, keys, run);
    GatherHashesClean(run.job.tasks[t].preds, run.hashes);
    CleanParts(w, run.job, run.job.tasks[t], Before(run, t), GatherHashes(run.job.tasks[t].preds, run.hashes));
  }

  lemma CleanParts(w: World, job: Job, spec: TaskSpec, outcomes: map<nat, Outcome>, predHashes: seq<string>)
    requires CleanWorld(w) && Clean(spec.base) && CleanOutputMap(Gather(job, spec.preds, outcomes))
    requires Free(predHashes, '\n')
    ensures Clean(InputOf(w, job, spec, outcomes, predHashes))
  {
  }

  /** What the finished predecessors left is what plain execution would have left. */
  lemma BeforeIsPlain(w: World, plain: seq<Done>, run: Run, t: nat)
    requires Numbered(run.job) && DoneSound(w, plain, run.done, run.traces) && Ready(run, t) && t < |plain|
    ensures Before(run, t) == OutcomesOf(run.job.tasks[t].preds, plain[..t])
  {
    forall p | p in run.job.tasks[t].preds ensures p in run.done && p < t && run.done[p] == plain[..t][p].outcome {
      assert TaskDone(w, plain, p, run.done[p], run.traces);
    }
  }

  lemma {:induction false} SilentIsPlain(preds: seq<nat>, before: map<nat, Outcome>, traces: map<nat, Trace>,
                                         traces': map<nat, Trace>)
    requires forall p :: p in preds && p in before && Silent(before[p]) ==>
      p in traces && p in traces' && traces[p] == traces'[p]
    ensures GatherSilent(preds, before, traces) == GatherSilent(preds, before, traces')
  {
    if preds != [] { SilentIsPlain(preds[..|preds| - 1], before, traces, traces'); }
  }

  lemma TraceIsPlain(w: World, plain: seq<Done>, run: Run, t: nat)
    requires Numbered(run.job) && DoneSound(w, plain, run.done, run.traces) && Ready(run, t)
    requires t < |plain| && plain[t] == PlainTask(w, run.job, run.job.tasks[t], plain[..t])
    ensures TraceNow(w, run, t) == plain[t].trace
    ensures plain[t].outcome == if w.rule(run.job.tasks[t], Before(run, t)) then w.exec(plain[t].trace) else Skipped
  {
    BeforeIsPlain(w, plain, run, t);
    SilentBefore(w, plain, run, t);
  }

  lemma SilentBefore(w: World, plain: seq<Done>, run: Run, t: nat)
    requires Numbered(run.job) && DoneSound(w, plain, run.done, run.traces) && Ready(run, t) && t < |plain|
    ensures var preds := run.job.tasks[t].preds;
      GatherSilent(preds, Before(run, t), run.traces)
        == GatherSilent(preds, Before(run, t), TracesOf(preds, plain[..t]))
  {
    var preds, before, traces := run.job.tasks[t].preds, Before(run, t), TracesOf(run.job.tasks[t].preds, plain[..t]);
    forall p | p in preds && p in before && Silent(before[p])
      ensures p in run.traces && p in traces && run.traces[p] == traces[p]
    {
      assert TaskDone(w, plain, p, run.done[p], run.traces);
    }
    SilentIsPlain(preds, before, run.traces, traces);
  }

  // ----- the key of a covered task -----

  lemma TreeBehind(w: World, keys: KeyTable, run: Run, p: nat) returns (k: KeyTree)
    requires keys == Keys(w) && HashesSound(w, keys, run.done, run.traces, run.hashes) && p in run.hashes
    ensures ValidTree(w, k) && w.hash(k.input) == run.hashes[p] && p in run.done && p in run.traces
    ensures if Silent(run.done[p]) then TraceOf(w, k) == run.traces[p] else Loud(w.exec(TraceOf(w, k)))
  {
    assert HashSound(w, keys, run.done, run.traces, p, run.hashes[p]);
    if Silent(run.done[p]) {
      k :| ValidTree(w, k) && w.hash(k.input) == run.hashes[p] && TraceOf(w, k) == run.traces[p];
    } else {
      var tr :| keys(run.hashes[p], tr) && Loud(w.exec(tr));
      k :| ValidTree(w, k) && w.hash(k.input) == run.hashes[p] && TraceOf(w, k) == tr;
    }
  }

  ghost predicate CoveredAmong(run: Run, preds: seq<nat>) {
    forall p :: p in preds && p in run.done && Silent(run.done[p]) ==> p in run.hashes
  }

  ghost predicate Among(before: map<nat, Outcome>, run: Run, preds: seq<nat>) {
    forall p :: p in preds ==> (p in before <==> p in run.done) && (p in before ==> before[p] == run.done[p])
  }

  lemma OneMoreTree(w: World, run: Run, preds: seq<nat>, before: map<nat, Outcome>, p: nat, ks: seq<KeyTree>,
                    k: KeyTree)
    requires AllValid(w, ks) && Hashes(w, ks) == GatherHashes(preds, run.hashes)
    requires SilentOf(w, ks) == GatherSilent(preds, before, run.traces)
    requires p in run.hashes && p in before && p in run.traces && before[p] == w.exec(run.traces[p])
    requires ValidTree(w, k) && w.hash(k.input) == run.hashes[p]
    requires if Silent(before[p]) then TraceOf(w, k) == run.traces[p] else Loud(w.exec(TraceOf(w, k)))
    ensures AllValid(w, ks + [k]) && Hashes(w, ks + [k]) == GatherHashes(preds + [p], run.hashes)
    ensures SilentOf(w, ks + [k]) == GatherSilent(preds + [p], before, run.traces)
  {
    OneMoreKey(w, ks, k);
    OneMoreGathered(run.hashes, run.traces, preds, before, p);
  }

  lemma OneMoreGathered(hashes: map<nat, string>, traces: map<nat, Trace>, preds: seq<nat>, before: map<nat, Outcome>,
                        p: nat)
    ensures GatherHashes(preds + [p], hashes) == GatherHashes(preds, hashes) + if p in hashes then [hashes[p]] else []
    ensures GatherSilent(preds + [p], before, traces)
         == GatherSilent(preds, before, traces) + if p in before && Silent(before[p]) && p in traces
           then multiset{traces[p]} else multiset{}
  {
    assert (preds + [p])[..|preds|] == preds;
  }

  lemma NoMoreTree(w: World, run: Run, preds: seq<nat>, before: map<nat, Outcome>, p: nat)
    requires p !in run.hashes && !(p in before && Silent(before[p]))
    ensures GatherHashes(preds + [p], run.hashes) == GatherHashes(preds, run.hashes)
    ensures GatherSilent(preds + [p], before, run.traces) == GatherSilent(preds, before, run.traces)
  {
    OneMoreGathered(run.hashes, run.traces, preds, before, p);
  }

  /** The published hashes are keys that show exactly the silent predecessors. */
  lemma {:induction false} TreesBehind(w: World, keys: KeyTable, plain: seq<Done>, run: Run, preds: seq<nat>,
                                       before: map<nat, Outcome>)
    returns (ks: seq<KeyTree>)
    requires keys == Keys(w) && HashesSound(w, keys, run.done, run.traces, run.hashes)
    requires DoneSound(w, plain, run.done, run.traces)
    requires CoveredAmong(run, preds) && Among(before, run, preds)
    ensures AllValid(w, ks) && Hashes(w, ks) == GatherHashes(preds, run.hashes)
    ensures SilentOf(w, ks) == GatherSilent(preds, before, run.traces)
  {
    if preds == [] {
      ks := [];
    } else {
      var front, p := preds[..|preds| - 1], preds[|preds| - 1];
      assert preds == front + [p];
      ks := TreesBehind(w, keys, plain, run, front, before);
      if p in run.hashes {
        var k := TreeBehind(w, keys, run, p);
        assert TaskDone(w, plain, p, run.done[p], run.traces);
        OneMoreTree(w, run, front, before, p, ks, k);
        ks := ks + [k];
      } else {
        NoMoreTree(w, run, front, before, p);
      }
    }
  }

  lemma KeyFrom(w: World, input: HashInput, ks: seq<KeyTree>, silent: multiset<Trace>)
    requires Clean(input) && AllValid(w, ks) && Hashes(w, ks) == input.predHashes && SilentOf(w, ks) == silent
    ensures KeyOf(w, w.hash(input), Trace(Visible(input), silent))
  {
    var k := KeyTree(input, ks);
    assert forall i :: 0 <= i < |ks| ==> Hashes(w, ks)[i] == w.hash(ks[i].input);
    assert ValidTree(w, k) && TraceOf(w, k) == Trace(Visible(input), silent);
  }

  /** A task whose silent predecessors have all published is looked up under a key of its own
      execution. */
  lemma KeyOfCovered(w: World, plain: seq<Done>, run: Run, t: nat)
    requires Trusted(w) && RunSound(w, Keys(w), plain, run) && t < |run.job.tasks| && PredecessorsCovered(run, t)
    ensures Keys(w)(w.hash(InputNow(w, run, t)), TraceNow(w, run, t))
  {
    KeysAreSound(w);
    InputClean(w, Keys(w), plain, run, t);
    var ks := TreesBehind(w, Keys(w), plain, run, run.job.tasks[t].preds, Before(run, t));
    KeyFrom(w, InputNow(w, run, t), ks, GatherSilent(run.job.tasks[t].preds, Before(run, t), run.traces));
  }

  lemma KeysAreSound(w: World)
    requires Trusted(w)
    ensures SoundKeys(Keys(w))
  {
    forall hash, a, b | KeyOf(w, hash, a) && KeyOf(w, hash, b) ensures a == b {
      KeysUnique(w, hash, a, b);
    }
  }

  lemma KeysUnique(w: World, hash: string, a: Trace, b: Trace)
    requires CollisionFree(w) && KeyOf(w, hash, a) && KeyOf(w, hash, b)
    ensures a == b
  {
    var k :| ValidTree(w, k) && w.hash(k.input) == hash && TraceOf(w, k) == a;
    var l :| ValidTree(w, l) && w.hash(l.input) == hash && TraceOf(w, l) == b;
    KeyDeterminesTrace(w, k, l);
  }

  // ----- the steps -----

  lemma DoneOne(w: World, plain: seq<Done>, done: map<nat, Outcome>, traces: map<nat, Trace>, t: nat, o: Outcome,
                trace: Trace)
    requires DoneSound(w, plain, done, traces) && t !in done
    requires t < |plain| && o == w.exec(trace) == plain[t].outcome && trace == plain[t].trace
    ensures DoneSound(w, plain, done[t := o], traces[t := trace])
  {
    var done', traces' := done[t := o], traces[t := trace];
    forall u | u in done' ensures TaskDone(w, plain, u, done'[u], traces') {
      if u != t { assert TaskDone(w, plain, u, done[u], traces); }
    }
  }

  lemma DoneSkipped(w: World, plain: seq<Done>, done: map<nat, Outcome>, traces: map<nat, Trace>, t: nat)
    requires DoneSound(w, plain, done, traces) && t < |plain| && plain[t].outcome == Skipped
    ensures DoneSound(w, plain, done[t := Skipped], traces)
  {
    var done' := done[t := Skipped];
    forall u | u in done' ensures TaskDone(w, plain, u, done'[u], traces) {
      if u != t { assert TaskDone(w, plain, u, done[u], traces); }
    }
  }

  lemma HashesFrame(w: World, keys: KeyTable, done: map<nat, Outcome>, traces: map<nat, Trace>,
                    hashes: map<nat, string>,
                    t: nat, o: Outcome, trace: Trace)
    requires HashesSound(w, keys, done, traces, hashes) && t !in hashes
    ensures HashesSound(w, keys, done[t := o], traces[t := trace], hashes)
    ensures HashesSound(w, keys, done[t := o], traces, hashes)
  {
    var done', traces' := done[t := o], traces[t := trace];
    forall u | u in hashes
      ensures HashSound(w, keys, done', traces', u, hashes[u]) && HashSound(w, keys, done', traces, u, hashes[u])
    {
      assert HashSound(w, keys, done, traces, u, hashes[u]);
    }
  }

  lemma HashOne(w: World, keys: KeyTable, done: map<nat, Outcome>, traces: map<nat, Trace>, hashes: map<nat, string>,
                t: nat, hash: string)
    requires HashesSound(w, keys, done, traces, hashes) && HashSound(w, keys, done, traces, t, hash)
    ensures HashesSound(w, keys, done, traces, hashes[t := hash])
  {
    var hashes' := hashes[t := hash];
    forall u | u in hashes' ensures HashSound(w, keys, done, traces, u, hashes'[u]) {
      if u != t { assert HashSound(w, keys, done, traces, u, hashes[u]); }
    }
  }

  lemma PendingOne(w: World, keys: KeyTable, plain: seq<Done>, pending: map<nat, Pending>, t: nat, p: Pending)
    requires PendingsSound(w, keys, plain, pending) && PendingSound(w, keys, plain, t, p)
    ensures PendingsSound(w, keys, plain, pending[t := p])
  {
    var pending' := pending[t := p];
    forall u | u in pending' ensures PendingSound(w, keys, plain, u, pending'[u]) {
      if u != t { assert PendingSound(w, keys, plain, u, pending[u]); }
    }
  }

  lemma PendingDropped(w: World, keys: KeyTable, plain: seq<Done>, pending: map<nat, Pending>, t: nat)
    requires PendingsSound(w, keys, plain, pending)
    ensures PendingsSound(w, keys, plain, pending - {t})
  {
    forall u | u in pending - {t} ensures PendingSound(w, keys, plain, u, (pending - {t})[u]) {
      assert PendingSound(w, keys, plain, u, pending[u]);
    }
  }

  lemma ReadyIsUnpublished(w: World, keys: KeyTable, run: Run, t: nat)
    requires HashesSound(w, keys, run.done, run.traces, run.hashes) && t !in run.done
    ensures t !in run.hashes
  {
    assert t in run.hashes ==> HashSound(w, keys, run.done, run.traces, t, run.hashes[t]);
  }

  lemma FinishKeeps(w: World, keys: KeyTable, plain: seq<Done>, run: Run, t: nat, o: Outcome, trace: Trace)
    requires RunSound(w, keys, plain, run) && t < |run.job.tasks| && t !in run.done && t !in run.pending
    requires t < |plain| && o == w.exec(trace) == plain[t].outcome && trace == plain[t].trace
    ensures RunSound(w, keys, plain, Finish(run, t, o, trace))
  {
    DoneOne(w, plain, run.done, run.traces, t, o, trace);
    ReadyIsUnpublished(w, keys, run, t);
    HashesFrame(w, keys, run.done, run.traces, run.hashes, t, o, trace);
  }

  lemma SkipKeeps(w: World, keys: KeyTable, plain: seq<Done>, run: Run, t: nat)
    requires RunSound(w, keys, plain, run) && Ready(run, t) && !w.rule(run.job.tasks[t], Before(run, t))
    requires plain[t] == PlainTask(w, run.job, run.job.tasks[t], plain[..t])
    ensures RunSound(w, keys, plain, run.(done := run.done[t := Skipped]))
  {
    TraceIsPlain(w, plain, run, t);
    DoneSkipped(w, plain, run.done, run.traces, t);
    ReadyIsUnpublished(w, keys, run, t);
    HashesFrame(w, keys, run.done, run.traces, run.hashes, t, Skipped, TraceNow(w, run, t));
  }

  lemma PublishKeeps(w: World, keys: KeyTable, plain: seq<Done>, run: Run, t: nat, hash: string)
    requires RunSound(w, keys, plain, run) && t in run.done && t in run.traces && !run.done[t].Skipped?
    requires StandsFor(w, keys, hash, run.done[t], run.traces[t])
    ensures RunSound(w, keys, plain, run.(hashes := run.hashes[t := hash]))
  {
    HashOne(w, keys, run.done, run.traces, run.hashes, t, hash);
  }

  lemma MissKeeps(w: World, keys: KeyTable, plain: seq<Done>, run: Run, t: nat, p: Pending)
    requires RunSound(w, keys, plain, run) && t !in run.done && PendingSound(w, keys, plain, t, p)
    ensures RunSound(w, keys, plain, run.(pending := run.pending[t := p]))
  {
    PendingOne(w, keys, plain, run.pending, t, p);
  }

  /** A hit serves what execution would give, from an execution that depended on the same. */
  lemma HitIsExec(w: World, keys: KeyTable, e: Entry, origin: Trace, hash: string, trace: Trace)
    requires SoundKeys(keys) && EntrySound(w, keys, hash, e, origin) && keys(hash, trace)
    ensures origin == trace && w.exec(trace) == Finished(e.cached)
  {
  }

  lemma HitKeeps(w: World, keys: KeyTable, plain: seq<Done>, rows: Rows, origins: map<string, Trace>, run: Run, t: nat,
                 hash: string)
    requires SoundKeys(keys) && CacheSound(w, keys, rows, origins) && RunSound(w, keys, plain, run) && Ready(run, t)
    requires w.rule(run.job.tasks[t], Before(run, t)) && hash in rows && keys(hash, TraceNow(w, run, t))
    requires plain[t] == PlainTask(w, run.job, run.job.tasks[t], plain[..t])
    ensures RunSound(w, keys, plain,
                     Finish(run, t, Finished(rows[hash].cached), origins[hash]).(hashes := run.hashes[t := hash]))
  {
    var o, trace := Finished(rows[hash].cached), origins[hash];
    assert EntrySound(w, keys, hash, rows[hash], trace);
    HitIsExec(w, keys, rows[hash], trace, hash, TraceNow(w, run, t));
    TraceIsPlain(w, plain, run, t);
    FinishKeeps(w, keys, plain, run, t, o, trace);
    assert StandsFor(w, keys, hash, o, trace);
    PublishKeeps(w, keys, plain, Finish(run, t, o, trace), t, hash);
  }

  lemma ExecutionKeeps(w: World, keys: KeyTable, plain: seq<Done>, run: Run, t: nat, hash: Option<string>)
    requires RunSound(w, keys, plain, run) && Ready(run, t) && w.rule(run.job.tasks[t], Before(run, t))
    requires hash.Some? ==> keys(hash.value, TraceNow(w, run, t))
    requires plain[t] == PlainTask(w, run.job, run.job.tasks[t], plain[..t])
    ensures RunSound(w, keys, plain,
                     run.(pending := run.pending[t := Pending(InputNow(w, run, t), hash, TraceNow(w, run, t))]))
  {
    TraceIsPlain(w, plain, run, t);
    MissKeeps(w, keys, plain, run, t, Pending(InputNow(w, run, t), hash, TraceNow(w, run, t)));
  }

  /** A task that is ready is given its plain outcome, or handed to the plain execution. */
  lemma LookupKeeps(w: World, keys: KeyTable, plain: seq<Done>, rows: Rows, origins: map<string, Trace>, run: Run,
                    t: nat, clock: int, fails: bool)
    requires SoundKeys(keys) && CacheSound(w, keys, rows, origins) && RunSound(w, keys, plain, run) && Ready(run, t)
    requires run.job.tasks[t].caching && w.rule(run.job.tasks[t], Before(run, t)) ==>
      keys(w.hash(InputNow(w, run, t)), TraceNow(w, run, t))
    requires plain[t] == PlainTask(w, run.job, run.job.tasks[t], plain[..t])
    ensures RunSound(w, keys, plain, LookupIn(w, rows, origins, run, t, clock, fails))
  {
    var hash := w.hash(InputNow(w, run, t));
    if !w.rule(run.job.tasks[t], Before(run, t)) {
      SkipKeeps(w, keys, plain, run, t);
    } else if run.job.tasks[t].caching && !fails && Hit(rows, hash, clock) {
      HitKeeps(w, keys, plain, rows, origins, run, t, hash);
    } else {
      ExecutionKeeps(w, keys, plain, run, t, if run.job.tasks[t].caching then Some(hash) else None);
    }
  }

  /** What the short-circuit presents stands for the task: a silent task keeps its own key,
      and the substitute of a task with output is the key of an execution with the very same
      output. */
  lemma PresentedStands(w: World, keys: KeyTable, rows: Rows, origins: map<string, Trace>, job: nat, task: string,
                        clock: int, own: string,
                        trace: Trace, o: Outcome, priors: seq<PriorEntry>, presented: string)
    requires CacheSound(w, keys, rows, origins) && keys(own, trace) && o == w.exec(trace) && o.Finished?
    requires priors == [] || IsPriorList(rows, job, task, own, clock, priors)
    requires IsPresented(own, o.cached.output, priors, presented)
    ensures StandsFor(w, keys, presented, o, trace)
  {
    if presented == own {
      if !Silent(o) { assert keys(own, trace) && Loud(w.exec(trace)); }
    } else {
      assert Provable(own, o.cached.output);
      SubstituteIsNewestEqual(rows, job, task, clock, own, o.cached.output, priors, presented);
      assert EntrySound(w, keys, presented, rows[presented], origins[presented]);
      assert keys(presented, origins[presented]) && Loud(w.exec(origins[presented]));
    }
  }

  lemma StoreKeeps(w: World, keys: KeyTable, plain: seq<Done>, rows: Rows, origins: map<string, Trace>, run: Run,
                   t: nat, clock: int, expires: Option<int>)
    requires CacheSound(w, keys, rows, origins) && t in run.pending && t < |run.job.tasks|
    requires PendingSound(w, keys, plain, t, run.pending[t])
    ensures CacheSound(w, keys, StoreRow(w, rows, run, t, clock, expires), StoreOrigin(w, origins, run, t))
  {
    var p := run.pending[t];
    var o := w.exec(p.trace);
    if Publishes(p, o) {
      assert EntrySound(w, keys, p.hash.value, Entry(run.job.id, run.job.tasks[t].name, o.cached, clock, expires),
                        p.trace);
    }
  }

  lemma DropPending(w: World, keys: KeyTable, plain: seq<Done>, run: Run, t: nat)
    requires RunSound(w, keys, plain, run)
    ensures RunSound(w, keys, plain, run.(pending := run.pending - {t}))
  {
    PendingDropped(w, keys, plain, run.pending, t);
  }

  lemma CompleteKeeps(w: World, keys: KeyTable, plain: seq<Done>, rows: Rows, origins: map<string, Trace>, run: Run,
                      t: nat, clock: int, priors: seq<PriorEntry>, presented: string)
    requires CacheSound(w, keys, rows, origins) && RunSound(w, keys, plain, run) && t in run.pending
    requires t < |run.job.tasks|
    requires PresentedRightly(w, rows, run, t, clock, priors, presented)
    ensures RunSound(w, keys, plain, CompleteIn(w, run, t, presented))
  {
    var p := run.pending[t];
    var o := w.exec(p.trace);
    assert PendingSound(w, keys, plain, t, p);
    DropPending(w, keys, plain, run, t);
    var run1 := run.(pending := run.pending - {t});
    FinishKeeps(w, keys, plain, run1, t, o, p.trace);
    var run2 := Finish(run1, t, o, p.trace);
    if Publishes(p, o) {
      PresentedStands(w, keys, rows, origins, run.job.id, run.job.tasks[t].name, clock, p.hash.value, p.trace, o,
                      priors, presented);
      PublishKeeps(w, keys, plain, run2, t, presented);
      assert CompleteIn(w, run, t, presented) == run2.(hashes := run2.hashes[t := presented]);
    } else {
      assert CompleteIn(w, run, t, presented) == run2;
    }
  }

  lemma OneRunChanged(w: World, keys: KeyTable, s: State, rows: Rows, origins: map<string, Trace>, r: nat, run: Run)
    requires Inv(w, keys, s) && CacheSound(w, keys, rows, origins) && r < |s.runs|
    requires RunSound(w, keys, PlainRun(w, run.job), run)
    ensures Inv(w, keys, State(rows, origins, s.runs[r := run]))
  {
  }

  lemma CompleteStepKeeps(w: World, keys: KeyTable, s: State, step: Step)
    requires Inv(w, keys, s) && step.Complete? && CompleteEnabled(w, s, step)
    ensures Inv(w, keys, Next(w, s, step))
  {
    var run := s.runs[step.r];
    var plain := PlainRun(w, run.job);
    assert PendingSound(w, keys, plain, step.t, run.pending[step.t]);
    CompleteKeeps(w, keys, plain, s.rows, s.origins, run, step.t, step.clock, step.priors, step.presented);
    StoreKeeps(w, keys, plain, s.rows, s.origins, run, step.t, step.clock, step.expires);
    OneRunChanged(w, keys, s,
                  if step.stored then StoreRow(w, s.rows, run, step.t, step.clock, step.expires) else s.rows,
                  if step.stored then StoreOrigin(w, s.origins, run, step.t) else s.origins,
                  step.r, CompleteIn(w, run, step.t, step.presented));
  }

  lemma LookupWithKey(w: World, keys: KeyTable, s: State, r: nat, t: nat, clock: int, fails: bool)
    requires SoundKeys(keys) && Inv(w, keys, s) && r < |s.runs| && Ready(s.runs[r], t)
    requires var run := s.runs[r];
      (run.job.tasks[t].caching && w.rule(run.job.tasks[t], Before(run, t))) ==>
        keys(w.hash(InputNow(w, run, t)), TraceNow(w, run, t))
    ensures Inv(w, keys,
                State(s.rows, s.origins, s.runs[r := LookupIn(w, s.rows, s.origins, s.runs[r], t, clock, fails)]))
  {
    var run := s.runs[r];
    PlainRunAt(w, run.job, t);
    LookupKeeps(w, keys, PlainRun(w, run.job), s.rows, s.origins, run, t, clock, fails);
    OneRunChanged(w, keys, s, s.rows, s.origins, r, LookupIn(w, s.rows, s.origins, run, t, clock, fails));
  }

  lemma LookupStepKeeps(w: World, s: State, step: Step)
    requires Trusted(w) && Inv(w, Keys(w), s) && step.Lookup? && LookupEnabled(s, step) && !LooksUpUncovered(w, s, step)
    ensures Inv(w, Keys(w), Next(w, s, step))
  {
    var run := s.runs[step.r];
    KeysAreSound(w);
    if run.job.tasks[step.t].caching && w.rule(run.job.tasks[step.t], Before(run, step.t)) {
      KeyOfCovered(w, PlainRun(w, run.job), run, step.t);
    }
    LookupWithKey(w, Keys(w), s, step.r, step.t, step.clock, step.lookupFails);
  }

  /** A restart forgets what was under way and what the finished tasks were presented under. */
  lemma RestartKeeps(w: World, keys: KeyTable, plain: seq<Done>, run: Run)
    requires RunSound(w, keys, plain, run)
    ensures RunSound(w, keys, plain, run.(hashes := map[], pending := map[]))
  {
  }

  lemma StepKeepsInv(w: World, s: State, step: Step)
    requires Trusted(w) && Inv(w, Keys(w), s) && !LooksUpUncovered(w, s, step)
    ensures Inv(w, Keys(w), Next(w, s, step))
  {
    match step
    case Begin(job) =>
      if Numbered(job) && CleanJob(job) {
        assert RunSound(w, Keys(w), PlainRun(w, job), Run(job, map[], map[], map[], map[]));
      }
    case Lookup(r, t, clock, fails) =>
      if LookupEnabled(s, step) { LookupStepKeeps(w, s, step); }
    case Complete(_, _, _, _, _, _, _) =>
      if CompleteEnabled(w, s, step) { CompleteStepKeeps(w, Keys(w), s, step); }
    case Restart(r) =>
      if r < |s.runs| {
        RestartKeeps(w, Keys(w), PlainRun(w, s.runs[r].job), s.runs[r]);
        OneRunChanged(w, Keys(w), s, s.rows, s.origins, r, s.runs[r].(hashes := map[], pending := map[]));
      }
    case _ =>
  }

  // ----- whole histories -----

  const EMPTY := State(map[], map[], [])

  ghost function After(w: World, s: State, steps: seq<Step>): State {
    if steps == [] then s else Next(w, After(w, s, steps[..|steps| - 1]), steps[|steps| - 1])
  }

  ghost predicate AlwaysCovered(w: World, steps: seq<Step>) {
    forall i :: 0 <= i < |steps| ==> !LooksUpUncovered(w, After(w, EMPTY, steps[..i]), steps[i])
  }

  lemma {:induction false} HistoryKeepsInv(w: World, steps: seq<Step>)
    requires Trusted(w) && AlwaysCovered(w, steps)
    ensures Inv(w, Keys(w), After(w, EMPTY, steps))
  {
    if steps != [] {
      var front := steps[..|steps| - 1];
      forall i | 0 <= i < |front| ensures !LooksUpUncovered(w, After(w, EMPTY, front[..i]), front[i]) {
        assert front[..i] == steps[..i] && front[i] == steps[i];
      }
      HistoryKeepsInv(w, front);
      assert !LooksUpUncovered(w, After(w, EMPTY, front), steps[|steps| - 1]);
      StepKeepsInv(w, After(w, EMPTY, front), steps[|steps| - 1]);
    }
  }

  /** In every history of any number of runs over one cache, however their steps interleave
      and whatever is pruned, invalidated or lost, a task that is done has the outcome that
      executing every task would have given it, and the execution behind it depended on the
      same: as long as no caching task is looked up before its silent predecessors published. */
  lemma CachedIsPlain(w: World, steps: seq<Step>, r: nat, t: nat)
    requires Trusted(w) && AlwaysCovered(w, steps)
    requires r < |After(w, EMPTY, steps).runs| && t in After(w, EMPTY, steps).runs[r].done
    ensures var run := After(w, EMPTY, steps).runs[r];
      && t < |run.job.tasks| && run.done[t] == PlainRun(w, run.job)[t].outcome
      && (!run.done[t].Skipped? ==> t in run.traces && run.traces[t] == PlainRun(w, run.job)[t].trace)
  {
    HistoryKeepsInv(w, steps);
    var run := After(w, EMPTY, steps).runs[r];
    assert RunSound(w, Keys(w), PlainRun(w, run.job), run);
    assert TaskDone(w, PlainRun(w, run.job), t, run.done[t], run.traces);
  }
}
