/** What a task of a run is given, and what the cache is used for, in terms of the run alone. */
module TaskInputs {
  import opened Options
  import opened HashPreimage
  import opened HashAgreement
  import opened CacheTable
  import opened Executions
  import opened CachedExecution

  // ----- outputs of predecessors -----

  /** The task has finished under the name, and printed something. */
  predicate Printed(job: Job, done: map<nat, Outcome>, p: nat, name: string) {
    && p < |job.tasks| && job.tasks[p].name == name && p in done && done[p].Finished?
    && |done[p].cached.output| > 0
  }

  ghost predicate SomePrinted(job: Job, done: map<nat, Outcome>, preds: seq<nat>, name: string) {
    exists p :: p in preds && Printed(job, done, p, name)
  }

  lemma {:induction false} GatheredExactly(job: Job, preds: seq<nat>, done: map<nat, Outcome>, name: string)
    ensures name in Gather(job, preds, done) <==> SomePrinted(job, done, preds, name)
    ensures name in Gather(job, preds, done) ==>
      exists p :: p in preds && Printed(job, done, p, name) && Gather(job, preds, done)[name] == done[p].cached.output
  {
    if preds != [] {
      var front, last := preds[..|preds| - 1], preds[|preds| - 1];
      assert preds == front + [last];
      GatheredExactly(job, front, done, name);
      assert SomePrinted(job, done, preds, name) <==>
        SomePrinted(job, done, front, name) || Printed(job, done, last, name);
    }
  }

  ghost predicate NamesDiffer(job: Job, preds: seq<nat>) {
    forall p, q ::
      (p in preds && q in preds && p < |job.tasks| && q < |job.tasks| && job.tasks[p].name == job.tasks[q].name) ==>
      p == q
  }

  /** A task is given, under each name, what the finished predecessor of that name printed, and
      nothing else. */
  lemma GivenTheOutputs(w: World, run: Run, t: nat, name: string)
    requires t < |run.job.tasks|
    ensures name in InputNow(w, run, t).predOutputs <==>
      SomePrinted(run.job, run.done, run.job.tasks[t].preds, name)
    ensures NamesDiffer(run.job, run.job.tasks[t].preds) ==>
      forall p :: p in run.job.tasks[t].preds && Printed(run.job, run.done, p, name) ==>
        name in InputNow(w, run, t).predOutputs
        && InputNow(w, run, t).predOutputs[name] == run.done[p].cached.output
  {
    var preds := run.job.tasks[t].preds;
    GatheredExactly(run.job, preds, Before(run, t), name);
    forall p | p in preds ensures Printed(run.job, Before(run, t), p, name) <==> Printed(run.job, run.done, p, name) {}
  }

  /** The variables are the task's own and those made of the outputs; the latter win. All else is
      as the task says. */
  lemma GivenTheVariables(w: World, run: Run, t: nat, k: string)
    requires t < |run.job.tasks|
    ensures var input, base := InputNow(w, run, t), run.job.tasks[t].base;
      var made := w.outputEnv(input.predOutputs);
      && (k in input.env <==> k in base.env || k in made)
      && (k in made ==> input.env[k] == made[k])
      && (k in base.env && k !in made ==> input.env[k] == base.env[k])
      && input == base.(env := input.env, predOutputs := input.predOutputs, predHashes := input.predHashes)
  {
  }

  // ----- hashes and executions of predecessors -----

  ghost predicate NoRepeats(preds: seq<nat>) {
    forall i, j :: 0 <= i < j < |preds| ==> preds[i] != preds[j]
  }

  function Presented(preds: seq<nat>, hashes: map<nat, string>, h: string): set<nat> {
    set p | p in preds && p in hashes && hashes[p] == h
  }

  lemma {:induction false} HashesCounted(preds: seq<nat>, hashes: map<nat, string>, h: string)
    requires NoRepeats(preds)
    ensures multiset(GatherHashes(preds, hashes))[h] == |Presented(preds, hashes, h)|
  {
    if preds == [] {
      assert Presented(preds, hashes, h) == {};
    } else {
      var front, last := preds[..|preds| - 1], preds[|preds| - 1];
      assert preds == front + [last] && last !in front;
      HashesCounted(front, hashes, h);
      assert Presented(preds, hashes, h)
          == Presented(front, hashes, h) + if last in hashes && hashes[last] == h then {last} else {};
    }
  }

  /** The predecessor ran, as the given execution, and printed nothing. */
  predicate RanSilently(done: map<nat, Outcome>, traces: map<nat, Trace>, p: nat, tr: Trace) {
    && p in done && (done[p] == Errored || (done[p].Finished? && |done[p].cached.output| == 0))
    && p in traces && traces[p] == tr
  }

  function Silents(preds: seq<nat>, done: map<nat, Outcome>, traces: map<nat, Trace>, tr: Trace): set<nat> {
    set p | p in preds && RanSilently(done, traces, p, tr)
  }

  lemma SilentsMore(front: seq<nat>, last: nat, done: map<nat, Outcome>, traces: map<nat, Trace>, tr: Trace)
    requires last !in front
    ensures |Silents(front + [last], done, traces, tr)|
         == |Silents(front, done, traces, tr)| + if RanSilently(done, traces, last, tr) then 1 else 0
  {
    assert Silents(front + [last], done, traces, tr)
        == Silents(front, done, traces, tr) + if RanSilently(done, traces, last, tr) then {last} else {};
  }

  lemma {:induction false} SilentCounted(preds: seq<nat>, done: map<nat, Outcome>, traces: map<nat, Trace>, tr: Trace)
    requires NoRepeats(preds)
    ensures GatherSilent(preds, done, traces)[tr] == |Silents(preds, done, traces, tr)|
  {
    if preds == [] {
      assert Silents(preds, done, traces, tr) == {};
    } else {
      var front, last := preds[..|preds| - 1], preds[|preds| - 1];
      assert preds == front + [last] && last !in front;
      SilentCounted(front, done, traces, tr);
      SilentsMore(front, last, done, traces, tr);
      GatherSilentMore(preds, done, traces, tr);
    }
  }

  lemma GatherSilentMore(preds: seq<nat>, done: map<nat, Outcome>, traces: map<nat, Trace>, tr: Trace)
    requires preds != []
    ensures GatherSilent(preds, done, traces)[tr]
         == GatherSilent(preds[..|preds| - 1], done, traces)[tr]
            + if RanSilently(done, traces, preds[|preds| - 1], tr) then 1 else 0
  {
  }

  /** The key covers the hash of every predecessor that has one, as often as there are such
      predecessors; the execution depends on every one that ran without printing. */
  lemma GivenTheRest(w: World, run: Run, t: nat, h: string, tr: Trace)
    requires t < |run.job.tasks| && NoRepeats(run.job.tasks[t].preds)
    ensures multiset(InputNow(w, run, t).predHashes)[h] == |Presented(run.job.tasks[t].preds, run.hashes, h)|
    ensures TraceNow(w, run, t).silent[tr] == |Silents(run.job.tasks[t].preds, run.done, run.traces, tr)|
  {
    var preds := run.job.tasks[t].preds;
    HashesCounted(preds, run.hashes, h);
    SilentCounted(preds, Before(run, t), run.traces, tr);
    assert Silents(preds, Before(run, t), run.traces, tr) == Silents(preds, run.done, run.traces, tr);
  }

  /** A container can tell two inputs apart exactly if they differ in more than the hashes of
      predecessors. */
  lemma SeesExactlyWhen(h: HashInput, h': HashInput)
    ensures Visible(h) == Visible(h') <==> Agree(h.(predHashes := []), h'.(predHashes := []))
  {
    IdentitiesAgree(h.(predHashes := []), h'.(predHashes := []));
  }

  // ----- plain execution -----

  /** A task is executed, on what it is given, exactly if its rule holds for what its
      predecessors came to in the same run. */
  lemma PlainRunMeans(w: World, job: Job, t: nat)
    requires t < |job.tasks| && Numbered(job)
    ensures var ds, preds := PlainRun(w, job), job.tasks[t].preds;
      var before := map p | p in preds :: ds[p].outcome;
      ds[t].outcome == if w.rule(job.tasks[t], before) then w.exec(ds[t].trace) else Skipped
  {
    PlainRunAt(w, job, t);
    var ds, preds := PlainRun(w, job), job.tasks[t].preds;
    assert OutcomesOf(preds, ds[..t]) == map p | p in preds :: ds[p].outcome;
  }

  // ----- the use of the cache -----

  /** A task that is ready is served from the cache exactly if it may be cached, its rule holds,
      the lookup works and there is an entry under its key that has not expired. */
  lemma ServedExactlyWhen(w: World, s: State, step: Step)
    requires step.Lookup? && step.r < |s.runs| && Ready(s.runs[step.r], step.t)
    requires forall h :: h in s.rows ==> h in s.origins
    ensures var run, key := s.runs[step.r], w.hash(InputNow(w, s.runs[step.r], step.t));
      var run' := Next(w, s, step).runs[step.r];
      var before := map p | p in run.job.tasks[step.t].preds && p in run.done :: run.done[p];
      var runs, hit := w.rule(run.job.tasks[step.t], before), key in s.rows
        && (s.rows[key].expiresAt == None || step.clock <= s.rows[key].expiresAt.value);
      && (!runs ==> run' == run.(done := run.done[step.t := Skipped]))
      && (runs && run.job.tasks[step.t].caching && !step.lookupFails && hit ==>
            && run'.done == run.done[step.t := Finished(s.rows[key].cached)]
            && run'.hashes == run.hashes[step.t := key] && run'.pending == run.pending)
      && (runs && !(run.job.tasks[step.t].caching && !step.lookupFails && hit) ==>
            && run'.done == run.done && run'.hashes == run.hashes && step.t in run'.pending
            && run'.pending[step.t].hash == if run.job.tasks[step.t].caching then Some(key) else None)
  {
  }

  /** An execution leaves an entry, under its own key and with its own result, exactly if it may
      be cached and succeeds. */
  lemma StoredExactlyWhen(w: World, s: State, step: Step)
    requires step.Complete? && CompleteEnabled(w, s, step) && step.stored
    ensures var run, p := s.runs[step.r], s.runs[step.r].pending[step.t];
      var o := w.exec(p.trace);
      var stores := p.hash.Some? && o.Finished? && o.cached.result in {"", "success", "ok"};
      && (stores ==>
            Next(w, s, step).rows
            == s.rows[p.hash.value := Entry(run.job.id, run.job.tasks[step.t].name, o.cached, step.clock,
                                            step.expires)])
      && (!stores ==> Next(w, s, step).rows == s.rows)
      && Next(w, s, step).runs[step.r].done == run.done[step.t := o]
      && (step.t in Next(w, s, step).runs[step.r].hashes <==> stores || step.t in run.hashes)
  {
  }
}
