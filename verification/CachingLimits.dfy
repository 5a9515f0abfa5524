/** When every lookup is covered without further ado, how a lookup that is not covered goes
    stale, and when the short-circuit spares a successor its execution. */
module CachingLimits {
  import opened Options
  import opened HashPreimage
  import opened ShortCircuit
  import opened CacheTable
  import opened Executions
  import opened CachedExecution

  // ----- jobs that are always covered -----

  /** A task runs only if the predecessors that ran succeeded. */
  ghost predicate DemandsSuccess(w: World) {
    forall spec: TaskSpec, before: map<nat, Outcome> :: w.rule(spec, before) ==>
      forall p :: p in before && !before[p].Skipped? ==> Succeeds(before[p])
  }

  predicate CachesAll(job: Job) {
    forall t :: 0 <= t < |job.tasks| ==> job.tasks[t].caching
  }

  /** Only jobs that cache every task are begun, and no process restarts. */
  predicate Steady(steps: seq<Step>) {
    forall i :: 0 <= i < |steps| ==> !steps[i].Restart? && (steps[i].Begin? ==> CachesAll(steps[i].job))
  }

  /** Every success has been published. */
  ghost predicate Gapless(run: Run) {
    && CachesAll(run.job)
    && (forall t :: t in run.done && Succeeds(run.done[t]) ==> t in run.hashes)
    && (forall t :: t in run.pending ==> run.pending[t].hash.Some?)
  }

  ghost predicate AllGapless(s: State) {
    forall r :: 0 <= r < |s.runs| ==> Gapless(s.runs[r])
  }

  lemma GaplessIsCovered(w: World, s: State, step: Step)
    requires DemandsSuccess(w) && AllGapless(s)
    ensures !LooksUpUncovered(w, s, step)
  {
    if step.Lookup? && LookupEnabled(s, step)
      && w.rule(s.runs[step.r].job.tasks[step.t], Before(s.runs[step.r], step.t)) {
      var run, t := s.runs[step.r], step.t;
      forall p | p in run.job.tasks[t].preds && p in run.done && Silent(run.done[p]) ensures p in run.hashes {
        assert p in Before(run, t) && Before(run, t)[p] == run.done[p];
      }
    }
  }

  lemma LookupKeepsGapless(w: World, rows: Rows, origins: map<string, Trace>, run: Run, t: nat, clock: int, fails: bool)
    requires Gapless(run) && Ready(run, t)
    ensures Gapless(LookupIn(w, rows, origins, run, t, clock, fails))
  {
  }

  lemma CompleteKeepsGapless(w: World, run: Run, t: nat, presented: string)
    requires Gapless(run) && t in run.pending
    ensures Gapless(CompleteIn(w, run, t, presented))
  {
  }

  lemma StepKeepsGapless(w: World, s: State, step: Step)
    requires AllGapless(s) && !step.Restart? && (step.Begin? ==> CachesAll(step.job))
    ensures AllGapless(Next(w, s, step))
  {
    if step.Lookup? && LookupEnabled(s, step) {
      LookupKeepsGapless(w, s.rows, s.origins, s.runs[step.r], step.t, step.clock, step.lookupFails);
    } else if step.Complete? && CompleteEnabled(w, s, step) {
      CompleteKeepsGapless(w, s.runs[step.r], step.t, step.presented);
    }
  }

  lemma {:induction false} SteadyIsGapless(w: World, steps: seq<Step>)
    requires Steady(steps)
    ensures AllGapless(After(w, EMPTY, steps))
  {
    if steps != [] {
      SteadyIsGapless(w, steps[..|steps| - 1]);
      StepKeepsGapless(w, After(w, EMPTY, steps[..|steps| - 1]), steps[|steps| - 1]);
    }
  }

  /** If every task caches, tasks run only after successes and no process restarts, every
      lookup is covered, so `CachedIsPlain` holds of the whole history. */
  lemma SteadyIsCovered(w: World, steps: seq<Step>)
    requires DemandsSuccess(w) && Steady(steps)
    ensures AlwaysCovered(w, steps)
  {
    forall i | 0 <= i < |steps| ensures !LooksUpUncovered(w, After(w, EMPTY, steps[..i]), steps[i]) {
      SteadyIsGapless(w, steps[..i]);
      GaplessIsCovered(w, After(w, EMPTY, steps[..i]), steps[i]);
    }
  }

  // ----- a lookup that is not covered -----

  /** Two versions of a job: the first task has changed and prints nothing, the second one
      has not changed and caches. */
  ghost predicate SilentChange(w: World, job: Job, job': Job) {
    && |job.tasks| == |job'.tasks| == 2 && job.tasks[1] == job'.tasks[1]
    && job.tasks[0].preds == job'.tasks[0].preds == [] && job.tasks[1].preds == [0] && job.tasks[1].caching
    && Numbered(job) && Numbered(job') && CleanJob(job) && CleanJob(job')
    && Silent(PlainRun(w, job)[0].outcome) && Silent(PlainRun(w, job')[0].outcome)
    && Succeeds(PlainRun(w, job)[1].outcome) && !PlainRun(w, job')[1].outcome.Skipped?
    && PlainRun(w, job')[1].outcome != PlainRun(w, job)[1].outcome
  }

  /** The first task of a new run is executed; what it was presented under is forgotten. */
  ghost function FirstTask(w: World, s: State, job: Job): State
    requires |job.tasks| > 0
  {
    Next(w, BeforeRestart(w, s, job), Restart(|s.runs|))
  }

  ghost function BeforeRestart(w: World, s: State, job: Job): State
    requires |job.tasks| > 0
  {
    var r, own := |s.runs|, w.hash(InputOf(w, job, job.tasks[0], map[], []));
    Next(w, Next(w, Next(w, s, Begin(job)), Lookup(r, 0, 0, true)), Complete(r, 0, 0, [], own, false, None))
  }

  ghost function FirstDone(w: World, job: Job): Run
    requires |job.tasks| > 0
  {
    Run(job, map[0 := PlainRun(w, job)[0].outcome], map[0 := PlainRun(w, job)[0].trace], map[], map[])
  }

  ghost predicate FirstRuns(w: World, job: Job) {
    && |job.tasks| > 0 && job.tasks[0].preds == [] && Numbered(job) && CleanJob(job)
    && Silent(PlainRun(w, job)[0].outcome)
  }

  lemma FirstLookup(w: World, s: State, job: Job, run: Run)
    requires FirstRuns(w, job) && run == Run(job, map[], map[], map[], map[])
    ensures Ready(run, 0)
    ensures var input := InputOf(w, job, job.tasks[0], map[], []);
      LookupIn(w, s.rows, s.origins, run, 0, 0, true)
        == run.(pending := map[0 := Pending(input, if job.tasks[0].caching then Some(w.hash(input)) else None,
                                            PlainRun(w, job)[0].trace)])
    ensures w.exec(PlainRun(w, job)[0].trace) == PlainRun(w, job)[0].outcome
  {
    PlainRunAt(w, job, 0);
    var plain := PlainRun(w, job);
    assert Before(run, 0) == map[] == OutcomesOf(job.tasks[0].preds, plain[..0]);
  }

  lemma FirstComplete(w: World, s: State, job: Job, run: Run)
    requires FirstRuns(w, job) && w.exec(PlainRun(w, job)[0].trace) == PlainRun(w, job)[0].outcome
    requires var input := InputOf(w, job, job.tasks[0], map[], []);
      run
        == Run(job, map[], map[], map[],
               map[0 := Pending(input, if job.tasks[0].caching then Some(w.hash(input)) else None,
                                PlainRun(w, job)[0].trace)])
    ensures var own := w.hash(InputOf(w, job, job.tasks[0], map[], []));
      && PresentedRightly(w, s.rows, run, 0, 0, [], own)
      && CompleteIn(w, run, 0, own).(hashes := map[]) == FirstDone(w, job)
      && (!job.tasks[0].caching ==> CompleteIn(w, run, 0, own) == FirstDone(w, job))
  {
    assert run.pending - {0} == map[];
  }

  lemma LastReplaced(runs: seq<Run>, a: Run, b: Run)
    ensures (runs + [a])[|runs| := b] == runs + [b]
  {
  }

  lemma FirstTaskDone(w: World, s: State, job: Job)
    requires FirstRuns(w, job)
    ensures FirstTask(w, s, job) == s.(runs := s.runs + [FirstDone(w, job)])
    ensures !job.tasks[0].caching ==> BeforeRestart(w, s, job) == FirstTask(w, s, job)
  {
    var r, own := |s.runs|, w.hash(InputOf(w, job, job.tasks[0], map[], []));
    var run0 := Run(job, map[], map[], map[], map[]);
    var s1 := s.(runs := s.runs + [run0]);
    FirstLookup(w, s1, job, run0);
    var run1 := LookupIn(w, s1.rows, s1.origins, run0, 0, 0, true);
    LastReplaced(s.runs, run0, run1);
    var s2 := s.(runs := s.runs + [run1]);
    assert Next(w, s1, Lookup(r, 0, 0, true)) == s2;
    FirstComplete(w, s2, job, run1);
    LastReplaced(s.runs, run1, CompleteIn(w, run1, 0, own));
    var s3 := s.(runs := s.runs + [CompleteIn(w, run1, 0, own)]);
    assert Next(w, s2, Complete(r, 0, 0, [], own, false, None)) == s3;
    LastReplaced(s.runs, CompleteIn(w, run1, 0, own), FirstDone(w, job));
  }

  lemma GatherOne(job: Job, outcomes: map<nat, Outcome>, traces: map<nat, Trace>)
    requires 0 in outcomes ==> Silent(outcomes[0])
    ensures Gather(job, [0], outcomes) == map[] && GatherHashes([0], map[]) == []
    ensures GatherSilent([0], outcomes, traces) == if 0 in outcomes && 0 in traces
      then multiset{traces[0]} else multiset{}
  {
    assert [0][..0] == [];
  }

  lemma SecondPlain(w: World, job: Job, plain: seq<Done>)
    requires |job.tasks| == |plain| == 2 && job.tasks[1].preds == [0] && Silent(plain[0].outcome)
    requires plain[1] == PlainTask(w, job, job.tasks[1], plain[..1])
    ensures plain[1].trace == Trace(Visible(InputOf(w, job, job.tasks[1], map[], [])), multiset{plain[0].trace})
    ensures plain[1].outcome == if w.rule(job.tasks[1], map[0 := plain[0].outcome]) then w.exec(plain[1].trace)
      else Skipped
  {
    var before, traces := OutcomesOf([0], plain[..1]), TracesOf([0], plain[..1]);
    assert before == map[0 := plain[0].outcome] && traces == map[0 := plain[0].trace];
    GatherOne(job, before, traces);
    GatherOne(job, map[], map[]);
  }

  /** The second task's key does not show the first task, and its execution does. */
  lemma SecondLookup(w: World, job: Job)
    requires |job.tasks| == 2 && job.tasks[1].preds == [0] && Silent(PlainRun(w, job)[0].outcome)
    ensures var run := FirstDone(w, job);
      && Ready(run, 1) && InputNow(w, run, 1) == InputOf(w, job, job.tasks[1], map[], [])
      && TraceNow(w, run, 1) == PlainRun(w, job)[1].trace
      && PlainRun(w, job)[1].outcome == if w.rule(job.tasks[1], Before(run, 1)) then w.exec(PlainRun(w, job)[1].trace)
        else Skipped
  {
    var run := FirstDone(w, job);
    PlainRunAt(w, job, 1);
    SecondPlain(w, job, PlainRun(w, job));
    assert Before(run, 1) == map[0 := PlainRun(w, job)[0].outcome];
    GatherOne(job, Before(run, 1), run.traces);
    GatherOne(job, map[], map[]);
  }

  /** The second task is executed and its result stored. */
  ghost function SecondStored(w: World, s: State, job: Job): State
    requires |job.tasks| == 2
  {
    Next(w, Next(w, s, Lookup(0, 1, 0, false)),
         Complete(0, 1, 0, [], w.hash(InputOf(w, job, job.tasks[1], map[], [])), true, None))
  }

  lemma SecondIsStored(w: World, job: Job)
    requires |job.tasks| == 2 && job.tasks[1].preds == [0] && job.tasks[1].caching && Numbered(job)
    requires Silent(PlainRun(w, job)[0].outcome) && Succeeds(PlainRun(w, job)[1].outcome)
    ensures var s := SecondStored(w, State(map[], map[], [FirstDone(w, job)]), job);
      var own := w.hash(InputOf(w, job, job.tasks[1], map[], []));
      && |s.runs| == 1 && own in s.rows && own in s.origins && s.rows[own].expiresAt == None
      && Finished(s.rows[own].cached) == PlainRun(w, job)[1].outcome
  {
    SecondLookup(w, job);
    var own := w.hash(InputOf(w, job, job.tasks[1], map[], []));
    var s := State(map[], map[], [FirstDone(w, job)]);
    var s1 := Next(w, s, Lookup(0, 1, 0, false));
    assert s1.runs[0].pending
      == map[1 := Pending(InputOf(w, job, job.tasks[1], map[], []), Some(own), PlainRun(w, job)[1].trace)];
    assert PresentedRightly(w, s1.rows, s1.runs[0], 1, 0, [], own);
  }

  /** The whole history: the old version runs and stores its second result, then the new
      version runs up to the lookup of its second task. */
  ghost function StaleHistory(w: World, job: Job, job': Job): State
    requires |job.tasks| == |job'.tasks| == 2
  {
    Next(w, FirstTask(w, SecondStored(w, FirstTask(w, EMPTY, job), job), job'), Lookup(1, 1, 0, false))
  }

  /** A caching task behind a silent predecessor whose hash is gone, because that one does not
      cache or the process restarted, is served the result of the old version. */
  lemma UncoveredGoesStale(w: World, job: Job, job': Job)
    requires SilentChange(w, job, job')
    ensures var s := StaleHistory(w, job, job');
      && |s.runs| == 2 && s.runs[1].job == job' && 1 in s.runs[1].done
      && s.runs[1].done[1] == PlainRun(w, job)[1].outcome != PlainRun(w, job')[1].outcome
  {
    StateBeforeLookup(w, job, job');
    SameInput(w, job, job');
    LastLookup(w, FirstTask(w, SecondStored(w, FirstTask(w, EMPTY, job), job), job'), job');
  }

  /** The old result is stored when the new version has executed its first task. */
  lemma StateBeforeLookup(w: World, job: Job, job': Job)
    requires SilentChange(w, job, job')
    ensures var s := FirstTask(w, SecondStored(w, FirstTask(w, EMPTY, job), job), job');
      var own := w.hash(InputOf(w, job, job.tasks[1], map[], []));
      && |s.runs| == 2 && s.runs[1] == FirstDone(w, job') && own in s.rows && own in s.origins
      && s.rows[own].expiresAt == None
      && Finished(s.rows[own].cached) == PlainRun(w, job)[1].outcome
  {
    FirstTaskDone(w, EMPTY, job);
    assert EMPTY.runs + [FirstDone(w, job)] == [FirstDone(w, job)];
    SecondIsStored(w, job);
    FirstTaskDone(w, SecondStored(w, FirstTask(w, EMPTY, job), job), job');
  }

  /** The second task is served what is stored under its key. */
  lemma LastLookup(w: World, s: State, job: Job)
    requires |s.runs| == 2 && |job.tasks| == 2 && s.runs[1] == FirstDone(w, job)
    requires job.tasks[1].preds == [0] && job.tasks[1].caching && Numbered(job) && Silent(PlainRun(w, job)[0].outcome)
    requires !PlainRun(w, job)[1].outcome.Skipped?
    requires var own := w.hash(InputOf(w, job, job.tasks[1], map[], []));
      own in s.rows && own in s.origins && s.rows[own].expiresAt == None
    ensures var s' := Next(w, s, Lookup(1, 1, 0, false));
      && |s'.runs| == 2 && s'.runs[1].job == job && 1 in s'.runs[1].done
      && s'.runs[1].done[1] == Finished(s.rows[w.hash(InputOf(w, job, job.tasks[1], map[], []))].cached)
  {
    SecondLookup(w, job);
  }

  lemma SameInput(w: World, job: Job, job': Job)
    requires |job.tasks| == |job'.tasks| == 2 && job.tasks[1] == job'.tasks[1] && job.tasks[1].preds == [0]
    ensures InputOf(w, job', job'.tasks[1], map[], []) == InputOf(w, job, job.tasks[1], map[], [])
  {
    GatherOne(job, map[], map[]);
    GatherOne(job', map[], map[]);
  }

  // ----- what the short-circuit spares -----

  /** A successor's key changes with the hash that one predecessor is presented under, and
      with nothing less. */
  lemma KeyFollowsPresentedHash(w: World, input: HashInput, i: nat, hash: string)
    requires CollisionFree(w) && Canonical(w) && Clean(input) && i < |input.predHashes| && CleanText(hash)
    ensures w.hash(input.(predHashes := input.predHashes[i := hash])) == w.hash(input) <==> hash == input.predHashes[i]
  {
    var hs, hs' := input.predHashes, input.predHashes[i := hash];
    var input' := input.(predHashes := hs');
    if hash == hs[i] {
      assert hs' == hs;
    } else {
      assert Clean(input');
      assert multiset(hs') == multiset(hs) - multiset{hs[i]} + multiset{hash};
      assert multiset(hs')[hash] == multiset(hs)[hash] + 1;
      assert IdentityOf(input) != IdentityOf(input');
    }
  }

  /** A predecessor ran again under a new identity and gave the output it gave under `hash`,
      with which a successor was looked up before. The successor's key stays as it was exactly
      when no newer live entry of the predecessor has that output. So it is spared after the
      first such change; after the second, the entry that the first one left is newer. */
  lemma SuccessorIsSparedExactlyWhen(w: World, input: HashInput, i: nat, rows: Rows, job: nat, task: string, clock: int,
                                     newHash: string, output: Env, priors: seq<PriorEntry>, presented: string)
    requires CollisionFree(w) && Canonical(w) && Clean(input) && i < |input.predHashes| && CleanText(presented)
    requires IsPriorList(rows, job, task, newHash, clock, priors) && |priors| < MAX_PRIORS && task != ""
    requires IsPresented(newHash, output, priors, presented) && Provable(newHash, output)
    requires EqualPrior(rows, job, task, newHash, clock, output, input.predHashes[i])
    requires NoTies(rows, job, task, newHash, clock, output)
    ensures w.hash(input.(predHashes := input.predHashes[i := presented])) == w.hash(input)
       <==> forall h :: EqualPrior(rows, job, task, newHash, clock, output, h) ==>
         rows[h].createdAt <= rows[input.predHashes[i]].createdAt
  {
    KeyFollowsPresentedHash(w, input, i, presented);
    PresentsExactlyTheNewest(rows, job, task, clock, newHash, output, priors, presented, input.predHashes[i]);
  }
}
