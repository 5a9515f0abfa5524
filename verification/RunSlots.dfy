/** What the concurrency policy of a job guarantees over whole histories, and what that means
    for the runs of one key. */
module RunSlots {
  import opened Options
  import opened RunAdmission
  import opened Derivations
  import opened OneRunPerKey

  // ----- a job never runs more than its policy allows -----

  /** The job's policy allows at most m runs. */
  predicate Allows(policies: Policies, job: nat, m: nat) {
    job in policies && policies[job].maxRuns <= m
  }

  /** A person retries a run of the job that takes a slot, with m slots taken already. */
  predicate RetriesBeyond(s: State, step: Step, job: nat, m: nat) {
    && step.Retry? && step.id in s.runs && s.runs[step.id].status.Ended?
    && Takes(s.runs[step.id].(status := Active), job)
    && |Taken(s.runs, job)| >= m
  }

  lemma StatusStep(runs: Runs, id: nat, status: RunStatus, job: nat)
    requires id in runs
    ensures var before, after := |Taken(runs, job)|, |Taken(runs[id := runs[id].(status := status)], job)|;
      after
        == before + (if Takes(runs[id].(status := status), job) then 1 else 0) - (if Takes(runs[id], job) then 1 else 0)
  {
    var row := runs[id].(status := status);
    if id in Taken(runs, job) {
      if Takes(row, job) {
        assert Taken(runs[id := row], job) == Taken(runs, job);
      } else {
        TakenLess(runs, id, row, job);
      }
    } else {
      TakenMore(runs, id, row, job);
    }
  }

  lemma PlacedWithinSlots(s: State, asked: nat, origin: Origin, caller: Caller, pick: Pick, job: nat, m: nat)
    requires Allows(s.policies, job, m) && |Taken(s.runs, job)| <= m
    ensures |Taken(PlacedRuns(s, asked, origin, caller, pick), job)| <= m
  {
    if asked == job {
      AdmissionRespectsSlots(s.policies, s.runs, job, caller, origin, pick);
    } else {
      AdmissionLeavesOthers(Judge(s.policies, s.runs, asked, caller), s.runs, asked, origin, pick, job);
    }
  }

  predicate Asks(step: Step) {
    step.Admit? || step.StartQueued? || step.StartOther?
  }

  lemma AskedWithinSlots(s: State, step: Step, job: nat, m: nat)
    requires Asks(step) && Allows(s.policies, job, m) && |Taken(s.runs, job)| <= m
    ensures |Taken(NextRuns(s, step), job)| <= m
  {
    match step
    case Admit(pick) =>
      if s.phase.Checked? {
        PlacedWithinSlots(s, s.phase.key.job, OriginFor(s.phase.e, s.phase.key), Caller.Evaluator, pick, job, m);
      }
    case StartQueued(d, pick) =>
      if At(s, d, Holding) { PlacedWithinSlots(s, s.dequeuers[d].job, s.dequeuers[d].origin, Dequeuing, pick, job, m); }
    case StartOther(asked, depth, pick) => PlacedWithinSlots(s, asked, Origin(None, depth, None), Other, pick, job, m);
  }

  lemma StatusWithinSlots(s: State, step: Step, job: nat, m: nat)
    requires step.Finish? || step.Retry? || step.RetryAdmitted?
    requires Allows(s.policies, job, m) && |Taken(s.runs, job)| <= m
    ensures |Taken(NextRuns(s, step), job)| > m <==> RetriesBeyond(s, step, job, m)
  {
    if step.id in s.runs { StatusStep(s.runs, step.id, if step.Finish? then Ended else Active, job); }
  }

  lemma OthersWithinSlots(s: State, step: Step, job: nat, m: nat)
    requires (step.StartExempt? || step.CancelRun?) && |Taken(s.runs, job)| <= m
    ensures |Taken(NextRuns(s, step), job)| <= m
  {
    if step.CancelRun? {
      CancelFrees(s.runs, step.id, job);
    } else if step.id !in s.runs && !step.kind.Ordinary? {
      TakenMore(s.runs, step.id, RunRow(step.job, Origin(None, step.depth, None), Active, step.kind), job);
    }
  }

  /** Only such a retry takes a job beyond its limit, and every such retry does. */
  lemma SlotsStep(s: State, step: Step, job: nat, m: nat)
    requires Allows(s.policies, job, m) && |Taken(s.runs, job)| <= m
    ensures |Taken(NextRuns(s, step), job)| > m <==> RetriesBeyond(s, step, job, m)
  {
    if Asks(step) {
      AskedWithinSlots(s, step, job, m);
    } else if step.StartExempt? || step.CancelRun? {
      OthersWithinSlots(s, step, job, m);
    } else if step.Finish? || step.Retry? || step.RetryAdmitted? {
      StatusWithinSlots(s, step, job, m);
    }
  }

  ghost predicate AlwaysAllows(limits: Limits, steps: seq<Step>, job: nat, m: nat) {
    forall i :: 0 <= i < |steps| ==> Allows(After(limits, steps[..i]).policies, job, m)
  }

  ghost predicate Exceeds(limits: Limits, steps: seq<Step>, n: nat, job: nat, m: nat)
    requires n <= |steps|
  {
    |Taken(After(limits, steps[..n]).runs, job)| > m
  }

  lemma NoneAtFirst(limits: Limits, steps: seq<Step>, job: nat)
    ensures Taken(After(limits, steps[..0]).runs, job) == {}
  {
    assert steps[..0] == [];
  }

  lemma {:induction false} FirstExcess(limits: Limits, steps: seq<Step>, n: nat, job: nat, m: nat)
    requires AlwaysAllows(limits, steps, job, m) && n <= |steps| && Exceeds(limits, steps, n, job, m)
    ensures exists i :: 0 <= i < n && RetriesBeyond(After(limits, steps[..i]), steps[i], job, m)
  {
    NoneAtFirst(limits, steps, job);
    if n > 0 {
      assert steps[..n] == steps[..n - 1] + [steps[n - 1]];
      RunOneMore(limits, Init(limits), steps[..n - 1], steps[n - 1]);
      if Exceeds(limits, steps, n - 1, job, m) {
        FirstExcess(limits, steps, n - 1, job, m);
      } else {
        SlotsStep(After(limits, steps[..n - 1]), steps[n - 1], job, m);
      }
    }
  }

  lemma RetryExceeds(limits: Limits, steps: seq<Step>, i: nat, job: nat, m: nat)
    requires i < |steps| && RetriesBeyond(After(limits, steps[..i]), steps[i], job, m)
    ensures Exceeds(limits, steps, i + 1, job, m)
  {
    var s := After(limits, steps[..i]);
    assert steps[..i + 1] == steps[..i] + [steps[i]];
    RunOneMore(limits, Init(limits), steps[..i], steps[i]);
    StatusStep(s.runs, steps[i].id, Active, job);
  }

  /** In every history in which the job's policy allows at most m runs, more than m take slots
      at some time exactly when a person retries a run while m slots are taken. */
  lemma SlotsExceededExactlyWhen(limits: Limits, steps: seq<Step>, job: nat, m: nat)
    requires AlwaysAllows(limits, steps, job, m)
    ensures (exists n :: 0 <= n <= |steps| && Exceeds(limits, steps, n, job, m))
       <==> (exists i :: 0 <= i < |steps| && RetriesBeyond(After(limits, steps[..i]), steps[i], job, m))
  {
    if n :| 0 <= n <= |steps| && Exceeds(limits, steps, n, job, m) {
      FirstExcess(limits, steps, n, job, m);
    }
    if i :| 0 <= i < |steps| && RetriesBeyond(After(limits, steps[..i]), steps[i], job, m) {
      RetryExceeds(limits, steps, i, job, m);
    }
  }

  // ----- one slot, one run -----

  predicate KeyFitsJob(origin: Origin, job: nat) {
    origin.key.Some? ==> origin.key.value.job == job
  }

  /** Runs, rows and copies for a key belong to its job, and its runs are ordinary ones. */
  ghost predicate KeysFit(s: State) {
    && (forall id :: id in s.runs ==>
          KeyFitsJob(s.runs[id].origin, s.runs[id].job) && (s.runs[id].origin.key.Some? ==> s.runs[id].kind.Ordinary?))
    && (forall q :: q in s.queue ==> KeyFitsJob(s.queue[q].origin, s.queue[q].job))
    && (forall d :: d in s.dequeuers ==> KeyFitsJob(s.dequeuers[d].origin, s.dequeuers[d].job))
  }

  lemma StepKeepsKeys(limits: Limits, s: State, step: Step)
    requires KeysFit(s)
    ensures KeysFit(Next(limits, s, step))
  {
    StepKeepsRunKeys(s, step);
    StepKeepsRowKeys(limits, s, step);
  }

  lemma StepKeepsRunKeys(s: State, step: Step)
    requires KeysFit(s)
    ensures forall id :: id in NextRuns(s, step) ==>
      var row := NextRuns(s, step)[id];
      KeyFitsJob(row.origin, row.job) && (row.origin.key.Some? ==> row.kind.Ordinary?)
  {
  }

  lemma StepKeepsRowKeys(limits: Limits, s: State, step: Step)
    requires KeysFit(s)
    ensures forall q :: q in NextQueue(limits, s, step) ==>
      KeyFitsJob(NextQueue(limits, s, step)[q].origin, NextQueue(limits, s, step)[q].job)
  {
  }

  lemma {:induction false} HistoryKeepsKeys(limits: Limits, steps: seq<Step>)
    ensures KeysFit(After(limits, steps))
  {
    if steps != [] {
      HistoryKeepsKeys(limits, steps[..|steps| - 1]);
      StepKeepsKeys(limits, After(limits, steps[..|steps| - 1]), steps[|steps| - 1]);
    }
  }

  /** Two runs for a key take two slots of its job. */
  lemma TwoTakeTwo(s: State, k: Key)
    requires KeysFit(s) && TwoHold(s.runs, k)
    ensures |Taken(s.runs, k.job)| >= 2
  {
    var a, b :| a != b && IsUp(s.runs, a, k) && IsUp(s.runs, b, k);
    var rest := Taken(s.runs, k.job) - {a};
    assert a in Taken(s.runs, k.job) && b in rest && |rest - {b}| >= 0;
  }

  ghost predicate NoRetryBeyond(limits: Limits, steps: seq<Step>, job: nat, m: nat) {
    forall i :: 0 <= i < |steps| ==> !RetriesBeyond(After(limits, steps[..i]), steps[i], job, m)
  }

  /** If the job's policy allows one run at a time, no key of it ever has two runs, whatever
      dequeuers, reclaims, deaths and admitted retries do, unless a person retries a run while
      another one is running. */
  lemma OneSlotOneRun(limits: Limits, steps: seq<Step>, k: Key)
    requires AlwaysAllows(limits, steps, k.job, 1) && NoRetryBeyond(limits, steps, k.job, 1)
    ensures !TwoHold(After(limits, steps).runs, k)
  {
    if TwoHold(After(limits, steps).runs, k) {
      HistoryKeepsKeys(limits, steps);
      TwoTakeTwo(After(limits, steps), k);
      assert steps[..|steps|] == steps;
      FirstExcess(limits, steps, |steps|, k.job, 1);
    }
  }

  // ----- which jobs can have two runs for a key -----

  /** No person retries a run, and policies stay as they are. */
  predicate Unattended(steps: seq<Step>) {
    forall i :: 0 <= i < |steps| ==> !steps[i].Retry? && !steps[i].SetPolicy?
  }

  lemma {:induction false} PoliciesStay(limits: Limits, steps: seq<Step>)
    requires Unattended(steps)
    ensures After(limits, steps).policies == limits.policies
  {
    if steps != [] { PoliciesStay(limits, steps[..|steps| - 1]); }
  }

  /** Nothing is or will be for the key. */
  ghost predicate Unknown(s: State, k: Key) {
    && (forall id :: id in s.runs ==> s.runs[id].origin.key != Some(k))
    && (forall q :: q in s.queue ==> s.queue[q].origin.key != Some(k))
    && (forall d :: d in s.dequeuers ==> s.dequeuers[d].origin.key != Some(k))
  }

  lemma StepKeepsUnknown(limits: Limits, s: State, step: Step, k: Key)
    requires Unknown(s, k) && k.job !in s.policies
    ensures Unknown(Next(limits, s, step), k)
  {
    StepKeepsUnknownRuns(s, step, k);
    StepKeepsUnknownRows(limits, s, step, k);
  }

  lemma StepKeepsUnknownRuns(s: State, step: Step, k: Key)
    requires Unknown(s, k) && k.job !in s.policies
    ensures forall id :: id in NextRuns(s, step) ==> NextRuns(s, step)[id].origin.key != Some(k)
  {
  }

  lemma PlacingKeepsUnknownRows(limits: Limits, s: State, job: nat, origin: Origin, caller: Caller, pick: Pick, k: Key)
    requires Unknown(s, k) && (job !in s.policies || origin.key != Some(k))
    ensures forall q :: q in PlacedQueue(limits, s, job, origin, caller, pick) ==>
      PlacedQueue(limits, s, job, origin, caller, pick)[q].origin.key != Some(k)
  {
  }

  lemma StepKeepsUnknownRows(limits: Limits, s: State, step: Step, k: Key)
    requires Unknown(s, k) && k.job !in s.policies
    ensures forall q :: q in NextQueue(limits, s, step) ==> NextQueue(limits, s, step)[q].origin.key != Some(k)
  {
    match step
    case Admit(pick) =>
      if s.phase.Checked? {
        PlacingKeepsUnknownRows(limits, s, s.phase.key.job, OriginFor(s.phase.e, s.phase.key), Caller.Evaluator, pick,
                                k);
      }
    case StartOther(job, depth, pick) =>
      PlacingKeepsUnknownRows(limits, s, job, Origin(None, depth, None), Other, pick, k);
    case _ =>
  }

  lemma {:induction false} NothingDerived(limits: Limits, steps: seq<Step>, k: Key)
    requires Unattended(steps) && k.job !in limits.policies
    ensures Unknown(After(limits, steps), k)
  {
    if steps != [] {
      var front := steps[..|steps| - 1];
      NothingDerived(limits, front, k);
      PoliciesStay(limits, front);
      StepKeepsUnknown(limits, After(limits, front), steps[|steps| - 1], k);
    }
  }

  lemma TwoRunsNeedTwoSlots(limits: Limits, steps: seq<Step>, k: Key)
    requires Unattended(steps) && TwoHold(After(limits, steps).runs, k)
    ensures k.job in limits.policies && limits.policies[k.job].maxRuns >= 2
  {
    if k.job !in limits.policies {
      NothingDerived(limits, steps, k);
    } else if limits.policies[k.job].maxRuns == 1 {
      forall i | 0 <= i < |steps| ensures Allows(After(limits, steps[..i]).policies, k.job, 1) {
        PoliciesStay(limits, steps[..i]);
      }
      OneSlotOneRun(limits, steps, k);
    }
  }

  // The shortest history that gives a key two runs: derived, ended, looked for, retried by the
  // incident machinery before the request, and derived again.

  function Derivation(k: Key): seq<Step> {
    [Tick, ReadRuns(k), ReadQueue]
  }

  function FirstPart(k: Key): seq<Step> {
    Derivation(k) + [Admit(Pick(0, 0, 0, {})), End, Finish(0)]
  }

  function TwoRuns(k: Key): seq<Step> {
    FirstPart(k) + Derivation(k) + [RetryAdmitted(0), Admit(Pick(1, 0, 0, {}))]
  }

  /** A tick with its two reads, for a key that is free. */
  lemma Looks(limits: Limits, s: State, k: Key)
    requires s.phase.Idle? && !Busy(s, k)
    ensures Run(limits, s, Derivation(k)) == s.(phase := Checked(Evaluation(0, None, limits.maxDerivations, 0), k))
  {
    RunThree(limits, s, Tick, ReadRuns(k), ReadQueue);
    var e := Evaluation(0, None, limits.maxDerivations, 0);
    assert Next(limits, s, Tick) == s.(phase := Evaluating(e));
    assert Next(limits, s.(phase := Evaluating(e)), ReadRuns(k)) == s.(phase := Looked(e, k));
    assert Next(limits, s.(phase := Looked(e, k)), ReadQueue) == s.(phase := Checked(e, k));
  }

  function RowFor(k: Key, status: RunStatus): RunRow {
    RunRow(k.job, Origin(Some(k), 1, None), status, Ordinary)
  }

  lemma FirstRunEnded(limits: Limits, s: State, k: Key)
    requires s == State(limits.policies, map[], map[], map[], Checked(Evaluation(0, None, limits.maxDerivations, 0), k))
    requires k.job in limits.policies
    ensures Run(limits, s, [Admit(Pick(0, 0, 0, {})), End, Finish(0)])
         == State(limits.policies, map[0 := RowFor(k, Ended)], map[], map[], Idle)
  {
    RunThree(limits, s, Admit(Pick(0, 0, 0, {})), End, Finish(0));
    assert Taken(s.runs, k.job) == {};
    var s1 := Next(limits, s, Admit(Pick(0, 0, 0, {})));
    assert s1.runs == map[0 := RowFor(k, Active)] && s1.queue == map[] && s1.dequeuers == map[];
    var s2 := Next(limits, s1, End);
    assert s2 == s1.(phase := Idle);
    assert NextRuns(s2, Finish(0)) == map[0 := RowFor(k, Ended)];
  }

  lemma SecondRunBeside(limits: Limits, s: State, e: Evaluation, k: Key)
    requires s == State(limits.policies, map[0 := RowFor(k, Ended)], map[], map[], Checked(e, k))
    requires k.job in limits.policies && limits.policies[k.job].maxRuns >= 2
    ensures TwoHold(Next(limits, Next(limits, s, RetryAdmitted(0)), Admit(Pick(1, 0, 0, {}))).runs, k)
  {
    assert Taken(s.runs, k.job) == {};
    var s1 := Next(limits, s, RetryAdmitted(0));
    assert s1.runs == map[0 := RowFor(k, Active)] && Taken(s1.runs, k.job) == {0};
    var runs := NextRuns(s1, Admit(Pick(1, 0, 0, {})));
    assert IsUp(runs, 0, k) && IsUp(runs, 1, k);
  }

  lemma TwoRunsReached(limits: Limits, k: Key)
    requires k.job in limits.policies && limits.policies[k.job].maxRuns >= 2
    ensures TwoHold(After(limits, TwoRuns(k)).runs, k)
  {
    var e := Evaluation(0, None, limits.maxDerivations, 0);
    var first := [Admit(Pick(0, 0, 0, {})), End, Finish(0)];
    var s := State(limits.policies, map[0 := RowFor(k, Ended)], map[], map[], Idle);
    Looks(limits, Init(limits), k);
    FirstRunEnded(limits, Init(limits).(phase := Checked(e, k)), k);
    RunJoin(limits, Init(limits), Derivation(k), first);
    assert After(limits, FirstPart(k)) == s;
    Looks(limits, s, k);
    RunJoin(limits, Init(limits), FirstPart(k), Derivation(k));
    var looked := FirstPart(k) + Derivation(k);
    SecondRunBeside(limits, s.(phase := Checked(e, k)), e, k);
    RunOneMore(limits, Init(limits), looked, RetryAdmitted(0));
    RunOneMore(limits, Init(limits), looked + [RetryAdmitted(0)], Admit(Pick(1, 0, 0, {})));
    assert TwoRuns(k) == looked + [RetryAdmitted(0)] + [Admit(Pick(1, 0, 0, {}))];
  }

  /** With the policies as they are and no retries by persons, a key can come to have two runs
      exactly when its job has a policy that allows two. */
  lemma TwoRunsPossibleExactlyWhen(limits: Limits, k: Key)
    ensures (exists steps :: Unattended(steps) && TwoHold(After(limits, steps).runs, k))
       <==> k.job in limits.policies && limits.policies[k.job].maxRuns >= 2
  {
    if steps :| Unattended(steps) && TwoHold(After(limits, steps).runs, k) {
      TwoRunsNeedTwoSlots(limits, steps, k);
    }
    if k.job in limits.policies && limits.policies[k.job].maxRuns >= 2 {
      TwoRunsReached(limits, k);
      assert Unattended(TwoRuns(k));
    }
  }
}
