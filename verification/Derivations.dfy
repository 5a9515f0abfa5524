/** The freshness evaluator as one process among others: it reads the runs, then the queue,
    and then asks for a run, while runs end, any number of dequeuers start queued runs, and
    other runs come and go between any two of its statements. */
module Derivations {
  import opened Options
  import opened RunAdmission

  datatype Stage = Holding | Started | Gone

  /** A claim of a dequeuer and its copy of the row. Nothing tells it that the row was taken
      away from it. */
  datatype Dequeuer = Dequeuer(qid: nat, job: nat, origin: Origin, stage: Stage)

  /** `policies` are those in force at the beginning. */
  datatype Limits = Limits(maxDerivations: Positive, maxDepth: Positive, maxQueue: Positive, policies: Policies)

  /** One evaluation: the trigger depth it runs at, its remaining budget and what it derived. */
  datatype Evaluation = Evaluation(depth: nat, cause: Option<nat>, budget: int, derived: nat)

  /** `Looked`: no run for the key was running. `Checked`: then none was queued either. */
  datatype Phase =
    | Idle
    | Evaluating(e: Evaluation)
    | Looked(e: Evaluation, key: Key)
    | Checked(e: Evaluation, key: Key)

  datatype State = State(policies: Policies, runs: Runs, queue: RunQueue, dequeuers: map<nat, Dequeuer>, phase: Phase)

  /** `Retry` is a person's, `RetryAdmitted` that of the incident machinery. */
  datatype Step =
    | Tick
    | Event(run: nat)
    | ReadRuns(key: Key)
    | ReadQueue
    | Admit(pick: Pick)
    | End
    | SetPolicy(job: nat, policy: Option<Policy>)
    | StartOther(job: nat, depth: nat, pick: Pick)
    | StartExempt(id: nat, job: nat, depth: nat, kind: Kind)
    | Finish(id: nat)
    | CancelRun(id: nat)
    | Retry(id: nat)
    | RetryAdmitted(id: nat)
    | CancelQueued(qid: nat)
    | Claim(d: nat, qid: nat)
    | StartQueued(d: nat, pick: Pick)
    | DeleteQueued(d: nat)
    | Release(d: nat)
    | Die(d: nat)
    | Reclaim(qid: nat)

  /** The evaluator's look counts every active run for the key that is not quarantined. */
  predicate Holds(r: RunRow, k: Key) {
    r.origin.key == Some(k) && r.status.Active? && !r.kind.Quarantined?
  }

  predicate Waits(q: QueueRow, k: Key) {
    q.origin.key == Some(k)
  }

  predicate Running(runs: Runs, k: Key) {
    exists id :: id in runs && Holds(runs[id], k)
  }

  predicate Waiting(queue: RunQueue, k: Key) {
    exists q :: q in queue && Waits(queue[q], k)
  }

  /** A run for the key is running or queued. */
  predicate Busy(s: State, k: Key) {
    Running(s.runs, k) || Waiting(s.queue, k)
  }

  function OriginFor(e: Evaluation, k: Key): Origin {
    Origin(Some(k), e.depth + 1, e.cause)
  }

  predicate MayCheck(limits: Limits, e: Evaluation) {
    e.budget > 0 && e.depth < limits.maxDepth
  }

  /** What admission makes of the runs. */
  function PlacedRuns(s: State, job: nat, origin: Origin, caller: Caller, pick: Pick): Runs {
    RunsAfter(Judge(s.policies, s.runs, job, caller), s.runs, job, origin, pick)
  }

  function PlacedQueue(limits: Limits, s: State, job: nat, origin: Origin, caller: Caller, pick: Pick): RunQueue {
    QueueAfter(Judge(s.policies, s.runs, job, caller), s.queue, job, origin, limits.maxQueue, pick)
  }

  predicate Creates(s: State, job: nat, caller: Caller, pick: Pick) {
    Inserts(Judge(s.policies, s.runs, job, caller), s.runs, job, pick)
  }

  /** Only a run that was created costs budget; a queued one does not. */
  function Spent(s: State, e: Evaluation, k: Key, pick: Pick): Evaluation {
    if Creates(s, k.job, Caller.Evaluator, pick) then e.(budget := e.budget - 1, derived := e.derived + 1) else e
  }

  predicate At(s: State, d: nat, stage: Stage) {
    d in s.dequeuers && s.dequeuers[d].stage == stage
  }

  /** The run has ended, and for an ordinary or backfill run the job has a slot. */
  predicate Readmits(s: State, id: nat) {
    && id in s.runs && s.runs[id].status.Ended?
    && (s.runs[id].kind.Quarantined? || HasSlot(s.policies, s.runs, s.runs[id].job))
  }

  function NextPolicies(s: State, step: Step): Policies {
    if !step.SetPolicy? then s.policies
    else if step.policy.Some? then s.policies[step.job := step.policy.value] else s.policies - {step.job}
  }

  /** Starting a queued run looks at neither the row nor the claim. */
  function NextRuns(s: State, step: Step): Runs {
    match step
    case Admit(pick) =>
      if s.phase.Checked?
      then PlacedRuns(s, s.phase.key.job, OriginFor(s.phase.e, s.phase.key), Caller.Evaluator, pick) else s.runs
    case StartQueued(d, pick) =>
      if At(s, d, Holding) then PlacedRuns(s, s.dequeuers[d].job, s.dequeuers[d].origin, Dequeuing, pick) else s.runs
    case StartOther(job, depth, pick) => PlacedRuns(s, job, Origin(None, depth, None), Other, pick)
    case StartExempt(id, job, depth, kind) =>
      if id !in s.runs && !kind.Ordinary?
      then s.runs[id := RunRow(job, Origin(None, depth, None), Active, kind)] else s.runs
    case Finish(id) =>
      if id in s.runs && s.runs[id].status.Active? then s.runs[id := s.runs[id].(status := Ended)] else s.runs
    case CancelRun(id) => Cancel(s.runs, id)
    case Retry(id) =>
      if id in s.runs && s.runs[id].status.Ended? then s.runs[id := s.runs[id].(status := Active)] else s.runs
    case RetryAdmitted(id) =>
      if Readmits(s, id) then s.runs[id := s.runs[id].(status := Active)] else s.runs
    case _ => s.runs
  }

  function WithClaim(queue: RunQueue, q: nat, claim: Option<nat>): RunQueue {
    if q in queue then queue[q := queue[q].(claim := claim)] else queue
  }

  predicate MayClaim(s: State, d: nat, q: nat) {
    d !in s.dequeuers && q in s.queue && s.queue[q].claim == None
  }

  /** Dequeuers claim rows of jobs that queue and had a slot when they looked; here they may
      claim any. Deleting looks at the row's id only. */
  function NextQueue(limits: Limits, s: State, step: Step): RunQueue {
    match step
    case Admit(pick) =>
      if s.phase.Checked?
      then PlacedQueue(limits, s, s.phase.key.job, OriginFor(s.phase.e, s.phase.key), Caller.Evaluator, pick)
      else s.queue
    case StartOther(job, depth, pick) => PlacedQueue(limits, s, job, Origin(None, depth, None), Other, pick)
    case CancelQueued(q) => if q in s.queue && s.queue[q].claim == None then s.queue - {q} else s.queue
    case Claim(d, q) => if MayClaim(s, d, q) then WithClaim(s.queue, q, Some(d)) else s.queue
    case DeleteQueued(d) =>
      if At(s, d, Holding) || At(s, d, Started) then s.queue - {s.dequeuers[d].qid} else s.queue
    case Release(d) =>
      if At(s, d, Holding) && s.dequeuers[d].qid in s.queue && s.queue[s.dequeuers[d].qid].claim == Some(d)
      then WithClaim(s.queue, s.dequeuers[d].qid, None) else s.queue
    case Reclaim(q) => WithClaim(s.queue, q, None)
    case _ => s.queue
  }

  function WithStage(s: State, d: nat, stage: Stage): map<nat, Dequeuer> {
    if d in s.dequeuers then s.dequeuers[d := s.dequeuers[d].(stage := stage)] else s.dequeuers
  }

  function NextDequeuers(s: State, step: Step): map<nat, Dequeuer> {
    match step
    case Claim(d, q) =>
      if MayClaim(s, d, q) then s.dequeuers[d := Dequeuer(q, s.queue[q].job, s.queue[q].origin, Holding)]
      else s.dequeuers
    case StartQueued(d, pick) =>
      if At(s, d, Holding) && Creates(s, s.dequeuers[d].job, Dequeuing, pick) then WithStage(s, d, Started)
      else s.dequeuers
    case DeleteQueued(d) => if At(s, d, Holding) || At(s, d, Started) then WithStage(s, d, Gone) else s.dequeuers
    case Release(d) => if At(s, d, Holding) then WithStage(s, d, Gone) else s.dequeuers
    case Die(d) => WithStage(s, d, Gone)
    case _ => s.dequeuers
  }

  function NextPhase(limits: Limits, s: State, step: Step): Phase {
    match step
    case Tick => if s.phase.Idle? then Evaluating(Evaluation(0, None, limits.maxDerivations, 0)) else s.phase
    case Event(run) =>
      if !s.phase.Idle? then s.phase
      else if run in s.runs
      then Evaluating(Evaluation(s.runs[run].origin.depth, Some(run), limits.maxDerivations, 0))
      else Evaluating(Evaluation(0, None, limits.maxDerivations, 0))
    case ReadRuns(key) =>
      if s.phase.Evaluating? && MayCheck(limits, s.phase.e) && !Running(s.runs, key)
      then Looked(s.phase.e, key) else s.phase
    case ReadQueue =>
      if !s.phase.Looked? then s.phase
      else if Waiting(s.queue, s.phase.key) then Evaluating(s.phase.e)
      else Checked(s.phase.e, s.phase.key)
    case Admit(pick) =>
      if s.phase.Checked? then Evaluating(Spent(s, s.phase.e, s.phase.key, pick)) else s.phase
    case End => Idle
    case _ => s.phase
  }

  /** A step writes each table as said above, in one transaction. */
  function Next(limits: Limits, s: State, step: Step): State {
    State(NextPolicies(s, step), NextRuns(s, step), NextQueue(limits, s, step), NextDequeuers(s, step),
          NextPhase(limits, s, step))
  }

  predicate OfEvaluator(step: Step) {
    step.Tick? || step.Event? || step.ReadRuns? || step.ReadQueue? || step.Admit? || step.End?
  }

  function Init(limits: Limits): State {
    State(limits.policies, map[], map[], map[], Idle)
  }

  function Run(limits: Limits, s: State, steps: seq<Step>): State {
    if steps == [] then s else Next(limits, Run(limits, s, steps[..|steps| - 1]), steps[|steps| - 1])
  }

  function After(limits: Limits, steps: seq<Step>): State {
    Run(limits, Init(limits), steps)
  }

  lemma RunOneMore(limits: Limits, s: State, steps: seq<Step>, step: Step)
    ensures Run(limits, s, steps + [step]) == Next(limits, Run(limits, s, steps), step)
  {
    assert (steps + [step])[..|steps|] == steps;
  }

  lemma {:induction false} RunJoin(limits: Limits, s: State, a: seq<Step>, b: seq<Step>)
    ensures Run(limits, s, a + b) == Run(limits, Run(limits, s, a), b)
    decreases |b|
  {
    if b == [] {
      assert a + b == a;
    } else {
      assert (a + b)[..|a + b| - 1] == a + b[..|b| - 1];
      RunJoin(limits, s, a, b[..|b| - 1]);
    }
  }

  lemma RunThree(limits: Limits, s: State, a: Step, b: Step, c: Step)
    ensures Run(limits, s, [a, b, c]) == Next(limits, Next(limits, Next(limits, s, a), b), c)
  {
    RunOneMore(limits, s, [a, b], c);
    RunOneMore(limits, s, [a], b);
    RunOneMore(limits, s, [], a);
    assert [a, b, c] == [a, b] + [c] && [a, b] == [a] + [b] && [a] == [] + [a];
  }

  // ----- budget -----

  ghost predicate WithinBudget(limits: Limits, phase: Phase) {
    !phase.Idle? ==>
      && phase.e.derived + phase.e.budget == limits.maxDerivations
      && phase.e.derived <= limits.maxDerivations
      && (phase.Looked? || phase.Checked? ==> phase.e.budget > 0)
  }

  lemma StepKeepsBudget(limits: Limits, s: State, step: Step)
    requires WithinBudget(limits, s.phase)
    ensures WithinBudget(limits, NextPhase(limits, s, step))
  {
  }

  /** No evaluation derives more runs than the budget allows. */
  lemma {:induction false} DerivationsWithinBudget(limits: Limits, steps: seq<Step>)
    ensures WithinBudget(limits, After(limits, steps).phase)
  {
    if steps != [] {
      DerivationsWithinBudget(limits, steps[..|steps| - 1]);
      StepKeepsBudget(limits, After(limits, steps[..|steps| - 1]), steps[|steps| - 1]);
    }
  }

  // ----- trigger depth -----

  ghost predicate OriginSound(limits: Limits, runs: Runs, o: Origin) {
    o.key.Some? ==>
      && o.depth <= limits.maxDepth
      && (o.cause.Some? ==> o.cause.value in runs && o.depth == runs[o.cause.value].origin.depth + 1)
      && (o.cause.None? ==> o.depth == 1)
  }

  ghost predicate DepthsSound(limits: Limits, s: State) {
    && OriginsSound(limits, s.runs, s)
    && (!s.phase.Idle? ==> EvaluationSound(s.runs, s.phase.e))
    && (s.phase.Looked? || s.phase.Checked? ==> s.phase.e.depth < limits.maxDepth)
  }

  ghost predicate EvaluationSound(runs: Runs, e: Evaluation) {
    && (e.cause.Some? ==> e.cause.value in runs && e.depth == runs[e.cause.value].origin.depth)
    && (e.cause.None? ==> e.depth == 0)
  }

  ghost predicate OriginsSound(limits: Limits, runs: Runs, s: State) {
    && (forall id :: id in s.runs ==> OriginSound(limits, runs, s.runs[id].origin))
    && (forall q :: q in s.queue ==> OriginSound(limits, runs, s.queue[q].origin))
    && (forall d :: d in s.dequeuers ==> OriginSound(limits, runs, s.dequeuers[d].origin))
  }

  /** Runs are not deleted and keep their origin. */
  ghost predicate OriginsKept(runs: Runs, runs': Runs) {
    forall id :: id in runs ==> id in runs' && runs'[id].origin == runs[id].origin
  }

  lemma StepKeepsOrigins(s: State, step: Step)
    ensures OriginsKept(s.runs, NextRuns(s, step))
  {
  }

  /** Origins of new rows come from the evaluation under way, a queue row or a dequeuer's copy. */
  lemma StepOrigins(limits: Limits, s: State, step: Step)
    requires DepthsSound(limits, s)
    ensures forall id :: id in NextRuns(s, step) ==> OriginSound(limits, s.runs, NextRuns(s, step)[id].origin)
  {
  }

  lemma StepRowOrigins(limits: Limits, s: State, step: Step)
    requires DepthsSound(limits, s)
    ensures forall q :: q in NextQueue(limits, s, step) ==>
      OriginSound(limits, s.runs, NextQueue(limits, s, step)[q].origin)
  {
  }

  lemma StepCopyOrigins(limits: Limits, s: State, step: Step)
    requires DepthsSound(limits, s)
    ensures forall d :: d in NextDequeuers(s, step) ==> OriginSound(limits, s.runs, NextDequeuers(s, step)[d].origin)
  {
  }

  lemma OriginsStaySound(limits: Limits, runs: Runs, s: State)
    requires OriginsSound(limits, runs, s) && OriginsKept(runs, s.runs)
    ensures OriginsSound(limits, s.runs, s)
  {
  }

  lemma StepKeepsEvaluation(limits: Limits, s: State, step: Step, runs: Runs)
    requires DepthsSound(limits, s) && OriginsKept(s.runs, runs)
    ensures !NextPhase(limits, s, step).Idle? ==> EvaluationSound(runs, NextPhase(limits, s, step).e)
  {
  }

  lemma StepKeepsDepths(limits: Limits, s: State, step: Step)
    requires DepthsSound(limits, s)
    ensures DepthsSound(limits, Next(limits, s, step))
  {
    StepKeepsOrigins(s, step);
    StepOrigins(limits, s, step);
    StepRowOrigins(limits, s, step);
    StepCopyOrigins(limits, s, step);
    OriginsStaySound(limits, s.runs, Next(limits, s, step));
    StepKeepsEvaluation(limits, s, step, NextRuns(s, step));
  }

  lemma {:induction false} HistoryKeepsDepths(limits: Limits, steps: seq<Step>)
    ensures DepthsSound(limits, After(limits, steps))
  {
    if steps != [] {
      HistoryKeepsDepths(limits, steps[..|steps| - 1]);
      StepKeepsDepths(limits, After(limits, steps[..|steps| - 1]), steps[|steps| - 1]);
    }
  }

  /** Derived runs of which each was caused by the one before it. */
  ghost predicate IsChain(runs: Runs, chain: seq<nat>) {
    && (forall i :: 0 <= i < |chain| ==> chain[i] in runs && runs[chain[i]].origin.key.Some?)
    && (forall i :: 0 < i < |chain| ==> runs[chain[i]].origin.cause == Some(chain[i - 1]))
  }

  lemma {:induction false} ChainClimbs(limits: Limits, s: State, chain: seq<nat>)
    requires DepthsSound(limits, s) && IsChain(s.runs, chain) && chain != []
    ensures |chain| <= s.runs[chain[|chain| - 1]].origin.depth
  {
    if |chain| > 1 {
      assert IsChain(s.runs, chain[..|chain| - 1]);
      ChainClimbs(limits, s, chain[..|chain| - 1]);
    }
  }

  /** A causal chain of derived runs is no longer than the trigger depth allows, whatever
      the datasets feed, cycles included. */
  lemma ChainsAreBounded(limits: Limits, steps: seq<Step>, chain: seq<nat>)
    requires IsChain(After(limits, steps).runs, chain)
    ensures |chain| <= limits.maxDepth
  {
    HistoryKeepsDepths(limits, steps);
    if chain != [] { ChainClimbs(limits, After(limits, steps), chain); }
  }
}
