/** What the evaluator's look is worth. It reads the runs and then the queue, so a queued run
    that a dequeuer starts in between is seen in neither. */
module OneRunPerKey {
  import opened Options
  import opened RunAdmission
  import opened Derivations

  // ----- when a request finds the key free -----

  predicate Retriable(runs: Runs, id: nat, k: Key) {
    id in runs && runs[id].origin.key == Some(k) && runs[id].status.Ended? && !runs[id].kind.Quarantined?
  }

  predicate StartsFor(s: State, d: nat, pick: Pick, k: Key) {
    At(s, d, Holding) && s.dequeuers[d].origin.key == Some(k) && Creates(s, s.dequeuers[d].job, Dequeuing, pick)
  }

  /** A dequeuer starts a run for the key, or a finished run for the key is retried. */
  predicate Raises(s: State, step: Step, id: nat, k: Key) {
    || (step.StartQueued? && step.pick.id == id && StartsFor(s, step.d, step.pick, k))
    || (step.Retry? && step.id == id && Retriable(s.runs, id, k))
    || (step.RetryAdmitted? && step.id == id && Retriable(s.runs, id, k) && Readmits(s, id))
  }

  /** The run comes to be running for the key. */
  predicate BringsUp(s: State, step: Step, id: nat, k: Key) {
    || Raises(s, step, id, k)
    || (step.Admit? && step.pick.id == id && s.phase.Checked? && s.phase.key == k
        && Creates(s, k.job, Caller.Evaluator, step.pick))
  }

  lemma StepHolders(s: State, step: Step, id: nat, k: Key)
    requires IsUp(NextRuns(s, step), id, k)
    ensures IsUp(s.runs, id, k) || BringsUp(s, step, id, k)
  {
  }

  /** How many steps had been taken when the evaluator last read the runs and found none. */
  function LookedAt(limits: Limits, steps: seq<Step>): nat {
    if steps == [] then 0
    else if steps[|steps| - 1].ReadRuns? && After(limits, steps).phase.Looked?
            && After(limits, steps[..|steps| - 1]).phase.Evaluating?
    then |steps|
    else LookedAt(limits, steps[..|steps| - 1])
  }

  lemma {:induction false} LookedAtInRange(limits: Limits, steps: seq<Step>)
    ensures LookedAt(limits, steps) <= |steps|
  {
    if steps != [] { LookedAtInRange(limits, steps[..|steps| - 1]); }
  }

  /** The run has been running ever since a step after the look started or retried it. */
  ghost predicate UpSince(limits: Limits, steps: seq<Step>, from: nat, id: nat, k: Key) {
    exists i :: from <= i < |steps| && UpFrom(limits, steps, i, id, k)
  }

  ghost predicate UpFrom(limits: Limits, steps: seq<Step>, i: nat, id: nat, k: Key)
    requires i < |steps|
  {
    && Raises(After(limits, steps[..i]), steps[i], id, k)
    && forall j :: i < j <= |steps| ==> IsUp(After(limits, steps[..j]).runs, id, k)
  }

  predicate IsUp(runs: Runs, id: nat, k: Key) {
    id in runs && Holds(runs[id], k)
  }

  predicate Looking(phase: Phase) {
    phase.Looked? || phase.Checked?
  }

  /** After the look only a started or retried run comes to hold the key. */
  lemma StepWhileLooking(limits: Limits, s: State, step: Step, id: nat)
    requires Looking(s.phase) && Looking(NextPhase(limits, s, step))
    ensures NextPhase(limits, s, step).key == s.phase.key
    ensures IsUp(NextRuns(s, step), id, s.phase.key) ==>
              IsUp(s.runs, id, s.phase.key) || Raises(s, step, id, s.phase.key)
  {
    if IsUp(NextRuns(s, step), id, s.phase.key) { StepHolders(s, step, id, s.phase.key); }
  }

  /** And no row for it comes into the queue. */
  lemma RowsWhileLooking(limits: Limits, s: State, step: Step, q: nat)
    requires Looking(s.phase) && Looking(NextPhase(limits, s, step)) && q in NextQueue(limits, s, step)
    ensures Waits(NextQueue(limits, s, step)[q], s.phase.key) ==> q in s.queue && Waits(s.queue[q], s.phase.key)
  {
  }

  ghost predicate OnlyRisen(limits: Limits, steps: seq<Step>) {
    var s := After(limits, steps);
    && (Looking(s.phase) ==>
          forall id :: IsUp(s.runs, id, s.phase.key) ==>
            UpSince(limits, steps, LookedAt(limits, steps), id, s.phase.key))
    && (s.phase.Checked? ==> !Waiting(s.queue, s.phase.key))
  }

  lemma UpLonger(limits: Limits, steps: seq<Step>, step: Step, from: nat, id: nat, k: Key)
    requires UpSince(limits, steps, from, id, k) && IsUp(After(limits, steps + [step]).runs, id, k)
    ensures UpSince(limits, steps + [step], from, id, k)
  {
    var i :| from <= i < |steps| && UpFrom(limits, steps, i, id, k);
    var more := steps + [step];
    assert more[..i] == steps[..i] && more[i] == steps[i];
    forall j | i < j <= |more| ensures IsUp(After(limits, more[..j]).runs, id, k) {
      if j <= |steps| { assert more[..j] == steps[..j]; } else { assert more[..j] == more; }
    }
    assert UpFrom(limits, more, i, id, k);
  }

  lemma UpNow(limits: Limits, steps: seq<Step>, step: Step, from: nat, id: nat, k: Key)
    requires from <= |steps| && Raises(After(limits, steps), step, id, k)
    requires IsUp(After(limits, steps + [step]).runs, id, k)
    ensures UpSince(limits, steps + [step], from, id, k)
  {
    var more := steps + [step];
    assert more[..|steps|] == steps && more[..|more|] == more;
    assert UpFrom(limits, more, |steps|, id, k);
  }

  lemma {:induction false} HistoryOnlyRisen(limits: Limits, steps: seq<Step>)
    ensures OnlyRisen(limits, steps)
  {
    if steps != [] {
      var front, step := steps[..|steps| - 1], steps[|steps| - 1];
      HistoryOnlyRisen(limits, front);
      assert steps == front + [step];
      OnlyRisenStep(limits, front, step, After(limits, front));
    }
  }

  lemma OnlyRisenStep(limits: Limits, front: seq<Step>, step: Step, s: State)
    requires OnlyRisen(limits, front) && s == After(limits, front)
    ensures OnlyRisen(limits, front + [step])
  {
    var steps := front + [step];
    RunOneMore(limits, Init(limits), front, step);
    assert steps[..|steps| - 1] == front;
    if Looking(NextPhase(limits, s, step)) && Looking(s.phase) {
      forall id | IsUp(NextRuns(s, step), id, s.phase.key)
        ensures UpSince(limits, steps, LookedAt(limits, steps), id, s.phase.key)
      {
        StillUp(limits, front, step, s, id);
      }
      forall q | q in NextQueue(limits, s, step) { RowsWhileLooking(limits, s, step, q); }
    }
  }

  lemma StillUp(limits: Limits, front: seq<Step>, step: Step, s: State, id: nat)
    requires OnlyRisen(limits, front) && s == After(limits, front)
    requires Looking(s.phase) && Looking(NextPhase(limits, s, step)) && IsUp(NextRuns(s, step), id, s.phase.key)
    ensures NextPhase(limits, s, step).key == s.phase.key
    ensures UpSince(limits, front + [step], LookedAt(limits, front + [step]), id, s.phase.key)
  {
    var steps := front + [step];
    RunOneMore(limits, Init(limits), front, step);
    assert steps[..|steps| - 1] == front;
    LookedAtInRange(limits, front);
    StepWhileLooking(limits, s, step, id);
    if IsUp(s.runs, id, s.phase.key) {
      UpLonger(limits, front, step, LookedAt(limits, front), id, s.phase.key);
    } else {
      UpNow(limits, front, step, LookedAt(limits, front), id, s.phase.key);
    }
  }

  lemma UpMeansHolding(limits: Limits, steps: seq<Step>, from: nat, id: nat, k: Key)
    requires UpSince(limits, steps, from, id, k)
    ensures IsUp(After(limits, steps).runs, id, k)
  {
    var i :| from <= i < |steps| && UpFrom(limits, steps, i, id, k);
    assert steps[..|steps|] == steps;
  }

  /** Some run for the key was started or retried after the look and is still running. */
  ghost predicate RisenSinceLook(limits: Limits, steps: seq<Step>, k: Key) {
    exists id :: UpSince(limits, steps, LookedAt(limits, steps), id, k)
  }

  lemma BusyMeansRisen(limits: Limits, steps: seq<Step>, s: State)
    requires OnlyRisen(limits, steps) && s == After(limits, steps) && s.phase.Checked? && Busy(s, s.phase.key)
    ensures RisenSinceLook(limits, steps, s.phase.key)
  {
    var id :| id in s.runs && Holds(s.runs[id], s.phase.key);
    assert IsUp(s.runs, id, s.phase.key);
  }

  /** A request finds a run for its key under way exactly when a dequeuer started one, or one
      was retried, after the evaluator read the runs, and that run is still running. */
  lemma RequestFindsKeyBusyExactlyWhen(limits: Limits, steps: seq<Step>)
    requires After(limits, steps).phase.Checked?
    ensures var s := After(limits, steps);
      Busy(s, s.phase.key) <==> RisenSinceLook(limits, steps, s.phase.key)
  {
    var s := After(limits, steps);
    if Busy(s, s.phase.key) {
      HistoryOnlyRisen(limits, steps);
      BusyMeansRisen(limits, steps, s);
    }
    if RisenSinceLook(limits, steps, s.phase.key) {
      var id :| UpSince(limits, steps, LookedAt(limits, steps), id, s.phase.key);
      UpMeansHolding(limits, steps, LookedAt(limits, steps), id, s.phase.key);
    }
  }

  // ----- two runs for one key -----

  ghost predicate TwoHold(runs: Runs, k: Key) {
    exists a, b :: a != b && IsUp(runs, a, k) && IsUp(runs, b, k)
  }

  /** A run for the key is created, started or retried while another one is running that the
      step leaves running. */
  ghost predicate AddsToRunning(s: State, step: Step, k: Key) {
    exists a, b :: a != b && IsUp(s.runs, a, k) && BringsUp(s, step, b, k) && !Ends(s, step, a)
  }

  /** The step cancels the run to make room. */
  predicate Ends(s: State, step: Step, id: nat) {
    || (step.StartQueued? && At(s, step.d, Holding) && step.pick.oldest == id
        && Judge(s.policies, s.runs, s.dequeuers[step.d].job, Dequeuing).Swap?)
    || (step.Admit? && s.phase.Checked? && step.pick.oldest == id
        && Judge(s.policies, s.runs, s.phase.key.job, Caller.Evaluator).Swap?)
  }

  lemma StepKeepsHolder(s: State, step: Step, a: nat, b: nat, k: Key)
    requires BringsUp(s, step, b, k) && IsUp(s.runs, a, k) && a != b
    ensures IsUp(NextRuns(s, step), b, k) && (IsUp(NextRuns(s, step), a, k) <==> !Ends(s, step, a))
  {
  }

  /** One step brings up one run. */
  lemma BringsUpOne(s: State, step: Step, a: nat, b: nat, k: Key)
    requires BringsUp(s, step, a, k) && BringsUp(s, step, b, k)
    ensures a == b
  {
  }

  lemma TwoAppear(s: State, step: Step, k: Key)
    requires !TwoHold(s.runs, k)
    ensures TwoHold(NextRuns(s, step), k) <==> AddsToRunning(s, step, k)
  {
    var runs' := NextRuns(s, step);
    if TwoHold(runs', k) {
      var a, b :| a != b && IsUp(runs', a, k) && IsUp(runs', b, k);
      StepHolders(s, step, a, k);
      StepHolders(s, step, b, k);
      if BringsUp(s, step, a, k) && BringsUp(s, step, b, k) {
        BringsUpOne(s, step, a, b, k);
      } else if BringsUp(s, step, b, k) {
        StepKeepsHolder(s, step, a, b, k);
      } else if BringsUp(s, step, a, k) {
        StepKeepsHolder(s, step, b, a, k);
      }
    }
    if AddsToRunning(s, step, k) {
      var a, b :| a != b && IsUp(s.runs, a, k) && BringsUp(s, step, b, k) && !Ends(s, step, a);
      StepKeepsHolder(s, step, a, b, k);
    }
  }

  lemma TwoStayOrAdded(limits: Limits, steps: seq<Step>, n: nat, k: Key)
    requires n <= |steps| && TwoHold(After(limits, steps[..n]).runs, k)
    ensures exists i :: 0 <= i < n && AddsToRunning(After(limits, steps[..i]), steps[i], k)
  {
    if n > 0 {
      var front := steps[..n - 1];
      assert steps[..n] == front + [steps[n - 1]];
      RunOneMore(limits, Init(limits), front, steps[n - 1]);
      if TwoHold(After(limits, front).runs, k) {
        TwoStayOrAdded(limits, steps, n - 1, k);
      } else {
        TwoAppear(After(limits, front), steps[n - 1], k);
      }
    }
  }

  lemma AddedMeansTwo(limits: Limits, steps: seq<Step>, i: nat, k: Key)
    requires i < |steps| && AddsToRunning(After(limits, steps[..i]), steps[i], k)
    ensures TwoHold(After(limits, steps[..i + 1]).runs, k)
  {
    var s, step := After(limits, steps[..i]), steps[i];
    assert steps[..i + 1] == steps[..i] + [step];
    RunOneMore(limits, Init(limits), steps[..i], step);
    var a, b :| a != b && IsUp(s.runs, a, k) && BringsUp(s, step, b, k) && !Ends(s, step, a);
    StepKeepsHolder(s, step, a, b, k);
  }

  /** A key has two runs at some time exactly when a run for it is created, started or retried
      at a time when another one runs. */
  lemma TwoRunsExactlyWhen(limits: Limits, steps: seq<Step>, k: Key)
    ensures (exists n :: 0 <= n <= |steps| && TwoHold(After(limits, steps[..n]).runs, k))
       <==> (exists i :: 0 <= i < |steps| && AddsToRunning(After(limits, steps[..i]), steps[i], k))
  {
    if n :| 0 <= n <= |steps| && TwoHold(After(limits, steps[..n]).runs, k) {
      TwoStayOrAdded(limits, steps, n, k);
    }
    if i :| 0 <= i < |steps| && AddsToRunning(After(limits, steps[..i]), steps[i], k) {
      AddedMeansTwo(limits, steps, i, k);
    }
  }

  // ----- when that cannot happen, whatever the limits -----

  /** What can give a key two runs: a retry of a derived run, a dequeuer that dies between
      starting a run and deleting its row, a row taken away from a dequeuer that is still at
      work, and a start between the evaluator's two reads for the same key. */
  predicate Disorderly(s: State, step: Step) {
    match step
    case Retry(id) => id in s.runs && s.runs[id].origin.key.Some?
    case RetryAdmitted(id) => id in s.runs && s.runs[id].origin.key.Some?
    case Die(d) => At(s, d, Started)
    case Reclaim(q) => q in s.queue && s.queue[q].claim.Some? && AtWork(s.dequeuers, s.queue[q].claim.value)
    case StartQueued(d, _) => s.phase.Looked? && At(s, d, Holding) && s.dequeuers[d].origin.key == Some(s.phase.key)
    case _ => false
  }

  predicate AtWork(dequeuers: map<nat, Dequeuer>, d: nat) {
    d in dequeuers && !dequeuers[d].stage.Gone?
  }

  /** A dequeuer at work holds its row. */
  ghost predicate RowsHeld(queue: RunQueue, dequeuers: map<nat, Dequeuer>) {
    forall d :: AtWork(dequeuers, d) ==>
      && dequeuers[d].qid in queue
      && queue[dequeuers[d].qid] == QueueRow(dequeuers[d].job, dequeuers[d].origin, Some(d))
  }

  /** A claimed row is that of its claimant. */
  ghost predicate ClaimsKnown(queue: RunQueue, dequeuers: map<nat, Dequeuer>) {
    forall q :: q in queue && queue[q].claim.Some? ==>
      queue[q].claim.value in dequeuers && dequeuers[queue[q].claim.value].qid == q
  }

  ghost predicate ClaimsHeld(queue: RunQueue, dequeuers: map<nat, Dequeuer>) {
    RowsHeld(queue, dequeuers) && ClaimsKnown(queue, dequeuers)
  }

  /** The row was claimed by a dequeuer that has started its run. */
  predicate RunStarted(queue: RunQueue, dequeuers: map<nat, Dequeuer>, q: nat) {
    q in queue && queue[q].claim.Some? && queue[q].claim.value in dequeuers
    && dequeuers[queue[q].claim.value].stage.Started?
  }

  ghost predicate OneHolder(runs: Runs) {
    forall a, b, k :: IsUp(runs, a, k) && IsUp(runs, b, k) ==> a == b
  }

  ghost predicate OneRow(queue: RunQueue) {
    forall a, b, k :: a in queue && b in queue && Waits(queue[a], k) && Waits(queue[b], k) ==> a == b
  }

  /** A key has a run and a row only while the dequeuer that started the run has yet to delete
      the row. */
  ghost predicate RowAfterRun(runs: Runs, queue: RunQueue, dequeuers: map<nat, Dequeuer>) {
    forall a, q, k :: IsUp(runs, a, k) && q in queue && Waits(queue[q], k) ==> RunStarted(queue, dequeuers, q)
  }

  ghost predicate LookIsTrue(s: State) {
    && (Looking(s.phase) ==> !Running(s.runs, s.phase.key))
    && (s.phase.Checked? ==> !Waiting(s.queue, s.phase.key))
  }

  ghost predicate Orderly(s: State) {
    && ClaimsHeld(s.queue, s.dequeuers) && LookIsTrue(s)
    && OneHolder(s.runs) && OneRow(s.queue) && RowAfterRun(s.runs, s.queue, s.dequeuers)
  }

  lemma PlacingKeepsRowsHeld(limits: Limits, s: State, job: nat, origin: Origin, caller: Caller, pick: Pick)
    requires RowsHeld(s.queue, s.dequeuers)
    ensures RowsHeld(PlacedQueue(limits, s, job, origin, caller, pick), s.dequeuers)
  {
  }

  /** Two dequeuers at work never hold the same row. */
  lemma LettingGoKeepsRowsHeld(limits: Limits, s: State, step: Step)
    requires ClaimsHeld(s.queue, s.dequeuers) && (step.DeleteQueued? || step.Release?)
    ensures RowsHeld(NextQueue(limits, s, step), NextDequeuers(s, step))
  {
  }

  lemma StepKeepsRowsHeld(limits: Limits, s: State, step: Step)
    requires ClaimsHeld(s.queue, s.dequeuers) && !Disorderly(s, step)
    ensures RowsHeld(NextQueue(limits, s, step), NextDequeuers(s, step))
  {
    match step
    case Admit(pick) =>
      if s.phase.Checked? {
        PlacingKeepsRowsHeld(limits, s, s.phase.key.job, OriginFor(s.phase.e, s.phase.key), Caller.Evaluator, pick);
      }
    case StartOther(job, depth, pick) =>
      PlacingKeepsRowsHeld(limits, s, job, Origin(None, depth, None), Other, pick);
    case DeleteQueued(_) => LettingGoKeepsRowsHeld(limits, s, step);
    case Release(_) => LettingGoKeepsRowsHeld(limits, s, step);
    case _ =>
  }

  lemma PlacingKeepsClaimsKnown(limits: Limits, s: State, job: nat, origin: Origin, caller: Caller, pick: Pick)
    requires ClaimsKnown(s.queue, s.dequeuers)
    ensures ClaimsKnown(PlacedQueue(limits, s, job, origin, caller, pick), s.dequeuers)
  {
  }

  lemma StepKeepsClaimsKnown(limits: Limits, s: State, step: Step)
    requires ClaimsKnown(s.queue, s.dequeuers)
    ensures ClaimsKnown(NextQueue(limits, s, step), NextDequeuers(s, step))
  {
    match step
    case Admit(pick) =>
      if s.phase.Checked? {
        PlacingKeepsClaimsKnown(limits, s, s.phase.key.job, OriginFor(s.phase.e, s.phase.key), Caller.Evaluator, pick);
      }
    case StartOther(job, depth, pick) =>
      PlacingKeepsClaimsKnown(limits, s, job, Origin(None, depth, None), Other, pick);
    case _ =>
  }

  lemma StepKeepsLookAtRuns(limits: Limits, s: State, step: Step)
    requires Orderly(s) && !Disorderly(s, step)
    ensures Looking(NextPhase(limits, s, step)) ==> !Running(NextRuns(s, step), NextPhase(limits, s, step).key)
  {
    if Looking(NextPhase(limits, s, step)) {
      if Looking(s.phase) {
        forall id ensures !IsUp(NextRuns(s, step), id, NextPhase(limits, s, step).key) {
          LookFindsNothing(limits, s, step, id);
        }
      } else {
        assert step.ReadRuns? && NextRuns(s, step) == s.runs;
      }
    }
  }

  lemma StepKeepsLookAtRows(limits: Limits, s: State, step: Step)
    requires LookIsTrue(s)
    ensures NextPhase(limits, s, step).Checked? ==> !Waiting(NextQueue(limits, s, step), NextPhase(limits, s, step).key)
  {
    if NextPhase(limits, s, step).Checked? {
      StepWhileLooking(limits, s, step, 0);
      forall q | q in NextQueue(limits, s, step) { RowsWhileLooking(limits, s, step, q); }
    }
  }

  lemma HeldRowWaits(s: State, d: nat)
    requires ClaimsHeld(s.queue, s.dequeuers) && At(s, d, Holding)
    ensures var q := s.dequeuers[d].qid; q in s.queue && s.queue[q].origin == s.dequeuers[d].origin
  {
    assert AtWork(s.dequeuers, d);
  }

  lemma LookFindsNothing(limits: Limits, s: State, step: Step, id: nat)
    requires Orderly(s) && !Disorderly(s, step) && Looking(s.phase) && Looking(NextPhase(limits, s, step))
    ensures NextPhase(limits, s, step).key == s.phase.key && !IsUp(NextRuns(s, step), id, s.phase.key)
  {
    StepWhileLooking(limits, s, step, id);
    assert !IsUp(s.runs, id, s.phase.key);
    if s.phase.Checked? && step.StartQueued? && At(s, step.d, Holding) { HeldRowWaits(s, step.d); }
  }

  /** The run for a row that is held but not started is not running yet. */
  lemma NotRunningYet(s: State, d: nat, k: Key, id: nat)
    requires Orderly(s) && At(s, d, Holding) && s.dequeuers[d].origin.key == Some(k)
    ensures !IsUp(s.runs, id, k)
  {
    assert AtWork(s.dequeuers, d) && Waits(s.queue[s.dequeuers[d].qid], k);
  }

  /** Whoever is brought up finds no other run for the key. */
  lemma BroughtUpAlone(s: State, step: Step, b: nat, k: Key, a: nat)
    requires Orderly(s) && !Disorderly(s, step) && BringsUp(s, step, b, k)
    ensures !IsUp(s.runs, a, k)
  {
    if step.StartQueued? { NotRunningYet(s, step.d, k, a); }
  }

  lemma StepKeepsOneHolder(s: State, step: Step)
    requires Orderly(s) && !Disorderly(s, step)
    ensures OneHolder(NextRuns(s, step))
  {
    forall a, b, k | IsUp(NextRuns(s, step), a, k) && IsUp(NextRuns(s, step), b, k) ensures a == b {
      StepHolders(s, step, a, k);
      StepHolders(s, step, b, k);
      if BringsUp(s, step, a, k) {
        BroughtUpAlone(s, step, a, k, b);
        if BringsUp(s, step, b, k) { BringsUpOne(s, step, a, b, k); }
      } else if BringsUp(s, step, b, k) {
        BroughtUpAlone(s, step, b, k, a);
      }
    }
  }

  /** A row for the key comes into the queue: only the evaluator brings one. */
  predicate BringsRow(s: State, step: Step, q: nat, k: Key) {
    && step.Admit? && s.phase.Checked? && s.phase.key == k && step.pick.qid == q
    && Judge(s.policies, s.runs, k.job, Caller.Evaluator).Enqueue?
  }

  lemma StepRows(limits: Limits, s: State, step: Step, q: nat, k: Key)
    requires q in NextQueue(limits, s, step) && Waits(NextQueue(limits, s, step)[q], k)
    ensures (q in s.queue && Waits(s.queue[q], k)) || BringsRow(s, step, q, k)
  {
  }

  lemma StepKeepsOneRow(limits: Limits, s: State, step: Step)
    requires Orderly(s)
    ensures OneRow(NextQueue(limits, s, step))
  {
    var queue' := NextQueue(limits, s, step);
    forall a, b, k | a in queue' && b in queue' && Waits(queue'[a], k) && Waits(queue'[b], k) ensures a == b {
      StepRows(limits, s, step, a, k);
      StepRows(limits, s, step, b, k);
    }
  }

  /** A row whose run was started stays so until it is deleted. */
  lemma StartedStays(limits: Limits, s: State, step: Step, q: nat)
    requires ClaimsHeld(s.queue, s.dequeuers) && !Disorderly(s, step)
    requires RunStarted(s.queue, s.dequeuers, q) && q in NextQueue(limits, s, step)
    ensures RunStarted(NextQueue(limits, s, step), NextDequeuers(s, step), q)
  {
  }

  lemma StepKeepsRowAfterRun(limits: Limits, s: State, step: Step)
    requires Orderly(s) && !Disorderly(s, step)
    ensures RowAfterRun(NextRuns(s, step), NextQueue(limits, s, step), NextDequeuers(s, step))
  {
    var queue' := NextQueue(limits, s, step);
    forall a, q, k | IsUp(NextRuns(s, step), a, k) && q in queue' && Waits(queue'[q], k)
      ensures RunStarted(queue', NextDequeuers(s, step), q)
    {
      StepHolders(s, step, a, k);
      StepRows(limits, s, step, q, k);
      if IsUp(s.runs, a, k) {
        assert !BringsRow(s, step, q, k);
        StartedStays(limits, s, step, q);
      } else {
        RowOfTheNewRun(limits, s, step, a, q, k);
      }
    }
  }

  lemma StarterHoldsTheRow(s: State, step: Step, a: nat, q: nat, k: Key)
    requires ClaimsHeld(s.queue, s.dequeuers) && OneRow(s.queue) && step.StartQueued? && BringsUp(s, step, a, k)
    requires q in s.queue && Waits(s.queue[q], k)
    ensures RunStarted(s.queue, NextDequeuers(s, step), q)
  {
    assert AtWork(s.dequeuers, step.d) && Waits(s.queue[s.dequeuers[step.d].qid], k);
  }

  /** A run that is brought up beside a row is the one that the row's claimant starts. */
  lemma RowOfTheNewRun(limits: Limits, s: State, step: Step, a: nat, q: nat, k: Key)
    requires Orderly(s) && !Disorderly(s, step) && BringsUp(s, step, a, k)
    requires q in NextQueue(limits, s, step) && Waits(NextQueue(limits, s, step)[q], k)
    ensures RunStarted(NextQueue(limits, s, step), NextDequeuers(s, step), q)
  {
    StepRows(limits, s, step, q, k);
    assert !BringsRow(s, step, q, k);
    if step.StartQueued? {
      StarterHoldsTheRow(s, step, a, q, k);
    }
  }

  lemma StepKeepsOrder(limits: Limits, s: State, step: Step)
    requires Orderly(s) && !Disorderly(s, step)
    ensures Orderly(Next(limits, s, step))
  {
    StepKeepsRowsHeld(limits, s, step);
    StepKeepsClaimsKnown(limits, s, step);
    StepKeepsLookAtRuns(limits, s, step);
    StepKeepsLookAtRows(limits, s, step);
    StepKeepsOneHolder(s, step);
    StepKeepsOneRow(limits, s, step);
    StepKeepsRowAfterRun(limits, s, step);
  }

  ghost predicate NeverDisorderly(limits: Limits, steps: seq<Step>) {
    forall i :: 0 <= i < |steps| ==> !Disorderly(After(limits, steps[..i]), steps[i])
  }

  /** Without those four kinds of step no key ever has two runs, every look is still true when
      the run is asked for, and a dequeuer at work holds its row. */
  lemma {:induction false} OneRunForEachKey(limits: Limits, steps: seq<Step>)
    requires NeverDisorderly(limits, steps)
    ensures Orderly(After(limits, steps))
  {
    if steps != [] {
      var front := steps[..|steps| - 1];
      forall i | 0 <= i < |front| ensures !Disorderly(After(limits, front[..i]), front[i]) {
        assert front[..i] == steps[..i] && front[i] == steps[i];
      }
      OneRunForEachKey(limits, front);
      assert !Disorderly(After(limits, front), steps[|steps| - 1]);
      StepKeepsOrder(limits, After(limits, front), steps[|steps| - 1]);
    }
  }
}
