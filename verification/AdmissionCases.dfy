/** What admission and the other steps of the evaluator's surroundings do, case by case. */
module AdmissionCases {
  import opened Options
  import opened RunAdmission
  import opened Derivations

  // ----- admission -----

  /** The runs that count against the job's limit: active, neither quarantined nor backfills. */
  function Counting(runs: Runs, job: nat): set<nat> {
    set id | id in runs && runs[id].job == job && runs[id].status == Active && runs[id].kind == Ordinary
  }

  /** Room for one more run: the job has no policy, or fewer runs count than that allows. */
  predicate HasRoom(policies: Policies, runs: Runs, job: nat) {
    job in policies ==> |Counting(runs, job)| < policies[job].maxRuns
  }

  lemma CountingIsTaken(runs: Runs, job: nat)
    ensures Counting(runs, job) == Taken(runs, job)
  {
  }

  function NewRun(job: nat, origin: Origin): RunRow {
    RunRow(job, origin, Active, Ordinary)
  }

  /** With room the run is created, except that the evaluator creates none without a policy. */
  lemma AdmittedWithRoom(policies: Policies, runs: Runs, queue: RunQueue, job: nat, caller: Caller, origin: Origin,
                         maxQueue: Positive, pick: Pick)
    requires HasRoom(policies, runs, job) && pick.id !in runs
    ensures var v := Judge(policies, runs, job, caller);
      && QueueAfter(v, queue, job, origin, maxQueue, pick) == queue
      && RunsAfter(v, runs, job, origin, pick)
         == if job in policies || caller != Caller.Evaluator then runs[pick.id := NewRun(job, origin)] else runs
  {
    CountingIsTaken(runs, job);
  }

  /** Without room the strategy decides: nothing happens; or a row is queued, though not again by
      a dequeuer; or the oldest run is cancelled, and the new one created if that makes room. */
  lemma AdmittedWithoutRoom(policies: Policies, runs: Runs, queue: RunQueue, job: nat, caller: Caller, origin: Origin,
                            maxQueue: Positive, pick: Pick)
    requires !HasRoom(policies, runs, job) && pick.id !in runs && pick.oldest in Counting(runs, job)
    requires pick.qid !in queue && |Unclaimed(queue, job)| < maxQueue && pick.dropped == {}
    ensures job in policies
    ensures var v, strategy := Judge(policies, runs, job, caller), policies[job].strategy;
      var runs', queue' := RunsAfter(v, runs, job, origin, pick), QueueAfter(v, queue, job, origin, maxQueue, pick);
      var cancelled := runs[pick.oldest := runs[pick.oldest].(status := Cancelled)];
      && (strategy in {Skip, Fail} ==> runs' == runs && queue' == queue)
      && (strategy == Queue ==>
            runs' == runs
            && queue' == if caller == Dequeuing then queue else queue[pick.qid := QueueRow(job, origin, None)])
      && (strategy == Replace ==>
            queue' == queue
            && runs' == if |Counting(runs, job)| <= policies[job].maxRuns
                        then cancelled[pick.id := NewRun(job, origin)] else cancelled)
  {
    CountingIsTaken(runs, job);
    assert queue[pick.qid := QueueRow(job, origin, None)] - {} == queue[pick.qid := QueueRow(job, origin, None)];
  }

  /** The job's rows that nobody has claimed. */
  function FreeRows(queue: RunQueue, job: nat): set<nat> {
    set q | q in queue && queue[q].job == job && queue[q].claim == None
  }

  /** Queuing adds one row for the job and lets as many of its free rows go as are too many; rows of
      other jobs and claimed rows stay. */
  lemma QueuedExactly(queue: RunQueue, job: nat, origin: Origin, maxQueue: Positive, pick: Pick)
    requires Enqueues(Verdict.Enqueue, queue, job, maxQueue, pick)
    ensures var queue' := QueueAfter(Verdict.Enqueue, queue, job, origin, maxQueue, pick);
      && |FreeRows(queue', job)|
         == (if |FreeRows(queue, job)| < maxQueue then |FreeRows(queue, job)| + 1 else maxQueue)
      && (forall q :: q in queue && q !in FreeRows(queue, job) ==> q in queue' && queue'[q] == queue[q])
      && (forall q :: q in queue' ==> q == pick.qid || (q in queue && queue'[q] == queue[q]))
      && (pick.qid in queue' ==> queue'[pick.qid] == QueueRow(job, origin, None))
  {
    var queue' := QueueAfter(Verdict.Enqueue, queue, job, origin, maxQueue, pick);
    assert FreeRows(queue, job) == Unclaimed(queue, job) && FreeRows(queue', job) == Unclaimed(queue', job);
    EnqueueKeepsDepth(Verdict.Enqueue, queue, job, origin, maxQueue, pick);
  }

  /** A choice of rows to let go is possible exactly if they are free rows of the job, the new one
      included, and as many as are too many. */
  lemma OverflowExactlyWhen(queue: RunQueue, job: nat, maxQueue: Positive, pick: Pick)
    ensures Enqueues(Verdict.Enqueue, queue, job, maxQueue, pick) <==>
      && pick.qid !in queue && (forall q :: q in pick.dropped ==> q == pick.qid || q in FreeRows(queue, job))
      && |pick.dropped| == if |FreeRows(queue, job)| < maxQueue then 0 else |FreeRows(queue, job)| + 1 - maxQueue
  {
    assert FreeRows(queue, job) == Unclaimed(queue, job);
  }

  // ----- the looks -----

  /** A run for the key is running: active, derived for it and not quarantined. */
  lemma RunningExactlyWhen(runs: Runs, k: Key)
    ensures Running(runs, k) <==>
      exists id :: id in runs && runs[id].origin.key == Some(k) && runs[id].status == Active
                   && runs[id].kind in {Ordinary, Backfill}
  {
    if id :| id in runs && Holds(runs[id], k) {
      assert runs[id].origin.key == Some(k) && runs[id].status == Active && runs[id].kind in {Ordinary, Backfill};
    }
    if id :| id in runs && runs[id].origin.key == Some(k) && runs[id].status == Active
             && runs[id].kind in {Ordinary, Backfill} {
      assert Holds(runs[id], k);
    }
  }

  /** The evaluator gets to ask for a run exactly if it has budget left, the trigger chain is not
      too long, and neither look finds a run for the key. */
  lemma AsksExactlyWhen(limits: Limits, s: State, e: Evaluation, k: Key)
    requires s.phase == Evaluating(e)
    ensures Next(limits, Next(limits, s, ReadRuns(k)), ReadQueue).phase
         == if && e.budget > 0 && e.depth < limits.maxDepth && !Running(s.runs, k)
               && (forall q :: q in s.queue ==> s.queue[q].origin.key != Some(k))
            then Checked(e, k) else Evaluating(e)
  {
    var looked := Next(limits, s, ReadRuns(k));
    assert looked.queue == s.queue;
    if q :| q in s.queue && Waits(s.queue[q], k) { assert s.queue[q].origin.key == Some(k); }
  }

  /** A run that is created costs one derivation and lies one level deeper than its cause. */
  lemma RequestCosts(limits: Limits, s: State, e: Evaluation, k: Key, pick: Pick)
    requires s.phase == Checked(e, k) && pick.id !in s.runs
    ensures var s' := Next(limits, s, Admit(pick));
      && s'.phase.Evaluating?
      && (pick.id in s'.runs ==>
            && s'.runs[pick.id] == RunRow(k.job, Origin(Some(k), e.depth + 1, e.cause), Active, Ordinary)
            && s'.phase.e == e.(budget := e.budget - 1, derived := e.derived + 1))
      && (pick.id !in s'.runs ==> s'.phase.e == e)
  {
  }

  /** Evaluations begin at depth zero on a tick, and at the depth of its run on an event. */
  lemma EvaluationBegins(limits: Limits, s: State, run: nat)
    requires s.phase == Idle
    ensures Next(limits, s, Tick).phase == Evaluating(Evaluation(0, None, limits.maxDerivations, 0))
    ensures Next(limits, s, Event(run)).phase
         == Evaluating(if run in s.runs then Evaluation(s.runs[run].origin.depth, Some(run), limits.maxDerivations, 0)
                       else Evaluation(0, None, limits.maxDerivations, 0))
  {
  }

  // ----- what others do to runs -----

  /** Active runs end or are cancelled, ended ones are retried; the incident machinery's retries
      need room, unless the run is quarantined. */
  lemma RunsMove(limits: Limits, s: State, id: nat)
    requires id in s.runs
    ensures var run := s.runs[id];
      && Next(limits, s, Finish(id)).runs
         == (if run.status == Active then s.runs[id := run.(status := Ended)] else s.runs)
      && Next(limits, s, CancelRun(id)).runs
         == (if run.status == Active then s.runs[id := run.(status := Cancelled)] else s.runs)
      && Next(limits, s, Retry(id)).runs
         == (if run.status == Ended then s.runs[id := run.(status := Active)] else s.runs)
      && Next(limits, s, RetryAdmitted(id)).runs
         == (if run.status == Ended && (run.kind == Quarantined || HasRoom(s.policies, s.runs, run.job))
             then s.runs[id := run.(status := Active)] else s.runs)
  {
    CountingIsTaken(s.runs, s.runs[id].job);
  }

  /** Quarantined and backfill runs start without asking. */
  lemma ExemptStarts(limits: Limits, s: State, id: nat, job: nat, depth: nat, kind: Kind)
    requires id !in s.runs
    ensures Next(limits, s, StartExempt(id, job, depth, kind)).runs
         == if kind in {Quarantined, Backfill} then s.runs[id := RunRow(job, Origin(None, depth, None), Active, kind)]
            else s.runs
  {
  }

  /** Policies are set and removed, one job at a time. */
  lemma PoliciesMove(limits: Limits, s: State, job: nat, p: Policy)
    ensures Next(limits, s, SetPolicy(job, Some(p))).policies == s.policies[job := p]
    ensures Next(limits, s, SetPolicy(job, None)).policies == s.policies - {job}
  {
  }

  // ----- dequeuers -----

  /** A free row is claimed with a copy of what it says; a claimed one is not. */
  lemma ClaimTakes(limits: Limits, s: State, d: nat, q: nat)
    requires d !in s.dequeuers && q in s.queue
    ensures var s', row := Next(limits, s, Claim(d, q)), s.queue[q];
      if row.claim == None
      then s'.queue == s.queue[q := QueueRow(row.job, row.origin, Some(d))]
           && s'.dequeuers == s.dequeuers[d := Dequeuer(q, row.job, row.origin, Holding)]
      else s'.queue == s.queue && s'.dequeuers == s.dequeuers
  {
  }

  /** A dequeuer starts its copy if there is room; otherwise, unless the job's runs replace each
      other, nothing happens. */
  lemma DequeuerStarts(limits: Limits, s: State, d: nat, pick: Pick)
    requires d in s.dequeuers && s.dequeuers[d].stage == Holding && pick.id !in s.runs
    ensures var s', c := Next(limits, s, StartQueued(d, pick)), s.dequeuers[d];
      if HasRoom(s.policies, s.runs, c.job)
      then s'.runs == s.runs[pick.id := NewRun(c.job, c.origin)]
           && s'.dequeuers == s.dequeuers[d := c.(stage := Started)]
      else s.policies[c.job].strategy != Replace ==> s'.runs == s.runs && s'.dequeuers == s.dequeuers
  {
    CountingIsTaken(s.runs, s.dequeuers[d].job);
  }

  /** A dequeuer deletes its row, gives it back if it is still its own, or dies. */
  lemma DequeuerEnds(limits: Limits, s: State, d: nat)
    requires d in s.dequeuers && s.dequeuers[d].stage == Holding
    ensures var c := s.dequeuers[d];
      && Next(limits, s, DeleteQueued(d)).queue == s.queue - {c.qid}
      && Next(limits, s, Release(d)).queue
         == (if c.qid in s.queue && s.queue[c.qid].claim == Some(d)
             then s.queue[c.qid := s.queue[c.qid].(claim := None)] else s.queue)
      && Next(limits, s, Die(d)).queue == s.queue
      && forall step :: step in {DeleteQueued(d), Release(d), Die(d)} ==>
           Next(limits, s, step).dequeuers == s.dequeuers[d := c.(stage := Gone)]
  {
  }

  /** A dequeuer that has started its run has only its row left to delete, and one that is gone does
      nothing more; neither claims another row. */
  lemma DequeuerRests(limits: Limits, s: State, d: nat, q: nat, pick: Pick)
    requires d in s.dequeuers
    ensures Next(limits, s, Claim(d, q)) == s
    ensures s.dequeuers[d].stage != Holding ==>
      Next(limits, s, StartQueued(d, pick)) == s && Next(limits, s, Release(d)) == s
    ensures s.dequeuers[d].stage == Started ==>
      Next(limits, s, DeleteQueued(d)).queue == s.queue - {s.dequeuers[d].qid}
    ensures s.dequeuers[d].stage == Gone ==> Next(limits, s, DeleteQueued(d)) == s
  {
  }

  /** Claims are taken away whoever holds them; only free rows are cancelled. */
  lemma RowsMove(limits: Limits, s: State, q: nat)
    requires q in s.queue
    ensures Next(limits, s, Reclaim(q)).queue == s.queue[q := s.queue[q].(claim := None)]
    ensures Next(limits, s, CancelQueued(q)).queue == if s.queue[q].claim == None then s.queue - {q} else s.queue
  {
  }
}
