/** Admission of a run under its job's concurrency policy: one conditional insert, and what
    the policy does when that finds the job full. */
module RunAdmission {
  import opened Options

  /** What a derived run was derived for: job, dataset and consumed-watermark snapshot. */
  datatype Key = Key(job: nat, dataset: string, consumed: string)

  /** `key` is absent for runs that the evaluator did not derive. `cause` is the run whose
      event made the evaluator derive this one. */
  datatype Origin = Origin(key: Option<Key>, depth: nat, cause: Option<nat>)

  /** A run that failed or succeeded has ended and may be retried; a cancelled one may not. */
  datatype RunStatus = Active | Ended | Cancelled

  datatype Kind = Ordinary | Quarantined | Backfill

  datatype RunRow = RunRow(job: nat, origin: Origin, status: RunStatus, kind: Kind)

  /** `claim` is the claim under which a dequeuer holds the row. */
  datatype QueueRow = QueueRow(job: nat, origin: Origin, claim: Option<nat>)

  type Runs = map<nat, RunRow>

  type RunQueue = map<nat, QueueRow>

  datatype Strategy = Queue | Replace | Skip | Fail

  type Positive = n: int | 0 < n witness 1

  datatype Policy = Policy(maxRuns: Positive, strategy: Strategy)

  /** Jobs without an entry have no policy. */
  type Policies = map<nat, Policy>

  // ----- slots -----

  /** The run takes one of the job's slots. Quarantined and backfill runs take none. */
  predicate Takes(r: RunRow, job: nat) {
    r.job == job && r.status.Active? && r.kind.Ordinary?
  }

  function Taken(runs: Runs, job: nat): set<nat> {
    set id | id in runs && Takes(runs[id], job)
  }

  predicate HasSlot(policies: Policies, runs: Runs, job: nat) {
    job in policies ==> |Taken(runs, job)| < policies[job].maxRuns
  }

  // ----- the decision -----

  /** `Swap` cancels the oldest run of the job and inserts; `Evict` cancels it, and there is
      still no slot. */
  datatype Verdict = Insert | Enqueue | Swap | Evict | Refuse

  /** Who asks: the evaluator, which does nothing without a policy; a dequeuer, whose run is
      not queued again; or anybody else. */
  datatype Caller = Evaluator | Dequeuing | Other

  function Judge(policies: Policies, runs: Runs, job: nat, caller: Caller): Verdict {
    if job !in policies then (if caller.Evaluator? then Refuse else Insert)
    else if HasSlot(policies, runs, job) then Insert
    else match policies[job].strategy
      case Skip => Refuse
      case Fail => Refuse
      case Queue => if caller.Dequeuing? then Refuse else Enqueue
      case Replace => if |Taken(runs, job)| - 1 < policies[job].maxRuns then Swap else Evict
  }

  /** What the transaction draws: new ids, the run that is oldest, and the rows that overflow. */
  datatype Pick = Pick(id: nat, qid: nat, oldest: nat, dropped: set<nat>)

  function Unclaimed(queue: RunQueue, job: nat): set<nat> {
    set q | q in queue && queue[q].job == job && queue[q].claim == None
  }

  /** How many unclaimed rows are too many once another one is added. */
  function Overflow(queue: RunQueue, job: nat, maxQueue: Positive): nat {
    if |Unclaimed(queue, job)| < maxQueue then 0 else |Unclaimed(queue, job)| + 1 - maxQueue
  }

  /** The transaction inserts the run. */
  predicate Inserts(v: Verdict, runs: Runs, job: nat, pick: Pick) {
    pick.id !in runs && (v.Insert? || (v.Swap? && pick.oldest in Taken(runs, job)))
  }

  predicate Evicts(v: Verdict, runs: Runs, job: nat, pick: Pick) {
    v.Evict? && pick.oldest in Taken(runs, job)
  }

  /** The oldest rows overflow, among rows of one age any; the new row may be one of them. */
  predicate Enqueues(v: Verdict, queue: RunQueue, job: nat, maxQueue: Positive, pick: Pick) {
    && v.Enqueue? && pick.qid !in queue
    && pick.dropped <= Unclaimed(queue, job) + {pick.qid} && |pick.dropped| == Overflow(queue, job, maxQueue)
  }

  /** The draw is possible, so the transaction does not fail. */
  predicate Possible(v: Verdict, runs: Runs, queue: RunQueue, job: nat, maxQueue: Positive, pick: Pick) {
    v.Refuse? || Inserts(v, runs, job, pick) || Evicts(v, runs, job, pick) || Enqueues(v, queue, job, maxQueue, pick)
  }

  function Cancel(runs: Runs, id: nat): Runs {
    if id in runs && runs[id].status.Active? then runs[id := runs[id].(status := Cancelled)] else runs
  }

  function RunsAfter(v: Verdict, runs: Runs, job: nat, origin: Origin, pick: Pick): Runs {
    if Inserts(v, runs, job, pick)
    then (if v.Swap? then Cancel(runs, pick.oldest) else runs)[pick.id := RunRow(job, origin, Active, Ordinary)]
    else if Evicts(v, runs, job, pick) then Cancel(runs, pick.oldest)
    else runs
  }

  function QueueAfter(v: Verdict, queue: RunQueue, job: nat, origin: Origin, maxQueue: Positive, pick: Pick): RunQueue {
    if Enqueues(v, queue, job, maxQueue, pick)
    then queue[pick.qid := QueueRow(job, origin, None)] - pick.dropped else queue
  }

  // ----- slots are respected -----

  lemma TakenMore(runs: Runs, id: nat, row: RunRow, job: nat)
    requires id !in runs || !Takes(runs[id], job)
    ensures Taken(runs[id := row], job) == Taken(runs, job) + if Takes(row, job) then {id} else {}
    ensures |Taken(runs[id := row], job)| == |Taken(runs, job)| + if Takes(row, job) then 1 else 0
  {
    assert Taken(runs[id := row], job) == Taken(runs, job) + if Takes(row, job) then {id} else {};
  }

  lemma TakenLess(runs: Runs, id: nat, row: RunRow, job: nat)
    requires id in Taken(runs, job) && !Takes(row, job)
    ensures Taken(runs[id := row], job) == Taken(runs, job) - {id}
    ensures |Taken(runs[id := row], job)| == |Taken(runs, job)| - 1
  {
    assert Taken(runs[id := row], job) == Taken(runs, job) - {id};
  }

  lemma CancelFrees(runs: Runs, id: nat, job: nat)
    ensures Taken(Cancel(runs, id), job) == Taken(runs, job) - {id}
    ensures |Taken(Cancel(runs, id), job)| == |Taken(runs, job)| - if id in Taken(runs, job) then 1 else 0
  {
    assert Taken(Cancel(runs, id), job) == Taken(runs, job) - {id};
  }

  /** After an admission the job is within its limit, or has no more runs than before. */
  lemma AdmissionRespectsSlots(policies: Policies, runs: Runs, job: nat, caller: Caller, origin: Origin, pick: Pick)
    requires job in policies
    ensures var after := |Taken(RunsAfter(Judge(policies, runs, job, caller), runs, job, origin, pick), job)|;
      after <= policies[job].maxRuns || after <= |Taken(runs, job)|
  {
    var v := Judge(policies, runs, job, caller);
    CancelFrees(runs, pick.oldest, job);
    if Inserts(v, runs, job, pick) {
      TakenMore(if v.Swap? then Cancel(runs, pick.oldest) else runs, pick.id, RunRow(job, origin, Active, Ordinary),
                job);
    }
  }

  /** The slots of other jobs are left alone. */
  lemma AdmissionLeavesOthers(v: Verdict, runs: Runs, job: nat, origin: Origin, pick: Pick, other: nat)
    requires other != job
    ensures Taken(RunsAfter(v, runs, job, origin, pick), other) == Taken(runs, other)
  {
  }

  /** Queuing trims the unclaimed rows of the job to the queue's depth, and no further. */
  lemma EnqueueKeepsDepth(v: Verdict, queue: RunQueue, job: nat, origin: Origin, maxQueue: Positive, pick: Pick)
    requires Enqueues(v, queue, job, maxQueue, pick)
    ensures |Unclaimed(QueueAfter(v, queue, job, origin, maxQueue, pick), job)|
         == if |Unclaimed(queue, job)| < maxQueue then |Unclaimed(queue, job)| + 1 else maxQueue
  {
    assert Unclaimed(QueueAfter(v, queue, job, origin, maxQueue, pick), job)
        == Unclaimed(queue, job) + {pick.qid} - pick.dropped;
    assert |Unclaimed(queue, job) + {pick.qid}| == |Unclaimed(queue, job)| + 1;
  }
}
