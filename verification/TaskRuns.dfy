/** The coordination columns of one `task_runs` row and of one `run_leases` row, and
    every conditional write that the run store performs on them. A row is a value
    here; a write is a function from the row to the row it leaves. */
module TaskRuns {

  import opened Options

  datatype TaskStatus =
    Pending | Running | Succeeded | Failed | Skipped | Cached | Cancelled

  predicate IsTerminal(s: TaskStatus) {
    s.Succeeded? || s.Failed? || s.Skipped? || s.Cached? || s.Cancelled?
  }

  datatype TaskKey = TaskKey(run: nat, task: nat)

  /** `claimAttempt` grows by one with every claim, so it names the claim. */
  datatype TaskRow = TaskRow(
    status: TaskStatus,
    claimedBy: string,
    claimAttempt: nat,
    generation: int,
    outstanding: nat,
    claimExpires: Option<int>,
    retryAfter: Option<int>)

  datatype Lease = Lease(owner: string, expires: int, generation: int)

  /** What a worker may put into the status field of a completion envelope. */
  datatype Report = ReportSucceeded | ReportFailed | ReportCached | ReportOther(text: string)

  predicate ValidReport(r: Report) {
    !r.ReportOther?
  }

  /** The result string decides the status that a completion writes. */
  function StatusFromResult(result: string): TaskStatus {
    if result == "" || result == "success" || result == "ok" then Succeeded else Failed
  }

  /** What a known report and the result say that a running task has come to. */
  ghost predicate Means(report: Report, result: string, status: TaskStatus) {
    && status in {Cached, Succeeded, Failed}
    && (status == Cached <==> report == ReportCached)
    && (status == Succeeded <==> report == ReportSucceeded && result in {"", "success", "ok"})
  }

  /** The row is free for a dispatch claim by an owner of generation `generation`. */
  predicate Claimable(row: TaskRow, generation: int, clock: int, trustReadiness: bool) {
    && row.status.Pending?
    && row.claimedBy == ""
    && (trustReadiness || row.outstanding == 0)
    && row.generation <= generation
    && (row.retryAfter.None? || row.retryAfter.value <= clock)
  }

  function Claim(row: TaskRow, worker: string, generation: int, expires: int): TaskRow {
    row.(status := Running, claimedBy := worker, claimAttempt := row.claimAttempt + 1,
         generation := generation, claimExpires := Some(expires), retryAfter := None)
  }

  /** The row is a running claim of `worker`, which is what a handler loads. */
  predicate Loadable(row: TaskRow, worker: string) {
    row.status.Running? && row.claimedBy == worker
  }

  function Unclaimed(row: TaskRow): TaskRow {
    row.(status := Pending, claimedBy := "", claimExpires := None)
  }

  predicate Releasable(row: TaskRow, worker: string, generation: int) {
    Loadable(row, worker) && (row.generation == generation || row.generation == 0)
  }

  /** Releasing a claim that is no longer there is a no-op. */
  function Release(row: TaskRow, worker: string, generation: int): TaskRow {
    if Releasable(row, worker, generation) then Unclaimed(row) else row
  }

  datatype Applied = ClaimMismatch | AlreadyTerminal | Wrote(row: TaskRow)

  /** The completion writes filter on the claimant. A success or a cache hit leaves a
      terminal row alone; a failure does not look at the status. */
  function Apply(row: TaskRow, worker: string, report: Report, result: string): Applied {
    if row.claimedBy != worker then ClaimMismatch
    else if report.ReportFailed? then Wrote(row.(status := Failed))
    else if IsTerminal(row.status) then AlreadyTerminal
    else Wrote(row.(status := if report.ReportCached? then Cached else StatusFromResult(result)))
  }

  /** The row after a completion write, whatever the store answered. */
  function AfterApply(row: TaskRow, worker: string, report: Report, result: string): TaskRow {
    match Apply(row, worker, report, result)
    case Wrote(row') => row'
    case _ => row
  }

  /** Writes to a row that come from outside the dispatch handlers. A completion or a retry
      filters on the claimant, unless local execution makes it, which names none. */
  datatype RowWrite =
    | ClaimNext(node: string, clock: int, expires: int)
    | ReclaimExpired(clock: int)
    | ResetInFlight
    | RateLimit(until: int)
    | Retry(claimant: Option<string>)
    | RetryFromFailure
    | Skip
    | LocalCompletion(claimant: Option<string>, report: Report, result: string)
    | SetOutstanding(count: nat)
    | RenewClaim(worker: string, expires: int)

  predicate Matches(claimant: Option<string>, row: TaskRow) {
    claimant.None? || claimant.value == row.claimedBy
  }

  function Rewrite(row: TaskRow, w: RowWrite): TaskRow {
    match w
    case ClaimNext(node, clock, expires) =>
      if && row.status.Pending? && row.outstanding == 0
         && (row.claimedBy == "" || row.claimExpires.None? || row.claimExpires.value < clock)
         && (row.retryAfter.None? || row.retryAfter.value <= clock)
      then row.(status := Running, claimedBy := node, claimAttempt := row.claimAttempt + 1,
                claimExpires := Some(expires), retryAfter := None)
      else row
    case ReclaimExpired(clock) =>
      if row.status.Running? && row.claimExpires.Some? && row.claimExpires.value < clock
      then Unclaimed(row) else row
    case ResetInFlight =>
      if row.status.Running? then Unclaimed(row).(retryAfter := None) else row
    case RateLimit(until) =>
      if row.status.Running? || row.status.Pending?
      then Unclaimed(row).(retryAfter := Some(until)) else row
    case Retry(claimant) =>
      if Matches(claimant, row) then row.(status := Pending, retryAfter := None) else row
    case RetryFromFailure =>
      if row.status.Failed? || row.status.Skipped? then Unclaimed(row) else row
    case Skip => if row.status.Pending? then row.(status := Skipped) else row
    case LocalCompletion(claimant, report, result) =>
      if Matches(claimant, row) then AfterApply(row, row.claimedBy, report, result) else row
    case SetOutstanding(count) => row.(outstanding := count)
    case RenewClaim(worker, expires) =>
      if Loadable(row, worker) then row.(claimExpires := Some(expires)) else row
  }

  /** These writes can take a running or finished task back to pending behind the back
      of the handler that claimed it. */
  predicate Disturbs(w: RowWrite) {
    w.ReclaimExpired? || w.ResetInFlight? || w.RateLimit? || w.Retry? || w.RetryFromFailure?
  }

  /** These writes can bring a terminal task back to life. */
  predicate Revives(w: RowWrite) {
    w.Retry? || w.RetryFromFailure?
  }

  function Cancel(row: TaskRow): TaskRow {
    if IsTerminal(row.status) then row else Unclaimed(row).(status := Cancelled, retryAfter := None)
  }

  /** When a completion changes a terminal row: exactly when it reports a failure in
      the name of the row's claimant and the row does not already say failed. */
  lemma TerminalRowChangesExactlyOnFailure(row: TaskRow, worker: string, report: Report, result: string)
    requires IsTerminal(row.status)
    ensures AfterApply(row, worker, report, result) != row
       <==> report.ReportFailed? && worker == row.claimedBy && !row.status.Failed?
  {
  }

  /** The claim and its rollback: nothing is left but the claim counter and the stamp. */
  lemma ReleaseUndoesClaim(row: TaskRow, worker: string, generation: int, expires: int,
                           clock: int, trustReadiness: bool)
    requires Claimable(row, generation, clock, trustReadiness)
    ensures Release(Claim(row, worker, generation, expires), worker, generation)
         == row.(claimAttempt := row.claimAttempt + 1, generation := generation,
                 claimExpires := None, retryAfter := None)
    ensures Claimable(Release(Claim(row, worker, generation, expires), worker, generation),
                      generation, clock, trustReadiness)
  {
  }
}
