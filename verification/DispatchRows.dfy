/** What dispatches and completions do to rows, column by column and over whole runs. */
module DispatchRows {
  import opened Options
  import opened TaskRuns
  import opened DispatchProtocol
  import opened DispatchTheorems

  // ----- what is dispatched -----

  /** Step j claims the task for the worker under the generation, and finds it pending, claimed
      by nobody, with no predecessor open unless the owner vouches for that, not held back
      beyond the worker's clock, and stamped by no newer owner. */
  ghost predicate DispatchedReady(ss: seq<System>, steps: seq<Step>, j: int, key: TaskKey, generation: int,
                                  worker: string) {
    && 0 <= j < |steps| && j < |ss| && steps[j].BeginDispatch? && key in ss[j].rows
    && steps[j].req.key == key && steps[j].req.generation == generation && steps[j].req.worker == worker
    && steps[j].hasWorker && steps[j].node == worker
    && var row := ss[j].rows[key];
    && row.status == Pending && row.claimedBy == ""
    && (steps[j].trustReadiness || row.outstanding == 0)
    && (row.retryAfter == None || row.retryAfter.value <= steps[j].clock)
    && row.generation <= generation
  }

  /** A delivered envelope makes a call exactly if its node has a worker and the row is pending,
      unclaimed, ready, not held back and not stamped by a newer owner; otherwise nothing moves. */
  lemma DispatchesExactlyTheReady(s: System, step: Step)
    requires step.BeginDispatch? && step.h !in s.dispatches && step.req in s.dispatchNet
    requires step.req.worker == step.node
    ensures step.h in Next(s, step).dispatches <==>
      && step.hasWorker && step.req.key in s.rows
      && var row := s.rows[step.req.key];
      && row.status == Pending && row.claimedBy == "" && (step.trustReadiness || row.outstanding == 0)
      && (row.retryAfter == None || row.retryAfter.value <= step.clock) && row.generation <= step.req.generation
    ensures step.h !in Next(s, step).dispatches ==> Next(s, step) == s
  {
  }

  /** The claim writes these columns of this row. */
  lemma DispatchWrites(s: System, step: Step, k: TaskKey)
    requires step.BeginDispatch? && step.h !in s.dispatches && step.h in Next(s, step).dispatches && k in s.rows
    ensures Next(s, step).rows.Keys == s.rows.Keys
    ensures var row, row' := s.rows[k], Next(s, step).rows[k];
      if k != step.req.key then row' == row
      else row' == TaskRow(Running, step.node, row.claimAttempt + 1, step.req.generation, row.outstanding,
                           Some(step.expires), None)
    ensures var c := Next(s, step).dispatches[step.h];
      && c.node == step.node && c.req == step.req && c.phase == Claimed
      && (k == step.req.key ==> c.claim == s.rows[k].claimAttempt + 1)
  {
  }

  lemma CallsEnterReady(s: System, step: Step, h: nat)
    requires h in Next(s, step).dispatches
    ensures var c := Next(s, step).dispatches[h];
      if h in s.dispatches then c.req == s.dispatches[h].req && c.node == s.dispatches[h].node
      else step.BeginDispatch? && step.h == h && step.req == c.req && step.node == c.node
  {
  }

  lemma CallBeginsReady(s: System, step: Step)
    requires step.BeginDispatch? && step.h !in s.dispatches && step.h in Next(s, step).dispatches
    ensures step.req.worker == step.node && step.hasWorker && step.req.key in s.rows
    ensures var row := s.rows[step.req.key];
      && row.status == Pending && row.claimedBy == "" && (step.trustReadiness || row.outstanding == 0)
      && (row.retryAfter == None || row.retryAfter.value <= step.clock) && row.generation <= step.req.generation
  {
  }

  /** Every call in flight, in every run, began with a task that was ready. */
  lemma {:induction false} EveryCallWasReady(ss: seq<System>, steps: seq<Step>, i: nat, h: nat)
    requires IsRun(ss, steps) && i < |ss| && h in ss[i].dispatches
    ensures var c := ss[i].dispatches[h];
      exists j :: 0 <= j < i && DispatchedReady(ss, steps, j, c.req.key, c.req.generation, c.node)
  {
    if i > 0 {
      assert ss[i - 1 + 1] == Next(ss[i - 1], steps[i - 1]);
      CallsEnterReady(ss[i - 1], steps[i - 1], h);
      if h in ss[i - 1].dispatches {
        EveryCallWasReady(ss, steps, i - 1, h);
      } else {
        CallBeginsReady(ss[i - 1], steps[i - 1]);
        var c := ss[i].dispatches[h];
        assert DispatchedReady(ss, steps, i - 1, c.req.key, c.req.generation, c.node);
      }
    }
  }

  lemma ItemsComeFromCalls(s: System, step: Step, n: nat)
    requires n < |Next(s, step).items|
    ensures var it := Next(s, step).items[n];
      if n < |s.items| then it == s.items[n]
      else step.Submit? && step.h in s.dispatches && s.dispatches[step.h].phase.Loaded?
           && it.key == s.dispatches[step.h].req.key && it.generation == s.dispatches[step.h].req.generation
           && it.worker == s.dispatches[step.h].node && it.attempt == s.dispatches[step.h].req.attempt
  {
  }

  /** No worker is ever given a task that was not ready when it was claimed for it. */
  lemma {:induction false} EveryItemWasReady(ss: seq<System>, steps: seq<Step>, i: nat, n: nat)
    requires IsRun(ss, steps) && i < |ss| && n < |ss[i].items|
    ensures var it := ss[i].items[n];
      exists j :: 0 <= j < i && DispatchedReady(ss, steps, j, it.key, it.generation, it.worker)
  {
    if i > 0 {
      assert ss[i - 1 + 1] == Next(ss[i - 1], steps[i - 1]);
      ItemsComeFromCalls(ss[i - 1], steps[i - 1], n);
      if n < |ss[i - 1].items| {
        EveryItemWasReady(ss, steps, i - 1, n);
      } else {
        EveryCallWasReady(ss, steps, i - 1, steps[i - 1].h);
      }
    }
  }

  // ----- what a completion writes -----

  /** A completion of a running task writes what the worker reported into the status of that
      row and nothing else; one of another claimant writes nothing. */
  lemma CompletionWritesTheReport(ss: seq<System>, steps: seq<Step>, i: nat, h: nat, k: TaskKey)
    requires IsRun(ss, steps) && i < |steps| && steps[i] == ApplyComplete(h) && h in ss[i].completes && k in ss[i].rows
    ensures k in ss[i + 1].rows
    ensures var q, row, row' := ss[i].completes[h].req, ss[i].rows[k], ss[i + 1].rows[k];
      && row' == row.(status := row'.status)
      && (k != q.key || row.claimedBy != q.worker ==> row' == row)
      && (k == q.key && row.claimedBy == q.worker && row.status == Running ==> Means(q.report, q.result, row'.status))
  {
    RunKeepsInv(ss, steps, i);
    assert ss[i + 1] == Next(ss[i], steps[i]);
    var q := ss[i].completes[h].req;
    assert ValidReport(q.report);
  }

  /** A finished task keeps its status, except that a failure of its claimant fails it. */
  lemma LateCompletionWritesFailuresOnly(ss: seq<System>, steps: seq<Step>, i: nat, h: nat)
    requires IsRun(ss, steps) && i < |steps| && steps[i] == ApplyComplete(h) && h in ss[i].completes
    requires ss[i].completes[h].req.key in ss[i].rows
    requires ss[i].rows[ss[i].completes[h].req.key].status in {Succeeded, Failed, Skipped, Cached, Cancelled}
    ensures ss[i].completes[h].req.key in ss[i + 1].rows
    ensures var q := ss[i].completes[h].req;
      ss[i + 1].rows[q.key].status
      == if q.report == ReportFailed && ss[i].rows[q.key].claimedBy == q.worker then Failed
         else ss[i].rows[q.key].status
  {
    assert ss[i + 1] == Next(ss[i], steps[i]);
  }

  // ----- leases and envelopes -----

  /** A run's lease is written once, at generation one; it is renewed by its owner only, and taken
      over, by one generation, by any other node once it has expired. */
  lemma LeasesMove(s: System, run: nat, node: string, clock: int, expires: int)
    ensures run !in s.top ==>
      Next(s, AcquireLease(run, node, expires)).leases == s.leases[run := Lease(node, expires, 1)]
    ensures run in s.top ==> Next(s, AcquireLease(run, node, expires)) == s
    ensures run in s.leases ==>
      var l := s.leases[run];
      && Next(s, RenewLease(run, node, expires)).leases
         == (if l.owner == node then s.leases[run := Lease(node, expires, l.generation)] else s.leases)
      && run in Next(s, TakeOver(node, clock, expires)).leases
      && Next(s, TakeOver(node, clock, expires)).leases[run]
         == if l.owner != node && l.expires <= clock then Lease(node, expires, l.generation + 1) else l
    ensures run !in s.leases ==>
      && Next(s, RenewLease(run, node, expires)) == s && run !in Next(s, TakeOver(node, clock, expires)).leases
  {
  }

  /** An owner's envelope goes out exactly if it names a worker and a generation that the run's
      lease has had. */
  lemma SendsExactlyWhen(s: System, req: DispatchReq)
    ensures Next(s, SendDispatch(req)).dispatchNet
         == s.dispatchNet + if req.worker != "" && req.key.run in s.top && 1 <= req.generation <= s.top[req.key.run]
                            then {req} else {}
  {
  }

  /** A completion gets through exactly if its report is known, the node holds the run's lease,
      that has not expired, and the envelope is of its generation. */
  lemma ChecksExactlyWhen(s: System, step: Step)
    requires step.CheckComplete? && step.h !in s.completes && step.envelope in s.completeNet
    ensures step.h in Next(s, step).completes <==>
      && step.envelope.report in {ReportSucceeded, ReportFailed, ReportCached}
      && step.envelope.key.run in s.leases
      && var l := s.leases[step.envelope.key.run];
         l.owner == step.node && step.clock <= l.expires && l.generation == step.envelope.generation
    ensures step.h in Next(s, step).completes ==> Next(s, step).completes[step.h].req == step.envelope
    ensures step.h !in Next(s, step).completes ==> Next(s, step) == s
  {
    var report := step.envelope.report;
    assert report !in {ReportSucceeded, ReportFailed, ReportCached} <==> report.ReportOther?;
  }

  /** A call goes on with the row it finds running for its worker, or rolls back; an accepted one
      leaves an item, a refused one frees the row, if the claim is still its own. */
  lemma CallsGoOn(s: System, h: nat, flag: bool)
    requires h in s.dispatches && s.dispatches[h].req.key in s.rows
    ensures var c, row := s.dispatches[h], s.rows[s.dispatches[h].req.key];
      && (c.phase == Claimed ==>
            Next(s, LoadTask(h, flag)).dispatches
            == s.dispatches[h := DispatchCall(c.node, c.req, c.claim,
                                              if flag && row.status == Running && row.claimedBy == c.node
                                              then Loaded(row) else RollingBack)])
      && (c.phase.Loaded? ==>
            && Next(s, Submit(h, true)).items
               == s.items + [WorkItem(c.req.key, c.phase.row, c.req.generation, c.req.attempt, c.node)]
            && h !in Next(s, Submit(h, true)).dispatches
            && h in Next(s, Submit(h, false)).dispatches
            && Next(s, Submit(h, false)).dispatches[h].phase == RollingBack)
      && (c.phase == RollingBack ==>
            && h !in Next(s, RollBack(h)).dispatches
            && Next(s, RollBack(h)).rows
               == s.rows[c.req.key := if row.status == Running && row.claimedBy == c.node
                                         && row.generation in {0, c.req.generation}
                                      then row.(status := Pending, claimedBy := "", claimExpires := None) else row])
  {
  }

  // ----- writes from outside -----

  /** What the other writers make of a row. */
  lemma OutsideWrites(s: System, key: TaskKey, w: RowWrite)
    requires key in s.rows
    ensures key in Next(s, External(key, w)).rows
    ensures var row, row' := s.rows[key], Next(s, External(key, w)).rows[key];
      var freed := row.(status := Pending, claimedBy := "", claimExpires := None);
      match w
      case ClaimNext(node, clock, expires) =>
        row' == if && row.status == Pending && row.outstanding == 0
                   && (row.claimedBy == "" || row.claimExpires == None || row.claimExpires.value < clock)
                   && (row.retryAfter == None || row.retryAfter.value <= clock)
                then TaskRow(Running, node, row.claimAttempt + 1, row.generation, row.outstanding, Some(expires), None)
                else row
      case ReclaimExpired(clock) =>
        row' == if row.status == Running && row.claimExpires.Some? && row.claimExpires.value < clock then freed else row
      case ResetInFlight => row' == if row.status == Running then freed.(retryAfter := None) else row
      case RateLimit(until) =>
        row' == if row.status == Running || row.status == Pending then freed.(retryAfter := Some(until)) else row
      case Retry(claimant) =>
        row' == if claimant == None || claimant == Some(row.claimedBy)
                then row.(status := Pending, retryAfter := None) else row
      case RetryFromFailure => row' == if row.status == Failed || row.status == Skipped then freed else row
      case Skip => row' == if row.status == Pending then row.(status := Skipped) else row
      case LocalCompletion(claimant, report, result) =>
        && row' == row.(status := row'.status)
        && (if claimant == None || claimant == Some(row.claimedBy)
            then row.status == Running && !report.ReportOther? ==> Means(report, result, row'.status)
            else row' == row)
      case SetOutstanding(count) => row' == row.(outstanding := count)
      case RenewClaim(worker, expires) =>
        row' == if row.status == Running && row.claimedBy == worker then row.(claimExpires := Some(expires)) else row
  {
  }

  /** Cancelling a run deletes its lease and cancels its tasks that are not finished. */
  lemma CancelWrites(s: System, run: nat, key: TaskKey)
    requires key in s.rows
    ensures Next(s, CancelRun(run)).leases == s.leases - {run} && key in Next(s, CancelRun(run)).rows
    ensures var row := s.rows[key];
      Next(s, CancelRun(run)).rows[key]
      == if key.run == run && row.status in {Pending, Running}
         then TaskRow(Cancelled, "", row.claimAttempt, row.generation, row.outstanding, None, None) else row
  {
  }
}
