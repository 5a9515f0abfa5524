/** Safety of whole runs of the dispatch protocol. */
module DispatchTheorems {
  import opened TaskRuns
  import opened DispatchProtocol
  import opened DispatchSafety

  lemma {:induction false} RunKeepsInv(ss: seq<System>, steps: seq<Step>, i: nat)
    requires IsRun(ss, steps) && i < |ss|
    ensures Inv(ss[i])
  {
    if i > 0 {
      RunKeepsInv(ss, steps, i - 1);
      assert ss[i - 1 + 1] == Next(ss[i - 1], steps[i - 1]);
      StepKeepsInv(ss[i - 1], steps[i - 1]);
    }
  }

  // ----- claims -----

  /** In every reachable state a running dispatch claim has a handler in the middle of its
      call or a submitted work item of the same claim, worker and generation. */
  lemma NoClaimIsOrphaned(ss: seq<System>, steps: seq<Step>, i: nat, key: TaskKey)
    requires IsRun(ss, steps) && i < |ss|
    requires LiveDispatchClaim(ss[i], key)
    ensures HandlerAtWork(ss[i], key, ss[i].rows[key].claimAttempt) || exists n :: IsItemFor(ss[i], n, key)
  {
    RunKeepsInv(ss, steps, i);
    assert Responsible(ss[i], key);
  }

  /** A dispatch call that rolls back leaves its claim running nowhere. */
  lemma RefusedCallLeavesNoClaim(ss: seq<System>, steps: seq<Step>, i: nat, h: nat)
    requires IsRun(ss, steps) && i < |steps| && steps[i] == RollBack(h)
    requires h in ss[i].dispatches && ss[i].dispatches[h].phase.RollingBack?
    ensures var c := ss[i].dispatches[h];
            && h !in ss[i + 1].dispatches && ss[i + 1].items == ss[i].items
            && c.req.key in ss[i + 1].rows
            && !(ss[i + 1].rows[c.req.key].status.Running? && ss[i + 1].rows[c.req.key].claimAttempt == c.claim)
  {
    RunKeepsInv(ss, steps, i);
    assert CallSound(ss[i], ss[i].dispatches[h]);
  }

  /** A dispatch call that is accepted adds one work item, of its own task, generation and
      worker; while the claim still runs, the item carries that very claim. */
  lemma AcceptedCallSubmitsItsClaim(ss: seq<System>, steps: seq<Step>, i: nat, h: nat)
    requires IsRun(ss, steps) && i < |steps| && steps[i] == Submit(h, true)
    requires h in ss[i].dispatches && ss[i].dispatches[h].phase.Loaded?
    ensures var c := ss[i].dispatches[h];
            && |ss[i + 1].items| == |ss[i].items| + 1 && ss[i].items <= ss[i + 1].items
            && c.req.key in ss[i].rows
            && var it := ss[i + 1].items[|ss[i].items|];
            && it.key == c.req.key && it.generation == c.req.generation && it.worker == c.req.worker
            && it.row.claimedBy == it.worker && it.row.status.Running?
            && (ss[i].rows[c.req.key].status.Running? && ss[i].rows[c.req.key].claimAttempt == c.claim ==>
                  IsItemFor(ss[i + 1], |ss[i].items|, c.req.key))
  {
    RunKeepsInv(ss, steps, i);
    assert CallSound(ss[i], ss[i].dispatches[h]);
  }

  // ----- completions -----

  /** The lease that a completion call in flight passed was in the table, owned by the
      handling node, unexpired on its clock and of the envelope's generation. */
  ghost predicate CheckedAt(ss: seq<System>, steps: seq<Step>, j: int, h: nat, c: CompleteCall) {
    && 0 <= j < |steps| && j < |ss|
    && steps[j] == CheckComplete(h, c.node, c.clock, c.req)
    && c.req in ss[j].completeNet
    && PassesFences(ss[j], c.node, c.clock, c.req)
  }

  lemma CallsEnterByCheck(s: System, step: Step, h: nat)
    requires h in Next(s, step).completes
    ensures var c := Next(s, step).completes[h];
            if h in s.completes then s.completes[h] == c
            else step == CheckComplete(h, c.node, c.clock, c.req) && c.req in s.completeNet
                 && PassesFences(s, c.node, c.clock, c.req)
  {
  }

  lemma {:induction false} CallInFlightWasChecked(ss: seq<System>, steps: seq<Step>, i: nat, h: nat)
    requires IsRun(ss, steps) && i < |ss| && h in ss[i].completes
    ensures exists j :: 0 <= j < i && CheckedAt(ss, steps, j, h, ss[i].completes[h])
  {
    if i > 0 {
      var s, step := ss[i - 1], steps[i - 1];
      assert ss[i - 1 + 1] == Next(s, step);
      CallsEnterByCheck(s, step, h);
      if h in s.completes {
        CallInFlightWasChecked(ss, steps, i - 1, h);
      } else {
        assert CheckedAt(ss, steps, i - 1, h, ss[i].completes[h]);
      }
    }
  }

  /** Every completion that changes a row names the row's claimant, stems from a submitted
      work item, and passed the lease fences at an earlier step of the run. */
  lemma AppliedCompletionWasFenced(ss: seq<System>, steps: seq<Step>, i: nat, h: nat)
    requires IsRun(ss, steps) && i < |steps| && steps[i] == ApplyComplete(h)
    requires ss[i + 1].rows != ss[i].rows
    ensures h in ss[i].completes
    ensures var c := ss[i].completes[h];
            && c.req.key in ss[i].rows && ss[i].rows[c.req.key].claimedBy == c.req.worker
            && c.req.worker != ""
            && Reported(ss[i], c.req)
            && exists j :: 0 <= j < i && CheckedAt(ss, steps, j, h, c)
  {
    RunKeepsInv(ss, steps, i);
    assert ss[i + 1] == Next(ss[i], steps[i]);
    CallInFlightWasChecked(ss, steps, i, h);
    var q := ss[i].completes[h].req;
    assert ss[i + 1].rows == ss[i].rows[q.key := AfterApply(ss[i].rows[q.key], q.worker, q.report, q.result)];
    assert Reported(ss[i], q);
  }

  lemma GenerationStep(s: System, step: Step, run: nat)
    requires run in s.top
    ensures run in Next(s, step).top && s.top[run] <= Next(s, step).top[run]
  {
  }

  lemma {:induction false} GenerationsGrow(ss: seq<System>, steps: seq<Step>, i: nat, j: nat, run: nat)
    requires IsRun(ss, steps) && i <= j < |ss| && run in ss[i].top
    ensures run in ss[j].top && ss[i].top[run] <= ss[j].top[run]
  {
    if i < j {
      GenerationsGrow(ss, steps, i, j - 1, run);
      GenerationStep(ss[j - 1], steps[j - 1], run);
      assert ss[j - 1 + 1] == Next(ss[j - 1], steps[j - 1]);
    }
  }

  /** Once a takeover moved a run's generation past an envelope's, no later check of that
      envelope, on any node, lets it through. */
  lemma NoStaleEnvelopePasses(ss: seq<System>, steps: seq<Step>, i: nat, j: nat)
    requires IsRun(ss, steps) && i <= j < |steps| && steps[j].CheckComplete?
    requires steps[j].envelope.key.run in ss[i].top
    requires steps[j].envelope.generation < ss[i].top[steps[j].envelope.key.run]
    ensures ss[j + 1] == ss[j]
  {
    RunKeepsInv(ss, steps, j);
    GenerationsGrow(ss, steps, i, j, steps[j].envelope.key.run);
    assert ss[j + 1] == Next(ss[j], steps[j]);
  }

  /** A row's generation stamp never moves back, so an older owner cannot take a task from a
      newer one. */
  lemma {:induction false} StampsGrow(ss: seq<System>, steps: seq<Step>, i: nat, j: nat, key: TaskKey)
    requires IsRun(ss, steps) && i <= j < |ss| && key in ss[i].rows
    ensures key in ss[j].rows && ss[i].rows[key].generation <= ss[j].rows[key].generation
  {
    if i < j {
      StampsGrow(ss, steps, i, j - 1, key);
      assert ss[j - 1 + 1] == Next(ss[j - 1], steps[j - 1]);
      StampStep(ss[j - 1], steps[j - 1], ss[j], key);
    }
  }

  lemma StampStep(s: System, step: Step, s': System, key: TaskKey)
    requires key in s.rows && s' == Next(s, step)
    ensures key in s'.rows && s.rows[key].generation <= s'.rows[key].generation
  {
    if step.External? && step.key in s.rows { RewriteKeepsClaim(s.rows[step.key], step.write); }
  }

  // ----- terminal tasks -----

  ghost predicate NoRevival(steps: seq<Step>, key: TaskKey) {
    forall i :: 0 <= i < |steps| && steps[i].External? && steps[i].key == key ==> !Revives(steps[i].write)
  }

  ghost predicate Finished(s: System, key: TaskKey) {
    key in s.rows && IsTerminal(s.rows[key].status)
  }

  /** A finished task changes only when a failure is reported, by the owner or by a pulled
      worker in the name of its claimant, or by local execution; and it stays finished. */
  lemma FinishedStep(s: System, step: Step, key: TaskKey)
    requires Finished(s, key)
    requires step.External? && step.key == key ==> !Revives(step.write)
    ensures Finished(Next(s, step), key)
    ensures Next(s, step).rows[key].status != s.rows[key].status ==>
              && Next(s, step).rows[key].status.Failed?
              && ((step.External? && step.key == key && step.write.LocalCompletion?
                   && step.write.report.ReportFailed? && Matches(step.write.claimant, s.rows[key]))
               || (step.ApplyComplete? && step.h in s.completes && s.completes[step.h].req.key == key
                   && s.completes[step.h].req.report.ReportFailed?
                   && s.completes[step.h].req.worker == s.rows[key].claimedBy))
  {
  }

  lemma {:induction false} FinishedStaysFinished(ss: seq<System>, steps: seq<Step>, i: nat, j: nat, key: TaskKey)
    requires IsRun(ss, steps) && i <= j < |ss|
    requires NoRevival(steps, key) && Finished(ss[i], key)
    ensures Finished(ss[j], key)
  {
    if i < j {
      FinishedStaysFinished(ss, steps, i, j - 1, key);
      FinishedStep(ss[j - 1], steps[j - 1], key);
      assert ss[j - 1 + 1] == Next(ss[j - 1], steps[j - 1]);
    }
  }

  /** How often a task enters a terminal status during the first `n` steps. */
  ghost function TimesFinished(ss: seq<System>, key: TaskKey, n: nat): nat
    requires n < |ss|
  {
    if n == 0 then 0
    else TimesFinished(ss, key, n - 1)
         + if Finished(ss[n], key) && !Finished(ss[n - 1], key) then 1 else 0
  }

  /** Unless somebody retries it, a task turns terminal at most once. */
  lemma {:induction false} TurnsTerminalAtMostOnce(ss: seq<System>, steps: seq<Step>, key: TaskKey, n: nat)
    requires IsRun(ss, steps) && n < |ss| && NoRevival(steps, key)
    ensures TimesFinished(ss, key, n) <= (if Finished(ss[n], key) then 1 else 0)
  {
    if n > 0 {
      TurnsTerminalAtMostOnce(ss, steps, key, n - 1);
      if Finished(ss[n - 1], key) {
        FinishedStaysFinished(ss, steps, n - 1, n, key);
      }
    }
  }

  /** The documented rule that a completion finds its task running: for a task that nobody
      reset, a completion changes the row only if the row was running, except that a failure
      also overwrites a terminal row of the same claimant. */
  lemma CompletionFindsTaskRunning(ss: seq<System>, steps: seq<Step>, i: nat, h: nat)
    requires IsRun(ss, steps) && i < |steps| && steps[i] == ApplyComplete(h) && h in ss[i].completes
    requires var q := ss[i].completes[h].req; q.key in ss[i].rows && q.key !in ss[i].disturbed
    ensures var q := ss[i].completes[h].req; var row := ss[i].rows[q.key];
            ss[i + 1].rows[q.key] != row <==>
              && row.claimedBy == q.worker
              && (row.status.Running? || (IsTerminal(row.status) && q.report.ReportFailed? && !row.status.Failed?))
  {
    RunKeepsInv(ss, steps, i);
    var q := ss[i].completes[h].req;
    assert Reported(ss[i], q) && HandledOnceAt(ss[i], q.key);
    assert ss[i + 1] == Next(ss[i], steps[i]);
  }

  // ----- the limits: a finished task can still be overwritten, a claim handed out twice -----

  /** One undisturbed dispatch call from claim to acceptance. */
  function Dispatched(s: System, h: nat, req: DispatchReq, clock: int, expires: int): System {
    Next(Next(Next(s, BeginDispatch(h, req.worker, true, req, clock, expires, false)), LoadTask(h, true)),
         Submit(h, true))
  }

  lemma DispatchCallSucceeds(s: System, h: nat, req: DispatchReq, clock: int, expires: int)
    requires h !in s.dispatches && req in s.dispatchNet && req.key in s.rows
    requires Claimable(s.rows[req.key], req.generation, clock, false)
    ensures var row := Claim(s.rows[req.key], req.worker, req.generation, expires);
            Dispatched(s, h, req, clock, expires)
            == s.(rows := s.rows[req.key := row],
                  items := s.items + [WorkItem(req.key, row, req.generation, req.attempt, req.worker)],
                  dispatched := s.dispatched + {ClaimId(req.key, row.claimAttempt)})
  {
    var loaded := DoLoad(DoBegin(s, h, req.worker, true, req, clock, expires, false), h, true);
    assert loaded.dispatches - {h} == s.dispatches;
  }

  /** A worker's report on item `i`, checked and applied by `node` without interruption. */
  function ReportApplied(s: System, i: nat, h: nat, node: string, clock: int, report: Report): System
    requires i < |s.items|
  {
    Next(Next(Next(s, ReportOutcome(i, report, "")), CheckComplete(h, node, clock, Outcome(s.items[i], report, ""))),
         ApplyComplete(h))
  }

  lemma ReportIsApplied(s: System, i: nat, h: nat, node: string, clock: int, report: Report)
    requires i < |s.items| && h !in s.completes && s.items[i].key in s.rows
    requires PassesFences(s, node, clock, Outcome(s.items[i], report, ""))
    ensures var it := s.items[i];
            ReportApplied(s, i, h, node, clock, report)
            == s.(rows := s.rows[it.key := AfterApply(s.rows[it.key], it.worker, report, "")],
                  completeNet := s.completeNet + {Outcome(it, report, "")})
  {
    var checked := DoCheck(DoReport(s, i, report, ""), h, node, clock, Outcome(s.items[i], report, ""));
    assert checked.completes - {h} == s.completes;
  }

  /** The whole life of a task whose success is lost: dispatched, reported as succeeded and
      applied; then the same worker, whose answer got lost, reports a failure, and the task
      that had succeeded is failed. Nothing but the lease of the run is needed. */
  lemma SuccessCanBeOverwrittenByFailure(s: System, h: nat, node: string, clock: int, req: DispatchReq)
    requires h !in s.dispatches && h !in s.completes && req in s.dispatchNet && req.key in s.rows
    requires Claimable(s.rows[req.key], req.generation, clock, false)
    requires PassesFences(s, node, clock,
                          CompleteReq(req.key, req.generation, req.attempt, req.worker, ReportFailed, ""))
    ensures var s1 := Dispatched(s, h, req, clock, clock);
            && |s1.items| == |s.items| + 1
            && var s2 := ReportApplied(s1, |s.items|, h, node, clock, ReportSucceeded);
            && req.key in s2.rows && s2.rows[req.key].status.Succeeded?
            && |s2.items| == |s.items| + 1
            && var s3 := ReportApplied(s2, |s.items|, h, node, clock, ReportFailed);
            req.key in s3.rows && s3.rows[req.key].status.Failed?
  {
    DispatchCallSucceeds(s, h, req, clock, clock);
    var s1 := Dispatched(s, h, req, clock, clock);
    ReportIsApplied(s1, |s.items|, h, node, clock, ReportSucceeded);
    var s2 := ReportApplied(s1, |s.items|, h, node, clock, ReportSucceeded);
    ReportIsApplied(s2, |s.items|, h, node, clock, ReportFailed);
  }

  /** A handler has just claimed; the task is reset, as a new owner does on recovery, and the
      same node claims it again for another handler. Both handlers then load the row and both
      submit: one claim, two work items. */
  lemma ResetCanDuplicateAClaim(s: System, h: nat, g: nat, req: DispatchReq, clock: int, expires: int)
    requires h in s.dispatches && s.dispatches[h].phase.Claimed? && s.dispatches[h].req.key == req.key
    requires s.dispatches[h].node == req.worker && g !in s.dispatches
    requires req in s.dispatchNet && req.key in s.rows
    requires Loadable(s.rows[req.key], req.worker) && s.rows[req.key].generation <= req.generation
    ensures var s1 := DoExternal(s, req.key, ResetInFlight);
            var s2 := DoBegin(s1, g, req.worker, true, req, clock, expires, true);
            var s3 := DoSubmit(DoLoad(s2, h, true), h, true);
            var s4 := DoSubmit(DoLoad(s3, g, true), g, true);
            && LiveRow(s4, req.key) && |s4.items| == |s.items| + 2
            && (forall i :: |s.items| <= i < |s4.items| ==>
                  && s4.items[i].key == req.key && s4.items[i].worker == s4.rows[req.key].claimedBy
                  && s4.items[i].row.claimAttempt == s4.rows[req.key].claimAttempt)
  {
    var s1 := DoExternal(s, req.key, ResetInFlight);
    assert Claimable(s1.rows[req.key], req.generation, clock, true);
    var s2 := DoBegin(s1, g, req.worker, true, req, clock, expires, true);
    assert s2.dispatches[h] == s.dispatches[h] && Loadable(s2.rows[req.key], req.worker);
    var s3 := DoSubmit(DoLoad(s2, h, true), h, true);
    assert s3.rows == s2.rows && s3.dispatches[g] == s2.dispatches[g];
  }

  ghost predicate LiveRow(s: System, key: TaskKey) {
    key in s.rows && s.rows[key].status.Running?
  }
}
