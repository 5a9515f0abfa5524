/** What every run of the dispatch protocol keeps. */
module DispatchSafety {
  import opened TaskRuns
  import opened DispatchProtocol

  // ----- what a write may do to one row -----

  /** No write but a dispatch claim restamps a row, and a claim survives a write unchanged
      or not at all. */
  predicate KeepsClaim(row: TaskRow, row': TaskRow) {
    && row.claimAttempt <= row'.claimAttempt
    && row'.generation == row.generation
    && (row'.status.Running? && row'.claimAttempt == row.claimAttempt ==>
          row.status.Running? && row'.claimedBy == row.claimedBy)
  }

  /** A write that never sends a claimed or finished task back to pending. */
  predicate Calm(row: TaskRow, row': TaskRow) {
    && (row'.claimAttempt != row.claimAttempt ==> row.status.Pending?)
    && (row'.status.Pending? ==> row.status.Pending? && row'.claimedBy == row.claimedBy)
  }

  lemma RewriteKeepsClaim(row: TaskRow, w: RowWrite)
    ensures KeepsClaim(row, Rewrite(row, w))
    ensures !Disturbs(w) ==> Calm(row, Rewrite(row, w))
  {
  }

  /** `s'` differs from `s` in row contents written under KeepsClaim, and in nothing else
      that the dispatch handlers depend on. */
  ghost predicate RowsRewritten(s: System, s': System) {
    && s'.rows.Keys == s.rows.Keys
    && s'.dispatches == s.dispatches && s'.items == s.items
    && s'.dispatched == s.dispatched && s'.leaked == s.leaked && s.disturbed <= s'.disturbed
    && (forall k :: k in s.rows ==> KeepsClaim(s.rows[k], s'.rows[k]))
    && (forall k :: k in s.rows && k !in s'.disturbed ==> Calm(s.rows[k], s'.rows[k]))
  }

  /** ... and in the lease and completion tables only as far as the base invariant allows. */
  ghost predicate NetsKept(s: System, s': System) {
    && s'.top == s.top && s'.dispatchNet == s.dispatchNet && s'.completeNet == s.completeNet
    && s'.leases.Keys <= s.leases.Keys && (forall r :: r in s'.leases ==> s'.leases[r] == s.leases[r])
    && s'.completes.Keys <= s.completes.Keys
    && (forall h :: h in s'.completes ==> s'.completes[h] == s.completes[h])
  }

  lemma BaseFrame(s: System, s': System)
    requires BaseInv(s) && RowsRewritten(s, s') && NetsKept(s, s')
    ensures BaseInv(s')
  {
    forall q | q in s'.completeNet ensures Reported(s', q) {
      assert Reported(s, q);
    }
    forall h | h in s'.dispatches ensures CallSound(s', s'.dispatches[h]) {
      assert CallSound(s, s.dispatches[h]);
    }
  }

  lemma ResponsibleFrame(s: System, s': System, key: TaskKey)
    requires key in s.rows && key in s'.rows && Responsible(s, key)
    requires s'.rows[key].claimAttempt == s.rows[key].claimAttempt
    requires s'.rows[key].claimedBy == s.rows[key].claimedBy
    requires s'.rows[key].generation == s.rows[key].generation
    requires s.items <= s'.items
    requires forall h :: HandlesKey(s, h, key) && s.dispatches[h].claim == s.rows[key].claimAttempt
               ==> HandlesKey(s', h, key) && s'.dispatches[h].claim == s.rows[key].claimAttempt
    ensures Responsible(s', key)
  {
    if i :| IsItemFor(s, i, key) {
      assert IsItemFor(s', i, key);
    } else {
      var h :| h in s.dispatches && s.dispatches[h].req.key == key && s.dispatches[h].claim == s.rows[key].claimAttempt;
      assert HandlesKey(s, h, key);
    }
  }

  lemma OrphanFrame(s: System, s': System)
    requires NoOrphans(s) && RowsRewritten(s, s') && ClaimsCounted(s)
    ensures NoOrphans(s')
  {
    forall key | LiveDispatchClaim(s', key) ensures Responsible(s', key) {
      assert KeepsClaim(s.rows[key], s'.rows[key]);
      assert LiveDispatchClaim(s, key);
      ResponsibleFrame(s, s', key);
    }
  }

  lemma HandledFrame(s: System, s': System)
    requires HandledOnce(s) && RowsRewritten(s, s')
    ensures HandledOnce(s')
  {
    forall key | key in s'.rows && key !in s'.disturbed ensures HandledOnceAt(s', key) {
      assert HandledOnceAt(s, key) && Calm(s.rows[key], s'.rows[key]);
      forall h | HandlesKey(s', h, key) ensures HandlesKey(s, h, key) {}
      forall i | ItemHasKey(s', i, key) ensures ItemHasKey(s, i, key) {}
    }
  }

  /** Applying, rewriting and cancelling only touch rows. */
  lemma ApplyRewrites(s: System, h: nat)
    ensures RowsRewritten(s, DoApply(s, h)) && NetsKept(s, DoApply(s, h))
  {
  }

  lemma DropRewrites(s: System, h: nat)
    ensures var s' := s.(completes := s.completes - {h}); RowsRewritten(s, s') && NetsKept(s, s')
  {
  }

  lemma ExternalRewrites(s: System, key: TaskKey, w: RowWrite)
    ensures RowsRewritten(s, DoExternal(s, key, w)) && NetsKept(s, DoExternal(s, key, w))
  {
    if key in s.rows {
      RewriteKeepsClaim(s.rows[key], w);
    }
  }

  lemma CancelRewrites(s: System, run: nat)
    ensures RowsRewritten(s, DoCancel(s, run)) && NetsKept(s, DoCancel(s, run))
  {
  }

  lemma RewriteKeepsInv(s: System, s': System)
    requires Inv(s) && RowsRewritten(s, s') && NetsKept(s, s')
    ensures Inv(s')
  {
    BaseFrame(s, s');
    OrphanFrame(s, s');
    HandledFrame(s, s');
  }

  // ----- lease and network steps touch no row at all -----

  ghost predicate LeaseStep(s: System, s': System) {
    && s' == s.(leases := s'.leases, top := s'.top, dispatchNet := s'.dispatchNet,
                completeNet := s'.completeNet, completes := s'.completes)
    && s.dispatchNet <= s'.dispatchNet
    && (forall r :: r in s.top ==> r in s'.top && s.top[r] <= s'.top[r])
    && (forall q :: q in s'.dispatchNet - s.dispatchNet ==> q.worker != "" && GenerationKnown(s', q.key, q.generation))
    && (forall q :: q in s'.completeNet - s.completeNet ==> Reported(s', q))
  }

  lemma LeaseKeepsInv(s: System, s': System)
    requires Inv(s) && LeaseStep(s, s') && LeasesTracked(s') && CompletionsFenced(s')
    ensures Inv(s')
  {
    OrphanFrame(s, s');
    HandledFrame(s, s');
    forall h | h in s'.dispatches ensures CallSound(s', s'.dispatches[h]) {
      assert CallSound(s, s.dispatches[h]);
    }
    forall q | q in s'.completeNet ensures Reported(s', q) {
      if q in s.completeNet { assert Reported(s, q); }
    }
    forall q | q in s'.dispatchNet ensures q.worker != "" && GenerationKnown(s', q.key, q.generation) {
      if q in s.dispatchNet { assert GenerationKnown(s, q.key, q.generation); }
    }
  }

  lemma AcquireStep(s: System, run: nat, node: string, expires: int)
    requires LeasesTracked(s)
    ensures LeaseStep(s, DoAcquire(s, run, node, expires)) && LeasesTracked(DoAcquire(s, run, node, expires))
  {
  }

  lemma RenewStep(s: System, run: nat, node: string, expires: int)
    requires LeasesTracked(s)
    ensures LeaseStep(s, DoRenew(s, run, node, expires)) && LeasesTracked(DoRenew(s, run, node, expires))
  {
  }

  lemma TakeOverStep(s: System, node: string, clock: int, expires: int)
    requires LeasesTracked(s)
    ensures LeaseStep(s, DoTakeOver(s, node, clock, expires)) && LeasesTracked(DoTakeOver(s, node, clock, expires))
  {
  }

  lemma SendStep(s: System, req: DispatchReq)
    ensures LeaseStep(s, DoSend(s, req))
  {
  }

  lemma ReportStep(s: System, item: nat, report: Report, result: string)
    ensures LeaseStep(s, DoReport(s, item, report, result))
  {
    var s' := DoReport(s, item, report, result);
    forall q | q in s'.completeNet - s.completeNet ensures Reported(s', q) {
      assert Outcome(s'.items[item], q.report, q.result) == q;
    }
  }

  lemma CheckStep(s: System, h: nat, node: string, clock: int, req: CompleteReq)
    requires CompletionsFenced(s)
    ensures LeaseStep(s, DoCheck(s, h, node, clock, req)) && CompletionsFenced(DoCheck(s, h, node, clock, req))
  {
  }

  /** Completions in flight stay fenced when the network only grows. */
  lemma FencedFrame(s: System, s': System)
    requires CompletionsFenced(s) && s'.completes == s.completes && s.completeNet <= s'.completeNet
    ensures CompletionsFenced(s')
  {
  }

  // ----- the dispatch handler's own steps -----

  /** The part of the base invariant that a handler step could break. */
  lemma HandlerBase(s: System, s': System)
    requires BaseInv(s)
    requires s' == s.(rows := s'.rows, dispatches := s'.dispatches, items := s'.items,
                      dispatched := s'.dispatched, leaked := s'.leaked)
    requires s.items <= s'.items && CallsSound(s') && ClaimsCounted(s')
    requires forall i :: |s.items| <= i < |s'.items| ==>
               s'.items[i].worker != "" && GenerationKnown(s', s'.items[i].key, s'.items[i].generation)
    ensures BaseInv(s')
  {
    forall q | q in s'.completeNet ensures Reported(s', q) {
      assert Reported(s, q);
      var i :| 0 <= i < |s.items| && Outcome(s.items[i], q.report, q.result) == q;
      assert s'.items[i] == s.items[i];
    }
  }

  lemma BeginBase(s: System, h: nat, node: string, hasWorker: bool, req: DispatchReq,
                 clock: int, expires: int, trust: bool)
    requires BaseInv(s)
    ensures BaseInv(DoBegin(s, h, node, hasWorker, req, clock, expires, trust))
  {
    var s' := DoBegin(s, h, node, hasWorker, req, clock, expires, trust);
    if s' != s {
      forall g | g in s'.dispatches ensures CallSound(s', s'.dispatches[g]) {
        if g in s.dispatches && g != h { assert CallSound(s, s.dispatches[g]); }
      }
      HandlerBase(s, s');
    }
  }

  lemma BeginOrphans(s: System, h: nat, node: string, hasWorker: bool, req: DispatchReq,
                 clock: int, expires: int, trust: bool)
    requires ClaimsCounted(s) && NoOrphans(s)
    ensures NoOrphans(DoBegin(s, h, node, hasWorker, req, clock, expires, trust))
  {
    var s' := DoBegin(s, h, node, hasWorker, req, clock, expires, trust);
    forall key | s' != s && LiveDispatchClaim(s', key) ensures Responsible(s', key) {
      if key == req.key {
        assert HandlesKey(s', h, key);
      } else {
        assert LiveDispatchClaim(s, key);
        ResponsibleFrame(s, s', key);
      }
    }
  }

  lemma BeginHandled(s: System, h: nat, node: string, hasWorker: bool, req: DispatchReq,
                 clock: int, expires: int, trust: bool)
    requires HandledOnce(s)
    ensures HandledOnce(DoBegin(s, h, node, hasWorker, req, clock, expires, trust))
  {
    var s' := DoBegin(s, h, node, hasWorker, req, clock, expires, trust);
    forall key | s' != s && key in s'.rows && key !in s'.disturbed ensures HandledOnceAt(s', key) {
      assert HandledOnceAt(s, key);
      forall g | HandlesKey(s', g, key) ensures (g == h && key == req.key) || HandlesKey(s, g, key) {}
      forall i | ItemHasKey(s', i, key) ensures ItemHasKey(s, i, key) {}
    }
  }

  lemma SameHandling(s: System, s': System)
    requires HandledOnce(s) && s'.rows == s.rows && s'.disturbed == s.disturbed
    requires s'.items == s.items && s'.dispatches.Keys <= s.dispatches.Keys
    requires forall g :: g in s'.dispatches ==>
               s'.dispatches[g].req == s.dispatches[g].req && s'.dispatches[g].claim == s.dispatches[g].claim
    ensures HandledOnce(s')
  {
    forall key | key in s'.rows && key !in s'.disturbed ensures HandledOnceAt(s', key) {
      assert HandledOnceAt(s, key);
      forall g | HandlesKey(s', g, key) ensures HandlesKey(s, g, key) {}
      forall i | ItemHasKey(s', i, key) ensures ItemHasKey(s, i, key) {}
    }
  }

  /** Moving one call to its next phase. */
  function WithPhase(s: System, h: nat, phase: Phase): System
    requires h in s.dispatches
  {
    s.(dispatches := s.dispatches[h := s.dispatches[h].(phase := phase)])
  }

  lemma PhaseBase(s: System, h: nat, phase: Phase)
    requires BaseInv(s) && h in s.dispatches && !phase.Claimed?
    requires phase.Loaded? ==> var c := s.dispatches[h];
               c.req.key in s.rows && phase.row == s.rows[c.req.key] && Loadable(phase.row, c.node)
    ensures BaseInv(WithPhase(s, h, phase))
  {
    var s' := WithPhase(s, h, phase);
    forall g | g in s'.dispatches ensures CallSound(s', s'.dispatches[g]) {
      assert CallSound(s, s.dispatches[g]);
    }
    HandlerBase(s, s');
  }

  lemma PhaseRest(s: System, h: nat, phase: Phase)
    requires NoOrphans(s) && HandledOnce(s) && h in s.dispatches
    ensures NoOrphans(WithPhase(s, h, phase)) && HandledOnce(WithPhase(s, h, phase))
  {
    var s' := WithPhase(s, h, phase);
    forall key | LiveDispatchClaim(s', key) ensures Responsible(s', key) {
      assert LiveDispatchClaim(s, key);
      ResponsibleFrame(s, s', key);
    }
    SameHandling(s, s');
  }

  lemma LoadInv(s: System, h: nat, readable: bool)
    requires Inv(s)
    ensures Inv(DoLoad(s, h, readable))
  {
    if h in s.dispatches && s.dispatches[h].phase.Claimed? {
      var phase := DoLoad(s, h, readable).dispatches[h].phase;
      PhaseBase(s, h, phase);
      PhaseRest(s, h, phase);
    }
  }

  lemma SubmitBase(s: System, h: nat)
    requires BaseInv(s) && h in s.dispatches && s.dispatches[h].phase.Loaded?
    ensures BaseInv(DoSubmit(s, h, true))
  {
    var s' := DoSubmit(s, h, true);
    assert CallSound(s, s.dispatches[h]);
    forall g | g in s'.dispatches ensures CallSound(s', s'.dispatches[g]) {
      assert CallSound(s, s.dispatches[g]);
    }
    HandlerBase(s, s');
  }

  lemma SubmitOrphans(s: System, h: nat)
    requires CallsSound(s) && NoOrphans(s) && h in s.dispatches && s.dispatches[h].phase.Loaded?
    ensures NoOrphans(DoSubmit(s, h, true))
  {
    var s' := DoSubmit(s, h, true);
    var c := s.dispatches[h];
    assert CallSound(s, c);
    forall key | LiveDispatchClaim(s', key) ensures Responsible(s', key) {
      assert LiveDispatchClaim(s, key);
      if key == c.req.key && c.claim == s.rows[key].claimAttempt {
        assert IsItemFor(s', |s.items|, key);
      } else {
        ResponsibleFrame(s, s', key);
      }
    }
  }

  lemma SubmitHandled(s: System, h: nat)
    requires HandledOnce(s) && h in s.dispatches && s.dispatches[h].phase.Loaded?
    ensures HandledOnce(DoSubmit(s, h, true))
  {
    var s' := DoSubmit(s, h, true);
    var c := s.dispatches[h];
    forall key | key in s'.rows && key !in s'.disturbed ensures HandledOnceAt(s', key) {
      assert HandledOnceAt(s, key);
      forall g | HandlesKey(s', g, key) ensures HandlesKey(s, g, key) && g != h {}
      forall i | ItemHasKey(s', i, key)
        ensures ItemHasKey(s, i, key) || (i == |s.items| && key == c.req.key) {}
      if key == c.req.key { assert HandlesKey(s, h, key); }
    }
  }

  lemma SubmitInv(s: System, h: nat, accepted: bool)
    requires Inv(s)
    ensures Inv(DoSubmit(s, h, accepted))
  {
    if h in s.dispatches && s.dispatches[h].phase.Loaded? {
      if accepted {
        SubmitBase(s, h);
        SubmitOrphans(s, h);
        SubmitHandled(s, h);
      } else {
        PhaseBase(s, h, RollingBack);
        PhaseRest(s, h, RollingBack);
      }
    }
  }

  lemma RollBackBase(s: System, h: nat)
    requires BaseInv(s) && h in s.dispatches && s.dispatches[h].phase.RollingBack?
    ensures BaseInv(DoRollBack(s, h))
  {
    var s' := DoRollBack(s, h);
    forall g | g in s'.dispatches ensures CallSound(s', s'.dispatches[g]) {
      assert CallSound(s, s.dispatches[g]);
    }
    HandlerBase(s, s');
  }

  lemma RollBackOrphans(s: System, h: nat)
    requires CallsSound(s) && NoOrphans(s) && h in s.dispatches && s.dispatches[h].phase.RollingBack?
    ensures NoOrphans(DoRollBack(s, h))
  {
    var s' := DoRollBack(s, h);
    assert CallSound(s, s.dispatches[h]);
    forall key | LiveDispatchClaim(s', key) ensures Responsible(s', key) {
      assert LiveDispatchClaim(s, key);
      ResponsibleFrame(s, s', key);
    }
  }

  lemma RollBackHandled(s: System, h: nat)
    requires HandledOnce(s) && h in s.dispatches && s.dispatches[h].phase.RollingBack?
    ensures HandledOnce(DoRollBack(s, h))
  {
    var s' := DoRollBack(s, h);
    var c := s.dispatches[h];
    forall key | key in s'.rows && key !in s'.disturbed ensures HandledOnceAt(s', key) {
      assert HandledOnceAt(s, key);
      forall g | HandlesKey(s', g, key) ensures HandlesKey(s, g, key) && g != h {}
      forall i | ItemHasKey(s', i, key) ensures ItemHasKey(s, i, key) {}
      if key == c.req.key { assert HandlesKey(s, h, key); }
    }
  }

  lemma RollBackInv(s: System, h: nat)
    requires Inv(s)
    ensures Inv(DoRollBack(s, h))
  {
    if h in s.dispatches && s.dispatches[h].phase.RollingBack? {
      RollBackBase(s, h);
      RollBackOrphans(s, h);
      RollBackHandled(s, h);
    }
  }

  lemma AbandonBase(s: System, h: nat)
    requires BaseInv(s) && h in s.dispatches
    ensures BaseInv(DoAbandon(s, h))
  {
    var s' := DoAbandon(s, h);
    forall g | g in s'.dispatches ensures CallSound(s', s'.dispatches[g]) {
      assert CallSound(s, s.dispatches[g]);
    }
    HandlerBase(s, s');
  }

  lemma AbandonRest(s: System, h: nat)
    requires NoOrphans(s) && HandledOnce(s) && h in s.dispatches
    ensures NoOrphans(DoAbandon(s, h)) && HandledOnce(DoAbandon(s, h))
  {
    var s' := DoAbandon(s, h);
    forall key | LiveDispatchClaim(s', key) ensures Responsible(s', key) {
      assert LiveDispatchClaim(s, key);
      ResponsibleFrame(s, s', key);
    }
    SameHandling(s, s');
  }

  // ----- every step -----

  lemma LeaseStepsKeepInv(s: System, step: Step)
    requires Inv(s)
    requires step.AcquireLease? || step.RenewLease? || step.TakeOver? || step.SendDispatch?
          || step.ReportOutcome? || step.CheckComplete?
    ensures Inv(Next(s, step))
  {
    match step {
    case AcquireLease(run, node, expires) => AcquireStep(s, run, node, expires);
    case RenewLease(run, node, expires) => RenewStep(s, run, node, expires);
    case TakeOver(node, clock, expires) => TakeOverStep(s, node, clock, expires);
    case SendDispatch(req) => SendStep(s, req);
    case ReportOutcome(item, report, result) => ReportStep(s, item, report, result);
    case CheckComplete(h, node, clock, req) => CheckStep(s, h, node, clock, req);
    }
    if !step.CheckComplete? { FencedFrame(s, Next(s, step)); }
    LeaseKeepsInv(s, Next(s, step));
  }

  lemma HandlerStepsKeepInv(s: System, step: Step)
    requires Inv(s)
    requires step.BeginDispatch? || step.LoadTask? || step.Submit? || step.RollBack? || step.Abandon?
    ensures Inv(Next(s, step))
  {
    match step
    case BeginDispatch(h, node, hasWorker, req, clock, expires, trust) =>
      BeginBase(s, h, node, hasWorker, req, clock, expires, trust);
      BeginOrphans(s, h, node, hasWorker, req, clock, expires, trust);
      BeginHandled(s, h, node, hasWorker, req, clock, expires, trust);
    case LoadTask(h, readable) => LoadInv(s, h, readable);
    case Submit(h, accepted) => SubmitInv(s, h, accepted);
    case RollBack(h) => RollBackInv(s, h);
    case Abandon(h) =>
      if h in s.dispatches { AbandonBase(s, h); AbandonRest(s, h); }
  }

  lemma RowStepsKeepInv(s: System, step: Step)
    requires Inv(s)
    requires step.ApplyComplete? || step.DropComplete? || step.External? || step.CancelRun?
    ensures Inv(Next(s, step))
  {
    match step {
    case ApplyComplete(h) => ApplyRewrites(s, h);
    case DropComplete(h) => DropRewrites(s, h);
    case External(key, w) => ExternalRewrites(s, key, w);
    case CancelRun(run) => CancelRewrites(s, run);
    }
    RewriteKeepsInv(s, Next(s, step));
  }

  lemma StepKeepsInv(s: System, step: Step)
    requires Inv(s)
    ensures Inv(Next(s, step))
  {
    if step.ApplyComplete? || step.DropComplete? || step.External? || step.CancelRun? {
      RowStepsKeepInv(s, step);
    } else if step.BeginDispatch? || step.LoadTask? || step.Submit? || step.RollBack? || step.Abandon? {
      HandlerStepsKeepInv(s, step);
    } else {
      LeaseStepsKeepInv(s, step);
    }
  }
}
