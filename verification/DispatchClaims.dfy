/** Who answers for a claim. Each running dispatch claim has exactly one handler or work item
    in all states of a run exactly when no load in it finds another live dispatch claim than
    the handler's own. */
module DispatchClaims {
  import opened TaskRuns
  import opened DispatchProtocol
  import opened DispatchSafety
  import opened DispatchTheorems

  datatype Party = Handler(h: nat) | Item(i: nat)

  /** The handler made the claim or has loaded it; the item carries it. */
  ghost predicate AnswersFor(s: System, p: Party, key: TaskKey, claim: nat) {
    match p
    case Handler(h) =>
      && HandlesKey(s, h, key)
      && (|| s.dispatches[h].claim == claim
          || (s.dispatches[h].phase.Loaded? && s.dispatches[h].phase.row.claimAttempt == claim))
    case Item(i) => ItemHasKey(s, i, key) && s.items[i].row.claimAttempt == claim
  }

  ghost predicate ExactlyOneAnswers(s: System, key: TaskKey, claim: nat) {
    exists p :: AnswersFor(s, p, key, claim) && forall p' :: AnswersFor(s, p', key, claim) ==> p' == p
  }

  /** Every running claim of a dispatch handler that did not die over it has exactly one
      handler or item. */
  ghost predicate EveryClaimHasOne(s: System) {
    forall key :: LiveDispatchClaim(s, key) ==> ExactlyOneAnswers(s, key, s.rows[key].claimAttempt)
  }

  /** The load finds a running row of the same node whose claim another dispatch handler made. */
  ghost predicate LoadsForeignClaim(s: System, step: Step) {
    && step.LoadTask? && step.readable
    && step.h in s.dispatches && s.dispatches[step.h].phase.Claimed?
    && var c := s.dispatches[step.h];
    && LiveDispatchClaim(s, c.req.key) && Loadable(s.rows[c.req.key], c.node)
    && s.rows[c.req.key].claimAttempt != c.claim
  }

  // ----- without such a load -----

  ghost predicate AtMostOne(s: System) {
    forall key, claim, p, p' ::
      (&& ClaimId(key, claim) in s.dispatched - s.leaked
       && AnswersFor(s, p, key, claim) && AnswersFor(s, p', key, claim)) ==> p == p'
  }

  ghost predicate ItemsCounted(s: System) {
    forall i :: 0 <= i < |s.items| ==>
      s.items[i].key in s.rows && s.items[i].row.claimAttempt <= s.rows[s.items[i].key].claimAttempt
  }

  /** Nobody answers for more than before, and no more claims are live. */
  ghost predicate FewerAnswer(s: System, s': System) {
    && (forall p, key, claim :: ClaimId(key, claim) in s'.dispatched - s'.leaked && AnswersFor(s', p, key, claim)
          ==> AnswersFor(s, p, key, claim))
    && s'.dispatched - s'.leaked <= s.dispatched - s.leaked
  }

  lemma FewerKeepsOne(s: System, s': System)
    requires AtMostOne(s) && FewerAnswer(s, s')
    ensures AtMostOne(s')
  {
  }

  lemma SameParties(s: System, s': System)
    requires s'.dispatches.Keys <= s.dispatches.Keys && s'.items == s.items
    requires forall h :: h in s'.dispatches ==> s'.dispatches[h] == s.dispatches[h]
    requires s'.dispatched == s.dispatched && s.leaked <= s'.leaked
    ensures FewerAnswer(s, s')
  {
    forall p, key, claim | AnswersFor(s', p, key, claim) ensures AnswersFor(s, p, key, claim) {
      if p.Handler? { assert HandlesKey(s, p.h, key); } else { assert ItemHasKey(s, p.i, key); }
    }
  }

  lemma LoadAnswers(s: System, h: nat, readable: bool)
    requires Inv(s) && !LoadsForeignClaim(s, LoadTask(h, readable))
    ensures FewerAnswer(s, DoLoad(s, h, readable))
  {
    var s' := DoLoad(s, h, readable);
    forall p, key, claim | ClaimId(key, claim) in s'.dispatched - s'.leaked && AnswersFor(s', p, key, claim)
      ensures AnswersFor(s, p, key, claim)
    {
      if p.Handler? { assert HandlesKey(s, p.h, key); } else { assert ItemHasKey(s, p.i, key); }
    }
  }

  lemma RefuseAnswers(s: System, h: nat)
    ensures FewerAnswer(s, DoSubmit(s, h, false))
  {
    var s' := DoSubmit(s, h, false);
    forall p, key, claim | AnswersFor(s', p, key, claim) ensures AnswersFor(s, p, key, claim) {
      if p.Handler? { assert HandlesKey(s, p.h, key); } else { assert ItemHasKey(s, p.i, key); }
    }
  }

  /** The new item answers for what its handler answered for, and the handler is gone. */
  lemma SubmitKeepsOne(s: System, h: nat)
    requires AtMostOne(s) && h in s.dispatches && s.dispatches[h].phase.Loaded?
    ensures AtMostOne(DoSubmit(s, h, true))
  {
    var s' := DoSubmit(s, h, true);
    forall p, key, claim | AnswersFor(s', p, key, claim)
      ensures AnswersFor(s, if p == Item(|s.items|) then Handler(h) else p, key, claim) && p != Handler(h)
    {
      if p.Handler? { assert HandlesKey(s, p.h, key); }
      else if p.i < |s.items| { assert ItemHasKey(s, p.i, key); }
      else { assert HandlesKey(s, h, key); }
    }
    forall key, claim, p, p' | ClaimId(key, claim) in s'.dispatched - s'.leaked && AnswersFor(s', p, key, claim)
      && AnswersFor(s', p', key, claim)
      ensures p == p'
    {
      assert AnswersFor(s, if p == Item(|s.items|) then Handler(h) else p, key, claim);
      assert AnswersFor(s, if p' == Item(|s.items|) then Handler(h) else p', key, claim);
    }
  }

  /** Nobody answers for a claim that was never made. */
  lemma NobodyAhead(s: System, p: Party, key: TaskKey, claim: nat)
    requires CallsSound(s) && ItemsCounted(s) && key in s.rows && AnswersFor(s, p, key, claim)
    ensures claim <= s.rows[key].claimAttempt
  {
    if p.Handler? { assert CallSound(s, s.dispatches[p.h]); }
  }

  lemma BeginAnswers(s: System, h: nat, node: string, hasWorker: bool, req: DispatchReq, clock: int, expires: int,
                     trust: bool,
                     p: Party, key: TaskKey, claim: nat)
    requires AnswersFor(DoBegin(s, h, node, hasWorker, req, clock, expires, trust), p, key, claim)
    requires DoBegin(s, h, node, hasWorker, req, clock, expires, trust) != s
    ensures AnswersFor(s, p, key, claim) || (p == Handler(h) && key == req.key && claim == s.rows[key].claimAttempt + 1)
  {
    if p.Item? {
      assert ItemHasKey(s, p.i, key);
    } else if p.h != h {
      assert HandlesKey(s, p.h, key);
    }
  }

  lemma BeginKeepsOne(s: System, h: nat, node: string, hasWorker: bool, req: DispatchReq, clock: int, expires: int,
                      trust: bool)
    requires AtMostOne(s) && CallsSound(s) && ItemsCounted(s) && ClaimsCounted(s)
    ensures AtMostOne(DoBegin(s, h, node, hasWorker, req, clock, expires, trust))
  {
    var s' := DoBegin(s, h, node, hasWorker, req, clock, expires, trust);
    forall key, claim, p, p' | s' != s && ClaimId(key, claim) in s'.dispatched - s'.leaked
        && AnswersFor(s', p, key, claim) && AnswersFor(s', p', key, claim)
      ensures p == p'
    {
      BeginAnswers(s, h, node, hasWorker, req, clock, expires, trust, p, key, claim);
      BeginAnswers(s, h, node, hasWorker, req, clock, expires, trust, p', key, claim);
      if key == req.key {
        if AnswersFor(s, p, key, claim) { NobodyAhead(s, p, key, claim); }
        if AnswersFor(s, p', key, claim) { NobodyAhead(s, p', key, claim); }
      }
    }
  }

  lemma StepKeepsOne(s: System, step: Step)
    requires Inv(s) && AtMostOne(s) && ItemsCounted(s) && !LoadsForeignClaim(s, step)
    ensures AtMostOne(Next(s, step))
  {
    match step
    case BeginDispatch(h, node, hasWorker, req, clock, expires, trust) =>
      BeginKeepsOne(s, h, node, hasWorker, req, clock, expires, trust);
    case LoadTask(h, readable) =>
      LoadAnswers(s, h, readable);
      FewerKeepsOne(s, Next(s, step));
    case Submit(h, accepted) =>
      if !accepted {
        RefuseAnswers(s, h);
        FewerKeepsOne(s, Next(s, step));
      } else if h in s.dispatches && s.dispatches[h].phase.Loaded? {
        SubmitKeepsOne(s, h);
      }
    case _ =>
      OthersKeepParties(s, step);
      SameParties(s, Next(s, step));
      FewerKeepsOne(s, Next(s, step));
  }

  lemma OthersKeepParties(s: System, step: Step)
    requires !step.BeginDispatch? && !step.LoadTask? && !step.Submit?
    ensures var s' := Next(s, step);
      && s'.dispatches.Keys <= s.dispatches.Keys && s'.items == s.items
      && (forall h :: h in s'.dispatches ==> s'.dispatches[h] == s.dispatches[h])
      && s'.dispatched == s.dispatched && s.leaked <= s'.leaked
  {
  }

  lemma ClaimsGrow(s: System, step: Step, key: TaskKey)
    requires key in s.rows
    ensures key in Next(s, step).rows && s.rows[key].claimAttempt <= Next(s, step).rows[key].claimAttempt
  {
    if step.External? && step.key in s.rows { RewriteKeepsClaim(s.rows[step.key], step.write); }
  }

  lemma ItemsComeFromSubmit(s: System, step: Step)
    requires !step.Submit?
    ensures Next(s, step).items == s.items
  {
  }

  lemma SubmitCountsItems(s: System, h: nat, accepted: bool)
    requires CallsSound(s) && ItemsCounted(s)
    ensures ItemsCounted(DoSubmit(s, h, accepted))
  {
    if h in s.dispatches { assert CallSound(s, s.dispatches[h]); }
  }

  lemma StepCountsItems(s: System, step: Step)
    requires CallsSound(s) && ItemsCounted(s)
    ensures ItemsCounted(Next(s, step))
  {
    if step.Submit? {
      SubmitCountsItems(s, step.h, step.accepted);
    } else {
      var s' := Next(s, step);
      ItemsComeFromSubmit(s, step);
      forall i | 0 <= i < |s'.items|
        ensures s'.items[i].key in s'.rows && s'.items[i].row.claimAttempt <= s'.rows[s'.items[i].key].claimAttempt
      {
        ClaimsGrow(s, step, s.items[i].key);
      }
    }
  }

  lemma FirstHasNone(s: System)
    requires Init(s)
    ensures AtMostOne(s) && ItemsCounted(s)
  {
  }

  lemma StepKeepsBoth(s: System, step: Step, s': System)
    requires Inv(s) && AtMostOne(s) && ItemsCounted(s) && !LoadsForeignClaim(s, step) && s' == Next(s, step)
    ensures AtMostOne(s') && ItemsCounted(s')
  {
    StepKeepsOne(s, step);
    StepCountsItems(s, step);
  }

  lemma {:induction false} RunKeepsOne(ss: seq<System>, steps: seq<Step>, i: nat)
    requires IsRun(ss, steps) && i < |ss|
    requires forall j :: 0 <= j < |steps| ==> !LoadsForeignClaim(ss[j], steps[j])
    ensures AtMostOne(ss[i]) && ItemsCounted(ss[i])
  {
    if i == 0 {
      FirstHasNone(ss[0]);
    } else {
      RunKeepsOne(ss, steps, i - 1);
      RunKeepsInv(ss, steps, i - 1);
      assert ss[i - 1 + 1] == Next(ss[i - 1], steps[i - 1]);
      StepKeepsBoth(ss[i - 1], steps[i - 1], ss[i]);
    }
  }

  lemma SomebodyAnswers(s: System, key: TaskKey) returns (p: Party)
    requires NoOrphans(s) && LiveDispatchClaim(s, key)
    ensures AnswersFor(s, p, key, s.rows[key].claimAttempt)
    ensures p.Handler? ==> s.dispatches[p.h].claim == s.rows[key].claimAttempt
  {
    assert Responsible(s, key);
    if i: nat :| IsItemFor(s, i, key) {
      p := Item(i);
      assert ItemHasKey(s, i, key);
    } else {
      var h :| h in s.dispatches && s.dispatches[h].req.key == key && s.dispatches[h].claim == s.rows[key].claimAttempt;
      assert HandlesKey(s, h, key);
      p := Handler(h);
    }
  }

  lemma OneAnswers(s: System)
    requires NoOrphans(s) && AtMostOne(s)
    ensures EveryClaimHasOne(s)
  {
    forall key | LiveDispatchClaim(s, key) ensures ExactlyOneAnswers(s, key, s.rows[key].claimAttempt) {
      var p := SomebodyAnswers(s, key);
    }
  }

  // ----- with such a load -----

  /** The claim it finds already has somebody, so now it has two. */
  lemma ForeignLoadDoubles(s: System, step: Step)
    requires Inv(s) && LoadsForeignClaim(s, step)
    ensures !EveryClaimHasOne(Next(s, step))
  {
    var s', c := Next(s, step), s.dispatches[step.h];
    var key := c.req.key;
    var p := SomebodyAnswers(s, key);
    assert p != Handler(step.h);
    assert s'.rows == s.rows && LiveDispatchClaim(s', key);
    if p.Handler? { assert HandlesKey(s', p.h, key); } else { assert ItemHasKey(s', p.i, key); }
    assert AnswersFor(s', p, key, s'.rows[key].claimAttempt);
    assert HandlesKey(s', step.h, key) && AnswersFor(s', Handler(step.h), key, s'.rows[key].claimAttempt);
  }

  /** Each running dispatch claim has exactly one handler or item throughout the run exactly
      when no load of the run finds another live dispatch claim than the handler's own. */
  lemma OneAnswersExactlyWhen(ss: seq<System>, steps: seq<Step>)
    requires IsRun(ss, steps)
    ensures (forall i :: 0 <= i < |ss| ==> EveryClaimHasOne(ss[i])) <==>
      (forall j :: 0 <= j < |steps| ==> !LoadsForeignClaim(ss[j], steps[j]))
  {
    if j :| 0 <= j < |steps| && LoadsForeignClaim(ss[j], steps[j]) {
      RunKeepsInv(ss, steps, j);
      ForeignLoadDoubles(ss[j], steps[j]);
      assert ss[j + 1] == Next(ss[j], steps[j]);
    } else {
      forall i | 0 <= i < |ss| ensures EveryClaimHasOne(ss[i]) {
        RunKeepsOne(ss, steps, i);
        RunKeepsInv(ss, steps, i);
        OneAnswers(ss[i]);
      }
    }
  }
}
