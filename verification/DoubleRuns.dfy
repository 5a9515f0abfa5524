/** How a key comes to have two runs: each of the four ways, with the slots it needs; a history
    that leads there; and how many runs one evaluation can queue. */
module DoubleRuns {
  import opened Options
  import opened RunAdmission
  import opened Derivations
  import opened OneRunPerKey
  import opened RunSlots

  // ----- a second run beside the first -----

  predicate Queues(policies: Policies, job: nat) {
    job in policies && policies[job].strategy.Queue?
  }

  /** The job has that many free slots. */
  predicate SlotsFree(s: State, job: nat, n: nat) {
    job in s.policies && |Taken(s.runs, job)| + n <= s.policies[job].maxRuns
  }

  /** Of the runs, one holds the key. */
  ghost predicate OnlyUp(runs: Runs, id: nat, k: Key) {
    forall a :: IsUp(runs, a, k) <==> a == id
  }

  function Started(job: nat, origin: Origin): RunRow {
    RunRow(job, origin, Active, Ordinary)
  }

  /** A run for a free key is started in a free slot. */
  lemma FirstStart(s: State, origin: Origin, caller: Caller, pick: Pick, k: Key)
    requires origin.key == Some(k) && !Running(s.runs, k) && SlotsFree(s, k.job, 1) && pick.id !in s.runs
    ensures Creates(s, k.job, caller, pick)
    ensures PlacedRuns(s, k.job, origin, caller, pick) == s.runs[pick.id := Started(k.job, origin)]
    ensures var runs := PlacedRuns(s, k.job, origin, caller, pick);
      OnlyUp(runs, pick.id, k) && |Taken(runs, k.job)| == |Taken(s.runs, k.job)| + 1
  {
    TakenMore(s.runs, pick.id, Started(k.job, origin), k.job);
    assert forall a :: !IsUp(s.runs, a, k);
  }

  /** Another run for the key is started beside it exactly if there is another free slot. */
  lemma SecondStart(s: State, origin: Origin, caller: Caller, pick: Pick, k: Key, id: nat)
    requires origin.key == Some(k) && OnlyUp(s.runs, id, k) && Queues(s.policies, k.job) && pick.id !in s.runs
    ensures TwoHold(PlacedRuns(s, k.job, origin, caller, pick), k) <==> SlotsFree(s, k.job, 1)
  {
    var runs := PlacedRuns(s, k.job, origin, caller, pick);
    if SlotsFree(s, k.job, 1) {
      assert runs == s.runs[pick.id := Started(k.job, origin)];
      assert IsUp(s.runs, id, k) && IsUp(runs, id, k) && IsUp(runs, pick.id, k);
    } else {
      assert runs == s.runs;
    }
  }

  // ----- the four ways -----

  /** The queue's only row for the key is held by the dequeuer, and no run for it is running. */
  ghost predicate HeldAlone(s: State, d: nat, k: Key) {
    && At(s, d, Holding) && s.dequeuers[d].origin.key == Some(k) && s.dequeuers[d].job == k.job
    && !Running(s.runs, k) && Queues(s.policies, k.job)
    && s.dequeuers[d].qid in s.queue
    && s.queue[s.dequeuers[d].qid] == QueueRow(k.job, s.dequeuers[d].origin, Some(d))
    && (forall q :: q in s.queue && Waits(s.queue[q], k) ==> q == s.dequeuers[d].qid)
  }

  predicate FreshPicks(s: State, pick: Pick, pick': Pick) {
    pick.id !in s.runs && pick'.id !in s.runs && pick.id != pick'.id
  }

  /** A dequeuer starts its run and deletes its row. */
  lemma StartAndDelete(limits: Limits, s: State, d: nat, pick: Pick, k: Key)
    requires HeldAlone(s, d, k) && SlotsFree(s, k.job, 1) && pick.id !in s.runs
    ensures var s' := Next(limits, Next(limits, s, StartQueued(d, pick)), DeleteQueued(d));
      && s'.phase == s.phase && s'.policies == s.policies && !Waiting(s'.queue, k)
      && s'.runs == PlacedRuns(s, k.job, s.dequeuers[d].origin, Dequeuing, pick)
  {
    FirstStart(s, s.dequeuers[d].origin, Dequeuing, pick, k);
    var s1 := Next(limits, s, StartQueued(d, pick));
    assert At(s1, d, Stage.Started) && s1.queue == s.queue;
  }

  /** A dequeuer that starts its run and deletes its row between the two reads is seen by
      neither, and the evaluator asks for a second run. It gets one exactly if the job had two
      free slots. */
  lemma StartBetweenTheReads(limits: Limits, s: State, d: nat, k: Key, pick: Pick, pick': Pick)
    requires s.phase.Evaluating? && MayCheck(limits, s.phase.e) && HeldAlone(s, d, k)
    requires FreshPicks(s, pick, pick') && SlotsFree(s, k.job, 1)
    ensures var s1 := Next(limits, Next(limits, Next(limits, s, ReadRuns(k)), StartQueued(d, pick)), DeleteQueued(d));
            var s2 := Next(limits, s1, ReadQueue);
            && s2.phase == Checked(s.phase.e, k) && Busy(s2, k)
            && (TwoHold(Next(limits, s2, Admit(pick')).runs, k) <==> SlotsFree(s, k.job, 2))
  {
    var looked := Next(limits, s, ReadRuns(k));
    assert looked == s.(phase := Looked(s.phase.e, k)) && HeldAlone(looked, d, k);
    StartAndDelete(limits, looked, d, pick, k);
    FirstStart(looked, s.dequeuers[d].origin, Dequeuing, pick, k);
    var s1 := Next(limits, Next(limits, looked, StartQueued(d, pick)), DeleteQueued(d));
    SecondReadAndRequest(limits, s1, pick.id, pick', k);
  }

  lemma SecondReadAndRequest(limits: Limits, s: State, id: nat, pick: Pick, k: Key)
    requires s.phase.Looked? && s.phase.key == k && !Waiting(s.queue, k) && OnlyUp(s.runs, id, k)
    requires Queues(s.policies, k.job) && pick.id !in s.runs
    ensures var s' := Next(limits, s, ReadQueue);
      && s'.phase == Checked(s.phase.e, k) && Busy(s', k)
      && (TwoHold(Next(limits, s', Admit(pick)).runs, k) <==> SlotsFree(s, k.job, 1))
  {
    var s' := Next(limits, s, ReadQueue);
    assert s' == s.(phase := Checked(s.phase.e, k)) && IsUp(s'.runs, id, k);
    SecondStart(s', OriginFor(s.phase.e, k), Caller.Evaluator, pick, k, id);
  }

  /** Another dequeuer claims a free row and starts a run. */
  lemma ClaimAndStart(limits: Limits, s: State, q: nat, d: nat, pick: Pick, k: Key)
    requires MayClaim(s, d, q) && s.queue[q].origin.key == Some(k) && s.queue[q].job == k.job
    ensures var s' := Next(limits, Next(limits, s, Claim(d, q)), StartQueued(d, pick));
      && s'.policies == s.policies && s'.runs == PlacedRuns(s, k.job, s.queue[q].origin, Dequeuing, pick)
      && forall c :: c in s.dequeuers ==> c in s'.dequeuers && s'.dequeuers[c] == s.dequeuers[c]
  {
    var s1 := Next(limits, s, Claim(d, q));
    assert At(s1, d, Holding) && s1.runs == s.runs && s1.policies == s.policies;
  }

  /** A slow dequeuer whose row was reclaimed starts its run beside that of the new claimant,
      exactly if the job had two free slots. */
  lemma SlowDequeuerDoubles(limits: Limits, s: State, d: nat, d': nat, k: Key, pick: Pick, pick': Pick)
    requires HeldAlone(s, d, k) && d' !in s.dequeuers && FreshPicks(s, pick, pick') && SlotsFree(s, k.job, 1)
    ensures var q := s.dequeuers[d].qid;
            var s1 := Next(limits, Next(limits, s, Reclaim(q)), Claim(d', q));
            var s2 := Next(limits, s1, StartQueued(d', pick));
            TwoHold(Next(limits, s2, StartQueued(d, pick')).runs, k) <==> SlotsFree(s, k.job, 2)
  {
    var q, origin := s.dequeuers[d].qid, s.dequeuers[d].origin;
    var freed := Next(limits, s, Reclaim(q));
    assert MayClaim(freed, d', q) && freed.runs == s.runs && freed.policies == s.policies;
    ClaimAndStart(limits, freed, q, d', pick, k);
    FirstStart(freed, origin, Dequeuing, pick, k);
    var s2 := Next(limits, Next(limits, freed, Claim(d', q)), StartQueued(d', pick));
    SecondStart(s2, origin, Dequeuing, pick', k, pick.id);
  }

  lemma DiesAfterStart(limits: Limits, s: State, d: nat, pick: Pick, k: Key)
    requires HeldAlone(s, d, k) && SlotsFree(s, k.job, 1) && pick.id !in s.runs
    ensures var q := s.dequeuers[d].qid;
            var s' := Next(limits, Next(limits, Next(limits, s, StartQueued(d, pick)), Die(d)), Reclaim(q));
      && s'.policies == s.policies && s'.runs == PlacedRuns(s, k.job, s.dequeuers[d].origin, Dequeuing, pick)
      && q in s'.queue && s'.queue[q] == QueueRow(k.job, s.dequeuers[d].origin, None)
      && s'.dequeuers.Keys == s.dequeuers.Keys
  {
    FirstStart(s, s.dequeuers[d].origin, Dequeuing, pick, k);
  }

  /** A dequeuer that dies before it deletes its row leaves it to be started again, which
      succeeds exactly if the job had two free slots. */
  lemma DeadDequeuerDoubles(limits: Limits, s: State, d: nat, d': nat, k: Key, pick: Pick, pick': Pick)
    requires HeldAlone(s, d, k) && d' !in s.dequeuers && FreshPicks(s, pick, pick') && SlotsFree(s, k.job, 1)
    ensures var q := s.dequeuers[d].qid;
            var s1 := Next(limits, Next(limits, Next(limits, s, StartQueued(d, pick)), Die(d)), Reclaim(q));
            TwoHold(Next(limits, Next(limits, s1, Claim(d', q)), StartQueued(d', pick')).runs, k) <==>
              SlotsFree(s, k.job, 2)
  {
    var q, origin := s.dequeuers[d].qid, s.dequeuers[d].origin;
    DiesAfterStart(limits, s, d, pick, k);
    FirstStart(s, origin, Dequeuing, pick, k);
    var s1 := Next(limits, Next(limits, Next(limits, s, StartQueued(d, pick)), Die(d)), Reclaim(q));
    ClaimAndStart(limits, s1, q, d', pick', k);
    SecondStart(s1, origin, Dequeuing, pick', k, pick.id);
  }

  /** A person's retry of an ended run doubles whatever the slots; an admitted one if one is
      free. */
  lemma RetryDoubles(limits: Limits, s: State, id: nat, id': nat, k: Key)
    requires OnlyUp(s.runs, id, k) && Retriable(s.runs, id', k)
    ensures TwoHold(Next(limits, s, Retry(id')).runs, k)
    ensures TwoHold(Next(limits, s, RetryAdmitted(id')).runs, k) <==> HasSlot(s.policies, s.runs, s.runs[id'].job)
  {
    var runs := NextRuns(s, Retry(id'));
    assert IsUp(s.runs, id, k) && id != id' && IsUp(runs, id, k) && IsUp(runs, id', k);
    if HasSlot(s.policies, s.runs, s.runs[id'].job) {
      assert NextRuns(s, RetryAdmitted(id')) == runs;
    } else {
      assert NextRuns(s, RetryAdmitted(id')) == s.runs;
    }
  }

  // ----- a history that leads to the race -----

  function Filler(job: nat, status: RunStatus): RunRow {
    RunRow(job, Origin(None, 0, None), status, Ordinary)
  }

  /** Runs from elsewhere fill the job. */
  function Fill(job: nat, n: nat): seq<Step> {
    if n == 0 then [] else Fill(job, n - 1) + [StartOther(job, 0, Pick(n - 1, 0, 0, {}))]
  }

  function Fillers(job: nat, n: nat): Runs {
    if n == 0 then map[] else Fillers(job, n - 1)[n - 1 := Filler(job, Active)]
  }

  lemma {:induction false} FillersTaken(job: nat, n: nat)
    ensures forall id: nat :: id in Fillers(job, n) <==> id < n
    ensures forall id :: id in Fillers(job, n) ==> Fillers(job, n)[id] == Filler(job, Active)
    ensures |Taken(Fillers(job, n), job)| == n
  {
    if n > 0 {
      FillersTaken(job, n - 1);
      TakenMore(Fillers(job, n - 1), n - 1, Filler(job, Active), job);
    } else {
      assert Taken(Fillers(job, n), job) == {};
    }
  }

  lemma FillsSlot(limits: Limits, s: State, job: nat, id: nat)
    requires SlotsFree(s, job, 1) && id !in s.runs
    ensures Next(limits, s, StartOther(job, 0, Pick(id, 0, 0, {}))) == s.(runs := s.runs[id := Filler(job, Active)])
  {
    assert Judge(s.policies, s.runs, job, Other).Insert?;
  }

  lemma {:induction false} FillFills(limits: Limits, job: nat, n: nat)
    requires job in limits.policies && n <= limits.policies[job].maxRuns
    ensures After(limits, Fill(job, n)) == Init(limits).(runs := Fillers(job, n))
  {
    if n > 0 {
      var s, s' := Init(limits).(runs := Fillers(job, n - 1)), Init(limits).(runs := Fillers(job, n));
      FillFills(limits, job, n - 1);
      FillersTaken(job, n - 1);
      FillsSlot(limits, s, job, n - 1);
      OneMore(limits, Fill(job, n - 1), StartOther(job, 0, Pick(n - 1, 0, 0, {})), Fill(job, n), s, s');
    }
  }

  lemma OneMore(limits: Limits, steps: seq<Step>, step: Step, more: seq<Step>, s: State, s': State)
    requires After(limits, steps) == s && Next(limits, s, step) == s' && more == steps + [step]
    ensures After(limits, more) == s'
  {
    RunOneMore(limits, Init(limits), steps, step);
  }

  function QueuedFor(k: Key, claim: Option<nat>): QueueRow {
    QueueRow(k.job, Origin(Some(k), 1, None), claim)
  }

  /** A run asked for while the job is full is queued. */
  lemma FullJobQueues(limits: Limits, s: State, k: Key, qid: nat)
    requires s.phase == Checked(Evaluation(0, None, limits.maxDerivations, 0), k) && Queues(s.policies, k.job)
    requires |Taken(s.runs, k.job)| >= s.policies[k.job].maxRuns
    requires qid !in s.queue && |Unclaimed(s.queue, k.job)| < limits.maxQueue
    ensures Next(limits, s, Admit(Pick(0, qid, 0, {})))
         == s.(queue := s.queue[qid := QueuedFor(k, None)], phase := Evaluating(s.phase.e))
  {
    var pick := Pick(0, qid, 0, {});
    assert Judge(s.policies, s.runs, k.job, Caller.Evaluator).Enqueue?;
    assert s.queue[qid := QueuedFor(k, None)] - pick.dropped == s.queue[qid := QueuedFor(k, None)];
  }

  /** Two of the other runs end, and the row is claimed before the next tick. */
  function ThenClaimed(): seq<Step> {
    [End, Finish(0), Finish(1)] + [Claim(0, 0)] + [Tick]
  }

  function RaceSteps(limits: Limits, k: Key): seq<Step>
    requires k.job in limits.policies
  {
    Fill(k.job, limits.policies[k.job].maxRuns) + Derivation(k) + [Admit(Pick(0, 0, 0, {}))] + ThenClaimed()
  }

  lemma FillerEnds(limits: Limits, s: State, id: nat, job: nat)
    requires id in s.runs && s.runs[id] == Filler(job, Active)
    ensures Next(limits, s, Finish(id)) == s.(runs := s.runs[id := Filler(job, Ended)])
    ensures |Taken(s.runs[id := Filler(job, Ended)], job)| == |Taken(s.runs, job)| - 1
  {
    TakenLess(s.runs, id, Filler(job, Ended), job);
  }

  ghost predicate ReadyForTheRace(limits: Limits, s: State, k: Key) {
    && HeldAlone(s, 0, k) && s.phase.Evaluating? && MayCheck(limits, s.phase.e)
    && SlotsFree(s, k.job, 2)
  }

  lemma TwoEnd(limits: Limits, s: State, k: Key, n: nat)
    requires k.job in s.policies && n == s.policies[k.job].maxRuns >= 2 && s.runs == Fillers(k.job, n)
    ensures var s' := Run(limits, s, [End, Finish(0), Finish(1)]);
      s' == s.(runs := s'.runs, phase := Idle) && !Running(s'.runs, k) && SlotsFree(s', k.job, 2)
  {
    RunThree(limits, s, End, Finish(0), Finish(1));
    FillersTaken(k.job, n);
    var s1 := s.(phase := Idle);
    FillerEnds(limits, s1, 0, k.job);
    FillerEnds(limits, s1.(runs := s1.runs[0 := Filler(k.job, Ended)]), 1, k.job);
  }

  lemma ClaimedBeforeNextTick(limits: Limits, s: State, k: Key)
    requires Queues(s.policies, k.job) && s.phase.Idle? && s.dequeuers == map[]
    requires s.queue == map[0 := QueuedFor(k, None)] && !Running(s.runs, k) && SlotsFree(s, k.job, 2)
    ensures ReadyForTheRace(limits, Next(limits, Next(limits, s, Claim(0, 0)), Tick), k)
  {
    var s1 := Next(limits, s, Claim(0, 0));
    assert s1.dequeuers == map[0 := Dequeuer(0, k.job, Origin(Some(k), 1, None), Holding)];
    assert s1.queue == map[0 := QueuedFor(k, Some(0))] && s1.runs == s.runs && s1.policies == s.policies;
    assert HeldAlone(s1, 0, k);
  }

  lemma QueuedThenClaimed(limits: Limits, s: State, k: Key, n: nat)
    requires Queues(s.policies, k.job) && n == s.policies[k.job].maxRuns >= 2
    requires s.runs == Fillers(k.job, n) && s.dequeuers == map[] && s.queue == map[0 := QueuedFor(k, None)]
    ensures ReadyForTheRace(limits, Run(limits, s, ThenClaimed()), k)
  {
    var ends := [End, Finish(0), Finish(1)];
    TwoEnd(limits, s, k, n);
    ClaimedBeforeNextTick(limits, Run(limits, s, ends), k);
    RunOneMore(limits, s, ends, Claim(0, 0));
    RunOneMore(limits, s, ends + [Claim(0, 0)], Tick);
  }

  /** A state as `StartBetweenTheReads` needs it is reached from the beginning, for every job
      that queues and allows two runs: others fill the job, a run is queued, two of the others
      end, a dequeuer claims the row, and the next tick begins. */
  lemma RaceIsReachable(limits: Limits, k: Key)
    requires Queues(limits.policies, k.job) && limits.policies[k.job].maxRuns >= 2
    ensures ReadyForTheRace(limits, After(limits, RaceSteps(limits, k)), k)
  {
    var n := limits.policies[k.job].maxRuns;
    var fill := Fill(k.job, n);
    var s := Init(limits).(runs := Fillers(k.job, n));
    FillFills(limits, k.job, n);
    FillersTaken(k.job, n);
    assert !Busy(s, k);
    Looks(limits, s, k);
    RunJoin(limits, Init(limits), fill, Derivation(k));
    var looked := s.(phase := Checked(Evaluation(0, None, limits.maxDerivations, 0), k));
    FullJobQueues(limits, looked, k, 0);
    RunOneMore(limits, Init(limits), fill + Derivation(k), Admit(Pick(0, 0, 0, {})));
    var queued := Next(limits, looked, Admit(Pick(0, 0, 0, {})));
    QueuedThenClaimed(limits, queued, k, n);
    RunJoin(limits, Init(limits), fill + Derivation(k) + [Admit(Pick(0, 0, 0, {}))], ThenClaimed());
  }

  // ----- queued runs cost no budget -----

  /** The steps that queue a run for the key. */
  function QueueOne(k: Key, qid: nat): seq<Step> {
    [ReadRuns(k), ReadQueue, Admit(Pick(0, qid, 0, {}))]
  }

  /** One row after the other, under the given number and those that follow. */
  function QueueAll(ks: seq<Key>, qid: nat): seq<Step> {
    if ks == [] then [] else QueueAll(ks[..|ks| - 1], qid) + QueueOne(ks[|ks| - 1], qid + |ks| - 1)
  }

  /** The keys are of different jobs; those are full and queue, nothing is under way for the
      keys, and there is room in the queue. */
  ghost predicate AllMustWait(limits: Limits, s: State, ks: seq<Key>, qid: nat) {
    && (forall i, j :: 0 <= i < j < |ks| ==> ks[i].job != ks[j].job)
    && (forall i :: 0 <= i < |ks| ==>
          && Queues(s.policies, ks[i].job) && |Taken(s.runs, ks[i].job)| >= s.policies[ks[i].job].maxRuns
          && |Unclaimed(s.queue, ks[i].job)| < limits.maxQueue && !Busy(s, ks[i]))
    && (forall q :: q in s.queue ==> q < qid)
  }

  /** The queue with rows added for the keys. */
  function WithRows(queue: RunQueue, ks: seq<Key>, qid: nat): RunQueue {
    if ks == [] then queue
    else WithRows(queue, ks[..|ks| - 1], qid)[qid + |ks| - 1 := QueuedFor(ks[|ks| - 1], None)]
  }

  lemma {:induction false} RowsAdded(queue: RunQueue, ks: seq<Key>, qid: nat, q: nat)
    requires forall p :: p in queue ==> p < qid
    ensures var queue' := WithRows(queue, ks, qid);
      && (q in queue' <==> q in queue || qid <= q < qid + |ks|)
      && (q in queue' ==> queue'[q] == if q < qid then queue[q] else QueuedFor(ks[q - qid], None))
  {
    if ks != [] { RowsAdded(queue, ks[..|ks| - 1], qid, q); }
  }

  lemma QueueOneMore(limits: Limits, s: State, k: Key, qid: nat)
    requires s.phase == Evaluating(Evaluation(0, None, limits.maxDerivations, 0))
    requires AllMustWait(limits, s, [k], qid)
    ensures Run(limits, s, QueueOne(k, qid)) == s.(queue := s.queue[qid := QueuedFor(k, None)])
  {
    var e := Evaluation(0, None, limits.maxDerivations, 0);
    RunThree(limits, s, ReadRuns(k), ReadQueue, Admit(Pick(0, qid, 0, {})));
    assert [k][0] == k && !Busy(s, k);
    assert Next(limits, s, ReadRuns(k)) == s.(phase := Looked(e, k));
    assert Next(limits, s.(phase := Looked(e, k)), ReadQueue) == s.(phase := Checked(e, k));
    FullJobQueues(limits, s.(phase := Checked(e, k)), k, qid);
  }

  /** The last key must still wait when rows for the others have been added. */
  lemma LastMustWait(limits: Limits, s: State, ks: seq<Key>, qid: nat, s': State)
    requires ks != [] && AllMustWait(limits, s, ks, qid)
    requires s' == s.(queue := WithRows(s.queue, ks[..|ks| - 1], qid))
    ensures AllMustWait(limits, s', [ks[|ks| - 1]], qid + |ks| - 1)
  {
    var front, k := ks[..|ks| - 1], ks[|ks| - 1];
    assert !Busy(s, k);
    forall q: nat ensures q in s'.queue <==> q in s.queue || qid <= q < qid + |front|
      ensures q in s'.queue && q < qid ==> s'.queue[q] == s.queue[q]
      ensures q in s'.queue && q >= qid ==> s'.queue[q].job != k.job && !Waits(s'.queue[q], k)
    {
      RowsAdded(s.queue, front, qid, q);
      if qid <= q < qid + |front| { assert front[q - qid] == ks[q - qid]; }
    }
    assert Unclaimed(s'.queue, k.job) == Unclaimed(s.queue, k.job);
  }

  lemma LastIsQueued(limits: Limits, s: State, ks: seq<Key>, qid: nat, s': State)
    requires s.phase == Evaluating(Evaluation(0, None, limits.maxDerivations, 0)) && ks != []
    requires AllMustWait(limits, s, ks, qid)
    requires s' == s.(queue := WithRows(s.queue, ks[..|ks| - 1], qid))
    ensures Run(limits, s', QueueOne(ks[|ks| - 1], qid + |ks| - 1)) == s.(queue := WithRows(s.queue, ks, qid))
  {
    LastMustWait(limits, s, ks, qid, s');
    QueueOneMore(limits, s', ks[|ks| - 1], qid + |ks| - 1);
  }

  lemma RunOn(limits: Limits, s: State, a: seq<Step>, b: seq<Step>, all: seq<Step>, s1: State, s2: State)
    requires Run(limits, s, a) == s1 && Run(limits, s1, b) == s2 && all == a + b
    ensures Run(limits, s, all) == s2
  {
    RunJoin(limits, s, a, b);
  }

  lemma {:induction false} AllAreQueued(limits: Limits, s: State, ks: seq<Key>, qid: nat)
    requires s.phase == Evaluating(Evaluation(0, None, limits.maxDerivations, 0))
    requires AllMustWait(limits, s, ks, qid)
    ensures Run(limits, s, QueueAll(ks, qid)) == s.(queue := WithRows(s.queue, ks, qid))
  {
    if ks != [] {
      var front, last := ks[..|ks| - 1], QueueOne(ks[|ks| - 1], qid + |ks| - 1);
      var s1, s2 := s.(queue := WithRows(s.queue, front, qid)), s.(queue := WithRows(s.queue, ks, qid));
      FrontMustWait(limits, s, ks, qid);
      AllAreQueued(limits, s, front, qid);
      LastIsQueued(limits, s, ks, qid, s1);
      RunOn(limits, s, QueueAll(front, qid), last, QueueAll(ks, qid), s1, s2);
    }
  }

  lemma FrontMustWait(limits: Limits, s: State, ks: seq<Key>, qid: nat)
    requires ks != [] && AllMustWait(limits, s, ks, qid)
    ensures AllMustWait(limits, s, ks[..|ks| - 1], qid)
  {
    var front := ks[..|ks| - 1];
    assert forall i :: 0 <= i < |front| ==> front[i] == ks[i];
  }

  /** Queued runs cost no budget: from every state in which the jobs of the keys are full, one
      evaluation queues a run for each of them, however many, and its budget stays whole. */
  lemma QueuedRunsAreUnbounded(limits: Limits, s: State, ks: seq<Key>, qid: nat)
    requires s.phase == Evaluating(Evaluation(0, None, limits.maxDerivations, 0))
    requires AllMustWait(limits, s, ks, qid)
    ensures var s' := Run(limits, s, QueueAll(ks, qid));
      && s'.phase == s.phase && s'.runs == s.runs
      && forall k :: k in ks ==> Waiting(s'.queue, k)
  {
    AllAreQueued(limits, s, ks, qid);
    AllWait(s.queue, ks, qid);
  }

  lemma AllWait(queue: RunQueue, ks: seq<Key>, qid: nat)
    requires forall q :: q in queue ==> q < qid
    ensures forall k :: k in ks ==> Waiting(WithRows(queue, ks, qid), k)
  {
    forall k | k in ks ensures Waiting(WithRows(queue, ks, qid), k) {
      var i :| 0 <= i < |ks| && ks[i] == k;
      RowsAdded(queue, ks, qid, qid + i);
      assert Waits(WithRows(queue, ks, qid)[qid + i], k);
    }
  }

  // ----- such states are reached -----

  /** One run for each of the first jobs. */
  function OneEach(n: nat): Runs {
    if n == 0 then map[] else OneEach(n - 1)[n - 1 := Filler(n - 1, Active)]
  }

  function StartOneEach(n: nat): seq<Step> {
    if n == 0 then [] else StartOneEach(n - 1) + [StartOther(n - 1, 0, Pick(n - 1, 0, 0, {}))]
  }

  function KeysOf(n: nat): seq<Key> {
    if n == 0 then [] else KeysOf(n - 1) + [Key(n - 1, "", "")]
  }

  lemma {:induction false} KeyAt(n: nat, i: nat)
    requires i < n
    ensures |KeysOf(n)| == n && KeysOf(n)[i] == Key(i, "", "")
  {
    if i < n - 1 { KeyAt(n - 1, i); } else if n > 1 { KeyAt(n - 1, 0); }
  }

  lemma {:induction false} OneTaken(n: nat, job: nat)
    ensures forall id: nat :: id in OneEach(n) <==> id < n
    ensures forall id :: id in OneEach(n) ==> OneEach(n)[id] == Filler(id, Active)
    ensures |Taken(OneEach(n), job)| == if job < n then 1 else 0
  {
    if n > 0 {
      OneTaken(n - 1, job);
      TakenMore(OneEach(n - 1), n - 1, Filler(n - 1, Active), job);
    } else {
      assert Taken(OneEach(n), job) == {};
    }
  }

  /** The first jobs run one run at a time and queue the others. */
  ghost predicate OneAtATime(policies: Policies, n: nat) {
    forall i: nat :: i < n ==> i in policies && policies[i] == Policy(1, Queue)
  }

  lemma NextOfEach(limits: Limits, s: State, n: nat)
    requires OneAtATime(s.policies, n + 1) && s.runs == OneEach(n)
    ensures Next(limits, s, StartOther(n, 0, Pick(n, 0, 0, {}))) == s.(runs := OneEach(n + 1))
  {
    OneTaken(n, n);
    assert s.policies[n] == Policy(1, Queue);
    FillsSlot(limits, s, n, n);
  }

  lemma {:induction false} OneEachStarted(limits: Limits, n: nat)
    requires OneAtATime(limits.policies, n)
    ensures After(limits, StartOneEach(n)) == Init(limits).(runs := OneEach(n))
  {
    if n > 0 {
      var s, s' := Init(limits).(runs := OneEach(n - 1)), Init(limits).(runs := OneEach(n));
      OneEachStarted(limits, n - 1);
      NextOfEach(limits, s, n - 1);
      OneMore(limits, StartOneEach(n - 1), StartOther(n - 1, 0, Pick(n - 1, 0, 0, {})), StartOneEach(n), s, s');
    }
  }

  lemma OneEachMustWait(limits: Limits, s: State, n: nat)
    requires OneAtATime(s.policies, n) && s.runs == OneEach(n) && s.queue == map[]
    ensures |KeysOf(n)| == n && AllMustWait(limits, s, KeysOf(n), 0)
  {
    forall i | 0 <= i < n
      ensures |KeysOf(n)| == n && KeysOf(n)[i] == Key(i, "", "") && |Taken(s.runs, i)| == 1 && !Busy(s, KeysOf(n)[i])
    {
      KeyAt(n, i);
      OneTaken(n, i);
    }
    assert forall job: nat :: Unclaimed(s.queue, job) == {};
  }

  /** A state from which one evaluation queues n runs is reached, for every n. */
  lemma FullJobsAreReachable(limits: Limits, n: nat)
    requires OneAtATime(limits.policies, n)
    ensures var s := After(limits, StartOneEach(n) + [Tick]);
      && s.phase == Evaluating(Evaluation(0, None, limits.maxDerivations, 0))
      && |KeysOf(n)| == n && AllMustWait(limits, s, KeysOf(n), 0)
  {
    var s := Init(limits).(runs := OneEach(n));
    var s' := s.(phase := Evaluating(Evaluation(0, None, limits.maxDerivations, 0)));
    OneEachStarted(limits, n);
    assert Next(limits, s, Tick) == s';
    OneMore(limits, StartOneEach(n), Tick, StartOneEach(n) + [Tick], s, s');
    OneEachMustWait(limits, s', n);
  }
}
