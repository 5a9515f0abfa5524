/** The evaluator's own code: the loop over produced datasets, their standing, the look for a
    run under way and the derivation, tied to the steps of the system. */
module EvaluatorLoop {
  import opened Options
  import opened Strings
  import opened Downstream
  import opened RunAdmission
  import opened Derivations
  import opened Watermark
  import opened Freshness

  datatype What = Derived | SkippedFresh | SkippedUpstream | SkippedAdmission | SkippedActiveRun

  datatype Decision = Decision(dataset: string, what: What)

  /** A dataset that a job declares to produce. */
  datatype Produced = Produced(decl: Declaration, freshness: string, maxStaleness: string, createdAt: int,
                               updatedAt: int)

  /** What the store answers when the dataset's turn comes. `triggered`: its job is triggered by
      freshness. */
  datatype Reading = Reading(now: int, state: DatasetRow, inputs: seq<Input>, triggered: bool)

  /** The code outside the model. */
  datatype Tools = Tools(parse: Parser, duration: string -> Option<int>, canonical: map<string, string> -> string)

  predicate Targeted(p: Produced, targets: set<Dataset>) {
    (targets == {} || IdentityOf(p.decl) in targets) && Trim(p.freshness) != ""
  }

  function PositiveDuration(tools: Tools, text: string): Option<int> {
    var d := tools.duration(Trim(text));
    if d.Some? && d.value > 0 then d else None
  }

  /** No limit counts as zero. */
  function OptionalDuration(tools: Tools, text: string): Option<int> {
    if Trim(text) == "" then Some(0) else PositiveDuration(tools, text)
  }

  predicate Readable(tools: Tools, p: Produced) {
    PositiveDuration(tools, p.freshness).Some? && OptionalDuration(tools, p.maxStaleness).Some?
  }

  function NameOf(p: Produced): string {
    ParamName(p.decl.namespace.GetOr(""), p.decl.name)
  }

  /** A run is derived for the dataset and the inputs as they are now. */
  function KeyFor(tools: Tools, p: Produced, r: Reading): Key {
    Key(p.decl.job, NameOf(p), tools.canonical(Snapshot(r.inputs)))
  }

  ghost predicate InputsReady(tools: Tools, r: Reading) {
    AllMovedOn(tools.parse, r.state.row.consumed, r.inputs)
  }

  ghost function StandingOf(tools: Tools, p: Produced, r: Reading): Standing {
    StatusFor(r.state, p.createdAt, p.updatedAt, r.now, PositiveDuration(tools, p.freshness).GetOr(0),
              OptionalDuration(tools, p.maxStaleness).GetOr(0), InputsReady(tools, r))
  }

  ghost predicate AsksForRun(tools: Tools, p: Produced, r: Reading) {
    WantsRun(StandingOf(tools, p, r), InputsReady(tools, r)) && r.triggered
  }

  /** The freshness is a positive duration, and more than that has passed. */
  ghost predicate IsOverdue(tools: Tools, p: Produced, r: Reading) {
    var d := tools.duration(Trim(p.freshness));
    d.Some? && d.value > 0 && Overdue(r.state.row, p.createdAt, p.updatedAt, r.now, d.value)
  }

  /** What is decided for a dataset. */
  ghost predicate Fits(tools: Tools, p: Produced, r: Reading, d: Decision) {
    && d.dataset == NameOf(p)
    && if r.state.quarantined then d.what == SkippedAdmission
       else if !IsOverdue(tools, p, r) then d.what == SkippedFresh
       else if !AllMovedOn(tools.parse, r.state.row.consumed, r.inputs) then d.what == SkippedUpstream
       else if !r.triggered then d.what == SkippedAdmission
       else d.what in {Derived, SkippedAdmission, SkippedActiveRun}
  }

  /** A dataset asks for a run exactly if it is overdue, not quarantined, its inputs have moved
      on and its job is triggered by freshness. */
  lemma AsksExactlyWhen(tools: Tools, p: Produced, r: Reading)
    requires Readable(tools, p)
    ensures AsksForRun(tools, p, r) <==>
      && !r.state.quarantined && IsOverdue(tools, p, r) && r.triggered
      && AllMovedOn(tools.parse, r.state.row.consumed, r.inputs)
  {
    WantsRunExactlyWhen(r.state, p.createdAt, p.updatedAt, r.now, PositiveDuration(tools, p.freshness).value,
                        OptionalDuration(tools, p.maxStaleness).value, InputsReady(tools, r));
  }

  /** What the other processes do before the runs are read, before the queue is read and
      before the run is asked for. */
  datatype Meanwhile = Meanwhile(beforeLook: seq<Step>, betweenReads: seq<Step>, beforeRequest: seq<Step>) {
    predicate Valid() {
      Outside(beforeLook) && Outside(betweenReads) && Outside(beforeRequest)
    }
  }

  predicate Outside(steps: seq<Step>) {
    forall i :: 0 <= i < |steps| ==> !OfEvaluator(steps[i])
  }

  lemma {:induction false} OutsideKeepsPhase(limits: Limits, s: State, steps: seq<Step>)
    requires Outside(steps)
    ensures Run(limits, s, steps).phase == s.phase
  {
    if steps != [] {
      OutsideKeepsPhase(limits, s, steps[..|steps| - 1]);
    }
  }

  /** The state in which the run is asked for, if the two reads get that far. */
  function BeforeRequest(limits: Limits, s: State, key: Key, m: Meanwhile): State {
    var looked := Next(limits, Run(limits, s, m.beforeLook), ReadRuns(key));
    if !looked.phase.Looked? then looked
    else
      var checked := Next(limits, Run(limits, looked, m.betweenReads), ReadQueue);
      if !checked.phase.Checked? then checked else Run(limits, checked, m.beforeRequest)
  }

  /** The two reads and the request, among the steps of the others. */
  function DeriveIn(limits: Limits, s: State, key: Key, pick: Pick, m: Meanwhile): State {
    var ready := BeforeRequest(limits, s, key, m);
    if ready.phase.Checked? then Next(limits, ready, Admit(pick)) else ready
  }

  /** The transaction that asks for the run fails. */
  predicate FailsIn(limits: Limits, s: State, key: Key, pick: Pick, m: Meanwhile) {
    var ready := BeforeRequest(limits, s, key, m);
    && ready.phase.Checked?
    && !Possible(Judge(ready.policies, ready.runs, key.job, Caller.Evaluator),
                 ready.runs, ready.queue, key.job, limits.maxQueue, pick)
  }

  /** The steps of a derivation: up to the first look, the second, and the request. */
  function LookSteps(key: Key, m: Meanwhile): seq<Step> {
    m.beforeLook + [ReadRuns(key)]
  }

  function CheckSteps(key: Key, m: Meanwhile): seq<Step> {
    LookSteps(key, m) + (m.betweenReads + [ReadQueue])
  }

  lemma {:induction false} RunJoins(limits: Limits, s: State, a: seq<Step>, b: seq<Step>)
    ensures Run(limits, s, a + b) == Run(limits, Run(limits, s, a), b)
  {
    if b == [] {
      assert a + b == a;
    } else {
      var front := b[..|b| - 1];
      RunJoins(limits, s, a, front);
      assert (a + b)[..|a + b| - 1] == a + front && (a + b)[|a + b| - 1] == b[|b| - 1];
    }
  }

  lemma RunOf(limits: Limits, s: State, steps: seq<Step>, step: Step)
    ensures Run(limits, s, steps + [step]) == Next(limits, Run(limits, s, steps), step)
  {
    assert (steps + [step])[..|steps|] == steps;
  }

  lemma StatesOf(limits: Limits, s: State, key: Key, pick: Pick, m: Meanwhile)
    ensures Run(limits, s, LookSteps(key, m)) == Next(limits, Run(limits, s, m.beforeLook), ReadRuns(key))
    ensures Run(limits, s, CheckSteps(key, m))
         == Next(limits, Run(limits, Run(limits, s, LookSteps(key, m)), m.betweenReads), ReadQueue)
    ensures Run(limits, s, CheckSteps(key, m) + m.beforeRequest)
         == Run(limits, Run(limits, s, CheckSteps(key, m)), m.beforeRequest)
    ensures Run(limits, s, CheckSteps(key, m) + (m.beforeRequest + [Admit(pick)]))
         == Next(limits, Run(limits, Run(limits, s, CheckSteps(key, m)), m.beforeRequest), Admit(pick))
  {
    RunOf(limits, s, m.beforeLook, ReadRuns(key));
    RunJoins(limits, s, LookSteps(key, m), m.betweenReads + [ReadQueue]);
    RunOf(limits, Run(limits, s, LookSteps(key, m)), m.betweenReads, ReadQueue);
    RunJoins(limits, s, CheckSteps(key, m), m.beforeRequest + [Admit(pick)]);
    RunJoins(limits, s, CheckSteps(key, m), m.beforeRequest);
    RunOf(limits, Run(limits, s, CheckSteps(key, m)), m.beforeRequest, Admit(pick));
  }

  /** A derivation is a run of the system: it looks at the runs; if none is there, it looks at the
      queue; if nothing waits there, it asks for the run. The steps of the others are in between. */
  lemma DeriveIsARun(limits: Limits, s: State, key: Key, pick: Pick, m: Meanwhile)
    requires m.Valid() && s.phase.Evaluating?
    ensures DeriveIn(limits, s, key, pick, m)
         == Run(limits, s, if !Run(limits, s, LookSteps(key, m)).phase.Looked? then LookSteps(key, m)
                           else if !Run(limits, s, CheckSteps(key, m)).phase.Checked? then CheckSteps(key, m)
                           else CheckSteps(key, m) + (m.beforeRequest + [Admit(pick)]))
  {
    StatesOf(limits, s, key, pick, m);
    PhasesOf(limits, s, key, m);
  }

  /** It fails exactly if it comes to the request, and that transaction cannot go through. */
  lemma FailsExactlyWhen(limits: Limits, s: State, key: Key, pick: Pick, m: Meanwhile)
    requires m.Valid() && s.phase.Evaluating?
    ensures var asked := Run(limits, s, CheckSteps(key, m) + m.beforeRequest);
      FailsIn(limits, s, key, pick, m) <==>
        && Run(limits, s, LookSteps(key, m)).phase.Looked? && asked.phase.Checked?
        && !Possible(Judge(asked.policies, asked.runs, key.job, Caller.Evaluator), asked.runs, asked.queue, key.job,
                     limits.maxQueue, pick)
  {
    StatesOf(limits, s, key, pick, m);
    PhasesOf(limits, s, key, m);
  }

  /** The steps of others do not move the evaluator. */
  lemma PhasesOf(limits: Limits, s: State, key: Key, m: Meanwhile)
    requires m.Valid() && s.phase.Evaluating?
    ensures var looked := Next(limits, Run(limits, s, m.beforeLook), ReadRuns(key));
      var checked := Next(limits, Run(limits, looked, m.betweenReads), ReadQueue);
      && (looked.phase.Looked? || looked.phase == s.phase)
      && Run(limits, checked, m.beforeRequest).phase == checked.phase
  {
    OutsideKeepsPhase(limits, s, m.beforeLook);
    var looked := Next(limits, Run(limits, s, m.beforeLook), ReadRuns(key));
    var checked := Next(limits, Run(limits, looked, m.betweenReads), ReadQueue);
    OutsideKeepsPhase(limits, checked, m.beforeRequest);
  }

  /** What is read and drawn and what others do meanwhile, for each produced dataset. */
  datatype Chance = Chance(reading: Reading, pick: Pick, m: Meanwhile)

  ghost function EvaluateIn(limits: Limits, tools: Tools, s: State, produced: seq<Produced>, targets: set<Dataset>,
                            chances: seq<Chance>): State
    requires |chances| == |produced|
  {
    if produced == [] then s
    else
      var n := |produced| - 1;
      var before := EvaluateIn(limits, tools, s, produced[..n], targets, chances[..n]);
      ConsiderIn(limits, tools, before, produced[n], targets, chances[n])
  }

  /** A duration cannot be read, or the transaction that asks for the run fails. */
  ghost predicate ErrsIn(limits: Limits, tools: Tools, s: State, p: Produced, targets: set<Dataset>, chance: Chance) {
    && Targeted(p, targets)
    && (!Readable(tools, p)
        || (AsksForRun(tools, p, chance.reading)
            && FailsIn(limits, s, KeyFor(tools, p, chance.reading), chance.pick, chance.m)))
  }

  ghost predicate ErrsAt(limits: Limits, tools: Tools, s: State, produced: seq<Produced>, targets: set<Dataset>,
                         chances: seq<Chance>, i: nat)
    requires |chances| == |produced| && i < |produced|
  {
    ErrsIn(limits, tools, EvaluateIn(limits, tools, s, produced[..i], targets, chances[..i]), produced[i], targets,
           chances[i])
  }

  /** What one produced dataset makes of the tables. */
  ghost function ConsiderIn(limits: Limits, tools: Tools, s: State, p: Produced, targets: set<Dataset>,
                            chance: Chance): State {
    if Targeted(p, targets) && Readable(tools, p) && AsksForRun(tools, p, chance.reading)
    then DeriveIn(limits, s, KeyFor(tools, p, chance.reading), chance.pick, chance.m) else s
  }

  /** Durations can be read exactly if the freshness is a positive one, and the limit too if there
      is one. */
  lemma ReadableExactlyWhen(tools: Tools, p: Produced)
    ensures Readable(tools, p) <==>
      && tools.duration(Trim(p.freshness)).Some? && tools.duration(Trim(p.freshness)).value > 0
      && (|Trim(p.maxStaleness)| > 0 ==>
            tools.duration(Trim(p.maxStaleness)).Some? && tools.duration(Trim(p.maxStaleness)).value > 0)
  {
  }

  /** A dataset ends the evaluation exactly if it has its turn and a duration cannot be read, or it
      is due and its derivation fails; it changes the tables exactly by its derivation. */
  lemma TurnExactlyWhen(limits: Limits, tools: Tools, s: State, p: Produced, targets: set<Dataset>, chance: Chance)
    ensures var turn := Trim(p.freshness) != "" && (targets == {} || IdentityOf(p.decl) in targets);
      var due := && !chance.reading.state.quarantined && IsOverdue(tools, p, chance.reading) && chance.reading.triggered
                 && AllMovedOn(tools.parse, chance.reading.state.row.consumed, chance.reading.inputs);
      var key := KeyFor(tools, p, chance.reading);
      && (ErrsIn(limits, tools, s, p, targets, chance) <==>
            turn && (!Readable(tools, p) || (due && FailsIn(limits, s, key, chance.pick, chance.m))))
      && ConsiderIn(limits, tools, s, p, targets, chance)
         == if turn && Readable(tools, p) && due then DeriveIn(limits, s, key, chance.pick, chance.m) else s
  {
    if Readable(tools, p) { AsksExactlyWhen(tools, p, chance.reading); }
  }

  /** The first n datasets were gone through without an error. */
  ghost predicate GoneThrough(limits: Limits, tools: Tools, s: State, produced: seq<Produced>, targets: set<Dataset>,
                              chances: seq<Chance>, n: nat, now: State)
    requires |chances| == |produced|
  {
    && n <= |produced| && now == EvaluateIn(limits, tools, s, produced[..n], targets, chances[..n])
    && forall i :: 0 <= i < n ==> !ErrsAt(limits, tools, s, produced, targets, chances, i)
  }

  lemma GoOn(limits: Limits, tools: Tools, s: State, produced: seq<Produced>, targets: set<Dataset>,
             chances: seq<Chance>, n: nat, now: State)
    requires |chances| == |produced| && n < |produced|
    requires GoneThrough(limits, tools, s, produced, targets, chances, n, now)
    ensures ErrsAt(limits, tools, s, produced, targets, chances, n) <==>
      ErrsIn(limits, tools, now, produced[n], targets, chances[n])
    ensures EvaluateIn(limits, tools, s, produced[..n + 1], targets, chances[..n + 1])
         == ConsiderIn(limits, tools, now, produced[n], targets, chances[n])
  {
    assert produced[..n + 1][..n] == produced[..n] && chances[..n + 1][..n] == chances[..n];
  }

  function CountDerived(ds: seq<Decision>): nat {
    if ds == [] then 0 else CountDerived(ds[..|ds| - 1]) + if ds[|ds| - 1].what.Derived? then 1 else 0
  }

  lemma CountMore(ds: seq<Decision>, d: Decision)
    ensures CountDerived(ds + [d]) == CountDerived(ds) + if d.what.Derived? then 1 else 0
  {
    assert (ds + [d])[..|ds|] == ds;
  }

  /** One more decision about the key's dataset, one that a dataset that asks may get. */
  ghost predicate OneMore(before: seq<Decision>, after: seq<Decision>, key: Key, ok: bool) {
    && |after| == |before| + (if ok then 1 else 0) && before <= after
    && (ok ==> after[|before|].dataset == key.dataset
               && after[|before|].what in {Derived, SkippedAdmission, SkippedActiveRun})
  }

  /** The decisions since then: of the first n datasets each that has a freshness, and is among
      the targets if there are any, got one, in their order, that fits it. */
  ghost predicate Decided(tools: Tools, produced: seq<Produced>, targets: set<Dataset>, chances: seq<Chance>, n: nat,
                          since: seq<Decision>, ds: seq<Decision>)
    requires |chances| == |produced| && n <= |produced|
  {
    if n == 0 then ds == since
    else if Trim(produced[n - 1].freshness) != "" && (targets == {} || IdentityOf(produced[n - 1].decl) in targets)
    then
      && ds != [] && Fits(tools, produced[n - 1], chances[n - 1].reading, ds[|ds| - 1])
      && Decided(tools, produced, targets, chances, n - 1, since, ds[..|ds| - 1])
    else Decided(tools, produced, targets, chances, n - 1, since, ds)
  }

  lemma DecidedMore(tools: Tools, produced: seq<Produced>, targets: set<Dataset>, chances: seq<Chance>, n: nat,
                    since: seq<Decision>, before: seq<Decision>, after: seq<Decision>)
    requires |chances| == |produced| && n < |produced|
    requires Decided(tools, produced, targets, chances, n, since, before) && before <= after
    requires |after| == |before| + if Targeted(produced[n], targets) then 1 else 0
    requires Targeted(produced[n], targets) ==> Fits(tools, produced[n], chances[n].reading, after[|before|])
    ensures Decided(tools, produced, targets, chances, n + 1, since, after)
  {
    assert after[..|before|] == before;
    assert |after| == |before| ==> after == before;
  }

  /** The dataset is to have a run. */
  ghost predicate IsDue(tools: Tools, p: Produced, r: Reading, targets: set<Dataset>) {
    && Trim(p.freshness) != "" && (targets == {} || IdentityOf(p.decl) in targets)
    && !r.state.quarantined && r.triggered && IsOverdue(tools, p, r)
    && AllMovedOn(tools.parse, r.state.row.consumed, r.inputs)
  }

  /** A run is derived, or found under way, for datasets only that are to have one. */
  lemma {:induction false} OnlyTheDueAreDerived(tools: Tools, produced: seq<Produced>, targets: set<Dataset>,
                                                chances: seq<Chance>, n: nat, since: seq<Decision>, ds: seq<Decision>,
                                                j: nat)
    requires |chances| == |produced| && n <= |produced|
    requires Decided(tools, produced, targets, chances, n, since, ds)
    requires |since| <= j < |ds| && ds[j].what in {Derived, SkippedActiveRun}
    ensures exists i :: 0 <= i < n && IsDue(tools, produced[i], chances[i].reading, targets)
                        && ds[j].dataset == NameOf(produced[i])
  {
    if n > 0 {
      if Targeted(produced[n - 1], targets) {
        if j < |ds| - 1 {
          OnlyTheDueAreDerived(tools, produced, targets, chances, n - 1, since, ds[..|ds| - 1], j);
        } else {
          assert IsDue(tools, produced[n - 1], chances[n - 1].reading, targets);
        }
      } else {
        OnlyTheDueAreDerived(tools, produced, targets, chances, n - 1, since, ds, j);
      }
    }
  }

  /** Every dataset that is to have a run is decided on, and not as fresh or as waiting. */
  lemma {:induction false} EveryDueIsDecided(tools: Tools, produced: seq<Produced>, targets: set<Dataset>,
                                             chances: seq<Chance>, n: nat, since: seq<Decision>, ds: seq<Decision>,
                                             i: nat)
    requires |chances| == |produced| && n <= |produced| && i < n
    requires Decided(tools, produced, targets, chances, n, since, ds)
    requires IsDue(tools, produced[i], chances[i].reading, targets)
    ensures exists j :: |since| <= j < |ds| && ds[j].dataset == NameOf(produced[i])
                        && ds[j].what in {Derived, SkippedAdmission, SkippedActiveRun}
  {
    DecidedLengthens(tools, produced, targets, chances, n, since, ds);
    if i < n - 1 {
      var front := if Targeted(produced[n - 1], targets) then ds[..|ds| - 1] else ds;
      EveryDueIsDecided(tools, produced, targets, chances, n - 1, since, front, i);
      var j :| |since| <= j < |front| && front[j].dataset == NameOf(produced[i])
               && front[j].what in {Derived, SkippedAdmission, SkippedActiveRun};
      assert ds[j] == front[j];
    } else {
      DecidedLengthens(tools, produced, targets, chances, n - 1, since, ds[..|ds| - 1]);
    }
  }

  lemma {:induction false} DecidedLengthens(tools: Tools, produced: seq<Produced>, targets: set<Dataset>,
                                            chances: seq<Chance>, n: nat, since: seq<Decision>, ds: seq<Decision>)
    requires |chances| == |produced| && n <= |produced|
    requires Decided(tools, produced, targets, chances, n, since, ds)
    ensures since <= ds
  {
    if n > 0 {
      var front := if Targeted(produced[n - 1], targets) then ds[..|ds| - 1] else ds;
      DecidedLengthens(tools, produced, targets, chances, n - 1, since, front);
    }
  }

  class Evaluator {
    const limits: Limits
    const tools: Tools
    var policies: Policies
    var runs: Runs
    var queue: RunQueue
    var dequeuers: map<nat, Dequeuer>
    var decisions: seq<Decision>

    ghost function Tables(phase: Phase): State
      reads this
    {
      State(policies, runs, queue, dequeuers, phase)
    }

    constructor (limits: Limits, tools: Tools)
      ensures this.limits == limits && this.tools == tools && Tables(Idle) == Init(limits) && decisions == []
    {
      this.limits, this.tools := limits, tools;
      policies, runs, queue, dequeuers, decisions := limits.policies, map[], map[], map[], [];
    }

    /** The other processes take their steps. */
    method LetOthers(steps: seq<Step>, phase: Phase)
      requires Outside(steps)
      modifies `policies, `runs, `queue, `dequeuers
      ensures Tables(phase) == Run(limits, old(Tables(phase)), steps)
    {
      var s := Run(limits, State(policies, runs, queue, dequeuers, phase), steps);
      OutsideKeepsPhase(limits, State(policies, runs, queue, dequeuers, phase), steps);
      policies, runs, queue, dequeuers := s.policies, s.runs, s.queue, s.dequeuers;
    }

    method HasActiveRun(key: Key) returns (active: bool)
      ensures active <==> Running(runs, key)
    {
      var ids := runs.Keys;
      while ids != {}
        invariant ids <= runs.Keys
        invariant forall id :: id in runs.Keys - ids ==> !Holds(runs[id], key)
        decreases ids
      {
        var id :| id in ids;
        if Holds(runs[id], key) {
          return true;
        }
        ids := ids - {id};
      }
      return false;
    }

    method HasQueuedRun(key: Key) returns (queued: bool)
      ensures queued <==> Waiting(queue, key)
    {
      var rows := queue.Keys;
      while rows != {}
        invariant rows <= queue.Keys
        invariant forall q :: q in queue.Keys - rows ==> !Waits(queue[q], key)
        decreases rows
      {
        var q :| q in rows;
        if Waits(queue[q], key) {
          return true;
        }
        rows := rows - {q};
      }
      return false;
    }

    /** The runs are read first and the queue second; others may move in between. */
    method HasActiveOrQueuedRun(key: Key, betweenReads: seq<Step>, e: Evaluation) returns (active: bool)
      requires Outside(betweenReads)
      modifies `policies, `runs, `queue, `dequeuers
      ensures active <==> Running(old(runs), key) || Waiting(queue, key)
      ensures Running(old(runs), key) ==> Tables(Idle) == old(Tables(Idle))
      ensures !Running(old(runs), key) ==>
        Tables(Looked(e, key)) == Run(limits, old(Tables(Looked(e, key))), betweenReads)
    {
      active := HasActiveRun(key);
      if !active {
        LetOthers(betweenReads, Looked(e, key));
        active := HasQueuedRun(key);
      }
    }

    method CountActive(job: nat) returns (n: nat)
      ensures n == |Taken(runs, job)|
    {
      n := 0;
      var ids := runs.Keys;
      ghost var seen: set<nat> := {};
      while ids != {}
        invariant ids <= runs.Keys && n == |seen| && seen == Taken(runs, job) - ids
        decreases ids
      {
        var id :| id in ids;
        if Takes(runs[id], job) {
          n, seen := n + 1, seen + {id};
        }
        ids := ids - {id};
      }
    }

    /** The conditional insert of a run that takes a slot. */
    method InsertIfSlot(job: nat, origin: Origin, id: nat, maxRuns: Positive) returns (inserted: bool)
      requires id !in runs
      modifies `runs
      ensures inserted <==> |Taken(old(runs), job)| < maxRuns
      ensures runs == if inserted then old(runs)[id := RunRow(job, origin, Active, Ordinary)] else old(runs)
    {
      var active := CountActive(job);
      inserted := active < maxRuns;
      if inserted {
        runs := runs[id := RunRow(job, origin, Active, Ordinary)];
      }
    }

    /** The row is added, and as many of the oldest unclaimed rows dropped as are too many. */
    method Enqueue(job: nat, origin: Origin, pick: Pick) returns (ok: bool)
      modifies `queue
      ensures ok <==> Enqueues(Verdict.Enqueue, old(queue), job, limits.maxQueue, pick)
      ensures queue == QueueAfter(Verdict.Enqueue, old(queue), job, origin, limits.maxQueue, pick)
    {
      ok := Enqueues(Verdict.Enqueue, queue, job, limits.maxQueue, pick);
      if ok {
        queue := queue[pick.qid := QueueRow(job, origin, None)];
        queue := queue - pick.dropped;
      }
    }

    /** Cancels the oldest run and tries the insert once more. */
    method ReplaceOldest(job: nat, origin: Origin, pick: Pick, maxRuns: Positive) returns (ok: bool, created: bool)
      requires job in policies && policies[job] == Policy(maxRuns, Replace) && |Taken(runs, job)| >= maxRuns
      modifies `runs
      ensures var v := Judge(policies, old(runs), job, Caller.Evaluator);
        && runs == RunsAfter(v, old(runs), job, origin, pick) && (created <==> Inserts(v, old(runs), job, pick))
        && (ok <==> Inserts(v, old(runs), job, pick) || Evicts(v, old(runs), job, pick))
    {
      ok, created := false, false;
      if pick.oldest !in runs || !Takes(runs[pick.oldest], job) {
        return;
      }
      CancelFrees(runs, pick.oldest, job);
      if |Taken(runs, job)| <= maxRuns && pick.id in runs {
        return;
      }
      ok := true;
      runs := Cancel(runs, pick.oldest);
      if pick.id !in runs {
        created := InsertIfSlot(job, origin, pick.id, maxRuns);
      }
    }

    /** Admission of a run that only a policy lets in. A transaction that fails leaves all as
        it was. */
    method AdmitRun(job: nat, origin: Origin, pick: Pick) returns (ok: bool, created: bool)
      modifies `runs, `queue
      ensures ok <==>
        Possible(Judge(policies, old(runs), job, Caller.Evaluator), old(runs), old(queue), job, limits.maxQueue, pick)
      ensures created <==> Creates(old(Tables(Idle)), job, Caller.Evaluator, pick)
      ensures runs == PlacedRuns(old(Tables(Idle)), job, origin, Caller.Evaluator, pick)
      ensures queue == PlacedQueue(limits, old(Tables(Idle)), job, origin, Caller.Evaluator, pick)
    {
      ok, created := true, false;
      if job !in policies {
        return;
      }
      var active := CountActive(job);
      if active < policies[job].maxRuns {
        if pick.id in runs {
          return false, false;
        }
        created := InsertIfSlot(job, origin, pick.id, policies[job].maxRuns);
        return;
      }
      match policies[job].strategy
      case Skip =>
      case Fail =>
      case Queue => ok := Enqueue(job, origin, pick);
      case Replace => ok, created := ReplaceOldest(job, origin, pick, policies[job].maxRuns);
    }

    /** Asks for the run; only a created one is a derivation, and an error is not recorded. */
    method RequestRun(key: Key, e: Evaluation, pick: Pick) returns (e': Evaluation, ok: bool)
      requires e.budget > 0
      modifies `runs, `queue, `decisions
      ensures Tables(Evaluating(e')) == Next(limits, old(Tables(Checked(e, key))), Admit(pick))
      ensures ok <==> Possible(Judge(policies, old(runs), key.job, Caller.Evaluator),
                               old(runs), old(queue), key.job, limits.maxQueue, pick)
      ensures CountDerived(decisions) - e'.derived == CountDerived(old(decisions)) - e.derived
      ensures OneMore(old(decisions), decisions, key, ok)
      ensures e'.derived + e'.budget == e.derived + e.budget && e'.budget >= 0
    {
      e' := e;
      var created: bool;
      ok, created := AdmitRun(key.job, OriginFor(e, key), pick);
      if !ok {
        return;
      }
      var d := Decision(key.dataset, if created then Derived else SkippedAdmission);
      CountMore(decisions, d);
      decisions := decisions + [d];
      if created {
        e' := e.(budget := e.budget - 1, derived := e.derived + 1);
      }
    }

    method Skip(d: Decision)
      requires !d.what.Derived?
      modifies `decisions
      ensures decisions == old(decisions) + [d] && CountDerived(decisions) == CountDerived(old(decisions))
    {
      CountMore(decisions, d);
      decisions := decisions + [d];
    }

    /** Everything up to the request; if it does not come to that, the reason is recorded. */
    method Look(key: Key, e: Evaluation, m: Meanwhile) returns (free: bool)
      requires m.Valid()
      modifies `policies, `runs, `queue, `dequeuers, `decisions
      ensures free ==> e.budget > 0 && decisions == old(decisions)
      ensures !free ==> OneMore(old(decisions), decisions, key, true)
      ensures CountDerived(decisions) == CountDerived(old(decisions))
      ensures Tables(if free then Checked(e, key) else Evaluating(e))
           == BeforeRequest(limits, old(Tables(Evaluating(e))), key, m)
    {
      LetOthers(m.beforeLook, Evaluating(e));
      OutsideKeepsPhase(limits, old(Tables(Evaluating(e))), m.beforeLook);
      if e.budget <= 0 {
        Skip(Decision(key.dataset, SkippedAdmission));
        return false;
      }
      if e.depth >= limits.maxDepth {
        Skip(Decision(key.dataset, SkippedAdmission));
        return false;
      }
      ghost var looked := Tables(Looked(e, key));
      var active := HasActiveOrQueuedRun(key, m.betweenReads, e);
      OutsideKeepsPhase(limits, looked, m.betweenReads);
      if active {
        Skip(Decision(key.dataset, SkippedActiveRun));
        return false;
      }
      ghost var checked := Tables(Checked(e, key));
      LetOthers(m.beforeRequest, Checked(e, key));
      OutsideKeepsPhase(limits, checked, m.beforeRequest);
      return true;
    }

    method Derive(key: Key, e: Evaluation, chance: Chance) returns (e': Evaluation, ok: bool)
      requires chance.m.Valid()
      modifies `policies, `runs, `queue, `dequeuers, `decisions
      ensures Tables(Evaluating(e')) == DeriveIn(limits, old(Tables(Evaluating(e))), key, chance.pick, chance.m)
      ensures ok <==> !FailsIn(limits, old(Tables(Evaluating(e))), key, chance.pick, chance.m)
      ensures CountDerived(decisions) - e'.derived == CountDerived(old(decisions)) - e.derived
      ensures OneMore(old(decisions), decisions, key, ok)
      ensures e'.derived + e'.budget == e.derived + e.budget
      ensures (e.budget >= 0 ==> e'.budget >= 0) && (e.budget <= 0 ==> e' == e)
    {
      e', ok := e, true;
      var free := Look(key, e, chance.m);
      if free {
        e', ok := RequestRun(key, e, chance.pick);
      }
    }

    /** What stands in the way of a dataset that does not ask for a run. */
    method SkipReason(p: Produced, r: Reading, standing: Standing, ready: bool) returns (what: What)
      requires Readable(tools, p) && ready == InputsReady(tools, r) && standing == StandingOf(tools, p, r)
      requires !AsksForRun(tools, p, r)
      ensures Fits(tools, p, r, Decision(NameOf(p), what)) && !what.Derived?
    {
      AsksExactlyWhen(tools, p, r);
      StandsExactlyWhen(r.state, p.createdAt, p.updatedAt, r.now, PositiveDuration(tools, p.freshness).value,
                        OptionalDuration(tools, p.maxStaleness).value, ready);
      match standing
      case Fresh => return SkippedFresh;
      case Unknown => return SkippedFresh;
      case StaleUpstream => return SkippedUpstream;
      case Violated => return if ready then SkippedAdmission else SkippedUpstream;
      case Stale => return SkippedAdmission;
      case Quarantined => return SkippedAdmission;
    }

    /** One targeted dataset: its durations, its inputs, its standing, and perhaps a run. */
    method EvaluateProduced(p: Produced, e: Evaluation, chance: Chance) returns (e': Evaluation, ok: bool)
      requires chance.m.Valid()
      modifies `policies, `runs, `queue, `dequeuers, `decisions
      ensures var s := old(Tables(Evaluating(e)));
        Tables(Evaluating(e'))
        == if Readable(tools, p) && AsksForRun(tools, p, chance.reading)
           then DeriveIn(limits, s, KeyFor(tools, p, chance.reading), chance.pick, chance.m) else s
      ensures ok <==>
        Readable(tools, p) && !(AsksForRun(tools, p, chance.reading)
          && FailsIn(limits, old(Tables(Evaluating(e))), KeyFor(tools, p, chance.reading), chance.pick, chance.m))
      ensures CountDerived(decisions) - e'.derived == CountDerived(old(decisions)) - e.derived
      ensures |decisions| == |old(decisions)| + (if ok then 1 else 0) && old(decisions) <= decisions
      ensures ok ==> Fits(tools, p, chance.reading, decisions[|old(decisions)|])
      ensures e'.derived + e'.budget == e.derived + e.budget
      ensures (e.budget >= 0 ==> e'.budget >= 0) && (e.budget <= 0 ==> e' == e)
    {
      e', ok := e, true;
      var r := chance.reading;
      var freshness, maxStaleness := PositiveDuration(tools, p.freshness), OptionalDuration(tools, p.maxStaleness);
      if freshness.None? || maxStaleness.None? {
        return e, false;
      }
      var ready, consumed := UpstreamReady(tools.parse, r.state.row.consumed, r.inputs);
      var standing := StatusFor(r.state, p.createdAt, p.updatedAt, r.now, freshness.value, maxStaleness.value, ready);
      AsksExactlyWhen(tools, p, r);
      if WantsRun(standing, ready) && r.triggered {
        e', ok := Derive(Key(p.decl.job, NameOf(p), tools.canonical(consumed)), e, chance);
      } else {
        var what := SkipReason(p, r, standing, ready);
        Skip(Decision(NameOf(p), what));
      }
    }

    /** One produced dataset: passed over, or evaluated. */
    method Consider(p: Produced, targets: set<Dataset>, e: Evaluation, chance: Chance)
      returns (e': Evaluation, ok: bool)
      requires chance.m.Valid()
      modifies `policies, `runs, `queue, `dequeuers, `decisions
      ensures Tables(Evaluating(e')) == ConsiderIn(limits, tools, old(Tables(Evaluating(e))), p, targets, chance)
      ensures ok <==> !ErrsIn(limits, tools, old(Tables(Evaluating(e))), p, targets, chance)
      ensures CountDerived(decisions) - e'.derived == CountDerived(old(decisions)) - e.derived
      ensures old(decisions) <= decisions
      ensures !ok ==> decisions == old(decisions)
      ensures |decisions| == |old(decisions)| + if ok && Targeted(p, targets) then 1 else 0
      ensures ok && Targeted(p, targets) ==> Fits(tools, p, chance.reading, decisions[|old(decisions)|])
      ensures e'.derived + e'.budget == e.derived + e.budget
      ensures (e.budget >= 0 ==> e'.budget >= 0) && (e.budget <= 0 ==> e' == e)
    {
      e', ok := e, true;
      if targets != {} && IdentityOf(p.decl) !in targets {
        return;
      }
      if Trim(p.freshness) == "" {
        return;
      }
      e', ok := EvaluateProduced(p, e, chance);
    }

    /** What has been done when the first n datasets have been gone through. */
    ghost predicate Underway(s: State, produced: seq<Produced>, targets: set<Dataset>, chances: seq<Chance>, n: nat,
                             e: Evaluation, since: seq<Decision>)
      requires |chances| == |produced|
      reads this
    {
      && GoneThrough(limits, tools, s, produced, targets, chances, n, Tables(Evaluating(e)))
      && Decided(tools, produced, targets, chances, n, since, decisions)
      && CountDerived(decisions) == CountDerived(since) + e.derived
      && e.derived + e.budget == limits.maxDerivations && e.budget >= 0
    }

    /** One dataset more. */
    method EvaluateNext(ghost s: State, produced: seq<Produced>, targets: set<Dataset>, chances: seq<Chance>, n: nat,
                        e: Evaluation, ghost since: seq<Decision>)
      returns (e': Evaluation, ok: bool)
      requires |chances| == |produced| && n < |produced| && chances[n].m.Valid()
      requires Underway(s, produced, targets, chances, n, e, since)
      modifies `policies, `runs, `queue, `dequeuers, `decisions
      ensures ok <==> !ErrsAt(limits, tools, s, produced, targets, chances, n)
      ensures ok ==> Underway(s, produced, targets, chances, n + 1, e', since)
      ensures Tables(Evaluating(e')) == EvaluateIn(limits, tools, s, produced[..n + 1], targets, chances[..n + 1])
      ensures !ok ==> decisions == old(decisions) && e'.derived == e.derived
    {
      GoOn(limits, tools, s, produced, targets, chances, n, Tables(Evaluating(e)));
      ghost var before := decisions;
      e', ok := Consider(produced[n], targets, e, chances[n]);
      if ok { DecidedMore(tools, produced, targets, chances, n, since, before, decisions); }
    }

    /** One evaluation derives at most its budget, and leaves the tables as the steps of the
        system do, whatever the others do between its statements. It goes through the datasets
        until one cannot be read or a transaction fails. Each dataset that is among the targets,
        if there are any, and has a freshness gets one decision, the one that fits it. */
    method EvaluateWithSnapshot(produced: seq<Produced>, targets: set<Dataset>, depth: nat, cause: Option<nat>,
                                chances: seq<Chance>)
      returns (e: Evaluation, n: nat, ok: bool)
      requires |chances| == |produced| && forall i :: 0 <= i < |chances| ==> chances[i].m.Valid()
      modifies `policies, `runs, `queue, `dequeuers, `decisions
      ensures n <= |produced| && (ok ==> n == |produced|) && (!ok ==> n > 0)
      ensures var s := old(Tables(Evaluating(Evaluation(depth, cause, limits.maxDerivations, 0))));
        && Tables(Evaluating(e)) == EvaluateIn(limits, tools, s, produced[..n], targets, chances[..n])
        && forall i :: 0 <= i < n ==> (ErrsAt(limits, tools, s, produced, targets, chances, i) <==> !ok && i == n - 1)
      ensures CountDerived(decisions) - CountDerived(old(decisions)) == e.derived <= limits.maxDerivations
      ensures Decided(tools, produced, targets, chances, if ok then n else n - 1, old(decisions), decisions)
    {
      e, n, ok := Evaluation(depth, cause, limits.maxDerivations, 0), 0, true;
      ghost var s := Tables(Evaluating(e));
      while n < |produced|
        invariant n <= |produced| && ok && Underway(s, produced, targets, chances, n, e, old(decisions))
      {
        e, ok := EvaluateNext(s, produced, targets, chances, n, e, old(decisions));
        n := n + 1;
        if !ok {
          return;
        }
      }
    }
  }
}
