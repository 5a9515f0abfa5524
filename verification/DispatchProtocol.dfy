/** Push dispatch between run owners and workers as a transition system. Any number of
    nodes serve any number of calls at once; a message that was sent stays in flight for
    ever, so it may be delivered late, twice, in any order or never. Every call is cut
    at its database statements, and every step that reads a clock carries the reading of
    the node that runs it, so the nodes' clocks need not agree. */
module DispatchProtocol {
  import opened TaskRuns

  datatype DispatchReq = DispatchReq(key: TaskKey, generation: int, attempt: nat, worker: string)

  datatype CompleteReq = CompleteReq(key: TaskKey, generation: int, attempt: nat, worker: string,
                                     report: Report, result: string)

  /** A work item in a worker's inbound queue: the loaded row and the owner's fencing fields. */
  datatype WorkItem = WorkItem(key: TaskKey, row: TaskRow, generation: int, attempt: nat, worker: string)

  datatype Phase = Claimed | Loaded(row: TaskRow) | RollingBack

  /** A dispatch handler between its claim and its answer. `claim` is the claim it made. */
  datatype DispatchCall = DispatchCall(node: string, req: DispatchReq, claim: nat, phase: Phase)

  /** A completion handler that passed the lease fences and has not yet applied. */
  datatype CompleteCall = CompleteCall(node: string, req: CompleteReq, clock: int, lease: Lease)

  datatype ClaimId = ClaimId(key: TaskKey, claim: nat)

  datatype System = System(
    leases: map<nat, Lease>,
    top: map<nat, int>,               // highest generation a run's lease ever had
    rows: map<TaskKey, TaskRow>,
    dispatchNet: set<DispatchReq>,
    completeNet: set<CompleteReq>,
    dispatches: map<nat, DispatchCall>,
    completes: map<nat, CompleteCall>,
    items: seq<WorkItem>,
    dispatched: set<ClaimId>,         // claims made by dispatch handlers
    leaked: set<ClaimId>,             // claims whose handler died or could not roll back
    disturbed: set<TaskKey>)          // tasks reset behind a handler's back

  datatype Step =
    | AcquireLease(run: nat, node: string, expires: int)
    | RenewLease(run: nat, node: string, expires: int)
    | TakeOver(node: string, clock: int, expires: int)
    | SendDispatch(req: DispatchReq)
    | BeginDispatch(h: nat, node: string, hasWorker: bool, req: DispatchReq, clock: int,
                    expires: int, trustReadiness: bool)
    | LoadTask(h: nat, readable: bool)
    | Submit(h: nat, accepted: bool)
    | RollBack(h: nat)
    | Abandon(h: nat)
    | ReportOutcome(item: nat, report: Report, result: string)
    | CheckComplete(h: nat, node: string, clock: int, envelope: CompleteReq)
    | ApplyComplete(h: nat)
    | DropComplete(h: nat)
    | External(key: TaskKey, write: RowWrite)
    | CancelRun(run: nat)

  // ----- leases -----

  predicate Expired(l: Lease, node: string, clock: int) {
    l.expires <= clock && l.owner != node
  }

  function DoAcquire(s: System, run: nat, node: string, expires: int): System {
    if run in s.top then s   // a lease row is written once per run
    else s.(leases := s.leases[run := Lease(node, expires, 1)], top := s.top[run := 1])
  }

  function DoRenew(s: System, run: nat, node: string, expires: int): System {
    if run in s.leases && s.leases[run].owner == node
    then s.(leases := s.leases[run := s.leases[run].(expires := expires)])
    else s
  }

  /** One UPDATE over all expired leases of other nodes. */
  function DoTakeOver(s: System, node: string, clock: int, expires: int): System {
    s.(leases := map r | r in s.leases ::
         if Expired(s.leases[r], node, clock)
         then Lease(node, expires, s.leases[r].generation + 1) else s.leases[r],
       top := map r | r in s.top ::
         if r in s.leases && Expired(s.leases[r], node, clock) then s.top[r] + 1 else s.top[r])
  }

  function DoCancel(s: System, run: nat): System {
    s.(leases := s.leases - {run},
       rows := map k | k in s.rows :: if k.run == run then Cancel(s.rows[k]) else s.rows[k])
  }

  // ----- dispatch: owner sends, worker claims, loads, submits or rolls back -----

  /** An owner only ever puts a generation it once read into an envelope. */
  function DoSend(s: System, req: DispatchReq): System {
    if req.worker != "" && req.key.run in s.top && 0 < req.generation <= s.top[req.key.run]
    then s.(dispatchNet := s.dispatchNet + {req})
    else s
  }

  function DoBegin(s: System, h: nat, node: string, hasWorker: bool, req: DispatchReq,
                   clock: int, expires: int, trust: bool): System {
    if && h !in s.dispatches && req in s.dispatchNet && req.worker == node && hasWorker
       && req.key in s.rows && Claimable(s.rows[req.key], req.generation, clock, trust)
    then
      var row := Claim(s.rows[req.key], node, req.generation, expires);
      s.(rows := s.rows[req.key := row],
         dispatches := s.dispatches[h := DispatchCall(node, req, row.claimAttempt, Claimed)],
         dispatched := s.dispatched + {ClaimId(req.key, row.claimAttempt)})
    else s
  }

  function DoLoad(s: System, h: nat, readable: bool): System {
    if h in s.dispatches && s.dispatches[h].phase.Claimed? then
      var c := s.dispatches[h];
      var found := readable && c.req.key in s.rows && Loadable(s.rows[c.req.key], c.node);
      s.(dispatches := s.dispatches[h := c.(phase := if found then Loaded(s.rows[c.req.key]) else RollingBack)])
    else s
  }

  function ItemOf(c: DispatchCall): WorkItem
    requires c.phase.Loaded?
  {
    WorkItem(c.req.key, c.phase.row, c.req.generation, c.req.attempt, c.node)
  }

  function DoSubmit(s: System, h: nat, accepted: bool): System {
    if h in s.dispatches && s.dispatches[h].phase.Loaded? then
      var c := s.dispatches[h];
      if accepted then s.(dispatches := s.dispatches - {h}, items := s.items + [ItemOf(c)])
      else s.(dispatches := s.dispatches[h := c.(phase := RollingBack)])
    else s
  }

  function DoRollBack(s: System, h: nat): System {
    if h in s.dispatches && s.dispatches[h].phase.RollingBack? then
      var c := s.dispatches[h];
      s.(dispatches := s.dispatches - {h},
         rows := if c.req.key in s.rows
                 then s.rows[c.req.key := Release(s.rows[c.req.key], c.node, c.req.generation)]
                 else s.rows)
    else s
  }

  /** The node dies in the middle of a call, or the rollback write fails. */
  function DoAbandon(s: System, h: nat): System {
    if h in s.dispatches then
      var c := s.dispatches[h];
      s.(dispatches := s.dispatches - {h}, leaked := s.leaked + {ClaimId(c.req.key, c.claim)})
    else s
  }

  // ----- completion: worker reports, owner checks the lease, then applies -----

  function Outcome(it: WorkItem, report: Report, result: string): CompleteReq {
    CompleteReq(it.key, it.generation, it.attempt, it.worker, report, result)
  }

  function DoReport(s: System, item: nat, report: Report, result: string): System {
    if item < |s.items| then s.(completeNet := s.completeNet + {Outcome(s.items[item], report, result)})
    else s
  }

  /** The fences: a known status, an unexpired lease of this node, the envelope's generation. */
  predicate PassesFences(s: System, node: string, clock: int, req: CompleteReq) {
    && ValidReport(req.report)
    && req.key.run in s.leases
    && s.leases[req.key.run].owner == node
    && !(s.leases[req.key.run].expires < clock)
    && s.leases[req.key.run].generation == req.generation
  }

  function DoCheck(s: System, h: nat, node: string, clock: int, req: CompleteReq): System {
    if h !in s.completes && req in s.completeNet && PassesFences(s, node, clock, req)
    then s.(completes := s.completes[h := CompleteCall(node, req, clock, s.leases[req.key.run])])
    else s
  }

  function DoApply(s: System, h: nat): System {
    if h in s.completes then
      var q := s.completes[h].req;
      s.(completes := s.completes - {h},
         rows := if q.key in s.rows
                 then s.rows[q.key := AfterApply(s.rows[q.key], q.worker, q.report, q.result)]
                 else s.rows)
    else s
  }

  function DoExternal(s: System, key: TaskKey, w: RowWrite): System {
    if key in s.rows
    then s.(rows := s.rows[key := Rewrite(s.rows[key], w)],
            disturbed := if Disturbs(w) then s.disturbed + {key} else s.disturbed)
    else s
  }

  /** A step whose guard fails leaves the system as it is: the call is refused. */
  function Next(s: System, step: Step): System {
    match step
    case AcquireLease(run, node, expires) => DoAcquire(s, run, node, expires)
    case RenewLease(run, node, expires) => DoRenew(s, run, node, expires)
    case TakeOver(node, clock, expires) => DoTakeOver(s, node, clock, expires)
    case SendDispatch(req) => DoSend(s, req)
    case BeginDispatch(h, node, hasWorker, req, clock, expires, trust) =>
      DoBegin(s, h, node, hasWorker, req, clock, expires, trust)
    case LoadTask(h, readable) => DoLoad(s, h, readable)
    case Submit(h, accepted) => DoSubmit(s, h, accepted)
    case RollBack(h) => DoRollBack(s, h)
    case Abandon(h) => DoAbandon(s, h)
    case ReportOutcome(item, report, result) => DoReport(s, item, report, result)
    case CheckComplete(h, node, clock, req) => DoCheck(s, h, node, clock, req)
    case ApplyComplete(h) => DoApply(s, h)
    case DropComplete(h) => s.(completes := s.completes - {h})
    case External(key, w) => DoExternal(s, key, w)
    case CancelRun(run) => DoCancel(s, run)
  }

  ghost predicate Init(s: System) {
    && s == System(map[], map[], s.rows, {}, {}, map[], map[], [], {}, {}, {})
    && forall k :: k in s.rows ==>
         && s.rows[k].status.Pending? && s.rows[k].claimedBy == ""
         && s.rows[k].claimAttempt == 0 && s.rows[k].generation == 0
  }

  ghost predicate IsRun(ss: seq<System>, steps: seq<Step>) {
    && |ss| == |steps| + 1
    && Init(ss[0])
    && forall i :: 0 <= i < |steps| ==> ss[i + 1] == Next(ss[i], steps[i])
  }

  // ----- the invariant -----

  ghost predicate LeasesTracked(s: System) {
    forall r :: r in s.leases ==> r in s.top && s.leases[r].generation == s.top[r]
  }

  ghost predicate GenerationKnown(s: System, key: TaskKey, generation: int) {
    key.run in s.top && 0 < generation <= s.top[key.run]
  }

  ghost predicate MessagesHonest(s: System) {
    && (forall q :: q in s.dispatchNet ==> q.worker != "" && GenerationKnown(s, q.key, q.generation))
    && (forall i :: 0 <= i < |s.items| ==>
         s.items[i].worker != "" && GenerationKnown(s, s.items[i].key, s.items[i].generation))
    && (forall q :: q in s.completeNet ==> Reported(s, q))
  }

  /** Some work item was handed out with the envelope's task, generation and worker. */
  ghost predicate Reported(s: System, q: CompleteReq) {
    exists i :: 0 <= i < |s.items| && Outcome(s.items[i], q.report, q.result) == q
  }

  ghost predicate CallSound(s: System, c: DispatchCall) {
    && c.req in s.dispatchNet && c.req.worker == c.node
    && c.req.key in s.rows
    && ClaimId(c.req.key, c.claim) in s.dispatched
    && var row := s.rows[c.req.key];
    && c.claim <= row.claimAttempt
    && (row.status.Running? && row.claimAttempt == c.claim ==>
          row.claimedBy == c.node && row.generation == c.req.generation)
    && (c.phase.Loaded? ==>
          && c.claim <= c.phase.row.claimAttempt <= row.claimAttempt
          && Loadable(c.phase.row, c.node)
          && (c.phase.row.claimAttempt == c.claim ==> c.phase.row.generation == c.req.generation))
  }

  ghost predicate CallsSound(s: System) {
    forall h :: h in s.dispatches ==> CallSound(s, s.dispatches[h])
  }

  ghost predicate CompletionsFenced(s: System) {
    forall h :: h in s.completes ==>
      var c := s.completes[h];
      && c.req in s.completeNet && ValidReport(c.req.report)
      && c.lease.owner == c.node && !(c.lease.expires < c.clock)
      && c.lease.generation == c.req.generation
  }

  ghost predicate ClaimsCounted(s: System) {
    && (forall id :: id in s.dispatched ==> id.key in s.rows && id.claim <= s.rows[id.key].claimAttempt)
    && (forall k :: k in s.rows ==> s.rows[k].generation == 0 || GenerationKnown(s, k, s.rows[k].generation))
  }

  /** The running claim `id` was made by a dispatch handler that did not die over it. */
  ghost predicate LiveDispatchClaim(s: System, key: TaskKey) {
    && key in s.rows && s.rows[key].status.Running?
    && ClaimId(key, s.rows[key].claimAttempt) in s.dispatched - s.leaked
  }

  ghost predicate HandlerAtWork(s: System, key: TaskKey, claim: nat) {
    exists h :: h in s.dispatches && s.dispatches[h].req.key == key && s.dispatches[h].claim == claim
  }

  ghost predicate IsItemFor(s: System, i: int, key: TaskKey) {
    && 0 <= i < |s.items| && key in s.rows
    && s.items[i].key == key
    && s.items[i].row.claimAttempt == s.rows[key].claimAttempt
    && s.items[i].worker == s.rows[key].claimedBy
    && s.items[i].generation == s.rows[key].generation
  }

  ghost predicate Responsible(s: System, key: TaskKey)
    requires key in s.rows
  {
    HandlerAtWork(s, key, s.rows[key].claimAttempt) || exists i :: IsItemFor(s, i, key)
  }

  /** No running dispatch claim is without somebody responsible for it. */
  ghost predicate NoOrphans(s: System) {
    forall key :: LiveDispatchClaim(s, key) ==> Responsible(s, key)
  }

  ghost predicate HandlesKey(s: System, h: nat, key: TaskKey) {
    h in s.dispatches && s.dispatches[h].req.key == key
  }

  ghost predicate ItemHasKey(s: System, i: int, key: TaskKey) {
    0 <= i < |s.items| && s.items[i].key == key
  }

  /** At most one handler or work item exists for the task, and a handler still holds the
      claim it made. */
  ghost predicate HandledOnceAt(s: System, key: TaskKey)
    requires key in s.rows
  {
    && (forall h, h' :: HandlesKey(s, h, key) && HandlesKey(s, h', key) ==> h == h')
    && (forall h, i :: HandlesKey(s, h, key) ==> !ItemHasKey(s, i, key))
    && (forall i, j :: ItemHasKey(s, i, key) && ItemHasKey(s, j, key) ==> i == j)
    && (forall h :: HandlesKey(s, h, key) ==> s.rows[key].claimAttempt == s.dispatches[h].claim)
    && (s.rows[key].status.Pending? ==>
          && s.rows[key].claimedBy == ""
          && (forall h :: !HandlesKey(s, h, key))
          && (forall i :: !ItemHasKey(s, i, key)))
  }

  /** That holds of every task that nobody reset behind its handler's back. */
  ghost predicate HandledOnce(s: System) {
    forall key :: key in s.rows && key !in s.disturbed ==> HandledOnceAt(s, key)
  }

  ghost predicate BaseInv(s: System) {
    LeasesTracked(s) && MessagesHonest(s) && CallsSound(s) && CompletionsFenced(s) && ClaimsCounted(s)
  }

  ghost predicate Inv(s: System) {
    BaseInv(s) && NoOrphans(s) && HandledOnce(s)
  }
}
