/** The two endpoint handlers as the sequential programs they are. Each is proved to take
    exactly the steps that the transition system allows, so that a call which nobody
    interrupts ends in the state those steps lead to. */
module DispatchHandler {
  import opened Options
  import opened TaskRuns
  import opened DispatchProtocol

  const ACCEPTED := 202
  const OK := 200
  const CONFLICT := 409
  const UNAVAILABLE := 503

  /** The tables behind the handlers. */
  class RunStore {
    var rows: map<TaskKey, TaskRow>
    var leases: map<nat, Lease>

    constructor (rows: map<TaskKey, TaskRow>, leases: map<nat, Lease>)
      ensures this.rows == rows && this.leases == leases
    {
      this.rows := rows;
      this.leases := leases;
    }

    method ClaimTaskForDispatch(key: TaskKey, worker: string, generation: int, clock: int,
                                expires: int, trustReadiness: bool)
      returns (claimed: bool)
      modifies this`rows
      ensures claimed <==>
                && key in old(rows)
                && var row := old(rows)[key];
                && row.status == Pending && row.claimedBy == "" && (trustReadiness || row.outstanding == 0)
                && (row.retryAfter == None || row.retryAfter.value <= clock) && row.generation <= generation
      ensures !claimed ==> rows == old(rows)
      ensures claimed ==>
                var row := old(rows)[key];
                rows == old(rows)[key := TaskRow(Running, worker, row.claimAttempt + 1, generation, row.outstanding,
                                                 Some(expires), None)]
    {
      claimed := key in rows && Claimable(rows[key], generation, clock, trustReadiness);
      if claimed {
        rows := rows[key := Claim(rows[key], worker, generation, expires)];
      }
    }

    /** `readable` is false when the database refuses the read. */
    method LoadDispatchedTaskRun(key: TaskKey, worker: string, readable: bool)
      returns (found: Option<TaskRow>)
      ensures found.Some? <==> readable && key in rows && rows[key].status == Running && rows[key].claimedBy == worker
      ensures found.Some? ==> found.value == rows[key]
    {
      found := None;
      if readable && key in rows && rows[key].claimedBy == worker && rows[key].status == Running {
        found := Some(rows[key]);
      }
    }

    method ReleaseTaskClaim(key: TaskKey, worker: string, generation: int)
      modifies this`rows
      ensures rows == if key in old(rows) then old(rows)[key := Release(old(rows)[key], worker, generation)]
                      else old(rows)
      ensures rows != old(rows) ==>
                && key in old(rows) && old(rows)[key].status == Running && old(rows)[key].claimedBy == worker
                && old(rows)[key].generation in {0, generation}
    {
      if key in rows {
        rows := rows[key := Release(rows[key], worker, generation)];
      }
    }

    /** The three completion writes share their filter on the claimant. */
    method ApplyClaimed(key: TaskKey, worker: string, report: Report, result: string)
      returns (matched: bool)
      requires ValidReport(report)
      modifies this`rows
      ensures matched <==> key in old(rows) && old(rows)[key].claimedBy == worker
      ensures rows == if key in old(rows)
                      then old(rows)[key := AfterApply(old(rows)[key], worker, report, result)]
                      else old(rows)
      ensures matched && old(rows)[key].status == Running ==>
                && key in rows && rows[key] == old(rows)[key].(status := rows[key].status)
                && Means(report, result, rows[key].status)
    {
      matched := key in rows && rows[key].claimedBy == worker;
      if matched {
        var row := rows[key];
        if report == ReportFailed {
          rows := rows[key := row.(status := Failed)];
        } else if !IsTerminal(row.status) {
          var status := if report == ReportCached then Cached else StatusFromResult(result);
          rows := rows[key := row.(status := status)];
        }
      }
    }
  }

  // ----- an undisturbed dispatch call -----

  /** Steps that nobody interrupts. */
  ghost function RunFrom(s: System, steps: seq<Step>): System
    decreases |steps|
  {
    if steps == [] then s else RunFrom(Next(s, steps[0]), steps[1..])
  }

  /** The steps of one dispatch call of handler 0. */
  function DispatchSteps(node: string, hasWorker: bool, trust: bool, req: DispatchReq,
                         clock: int, expires: int, readable: bool, accepts: bool): seq<Step> {
    [BeginDispatch(0, node, hasWorker, req, clock, expires, trust), LoadTask(0, readable), Submit(0, accepts),
     RollBack(0)]
  }

  /** The handler is in the middle of the call. */
  ghost predicate InCall(s: System, c: DispatchCall) {
    s.dispatches == map[0 := c] && c.req.key in s.rows
  }

  /** The call is over; it has queued the row, or has given the claim back. */
  ghost predicate CallOver(s: System, c: DispatchCall, queued: bool, s': System)
    requires c.req.key in s.rows
  {
    && s'.dispatches == map[]
    && if queued
       then && s'.rows == s.rows
            && s'.items == s.items + [WorkItem(c.req.key, s.rows[c.req.key], c.req.generation, c.req.attempt, c.node)]
       else && s'.rows == s.rows[c.req.key := Release(s.rows[c.req.key], c.node, c.req.generation)]
            && s'.items == s.items
  }

  lemma RollBackEnds(s: System, c: DispatchCall)
    requires InCall(s, c) && c.phase.RollingBack?
    ensures CallOver(s, c, false, RunFrom(s, [RollBack(0)]))
  {
    assert RunFrom(s, [RollBack(0)]) == Next(s, RollBack(0));
  }

  lemma SubmitEnds(s: System, c: DispatchCall, accepts: bool)
    requires InCall(s, c) && (c.phase.RollingBack? || c.phase == Loaded(s.rows[c.req.key]))
    ensures CallOver(s, c, accepts && !c.phase.RollingBack?, RunFrom(s, [Submit(0, accepts), RollBack(0)]))
  {
    var s', rest := Next(s, Submit(0, accepts)), [RollBack(0)];
    assert [Submit(0, accepts), RollBack(0)][1..] == rest;
    if c.phase.RollingBack? || !accepts {
      RollBackEnds(s', c.(phase := RollingBack));
    } else {
      assert RunFrom(s', rest) == Next(s', RollBack(0)) == s';
    }
  }

  lemma LoadEnds(s: System, c: DispatchCall, readable: bool, accepts: bool)
    requires InCall(s, c) && c.phase.Claimed? && Loadable(s.rows[c.req.key], c.node)
    ensures CallOver(s, c, readable && accepts, RunFrom(s, [LoadTask(0, readable), Submit(0, accepts), RollBack(0)]))
  {
    var s', rest := Next(s, LoadTask(0, readable)), [Submit(0, accepts), RollBack(0)];
    assert [LoadTask(0, readable), Submit(0, accepts), RollBack(0)][1..] == rest;
    SubmitEnds(s', c.(phase := if readable then Loaded(s.rows[c.req.key]) else RollingBack), accepts);
  }

  lemma IdleEnds(s: System, readable: bool, accepts: bool)
    requires s.dispatches == map[]
    ensures RunFrom(s, [LoadTask(0, readable), Submit(0, accepts), RollBack(0)]) == s
  {
    assert [LoadTask(0, readable), Submit(0, accepts), RollBack(0)][1..] == [Submit(0, accepts), RollBack(0)];
    assert [Submit(0, accepts), RollBack(0)][1..] == [RollBack(0)];
    assert RunFrom(s, [RollBack(0)]) == Next(s, RollBack(0)) == s;
  }

  /** The node may claim the task of the envelope. */
  predicate MayClaim(s: System, node: string, hasWorker: bool, trust: bool, req: DispatchReq, clock: int) {
    req.worker == node && hasWorker && req.key in s.rows && Claimable(s.rows[req.key], req.generation, clock, trust)
  }

  /** Then the call claims the row and queues it, or gives the claim back. */
  lemma CallEnds(s: System, node: string, hasWorker: bool, trust: bool, req: DispatchReq,
                 clock: int, expires: int, readable: bool, accepts: bool)
    requires s.dispatches == map[] && req in s.dispatchNet && MayClaim(s, node, hasWorker, trust, req, clock)
    ensures var row := Claim(s.rows[req.key], node, req.generation, expires);
      CallOver(s.(rows := s.rows[req.key := row]), DispatchCall(node, req, row.claimAttempt, Claimed),
               readable && accepts,
               RunFrom(s, DispatchSteps(node, hasWorker, trust, req, clock, expires, readable, accepts)))
  {
    var steps := DispatchSteps(node, hasWorker, trust, req, clock, expires, readable, accepts);
    assert steps[1..] == [LoadTask(0, readable), Submit(0, accepts), RollBack(0)];
    var row := Claim(s.rows[req.key], node, req.generation, expires);
    LoadEnds(Next(s, steps[0]), DispatchCall(node, req, row.claimAttempt, Claimed), readable, accepts);
  }

  /** Otherwise nothing happens. */
  lemma IdleCallEnds(s: System, node: string, hasWorker: bool, trust: bool, req: DispatchReq,
                     clock: int, expires: int, readable: bool, accepts: bool)
    requires s.dispatches == map[] && !MayClaim(s, node, hasWorker, trust, req, clock)
    ensures RunFrom(s, DispatchSteps(node, hasWorker, trust, req, clock, expires, readable, accepts)) == s
  {
    var steps := DispatchSteps(node, hasWorker, trust, req, clock, expires, readable, accepts);
    assert steps[1..] == [LoadTask(0, readable), Submit(0, accepts), RollBack(0)];
    IdleEnds(s, readable, accepts);
  }

  // ----- an undisturbed completion call -----

  /** The steps of one completion call of handler 0. */
  function CompleteSteps(node: string, clock: int, req: CompleteReq, contended: bool): seq<Step> {
    [CheckComplete(0, node, clock, req), if contended then DropComplete(0) else ApplyComplete(0)]
  }

  lemma CompletionEnds(s: System, node: string, clock: int, req: CompleteReq, contended: bool)
    ensures var checked := DoCheck(s, 0, node, clock, req);
      RunFrom(s, CompleteSteps(node, clock, req, contended)).rows
      == if contended then checked.rows else DoApply(checked, 0).rows
  {
    var steps := CompleteSteps(node, clock, req, contended);
    assert RunFrom(Next(s, steps[0]), steps[1..]) == Next(Next(s, steps[0]), steps[1]);
  }

  class Handler {
    const nodeId: string
    const store: RunStore
    const hasWorker: bool
    const trust: bool            // the owner decides in memory which tasks are ready
    const capacity: nat
    var inbound: seq<WorkItem>   // the local worker's bounded inbound buffer

    constructor (nodeId: string, store: RunStore, hasWorker: bool, trust: bool, capacity: nat)
      ensures this.nodeId == nodeId && this.store == store && this.hasWorker == hasWorker && this.trust == trust
      ensures this.capacity == capacity && inbound == []
    {
      this.nodeId := nodeId;
      this.store := store;
      this.hasWorker := hasWorker;
      this.trust := trust;
      this.capacity := capacity;
      inbound := [];
    }

    /** The protocol state that this handler sees, with the given messages in flight. */
    ghost function View(ds: set<DispatchReq>, cs: set<CompleteReq>): System
      reads this, store
    {
      System(store.leases, map[], store.rows, ds, cs, map[], map[], inbound, {}, {}, {})
    }

    method SubmitDispatched(item: WorkItem) returns (accepted: bool)
      modifies this`inbound
      ensures accepted <==> |old(inbound)| < capacity
      ensures inbound == if accepted then old(inbound) + [item] else old(inbound)
    {
      accepted := |inbound| < capacity;
      if accepted {
        inbound := inbound + [item];
      }
    }

    /** What follows a claim: the row is read and queued, or else the claim is given back. */
    method QueueClaimed(req: DispatchReq, readable: bool) returns (queued: bool)
      requires req.key in store.rows && Loadable(store.rows[req.key], nodeId)
      modifies this`inbound, store`rows
      ensures queued <==> readable && |old(inbound)| < capacity
      ensures queued ==>
                && store.rows == old(store.rows)
                && inbound
                  == old(inbound) + [WorkItem(req.key, store.rows[req.key], req.generation, req.attempt, nodeId)]
      ensures !queued ==>
                && inbound == old(inbound)
                && store.rows == old(store.rows)[req.key := Release(old(store.rows)[req.key], nodeId, req.generation)]
    {
      queued := false;
      var found := store.LoadDispatchedTaskRun(req.key, nodeId, readable);
      if found.Some? {
        queued := SubmitDispatched(WorkItem(req.key, found.value, req.generation, req.attempt, nodeId));
      }
      if !queued {
        store.ReleaseTaskClaim(req.key, nodeId, req.generation);
      }
    }

    /** Accepts exactly the dispatches it can claim and queue: then the claim and the one
        queued item belong together. Otherwise nothing is queued and no claim is left. */
    method HandleDispatch(req: DispatchReq, clock: int, expires: int, readable: bool) returns (code: int)
      modifies this`inbound, store`rows
      ensures code == ACCEPTED <==>
                && req.worker == nodeId && hasWorker && readable && |old(inbound)| < capacity
                && req.key in old(store.rows)
                && var row := old(store.rows)[req.key];
                && row.status == Pending && row.claimedBy == "" && (trust || row.outstanding == 0)
                && (row.retryAfter == None || row.retryAfter.value <= clock) && row.generation <= req.generation
      ensures code != ACCEPTED ==>
                && code == CONFLICT && inbound == old(inbound) && store.rows.Keys == old(store.rows).Keys
                && (forall k :: k in store.rows && k != req.key ==> store.rows[k] == old(store.rows)[k])
                && (req.key in store.rows && store.rows[req.key] != old(store.rows)[req.key] ==>
                      store.rows[req.key].status.Pending? && store.rows[req.key].claimedBy == "")
      ensures code == ACCEPTED ==>
                && req.key in store.rows
                && inbound
                  == old(inbound) + [WorkItem(req.key, store.rows[req.key], req.generation, req.attempt, nodeId)]
                && Loadable(store.rows[req.key], nodeId)
      ensures var s := RunFrom(old(View({req}, {})), DispatchSteps(nodeId, hasWorker, trust, req, clock, expires,
                                                                   readable, |old(inbound)| < capacity));
              store.rows == s.rows && inbound == s.items && s.dispatches == map[]
    {
      if MayClaim(View({req}, {}), nodeId, hasWorker, trust, req, clock) {
        CallEnds(View({req}, {}), nodeId, hasWorker, trust, req, clock, expires, readable, |inbound| < capacity);
      } else {
        IdleCallEnds(View({req}, {}), nodeId, hasWorker, trust, req, clock, expires, readable, |inbound| < capacity);
      }
      if req.worker != nodeId || !hasWorker {
        return CONFLICT;
      }
      var claimed := store.ClaimTaskForDispatch(req.key, nodeId, req.generation, clock, expires, trust);
      if !claimed {
        return CONFLICT;
      }
      var queued := QueueClaimed(req, readable);
      return if queued then ACCEPTED else CONFLICT;
    }

    /** The report is known, and this node holds the run's lease, unexpired and of the envelope's
        generation. */
    ghost predicate Fenced(req: CompleteReq, clock: int)
      reads store`leases
    {
      && req.report in {ReportSucceeded, ReportFailed, ReportCached} && req.key.run in store.leases
      && var lease := store.leases[req.key.run];
         lease.owner == nodeId && clock <= lease.expires && lease.generation == req.generation
    }

    /** Answers 200 exactly when the fences pass, the write is not contended and the row
        names the worker; every other answer leaves the table as it was. */
    method HandleComplete(req: CompleteReq, clock: int, contended: bool) returns (code: int)
      modifies store`rows
      ensures code == OK <==>
                && Fenced(req, clock) && !contended
                && req.key in old(store.rows) && old(store.rows)[req.key].claimedBy == req.worker
      ensures code == UNAVAILABLE <==> Fenced(req, clock) && contended
      ensures code != OK ==> store.rows == old(store.rows)
      ensures code == OK && old(store.rows)[req.key].status == Running ==>
                && req.key in store.rows && Means(req.report, req.result, store.rows[req.key].status)
                && store.rows == old(store.rows)[req.key := old(store.rows)[req.key].(
                                                   status := store.rows[req.key].status)]
      ensures store.rows == RunFrom(old(View({}, {req})), CompleteSteps(nodeId, clock, req, contended)).rows
    {
      CompletionEnds(View({}, {req}), nodeId, clock, req, contended);
      if !ValidReport(req.report) {
        return CONFLICT;
      }
      if req.key.run !in store.leases {
        return CONFLICT;
      }
      var lease := store.leases[req.key.run];
      if lease.owner != nodeId || lease.expires < clock {
        return CONFLICT;
      }
      if lease.generation != req.generation {
        return CONFLICT;
      }
      if contended {
        return UNAVAILABLE;
      }
      var matched := store.ApplyClaimed(req.key, req.worker, req.report, req.result);
      if !matched {
        return CONFLICT;
      }
      return OK;
    }
  }
}
