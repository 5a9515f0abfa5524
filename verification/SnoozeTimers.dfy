/** Durable snooze timers: a timer that fires asks for a retry, and a retry that is deferred
    re-arms the chain with bounded backoff. Any number of sweepers run side by side and may
    die at any step. Time is in minutes. */
module SnoozeTimers {

  const BACKOFF_BASE := 1
  const BACKOFF_MAX := 60
  const MAX_REARM := 12

  // ----- backoff -----

  function Pow2(n: nat): nat {
    if n == 0 then 1 else 2 * Pow2(n - 1)
  }

  function Min(a: int, b: int): int {
    if a < b then a else b
  }

  /** The wait before the n-th re-arm, counted from one. */
  function Backoff(n: nat): int {
    Min(Pow2(if n == 0 then 0 else n - 1), BACKOFF_MAX)
  }

  function TotalBackoff(n: nat): int {
    if n == 0 then 0 else TotalBackoff(n - 1) + Backoff(n)
  }

  lemma {:induction false} Pow2Grows(a: nat, b: nat)
    requires a <= b
    ensures Pow2(a) <= Pow2(b)
  {
    if a < b { Pow2Grows(a, b - 1); }
  }

  method SnoozeRearmBackoff(rearm: nat) returns (d: int)
    ensures d == Backoff(rearm)
  {
    d := BACKOFF_BASE;
    var i := 1;
    while i < rearm && d < BACKOFF_MAX
      invariant 1 <= i && (i <= rearm || i == 1) && d == Pow2(i - 1)
    {
      d := d * 2;
      i := i + 1;
    }
    if i < rearm { Pow2Grows(i - 1, rearm - 1); }
    if d > BACKOFF_MAX {
      d := BACKOFF_MAX;
    }
  }

  lemma {:induction false} TotalGrows(a: nat, b: nat)
    requires a <= b
    ensures TotalBackoff(a) <= TotalBackoff(b)
  {
    if a < b { TotalGrows(a, b - 1); }
  }

  lemma TotalAtTheEnd()
    ensures TotalBackoff(MAX_REARM) == 423
  {
    assert Pow2(3) == 8 && Pow2(6) == 64;
    forall n | 7 <= n ensures Backoff(n) == 60 { Pow2Grows(6, n - 1); }
    assert TotalBackoff(3) == 7;
    assert TotalBackoff(6) == 63;
    assert TotalBackoff(9) == 243;
  }

  // ----- the system -----

  datatype Status = Pending | Fired | Cancelled

  /** `chain` names the snooze that a timer stems from, `waited` the backoff so far. */
  datatype Timer = Timer(chain: nat, incident: nat, rearm: nat, fireAt: int, status: Status, waited: int)

  /** A sweeper holds a timer after a lookup that saw its incident open, and after a claim
      that it won. */
  datatype Sweeper = Resting | Looked(id: nat) | Handling(id: nat)

  datatype State = State(timers: map<nat, Timer>, terminal: set<nat>, sweepers: map<nat, Sweeper>, calls: seq<nat>)

  datatype Outcome = Done | Deferred | Failed

  datatype Step =
    | Snooze(id: nat, chain: nat, incident: nat, fireAt: int)
    | Lookup(w: nat, id: nat, clock: int)
    | Claim(w: nat)
    | Handle(w: nat, outcome: Outcome, newId: nat, clock: int)
    | Die(w: nat)
    | Close(incident: nat)
    | CancelFor(incident: nat)

  function CancelAll(timers: map<nat, Timer>, incident: nat): map<nat, Timer> {
    map id | id in timers ::
      if timers[id].incident == incident && timers[id].status.Pending? then timers[id].(status := Cancelled)
      else timers[id]
  }

  function Rearmed(t: Timer, clock: int): Timer {
    Timer(t.chain, t.incident, t.rearm + 1, clock + Backoff(t.rearm + 1), Pending, t.waited + Backoff(t.rearm + 1))
  }

  function SweeperOf(s: State, w: nat): Sweeper {
    if w in s.sweepers then s.sweepers[w] else Resting
  }

  predicate FreshChain(s: State, chain: nat) {
    forall id :: id in s.timers ==> s.timers[id].chain != chain
  }

  function HandleIn(s: State, w: nat, id: nat, outcome: Outcome, newId: nat, clock: int): State
    requires id in s.timers
  {
    var t := s.timers[id];
    State(if outcome.Deferred? && t.rearm < MAX_REARM && newId !in s.timers
          then s.timers[newId := Rearmed(t, clock)] else s.timers,
          s.terminal, s.sweepers[w := Resting], s.calls + [id])
  }

  function Next(s: State, step: Step): State {
    match step
    case Snooze(id, chain, incident, fireAt) =>
      if id !in s.timers && FreshChain(s, chain)
      then s.(timers := s.timers[id := Timer(chain, incident, 0, fireAt, Pending, 0)]) else s
    case Lookup(w, id, clock) =>
      if !SweeperOf(s, w).Resting? || id !in s.timers || clock < s.timers[id].fireAt then s
      else if s.timers[id].incident in s.terminal then s.(timers := CancelAll(s.timers, s.timers[id].incident))
      else s.(sweepers := s.sweepers[w := Looked(id)])
    case Claim(w) =>
      if !SweeperOf(s, w).Looked? then s
      else
        var id := SweeperOf(s, w).id;
        if id in s.timers && s.timers[id].status.Pending?
        then s.(timers := s.timers[id := s.timers[id].(status := Fired)], sweepers := s.sweepers[w := Handling(id)])
        else s.(sweepers := s.sweepers[w := Resting])
    case Handle(w, outcome, newId, clock) =>
      if SweeperOf(s, w).Handling? && SweeperOf(s, w).id in s.timers
      then HandleIn(s, w, SweeperOf(s, w).id, outcome, newId, clock) else s
    case Die(w) => s.(sweepers := s.sweepers[w := Resting])
    case Close(incident) => s.(timers := CancelAll(s.timers, incident), terminal := s.terminal + {incident})
    case CancelFor(incident) => s.(timers := CancelAll(s.timers, incident))
  }

  const INIT := State(map[], {}, map[], [])

  function After(steps: seq<Step>): State {
    if steps == [] then INIT else Next(After(steps[..|steps| - 1]), steps[|steps| - 1])
  }

  // ----- the invariant -----

  /** The timer is pending, or a sweeper is handling it. */
  predicate Live(s: State, id: nat) {
    id in s.timers && (s.timers[id].status.Pending? || exists w :: w in s.sweepers && s.sweepers[w] == Handling(id))
  }

  ghost predicate TimersSound(s: State) {
    forall id :: id in s.timers ==>
      s.timers[id].rearm <= MAX_REARM && s.timers[id].waited == TotalBackoff(s.timers[id].rearm)
  }

  /** A live timer comes after all other timers of its chain, so it is the only live one. */
  ghost predicate LiveIsLast(s: State) {
    forall a, b :: Live(s, a) && b in s.timers && b != a && s.timers[a].chain == s.timers[b].chain ==>
      s.timers[b].rearm < s.timers[a].rearm
  }

  /** A sweeper handles a timer that it alone has fired and whose retry was not called. */
  ghost predicate HandlersSound(s: State) {
    && (forall w :: w in s.sweepers && s.sweepers[w].Handling? ==>
          s.sweepers[w].id in s.timers && s.timers[s.sweepers[w].id].status.Fired? && s.sweepers[w].id !in s.calls)
    && (forall v, w ::
          (v in s.sweepers && w in s.sweepers && s.sweepers[v].Handling? && s.sweepers[v] == s.sweepers[w]) ==> v == w)
  }

  /** Calls are for fired timers, and along a chain the re-arm count grows. */
  ghost predicate CallsSound(s: State) {
    && (forall i :: 0 <= i < |s.calls| ==> s.calls[i] in s.timers && s.timers[s.calls[i]].status.Fired?)
    && (forall i, j :: 0 <= i < j < |s.calls| && s.timers[s.calls[i]].chain == s.timers[s.calls[j]].chain ==>
          s.timers[s.calls[i]].rearm < s.timers[s.calls[j]].rearm)
  }

  ghost predicate Inv(s: State) {
    TimersSound(s) && LiveIsLast(s) && HandlersSound(s) && CallsSound(s)
  }

  lemma CancelKeeps(s: State, incident: nat)
    requires Inv(s)
    ensures Inv(s.(timers := CancelAll(s.timers, incident)))
  {
    var s' := s.(timers := CancelAll(s.timers, incident));
    forall id | Live(s', id) ensures Live(s, id) {}
  }

  lemma ClaimKeeps(s: State, w: nat)
    requires Inv(s) && SweeperOf(s, w).Looked? && SweeperOf(s, w).id in s.timers
    requires s.timers[SweeperOf(s, w).id].status.Pending?
    ensures Inv(Next(s, Claim(w)))
  {
    var s', id := Next(s, Claim(w)), SweeperOf(s, w).id;
    forall a | Live(s', a) ensures Live(s, a) {}
    assert Live(s, id);
  }

  lemma RestKeeps(s: State, w: nat)
    requires Inv(s)
    ensures Inv(s.(sweepers := s.sweepers[w := Resting]))
  {
    var s' := s.(sweepers := s.sweepers[w := Resting]);
    forall a | Live(s', a) ensures Live(s, a) {}
  }

  lemma LookKeeps(s: State, w: nat, id: nat)
    requires Inv(s) && SweeperOf(s, w).Resting?
    ensures Inv(s.(sweepers := s.sweepers[w := Looked(id)]))
  {
    var s' := s.(sweepers := s.sweepers[w := Looked(id)]);
    forall a | Live(s', a) ensures Live(s, a) {}
  }

  /** The retry of a timer under handling is called for the first time. */
  lemma CallKeeps(s: State, w: nat)
    requires Inv(s) && SweeperOf(s, w).Handling?
    ensures Inv(s.(calls := s.calls + [SweeperOf(s, w).id], sweepers := s.sweepers[w := Resting]))
  {
    var id := SweeperOf(s, w).id;
    var s' := s.(calls := s.calls + [id], sweepers := s.sweepers[w := Resting]);
    assert Live(s, id);
    forall a | Live(s', a) ensures Live(s, a) {}
  }

  /** After the call no timer of the chain is live, so one may be added at the end. */
  lemma RearmKeeps(s: State, id: nat, newId: nat, clock: int)
    requires Inv(s) && id in s.timers && newId !in s.timers && s.timers[id].rearm < MAX_REARM
    requires forall b :: b in s.timers && s.timers[b].chain == s.timers[id].chain ==>
      !Live(s, b) && s.timers[b].rearm <= s.timers[id].rearm
    ensures Inv(s.(timers := s.timers[newId := Rearmed(s.timers[id], clock)]))
  {
    var s' := s.(timers := s.timers[newId := Rearmed(s.timers[id], clock)]);
    assert TimersSound(s') && HandlersSound(s') && CallsSound(s');
    assert LiveIsLast(s') by {
      forall a | Live(s', a) && a != newId ensures Live(s, a) {}
    }
  }

  lemma HandleKeeps(s: State, w: nat, outcome: Outcome, newId: nat, clock: int)
    requires Inv(s) && SweeperOf(s, w).Handling?
    ensures Inv(Next(s, Handle(w, outcome, newId, clock)))
  {
    var id := SweeperOf(s, w).id;
    CallKeeps(s, w);
    var called := s.(calls := s.calls + [id], sweepers := s.sweepers[w := Resting]);
    if outcome.Deferred? && s.timers[id].rearm < MAX_REARM && newId !in s.timers {
      assert Live(s, id);
      forall b | b in s.timers && s.timers[b].chain == s.timers[id].chain
        ensures !Live(called, b) && s.timers[b].rearm <= s.timers[id].rearm
      {
        assert Live(called, b) ==> Live(s, b);
      }
      RearmKeeps(called, id, newId, clock);
    }
  }

  lemma SnoozeKeeps(s: State, id: nat, chain: nat, incident: nat, fireAt: int)
    requires Inv(s)
    ensures Inv(Next(s, Snooze(id, chain, incident, fireAt)))
  {
    var s' := Next(s, Snooze(id, chain, incident, fireAt));
    forall a | Live(s', a) && a != id ensures Live(s, a) {}
  }

  lemma StepKeepsInv(s: State, step: Step)
    requires Inv(s)
    ensures Inv(Next(s, step))
  {
    match step
    case Snooze(id, chain, incident, fireAt) => SnoozeKeeps(s, id, chain, incident, fireAt);
    case Lookup(w, id, clock) =>
      if SweeperOf(s, w).Resting? && id in s.timers && s.timers[id].fireAt <= clock {
        if s.timers[id].incident in s.terminal { CancelKeeps(s, s.timers[id].incident); } else { LookKeeps(s, w, id); }
      }
    case Claim(w) =>
      if SweeperOf(s, w).Looked? {
        if SweeperOf(s, w).id in s.timers && s.timers[SweeperOf(s, w).id].status.Pending? {
          ClaimKeeps(s, w);
        } else {
          RestKeeps(s, w);
        }
      }
    case Handle(w, outcome, newId, clock) =>
      if SweeperOf(s, w).Handling? { HandleKeeps(s, w, outcome, newId, clock); }
    case Die(w) => RestKeeps(s, w);
    case Close(incident) => CancelKeeps(s, incident);
    case CancelFor(incident) => CancelKeeps(s, incident);
  }

  lemma {:induction false} HistoryKeepsInv(steps: seq<Step>)
    ensures Inv(After(steps))
  {
    if steps != [] {
      HistoryKeepsInv(steps[..|steps| - 1]);
      StepKeepsInv(After(steps[..|steps| - 1]), steps[|steps| - 1]);
    }
  }

  // ----- whole histories -----

  /** How often the retry was called for a chain. */
  function CallsFor(s: State, calls: seq<nat>, chain: nat): nat {
    if calls == [] then 0
    else
      var id := calls[|calls| - 1];
      CallsFor(s, calls[..|calls| - 1], chain) + if id in s.timers && s.timers[id].chain == chain then 1 else 0
  }

  lemma {:induction false} CallsBelow(s: State, calls: seq<nat>, chain: nat, bound: nat)
    requires calls <= s.calls && CallsSound(s)
    requires forall i :: 0 <= i < |calls| && s.timers[calls[i]].chain == chain ==> s.timers[calls[i]].rearm < bound
    ensures CallsFor(s, calls, chain) <= bound
  {
    if calls != [] {
      var front, last := calls[..|calls| - 1], calls[|calls| - 1];
      assert last == s.calls[|calls| - 1] && forall i :: 0 <= i < |front| ==> front[i] == s.calls[i];
      CallsBelow(s, front, chain, if s.timers[last].chain == chain then s.timers[last].rearm else bound);
    }
  }

  /** A chain calls the retry at most 13 times. */
  lemma RetriesAreBounded(steps: seq<Step>, chain: nat)
    ensures CallsFor(After(steps), After(steps).calls, chain) <= MAX_REARM + 1 == 13
  {
    HistoryKeepsInv(steps);
    var s := After(steps);
    assert forall i :: 0 <= i < |s.calls| ==> s.timers[s.calls[i]].rearm <= MAX_REARM;
    CallsBelow(s, s.calls, chain, MAX_REARM + 1);
  }

  /** The backoff that a chain accumulates stays within 423 minutes. */
  lemma BackoffIsBounded(steps: seq<Step>, id: nat)
    requires id in After(steps).timers
    ensures After(steps).timers[id].waited == TotalBackoff(After(steps).timers[id].rearm) <= 423
  {
    HistoryKeepsInv(steps);
    TotalGrows(After(steps).timers[id].rearm, MAX_REARM);
    TotalAtTheEnd();
  }

  /** No timer is handled twice, although sweepers race and die. */
  lemma HandledAtMostOnce(steps: seq<Step>, i: nat, j: nat)
    requires i < j < |After(steps).calls|
    ensures After(steps).calls[i] != After(steps).calls[j]
  {
    HistoryKeepsInv(steps);
  }

  /** At most one timer of a chain is pending, and none while one is being handled. */
  lemma OneLiveTimer(steps: seq<Step>, a: nat, b: nat)
    requires Live(After(steps), a) && Live(After(steps), b)
    requires After(steps).timers[a].chain == After(steps).timers[b].chain
    ensures a == b
  {
    HistoryKeepsInv(steps);
  }

  /** The sweeper has been busy with the timer ever since the step. */
  ghost predicate BusySince(steps: seq<Step>, i: nat, w: nat, id: nat) {
    forall j :: i < j <= |steps| ==>
      !SweeperOf(After(steps[..j]), w).Resting? && SweeperOf(After(steps[..j]), w).id == id
  }

  /** The lookup of this very sweep found the timer due and saw its incident open. */
  ghost predicate LookedUpOpen(steps: seq<Step>, i: nat, w: nat, id: nat) {
    && i < |steps| && steps[i].Lookup? && steps[i].w == w && steps[i].id == id && BusySince(steps, i, w, id)
    && var s := After(steps[..i]); id in s.timers && s.timers[id].incident !in s.terminal
                                   && s.timers[id].fireAt <= steps[i].clock
  }

  lemma BusyLonger(steps: seq<Step>, i: nat, w: nat, id: nat)
    requires steps != [] && BusySince(steps[..|steps| - 1], i, w, id)
    requires !SweeperOf(After(steps), w).Resting? && SweeperOf(After(steps), w).id == id
    ensures BusySince(steps, i, w, id)
  {
    var front := steps[..|steps| - 1];
    forall j | i < j <= |steps|
      ensures !SweeperOf(After(steps[..j]), w).Resting? && SweeperOf(After(steps[..j]), w).id == id
    {
      if j < |steps| { assert steps[..j] == front[..j]; } else { assert steps[..j] == steps; }
    }
  }

  /** A retry is only ever called by a sweeper whose lookup, in this sweep, found the timer due
      and saw the incident open. */
  lemma {:induction false} HandlersLookedUpOpen(steps: seq<Step>, w: nat)
    requires !SweeperOf(After(steps), w).Resting?
    ensures exists i: nat :: LookedUpOpen(steps, i, w, SweeperOf(After(steps), w).id)
  {
    if steps != [] {
      var n, id := |steps| - 1, SweeperOf(After(steps), w).id;
      var front := steps[..n];
      if SweeperOf(After(front), w).Resting? {
        assert steps[n].Lookup? && steps[n].w == w && steps[n].id == id;
        assert steps[..n + 1] == steps;
        assert LookedUpOpen(steps, n, w, id);
      } else {
        HandlersLookedUpOpen(front, w);
        var i: nat :| LookedUpOpen(front, i, w, SweeperOf(After(front), w).id);
        assert steps[..i] == front[..i] && steps[i] == front[i];
        BusyLonger(steps, i, w, id);
        assert LookedUpOpen(steps, i, w, id);
      }
    }
  }

  // ----- one sweep -----

  /** Look up, claim and handle one timer, with nothing in between. */
  function FireIn(s: State, w: nat, id: nat, swept: int, outcome: Outcome, newId: nat, clock: int): State {
    Next(Next(Next(s, Lookup(w, id, swept)), Claim(w)), Handle(w, outcome, newId, clock))
  }

  class TimerSupervisor {
    var timers: map<nat, Timer>
    var terminal: set<nat>
    var calls: seq<nat>

    constructor ()
      ensures timers == map[] && terminal == {} && calls == []
    {
      timers, terminal, calls := map[], {}, [];
    }

    ghost function At(): State
      reads this
    {
      State(timers, terminal, map[0 := Resting], calls)
    }

    method ClaimTimer(id: nat) returns (claimed: bool)
      modifies `timers
      ensures claimed <==> id in old(timers) && old(timers)[id].status.Pending?
      ensures timers == if claimed then old(timers)[id := old(timers)[id].(status := Fired)] else old(timers)
    {
      claimed := id in timers && timers[id].status.Pending?;
      if claimed {
        timers := timers[id := timers[id].(status := Fired)];
      }
    }

    method RearmSnooze(id: nat, newId: nat, clock: int)
      requires id in timers && newId !in timers
      modifies `timers
      ensures timers == if old(timers)[id].rearm >= MAX_REARM then old(timers)
                        else old(timers)[newId := Rearmed(old(timers)[id], clock)]
    {
      var t := timers[id];
      if t.rearm >= MAX_REARM {
        return;
      }
      var backoff := SnoozeRearmBackoff(t.rearm + 1);
      timers := timers[newId := Timer(t.chain, t.incident, t.rearm + 1, clock + backoff, Pending, t.waited + backoff)];
    }

    /** Sweeps fire timers that are due. `outcome` is what the retry answers when it is called. */
    method Fire(id: nat, ghost swept: int, outcome: Outcome, newId: nat, clock: int)
      requires id in timers && newId !in timers && timers[id].fireAt <= swept
      modifies `timers, `calls
      ensures At() == FireIn(old(At()), 0, id, swept, outcome, newId, clock)
    {
      var incident := timers[id].incident;
      if incident in terminal {
        timers := CancelAll(timers, incident);
        return;
      }
      var claimed := ClaimTimer(id);
      if !claimed {
        return;
      }
      calls := calls + [id];
      if outcome.Deferred? {
        RearmSnooze(id, newId, clock);
      }
    }
  }
}
