/** What sweeps, snoozes and closings do to timers, and when a chain's next retry is due. */
module TimerChains {
  import opened SnoozeTimers

  /** The wait before a re-arm: it doubles from one minute on and is an hour from the seventh. */
  function Wait(rearm: nat): int {
    match rearm
    case 0 => 1
    case 1 => 1
    case 2 => 2
    case 3 => 4
    case 4 => 8
    case 5 => 16
    case 6 => 32
    case _ => 60
  }

  lemma BackoffIsWait(rearm: nat)
    ensures Backoff(rearm) == Wait(rearm)
  {
    assert Pow2(3) == 8 && Pow2(6) == 64;
    if rearm >= 7 { Pow2Grows(6, rearm - 1); }
  }

  // ----- single steps -----

  /** A new snooze schedules one timer, for the time it says, and leaves the others alone. */
  lemma SnoozeSchedules(s: State, id: nat, chain: nat, incident: nat, fireAt: int)
    requires id !in s.timers && forall x :: x in s.timers ==> s.timers[x].chain != chain
    ensures var s' := Next(s, Snooze(id, chain, incident, fireAt));
      && s' == s.(timers := s'.timers) && s'.timers == s.timers[id := Timer(chain, incident, 0, fireAt, Pending, 0)]
  {
  }

  /** Closing an incident cancels its pending timers and no others, and so does a take-over. */
  lemma ClosingCancels(s: State, incident: nat, id: nat)
    requires id in s.timers
    ensures Next(s, Close(incident)).terminal == s.terminal + {incident}
    ensures Next(s, CancelFor(incident)).terminal == s.terminal
    ensures forall step :: step in {Close(incident), CancelFor(incident)} ==>
      id in Next(s, step).timers
      && Next(s, step).timers[id]
         == if s.timers[id].incident == incident && s.timers[id].status == Pending
            then s.timers[id].(status := Cancelled) else s.timers[id]
  {
  }

  /** A sweep that nobody disturbs calls the retry of a pending timer that is due and whose
      incident is open, once; a retry that is put off is scheduled again, after its wait, unless
      twelve re-arms are used up. */
  lemma SweepFires(s: State, w: nat, id: nat, swept: int, outcome: Outcome, newId: nat, clock: int)
    requires id in s.timers && s.timers[id].status == Pending && s.timers[id].fireAt <= swept
    requires s.timers[id].incident !in s.terminal && newId !in s.timers
    requires w in s.sweepers ==> s.sweepers[w] == Resting
    ensures var s', t := FireIn(s, w, id, swept, outcome, newId, clock), s.timers[id];
      && s'.calls == s.calls + [id] && s'.terminal == s.terminal && s'.sweepers == s.sweepers[w := Resting]
      && id in s'.timers && s'.timers[id] == t.(status := Fired)
      && (forall x :: x in s.timers && x != id ==> x in s'.timers && s'.timers[x] == s.timers[x])
      && (newId in s'.timers <==> outcome == Deferred && t.rearm < 12)
      && (newId in s'.timers ==>
            s'.timers[newId] == Timer(t.chain, t.incident, t.rearm + 1, clock + Wait(t.rearm + 1), Pending,
                                      t.waited + Wait(t.rearm + 1)))
  {
    BackoffIsWait(s.timers[id].rearm + 1);
    var looked := Next(s, Lookup(w, id, swept));
    assert looked == s.(sweepers := s.sweepers[w := Looked(id)]);
    var claimed := Next(looked, Claim(w));
    assert SweeperOf(claimed, w) == Handling(id) && claimed.timers == s.timers[id := s.timers[id].(status := Fired)];
  }

  /** A sweep calls nothing for a timer that is not due, is not pending or whose incident is
      closed; then it cancels what the incident still has pending. */
  lemma SweepSpares(s: State, w: nat, id: nat, swept: int, outcome: Outcome, newId: nat, clock: int)
    requires w in s.sweepers ==> s.sweepers[w] == Resting
    requires id !in s.timers || s.timers[id].status != Pending || swept < s.timers[id].fireAt
             || s.timers[id].incident in s.terminal
    ensures var s' := FireIn(s, w, id, swept, outcome, newId, clock);
      && s'.calls == s.calls
      && (id in s.timers && s.timers[id].fireAt <= swept && s.timers[id].incident in s.terminal ==>
            s'.timers == Next(s, CancelFor(s.timers[id].incident)).timers)
      && (id in s.timers && s.timers[id].incident !in s.terminal ==> s'.timers == s.timers)
  {
    var looked := Next(s, Lookup(w, id, swept));
    var claimed := Next(looked, Claim(w));
    assert !SweeperOf(claimed, w).Handling?;
  }

  /** A sweeper that loses its timer to another, or dies, is free again and calls nothing. */
  lemma LosersRest(s: State, w: nat, id: nat)
    requires w in s.sweepers && s.sweepers[w] == Looked(id)
    ensures Next(s, Die(w)) == s.(sweepers := s.sweepers[w := Resting])
    ensures id !in s.timers || s.timers[id].status != Pending ==>
      Next(s, Claim(w)) == s.(sweepers := s.sweepers[w := Resting])
  {
  }

  // ----- over histories -----

  /** Step j handled the timer before this one in the chain; its retry was put off, and this one
      is due after the wait. */
  ghost predicate RearmedAt(steps: seq<Step>, j: int, t: Timer) {
    && 0 <= j < |steps| && steps[j].Handle? && steps[j].outcome == Deferred
    && var s, w := After(steps[..j]), steps[j].w;
    && w in s.sweepers && s.sweepers[w].Handling? && s.sweepers[w].id in s.timers
    && var before := s.timers[s.sweepers[w].id];
    && t.chain == before.chain && t.incident == before.incident && t.rearm == before.rearm + 1
    && before.rearm < 12
    && t.fireAt == steps[j].clock + Wait(t.rearm) && t.waited == before.waited + Wait(t.rearm)
  }

  /** A step leaves a timer as it is, but for its status. */
  lemma TimersStay(s: State, step: Step, id: nat)
    requires id in s.timers
    ensures id in Next(s, step).timers
    ensures Next(s, step).timers[id] == s.timers[id].(status := Next(s, step).timers[id].status)
  {
  }

  lemma NewTimers(s: State, step: Step, id: nat)
    requires id !in s.timers && id in Next(s, step).timers
    ensures step.Snooze? || step.Handle?
    ensures step.Snooze? ==> step.id == id && Next(s, step).timers[id].rearm == 0
    ensures step.Handle? ==>
      && step.w in s.sweepers && s.sweepers[step.w].Handling? && s.sweepers[step.w].id in s.timers
      && step.outcome == Deferred && s.timers[s.sweepers[step.w].id].rearm < MAX_REARM
      && Next(s, step).timers[id] == Rearmed(s.timers[s.sweepers[step.w].id], step.clock)
  {
  }

  /** Every timer but the first of a chain was scheduled when the one before it was put off, for
      the time after its wait. */
  lemma {:induction false} EveryRearmIsScheduled(steps: seq<Step>, id: nat)
    requires id in After(steps).timers && After(steps).timers[id].rearm > 0
    ensures exists j :: RearmedAt(steps, j, After(steps).timers[id])
  {
    if steps != [] {
      var n, front := |steps| - 1, steps[..|steps| - 1];
      var t := After(steps).timers[id];
      if id in After(front).timers {
        TimersStay(After(front), steps[n], id);
        EveryRearmIsScheduled(front, id);
        var j :| RearmedAt(front, j, After(front).timers[id]);
        assert steps[..j] == front[..j] && steps[j] == front[j];
        assert RearmedAt(steps, j, t);
      } else {
        NewTimers(After(front), steps[n], id);
        BackoffIsWait(t.rearm);
        assert RearmedAt(steps, n, t);
      }
    }
  }

  lemma {:induction false} FireAtStays(steps: seq<Step>, i: nat, id: nat)
    requires i <= |steps| && id in After(steps[..i]).timers
    ensures id in After(steps).timers && After(steps).timers[id].fireAt == After(steps[..i]).timers[id].fireAt
  {
    if i < |steps| {
      var front := steps[..|steps| - 1];
      assert front[..i] == steps[..i];
      FireAtStays(front, i, id);
      TimersStay(After(front), steps[|steps| - 1], id);
    } else {
      assert steps[..i] == steps;
    }
  }

  /** No retry comes early: whoever handles a re-armed timer found it due, and it was due no
      sooner than its wait after the handling that put the retry off. */
  lemma NoRetryBeforeItsTime(steps: seq<Step>, w: nat, id: nat)
    requires SweeperOf(After(steps), w) == Handling(id) && id in After(steps).timers
    requires After(steps).timers[id].rearm > 0
    ensures exists i: nat, j ::
      && LookedUpOpen(steps, i, w, id) && RearmedAt(steps, j, After(steps).timers[id])
      && steps[j].clock + Wait(After(steps).timers[id].rearm) <= steps[i].clock
  {
    HandlersLookedUpOpen(steps, w);
    var i: nat :| LookedUpOpen(steps, i, w, id);
    EveryRearmIsScheduled(steps, id);
    var j :| RearmedAt(steps, j, After(steps).timers[id]);
    FireAtStays(steps, i, id);
  }
}
