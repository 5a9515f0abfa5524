/** Concurrent advances of one dataset. A transaction reads the row without a lock and
    decides; a drop ends there. Otherwise it inserts the row if there is none, or, holding
    the write lock that the insert took, reads the row again and decides afresh. */
module WatermarkStore {
  import opened Options
  import opened Watermark

  /** A call that decided to write on an unlocked read and has not reached its insert yet. */
  datatype Pending = Pending(o: Observation, saw: Option<Row>, outcome: Outcome, insert: Row)

  /** A finished call, in the order in which the calls took effect. */
  datatype Entry = Entry(call: nat, o: Observation, outcome: Outcome)

  datatype Store = Store(row: Option<Row>, calls: map<nat, Pending>, log: seq<Entry>)

  datatype Step =
    | Read(call: nat, o: Observation)
    | Write(call: nat)
    | Fail(call: nat)      // the store is busy: the attempt is undone, the call may read again
    | Upsert               // the evaluator creates the row for its status columns

  predicate Finished(log: seq<Entry>, call: nat) {
    exists i :: 0 <= i < |log| && log[i].call == call
  }

  function DoRead(parse: Parser, s: Store, call: nat, o: Observation): Store {
    if call in s.calls || Finished(s.log, call) then s else
    var base := s.row.GetOr(EMPTY);
    var outcome := Decide(parse, base, o);
    if Accepted(outcome)
    then s.(calls := s.calls[call := Pending(o, s.row, outcome, Written(base, o, outcome))])
    else s.(log := s.log + [Entry(call, o, outcome)])
  }

  function DoWrite(parse: Parser, s: Store, call: nat): Store {
    if call !in s.calls then s else
    var p := s.calls[call];
    match s.row
    case None =>
      Store(Some(p.insert), s.calls - {call}, s.log + [Entry(call, p.o, p.outcome)])
    case Some(current) =>
      var outcome := Decide(parse, current, p.o);
      Store(Some(Written(current, p.o, outcome)), s.calls - {call}, s.log + [Entry(call, p.o, outcome)])
  }

  function Next(parse: Parser, s: Store, step: Step): Store {
    match step
    case Read(call, o) => DoRead(parse, s, call, o)
    case Write(call) => DoWrite(parse, s, call)
    case Fail(call) => s.(calls := s.calls - {call})
    case Upsert => if s.row.None? then s.(row := Some(EMPTY)) else s
  }

  ghost predicate IsRun(parse: Parser, ss: seq<Store>, steps: seq<Step>) {
    && |ss| == |steps| + 1
    && ss[0] == Store(None, map[], [])
    && forall i :: 0 <= i < |steps| ==> ss[i + 1] == Next(parse, ss[i], steps[i])
  }

  function Observed(log: seq<Entry>): seq<Observation> {
    seq(|log|, i requires 0 <= i < |log| => log[i].o)
  }

  /** The log, read as a sequential history of the contract, explains the row and every answer. */
  ghost predicate Explained(parse: Parser, s: Store) {
    && s.row.GetOr(EMPTY) == Replay(parse, Observed(s.log))
    && forall i :: 0 <= i < |s.log| ==> s.log[i].outcome == OutcomeAt(parse, Observed(s.log), i)
  }

  ghost predicate Inv(parse: Parser, s: Store) {
    && Explained(parse, s)
    && forall c :: c in s.calls && s.row.None? ==>
         && s.calls[c].outcome == Decide(parse, EMPTY, s.calls[c].o)
         && s.calls[c].insert == Contract(parse, EMPTY, s.calls[c].o)
  }

  /** A call that nobody disturbs takes effect by itself: it is answered and logged once, and the
      row is written if the observation is accepted. */
  lemma CallAlone(parse: Parser, s: Store, call: nat, o: Observation)
    requires call !in s.calls && forall i :: 0 <= i < |s.log| ==> s.log[i].call != call
    ensures var s', base := Next(parse, Next(parse, s, Read(call, o)), Write(call)), s.row.GetOr(EMPTY);
      var outcome := Decide(parse, base, o);
      && s'.log == s.log + [Entry(call, o, outcome)] && s'.calls == s.calls
      && s'.row == if outcome in {Advanced, Verified} then Some(Contract(parse, base, o)) else s.row
  {
    var read := Next(parse, s, Read(call, o));
    assert read.calls - {call} == s.calls;
  }

  /** A busy attempt leaves nothing but the call that may read again; the evaluator's own write
      creates an empty row and touches no other. */
  lemma AttemptsEnd(parse: Parser, s: Store, call: nat)
    ensures Next(parse, s, Fail(call)) == Store(s.row, s.calls - {call}, s.log)
    ensures Next(parse, s, Upsert) == Store(Some(s.row.GetOr(EMPTY)), s.calls, s.log)
  {
  }

  lemma LogOneMore(parse: Parser, s: Store, s': Store, e: Entry)
    requires Explained(parse, s) && s'.log == s.log + [e]
    requires e.outcome == Decide(parse, s.row.GetOr(EMPTY), e.o)
    requires s'.row.GetOr(EMPTY) == Contract(parse, s.row.GetOr(EMPTY), e.o)
    ensures Explained(parse, s')
  {
    var os, os' := Observed(s.log), Observed(s'.log);
    assert os' == os + [e.o];
    ReplayAppend(parse, os, e.o);
    forall i | 0 <= i < |s'.log| ensures s'.log[i].outcome == OutcomeAt(parse, os', i) {
      if i < |s.log| {
        assert s.log[i].outcome == OutcomeAt(parse, os, i) && os'[..i] == os[..i];
      } else {
        assert os'[..i] == os;
      }
    }
  }

  lemma StepKeepsInv(parse: Parser, s: Store, step: Step)
    requires Inv(parse, s)
    ensures Inv(parse, Next(parse, s, step))
  {
    var s' := Next(parse, s, step);
    match step {
      case Read(call, o) =>
        if call !in s.calls && !Finished(s.log, call) && !Accepted(Decide(parse, s.row.GetOr(EMPTY), o)) {
          LogOneMore(parse, s, s', s'.log[|s.log|]);
        }
      case Write(call) =>
        if call in s.calls {
          LogOneMore(parse, s, s', s'.log[|s.log|]);
        }
      case Fail(_) =>
      case Upsert =>
    }
  }

  /** Every interleaving has a sequential explanation: the row is what the contract makes of
      the finished calls one after the other, in the order in which they took effect, and
      every call got the answer it would have got there. */
  lemma {:induction false} AdvancesAreLinearizable(parse: Parser, ss: seq<Store>, steps: seq<Step>, n: nat)
    requires IsRun(parse, ss, steps) && n < |ss|
    ensures Inv(parse, ss[n])
    ensures ss[n].row.GetOr(EMPTY) == Replay(parse, Observed(ss[n].log))
    ensures forall i :: 0 <= i < |ss[n].log| ==>
              ss[n].log[i].outcome == OutcomeAt(parse, Observed(ss[n].log), i)
  {
    if n == 0 {
      assert Observed([]) == [];
    } else {
      AdvancesAreLinearizable(parse, ss, steps, n - 1);
      assert ss[n - 1 + 1] == Next(parse, ss[n - 1], steps[n - 1]);
      StepKeepsInv(parse, ss[n - 1], steps[n - 1]);
    }
  }

  /** The step of a call that takes effect: the log grows by the call's entry. */
  ghost predicate TakesEffect(s: Store, step: Step, s': Store, e: Entry) {
    (step.Read? || step.Write?) && step.call == e.call && e.call !in s'.calls && s'.log == s.log + [e]
  }

  lemma StepLogsItsOwnCall(parse: Parser, s: Store, step: Step)
    ensures var s' := Next(parse, s, step);
            s'.log == s.log || exists e :: TakesEffect(s, step, s', e)
  {
    var s' := Next(parse, s, step);
    if s'.log != s.log {
      assert TakesEffect(s, step, s', s'.log[|s.log|]);
    }
  }

  /** A logged call was answered: it is not under way, and it is logged once. */
  ghost predicate LoggedOnce(s: Store) {
    && (forall c :: c in s.calls ==> !Finished(s.log, c))
    && (forall i, j :: 0 <= i < j < |s.log| ==> s.log[i].call != s.log[j].call)
  }

  lemma LoggedOneMore(log: seq<Entry>, e: Entry, c: nat)
    ensures Finished(log + [e], c) <==> Finished(log, c) || c == e.call
  {
    var log' := log + [e];
    assert log'[|log|] == e && forall i :: 0 <= i < |log| ==> log'[i] == log[i];
  }

  lemma StepKeepsLoggedOnce(parse: Parser, s: Store, step: Step)
    requires LoggedOnce(s)
    ensures LoggedOnce(Next(parse, s, step))
  {
    var s' := Next(parse, s, step);
    if s'.log != s.log {
      var e := s'.log[|s.log|];
      assert s'.log == s.log + [e] && !Finished(s.log, e.call);
      forall c { LoggedOneMore(s.log, e, c); }
    }
  }

  lemma {:induction false} RunLogsOnce(parse: Parser, ss: seq<Store>, steps: seq<Step>, n: nat)
    requires IsRun(parse, ss, steps) && n < |ss|
    ensures LoggedOnce(ss[n])
  {
    if n > 0 {
      RunLogsOnce(parse, ss, steps, n - 1);
      assert ss[n - 1 + 1] == Next(parse, ss[n - 1], steps[n - 1]);
      StepKeepsLoggedOnce(parse, ss[n - 1], steps[n - 1]);
    }
  }

  /** The entry in place `i` was written by step `m`, on top of the entries before it. */
  ghost predicate LoggedBy(ss: seq<Store>, steps: seq<Step>, n: nat, i: nat, m: nat)
    requires n < |ss| == |steps| + 1 && i < |ss[n].log|
  {
    m < n && TakesEffect(ss[m], steps[m], ss[m + 1], ss[n].log[i]) && ss[m].log == ss[n].log[..i]
  }

  lemma {:induction false} EntryWasLogged(parse: Parser, ss: seq<Store>, steps: seq<Step>, n: nat, i: nat)
    returns (m: nat)
    requires IsRun(parse, ss, steps) && n < |ss| && i < |ss[n].log|
    ensures LoggedBy(ss, steps, n, i, m)
  {
    assert n > 0;
    var s, s' := ss[n - 1], ss[n - 1 + 1];
    StepLogsItsOwnCall(parse, s, steps[n - 1]);
    if i < |s.log| {
      m := EntryWasLogged(parse, ss, steps, n - 1, i);
      assert s'.log[..i] == s.log[..i];
    } else {
      m := n - 1;
      assert s'.log[..i] == s.log;
    }
  }

  /** Every entry of the log was written by one step of its own call, after the entries
      before it, and no other entry is of that call: a call takes effect once, between its
      start and its answer. */
  lemma CallTakesEffectOnce(parse: Parser, ss: seq<Store>, steps: seq<Step>, n: nat, i: nat)
    requires IsRun(parse, ss, steps) && n < |ss| && i < |ss[n].log|
    ensures exists m: nat :: LoggedBy(ss, steps, n, i, m)
    ensures forall j :: 0 <= j < |ss[n].log| && j != i ==> ss[n].log[j].call != ss[n].log[i].call
  {
    var m := EntryWasLogged(parse, ss, steps, n, i);
    RunLogsOnce(parse, ss, steps, n);
  }

  /** Concurrent integer advances: whatever the interleaving, the stored value is the maximum
      over all finished non-backfill observations. */
  lemma ConcurrentIntegersKeepMaximum(parse: Parser, ss: seq<Store>, steps: seq<Step>, n: nat)
    requires IsRun(parse, ss, steps) && n < |ss|
    requires forall e :: e in ss[n].log && Counts(e.o) ==> parse(e.o.watermark).int64.Some?
    ensures HoldsMaximum(Observed(ss[n].log), w => IntValue(parse, w), ss[n].row.GetOr(EMPTY))
  {
    AdvancesAreLinearizable(parse, ss, steps, n);
    forall i | 0 <= i < |Observed(ss[n].log)| && Counts(Observed(ss[n].log)[i])
      ensures parse(Observed(ss[n].log)[i].watermark).int64.Some?
    {
      assert ss[n].log[i] in ss[n].log;
    }
    IntegerStreamKeepsMaximum(parse, Observed(ss[n].log));
  }

  // ----- the same code as a program -----

  /** The row as the contract sees it, through a pointer. */
  class DatasetState {
    var watermark: string
    var runAt: Option<int>
    var advancedAt: Option<int>
    var verifiedAt: Option<int>
    var lastRun: Option<nat>
    var consumed: map<string, string>

    constructor (row: Row)
      ensures Value() == row
    {
      watermark, runAt, advancedAt := row.watermark, row.runAt, row.advancedAt;
      verifiedAt, lastRun, consumed := row.verifiedAt, row.lastRun, row.consumed;
    }

    function Value(): Row
      reads this
    {
      Row(watermark, runAt, advancedAt, verifiedAt, lastRun, consumed)
    }

    method Advance(o: Observation)
      modifies this
      ensures Value() == Written(old(Value()), o.(consumed := map[]), Advanced)
    {
      watermark := o.watermark;
      runAt := Some(o.order);
      advancedAt := Some(o.completed);
      lastRun := NonNilRun(o.run);
    }

    method VerifyOnly(o: Observation)
      modifies this
      ensures Value() == Written(old(Value()), o.(consumed := map[]), Verified)
    {
      verifiedAt := Some(o.completed);
      lastRun := NonNilRun(o.run);
    }

    /** Mutates the state under the contract; the consumed snapshot is not its business. */
    method ApplyContract(parse: Parser, o: Observation) returns (outcome: Outcome)
      modifies this
      ensures outcome == Decide(parse, old(Value()), o)
      ensures Value() == Contract(parse, old(Value()), o.(consumed := map[]))
    {
      if o.backfill {
        return BackfillDropped;
      }
      if o.watermark == "" {
        VerifyOnly(o);
        return Verified;
      }
      if watermark == "" && advancedAt.None? {
        Advance(o);
        return Advanced;
      }
      if o.watermark == watermark {
        VerifyOnly(o);
        return Verified;
      }
      var cmp := OrderableGreater(parse, watermark, o.watermark);
      if cmp.Some? {
        if cmp.value {
          Advance(o);
          return Advanced;
        }
        return RegressionDropped;
      }
      if runAt.None? || o.order > runAt.value {
        Advance(o);
        return Advanced;
      }
      return OutOfOrderDropped;
    }
  }

  const MAX_ATTEMPTS := 5

  /** The state table, keyed by namespace and name. */
  class StateTable {
    var rows: map<(string, string), Row>

    /** One transaction with nobody else writing: the contract, applied to this key's row. */
    method AdvanceTx(parse: Parser, key: (string, string), o: Observation) returns (outcome: Outcome)
      modifies this
      ensures var before := if key in old(rows) then old(rows)[key] else EMPTY;
              && outcome == Decide(parse, before, o)
              && rows == if Accepted(outcome) then old(rows)[key := Contract(parse, before, o)] else old(rows)
      ensures o.backfill ==> outcome == BackfillDropped && rows == old(rows)
    {
      var base := new DatasetState(if key in rows then rows[key] else EMPTY);
      outcome := base.ApplyContract(parse, o);
      if outcome != Advanced && outcome != Verified {
        return;
      }
      var insert := base.Value();
      if o.consumed != map[] {
        insert := insert.(consumed := o.consumed);
      }
      if key !in rows {
        rows := rows[key := insert];
        return;
      }
      var authoritative := new DatasetState(rows[key]);
      outcome := authoritative.ApplyContract(parse, o);
      if outcome == Advanced || outcome == Verified {
        var updated := authoritative.Value();
        if o.consumed != map[] {
          updated := updated.(consumed := o.consumed);
        }
        rows := rows[key := updated];
      }
    }

    /** The retry loop: the first `busy` attempts fail and are undone. A call applies its
        observation once, or, after five busy attempts, not at all. */
    method Advance(parse: Parser, key: (string, string), o: Observation, busy: nat)
      returns (res: Option<Outcome>)
      modifies this
      ensures res.Some? <==> busy < MAX_ATTEMPTS
      ensures var before := if key in old(rows) then old(rows)[key] else EMPTY;
              && (res.Some? ==> res.value == Decide(parse, before, o))
              && rows == if res.Some? && Accepted(res.value)
                         then old(rows)[key := Contract(parse, before, o)] else old(rows)
    {
      var attempt := 0;
      while attempt < MAX_ATTEMPTS
        invariant 0 <= attempt <= MAX_ATTEMPTS && attempt <= busy
        invariant rows == old(rows)
      {
        if attempt >= busy {
          var outcome := AdvanceTx(parse, key, o);
          return Some(outcome);
        }
        attempt := attempt + 1;
      }
      return None;
    }
  }
}
