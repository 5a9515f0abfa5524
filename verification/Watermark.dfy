/** The watermark contract of one dataset: what a producing observation does to the
    dataset's state row. */
module Watermark {
  import opened Options

  /** What a watermark string parses as. A string may parse as several kinds at once. */
  datatype Parse = Parse(int64: Option<int>, uint64: Option<nat>, float: Option<real>, instant: Option<int>)

  type Parser = string -> Parse

  datatype Outcome = Advanced | Verified | RegressionDropped | OutOfOrderDropped | BackfillDropped

  datatype Observation = Observation(
    watermark: string,               // empty: the producing step emitted none
    run: nat,                        // 0 is the nil run id
    order: int,
    completed: int,
    consumed: map<string, string>,
    backfill: bool)

  datatype Row = Row(
    watermark: string,
    runAt: Option<int>,
    advancedAt: Option<int>,
    verifiedAt: Option<int>,
    lastRun: Option<nat>,
    consumed: map<string, string>)

  const EMPTY := Row("", None, None, None, None, map[])

  predicate Accepted(o: Outcome) {
    o.Advanced? || o.Verified?
  }

  function NonNilRun(run: nat): Option<nat> {
    if run == 0 then None else Some(run)
  }

  /** Whether `next` is greater than `cur`, if both parse as the kind that `cur` parses as
      first; otherwise the two cannot be compared by value. */
  function OrderableGreater(parse: Parser, cur: string, next: string): Option<bool> {
    var c, n := parse(cur), parse(next);
    if c.int64.Some? then
      if n.int64.Some? then Some(n.int64.value > c.int64.value) else None
    else if c.uint64.Some? then
      if n.uint64.Some? then Some(n.uint64.value > c.uint64.value) else None
    else if c.float.Some? then
      if n.float.Some? then Some(n.float.value > c.float.value) else None
    else if c.instant.Some? && n.instant.Some? then Some(n.instant.value > c.instant.value)
    else None
  }

  function Decide(parse: Parser, row: Row, o: Observation): Outcome {
    if o.backfill then BackfillDropped
    else if o.watermark == "" then Verified
    else if row.watermark == "" && row.advancedAt.None? then Advanced
    else if o.watermark == row.watermark then Verified
    else match OrderableGreater(parse, row.watermark, o.watermark)
      case Some(greater) => if greater then Advanced else RegressionDropped
      case None =>
        if row.runAt.None? || o.order > row.runAt.value then Advanced else OutOfOrderDropped
  }

  /** The row after an observation with the given outcome, including the consumed snapshot
      that rides along with an accepted one. */
  function Written(row: Row, o: Observation, outcome: Outcome): Row {
    var r := match outcome
      case Advanced => row.(watermark := o.watermark, runAt := Some(o.order),
                            advancedAt := Some(o.completed), lastRun := NonNilRun(o.run))
      case Verified => row.(verifiedAt := Some(o.completed), lastRun := NonNilRun(o.run))
      case _ => row;
    if Accepted(outcome) && o.consumed != map[] then r.(consumed := o.consumed) else r
  }

  function Contract(parse: Parser, row: Row, o: Observation): Row {
    Written(row, o, Decide(parse, row, o))
  }

  /** The row after a sequence of observations, one after the other. */
  function Replay(parse: Parser, os: seq<Observation>): Row {
    if os == [] then EMPTY
    else Contract(parse, Replay(parse, os[..|os| - 1]), os[|os| - 1])
  }

  lemma ReplayAppend(parse: Parser, os: seq<Observation>, o: Observation)
    ensures Replay(parse, os + [o]) == Contract(parse, Replay(parse, os), o)
  {
    assert (os + [o])[..|os|] == os;
  }

  // ----- which observation a column comes from -----

  /** The outcome of the i-th observation of a sequence. */
  function OutcomeAt(parse: Parser, os: seq<Observation>, i: nat): Outcome
    requires i < |os|
  {
    Decide(parse, Replay(parse, os[..i]), os[i])
  }

  datatype Kind = Advances | Verifies | Accepts | Snapshots

  predicate Is(kind: Kind, o: Observation, r: Outcome) {
    match kind
    case Advances => r.Advanced?
    case Verifies => r.Verified?
    case Accepts => Accepted(r)
    case Snapshots => Accepted(r) && o.consumed != map[]
  }

  predicate HasKind(parse: Parser, os: seq<Observation>, kind: Kind, i: nat)
    requires i < |os|
  {
    Is(kind, os[i], OutcomeAt(parse, os, i))
  }

  /** The position of the last observation of a kind, or -1. */
  function LastOf(parse: Parser, os: seq<Observation>, kind: Kind): (i: int)
    ensures -1 <= i < |os|
  {
    if os == [] then -1
    else if HasKind(parse, os, kind, |os| - 1) then |os| - 1
    else LastOf(parse, os[..|os| - 1], kind)
  }

  lemma HasKindPrefix(parse: Parser, os: seq<Observation>, front: seq<Observation>, kind: Kind, j: nat)
    requires front <= os && j < |front|
    ensures HasKind(parse, os, kind, j) == HasKind(parse, front, kind, j)
  {
    assert os[..j] == front[..j];
  }

  lemma {:induction false} LastOfIsLast(parse: Parser, os: seq<Observation>, kind: Kind, j: nat)
    requires j < |os|
    ensures j == LastOf(parse, os, kind) ==> HasKind(parse, os, kind, j)
    ensures j > LastOf(parse, os, kind) ==> !HasKind(parse, os, kind, j)
  {
    var n := |os| - 1;
    if j < n {
      LastOfIsLast(parse, os[..n], kind, j);
      HasKindPrefix(parse, os, os[..n], kind, j);
    }
  }

  /** Every column of the row comes from an accepted observation of the sequence: the
      watermark with its run order and advance time from the last one that advanced it, the
      verification time from the last one that verified, the run id from the last accepted
      one and the consumed snapshot from the last accepted one that carried any. */
  lemma {:induction false} ColumnsComeFromAcceptedObservations(parse: Parser, os: seq<Observation>)
    ensures var row, i := Replay(parse, os), LastOf(parse, os, Advances);
            if i < 0 then row.watermark == "" && row.runAt.None? && row.advancedAt.None?
            else row.watermark == os[i].watermark && row.runAt == Some(os[i].order)
                 && row.advancedAt == Some(os[i].completed) && os[i].watermark != "" && !os[i].backfill
    ensures var row, i := Replay(parse, os), LastOf(parse, os, Verifies);
            row.verifiedAt == if i < 0 then None else Some(os[i].completed)
    ensures var row, i := Replay(parse, os), LastOf(parse, os, Accepts);
            row.lastRun == if i < 0 then None else NonNilRun(os[i].run)
    ensures var row, i := Replay(parse, os), LastOf(parse, os, Snapshots);
            row.consumed == if i < 0 then map[] else os[i].consumed
  {
    if os != [] {
      ColumnsComeFromAcceptedObservations(parse, os[..|os| - 1]);
    }
  }

  /** The accepted observations of a sequence, in order. */
  function AcceptedOnly(parse: Parser, os: seq<Observation>): seq<Observation> {
    if os == [] then []
    else AcceptedOnly(parse, os[..|os| - 1])
         + if Accepted(OutcomeAt(parse, os, |os| - 1)) then [os[|os| - 1]] else []
  }

  /** Dropped observations leave no trace: replaying the accepted ones alone gives the same row. */
  lemma {:induction false} DroppedObservationsLeaveNoTrace(parse: Parser, os: seq<Observation>)
    ensures Replay(parse, AcceptedOnly(parse, os)) == Replay(parse, os)
  {
    if os != [] {
      var front, last := os[..|os| - 1], os[|os| - 1];
      DroppedObservationsLeaveNoTrace(parse, front);
      if Accepted(OutcomeAt(parse, os, |os| - 1)) {
        ReplayAppend(parse, AcceptedOnly(parse, front), last);
      } else {
        assert AcceptedOnly(parse, os) == AcceptedOnly(parse, front);
      }
    }
  }

  // ----- which value survives -----

  /** An observation that can move the watermark. */
  predicate Counts(o: Observation) {
    !o.backfill && o.watermark != ""
  }

  /** `value` orders all watermarks of the sequence the way the contract compares them. */
  ghost predicate ComparableBy(parse: Parser, os: seq<Observation>, value: string -> real) {
    forall i, j :: 0 <= i < |os| && 0 <= j < |os| && Counts(os[i]) && Counts(os[j]) ==>
      OrderableGreater(parse, os[i].watermark, os[j].watermark)
      == Some(value(os[j].watermark) > value(os[i].watermark))
  }

  /** `row` holds the maximum of the sequence under `value`, or nothing if nothing counts. */
  ghost predicate HoldsMaximum(os: seq<Observation>, value: string -> real, row: Row) {
    && (row.advancedAt.None? ==> row.watermark == "" && forall j :: 0 <= j < |os| ==> !Counts(os[j]))
    && (row.advancedAt.Some? ==>
          && (exists i :: 0 <= i < |os| && Counts(os[i]) && os[i].watermark == row.watermark)
          && (forall j :: 0 <= j < |os| && Counts(os[j]) ==> value(os[j].watermark) <= value(row.watermark)))
  }

  /** One more comparable observation: the maximum is kept, and the value stays or grows. */
  lemma MaximumStep(parse: Parser, os: seq<Observation>, o: Observation, row: Row, value: string -> real)
    requires ComparableBy(parse, os + [o], value) && HoldsMaximum(os, value, row)
    ensures var row' := Contract(parse, row, o);
            && HoldsMaximum(os + [o], value, row')
            && (row.advancedAt.Some? ==>
                  row'.watermark == row.watermark || value(row'.watermark) > value(row.watermark))
  {
    var all, row' := os + [o], Contract(parse, row, o);
    assert all[|os|] == o;
    if row.advancedAt.Some? {
      var i :| 0 <= i < |os| && Counts(os[i]) && os[i].watermark == row.watermark;
      assert all[i] == os[i];
      if Counts(o) {
        assert OrderableGreater(parse, all[i].watermark, all[|os|].watermark)
            == Some(value(o.watermark) > value(row.watermark));
      }
      assert all[if row'.watermark == row.watermark then i else |os|].watermark == row'.watermark;
    }
    forall j | 0 <= j < |all| && Counts(all[j]) && row'.advancedAt.Some?
      ensures value(all[j].watermark) <= value(row'.watermark)
    {
      if j < |os| { assert all[j] == os[j]; }
    }
    forall j | 0 <= j < |all| && row'.advancedAt.None? ensures !Counts(all[j]) {
      if j < |os| { assert all[j] == os[j]; }
    }
  }

  lemma {:induction false} ReplayHoldsMaximum(parse: Parser, os: seq<Observation>, value: string -> real)
    requires ComparableBy(parse, os, value)
    ensures HoldsMaximum(os, value, Replay(parse, os))
  {
    if os != [] {
      var front, last := os[..|os| - 1], os[|os| - 1];
      assert front + [last] == os;
      ReplayHoldsMaximum(parse, front, value);
      MaximumStep(parse, front, last, Replay(parse, front), value);
    }
  }

  function IntValue(parse: Parser, w: string): real {
    parse(w).int64.GetOr(0) as real
  }

  function UnsignedValue(parse: Parser, w: string): real {
    parse(w).uint64.GetOr(0) as real
  }

  function DecimalValue(parse: Parser, w: string): real {
    parse(w).float.GetOr(0.0)
  }

  function InstantValue(parse: Parser, w: string): real {
    parse(w).instant.GetOr(0) as real
  }

  /** Streams whose watermarks are all 64-bit integers: the row holds the largest one seen,
      in whatever order the observations were processed. */
  lemma IntegerStreamKeepsMaximum(parse: Parser, os: seq<Observation>)
    requires forall i :: 0 <= i < |os| && Counts(os[i]) ==> parse(os[i].watermark).int64.Some?
    ensures HoldsMaximum(os, w => IntValue(parse, w), Replay(parse, os))
  {
    ReplayHoldsMaximum(parse, os, w => IntValue(parse, w));
  }

  /** The same for integers beyond the signed range. */
  lemma UnsignedStreamKeepsMaximum(parse: Parser, os: seq<Observation>)
    requires forall i :: 0 <= i < |os| && Counts(os[i]) ==>
               parse(os[i].watermark).uint64.Some? && parse(os[i].watermark).int64.None?
    ensures HoldsMaximum(os, w => UnsignedValue(parse, w), Replay(parse, os))
  {
    ReplayHoldsMaximum(parse, os, w => UnsignedValue(parse, w));
  }

  /** The same for decimals. */
  lemma DecimalStreamKeepsMaximum(parse: Parser, os: seq<Observation>)
    requires forall i :: 0 <= i < |os| && Counts(os[i]) ==>
               var p := parse(os[i].watermark);
               p.float.Some? && p.int64.None? && p.uint64.None?
    ensures HoldsMaximum(os, w => DecimalValue(parse, w), Replay(parse, os))
  {
    ReplayHoldsMaximum(parse, os, w => DecimalValue(parse, w));
  }

  /** The same for date-times, which parse as no kind of number. */
  lemma InstantStreamKeepsMaximum(parse: Parser, os: seq<Observation>)
    requires forall i :: 0 <= i < |os| && Counts(os[i]) ==>
               var p := parse(os[i].watermark);
               p.instant.Some? && p.int64.None? && p.uint64.None? && p.float.None?
    ensures HoldsMaximum(os, w => InstantValue(parse, w), Replay(parse, os))
  {
    ReplayHoldsMaximum(parse, os, w => InstantValue(parse, w));
  }

  /** Two processing orders of the same observations store the same value. */
  lemma ProcessingOrderDoesNotMatter(parse: Parser, os: seq<Observation>, os': seq<Observation>, value: string -> real)
    requires multiset(os) == multiset(os')
    requires ComparableBy(parse, os, value)
    ensures Replay(parse, os).advancedAt.Some? == Replay(parse, os').advancedAt.Some?
    ensures Replay(parse, os).advancedAt.Some? ==>
              value(Replay(parse, os).watermark) == value(Replay(parse, os').watermark)
  {
    SameMembers(os, os');
    SameMembers(os', os);
    ComparableByMembers(parse, os, os', value);
    ReplayHoldsMaximum(parse, os, value);
    ReplayHoldsMaximum(parse, os', value);
    MaximumIsLargest(os, os', value, Replay(parse, os), Replay(parse, os'));
    MaximumIsLargest(os', os, value, Replay(parse, os'), Replay(parse, os));
  }

  lemma SameMembers(os: seq<Observation>, os': seq<Observation>)
    requires multiset(os) == multiset(os')
    ensures forall i :: 0 <= i < |os| ==> os[i] in os'
  {
    forall i | 0 <= i < |os| ensures os[i] in os' {
      assert os[i] in multiset(os');
    }
  }

  lemma ComparableByMembers(parse: Parser, os: seq<Observation>, os': seq<Observation>, value: string -> real)
    requires ComparableBy(parse, os, value) && forall j :: 0 <= j < |os'| ==> os'[j] in os
    ensures ComparableBy(parse, os', value)
  {
    forall i, j | 0 <= i < |os'| && 0 <= j < |os'| && Counts(os'[i]) && Counts(os'[j])
      ensures OrderableGreater(parse, os'[i].watermark, os'[j].watermark)
           == Some(value(os'[j].watermark) > value(os'[i].watermark))
    {
      var a :| 0 <= a < |os| && os[a] == os'[i];
      var b :| 0 <= b < |os| && os[b] == os'[j];
    }
  }

  lemma MaximumIsLargest(os: seq<Observation>, os': seq<Observation>, value: string -> real, row: Row, row': Row)
    requires HoldsMaximum(os, value, row) && HoldsMaximum(os', value, row')
    requires forall i :: 0 <= i < |os| ==> os[i] in os'
    ensures row.advancedAt.Some? ==> row'.advancedAt.Some? && value(row.watermark) <= value(row'.watermark)
  {
    if row.advancedAt.Some? {
      var i :| 0 <= i < |os| && Counts(os[i]) && os[i].watermark == row.watermark;
      var j :| 0 <= j < |os'| && os'[j] == os[i];
    }
  }

  /** Streams of mutually incomparable, pairwise different values with different run orders. */
  ghost predicate Opaque(parse: Parser, os: seq<Observation>) {
    forall i, j :: 0 <= i < |os| && 0 <= j < |os| && i != j && Counts(os[i]) && Counts(os[j]) ==>
      && os[i].watermark != os[j].watermark && os[i].order != os[j].order
      && OrderableGreater(parse, os[i].watermark, os[j].watermark).None?
  }

  /** `row` holds the value of the observation with the latest run order. */
  ghost predicate HoldsLatest(os: seq<Observation>, row: Row) {
    && (row.advancedAt.None? ==> row.watermark == "" && forall j :: 0 <= j < |os| ==> !Counts(os[j]))
    && (row.advancedAt.Some? ==>
          exists i :: IsLatest(os, i) && row.watermark == os[i].watermark && row.runAt == Some(os[i].order))
  }

  ghost predicate IsLatest(os: seq<Observation>, i: int) {
    && 0 <= i < |os| && Counts(os[i])
    && forall j :: 0 <= j < |os| && Counts(os[j]) ==> os[j].order <= os[i].order
  }

  lemma {:induction false} OpaqueStreamKeepsLatest(parse: Parser, os: seq<Observation>)
    requires Opaque(parse, os)
    ensures HoldsLatest(os, Replay(parse, os))
  {
    if os != [] {
      var n := |os| - 1;
      var front, last := os[..n], os[n];
      OpaqueStreamKeepsLatest(parse, front);
      var before, after := Replay(parse, front), Replay(parse, os);
      forall j | 0 <= j < n ensures os[j] == front[j] {}
      if before.advancedAt.Some? {
        var i :| IsLatest(front, i) && before.watermark == front[i].watermark && before.runAt == Some(front[i].order);
        assert os[i] == front[i];
        if Counts(last) {
          assert OrderableGreater(parse, os[i].watermark, os[n].watermark).None?;
        }
        assert IsLatest(os, if Counts(last) && last.order > os[i].order then n else i);
      } else if Counts(last) {
        assert IsLatest(os, n);
      }
    }
  }

  // ----- where the ordering promises stop -----

  lemma ReplayOfTwo(parse: Parser, a: Observation, b: Observation)
    ensures Replay(parse, [a, b]) == Contract(parse, Contract(parse, EMPTY, a), b)
  {
    assert [a, b][..1] == [a] && [a][..0] == [];
    assert Replay(parse, [a]) == Contract(parse, Replay(parse, []), a);
    assert Replay(parse, [a, b]) == Contract(parse, Replay(parse, [a]), b);
  }

  /** Integers mixed with decimals: the comparison is not symmetric, and the stored value
      depends on the processing order. */
  lemma MixedStreamDependsOnOrder(parse: Parser, a: Observation, b: Observation)
    requires Counts(a) && Counts(b) && b.order < a.order
    requires parse(a.watermark).int64.Some? && parse(a.watermark).float.Some?
    requires parse(b.watermark).int64.None? && parse(b.watermark).uint64.None? && parse(b.watermark).float.Some?
    requires parse(a.watermark).float.value < parse(b.watermark).float.value
    ensures Replay(parse, [a, b]).watermark == a.watermark
    ensures Replay(parse, [b, a]).watermark == b.watermark
    ensures a.watermark != b.watermark
  {
    ReplayOfTwo(parse, a, b);
    ReplayOfTwo(parse, b, a);
  }

  /** A dropped observation need not stay dropped: an out-of-order value that another run
      has published in the meantime would be verified, not dropped. */
  lemma DropCanTurnIntoVerify(parse: Parser, row: Row, o: Observation, later: int)
    requires Decide(parse, row, o).OutOfOrderDropped? && row.runAt.Some? && later > row.runAt.value
    ensures Decide(parse, row, o.(order := later)).Advanced?
    ensures Decide(parse, Contract(parse, row, o.(order := later)), o).Verified?
  {
    assert Contract(parse, row, o.(order := later)).watermark == o.watermark;
  }

  /** For values that are compared by size a regression stays one, whatever is accepted in
      between. */
  lemma {:induction false} RegressionStaysDropped(parse: Parser, os: seq<Observation>, n: nat, o: Observation,
                                                  value: string -> real)
    requires n <= |os| && ComparableBy(parse, os + [o], value)
    requires Decide(parse, Replay(parse, os[..n]), o).RegressionDropped?
    ensures Decide(parse, Replay(parse, os), o).RegressionDropped?
  {
    ReplayMonotone(parse, os, n, o, value);
    RegressionBySize(parse, os[..n], os, o, value);
    RegressionBySize(parse, os, os, o, value);
  }

  /** Against the row of a comparable stream, an observation regresses exactly when it is not
      larger and not the stored value itself. */
  lemma RegressionBySize(parse: Parser, os: seq<Observation>, all: seq<Observation>, o: Observation,
                         value: string -> real)
    requires os <= all && ComparableBy(parse, all + [o], value)
    requires Counts(o) && Replay(parse, os).advancedAt.Some?
    ensures var row := Replay(parse, os);
            Decide(parse, row, o).RegressionDropped? <==>
              o.watermark != row.watermark && value(o.watermark) <= value(row.watermark)
  {
    var row, both := Replay(parse, os), all + [o];
    forall i | 0 <= i < |os| ensures both[i] == os[i] {}
    ReplayHoldsMaximum(parse, os, value);
    ColumnsComeFromAcceptedObservations(parse, os);
    var i :| 0 <= i < |os| && Counts(os[i]) && os[i].watermark == row.watermark;
    assert OrderableGreater(parse, both[i].watermark, both[|all|].watermark)
        == Some(value(both[|all|].watermark) > value(both[i].watermark));
  }

  /** Between two points of a comparable stream the watermark stays or grows strictly. */
  lemma {:induction false} ReplayMonotone(parse: Parser, os: seq<Observation>, n: nat, o: Observation,
                                          value: string -> real)
    requires n <= |os| && ComparableBy(parse, os + [o], value)
    requires Decide(parse, Replay(parse, os[..n]), o).RegressionDropped?
    ensures Counts(o) && Replay(parse, os[..n]).advancedAt.Some? && Replay(parse, os).advancedAt.Some?
    ensures var before, now := Replay(parse, os[..n]).watermark, Replay(parse, os).watermark;
            now == before || value(now) > value(before)
    decreases |os|
  {
    if n == |os| {
      assert os[..n] == os;
      ColumnsComeFromAcceptedObservations(parse, os);
    } else {
      var front, last := os[..|os| - 1], os[|os| - 1];
      assert front[..n] == os[..n] && front + [last] == os;
      ComparableByMembers(parse, os + [o], front + [o], value);
      ComparableByMembers(parse, os + [o], os, value);
      ComparableByMembers(parse, os, front, value);
      ReplayMonotone(parse, front, n, o, value);
      ReplayHoldsMaximum(parse, front, value);
      MaximumStep(parse, front, last, Replay(parse, front), value);
    }
  }
}
