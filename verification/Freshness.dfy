/** When a dataset is fresh, stale or violated, whether its inputs have moved on since it was
    made, and so whether it asks for a run. */
module Freshness {
  import opened Options
  import opened Strings
  import opened TextLemmas
  import opened Watermark
  import opened WatermarkCases

  /** The instant that stands for no time at all. */
  const ZERO := 0

  /** A dataset's row with the one status that the evaluator does not set itself. */
  datatype DatasetRow = DatasetRow(row: Row, quarantined: bool)

  datatype Standing = Fresh | Stale | StaleUpstream | Violated | Quarantined | Unknown

  // ----- how old a dataset is -----

  /** The later of the two marks. */
  function FreshAt(row: Row): (r: Option<int>)
    ensures r == None <==> row.advancedAt == None && (row.verifiedAt == None || row.verifiedAt.value <= ZERO)
    ensures r.Some? ==> r in [row.advancedAt, row.verifiedAt]
    ensures r.Some? && row.advancedAt.Some? ==> row.advancedAt.value <= r.value
    ensures r.Some? && row.verifiedAt.Some? ==> row.verifiedAt.value <= r.value
  {
    if row.verifiedAt.Some? && row.verifiedAt.value > row.advancedAt.GetOr(ZERO) then row.verifiedAt else row.advancedAt
  }

  function DurationSince(now: int, from: int): nat {
    if from == ZERO || now < from then 0 else now - from
  }

  /** A dataset that was never made counts from its declaration. */
  function Baseline(createdAt: int, updatedAt: int, now: int): int {
    if createdAt != ZERO then createdAt else if updatedAt != ZERO then updatedAt else now
  }

  function StatusFor(state: DatasetRow, createdAt: int, updatedAt: int, now: int, freshness: int, maxStaleness: int,
                     upstreamReady: bool): Standing {
    if state.quarantined then Quarantined
    else
      var at := FreshAt(state.row);
      var staleness := DurationSince(now, at.GetOr(Baseline(createdAt, updatedAt, now)));
      if staleness <= freshness then (if at.Some? then Fresh else Unknown)
      else if maxStaleness > 0 && staleness > maxStaleness then Violated
      else if !upstreamReady then StaleUpstream
      else Stale
  }

  /** A stale dataset, or one that is long overdue and whose inputs are ready. */
  predicate WantsRun(standing: Standing, upstreamReady: bool) {
    standing.Stale? || (standing.Violated? && upstreamReady)
  }

  /** The instant counts: it is the latest mark, or without marks the declaration's. */
  ghost predicate CountsFrom(row: Row, createdAt: int, updatedAt: int, from: int) {
    if row.advancedAt == None && (row.verifiedAt == None || row.verifiedAt.value <= ZERO)
    then from == createdAt || (createdAt == ZERO && from == updatedAt)
    else
      && Some(from) in {row.advancedAt, row.verifiedAt}
      && (row.advancedAt.Some? ==> row.advancedAt.value <= from)
      && (row.verifiedAt.Some? ==> row.verifiedAt.value <= from)
  }

  /** More than the given time has passed. */
  ghost predicate Overdue(row: Row, createdAt: int, updatedAt: int, now: int, d: int) {
    exists from :: CountsFrom(row, createdAt, updatedAt, from) && from != ZERO && now - from > d
  }

  lemma OverdueExactlyWhen(row: Row, createdAt: int, updatedAt: int, now: int, d: int)
    requires d >= 0
    ensures Overdue(row, createdAt, updatedAt, now, d) <==>
      DurationSince(now, FreshAt(row).GetOr(Baseline(createdAt, updatedAt, now))) > d
  {
    var at := FreshAt(row);
    if at.Some? {
      assert CountsFrom(row, createdAt, updatedAt, at.value);
    } else {
      assert CountsFrom(row, createdAt, updatedAt, createdAt);
      assert createdAt == ZERO ==> CountsFrom(row, createdAt, updatedAt, updatedAt);
    }
  }

  /** A dataset asks for a run exactly if it is not quarantined, more time has passed than its
      freshness allows, and its inputs are ready; how long it may be stale at most does not
      matter. */
  lemma WantsRunExactlyWhen(state: DatasetRow, createdAt: int, updatedAt: int, now: int, freshness: int,
                            maxStaleness: int, ready: bool)
    requires freshness > 0
    ensures WantsRun(StatusFor(state, createdAt, updatedAt, now, freshness, maxStaleness, ready), ready) <==>
      !state.quarantined && ready && Overdue(state.row, createdAt, updatedAt, now, freshness)
  {
    OverdueExactlyWhen(state.row, createdAt, updatedAt, now, freshness);
  }

  /** The other standings. A dataset is violated before its inputs are looked at. */
  lemma StandsExactlyWhen(state: DatasetRow, createdAt: int, updatedAt: int, now: int, freshness: int,
                          maxStaleness: int, ready: bool)
    requires freshness > 0
    ensures var overdue := Overdue(state.row, createdAt, updatedAt, now, freshness);
      var standing := StatusFor(state, createdAt, updatedAt, now, freshness, maxStaleness, ready);
      var violated := maxStaleness > 0 && Overdue(state.row, createdAt, updatedAt, now, maxStaleness);
      && (standing == Quarantined <==> state.quarantined)
      && (standing in {Fresh, Unknown} <==> !state.quarantined && !overdue)
      && (standing == Unknown ==>
            state.row.advancedAt == None && (state.row.verifiedAt == None || state.row.verifiedAt.value <= ZERO))
      && (standing == Violated <==> !state.quarantined && overdue && violated)
      && (standing == StaleUpstream <==> !state.quarantined && overdue && !violated && !ready)
  {
    OverdueExactlyWhen(state.row, createdAt, updatedAt, now, freshness);
    if maxStaleness > 0 { OverdueExactlyWhen(state.row, createdAt, updatedAt, now, maxStaleness); }
  }

  /** An accepted observation makes the dataset fresh for as long as its freshness says. */
  lemma AcceptedMakesFresh(parse: Parser, row: Row, o: Observation, now: int, freshness: int, maxStaleness: int,
                           createdAt: int, updatedAt: int, ready: bool)
    requires Accepted(Decide(parse, row, o)) && o.completed > ZERO && freshness > 0 && now <= o.completed + freshness
    ensures StatusFor(DatasetRow(Contract(parse, row, o), false), createdAt, updatedAt, now, freshness, maxStaleness,
                      ready) == Fresh
  {
  }

  // ----- whether inputs have moved on -----

  /** A consumed dataset and its row, if it has one. */
  datatype Input = Input(namespace: string, name: string, state: Option<Row>)

  function ParamName(namespace: string, name: string): string {
    if namespace == "" then name else namespace + "." + name
  }

  /** Without dots in namespaces, and in the names of datasets without one, the key tells inputs
      apart. */
  lemma ParamNamesDiffer(ns: string, name: string, ns': string, name': string)
    requires '.' !in ns && '.' !in ns' && (ns == "" ==> '.' !in name) && (ns' == "" ==> '.' !in name')
    ensures ParamName(ns, name) == ParamName(ns', name') <==> ns == ns' && name == name'
  {
    var a, b := ParamName(ns, name), ParamName(ns', name');
    assert ns != "" ==> a[|ns|] == '.' && a == ns + ['.'] + name;
    assert ns' != "" ==> b[|ns'|] == '.' && b == ns' + ['.'] + name';
    if ns != "" && ns' != "" && a == b { SplitUnique(ns, name, ns', name', '.'); }
  }

  /** A dot moves the border, although the key is meant to keep namespaces apart: of two such
      inputs the snapshot remembers the second only. */
  lemma DotMovesTheNamespace(first: Row, second: Row)
    ensures var inputs := [Input("a", "b", Some(first)), Input("", "a.b", Some(second))];
      Snapshot(inputs) == map["a.b" := second.watermark]
  {
    var i, j := Input("a", "b", Some(first)), Input("", "a.b", Some(second));
    assert InputKey(i) == "a.b" && InputKey(j) == "a.b";
    assert [i, j][..1] == [i] && [i][..0] == [];
    assert Snapshot([i]) == map["a.b" := first.watermark];
  }

  function InputKey(i: Input): string {
    ParamName(i.namespace, Trim(i.name))
  }

  function InputWatermark(i: Input): string {
    if i.state.Some? then i.state.value.watermark else ""
  }

  predicate AdvancedPast(parse: Parser, previous: string, current: string) {
    var p, c := Trim(previous), Trim(current);
    if c == "" then false
    else if p == "" then true
    else if c == p then false
    else OrderableGreater(parse, p, c) != Some(false)
  }

  /** The value is new: there was none, or it is another one that is not known to be smaller. */
  lemma AdvancedPastExactlyWhen(parse: Parser, previous: string, current: string)
    ensures var p, c := Trim(previous), Trim(current);
      AdvancedPast(parse, previous, current) <==>
        c != "" && (p == "" || (c != p && (IsLarger(parse, p, c) || IsForeign(parse, p, c))))
  {
    Compared(parse, Trim(previous), Trim(current));
  }

  /** Whenever the watermark contract replaces a value, the dataset has moved past it. */
  lemma ReplacedIsAdvancedPast(parse: Parser, row: Row, o: Observation)
    requires row.watermark != "" && Trim(row.watermark) == row.watermark && Trim(o.watermark) == o.watermark
    ensures Contract(parse, row, o).watermark != row.watermark ==>
      AdvancedPast(parse, row.watermark, Contract(parse, row, o).watermark)
  {
  }

  /** The input has moved past what the dataset was last made of; if that is not recorded, it
      has a value or was seen at all. */
  ghost predicate MovedOn(parse: Parser, last: map<string, string>, i: Input) {
    var key, now := InputKey(i), InputWatermark(i);
    if key in last then AdvancedPast(parse, last[key], now)
    else Trim(now) != "" || (i.state.Some? && FreshAt(i.state.value).Some?)
  }

  /** An input that was consumed before has to have a new value; one that was not needs a value, or
      a mark that it was made at all. */
  lemma MovedOnExactlyWhen(parse: Parser, last: map<string, string>, i: Input)
    ensures var key, p := InputKey(i), if InputKey(i) in last then Trim(last[InputKey(i)]) else "";
      var c := if i.state.Some? then Trim(i.state.value.watermark) else "";
      MovedOn(parse, last, i) <==>
        || (c != "" && (p == "" || (c != p && (IsLarger(parse, p, c) || IsForeign(parse, p, c)))))
        || (c == "" && key !in last && i.state.Some?
            && var row := i.state.value;
               row.advancedAt.Some? || (row.verifiedAt.Some? && row.verifiedAt.value > 0))
  {
    if InputKey(i) in last { AdvancedPastExactlyWhen(parse, last[InputKey(i)], InputWatermark(i)); }
  }

  /** Inputs without a name do not count. */
  ghost predicate AllMovedOn(parse: Parser, last: map<string, string>, inputs: seq<Input>) {
    forall j :: 0 <= j < |inputs| && Trim(inputs[j].name) != "" ==> MovedOn(parse, last, inputs[j])
  }

  /** The watermarks of the inputs; of inputs with one key the last counts. */
  function Snapshot(inputs: seq<Input>): map<string, string> {
    if inputs == [] then map[]
    else
      var m, i := Snapshot(inputs[..|inputs| - 1]), inputs[|inputs| - 1];
      if Trim(i.name) == "" then m else m[InputKey(i) := InputWatermark(i)]
  }

  /** The snapshot has a watermark of an input of that key, and of every input that is alone
      with its key the watermark. */
  lemma {:induction false} SnapshotExactly(inputs: seq<Input>, key: string)
    ensures key in Snapshot(inputs) <==>
      exists j :: 0 <= j < |inputs| && Trim(inputs[j].name) != "" && InputKey(inputs[j]) == key
    ensures key in Snapshot(inputs) ==>
      exists j :: 0 <= j < |inputs| && Trim(inputs[j].name) != "" && InputKey(inputs[j]) == key
                  && InputWatermark(inputs[j]) == Snapshot(inputs)[key]
  {
    if inputs != [] {
      var front, n := inputs[..|inputs| - 1], |inputs| - 1;
      SnapshotExactly(front, key);
      assert forall j :: 0 <= j < n ==> front[j] == inputs[j];
      if key in Snapshot(front) {
        var j :| 0 <= j < |front| && Trim(front[j].name) != "" && InputKey(front[j]) == key
                 && InputWatermark(front[j]) == Snapshot(front)[key];
        assert inputs[j] == front[j];
      }
      if j :| 0 <= j < n && Trim(inputs[j].name) != "" && InputKey(inputs[j]) == key { assert front[j] == inputs[j]; }
    }
  }

  /** One input: its watermark is noted, and if it has not moved on, the dataset waits for it. */
  method LookAtInput(parse: Parser, last: map<string, string>, i: Input, current: map<string, string>,
                     waiting: seq<string>)
    returns (current': map<string, string>, waiting': seq<string>)
    ensures current' == if Trim(i.name) == "" then current else current[InputKey(i) := InputWatermark(i)]
    ensures waiting' == [] <==> waiting == [] && (Trim(i.name) != "" ==> MovedOn(parse, last, i))
  {
    current', waiting' := current, waiting;
    var name := Trim(i.name);
    if name == "" {
      return;
    }
    var key := ParamName(i.namespace, name);
    var watermark, observed := "", false;
    if i.state.Some? {
      watermark := i.state.value.watermark;
      observed := FreshAt(i.state.value).Some?;
    }
    current' := current[key := watermark];
    if key !in last {
      if Trim(watermark) == "" && !observed {
        waiting' := waiting + [key];
      }
      return;
    }
    if !AdvancedPast(parse, last[key], watermark) {
      waiting' := waiting + [key];
    }
  }

  method UpstreamReady(parse: Parser, last: map<string, string>, inputs: seq<Input>)
    returns (ready: bool, current: map<string, string>)
    ensures ready <==> AllMovedOn(parse, last, inputs)
    ensures current == Snapshot(inputs)
  {
    current := map[];
    var waiting: seq<string> := [];
    for i := 0 to |inputs|
      invariant current == Snapshot(inputs[..i])
      invariant waiting == [] <==> AllMovedOn(parse, last, inputs[..i])
    {
      AllMovedOnMore(parse, last, inputs, i);
      SnapshotMore(inputs, i);
      current, waiting := LookAtInput(parse, last, inputs[i], current, waiting);
    }
    assert inputs[..|inputs|] == inputs;
    ready := waiting == [];
  }

  lemma SnapshotMore(inputs: seq<Input>, n: nat)
    requires n < |inputs|
    ensures Snapshot(inputs[..n + 1])
         == if Trim(inputs[n].name) == "" then Snapshot(inputs[..n])
            else Snapshot(inputs[..n])[InputKey(inputs[n]) := InputWatermark(inputs[n])]
  {
    assert inputs[..n + 1][..n] == inputs[..n];
  }

  lemma AllMovedOnMore(parse: Parser, last: map<string, string>, inputs: seq<Input>, i: nat)
    requires i < |inputs|
    ensures AllMovedOn(parse, last, inputs[..i + 1]) <==>
      AllMovedOn(parse, last, inputs[..i]) && (Trim(inputs[i].name) != "" ==> MovedOn(parse, last, inputs[i]))
  {
    assert forall j :: 0 <= j < i ==> inputs[..i + 1][j] == inputs[..i][j];
    assert inputs[..i + 1][i] == inputs[i];
  }

  /** A dataset that was made of the inputs as they are now does not ask again before one of
      them has moved. */
  lemma NothingNewNotReady(parse: Parser, inputs: seq<Input>, j: nat)
    requires j < |inputs| && Trim(inputs[j].name) != ""
    ensures !AllMovedOn(parse, Snapshot(inputs), inputs)
  {
    var key := InputKey(inputs[j]);
    SnapshotExactly(inputs, key);
    var i :| 0 <= i < |inputs| && Trim(inputs[i].name) != "" && InputKey(inputs[i]) == key
             && InputWatermark(inputs[i]) == Snapshot(inputs)[key];
    assert !MovedOn(parse, Snapshot(inputs), inputs[i]);
  }
}
