/** The event outbox: rows are written in transactions, published to the bus and then marked.
    Transactions, dispatchers and immediate publishers interleave freely and may stop at any
    step. */
module EventOutbox {

  datatype TxStatus = Open | Committed | RolledBack

  /** A transaction with the sequence numbers of the events it appended. */
  datatype Tx = Tx(events: seq<nat>, deferred: bool, status: TxStatus)

  /** A delivery under way: how much of its batch has been published. */
  datatype Delivery = Delivery(batch: seq<nat>, sent: nat)

  /** `rows` holds the committed events, with whether their dispatch is pending. */
  datatype State = State(next: nat, txs: map<nat, Tx>, rows: map<nat, bool>, published: seq<nat>,
                         deliveries: map<nat, Delivery>)

  datatype Step =
    | BeginTx(t: nat, deferred: bool)
    | Append(t: nat, count: nat)
    | Commit(t: nat)
    | Rollback(t: nat)
    | List(d: nat, batch: seq<nat>, limit: nat)
    | Immediate(d: nat, t: nat)
    | Publish(d: nat)
    | Mark(d: nat)
    | Crash(d: nat)

  ghost predicate Ascending(s: seq<nat>) {
    forall i, j :: 0 <= i < j < |s| ==> s[i] < s[j]
  }

  predicate IsPending(rows: map<nat, bool>, q: nat) {
    q in rows && rows[q]
  }

  /** The first `limit` pending events in sequence order. */
  ghost predicate IsPendingBatch(rows: map<nat, bool>, batch: seq<nat>, limit: nat) {
    && Ascending(batch) && |batch| <= limit
    && (forall i :: 0 <= i < |batch| ==> IsPending(rows, batch[i]))
    && (forall q :: IsPending(rows, q) && q !in batch ==>
          |batch| == limit && forall i :: 0 <= i < |batch| ==> batch[i] < q)
  }

  /** New sequence numbers. */
  function Fresh(next: nat, count: nat): seq<nat> {
    seq(count, i requires 0 <= i < count => next + i)
  }

  function Insert(rows: map<nat, bool>, events: seq<nat>): map<nat, bool> {
    map q | q in rows.Keys + (set e | e in events) :: if q in events then true else rows[q]
  }

  function MarkRows(rows: map<nat, bool>, batch: seq<nat>): map<nat, bool> {
    map q | q in rows :: rows[q] && q !in batch
  }

  ghost function Next(s: State, step: Step): State {
    match step
    case BeginTx(t, deferred) => if t in s.txs then s else s.(txs := s.txs[t := Tx([], deferred, Open)])
    case Append(t, count) =>
      if t in s.txs && s.txs[t].status.Open?
      then s.(next := s.next + count, txs := s.txs[t := s.txs[t].(events := s.txs[t].events + Fresh(s.next, count))])
      else s
    case Commit(t) =>
      if t in s.txs && s.txs[t].status.Open?
      then s.(rows := Insert(s.rows, s.txs[t].events), txs := s.txs[t := s.txs[t].(status := Committed)]) else s
    case Rollback(t) =>
      if t in s.txs && s.txs[t].status.Open? then s.(txs := s.txs[t := s.txs[t].(status := RolledBack)]) else s
    case List(d, batch, limit) =>
      if d !in s.deliveries && IsPendingBatch(s.rows, batch, limit)
      then s.(deliveries := s.deliveries[d := Delivery(batch, 0)]) else s
    case Immediate(d, t) =>
      if d !in s.deliveries && t in s.txs && !s.txs[t].deferred && !s.txs[t].status.RolledBack?
      then s.(deliveries := s.deliveries[d := Delivery(s.txs[t].events, 0)]) else s
    case Publish(d) =>
      if d in s.deliveries && s.deliveries[d].sent < |s.deliveries[d].batch|
      then s.(published := s.published + [s.deliveries[d].batch[s.deliveries[d].sent]],
              deliveries := s.deliveries[d := s.deliveries[d].(sent := s.deliveries[d].sent + 1)]) else s
    case Mark(d) =>
      if d in s.deliveries && s.deliveries[d].sent == |s.deliveries[d].batch|
      then s.(rows := MarkRows(s.rows, s.deliveries[d].batch), deliveries := s.deliveries - {d}) else s
    case Crash(d) => s.(deliveries := s.deliveries - {d})
  }

  const INIT := State(1, map[], map[], [], map[])

  ghost function After(steps: seq<Step>): State {
    if steps == [] then INIT else Next(After(steps[..|steps| - 1]), steps[|steps| - 1])
  }

  // ----- nothing is lost, nothing is made up -----

  /** What a delivery has sent is published. */
  ghost predicate DeliveriesSound(s: State) {
    forall d :: d in s.deliveries ==>
      && s.deliveries[d].sent <= |s.deliveries[d].batch|
      && forall i :: 0 <= i < s.deliveries[d].sent ==> s.deliveries[d].batch[i] in s.published
  }

  ghost predicate NoneLost(s: State) {
    forall q :: q in s.rows && !s.rows[q] ==> q in s.published
  }

  lemma StepKeepsDelivered(s: State, step: Step)
    requires DeliveriesSound(s) && NoneLost(s)
    ensures DeliveriesSound(Next(s, step)) && NoneLost(Next(s, step))
  {
  }

  /** The events of a committed transaction are rows. */
  ghost predicate CommittedAreRows(s: State) {
    forall t, q :: t in s.txs && s.txs[t].status.Committed? && q in s.txs[t].events ==> q in s.rows
  }

  lemma StepKeepsCommitted(s: State, step: Step)
    requires CommittedAreRows(s)
    ensures CommittedAreRows(Next(s, step))
  {
    var s' := Next(s, step);
    forall t, q | t in s'.txs && s'.txs[t].status.Committed? && q in s'.txs[t].events ensures q in s'.rows {
      if step == Commit(t) && s.txs[t].status.Open? {
        assert q in s.txs[t].events;
      } else {
        assert s'.txs[t] == s.txs[t] && q in s.rows;
      }
    }
  }

  lemma {:induction false} HistoryDelivers(steps: seq<Step>)
    ensures DeliveriesSound(After(steps)) && NoneLost(After(steps)) && CommittedAreRows(After(steps))
  {
    if steps != [] {
      HistoryDelivers(steps[..|steps| - 1]);
      StepKeepsDelivered(After(steps[..|steps| - 1]), steps[|steps| - 1]);
      StepKeepsCommitted(After(steps[..|steps| - 1]), steps[|steps| - 1]);
    }
  }

  /** In every history, every event of a committed transaction is a row, and it is still
      pending or it was published. */
  lemma CommittedEventsAreNeverLost(steps: seq<Step>, t: nat, q: nat)
    requires t in After(steps).txs && After(steps).txs[t].status.Committed? && q in After(steps).txs[t].events
    ensures q in After(steps).rows && (IsPending(After(steps).rows, q) || q in After(steps).published)
  {
    HistoryDelivers(steps);
  }

  /** Sequence numbers belong to one transaction, and rows to committed ones. */
  ghost predicate Owned(s: State) {
    NumbersOwned(s.next, s.txs) && forall q :: q in s.rows ==> Comes(s, q, true)
  }

  ghost predicate NumbersOwned(next: nat, txs: map<nat, Tx>) {
    && (forall t, q :: t in txs && q in txs[t].events ==> q < next)
    && (forall t, u, q :: t in txs && u in txs && q in txs[t].events && q in txs[u].events ==> t == u)
  }

  /** The event is from a committed transaction, or, if `committed` is not asked for, from
      one that publishes immediately. */
  ghost predicate Comes(s: State, q: nat, committed: bool) {
    exists t :: t in s.txs && q in s.txs[t].events && (s.txs[t].status.Committed? || (!committed && !s.txs[t].deferred))
  }

  ghost predicate Justified(s: State) {
    && (forall q :: q in s.published ==> Comes(s, q, false))
    && (forall d, i :: d in s.deliveries && 0 <= i < |s.deliveries[d].batch| ==>
          Comes(s, s.deliveries[d].batch[i], false))
  }

  /** Transactions grow, and a commit or an immediate publisher cannot be taken back. */
  ghost predicate TxsGrow(s: State, s': State) {
    forall t :: t in s.txs ==>
      && t in s'.txs && s.txs[t].events <= s'.txs[t].events && s'.txs[t].deferred == s.txs[t].deferred
      && (s.txs[t].status.Committed? ==> s'.txs[t].status.Committed?)
  }

  lemma StepGrows(s: State, step: Step)
    ensures TxsGrow(s, Next(s, step))
  {
  }

  lemma ComesStays(s: State, s': State, q: nat, committed: bool)
    requires TxsGrow(s, s') && Comes(s, q, committed)
    ensures Comes(s', q, committed)
  {
    var t :| t in s.txs && q in s.txs[t].events && (s.txs[t].status.Committed? || (!committed && !s.txs[t].deferred));
    assert q in s'.txs[t].events;
  }

  lemma FreshNumbers(next: nat, count: nat, q: nat)
    ensures q in Fresh(next, count) <==> next <= q < next + count
  {
    if next <= q < next + count { assert Fresh(next, count)[q - next] == q; }
  }

  lemma AppendKeepsNumbers(next: nat, txs: map<nat, Tx>, t: nat, count: nat)
    requires NumbersOwned(next, txs) && t in txs
    ensures NumbersOwned(next + count, txs[t := txs[t].(events := txs[t].events + Fresh(next, count))])
  {
    var txs' := txs[t := txs[t].(events := txs[t].events + Fresh(next, count))];
    forall u, q | u in txs' && q in txs'[u].events
      ensures (q in txs[u].events && q < next) || (u == t && next <= q < next + count)
    {
      FreshNumbers(next, count, q);
    }
  }

  lemma StepKeepsRowsOwned(s: State, step: Step)
    requires Owned(s)
    ensures forall q :: q in Next(s, step).rows ==> Comes(Next(s, step), q, true)
  {
    var s' := Next(s, step);
    StepGrows(s, step);
    forall q | q in s'.rows ensures Comes(s', q, true) {
      if q in s.rows {
        ComesStays(s, s', q, true);
      } else {
        assert step.Commit? && q in s'.txs[step.t].events;
      }
    }
  }

  lemma StepKeepsOwned(s: State, step: Step)
    requires Owned(s)
    ensures Owned(Next(s, step))
  {
    StepKeepsRowsOwned(s, step);
    if step.Append? && step.t in s.txs { AppendKeepsNumbers(s.next, s.txs, step.t, step.count); }
  }

  lemma StepKeepsJustified(s: State, step: Step)
    requires Owned(s) && Justified(s)
    ensures Justified(Next(s, step))
  {
    var s' := Next(s, step);
    StepGrows(s, step);
    forall q | q in s'.published ensures Comes(s', q, false) {
      assert Comes(s, q, false) by {
        if q !in s.published { assert q == s.deliveries[step.d].batch[s.deliveries[step.d].sent]; }
      }
      ComesStays(s, s', q, false);
    }
    forall d, i | d in s'.deliveries && 0 <= i < |s'.deliveries[d].batch|
      ensures Comes(s', s'.deliveries[d].batch[i], false)
    {
      var q := s'.deliveries[d].batch[i];
      if step.List? && d == step.d && d !in s.deliveries {
        assert q in s.rows && Comes(s, q, true);
      } else if step.Immediate? && d == step.d && d !in s.deliveries {
        assert q in s.txs[step.t].events;
      }
      assert Comes(s, q, false);
      ComesStays(s, s', q, false);
    }
  }

  lemma {:induction false} HistoryKeepsJustified(steps: seq<Step>)
    ensures Owned(After(steps)) && Justified(After(steps))
  {
    if steps != [] {
      HistoryKeepsJustified(steps[..|steps| - 1]);
      StepKeepsOwned(After(steps[..|steps| - 1]), steps[|steps| - 1]);
      StepKeepsJustified(After(steps[..|steps| - 1]), steps[|steps| - 1]);
    }
  }

  /** An event of a deferred transaction is published only if the transaction committed. */
  lemma RolledBackIsNeverPublished(steps: seq<Step>, t: nat, q: nat)
    requires t in After(steps).txs && After(steps).txs[t].deferred && q in After(steps).txs[t].events
    requires q in After(steps).published
    ensures After(steps).txs[t].status.Committed?
  {
    HistoryKeepsJustified(steps);
    assert Comes(After(steps), q, false);
  }

  // ----- exactly once -----

  /** One dispatcher that does not crash, and deferred transactions only. */
  predicate Orderly(step: Step) {
    match step
    case BeginTx(_, deferred) => deferred
    case List(d, _, _) => d == 0
    case Immediate(_, _) => false
    case Crash(_) => false
    case _ => true
  }

  ghost predicate NoRepeats(s: seq<nat>) {
    forall i, j :: 0 <= i < j < |s| ==> s[i] != s[j]
  }

  /** What the one delivery has sent is the end of what was published, in the ascending order
      of its batch; nothing else that is pending was published. */
  ghost predicate OnceSoFar(s: State) {
    && NoRepeats(s.published)
    && (forall d :: d in s.deliveries ==> d == 0)
    && (0 in s.deliveries ==> BatchUnderWay(s.rows, s.published, s.deliveries[0]))
    && (forall q :: q in s.published ==> q in s.rows && (s.rows[q] ==> SentNow(s, q)))
  }

  ghost predicate SentNow(s: State, q: nat) {
    0 in s.deliveries && s.deliveries[0].sent <= |s.deliveries[0].batch|
      && q in s.deliveries[0].batch[..s.deliveries[0].sent]
  }

  ghost predicate BatchUnderWay(rows: map<nat, bool>, published: seq<nat>, d: Delivery) {
    && d.sent <= |d.batch| && Ascending(d.batch)
    && d.sent <= |published| && published[|published| - d.sent..] == d.batch[..d.sent]
    && (forall i :: 0 <= i < |d.batch| ==> IsPending(rows, d.batch[i]))
  }

  ghost predicate AllDeferred(s: State) {
    forall t :: t in s.txs ==> s.txs[t].deferred
  }

  lemma NotYetARow(s: State, t: nat, q: nat)
    requires Owned(s) && t in s.txs && s.txs[t].status.Open? && q in s.txs[t].events
    ensures q !in s.rows
  {
    assert q in s.rows ==> Comes(s, q, true);
  }

  lemma CommitKeepsOnce(s: State, t: nat)
    requires Owned(s) && OnceSoFar(s) && t in s.txs && s.txs[t].status.Open?
    ensures OnceSoFar(Next(s, Commit(t)))
  {
    forall q | q in s.txs[t].events ensures q !in s.rows { NotYetARow(s, t, q); }
  }

  lemma PublishKeepsOnce(s: State)
    requires OnceSoFar(s) && 0 in s.deliveries && s.deliveries[0].sent < |s.deliveries[0].batch|
    ensures OnceSoFar(Next(s, Publish(0)))
  {
    var s', d := Next(s, Publish(0)), s.deliveries[0];
    var q := d.batch[d.sent];
    assert q !in d.batch[..d.sent];
    assert IsPending(s.rows, q) && q !in s.published;
    assert d.batch[..d.sent + 1] == d.batch[..d.sent] + [q];
    assert s'.published[|s'.published| - d.sent - 1..] == s.published[|s.published| - d.sent..] + [q];
  }

  lemma MarkKeepsOnce(s: State)
    requires OnceSoFar(s) && 0 in s.deliveries && s.deliveries[0].sent == |s.deliveries[0].batch|
    ensures OnceSoFar(Next(s, Mark(0)))
  {
    var s', d := Next(s, Mark(0)), s.deliveries[0];
    assert d.batch[..d.sent] == d.batch;
  }

  lemma ListKeepsOnce(s: State, batch: seq<nat>, limit: nat)
    requires OnceSoFar(s) && 0 !in s.deliveries && IsPendingBatch(s.rows, batch, limit)
    ensures OnceSoFar(Next(s, List(0, batch, limit)))
  {
    assert s.published[|s.published|..] == batch[..0];
  }

  lemma StepKeepsOnce(s: State, step: Step)
    requires Owned(s) && OnceSoFar(s) && AllDeferred(s) && Orderly(step)
    ensures OnceSoFar(Next(s, step)) && AllDeferred(Next(s, step))
  {
    match step
    case Commit(t) => if t in s.txs && s.txs[t].status.Open? { CommitKeepsOnce(s, t); }
    case Publish(d) => if d in s.deliveries && s.deliveries[d].sent < |s.deliveries[d].batch| { PublishKeepsOnce(s); }
    case Mark(d) => if d in s.deliveries && s.deliveries[d].sent == |s.deliveries[d].batch| { MarkKeepsOnce(s); }
    case List(d, batch, limit) =>
      if d !in s.deliveries && IsPendingBatch(s.rows, batch, limit) { ListKeepsOnce(s, batch, limit); }
    case _ =>
  }

  lemma {:induction false} HistoryKeepsOnce(steps: seq<Step>)
    requires forall i :: 0 <= i < |steps| ==> Orderly(steps[i])
    ensures OnceSoFar(After(steps)) && AllDeferred(After(steps))
  {
    if steps != [] {
      HistoryKeepsOnce(steps[..|steps| - 1]);
      HistoryKeepsJustified(steps[..|steps| - 1]);
      StepKeepsOnce(After(steps[..|steps| - 1]), steps[|steps| - 1]);
    }
  }

  function Count(s: seq<nat>, q: nat): nat {
    multiset(s)[q]
  }

  lemma {:induction false} CountOnce(s: seq<nat>, q: nat)
    requires NoRepeats(s)
    ensures Count(s, q) == if q in s then 1 else 0
  {
    if s != [] {
      CountOnce(s[1..], q);
      assert s == [s[0]] + s[1..];
    }
  }

  /** With one dispatcher that does not crash and deferred transactions only, an event that
      is no longer pending was published exactly once, and no event more often. */
  lemma PublishedExactlyOnce(steps: seq<Step>, q: nat)
    requires forall i :: 0 <= i < |steps| ==> Orderly(steps[i])
    ensures Count(After(steps).published, q) <= 1
    ensures q in After(steps).rows && !After(steps).rows[q] ==> Count(After(steps).published, q) == 1
  {
    HistoryKeepsOnce(steps);
    HistoryDelivers(steps);
    CountOnce(After(steps).published, q);
  }

  // ----- one dispatch -----

  class Dispatcher {
    var rows: map<nat, bool>
    var published: seq<nat>

    constructor ()
      ensures rows == map[] && published == []
    {
      rows, published := map[], [];
    }

    method ListPending(limit: nat) returns (batch: seq<nat>)
      ensures IsPendingBatch(rows, batch, limit)
    {
      batch := [];
      var rest := set q | q in rows && rows[q];
      while rest != {} && |batch| < limit
        invariant Ascending(batch) && |batch| <= limit
        invariant forall q :: IsPending(rows, q) <==> q in rest || q in batch
        invariant forall q, i :: q in rest && 0 <= i < |batch| ==> batch[i] < q
        decreases rest
      {
        var q := Least(rest);
        batch := batch + [q];
        rest := rest - {q};
      }
    }

    method MarkBusDispatched(events: seq<nat>)
      modifies `rows
      ensures rows == MarkRows(old(rows), events)
    {
      rows := map q | q in rows :: rows[q] && q !in events;
    }

    /** Publish the first pending events in order, then mark exactly those. */
    method DispatchOnce(limit: nat) returns (batch: seq<nat>)
      modifies this
      ensures IsPendingBatch(old(rows), batch, limit)
      ensures published == old(published) + batch && rows == MarkRows(old(rows), batch)
    {
      batch := ListPending(limit);
      for i := 0 to |batch|
        invariant published == old(published) + batch[..i] && rows == old(rows)
      {
        published := published + [batch[i]];
      }
      MarkBusDispatched(batch);
    }
  }

  method Least(s: set<nat>) returns (q: nat)
    requires s != {}
    ensures q in s && forall p :: p in s ==> q <= p
  {
    q :| q in s;
    var rest := s - {q};
    while rest != {}
      invariant rest <= s && q in s && forall p :: p in s ==> p in rest || q <= p
      decreases rest
    {
      var p :| p in rest;
      if p < q {
        q := p;
      }
      rest := rest - {p};
    }
  }
}
