/** What transactions and dispatches that nobody disturbs leave in the outbox. */
module OutboxRuns {
  import opened EventOutbox

  // ----- transactions -----

  /** A transaction that commits adds its events, numbered from the next number on and pending;
      all other rows stay as they were. */
  lemma CommitAdds(s: State, t: nat, deferred: bool, count: nat, q: nat)
    requires t !in s.txs
    ensures var s' := Next(Next(Next(s, BeginTx(t, deferred)), Append(t, count)), Commit(t));
      && s'.next == s.next + count && s'.published == s.published && s'.deliveries == s.deliveries
      && (q in s'.rows <==> q in s.rows || s.next <= q < s.next + count)
      && (s.next <= q < s.next + count ==> s'.rows[q])
      && (q in s.rows && !(s.next <= q < s.next + count) ==> s'.rows[q] == s.rows[q])
      && s'.txs == s.txs[t := Tx(Fresh(s.next, count), deferred, Committed)]
  {
    FreshNumbers(s.next, count, q);
    var begun := Next(s, BeginTx(t, deferred));
    assert begun.txs[t] == Tx([], deferred, Open) && [] + Fresh(s.next, count) == Fresh(s.next, count);
  }

  /** The new numbers, in order. */
  lemma FreshInOrder(next: nat, count: nat, i: nat)
    requires i < count
    ensures |Fresh(next, count)| == count && Fresh(next, count)[i] == next + i
  {
  }

  /** A transaction that is rolled back adds nothing, and neither a commit nor an immediate
      publisher that comes later does anything for it. */
  lemma RollbackLeavesNothing(s: State, t: nat, deferred: bool, count: nat, d: nat)
    requires t !in s.txs
    ensures var s' := Next(Next(Next(s, BeginTx(t, deferred)), Append(t, count)), Rollback(t));
      && s'.rows == s.rows && s'.published == s.published && s'.deliveries == s.deliveries
      && Next(s', Commit(t)) == s' && Next(s', Append(t, count)) == s' && Next(s', Immediate(d, t)) == s'
  {
  }

  // ----- dispatches -----

  ghost function PublishMany(s: State, d: nat, n: nat): State {
    if n == 0 then s else Next(PublishMany(s, d, n - 1), Publish(d))
  }

  lemma {:induction false} PublishedSoFar(s: State, d: nat, batch: seq<nat>, n: nat)
    requires d in s.deliveries && s.deliveries[d] == Delivery(batch, 0) && n <= |batch|
    ensures PublishMany(s, d, n)
         == s.(published := s.published + batch[..n], deliveries := s.deliveries[d := Delivery(batch, n)])
  {
    if n == 0 {
      assert s.published + batch[..0] == s.published && s.deliveries[d := Delivery(batch, 0)] == s.deliveries;
    } else {
      PublishedSoFar(s, d, batch, n - 1);
      assert s.published + batch[..n] == s.published + batch[..n - 1] + [batch[n - 1]];
      var before, after := Delivery(batch, n - 1), Delivery(batch, n);
      assert s.deliveries[d := before][d := after] == s.deliveries[d := after];
    }
  }

  lemma DeliveryEnds(s: State, d: nat, batch: seq<nat>)
    requires d in s.deliveries && s.deliveries[d] == Delivery(batch, 0)
    ensures var s' := Next(PublishMany(s, d, |batch|), Mark(d));
      && s' == s.(published := s.published + batch, rows := s'.rows, deliveries := s.deliveries - {d})
      && s'.rows.Keys == s.rows.Keys
      && forall q :: q in s.rows ==> (s'.rows[q] <==> s.rows[q] && q !in batch)
  {
    PublishedSoFar(s, d, batch, |batch|);
    assert batch[..|batch|] == batch;
    MarkEnds(s, d, batch);
  }

  lemma MarkEnds(s: State, d: nat, batch: seq<nat>)
    ensures var sent := s.(published := s.published + batch, deliveries := s.deliveries[d := Delivery(batch, |batch|)]);
      var s' := Next(sent, Mark(d));
      && s' == s.(published := s.published + batch, rows := s'.rows, deliveries := s.deliveries - {d})
      && s'.rows.Keys == s.rows.Keys
      && forall q :: q in s.rows ==> (s'.rows[q] <==> s.rows[q] && q !in batch)
  {
    assert s.deliveries[d := Delivery(batch, |batch|)] - {d} == s.deliveries - {d};
  }

  /** A dispatch that nobody disturbs publishes its batch in order, and its events, no others,
      are pending no more. */
  lemma DispatchDelivers(s: State, d: nat, batch: seq<nat>, limit: nat)
    requires d !in s.deliveries && IsPendingBatch(s.rows, batch, limit)
    ensures var s' := Next(PublishMany(Next(s, List(d, batch, limit)), d, |batch|), Mark(d));
      && s' == s.(published := s.published + batch, rows := s'.rows) && s'.rows.Keys == s.rows.Keys
      && forall q :: q in s.rows ==> (s'.rows[q] <==> s.rows[q] && q !in batch)
  {
    var listed := Next(s, List(d, batch, limit));
    DeliveryEnds(listed, d, batch);
    assert listed.deliveries - {d} == s.deliveries;
  }

  /** So does an immediate publisher, for the events of its transaction. */
  lemma ImmediateDelivers(s: State, d: nat, t: nat)
    requires d !in s.deliveries && t in s.txs && !s.txs[t].deferred && s.txs[t].status != RolledBack
    ensures var events := s.txs[t].events;
      var s' := Next(PublishMany(Next(s, Immediate(d, t)), d, |events|), Mark(d));
      && s' == s.(published := s.published + events, rows := s'.rows) && s'.rows.Keys == s.rows.Keys
      && forall q :: q in s.rows ==> (s'.rows[q] <==> s.rows[q] && q !in events)
  {
    var begun := Next(s, Immediate(d, t));
    DeliveryEnds(begun, d, s.txs[t].events);
    assert begun.deliveries - {d} == s.deliveries;
  }

  // ----- which events a dispatch takes -----

  function PendingBelow(rows: map<nat, bool>, q: nat): set<nat> {
    set p | p in rows && rows[p] && p < q
  }

  function Members(batch: seq<nat>): set<nat> {
    set p | p in batch
  }

  lemma OneMember(front: seq<nat>, q: nat)
    requires q !in front
    ensures |Members(front + [q])| == |Members(front)| + 1
  {
    assert Members(front + [q]) == Members(front) + {q};
  }

  lemma {:induction false} AscendingCount(batch: seq<nat>)
    requires Ascending(batch)
    ensures |Members(batch)| == |batch|
  {
    if batch != [] {
      var front, q := batch[..|batch| - 1], batch[|batch| - 1];
      AscendingCount(front);
      OneMember(front, q);
      assert batch == front + [q];
    }
  }

  lemma Fewer(a: set<nat>, b: set<nat>)
    requires a <= b
    ensures |a| <= |b|
  {
    assert b == a + (b - a);
  }

  /** The event is pending and has fewer than `limit` pending ones before it. */
  predicate IsAmongFirst(rows: map<nat, bool>, limit: nat, q: nat) {
    q in rows && rows[q] && |PendingBelow(rows, q)| < limit
  }

  lemma InBatchExactlyWhen(rows: map<nat, bool>, batch: seq<nat>, limit: nat, q: nat)
    requires IsPendingBatch(rows, batch, limit)
    ensures q in batch <==> IsAmongFirst(rows, limit, q)
  {
    if q in batch {
      var i :| 0 <= i < |batch| && batch[i] == q;
      AscendingCount(batch[..i]);
      forall p | p in PendingBelow(rows, q) ensures p in batch[..i] {
        assert IsPending(rows, p) && p in batch;
        var j :| 0 <= j < |batch| && batch[j] == p;
        assert batch[..i][j] == p;
      }
      Fewer(PendingBelow(rows, q), Members(batch[..i]));
    } else if q in rows && rows[q] {
      assert IsPending(rows, q) && |batch| == limit;
      AscendingCount(batch);
      forall p | p in batch ensures p in PendingBelow(rows, q) {
        var j :| 0 <= j < |batch| && batch[j] == p;
        assert IsPending(rows, batch[j]);
      }
      Fewer(Members(batch), PendingBelow(rows, q));
    }
  }

  /** The last of the batch has all others before it, so there are not too many. */
  lemma NotTooMany(rows: map<nat, bool>, batch: seq<nat>, limit: nat)
    requires Ascending(batch) && forall q :: q in batch <==> IsAmongFirst(rows, limit, q)
    ensures |batch| <= limit
  {
    if batch != [] {
      var front, last := batch[..|batch| - 1], batch[|batch| - 1];
      assert last in batch && forall p :: p in front ==> p in batch;
      forall p | p in Members(front) ensures p in PendingBelow(rows, last) {
        var j :| 0 <= j < |front| && front[j] == p;
        assert batch[j] < last && IsAmongFirst(rows, limit, batch[j]);
      }
      AscendingCount(front);
      Fewer(Members(front), PendingBelow(rows, last));
    }
  }

  /** A pending event that is left out has as many before it as the limit allows, all in the batch. */
  lemma LeftOutIsBehind(rows: map<nat, bool>, batch: seq<nat>, limit: nat, q: nat)
    requires Ascending(batch) && forall p :: p in batch <==> IsAmongFirst(rows, limit, p)
    requires q in rows && rows[q] && q !in batch
    ensures |batch| == limit && forall i :: 0 <= i < |batch| ==> batch[i] < q
  {
    forall i | 0 <= i < |batch| ensures batch[i] < q {
      assert batch[i] in batch;
      if q < batch[i] { Fewer(PendingBelow(rows, q), PendingBelow(rows, batch[i])); }
    }
    NotTooMany(rows, batch, limit);
    AscendingCount(batch);
    var missing := PendingBelow(rows, q) - Members(batch);
    forall x | x in PendingBelow(rows, q) ensures x in Members(batch) || x in missing {}
    if missing == {} {
      Fewer(PendingBelow(rows, q), Members(batch));
    } else {
      var p := LeastOf(missing);
      forall x | x in PendingBelow(rows, p) ensures x in Members(batch) {
        assert x in PendingBelow(rows, q) && x !in missing;
      }
      Fewer(PendingBelow(rows, p), Members(batch));
      assert p !in batch && p in rows && rows[p];
    }
  }

  lemma {:induction false} LeastOf(s: set<nat>) returns (p: nat)
    requires s != {}
    ensures p in s && forall x :: x in s ==> p <= x
  {
    var first :| first in s;
    var rest := s - {first};
    p := first;
    if rest != {} {
      var least := LeastOf(rest);
      if least < first { p := least; }
    }
    assert forall x :: x in s ==> x == first || x in rest;
  }

  /** A batch is exactly the pending events that have fewer than `limit` pending ones before them,
      in ascending order. */
  lemma BatchExactlyWhen(rows: map<nat, bool>, batch: seq<nat>, limit: nat)
    ensures IsPendingBatch(rows, batch, limit) <==>
      (forall i, j :: 0 <= i < j < |batch| ==> batch[i] < batch[j])
      && forall q :: q in batch <==> IsAmongFirst(rows, limit, q)
  {
    if IsPendingBatch(rows, batch, limit) {
      forall q { InBatchExactlyWhen(rows, batch, limit, q); }
    } else if Ascending(batch) && forall q :: q in batch <==> IsAmongFirst(rows, limit, q) {
      NotTooMany(rows, batch, limit);
      forall i | 0 <= i < |batch| ensures IsPending(rows, batch[i]) { assert batch[i] in batch; }
      forall q | IsPending(rows, q) && q !in batch
        ensures |batch| == limit && forall i :: 0 <= i < |batch| ==> batch[i] < q
      {
        LeftOutIsBehind(rows, batch, limit, q);
      }
    }
  }
}
