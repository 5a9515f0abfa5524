/** How often an event is published: once for every delivery that takes it up and gets to it. */
module OutboxRepeats {
  import opened EventOutbox

  /** Step `i` publishes the event. */
  ghost predicate SendsAt(steps: seq<Step>, i: nat, q: nat) {
    && i < |steps| && steps[i].Publish?
    && steps[i].d in After(steps[..i]).deliveries
    && var d := After(steps[..i]).deliveries[steps[i].d]; d.sent < |d.batch| && d.batch[d.sent] == q
  }

  /** Step `k` starts delivery `d`, which is still under way before step `i`. */
  ghost predicate UnderWay(steps: seq<Step>, k: nat, i: nat, d: nat) {
    && k < i <= |steps| && d !in After(steps[..k]).deliveries
    && forall j :: k < j <= i ==> d in After(steps[..j]).deliveries
  }

  /** Step `k` starts a delivery that gets to publish the event. */
  ghost predicate Delivers(steps: seq<Step>, k: nat, q: nat) {
    exists i: nat :: SendsAt(steps, i, q) && UnderWay(steps, k, i, steps[i].d)
  }

  ghost function Deliverers(steps: seq<Step>, q: nat): set<nat> {
    set k | 0 <= k < |steps| && Delivers(steps, k, q)
  }

  // ----- one delivery publishes an event once -----

  /** The numbers of a transaction ascend. */
  ghost predicate NumbersAscend(next: nat, txs: map<nat, Tx>) {
    forall t :: t in txs ==>
      Ascending(txs[t].events) && forall i :: 0 <= i < |txs[t].events| ==> txs[t].events[i] < next
  }

  ghost predicate BatchesDistinct(deliveries: map<nat, Delivery>) {
    forall d :: d in deliveries ==> NoRepeats(deliveries[d].batch)
  }

  lemma StepKeepsNumbers(s: State, step: Step)
    requires NumbersAscend(s.next, s.txs)
    ensures NumbersAscend(Next(s, step).next, Next(s, step).txs)
  {
  }

  lemma StepKeepsBatches(s: State, step: Step)
    requires NumbersAscend(s.next, s.txs) && BatchesDistinct(s.deliveries)
    ensures BatchesDistinct(Next(s, step).deliveries)
  {
  }

  lemma {:induction false} HistoryKeepsDistinct(steps: seq<Step>)
    ensures NumbersAscend(After(steps).next, After(steps).txs) && BatchesDistinct(After(steps).deliveries)
  {
    if steps != [] {
      HistoryKeepsDistinct(steps[..|steps| - 1]);
      StepKeepsNumbers(After(steps[..|steps| - 1]), steps[|steps| - 1]);
      StepKeepsBatches(After(steps[..|steps| - 1]), steps[|steps| - 1]);
    }
  }

  lemma StepKeepsDelivery(s: State, step: Step, d: nat)
    requires d in s.deliveries && d in Next(s, step).deliveries
    ensures Next(s, step).deliveries[d].batch == s.deliveries[d].batch
    ensures Next(s, step).deliveries[d].sent >= s.deliveries[d].sent
  {
  }

  lemma StepOf(steps: seq<Step>, i: nat)
    requires i < |steps|
    ensures After(steps[..i + 1]) == Next(After(steps[..i]), steps[i])
  {
    assert steps[..i + 1][..i] == steps[..i];
  }

  lemma {:induction false} DeliveryGoesOn(steps: seq<Step>, k: nat, j: nat, i: nat, d: nat)
    requires UnderWay(steps, k, i, d) && k < j <= i
    ensures After(steps[..j]).deliveries[d].batch == After(steps[..i]).deliveries[d].batch
    ensures After(steps[..j]).deliveries[d].sent <= After(steps[..i]).deliveries[d].sent
  {
    if j < i {
      DeliveryGoesOn(steps, k, j, i - 1, d);
      StepOf(steps, i - 1);
      StepKeepsDelivery(After(steps[..i - 1]), steps[i - 1], d);
    }
  }

  lemma SendsEarlierOnly(steps: seq<Step>, k: nat, i: nat, j: nat, q: nat)
    requires SendsAt(steps, i, q) && SendsAt(steps, j, q) && steps[i].d == steps[j].d && i < j
    ensures !UnderWay(steps, k, j, steps[j].d) || i <= k
  {
    var d := steps[j].d;
    if UnderWay(steps, k, j, d) && k < i {
      StepOf(steps, i);
      DeliveryGoesOn(steps, k, i + 1, j, d);
      DeliveryGoesOn(steps, k, i, j, d);
      HistoryKeepsDistinct(steps[..j]);
    }
  }

  /** A step starts at most one delivery. */
  lemma OneStart(s: State, step: Step, d: nat)
    requires d !in s.deliveries && d in Next(s, step).deliveries
    ensures (step.List? || step.Immediate?) && step.d == d
  {
  }

  lemma DeliversOnce(steps: seq<Step>, k: nat, i: nat, j: nat, q: nat)
    requires SendsAt(steps, i, q) && SendsAt(steps, j, q) && i < j
    requires UnderWay(steps, k, i, steps[i].d)
    ensures !UnderWay(steps, k, j, steps[j].d)
  {
    if UnderWay(steps, k, j, steps[j].d) {
      StepOf(steps, k);
      OneStart(After(steps[..k]), steps[k], steps[i].d);
      OneStart(After(steps[..k]), steps[k], steps[j].d);
      SendsEarlierOnly(steps, k, i, j, q);
    }
  }

  // ----- as often as it is delivered -----

  lemma {:induction false} Started(steps: seq<Step>, i: nat, d: nat) returns (k: nat)
    requires i <= |steps| && d in After(steps[..i]).deliveries
    ensures UnderWay(steps, k, i, d)
  {
    if d in After(steps[..i - 1]).deliveries {
      k := Started(steps, i - 1, d);
    } else {
      k := i - 1;
    }
  }

  lemma PrefixSends(steps: seq<Step>, n: nat, i: nat, q: nat)
    requires i < n <= |steps|
    ensures SendsAt(steps[..n], i, q) <==> SendsAt(steps, i, q)
  {
    assert steps[..n][..i] == steps[..i];
  }

  lemma PrefixUnderWay(steps: seq<Step>, n: nat, k: nat, i: nat, d: nat)
    requires i <= n <= |steps|
    ensures UnderWay(steps[..n], k, i, d) <==> UnderWay(steps, k, i, d)
  {
    assert forall j :: 0 <= j <= n ==> steps[..n][..j] == steps[..j];
  }

  /** Whom the last step adds. */
  lemma DeliversMore(steps: seq<Step>, k: nat, q: nat)
    requires steps != []
    ensures var n := |steps| - 1;
      Delivers(steps, k, q)
      <==> Delivers(steps[..n], k, q) || (SendsAt(steps, n, q) && UnderWay(steps, k, n, steps[n].d))
  {
    var n := |steps| - 1;
    forall i | 0 <= i < n
      ensures SendsAt(steps[..n], i, q) && UnderWay(steps[..n], k, i, steps[..n][i].d)
         <==> SendsAt(steps, i, q) && UnderWay(steps, k, i, steps[i].d)
    {
      PrefixSends(steps, n, i, q);
      if steps[i].Publish? { PrefixUnderWay(steps, n, k, i, steps[i].d); }
    }
  }

  lemma NewDeliverer(steps: seq<Step>, k: nat, q: nat)
    requires steps != [] && SendsAt(steps, |steps| - 1, q) && UnderWay(steps, k, |steps| - 1, steps[|steps| - 1].d)
    ensures !Delivers(steps[..|steps| - 1], k, q)
  {
    var n := |steps| - 1;
    forall i: nat | SendsAt(steps[..n], i, q) ensures !UnderWay(steps[..n], k, i, steps[..n][i].d) {
      PrefixSends(steps, n, i, q);
      PrefixUnderWay(steps, n, k, i, steps[i].d);
      if UnderWay(steps, k, i, steps[i].d) { DeliversOnce(steps, k, i, n, q); }
    }
  }

  lemma OnlyStart(steps: seq<Step>, k: nat, l: nat, i: nat, d: nat)
    requires UnderWay(steps, k, i, d) && UnderWay(steps, l, i, d)
    ensures k == l
  {
  }

  lemma DeliverersMore(steps: seq<Step>, q: nat)
    requires steps != []
    ensures |Deliverers(steps, q)|
         == |Deliverers(steps[..|steps| - 1], q)| + if SendsAt(steps, |steps| - 1, q) then 1 else 0
  {
    var n := |steps| - 1;
    var before, now := Deliverers(steps[..n], q), Deliverers(steps, q);
    forall k: nat { DeliversMore(steps, k, q); }
    if SendsAt(steps, n, q) {
      var k := Started(steps, n, steps[n].d);
      forall l: nat | UnderWay(steps, l, n, steps[n].d) { OnlyStart(steps, k, l, n, steps[n].d); }
      NewDeliverer(steps, k, q);
      assert now == before + {k};
    } else {
      assert now == before;
    }
  }

  lemma CountMore(s: State, step: Step, q: nat)
    ensures Count(Next(s, step).published, q) == Count(s.published, q)
      + if step.Publish? && step.d in s.deliveries && s.deliveries[step.d].sent < |s.deliveries[step.d].batch|
           && s.deliveries[step.d].batch[s.deliveries[step.d].sent] == q then 1 else 0
  {
  }

  /** In every history, crashes and rival dispatchers included, an event is published exactly
      as often as a delivery that took it up gets to it. */
  lemma {:induction false} PublishedOncePerDelivery(steps: seq<Step>, q: nat)
    ensures Count(After(steps).published, q) == |Deliverers(steps, q)|
  {
    if steps == [] {
      assert Deliverers(steps, q) == {};
    } else {
      var n := |steps| - 1;
      PublishedOncePerDelivery(steps[..n], q);
      DeliverersMore(steps, q);
      CountMore(After(steps[..n]), steps[n], q);
    }
  }

  lemma StartTakesUp(s: State, step: Step, d: nat, q: nat)
    requires d !in s.deliveries && d in Next(s, step).deliveries && q in Next(s, step).deliveries[d].batch
    ensures step.List? || step.Immediate?
    ensures step.List? ==> IsPending(s.rows, q)
    ensures step.Immediate? ==> step.t in s.txs && !s.txs[step.t].deferred && q in s.txs[step.t].events
  {
    OneStart(s, step, d);
  }

  /** An event is taken up while it is pending, or by the publisher of its own transaction. */
  lemma TakenUpWhilePending(steps: seq<Step>, k: nat, q: nat)
    requires Delivers(steps, k, q)
    ensures k < |steps|
    ensures var s := After(steps[..k]);
      || (steps[k].List? && IsPending(s.rows, q))
      || (steps[k].Immediate? && steps[k].t in s.txs && !s.txs[steps[k].t].deferred && q in s.txs[steps[k].t].events)
  {
    var i: nat :| SendsAt(steps, i, q) && UnderWay(steps, k, i, steps[i].d);
    DeliveryGoesOn(steps, k, k + 1, i, steps[i].d);
    StepOf(steps, k);
    StartTakesUp(After(steps[..k]), steps[k], steps[i].d, q);
  }

  lemma TwoMembers(s: set<nat>)
    ensures |s| >= 2 <==> exists k, l :: k in s && l in s && k != l
  {
    if k :| k in s {
      assert |s - {k}| == |s| - 1;
      if |s| >= 2 {
        var l :| l in s - {k};
        assert l in s;
      } else {
        assert s - {k} == {};
        assert s == {k};
      }
    }
  }

  /** An event is published more than once exactly when two deliveries each take it up and get
      to it. */
  lemma RepeatedExactlyWhen(steps: seq<Step>, q: nat)
    ensures Count(After(steps).published, q) >= 2
       <==> exists k, l :: k in Deliverers(steps, q) && l in Deliverers(steps, q) && k != l
  {
    PublishedOncePerDelivery(steps, q);
    TwoMembers(Deliverers(steps, q));
  }

  // ----- a crash -----

  lemma AfterMore(steps: seq<Step>, step: Step)
    ensures After(steps + [step]) == Next(After(steps), step)
  {
    assert (steps + [step])[..|steps|] == steps;
  }

  lemma PublishAfterCrash(s: State, d: nat, batch: seq<nat>, limit: nat)
    requires batch != [] && IsPendingBatch(s.rows, batch, limit)
    ensures Next(Next(Next(s, Crash(d)), List(d, batch, limit)), Publish(d)).published == s.published + [batch[0]]
  {
    var s' := Next(s, Crash(d));
    assert d !in s'.deliveries && s'.rows == s.rows;
    var s'' := Next(s', List(d, batch, limit));
    assert s''.deliveries[d] == Delivery(batch, 0);
  }

  /** A crash between publishing and marking makes the next dispatch publish again. */
  lemma CrashPublishesAgain(steps: seq<Step>, d: nat, limit: nat)
    requires d in After(steps).deliveries && After(steps).deliveries[d].batch != []
    requires After(steps).deliveries[d].sent == |After(steps).deliveries[d].batch|
    requires IsPendingBatch(After(steps).rows, After(steps).deliveries[d].batch, limit)
    ensures var batch := After(steps).deliveries[d].batch;
      Count(After(steps + [Crash(d)] + [List(d, batch, limit)] + [Publish(d)]).published, batch[0]) >= 2
  {
    var s := After(steps);
    var batch := s.deliveries[d].batch;
    var one := steps + [Crash(d)];
    var two := one + [List(d, batch, limit)];
    AfterMore(steps, Crash(d));
    AfterMore(one, List(d, batch, limit));
    AfterMore(two, Publish(d));
    PublishAfterCrash(s, d, batch, limit);
    HistoryDelivers(steps);
    assert batch[0] in multiset(s.published);
  }
}
