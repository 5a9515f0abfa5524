/** Which datasets lie downstream of the ones that advanced: through a job that consumes
    one dataset to the datasets that the job produces, any number of times. */
module Downstream {
  import opened Options
  import opened Strings

  datatype Dataset = Dataset(namespace: string, name: string)

  datatype Direction = Produces | Consumes | OtherDirection

  datatype Declaration = Declaration(job: nat, direction: Direction, namespace: Option<string>, name: string)

  function IdentityOf(d: Declaration): Dataset {
    Dataset(d.namespace.GetOr(""), Trim(d.name))
  }

  // ----- what the declarations say -----

  predicate Says(d: Declaration, job: nat, direction: Direction, id: Dataset) {
    d.job == job && d.direction == direction && IdentityOf(d) == id
  }

  ghost predicate Declared(ds: seq<Declaration>, job: nat, direction: Direction, id: Dataset) {
    exists i :: 0 <= i < |ds| && Says(ds[i], job, direction, id)
  }

  /** Some job consumes `a` and produces `b`. */
  ghost predicate Feeds(ds: seq<Declaration>, a: Dataset, b: Dataset) {
    exists job :: Declared(ds, job, Consumes, a) && Declared(ds, job, Produces, b)
  }

  ghost predicate IsPath(ds: seq<Declaration>, path: seq<Dataset>) {
    |path| > 0 && forall i :: 0 <= i < |path| - 1 ==> Feeds(ds, path[i], path[i + 1])
  }

  ghost predicate PathTo(ds: seq<Declaration>, start: seq<Dataset>, path: seq<Dataset>, x: Dataset) {
    IsPath(ds, path) && path[0] in start && path[|path| - 1] == x
  }

  ghost predicate Reachable(ds: seq<Declaration>, start: seq<Dataset>, x: Dataset) {
    exists path :: PathTo(ds, start, path, x)
  }

  lemma StartIsReachable(ds: seq<Declaration>, start: seq<Dataset>, x: Dataset)
    requires x in start
    ensures Reachable(ds, start, x)
  {
    assert PathTo(ds, start, [x], x);
  }

  lemma StepIsReachable(ds: seq<Declaration>, start: seq<Dataset>, a: Dataset, b: Dataset)
    requires Reachable(ds, start, a) && Feeds(ds, a, b)
    ensures Reachable(ds, start, b)
  {
    var path :| PathTo(ds, start, path, a);
    assert PathTo(ds, start, path + [b], b);
  }

  /** A set that holds the start and is closed under feeding holds everything reachable. */
  lemma {:induction false} ClosedHoldsPath(ds: seq<Declaration>, closed: set<Dataset>, path: seq<Dataset>)
    requires IsPath(ds, path) && path[0] in closed
    requires forall a, b :: a in closed && Feeds(ds, a, b) ==> b in closed
    ensures path[|path| - 1] in closed
  {
    if |path| > 1 {
      var front := path[..|path| - 1];
      assert IsPath(ds, front) && front[0] == path[0];
      ClosedHoldsPath(ds, closed, front);
      assert Feeds(ds, path[|path| - 2], path[|path| - 1]);
    }
  }

  // ----- the snapshot -----

  type Consumers = map<Dataset, seq<nat>>
  type Products = map<nat, seq<Dataset>>

  ghost predicate SnapshotOf(ds: seq<Declaration>, consumers: Consumers, products: Products) {
    && (forall id, job :: Lists(consumers, id, job) <==> Declared(ds, job, Consumes, id))
    && (forall job, id :: Lists(products, job, id) <==> Declared(ds, job, Produces, id))
  }

  lemma DeclaredMore(ds: seq<Declaration>, d: Declaration, job: nat, direction: Direction, id: Dataset)
    ensures Declared(ds + [d], job, direction, id) <==> Declared(ds, job, direction, id) || Says(d, job, direction, id)
  {
    if Says(d, job, direction, id) { assert (ds + [d])[|ds|] == d; }
    if i :| 0 <= i < |ds| && Says(ds[i], job, direction, id) { assert (ds + [d])[i] == ds[i]; }
  }

  function Appended<K(==), V>(m: map<K, seq<V>>, k: K, v: V): map<K, seq<V>> {
    m[k := (if k in m then m[k] else []) + [v]]
  }

  predicate Lists<K, V(==)>(m: map<K, seq<V>>, k: K, v: V) {
    k in m && v in m[k]
  }

  /** One more declaration. */
  lemma SnapshotMore(ds: seq<Declaration>, d: Declaration, consumers: Consumers, products: Products)
    requires SnapshotOf(ds, consumers, products)
    ensures SnapshotOf(ds + [d],
                       if d.direction == Consumes then Appended(consumers, IdentityOf(d), d.job) else consumers,
                                 if d.direction == Produces then Appended(products, d.job, IdentityOf(d)) else products)
  {
    forall id, job
      ensures Declared(ds + [d], job, Consumes, id) <==> Declared(ds, job, Consumes, id) || Says(d, job, Consumes, id)
      ensures Lists(Appended(consumers, IdentityOf(d), d.job), id, job) <==>
        Lists(consumers, id, job) || (id == IdentityOf(d) && job == d.job)
      ensures Declared(ds + [d], job, Produces, id) <==> Declared(ds, job, Produces, id) || Says(d, job, Produces, id)
      ensures Lists(Appended(products, d.job, IdentityOf(d)), job, id) <==>
        Lists(products, job, id) || (id == IdentityOf(d) && job == d.job)
    {
      DeclaredMore(ds, d, job, Consumes, id);
      DeclaredMore(ds, d, job, Produces, id);
    }
  }

  method NewSnapshot(ds: seq<Declaration>) returns (consumers: Consumers, products: Products)
    ensures SnapshotOf(ds, consumers, products)
  {
    consumers, products := map[], map[];
    for i := 0 to |ds|
      invariant SnapshotOf(ds[..i], consumers, products)
    {
      var d := ds[i];
      assert ds[..i + 1] == ds[..i] + [d];
      SnapshotMore(ds[..i], d, consumers, products);
      match d.direction
      case Produces => products := Appended(products, d.job, IdentityOf(d));
      case Consumes => consumers := Appended(consumers, IdentityOf(d), d.job);
      case OtherDirection =>
    }
    assert ds[..|ds|] == ds;
  }

  // ----- the search -----

  ghost predicate NoDuplicates(s: seq<Dataset>) {
    forall i, j :: 0 <= i < j < |s| ==> s[i] != s[j]
  }

  /** The datasets that the declarations name. */
  function Universe(ds: seq<Declaration>): set<Dataset> {
    set i | 0 <= i < |ds| :: IdentityOf(ds[i])
  }

  /** What the search knows, apart from which datasets still wait in the queue. */
  ghost predicate Collected(ds: seq<Declaration>, start: seq<Dataset>, seen: set<Dataset>, out: seq<Dataset>) {
    && NoDuplicates(out)
    && (forall x :: x in seen <==> x in start || x in out)
    && (forall x :: x in out ==> x !in start && x in Universe(ds) && Reachable(ds, start, x))
  }

  /** One job of the dataset at the head of the queue: whatever it produces is collected. */
  method VisitJob(ds: seq<Declaration>, start: seq<Dataset>, ghost cur: Dataset, ghost job: nat, produced: seq<Dataset>,
                  seen: set<Dataset>, out: seq<Dataset>, queue: seq<Dataset>)
    returns (seen': set<Dataset>, out': seq<Dataset>, queue': seq<Dataset>, ghost more: seq<Dataset>)
    requires Collected(ds, start, seen, out) && Reachable(ds, start, cur) && Declared(ds, job, Consumes, cur)
    requires forall b :: b in produced ==> Declared(ds, job, Produces, b)
    ensures Collected(ds, start, seen', out') && seen <= seen'
    ensures forall b :: b in produced ==> b in seen'
    ensures out' == out + more && queue' == queue + more
  {
    seen', out', queue', more := seen, out, queue, [];
    for i := 0 to |produced|
      invariant Collected(ds, start, seen', out') && seen <= seen'
      invariant forall j :: 0 <= j < i ==> produced[j] in seen'
      invariant out' == out + more && queue' == queue + more
    {
      var next := produced[i];
      if next !in seen' {
        assert Feeds(ds, cur, next);
        StepIsReachable(ds, start, cur, next);
        seen', out', queue' := seen' + {next}, out' + [next], queue' + [next];
        more := more + [next];
      }
    }
  }

  /** The head of the queue has been dealt with once all its consumers were visited. */
  method Expand(ds: seq<Declaration>, start: seq<Dataset>, cur: Dataset, consumers: Consumers, products: Products,
                seen: set<Dataset>, out: seq<Dataset>, queue: seq<Dataset>)
    returns (seen': set<Dataset>, out': seq<Dataset>, queue': seq<Dataset>, ghost more: seq<Dataset>)
    requires SnapshotOf(ds, consumers, products) && Collected(ds, start, seen, out) && Reachable(ds, start, cur)
    ensures Collected(ds, start, seen', out') && seen <= seen'
    ensures forall b :: Feeds(ds, cur, b) ==> b in seen'
    ensures out' == out + more && queue' == queue + more
  {
    seen', out', queue', more := seen, out, queue, [];
    var jobs := if cur in consumers then consumers[cur] else [];
    for i := 0 to |jobs|
      invariant Collected(ds, start, seen', out') && seen <= seen'
      invariant forall j, b :: 0 <= j < i && Lists(products, jobs[j], b) ==> b in seen'
      invariant out' == out + more && queue' == queue + more
    {
      assert Lists(consumers, cur, jobs[i]);
      var produced := if jobs[i] in products then products[jobs[i]] else [];
      assert forall b :: b in produced <==> Lists(products, jobs[i], b);
      ghost var extra: seq<Dataset>;
      seen', out', queue', extra := VisitJob(ds, start, cur, jobs[i], produced, seen', out', queue');
      more := more + extra;
    }
    forall b | Feeds(ds, cur, b) ensures b in seen' {
      var job :| Declared(ds, job, Consumes, cur) && Declared(ds, job, Produces, b);
      assert Lists(consumers, cur, job) && Lists(products, job, b);
    }
  }

  /** Either something new was collected or nothing changed. */
  lemma Progress(ds: seq<Declaration>, start: seq<Dataset>, seen: set<Dataset>, out: seq<Dataset>,
                 seen': set<Dataset>, more: seq<Dataset>)
    requires Collected(ds, start, seen, out) && Collected(ds, start, seen', out + more)
    ensures forall x :: x in seen' <==> x in seen || x in more
    ensures if more == [] then seen' == seen else Universe(ds) - seen' < Universe(ds) - seen
  {
    assert forall x :: x in out + more <==> x in out || x in more;
    if more != [] {
      var x := more[0];
      assert (out + more)[|out|] == x && x in out + more;
      forall i | 0 <= i < |out| ensures out[i] != x { assert (out + more)[i] == out[i]; }
    }
  }

  /** The search ends on every set of declarations, cyclic or not. It returns without
      duplicates exactly what is reachable, less the start itself. */
  method DownstreamOf(ds: seq<Declaration>, start: seq<Dataset>) returns (out: seq<Dataset>)
    ensures NoDuplicates(out)
    ensures forall x :: x in out <==> Reachable(ds, start, x) && x !in start
  {
    var consumers, products := NewSnapshot(ds);
    var seen := set x | x in start;
    var queue := start;
    out := [];
    ghost var expanded: set<Dataset> := {};
    forall x | x in start ensures Reachable(ds, start, x) { StartIsReachable(ds, start, x); }
    while |queue| > 0
      invariant Collected(ds, start, seen, out)
      invariant forall x :: x in seen <==> x in expanded || x in queue
      invariant forall a, b :: a in expanded && Feeds(ds, a, b) ==> b in seen
      decreases Universe(ds) - seen, |queue|
    {
      var cur := queue[0];
      assert cur in seen && Reachable(ds, start, cur);
      assert queue == [cur] + queue[1..];
      ghost var before, found, more := seen, out, [];
      seen, out, queue, more := Expand(ds, start, cur, consumers, products, seen, out, queue[1..]);
      expanded := expanded + {cur};
      Progress(ds, start, before, found, seen, more);
    }
    forall x | Reachable(ds, start, x) ensures x in seen {
      var path :| PathTo(ds, start, path, x);
      ClosedHoldsPath(ds, seen, path);
    }
  }

  /** The declaration is of this dataset: names count without the white space around them, and no
      namespace is the empty one. */
  predicate IsOf(d: Declaration, direction: Direction, id: Dataset) {
    && d.direction == direction && Trim(d.name) == id.name
    && (d.namespace == Some(id.namespace) || (d.namespace == None && |id.namespace| == 0))
  }

  /** A dataset feeds another exactly if some job declares that it consumes the one and produces
      the other. */
  lemma FeedsExactlyWhen(ds: seq<Declaration>, a: Dataset, b: Dataset)
    ensures Feeds(ds, a, b) <==>
      exists c, p :: c in ds && p in ds && c.job == p.job && IsOf(c, Consumes, a) && IsOf(p, Produces, b)
  {
    if Feeds(ds, a, b) {
      var job :| Declared(ds, job, Consumes, a) && Declared(ds, job, Produces, b);
      var i :| 0 <= i < |ds| && Says(ds[i], job, Consumes, a);
      var j :| 0 <= j < |ds| && Says(ds[j], job, Produces, b);
      assert IsOf(ds[i], Consumes, a) && IsOf(ds[j], Produces, b);
    }
    if c, p :| c in ds && p in ds && c.job == p.job && IsOf(c, Consumes, a) && IsOf(p, Produces, b) {
      assert Says(c, c.job, Consumes, a) && Says(p, c.job, Produces, b);
      assert Declared(ds, c.job, Consumes, a) && Declared(ds, c.job, Produces, b);
    }
  }
}
