/** The cross-job checks over declared datasets: one producer per dataset, every consumed
    dataset resolved, no cycle of jobs feeding each other. */
module DatasetGraph {
  import opened Strings
  import opened CycleDetection

  datatype Direction = Produces | Consumes | Source | OtherDirection

  datatype Declaration = Declaration(name: string, alias: string, direction: Direction)

  datatype Verdict =
    | Valid
    | MultipleProducers(name: string)
    | UnresolvedConsumes(job: string, name: string)
    | DependencyCycle(path: seq<string>)

  // ----- what the declarations say -----

  /** `d` names dataset `n` in the given direction. */
  predicate Declares(d: Declaration, dir: Direction, n: string) {
    d.direction == dir && Trim(d.name) == n && n != ""
  }

  ghost predicate Declared(ds: seq<Declaration>, dir: Direction, n: string) {
    exists d :: d in ds && Declares(d, dir, n)
  }

  ghost predicate DeclaredBy(ds: seq<Declaration>, dir: Direction, n: string, job: string) {
    exists d :: d in ds && Declares(d, dir, n) && Trim(d.alias) == job
  }

  /** A named job produces the dataset. */
  ghost predicate ProducedBy(ds: seq<Declaration>, n: string, job: string) {
    job != "" && DeclaredBy(ds, Produces, n, job)
  }

  ghost predicate SingleProducer(ds: seq<Declaration>, n: string) {
    forall j, k :: ProducedBy(ds, n, j) && ProducedBy(ds, n, k) ==> j == k
  }

  ghost predicate Resolved(ds: seq<Declaration>, n: string) {
    Declared(ds, Produces, n) || Declared(ds, Source, n)
  }

  /** Job `c` consumes a dataset that job `p`, another one, produces. */
  ghost predicate Feeds(ds: seq<Declaration>, p: string, c: string) {
    p != c && c != "" && exists n :: ProducedBy(ds, n, p) && DeclaredBy(ds, Consumes, n, c)
  }

  /** The jobs can be ranked so that every job ranks above the jobs it consumes from. */
  ghost predicate Rankable(ds: seq<Declaration>) {
    exists rank :: RanksJobs(ds, rank)
  }

  ghost predicate RanksJobs(ds: seq<Declaration>, rank: map<string, int>) {
    forall p, c :: Feeds(ds, p, c) ==> p in rank && c in rank && rank[p] < rank[c]
  }

  // ----- the tables that the validator fills -----

  type Producers = map<string, set<string>>

  ghost predicate TablesFor(ds: seq<Declaration>, producers: Producers, sources: set<string>,
                            consumes: seq<(string, string)>) {
    ProducersFor(ds, producers) && SourcesFor(ds, sources) && ConsumesFor(ds, consumes)
  }

  ghost predicate ProducersFor(ds: seq<Declaration>, producers: Producers) {
    && (forall n :: n in producers <==> Declared(ds, Produces, n))
    && (forall n, j :: n in producers && j in producers[n] <==> ProducedBy(ds, n, j))
  }

  ghost predicate SourcesFor(ds: seq<Declaration>, sources: set<string>) {
    forall n :: n in sources <==> Declared(ds, Source, n)
  }

  ghost predicate ConsumesFor(ds: seq<Declaration>, consumes: seq<(string, string)>) {
    forall j, n :: (j, n) in consumes <==> DeclaredBy(ds, Consumes, n, j)
  }

  lemma DeclaredMore(ds: seq<Declaration>, d: Declaration, dir: Direction, n: string)
    ensures Declared(ds + [d], dir, n) <==> Declared(ds, dir, n) || Declares(d, dir, n)
  {
    if Declares(d, dir, n) { assert d in ds + [d]; }
    if x :| x in ds && Declares(x, dir, n) { assert x in ds + [d]; }
  }

  lemma DeclaredByMore(ds: seq<Declaration>, d: Declaration, dir: Direction, n: string, job: string)
    ensures DeclaredBy(ds + [d], dir, n, job) <==>
              DeclaredBy(ds, dir, n, job) || (Declares(d, dir, n) && Trim(d.alias) == job)
  {
    if Declares(d, dir, n) { assert d in ds + [d]; }
    if x :| x in ds && Declares(x, dir, n) && Trim(x.alias) == job { assert x in ds + [d]; }
  }

  function Owners(producers: Producers, n: string): set<string> {
    if n in producers then producers[n] else {}
  }

  function WithOwner(producers: Producers, n: string, job: string): Producers {
    producers[n := if job != "" then Owners(producers, n) + {job} else Owners(producers, n)]
  }

  lemma ProducersMore(ds: seq<Declaration>, d: Declaration, producers: Producers)
    requires ProducersFor(ds, producers)
    ensures ProducersFor(ds + [d],
                         if Declares(d, Produces, Trim(d.name)) then WithOwner(producers, Trim(d.name), Trim(d.alias))
                         else producers)
  {
    forall n ensures Declared(ds + [d], Produces, n) <==> Declared(ds, Produces, n) || Declares(d, Produces, n) {
      DeclaredMore(ds, d, Produces, n);
    }
    forall n, j ensures DeclaredBy(ds + [d], Produces, n, j) <==>
        DeclaredBy(ds, Produces, n, j) || (Declares(d, Produces, n) && Trim(d.alias) == j) {
      DeclaredByMore(ds, d, Produces, n, j);
    }
  }

  lemma SourcesMore(ds: seq<Declaration>, d: Declaration, sources: set<string>)
    requires SourcesFor(ds, sources)
    ensures SourcesFor(ds + [d], if Declares(d, Source, Trim(d.name)) then sources + {Trim(d.name)} else sources)
  {
    forall n ensures Declared(ds + [d], Source, n) <==> Declared(ds, Source, n) || Declares(d, Source, n) {
      DeclaredMore(ds, d, Source, n);
    }
  }

  method ReadDeclaration(ghost ds: seq<Declaration>, d: Declaration, producers0: Producers,
                         sources0: set<string>, consumes0: seq<(string, string)>)
    returns (producers: Producers, sources: set<string>, consumes: seq<(string, string)>)
    requires TablesFor(ds, producers0, sources0, consumes0)
    ensures TablesFor(ds + [d], producers, sources, consumes)
  {
    producers, sources, consumes := producers0, sources0, consumes0;
    ProducersMore(ds, d, producers0);
    SourcesMore(ds, d, sources0);
    var name, alias := Trim(d.name), Trim(d.alias);
    if name == "" {
      return;
    }
    match d.direction
    case Produces => producers := WithOwner(producers, name, alias);
    case Source => sources := sources + {name};
    case Consumes => consumes := consumes + [(alias, name)];
    case OtherDirection =>
  }

  // ----- the producer -> consumer graph -----

  method AddEdge(g: Graph, from: string, to: string) returns (g': Graph)
    ensures forall v, w :: Edge(g', v, w) <==>
              Edge(g, v, w) || (v == from && w == to && from != "" && to != "" && from != to)
  {
    if from == "" || to == "" || from == to {
      return g;
    }
    g' := g[from := Succ(g, from) + {to}];
  }

  method AddEdges(g0: Graph, producers: set<string>, to: string) returns (g: Graph)
    ensures forall v, w :: Edge(g, v, w) <==>
              Edge(g0, v, w) || (v in producers && w == to && v != "" && to != "" && v != to)
  {
    g := g0;
    var order := InOrder(producers);
    for i := 0 to |order|
      invariant forall v, w :: Edge(g, v, w) <==>
                  Edge(g0, v, w) || (v in order[..i] && w == to && v != "" && to != "" && v != to)
    {
      g := AddEdge(g, order[i], to);
      assert order[..i + 1] == order[..i] + [order[i]];
    }
    assert order[..|order|] == order;
  }

  ghost predicate GraphFor(ds: seq<Declaration>, g: Graph) {
    forall p, c :: Edge(g, p, c) <==> Feeds(ds, p, c)
  }

  /** The part of the graph that the first consumes entries contribute. */
  ghost predicate FedBy(producers: Producers, consumes: seq<(string, string)>, p: string, c: string) {
    exists n :: (c, n) in consumes && n in producers && p in producers[n] && p != "" && c != "" && p != c
  }

  method BuildGraph(ghost ds: seq<Declaration>, producers: Producers, ghost sources: set<string>,
                    consumes: seq<(string, string)>)
    returns (g: Graph)
    requires TablesFor(ds, producers, sources, consumes)
    ensures GraphFor(ds, g)
  {
    g := map[];
    for i := 0 to |consumes|
      invariant forall p, c :: Edge(g, p, c) <==> FedBy(producers, consumes[..i], p, c)
    {
      var (alias, name) := consumes[i];
      ghost var g0 := g;
      g := AddEdges(g, if name in producers then producers[name] else {}, alias);
      forall p, c ensures Edge(g, p, c) <==> FedBy(producers, consumes[..i + 1], p, c) {
        FedByMore(producers, consumes, i, p, c);
      }
    }
    assert consumes[..|consumes|] == consumes;
    forall p, c ensures Edge(g, p, c) <==> Feeds(ds, p, c) {
    }
  }

  lemma FedByMore(producers: Producers, consumes: seq<(string, string)>, i: nat, p: string, c: string)
    requires i < |consumes|
    ensures FedBy(producers, consumes[..i + 1], p, c) <==>
              || FedBy(producers, consumes[..i], p, c)
              || (consumes[i].0 == c && consumes[i].1 in producers && p in producers[consumes[i].1]
                  && p != "" && c != "" && p != c)
  {
    assert consumes[..i + 1] == consumes[..i] + [consumes[i]];
  }

  lemma RankableIsAcyclic(ds: seq<Declaration>, g: Graph)
    requires GraphFor(ds, g)
    ensures Rankable(ds) <==> Acyclic(g)
  {
    if rank :| Ranks(g, rank) {
      assert RanksJobs(ds, rank);
    }
    if rank :| RanksJobs(ds, rank) {
      assert Ranks(g, rank);
    }
  }

  // ----- the validator -----

  /** Each verdict is given exactly when it is due: a dataset with two producers is reported
      before an unresolved input, that before a cycle, and a valid set means none of them. */
  method ValidateGraph(ds: seq<Declaration>) returns (v: Verdict)
    ensures v.Valid? <==>
              && (forall n :: SingleProducer(ds, n))
              && (forall n :: Declared(ds, Consumes, n) ==> Resolved(ds, n))
              && Rankable(ds)
    ensures v.MultipleProducers? <==> exists n :: !SingleProducer(ds, n)
    ensures v.MultipleProducers? ==> !SingleProducer(ds, v.name)
    ensures v.UnresolvedConsumes? <==>
              && (forall n :: SingleProducer(ds, n))
              && exists n :: Declared(ds, Consumes, n) && !Resolved(ds, n)
    ensures v.UnresolvedConsumes? ==> DeclaredBy(ds, Consumes, v.name, v.job) && !Resolved(ds, v.name)
    ensures v.DependencyCycle? ==>
              && |v.path| >= 2 && v.path[0] == v.path[|v.path| - 1] && Distinct(v.path[..|v.path| - 1])
              && forall i :: 0 <= i < |v.path| - 1 ==> Feeds(ds, v.path[i], v.path[i + 1])
  {
    var producers: Producers, sources: set<string>, consumes: seq<(string, string)> := map[], {}, [];
    for i := 0 to |ds|
      invariant TablesFor(ds[..i], producers, sources, consumes)
    {
      producers, sources, consumes := ReadDeclaration(ds[..i], ds[i], producers, sources, consumes);
      assert ds[..i + 1] == ds[..i] + [ds[i]];
    }
    assert ds[..|ds|] == ds;

    var owned := CheckProducers(ds, producers, sources, consumes);
    if !owned.Valid? {
      return owned;
    }
    for i := 0 to |consumes|
      invariant forall k :: 0 <= k < i ==> Resolved(ds, consumes[k].1)
    {
      if consumes[i].1 !in producers && consumes[i].1 !in sources {
        assert DeclaredBy(ds, Consumes, consumes[i].1, consumes[i].0);
        assert Declared(ds, Consumes, consumes[i].1);
        return UnresolvedConsumes(consumes[i].0, consumes[i].1);
      }
    }
    forall n | Declared(ds, Consumes, n) ensures Resolved(ds, n) {
      var d :| d in ds && Declares(d, Consumes, n);
      assert DeclaredBy(ds, Consumes, n, Trim(d.alias));
      assert (Trim(d.alias), n) in consumes;
    }
    var g := BuildGraph(ds, producers, sources, consumes);
    RankableIsAcyclic(ds, g);
    var cycle := DetectGraphCycle(g);
    if |cycle| > 0 {
      return DependencyCycle(cycle);
    }
    return Valid;
  }

  method CheckProducers(ghost ds: seq<Declaration>, producers: Producers, ghost sources: set<string>,
                        ghost consumes: seq<(string, string)>)
    returns (v: Verdict)
    requires TablesFor(ds, producers, sources, consumes)
    ensures v.Valid? || v.MultipleProducers?
    ensures v.Valid? <==> forall n :: SingleProducer(ds, n)
    ensures v.MultipleProducers? ==> !SingleProducer(ds, v.name)
  {
    var names := InOrder(producers.Keys);
    for i := 0 to |names|
      invariant forall k :: 0 <= k < i ==> SingleProducer(ds, names[k])
    {
      if |producers[names[i]]| > 1 {
        TwoMembers(producers[names[i]]);
        ghost var a, b :| a in producers[names[i]] && b in producers[names[i]] && a != b;
        assert ProducedBy(ds, names[i], a) && ProducedBy(ds, names[i], b);
        assert !SingleProducer(ds, names[i]);
        return MultipleProducers(names[i]);
      }
      AtMostOneMember(producers[names[i]]);
    }
    forall n ensures SingleProducer(ds, n) {
      if n in producers { assert n in names; }
    }
    return Valid;
  }

  lemma TwoMembers(s: set<string>)
    requires |s| > 1
    ensures exists a, b :: a in s && b in s && a != b
  {
    var a :| a in s;
    assert |s - {a}| > 0;
    var b :| b in s - {a};
  }

  lemma AtMostOneMember(s: set<string>)
    requires |s| <= 1
    ensures forall a, b :: a in s && b in s ==> a == b
  {
    forall a, b | a in s && b in s ensures a == b {
      assert {a, b} <= s;
      assert a != b ==> |{a, b}| == 2;
      SubsetSize({a, b}, s);
    }
  }

  lemma {:induction false} SubsetSize(a: set<string>, b: set<string>)
    requires a <= b
    ensures |a| <= |b|
  {
    if a != {} {
      var x :| x in a;
      SubsetSize(a - {x}, b - {x});
    }
  }

  // ----- in terms of single declarations -----

  /** The declaration says that this dataset, whatever white space is around its name, is meant. */
  predicate Names(d: Declaration, dir: Direction, n: string) {
    d.direction == dir && n == Trim(d.name) && |n| > 0
  }

  /** The two declarations say that jobs of different aliases produce the dataset. */
  predicate Compete(a: Declaration, b: Declaration, n: string) {
    && Names(a, Produces, n) && Names(b, Produces, n)
    && Trim(a.alias) != Trim(b.alias) && |Trim(a.alias)| > 0 && |Trim(b.alias)| > 0
  }

  /** A dataset has two producers exactly if two declarations say so. */
  lemma TwoProducersExactlyWhen(ds: seq<Declaration>, n: string)
    ensures !SingleProducer(ds, n) <==> exists a, b :: a in ds && b in ds && Compete(a, b, n)
  {
    if j, k :| ProducedBy(ds, n, j) && ProducedBy(ds, n, k) && j != k {
      var a :| a in ds && Declares(a, Produces, n) && Trim(a.alias) == j;
      var b :| b in ds && Declares(b, Produces, n) && Trim(b.alias) == k;
      assert Compete(a, b, n);
    }
    if a, b :| a in ds && b in ds && Compete(a, b, n) {
      assert Declares(a, Produces, n) && Declares(b, Produces, n);
      assert ProducedBy(ds, n, Trim(a.alias)) && ProducedBy(ds, n, Trim(b.alias));
    }
  }

  /** A consumed dataset is unresolved exactly if no declaration produces it or names it a source. */
  lemma UnresolvedExactlyWhen(ds: seq<Declaration>, n: string)
    ensures Declared(ds, Consumes, n) && !Resolved(ds, n) <==>
      (exists d :: d in ds && Names(d, Consumes, n))
      && forall d :: d in ds ==> !Names(d, Produces, n) && !Names(d, Source, n)
  {
    if d :| d in ds && Names(d, Consumes, n) { assert Declares(d, Consumes, n); }
    if d :| d in ds && (Names(d, Produces, n) || Names(d, Source, n)) {
      assert Declares(d, Produces, n) || Declares(d, Source, n);
    }
  }

  /** A job feeds another exactly if it produces something that the other one consumes. */
  lemma FeedsExactlyWhen(ds: seq<Declaration>, p: string, c: string)
    ensures Feeds(ds, p, c) <==>
      p != c && |p| > 0 && |c| > 0
      && exists a, b, n :: a in ds && b in ds && Names(a, Produces, n) && Names(b, Consumes, n)
                           && Trim(a.alias) == p && Trim(b.alias) == c
  {
    if Feeds(ds, p, c) {
      var n :| ProducedBy(ds, n, p) && DeclaredBy(ds, Consumes, n, c);
      var a :| a in ds && Declares(a, Produces, n) && Trim(a.alias) == p;
      var b :| b in ds && Declares(b, Consumes, n) && Trim(b.alias) == c;
      assert Names(a, Produces, n) && Names(b, Consumes, n);
    }
    if a, b, n :| a in ds && b in ds && Names(a, Produces, n) && Names(b, Consumes, n)
                  && Trim(a.alias) == p && Trim(b.alias) == c && |p| > 0 && |c| > 0 && p != c {
      assert Declares(a, Produces, n) && Declares(b, Consumes, n);
      assert ProducedBy(ds, n, p) && DeclaredBy(ds, Consumes, n, c);
    }
  }
}
