/** Declared contracts: every producer step of a dataset against every consumer step of another
    job, in the order in which the code goes through them, and what becomes of a pair's edge in
    the graph. Edges are kept by an id that joins names without escaping. */
module ContractPairs {
  import opened Options
  import opened Strings
  import opened TextLemmas
  import opened ContractGraph

  /** A step of a job that produces or consumes a dataset. The schemas behind it matter only
      through the findings that a pair gives. */
  datatype Party = Party(alias: string, step: string, dataset: string, schema: string)

  datatype Pair = Pair(p: Party, c: Party)

  function JobNodeId(alias: string): string {
    "job:" + Trim(alias)
  }

  function DatasetKey(dataset: string): string {
    "/" + Trim(dataset)
  }

  /** What comparing a producer with a consumer finds. */
  type Compare = (Party, Party) -> seq<Finding>

  predicate Meets(p: Party, c: Party) {
    Trim(p.dataset) != "" && Trim(p.dataset) == Trim(c.dataset) && p.alias != c.alias
  }

  ghost function PairEdge(compare: Compare, pair: Pair): Edge {
    var findings := compare(pair.p, pair.c);
    Edge("declared", JobNodeId(pair.p.alias), JobNodeId(pair.c.alias), Some(DatasetKey(pair.p.dataset)),
         Worst(findings, Compatible), findings)
  }

  ghost function EdgesOf(compare: Compare, pairs: seq<Pair>): seq<Edge> {
    if pairs == [] then [] else EdgesOf(compare, pairs[..|pairs| - 1]) + [PairEdge(compare, pairs[|pairs| - 1])]
  }

  // ----- the pairs in order -----

  function PairsOfProducer(p: Party, consumers: seq<Party>): seq<Pair> {
    if consumers == [] then []
    else
      var c := consumers[|consumers| - 1];
      PairsOfProducer(p, consumers[..|consumers| - 1]) + if Meets(p, c) then [Pair(p, c)] else []
  }

  function PairsOfDataset(name: string, producers: seq<Party>, consumers: seq<Party>): seq<Pair> {
    if producers == [] then []
    else
      var p := producers[|producers| - 1];
      PairsOfDataset(name, producers[..|producers| - 1], consumers)
      + if Trim(p.dataset) == name then PairsOfProducer(p, consumers) else []
  }

  function PairsOfAll(names: seq<string>, producers: seq<Party>, consumers: seq<Party>): seq<Pair> {
    if names == [] then []
    else
      PairsOfAll(names[..|names| - 1], producers, consumers)
      + PairsOfDataset(names[|names| - 1], producers, consumers)
  }

  function Datasets(producers: seq<Party>): set<string> {
    set p | p in producers && Trim(p.dataset) != "" :: Trim(p.dataset)
  }

  /** Dataset by dataset, producer by producer, consumer by consumer. */
  ghost function PairsOf(producers: seq<Party>, consumers: seq<Party>): seq<Pair> {
    PairsOfAll(SortedSet(Datasets(producers)), producers, consumers)
  }

  lemma {:induction false} InPairsOfProducer(p: Party, consumers: seq<Party>, pair: Pair)
    ensures pair in PairsOfProducer(p, consumers) <==> pair.p == p && pair.c in consumers && Meets(p, pair.c)
  {
    if consumers != [] {
      var front, c := consumers[..|consumers| - 1], consumers[|consumers| - 1];
      InPairsOfProducer(p, front, pair);
      assert consumers == front + [c];
    }
  }

  lemma {:induction false} InPairsOfDataset(name: string, producers: seq<Party>, consumers: seq<Party>, pair: Pair)
    ensures pair in PairsOfDataset(name, producers, consumers) <==>
      && pair.p in producers && Trim(pair.p.dataset) == name && pair.c in consumers && Meets(pair.p, pair.c)
  {
    if producers != [] {
      var front, p := producers[..|producers| - 1], producers[|producers| - 1];
      InPairsOfDataset(name, front, consumers, pair);
      InPairsOfProducer(p, consumers, pair);
      assert producers == front + [p];
    }
  }

  lemma {:induction false} InPairsOfAll(names: seq<string>, producers: seq<Party>, consumers: seq<Party>, pair: Pair)
    ensures pair in PairsOfAll(names, producers, consumers) <==>
      && pair.p in producers && Trim(pair.p.dataset) in names && pair.c in consumers && Meets(pair.p, pair.c)
  {
    if names != [] {
      var front, name := names[..|names| - 1], names[|names| - 1];
      InPairsOfAll(front, producers, consumers, pair);
      InPairsOfDataset(name, producers, consumers, pair);
      assert names == front + [name];
    }
  }

  /** These are exactly the producer and consumer steps of different jobs that share a dataset. */
  lemma PairsAreTheMeeting(producers: seq<Party>, consumers: seq<Party>, pair: Pair)
    ensures pair in PairsOf(producers, consumers) <==>
      && pair.p in producers && pair.c in consumers && pair.p.alias != pair.c.alias
      && Trim(pair.p.dataset) == Trim(pair.c.dataset) != ""
  {
    InSortedSet(Datasets(producers));
    InPairsOfAll(SortedSet(Datasets(producers)), producers, consumers, pair);
  }

  // ----- the loops that add them -----

  lemma {:induction false} EdgesJoin(compare: Compare, a: seq<Pair>, b: seq<Pair>)
    ensures EdgesOf(compare, a + b) == EdgesOf(compare, a) + EdgesOf(compare, b)
  {
    if b == [] {
      assert a + b == a;
    } else {
      var front, last := b[..|b| - 1], b[|b| - 1];
      EdgesJoin(compare, a, front);
      assert (a + b)[..|a + b| - 1] == a + front && (a + b)[|a + b| - 1] == last;
      Assoc(EdgesOf(compare, a), EdgesOf(compare, front), [PairEdge(compare, last)]);
    }
  }

  /** The graph with the edges of the pairs added. */
  ghost function With(compare: Compare, edges: Edges, pairs: seq<Pair>): Edges {
    AddOnto(EdgeId, edges, EdgesOf(compare, pairs))
  }

  lemma WithJoin(compare: Compare, edges: Edges, a: seq<Pair>, b: seq<Pair>)
    ensures With(compare, edges, a + b) == With(compare, With(compare, edges, a), b)
  {
    EdgesJoin(compare, a, b);
    AddOntoJoin(EdgeId, edges, EdgesOf(compare, a), EdgesOf(compare, b));
  }

  lemma WithOne(compare: Compare, edges: Edges, pair: Pair)
    ensures With(compare, edges, [pair]) == AddTo(EdgeId, edges, PairEdge(compare, pair))
  {
    var e := PairEdge(compare, pair);
    assert EdgesOf(compare, [pair]) == EdgesOf(compare, []) + [e] == [e];
    assert AddOnto(EdgeId, edges, [e]) == AddTo(EdgeId, AddOnto(EdgeId, edges, [e][..0]), e);
  }

  method DeriveForProducer(b: GraphBuilder, compare: Compare, p: Party, consumers: seq<Party>)
    modifies b
    ensures b.edges == With(compare, old(b.edges), PairsOfProducer(p, consumers))
  {
    for j := 0 to |consumers|
      invariant b.edges == With(compare, old(b.edges), PairsOfProducer(p, consumers[..j]))
    {
      var c := consumers[j];
      ghost var done := PairsOfProducer(p, consumers[..j]);
      assert consumers[..j + 1][..j] == consumers[..j];
      if Trim(p.dataset) == "" || Trim(p.dataset) != Trim(c.dataset) {
        assert PairsOfProducer(p, consumers[..j + 1]) == done;
        continue;
      }
      if p.alias == c.alias {
        assert PairsOfProducer(p, consumers[..j + 1]) == done;
        continue;
      }
      WithJoin(compare, old(b.edges), done, [Pair(p, c)]);
      WithOne(compare, b.edges, Pair(p, c));
      var findings := compare(p, c);
      var verdict := VerdictForFindings(findings, Compatible);
      b.AddEdge(Edge("declared", JobNodeId(p.alias), JobNodeId(c.alias), Some(DatasetKey(p.dataset)), verdict,
                     findings));
    }
    assert consumers[..|consumers|] == consumers;
  }

  method DeriveForDataset(b: GraphBuilder, compare: Compare, name: string, producers: seq<Party>, consumers: seq<Party>)
    modifies b
    ensures b.edges == With(compare, old(b.edges), PairsOfDataset(name, producers, consumers))
  {
    for i := 0 to |producers|
      invariant b.edges == With(compare, old(b.edges), PairsOfDataset(name, producers[..i], consumers))
    {
      assert producers[..i + 1][..i] == producers[..i];
      ghost var done := PairsOfDataset(name, producers[..i], consumers);
      if Trim(producers[i].dataset) == name {
        WithJoin(compare, old(b.edges), done, PairsOfProducer(producers[i], consumers));
        DeriveForProducer(b, compare, producers[i], consumers);
      } else {
        assert PairsOfDataset(name, producers[..i + 1], consumers) == done;
      }
    }
    assert producers[..|producers|] == producers;
  }

  /** Every producer step against every consumer step of another job, dataset by dataset. */
  method DeriveDeclaredEdges(b: GraphBuilder, compare: Compare, producers: seq<Party>, consumers: seq<Party>)
    modifies b
    ensures b.edges == With(compare, old(b.edges), PairsOf(producers, consumers))
  {
    var names := SortedKeys(Datasets(producers));
    for i := 0 to |names|
      invariant b.edges == With(compare, old(b.edges), PairsOfAll(names[..i], producers, consumers))
    {
      assert names[..i + 1][..i] == names[..i];
      WithJoin(compare, old(b.edges), PairsOfAll(names[..i], producers, consumers),
               PairsOfDataset(names[i], producers, consumers));
      DeriveForDataset(b, compare, names[i], producers, consumers);
    }
    assert names[..|names|] == names;
  }

  // ----- ids -----

  /** The jobs and the dataset of a pair. */
  datatype Ends = Ends(producer: string, consumer: string, dataset: string)

  function EndsOf(pair: Pair): Ends {
    Ends(Trim(pair.p.alias), Trim(pair.c.alias), Trim(pair.p.dataset))
  }

  function PairId(pair: Pair): string {
    EdgeId(Edge("declared", JobNodeId(pair.p.alias), JobNodeId(pair.c.alias), Some(DatasetKey(pair.p.dataset)),
                NoVerdict, []))
  }

  lemma {:induction false} TrimEnds(s: string)
    ensures Trim(s) != "" ==> !IsSpace(Trim(s)[0]) && !IsSpace(Trim(s)[|Trim(s)| - 1])
    decreases |s|
  {
    if s != [] {
      if IsSpace(s[0]) {
        TrimEnds(s[1..]);
      } else if IsSpace(s[|s| - 1]) {
        TrimEnds(s[..|s| - 1]);
      }
    }
  }

  /** A text behind a prefix that begins with no white space is trimmed already if it is. */
  lemma TrimBehind(prefix: string, s: string)
    requires prefix != "" && !IsSpace(prefix[0]) && !IsSpace(prefix[|prefix| - 1])
    ensures Trim(prefix + Trim(s)) == prefix + Trim(s)
  {
    TrimEnds(s);
    var t := prefix + Trim(s);
    assert t[0] == prefix[0];
    assert t[|t| - 1] == if Trim(s) == "" then prefix[|prefix| - 1] else Trim(s)[|Trim(s)| - 1];
  }

  lemma TrimTwice(s: string)
    ensures Trim(Trim(s)) == Trim(s)
  {
    TrimEnds(s);
  }

  lemma PairIsTrimmed(compare: Compare, pair: Pair)
    ensures var e := PairEdge(compare, pair);
      Trimmed(e) == e && Acceptable(e) && EdgeId(Trimmed(e)) == PairId(pair) && VerdictSound(e)
  {
    TrimBehind("job:", pair.p.alias);
    TrimBehind("job:", pair.c.alias);
  }

  lemma {:induction false} EdgeAt(compare: Compare, pairs: seq<Pair>, i: nat)
    requires i < |pairs|
    ensures |EdgesOf(compare, pairs)| == |pairs| && EdgesOf(compare, pairs)[i] == PairEdge(compare, pairs[i])
  {
    if i < |pairs| - 1 {
      EdgeAt(compare, pairs[..|pairs| - 1], i);
    } else if |pairs| > 1 {
      EdgeAt(compare, pairs[..|pairs| - 1], 0);
    }
  }

  ghost predicate HasId(pairs: seq<Pair>, k: string) {
    exists i :: 0 <= i < |pairs| && PairId(pairs[i]) == k
  }

  lemma HasIdMore(pairs: seq<Pair>, k: string)
    requires pairs != []
    ensures HasId(pairs, k) <==> HasId(pairs[..|pairs| - 1], k) || PairId(pairs[|pairs| - 1]) == k
  {
    var front := pairs[..|pairs| - 1];
    assert forall i :: 0 <= i < |front| ==> front[i] == pairs[i];
  }

  /** The first pair with the id: the one that takes it up. */
  ghost function Taker(pairs: seq<Pair>, k: string): Pair
    requires HasId(pairs, k)
  {
    var front := pairs[..|pairs| - 1];
    if HasId(front, k) then Taker(front, k) else pairs[|pairs| - 1]
  }

  lemma {:induction false} TakerIsFirst(pairs: seq<Pair>, k: string)
    requires HasId(pairs, k)
    ensures PairId(Taker(pairs, k)) == k && Taker(pairs, k) in pairs
  {
    var front := pairs[..|pairs| - 1];
    if HasId(front, k) {
      TakerIsFirst(front, k);
      assert forall x :: x in front ==> x in pairs;
    } else {
      HasIdMore(pairs, k);
    }
  }

  /** The graph of the pairs alone. */
  ghost function GraphOf(compare: Compare, pairs: seq<Pair>): Edges {
    AddAll(EdgeId, EdgesOf(compare, pairs))
  }

  lemma ContributesExactly(compare: Compare, pairs: seq<Pair>, k: string)
    ensures SomeContributes(EdgeId, EdgesOf(compare, pairs), k) <==> HasId(pairs, k)
  {
    var es := EdgesOf(compare, pairs);
    if pairs != [] { EdgeAt(compare, pairs, 0); }
    if i :| 0 <= i < |es| && Contributes(EdgeId, es[i], k) {
      EdgeAt(compare, pairs, i);
      PairIsTrimmed(compare, pairs[i]);
    }
    if i :| 0 <= i < |pairs| && PairId(pairs[i]) == k {
      EdgeAt(compare, pairs, i);
      PairIsTrimmed(compare, pairs[i]);
      assert Contributes(EdgeId, es[i], k);
    }
  }

  lemma {:induction false} TakerIsFirstEdge(compare: Compare, pairs: seq<Pair>, k: string)
    requires HasId(pairs, k)
    ensures SomeContributes(EdgeId, EdgesOf(compare, pairs), k)
    ensures FirstOf(EdgeId, EdgesOf(compare, pairs), k) == PairEdge(compare, Taker(pairs, k))
  {
    var front, last := pairs[..|pairs| - 1], pairs[|pairs| - 1];
    ContributesExactly(compare, pairs, k);
    ContributesExactly(compare, front, k);
    PairIsTrimmed(compare, last);
    assert EdgesOf(compare, pairs)[..|pairs| - 1] == EdgesOf(compare, front) by {
      EdgeAt(compare, pairs, 0);
      if front != [] { EdgeAt(compare, front, 0); }
    }
    if HasId(front, k) { TakerIsFirstEdge(compare, front, k); }
  }

  /** An edge of the graph has the ends and the dataset of the pair that took up its id. */
  lemma EdgeOfTaker(compare: Compare, pairs: seq<Pair>, k: string)
    ensures k in GraphOf(compare, pairs) <==> HasId(pairs, k)
    ensures HasId(pairs, k) ==>
      var e, t := GraphOf(compare, pairs)[k], Taker(pairs, k);
      && e.kind == "declared" && e.source == JobNodeId(t.p.alias) && e.target == JobNodeId(t.c.alias)
      && e.dataset == Some(DatasetKey(t.p.dataset)) && EdgeId(e) == k
  {
    ContributesExactly(compare, pairs, k);
    GraphHoldsContributors(EdgeId, EdgesOf(compare, pairs), k);
    if HasId(pairs, k) {
      TakerIsFirstEdge(compare, pairs, k);
      EdgeKeepsFirst(EdgeId, EdgesOf(compare, pairs), k);
      TakerIsFirst(pairs, k);
    }
  }

  /** A finding was made by a pair with the id. */
  ghost predicate FoundUnder(compare: Compare, pairs: seq<Pair>, k: string, f: Finding) {
    exists i :: 0 <= i < |pairs| && PairId(pairs[i]) == k && f in compare(pairs[i].p, pairs[i].c)
  }

  lemma FoundMore(compare: Compare, pairs: seq<Pair>, k: string, f: Finding)
    requires pairs != []
    ensures var last := pairs[|pairs| - 1];
      FoundUnder(compare, pairs, k, f) <==>
        FoundUnder(compare, pairs[..|pairs| - 1], k, f) || (PairId(last) == k && f in compare(last.p, last.c))
  {
    var front := pairs[..|pairs| - 1];
    assert forall i :: 0 <= i < |front| ==> front[i] == pairs[i];
  }

  lemma PairShare(compare: Compare, pair: Pair, k: string, f: Finding)
    ensures f in Share(EdgeId, PairEdge(compare, pair), k) <==> PairId(pair) == k && f in compare(pair.p, pair.c)
  {
    PairIsTrimmed(compare, pair);
  }

  lemma {:induction false} TotalIsFound(compare: Compare, pairs: seq<Pair>, k: string, f: Finding)
    ensures f in TotalFindings(EdgeId, EdgesOf(compare, pairs), k) <==> FoundUnder(compare, pairs, k, f)
  {
    if pairs != [] {
      var front, last := pairs[..|pairs| - 1], pairs[|pairs| - 1];
      TotalIsFound(compare, front, k, f);
      FindingsMore(EdgeId, EdgesOf(compare, front), PairEdge(compare, last), k);
      PairShare(compare, last, k, f);
      FoundMore(compare, pairs, k, f);
    }
  }

  /** And exactly the findings of all pairs with its id; it is breaking if one of them is. */
  lemma EdgeHoldsFound(compare: Compare, pairs: seq<Pair>, k: string, f: Finding)
    requires k in GraphOf(compare, pairs)
    ensures f in GraphOf(compare, pairs)[k].findings <==> FoundUnder(compare, pairs, k, f)
    ensures f in GraphOf(compare, pairs)[k].findings && f.verdict.Breaking? ==>
              GraphOf(compare, pairs)[k].verdict.Breaking?
  {
    var es := EdgesOf(compare, pairs);
    GraphHoldsFindings(EdgeId, es, k);
    TotalIsFound(compare, pairs, k, f);
    assert f in GraphOf(compare, pairs)[k].findings <==> f in multiset(GraphOf(compare, pairs)[k].findings);
    forall i | 0 <= i < |es| ensures VerdictSound(es[i]) {
      if pairs != [] { EdgeAt(compare, pairs, 0); }
      EdgeAt(compare, pairs, i);
      PairIsTrimmed(compare, pairs[i]);
    }
    GraphStaysSound(EdgeId, es, k);
  }
}
