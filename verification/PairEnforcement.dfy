/** Declared contracts from the step pairs to the decision: which breaking findings count, when
    each is enforced as its own pair's, and when one is lost. */
module PairEnforcement {
  import opened Options
  import opened Strings
  import opened TextLemmas
  import opened ContractGraph
  import opened ContractPairs
  import opened ContractEnforcement

  // ----- which findings count -----

  ghost function ListingOf(edges: Edges, keys: seq<string>): seq<Edge> {
    if keys == [] then []
    else
      ListingOf(edges, keys[..|keys| - 1])
      + if keys[|keys| - 1] in edges then [edges[keys[|keys| - 1]]] else []
  }

  /** The edges of the graph, in the order of their ids. */
  ghost function Listing(edges: Edges): seq<Edge> {
    ListingOf(edges, SortedSet(edges.Keys))
  }

  method ListEdges(edges: Edges) returns (graph: seq<Edge>)
    ensures graph == Listing(edges)
  {
    var ks := SortedKeys(edges.Keys);
    graph := [];
    for i := 0 to |ks|
      invariant graph == ListingOf(edges, ks[..i])
    {
      assert ks[..i + 1][..i] == ks[..i];
      assert ks[i] in edges.Keys;
      graph := graph + [edges[ks[i]]];
    }
    assert ks[..|ks|] == ks;
  }

  lemma {:induction false} InListingOf(edges: Edges, keys: seq<string>, e: Edge)
    ensures e in ListingOf(edges, keys) <==> exists k :: k in keys && k in edges && edges[k] == e
  {
    if keys != [] {
      var front, k := keys[..|keys| - 1], keys[|keys| - 1];
      InListingOf(edges, front, e);
      assert keys == front + [k];
    }
  }

  lemma InListing(edges: Edges, e: Edge)
    ensures e in Listing(edges) <==> exists k :: k in edges && edges[k] == e
  {
    InListingOf(edges, SortedSet(edges.Keys), e);
    InSortedSet(edges.Keys);
  }

  /** A finding under the names of a pair. */
  function ShownAs(outputKey: Finding -> string, pair: Pair, f: Finding): ContractFinding {
    var key := DatasetKey(pair.p.dataset);
    ContractFinding(key, Trim(pair.p.alias), Trim(pair.c.alias), key, outputKey(f),
                    PairId(pair), "declared", f.path, f.detail, f.verdict)
  }

  /** One of the pair's jobs is among the incoming ones. */
  predicate PairInScope(aliases: Option<set<string>>, pair: Pair) {
    aliases.None? || Trim(pair.p.alias) in aliases.value || Trim(pair.c.alias) in aliases.value
  }

  lemma NodeNamesJob(alias: string)
    ensures WithoutJobPrefix(JobNodeId(alias)) == Trim(alias)
  {
    TrimBehind("job:", alias);
  }

  lemma ScopeOfShown(outputKey: Finding -> string, aliases: Option<set<string>>, pair: Pair, f: Finding)
    ensures InScope(aliases, ShownAs(outputKey, pair, f)) <==> PairInScope(aliases, pair)
  {
    TrimTwice(pair.p.alias);
    TrimTwice(pair.c.alias);
  }

  /** A finding is shown under the names of the pair that took up its edge's id. */
  lemma ShownUnderTaker(outputKey: Finding -> string, compare: Compare, pairs: seq<Pair>, k: string, f: Finding)
    requires HasId(pairs, k)
    ensures k in GraphOf(compare, pairs)
    ensures FindingFromEdge(outputKey, GraphOf(compare, pairs)[k], f) == ShownAs(outputKey, Taker(pairs, k), f)
  {
    EdgeOfTaker(compare, pairs, k);
    TakerIsFirst(pairs, k);
    NodeNamesJob(Taker(pairs, k).p.alias);
    NodeNamesJob(Taker(pairs, k).c.alias);
  }

  /** The breaking findings in scope. */
  ghost function Counted(rules: Rules, compare: Compare, pairs: seq<Pair>, aliases: Option<set<string>>):
    seq<ContractFinding>
  {
    AllBreaking(rules, aliases, Listing(GraphOf(compare, pairs)))
  }

  /** The finding is a breaking one of a pair with the id, shown under the names of the pair
      that took up the id, and that pair is in scope. */
  ghost predicate CountsUnder(outputKey: Finding -> string, compare: Compare, pairs: seq<Pair>,
                              aliases: Option<set<string>>, cf: ContractFinding, k: string, f: Finding) {
    && HasId(pairs, k) && FoundUnder(compare, pairs, k, f) && f.verdict.Breaking?
    && cf == ShownAs(outputKey, Taker(pairs, k), f) && PairInScope(aliases, Taker(pairs, k))
  }

  lemma CountedMeans(outputKey: Finding -> string, rules: Rules, compare: Compare, pairs: seq<Pair>,
                     aliases: Option<set<string>>, cf: ContractFinding)
    returns (k: string, f: Finding)
    requires rules.present == ((e: Edge, g: Finding) => FindingFromEdge(outputKey, e, g))
    requires cf in Counted(rules, compare, pairs, aliases)
    ensures CountsUnder(outputKey, compare, pairs, aliases, cf, k, f)
  {
    var graph := Listing(GraphOf(compare, pairs));
    InAllBreaking(rules, aliases, graph, cf);
    var i, j :| 0 <= i < |graph| && 0 <= j < |graph[i].findings|
      && IsBreakingIn(rules, aliases, graph[i], graph[i].findings[j])
      && cf == rules.present(graph[i], graph[i].findings[j]);
    f := graph[i].findings[j];
    InListing(GraphOf(compare, pairs), graph[i]);
    k :| k in GraphOf(compare, pairs) && GraphOf(compare, pairs)[k] == graph[i];
    EdgeOfTaker(compare, pairs, k);
    EdgeHoldsFound(compare, pairs, k, f);
    ShownUnderTaker(outputKey, compare, pairs, k, f);
    ScopeOfShown(outputKey, aliases, Taker(pairs, k), f);
  }

  lemma CountsMeansCounted(outputKey: Finding -> string, rules: Rules, compare: Compare, pairs: seq<Pair>,
                           aliases: Option<set<string>>, cf: ContractFinding, k: string, f: Finding)
    requires rules.present == ((e: Edge, g: Finding) => FindingFromEdge(outputKey, e, g))
    requires CountsUnder(outputKey, compare, pairs, aliases, cf, k, f)
    ensures cf in Counted(rules, compare, pairs, aliases)
  {
    var graph := Listing(GraphOf(compare, pairs));
    ShownUnderTaker(outputKey, compare, pairs, k, f);
    EdgeHoldsFound(compare, pairs, k, f);
    ScopeOfShown(outputKey, aliases, Taker(pairs, k), f);
    var e := GraphOf(compare, pairs)[k];
    InListing(GraphOf(compare, pairs), e);
    var i :| 0 <= i < |graph| && graph[i] == e;
    var j :| 0 <= j < |e.findings| && e.findings[j] == f;
    assert IsBreakingIn(rules, aliases, graph[i], graph[i].findings[j]);
    InAllBreaking(rules, aliases, graph, cf);
  }

  /** What counts: exactly the breaking findings of all pairs, each shown under the names of
      the pair that took up its id, if that pair is in scope. */
  lemma CountsExactlyWhen(outputKey: Finding -> string, digest: Digest, compare: Compare, pairs: seq<Pair>,
                          aliases: Option<set<string>>, cf: ContractFinding)
    ensures cf in Counted(RulesFor(outputKey, digest), compare, pairs, aliases) <==>
      exists k, f :: CountsUnder(outputKey, compare, pairs, aliases, cf, k, f)
  {
    var rules := RulesFor(outputKey, digest);
    if cf in Counted(rules, compare, pairs, aliases) {
      var k, f := CountedMeans(outputKey, rules, compare, pairs, aliases, cf);
    }
    if k, f :| CountsUnder(outputKey, compare, pairs, aliases, cf, k, f) {
      CountsMeansCounted(outputKey, rules, compare, pairs, aliases, cf, k, f);
    }
  }

  // ----- when a finding is lost -----

  /** A breaking finding of the pair, one of whose jobs is incoming, does not count in any form. */
  ghost predicate Lost(outputKey: Finding -> string, digest: Digest, compare: Compare, pairs: seq<Pair>,
                       aliases: Option<set<string>>, pair: Pair, f: Finding) {
    && f in compare(pair.p, pair.c) && f.verdict.Breaking? && PairInScope(aliases, pair)
    && forall cf :: cf in Counted(RulesFor(outputKey, digest), compare, pairs, aliases) ==> cf.edge != PairId(pair)
  }

  function JobsOf(pair: Pair): set<string> {
    {Trim(pair.p.alias), Trim(pair.c.alias)}
  }

  const BREAK := Finding("", "", "", "", Breaking)

  ghost function EveryPairBreaks(): Compare {
    (p: Party, c: Party) => [BREAK]
  }

  lemma HasOwnId(pairs: seq<Pair>, pair: Pair)
    requires pair in pairs
    ensures HasId(pairs, PairId(pair))
  {
    var i :| 0 <= i < |pairs| && pairs[i] == pair;
  }

  lemma OutOfScopeIsLost(outputKey: Finding -> string, digest: Digest, pairs: seq<Pair>, pair: Pair, alias: string)
    requires pair in pairs && HasId(pairs, PairId(pair))
    requires alias in JobsOf(pair) && alias !in JobsOf(Taker(pairs, PairId(pair)))
    ensures Lost(outputKey, digest, EveryPairBreaks(), pairs, Some({alias}), pair, BREAK)
  {
    var rules, compare := RulesFor(outputKey, digest), EveryPairBreaks();
    forall cf | cf in Counted(rules, compare, pairs, Some({alias})) ensures cf.edge != PairId(pair) {
      var k, f := CountedMeans(outputKey, rules, compare, pairs, Some({alias}), cf);
      TakerIsFirst(pairs, k);
    }
  }

  lemma InScopeCounts(outputKey: Finding -> string, digest: Digest, compare: Compare, pairs: seq<Pair>,
                      aliases: Option<set<string>>, pair: Pair, f: Finding)
    requires pair in pairs && HasId(pairs, PairId(pair)) && JobsOf(pair) <= JobsOf(Taker(pairs, PairId(pair)))
    ensures !Lost(outputKey, digest, compare, pairs, aliases, pair, f)
  {
    if f in compare(pair.p, pair.c) && f.verdict.Breaking? && PairInScope(aliases, pair) {
      var k, t := PairId(pair), Taker(pairs, PairId(pair));
      assert Trim(pair.p.alias) in JobsOf(pair) && Trim(pair.c.alias) in JobsOf(pair);
      assert PairInScope(aliases, t);
      var i :| 0 <= i < |pairs| && pairs[i] == pair;
      assert FoundUnder(compare, pairs, k, f);
      CountsMeansCounted(outputKey, RulesFor(outputKey, digest), compare, pairs, aliases, ShownAs(outputKey, t, f), k,
                         f);
      TakerIsFirst(pairs, k);
    }
  }

  /** A breaking finding of a pair can get lost, for some comparison and some incoming jobs,
      exactly when the pair that took up its id has not both of its jobs. */
  lemma CanBeLostExactlyWhen(outputKey: Finding -> string, digest: Digest, pairs: seq<Pair>, pair: Pair)
    requires pair in pairs
    ensures HasId(pairs, PairId(pair))
    ensures (exists compare, aliases, f :: Lost(outputKey, digest, compare, pairs, aliases, pair, f))
       <==> !(JobsOf(pair) <= JobsOf(Taker(pairs, PairId(pair))))
  {
    HasOwnId(pairs, pair);
    var t := Taker(pairs, PairId(pair));
    if JobsOf(pair) <= JobsOf(t) {
      forall compare, aliases, f ensures !Lost(outputKey, digest, compare, pairs, aliases, pair, f) {
        InScopeCounts(outputKey, digest, compare, pairs, aliases, pair, f);
      }
    } else {
      var alias :| alias in JobsOf(pair) && alias !in JobsOf(t);
      OutOfScopeIsLost(outputKey, digest, pairs, pair, alias);
    }
  }

  // ----- when every finding is enforced as its pair's own -----

  /** Pairs with one id have the same jobs and dataset. */
  ghost predicate IdsClear(pairs: seq<Pair>) {
    forall x, y :: x in pairs && y in pairs && PairId(x) == PairId(y) ==> EndsOf(x) == EndsOf(y)
  }

  function KeyOf(pair: Pair): string {
    Trim(pair.p.alias) + "\0" + DatasetKey(pair.p.dataset)
  }

  /** Pairs whose findings are put into one group have the same dataset. */
  ghost predicate GroupsClear(pairs: seq<Pair>) {
    forall x, y :: x in pairs && y in pairs && KeyOf(x) == KeyOf(y) ==> EndsOf(x).dataset == EndsOf(y).dataset
  }

  /** The allowance names the dataset, with or without the leading slash. */
  predicate AllowsDataset(allow: Option<Allow>, dataset: string) {
    allow.Some? && Trim(allow.value.dataset) in [DatasetKey(dataset), Displayed(DatasetKey(dataset))]
  }

  /** The pair's group has a live acknowledgement, or the allowance names the pair's dataset. */
  ghost predicate PairExcused(rules: Rules, acks: set<Ack>, allow: Option<Allow>, now: int,
                              cfs: seq<ContractFinding>, pair: Pair) {
    Live(acks, DigestOf(rules, WithKey(rules.key, cfs, KeyOf(pair))), now) || AllowsDataset(allow, pair.p.dataset)
  }

  /** The breaking finding blocks, under the pair's own names, exactly if one of the pair's jobs
      is incoming and the pair is not excused. */
  ghost predicate PairDecided(outputKey: Finding -> string, digest: Digest, compare: Compare, pairs: seq<Pair>,
                              aliases: Option<set<string>>, acks: set<Ack>, allow: Option<Allow>, now: int,
                              pair: Pair, f: Finding) {
    var rules := RulesFor(outputKey, digest);
    var cfs, own := Counted(rules, compare, pairs, aliases), ShownAs(outputKey, pair, f);
    (own in cfs && !ExcusedIn(rules, acks, allow, now, cfs, own)) <==>
      (PairInScope(aliases, pair) && !PairExcused(rules, acks, allow, now, cfs, pair))
  }

  lemma TakerIsOwn(outputKey: Finding -> string, pairs: seq<Pair>, pair: Pair, f: Finding)
    requires IdsClear(pairs) && pair in pairs
    ensures HasId(pairs, PairId(pair))
    ensures EndsOf(Taker(pairs, PairId(pair))) == EndsOf(pair)
    ensures ShownAs(outputKey, Taker(pairs, PairId(pair)), f) == ShownAs(outputKey, pair, f)
  {
    HasOwnId(pairs, pair);
    TakerIsFirst(pairs, PairId(pair));
  }

  /** A pair's own finding counts exactly if it is in scope. */
  lemma OwnCounts(outputKey: Finding -> string, digest: Digest, compare: Compare, pairs: seq<Pair>,
                  aliases: Option<set<string>>, pair: Pair, f: Finding)
    requires IdsClear(pairs) && pair in pairs && f in compare(pair.p, pair.c) && f.verdict.Breaking?
    ensures ShownAs(outputKey, pair, f) in Counted(RulesFor(outputKey, digest), compare, pairs, aliases) <==>
      PairInScope(aliases, pair)
  {
    var rules, own := RulesFor(outputKey, digest), ShownAs(outputKey, pair, f);
    TakerIsOwn(outputKey, pairs, pair, f);
    if PairInScope(aliases, pair) {
      var i :| 0 <= i < |pairs| && pairs[i] == pair;
      assert FoundUnder(compare, pairs, PairId(pair), f);
      CountsMeansCounted(outputKey, rules, compare, pairs, aliases, own, PairId(pair), f);
    }
    if own in Counted(rules, compare, pairs, aliases) {
      var k, g := CountedMeans(outputKey, rules, compare, pairs, aliases, own);
    }
  }

  lemma {:induction false} InWithKey(key: ContractFinding -> string, cfs: seq<ContractFinding>, k: string,
                                     cf: ContractFinding)
    ensures cf in WithKey(key, cfs, k) <==> cf in cfs && key(cf) == k
  {
    if cfs != [] {
      InWithKey(key, cfs[..|cfs| - 1], k, cf);
      assert cfs == cfs[..|cfs| - 1] + [cfs[|cfs| - 1]];
    }
  }

  lemma DatasetKeyIsTrimmed(dataset: string)
    ensures Trim(DatasetKey(dataset)) == DatasetKey(dataset)
    ensures Trim(Displayed(DatasetKey(dataset))) == Displayed(DatasetKey(dataset))
  {
    TrimBehind("/", dataset);
    TrimTwice(dataset);
  }

  /** A group whose first finding is of the dataset is allowed exactly if the dataset is. */
  lemma AllowedByFirst(allow: Option<Allow>, group: seq<ContractFinding>, dataset: string)
    requires group != [] && group[0].dataset == group[0].subject == DatasetKey(dataset) && Trim(dataset) != ""
    ensures AllowMatches(allow, group) <==> AllowsDataset(allow, dataset)
  {
    DatasetKeyIsTrimmed(dataset);
  }

  /** The first finding of a pair's group is one of a pair with the same group. */
  lemma FirstOfGroup(outputKey: Finding -> string, digest: Digest, compare: Compare, pairs: seq<Pair>,
                     aliases: Option<set<string>>, key: string)
    returns (t: Pair)
    requires WithKey(GroupKey, Counted(RulesFor(outputKey, digest), compare, pairs, aliases), key) != []
    ensures var first := WithKey(GroupKey, Counted(RulesFor(outputKey, digest), compare, pairs, aliases), key)[0];
      t in pairs && KeyOf(t) == key && first.dataset == first.subject == DatasetKey(t.p.dataset)
  {
    var rules := RulesFor(outputKey, digest);
    var cfs := Counted(rules, compare, pairs, aliases);
    var first := WithKey(GroupKey, cfs, key)[0];
    InWithKey(GroupKey, cfs, key, first);
    var k, f := CountedMeans(outputKey, rules, compare, pairs, aliases, first);
    t := Taker(pairs, k);
    TakerIsFirst(pairs, k);
  }

  lemma ExcusedByGroup(rules: Rules, acks: set<Ack>, allow: Option<Allow>, now: int, cfs: seq<ContractFinding>,
                       own: ContractFinding, pair: Pair)
    requires rules.key == GroupKey && GroupKey(own) == KeyOf(pair) && Trim(pair.p.dataset) != ""
    requires var group := WithKey(GroupKey, cfs, KeyOf(pair));
      group != [] && group[0].dataset == group[0].subject == DatasetKey(pair.p.dataset)
    ensures ExcusedIn(rules, acks, allow, now, cfs, own) <==> PairExcused(rules, acks, allow, now, cfs, pair)
  {
    AllowedByFirst(allow, WithKey(GroupKey, cfs, KeyOf(pair)), pair.p.dataset);
  }

  lemma GroupBeginsWithOwn(outputKey: Finding -> string, digest: Digest, compare: Compare, pairs: seq<Pair>,
                           aliases: Option<set<string>>, pair: Pair, f: Finding)
    requires GroupsClear(pairs) && pair in pairs
    requires ShownAs(outputKey, pair, f) in Counted(RulesFor(outputKey, digest), compare, pairs, aliases)
    ensures GroupKey(ShownAs(outputKey, pair, f)) == KeyOf(pair)
    ensures var group := WithKey(GroupKey, Counted(RulesFor(outputKey, digest), compare, pairs, aliases), KeyOf(pair));
      group != [] && group[0].dataset == group[0].subject == DatasetKey(pair.p.dataset)
  {
    var cfs, own := Counted(RulesFor(outputKey, digest), compare, pairs, aliases), ShownAs(outputKey, pair, f);
    InWithKey(GroupKey, cfs, KeyOf(pair), own);
    var t := FirstOfGroup(outputKey, digest, compare, pairs, aliases, KeyOf(pair));
    assert EndsOf(t).dataset == EndsOf(pair).dataset;
  }

  lemma ExcusedAsOwn(outputKey: Finding -> string, digest: Digest, compare: Compare, pairs: seq<Pair>,
                     aliases: Option<set<string>>, acks: set<Ack>, allow: Option<Allow>, now: int, pair: Pair,
                     f: Finding)
    requires GroupsClear(pairs) && pair in pairs && Trim(pair.p.dataset) != ""
    requires ShownAs(outputKey, pair, f) in Counted(RulesFor(outputKey, digest), compare, pairs, aliases)
    ensures var rules := RulesFor(outputKey, digest);
      var cfs := Counted(rules, compare, pairs, aliases);
      ExcusedIn(rules, acks, allow, now, cfs, ShownAs(outputKey, pair, f)) <==>
        PairExcused(rules, acks, allow, now, cfs, pair)
  {
    var rules := RulesFor(outputKey, digest);
    var cfs, own := Counted(rules, compare, pairs, aliases), ShownAs(outputKey, pair, f);
    GroupBeginsWithOwn(outputKey, digest, compare, pairs, aliases, pair, f);
    ExcusedByGroup(rules, acks, allow, now, cfs, own, pair);
  }

  ghost predicate AllNamed(pairs: seq<Pair>) {
    forall x :: x in pairs ==> Trim(x.p.dataset) != ""
  }

  lemma ClearIsDecided(outputKey: Finding -> string, digest: Digest, compare: Compare, pairs: seq<Pair>,
                       aliases: Option<set<string>>, acks: set<Ack>, allow: Option<Allow>, now: int, pair: Pair,
                       f: Finding)
    requires IdsClear(pairs) && GroupsClear(pairs) && AllNamed(pairs)
    requires pair in pairs && f in compare(pair.p, pair.c) && f.verdict.Breaking?
    ensures PairDecided(outputKey, digest, compare, pairs, aliases, acks, allow, now, pair, f)
  {
    OwnCounts(outputKey, digest, compare, pairs, aliases, pair, f);
    if PairInScope(aliases, pair) {
      ExcusedAsOwn(outputKey, digest, compare, pairs, aliases, acks, allow, now, pair, f);
    }
  }

  /** Whatever the comparison finds, whichever jobs come in and whatever is acknowledged or
      allowed, every breaking finding of every pair is decided as the pair's own. */
  ghost predicate AllDecided(outputKey: Finding -> string, digest: Digest, pairs: seq<Pair>) {
    forall compare: Compare, aliases, acks, allow, now, pair, f ::
      (pair in pairs && f in compare(pair.p, pair.c) && f.verdict.Breaking?) ==>
      PairDecided(outputKey, digest, compare, pairs, aliases, acks, allow, now, pair, f)
  }

  /** A pair that did not take up its id and differs from the one that did is not shown. */
  lemma OtherTakerHides(outputKey: Finding -> string, digest: Digest, pairs: seq<Pair>, pair: Pair)
    requires pair in pairs && HasId(pairs, PairId(pair)) && EndsOf(Taker(pairs, PairId(pair))) != EndsOf(pair)
    requires AllNamed(pairs)
    ensures !PairDecided(outputKey, digest, EveryPairBreaks(), pairs, None, {}, None, 0, pair, BREAK)
  {
    var rules, compare := RulesFor(outputKey, digest), EveryPairBreaks();
    var own := ShownAs(outputKey, pair, BREAK);
    if own in Counted(rules, compare, pairs, None) {
      var k, f := CountedMeans(outputKey, rules, compare, pairs, None, own);
      TakerIsFirst(pairs, k);
      SameShownSameEnds(outputKey, Taker(pairs, k), f, pair, BREAK);
    }
  }

  lemma SameShownSameEnds(outputKey: Finding -> string, x: Pair, f: Finding, y: Pair, g: Finding)
    requires ShownAs(outputKey, x, f) == ShownAs(outputKey, y, g)
    ensures EndsOf(x) == EndsOf(y) && PairId(x) == PairId(y)
  {
    assert DatasetKey(x.p.dataset)[1..] == Trim(x.p.dataset) && DatasetKey(y.p.dataset)[1..] == Trim(y.p.dataset);
  }

  lemma DecidedMeansIdsClear(outputKey: Finding -> string, digest: Digest, pairs: seq<Pair>)
    requires AllDecided(outputKey, digest, pairs) && AllNamed(pairs)
    ensures IdsClear(pairs)
  {
    forall x, y | x in pairs && y in pairs && PairId(x) == PairId(y) ensures EndsOf(x) == EndsOf(y) {
      TakesItsOwn(outputKey, digest, pairs, x);
      TakesItsOwn(outputKey, digest, pairs, y);
    }
  }

  lemma TakesItsOwn(outputKey: Finding -> string, digest: Digest, pairs: seq<Pair>, pair: Pair)
    requires AllDecided(outputKey, digest, pairs) && AllNamed(pairs) && pair in pairs
    ensures HasId(pairs, PairId(pair)) && EndsOf(Taker(pairs, PairId(pair))) == EndsOf(pair)
  {
    HasOwnId(pairs, pair);
    assert BREAK in EveryPairBreaks()(pair.p, pair.c);
    assert PairDecided(outputKey, digest, EveryPairBreaks(), pairs, None, {}, None, 0, pair, BREAK);
    if EndsOf(Taker(pairs, PairId(pair))) != EndsOf(pair) { OtherTakerHides(outputKey, digest, pairs, pair); }
  }

  /** An allowance for one dataset does not name another. */
  lemma AllowsOne(dataset: string, other: string)
    requires Trim(dataset) != Trim(other)
    ensures !AllowsDataset(Some(Allow(DatasetKey(dataset))), other)
  {
    DatasetKeyIsTrimmed(dataset);
    var key, key' := DatasetKey(dataset), DatasetKey(other);
    assert key[1..] == Trim(dataset) && key'[1..] == Trim(other) && key[0] == '/';
    DatasetKeyIsTrimmed(other);
    if Displayed(key') != key' {
      assert '/' !in Displayed(key') && '/' in key;
    }
  }

  /** A pair whose group begins with another dataset is excused by an allowance for that one. */
  lemma OtherDatasetExcuses(outputKey: Finding -> string, digest: Digest, pairs: seq<Pair>, pair: Pair, t: Pair)
    requires AllNamed(pairs) && pair in pairs && t in pairs && Trim(t.p.dataset) != Trim(pair.p.dataset)
    requires var cfs := Counted(RulesFor(outputKey, digest), EveryPairBreaks(), pairs, None);
      var group := WithKey(GroupKey, cfs, KeyOf(pair));
      group != [] && group[0].dataset == group[0].subject == DatasetKey(t.p.dataset)
    ensures !PairDecided(outputKey, digest, EveryPairBreaks(), pairs, None, {}, Some(Allow(DatasetKey(t.p.dataset))), 0,
                         pair, BREAK)
  {
    var rules := RulesFor(outputKey, digest);
    var cfs, allow := Counted(rules, EveryPairBreaks(), pairs, None), Some(Allow(DatasetKey(t.p.dataset)));
    AllowsOne(t.p.dataset, pair.p.dataset);
    DatasetKeyIsTrimmed(t.p.dataset);
    AllowedByFirst(allow, WithKey(GroupKey, cfs, KeyOf(pair)), t.p.dataset);
    assert GroupKey(ShownAs(outputKey, pair, BREAK)) == KeyOf(pair);
  }

  lemma DecidedMeansGroupsClear(outputKey: Finding -> string, digest: Digest, pairs: seq<Pair>)
    requires AllDecided(outputKey, digest, pairs) && AllNamed(pairs) && IdsClear(pairs)
    ensures GroupsClear(pairs)
  {
    forall x, y | x in pairs && y in pairs && KeyOf(x) == KeyOf(y) ensures EndsOf(x).dataset == EndsOf(y).dataset {
      var t := GroupBeginsWith(outputKey, digest, pairs, x);
      BeginsWithOwn(outputKey, digest, pairs, x, t);
      BeginsWithOwn(outputKey, digest, pairs, y, t);
    }
  }

  /** What the group of a pair begins with when every pair breaks. */
  lemma GroupBeginsWith(outputKey: Finding -> string, digest: Digest, pairs: seq<Pair>, pair: Pair) returns (t: Pair)
    requires IdsClear(pairs) && pair in pairs
    ensures var cfs := Counted(RulesFor(outputKey, digest), EveryPairBreaks(), pairs, None);
      var group := WithKey(GroupKey, cfs, KeyOf(pair));
      t in pairs && group != [] && group[0].dataset == group[0].subject == DatasetKey(t.p.dataset)
  {
    var cfs := Counted(RulesFor(outputKey, digest), EveryPairBreaks(), pairs, None);
    assert BREAK in EveryPairBreaks()(pair.p, pair.c);
    OwnCounts(outputKey, digest, EveryPairBreaks(), pairs, None, pair, BREAK);
    assert GroupKey(ShownAs(outputKey, pair, BREAK)) == KeyOf(pair);
    InWithKey(GroupKey, cfs, KeyOf(pair), ShownAs(outputKey, pair, BREAK));
    t := FirstOfGroup(outputKey, digest, EveryPairBreaks(), pairs, None, KeyOf(pair));
  }

  lemma BeginsWithOwn(outputKey: Finding -> string, digest: Digest, pairs: seq<Pair>, pair: Pair, t: Pair)
    requires AllDecided(outputKey, digest, pairs) && AllNamed(pairs) && pair in pairs && t in pairs
    requires var cfs := Counted(RulesFor(outputKey, digest), EveryPairBreaks(), pairs, None);
      var group := WithKey(GroupKey, cfs, KeyOf(pair));
      group != [] && group[0].dataset == group[0].subject == DatasetKey(t.p.dataset)
    ensures Trim(t.p.dataset) == Trim(pair.p.dataset)
  {
    assert BREAK in EveryPairBreaks()(pair.p, pair.c);
    assert PairDecided(outputKey, digest, EveryPairBreaks(), pairs, None, {}, Some(Allow(DatasetKey(t.p.dataset))), 0,
                       pair, BREAK);
    if Trim(t.p.dataset) != Trim(pair.p.dataset) { OtherDatasetExcuses(outputKey, digest, pairs, pair, t); }
  }

  /** Every breaking finding of every pair is always decided as the pair's own exactly when no
      two pairs share an id or a group without sharing what these stand for. */
  lemma AllDecidedExactlyWhenClear(outputKey: Finding -> string, digest: Digest, pairs: seq<Pair>)
    requires AllNamed(pairs)
    ensures AllDecided(outputKey, digest, pairs) <==> IdsClear(pairs) && GroupsClear(pairs)
  {
    if IdsClear(pairs) && GroupsClear(pairs) {
      forall compare: Compare, aliases, acks, allow, now, pair, f
        | pair in pairs && f in compare(pair.p, pair.c) && f.verdict.Breaking?
        ensures PairDecided(outputKey, digest, compare, pairs, aliases, acks, allow, now, pair, f)
      {
        ClearIsDecided(outputKey, digest, compare, pairs, aliases, acks, allow, now, pair, f);
      }
    }
    if AllDecided(outputKey, digest, pairs) {
      DecidedMeansIdsClear(outputKey, digest, pairs);
      DecidedMeansGroupsClear(outputKey, digest, pairs);
    }
  }

  // ----- names that are always clear, and names that are not -----

  /** Aliases without colons and zero characters. */
  ghost predicate PlainNames(pairs: seq<Pair>) {
    forall x :: x in pairs ==> Plain(Trim(x.p.alias)) && Plain(Trim(x.c.alias))
  }

  predicate Plain(alias: string) {
    ':' !in alias && '\0' !in alias
  }

  const PREFIX := "edge:declared:job:"

  lemma TargetText(w: string, b: string, q: string)
    ensures w + "->" + ("job:" + b) + (":" + q) == (w + "->job:") + (b + [':'] + q)
  {
    Assoc(w, "->", "job:" + b);
    assert "->" + ("job:" + b) == "->job:" + b;
    Assoc(w, "->job:", b);
    Assoc(w + "->job:", b, ":" + q);
    Assoc(b, ":", q);
  }

  lemma SourceText(a: string, rest: string)
    ensures PREFIX + ((a + "->job") + [':'] + rest) == (PREFIX + a + "->job:") + rest
  {
    Assoc(PREFIX, (a + "->job") + [':'], rest);
    Assoc(a, "->job", ":");
    assert "->job" + ":" == "->job:";
    Assoc(PREFIX, a, "->job:");
  }

  lemma IdText(pair: Pair)
    ensures var e := EndsOf(pair);
      PairId(pair) == PREFIX + ((e.producer + "->job") + [':'] + (e.consumer + [':'] + ("/" + e.dataset)))
  {
    var e := EndsOf(pair);
    assert "edge:" + "declared" + ":" == "edge:declared:";
    Assoc("edge:declared:", "job:", e.producer);
    assert "edge:declared:" + "job:" == PREFIX;
    TargetText(PREFIX + e.producer, e.consumer, "/" + e.dataset);
    SourceText(e.producer, e.consumer + [':'] + ("/" + e.dataset));
  }

  lemma PlainIdUnique(x: Pair, y: Pair)
    requires Plain(Trim(x.p.alias)) && Plain(Trim(x.c.alias)) && Plain(Trim(y.p.alias)) && Plain(Trim(y.c.alias))
    requires PairId(x) == PairId(y)
    ensures EndsOf(x) == EndsOf(y)
  {
    IdText(x);
    IdText(y);
    var a, b := EndsOf(x), EndsOf(y);
    var s := (a.producer + "->job") + [':'] + (a.consumer + [':'] + ("/" + a.dataset));
    var t := (b.producer + "->job") + [':'] + (b.consumer + [':'] + ("/" + b.dataset));
    assert s == (PREFIX + s)[|PREFIX|..] && t == (PREFIX + t)[|PREFIX|..];
    SplitUnique(a.producer + "->job", a.consumer + [':'] + ("/" + a.dataset),
                b.producer + "->job", b.consumer + [':'] + ("/" + b.dataset), ':');
    SplitUnique(a.consumer, "/" + a.dataset, b.consumer, "/" + b.dataset, ':');
    assert a.producer == (a.producer + "->job")[..|a.producer + "->job"| - 5];
    assert b.producer == (b.producer + "->job")[..|b.producer + "->job"| - 5];
    assert a.dataset == ("/" + a.dataset)[1..] && b.dataset == ("/" + b.dataset)[1..];
  }

  lemma PlainKeyUnique(x: Pair, y: Pair)
    requires Plain(Trim(x.p.alias)) && Plain(Trim(y.p.alias)) && KeyOf(x) == KeyOf(y)
    ensures EndsOf(x).dataset == EndsOf(y).dataset
  {
    assert KeyOf(x) == Trim(x.p.alias) + ['\0'] + DatasetKey(x.p.dataset);
    assert KeyOf(y) == Trim(y.p.alias) + ['\0'] + DatasetKey(y.p.dataset);
    SplitUnique(Trim(x.p.alias), DatasetKey(x.p.dataset), Trim(y.p.alias), DatasetKey(y.p.dataset), '\0');
    assert DatasetKey(x.p.dataset)[1..] == Trim(x.p.dataset) && DatasetKey(y.p.dataset)[1..] == Trim(y.p.dataset);
  }

  /** With such aliases, whatever the datasets are called, everything is enforced as it should. */
  lemma PlainNamesAreClear(pairs: seq<Pair>)
    requires PlainNames(pairs)
    ensures IdsClear(pairs) && GroupsClear(pairs)
  {
    forall x, y | x in pairs && y in pairs && PairId(x) == PairId(y) ensures EndsOf(x) == EndsOf(y) {
      PlainIdUnique(x, y);
    }
    forall x, y | x in pairs && y in pairs && KeyOf(x) == KeyOf(y) ensures EndsOf(x).dataset == EndsOf(y).dataset {
      PlainKeyUnique(x, y);
    }
  }

  /** A colon in an alias moves the border between consumer and dataset: the ids of two pairs
      of one producer are the same. */
  lemma ColonMovesTheConsumer(x: Pair, y: Pair, b: string, d: string, e: string)
    requires Trim(x.p.alias) == Trim(y.p.alias)
    requires Trim(x.c.alias) == b && Trim(x.p.dataset) == d + ":/" + e
    requires Trim(y.c.alias) == b + ":/" + d && Trim(y.p.dataset) == e
    ensures PairId(x) == PairId(y) && EndsOf(x) != EndsOf(y)
  {
    IdText(x);
    IdText(y);
    MovedBorder(b, d, e);
    assert |b| < |b + ":/" + d|;
  }

  lemma MovedBorder(b: string, d: string, e: string)
    ensures b + [':'] + ("/" + (d + ":/" + e)) == (b + ":/" + d) + [':'] + ("/" + e)
  {
    Assoc("/", d + ":/", e);
    Assoc("/", d, ":/");
    Assoc(b, ":", ("/" + d + ":/") + e);
    assert ":" + (("/" + d + ":/") + e) == ":/" + d + ":" + "/" + e;
    Assoc(b + ":/", d, ":");
  }

  /** These are the pairs, in the code's order, of a job that produces two datasets and two
      jobs that consume one each. */
  lemma CollidingSteps()
    ensures var p, q := Party("a", "s", "d:/e", ""), Party("a", "s", "e", "");
            var c, d := Party("b", "s", "d:/e", ""), Party("b:/d", "s", "e", "");
      PairsOf([p, q], [c, d]) == [Pair(p, c), Pair(q, d)]
  {
    var p, q := Party("a", "s", "d:/e", ""), Party("a", "s", "e", "");
    var c, d := Party("b", "s", "d:/e", ""), Party("b:/d", "s", "e", "");
    assert Datasets([p, q]) == {"d:/e", "e"} by {
      assert p in [p, q] && q in [p, q] && Trim(p.dataset) == "d:/e" && Trim(q.dataset) == "e";
    }
    SortedPair("d:/e", "e");
    OneEach("d:/e", "e", p, q, c, d);
  }

  /** One producer and one consumer for each of two datasets. */
  lemma OneEach(x: string, y: string, p: Party, q: Party, c: Party, d: Party)
    requires x != "" && y != "" && x != y
    requires Trim(p.dataset) == Trim(c.dataset) == x && Trim(q.dataset) == Trim(d.dataset) == y
    requires p.alias != c.alias && q.alias != d.alias
    ensures PairsOfAll([x, y], [p, q], [c, d]) == [Pair(p, c), Pair(q, d)]
  {
    ForProducer(p, c, d);
    ForProducer(q, c, d);
    ForDataset(x, p, q, [c, d]);
    ForDataset(y, p, q, [c, d]);
    assert [x, y][..1] == [x] && [x][..0] == [];
    assert PairsOfAll([x], [p, q], [c, d]) == [] + PairsOfDataset(x, [p, q], [c, d]);
  }

  lemma ForProducer(p: Party, c: Party, d: Party)
    ensures PairsOfProducer(p, [c, d])
         == (if Meets(p, c) then [Pair(p, c)] else []) + (if Meets(p, d) then [Pair(p, d)] else [])
  {
    assert [c, d][..1] == [c] && [c][..0] == [];
    assert PairsOfProducer(p, [c]) == [] + if Meets(p, c) then [Pair(p, c)] else [];
  }

  lemma ForDataset(name: string, p: Party, q: Party, consumers: seq<Party>)
    ensures PairsOfDataset(name, [p, q], consumers)
         == (if Trim(p.dataset) == name then PairsOfProducer(p, consumers) else [])
            + (if Trim(q.dataset) == name then PairsOfProducer(q, consumers) else [])
  {
    assert [p, q][..1] == [p] && [p][..0] == [];
    assert PairsOfDataset(name, [p], consumers)
        == [] + if Trim(p.dataset) == name then PairsOfProducer(p, consumers) else [];
  }

  lemma CollidingPairIsLost(outputKey: Finding -> string, digest: Digest, x: Pair, y: Pair, b: string, d: string,
                            e: string)
    requires Trim(x.p.alias) == Trim(y.p.alias) && Trim(x.p.alias) != b + ":/" + d
    requires Trim(x.c.alias) == b && Trim(x.p.dataset) == d + ":/" + e
    requires Trim(y.c.alias) == b + ":/" + d && Trim(y.p.dataset) == e
    ensures Lost(outputKey, digest, EveryPairBreaks(), [x, y], Some({b + ":/" + d}), y, BREAK)
  {
    ColonMovesTheConsumer(x, y, b, d, e);
    FirstTakes(x, y);
    assert [x, y][1] == y && |b| < |b + ":/" + d|;
    OutOfScopeIsLost(outputKey, digest, [x, y], y, b + ":/" + d);
  }

  lemma CollidingNames()
    ensures Trim("a") == "a" && Trim("b") == "b" && Trim("e") == "e"
    ensures Trim("d:/e") == "d" + ":/" + "e" && Trim("b:/d") == "b" + ":/" + "d" == "b:/d" && "a" != "b:/d"
  {
  }

  /** Job `a` produces `d:/e` for job `b` and `e` for job `b:/d`. If the second pair breaks and
      only `b:/d` comes in, the finding is lost. */
  lemma CollisionLosesAFinding(outputKey: Finding -> string, digest: Digest)
    ensures var p, q := Party("a", "s", "d:/e", ""), Party("a", "s", "e", "");
            var c, d := Party("b", "s", "d:/e", ""), Party("b:/d", "s", "e", "");
      Lost(outputKey, digest, EveryPairBreaks(), PairsOf([p, q], [c, d]), Some({"b:/d"}), Pair(q, d), BREAK)
  {
    CollidingSteps();
    CollidingNames();
    CollidingPairsLose(outputKey, digest, "a", "b", "d", "e", "d:/e", "b:/d");
  }

  lemma CollidingPairsLose(outputKey: Finding -> string, digest: Digest, a: string, b: string, d: string, e: string,
                           de: string, bd: string)
    requires Trim(a) == a && Trim(b) == b && Trim(e) == e && Trim(de) == d + ":/" + e
    requires Trim(bd) == b + ":/" + d == bd && a != bd
    ensures var x := Pair(Party(a, "s", de, ""), Party(b, "s", de, ""));
      var y := Pair(Party(a, "s", e, ""), Party(bd, "s", e, ""));
      Lost(outputKey, digest, EveryPairBreaks(), [x, y], Some({bd}), y, BREAK)
  {
    CollidingPairIsLost(outputKey, digest, Pair(Party(a, "s", de, ""), Party(b, "s", de, "")),
                        Pair(Party(a, "s", e, ""), Party(bd, "s", e, "")), b, d, e);
  }

  lemma FirstTakes(x: Pair, y: Pair)
    requires PairId(x) == PairId(y)
    ensures HasId([x, y], PairId(y)) && Taker([x, y], PairId(y)) == x
  {
    var k := PairId(y);
    assert [x, y][..1] == [x] && [x][..0] == [] && PairId([x][0]) == k && PairId([x, y][0]) == k;
    assert HasId([x], k) && Taker([x], k) == x;
  }

  // ----- the whole -----

  /** Declared contracts from the steps to the decision, in fail mode. If names are clear, each
      breaking finding of each pair blocks, under the pair's own names, exactly if one of the
      pair's jobs is incoming and the pair is not excused. */
  method EnforceDeclared(b: GraphBuilder, outputKey: Finding -> string, digest: Digest, compare: Compare,
                         producers: seq<Party>, consumers: seq<Party>, aliases: Option<set<string>>,
                         acks: set<Ack>, allow: Option<Allow>, suppressNoMatch: bool, window: int, now: int)
    returns (decision: Decision)
    requires b.edges == map[] && CollisionFree(digest)
    modifies b
    ensures var rules, pairs := RulesFor(outputKey, digest), PairsOf(producers, consumers);
      var cfs := Counted(rules, compare, pairs, aliases);
      && BlocksExactly(rules, acks, allow, now, cfs, decision)
      && (IdsClear(pairs) && GroupsClear(pairs) ==> forall p, c, f ::
            (p in producers && c in consumers && Meets(p, c) && f in compare(p, c) && f.verdict.Breaking?) ==>
            (decision.Blocked? && ShownAs(outputKey, Pair(p, c), f) in decision.findings <==>
               PairInScope(aliases, Pair(p, c)) && !PairExcused(rules, acks, allow, now, cfs, Pair(p, c))))
  {
    DeriveDeclaredEdges(b, compare, producers, consumers);
    ghost var pairs := PairsOf(producers, consumers);
    AddOntoNothing(EdgeId, EdgesOf(compare, pairs));
    var graph := ListEdges(b.edges);
    var acks';
    decision, acks' := EvaluateGraph(outputKey, digest, aliases, graph, Fail, acks, allow, suppressNoMatch, window,
                                     now);
    if IdsClear(pairs) && GroupsClear(pairs) {
      forall p, c, f | p in producers && c in consumers && Meets(p, c) && f in compare(p, c) && f.verdict.Breaking?
        ensures decision.Blocked? && ShownAs(outputKey, Pair(p, c), f) in decision.findings <==>
          (PairInScope(aliases, Pair(p, c))
           && !PairExcused(RulesFor(outputKey, digest), acks, allow, now,
                           Counted(RulesFor(outputKey, digest), compare, pairs, aliases), Pair(p, c)))
      {
        PairIsDecided(outputKey, digest, compare, producers, consumers, aliases, acks, allow, now, decision,
                      Pair(p, c), f);
      }
    }
  }

  lemma PairIsDecided(outputKey: Finding -> string, digest: Digest, compare: Compare, producers: seq<Party>,
                      consumers: seq<Party>, aliases: Option<set<string>>, acks: set<Ack>, allow: Option<Allow>,
                      now: int, decision: Decision, pair: Pair, f: Finding)
    requires IdsClear(PairsOf(producers, consumers)) && GroupsClear(PairsOf(producers, consumers))
    requires pair.p in producers && pair.c in consumers && Meets(pair.p, pair.c)
    requires f in compare(pair.p, pair.c) && f.verdict.Breaking?
    requires var rules := RulesFor(outputKey, digest);
      BlocksExactly(rules, acks, allow, now, Counted(rules, compare, PairsOf(producers, consumers), aliases), decision)
    ensures var rules := RulesFor(outputKey, digest);
      var cfs := Counted(rules, compare, PairsOf(producers, consumers), aliases);
      decision.Blocked? && ShownAs(outputKey, pair, f) in decision.findings <==>
        PairInScope(aliases, pair) && !PairExcused(rules, acks, allow, now, cfs, pair)
  {
    var rules, pairs := RulesFor(outputKey, digest), PairsOf(producers, consumers);
    PairsAreTheMeeting(producers, consumers, pair);
    forall x | x in pairs ensures Trim(x.p.dataset) != "" { PairsAreTheMeeting(producers, consumers, x); }
    ClearIsDecided(outputKey, digest, compare, pairs, aliases, acks, allow, now, pair, f);
    BlockedListed(rules, acks, allow, now, Counted(rules, compare, pairs, aliases), decision,
                  ShownAs(outputKey, pair, f));
  }
}
