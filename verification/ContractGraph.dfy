/** How step-pair findings become the edges of the contract graph: findings of one edge are
    merged, and the edge's verdict stays the worst of them. */
module ContractGraph {
  import opened Options
  import opened Permutations
  import opened Strings

  datatype Verdict = NoVerdict | Compatible | Unknown | Breaking

  datatype Finding = Finding(kind: string, path: string, detail: string, key: string, verdict: Verdict)

  /** `source` and `target` are node ids, `dataset` is the dataset's key. */
  datatype Edge = Edge(kind: string, source: string, target: string, dataset: Option<string>, verdict: Verdict,
                       findings: seq<Finding>)

  function Rank(v: Verdict): nat {
    match v
    case NoVerdict => 0
    case Compatible => 1
    case Unknown => 2
    case Breaking => 3
  }

  /** The worse of two verdicts. */
  function Join(a: Verdict, b: Verdict): Verdict {
    if Rank(a) < Rank(b) then b else a
  }

  // ----- the verdict of a list of findings -----

  ghost predicate HasVerdict(findings: seq<Finding>, v: Verdict) {
    exists i :: 0 <= i < |findings| && findings[i].verdict == v
  }

  /** The worst finding, where anything short of unknown counts as the default. */
  ghost function Worst(findings: seq<Finding>, default: Verdict): Verdict {
    if HasVerdict(findings, Breaking) then Breaking
    else if HasVerdict(findings, Unknown) then Unknown
    else default
  }

  method VerdictForFindings(findings: seq<Finding>, default: Verdict) returns (verdict: Verdict)
    ensures verdict == Worst(findings, default)
  {
    verdict := default;
    for i := 0 to |findings|
      invariant !HasVerdict(findings[..i], Breaking)
      invariant verdict == Worst(findings[..i], default)
    {
      WorstMore(findings[..i], findings[i], default);
      assert findings[..i + 1] == findings[..i] + [findings[i]];
      match findings[i].verdict
      case Breaking =>
        assert findings[i].verdict == Breaking;
        return Breaking;
      case Unknown => verdict := Unknown;
      case _ =>
    }
    assert findings[..|findings|] == findings;
  }

  lemma HasVerdictConcat(a: seq<Finding>, b: seq<Finding>, v: Verdict)
    ensures HasVerdict(a + b, v) <==> HasVerdict(a, v) || HasVerdict(b, v)
  {
    if i :| 0 <= i < |a| && a[i].verdict == v { assert (a + b)[i].verdict == v; }
    if i :| 0 <= i < |b| && b[i].verdict == v { assert (a + b)[|a| + i].verdict == v; }
  }

  lemma WorstMore(a: seq<Finding>, f: Finding, default: Verdict)
    ensures Worst(a + [f], default) == if f.verdict.Breaking? || HasVerdict(a, Breaking) then Breaking
                                       else if f.verdict.Unknown? then Unknown else Worst(a, default)
  {
    HasVerdictConcat(a, [f], Breaking);
    HasVerdictConcat(a, [f], Unknown);
    assert [f][0] == f;
  }

  // ----- merging -----

  /** Sorting the merged findings only changes their order. */
  function MergeEdges(existing: Edge, incoming: Edge): Edge {
    var verdict :=
      if incoming.verdict.Breaking? || existing.verdict.NoVerdict? then incoming.verdict
      else if incoming.verdict.Unknown? && !existing.verdict.Breaking? then Unknown
      else existing.verdict;
    existing.(verdict := verdict, findings := existing.findings + incoming.findings)
  }

  lemma MergeJoins(a: Edge, b: Edge)
    ensures MergeEdges(a, b).verdict == Join(a.verdict, b.verdict)
  {
  }

  /** The edge's verdict is that of its findings. */
  ghost predicate VerdictSound(e: Edge) {
    e.verdict == Worst(e.findings, Compatible)
  }

  lemma MergeKeepsSound(a: Edge, b: Edge)
    requires VerdictSound(a) && VerdictSound(b)
    ensures VerdictSound(MergeEdges(a, b))
  {
    HasVerdictConcat(a.findings, b.findings, Breaking);
    HasVerdictConcat(a.findings, b.findings, Unknown);
  }

  function EdgeId(e: Edge): string {
    "edge:" + e.kind + ":" + e.source + "->" + e.target + if e.dataset.Some? then ":" + e.dataset.value else ""
  }

  function Trimmed(e: Edge): Edge {
    e.(source := Trim(e.source), target := Trim(e.target))
  }

  predicate Acceptable(e: Edge) {
    Trim(e.source) != "" && Trim(e.target) != "" && e.kind != ""
  }

  type Edges = map<string, Edge>

  /** Edges are kept by an id, and an id that is already there merges. */
  function AddTo(id: Edge -> string, edges: Edges, e: Edge): Edges {
    if !Acceptable(e) then edges
    else
      var t := Trimmed(e);
      edges[id(t) := if id(t) in edges then MergeEdges(edges[id(t)], t) else t]
  }

  function AddAll(id: Edge -> string, es: seq<Edge>): Edges {
    if es == [] then map[] else AddTo(id, AddAll(id, es[..|es| - 1]), es[|es| - 1])
  }

  /** The same, on top of edges that are already there. */
  function AddOnto(id: Edge -> string, edges: Edges, es: seq<Edge>): Edges {
    if es == [] then edges else AddTo(id, AddOnto(id, edges, es[..|es| - 1]), es[|es| - 1])
  }

  lemma {:induction false} AddOntoJoin(id: Edge -> string, edges: Edges, a: seq<Edge>, b: seq<Edge>)
    ensures AddOnto(id, edges, a + b) == AddOnto(id, AddOnto(id, edges, a), b)
  {
    if b == [] {
      assert a + b == a;
    } else {
      AddOntoJoin(id, edges, a, b[..|b| - 1]);
      assert (a + b)[..|a + b| - 1] == a + b[..|b| - 1];
    }
  }

  lemma {:induction false} AddOntoNothing(id: Edge -> string, es: seq<Edge>)
    ensures AddOnto(id, map[], es) == AddAll(id, es)
  {
    if es != [] { AddOntoNothing(id, es[..|es| - 1]); }
  }

  /** An edge without a class or with a blank end is not taken. Any other is kept, its ends trimmed,
      under an id made of class, ends and dataset; if the id is there, the findings are put
      together. All other edges stay as they are. */
  lemma AddsExactlyWhen(edges: Edges, e: Edge)
    ensures var edges', a, b := AddTo(EdgeId, edges, e), Trim(e.source), Trim(e.target);
      var key := "edge:" + e.kind + ":" + a + "->" + b + if e.dataset.Some? then ":" + e.dataset.value else "";
      if a == "" || b == "" || e.kind == "" then edges' == edges
      else
        && edges'.Keys == edges.Keys + {key} && (forall k :: k in edges && k != key ==> edges'[k] == edges[k])
        && (key in edges ==> edges'[key].findings == edges[key].findings + e.findings)
        && (key !in edges ==> edges'[key] == Edge(e.kind, a, b, e.dataset, e.verdict, e.findings))
  {
  }

  class GraphBuilder {
    var edges: Edges

    constructor ()
      ensures edges == map[]
    {
      edges := map[];
    }

    method AddEdge(e: Edge)
      modifies this
      ensures edges == AddTo(EdgeId, old(edges), e)
    {
      if Trim(e.source) == "" || Trim(e.target) == "" || e.kind == "" {
        return;
      }
      var t := e.(source := Trim(e.source), target := Trim(e.target));
      var id := EdgeId(t);
      if id in edges {
        edges := edges[id := MergeEdges(edges[id], t)];
        return;
      }
      edges := edges[id := t];
    }
  }

  // ----- what the graph holds, whatever the order -----

  predicate Contributes(id: Edge -> string, e: Edge, k: string) {
    Acceptable(e) && id(Trimmed(e)) == k
  }

  function Share(id: Edge -> string, e: Edge, k: string): multiset<Finding> {
    if Contributes(id, e, k) then multiset(e.findings) else multiset{}
  }

  /** All findings that were added for an edge. */
  function TotalFindings(id: Edge -> string, es: seq<Edge>, k: string): multiset<Finding> {
    if es == [] then multiset{} else TotalFindings(id, es[..|es| - 1], k) + Share(id, es[|es| - 1], k)
  }

  /** The worst verdict that was added for an edge. */
  function TotalVerdict(id: Edge -> string, es: seq<Edge>, k: string): Verdict {
    if es == [] then NoVerdict
    else Join(TotalVerdict(id, es[..|es| - 1], k),
              if Contributes(id, es[|es| - 1], k) then es[|es| - 1].verdict else NoVerdict)
  }

  ghost predicate SomeContributes(id: Edge -> string, es: seq<Edge>, k: string) {
    exists i :: 0 <= i < |es| && Contributes(id, es[i], k)
  }

  lemma {:induction false} GraphHoldsContributors(id: Edge -> string, es: seq<Edge>, k: string)
    ensures k in AddAll(id, es) <==> SomeContributes(id, es, k)
  {
    if es != [] {
      var front := es[..|es| - 1];
      GraphHoldsContributors(id, front, k);
      assert forall i :: 0 <= i < |front| ==> front[i] == es[i];
    }
  }

  /** The edge that took up an id, trimmed: merging changes nothing but verdict and findings. */
  ghost function FirstOf(id: Edge -> string, es: seq<Edge>, k: string): Edge
    requires SomeContributes(id, es, k)
  {
    var front := es[..|es| - 1];
    if SomeContributes(id, front, k) then FirstOf(id, front, k) else Trimmed(es[|es| - 1])
  }

  /** An edge of the graph keeps the ends and the dataset of what took up its id. */
  lemma {:induction false} EdgeKeepsFirst(id: Edge -> string, es: seq<Edge>, k: string)
    requires SomeContributes(id, es, k)
    ensures k in AddAll(id, es)
    ensures var e, first := AddAll(id, es)[k], FirstOf(id, es, k);
      e == first.(verdict := e.verdict, findings := e.findings)
  {
    var front := es[..|es| - 1];
    GraphHoldsContributors(id, es, k);
    GraphHoldsContributors(id, front, k);
    if SomeContributes(id, front, k) { EdgeKeepsFirst(id, front, k); }
  }

  /** Nothing is lost in merging: an edge of the graph has exactly the findings of everything
      that was added under its id. */
  lemma {:induction false} GraphHoldsFindings(id: Edge -> string, es: seq<Edge>, k: string)
    ensures TotalFindings(id, es, k) == if k in AddAll(id, es) then multiset(AddAll(id, es)[k].findings) else multiset{}
  {
    if es != [] { GraphHoldsFindings(id, es[..|es| - 1], k); }
  }

  /** And the worst of the verdicts. */
  lemma {:induction false} GraphHoldsVerdict(id: Edge -> string, es: seq<Edge>, k: string)
    ensures TotalVerdict(id, es, k) == if k in AddAll(id, es) then AddAll(id, es)[k].verdict else NoVerdict
  {
    if es != [] {
      var front, e := es[..|es| - 1], es[|es| - 1];
      GraphHoldsVerdict(id, front, k);
      if Contributes(id, e, k) && k in AddAll(id, front) { MergeJoins(AddAll(id, front)[k], Trimmed(e)); }
    }
  }

  lemma FindingsMore(id: Edge -> string, es: seq<Edge>, e: Edge, k: string)
    ensures TotalFindings(id, es + [e], k) == TotalFindings(id, es, k) + Share(id, e, k)
  {
    assert (es + [e])[..|es|] == es;
  }

  lemma Regroup(x: multiset<Finding>, y: multiset<Finding>, z: multiset<Finding>)
    ensures (x + y) + z == x + (y + z)
  {
  }

  lemma LastEdge(a: seq<Edge>, b: seq<Edge>)
    requires b != []
    ensures a + b == (a + b[..|b| - 1]) + [b[|b| - 1]] && b == b[..|b| - 1] + [b[|b| - 1]]
  {
  }

  lemma {:induction false} FindingsSplit(id: Edge -> string, a: seq<Edge>, b: seq<Edge>, k: string)
    ensures TotalFindings(id, a + b, k) == TotalFindings(id, a, k) + TotalFindings(id, b, k)
  {
    if b == [] {
      assert a + b == a;
      Regroup(TotalFindings(id, a, k), multiset{}, multiset{});
    } else {
      var front, last := b[..|b| - 1], b[|b| - 1];
      FindingsSplit(id, a, front, k);
      LastEdge(a, b);
      FindingsMore(id, a + front, last, k);
      FindingsMore(id, front, last, k);
      Regroup(TotalFindings(id, a, k), TotalFindings(id, front, k), Share(id, last, k));
    }
  }

  lemma {:induction false} VerdictSplit(id: Edge -> string, a: seq<Edge>, b: seq<Edge>, k: string)
    ensures TotalVerdict(id, a + b, k) == Join(TotalVerdict(id, a, k), TotalVerdict(id, b, k))
  {
    if b == [] {
      assert a + b == a;
    } else {
      VerdictSplit(id, a, b[..|b| - 1], k);
      assert (a + b)[..|a + b| - 1] == a + b[..|b| - 1];
    }
  }

  lemma FindingsAround(id: Edge -> string, a: seq<Edge>, e: Edge, b: seq<Edge>, k: string)
    ensures TotalFindings(id, a + ([e] + b), k) == TotalFindings(id, [e], k) + TotalFindings(id, a + b, k)
    ensures TotalVerdict(id, a + ([e] + b), k) == Join(TotalVerdict(id, [e], k), TotalVerdict(id, a + b, k))
  {
    FindingsSplit(id, a, [e] + b, k);
    FindingsSplit(id, [e], b, k);
    FindingsSplit(id, a, b, k);
    VerdictSplit(id, a, [e] + b, k);
    VerdictSplit(id, [e], b, k);
    VerdictSplit(id, a, b, k);
  }

  /** The order in which step pairs are merged does not matter. */
  lemma {:induction false} MergeOrderDoesNotMatter(id: Edge -> string, a: seq<Edge>, b: seq<Edge>, k: string)
    requires multiset(a) == multiset(b)
    ensures TotalFindings(id, a, k) == TotalFindings(id, b, k) && TotalVerdict(id, a, k) == TotalVerdict(id, b, k)
    decreases |a|
  {
    if a == [] {
      assert |multiset(b)| == 0;
    } else {
      var i := TakeOut(a, b);
      MergeOrderDoesNotMatter(id, a[1..], b[..i] + b[i + 1..], k);
      FindingsAround(id, [], a[0], a[1..], k);
      FindingsAround(id, b[..i], a[0], b[i + 1..], k);
      assert a == [] + ([a[0]] + a[1..]) && [] + a[1..] == a[1..];
    }
  }

  /** Edges whose verdict is that of their findings make a graph of such edges. */
  lemma {:induction false} GraphStaysSound(id: Edge -> string, es: seq<Edge>, k: string)
    requires forall i :: 0 <= i < |es| ==> VerdictSound(es[i])
    ensures k in AddAll(id, es) ==> VerdictSound(AddAll(id, es)[k])
  {
    if es != [] {
      var front, e := es[..|es| - 1], es[|es| - 1];
      GraphStaysSound(id, front, k);
      if Contributes(id, e, k) && k in AddAll(id, front) { MergeKeepsSound(AddAll(id, front)[k], Trimmed(e)); }
    }
  }

  /** A breaking finding that was added stays in the graph, on an edge that is breaking. */
  lemma BreakingStays(id: Edge -> string, es: seq<Edge>, k: string, i: nat, f: Finding)
    requires forall j :: 0 <= j < |es| ==> VerdictSound(es[j])
    requires i < |es| && Contributes(id, es[i], k) && f in es[i].findings && f.verdict.Breaking?
    ensures k in AddAll(id, es) && f in AddAll(id, es)[k].findings && AddAll(id, es)[k].verdict.Breaking?
  {
    GraphHoldsContributors(id, es, k);
    GraphHoldsFindings(id, es, k);
    TotalHasEach(id, es, k, i, f);
    assert f in multiset(AddAll(id, es)[k].findings);
    GraphStaysSound(id, es, k);
  }

  lemma {:induction false} TotalHasEach(id: Edge -> string, es: seq<Edge>, k: string, i: nat, f: Finding)
    requires i < |es| && Contributes(id, es[i], k) && f in es[i].findings
    ensures f in TotalFindings(id, es, k)
  {
    if i < |es| - 1 { TotalHasEach(id, es[..|es| - 1], k, i, f); }
  }
}
