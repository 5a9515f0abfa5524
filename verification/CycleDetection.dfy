/** Cycle detection by a three-colour depth-first search over a graph of named nodes. */
module CycleDetection {
  import opened Strings

  type Graph = map<string, set<string>>

  function Succ(g: Graph, v: string): set<string> {
    if v in g then g[v] else {}
  }

  ghost predicate Edge(g: Graph, v: string, w: string) {
    w in Succ(g, v)
  }

  /** Consecutive nodes are joined by edges. */
  ghost predicate IsWalk(g: Graph, p: seq<string>) {
    forall i :: 0 <= i < |p| - 1 ==> Edge(g, p[i], p[i + 1])
  }

  ghost predicate Distinct(p: seq<string>) {
    forall i, j :: 0 <= i < j < |p| ==> p[i] != p[j]
  }

  /** A closed walk that repeats no node but its first. */
  ghost predicate IsCycle(g: Graph, p: seq<string>) {
    && |p| >= 2 && IsWalk(g, p) && p[0] == p[|p| - 1] && Distinct(p[..|p| - 1])
  }

  ghost predicate HasCycle(g: Graph) {
    exists p :: IsCycle(g, p)
  }

  /** Every edge goes up. */
  ghost predicate Ranks(g: Graph, rank: map<string, int>) {
    forall v, w :: Edge(g, v, w) ==> v in rank && w in rank && rank[v] < rank[w]
  }

  ghost predicate Acyclic(g: Graph) {
    exists rank :: Ranks(g, rank)
  }

  /** A ranking climbs along a walk, so a ranked graph has no closed walk. */
  lemma {:induction false} WalkClimbs(g: Graph, rank: map<string, int>, p: seq<string>)
    requires Ranks(g, rank) && IsWalk(g, p) && |p| >= 2
    ensures p[0] in rank && p[|p| - 1] in rank && rank[p[0]] < rank[p[|p| - 1]]
  {
    assert Edge(g, p[0], p[0 + 1]);
    if |p| > 2 {
      forall i | 0 <= i < |p[1..]| - 1 ensures Edge(g, p[1..][i], p[1..][i + 1]) {
        assert Edge(g, p[i + 1], p[(i + 1) + 1]);
      }
      WalkClimbs(g, rank, p[1..]);
      assert p[1..][0] == p[1] && p[1..][|p| - 2] == p[|p| - 1];
    }
  }

  lemma CycleExcludesRanking(g: Graph, p: seq<string>)
    requires IsCycle(g, p)
    ensures !Acyclic(g)
  {
    if rank :| Ranks(g, rank) {
      WalkClimbs(g, rank, p);
    }
  }

  datatype Colour = Unvisited | Visiting | Visited

  function ColourOf(state: map<string, Colour>, v: string): Colour {
    if v in state then state[v] else Unvisited
  }

  /** Every successor of a finished node finished before it. */
  ghost predicate Ordered(g: Graph, fs: seq<string>) {
    && Distinct(fs)
    && forall i, w :: 0 <= i < |fs| && Edge(g, fs[i], w) ==> w in fs[..i]
  }

  /** The stack is a simple walk of exactly the nodes under visit, and the finished nodes are
      exactly the visited ones. */
  ghost predicate Consistent(g: Graph, state: map<string, Colour>, stack: seq<string>, finished: seq<string>) {
    && (forall v :: v in stack <==> ColourOf(state, v) == Visiting)
    && Distinct(stack) && IsWalk(g, stack)
    && (forall v :: v in finished <==> ColourOf(state, v) == Visited)
    && Ordered(g, finished)
  }

  lemma PopConsistent(g: Graph, state: map<string, Colour>, stack: seq<string>, finished: seq<string>, node: string)
    requires Consistent(g, state, stack + [node], finished)
    requires forall w :: Edge(g, node, w) ==> ColourOf(state, w) == Visited
    ensures Consistent(g, state[node := Visited], stack, finished + [node])
  {
    var state', full := state[node := Visited], stack + [node];
    assert full[|stack|] == node && ColourOf(state, node) == Visiting;
    forall v ensures v in stack <==> ColourOf(state', v) == Visiting {
      assert v in full <==> v in stack || v == node;
      assert v in full <==> ColourOf(state, v) == Visiting;
      if v in stack { var i :| 0 <= i < |stack| && stack[i] == v; assert full[i] == v; }
    }
    assert IsWalk(g, stack) by {
      forall i | 0 <= i < |stack| - 1 ensures Edge(g, stack[i], stack[i + 1]) {
        assert Edge(g, full[i], full[i + 1]);
      }
    }
    assert Distinct(stack) by {
      forall i, j | 0 <= i < j < |stack| ensures stack[i] != stack[j] { assert full[i] != full[j]; }
    }
    OrderedAppend(g, finished, node);
    forall v ensures v in finished + [node] <==> ColourOf(state', v) == Visited {
      assert v in finished <==> ColourOf(state, v) == Visited;
    }
  }

  lemma OrderedAppend(g: Graph, fs: seq<string>, node: string)
    requires Ordered(g, fs) && node !in fs && forall w :: Edge(g, node, w) ==> w in fs
    ensures Ordered(g, fs + [node])
  {
    var fs' := fs + [node];
    forall i, w | 0 <= i < |fs'| && Edge(g, fs'[i], w) ensures w in fs'[..i] {
      if i < |fs| {
        assert w in fs[..i] && fs'[..i] == fs[..i];
      } else {
        assert fs'[..i] == fs;
      }
    }
  }

  ghost function IndexOf(fs: seq<string>, v: string): (i: int)
    requires v in fs
    ensures 0 <= i < |fs| && fs[i] == v
  {
    var i :| 0 <= i < |fs| && fs[i] == v;
    i
  }

  /** A finishing order that covers the graph, read backwards, ranks it. */
  lemma FinishingOrderRanks(g: Graph, fs: seq<string>)
    requires Ordered(g, fs) && forall v :: v in g ==> v in fs
    ensures Acyclic(g)
  {
    var rank: map<string, int> := map v | v in fs :: -IndexOf(fs, v);
    forall v, w | Edge(g, v, w) ensures v in rank && w in rank && rank[v] < rank[w] {
      var i := IndexOf(fs, v);
      assert Edge(g, fs[i], w);
      var j :| 0 <= j < i && fs[..i][j] == w;
      assert IndexOf(fs, w) == j;
    }
    assert Ranks(g, rank);
  }

  /** Where an element first occurs, or zero. */
  function FirstPosition(s: seq<string>, x: string): (i: nat)
    ensures if x in s then i < |s| && s[i] == x && x !in s[..i] else i == 0
  {
    if x !in s || s[0] == x then 0
    else
      assert x in s[1..];
      assert s[..1 + FirstPosition(s[1..], x)] == [s[0]] + s[1..][..FirstPosition(s[1..], x)];
      1 + FirstPosition(s[1..], x)
  }

  /** The stack from the first occurrence of `repeated` on (or all of it), closed with `repeated`. */
  method CyclePath(stack: seq<string>, repeated: string) returns (path: seq<string>)
    ensures path == stack[FirstPosition(stack, repeated)..] + [repeated]
  {
    var from := 0;
    for idx := 0 to |stack|
      invariant from == 0 && repeated !in stack[..idx]
    {
      if stack[idx] == repeated {
        from := idx;
        break;
      }
    }
    path := stack[from..] + [repeated];
  }

  /** The sorted elements, of which the search needs only that none is missing or repeated. */
  method InOrder(s: set<string>) returns (r: seq<string>)
    ensures forall x :: x in r <==> x in s
    ensures Distinct(r)
  {
    r := SortedKeys(s);
  }

  /** The nodes that a search can meet. */
  ghost function Nodes(g: Graph): set<string> {
    g.Keys + set v, w | v in g && w in g[v] :: w
  }

  ghost function Fresh(g: Graph, state: map<string, Colour>): set<string> {
    set v | v in Nodes(g) && ColourOf(state, v) == Unvisited
  }

  /** Later colours: what was left stays left. */
  ghost predicate Darker(state: map<string, Colour>, state': map<string, Colour>) {
    forall v :: ColourOf(state, v) == Visited ==> ColourOf(state', v) == Visited
  }

  /** A visit of `node` under way. */
  ghost predicate Searching(g: Graph, node: string, state0: map<string, Colour>, stack0: seq<string>,
                            state: map<string, Colour>, stack: seq<string>, finished: seq<string>) {
    && Consistent(g, state, stack, finished) && stack == stack0 + [node]
    && Darker(state0, state) && Fresh(g, state) < Fresh(g, state0)
  }

  lemma Enter(g: Graph, node: string, state0: map<string, Colour>, stack0: seq<string>, finished: seq<string>)
    requires Consistent(g, state0, stack0, finished)
    requires node in Nodes(g) && ColourOf(state0, node) == Unvisited
    requires stack0 != [] ==> Edge(g, stack0[|stack0| - 1], node)
    ensures Searching(g, node, state0, stack0, state0[node := Visiting], stack0 + [node], finished)
  {
    assert node in Fresh(g, state0) && node !in Fresh(g, state0[node := Visiting]);
  }

  lemma Leave(g: Graph, node: string, state0: map<string, Colour>, stack0: seq<string>,
              state: map<string, Colour>, stack: seq<string>, finished: seq<string>)
    requires Searching(g, node, state0, stack0, state, stack, finished)
    requires forall w :: Edge(g, node, w) ==> ColourOf(state, w) == Visited
    ensures Consistent(g, state[node := Visited], stack0, finished + [node]) && Darker(state0, state[node := Visited])
    ensures Fresh(g, state[node := Visited]) <= Fresh(g, state0)
  {
    PopConsistent(g, state, stack0, finished, node);
  }

  /** A successor that is under visit closes a cycle. */
  method Close(g: Graph, stack: seq<string>, next: string) returns (cycle: seq<string>)
    requires Distinct(stack) && IsWalk(g, stack) && next in stack && Edge(g, stack[|stack| - 1], next)
    ensures cycle != [] && IsCycle(g, cycle)
  {
    cycle := CyclePath(stack, next);
  }

  /** The recursive visit, with the colours, the stack and the (ghost) finishing order that
      its closure updates passed in and out. */
  method Visit(g: Graph, node: string, state0: map<string, Colour>, stack0: seq<string>, ghost finished0: seq<string>)
    returns (cycle: seq<string>, state: map<string, Colour>, stack: seq<string>, ghost finished: seq<string>)
    requires Consistent(g, state0, stack0, finished0)
    requires node in Nodes(g) && ColourOf(state0, node) == Unvisited
    requires stack0 != [] ==> Edge(g, stack0[|stack0| - 1], node)
    decreases Fresh(g, state0), 1
    ensures cycle != [] ==> IsCycle(g, cycle)
    ensures cycle == [] ==>
              && Consistent(g, state, stack, finished) && stack == stack0
              && ColourOf(state, node) == Visited && Darker(state0, state)
              && Fresh(g, state) <= Fresh(g, state0)
  {
    Enter(g, node, state0, stack0, finished0);
    var succs := InOrder(Succ(g, node));
    cycle, state, finished := VisitAll(g, node, state0, stack0, succs, state0[node := Visiting], stack0 + [node],
                                       finished0);
    stack := stack0;
    if cycle != [] {
      return;
    }
    assert forall w :: Edge(g, node, w) ==> w in succs;
    Leave(g, node, state0, stack0, state, stack0 + [node], finished);
    state := state[node := Visited];
    finished := finished + [node];
  }

  /** The loop over the successors of a node. */
  method VisitAll(g: Graph, node: string, ghost state0: map<string, Colour>, ghost stack0: seq<string>,
                  succs: seq<string>,
                  state1: map<string, Colour>, stack: seq<string>, ghost finished1: seq<string>)
    returns (cycle: seq<string>, state: map<string, Colour>, ghost finished: seq<string>)
    requires Searching(g, node, state0, stack0, state1, stack, finished1)
    requires forall k :: 0 <= k < |succs| ==> Edge(g, node, succs[k])
    decreases Fresh(g, state0), 0
    ensures cycle != [] ==> IsCycle(g, cycle)
    ensures cycle == [] ==>
              && Searching(g, node, state0, stack0, state, stack, finished)
              && forall w :: w in succs ==> ColourOf(state, w) == Visited
  {
    state, finished := state1, finished1;
    var i := 0;
    while i < |succs|
      invariant 0 <= i <= |succs| && Searching(g, node, state0, stack0, state, stack, finished)
      invariant forall k :: 0 <= k < i ==> ColourOf(state, succs[k]) == Visited
    {
      var next := succs[i];
      match ColourOf(state, next) {
        case Unvisited =>
          var top: seq<string>;
          cycle, state, top, finished := Visit(g, next, state, stack, finished);
          if cycle != [] {
            return;
          }
        case Visiting =>
          cycle := Close(g, stack, next);
          return;
        case Visited =>
      }
      i := i + 1;
    }
    cycle := [];
  }

  /** Returns a cycle of the graph if and only if there is one, and nothing if and only if the
      graph can be ranked so that every edge goes up. */
  method DetectGraphCycle(graph: Graph) returns (cycle: seq<string>)
    ensures cycle == [] <==> Acyclic(graph)
    ensures cycle != [] <==> HasCycle(graph)
    ensures cycle != [] ==> IsCycle(graph, cycle)
  {
    var state: map<string, Colour>, stack: seq<string> := map[], [];
    ghost var finished: seq<string> := [];
    var nodes := InOrder(graph.Keys);
    var i := 0;
    while i < |nodes|
      invariant 0 <= i <= |nodes|
      invariant Consistent(graph, state, stack, finished) && stack == []
      invariant forall k :: 0 <= k < i ==> ColourOf(state, nodes[k]) == Visited
    {
      if ColourOf(state, nodes[i]) == Unvisited {
        cycle, state, stack, finished := Visit(graph, nodes[i], state, stack, finished);
        if cycle != [] {
          CycleExcludesRanking(graph, cycle);
          return;
        }
      }
      assert nodes[i] !in stack;
      i := i + 1;
    }
    forall v | v in graph ensures v in finished { assert v in nodes; }
    FinishingOrderRanks(graph, finished);
    forall p | IsCycle(graph, p) ensures false { CycleExcludesRanking(graph, p); }
    cycle := [];
  }
}
