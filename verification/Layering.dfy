/** Depths and layers of a step graph, independently of how they are computed. */
module Layering {

  type Successors = map<string, seq<string>>

  ghost predicate Edge(succ: Successors, v: string, w: string) {
    v in succ && w in succ[v]
  }

  ghost predicate Distinct(s: seq<string>) {
    forall i, j :: 0 <= i < j < |s| ==> s[i] != s[j]
  }

  /** What the successor derivation promises: steps have different names, and every listed
      successor is a step listed once. */
  ghost predicate WellFormed(steps: seq<string>, succ: Successors) {
    && Distinct(steps)
    && forall v :: v in succ ==> v in steps && Distinct(succ[v]) && forall w :: w in succ[v] ==> w in steps
  }

  ghost predicate IsWalk(succ: Successors, p: seq<string>) {
    && |p| > 0
    && forall i :: 0 <= i < |p| - 1 ==> Edge(succ, p[i], p[i + 1])
  }

  ghost predicate WalkTo(succ: Successors, p: seq<string>, v: string) {
    IsWalk(succ, p) && p[|p| - 1] == v
  }

  ghost predicate IsRoot(succ: Successors, v: string) {
    forall u :: !Edge(succ, u, v)
  }

  /** `depth` is closed under predecessors and climbs along edges, one predecessor of a deeper
      step lies right above it, and a step without a depth has a predecessor without one. */
  ghost predicate IsDepth(steps: seq<string>, succ: Successors, depth: map<string, nat>) {
    && (forall v :: v in depth ==> v in steps)
    && (forall u, v :: Edge(succ, u, v) && v in depth ==> u in depth && depth[u] < depth[v])
    && (forall v :: v in depth && depth[v] > 0 ==> HasParent(succ, depth, v))
    && (forall v :: v in steps && v !in depth ==> HasOpenParent(steps, succ, depth, v))
  }

  ghost predicate HasParent(succ: Successors, depth: map<string, nat>, v: string)
    requires v in depth
  {
    exists u :: Edge(succ, u, v) && u in depth && depth[u] + 1 == depth[v]
  }

  ghost predicate HasOpenParent(steps: seq<string>, succ: Successors, depth: map<string, nat>, v: string) {
    exists u :: Edge(succ, u, v) && u in steps && u !in depth
  }

  /** Along a walk into a step with a depth, depths climb by at least one per edge. */
  lemma {:induction false} WalkClimbs(steps: seq<string>, succ: Successors, depth: map<string, nat>,
                                      p: seq<string>, v: string)
    requires IsDepth(steps, succ, depth) && WalkTo(succ, p, v) && v in depth
    ensures p[0] in depth && depth[p[0]] + |p| - 1 <= depth[v]
  {
    if |p| > 1 {
      WalkClimbs(steps, succ, depth, p[1..], v);
    }
  }

  /** The depth of a step is the length of the longest walk into it, and a walk of that length
      starts at a root. */
  lemma {:induction false} DepthIsLongestPath(steps: seq<string>, succ: Successors, depth: map<string, nat>, v: string)
    requires IsDepth(steps, succ, depth) && v in depth
    ensures forall p :: WalkTo(succ, p, v) ==> |p| - 1 <= depth[v]
    ensures exists p :: WalkTo(succ, p, v) && |p| - 1 == depth[v] && IsRoot(succ, p[0])
    decreases depth[v]
  {
    forall p | WalkTo(succ, p, v) ensures |p| - 1 <= depth[v] {
      WalkClimbs(steps, succ, depth, p, v);
    }
    if depth[v] == 0 {
      assert WalkTo(succ, [v], v);
    } else {
      assert HasParent(succ, depth, v);
      var u :| Edge(succ, u, v) && u in depth && depth[u] + 1 == depth[v];
      DepthIsLongestPath(steps, succ, depth, u);
      var p :| WalkTo(succ, p, u) && |p| - 1 == depth[u] && IsRoot(succ, p[0]);
      assert (p + [v])[0] == p[0];
    }
  }

  /** No path joins two steps of one layer. */
  lemma NoPathWithinLayer(steps: seq<string>, succ: Successors, depth: map<string, nat>, p: seq<string>)
    requires IsDepth(steps, succ, depth) && IsWalk(succ, p) && |p| > 1 && p[|p| - 1] in depth
    ensures p[0] in depth && depth[p[0]] < depth[p[|p| - 1]]
  {
    WalkClimbs(steps, succ, depth, p, p[|p| - 1]);
  }

  // ----- cyclic graphs -----

  /** A closed walk `c`, and a walk from it to `v`. */
  ghost predicate CycleAbove(succ: Successors, c: seq<string>, p: seq<string>, v: string) {
    && IsWalk(succ, c) && |c| > 1 && c[0] == c[|c| - 1]
    && WalkTo(succ, p, v) && p[0] == c[0]
  }

  ghost predicate BelowCycle(succ: Successors, v: string) {
    exists c, p :: CycleAbove(succ, c, p, v)
  }

  /** From a step without a depth one can walk back for ever among such steps. */
  lemma {:induction false} WalkBack(steps: seq<string>, succ: Successors, depth: map<string, nat>, v: string, n: nat)
    returns (p: seq<string>)
    requires IsDepth(steps, succ, depth) && v in steps && v !in depth
    ensures WalkTo(succ, p, v) && |p| == n + 1
    ensures forall i :: 0 <= i < |p| ==> p[i] in steps && p[i] !in depth
  {
    if n == 0 {
      p := [v];
    } else {
      var q := WalkBack(steps, succ, depth, v, n - 1);
      assert HasOpenParent(steps, succ, depth, q[0]);
      var u :| Edge(succ, u, q[0]) && u in steps && u !in depth;
      p := [u] + q;
    }
  }

  /** More places than names: some name occurs twice. */
  lemma {:induction false} Pigeonhole(p: seq<string>, names: set<string>)
    returns (i: nat, j: nat)
    requires |p| > |names| && forall k :: 0 <= k < |p| ==> p[k] in names
    ensures i < j < |p| && p[i] == p[j]
  {
    if k :| 1 <= k < |p| && p[k] == p[0] {
      i, j := 0, k;
    } else {
      var a, b := Pigeonhole(p[1..], names - {p[0]});
      i, j := a + 1, b + 1;
    }
  }

  lemma DistinctSize(s: seq<string>)
    ensures |set x | x in s| <= |s|
  {
    if s != [] {
      var front := s[..|s| - 1];
      DistinctSize(front);
      assert (set x | x in s) == (set x | x in front) + {s[|s| - 1]};
    }
  }

  lemma NoDepthMeansCycle(steps: seq<string>, succ: Successors, depth: map<string, nat>, v: string)
    requires IsDepth(steps, succ, depth) && v in steps && v !in depth
    ensures BelowCycle(succ, v)
  {
    var names := set x | x in steps;
    DistinctSize(steps);
    var p := WalkBack(steps, succ, depth, v, |steps|);
    RepeatGivesCycle(succ, p, names, v);
  }

  lemma RepeatGivesCycle(succ: Successors, p: seq<string>, names: set<string>, v: string)
    requires WalkTo(succ, p, v) && |p| > |names| && forall k :: 0 <= k < |p| ==> p[k] in names
    ensures BelowCycle(succ, v)
  {
    var i, j := Pigeonhole(p, names);
    assert CycleAbove(succ, p[i..j + 1], p[i..|p|], v);
  }

  /** The steps without a depth are exactly those on a cycle or below one. */
  lemma NoDepthExactlyBelowCycles(steps: seq<string>, succ: Successors, depth: map<string, nat>, v: string)
    requires IsDepth(steps, succ, depth) && v in steps
    ensures v !in depth <==> BelowCycle(succ, v)
  {
    if v !in depth {
      NoDepthMeansCycle(steps, succ, depth, v);
    } else if BelowCycle(succ, v) {
      var c, p :| CycleAbove(succ, c, p, v);
      WalkClimbs(steps, succ, depth, p, v);
      WalkClimbs(steps, succ, depth, c, c[0]);
    }
  }

  ghost predicate Acyclic(succ: Successors) {
    forall c :: IsWalk(succ, c) && |c| > 1 ==> c[0] != c[|c| - 1]
  }

  /** On an acyclic graph every step has a depth. */
  lemma AcyclicGivesAllDepths(steps: seq<string>, succ: Successors, depth: map<string, nat>, v: string)
    requires IsDepth(steps, succ, depth) && Acyclic(succ) && v in steps
    ensures v in depth
  {
    NoDepthExactlyBelowCycles(steps, succ, depth, v);
  }
}
