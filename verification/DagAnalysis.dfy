/** Topology metrics of a job: Kahn's algorithm, one layer of parallel steps at a time. */
module DagAnalysis {
  import opened Layering

  datatype Step = Step(name: string, engine: string, image: string)

  datatype StepInfo = StepInfo(step: Step, dependsOn: seq<string>, successors: seq<string>, depth: nat)

  datatype Analysis = Analysis(
    steps: seq<StepInfo>,
    layers: seq<seq<string>>,
    maxParallelism: nat,
    roots: seq<string>,
    leaves: seq<string>)

  function Names(steps: seq<Step>): seq<string> {
    seq(|steps|, i requires 0 <= i < |steps| => steps[i].name)
  }

  function Targets(succ: Successors, v: string): seq<string> {
    if v in succ then succ[v] else []
  }

  ghost function Elements(s: seq<string>): set<string> {
    set x | x in s
  }

  /** The predecessors of `v` that are not done yet. */
  ghost function Open(succ: Successors, v: string, done: set<string>): set<string> {
    set u | u in succ && v in succ[u] && u !in done
  }

  lemma {:induction false} DistinctCount(s: seq<string>)
    requires Distinct(s)
    ensures |Elements(s)| == |s|
  {
    if s != [] {
      var front, last := s[..|s| - 1], s[|s| - 1];
      DistinctCount(front);
      assert Elements(s) == Elements(front) + {last};
      assert last !in Elements(front);
    }
  }

  // ----- predecessors and in-degrees -----

  ghost predicate PredecessorsSoFar(names: seq<string>, succ: Successors, preds: map<string, seq<string>>,
                                    rest: set<string>) {
    && preds.Keys == Elements(names)
    && forall v :: v in preds ==>
         Distinct(preds[v]) && forall u :: u in preds[v] <==> Edge(succ, u, v) && u !in rest
  }

  /** `from` appended to the lists of some steps. */
  function Extended(preds: map<string, seq<string>>, some: set<string>, from: string): map<string, seq<string>> {
    map v | v in preds :: if v in some then preds[v] + [from] else preds[v]
  }

  method AddPredecessor(preds0: map<string, seq<string>>, from: string, targets: seq<string>)
    returns (preds: map<string, seq<string>>)
    requires Distinct(targets) && forall w :: w in targets ==> w in preds0
    ensures preds == Extended(preds0, Elements(targets), from)
  {
    preds := preds0;
    ghost var some: set<string> := {};
    for j := 0 to |targets|
      invariant preds == Extended(preds0, some, from) && some == Elements(targets[..j])
    {
      assert targets[j] in targets && targets[j] !in targets[..j];
      preds := preds[targets[j] := preds[targets[j]] + [from]];
      some := some + {targets[j]};
      assert targets[..j + 1] == targets[..j] + [targets[j]];
    }
    assert targets[..|targets|] == targets;
  }

  lemma PredecessorsMore(names: seq<string>, succ: Successors, preds: map<string, seq<string>>, rest: set<string>,
                         from: string)
    requires PredecessorsSoFar(names, succ, preds, rest) && from in rest && from in succ
    ensures PredecessorsSoFar(names, succ, Extended(preds, Elements(succ[from]), from), rest - {from})
  {
    var preds' := Extended(preds, Elements(succ[from]), from);
    forall v | v in preds'
      ensures Distinct(preds'[v]) && forall u :: u in preds'[v] <==> Edge(succ, u, v) && u !in rest - {from}
    {
      assert from !in preds[v];
    }
  }

  method BuildPredecessors(names: seq<string>, succ: Successors) returns (preds: map<string, seq<string>>)
    requires WellFormed(names, succ)
    ensures PredecessorsSoFar(names, succ, preds, {})
  {
    preds := map v | v in names :: [];
    var rest := succ.Keys;
    while rest != {}
      invariant rest <= succ.Keys && PredecessorsSoFar(names, succ, preds, rest)
      decreases rest
    {
      var from :| from in rest;
      PredecessorsMore(names, succ, preds, rest, from);
      preds := AddPredecessor(preds, from, succ[from]);
      rest := rest - {from};
    }
  }

  /** In-degrees count the predecessors that are still open. */
  ghost predicate Counts(names: seq<string>, succ: Successors, degree: map<string, nat>, done: set<string>) {
    degree.Keys == Elements(names) && forall v :: v in degree ==> degree[v] == |Open(succ, v, done)|
  }

  method CountPredecessors(names: seq<string>, succ: Successors, preds: map<string, seq<string>>)
    returns (degree: map<string, nat>)
    requires PredecessorsSoFar(names, succ, preds, {})
    ensures Counts(names, succ, degree, {})
  {
    degree := map v | v in names :: |preds[v]|;
    forall v | v in names ensures |preds[v]| == |Open(succ, v, {})| {
      DistinctCount(preds[v]);
      assert Elements(preds[v]) == Open(succ, v, {});
    }
  }

  // ----- one step, one layer -----

  lemma OpenLess(succ: Successors, v: string, done: set<string>, name: string)
    requires name !in done
    ensures Open(succ, v, done + {name}) == Open(succ, v, done) - {name}
    ensures Edge(succ, name, v) ==>
              name in Open(succ, v, done) && |Open(succ, v, done + {name})| == |Open(succ, v, done)| - 1
    ensures !Edge(succ, name, v) ==> Open(succ, v, done + {name}) == Open(succ, v, done)
  {
    assert Open(succ, v, done + {name}) == Open(succ, v, done) - {name};
  }

  /** Decrements the in-degrees of the targets and queues those that reach zero. */
  method CountOff(targets: seq<string>, degree0: map<string, nat>, queue0: seq<string>)
    returns (degree: map<string, nat>, queue: seq<string>)
    requires Distinct(targets) && Distinct(queue0)
    requires forall w :: w in targets ==> w in degree0 && degree0[w] > 0 && w !in queue0
    ensures degree.Keys == degree0.Keys && Distinct(queue)
    ensures forall v :: v in degree ==> degree[v] == if v in targets then degree0[v] - 1 else degree0[v]
    ensures forall w :: w in queue <==> w in queue0 || (w in targets && degree0[w] == 1)
  {
    degree, queue := degree0, queue0;
    for j := 0 to |targets|
      invariant degree.Keys == degree0.Keys && Distinct(queue)
      invariant forall v :: v in degree ==> degree[v] == if v in targets[..j] then degree0[v] - 1 else degree0[v]
      invariant forall w :: w in queue <==> w in queue0 || (w in targets[..j] && degree0[w] == 1)
    {
      var succ := targets[j];
      assert succ in targets && succ !in targets[..j];
      degree := degree[succ := degree[succ] - 1];
      if degree[succ] == 0 {
        queue := queue + [succ];
      }
      assert targets[..j + 1] == targets[..j] + [succ];
    }
    assert targets[..|targets|] == targets;
  }

  /** Handles one finished step: counts stay right, and the steps it made ready join the queue. */
  method Relax(names: seq<string>, succ: Successors, name: string, degree0: map<string, nat>,
               queue0: seq<string>, ghost done: set<string>)
    returns (degree: map<string, nat>, queue: seq<string>)
    requires WellFormed(names, succ) && name !in done
    requires Counts(names, succ, degree0, done)
    requires Distinct(queue0) && forall w :: w in queue0 ==> Open(succ, w, done) == {}
    ensures Counts(names, succ, degree, done + {name})
    ensures Distinct(queue)
    ensures forall w :: w in queue <==>
              w in queue0 || (Edge(succ, name, w) && Open(succ, w, done + {name}) == {})
  {
    var targets := Targets(succ, name);
    forall w | w in targets ensures w in degree0 && degree0[w] > 0 && w !in queue0 {
      OpenLess(succ, w, done, name);
    }
    degree, queue := CountOff(targets, degree0, queue0);
    forall v | v in degree ensures degree[v] == |Open(succ, v, done + {name})| {
      OpenLess(succ, v, done, name);
    }
    forall w | w in targets ensures degree0[w] == 1 <==> Open(succ, w, done + {name}) == {} {
      OpenLess(succ, w, done, name);
    }
  }

  /** `layer` lists the steps that are ready once `done` is done, each once. */
  ghost predicate ReadyAfter(names: seq<string>, succ: Successors, done: set<string>, layer: seq<string>) {
    && Distinct(layer)
    && forall w :: w in layer <==> w in names && w !in done && Open(succ, w, done) == {}
  }

  ghost predicate Closed(succ: Successors, done: set<string>) {
    forall w :: w in done ==> Open(succ, w, done) == {}
  }

  /** The step became ready after `done` and by the time `sofar` was done. */
  ghost predicate NewlyReady(names: seq<string>, succ: Successors, done: set<string>, sofar: set<string>, w: string) {
    w in names && Open(succ, w, done) != {} && Open(succ, w, sofar) == {}
  }

  lemma NewlyReadyStep(names: seq<string>, succ: Successors, done: set<string>, sofar: set<string>,
                       name: string, w: string)
    requires WellFormed(names, succ) && done <= sofar && name !in sofar
    ensures NewlyReady(names, succ, done, sofar + {name}, w) <==>
              NewlyReady(names, succ, done, sofar, w) || (Edge(succ, name, w) && Open(succ, w, sofar + {name}) == {})
  {
    OpenLess(succ, w, sofar, name);
    assert Open(succ, w, sofar) <= Open(succ, w, done);
  }

  /** The queue lists what became ready meanwhile, each once. */
  ghost predicate QueuesNew(names: seq<string>, succ: Successors, done: set<string>, sofar: set<string>,
                            queue: seq<string>) {
    Distinct(queue) && forall w :: w in queue <==> NewlyReady(names, succ, done, sofar, w)
  }

  lemma QueuesNewStep(names: seq<string>, succ: Successors, done: set<string>, sofar: set<string>, name: string,
                      queue: seq<string>, queue': seq<string>)
    requires WellFormed(names, succ) && done <= sofar && name !in sofar && QueuesNew(names, succ, done, sofar, queue)
    requires Distinct(queue') && forall w :: w in queue' <==>
      w in queue || (Edge(succ, name, w) && Open(succ, w, sofar + {name}) == {})
    ensures QueuesNew(names, succ, done, sofar + {name}, queue')
  {
    forall w ensures w in queue' <==> NewlyReady(names, succ, done, sofar + {name}, w) {
      NewlyReadyStep(names, succ, done, sofar, name, w);
    }
  }

  lemma QueuesAllReady(names: seq<string>, succ: Successors, done: set<string>, layer: seq<string>, queue: seq<string>)
    requires WellFormed(names, succ) && Closed(succ, done) && ReadyAfter(names, succ, done, layer)
    requires QueuesNew(names, succ, done, done + Elements(layer), queue)
    ensures ReadyAfter(names, succ, done + Elements(layer), queue)
  {
  }

  /** The next step of the layer, with the steps before it done. */
  lemma NextOfLayer(names: seq<string>, succ: Successors, done: set<string>, layer: seq<string>, i: nat)
    requires ReadyAfter(names, succ, done, layer) && i < |layer|
    ensures layer[i] !in done + Elements(layer[..i])
    ensures done + Elements(layer[..i + 1]) == done + Elements(layer[..i]) + {layer[i]}
  {
    assert layer[i] in layer && layer[..i + 1] == layer[..i] + [layer[i]];
  }

  method RelaxInLayer(names: seq<string>, succ: Successors, name: string, degree0: map<string, nat>,
                      queue0: seq<string>,
                      ghost done: set<string>, ghost sofar: set<string>)
    returns (degree: map<string, nat>, queue: seq<string>)
    requires WellFormed(names, succ) && done <= sofar && name !in sofar
    requires Counts(names, succ, degree0, sofar) && QueuesNew(names, succ, done, sofar, queue0)
    ensures Counts(names, succ, degree, sofar + {name}) && QueuesNew(names, succ, done, sofar + {name}, queue)
  {
    degree, queue := Relax(names, succ, name, degree0, queue0, sofar);
    QueuesNewStep(names, succ, done, sofar, name, queue0, queue);
  }

  method ProcessLayer(names: seq<string>, succ: Successors, layer: seq<string>, degree0: map<string, nat>,
                      ghost done: set<string>)
    returns (degree: map<string, nat>, queue: seq<string>)
    requires WellFormed(names, succ) && Closed(succ, done)
    requires Counts(names, succ, degree0, done) && ReadyAfter(names, succ, done, layer)
    ensures Counts(names, succ, degree, done + Elements(layer))
    ensures ReadyAfter(names, succ, done + Elements(layer), queue)
  {
    degree, queue := degree0, [];
    assert layer[..0] == [] && done + Elements([]) == done;
    for i := 0 to |layer|
      invariant Counts(names, succ, degree, done + Elements(layer[..i]))
      invariant QueuesNew(names, succ, done, done + Elements(layer[..i]), queue)
    {
      NextOfLayer(names, succ, done, layer, i);
      degree, queue := RelaxInLayer(names, succ, layer[i], degree, queue, done, done + Elements(layer[..i]));
    }
    assert layer[..|layer|] == layer;
    QueuesAllReady(names, succ, done, layer, queue);
  }

  // ----- all layers -----

  /** What holds once `n` layers are out: their depths are final. */
  ghost predicate Settled(names: seq<string>, succ: Successors, depth: map<string, nat>, n: nat) {
    && (forall v :: v in depth ==> v in names && depth[v] < n)
    && (forall u, v :: Edge(succ, u, v) && v in depth ==> u in depth && depth[u] < depth[v])
    && (forall v :: v in depth && depth[v] > 0 ==> HasParent(succ, depth, v))
  }

  /** Every step of the next layer hangs below the last one. */
  ghost predicate HangsBelow(succ: Successors, depth: map<string, nat>, n: nat, layer: seq<string>) {
    forall w :: w in layer && n > 0 ==> exists u :: Edge(succ, u, w) && u in depth && depth[u] + 1 == n
  }

  ghost predicate LayersOf(layers: seq<seq<string>>, depth: map<string, nat>) {
    && (forall v :: v in depth ==> depth[v] < |layers|)
    && forall k :: 0 <= k < |layers| ==>
         && layers[k] != [] && Distinct(layers[k])
         && forall v :: v in layers[k] <==> v in depth && depth[v] == k
  }

  function WithLayer(depth: map<string, nat>, layer: seq<string>, n: nat): map<string, nat> {
    depth + map w | w in layer :: n
  }

  lemma AddLayer(names: seq<string>, succ: Successors, depth: map<string, nat>, layer: seq<string>, n: nat)
    requires Settled(names, succ, depth, n) && ReadyAfter(names, succ, depth.Keys, layer)
    requires HangsBelow(succ, depth, n, layer)
    ensures Settled(names, succ, WithLayer(depth, layer, n), n + 1)
  {
    var depth' := WithLayer(depth, layer, n);
    forall u, v | Edge(succ, u, v) && v in depth' ensures u in depth' && depth'[u] < depth'[v] {
      if v in layer { assert u !in Open(succ, v, depth.Keys); }
    }
    forall v | v in depth' && depth'[v] > 0 ensures HasParent(succ, depth', v) {
      if v in layer {
        var u :| Edge(succ, u, v) && u in depth && depth[u] + 1 == n;
        assert u !in layer;
      } else {
        assert HasParent(succ, depth, v);
        var u :| Edge(succ, u, v) && u in depth && depth[u] + 1 == depth[v];
        assert u !in layer;
      }
    }
  }

  lemma NextHangsBelow(names: seq<string>, succ: Successors, depth: map<string, nat>, layer: seq<string>,
                       n: nat, queue: seq<string>)
    requires ReadyAfter(names, succ, depth.Keys, layer)
    requires ReadyAfter(names, succ, depth.Keys + Elements(layer), queue)
    ensures HangsBelow(succ, WithLayer(depth, layer, n), n + 1, queue)
  {
    forall w | w in queue
      ensures exists u :: Edge(succ, u, w) && u in WithLayer(depth, layer, n) && WithLayer(depth, layer, n)[u] == n
    {
      assert Open(succ, w, depth.Keys) != {};
      var u :| u in Open(succ, w, depth.Keys);
      assert u !in Open(succ, w, depth.Keys + Elements(layer));
      assert u in layer && Edge(succ, u, w);
    }
  }

  lemma AddToLayers(layers: seq<seq<string>>, depth: map<string, nat>, layer: seq<string>)
    requires LayersOf(layers, depth) && layer != [] && Distinct(layer)
    requires forall w :: w in layer ==> w !in depth
    ensures LayersOf(layers + [layer], WithLayer(depth, layer, |layers|))
  {
    var layers', depth' := layers + [layer], WithLayer(depth, layer, |layers|);
    forall k | 0 <= k < |layers'|
      ensures layers'[k] != [] && Distinct(layers'[k])
      ensures forall v :: v in layers'[k] <==> v in depth' && depth'[v] == k
    {
      if k < |layers| { assert layers'[k] == layers[k]; }
    }
  }

  lemma SettledIsClosed(names: seq<string>, succ: Successors, depth: map<string, nat>, n: nat)
    requires Settled(names, succ, depth, n)
    ensures Closed(succ, depth.Keys)
  {
    forall w | w in depth ensures Open(succ, w, depth.Keys) == {} {
      forall u | u in succ && w in succ[u] ensures u in depth { assert Edge(succ, u, w); }
    }
  }

  lemma NothingReadyIsDepth(names: seq<string>, succ: Successors, depth: map<string, nat>, n: nat)
    requires WellFormed(names, succ) && Settled(names, succ, depth, n)
    requires ReadyAfter(names, succ, depth.Keys, [])
    ensures IsDepth(names, succ, depth)
  {
    forall v | v in names && v !in depth ensures HasOpenParent(names, succ, depth, v) {
      assert v !in [];
      var u :| u in Open(succ, v, depth.Keys);
      assert Edge(succ, u, v);
    }
  }

  /** The loop state between two layers. */
  ghost predicate Peeling(names: seq<string>, succ: Successors, layers: seq<seq<string>>,
                          depth: map<string, nat>, degree: map<string, nat>, queue: seq<string>) {
    && Settled(names, succ, depth, |layers|) && LayersOf(layers, depth)
    && Counts(names, succ, degree, depth.Keys) && ReadyAfter(names, succ, depth.Keys, queue)
    && HangsBelow(succ, depth, |layers|, queue)
  }

  lemma PeelingStep(names: seq<string>, succ: Successors, layers: seq<seq<string>>, depth: map<string, nat>,
                    degree: map<string, nat>, layer: seq<string>, degree': map<string, nat>, queue: seq<string>)
    requires Peeling(names, succ, layers, depth, degree, layer) && layer != []
    requires Counts(names, succ, degree', depth.Keys + Elements(layer))
    requires ReadyAfter(names, succ, depth.Keys + Elements(layer), queue)
    ensures Peeling(names, succ, layers + [layer], WithLayer(depth, layer, |layers|), degree', queue)
    ensures Elements(names) - WithLayer(depth, layer, |layers|).Keys < Elements(names) - depth.Keys
  {
    AddLayer(names, succ, depth, layer, |layers|);
    NextHangsBelow(names, succ, depth, layer, |layers|, queue);
    AddToLayers(layers, depth, layer);
    assert WithLayer(depth, layer, |layers|).Keys == depth.Keys + Elements(layer);
    assert layer[0] in layer;
  }

  /** The breadth-first loop: peels layer after layer until nothing is ready. */
  method PeelLayers(names: seq<string>, succ: Successors, roots: seq<string>, degree0: map<string, nat>)
    returns (layers: seq<seq<string>>, depth: map<string, nat>)
    requires WellFormed(names, succ) && Counts(names, succ, degree0, {}) && ReadyAfter(names, succ, {}, roots)
    ensures IsDepth(names, succ, depth) && LayersOf(layers, depth)
  {
    layers, depth := [], map[];
    var queue, degree := roots, degree0;
    assert depth.Keys == {};
    while queue != []
      invariant Peeling(names, succ, layers, depth, degree, queue)
      decreases Elements(names) - depth.Keys
    {
      var layer := queue;
      ghost var degree' := degree;
      SettledIsClosed(names, succ, depth, |layers|);
      degree, queue := ProcessLayer(names, succ, layer, degree, depth.Keys);
      PeelingStep(names, succ, layers, depth, degree', layer, degree, queue);
      depth := WithLayer(depth, layer, |layers|);
      layers := layers + [layer];
    }
    NothingReadyIsDepth(names, succ, depth, |layers|);
  }

  // ----- the analysis -----

  ghost predicate IsLargestSize(layers: seq<seq<string>>, m: nat) {
    && (forall k :: 0 <= k < |layers| ==> |layers[k]| <= m)
    && (if layers == [] then m == 0 else exists k :: 0 <= k < |layers| && |layers[k]| == m)
  }

  lemma LargestMore(layers: seq<seq<string>>, i: nat, m: nat, m': nat)
    requires i < |layers| && IsLargestSize(layers[..i], m) && m' == if |layers[i]| > m then |layers[i]| else m
    ensures IsLargestSize(layers[..i + 1], m')
  {
    var more := layers[..i + 1];
    assert more == layers[..i] + [layers[i]] && more[i] == layers[i];
    if i > 0 && m' == m {
      var k :| 0 <= k < i && |layers[..i][k]| == m;
      assert more[k] == layers[..i][k];
    }
  }

  method MaxParallelism(layers: seq<seq<string>>) returns (m: nat)
    ensures IsLargestSize(layers, m)
  {
    m := 0;
    for i := 0 to |layers|
      invariant IsLargestSize(layers[..i], m)
    {
      ghost var m0 := m;
      if |layers[i]| > m {
        m := |layers[i]|;
      }
      LargestMore(layers, i, m0, m);
    }
    assert layers[..|layers|] == layers;
  }

  /** The one comes before the other. */
  ghost predicate Precedes(names: seq<string>, v: string, w: string) {
    exists p, q :: 0 <= p < q < |names| && names[p] == v && names[q] == w
  }

  /** The list keeps the order of definition. */
  ghost predicate InOrder(names: seq<string>, r: seq<string>) {
    forall i, j :: 0 <= i < j < |r| ==> Precedes(names, r[i], r[j])
  }

  lemma OrderMore(names: seq<string>, n: nat, r: seq<string>)
    requires n < |names| && InOrder(names, r) && forall v :: v in r ==> v in names[..n]
    ensures InOrder(names, r + [names[n]])
  {
    forall i | 0 <= i < |r| ensures Precedes(names, r[i], names[n]) {
      assert r[i] in names[..n];
      var p :| 0 <= p < n && names[..n][p] == r[i];
      assert names[p] == r[i];
    }
  }

  /** The steps of `names`, in definition order, that satisfy the test. */
  method Select(names: seq<string>, keep: set<string>) returns (r: seq<string>)
    requires Distinct(names)
    ensures Distinct(r) && InOrder(names, r) && forall v :: v in r <==> v in names && v in keep
  {
    r := [];
    for i := 0 to |names|
      invariant Distinct(r) && InOrder(names, r) && forall v :: v in r <==> v in names[..i] && v in keep
    {
      assert names[i] !in names[..i];
      if names[i] in keep {
        OrderMore(names, i, r);
        r := r + [names[i]];
      }
      assert names[..i + 1] == names[..i] + [names[i]];
    }
    assert names[..|names|] == names;
  }

  /** The layers partition the steps that are on no cycle and below none, by the length of
      the longest path that leads to them; the widest layer is the maximal parallelism. */
  ghost predicate Describes(steps: seq<Step>, succ: Successors, depth: map<string, nat>, a: Analysis) {
    && IsDepth(Names(steps), succ, depth) && LayersOf(a.layers, depth)
    && IsLargestSize(a.layers, a.maxParallelism)
    && InOrder(Names(steps), a.roots) && InOrder(Names(steps), a.leaves)
    && Distinct(a.roots) && (forall v :: v in a.roots <==> v in Names(steps) && IsRoot(succ, v))
    && Distinct(a.leaves) && (forall v :: v in a.leaves <==> v in Names(steps) && Targets(succ, v) == [])
    && InfosFor(steps, succ, depth, a.steps)
  }

  method FindRoots(names: seq<string>, succ: Successors, degree: map<string, nat>) returns (roots: seq<string>)
    requires WellFormed(names, succ) && Counts(names, succ, degree, {})
    ensures ReadyAfter(names, succ, {}, roots) && InOrder(names, roots)
    ensures forall v :: v in roots <==> v in names && IsRoot(succ, v)
  {
    roots := Select(names, set v | v in names && degree[v] == 0);
    forall v | v in names ensures v in roots <==> Open(succ, v, {}) == {} {}
    forall v ensures Open(succ, v, {}) == {} <==> IsRoot(succ, v) { OpenIsRoot(succ, v); }
  }

  lemma OpenIsRoot(succ: Successors, v: string)
    ensures Open(succ, v, {}) == {} <==> IsRoot(succ, v)
  {
    forall u ensures u in Open(succ, v, {}) <==> Edge(succ, u, v) {}
  }

  ghost predicate InfosFor(steps: seq<Step>, succ: Successors, depth: map<string, nat>, infos: seq<StepInfo>) {
    && |infos| == |steps|
    && forall i :: 0 <= i < |steps| ==> InfoFor(steps[i], succ, depth, infos[i])
  }

  ghost predicate InfoFor(step: Step, succ: Successors, depth: map<string, nat>, info: StepInfo) {
    && info.step == step && info.successors == Targets(succ, step.name)
    && Distinct(info.dependsOn) && (forall u :: u in info.dependsOn <==> Edge(succ, u, step.name))
    && info.depth == if step.name in depth then depth[step.name] else 0
  }

  method BuildInfos(steps: seq<Step>, succ: Successors, preds: map<string, seq<string>>, depth: map<string, nat>)
    returns (infos: seq<StepInfo>)
    requires PredecessorsSoFar(Names(steps), succ, preds, {})
    ensures InfosFor(steps, succ, depth, infos)
  {
    infos := [];
    for i := 0 to |steps|
      invariant |infos| == i && forall k :: 0 <= k < i ==> InfoFor(steps[k], succ, depth, infos[k])
    {
      var name := steps[i].name;
      assert Names(steps)[i] == name && name in Elements(Names(steps));
      infos := infos + [StepInfo(steps[i], preds[name], Targets(succ, name), if name in depth then depth[name] else 0)];
    }
  }

  method Analyze(steps: seq<Step>, succ: Successors) returns (a: Analysis)
    requires WellFormed(Names(steps), succ)
    ensures exists depth :: Describes(steps, succ, depth, a)
  {
    var names := Names(steps);
    var preds := BuildPredecessors(names, succ);
    var degree := CountPredecessors(names, succ, preds);
    var roots := FindRoots(names, succ, degree);
    var layers, depths := PeelLayers(names, succ, roots, degree);
    var widest := MaxParallelism(layers);
    var leaves := Select(names, set v | v in names && Targets(succ, v) == []);
    var infos := BuildInfos(steps, succ, preds, depths);
    a := Analysis(infos, layers, widest, roots, leaves);
    assert Describes(steps, succ, depths, a);
  }

  // ----- what the result means -----

  ghost predicate InLayer(a: Analysis, k: int, v: string) {
    0 <= k < |a.layers| && v in a.layers[k]
  }

  /** Some step says that this one comes right after it. */
  ghost predicate HasPredecessor(succ: Successors, v: string) {
    exists u :: u in succ && v in succ[u]
  }

  /** Roots are the steps that no step says come after it, leaves those that say so of none, both
      in definition order; every step is listed in order, with the steps before it, those after it
      and the number of its layer. */
  lemma AnalysisMeans(steps: seq<Step>, succ: Successors, depth: map<string, nat>, a: Analysis, i: nat)
    requires Describes(steps, succ, depth, a) && i < |steps|
    ensures steps[i].name in a.roots <==> !HasPredecessor(succ, steps[i].name)
    ensures steps[i].name in a.leaves <==> !(steps[i].name in succ && |succ[steps[i].name]| > 0)
    ensures forall v :: v in a.roots || v in a.leaves ==> exists j :: 0 <= j < |steps| && steps[j].name == v
    ensures InOrder(Names(steps), a.roots) && InOrder(Names(steps), a.leaves)
    ensures |a.steps| == |steps| && a.steps[i].step == steps[i]
    ensures forall u :: u in a.steps[i].dependsOn <==> u in succ && steps[i].name in succ[u]
    ensures a.steps[i].successors == if steps[i].name in succ then succ[steps[i].name] else []
    ensures forall k :: InLayer(a, k, steps[i].name) ==> a.steps[i].depth == k
    ensures (forall k :: !InLayer(a, k, steps[i].name)) ==> a.steps[i].depth == 0
    ensures forall k :: 0 <= k < |a.layers| ==> |a.layers[k]| <= a.maxParallelism
    ensures a.maxParallelism > 0 ==> exists k :: 0 <= k < |a.layers| && |a.layers[k]| == a.maxParallelism
  {
    var v := steps[i].name;
    assert Names(steps)[i] == v && v in Names(steps);
    assert HasPredecessor(succ, v) <==> !IsRoot(succ, v) by {
      if u :| Edge(succ, u, v) { assert u in succ && v in succ[u]; }
      if u :| u in succ && v in succ[u] { assert Edge(succ, u, v); }
    }
    assert InfoFor(steps[i], succ, depth, a.steps[i]);
    if v in depth { assert InLayer(a, depth[v], v); }
    forall w | w in Names(steps) ensures exists j :: 0 <= j < |steps| && steps[j].name == w {
      var j :| 0 <= j < |Names(steps)| && Names(steps)[j] == w;
    }
  }

  /** A step is in a layer exactly if no cycle lies at or above it, so on an acyclic graph every
      step is; it is in one layer only, whose index is the length of the longest path that
      leads from a root to the step. */
  lemma LayersGoByLongestPath(names: seq<string>, succ: Successors, depth: map<string, nat>, a: Analysis, v: string)
    requires IsDepth(names, succ, depth) && LayersOf(a.layers, depth) && v in names
    ensures (exists k :: InLayer(a, k, v)) <==> !BelowCycle(succ, v)
    ensures Acyclic(succ) ==> exists k :: InLayer(a, k, v)
    ensures forall k, m :: InLayer(a, k, v) && InLayer(a, m, v) ==> k == m
    ensures forall k :: InLayer(a, k, v) ==>
              && (forall p :: WalkTo(succ, p, v) ==> |p| - 1 <= k)
              && (exists p :: WalkTo(succ, p, v) && |p| - 1 == k && IsRoot(succ, p[0]))
  {
    NoDepthExactlyBelowCycles(names, succ, depth, v);
    if v in depth {
      assert InLayer(a, depth[v], v);
      DepthIsLongestPath(names, succ, depth, v);
    }
    if Acyclic(succ) {
      AcyclicGivesAllDepths(names, succ, depth, v);
    }
  }

  /** A path goes from an earlier layer to a later one; in particular none joins two steps of
      one layer. */
  lemma PathsLeaveTheirLayer(names: seq<string>, succ: Successors, depth: map<string, nat>, a: Analysis,
                             p: seq<string>, k: nat, m: nat)
    requires IsDepth(names, succ, depth) && LayersOf(a.layers, depth) && IsWalk(succ, p) && |p| > 1
    requires InLayer(a, k, p[0]) && InLayer(a, m, p[|p| - 1])
    ensures k < m
  {
    NoPathWithinLayer(names, succ, depth, p);
  }
}
