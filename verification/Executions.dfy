/** What an execution depends on, and what a cache key tells of it. A container sees its own
    definition and the outputs of its predecessors. Of a predecessor that printed no output it
    sees whatever that left behind, which only the predecessor's identity can stand for. */
module Executions {
  import TaskRuns
  import opened HashPreimage
  import opened HashTheorems
  import opened CacheTable

  datatype Outcome = Skipped | Errored | Finished(cached: CachedResult)

  /** Everything an execution depends on: what the container is given, and the executions of
      the predecessors without output, with what they depended on in turn. */
  datatype Trace = Trace(visible: Identity, silent: multiset<Trace>)

  /** `base` is the task's own part of the hash input; predecessors are task numbers. */
  datatype TaskSpec = TaskSpec(name: string, preds: seq<nat>, base: HashInput, caching: bool)

  datatype Job = Job(id: nat, tasks: seq<TaskSpec>)

  /** The code outside the model. Executions are deterministic. */
  datatype World = World(
    exec: Trace -> Outcome,
    rule: (TaskSpec, map<nat, Outcome>) -> bool,
    outputEnv: map<string, Env> -> Env,
    hash: HashInput -> string)

  predicate Succeeds(o: Outcome) {
    o.Finished? && TaskRuns.StatusFromResult(o.cached.result).Succeeded?
  }

  /** It ran and printed no output. */
  predicate Silent(o: Outcome) {
    o.Errored? || (o.Finished? && o.cached.output == map[])
  }

  predicate Loud(o: Outcome) {
    o.Finished? && o.cached.output != map[]
  }

  // ----- what a task is given -----

  /** The non-empty outputs of the predecessors, under their step names. */
  function Gather(job: Job, preds: seq<nat>, outcomes: map<nat, Outcome>): map<string, Env> {
    if preds == [] then map[]
    else
      var m, p := Gather(job, preds[..|preds| - 1], outcomes), preds[|preds| - 1];
      if p < |job.tasks| && p in outcomes && Loud(outcomes[p])
      then m[job.tasks[p].name := outcomes[p].cached.output] else m
  }

  function GatherHashes(preds: seq<nat>, hashes: map<nat, string>): seq<string> {
    if preds == [] then []
    else
      var s, p := GatherHashes(preds[..|preds| - 1], hashes), preds[|preds| - 1];
      if p in hashes then s + [hashes[p]] else s
  }

  /** The executions of the silent predecessors. */
  function GatherSilent(preds: seq<nat>, outcomes: map<nat, Outcome>, traces: map<nat, Trace>): multiset<Trace> {
    if preds == [] then multiset{}
    else
      var m, p := GatherSilent(preds[..|preds| - 1], outcomes, traces), preds[|preds| - 1];
      if p in outcomes && Silent(outcomes[p]) && p in traces then m + multiset{traces[p]} else m
  }

  function InputOf(w: World, job: Job, spec: TaskSpec, outcomes: map<nat, Outcome>,
                   predHashes: seq<string>): HashInput {
    var outputs := Gather(job, spec.preds, outcomes);
    spec.base.(env := spec.base.env + w.outputEnv(outputs), predOutputs := outputs, predHashes := predHashes)
  }

  /** What the container is given of a hash input. */
  function Visible(h: HashInput): Identity {
    IdentityOf(h).(predHashes := multiset{})
  }

  // ----- plain execution -----

  /** What executing a task gave, and what that depended on. */
  datatype Done = Done(outcome: Outcome, trace: Trace)

  function OutcomesOf(preds: seq<nat>, ds: seq<Done>): map<nat, Outcome> {
    map p | p in preds && p < |ds| :: ds[p].outcome
  }

  function TracesOf(preds: seq<nat>, ds: seq<Done>): map<nat, Trace> {
    map p | p in preds && p < |ds| :: ds[p].trace
  }

  /** A task after all tasks with smaller numbers. */
  function PlainTask(w: World, job: Job, spec: TaskSpec, ds: seq<Done>): Done {
    var before := OutcomesOf(spec.preds, ds);
    var trace := Trace(Visible(InputOf(w, job, spec, before, [])),
                       GatherSilent(spec.preds, before, TracesOf(spec.preds, ds)));
    Done(if w.rule(spec, before) then w.exec(trace) else Skipped, trace)
  }

  /** The first n tasks, each executed. */
  function PlainTasks(w: World, job: Job, n: nat): (ds: seq<Done>)
    requires n <= |job.tasks|
    ensures |ds| == n
  {
    if n == 0 then [] else PlainTasks(w, job, n - 1) + [PlainTask(w, job, job.tasks[n - 1], PlainTasks(w, job, n - 1))]
  }

  /** The job with every task executed. */
  function PlainRun(w: World, job: Job): (ds: seq<Done>)
    ensures |ds| == |job.tasks|
  {
    PlainTasks(w, job, |job.tasks|)
  }

  lemma {:induction false} PlainTasksPrefix(w: World, job: Job, n: nat, t: nat)
    requires t <= n <= |job.tasks|
    ensures PlainTasks(w, job, n)[..t] == PlainTasks(w, job, t)
  {
    if t < n {
      PlainTasksPrefix(w, job, n - 1, t);
      ShorterPrefix(PlainTasks(w, job, n - 1), PlainTask(w, job, job.tasks[n - 1], PlainTasks(w, job, n - 1)), t);
    }
  }

  lemma ShorterPrefix(ds: seq<Done>, d: Done, t: nat)
    requires t <= |ds|
    ensures (ds + [d])[..t] == ds[..t]
  {
  }

  /** Each task is executed after those with smaller numbers. */
  lemma PlainRunAt(w: World, job: Job, t: nat)
    requires t < |job.tasks|
    ensures PlainRun(w, job)[t] == PlainTask(w, job, job.tasks[t], PlainRun(w, job)[..t])
  {
    PlainTasksPrefix(w, job, |job.tasks|, t);
    PlainTasksPrefix(w, job, |job.tasks|, t + 1);
    assert PlainRun(w, job)[t] == PlainRun(w, job)[..t + 1][t];
  }

  // ----- assumptions on the outside -----

  /** The hash tells identities of clean inputs apart. */
  ghost predicate CollisionFree(w: World) {
    forall h, h' :: Clean(h) && Clean(h') && w.hash(h) == w.hash(h') ==> IdentityOf(h) == IdentityOf(h')
  }

  /** The hash is a function of the identity. */
  ghost predicate Canonical(w: World) {
    forall h, h' :: IdentityOf(h) == IdentityOf(h') ==> w.hash(h) == w.hash(h')
  }

  /** A digest of the canonical stream is a function of the identity, and collision-free if
      the digest itself is. */
  lemma DigestOfStream(w: World, digest: string -> string)
    requires forall x, y :: digest(x) == digest(y) ==> x == y
    requires forall h :: w.hash(h) == digest(Preimage(h))
    ensures CollisionFree(w) && Canonical(w)
  {
    forall h, h' | Clean(h) && Clean(h') && w.hash(h) == w.hash(h') ensures IdentityOf(h) == IdentityOf(h') {
      StreamDeterminesIdentity(h, h');
    }
    forall h, h' | IdentityOf(h) == IdentityOf(h') ensures w.hash(h) == w.hash(h') {
      IdentityDeterminesStream(h, h');
    }
  }

  // ----- keys -----

  /** How a key came about: its input, and for each predecessor hash in it the key of that
      predecessor. */
  datatype KeyTree = KeyTree(input: HashInput, made: seq<KeyTree>)

  ghost predicate ValidTree(w: World, k: KeyTree) {
    && Clean(k.input) && |k.made| == |k.input.predHashes|
    && forall i :: 0 <= i < |k.made| ==> ValidTree(w, k.made[i]) && w.hash(k.made[i].input) == k.input.predHashes[i]
  }

  ghost function TraceOf(w: World, k: KeyTree): Trace
    decreases k, 0
  {
    Trace(Visible(k.input), SilentOf(w, k.made))
  }

  ghost function SilentOf(w: World, ks: seq<KeyTree>): multiset<Trace>
    decreases ks
  {
    if ks == [] then multiset{} else SilentOf(w, ks[..|ks| - 1]) + Contribution(w, ks[|ks| - 1])
  }

  /** A predecessor with output counts through its output, one without through its execution. */
  ghost function Contribution(w: World, k: KeyTree): multiset<Trace>
    decreases k, 1
  {
    if Silent(w.exec(TraceOf(w, k))) then multiset{TraceOf(w, k)} else multiset{}
  }

  ghost function Hashes(w: World, ks: seq<KeyTree>): seq<string> {
    seq(|ks|, i requires 0 <= i < |ks| => w.hash(ks[i].input))
  }

  lemma OneMoreKey(w: World, ks: seq<KeyTree>, k: KeyTree)
    ensures SilentOf(w, ks + [k]) == SilentOf(w, ks) + Contribution(w, k)
    ensures Hashes(w, ks + [k]) == Hashes(w, ks) + [w.hash(k.input)]
  {
    assert (ks + [k])[..|ks|] == ks;
  }

  lemma Regroup(x: multiset<Trace>, y: multiset<Trace>, z: multiset<Trace>)
    ensures (x + y) + z == x + (y + z)
  {
  }

  lemma SplitLast(a: seq<KeyTree>, b: seq<KeyTree>)
    requires b != []
    ensures a + b == (a + b[..|b| - 1]) + [b[|b| - 1]] && b == b[..|b| - 1] + [b[|b| - 1]]
  {
  }

  lemma {:induction false} SilentSplit(w: World, a: seq<KeyTree>, b: seq<KeyTree>)
    ensures SilentOf(w, a + b) == SilentOf(w, a) + SilentOf(w, b)
  {
    if b == [] {
      assert a + b == a;
      Regroup(SilentOf(w, a), multiset{}, multiset{});
    } else {
      var front, k := b[..|b| - 1], b[|b| - 1];
      SilentSplit(w, a, front);
      SplitLast(a, b);
      OneMoreKey(w, a + front, k);
      OneMoreKey(w, front, k);
      Regroup(SilentOf(w, a), SilentOf(w, front), Contribution(w, k));
    }
  }

  lemma SilentWithout(w: World, ks: seq<KeyTree>, j: nat)
    requires j < |ks|
    ensures SilentOf(w, ks) == SilentOf(w, ks[..j] + ks[j + 1..]) + Contribution(w, ks[j])
  {
    assert ks == ks[..j] + [ks[j]] + ks[j + 1..];
    SilentSplit(w, ks[..j] + [ks[j]], ks[j + 1..]);
    SilentSplit(w, ks[..j], [ks[j]]);
    SilentSplit(w, ks[..j], ks[j + 1..]);
    assert [ks[j]][..0] == [];
  }

  lemma HashesWithout(w: World, ks: seq<KeyTree>, j: nat)
    requires j < |ks|
    ensures multiset(Hashes(w, ks)) == multiset(Hashes(w, ks[..j] + ks[j + 1..])) + multiset{w.hash(ks[j].input)}
  {
    var hs := Hashes(w, ks);
    assert hs == hs[..j] + [hs[j]] + hs[j + 1..];
    assert Hashes(w, ks[..j] + ks[j + 1..]) == hs[..j] + hs[j + 1..];
  }

  ghost predicate AllValid(w: World, ks: seq<KeyTree>) {
    forall i :: 0 <= i < |ks| ==> ValidTree(w, ks[i])
  }

  lemma FindHash(w: World, ks: seq<KeyTree>, ks': seq<KeyTree>, n: nat) returns (j: nat)
    requires n < |ks| && multiset(Hashes(w, ks)) == multiset(Hashes(w, ks'))
    ensures j < |ks'| && w.hash(ks'[j].input) == w.hash(ks[n].input)
    ensures multiset(Hashes(w, ks[..n] + ks[n + 1..])) == multiset(Hashes(w, ks'[..j] + ks'[j + 1..]))
  {
    assert Hashes(w, ks)[n] in multiset(Hashes(w, ks'));
    j :| 0 <= j < |ks'| && Hashes(w, ks')[j] == Hashes(w, ks)[n];
    HashesWithout(w, ks, n);
    HashesWithout(w, ks', j);
    var h, a := w.hash(ks[n].input), multiset(Hashes(w, ks[..n] + ks[n + 1..]));
    var b := multiset(Hashes(w, ks'[..j] + ks'[j + 1..]));
    assert a == (a + multiset{h}) - multiset{h} && b == (b + multiset{h}) - multiset{h};
  }

  lemma SameContribution(w: World, k: KeyTree, k': KeyTree)
    requires TraceOf(w, k) == TraceOf(w, k')
    ensures Contribution(w, k) == Contribution(w, k')
  {
  }

  lemma NoHashesNoTrees(w: World, ks: seq<KeyTree>)
    requires multiset(Hashes(w, ks)) == multiset{}
    ensures ks == []
  {
    assert |multiset(Hashes(w, ks))| == |Hashes(w, ks)| == |ks|;
  }

  lemma {:induction false} SameHashesSameSilent(w: World, ks: seq<KeyTree>, ks': seq<KeyTree>)
    requires CollisionFree(w) && AllValid(w, ks) && AllValid(w, ks')
    requires multiset(Hashes(w, ks)) == multiset(Hashes(w, ks'))
    ensures SilentOf(w, ks) == SilentOf(w, ks')
    decreases ks
  {
    if ks == [] {
      assert Hashes(w, ks) == [];
      NoHashesNoTrees(w, ks');
    } else {
      var n := |ks| - 1;
      var j := FindHash(w, ks, ks', n);
      KeyDeterminesTrace(w, ks[n], ks'[j]);
      SameContribution(w, ks[n], ks'[j]);
      assert ks[..n] + ks[n + 1..] == ks[..n];
      SameHashesSameSilent(w, ks[..n], ks'[..j] + ks'[j + 1..]);
      SilentWithout(w, ks', j);
    }
  }

  /** Two executions with the same key depended on the same things, all the way down. */
  lemma {:induction false} KeyDeterminesTrace(w: World, k: KeyTree, k': KeyTree)
    requires CollisionFree(w) && ValidTree(w, k) && ValidTree(w, k') && w.hash(k.input) == w.hash(k'.input)
    ensures TraceOf(w, k) == TraceOf(w, k')
    decreases k
  {
    assert IdentityOf(k.input) == IdentityOf(k'.input);
    assert multiset(k.input.predHashes) == multiset(k'.input.predHashes);
    assert Hashes(w, k.made) == k.input.predHashes && Hashes(w, k'.made) == k'.input.predHashes;
    SameHashesSameSilent(w, k.made, k'.made);
  }

  // ----- which predecessors must publish -----

  datatype Pred = Pred(tree: KeyTree, published: bool)

  /** A task about to be looked up: its input without predecessor hashes, and its predecessors. */
  datatype View = View(base: HashInput, preds: seq<Pred>)

  function Published(preds: seq<Pred>): seq<Pred> {
    if preds == [] then []
    else Published(preds[..|preds| - 1]) + if preds[|preds| - 1].published then [preds[|preds| - 1]] else []
  }

  function Trees(preds: seq<Pred>): seq<KeyTree> {
    seq(|preds|, i requires 0 <= i < |preds| => preds[i].tree)
  }

  ghost function KeyInput(w: World, v: View): HashInput {
    v.base.(predHashes := Hashes(w, Trees(Published(v.preds))))
  }

  ghost function ViewTrace(w: World, v: View): Trace {
    Trace(Visible(v.base), SilentOf(w, Trees(v.preds)))
  }

  ghost predicate ValidView(w: World, v: View) {
    Clean(v.base) && AllValid(w, Trees(v.preds)) && forall h :: CleanText(w.hash(h))
  }

  /** Every silent predecessor has published its hash. */
  ghost predicate Covered(w: World, preds: seq<Pred>) {
    forall i :: 0 <= i < |preds| && !preds[i].published ==> Contribution(w, preds[i].tree) == multiset{}
  }

  lemma {:induction false} PublishedOnly(preds: seq<Pred>)
    ensures forall i :: 0 <= i < |Published(preds)| ==> Published(preds)[i].published && Published(preds)[i] in preds
  {
    if preds != [] { PublishedOnly(preds[..|preds| - 1]); }
  }

  lemma {:induction false} PublishedOfPublished(preds: seq<Pred>)
    requires forall i :: 0 <= i < |preds| ==> preds[i].published
    ensures Published(preds) == preds
  {
    if preds != [] { PublishedOfPublished(preds[..|preds| - 1]); }
  }

  lemma CutEqual(a: multiset<Trace>, b: multiset<Trace>, c: multiset<Trace>)
    requires a <= b
    ensures a + c <= b + c && a <= b + c
    ensures a + c == b + c <==> a == b
    ensures a == b + c <==> a == b && c == multiset{}
  {
    if a + c == b + c { assert a == (a + c) - c && b == (b + c) - c; }
    if a == b + c { assert b <= b + c; }
  }

  lemma SilentOfLast(w: World, preds: seq<Pred>)
    requires preds != []
    ensures SilentOf(w, Trees(preds))
      == SilentOf(w, Trees(preds[..|preds| - 1])) + Contribution(w, preds[|preds| - 1].tree)
  {
    assert Trees(preds)[..|preds| - 1] == Trees(preds[..|preds| - 1]);
  }

  lemma SilentOfLastPublished(w: World, preds: seq<Pred>)
    requires preds != []
    ensures var front, p := preds[..|preds| - 1], preds[|preds| - 1];
      SilentOf(w, Trees(Published(preds))) == SilentOf(w, Trees(Published(front))) + if p.published
        then Contribution(w, p.tree) else multiset{}
  {
    var front, p := preds[..|preds| - 1], preds[|preds| - 1];
    if p.published {
      assert Published(preds) == Published(front) + [p];
      SilentOfLast(w, Published(preds));
      assert Published(preds)[..|Published(preds)| - 1] == Published(front);
    } else {
      assert Published(preds) == Published(front);
    }
  }

  lemma CoveredLast(w: World, preds: seq<Pred>)
    requires preds != []
    ensures var front, p := preds[..|preds| - 1], preds[|preds| - 1];
      Covered(w, preds) <==> Covered(w, front) && (!p.published ==> Contribution(w, p.tree) == multiset{})
  {
    var front := preds[..|preds| - 1];
    assert forall i :: 0 <= i < |front| ==> front[i] == preds[i];
  }

  /** The published predecessors show all silent executions exactly when the others have none. */
  lemma {:induction false} SilentAmongPublished(w: World, preds: seq<Pred>)
    ensures SilentOf(w, Trees(Published(preds))) <= SilentOf(w, Trees(preds))
    ensures SilentOf(w, Trees(Published(preds))) == SilentOf(w, Trees(preds)) <==> Covered(w, preds)
  {
    if preds != [] {
      var front, p := preds[..|preds| - 1], preds[|preds| - 1];
      SilentAmongPublished(w, front);
      SilentOfLast(w, preds);
      SilentOfLastPublished(w, preds);
      CoveredLast(w, preds);
      CutEqual(SilentOf(w, Trees(Published(front))), SilentOf(w, Trees(front)), Contribution(w, p.tree));
    }
  }

  /** A task's key stands for one execution exactly when every silent predecessor has
      published its hash. */
  lemma KeyTellsExactlyWhenCovered(w: World, v: View)
    requires CollisionFree(w) && ValidView(w, v)
    ensures Covered(w, v.preds) <==>
      forall u :: ValidView(w, u) && Covered(w, u.preds) && w.hash(KeyInput(w, u)) == w.hash(KeyInput(w, v)) ==>
        ViewTrace(w, u) == ViewTrace(w, v)
  {
    if Covered(w, v.preds) {
      forall u | ValidView(w, u) && Covered(w, u.preds) && w.hash(KeyInput(w, u)) == w.hash(KeyInput(w, v))
        ensures ViewTrace(w, u) == ViewTrace(w, v)
      {
        CoveredKeysTell(w, u, v);
      }
    } else {
      ghost var u := View(v.base, Published(v.preds));
      UncoveredKeyHides(w, v, u);
    }
  }

  ghost function ViewTree(w: World, v: View): KeyTree {
    KeyTree(KeyInput(w, v), Trees(Published(v.preds)))
  }

  lemma PublishedValid(w: World, preds: seq<Pred>)
    requires AllValid(w, Trees(preds))
    ensures AllValid(w, Trees(Published(preds)))
  {
    PublishedOnly(preds);
    forall i | 0 <= i < |Published(preds)| ensures ValidTree(w, Trees(Published(preds))[i]) {
      var j :| 0 <= j < |preds| && preds[j] == Published(preds)[i];
      assert Trees(preds)[j] == Published(preds)[i].tree;
    }
  }

  lemma ViewTreeValid(w: World, v: View)
    requires ValidView(w, v)
    ensures ValidTree(w, ViewTree(w, v))
  {
    PublishedValid(w, v.preds);
  }

  lemma ViewTreeTrace(w: World, v: View)
    requires Covered(w, v.preds)
    ensures TraceOf(w, ViewTree(w, v)) == ViewTrace(w, v)
  {
    SilentAmongPublished(w, v.preds);
  }

  lemma CoveredKeysTell(w: World, u: View, v: View)
    requires CollisionFree(w) && ValidView(w, v) && ValidView(w, u) && Covered(w, u.preds) && Covered(w, v.preds)
    requires w.hash(KeyInput(w, u)) == w.hash(KeyInput(w, v))
    ensures ViewTrace(w, u) == ViewTrace(w, v)
  {
    ViewTreeValid(w, u);
    ViewTreeValid(w, v);
    ViewTreeTrace(w, u);
    ViewTreeTrace(w, v);
    KeyDeterminesTrace(w, ViewTree(w, u), ViewTree(w, v));
  }

  /** Leaving out the predecessors that did not publish gives the same key. */
  lemma UncoveredKeyHides(w: World, v: View, u: View)
    requires ValidView(w, v) && !Covered(w, v.preds) && u == View(v.base, Published(v.preds))
    ensures ValidView(w, u) && Covered(w, u.preds) && KeyInput(w, u) == KeyInput(w, v)
    ensures ViewTrace(w, u) != ViewTrace(w, v)
  {
    PublishedOnly(v.preds);
    PublishedOfPublished(u.preds);
    PublishedValid(w, v.preds);
    SilentAmongPublished(w, v.preds);
  }
}
