/** Attribution of the tasks and edges of a job to the snapshot that introduced them. */
module Blame {

  datatype Task = Task(name: string, image: string, command: seq<string>)

  datatype Edge = Edge(source: string, target: string, provenance: string)

  /** Edges are told apart by their ends only. */
  datatype EdgeKey = EdgeKey(source: string, target: string)

  datatype Snapshot = Snapshot(id: nat, commit: string, tasks: seq<Task>, edges: seq<Edge>)

  datatype Introduction = Introduction(id: nat, commit: string, provenance: string)

  // ----- layers: what one snapshot contains of one kind -----

  /** The elements of a snapshot, each with a note. */
  type Layer<K> = seq<(K, string)>

  function Elements<K>(layer: Layer<K>): set<K> {
    set e | e in layer :: e.0
  }

  /** If a snapshot lists an element more than once, the last listing counts. */
  function LastNote<K(==)>(layer: Layer<K>, k: K): string {
    if layer == [] then ""
    else if layer[|layer| - 1].0 == k then layer[|layer| - 1].1
    else LastNote(layer[..|layer| - 1], k)
  }

  function TaskLayer(s: Snapshot): Layer<Task> {
    seq(|s.tasks|, i requires 0 <= i < |s.tasks| => (s.tasks[i], ""))
  }

  function KeyOf(e: Edge): EdgeKey {
    EdgeKey(e.source, e.target)
  }

  function EdgeLayer(s: Snapshot): Layer<EdgeKey> {
    seq(|s.edges|, i requires 0 <= i < |s.edges| => (KeyOf(s.edges[i]), s.edges[i].provenance))
  }

  function TaskHistory(snaps: seq<Snapshot>): seq<Layer<Task>> {
    seq(|snaps|, i requires 0 <= i < |snaps| => TaskLayer(snaps[i]))
  }

  function EdgeHistory(snaps: seq<Snapshot>): seq<Layer<EdgeKey>> {
    seq(|snaps|, i requires 0 <= i < |snaps| => EdgeLayer(snaps[i]))
  }

  // ----- uninterrupted presence -----

  /** The element is in all snapshots from `s` to `t`, and not in the one before `s`. */
  ghost predicate BeganAt<K>(history: seq<Layer<K>>, s: nat, t: nat, k: K) {
    && s <= t < |history|
    && (forall j :: s <= j <= t ==> k in Elements(history[j]))
    && (s > 0 ==> k !in Elements(history[s - 1]))
  }

  function Start<K(==)>(history: seq<Layer<K>>, t: nat, k: K): nat
    requires t < |history|
  {
    if t == 0 || k !in Elements(history[t - 1]) then t else Start(history, t - 1, k)
  }

  /** The presence that lasts until `t` began at exactly one snapshot. */
  lemma {:induction false} StartIsTheBeginning<K>(history: seq<Layer<K>>, t: nat, k: K, s: nat)
    requires t < |history| && k in Elements(history[t])
    ensures BeganAt(history, s, t, k) <==> s == Start(history, t, k)
  {
    assert s < t && BeganAt(history, s, t, k) ==> k in Elements(history[t - 1]);
    if t > 0 && k in Elements(history[t - 1]) {
      StartIsTheBeginning(history, t - 1, k, s);
    }
  }

  // ----- the walk -----

  /** What introduces an element that appears in a layer. */
  function Introduces<K(==)>(snap: Snapshot, layer: Layer<K>, k: K): Introduction {
    Introduction(snap.id, snap.commit, LastNote(layer, k))
  }

  /** For everything in the snapshot last walked over: it is recorded exactly when its
      presence began in the range, and then at that beginning. */
  ghost predicate Recorded<K(!new)>(snaps: seq<Snapshot>, history: seq<Layer<K>>, lo: nat, t: nat,
                                    intro: map<K, Introduction>)
    requires |history| == |snaps| && t < |snaps|
  {
    forall k :: k in Elements(history[t]) ==>
      && (k in intro <==> Start(history, t, k) >= lo)
      && (k in intro ==> Start(history, t, k) < |snaps|
                         && intro[k] == Introduces(snaps[Start(history, t, k)], history[Start(history, t, k)], k))
  }

  lemma {:induction false} StartBelow<K>(history: seq<Layer<K>>, t: nat, k: K)
    requires t < |history|
    ensures Start(history, t, k) <= t
  {
    if t > 0 && k in Elements(history[t - 1]) { StartBelow(history, t - 1, k); }
  }

  lemma ElementsMore<K>(layer: Layer<K>, i: nat, k: K)
    requires i < |layer|
    ensures k in Elements(layer[..i + 1]) <==> k in Elements(layer[..i]) || k == layer[i].0
    ensures LastNote(layer[..i + 1], k) == if k == layer[i].0 then layer[i].1 else LastNote(layer[..i], k)
  {
    assert layer[..i + 1] == layer[..i] + [layer[i]] && layer[..i + 1][..i] == layer[..i];
    if k in Elements(layer[..i]) {
      var e :| e in layer[..i] && e.0 == k;
      assert e in layer[..i + 1];
    }
    assert layer[i] in layer[..i + 1];
  }

  /** One layer of one snapshot: elements that were not in the previous snapshot are
      introduced, if the range has begun. */
  method NoteNew<K(==, !new)>(snap: Snapshot, layer: Layer<K>, inRange: bool, prev: set<K>, intro: map<K, Introduction>)
    returns (here: set<K>, intro': map<K, Introduction>)
    ensures here == Elements(layer)
    ensures forall k :: k in intro' <==> k in intro || (inRange && k in here && k !in prev)
    ensures forall k :: k in intro' ==>
              intro'[k] == if inRange && k in here && k !in prev then Introduces(snap, layer, k) else intro[k]
  {
    here, intro' := {}, intro;
    for i := 0 to |layer|
      invariant here == Elements(layer[..i])
      invariant forall k :: k in intro' <==> k in intro || (inRange && k in here && k !in prev)
      invariant forall k :: k in intro' ==>
                  intro'[k] == if inRange && k in here && k !in prev then Introduces(snap, layer[..i], k) else intro[k]
    {
      var key := layer[i].0;
      forall k { ElementsMore(layer, i, k); }
      here := here + {key};
      if inRange && key !in prev {
        intro' := intro'[key := Introduction(snap.id, snap.commit, layer[i].1)];
      }
    }
    assert layer[..|layer|] == layer;
  }

  /** Walking over one more snapshot keeps the record right. */
  lemma RecordedStep<K(!new)>(snaps: seq<Snapshot>, history: seq<Layer<K>>, lo: nat, t: nat,
                              intro: map<K, Introduction>, intro': map<K, Introduction>)
    requires |history| == |snaps| && t < |snaps|
    requires t > 0 ==> Recorded(snaps, history, lo, t - 1, intro)
    requires t <= lo ==> intro == map[]
    requires var prev := if t == 0 then {} else Elements(history[t - 1]);
      && (forall k :: k in intro' <==> k in intro || (t >= lo && k in Elements(history[t]) && k !in prev))
      && (forall k :: k in intro' ==> intro'[k] == if t >= lo && k in Elements(history[t]) && k !in prev
                                                    then Introduces(snaps[t], history[t], k) else intro[k])
    ensures Recorded(snaps, history, lo, t, intro')
  {
    forall k | k in Elements(history[t])
      ensures (k in intro' <==> Start(history, t, k) >= lo)
      ensures k in intro' ==> Start(history, t, k) < |snaps|
                              && intro'[k] == Introduces(snaps[Start(history, t, k)], history[Start(history, t, k)], k)
    {
      if t > 0 && k in Elements(history[t - 1]) { StartBelow(history, t - 1, k); }
    }
  }

  // ----- ranges -----

  datatype Options = Options(task: string, fromCommit: string, toCommit: string)

  datatype Range = Indexes(lo: nat, hi: nat) | CommitNotFound(commit: string) | InvalidRange

  /** The first and the last snapshot of a commit. */
  ghost predicate IsFirst(snaps: seq<Snapshot>, commit: string, i: nat) {
    i < |snaps| && snaps[i].commit == commit && forall j :: 0 <= j < i ==> snaps[j].commit != commit
  }

  ghost predicate IsLast(snaps: seq<Snapshot>, commit: string, i: nat) {
    i < |snaps| && snaps[i].commit == commit && forall j :: i < j < |snaps| ==> snaps[j].commit != commit
  }

  ghost predicate Has(snaps: seq<Snapshot>, commit: string) {
    exists i :: 0 <= i < |snaps| && snaps[i].commit == commit
  }

  method FirstCommitIndex(snaps: seq<Snapshot>, commit: string) returns (i: nat, ok: bool)
    ensures ok <==> Has(snaps, commit)
    ensures ok ==> IsFirst(snaps, commit, i)
  {
    i := 0;
    while i < |snaps|
      invariant i <= |snaps| && forall j :: 0 <= j < i ==> snaps[j].commit != commit
    {
      if snaps[i].commit == commit {
        return i, true;
      }
      i := i + 1;
    }
    return 0, false;
  }

  method LastCommitIndex(snaps: seq<Snapshot>, commit: string) returns (i: nat, ok: bool)
    ensures ok <==> Has(snaps, commit)
    ensures ok ==> IsLast(snaps, commit, i)
  {
    var n := |snaps|;
    while n > 0
      invariant 0 <= n <= |snaps| && forall j :: n <= j < |snaps| ==> snaps[j].commit != commit
    {
      n := n - 1;
      if snaps[n].commit == commit {
        return n, true;
      }
    }
    return 0, false;
  }

  /** What a pair of commits selects: from the first snapshot of the one to the last snapshot
      of the other, with the whole history by default. */
  ghost predicate Selects(snaps: seq<Snapshot>, opts: Options, r: Range) {
    if opts.fromCommit != "" && !Has(snaps, opts.fromCommit) then r == CommitNotFound(opts.fromCommit)
    else if opts.toCommit != "" && !Has(snaps, opts.toCommit) then r == CommitNotFound(opts.toCommit)
    else exists lo: nat, hi: nat ::
      && (if opts.fromCommit == "" then lo == 0 else IsFirst(snaps, opts.fromCommit, lo))
      && (if opts.toCommit == "" then hi == |snaps| - 1 else IsLast(snaps, opts.toCommit, hi))
      && r == if lo > hi then InvalidRange else Indexes(lo, hi)
  }

  method RangeIndexes(snaps: seq<Snapshot>, opts: Options) returns (r: Range)
    requires |snaps| > 0
    ensures Selects(snaps, opts, r)
    ensures r.Indexes? ==> r.lo <= r.hi < |snaps|
  {
    var lo: nat, hi: nat := 0, |snaps| - 1;
    var ok: bool;
    if opts.fromCommit != "" {
      lo, ok := FirstCommitIndex(snaps, opts.fromCommit);
      if !ok {
        return CommitNotFound(opts.fromCommit);
      }
    }
    if opts.toCommit != "" {
      hi, ok := LastCommitIndex(snaps, opts.toCommit);
      if !ok {
        return CommitNotFound(opts.toCommit);
      }
    }
    if lo > hi {
      return InvalidRange;
    }
    return Indexes(lo, hi);
  }

  // ----- the report -----

  datatype TaskAttribution = TaskAttribution(element: Task, commit: string, id: nat)

  datatype EdgeAttribution = EdgeAttribution(element: EdgeKey, commit: string, id: nat, provenance: string)

  datatype Result =
    | NotFound(commit: string)
    | BadRange
    | Report(tasks: seq<TaskAttribution>, edges: seq<EdgeAttribution>)

  predicate WantsTask(opts: Options, t: Task) {
    opts.task == "" || t.name == opts.task
  }

  predicate WantsEdge(opts: Options, e: Edge) {
    opts.task == "" || e.source == opts.task || e.target == opts.task
  }

  /** The tasks of a list that are to be reported, in order, each with the snapshot at which
      its presence began. */
  function TaskReport(snaps: seq<Snapshot>, opts: Options, lo: nat, hi: nat, tasks: seq<Task>): seq<TaskAttribution>
    requires hi < |snaps|
  {
    if tasks == [] then []
    else
      var t := tasks[|tasks| - 1];
      var s := Start(TaskHistory(snaps), hi, t);
      StartBelow(TaskHistory(snaps), hi, t);
      TaskReport(snaps, opts, lo, hi, tasks[..|tasks| - 1])
      + if WantsTask(opts, t) && s >= lo then [TaskAttribution(t, snaps[s].commit, snaps[s].id)] else []
  }

  function EdgeReport(snaps: seq<Snapshot>, opts: Options, lo: nat, hi: nat, edges: seq<Edge>): seq<EdgeAttribution>
    requires hi < |snaps|
  {
    if edges == [] then []
    else
      var e := edges[|edges| - 1];
      var s := Start(EdgeHistory(snaps), hi, KeyOf(e));
      StartBelow(EdgeHistory(snaps), hi, KeyOf(e));
      EdgeReport(snaps, opts, lo, hi, edges[..|edges| - 1])
      + if WantsEdge(opts, e) && s >= lo
        then [EdgeAttribution(KeyOf(e), snaps[s].commit, snaps[s].id, LastNote(EdgeLayer(snaps[s]), KeyOf(e)))] else []
  }

  lemma TaskHere(snaps: seq<Snapshot>, hi: nat, i: nat)
    requires hi < |snaps| && i < |snaps[hi].tasks|
    ensures snaps[hi].tasks[i] in Elements(TaskHistory(snaps)[hi])
  {
    assert TaskLayer(snaps[hi])[i] in TaskLayer(snaps[hi]);
  }

  lemma EdgeHere(snaps: seq<Snapshot>, hi: nat, i: nat)
    requires hi < |snaps| && i < |snaps[hi].edges|
    ensures KeyOf(snaps[hi].edges[i]) in Elements(EdgeHistory(snaps)[hi])
  {
    assert EdgeLayer(snaps[hi])[i] in EdgeLayer(snaps[hi]);
  }

  lemma EdgeReportMore(snaps: seq<Snapshot>, opts: Options, lo: nat, hi: nat, i: nat)
    requires hi < |snaps| && i < |snaps[hi].edges|
    ensures var e, s := snaps[hi].edges[i], Start(EdgeHistory(snaps), hi, KeyOf(snaps[hi].edges[i]));
      s < |snaps| && EdgeReport(snaps, opts, lo, hi, snaps[hi].edges[..i + 1])
        == EdgeReport(snaps, opts, lo, hi, snaps[hi].edges[..i])
           + if WantsEdge(opts, e) && s >= lo
             then [EdgeAttribution(KeyOf(e), snaps[s].commit, snaps[s].id, LastNote(EdgeLayer(snaps[s]), KeyOf(e)))]
             else []
  {
    var current := snaps[hi].edges;
    assert current[..i + 1][..i] == current[..i];
    StartBelow(EdgeHistory(snaps), hi, KeyOf(current[i]));
  }

  /** The single pass over the snapshots up to the end of the range. */
  method Walk(snaps: seq<Snapshot>, lo: nat, hi: nat)
    returns (tasks: map<Task, Introduction>, edges: map<EdgeKey, Introduction>)
    requires lo <= hi < |snaps|
    ensures Recorded(snaps, TaskHistory(snaps), lo, hi, tasks)
    ensures Recorded(snaps, EdgeHistory(snaps), lo, hi, edges)
  {
    tasks, edges := map[], map[];
    var prevTasks: set<Task>, prevEdges: set<EdgeKey> := {}, {};
    for i := 0 to hi + 1
      invariant i > 0 ==>
        Recorded(snaps, TaskHistory(snaps), lo, i - 1, tasks) && prevTasks == Elements(TaskHistory(snaps)[i - 1])
      invariant i > 0 ==>
        Recorded(snaps, EdgeHistory(snaps), lo, i - 1, edges) && prevEdges == Elements(EdgeHistory(snaps)[i - 1])
      invariant i == 0 ==> prevTasks == {} && prevEdges == {}
      invariant i <= lo ==> tasks == map[] && edges == map[]
    {
      ghost var oldTasks, oldEdges := tasks, edges;
      prevTasks, tasks := NoteNew(snaps[i], TaskLayer(snaps[i]), i >= lo, prevTasks, tasks);
      RecordedStep(snaps, TaskHistory(snaps), lo, i, oldTasks, tasks);
      prevEdges, edges := NoteNew(snaps[i], EdgeLayer(snaps[i]), i >= lo, prevEdges, edges);
      RecordedStep(snaps, EdgeHistory(snaps), lo, i, oldEdges, edges);
    }
  }

  method ReportTasks(snaps: seq<Snapshot>, opts: Options, lo: nat, hi: nat, intro: map<Task, Introduction>)
    returns (r: seq<TaskAttribution>)
    requires hi < |snaps| && Recorded(snaps, TaskHistory(snaps), lo, hi, intro)
    ensures r == TaskReport(snaps, opts, lo, hi, snaps[hi].tasks)
  {
    var current := snaps[hi].tasks;
    r := [];
    for i := 0 to |current|
      invariant r == TaskReport(snaps, opts, lo, hi, current[..i])
    {
      var t := current[i];
      assert current[..i + 1][..i] == current[..i];
      TaskHere(snaps, hi, i);
      if opts.task != "" && t.name != opts.task {
        continue;
      }
      if t !in intro {
        continue;
      }
      r := r + [TaskAttribution(t, intro[t].commit, intro[t].id)];
    }
    assert current[..|current|] == current;
  }

  method ReportEdges(snaps: seq<Snapshot>, opts: Options, lo: nat, hi: nat, intro: map<EdgeKey, Introduction>)
    returns (r: seq<EdgeAttribution>)
    requires hi < |snaps| && Recorded(snaps, EdgeHistory(snaps), lo, hi, intro)
    ensures r == EdgeReport(snaps, opts, lo, hi, snaps[hi].edges)
  {
    var current := snaps[hi].edges;
    r := [];
    for i := 0 to |current|
      invariant r == EdgeReport(snaps, opts, lo, hi, current[..i])
    {
      var e := current[i];
      EdgeReportMore(snaps, opts, lo, hi, i);
      EdgeHere(snaps, hi, i);
      if opts.task != "" && e.source != opts.task && e.target != opts.task {
        continue;
      }
      if KeyOf(e) !in intro {
        continue;
      }
      var from := intro[KeyOf(e)];
      r := r + [EdgeAttribution(KeyOf(e), from.commit, from.id, from.provenance)];
    }
    assert current[..|current|] == current;
  }

  /** Snapshots come oldest first. */
  method BlameElements(snaps: seq<Snapshot>, opts: Options) returns (r: Result, ghost range: Range)
    ensures snaps == [] ==> r == Report([], [])
    ensures snaps != [] ==> Selects(snaps, opts, range)
    ensures snaps != [] && range.CommitNotFound? ==> r == NotFound(range.commit)
    ensures snaps != [] && range.InvalidRange? ==> r == BadRange
    ensures snaps != [] && range.Indexes? ==>
              && range.hi < |snaps|
              && r == Report(TaskReport(snaps, opts, range.lo, range.hi, snaps[range.hi].tasks),
                             EdgeReport(snaps, opts, range.lo, range.hi, snaps[range.hi].edges))
  {
    range := InvalidRange;
    if |snaps| == 0 {
      return Report([], []), range;
    }
    var indexes := RangeIndexes(snaps, opts);
    range := indexes;
    match indexes
    case CommitNotFound(commit) => r := NotFound(commit);
    case InvalidRange => r := BadRange;
    case Indexes(lo, hi) =>
      var tasks, edges := Walk(snaps, lo, hi);
      var ts := ReportTasks(snaps, opts, lo, hi, tasks);
      var es := ReportEdges(snaps, opts, lo, hi, edges);
      r := Report(ts, es);
  }

  // ----- what the report means -----

  /** A task of the last snapshot is reported exactly when its last uninterrupted presence
      began inside the range, and then with the snapshot where it began: a task that was
      removed and came back is attributed to its return. */
  lemma {:induction false} TaskReportedExactlyWhen(snaps: seq<Snapshot>, opts: Options, lo: nat, hi: nat,
                                                   tasks: seq<Task>, a: TaskAttribution)
    requires hi < |snaps| && forall i :: 0 <= i < |tasks| ==> tasks[i] in Elements(TaskHistory(snaps)[hi])
    ensures a in TaskReport(snaps, opts, lo, hi, tasks) <==>
              && a.element in tasks && WantsTask(opts, a.element)
              && exists s :: lo <= s <= hi && BeganAt(TaskHistory(snaps), s, hi, a.element)
                             && a.commit == snaps[s].commit && a.id == snaps[s].id
  {
    if tasks != [] {
      var front, t := tasks[..|tasks| - 1], tasks[|tasks| - 1];
      TaskReportedExactlyWhen(snaps, opts, lo, hi, front, a);
      assert forall x :: x in tasks <==> x in front || x == t;
      StartBelow(TaskHistory(snaps), hi, t);
      forall s: nat ensures BeganAt(TaskHistory(snaps), s, hi, t) <==> s == Start(TaskHistory(snaps), hi, t) {
        StartIsTheBeginning(TaskHistory(snaps), hi, t, s);
      }
    }
  }

  ghost predicate Listed(opts: Options, edges: seq<Edge>, k: EdgeKey) {
    exists i :: 0 <= i < |edges| && KeyOf(edges[i]) == k && WantsEdge(opts, edges[i])
  }

  /** The attribution names the snapshot, inside the range, where the edge's presence began. */
  ghost predicate NamesBeginning(snaps: seq<Snapshot>, lo: nat, hi: nat, a: EdgeAttribution)
    requires hi < |snaps|
  {
    exists s :: lo <= s <= hi && BeganAt(EdgeHistory(snaps), s, hi, a.element) && a.commit == snaps[s].commit
                && a.id == snaps[s].id && a.provenance == LastNote(EdgeLayer(snaps[s]), a.element)
  }

  lemma EdgeBeginning(snaps: seq<Snapshot>, lo: nat, hi: nat, a: EdgeAttribution)
    requires hi < |snaps| && a.element in Elements(EdgeHistory(snaps)[hi])
    ensures var s := Start(EdgeHistory(snaps), hi, a.element);
      s < |snaps| && (NamesBeginning(snaps, lo, hi, a) <==>
        s >= lo
          && a == EdgeAttribution(a.element, snaps[s].commit, snaps[s].id, LastNote(EdgeLayer(snaps[s]), a.element)))
  {
    StartBelow(EdgeHistory(snaps), hi, a.element);
    forall s: nat
      ensures BeganAt(EdgeHistory(snaps), s, hi, a.element) <==> s == Start(EdgeHistory(snaps), hi, a.element)
    {
      StartIsTheBeginning(EdgeHistory(snaps), hi, a.element, s);
    }
  }

  lemma ListedMore(opts: Options, edges: seq<Edge>, k: EdgeKey)
    requires edges != []
    ensures Listed(opts, edges, k) <==>
              || Listed(opts, edges[..|edges| - 1], k)
              || (KeyOf(edges[|edges| - 1]) == k && WantsEdge(opts, edges[|edges| - 1]))
  {
    var front := edges[..|edges| - 1];
    assert forall i :: 0 <= i < |front| ==> front[i] == edges[i];
  }

  /** The same for edges, with the provenance recorded where the presence began. */
  lemma {:induction false} EdgeReportedExactlyWhen(snaps: seq<Snapshot>, opts: Options, lo: nat, hi: nat,
                                                   edges: seq<Edge>, a: EdgeAttribution)
    requires hi < |snaps| && forall i :: 0 <= i < |edges| ==> KeyOf(edges[i]) in Elements(EdgeHistory(snaps)[hi])
    ensures a in EdgeReport(snaps, opts, lo, hi, edges) <==>
      Listed(opts, edges, a.element) && NamesBeginning(snaps, lo, hi, a)
  {
    if edges != [] {
      var front, e := edges[..|edges| - 1], edges[|edges| - 1];
      EdgeReportedExactlyWhen(snaps, opts, lo, hi, front, a);
      ListedMore(opts, edges, a.element);
      if KeyOf(e) == a.element { EdgeBeginning(snaps, lo, hi, a); }
    }
  }

  /** From the first snapshot on and for all tasks, the report is the list of tasks itself:
      each is attributed once, in order. */
  lemma {:induction false} WholeHistoryAttributesAll(snaps: seq<Snapshot>, opts: Options, hi: nat, tasks: seq<Task>)
    requires hi < |snaps| && opts.task == ""
    ensures var report := TaskReport(snaps, opts, 0, hi, tasks);
      |report| == |tasks| && forall i :: 0 <= i < |tasks| ==> report[i].element == tasks[i]
  {
    if tasks != [] { WholeHistoryAttributesAll(snaps, opts, hi, tasks[..|tasks| - 1]); }
  }

  /** And the report of edges is the list of edges. */
  lemma {:induction false} WholeHistoryAttributesAllEdges(snaps: seq<Snapshot>, opts: Options, hi: nat,
                                                          edges: seq<Edge>)
    requires hi < |snaps| && opts.task == ""
    ensures var report := EdgeReport(snaps, opts, 0, hi, edges);
      |report| == |edges| && forall i :: 0 <= i < |edges| ==> report[i].element == KeyOf(edges[i])
  {
    if edges != [] { WholeHistoryAttributesAllEdges(snaps, opts, hi, edges[..|edges| - 1]); }
  }
}
