/** What the report says about the snapshots themselves. */
module BlameMeaning {
  import opened Blame

  // ----- the range -----

  ghost predicate Occurs(snaps: seq<Snapshot>, commit: string) {
    exists i :: 0 <= i < |snaps| && snaps[i].commit == commit
  }

  /** The index is that of a snapshot of the commit, and none comes before it. */
  ghost predicate Opens(snaps: seq<Snapshot>, commit: string, lo: int) {
    if commit == "" then lo == 0
    else 0 <= lo < |snaps| && snaps[lo].commit == commit && !Occurs(snaps[..lo], commit)
  }

  ghost predicate Closes(snaps: seq<Snapshot>, commit: string, hi: int) {
    if commit == "" then hi == |snaps| - 1
    else 0 <= hi < |snaps| && snaps[hi].commit == commit && !Occurs(snaps[hi + 1..], commit)
  }

  lemma OpensIsFirst(snaps: seq<Snapshot>, commit: string, lo: nat)
    requires snaps != [] && commit != ""
    ensures Opens(snaps, commit, lo) <==> IsFirst(snaps, commit, lo)
  {
    if lo < |snaps| { assert forall j :: 0 <= j < lo ==> snaps[..lo][j] == snaps[j]; }
  }

  lemma ClosesIsLast(snaps: seq<Snapshot>, commit: string, hi: nat)
    requires snaps != [] && commit != ""
    ensures Closes(snaps, commit, hi) <==> IsLast(snaps, commit, hi)
  {
    if hi < |snaps| {
      var tail := snaps[hi + 1..];
      assert forall j :: 0 <= j < |tail| ==> tail[j] == snaps[hi + 1 + j];
      assert forall j :: hi < j < |snaps| ==> snaps[j] == tail[j - hi - 1];
    }
  }

  /** The range goes from the first snapshot of the one commit to the last of the other; a
      commit that is named must occur, and the range must not be empty. */
  lemma RangeExactlyWhen(snaps: seq<Snapshot>, opts: Options, lo: nat, hi: nat)
    requires snaps != []
    ensures Selects(snaps, opts, Indexes(lo, hi)) <==>
      Opens(snaps, opts.fromCommit, lo) && Closes(snaps, opts.toCommit, hi) && lo <= hi
  {
    if opts.fromCommit != "" { forall i: nat { OpensIsFirst(snaps, opts.fromCommit, i); } }
    if opts.toCommit != "" { forall i: nat { ClosesIsLast(snaps, opts.toCommit, i); } }
  }

  /** A commit is not found exactly if it is named and does not occur; the first is named first. */
  lemma NotFoundExactlyWhen(snaps: seq<Snapshot>, opts: Options, commit: string)
    requires snaps != []
    ensures Selects(snaps, opts, CommitNotFound(commit)) <==>
      if opts.fromCommit != "" && !Occurs(snaps, opts.fromCommit) then commit == opts.fromCommit
      else commit == opts.toCommit != "" && !Occurs(snaps, opts.toCommit)
  {
  }

  /** The range is empty exactly if all snapshots of the end come before all of the beginning. */
  lemma EmptyRangeExactlyWhen(snaps: seq<Snapshot>, opts: Options)
    requires snaps != []
    ensures Selects(snaps, opts, InvalidRange) <==>
      && opts.fromCommit != "" && opts.toCommit != ""
      && Occurs(snaps, opts.fromCommit) && Occurs(snaps, opts.toCommit)
      && forall i, j ::
           (0 <= i < |snaps| && 0 <= j < |snaps| && snaps[i].commit == opts.fromCommit
            && snaps[j].commit == opts.toCommit) ==> j < i
  {
    if && opts.fromCommit != "" && opts.toCommit != ""
       && Occurs(snaps, opts.fromCommit) && Occurs(snaps, opts.toCommit)
    {
      var lo := FirstOf(snaps, opts.fromCommit);
      var hi := LastOf(snaps, opts.toCommit);
      assert forall i :: 0 <= i < |snaps| && snaps[i].commit == opts.fromCommit ==> lo <= i;
      assert forall j :: 0 <= j < |snaps| && snaps[j].commit == opts.toCommit ==> j <= hi;
      assert snaps[lo].commit == opts.fromCommit && snaps[hi].commit == opts.toCommit;
    }
  }

  lemma {:induction false} FirstOf(snaps: seq<Snapshot>, commit: string) returns (lo: nat)
    requires Occurs(snaps, commit)
    ensures IsFirst(snaps, commit, lo)
  {
    var i :| 0 <= i < |snaps| && snaps[i].commit == commit;
    lo := i;
    while exists j :: 0 <= j < lo && snaps[j].commit == commit
      invariant lo < |snaps| && snaps[lo].commit == commit
      decreases lo
    {
      var j :| 0 <= j < lo && snaps[j].commit == commit;
      lo := j;
    }
  }

  lemma {:induction false} LastOf(snaps: seq<Snapshot>, commit: string) returns (hi: nat)
    requires Occurs(snaps, commit)
    ensures IsLast(snaps, commit, hi)
  {
    var i :| 0 <= i < |snaps| && snaps[i].commit == commit;
    hi := i;
    while exists j :: hi < j < |snaps| && snaps[j].commit == commit
      invariant hi < |snaps| && snaps[hi].commit == commit
      decreases |snaps| - hi
    {
      var j :| hi < j < |snaps| && snaps[j].commit == commit;
      hi := j;
    }
  }

  // ----- tasks -----

  lemma InTaskLayer(snaps: seq<Snapshot>, j: nat, t: Task)
    requires j < |snaps|
    ensures t in Elements(TaskHistory(snaps)[j]) <==> t in snaps[j].tasks
  {
    var layer := TaskLayer(snaps[j]);
    if t in snaps[j].tasks {
      var i :| 0 <= i < |snaps[j].tasks| && snaps[j].tasks[i] == t;
      assert layer[i] in layer;
    }
  }

  /** The task is in all snapshots from s to the last of the range, and not in the one before. */
  ghost predicate TaskSince(snaps: seq<Snapshot>, s: int, hi: nat, t: Task) {
    && 0 <= s <= hi < |snaps| && (forall j :: s <= j <= hi ==> t in snaps[j].tasks)
    && (s > 0 ==> t !in snaps[s - 1].tasks)
  }

  /** A task is blamed on a snapshot exactly if it is asked for, is there at the end of the range,
      and has been there without a gap since that snapshot, which lies inside the range. */
  lemma TaskBlamedExactlyWhen(snaps: seq<Snapshot>, opts: Options, lo: nat, hi: nat, a: TaskAttribution)
    requires hi < |snaps|
    ensures a in TaskReport(snaps, opts, lo, hi, snaps[hi].tasks) <==>
      && opts.task in {"", a.element.name}
      && exists s :: lo <= s && TaskSince(snaps, s, hi, a.element) && a.commit == snaps[s].commit && a.id == snaps[s].id
  {
    forall j: nat, t | j < |snaps| { InTaskLayer(snaps, j, t); }
    TaskReportedExactlyWhen(snaps, opts, lo, hi, snaps[hi].tasks, a);
    forall s: nat ensures BeganAt(TaskHistory(snaps), s, hi, a.element) <==> TaskSince(snaps, s, hi, a.element) {
      TaskBegan(snaps, s, hi, a.element);
    }
  }

  lemma TaskBegan(snaps: seq<Snapshot>, s: nat, hi: nat, t: Task)
    requires hi < |snaps|
    ensures BeganAt(TaskHistory(snaps), s, hi, t) <==> TaskSince(snaps, s, hi, t)
  {
    forall j: nat | j < |snaps| { InTaskLayer(snaps, j, t); }
  }

  // ----- edges -----

  predicate IsEdge(e: Edge, k: EdgeKey) {
    e.source == k.source && e.target == k.target
  }

  ghost predicate HasEdge(snap: Snapshot, k: EdgeKey) {
    exists i :: 0 <= i < |snap.edges| && IsEdge(snap.edges[i], k)
  }

  lemma InEdgeLayer(snaps: seq<Snapshot>, j: nat, k: EdgeKey)
    requires j < |snaps|
    ensures k in Elements(EdgeHistory(snaps)[j]) <==> HasEdge(snaps[j], k)
  {
    var layer := EdgeLayer(snaps[j]);
    if i :| 0 <= i < |snaps[j].edges| && IsEdge(snaps[j].edges[i], k) { assert layer[i] in layer; }
    if k in Elements(layer) {
      var i :| 0 <= i < |layer| && layer[i].0 == k;
      assert IsEdge(snaps[j].edges[i], k);
    }
  }

  ghost predicate EdgeSince(snaps: seq<Snapshot>, s: int, hi: nat, k: EdgeKey) {
    && 0 <= s <= hi < |snaps| && (forall j :: s <= j <= hi ==> HasEdge(snaps[j], k))
    && (s > 0 ==> !HasEdge(snaps[s - 1], k))
  }

  /** The last edge between the two in the snapshot carries the provenance. */
  ghost predicate SaysLast(snap: Snapshot, k: EdgeKey, provenance: string) {
    exists i :: 0 <= i < |snap.edges| && IsEdge(snap.edges[i], k) && snap.edges[i].provenance == provenance
                && forall j :: i < j < |snap.edges| ==> !IsEdge(snap.edges[j], k)
  }

  lemma {:induction false} NoteOfLast(layer: Layer<EdgeKey>, edges: seq<Edge>, k: EdgeKey, i: nat)
    requires |layer| == |edges| && i < |edges| && IsEdge(edges[i], k)
    requires forall j :: 0 <= j < |edges| ==> layer[j] == (KeyOf(edges[j]), edges[j].provenance)
    requires forall j :: i < j < |edges| ==> !IsEdge(edges[j], k)
    ensures LastNote(layer, k) == edges[i].provenance
  {
    if i < |edges| - 1 { NoteOfLast(layer[..|layer| - 1], edges[..|edges| - 1], k, i); }
  }

  lemma {:induction false} LastEdge(edges: seq<Edge>, k: EdgeKey) returns (i: nat)
    requires exists j :: 0 <= j < |edges| && IsEdge(edges[j], k)
    ensures i < |edges| && IsEdge(edges[i], k) && forall j :: i < j < |edges| ==> !IsEdge(edges[j], k)
  {
    i := |edges| - 1;
    if !IsEdge(edges[i], k) {
      var front := edges[..i];
      var j :| 0 <= j < |edges| && IsEdge(edges[j], k);
      assert front[j] == edges[j];
      i := LastEdge(front, k);
    }
  }

  lemma NoteSaysLast(snap: Snapshot, k: EdgeKey, provenance: string)
    requires HasEdge(snap, k)
    ensures LastNote(EdgeLayer(snap), k) == provenance <==> SaysLast(snap, k, provenance)
  {
    var i := LastEdge(snap.edges, k);
    NoteOfLast(EdgeLayer(snap), snap.edges, k, i);
  }

  ghost predicate AsksFor(opts: Options, k: EdgeKey) {
    opts.task in {"", k.source, k.target}
  }

  /** The same for edges, with what the snapshot says about the edge last. */
  lemma EdgeBlamedExactlyWhen(snaps: seq<Snapshot>, opts: Options, lo: nat, hi: nat, a: EdgeAttribution)
    requires hi < |snaps|
    ensures a in EdgeReport(snaps, opts, lo, hi, snaps[hi].edges) <==>
      && AsksFor(opts, a.element)
      && exists s :: lo <= s && EdgeSince(snaps, s, hi, a.element) && a.commit == snaps[s].commit
                     && a.id == snaps[s].id && SaysLast(snaps[s], a.element, a.provenance)
  {
    forall i | 0 <= i < |snaps[hi].edges| ensures KeyOf(snaps[hi].edges[i]) in Elements(EdgeHistory(snaps)[hi]) {
      EdgeHere(snaps, hi, i);
    }
    EdgeReportedExactlyWhen(snaps, opts, lo, hi, snaps[hi].edges, a);
    assert Listed(opts, snaps[hi].edges, a.element) <==> HasEdge(snaps[hi], a.element) && AsksFor(opts, a.element) by {
      ListedMeans(opts, snaps[hi], a.element);
    }
    forall s: nat | s <= hi
      ensures BeganAt(EdgeHistory(snaps), s, hi, a.element) <==> EdgeSince(snaps, s, hi, a.element)
    {
      EdgeBegan(snaps, s, hi, a.element);
    }
    forall s: nat | s <= hi && EdgeSince(snaps, s, hi, a.element)
      ensures LastNote(EdgeLayer(snaps[s]), a.element) == a.provenance <==> SaysLast(snaps[s], a.element, a.provenance)
    {
      NoteSaysLast(snaps[s], a.element, a.provenance);
    }
  }

  lemma ListedMeans(opts: Options, snap: Snapshot, k: EdgeKey)
    ensures Listed(opts, snap.edges, k) <==> HasEdge(snap, k) && AsksFor(opts, k)
  {
    if i :| 0 <= i < |snap.edges| && IsEdge(snap.edges[i], k) { assert KeyOf(snap.edges[i]) == k; }
  }

  lemma EdgeBegan(snaps: seq<Snapshot>, s: nat, hi: nat, k: EdgeKey)
    requires hi < |snaps|
    ensures BeganAt(EdgeHistory(snaps), s, hi, k) <==> EdgeSince(snaps, s, hi, k)
  {
    forall j: nat | j < |snaps| { InEdgeLayer(snaps, j, k); }
  }
}
