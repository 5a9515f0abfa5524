/** What the queries and deletions of the result cache mean for its rows, and which hash a task
    is presented under. */
module CacheMeaning {
  import opened Options
  import opened HashPreimage
  import opened ShortCircuit
  import opened CacheTable

  /** An entry of the task under another hash that has not expired. */
  predicate IsLiveEntry(rows: Rows, job: nat, task: string, exclude: string, clock: int, h: string) {
    && h in rows && h != exclude && rows[h].job == job && rows[h].task == task
    && (rows[h].expiresAt == None || clock < rows[h].expiresAt.value)
  }

  /** The i-th prior is the entry under its hash. */
  predicate ShowsEntry(rows: Rows, p: PriorEntry) {
    p.hash in rows && p.output == rows[p.hash].cached.output && p.createdAt == rows[p.hash].createdAt
  }

  lemma PriorAt(rows: Rows, keys: seq<string>, i: nat)
    requires i < |keys| && keys[i] in rows
    ensures PriorsOf(rows, keys)[i] == PriorEntry(keys[i], rows[keys[i]].cached.output, rows[keys[i]].createdAt)
  {
  }

  /** The list shows live entries of the task, newest first and each once, at most 64 of them; one
      that it leaves out is not newer than any of 64. */
  ghost predicate ListsNewest(rows: Rows, job: nat, task: string, exclude: string, clock: int,
                              priors: seq<PriorEntry>) {
    && |priors| <= 64
    && (forall i :: 0 <= i < |priors| ==>
          ShowsEntry(rows, priors[i]) && IsLiveEntry(rows, job, task, exclude, clock, priors[i].hash))
    && (forall i, j :: 0 <= i < j < |priors| ==>
          priors[i].hash != priors[j].hash && priors[i].createdAt >= priors[j].createdAt)
    && (forall h :: IsLiveEntry(rows, job, task, exclude, clock, h) ==>
          Shows(priors, h) || (|priors| == 64 && NoneOlder(priors, rows[h].createdAt)))
  }

  ghost predicate Shows(priors: seq<PriorEntry>, h: string) {
    exists i :: 0 <= i < |priors| && priors[i].hash == h
  }

  ghost predicate NoneOlder(priors: seq<PriorEntry>, stamp: int) {
    forall i :: 0 <= i < |priors| ==> priors[i].createdAt >= stamp
  }

  lemma CandidatesAreLive(rows: Rows, job: nat, task: string, exclude: string, clock: int, h: string)
    ensures h in Candidates(rows, job, task, exclude, clock) <==> IsLiveEntry(rows, job, task, exclude, clock, h)
  {
  }

  lemma KeysListNewest(rows: Rows, job: nat, task: string, exclude: string, clock: int, keys: seq<string>)
    requires task != "" && forall i :: 0 <= i < |keys| ==> keys[i] in rows
    ensures IsPriorKeys(rows, job, task, exclude, clock, keys) <==>
      ListsNewest(rows, job, task, exclude, clock, PriorsOf(rows, keys))
  {
    var priors := PriorsOf(rows, keys);
    forall i | 0 <= i < |keys|
      ensures priors[i] == PriorEntry(keys[i], rows[keys[i]].cached.output, rows[keys[i]].createdAt)
    {
      PriorAt(rows, keys, i);
    }
    forall h { CandidatesAreLive(rows, job, task, exclude, clock, h); }
    forall h ensures h in keys <==> Shows(priors, h) {
      if h in keys {
        var i :| 0 <= i < |keys| && keys[i] == h;
        assert priors[i].hash == h;
      }
    }
  }

  /** The query for priors gives such a list; a task without a name has none. */
  lemma PriorsExactlyWhen(rows: Rows, job: nat, task: string, exclude: string, clock: int, priors: seq<PriorEntry>)
    ensures IsPriorList(rows, job, task, exclude, clock, priors) <==>
      if task == "" then priors == [] else ListsNewest(rows, job, task, exclude, clock, priors)
  {
    if task == "" {
      assert IsPriorKeys(rows, job, task, exclude, clock, []) && PriorsOf(rows, []) == [];
    } else {
      if keys: seq<string> :| IsPriorKeys(rows, job, task, exclude, clock, keys) && priors == PriorsOf(rows, keys) {
        forall i | 0 <= i < |keys| ensures keys[i] in rows {
          assert keys[i] in Candidates(rows, job, task, exclude, clock);
        }
        KeysListNewest(rows, job, task, exclude, clock, keys);
      }
      if ListsNewest(rows, job, task, exclude, clock, priors) {
        var keys := seq(|priors|, i requires 0 <= i < |priors| => priors[i].hash);
        forall i | 0 <= i < |keys| ensures keys[i] in rows { assert ShowsEntry(rows, priors[i]); }
        assert PriorsOf(rows, keys) == priors;
        KeysListNewest(rows, job, task, exclude, clock, keys);
      }
    }
  }

  /** The prior has the output under a hash of its own. */
  predicate Proves(newHash: string, output: Env, p: PriorEntry) {
    p.output == output && p.hash !in {"", newHash}
  }

  ghost predicate IsNewestProof(newHash: string, output: Env, priors: seq<PriorEntry>, i: int) {
    && 0 <= i < |priors| && Proves(newHash, output, priors[i])
    && forall j :: 0 <= j < |priors| && Proves(newHash, output, priors[j]) ==>
         priors[j].createdAt < priors[i].createdAt || (priors[j].createdAt == priors[i].createdAt && j <= i)
  }

  /** A task with a hash and an output is presented under the hash of the newest prior with that
      very output, of equally new ones the last; any other task under its own. */
  lemma PresentedExactlyWhen(newHash: string, output: Env, priors: seq<PriorEntry>, hash: string)
    ensures IsPresented(newHash, output, priors, hash) <==>
      if newHash == "" || |output| == 0 || (forall j :: 0 <= j < |priors| ==> !Proves(newHash, output, priors[j]))
      then hash == newHash
      else exists i :: IsNewestProof(newHash, output, priors, i) && priors[i].hash == hash
  {
    forall p: PriorEntry ensures Proves(newHash, output, p) <==> Eligible(newHash, output, p) {}
    if i: nat :| IsMostRecent(newHash, output, priors, i) && hash == priors[i].hash {
      assert IsNewestProof(newHash, output, priors, i) && priors[i].hash == hash;
    }
    if i :| IsNewestProof(newHash, output, priors, i) && priors[i].hash == hash {
      assert IsMostRecent(newHash, output, priors, i);
    }
  }

  /** What deletions leave: the entries of other tasks, those of other jobs, and those that have
      not expired. */
  lemma DeletionsLeave(rows: Rows, job: nat, task: string, clock: int, h: string)
    ensures h in WithoutTask(rows, job, task) <==> h in rows && (rows[h].job != job || rows[h].task != task)
    ensures h in WithoutJob(rows, job) <==> h in rows && rows[h].job != job
    ensures h in Pruned(rows, clock) <==> h in rows && (rows[h].expiresAt == None || clock < rows[h].expiresAt.value)
    ensures forall left :: left in [WithoutTask(rows, job, task), WithoutJob(rows, job), Pruned(rows, clock)] ==>
      h in left ==> left[h] == rows[h]
  {
  }
}
