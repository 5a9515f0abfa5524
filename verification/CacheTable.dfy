/** The table of cached task results: one row for each identity hash, with an expiry. */
module CacheTable {
  import opened Options
  import opened HashPreimage
  import opened ShortCircuit

  datatype CachedResult = CachedResult(result: string, output: Env, branches: seq<string>)

  datatype Entry = Entry(job: nat, task: string, cached: CachedResult, createdAt: int, expiresAt: Option<int>)

  type Rows = map<string, Entry>

  const MAX_PRIORS := 64

  /** A lookup serves an entry up to and including the instant of its expiry. */
  predicate Hit(rows: Rows, hash: string, clock: int) {
    hash in rows && (rows[hash].expiresAt.None? || rows[hash].expiresAt.value >= clock)
  }

  /** The row is a candidate prior of the task. */
  predicate IsPrior(rows: Rows, job: nat, task: string, exclude: string, clock: int, hash: string) {
    && hash in rows && rows[hash].job == job && rows[hash].task == task && hash != exclude
    && (rows[hash].expiresAt.None? || rows[hash].expiresAt.value > clock)
  }

  function PriorOf(rows: Rows, hash: string): PriorEntry
    requires hash in rows
  {
    PriorEntry(hash, rows[hash].cached.output, rows[hash].createdAt)
  }

  /** The keys are candidates, newest first and without repetition. */
  ghost predicate NewestFirst(rows: Rows, candidates: set<string>, keys: seq<string>)
    requires candidates <= rows.Keys
  {
    && (forall i :: 0 <= i < |keys| ==> keys[i] in candidates)
    && (forall i, j :: 0 <= i < j < |keys| ==> keys[i] != keys[j] && rows[keys[i]].createdAt >= rows[keys[j]].createdAt)
  }

  /** A candidate that is not listed is not newer than any listed one, and then the list is full. */
  ghost predicate KeepsNewest(rows: Rows, candidates: set<string>, keys: seq<string>, limit: nat)
    requires candidates <= rows.Keys
  {
    forall h :: h in candidates && h !in keys ==>
      |keys| == limit && forall i :: 0 <= i < |keys| && keys[i] in rows ==> rows[keys[i]].createdAt >= rows[h].createdAt
  }

  function Candidates(rows: Rows, job: nat, task: string, exclude: string, clock: int): set<string> {
    set h | h in rows && IsPrior(rows, job, task, exclude, clock, h)
  }

  /** What the query for priors may return: at most 64 of the newest candidates. A task
      without a name has none. */
  ghost predicate IsPriorList(rows: Rows, job: nat, task: string, exclude: string, clock: int,
                              priors: seq<PriorEntry>) {
    exists keys: seq<string> :: IsPriorKeys(rows, job, task, exclude, clock, keys) && priors == PriorsOf(rows, keys)
  }

  ghost predicate IsPriorKeys(rows: Rows, job: nat, task: string, exclude: string, clock: int, keys: seq<string>) {
    if task == "" then keys == []
    else
      && |keys| <= MAX_PRIORS
      && NewestFirst(rows, Candidates(rows, job, task, exclude, clock), keys)
      && KeepsNewest(rows, Candidates(rows, job, task, exclude, clock), keys, MAX_PRIORS)
  }

  function PriorsOf(rows: Rows, keys: seq<string>): seq<PriorEntry> {
    seq(|keys|,
        i requires 0 <= i < |keys| => if keys[i] in rows then PriorOf(rows, keys[i]) else PriorEntry("", map[], 0))
  }

  // ----- writes -----

  function WithoutTask(rows: Rows, job: nat, task: string): Rows {
    map h | h in rows && !(rows[h].job == job && rows[h].task == task) :: rows[h]
  }

  function WithoutJob(rows: Rows, job: nat): Rows {
    map h | h in rows && rows[h].job != job :: rows[h]
  }

  /** The rows that a pruning at the given instant leaves. */
  function Pruned(rows: Rows, clock: int): Rows {
    map h | h in rows && !(rows[h].expiresAt.Some? && rows[h].expiresAt.value <= clock) :: rows[h]
  }

  /** A pruning changes no lookup after it, and no list of priors from its instant on. At its
      very instant it takes away exactly the hits that expire then. */
  lemma PruningIsInvisible(rows: Rows, clock: int, now: int, hash: string)
    requires clock <= now
    ensures Hit(Pruned(rows, clock), hash, now) <==>
      Hit(rows, hash, now) && !(now == clock && rows[hash].expiresAt == Some(clock))
    ensures Hit(Pruned(rows, clock), hash, now) ==> Pruned(rows, clock)[hash] == rows[hash]
    ensures forall job, task, exclude, priors ::
              IsPriorList(Pruned(rows, clock), job, task, exclude, now, priors) <==>
                IsPriorList(rows, job, task, exclude, now, priors)
  {
    forall job, task, exclude, priors
      ensures IsPriorList(Pruned(rows, clock), job, task, exclude, now, priors) <==>
        IsPriorList(rows, job, task, exclude, now, priors)
    {
      if IsPriorList(rows, job, task, exclude, now, priors) {
        SamePriorLists(rows, Pruned(rows, clock), job, task, exclude, now, priors);
      }
      if IsPriorList(Pruned(rows, clock), job, task, exclude, now, priors) {
        SamePriorLists(Pruned(rows, clock), rows, job, task, exclude, now, priors);
      }
    }
  }

  lemma SamePriorLists(rows: Rows, rows': Rows, job: nat, task: string, exclude: string, now: int,
                       priors: seq<PriorEntry>)
    requires Candidates(rows, job, task, exclude, now) == Candidates(rows', job, task, exclude, now)
    requires forall h :: h in Candidates(rows, job, task, exclude, now) ==> rows[h] == rows'[h]
    requires IsPriorList(rows, job, task, exclude, now, priors)
    ensures IsPriorList(rows', job, task, exclude, now, priors)
  {
    var keys: seq<string> :| IsPriorKeys(rows, job, task, exclude, now, keys) && priors == PriorsOf(rows, keys);
    assert forall i :: 0 <= i < |keys| ==> keys[i] in Candidates(rows, job, task, exclude, now);
    assert IsPriorKeys(rows', job, task, exclude, now, keys);
    assert PriorsOf(rows', keys) == PriorsOf(rows, keys);
  }

  /** The newest candidate that remains. */
  method Newest(rows: Rows, candidates: set<string>) returns (h: string)
    requires candidates != {} && candidates <= rows.Keys
    ensures h in candidates && forall g :: g in candidates ==> rows[g].createdAt <= rows[h].createdAt
  {
    h :| h in candidates;
    var rest := candidates - {h};
    while rest != {}
      invariant rest <= candidates && h in candidates
      invariant forall g :: g in candidates - rest ==> rows[g].createdAt <= rows[h].createdAt
      decreases rest
    {
      var g :| g in rest;
      if rows[g].createdAt > rows[h].createdAt {
        h := g;
      }
      rest := rest - {g};
    }
  }

  class Store {
    var rows: Rows

    constructor ()
      ensures rows == map[]
    {
      rows := map[];
    }

    method Get(hash: string, clock: int) returns (entry: Option<Entry>)
      ensures entry.Some? <==> hash in rows && (rows[hash].expiresAt == None || clock <= rows[hash].expiresAt.value)
      ensures entry.Some? ==> entry.value == rows[hash]
    {
      if hash !in rows {
        return None;
      }
      if rows[hash].expiresAt.Some? && rows[hash].expiresAt.value < clock {
        return None;
      }
      return Some(rows[hash]);
    }

    method PriorEntriesByTask(job: nat, task: string, exclude: string, clock: int) returns (priors: seq<PriorEntry>)
      ensures IsPriorList(rows, job, task, exclude, clock, priors)
    {
      priors := [];
      var keys: seq<string> := [];
      if task == "" {
        assert priors == PriorsOf(rows, keys);
        return;
      }
      var candidates := Candidates(rows, job, task, exclude, clock);
      var rest := candidates;
      while rest != {} && |keys| < MAX_PRIORS
        invariant rest <= candidates && |keys| <= MAX_PRIORS
        invariant NewestFirst(rows, candidates, keys)
        invariant forall h :: h in candidates ==> (h in rest <==> h !in keys)
        invariant forall h, i :: h in rest && 0 <= i < |keys| ==> rows[keys[i]].createdAt >= rows[h].createdAt
        invariant priors == PriorsOf(rows, keys)
        decreases rest
      {
        var h := Newest(rows, rest);
        keys := keys + [h];
        priors := priors + [PriorOf(rows, h)];
        rest := rest - {h};
      }
      assert IsPriorKeys(rows, job, task, exclude, clock, keys);
    }
  }

  /** A hash that is presented in place of a task's own belongs to the most recent live
      entry of that task with the very same output. */
  lemma SubstituteIsNewestEqual(rows: Rows, job: nat, task: string, clock: int, newHash: string, output: Env,
                                priors: seq<PriorEntry>, hash: string)
    requires IsPriorList(rows, job, task, newHash, clock, priors)
    requires IsPresented(newHash, output, priors, hash) && hash != newHash
    ensures IsPrior(rows, job, task, newHash, clock, hash) && rows[hash].cached.output == output
    ensures forall h :: IsPrior(rows, job, task, newHash, clock, h) && h != "" && rows[h].cached.output == output ==>
              rows[h].createdAt <= rows[hash].createdAt
  {
    var keys: seq<string> :| IsPriorKeys(rows, job, task, newHash, clock, keys) && priors == PriorsOf(rows, keys);
    var i: nat :| IsMostRecent(newHash, output, priors, i) && hash == priors[i].hash;
    assert keys[i] in Candidates(rows, job, task, newHash, clock);
    forall h | IsPrior(rows, job, task, newHash, clock, h) && h != "" && rows[h].cached.output == output
      ensures rows[h].createdAt <= rows[hash].createdAt
    {
      assert h in Candidates(rows, job, task, newHash, clock);
      if h in keys {
        var j :| 0 <= j < |keys| && keys[j] == h;
        assert priors[j] == PriorOf(rows, h) && Eligible(newHash, output, priors[j]);
      }
    }
  }

  /** When fewer than 64 priors were found, a task with output keeps its own hash only if no
      live entry of it has that output. */
  lemma OwnHashMeansNoneEqual(rows: Rows, job: nat, task: string, clock: int, newHash: string, output: Env,
                              priors: seq<PriorEntry>, h: string)
    requires IsPriorList(rows, job, task, newHash, clock, priors) && |priors| < MAX_PRIORS
    requires IsPresented(newHash, output, priors, newHash) && Provable(newHash, output)
    requires IsPrior(rows, job, task, newHash, clock, h) && h != "" && task != ""
    ensures rows[h].cached.output != output
  {
    var keys: seq<string> :| IsPriorKeys(rows, job, task, newHash, clock, keys) && priors == PriorsOf(rows, keys);
    assert h in Candidates(rows, job, task, newHash, clock);
    assert h in keys;
    var j :| 0 <= j < |keys| && keys[j] == h;
    assert priors[j] == PriorOf(rows, h);
  }

  // ----- which hash is presented -----

  /** A live entry of the task, other than the task's own, with the very same output. */
  ghost predicate EqualPrior(rows: Rows, job: nat, task: string, newHash: string, clock: int, output: Env, h: string) {
    IsPrior(rows, job, task, newHash, clock, h) && h != "" && rows[h].cached.output == output
  }

  ghost predicate NoTies(rows: Rows, job: nat, task: string, newHash: string, clock: int, output: Env) {
    forall a, b ::
      (&& EqualPrior(rows, job, task, newHash, clock, output, a)
       && EqualPrior(rows, job, task, newHash, clock, output, b)) ==>
        a == b || rows[a].createdAt != rows[b].createdAt
  }

  /** A task is presented under the hash of a given equal entry exactly when that entry is the
      newest equal one, provided the query was not cut off and no two are equally new. */
  lemma PresentsExactlyTheNewest(rows: Rows, job: nat, task: string, clock: int, newHash: string, output: Env,
                                 priors: seq<PriorEntry>, presented: string, g: string)
    requires IsPriorList(rows, job, task, newHash, clock, priors) && |priors| < MAX_PRIORS && task != ""
    requires IsPresented(newHash, output, priors, presented) && Provable(newHash, output)
    requires EqualPrior(rows, job, task, newHash, clock, output, g) && NoTies(rows, job, task, newHash, clock, output)
    ensures presented == g <==>
      forall h :: EqualPrior(rows, job, task, newHash, clock, output, h) ==> rows[h].createdAt <= rows[g].createdAt
  {
    if presented == newHash {
      OwnHashMeansNoneEqual(rows, job, task, clock, newHash, output, priors, g);
      assert false;
    } else {
      SubstituteIsNewestEqual(rows, job, task, clock, newHash, output, priors, presented);
      assert EqualPrior(rows, job, task, newHash, clock, output, presented) by {
        PresentedNotEmpty(newHash, output, priors, presented);
      }
    }
  }

  lemma PresentedNotEmpty(newHash: string, output: Env, priors: seq<PriorEntry>, presented: string)
    requires IsPresented(newHash, output, priors, presented) && presented != newHash
    ensures presented != ""
  {
  }

  /** Of two executions in a row that gave the old output, the second is not presented under
      the hash that the first was presented under: the first has left a newer entry. */
  lemma SecondChangePresentsAnother(rows: Rows, job: nat, task: string, clock: int, newHash: string, output: Env,
                                    priors: seq<PriorEntry>, presented: string, first: string, second: string)
    requires IsPriorList(rows, job, task, newHash, clock, priors) && IsPresented(newHash, output, priors, presented)
    requires EqualPrior(rows, job, task, newHash, clock, output, first)
    requires EqualPrior(rows, job, task, newHash, clock, output, second)
    requires rows[first].createdAt < rows[second].createdAt
    ensures presented != first
  {
    if presented != newHash {
      SubstituteIsNewestEqual(rows, job, task, clock, newHash, output, priors, presented);
    }
  }
}
