/** From the contract graph to a decision: breaking findings in scope are grouped, and in
    fail mode a group blocks unless it is acknowledged or allowed. */
module ContractEnforcement {
  import opened Options
  import opened Strings
  import opened ContractGraph

  /** A finding as it is shown. What kind of finding it was is not kept. */
  datatype ContractFinding = ContractFinding(
    subject: string, producer: string, consumer: string, dataset: string, outputKey: string,
    edge: string, edgeClass: string, path: string, detail: string, verdict: Verdict)

  /** What is hashed of a finding. */
  datatype HashedFinding = HashedFinding(
    edge: string, edgeClass: string, dataset: string, outputKey: string, producer: string, consumer: string,
    path: string, detail: string, verdict: Verdict)

  function Hashed(cf: ContractFinding): HashedFinding {
    HashedFinding(cf.edge, cf.edgeClass, cf.dataset, cf.outputKey, cf.producer, cf.consumer, cf.path, cf.detail,
                  cf.verdict)
  }

  function HashedAll(cfs: seq<ContractFinding>): seq<HashedFinding> {
    seq(|cfs|, i requires 0 <= i < |cfs| => Hashed(cfs[i]))
  }

  /** How a finding of an edge is presented, what groups findings, and how a group is hashed. */
  datatype Rules = Rules(
    present: (Edge, Finding) -> ContractFinding,
    key: ContractFinding -> string,
    digest: (string, seq<ContractFinding>) -> string)

  type Digest = (string, seq<HashedFinding>) -> string

  /** The rules of the source; finding an output key in a finding's text and hashing are
      left open. */
  function RulesFor(outputKey: Finding -> string, digest: Digest): Rules {
    Rules((e: Edge, f: Finding) => FindingFromEdge(outputKey, e, f), GroupKey,
          (subject: string, cfs: seq<ContractFinding>) => digest(subject, HashedAll(cfs)))
  }

  // ----- the findings of a graph -----

  function WithoutJobPrefix(node: string): string {
    var t := Trim(node);
    if "job:" <= t then t[4..] else t
  }

  function SubjectOf(producer: string, dataset: string, outputKey: string): string {
    if dataset != "" then dataset
    else if outputKey != "" then producer + ".output." + outputKey
    else producer + ".contract"
  }

  function FindingFromEdge(keyOf: Finding -> string, e: Edge, f: Finding): ContractFinding {
    var producer, consumer := WithoutJobPrefix(e.source), WithoutJobPrefix(e.target);
    var dataset, outputKey := e.dataset.GetOr(""), keyOf(f);
    ContractFinding(SubjectOf(producer, dataset, outputKey), producer, consumer, dataset, outputKey,
                    EdgeId(e), e.kind, f.path, f.detail, f.verdict)
  }

  predicate InScope(aliases: Option<set<string>>, cf: ContractFinding) {
    aliases.None? || Trim(cf.producer) in aliases.value || Trim(cf.consumer) in aliases.value
  }

  predicate IsBreakingIn(rules: Rules, aliases: Option<set<string>>, e: Edge, f: Finding) {
    e.verdict.Breaking? && f.verdict.Breaking? && InScope(aliases, rules.present(e, f))
  }

  function BreakingOfEdge(rules: Rules, aliases: Option<set<string>>, e: Edge, fs: seq<Finding>): seq<ContractFinding> {
    if fs == [] then []
    else
      BreakingOfEdge(rules, aliases, e, fs[..|fs| - 1])
      + if IsBreakingIn(rules, aliases, e, fs[|fs| - 1]) then [rules.present(e, fs[|fs| - 1])] else []
  }

  /** All breaking findings of the graph that are in scope. */
  function AllBreaking(rules: Rules, aliases: Option<set<string>>, graph: seq<Edge>): seq<ContractFinding> {
    if graph == [] then []
    else AllBreaking(rules, aliases, graph[..|graph| - 1])
         + BreakingOfEdge(rules, aliases, graph[|graph| - 1], graph[|graph| - 1].findings)
  }

  lemma {:induction false} InBreakingOfEdge(rules: Rules, aliases: Option<set<string>>, e: Edge, fs: seq<Finding>,
                                            cf: ContractFinding)
    ensures cf in BreakingOfEdge(rules, aliases, e, fs) <==>
              exists i :: 0 <= i < |fs| && IsBreakingIn(rules, aliases, e, fs[i]) && cf == rules.present(e, fs[i])
  {
    if fs != [] {
      InBreakingOfEdge(rules, aliases, e, fs[..|fs| - 1], cf);
      assert forall i :: 0 <= i < |fs| - 1 ==> fs[..|fs| - 1][i] == fs[i];
    }
  }

  /** A breaking finding on a breaking edge counts exactly when it is in scope. */
  lemma {:induction false} InAllBreaking(rules: Rules, aliases: Option<set<string>>, graph: seq<Edge>,
                                         cf: ContractFinding)
    ensures cf in AllBreaking(rules, aliases, graph) <==>
              exists i, j :: 0 <= i < |graph| && 0 <= j < |graph[i].findings|
                && graph[i].verdict == Breaking && graph[i].findings[j].verdict == Breaking
                && cf == rules.present(graph[i], graph[i].findings[j])
                && (aliases == None || Trim(cf.producer) in aliases.value || Trim(cf.consumer) in aliases.value)
  {
    if graph != [] {
      var front, e := graph[..|graph| - 1], graph[|graph| - 1];
      InAllBreaking(rules, aliases, front, cf);
      InBreakingOfEdge(rules, aliases, e, e.findings, cf);
      assert forall i :: 0 <= i < |front| ==> front[i] == graph[i];
    }
  }

  // ----- groups -----

  function GroupKey(cf: ContractFinding): string {
    cf.producer + "\0" + cf.subject
  }

  /** The findings of one group, in order. */
  function WithKey(key: ContractFinding -> string, cfs: seq<ContractFinding>, k: string): seq<ContractFinding> {
    if cfs == [] then []
    else WithKey(key, cfs[..|cfs| - 1], k) + if key(cfs[|cfs| - 1]) == k then [cfs[|cfs| - 1]] else []
  }

  type Groups = map<string, seq<ContractFinding>>

  /** The groups partition the findings: one group for each key that occurs, holding exactly
      the findings of that key. */
  ghost predicate Partitions(key: ContractFinding -> string, groups: Groups, cfs: seq<ContractFinding>) {
    && (forall k :: k in groups ==> groups[k] == WithKey(key, cfs, k))
    && (forall k :: k !in groups ==> WithKey(key, cfs, k) == [])
    && (forall k :: k in groups ==> groups[k] != [])
  }

  function AddToGroup(groups: Groups, k: string, cf: ContractFinding): Groups {
    groups[k := (if k in groups then groups[k] else []) + [cf]]
  }

  lemma {:induction false} WithKeyCount(key: ContractFinding -> string, cfs: seq<ContractFinding>, k: string,
                                        cf: ContractFinding)
    ensures multiset(WithKey(key, cfs, k))[cf] == if key(cf) == k then multiset(cfs)[cf] else 0
  {
    if cfs != [] {
      WithKeyCount(key, cfs[..|cfs| - 1], k, cf);
      assert cfs == cfs[..|cfs| - 1] + [cfs[|cfs| - 1]];
    }
  }

  /** One more finding of an edge. */
  lemma BreakingStep(rules: Rules, aliases: Option<set<string>>, e: Edge, fs: seq<Finding>, i: nat,
                     before: seq<ContractFinding>)
    requires i < |fs|
    ensures before + BreakingOfEdge(rules, aliases, e, fs[..i + 1])
         == before + BreakingOfEdge(rules, aliases, e, fs[..i]) + if IsBreakingIn(rules, aliases, e, fs[i])
           then [rules.present(e, fs[i])] else []
  {
    assert fs[..i + 1][..i] == fs[..i];
  }

  method GroupEdge(rules: Rules, aliases: Option<set<string>>, e: Edge, groups: Groups,
                   ghost before: seq<ContractFinding>)
    returns (groups': Groups)
    requires Partitions(rules.key, groups, before)
    ensures Partitions(rules.key, groups', before + BreakingOfEdge(rules, aliases, e, e.findings))
  {
    groups' := groups;
    var fs := e.findings;
    ghost var soFar := before;
    assert before + BreakingOfEdge(rules, aliases, e, fs[..0]) == before;
    for i := 0 to |fs|
      invariant Partitions(rules.key, groups', soFar) && soFar == before + BreakingOfEdge(rules, aliases, e, fs[..i])
    {
      BreakingStep(rules, aliases, e, fs, i, before);
      if !e.verdict.Breaking? || !fs[i].verdict.Breaking? {
        continue;
      }
      var cf := rules.present(e, fs[i]);
      if !InScope(aliases, cf) {
        continue;
      }
      soFar := soFar + [cf];
      groups' := AddToGroup(groups', rules.key(cf), cf);
    }
    assert fs[..|fs|] == fs;
  }

  method BreakingGroups(rules: Rules, aliases: Option<set<string>>, graph: seq<Edge>) returns (groups: Groups)
    ensures Partitions(rules.key, groups, AllBreaking(rules, aliases, graph))
  {
    groups := map[];
    for i := 0 to |graph|
      invariant Partitions(rules.key, groups, AllBreaking(rules, aliases, graph[..i]))
    {
      assert graph[..i + 1][..i] == graph[..i];
      groups := GroupEdge(rules, aliases, graph[i], groups, AllBreaking(rules, aliases, graph[..i]));
    }
    assert graph[..|graph|] == graph;
  }

  // ----- acknowledgements -----

  datatype Ack = Ack(digest: string, expiresAt: int)

  datatype Allow = Allow(dataset: string)

  function DatasetOf(group: seq<ContractFinding>): string {
    if group == [] then ""
    else if Trim(group[0].dataset) != "" then Trim(group[0].dataset)
    else DatasetOf(group[1..])
  }

  /** A dataset without a namespace is shown without the leading slash. */
  function Displayed(dataset: string): string {
    var d := Trim(dataset);
    if d != "" && d[0] == '/' && '/' !in d[1..] then d[1..] else d
  }

  /** A group has the subject of its first finding. */
  function SubjectOfGroup(group: seq<ContractFinding>): string {
    if group == [] then "" else group[0].subject
  }

  predicate AllowMatches(allow: Option<Allow>, group: seq<ContractFinding>) {
    allow.Some? && Trim(allow.value.dataset) != ""
    && Trim(allow.value.dataset) in
         [Trim(SubjectOfGroup(group)), Trim(DatasetOf(group)), Trim(Displayed(DatasetOf(group)))]
  }

  predicate Live(acks: set<Ack>, digest: string, now: int) {
    exists a :: a in acks && a.digest == digest && a.expiresAt > now
  }

  function DigestOf(rules: Rules, group: seq<ContractFinding>): string {
    rules.digest(SubjectOfGroup(group), group)
  }

  /** The group does not block. */
  predicate Excused(rules: Rules, acks: set<Ack>, allow: Option<Allow>, now: int, group: seq<ContractFinding>) {
    Live(acks, DigestOf(rules, group), now) || AllowMatches(allow, group)
  }

  /** The findings of the groups that are not excused. */
  function Unexcused(rules: Rules, acks: set<Ack>, allow: Option<Allow>, now: int, groups: Groups,
                     keys: seq<string>): seq<ContractFinding>
    requires forall i :: 0 <= i < |keys| ==> keys[i] in groups
  {
    if keys == [] then []
    else
      var k := keys[|keys| - 1];
      Unexcused(rules, acks, allow, now, groups, keys[..|keys| - 1])
      + if Excused(rules, acks, allow, now, groups[k]) then [] else groups[k]
  }

  datatype Decision =
    | Passed
    | NoMatch
    | Blocked(findings: seq<ContractFinding>)

  /** Different groups have different digests. */
  ghost predicate DistinctDigests(rules: Rules, groups: Groups) {
    forall j, k :: j in groups && k in groups && DigestOf(rules, groups[j]) == DigestOf(rules, groups[k]) ==> j == k
  }

  /** The digest tells lists of hashed findings apart, up to their order. */
  ghost predicate CollisionFree(digest: Digest) {
    forall s, a, t, b :: digest(s, a) == digest(t, b) ==> multiset(a) == multiset(b)
  }

  /** Findings that are hashed alike belong to one group. */
  ghost predicate HashDecidesGroup(rules: Rules, cfs: seq<ContractFinding>) {
    forall a, b :: a in cfs && b in cfs && Hashed(a) == Hashed(b) ==> rules.key(a) == rules.key(b)
  }

  /** The subject, though hashed only once for the group, follows from what is hashed. */
  lemma {:induction false} PresentedSubjects(outputKey: Finding -> string, digest: Digest, aliases: Option<set<string>>,
                                             graph: seq<Edge>)
    ensures HashDecidesGroup(RulesFor(outputKey, digest), AllBreaking(RulesFor(outputKey, digest), aliases, graph))
  {
    var rules := RulesFor(outputKey, digest);
    var cfs := AllBreaking(rules, aliases, graph);
    forall a, b | a in cfs && b in cfs && Hashed(a) == Hashed(b) ensures rules.key(a) == rules.key(b) {
      InAllBreaking(rules, aliases, graph, a);
      InAllBreaking(rules, aliases, graph, b);
      assert a.subject == SubjectOf(a.producer, a.dataset, a.outputKey);
      assert b.subject == SubjectOf(b.producer, b.dataset, b.outputKey);
    }
  }

  lemma HashedAmong(cfs: seq<ContractFinding>, h: HashedFinding) returns (i: nat)
    requires h in multiset(HashedAll(cfs))
    ensures i < |cfs| && Hashed(cfs[i]) == h
  {
    i :| 0 <= i < |HashedAll(cfs)| && HashedAll(cfs)[i] == h;
  }

  /** A group holds findings of its key. */
  lemma InGroup(rules: Rules, groups: Groups, cfs: seq<ContractFinding>, k: string, cf: ContractFinding)
    requires Partitions(rules.key, groups, cfs) && k in groups && cf in groups[k]
    ensures cf in cfs && rules.key(cf) == k
  {
    assert cf in multiset(groups[k]);
    WithKeyCount(rules.key, cfs, k, cf);
    assert cf in multiset(cfs);
  }

  /** A digest without collisions tells the groups apart, although it leaves out the kind of a
      finding and takes the subject of the first one only. */
  lemma DigestsAreDistinct(outputKey: Finding -> string, digest: Digest, rules: Rules, groups: Groups,
                           cfs: seq<ContractFinding>)
    requires rules == RulesFor(outputKey, digest) && CollisionFree(digest)
    requires Partitions(rules.key, groups, cfs) && HashDecidesGroup(rules, cfs)
    ensures DistinctDigests(rules, groups)
  {
    forall j, k | j in groups && k in groups && DigestOf(rules, groups[j]) == DigestOf(rules, groups[k])
      ensures j == k
    {
      var cf := groups[j][0];
      assert HashedAll(groups[j])[0] == Hashed(cf);
      assert Hashed(cf) in multiset(HashedAll(groups[j]));
      assert multiset(HashedAll(groups[j])) == multiset(HashedAll(groups[k]));
      var i := HashedAmong(groups[k], Hashed(cf));
      InGroup(rules, groups, cfs, j, cf);
      InGroup(rules, groups, cfs, k, groups[k][i]);
    }
  }

  /** A group that is allowed and has no live acknowledgement is granted one. */
  predicate Grants(rules: Rules, acks: set<Ack>, allow: Option<Allow>, now: int, group: seq<ContractFinding>) {
    !Live(acks, DigestOf(rules, group), now) && AllowMatches(allow, group)
  }

  function Granted(rules: Rules, groups: Groups, acks: set<Ack>, allow: Option<Allow>, window: int, now: int,
                   keys: seq<string>): set<Ack> {
    set k | k in keys && k in groups && Grants(rules, acks, allow, now, groups[k])
      :: Ack(DigestOf(rules, groups[k]), now + window)
  }

  lemma GrantedStep(rules: Rules, groups: Groups, acks: set<Ack>, allow: Option<Allow>, window: int, now: int,
                    ks: seq<string>, i: nat)
    requires i < |ks| && ks[i] in groups
    ensures Granted(rules, groups, acks, allow, window, now, ks[..i + 1])
         == Granted(rules, groups, acks, allow, window, now, ks[..i])
            + if Grants(rules, acks, allow, now, groups[ks[i]])
              then {Ack(DigestOf(rules, groups[ks[i]]), now + window)} else {}
  {
    assert ks[..i + 1] == ks[..i] + [ks[i]];
  }

  /** With distinct digests, what was granted to earlier groups does not excuse this one. */
  lemma StillLive(rules: Rules, groups: Groups, acks: set<Ack>, allow: Option<Allow>, window: int, now: int,
                  ks: seq<string>, i: nat)
    requires DistinctDigests(rules, groups) && i < |ks| && forall j :: 0 <= j < |ks| ==> ks[j] in groups
    requires forall j, k :: 0 <= j < k < |ks| ==> ks[j] != ks[k]
    ensures var d := DigestOf(rules, groups[ks[i]]);
      Live(acks + Granted(rules, groups, acks, allow, window, now, ks[..i]), d, now) <==> Live(acks, d, now)
  {
    var d := DigestOf(rules, groups[ks[i]]);
    forall a | a in Granted(rules, groups, acks, allow, window, now, ks[..i]) ensures a.digest != d {
      var k :| k in ks[..i] && k in groups && a == Ack(DigestOf(rules, groups[k]), now + window);
    }
    if a :| a in acks && a.digest == d && a.expiresAt > now {
      assert a in acks + Granted(rules, groups, acks, allow, window, now, ks[..i]);
    }
  }

  /** Where fail mode stands after some of the groups. */
  ghost predicate Progress(rules: Rules, groups: Groups, acks: set<Ack>, allow: Option<Allow>, window: int, now: int,
                           ks: seq<string>, i: nat, acks': set<Ack>, blocked: seq<ContractFinding>, matched: bool)
    requires i <= |ks| && forall j :: 0 <= j < |ks| ==> ks[j] in groups
  {
    && acks' == acks + Granted(rules, groups, acks, allow, window, now, ks[..i])
    && blocked == Unexcused(rules, acks, allow, now, groups, ks[..i])
    && (matched <==> exists j :: 0 <= j < i && AllowMatches(allow, groups[ks[j]]))
  }

  lemma UnexcusedStep(rules: Rules, acks: set<Ack>, allow: Option<Allow>, now: int, groups: Groups, ks: seq<string>,
                      i: nat)
    requires i < |ks| && forall j :: 0 <= j < |ks| ==> ks[j] in groups
    ensures Unexcused(rules, acks, allow, now, groups, ks[..i + 1])
         == Unexcused(rules, acks, allow, now, groups, ks[..i]) + if Excused(rules, acks, allow, now, groups[ks[i]])
           then [] else groups[ks[i]]
  {
    assert ks[..i + 1][..i] == ks[..i];
  }

  /** One group: acknowledged, allowed or blocking. */
  method Turn(rules: Rules, groups: Groups, ghost acks: set<Ack>, allow: Option<Allow>, window: int, now: int,
              ks: seq<string>, i: nat,
              acksNow: set<Ack>, blocked: seq<ContractFinding>, matched: bool)
    returns (acks': set<Ack>, blocked': seq<ContractFinding>, matched': bool)
    requires DistinctDigests(rules, groups) && i < |ks| && forall j :: 0 <= j < |ks| ==> ks[j] in groups
    requires forall j, k :: 0 <= j < k < |ks| ==> ks[j] != ks[k]
    requires Progress(rules, groups, acks, allow, window, now, ks, i, acksNow, blocked, matched)
    ensures Progress(rules, groups, acks, allow, window, now, ks, i + 1, acks', blocked', matched')
  {
    var group := groups[ks[i]];
    acks', blocked', matched' := acksNow, blocked, matched;
    UnexcusedStep(rules, acks, allow, now, groups, ks, i);
    GrantedStep(rules, groups, acks, allow, window, now, ks, i);
    StillLive(rules, groups, acks, allow, window, now, ks, i);
    if Live(acksNow, DigestOf(rules, group), now) {
      if AllowMatches(allow, group) {
        matched' := true;
      }
      return;
    }
    if AllowMatches(allow, group) {
      matched' := true;
      acks' := acksNow + {Ack(DigestOf(rules, group), now + window)};
      return;
    }
    blocked' := blocked + group;
  }

  /** Fail mode. Acknowledgements that it grants count from then on, but with distinct digests
      they excuse no other group. */
  method EvaluateFailMode(rules: Rules, groups: Groups, acks: set<Ack>, allow: Option<Allow>, suppressNoMatch: bool,
                          window: int, now: int)
    returns (decision: Decision, acks': set<Ack>, ghost keys: seq<string>)
    requires DistinctDigests(rules, groups)
    ensures keys == SortedSet(groups.Keys) && forall i :: 0 <= i < |keys| ==> keys[i] in groups
    ensures var blocked := Unexcused(rules, acks, allow, now, groups, keys);
      if blocked != [] then decision == Blocked(blocked)
      else if groups != map[] && allow.Some? && !suppressNoMatch && forall i :: 0 <= i < |keys| ==>
        !AllowMatches(allow, groups[keys[i]])
      then decision == NoMatch
      else decision == Passed
    ensures acks' == acks + Granted(rules, groups, acks, allow, window, now, keys)
  {
    acks' := acks;
    var ks := KeysOf(groups);
    keys := ks;
    var blocked: seq<ContractFinding>, matched := [], false;
    if |groups| == 0 {
      assert groups.Keys == {};
      return Passed, acks', keys;
    }
    for i := 0 to |ks|
      invariant Progress(rules, groups, acks, allow, window, now, ks, i, acks', blocked, matched)
    {
      acks', blocked, matched := Turn(rules, groups, acks, allow, window, now, ks, i, acks', blocked, matched);
    }
    assert ks[..|ks|] == ks;
    if blocked == [] {
      if allow.Some? && !matched && !suppressNoMatch {
        return NoMatch, acks', keys;
      }
      return Passed, acks', keys;
    }
    return Blocked(blocked), acks', keys;
  }

  method KeysOf(groups: Groups) returns (ks: seq<string>)
    ensures ks == SortedSet(groups.Keys) && forall i :: 0 <= i < |ks| ==> ks[i] in groups
    ensures forall j, k :: 0 <= j < k < |ks| ==> ks[j] != ks[k]
    ensures groups.Keys == {} ==> ks == []
  {
    ks := SortedKeys(groups.Keys);
    if ks != [] { assert ks[0] in groups.Keys; }
  }

  // ----- exactly the unexcused -----

  lemma LastOnlyOnce(keys: seq<string>, x: string)
    requires keys != [] && forall i, j :: 0 <= i < j < |keys| ==> keys[i] != keys[j]
    ensures x in keys <==> x in keys[..|keys| - 1] || x == keys[|keys| - 1]
    ensures x == keys[|keys| - 1] ==> x !in keys[..|keys| - 1]
  {
  }

  lemma {:induction false} UnexcusedCount(rules: Rules, acks: set<Ack>, allow: Option<Allow>, now: int, groups: Groups,
                                          cfs: seq<ContractFinding>, keys: seq<string>, cf: ContractFinding)
    requires Partitions(rules.key, groups, cfs)
    requires forall i :: 0 <= i < |keys| ==> keys[i] in groups
    requires forall i, j :: 0 <= i < j < |keys| ==> keys[i] != keys[j]
    ensures multiset(Unexcused(rules, acks, allow, now, groups, keys))[cf]
         == if rules.key(cf) in keys && !Excused(rules, acks, allow, now, groups[rules.key(cf)]) then multiset(cfs)[cf]
           else 0
  {
    if keys != [] {
      var front, k := keys[..|keys| - 1], keys[|keys| - 1];
      UnexcusedCount(rules, acks, allow, now, groups, cfs, front, cf);
      WithKeyCount(rules.key, cfs, k, cf);
      LastOnlyOnce(keys, rules.key(cf));
      var rest := Unexcused(rules, acks, allow, now, groups, front);
      var last := if Excused(rules, acks, allow, now, groups[k]) then [] else groups[k];
      assert multiset(rest + last)[cf] == multiset(rest)[cf] + multiset(last)[cf];
    }
  }

  /** Fail mode blocks exactly the breaking findings in scope whose group has neither a live
      acknowledgement nor a matching allowance, each as often as it occurs. */
  lemma BlockedExactly(rules: Rules, acks: set<Ack>, allow: Option<Allow>, now: int, groups: Groups,
                       cfs: seq<ContractFinding>, cf: ContractFinding)
    requires Partitions(rules.key, groups, cfs)
    requires forall i :: 0 <= i < |SortedSet(groups.Keys)| ==> SortedSet(groups.Keys)[i] in groups
    ensures multiset(Unexcused(rules, acks, allow, now, groups, SortedSet(groups.Keys)))[cf]
         == if cf in cfs && !Excused(rules, acks, allow, now, WithKey(rules.key, cfs, rules.key(cf)))
           then multiset(cfs)[cf] else 0
  {
    var k := rules.key(cf);
    InSortedSet(groups.Keys);
    SortedSetIsSorted(groups.Keys);
    ListedOnce(groups.Keys, SortedSet(groups.Keys));
    UnexcusedCount(rules, acks, allow, now, groups, cfs, SortedSet(groups.Keys), cf);
    WithKeyCount(rules.key, cfs, k, cf);
    assert cf in cfs <==> cf in multiset(cfs);
  }

  datatype Mode = Off | Warn | Fail

  /** The group of a finding is excused. */
  ghost predicate ExcusedIn(rules: Rules, acks: set<Ack>, allow: Option<Allow>, now: int, cfs: seq<ContractFinding>,
                            cf: ContractFinding) {
    Excused(rules, acks, allow, now, WithKey(rules.key, cfs, rules.key(cf)))
  }

  /** What fail mode decides: it blocks exactly the breaking findings in scope whose group is
      not excused, each as often as it occurs. */
  ghost predicate BlocksExactly(rules: Rules, acks: set<Ack>, allow: Option<Allow>, now: int, cfs: seq<ContractFinding>,
                                decision: Decision) {
    && (decision.Blocked? <==> exists cf :: cf in cfs && !ExcusedIn(rules, acks, allow, now, cfs, cf))
    && (decision.Blocked? ==> forall cf ::
          multiset(decision.findings)[cf] == if cf in cfs && !ExcusedIn(rules, acks, allow, now, cfs, cf)
            then multiset(cfs)[cf] else 0)
  }

  /** The acknowledgement is the one that the group of the finding is granted. */
  ghost predicate GrantedFor(rules: Rules, acks: set<Ack>, allow: Option<Allow>, window: int, now: int,
                             cfs: seq<ContractFinding>, cf: ContractFinding, a: Ack) {
    var group := WithKey(rules.key, cfs, rules.key(cf));
    Grants(rules, acks, allow, now, group) && a == Ack(DigestOf(rules, group), now + window)
  }

  /** The acknowledgements afterwards: those before, and one for each group that was allowed and
      had no live one, for the length of the window. */
  ghost predicate GrantsExactly(rules: Rules, acks: set<Ack>, allow: Option<Allow>, window: int, now: int,
                                cfs: seq<ContractFinding>, acks': set<Ack>) {
    forall a :: a in acks' <==>
      a in acks || exists cf :: cf in cfs && GrantedFor(rules, acks, allow, window, now, cfs, cf, a)
  }

  /** The whole evaluation of a graph. */
  method EvaluateGraph(outputKey: Finding -> string, digest: Digest, aliases: Option<set<string>>, graph: seq<Edge>,
                       mode: Mode,
                       acks: set<Ack>, allow: Option<Allow>, suppressNoMatch: bool, window: int, now: int)
    returns (decision: Decision, acks': set<Ack>)
    requires CollisionFree(digest)
    ensures !mode.Fail? ==> decision == Passed && acks' == acks
    ensures var rules := RulesFor(outputKey, digest);
      mode.Fail? ==>
        && BlocksExactly(rules, acks, allow, now, AllBreaking(rules, aliases, graph), decision)
        && GrantsExactly(rules, acks, allow, window, now, AllBreaking(rules, aliases, graph), acks')
  {
    if !mode.Fail? {
      return Passed, acks;
    }
    var rules := RulesFor(outputKey, digest);
    var groups := BreakingGroups(rules, aliases, graph);
    ghost var cfs := AllBreaking(rules, aliases, graph);
    PresentedSubjects(outputKey, digest, aliases, graph);
    DigestsAreDistinct(outputKey, digest, rules, groups, cfs);
    decision, acks' := BlockGroups(rules, groups, cfs, acks, allow, suppressNoMatch, window, now);
  }

  method BlockGroups(rules: Rules, groups: Groups, ghost cfs: seq<ContractFinding>, acks: set<Ack>,
                     allow: Option<Allow>,
                     suppressNoMatch: bool, window: int, now: int)
    returns (decision: Decision, acks': set<Ack>)
    requires Partitions(rules.key, groups, cfs) && DistinctDigests(rules, groups)
    ensures BlocksExactly(rules, acks, allow, now, cfs, decision)
    ensures GrantsExactly(rules, acks, allow, window, now, cfs, acks')
  {
    ghost var keys: seq<string>;
    decision, acks', keys := EvaluateFailMode(rules, groups, acks, allow, suppressNoMatch, window, now);
    BlockedAll(rules, acks, allow, now, groups, cfs);
    GrantedAll(rules, groups, cfs, acks, allow, window, now);
  }

  lemma GrantedAll(rules: Rules, groups: Groups, cfs: seq<ContractFinding>, acks: set<Ack>, allow: Option<Allow>,
                   window: int, now: int)
    requires Partitions(rules.key, groups, cfs)
    ensures GrantsExactly(rules, acks, allow, window, now, cfs,
                          acks + Granted(rules, groups, acks, allow, window, now, SortedSet(groups.Keys)))
  {
    var granted := Granted(rules, groups, acks, allow, window, now, SortedSet(groups.Keys));
    InSortedSet(groups.Keys);
    forall a | a in granted ensures exists cf :: cf in cfs && GrantedFor(rules, acks, allow, window, now, cfs, cf, a) {
      var k :| k in groups && Grants(rules, acks, allow, now, groups[k])
               && a == Ack(DigestOf(rules, groups[k]), now + window);
      InGroup(rules, groups, cfs, k, groups[k][0]);
      assert GrantedFor(rules, acks, allow, window, now, cfs, groups[k][0], a);
    }
    forall cf, a | cf in cfs && GrantedFor(rules, acks, allow, window, now, cfs, cf, a) ensures a in granted {
      var k := rules.key(cf);
      WithKeyCount(rules.key, cfs, k, cf);
      assert cf in multiset(cfs) && cf in multiset(WithKey(rules.key, cfs, k));
      assert k in groups && groups[k] == WithKey(rules.key, cfs, k);
    }
  }

  lemma BlockedAll(rules: Rules, acks: set<Ack>, allow: Option<Allow>, now: int, groups: Groups,
                   cfs: seq<ContractFinding>)
    requires Partitions(rules.key, groups, cfs)
    requires forall i :: 0 <= i < |SortedSet(groups.Keys)| ==> SortedSet(groups.Keys)[i] in groups
    ensures var blocked := Unexcused(rules, acks, allow, now, groups, SortedSet(groups.Keys));
      && (forall cf :: multiset(blocked)[cf]
                       == if cf in cfs && !ExcusedIn(rules, acks, allow, now, cfs, cf) then multiset(cfs)[cf] else 0)
      && (blocked != [] <==> exists cf :: cf in cfs && !ExcusedIn(rules, acks, allow, now, cfs, cf))
  {
    var blocked := Unexcused(rules, acks, allow, now, groups, SortedSet(groups.Keys));
    forall cf
      ensures multiset(blocked)[cf] == if cf in cfs && !ExcusedIn(rules, acks, allow, now, cfs, cf)
        then multiset(cfs)[cf] else 0
    {
      BlockedExactly(rules, acks, allow, now, groups, cfs, cf);
    }
    if blocked != [] {
      assert blocked[0] in multiset(blocked);
      assert blocked[0] in cfs && !ExcusedIn(rules, acks, allow, now, cfs, blocked[0]);
    }
    if cf :| cf in cfs && !ExcusedIn(rules, acks, allow, now, cfs, cf) {
      assert cf in multiset(cfs) && cf in multiset(blocked);
    }
  }

  lemma BlockedListed(rules: Rules, acks: set<Ack>, allow: Option<Allow>, now: int, cfs: seq<ContractFinding>,
                      decision: Decision, cf: ContractFinding)
    requires BlocksExactly(rules, acks, allow, now, cfs, decision)
    ensures cf in cfs && !ExcusedIn(rules, acks, allow, now, cfs, cf) <==>
      decision.Blocked? && cf in decision.findings
  {
    if cf in cfs && !ExcusedIn(rules, acks, allow, now, cfs, cf) {
      assert cf in multiset(cfs);
      assert cf in multiset(decision.findings);
    }
    if decision.Blocked? && cf in decision.findings {
      assert cf in multiset(decision.findings);
    }
  }
}
