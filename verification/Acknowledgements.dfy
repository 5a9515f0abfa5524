/** What excuses a group of breaking findings, and for how long. */
module Acknowledgements {
  import opened Options
  import opened Strings
  import opened ContractGraph
  import opened ContractEnforcement

  /** A group is excused by an acknowledgement of its digest that has not expired, or by an
      allowance that names its subject or its dataset, with or without the leading slash. */
  lemma ExcusedExactlyWhen(rules: Rules, acks: set<Ack>, allow: Option<Allow>, now: int, group: seq<ContractFinding>)
    requires group != []
    ensures Excused(rules, acks, allow, now, group) <==>
      || (exists a :: a in acks && a.digest == rules.digest(group[0].subject, group) && now < a.expiresAt)
      || (allow.Some? && Trim(allow.value.dataset) != ""
          && Trim(allow.value.dataset) in {Trim(group[0].subject), Trim(DatasetOf(group)),
                                           Trim(Displayed(DatasetOf(group)))})
  {
  }

  /** The dataset of a group is that of its first finding that has one. */
  lemma {:induction false} DatasetOfGroup(group: seq<ContractFinding>, i: nat)
    requires i < |group| && Trim(group[i].dataset) != ""
    requires forall j :: 0 <= j < i ==> Trim(group[j].dataset) == ""
    ensures DatasetOf(group) == Trim(group[i].dataset)
  {
    if i > 0 {
      assert group[1..][i - 1] == group[i] && forall j :: 0 <= j < i - 1 ==> group[1..][j] == group[j + 1];
      DatasetOfGroup(group[1..], i - 1);
    }
  }

  /** A dataset key is shown with its namespace, if it has one. */
  lemma ShownWithNamespace(namespace: string, name: string)
    requires '/' !in name && Trim(namespace + "/" + name) == namespace + "/" + name
    ensures Displayed(namespace + "/" + name) == if namespace == "" then name else namespace + "/" + name
  {
    var key := namespace + "/" + name;
    if namespace == "" {
      assert key[0] == '/' && key[1..] == name;
    } else {
      assert key[|namespace|] == '/' && key[0] == namespace[0];
      assert key[1..][|namespace| - 1] == '/';
    }
  }

  /** A name without a slash is shown as it is. */
  lemma ShownPlain(name: string)
    requires Trim(name) == name && '/' !in name
    ensures Displayed(name) == name
  {
  }

  /** A finding is shown under the aliases of its edge's ends, with its own path and detail; its
      subject is the dataset, or else what its output key or its producer is called. */
  lemma FindingShows(outputKey: Finding -> string, digest: Digest, e: Edge, f: Finding, a: string, b: string)
    requires Trim(e.source) == "job:" + a && Trim(e.target) == "job:" + b
    ensures var shown := RulesFor(outputKey, digest).present(e, f);
      && shown.producer == a && shown.consumer == b && shown.outputKey == outputKey(f)
      && shown.dataset == (if e.dataset.Some? then e.dataset.value else "")
      && shown.path == f.path && shown.detail == f.detail && shown.verdict == f.verdict
      && (shown.dataset != "" ==> shown.subject == shown.dataset)
      && (shown.dataset == "" && outputKey(f) != "" ==> shown.subject == a + ".output." + outputKey(f))
      && (shown.dataset == "" && outputKey(f) == "" ==> shown.subject == a + ".contract")
  {
    assert ("job:" + a)[4..] == a && ("job:" + b)[4..] == b;
  }

  /** An allowance excuses a group, though it is not repeated, for as long as the window says: what
      was granted counts before its end and not from then on. */
  lemma AllowanceLasts(rules: Rules, acks: set<Ack>, allow: Option<Allow>, window: int, now: int,
                       cfs: seq<ContractFinding>, acks': set<Ack>, cf: ContractFinding, later: int)
    requires GrantsExactly(rules, acks, allow, window, now, cfs, acks') && cf in cfs
    requires ExcusedIn(rules, acks, allow, now, cfs, cf) && !ExcusedIn(rules, acks, None, now, cfs, cf)
    ensures ExcusedIn(rules, acks', None, later, cfs, cf) <==>
      later < now + window || ExcusedIn(rules, acks, None, later, cfs, cf)
  {
    var group := WithKey(rules.key, cfs, rules.key(cf));
    var mine := Ack(DigestOf(rules, group), now + window);
    assert GrantedFor(rules, acks, allow, window, now, cfs, cf, mine);
    assert mine in acks';
    if a :| a in acks && a.digest == mine.digest && a.expiresAt > later { assert a in acks'; }
  }

  /** A group that has a live acknowledgement is not granted another, allowed or not. */
  lemma AcknowledgedGetsNoMore(rules: Rules, acks: set<Ack>, allow: Option<Allow>, window: int, now: int,
                               cfs: seq<ContractFinding>, acks': set<Ack>, cf: ContractFinding, a: Ack)
    requires GrantsExactly(rules, acks, allow, window, now, cfs, acks') && cf in cfs
    requires ExcusedIn(rules, acks, None, now, cfs, cf)
    requires a in acks' && a.digest == DigestOf(rules, WithKey(rules.key, cfs, rules.key(cf)))
    ensures a in acks
  {
  }

  /** Acknowledgements are never withdrawn. */
  lemma AcknowledgementsStay(rules: Rules, acks: set<Ack>, allow: Option<Allow>, window: int, now: int,
                             cfs: seq<ContractFinding>, acks': set<Ack>)
    requires GrantsExactly(rules, acks, allow, window, now, cfs, acks')
    ensures acks <= acks' && (allow == None ==> acks' == acks)
  {
  }
}
