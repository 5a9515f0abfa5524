/** The value-verified short-circuit: a task that ran again under a new identity but gave
    the output of an earlier execution is shown to its successors under that earlier
    identity. */
module ShortCircuit {
  import opened HashPreimage

  datatype PriorEntry = PriorEntry(hash: string, output: Env, createdAt: int)

  /** The prior proves that its identity gave the same output. */
  predicate Eligible(newHash: string, output: Env, p: PriorEntry) {
    p.hash != "" && p.hash != newHash && p.output == output
  }

  /** Whether there is anything to prove equality with. */
  predicate Provable(newHash: string, output: Env) {
    newHash != "" && output != map[]
  }

  /** The i-th prior is eligible, no eligible prior is newer, and of equally new ones it is
      the last. */
  ghost predicate IsMostRecent(newHash: string, output: Env, priors: seq<PriorEntry>, i: nat) {
    && i < |priors| && Eligible(newHash, output, priors[i])
    && forall j :: 0 <= j < |priors| && Eligible(newHash, output, priors[j]) ==>
         priors[j].createdAt < priors[i].createdAt || (priors[j].createdAt == priors[i].createdAt && j <= i)
  }

  ghost predicate NoneEligible(newHash: string, output: Env, priors: seq<PriorEntry>) {
    forall j :: 0 <= j < |priors| ==> !Eligible(newHash, output, priors[j])
  }

  /** The identity under which a task is presented: that of its most recent equal prior, or
      its own if equality cannot be proved. */
  ghost predicate IsPresented(newHash: string, output: Env, priors: seq<PriorEntry>, hash: string) {
    if Provable(newHash, output) && !NoneEligible(newHash, output, priors)
    then exists i: nat :: IsMostRecent(newHash, output, priors, i) && hash == priors[i].hash
    else hash == newHash
  }

  lemma PresentedUnique(newHash: string, output: Env, priors: seq<PriorEntry>, a: string, b: string)
    requires IsPresented(newHash, output, priors, a) && IsPresented(newHash, output, priors, b)
    ensures a == b
  {
    if Provable(newHash, output) && !NoneEligible(newHash, output, priors) {
      var i: nat :| IsMostRecent(newHash, output, priors, i) && a == priors[i].hash;
      var j: nat :| IsMostRecent(newHash, output, priors, j) && b == priors[j].hash;
    }
  }

  /** Whether two output maps are equal, key by key. */
  method MapsEqual(a: Env, b: Env) returns (equal: bool)
    ensures equal <==> a == b
  {
    if |a| != |b| {
      return false;
    }
    var rest := a.Keys;
    while rest != {}
      invariant rest <= a.Keys
      invariant forall k :: k in a.Keys - rest ==> k in b && b[k] == a[k]
      decreases rest
    {
      var k :| k in rest;
      if k !in b || a[k] != b[k] {
        return false;
      }
      rest := rest - {k};
    }
    SameSize(a, b);
    return true;
  }

  lemma SameSize(a: Env, b: Env)
    requires |a| == |b| && forall k :: k in a ==> k in b && b[k] == a[k]
    ensures a == b
  {
    assert |a.Keys| == |b.Keys| && a.Keys <= b.Keys;
    SubsetOfSameSize(a.Keys, b.Keys);
  }

  lemma SubsetOfSameSize(x: set<string>, y: set<string>)
    requires x <= y && |x| == |y|
    ensures x == y
  {
    assert y == x + (y - x);
    assert |y| == |x| + |y - x|;
  }

  method EquivalentPriorHash(newHash: string, newOutput: Env, priors: seq<PriorEntry>) returns (hash: string)
    ensures IsPresented(newHash, newOutput, priors, hash)
  {
    if newHash == "" || |newOutput| == 0 {
      return newHash;
    }
    var best, bestStamp, found := "", 0, false;
    ghost var at: nat := 0;
    for i := 0 to |priors|
      invariant !found ==> NoneEligible(newHash, newOutput, priors[..i])
      invariant found ==> IsMostRecent(newHash, newOutput, priors[..i], at)
      invariant found ==> best == priors[at].hash && bestStamp == priors[at].createdAt
    {
      var p := priors[i];
      assert priors[..i + 1] == priors[..i] + [p];
      if p.hash == "" || p.hash == newHash {
        continue;
      }
      var equal := MapsEqual(newOutput, p.output);
      if !equal {
        continue;
      }
      if !found || p.createdAt >= bestStamp {
        best, bestStamp, found, at := p.hash, p.createdAt, true, i;
      }
    }
    assert priors[..|priors|] == priors;
    if !found {
      return newHash;
    }
    return best;
  }
}
