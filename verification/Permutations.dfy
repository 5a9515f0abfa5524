/** Sequences with the same elements in a different order. */
module Permutations {

  lemma Cancel<T>(x: multiset<T>, a: multiset<T>, b: multiset<T>, c: multiset<T>)
    requires x + a == b + (x + c)
    ensures a == b + c
  {
    forall m | m in a + b + c ensures a[m] == (b + c)[m] { assert (x + a)[m] == (b + (x + c))[m]; }
  }

  /** Where the head of one sequence sits in a reordering, and that the rests agree. */
  lemma TakeOut<T>(s: seq<T>, t: seq<T>) returns (i: nat)
    requires multiset(s) == multiset(t) && s != []
    ensures i < |t| && t[i] == s[0] && t == t[..i] + ([s[0]] + t[i + 1..])
    ensures multiset(s[1..]) == multiset(t[..i] + t[i + 1..])
  {
    assert s[0] in multiset(t);
    i :| 0 <= i < |t| && t[i] == s[0];
    var rest := [s[0]] + t[i + 1..];
    assert t == t[..i] + rest && s == [s[0]] + s[1..];
    assert multiset(t) == multiset(t[..i]) + multiset(rest);
    assert multiset(rest) == multiset([s[0]]) + multiset(t[i + 1..]);
    assert multiset(s) == multiset([s[0]]) + multiset(s[1..]);
    Cancel(multiset([s[0]]), multiset(s[1..]), multiset(t[..i]), multiset(t[i + 1..]));
  }
}
