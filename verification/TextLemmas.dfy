/** Splitting text at a separator, joining words, and printing integers. */
module TextLemmas {

  lemma Assoc<T>(a: seq<T>, b: seq<T>, c: seq<T>)
    ensures a + (b + c) == (a + b) + c
  {
  }

  function FirstIndex(s: string, c: char): (i: nat)
    requires c in s
    ensures i < |s| && s[i] == c && c !in s[..i]
  {
    if s[0] == c then 0
    else
      assert c in s[1..] && s == [s[0]] + s[1..];
      assert s[..1 + FirstIndex(s[1..], c)] == [s[0]] + s[1..][..FirstIndex(s[1..], c)];
      1 + FirstIndex(s[1..], c)
  }

  lemma {:induction false} FirstIndexAt(a: string, b: string, c: char)
    requires c !in a
    ensures c in a + [c] + b && FirstIndex(a + [c] + b, c) == |a|
  {
    var s := a + [c] + b;
    assert s[|a|] == c;
    if a != [] {
      assert s[0] == a[0] && s[1..] == a[1..] + [c] + b;
      FirstIndexAt(a[1..], b, c);
    }
  }

  /** A text is cut at the first separator in one way only. */
  lemma SplitUnique(a: string, b: string, a': string, b': string, c: char)
    requires a + [c] + b == a' + [c] + b' && c !in a && c !in a'
    ensures a == a' && b == b'
  {
    var s := a + [c] + b;
    FirstIndexAt(a, b, c);
    FirstIndexAt(a', b', c);
    assert a == s[..|a|] && a' == s[..|a'|];
    assert b == s[|a| + 1..] && b' == s[|a'| + 1..];
  }

  function Join(words: seq<string>, sep: char): string {
    if words == [] then ""
    else if |words| == 1 then words[0]
    else words[0] + [sep] + Join(words[1..], sep)
  }

  ghost predicate Free(words: seq<string>, c: char) {
    forall i :: 0 <= i < |words| ==> c !in words[i]
  }

  lemma {:induction false} JoinUnique(ws: seq<string>, ws': seq<string>, sep: char)
    requires ws != [] && ws' != [] && Free(ws, sep) && Free(ws', sep)
    requires Join(ws, sep) == Join(ws', sep)
    ensures ws == ws'
  {
    if |ws| > 1 {
      SplitUnique(ws[0], Join(ws[1..], sep), ws'[0], Join(ws'[1..], sep), sep);
      JoinUnique(ws[1..], ws'[1..], sep);
      assert ws == [ws[0]] + ws[1..] && ws' == [ws'[0]] + ws'[1..];
    }
  }

  lemma {:induction false} JoinFree(ws: seq<string>, sep: char, c: char)
    requires Free(ws, c) && c != sep
    ensures c !in Join(ws, sep)
  {
    if |ws| > 1 { JoinFree(ws[1..], sep, c); }
  }

  function Digit(d: nat): char
    requires d < 10
  {
    '0' + d as char
  }

  function NatText(n: nat): (s: string)
    ensures |s| > 0 && forall c :: c in s ==> '0' <= c <= '9'
  {
    if n < 10 then [Digit(n)] else NatText(n / 10) + [Digit(n % 10)]
  }

  function NatValue(s: string): int {
    if s == [] then 0 else 10 * NatValue(s[..|s| - 1]) + (s[|s| - 1] as int - '0' as int)
  }

  lemma {:induction false} NatRoundTrip(n: nat)
    ensures NatValue(NatText(n)) == n
  {
    if n < 10 {
      assert NatText(n) == [Digit(n)] && [Digit(n)][..0] == [];
    } else {
      NatRoundTrip(n / 10);
      assert NatText(n)[..|NatText(n)| - 1] == NatText(n / 10);
    }
  }

  /** Decimal notation with a sign. */
  function IntText(n: int): (s: string)
    ensures '\n' !in s
  {
    if n < 0 then "-" + NatText(-n) else NatText(n)
  }

  lemma IntTextSign(n: int)
    ensures IntText(n) != [] && (n < 0 <==> IntText(n)[0] == '-')
  {
    if n >= 0 {
      assert IntText(n)[0] in NatText(n);
    }
  }

  lemma IntTextUnique(n: int, m: int)
    requires IntText(n) == IntText(m)
    ensures n == m
  {
    IntTextSign(n);
    IntTextSign(m);
    if n < 0 {
      assert NatText(-n) == IntText(n)[1..] && NatText(-m) == IntText(m)[1..];
      NatRoundTrip(-n);
      NatRoundTrip(-m);
    } else {
      NatRoundTrip(n);
      NatRoundTrip(m);
    }
  }
}
