/** Strings the components share: decimal numerals and splitting at a separator. */
module Text {

  predicate Digits(s: string) {
    forall i | 0 <= i < |s| :: '0' <= s[i] <= '9'
  }

  function Numeral(n: nat): (s: string)
    ensures |s| > 0 && Digits(s)
    decreases n
  {
    var digit := ('0' as int + n % 10) as char;
    if n < 10 then [digit] else Numeral(n / 10) + [digit]
  }

  /** Decimal form of an integer, as `%d` prints it. */
  function Decimal(n: int): string
  {
    if n < 0 then "-" + Numeral(-n) else Numeral(n)
  }

  function NumeralValue(s: string): nat
    requires Digits(s)
  {
    if s == "" then 0
    else NumeralValue(s[..|s| - 1]) * 10 + (s[|s| - 1] as int - '0' as int)
  }

  lemma {:induction false} NumeralRoundTrip(n: nat)
    ensures NumeralValue(Numeral(n)) == n
    decreases n
  {
    var digit := ('0' as int + n % 10) as char;
    if n >= 10 {
      NumeralRoundTrip(n / 10);
      assert (Numeral(n / 10) + [digit])[..|Numeral(n)| - 1] == Numeral(n / 10);
    } else {
      assert [digit][..0] == "";
    }
  }

  /** No two integers share a decimal form. */
  lemma DecimalInjective(m: int, n: int)
    requires Decimal(m) == Decimal(n)
    ensures m == n
  {
    var a, b := if m < 0 then -m else m, if n < 0 then -n else n;
    NumeralRoundTrip(a);
    NumeralRoundTrip(b);
    assert Numeral(a)[0] != '-' && Numeral(b)[0] != '-';
    assert m < 0 ==> Decimal(m)[1..] == Numeral(a);
    assert n < 0 ==> Decimal(n)[1..] == Numeral(b);
  }

  /** Position of the first `sep` in `s`, or `|s|`. */
  function Find(s: string, sep: char): (k: nat)
    ensures k <= |s|
    ensures sep !in s[..k]
    ensures k < |s| ==> s[k] == sep
  {
    if s == "" || s[0] == sep then 0
    else
      assert s == [s[0]] + s[1..];
      1 + Find(s[1..], sep)
  }

  function Split(s: string, sep: char): (parts: seq<string>)
    ensures |parts| > 0
    decreases |s|
  {
    var k := Find(s, sep);
    if k == |s| then [s] else [s[..k]] + Split(s[k + 1..], sep)
  }

  lemma {:induction false} FindFirst(s: string, sep: char, k: nat)
    requires k < |s| && s[k] == sep && sep !in s[..k]
    ensures Find(s, sep) == k
  {
    if k > 0 {
      assert s[0] == s[..k][0] && s[1..][..k - 1] == s[..k][1..];
      FindFirst(s[1..], sep, k - 1);
    }
  }

  lemma SplitAt(u: string, sep: char, rest: string)
    requires sep !in u
    ensures Split(u + [sep] + rest, sep) == [u] + Split(rest, sep)
  {
    var s := u + [sep] + rest;
    assert s[..|u|] == u && s[|u| + 1..] == rest;
    FindFirst(s, sep, |u|);
  }

  lemma SplitLast(u: string, sep: char)
    requires sep !in u
    ensures Find(u, sep) == |u| && Split(u, sep) == [u]
  {
  }

  /** Two separator-free words followed by the separator agree as soon as one text is a prefix of the other. */
  lemma PrefixWord(u: string, v: string, sep: char, s: string, t: string)
    requires sep !in u && sep !in v
    ensures u + [sep] + s <= v + [sep] + t <==> u == v && s <= t
  {
    var a, b := u + [sep] + s, v + [sep] + t;
    assert a[..|u|] == u && b[..|v|] == v;
    if a <= b {
      assert b[..|u|] == a[..|u|] && b[|u|] == a[|u|];
      FindFirst(b, sep, |u|);
      FindFirst(b, sep, |v|);
      assert s == a[|u| + 1..] && t == b[|u| + 1..];
      assert forall i | 0 <= i < |s| :: s[i] == a[|u| + 1 + i] == b[|u| + 1 + i] == t[i];
    }
  }
}
