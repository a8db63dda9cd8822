/** Host patterns for IPv4 subnets: parseSubnetMatch of authority/utils.go. */
module Subnet {
  import opened Text
  import opened Wrappers
  import Glob

  newtype Octet = n: int | 0 <= n < 256

  datatype Address = Address(a: Octet, b: Octet, c: Octet, d: Octet)


  datatype Error = CidrInvalid | PartsInvalid | SizeUnsupported

  function Value(x: Address): nat {
    x.a as int * 0x100_0000 + x.b as int * 0x1_0000 + x.c as int * 0x100 + x.d as int
  }

  function HostCount(ones: nat): (n: nat)
    requires ones <= 32
    ensures 0 < n
    decreases 32 - ones
  {
    if ones == 32 then 1 else 2 * HostCount(ones + 1)
  }

  /** A block in CIDR notation; `ip` may carry host bits. */
  datatype Cidr = Cidr(ip: Address, ones: nat)

  /** Addresses that agree with the block on its leading `ones` bits. */
  predicate Contains(block: Cidr, x: Address)
    requires block.ones <= 32
  {
    Value(x) / HostCount(block.ones) == Value(block.ip) / HostCount(block.ones)
  }

  /** An octet with all but its `keep` leading bits cleared. */
  function MaskOctet(o: Octet, keep: int): Octet {
    if keep <= 0 then 0
    else if keep >= 8 then o
    else
      var unit: Octet := [128, 64, 32, 16, 8, 4, 2][keep - 1];
      o - o % unit
  }

  /** The network address net.ParseCIDR yields: the mask applied octet by octet. */
  function Network(block: Cidr): Address {
    Address(MaskOctet(block.ip.a, block.ones), MaskOctet(block.ip.b, block.ones - 8),
            MaskOctet(block.ip.c, block.ones - 16), MaskOctet(block.ip.d, block.ones - 24))
  }

  function Octets(x: Address): (words: seq<string>)
    ensures |words| == 4
  {
    [Numeral(x.a as int), Numeral(x.b as int), Numeral(x.c as int), Numeral(x.d as int)]
  }

  function Join(words: seq<string>): string
    requires words != []
  {
    if |words| == 1 then words[0] else words[0] + "." + Join(words[1..])
  }

  function Dotted(x: Address): string {
    Join(Octets(x))
  }

  /** A numeral can be neither split nor read as a wildcard. */
  ghost predicate Plain(word: string) {
    '.' !in word && '/' !in word && Glob.Literal(word)
  }

  lemma OctetsPlain(x: Address)
    ensures forall i | 0 <= i < 4 :: Plain(Octets(x)[i]) && Octets(x)[i] != "*"
  {
    assert !Plain("*") by {
      assert "*"[0] == '*';
    }
    NumeralPlain(x.a as int);
    NumeralPlain(x.b as int);
    NumeralPlain(x.c as int);
    NumeralPlain(x.d as int);
  }

  lemma NumeralPlain(n: nat)
    ensures Plain(Numeral(n))
  {
  }

  lemma {:induction false} SplitJoin(words: seq<string>)
    requires words != [] && forall i | 0 <= i < |words| :: Plain(words[i])
    ensures Split(Join(words), '.') == words && '/' !in Join(words)
  {
    if |words| == 1 {
      SplitLast(words[0], '.');
    } else {
      SplitJoin(words[1..]);
      SplitAt(words[0], '.', Join(words[1..]));
    }
  }

  /** The computation on the printed subnet. `None` stands for text net.ParseCIDR rejects. */
  datatype Parsed = Unparsable | Parsed(block: Cidr)

  method ParseSubnetMatch(subnetMatch: Parsed) returns (result: Result<string, Error>)
    requires subnetMatch.Parsed? ==> subnetMatch.block.ones <= 32
    ensures subnetMatch.Unparsable? ==> result == Err(CidrInvalid)
    ensures subnetMatch.Parsed? && subnetMatch.block.ones !in {8, 16, 24, 32} ==> result == Err(SizeUnsupported)
    ensures subnetMatch.Parsed? && subnetMatch.block.ones in {8, 16, 24, 32} ==>
      result.Ok? && forall x :: Glob.InLanguage(result.value, Dotted(x)) <==> Contains(subnetMatch.block, x)
  {
    hide Join, Numeral, Glob.InLanguage, Contains, Network;
    if subnetMatch.Unparsable? {
      return Err(CidrInvalid);
    }
    var cidr := subnetMatch.block.ones;
    var net := Network(subnetMatch.block);
    var printed := Dotted(net) + "/" + Numeral(cidr);
    var subnetNet := printed[..Find(printed, '/')];
    var parts := Split(subnetNet, '.');
    PartsOfPrinted(net, Numeral(cidr));
    if |parts| != 4 {
      return Err(PartsInvalid);
    }
    var match' := "";
    if cidr == 8 {
      match' := parts[0] + ".*.*.*";
    } else if cidr == 16 {
      match' := parts[0] + "." + parts[1] + ".*.*";
    } else if cidr == 24 {
      match' := parts[0] + "." + parts[1] + "." + parts[2] + ".*";
    } else if cidr == 32 {
      match' := parts[0] + "." + parts[1] + "." + parts[2] + "." + parts[3];
    } else {
      return Err(SizeUnsupported);
    }
    assert match' == Join(PatternOf(net, cidr)) by {
      PrintedPattern(net, cidr);
    }
    forall x
      ensures Glob.InLanguage(match', Dotted(x)) <==> Contains(subnetMatch.block, x)
    {
      PatternDenotes(net, x, cidr);
      LeadingOctets(subnetMatch.block, x);
    }
    return Ok(match');
  }

  lemma PartsOfPrinted(x: Address, size: string)
    ensures var printed := Dotted(x) + "/" + size;
            printed[..Find(printed, '/')] == Dotted(x)
    ensures Split(Dotted(x), '.') == Octets(x)
  {
    hide Numeral, Join;
    OctetsPlain(x);
    SplitJoin(Octets(x));
    var printed := Dotted(x) + "/" + size;
    assert printed[..|Dotted(x)|] == Dotted(x);
    FindFirst(printed, '/', |Dotted(x)|);
  }

  /** How many leading octets the supported sizes compare. */
  predicate SameLeading(x: Address, y: Address, ones: nat) {
    && (ones >= 8 ==> x.a == y.a)
    && (ones >= 16 ==> x.b == y.b)
    && (ones >= 24 ==> x.c == y.c)
    && (ones >= 32 ==> x.d == y.d)
  }

  lemma Sizes()
    ensures HostCount(32) == 1 && HostCount(24) == 0x100 && HostCount(16) == 0x1_0000 && HostCount(8) == 0x100_0000
  {
    assert HostCount(28) == 16;
    assert HostCount(24) == 256;
    assert HostCount(20) == 256 * 16;
    assert HostCount(16) == 256 * 256;
    assert HostCount(12) == 256 * 256 * 16;
  }

  /** Dividing by the block size leaves the leading octets. */
  lemma BlockIndex(x: Address, ones: nat)
    requires ones in {8, 16, 24, 32}
    ensures Value(x) / HostCount(ones) ==
      if ones == 8 then x.a as int
      else if ones == 16 then x.a as int * 0x100 + x.b as int
      else if ones == 24 then x.a as int * 0x1_0000 + x.b as int * 0x100 + x.c as int
      else Value(x)
  {
    Sizes();
    Quotients(x.a as int, x.b as int, x.c as int, x.d as int);
  }

  lemma Quotients(a: int, b: int, c: int, d: int)
    requires 0 <= a && 0 <= b < 256 && 0 <= c < 256 && 0 <= d < 256
    ensures (a * 0x100_0000 + b * 0x1_0000 + c * 0x100 + d) / 0x100_0000 == a
    ensures (a * 0x100_0000 + b * 0x1_0000 + c * 0x100 + d) / 0x1_0000 == a * 0x100 + b
    ensures (a * 0x100_0000 + b * 0x1_0000 + c * 0x100 + d) / 0x100 == a * 0x1_0000 + b * 0x100 + c
  {
  }

  /** Agreeing on 8, 16, 24 or 32 leading bits is agreeing on whole octets of the network address. */
  lemma LeadingOctets(block: Cidr, x: Address)
    requires block.ones in {8, 16, 24, 32}
    ensures Contains(block, x) <==> SameLeading(Network(block), x, block.ones)
  {
    var ip := block.ip;
    assert SameLeading(Network(block), x, block.ones) <==> SameLeading(ip, x, block.ones);
    BlockIndex(ip, block.ones);
    BlockIndex(x, block.ones);
  }

  /** Pattern words: some fixed ones, then only stars. */
  ghost predicate PatternWords(words: seq<string>) {
    && (forall i | 0 <= i < |words| :: words[i] == "*" || Plain(words[i]))
    && (forall i | 0 < i < |words| :: words[i - 1] == "*" ==> words[i] == "*")
  }

  /** Such a pattern matches dotted words exactly when the fixed ones are the text's own. */
  lemma {:induction false} JoinedPattern(fixed: seq<string>, words: seq<string>)
    requires |fixed| == |words| > 0 && PatternWords(fixed)
    requires forall i | 0 <= i < |words| :: Plain(words[i])
    ensures Glob.InLanguage(Join(fixed), Join(words))
       <==> forall i | 0 <= i < |words| :: fixed[i] == "*" || fixed[i] == words[i]
  {
    hide Glob.InLanguage;
    var u, v := fixed[0], words[0];
    if |words| == 1 {
      LastWord(u, v);
    } else {
      var us, vs := fixed[1..], words[1..];
      assert forall i | 0 <= i < |us| :: us[i] == fixed[i + 1] && vs[i] == words[i + 1];
      JoinedPattern(us, vs);
      if u == "*" {
        OnlyStars(fixed);
        StarWord(v, Join(us), Join(vs));
      } else {
        FixedWord(u, v, Join(us), Join(vs));
      }
      assert fixed == [u] + us && words == [v] + vs;
    }
  }

  lemma {:induction false} OnlyStars(words: seq<string>)
    requires words != [] && words[0] == "*" && PatternWords(words)
    ensures forall i | 0 <= i < |words| :: words[i] == "*"
  {
    if |words| > 1 {
      var rest := words[1..];
      assert words[1] == "*" && forall i | 0 <= i < |rest| :: rest[i] == words[i + 1];
      OnlyStars(rest);
      assert words == ["*"] + rest;
    }
  }

  lemma LastWord(u: string, v: string)
    requires u == "*" || Plain(u)
    ensures Glob.InLanguage(u, v) <==> u == "*" || u == v
  {
    if u == "*" {
      Glob.LanguageOfSymbol('*', v);
    } else {
      Glob.LanguageOfLiteralPrefix(u, "", v);
      assert u + "" == u;
      if u <= v {
        Glob.LanguageOfEmpty(v[|u|..]);
      }
    }
  }

  /** A fixed word must be the text's own word, and the rest is matched behind the dot. */
  lemma FixedWord(u: string, v: string, pattern: string, t: string)
    requires Plain(u) && Plain(v)
    ensures Glob.InLanguage(u + "." + pattern, v + "." + t) <==> u == v && Glob.InLanguage(pattern, t)
  {
    var word, s := u + ".", v + "." + t;
    Glob.LanguageOfLiteralPrefix(word, pattern, s);
    PrefixWord(u, v, '.', "", t);
    assert word == u + "." + "";
    assert u == v ==> s[|word|..] == t;
  }

  lemma StarWord(v: string, pattern: string, t: string)
    requires Glob.InLanguage(pattern, t)
    ensures Glob.InLanguage("*" + "." + pattern, v + "." + t)
  {
    hide Glob.InLanguage;
    var rest, s := "." + t, v + "." + t;
    Glob.LanguageOfLiteralPrefix(".", pattern, rest);
    assert rest[1..] == t;
    Glob.LanguageOfSymbol('*', v);
    Glob.LanguageOfConcatenation("*", "." + pattern, s);
    assert "*" + ("." + pattern) == "*" + "." + pattern;
    assert s[..|v|] == v && s[|v|..] == rest;
  }

  function PatternOf(net: Address, ones: nat): (words: seq<string>)
    requires ones in {8, 16, 24, 32}
    ensures |words| == 4
  {
    var w := Octets(net);
    [w[0], if ones < 16 then "*" else w[1], if ones < 24 then "*" else w[2], if ones < 32 then "*" else w[3]]
  }

  lemma PrintedPattern(net: Address, ones: nat)
    requires ones in {8, 16, 24, 32}
    ensures var w := Octets(net);
      Join(PatternOf(net, ones)) ==
        if ones == 8 then w[0] + ".*.*.*"
        else if ones == 16 then w[0] + "." + w[1] + ".*.*"
        else if ones == 24 then w[0] + "." + w[1] + "." + w[2] + ".*"
        else w[0] + "." + w[1] + "." + w[2] + "." + w[3]
  {
    hide Numeral;
    var p := PatternOf(net, ones);
    assert Join(p[3..]) == p[3];
    assert Join(p[2..]) == p[2] + "." + p[3];
    assert Join(p[1..]) == p[1] + "." + (p[2] + "." + p[3]);
    assert Join(p) == p[0] + "." + (p[1] + "." + (p[2] + "." + p[3]));
  }

  lemma PatternDenotes(net: Address, x: Address, ones: nat)
    requires ones in {8, 16, 24, 32}
    ensures Glob.InLanguage(Join(PatternOf(net, ones)), Dotted(x)) <==> SameLeading(net, x, ones)
  {
    hide Glob.InLanguage, Join, Numeral;
    var fixed, words := PatternOf(net, ones), Octets(x);
    OctetsPlain(net);
    OctetsPlain(x);
    JoinedPattern(fixed, words);
    NumeralsEqual(net.a as int, x.a as int);
    NumeralsEqual(net.b as int, x.b as int);
    NumeralsEqual(net.c as int, x.c as int);
    NumeralsEqual(net.d as int, x.d as int);
    forall i: nat | i < 4
      ensures (fixed[i] == "*" || fixed[i] == words[i]) <==> 8 * i >= ones || Octets(net)[i] == words[i]
    {
    }
  }

  lemma NumeralsEqual(m: nat, n: nat)
    ensures Numeral(m) == Numeral(n) <==> m == n
  {
    NumeralRoundTrip(m);
    NumeralRoundTrip(n);
  }
}
