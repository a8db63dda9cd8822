/** Unpadded URL-safe base64 of U2F messages: u2flib/util.go. The alphabet and the four-character groups are those of
    section 5 of RFC 4648; bytes are numbers below 256. */
module Base64 {
  import opened Wrappers

  datatype Error = CorruptInput

  type Bytes = seq<int>

  predicate IsBytes(b: Bytes) {
    forall i | 0 <= i < |b| :: 0 <= b[i] < 256
  }

  function Digit(v: int): char
    requires 0 <= v < 64
  {
    if v < 26 then ('A' as int + v) as char
    else if v < 52 then ('a' as int + v - 26) as char
    else if v < 62 then ('0' as int + v - 52) as char
    else if v == 62 then '-'
    else '_'
  }

  /** The place of a character in the alphabet; -1 for any other character, `=` among them. */
  function Place(c: char): (v: int)
    ensures -1 <= v < 64
  {
    if 'A' <= c <= 'Z' then c as int - 'A' as int
    else if 'a' <= c <= 'z' then c as int - 'a' as int + 26
    else if '0' <= c <= '9' then c as int - '0' as int + 52
    else if c == '-' then 62
    else if c == '_' then 63
    else -1
  }

  lemma PlaceOfDigit(v: int)
    requires 0 <= v < 64
    ensures Place(Digit(v)) == v && Digit(v) !in "=\r\n"
  {
  }

  lemma DigitOfPlace(c: char)
    ensures Place(c) >= 0 ==> Digit(Place(c)) == c
  {
  }

  // ---- The standard library's padded coding

  function High(x: int): int {
    x / 4
  }

  function Second(x: int, y: int): int {
    x % 4 * 16 + y / 16
  }

  function Third(y: int, z: int): int {
    y % 16 * 4 + z / 64
  }

  function Low(z: int): int {
    z % 64
  }

  /** The characters of up to three bytes, without signs. */
  function Letters(b: Bytes): (s: string)
    requires IsBytes(b) && 1 <= |b| <= 3
    ensures |s| == |b| + 1
  {
    if |b| == 1 then [Digit(High(b[0])), Digit(Second(b[0], 0))]
    else if |b| == 2 then [Digit(High(b[0])), Digit(Second(b[0], b[1])), Digit(Third(b[1], 0))]
    else [Digit(High(b[0])), Digit(Second(b[0], b[1])), Digit(Third(b[1], b[2])), Digit(Low(b[2]))]
  }

  function Signs(n: nat): string {
    seq(n, _ => '=')
  }

  function EncodeToString(b: Bytes): string
    requires IsBytes(b)
  {
    if b == [] then ""
    else if |b| <= 3 then Letters(b) + Signs(3 - |b|)
    else Letters(b[..3]) + EncodeToString(b[3..])
  }

  /** The first `n` bytes of a group of four places. Places that are not used up are ignored. */
  function Group(p: int, q: int, r: int, s: int, n: nat): Bytes
    requires 1 <= n <= 3
  {
    [p * 4 + q / 16, q % 16 * 16 + r / 4, r % 4 * 64 + s][..n]
  }

  /** Whole groups; one or two signs may end the last one. */
  function Groups(s: string): Result<Bytes, Error> {
    if s == "" then Ok([])
    else if |s| < 4 || Place(s[0]) < 0 || Place(s[1]) < 0 then Err(CorruptInput)
    else if |s| == 4 && s[2] == '=' && s[3] == '=' then Ok(Group(Place(s[0]), Place(s[1]), 0, 0, 1))
    else if Place(s[2]) < 0 then Err(CorruptInput)
    else if |s| == 4 && s[3] == '=' then Ok(Group(Place(s[0]), Place(s[1]), Place(s[2]), 0, 2))
    else if Place(s[3]) < 0 then Err(CorruptInput)
    else
      match Groups(s[4..])
      case Err(e) => Err(e)
      case Ok(rest) => Ok(Group(Place(s[0]), Place(s[1]), Place(s[2]), Place(s[3]), 3) + rest)
  }

  function WithoutNewlines(s: string): string {
    if s == "" then "" else (if s[0] in "\r\n" then "" else [s[0]]) + WithoutNewlines(s[1..])
  }

  /** Line ends are skipped wherever they stand. */
  function DecodeString(s: string): Result<Bytes, Error> {
    Groups(WithoutNewlines(s))
  }

  function TrimSigns(s: string): string {
    if s != "" && s[|s| - 1] == '=' then TrimSigns(s[..|s| - 1]) else s
  }

  // ---- The two functions

  function EncodeBase64(b: Bytes): string
    requires IsBytes(b)
  {
    TrimSigns(EncodeToString(b))
  }

  function Missing(n: nat): nat {
    (4 - n % 4) % 4
  }

  function DecodeBase64(s: string): Result<Bytes, Error> {
    DecodeString(s + Signs(Missing(|s|)))
  }

  /** The bound of the padding loop is read anew from the growing string, and still the right number is added. */
  method Decode(s: string) returns (r: Result<Bytes, Error>)
    ensures r == DecodeBase64(s)
  {
    var padded, i := s, 0;
    while i < |padded| % 4
      invariant 0 <= i <= Missing(|s|)
      invariant padded == s + Signs(i)
      decreases Missing(|s|) - i
    {
      padded, i := padded + "=", i + 1;
    }
    assert i == Missing(|s|);
    return DecodeString(padded);
  }

  // ---- Without padding

  /** No sign and no line end. */
  predicate Plain(s: string) {
    forall i | 0 <= i < |s| :: s[i] !in "=\r\n"
  }

  function PlainEncode(b: Bytes): string
    requires IsBytes(b)
  {
    if b == [] then ""
    else if |b| <= 3 then Letters(b)
    else Letters(b[..3]) + PlainEncode(b[3..])
  }

  function PlainDecode(s: string): Result<Bytes, Error> {
    if s == "" then Ok([])
    else if |s| == 1 || Place(s[0]) < 0 || Place(s[1]) < 0 then Err(CorruptInput)
    else if |s| == 2 then Ok(Group(Place(s[0]), Place(s[1]), 0, 0, 1))
    else if Place(s[2]) < 0 then Err(CorruptInput)
    else if |s| == 3 then Ok(Group(Place(s[0]), Place(s[1]), Place(s[2]), 0, 2))
    else if Place(s[3]) < 0 then Err(CorruptInput)
    else
      match PlainDecode(s[4..])
      case Err(e) => Err(e)
      case Ok(rest) => Ok(Group(Place(s[0]), Place(s[1]), Place(s[2]), Place(s[3]), 3) + rest)
  }

  lemma {:induction false} NothingToSkip(s: string)
    requires forall i | 0 <= i < |s| :: s[i] !in "\r\n"
    ensures WithoutNewlines(s) == s
  {
    if s != "" {
      NothingToSkip(s[1..]);
      assert s == [s[0]] + s[1..];
    }
  }

  lemma {:induction false} GroupsOfPadded(s: string)
    requires Plain(s)
    ensures Groups(s + Signs(Missing(|s|))) == PlainDecode(s)
  {
    hide Place, Group;
    var t := s + Signs(Missing(|s|));
    if |s| >= 4 {
      hide Signs, Missing;
      GroupsOfPadded(s[4..]);
      assert Missing(|s[4..]|) == Missing(|s|) by { MissingAgain(|s|); }
      assert t[4..] == s[4..] + Signs(Missing(|s|));
      assert |Signs(Missing(|s|))| == Missing(|s|) && (|s| == 4 ==> Missing(|s|) == 0) by { MissingAgain(|s|); }
    } else if |s| == 1 {
      assert t[1] == '=';
      SignHasNoPlace();
    } else if |s| == 2 {
      assert t[2] == '=' && t[3] == '=';
    } else if |s| == 3 {
      assert t[3] == '=';
    }
  }

  lemma MissingAgain(n: nat)
    requires n >= 4
    ensures Missing(n - 4) == Missing(n) == |Signs(Missing(n))| && (n == 4 ==> Missing(n) == 0)
  {
  }

  lemma SignHasNoPlace()
    ensures Place('=') == -1
  {
  }

  lemma DecodeIsPlain(s: string)
    requires Plain(s)
    ensures DecodeBase64(s) == PlainDecode(s)
  {
    GroupsOfPadded(s);
    NothingToSkip(s + Signs(Missing(|s|)));
  }

  lemma {:induction false} TrimOfSigns(s: string, n: nat)
    requires s == "" || s[|s| - 1] != '='
    ensures TrimSigns(s + Signs(n)) == s
  {
    if n == 0 {
      assert s + Signs(0) == s;
    } else {
      assert (s + Signs(n))[..|s| + n - 1] == s + Signs(n - 1);
      TrimOfSigns(s, n - 1);
    }
  }

  lemma LettersArePlain(b: Bytes)
    requires IsBytes(b) && 1 <= |b| <= 3
    ensures Plain(Letters(b))
  {
    hide Digit, Place;
    forall v | 0 <= v < 64
      ensures Digit(v) !in "=\r\n"
    {
      PlaceOfDigit(v);
    }
  }

  lemma {:induction false} EncodeIsPlain(b: Bytes)
    requires IsBytes(b)
    ensures Plain(PlainEncode(b)) && (exists n: nat :: EncodeToString(b) == PlainEncode(b) + Signs(n))
  {
    hide Letters;
    if b == [] {
      assert EncodeToString(b) == PlainEncode(b) + Signs(0);
    } else if |b| <= 3 {
      LettersArePlain(b);
      assert EncodeToString(b) == PlainEncode(b) + Signs(3 - |b|);
    } else {
      LettersArePlain(b[..3]);
      EncodeIsPlain(b[3..]);
      var n: nat :| EncodeToString(b[3..]) == PlainEncode(b[3..]) + Signs(n);
      assert EncodeToString(b) == PlainEncode(b) + Signs(n);
    }
  }

  lemma EncodeTrims(b: Bytes)
    requires IsBytes(b)
    ensures EncodeBase64(b) == PlainEncode(b) && Plain(EncodeBase64(b))
  {
    EncodeIsPlain(b);
    var n: nat :| EncodeToString(b) == PlainEncode(b) + Signs(n);
    TrimOfSigns(PlainEncode(b), n);
  }

  // ---- Round trips

  lemma JoinPlaces(a: int, b: int, n: int)
    requires 0 <= b < n && n in {4, 16, 64}
    ensures (a * n + b) / n == a && (a * n + b) % n == b
  {
  }

  lemma FirstByte(x: int, y: int)
    requires 0 <= x < 256 && 0 <= y < 256
    ensures High(x) * 4 + Second(x, y) / 16 == x
  {
    JoinPlaces(x % 4, y / 16, 16);
  }

  lemma SecondByte(x: int, y: int, z: int)
    requires 0 <= x < 256 && 0 <= y < 256 && 0 <= z < 256
    ensures Second(x, y) % 16 * 16 + Third(y, z) / 4 == y
  {
    JoinPlaces(x % 4, y / 16, 16);
    JoinPlaces(y % 16, z / 64, 4);
  }

  lemma ThirdByte(y: int, z: int)
    requires 0 <= y < 256 && 0 <= z < 256
    ensures Third(y, z) % 4 * 64 + Low(z) == z
  {
    JoinPlaces(y % 16, z / 64, 4);
  }

  /** One group of bytes through its places. */
  lemma GroupOfBytes(x: int, y: int, z: int)
    requires 0 <= x < 256 && 0 <= y < 256 && 0 <= z < 256
    ensures Group(High(x), Second(x, y), Third(y, z), Low(z), 3) == [x, y, z]
    ensures Group(High(x), Second(x, y), Third(y, 0), 0, 2) == [x, y]
    ensures Group(High(x), Second(x, 0), 0, 0, 1) == [x]
  {
    hide High, Second, Third, Low;
    FirstByte(x, y);
    FirstByte(x, 0);
    SecondByte(x, y, z);
    SecondByte(x, y, 0);
    ThirdByte(y, z);
  }

  lemma FirstPlaces(p: int, q: int, g1: int)
    requires 0 <= p < 64 && 0 <= q < 64
    ensures var g0 := p * 4 + q / 16;
      0 <= g0 < 256 && High(g0) == p && Second(g0, g1) == q - q % 16 + g1 / 16
  {
    JoinPlaces(p, q / 16, 4);
  }

  lemma ThirdPlace(q: int, r: int, g2: int)
    requires 0 <= q < 64 && 0 <= r < 64
    ensures var g1 := q % 16 * 16 + r / 4;
      0 <= g1 < 256 && g1 / 16 == q % 16 && Third(g1, g2) == r - r % 4 + g2 / 64
  {
    JoinPlaces(q % 16, r / 4, 16);
  }

  lemma LastPlace(r: int, s: int)
    requires 0 <= r < 64 && 0 <= s < 64
    ensures var g2 := r % 4 * 64 + s; 0 <= g2 < 256 && g2 / 64 == r % 4 && Low(g2) == s
  {
    JoinPlaces(r % 4, s, 64);
  }

  /** One group of places through its bytes; unused bits of the last place are lost. */
  lemma PlacesOfGroup(p: int, q: int, r: int, s: int)
    requires 0 <= p < 64 && 0 <= q < 64 && 0 <= r < 64 && 0 <= s < 64
    ensures var g := Group(p, q, r, s, 3);
      && IsBytes(g) && High(g[0]) == p && Second(g[0], g[1]) == q && Third(g[1], g[2]) == r && Low(g[2]) == s
    ensures var g := Group(p, q, r, 0, 2);
      IsBytes(g) && High(g[0]) == p && Second(g[0], g[1]) == q && Third(g[1], 0) == r - r % 4
    ensures var g := Group(p, q, 0, 0, 1);
      IsBytes(g) && High(g[0]) == p && Second(g[0], 0) == q - q % 16
  {
    hide High, Second, Third, Low;
    FirstPlaces(p, q, q % 16 * 16 + r / 4);
    FirstPlaces(p, q, 0);
    ThirdPlace(q, r, r % 4 * 64 + s);
    ThirdPlace(q, r, 0);
    LastPlace(r, s);
  }

  lemma LettersBack(b: Bytes)
    requires IsBytes(b) && 1 <= |b| <= 3
    ensures PlainDecode(Letters(b)) == Ok(b)
    ensures |b| == 3 ==> var s := Letters(b);
      Place(s[0]) >= 0 && Place(s[1]) >= 0 && Place(s[2]) >= 0 && Place(s[3]) >= 0 &&
      Group(Place(s[0]), Place(s[1]), Place(s[2]), Place(s[3]), 3) == b
  {
    hide Digit, Place, Group;
    var x, y, z := b[0], if |b| > 1 then b[1] else 0, if |b| > 2 then b[2] else 0;
    PlaceOfDigit(High(x));
    PlaceOfDigit(Second(x, y));
    PlaceOfDigit(Third(y, z));
    PlaceOfDigit(Low(z));
    GroupOfBytes(x, y, z);
    assert |b| == 3 ==> PlainDecode(Letters(b)[4..]) == Ok([]);
    assert b + [] == b;
    assert b == if |b| == 1 then [x] else if |b| == 2 then [x, y] else [x, y, z];
  }

  lemma {:induction false} PlainRoundTrip(b: Bytes)
    requires IsBytes(b)
    ensures PlainDecode(PlainEncode(b)) == Ok(b)
  {
    hide Letters, Place, Group;
    if b == [] {
    } else if |b| <= 3 {
      LettersBack(b);
    } else {
      var s := PlainEncode(b);
      LettersBack(b[..3]);
      PlainRoundTrip(b[3..]);
      assert s[4..] == PlainEncode(b[3..]);
      assert b == b[..3] + b[3..];
    }
  }

  // ---- Which characters they are

  /** The `k`-th six bits of the bytes, with zeros behind the last. */
  function Sextet(b: Bytes, k: nat): int
    requires 6 * k < 8 * |b|
  {
    var i := 6 * k / 8;
    var next := if i + 1 < |b| then b[i + 1] else 0;
    (256 * b[i] + next) / Shift(k % 4) % 64
  }

  function Shift(r: int): (d: int)
    ensures d > 0
  {
    if r == 0 then 1024 else if r == 1 then 16 else if r == 2 then 64 else 256
  }

  lemma FirstSextet(x: int, y: int)
    requires 0 <= x < 256 && 0 <= y < 256
    ensures (256 * x + y) / 1024 % 64 == High(x)
  {
    assert 256 * x + y == 1024 * (x / 4) + (256 * (x % 4) + y);
  }

  lemma SecondSextet(x: int, y: int)
    requires 0 <= x < 256 && 0 <= y < 256
    ensures (256 * x + y) / 16 % 64 == Second(x, y)
  {
    var q, r := x / 4, x % 4 * 16 + y / 16;
    assert 256 * x + y == 16 * (64 * q + r) + y % 16;
    assert (256 * x + y) / 16 == 64 * q + r;
  }

  lemma ThirdSextet(x: int, y: int)
    requires 0 <= x < 256 && 0 <= y < 256
    ensures (256 * x + y) / 64 % 64 == Third(x, y)
  {
    var q, r := x / 16, x % 16 * 4 + y / 64;
    assert 256 * x + y == 64 * (64 * q + r) + y % 64;
    assert (256 * x + y) / 64 == 64 * q + r;
  }

  lemma LastSextet(x: int, y: int)
    requires 0 <= x < 256 && 0 <= y < 256
    ensures (256 * x + y) / 256 % 64 == Low(x)
  {
  }

  lemma SextetLater(b: Bytes, k: nat)
    requires |b| > 3 && k >= 4 && 6 * k < 8 * |b|
    ensures Sextet(b, k) == Sextet(b[3..], k - 4)
  {
    assert 6 * k / 8 == 6 * (k - 4) / 8 + 3 && (k - 4) % 4 == k % 4;
  }

  lemma SextetAt(b: Bytes, k: nat, i: nat, d: int)
    requires IsBytes(b) && i < |b| && k < 4
    requires (i, d) == if k == 0 then (0, 1024) else if k == 1 then (0, 16) else if k == 2 then (1, 64) else (2, 256)
    ensures 6 * k < 8 * |b|
    ensures Sextet(b, k) == (256 * b[i] + (if i + 1 < |b| then b[i + 1] else 0)) / d % 64
  {
    assert k % 4 == k && 6 * k / 8 == i && Shift(k % 4) == d;
  }

  lemma SextetIs(b: Bytes, k: nat)
    requires IsBytes(b) && k < 4 && 6 * k < 8 * |b|
    ensures var x, y, z := b[0], if |b| > 1 then b[1] else 0, if |b| > 2 then b[2] else 0;
      Sextet(b, k) ==
        if k == 0 then High(x) else if k == 1 then Second(x, y) else if k == 2 then Third(y, z) else Low(z)
  {
    hide High, Second, Third, Low, Sextet;
    var i := if k < 2 then 0 else k - 1;
    var x, y := b[i], if i + 1 < |b| then b[i + 1] else 0;
    FirstSextet(x, y);
    SecondSextet(x, y);
    ThirdSextet(x, y);
    LastSextet(x, y);
    SextetAt(b, k, i, if k == 0 then 1024 else if k == 1 then 16 else if k == 2 then 64 else 256);
  }

  lemma PlacesFit(x: int, y: int)
    requires 0 <= x < 256 && 0 <= y < 256
    ensures 0 <= High(x) < 64 && 0 <= Second(x, y) < 64 && 0 <= Third(x, y) < 64 && 0 <= Low(x) < 64
  {
  }

  /** The characters of a group are those of its sextets. */
  lemma LettersAre(b: Bytes, k: nat)
    requires IsBytes(b) && b != [] && k < 4 && 6 * k < 8 * |b|
    ensures var s := if |b| <= 3 then Letters(b) else Letters(b[..3]);
      k < |s| && 0 <= Sextet(b, k) < 64 && s[k] == Digit(Sextet(b, k))
  {
    var x, y, z := b[0], if |b| > 1 then b[1] else 0, if |b| > 2 then b[2] else 0;
    SextetIs(b, k);
    PlacesFit(x, y);
    PlacesFit(y, z);
    PlacesFit(z, 0);
    hide Digit, High, Second, Third, Low, Sextet;
  }

  lemma {:induction false} PlainEncodeAt(b: Bytes, k: nat)
    requires IsBytes(b) && 6 * k < 8 * |b|
    ensures |PlainEncode(b)| == (8 * |b| + 5) / 6
    ensures k < |PlainEncode(b)| && 0 <= Sextet(b, k) < 64 && PlainEncode(b)[k] == Digit(Sextet(b, k))
    decreases |b|
  {
    hide Digit, Letters, Sextet;
    if k < 4 {
      LettersAre(b, k);
    }
    if |b| > 3 {
      PlainEncodeAt(b[3..], if k < 4 then 0 else k - 4);
      if k >= 4 {
        SextetLater(b, k);
      }
    }
  }

  /** The encoding has a character for every six bits begun, namely the digit of those bits. */
  lemma EncodeAt(b: Bytes, k: nat)
    requires IsBytes(b) && 6 * k < 8 * |b|
    ensures |EncodeBase64(b)| == (8 * |b| + 5) / 6 && k < |EncodeBase64(b)|
    ensures 0 <= Sextet(b, k) < 64 && EncodeBase64(b)[k] == Digit(Sextet(b, k))
  {
    hide Digit, Sextet, EncodeBase64;
    EncodeTrims(b);
    PlainEncodeAt(b, k);
  }

  /** Every byte string survives encoding and decoding. */
  lemma DecodeOfEncode(b: Bytes)
    requires IsBytes(b)
    ensures DecodeBase64(EncodeBase64(b)) == Ok(b)
  {
    EncodeTrims(b);
    DecodeIsPlain(EncodeBase64(b));
    PlainRoundTrip(b);
  }

  /** Of strings without signs and line ends, exactly those of digits whose length is not one more than a multiple of
      four decode. */
  lemma {:induction false} DecodesIff(s: string)
    requires Plain(s)
    ensures DecodeBase64(s).Ok? <==> |s| % 4 != 1 && (forall i | 0 <= i < |s| :: Place(s[i]) >= 0)
  {
    hide Place, Group, DecodeBase64;
    DecodeIsPlain(s);
    if |s| >= 4 {
      DecodeIsPlain(s[4..]);
      DecodesIff(s[4..]);
      assert forall i | 4 <= i < |s| :: s[i] == s[4..][i - 4];
    }
  }

  /** The bits of the last character that no byte takes are zero. */
  predicate Canonical(s: string) {
    && (|s| % 4 == 2 ==> Place(s[|s| - 1]) % 16 == 0)
    && (|s| % 4 == 3 ==> Place(s[|s| - 1]) % 4 == 0)
  }

  /** A decoded string is the encoding of its bytes exactly when it is canonical. */
  lemma {:induction false} EncodeOfDecode(s: string)
    requires Plain(s) && DecodeBase64(s).Ok?
    ensures IsBytes(DecodeBase64(s).value)
    ensures EncodeBase64(DecodeBase64(s).value) == s <==> Canonical(s)
  {
    hide DecodeBase64, EncodeBase64;
    DecodeIsPlain(s);
    PlainBack(s);
    EncodeTrims(PlainDecode(s).value);
  }

  lemma DigitsDiffer(v: int, w: int)
    requires 0 <= v < 64 && 0 <= w < 64
    ensures Digit(v) == Digit(w) <==> v == w
  {
    hide Digit, Place;
    PlaceOfDigit(v);
    PlaceOfDigit(w);
  }

  /** A last group of fewer than four characters. */
  lemma ShortBack(s: string)
    requires 2 <= |s| <= 3 && PlainDecode(s).Ok?
    ensures IsBytes(PlainDecode(s).value) && |PlainDecode(s).value| == |s| - 1
    ensures Letters(PlainDecode(s).value) == s <==> Canonical(s)
  {
    hide Digit, Place, Group, High, Second, Third, Low;
    var p, q, r := Place(s[0]), Place(s[1]), if |s| == 3 then Place(s[2]) else 0;
    PlacesOfGroup(p, q, r, 0);
    GroupSize(p, q, r, 0);
    DigitOfPlace(s[0]);
    DigitOfPlace(s[1]);
    DigitOfPlace(s[|s| - 1]);
    DigitsDiffer(q, q - q % 16);
    DigitsDiffer(r, r - r % 4);
  }

  lemma GroupSize(p: int, q: int, r: int, s: int)
    ensures |Group(p, q, r, s, 1)| == 1 && |Group(p, q, r, s, 2)| == 2 && |Group(p, q, r, s, 3)| == 3
    ensures Group(p, q, r, s, 3)[0] == Group(p, q, r, s, 1)[0]
  {
  }

  lemma FullBack(s: string)
    requires |s| == 4 && Place(s[0]) >= 0 && Place(s[1]) >= 0 && Place(s[2]) >= 0 && Place(s[3]) >= 0
    ensures var g := Group(Place(s[0]), Place(s[1]), Place(s[2]), Place(s[3]), 3);
      |g| == 3 && IsBytes(g) && Letters(g) == s
  {
    hide Digit, Place, Group, High, Second, Third, Low;
    GroupSize(Place(s[0]), Place(s[1]), Place(s[2]), Place(s[3]));
    PlacesOfGroup(Place(s[0]), Place(s[1]), Place(s[2]), Place(s[3]));
    DigitOfPlace(s[0]);
    DigitOfPlace(s[1]);
    DigitOfPlace(s[2]);
    DigitOfPlace(s[3]);
  }

  lemma {:induction false} PlainBack(s: string)
    requires PlainDecode(s).Ok?
    ensures IsBytes(PlainDecode(s).value)
    ensures PlainEncode(PlainDecode(s).value) == s <==> Canonical(s)
  {
    hide Place, Group, Letters, Canonical, PlainEncode;
    if s == "" {
      NothingBack();
    } else if |s| <= 3 {
      ShortBack(s);
      ShortEncode(PlainDecode(s).value);
    } else {
      var g := Group(Place(s[0]), Place(s[1]), Place(s[2]), Place(s[3]), 3);
      var rest := PlainDecode(s[4..]).value;
      assert PlainDecode(s).value == g + rest;
      hide PlainDecode;
      FullBack(s[..4]);
      PlainBack(s[4..]);
      LongEncode(g, rest);
      CanonicalTail(s);
      SameTail(s, PlainEncode(rest));
    }
  }

  lemma NothingBack()
    ensures PlainEncode([]) == "" && Canonical("")
  {
  }

  lemma ShortEncode(b: Bytes)
    requires IsBytes(b) && 1 <= |b| <= 3
    ensures PlainEncode(b) == Letters(b)
  {
  }

  lemma CanonicalTail(s: string)
    requires |s| >= 4
    ensures Canonical(s[4..]) <==> Canonical(s)
  {
    hide Place;
    ModFour(|s|);
    assert |s| > 4 ==> s[4..][|s| - 5] == s[|s| - 1];
  }

  lemma ModFour(n: nat)
    requires n >= 4
    ensures (n - 4) % 4 == n % 4
  {
  }

  lemma SameTail(s: string, t: string)
    requires |s| >= 4
    ensures s[..4] + t == s <==> t == s[4..]
  {
    assert (s[..4] + t)[4..] == t;
    assert s[..4] + s[4..] == s;
  }

  lemma LongEncode(g: Bytes, rest: Bytes)
    requires |g| == 3 && IsBytes(g) && IsBytes(rest)
    ensures PlainEncode(g + rest) == Letters(g) + PlainEncode(rest)
  {
    hide Letters;
    assert (g + rest)[..3] == g && (g + rest)[3..] == rest;
    assert rest == [] ==> g + rest == g && Letters(g) + PlainEncode(rest) == Letters(g);
  }
}
