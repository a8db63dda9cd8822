/** Sealed payloads for the hardware security module: the sealing half of authority/authority.go and UnmarshalPayload of
    authority/hsm.go. The block cipher, the hashes and the keyed hash are parameters; chaining is cipher block chaining,
    section 6.2 of NIST SP 800-38A. */
module Hsm {
  import opened Wrappers
  type Byte = bv8
  type Bytes = seq<bv8>

  datatype Error = InvalidPayload | InvalidToken | EmptySecret | InvalidSignature | InvalidIv | InvalidLength

  const SIZE: nat := 16

  /** The cipher's two directions under a key, the key made from a secret, and the keyed hash in base64. */
  datatype Suite = Suite(
    enc: (Bytes, Bytes) -> Bytes,
    dec: (Bytes, Bytes) -> Bytes,
    key: string -> Bytes,
    mac: (string, Bytes) -> string)

  /** Both directions keep the block size and decryption undoes encryption. */
  ghost predicate Cipher(suite: Suite) {
    && (forall k, b | |b| == SIZE :: |suite.enc(k, b)| == SIZE)
    && (forall k, b | |b| == SIZE :: |suite.dec(k, b)| == SIZE)
    && (forall k, b | |b| == SIZE :: suite.dec(k, suite.enc(k, b)) == b)
  }

  function Xor(a: Bytes, b: Bytes): (r: Bytes)
    requires |a| == |b| == SIZE
    ensures |r| == SIZE
  {
    seq(SIZE, i requires 0 <= i < SIZE => a[i] ^ b[i])
  }

  lemma XorTwice(a: Bytes, b: Bytes)
    requires |a| == |b| == SIZE
    ensures Xor(Xor(a, b), b) == a
  {
    forall i | 0 <= i < SIZE
      ensures Xor(Xor(a, b), b)[i] == a[i]
    {
      assert (a[i] ^ b[i]) ^ b[i] == a[i];
    }
  }

  predicate Whole(s: Bytes) {
    |s| % SIZE == 0
  }

  // ---- Chaining

  ghost function Encrypt(suite: Suite, k: Bytes, prev: Bytes, s: Bytes): Bytes
    requires Cipher(suite) && |prev| == SIZE
    decreases |s|
  {
    if |s| < SIZE then []
    else
      var c := suite.enc(k, Xor(s[..SIZE], prev));
      c + Encrypt(suite, k, c, s[SIZE..])
  }

  ghost function Decrypt(suite: Suite, k: Bytes, prev: Bytes, s: Bytes): Bytes
    requires Cipher(suite) && |prev| == SIZE
    decreases |s|
  {
    if |s| < SIZE then []
    else Xor(suite.dec(k, s[..SIZE]), prev) + Decrypt(suite, k, s[..SIZE], s[SIZE..])
  }

  lemma {:induction false} EncryptWhole(suite: Suite, k: Bytes, prev: Bytes, s: Bytes)
    requires Cipher(suite) && |prev| == SIZE && Whole(s)
    ensures |Encrypt(suite, k, prev, s)| == |s|
    decreases |s|
  {
    if |s| >= SIZE {
      EncryptWhole(suite, k, suite.enc(k, Xor(s[..SIZE], prev)), s[SIZE..]);
    }
  }

  lemma {:induction false} DecryptUndoesEncrypt(suite: Suite, k: Bytes, prev: Bytes, s: Bytes)
    requires Cipher(suite) && |prev| == SIZE && Whole(s)
    ensures Decrypt(suite, k, prev, Encrypt(suite, k, prev, s)) == s
    decreases |s|
  {
    if |s| >= SIZE {
      var x := Xor(s[..SIZE], prev);
      var c := suite.enc(k, x);
      var rest := Encrypt(suite, k, c, s[SIZE..]);
      DecryptUndoesEncrypt(suite, k, c, s[SIZE..]);
      XorTwice(s[..SIZE], prev);
      assert (c + rest)[..SIZE] == c && (c + rest)[SIZE..] == rest;
      assert s == s[..SIZE] + s[SIZE..];
    }
  }

  /** Encrypts in place, block by block from the front. */
  method EncryptBlocks(suite: Suite, k: Bytes, iv: Bytes, a: array<Byte>)
    requires Cipher(suite) && |iv| == SIZE && Whole(a[..])
    modifies a
    ensures a[..] == Encrypt(suite, k, iv, old(a[..]))
  {
    ghost var was := a[..];
    ghost var done: Bytes := [];
    var prev, i := iv, 0;
    ghost var n, m := a.Length / SIZE, 0;
    assert a.Length == SIZE * n;
    assert was[0..] == was && [] + was == was;
    assert [] + Encrypt(suite, k, iv, was) == Encrypt(suite, k, iv, was);
    hide Xor, Encrypt, Cipher, Whole;
    while i < a.Length
      invariant 0 <= m <= n && i == SIZE * m && |prev| == SIZE && |done| == i
      invariant a[..] == done + was[i..]
      invariant done + Encrypt(suite, k, prev, was[i..]) == Encrypt(suite, k, iv, was)
    {
      EncryptStep(suite, k, prev, was, i);
      prev := EncryptBlock(suite, k, prev, a, i, was, done);
      Associates(done, prev, Encrypt(suite, k, prev, was[i + SIZE..]));
      done, i, m := done + prev, i + SIZE, m + 1;
    }
    EncryptNothing(suite, k, prev, was[i..]);
    assert done + [] == done;
  }

  lemma Associates(a: Bytes, b: Bytes, c: Bytes)
    ensures (a + b) + c == a + (b + c)
  {
  }

  method PutBlock(a: array<Byte>, i: nat, block: Bytes)
    requires |block| == SIZE && i + SIZE <= a.Length
    modifies a
    ensures a[..] == old(a[..i]) + block + old(a[i + SIZE..])
  {
    forall j | 0 <= j < SIZE {
      a[i + j] := block[j];
    }
  }

  /** One block in place; all from its start on is still plain text `was`. */
  method EncryptBlock(suite: Suite, k: Bytes, prev: Bytes, a: array<Byte>, i: nat, ghost was: Bytes, ghost done: Bytes)
    returns (c: Bytes)
    requires Cipher(suite) && |prev| == SIZE && |done| == i && i + SIZE <= |was| && a[..] == done + was[i..]
    modifies a
    ensures c == suite.enc(k, Xor(was[i..i + SIZE], prev)) && |c| == SIZE
    ensures a[..] == done + c + was[i + SIZE..]
  {
    hide Xor;
    assert a.Length == |a[..]| == |was|;
    assert a[i..i + SIZE] == a[..][i..i + SIZE] == was[i..i + SIZE];
    c := suite.enc(k, Xor(a[i..i + SIZE], prev));
    assert a[..i] == a[..][..i] == done;
    assert a[i + SIZE..] == a[..][i + SIZE..] == was[i + SIZE..];
    PutBlock(a, i, c);
  }

  lemma EncryptNothing(suite: Suite, k: Bytes, prev: Bytes, s: Bytes)
    requires Cipher(suite) && |prev| == SIZE && s == []
    ensures Encrypt(suite, k, prev, s) == []
  {
  }

  lemma EncryptStep(suite: Suite, k: Bytes, prev: Bytes, s: Bytes, i: nat)
    requires Cipher(suite) && |prev| == SIZE && i + SIZE <= |s|
    ensures var c := suite.enc(k, Xor(s[i..i + SIZE], prev));
      Encrypt(suite, k, prev, s[i..]) == c + Encrypt(suite, k, c, s[i + SIZE..])
  {
    hide Xor;
    assert s[i..][..SIZE] == s[i..i + SIZE] && s[i..][SIZE..] == s[i + SIZE..];
  }

  function Before(iv: Bytes, s: Bytes, i: nat): (r: Bytes)
    requires |iv| == SIZE && i <= |s|
    ensures |r| == SIZE
  {
    if i < SIZE then iv else s[i - SIZE..i]
  }

  lemma DecryptStep(suite: Suite, k: Bytes, iv: Bytes, s: Bytes, j: nat, i: nat)
    requires Cipher(suite) && |iv| == SIZE && j + SIZE == i <= |s|
    ensures Decrypt(suite, k, Before(iv, s, j), s[j..]) ==
      Xor(suite.dec(k, s[j..i]), Before(iv, s, j)) + Decrypt(suite, k, Before(iv, s, i), s[i..])
  {
    hide Xor;
    assert s[j..][..SIZE] == s[j..i] && s[j..][SIZE..] == s[i..];
  }

  /** One block in place, from `j` to `i`; all before its end is still ciphertext `was`. */
  method DecryptBlock(suite: Suite, k: Bytes, iv: Bytes, a: array<Byte>, j: nat, i: nat, ghost was: Bytes,
                      ghost done: Bytes)
    requires Cipher(suite) && |iv| == SIZE && j + SIZE == i <= |was| && (j == 0 || j >= SIZE)
    requires a[..] == was[..i] + done
    modifies a
    ensures a[..] == was[..j] + (Xor(suite.dec(k, was[j..i]), Before(iv, was, j)) + done)
  {
    hide Xor;
    assert a.Length == |a[..]| == i + |done|;
    var prev := if j == 0 then iv else a[j - SIZE..j];
    assert j > 0 ==> prev == a[..][j - SIZE..j] == was[j - SIZE..j];
    assert a[j..i] == a[..][j..i] == was[j..i];
    assert a[..j] == a[..][..j] == was[..j];
    assert a[i..] == a[..][i..] == done;
    var plain := Xor(suite.dec(k, a[j..i]), prev);
    PutBlock(a, j, plain);
    Associates(was[..j], plain, done);
  }

  /** Decrypts in place from the last block to the first, so that each block's predecessor is still ciphertext. */
  method DecryptBlocks(suite: Suite, k: Bytes, iv: Bytes, a: array<Byte>)
    requires Cipher(suite) && |iv| == SIZE && Whole(a[..])
    modifies a
    ensures a[..] == Decrypt(suite, k, iv, old(a[..]))
  {
    ghost var was := a[..];
    ghost var done: Bytes := [];
    var i := a.Length;
    ghost var m := i / SIZE;
    assert i == SIZE * m;
    DecryptNothing(suite, k, Before(iv, was, i), was[i..]);
    assert was[..i] + done == was;
    hide Xor, Decrypt, Before, Cipher, Whole;
    while i > 0
      invariant 0 <= i <= |was| && i == SIZE * m
      invariant a[..] == was[..i] + done
      invariant done == Decrypt(suite, k, Before(iv, was, i), was[i..])
    {
      var j := i - SIZE;
      assert m > 0 && j == SIZE * (m - 1);
      DecryptStep(suite, k, iv, was, j, i);
      DecryptBlock(suite, k, iv, a, j, i, was, done);
      done := Xor(suite.dec(k, was[j..i]), Before(iv, was, j)) + done;
      i, m := j, m - 1;
    }
    DecryptAll(suite, k, iv, was, done);
  }

  lemma StepBack(i: nat)
    requires i > 0 && i % SIZE == 0
    ensures i >= SIZE && (i - SIZE) % SIZE == 0
  {
  }

  lemma DecryptAll(suite: Suite, k: Bytes, iv: Bytes, s: Bytes, done: Bytes)
    requires Cipher(suite) && |iv| == SIZE && done == Decrypt(suite, k, Before(iv, s, 0), s[0..])
    ensures s[..0] + done == Decrypt(suite, k, iv, s)
  {
    hide Decrypt;
    assert s[0..] == s && s[..0] + done == done;
  }

  lemma DecryptNothing(suite: Suite, k: Bytes, prev: Bytes, s: Bytes)
    requires Cipher(suite) && |prev| == SIZE && s == []
    ensures Decrypt(suite, k, prev, s) == []
  {
  }

  // ---- What chaining is

  lemma RestAt(s: Bytes, i: nat)
    requires SIZE <= i && i + SIZE <= |s|
    ensures s[SIZE..][i - SIZE..i] == s[i..i + SIZE]
  {
  }

  lemma BeforeRest(iv: Bytes, s: Bytes, i: nat)
    requires |iv| == SIZE <= i <= |s| && i % SIZE == 0
    ensures Before(iv, s, i) == Before(s[..SIZE], s[SIZE..], i - SIZE)
  {
    if i > SIZE {
      RestAt(s, i - SIZE);
    }
  }

  lemma Parts(first: Bytes, rest: Bytes)
    requires |first| == SIZE
    ensures (first + rest)[0..SIZE] == (first + rest)[..SIZE] == first && (first + rest)[SIZE..] == rest
  {
  }

  lemma BeforeFirst(iv: Bytes, s: Bytes)
    requires |iv| == SIZE <= |s|
    ensures Before(iv, s, 0) == iv && s[0..SIZE] == s[..SIZE]
  {
  }

  lemma EncryptFirst(suite: Suite, k: Bytes, iv: Bytes, s: Bytes)
    requires Cipher(suite) && |iv| == SIZE && Whole(s) && SIZE <= |s|
    ensures var first := suite.enc(k, Xor(s[..SIZE], iv));
      |first| == SIZE && Encrypt(suite, k, iv, s) == first + Encrypt(suite, k, first, s[SIZE..])
  {
  }

  lemma DecryptFirst(suite: Suite, k: Bytes, iv: Bytes, c: Bytes)
    requires Cipher(suite) && |iv| == SIZE && Whole(c) && SIZE <= |c|
    ensures var first := suite.dec(k, c[..SIZE]);
      |first| == SIZE && Decrypt(suite, k, iv, c) == Xor(first, iv) + Decrypt(suite, k, c[..SIZE], c[SIZE..])
  {
  }

  lemma WholeRest(s: Bytes)
    requires Whole(s) && SIZE <= |s|
    ensures Whole(s[SIZE..])
  {
  }

  /** The ciphertext `c` has at `i` the encryption of the plain block mixed with the ciphertext before it, or, at the
      front, with the initialisation vector. */
  ghost predicate EncryptsAt(suite: Suite, k: Bytes, iv: Bytes, s: Bytes, c: Bytes, i: nat)
    requires |iv| == SIZE && i + SIZE <= |s| == |c|
  {
    c[i..i + SIZE] == suite.enc(k, Xor(s[i..i + SIZE], Before(iv, c, i)))
  }

  lemma {:induction false} EncryptAt(suite: Suite, k: Bytes, iv: Bytes, s: Bytes, i: nat)
    requires Cipher(suite) && |iv| == SIZE && Whole(s) && i % SIZE == 0 && i + SIZE <= |s|
    ensures |Encrypt(suite, k, iv, s)| == |s| && EncryptsAt(suite, k, iv, s, Encrypt(suite, k, iv, s), i)
    decreases i
  {
    hide Xor, Encrypt, Before, Cipher, Whole, EncryptsAt;
    EncryptWhole(suite, k, iv, s);
    EncryptFirst(suite, k, iv, s);
    var first := suite.enc(k, Xor(s[..SIZE], iv));
    var rest := Encrypt(suite, k, first, s[SIZE..]);
    Parts(first, rest);
    if i > 0 {
      StepBack(i);
      WholeRest(s);
      EncryptAt(suite, k, first, s[SIZE..], i - SIZE);
      EncryptsOn(suite, k, iv, s, first + rest, i);
    } else {
      EncryptsFirst(suite, k, iv, s, first + rest);
    }
  }

  lemma EncryptsOn(suite: Suite, k: Bytes, iv: Bytes, s: Bytes, c: Bytes, i: nat)
    requires |iv| == SIZE <= i && i % SIZE == 0 && i + SIZE <= |s| == |c|
    requires EncryptsAt(suite, k, c[..SIZE], s[SIZE..], c[SIZE..], i - SIZE)
    ensures EncryptsAt(suite, k, iv, s, c, i)
  {
    hide Xor, Before;
    RestAt(s, i);
    RestAt(c, i);
    BeforeRest(iv, c, i);
  }

  lemma EncryptsFirst(suite: Suite, k: Bytes, iv: Bytes, s: Bytes, c: Bytes)
    requires |iv| == SIZE <= |s| == |c| && c[..SIZE] == suite.enc(k, Xor(s[..SIZE], iv))
    ensures EncryptsAt(suite, k, iv, s, c, 0)
  {
    hide Xor, Before;
    BeforeFirst(iv, c);
    BeforeFirst(iv, s);
  }

  /** The plain text `s` has at `i` the decryption of the block of ciphertext, mixed with the ciphertext before it. */
  ghost predicate DecryptsAt(suite: Suite, k: Bytes, iv: Bytes, c: Bytes, s: Bytes, i: nat)
    requires |iv| == SIZE && i + SIZE <= |c| && i + SIZE <= |s|
  {
    var d := suite.dec(k, c[i..i + SIZE]);
    |d| == SIZE && s[i..i + SIZE] == Xor(d, Before(iv, c, i))
  }

  lemma {:induction false} DecryptAt(suite: Suite, k: Bytes, iv: Bytes, c: Bytes, i: nat)
    requires Cipher(suite) && |iv| == SIZE && Whole(c) && i % SIZE == 0 && i + SIZE <= |c|
    ensures |Decrypt(suite, k, iv, c)| >= i + SIZE && DecryptsAt(suite, k, iv, c, Decrypt(suite, k, iv, c), i)
    decreases i
  {
    hide Xor, Decrypt, Before, Cipher, Whole, DecryptsAt;
    DecryptFirst(suite, k, iv, c);
    var first := Xor(suite.dec(k, c[..SIZE]), iv);
    var rest := Decrypt(suite, k, c[..SIZE], c[SIZE..]);
    Parts(first, rest);
    if i > 0 {
      StepBack(i);
      WholeRest(c);
      DecryptAt(suite, k, c[..SIZE], c[SIZE..], i - SIZE);
      DecryptsOn(suite, k, iv, c, first + rest, i);
    } else {
      DecryptsFirst(suite, k, iv, c, first + rest);
    }
  }

  lemma DecryptsOn(suite: Suite, k: Bytes, iv: Bytes, c: Bytes, s: Bytes, i: nat)
    requires |iv| == SIZE <= i && i % SIZE == 0 && i + SIZE <= |c| && i + SIZE <= |s|
    requires DecryptsAt(suite, k, c[..SIZE], c[SIZE..], s[SIZE..], i - SIZE)
    ensures DecryptsAt(suite, k, iv, c, s, i)
  {
    hide Xor, Before;
    RestAt(s, i);
    RestAt(c, i);
    BeforeRest(iv, c, i);
  }

  lemma DecryptsFirst(suite: Suite, k: Bytes, iv: Bytes, c: Bytes, s: Bytes)
    requires |iv| == SIZE <= |c| && SIZE <= |s| && |suite.dec(k, c[..SIZE])| == SIZE
    requires s[..SIZE] == Xor(suite.dec(k, c[..SIZE]), iv)
    ensures DecryptsAt(suite, k, iv, c, s, 0)
  {
    hide Xor, Before;
    BeforeFirst(iv, c);
    BeforeFirst(iv, s);
  }

  // ---- Padding and trimming

  function Zeros(n: nat): Bytes {
    seq(n, _ => 0)
  }

  function Padded(s: Bytes): Bytes {
    s + Zeros(SIZE - |s| % SIZE)
  }

  function TrimZeros(s: Bytes): (r: Bytes) {
    if s != [] && s[|s| - 1] == 0 then TrimZeros(s[..|s| - 1]) else s
  }

  lemma {:induction false} TrimOfZeros(s: Bytes, n: nat)
    ensures TrimZeros(s + Zeros(n)) == TrimZeros(s)
  {
    if n == 0 {
      assert s + Zeros(0) == s;
    } else {
      assert (s + Zeros(n))[..|s| + n - 1] == s + Zeros(n - 1);
      TrimOfZeros(s, n - 1);
    }
  }

  /** Nothing but zeros is trimmed, and all of them at the end are. */
  lemma {:induction false} TrimMeans(s: Bytes)
    ensures var r := TrimZeros(s); |r| <= |s| && s == r + Zeros(|s| - |r|) && (r == [] || r[|r| - 1] != 0)
  {
    if s != [] && s[|s| - 1] == 0 {
      TrimMeans(s[..|s| - 1]);
      assert s == s[..|s| - 1] + [0];
    }
  }

  lemma {:induction false} TrimKeepsIff(s: Bytes)
    ensures TrimZeros(s) <= s
    ensures TrimZeros(s) == s <==> s == [] || s[|s| - 1] != 0
  {
    if s != [] && s[|s| - 1] == 0 {
      TrimKeepsIff(s[..|s| - 1]);
    }
  }

  // ---- Payloads

  datatype Payload = Payload(id: string, token: string, signature: string, iv: Option<Bytes>, data: Option<Bytes>)

  class HsmPayload {
    var id: string
    var token: string
    var signature: string
    var iv: array?<Byte>
    var data: array?<Byte>

    constructor (id: string, token: string, signature: string, iv: array?<Byte>, data: array?<Byte>)
      ensures this.id == id && this.token == token && this.signature == signature && this.iv == iv && this.data == data
    {
      this.id, this.token, this.signature, this.iv, this.data := id, token, signature, iv, data;
    }

    ghost function View(): Payload
      reads this, iv, data
    {
      Payload(id, token, signature, if iv == null then None else Some(iv[..]),
              if data == null then None else Some(data[..]))
    }
  }

  /** What UnmarshalPayload answers: the first failing check, or the plain text without its trailing zeros. */
  ghost function Opened(suite: Suite, token: string, secret: string, p: Payload): Result<Bytes, Error>
    requires Cipher(suite)
  {
    if p.id == "" || p.token == "" || p.iv.None? || p.data.None? then Err(InvalidPayload)
    else if token != p.token then Err(InvalidToken)
    else if secret == "" then Err(EmptySecret)
    else if suite.mac(secret, p.data.value) != p.signature then Err(InvalidSignature)
    else if |p.iv.value| != SIZE then Err(InvalidIv)
    else if p.data.value == [] || !Whole(p.data.value) then Err(InvalidLength)
    else Ok(TrimZeros(Decrypt(suite, suite.key(secret), p.iv.value, p.data.value)))
  }

  /** The payload around the sealed form of `plain`. */
  ghost function Sealed(suite: Suite, id: string, token: string, secret: string, iv: Bytes, plain: Bytes): Payload
    requires Cipher(suite) && |iv| == SIZE
  {
    var data := Encrypt(suite, suite.key(secret), iv, Padded(plain));
    Payload(id, token, suite.mac(secret, data), Some(iv), Some(data))
  }

  /** Seals a request under a drawn id and initialisation vector. */
  method Seal(suite: Suite, id: string, token: string, secret: string, iv: array<Byte>, plain: Bytes)
    returns (r: Result<HsmPayload, Error>)
    requires Cipher(suite) && iv.Length == SIZE
    ensures r == Err(EmptySecret) <==> secret == ""
    ensures r.Ok? <==> secret != ""
    ensures r.Ok? ==> fresh(r.value) && r.value.View() == Sealed(suite, id, token, secret, iv[..], plain)
    ensures r.Ok? ==> r.value.iv == iv && r.value.data != null && fresh(r.value.data)
    ensures r.Ok? ==>
      && r.value.id == id && r.value.token == token && r.value.signature == suite.mac(secret, r.value.data[..])
      && r.value.data[..] == Encrypt(suite, suite.key(secret), iv[..], plain + Zeros(SIZE - |plain| % SIZE))
  {
    var cipData := plain;
    var pad := SIZE - |cipData| % SIZE;
    for i := 0 to pad
      invariant cipData == plain + Zeros(i)
    {
      cipData := cipData + [0];
    }
    var buffer := new Byte[|cipData|](i requires 0 <= i < |cipData| => cipData[i]);
    assert buffer[..] == Padded(plain);
    EncryptBlocks(suite, suite.key(secret), iv[..], buffer);
    if secret == "" {
      return Err(EmptySecret);
    }
    var sig := suite.mac(secret, buffer[..]);
    var payload := new HsmPayload(id, token, sig, iv, buffer);
    return Ok(payload);
  }

  /** Checks and opens a payload. On success its data is left decrypted, with the padding; else it is unchanged. */
  method UnmarshalPayload(suite: Suite, token: string, secret: string, payload: HsmPayload)
    returns (r: Result<Bytes, Error>)
    requires Cipher(suite)
    modifies if payload.data == null then {} else {payload.data}
    ensures r == Opened(suite, token, secret, old(payload.View()))
    ensures r == Err(InvalidPayload) <==>
      payload.id == "" || payload.token == "" || payload.iv == null || payload.data == null
    ensures r != Err(InvalidPayload) ==>
      && (r == Err(InvalidToken) <==> token != payload.token)
      && (r == Err(EmptySecret) <==> token == payload.token && secret == "")
      && (r == Err(InvalidSignature) <==>
           token == payload.token && secret != "" && suite.mac(secret, old(payload.data[..])) != payload.signature)
    ensures r.Err? ==> payload.View() == old(payload.View())
    ensures r.Ok? ==>
      payload.data[..] == Decrypt(suite, suite.key(secret), old(payload.iv[..]), old(payload.data[..]))
  {
    if payload.id == "" || payload.token == "" || payload.iv == null || payload.data == null {
      return Err(InvalidPayload);
    }
    if token != payload.token {
      return Err(InvalidToken);
    }
    if secret == "" {
      return Err(EmptySecret);
    }
    var cipData := payload.data;
    var sig := suite.mac(secret, cipData[..]);
    if sig != payload.signature {
      return Err(InvalidSignature);
    }
    if payload.iv.Length != SIZE {
      return Err(InvalidIv);
    }
    if cipData.Length == 0 || cipData.Length % SIZE != 0 {
      return Err(InvalidLength);
    }
    DecryptBlocks(suite, suite.key(secret), payload.iv[..], cipData);
    return Ok(TrimZeros(cipData[..]));
  }

  lemma PaddedMeans(s: Bytes)
    ensures |Padded(s)| > |s| && Whole(Padded(s)) && Padded(s) == s + Zeros(SIZE - |s| % SIZE)
  {
  }

  /** Opening what was sealed, with the same token and secret, gives the plain text without its trailing zeros. */
  lemma SealedOpens(suite: Suite, id: string, token: string, secret: string, iv: Bytes, plain: Bytes)
    requires Cipher(suite) && |iv| == SIZE && id != "" && token != "" && secret != ""
    ensures Opened(suite, token, secret, Sealed(suite, id, token, secret, iv, plain)) == Ok(TrimZeros(plain))
  {
    hide Xor, Encrypt, Decrypt, Padded, TrimZeros, Zeros, Cipher;
    PaddedMeans(plain);
    EncryptWhole(suite, suite.key(secret), iv, Padded(plain));
    DecryptUndoesEncrypt(suite, suite.key(secret), iv, Padded(plain));
    TrimOfZeros(plain, SIZE - |plain| % SIZE);
  }

  /** The plain text comes back whole exactly when it is empty or does not end in a zero byte. */
  lemma RecoveredIff(suite: Suite, id: string, token: string, secret: string, iv: Bytes, plain: Bytes)
    requires Cipher(suite) && |iv| == SIZE && id != "" && token != "" && secret != ""
    ensures Opened(suite, token, secret, Sealed(suite, id, token, secret, iv, plain)) == Ok(plain) <==>
      plain == [] || plain[|plain| - 1] != 0
  {
    SealedOpens(suite, id, token, secret, iv, plain);
    TrimKeepsIff(plain);
  }

  /** Another token or secret opens a sealed payload only by a clash of tokens or of keyed hashes. */
  lemma OpensOnlyWithItsKeys(suite: Suite, id: string, token: string, secret: string, iv: Bytes, plain: Bytes,
                             token': string, secret': string)
    requires Cipher(suite) && |iv| == SIZE
    ensures Opened(suite, token', secret', Sealed(suite, id, token, secret, iv, plain)).Ok? <==>
      var data := Encrypt(suite, suite.key(secret), iv, Padded(plain));
      id != "" && token' == token != "" && secret' != "" && suite.mac(secret', data) == suite.mac(secret, data)
  {
    hide Xor, Encrypt, Decrypt, Padded;
    PaddedMeans(plain);
    EncryptWhole(suite, suite.key(secret), iv, Padded(plain));
  }

  /** The whole exchange on one heap object: sealed, then opened. */
  method Exchange(suite: Suite, id: string, token: string, secret: string, iv: array<Byte>, plain: Bytes)
    returns (r: Result<Bytes, Error>)
    requires Cipher(suite) && iv.Length == SIZE && id != "" && token != ""
    ensures r == if secret == "" then Err(EmptySecret) else Ok(TrimZeros(plain))
  {
    var sealed := Seal(suite, id, token, secret, iv, plain);
    if sealed.Err? {
      return Err(sealed.error);
    }
    SealedOpens(suite, id, token, secret, iv[..], plain);
    r := UnmarshalPayload(suite, token, secret, sealed.value);
  }
}
