/** AES-CBC with PKCS#7 padding and HMAC (`cipherstring.rs`), over an abstract block cipher,
    MAC, public-key operation and text encoding. */
module Cipher {
  import opened Prelude
  import opened Bytes
  import opened Locked

  const BLOCK: nat := 16

  datatype Primitives = Primitives(
    encryptBlock: (seq<byte>, seq<byte>) -> seq<byte>,
    decryptBlock: (seq<byte>, seq<byte>) -> seq<byte>,
    mac: (seq<byte>, seq<byte>) -> seq<byte>,
    rsaEncrypt: (seq<byte>, seq<byte>) -> seq<byte>,          // under the key pair of a private key
    rsaDecrypt: (seq<byte>, seq<byte>) -> Option<seq<byte>>,  // parse the private key and decrypt
    utf8Encode: string -> seq<byte>,
    utf8Decode: seq<byte> -> Option<string>
  )

  /** The laws the primitives are used under: a block permutation and its inverse, a MAC of 32
      bytes, and inverse pairs. */
  ghost predicate Lawful(p: Primitives) {
    && (forall k, b :: |k| == 32 && |b| == BLOCK ==> |p.encryptBlock(k, b)| == BLOCK)
    && (forall k, b :: |k| == 32 && |b| == BLOCK ==> |p.decryptBlock(k, b)| == BLOCK)
    && (forall k, b {:trigger p.encryptBlock(k, b)} ::
          |k| == 32 && |b| == BLOCK ==> p.decryptBlock(k, p.encryptBlock(k, b)) == b)
    && (forall k, m :: |p.mac(k, m)| == 32)
    && (forall k, m :: p.rsaDecrypt(k, p.rsaEncrypt(k, m)) == Some(m))
    && (forall s {:trigger p.utf8Encode(s)} :: p.utf8Decode(p.utf8Encode(s)) == Some(s))
  }

  function EncodeText(s: string): seq<byte> {
    if s == [] then [] else
      var c := s[0] as int;
      [c / 0x1_0000, c / 0x100 % 0x100, c % 0x100] + EncodeText(s[1..])
  }

  function DecodeText(b: seq<byte>): Option<string> {
    if b == [] then Some("")
    else if |b| < 3 then None
    else
      var c := b[0] as nat * 0x1_0000 + b[1] as nat * 0x100 + b[2] as nat;
      var rest := DecodeText(b[3..]);
      if rest.None? || !(c < 0xD800 || 0xE000 <= c < 0x11_0000) then None else Some([c as char] + rest.value)
  }

  lemma ThreeDigits(c: nat)
    ensures c / 0x1_0000 * 0x1_0000 + c / 0x100 % 0x100 * 0x100 + c % 0x100 == c
  {
    assert c / 0x1_0000 == c / 0x100 / 0x100;
  }

  lemma {:induction false} DecodeEncodeText(s: string)
    ensures DecodeText(EncodeText(s)) == Some(s)
  {
    if s != [] {
      DecodeEncodeText(s[1..]);
      ThreeDigits(s[0] as nat);
      assert EncodeText(s)[3..] == EncodeText(s[1..]) && s == [s[0]] + s[1..];
    }
  }

  /** The laws can be met: by the identity as block permutation and as public-key operation, a
      constant MAC, and a fixed-width text encoding. */
  lemma LawfulHasInstance() returns (p: Primitives)
    ensures Lawful(p)
  {
    p := Primitives((k, b) => b, (k, b) => b, (k, m) => Repeat(0, 32), (k, m) => m, (k, m) => Some(m),
                    EncodeText, DecodeText);
    forall s ensures p.utf8Decode(p.utf8Encode(s)) == Some(s) {
      DecodeEncodeText(s);
    }
  }

  datatype Error =
    | InvalidCipherString | UnimplementedType | TooOldType | InvalidBase64
    | InvalidMac | CreateBlockMode | Decrypt | Padding | Rsa | Utf8 | WrongPassword
    | Panic  // the source panics: a slice out of range or a full fixed-capacity buffer

  datatype CipherString =
    | Symmetric(iv: seq<byte>, ciphertext: seq<byte>, mac: Option<seq<byte>>)
    | Asymmetric(ciphertext: seq<byte>)

  // ----- Padding ---------------------------------------------------------------------------

  function Pad(b: seq<byte>): (r: seq<byte>)
    ensures |r| % BLOCK == 0 && |b| < |r| <= |b| + BLOCK
  {
    var n := BLOCK - |b| % BLOCK;
    b + Repeat(n, n)
  }

  /** `b` ends in a padding of `n` bytes of value `n`. */
  predicate Padded(b: seq<byte>, n: nat) {
    1 <= n < 256 && n <= |b| && b[|b| - n..] == Repeat(n, n)
  }

  /** What the block cipher removes: the padding of the last block. */
  function UnpadBlock(b: seq<byte>): Option<seq<byte>> {
    if |b| == 0 then None
    else
      var n := b[|b| - 1] as nat;
      if n <= BLOCK && Padded(b, n) then Some(b[..|b| - n]) else None
  }

  lemma UnpadPad(b: seq<byte>)
    ensures UnpadBlock(Pad(b)) == Some(b)
  {
    var n := BLOCK - |b| % BLOCK;
    assert Pad(b)[|Pad(b)| - n..] == Repeat(n, n);
    assert Pad(b)[..|Pad(b)| - n] == b;
  }

  /** The payload of a padded buffer, whatever the length of the padding. */
  function Unpad(b: seq<byte>): Option<seq<byte>> {
    if |b| > 0 && Padded(b, b[|b| - 1]) then Some(b[..|b| - b[|b| - 1]]) else None
  }

  /** `Unpad` returns `p` exactly when the buffer is `p` followed by `n` bytes of value `n` for
      an `n` from 1 to 255. */
  lemma UnpadExactly(b: seq<byte>, p: seq<byte>)
    ensures Unpad(b) == Some(p) <==> exists n: nat :: 1 <= n < 256 && b == p + Repeat(n, n)
  {
    if Unpad(b) == Some(p) {
      var n := b[|b| - 1] as nat;
      assert b == p + Repeat(n, n);
    }
    forall n: nat | 1 <= n < 256 && b == p + Repeat(n, n) ensures Unpad(b) == Some(p) {
      assert b[|b| - n..] == Repeat(n, n) && b[..|b| - n] == p;
    }
  }

  /** `pkcs7_unpad`. */
  method Pkcs7Unpad(b: seq<byte>) returns (r: Option<seq<byte>>)
    ensures r == Unpad(b)
  {
    if |b| == 0 {
      return None;
    }
    var value := b[|b| - 1];
    if value == 0 {
      return None;
    }
    var length := value as nat;
    if length > |b| {
      return None;
    }
    for i := |b| - length to |b|
      invariant forall k :: |b| - length <= k < i ==> b[k] == value
    {
      if b[i] != value {
        assert b[|b| - length..][i - (|b| - length)] != value;
        return None;
      }
    }
    return Some(b[..|b| - length]);
  }

  // ----- Cipher block chaining (NIST SP 800-38A, section 6.2) ------------------------------

  function CbcEncrypt(p: Primitives, k: seq<byte>, prev: seq<byte>, b: seq<byte>): (r: seq<byte>)
    requires Lawful(p) && |k| == 32 && |prev| == BLOCK && |b| % BLOCK == 0
    ensures |r| == |b|
    decreases |b|
  {
    if b == [] then [] else
      var c := p.encryptBlock(k, XorAll(b[..BLOCK], prev));
      c + CbcEncrypt(p, k, c, b[BLOCK..])
  }

  /** One block of the decryption. */
  function CbcBlock(p: Primitives, k: seq<byte>, prev: seq<byte>, c: seq<byte>): (r: seq<byte>)
    requires Lawful(p) && |k| == 32 && |prev| == BLOCK && |c| == BLOCK
    ensures |r| == BLOCK
  {
    XorAll(p.decryptBlock(k, c), prev)
  }

  function CbcDecrypt(p: Primitives, k: seq<byte>, prev: seq<byte>, c: seq<byte>): (r: seq<byte>)
    requires Lawful(p) && |k| == 32 && |prev| == BLOCK && |c| % BLOCK == 0
    ensures |r| == |c|
    decreases |c|
  {
    if c == [] then [] else
      CbcBlock(p, k, prev, c[..BLOCK]) + CbcDecrypt(p, k, c[..BLOCK], c[BLOCK..])
  }

  lemma {:induction false} CbcInverse(p: Primitives, k: seq<byte>, prev: seq<byte>, b: seq<byte>)
    requires Lawful(p) && |k| == 32 && |prev| == BLOCK && |b| % BLOCK == 0
    ensures CbcDecrypt(p, k, prev, CbcEncrypt(p, k, prev, b)) == b
    decreases |b|
  {
    if b != [] {
      var x := XorAll(b[..BLOCK], prev);
      var c := p.encryptBlock(k, x);
      var rest := CbcEncrypt(p, k, c, b[BLOCK..]);
      CbcInverse(p, k, c, b[BLOCK..]);
      XorAllCancels(b[..BLOCK], prev);
      assert (c + rest)[..BLOCK] == c && (c + rest)[BLOCK..] == rest;
      assert b == b[..BLOCK] + b[BLOCK..];
    }
  }

  lemma Chained(front: seq<byte>, rest: seq<byte>, at: nat)
    requires |front| == BLOCK && BLOCK <= at && at + BLOCK <= |front + rest|
    ensures (front + rest)[at..at + BLOCK] == rest[at - BLOCK..at]
  {
  }

  /** Each ciphertext block is the encryption of its plaintext block combined with the ciphertext
      block in front of it, the first one with the initialization vector. */
  lemma {:induction false} CbcEncryptsBlocks(p: Primitives, k: seq<byte>, iv: seq<byte>, b: seq<byte>, i: nat)
    requires Lawful(p) && |k| == 32 && |iv| == BLOCK && |b| % BLOCK == 0 && BLOCK * i < |b|
    ensures var c, at := CbcEncrypt(p, k, iv, b), BLOCK * i;
            c[at..at + BLOCK] == p.encryptBlock(k, XorAll(b[at..at + BLOCK], if i == 0 then iv else c[at - BLOCK..at]))
    decreases i
  {
    var first := p.encryptBlock(k, XorAll(b[..BLOCK], iv));
    var rest := CbcEncrypt(p, k, first, b[BLOCK..]);
    var at := BLOCK * i;
    assert CbcEncrypt(p, k, iv, b) == first + rest;
    assert b[0..BLOCK] == b[..BLOCK] && (first + rest)[0..BLOCK] == first;
    if i > 0 {
      CbcEncryptsBlocks(p, k, first, b[BLOCK..], i - 1);
      hide CbcEncrypt;
      Chained(first, rest, at);
      Chained(b[..BLOCK], b[BLOCK..], at);
      assert b[..BLOCK] + b[BLOCK..] == b;
      if i > 1 {
        Chained(first, rest, at - BLOCK);
      } else {
        assert (first + rest)[at - BLOCK..at] == first;
      }
    }
  }

  /** The block before the `i`-th one. */
  function BlockBefore(iv: seq<byte>, c: seq<byte>, i: nat): (r: seq<byte>)
    requires |iv| == BLOCK && BLOCK * i <= |c|
    ensures |r| == BLOCK
  {
    if i == 0 then iv else c[BLOCK * i - BLOCK..BLOCK * i]
  }

  lemma {:induction false} DecryptedBlock(p: Primitives, k: seq<byte>, iv: seq<byte>, c: seq<byte>, i: nat)
    requires Lawful(p) && |k| == 32 && |iv| == BLOCK && |c| % BLOCK == 0 && BLOCK * i < |c|
    ensures CbcDecrypt(p, k, iv, c)[BLOCK * i..BLOCK * i + BLOCK]
            == CbcBlock(p, k, BlockBefore(iv, c, i), c[BLOCK * i..BLOCK * i + BLOCK])
    decreases i
  {
    var first := CbcBlock(p, k, iv, c[..BLOCK]);
    var rest := CbcDecrypt(p, k, c[..BLOCK], c[BLOCK..]);
    assert CbcDecrypt(p, k, iv, c) == first + rest;
    hide CbcBlock, CbcDecrypt, Lawful;
    if i == 0 {
      assert c[0..BLOCK] == c[..BLOCK] && (first + rest)[0..BLOCK] == first;
    } else {
      DecryptedBlock(p, k, c[..BLOCK], c[BLOCK..], i - 1);
      var at := BLOCK * i;
      assert BLOCK * (i - 1) == at - BLOCK;
      Chained(first, rest, at);
      BlocksInFront(iv, c, i);
      hide BlockBefore;
      assert rest[at - BLOCK..at] == CbcBlock(p, k, BlockBefore(iv, c, i), c[at..at + BLOCK]);
    }
  }

  /** And each plaintext block the decryption of its ciphertext block, combined likewise. */
  lemma CbcDecryptsBlocks(p: Primitives, k: seq<byte>, iv: seq<byte>, c: seq<byte>, i: nat)
    requires Lawful(p) && |k| == 32 && |iv| == BLOCK && |c| % BLOCK == 0 && BLOCK * i < |c|
    ensures var at := BLOCK * i;
            CbcDecrypt(p, k, iv, c)[at..at + BLOCK]
            == XorAll(p.decryptBlock(k, c[at..at + BLOCK]), if i == 0 then iv else c[at - BLOCK..at])
  {
    DecryptedBlock(p, k, iv, c, i);
    hide CbcDecrypt;
  }

  /** A block, and the one in front of it, seen from behind the first. */
  lemma BlocksInFront(iv: seq<byte>, c: seq<byte>, i: nat)
    requires i > 0 && BLOCK * i + BLOCK <= |c| && |iv| == BLOCK
    ensures c[BLOCK..][BLOCK * i - BLOCK..BLOCK * i] == c[BLOCK * i..BLOCK * i + BLOCK]
    ensures BlockBefore(c[..BLOCK], c[BLOCK..], i - 1) == BlockBefore(iv, c, i)
  {
    if i == 1 {
      assert c[0..BLOCK] == c[..BLOCK];
    } else {
      assert BLOCK * (i - 1) == BLOCK * i - BLOCK;
      assert c[BLOCK..][BLOCK * i - BLOCK - BLOCK..BLOCK * i - BLOCK] == c[BLOCK * i - BLOCK..BLOCK * i];
    }
  }

  /** Overwrite one block of the buffer. */
  method WriteBlock(buffer: Buffer, at: nat, plain: seq<byte>)
    requires buffer.Valid() && |plain| == BLOCK && at + BLOCK <= buffer.len
    modifies buffer.bytes
    ensures buffer.Valid()
    ensures buffer.Data() == old(buffer.Data())[..at] + plain + old(buffer.Data())[at + BLOCK..]
  {
    for i := 0 to BLOCK
      invariant forall j :: 0 <= j < buffer.len ==>
                  buffer.bytes[j] == if at <= j < at + i then plain[j - at] else old(buffer.bytes[j])
    {
      buffer.bytes[at + i] := plain[i];
    }
  }

  lemma CbcDecryptStep(p: Primitives, k: seq<byte>, prev: seq<byte>, done: seq<byte>, block: seq<byte>, rest: seq<byte>)
    requires Lawful(p) && |k| == 32 && |prev| == BLOCK && |block| == BLOCK && |rest| % BLOCK == 0
    ensures done + CbcDecrypt(p, k, prev, block + rest)
            == (done + CbcBlock(p, k, prev, block)) + CbcDecrypt(p, k, block, rest)
  {
    assert (block + rest)[..BLOCK] == block && (block + rest)[BLOCK..] == rest;
  }

  lemma FirstBlock(data: seq<byte>, done: seq<byte>, rest: seq<byte>, plain: seq<byte>)
    requires data == done + rest && |rest| >= BLOCK && |plain| == BLOCK
    ensures data[|done|..|done| + BLOCK] == rest[..BLOCK] && rest == rest[..BLOCK] + rest[BLOCK..]
    ensures data[..|done|] + plain + data[|done| + BLOCK..] == (done + plain) + rest[BLOCK..]
  {
  }

  /** Decrypt the block at `at` in place and return its ciphertext for the next one. */
  method CbcDecryptBlock(p: Primitives, k: seq<byte>, prev: seq<byte>, buffer: Buffer, at: nat,
                         ghost done: seq<byte>, ghost rest: seq<byte>)
    returns (block: seq<byte>)
    requires Lawful(p) && |k| == 32 && |prev| == BLOCK && buffer.Valid()
    requires buffer.Data() == done + rest && |done| == at && |rest| >= BLOCK
    modifies buffer.bytes
    ensures buffer.Valid() && block == rest[..BLOCK]
    ensures buffer.Data() == (done + CbcBlock(p, k, prev, block)) + rest[BLOCK..]
  {
    block := buffer.Data()[at..at + BLOCK];
    FirstBlock(buffer.Data(), done, rest, CbcBlock(p, k, prev, block));
    WriteBlock(buffer, at, CbcBlock(p, k, prev, block));
  }

  /** Decrypt the buffer in place, block by block, as the CBC decryptor does. */
  method CbcDecryptInPlace(p: Primitives, k: seq<byte>, iv: seq<byte>, buffer: Buffer)
    requires Lawful(p) && |k| == 32 && |iv| == BLOCK && buffer.Valid() && buffer.len % BLOCK == 0
    modifies buffer.bytes
    ensures buffer.Valid() && buffer.Data() == CbcDecrypt(p, k, iv, old(buffer.Data()))
  {
    ghost var goal := CbcDecrypt(p, k, iv, buffer.Data());
    var prev, at := iv, 0;
    ghost var done: seq<byte>, rest := [], buffer.Data();
    assert done + goal == goal;
    while at < buffer.len
      invariant 0 <= at <= buffer.len && |prev| == BLOCK && buffer.Valid()
      invariant |done| == at && |rest| == buffer.len - at && |rest| % BLOCK == 0
      invariant buffer.Data() == done + rest
      invariant done + CbcDecrypt(p, k, prev, rest) == goal
    {
      var block := CbcDecryptBlock(p, k, prev, buffer, at, done, rest);
      assert rest == block + rest[BLOCK..];
      CbcDecryptStep(p, k, prev, done, block, rest[BLOCK..]);
      done, rest := done + CbcBlock(p, k, prev, block), rest[BLOCK..];
      prev, at := block, at + BLOCK;
    }
    assert rest == [] && done + [] == done;
  }

  // ----- Encryption and decryption of cipher strings ---------------------------------------

  /** `encrypt_symmetric`; the random initialization vector is a parameter. */
  function EncryptSymmetric(p: Primitives, keys: Keys, iv: seq<byte>, plaintext: seq<byte>): CipherString
    requires Lawful(p) && |keys.data| >= 64 && |iv| == BLOCK
  {
    var ciphertext := CbcEncrypt(p, keys.EncKey(), iv, Pad(plaintext));
    Symmetric(iv, ciphertext, Some(p.mac(keys.MacKey(), iv + ciphertext)))
  }

  /** `decrypt_common_symmetric`: why a ciphertext is refused before it is decrypted. */
  function Refused(p: Primitives, keys: Keys, iv: seq<byte>, ciphertext: seq<byte>, mac: Option<seq<byte>>)
    : Option<Error>
  {
    if mac.None? then Some(InvalidMac)
    else if |keys.data| < 64 || |mac.value| != 32 then Some(Panic)
    else if p.mac(keys.MacKey(), iv + ciphertext) != mac.value then Some(InvalidMac)
    else if |iv| != BLOCK then Some(CreateBlockMode)
    else None
  }

  /** `decrypt_symmetric`: the plaintext without its padding. */
  function DecryptSymmetric(p: Primitives, v: CipherString, keys: Keys, entryKey: Option<Keys>)
    : Result<seq<byte>, Error>
    requires Lawful(p)
  {
    if v.Asymmetric? then Err(InvalidCipherString)
    else
      var k := if entryKey.Some? then entryKey.value else keys;
      var refused := Refused(p, k, v.iv, v.ciphertext, v.mac);
      if refused.Some? then Err(refused.value)
      else if |v.ciphertext| % BLOCK != 0 then Err(Decrypt)
      else
        var plain := UnpadBlock(CbcDecrypt(p, k.EncKey(), v.iv, v.ciphertext));
        if plain.None? then Err(Decrypt) else Ok(plain.value)
  }

  /** `decrypt_locked_symmetric` on values: the whole buffer, its padding included. */
  function DecryptLocked(p: Primitives, v: CipherString, keys: Keys): Result<seq<byte>, Error>
    requires Lawful(p)
  {
    if v.Asymmetric? then Err(InvalidCipherString)
    else if |v.ciphertext| > CAPACITY then Err(Panic)
    else
      var refused := Refused(p, keys, v.iv, v.ciphertext, v.mac);
      if refused.Some? then Err(refused.value)
      else if |v.ciphertext| % BLOCK != 0 then Err(Decrypt)
      else
        var plain := CbcDecrypt(p, keys.EncKey(), v.iv, v.ciphertext);
        if UnpadBlock(plain).None? then Err(Decrypt) else Ok(plain)
  }

  /** `decrypt_locked_symmetric`: the ciphertext is copied into a buffer and decrypted there. */
  method DecryptLockedSymmetric(p: Primitives, v: CipherString, keys: Keys) returns (r: Result<Buffer, Error>)
    requires Lawful(p) && DecryptLocked(p, v, keys) != Err(Panic)
    ensures match DecryptLocked(p, v, keys)
            case Ok(plain) => r.Ok? && fresh(r.value) && r.value.Valid() && r.value.Data() == plain
            case Err(e) => r == Err(e)
  {
    if v.Asymmetric? {
      return Err(InvalidCipherString);
    }
    var buffer := new Buffer();
    buffer.Extend(v.ciphertext);
    assert buffer.Data() == v.ciphertext;
    var refused := Refused(p, keys, v.iv, v.ciphertext, v.mac);
    if refused.Some? {
      return Err(refused.value);
    }
    if |v.ciphertext| % BLOCK != 0 {
      return Err(Decrypt);
    }
    CbcDecryptInPlace(p, keys.EncKey(), v.iv, buffer);
    if UnpadBlock(buffer.Data()).None? {
      return Err(Decrypt);
    }
    return Ok(buffer);
  }

  /** `decrypt_locked_asymmetric`: the private key is recovered from a buffer that still has
      its padding. */
  function DecryptAsymmetric(p: Primitives, v: CipherString, privateKey: seq<byte>): Result<seq<byte>, Error> {
    if v.Symmetric? then Err(InvalidCipherString)
    else
      var der := Unpad(privateKey);
      if der.None? then Err(Padding)
      else
        var plain := p.rsaDecrypt(der.value, v.ciphertext);
        if plain.None? then Err(Rsa)
        else if |plain.value| > CAPACITY then Err(Panic)
        else Ok(plain.value)
  }

  /** The MAC of a cipher string is right, and its sizes are, under a key buffer of which the first
      32 bytes encrypt and the next 32 authenticate. */
  predicate Genuine(p: Primitives, v: CipherString, key: seq<byte>) {
    && v.Symmetric? && |key| >= 64 && |v.iv| == 16 && |v.ciphertext| % 16 == 0
    && v.mac == Some(p.mac(key[32..64], v.iv + v.ciphertext)) && |v.mac.value| == 32
  }

  /** The last block ends in `n` bytes of value `n`, for an `n` from 1 to 16. */
  predicate EndsInPadding(b: seq<byte>, n: nat) {
    1 <= n <= 16 && n <= |b| && forall i :: |b| - n <= i < |b| ==> b[i] == n
  }

  lemma UnpadBlockExactly(b: seq<byte>, plain: seq<byte>)
    ensures UnpadBlock(b) == Some(plain) <==>
              exists n: nat :: EndsInPadding(b, n) && plain == b[..|b| - n]
  {
    if UnpadBlock(b) == Some(plain) {
      var n := b[|b| - 1] as nat;
      forall i | |b| - n <= i < |b| ensures b[i] == n {
        assert b[|b| - n..][i - (|b| - n)] == b[i];
      }
      assert EndsInPadding(b, n);
    }
    forall n: nat | EndsInPadding(b, n) ensures UnpadBlock(b) == Some(b[..|b| - n]) {
      assert b[|b| - 1] == n && b[|b| - n..] == Repeat(n, n);
    }
  }

  /** Decryption succeeds exactly for genuine values with a sound padding; the plain variant returns
      what stands before the padding, the locked one everything, if the buffer holds it. */
  lemma DecryptsExactly(p: Primitives, v: CipherString, keys: Keys, plain: seq<byte>)
    requires Lawful(p)
    ensures DecryptSymmetric(p, v, keys, None) == Ok(plain) <==>
              && Genuine(p, v, keys.data)
              && exists n: nat ::
                   && EndsInPadding(CbcDecrypt(p, keys.data[..32], v.iv, v.ciphertext), n)
                   && plain == CbcDecrypt(p, keys.data[..32], v.iv, v.ciphertext)[..|v.ciphertext| - n]
    ensures DecryptLocked(p, v, keys) == Ok(plain) <==>
              && Genuine(p, v, keys.data) && |v.ciphertext| <= 4096
              && plain == CbcDecrypt(p, keys.data[..32], v.iv, v.ciphertext)
              && exists n: nat :: EndsInPadding(plain, n)
  {
    if v.Symmetric? && |keys.data| >= 64 && |v.iv| == BLOCK && |v.ciphertext| % BLOCK == 0 {
      var all := CbcDecrypt(p, keys.EncKey(), v.iv, v.ciphertext);
      UnpadBlockExactly(all, plain);
      forall n: nat | EndsInPadding(all, n) ensures UnpadBlock(all).Some? {
        UnpadBlockExactly(all, all[..|all| - n]);
      }
      if UnpadBlock(all).Some? {
        UnpadBlockExactly(all, UnpadBlock(all).value);
      }
      hide CbcDecrypt, UnpadBlock, EndsInPadding;
    }
  }

  /** Every refusal has its reason. */
  lemma RefusalsAreExact(p: Primitives, v: CipherString, keys: Keys)
    requires Lawful(p) && |keys.data| >= 64 && (v.Symmetric? && v.mac.Some? ==> |v.mac.value| == 32)
    ensures v.Asymmetric? ==>
              DecryptSymmetric(p, v, keys, None) == DecryptLocked(p, v, keys) == Err(InvalidCipherString)
    ensures v.Symmetric? && v.mac != Some(p.mac(keys.data[32..64], v.iv + v.ciphertext)) ==>
              DecryptSymmetric(p, v, keys, None) == Err(InvalidMac)
              && (|v.ciphertext| <= 4096 ==> DecryptLocked(p, v, keys) == Err(InvalidMac))
    ensures v.Symmetric? && v.mac == Some(p.mac(keys.data[32..64], v.iv + v.ciphertext)) && |v.iv| != 16 ==>
              DecryptSymmetric(p, v, keys, None) == Err(CreateBlockMode)
              && (|v.ciphertext| <= 4096 ==> DecryptLocked(p, v, keys) == Err(CreateBlockMode))
    ensures v.Symmetric? && v.mac == Some(p.mac(keys.data[32..64], v.iv + v.ciphertext)) && |v.iv| == 16 ==>
              (DecryptSymmetric(p, v, keys, None).Err? ==> DecryptSymmetric(p, v, keys, None).error == Decrypt)
              && (|v.ciphertext| <= 4096 && DecryptLocked(p, v, keys).Err? ==>
                    DecryptLocked(p, v, keys).error == Decrypt)
  {
    hide CbcDecrypt, UnpadBlock;
  }

  /** What a client makes from two 32-byte keys, encrypting with the first and authenticating with
      the second, decrypts under the buffer that holds them in this order, whatever follows. */
  lemma DecryptsUnderHalves(p: Primitives, enc: seq<byte>, mac: seq<byte>, tail: seq<byte>, iv: seq<byte>, m: seq<byte>)
    requires Lawful(p) && |enc| == |mac| == 32 && |iv| == 16
    ensures var ct := CbcEncrypt(p, enc, iv, Pad(m));
            var v := Symmetric(iv, ct, Some(p.mac(mac, iv + ct)));
            && DecryptSymmetric(p, v, Keys(enc + mac + tail), None) == Ok(m)
            && (|Pad(m)| <= 4096 ==> DecryptLocked(p, v, Keys(enc + mac + tail)) == Ok(Pad(m)))
  {
    var keys := Keys(enc + mac + tail);
    assert keys.EncKey() == enc && keys.MacKey() == mac;
    CbcInverse(p, enc, iv, Pad(m));
    UnpadPad(m);
  }

  /** Decryption inverts encryption under any key buffer that starts with the same 64 bytes;
      the buffer of the locked variant keeps the padding. */
  lemma DecryptEncrypted(p: Primitives, keys: Keys, other: Keys, iv: seq<byte>, plaintext: seq<byte>)
    requires Lawful(p) && |keys.data| >= 64 && |iv| == BLOCK && keys.data[..64] <= other.data
    ensures var v := EncryptSymmetric(p, keys, iv, plaintext);
            && (forall outer :: DecryptSymmetric(p, v, outer, Some(other)) == Ok(plaintext))
            && DecryptSymmetric(p, v, other, None) == Ok(plaintext)
            && DecryptLocked(p, v, other) == (if |Pad(plaintext)| <= CAPACITY then Ok(Pad(plaintext)) else Err(Panic))
  {
    assert other.data[..32] == keys.data[..64][..32] == keys.data[..32];
    assert other.data[32..64] == keys.data[..64][32..64] == keys.data[32..64];
    CbcInverse(p, keys.EncKey(), iv, Pad(plaintext));
    UnpadPad(plaintext);
  }
}
