/** The session envelope (`session_envelope.rs`) and the file around it (`session_store.rs`),
    over an abstract AEAD and key derivation. */
module Envelope {
  import opened Prelude
  import opened Bytes
  import opened Locked

  const VERSION: byte := 1
  const NONCE_LEN: nat := 24
  const TAG_LEN: nat := 16
  const MAX_ENVELOPE_BYTES: nat := 16 * 1024

  datatype Aead = Aead(
    derive: seq<byte> -> seq<byte>,                                            // HKDF of the encryption key
    encrypt: (seq<byte>, seq<byte>, seq<byte>, seq<byte>) -> seq<byte>,          // key, nonce, AAD, message
    decrypt: (seq<byte>, seq<byte>, seq<byte>, seq<byte>) -> Option<seq<byte>>,  // key, nonce, AAD, ciphertext
    isUtf8: seq<byte> -> bool
  )

  /** A ciphertext is a tag longer than its message, and decrypts to exactly that message. */
  ghost predicate Correct(a: Aead) {
    && (forall k, n, aad, m {:trigger a.encrypt(k, n, aad, m)} :: |a.encrypt(k, n, aad, m)| == |m| + TAG_LEN)
    && (forall k, n, aad, m, c {:trigger a.decrypt(k, n, aad, c), a.encrypt(k, n, aad, m)} ::
          a.decrypt(k, n, aad, c) == Some(m) <==> c == a.encrypt(k, n, aad, m))
  }

  function WithTag(m: seq<byte>): seq<byte> {
    m + Repeat(0, TAG_LEN)
  }

  function WithoutTag(c: seq<byte>): Option<seq<byte>> {
    if |c| >= TAG_LEN && c == WithTag(c[..|c| - TAG_LEN]) then Some(c[..|c| - TAG_LEN]) else None
  }

  /** The law can be met: by a constant tag. */
  lemma CorrectHasInstance() returns (a: Aead)
    ensures Correct(a)
  {
    a := Aead(k => k, (k, n, aad, m) => WithTag(m), (k, n, aad, c) => WithoutTag(c), b => true);
    forall m, c ensures WithoutTag(c) == Some(m) <==> c == WithTag(m) {
      assert WithTag(m)[..|WithTag(m)| - TAG_LEN] == m;
    }
  }

  /** A sealing is authentic: it decrypts under no associated data but its own. */
  ghost predicate Authentic(a: Aead, key: seq<byte>, nonce: seq<byte>, aad: seq<byte>, m: seq<byte>) {
    forall other {:trigger a.decrypt(key, nonce, other, a.encrypt(key, nonce, aad, m))} ::
      a.decrypt(key, nonce, other, a.encrypt(key, nonce, aad, m)).Some? ==> other == aad
  }

  datatype Error = KeyTooShort | TooLarge | Truncated | BadVersion | NotAuthentic | Oversized | NotUtf8

  /** `account_aad`. */
  function AccountAad(server: seq<byte>, email: seq<byte>): seq<byte> {
    [VERSION] + server + [0] + email
  }

  function DeriveKey(a: Aead, keys: Keys): Result<seq<byte>, Error> {
    if |keys.data| < 64 then Err(KeyTooShort) else Ok(a.derive(keys.EncKey()))
  }

  /** `seal`; the random nonce is a parameter. */
  method Seal(a: Aead, keys: Keys, nonce: seq<byte>, plaintext: seq<byte>, aad: seq<byte>)
    returns (r: Result<seq<byte>, Error>)
    requires |nonce| == NONCE_LEN
    ensures r == Sealed(a, keys, nonce, plaintext, aad)
  {
    var key := DeriveKey(a, keys);
    if key.Err? {
      return Err(key.error);
    }
    var out := [VERSION];
    out := out + nonce;
    out := out + a.encrypt(key.value, nonce, aad, plaintext);
    return Ok(out);
  }

  function Sealed(a: Aead, keys: Keys, nonce: seq<byte>, plaintext: seq<byte>, aad: seq<byte>)
    : Result<seq<byte>, Error>
  {
    var key := DeriveKey(a, keys);
    if key.Err? then Err(key.error) else Ok([VERSION] + nonce + a.encrypt(key.value, nonce, aad, plaintext))
  }

  /** The outcome of `open` on values. */
  function Opened(a: Aead, keys: Keys, blob: seq<byte>, aad: seq<byte>): Result<seq<byte>, Error> {
    if |blob| > MAX_ENVELOPE_BYTES then Err(TooLarge)
    else if |blob| < 1 + NONCE_LEN + TAG_LEN then Err(Truncated)
    else if blob[0] != VERSION then Err(BadVersion)
    else
      var key := DeriveKey(a, keys);
      if key.Err? then Err(key.error)
      else
        match a.decrypt(key.value, blob[1..1 + NONCE_LEN], aad, blob[1 + NONCE_LEN..])
        case None => Err(NotAuthentic)
        case Some(plaintext) => if |plaintext| <= CAPACITY then Ok(plaintext) else Err(Oversized)
  }

  /** `open`: total on all byte strings, and the locked buffer is never overfilled. */
  method Open(a: Aead, keys: Keys, blob: seq<byte>, aad: seq<byte>) returns (r: Result<Buffer, Error>)
    ensures match Opened(a, keys, blob, aad)
            case Ok(plaintext) => r.Ok? && fresh(r.value) && r.value.Valid() && r.value.Data() == plaintext
            case Err(e) => r == Err(e)
  {
    if |blob| > MAX_ENVELOPE_BYTES {
      return Err(TooLarge);
    }
    if |blob| < 1 + NONCE_LEN + TAG_LEN {
      return Err(Truncated);
    }
    if blob[0] != VERSION {
      return Err(BadVersion);
    }
    var key := DeriveKey(a, keys);
    if key.Err? {
      return Err(key.error);
    }
    var plaintext := a.decrypt(key.value, blob[1..1 + NONCE_LEN], aad, blob[1 + NONCE_LEN..]);
    if plaintext.None? {
      return Err(NotAuthentic);
    }
    if |plaintext.value| <= CAPACITY {
      var out := new Buffer();
      out.Extend(plaintext.value);
      assert out.Data() == plaintext.value;
      return Ok(out);
    } else {
      return Err(Oversized);
    }
  }

  /** What is sealed is opened under the same account exactly when it fits the locked buffer. */
  lemma SealThenOpen(a: Aead, keys: Keys, nonce: seq<byte>, plaintext: seq<byte>, aad: seq<byte>)
    requires Correct(a) && |keys.data| >= 64 && |nonce| == NONCE_LEN
    ensures var outcome := Opened(a, keys, Sealed(a, keys, nonce, plaintext, aad).value, aad);
            if |plaintext| <= 4096 then outcome == Ok(plaintext) else outcome.Err?
  {
    var blob := Sealed(a, keys, nonce, plaintext, aad).value;
    assert blob[1..1 + NONCE_LEN] == nonce;
    assert blob[1 + NONCE_LEN..] == a.encrypt(DeriveKey(a, keys).value, nonce, aad, plaintext);
  }

  /** Nothing else opens: an accepted blob is the sealing of the plaintext it opens to. */
  lemma OnlySealedBlobsOpen(a: Aead, keys: Keys, blob: seq<byte>, aad: seq<byte>, plaintext: seq<byte>)
    requires Correct(a) && Opened(a, keys, blob, aad) == Ok(plaintext)
    ensures Sealed(a, keys, blob[1..1 + NONCE_LEN], plaintext, aad) == Ok(blob)
  {
    var key := DeriveKey(a, keys).value;
    assert blob[1 + NONCE_LEN..] == a.encrypt(key, blob[1..1 + NONCE_LEN], aad, plaintext);
    assert blob == [blob[0]] + blob[1..1 + NONCE_LEN] + blob[1 + NONCE_LEN..];
  }

  /** A sealed envelope as it is on disk: a version byte, the nonce of 24 bytes, and the ciphertext
      under the key derived from the first 32 bytes. */
  predicate OnDisk(a: Aead, keys: Keys, aad: seq<byte>, m: seq<byte>, blob: seq<byte>) {
    && |keys.data| >= 64 && |blob| >= 25
    && blob == [1] + blob[1..25] + a.encrypt(a.derive(keys.data[..32]), blob[1..25], aad, m)
  }

  /** Which byte strings open, and to what: the sealings of a payload of at most 4096 bytes. */
  lemma OpensExactly(a: Aead, keys: Keys, blob: seq<byte>, aad: seq<byte>, m: seq<byte>)
    requires Correct(a)
    ensures Opened(a, keys, blob, aad) == Ok(m) <==> OnDisk(a, keys, aad, m, blob) && |m| <= 4096
  {
    if Opened(a, keys, blob, aad) == Ok(m) {
      OnlySealedBlobsOpen(a, keys, blob, aad, m);
    }
    if OnDisk(a, keys, aad, m, blob) && |m| <= 4096 {
      assert Sealed(a, keys, blob[1..25], m, aad) == Ok(blob);
      SealThenOpen(a, keys, blob[1..25], m, aad);
    }
  }

  /** Why others do not, in the order of the checks. */
  lemma RefusesExactly(a: Aead, keys: Keys, blob: seq<byte>, aad: seq<byte>)
    ensures Opened(a, keys, blob, aad) == Err(TooLarge) <==> |blob| > 16384
    ensures Opened(a, keys, blob, aad) == Err(Truncated) <==> |blob| < 41
    ensures Opened(a, keys, blob, aad) == Err(BadVersion) <==> 41 <= |blob| <= 16384 && blob[0] != 1
    ensures Opened(a, keys, blob, aad) == Err(KeyTooShort) <==>
              41 <= |blob| <= 16384 && blob[0] == 1 && |keys.data| < 64
    ensures 41 <= |blob| <= 16384 && blob[0] == 1 && |keys.data| >= 64 ==>
              var plain := a.decrypt(a.derive(keys.data[..32]), blob[1..25], aad, blob[25..]);
              && (Opened(a, keys, blob, aad) == Err(NotAuthentic) <==> plain.None?)
              && (Opened(a, keys, blob, aad) == Err(Oversized) <==> plain.Some? && |plain.value| > 4096)
  {
  }

  /** The associated data tells accounts apart as long as server names have no NUL byte. */
  lemma {:induction false} AadIsInjective(s: seq<byte>, e: seq<byte>, s': seq<byte>, e': seq<byte>)
    requires 0 !in s && 0 !in s'
    ensures AccountAad(s, e) == AccountAad(s', e') <==> s == s' && e == e'
  {
    var x, y := AccountAad(s, e), AccountAad(s', e');
    assert x[1..1 + |s|] == s && x[1 + |s|] == 0 && x[2 + |s|..] == e;
    assert y[1..1 + |s'|] == s' && y[1 + |s'|] == 0 && y[2 + |s'|..] == e';
    assert |s| < |s'| ==> y[1 + |s|] == s'[|s|];
    assert |s'| < |s| ==> x[1 + |s'|] == s[|s'|];
  }

  /** Where the associated data has its NUL bytes: one between the parts, the others in them. */
  lemma NulIn(s: seq<byte>, e: seq<byte>, i: nat)
    requires 1 <= i < |AccountAad(s, e)|
    ensures AccountAad(s, e)[i] == 0 <==>
              i == 1 + |s| || (i <= |s| && s[i - 1] == 0) || (i > 1 + |s| && e[i - 2 - |s|] == 0)
  {
    assert AccountAad(s, e) == [VERSION] + s + [0] + e;
  }

  /** The account whose parts meet at the NUL byte `i` of the associated data. */
  function AccountAt(aad: seq<byte>, i: nat): (seq<byte>, seq<byte>)
    requires 1 <= i < |aad|
  {
    (aad[1..i], aad[i + 1..])
  }

  lemma AccountAtIs(s: seq<byte>, e: seq<byte>, i: nat)
    requires 1 <= i < |AccountAad(s, e)| && AccountAad(s, e)[i] == 0
    ensures var a := AccountAt(AccountAad(s, e), i); AccountAad(a.0, a.1) == AccountAad(s, e) && |a.0| == i - 1
  {
    var aad := AccountAad(s, e);
    assert aad == [aad[0]] + aad[1..i] + [aad[i]] + aad[i + 1..];
  }

  lemma SameSplit(s: seq<byte>, e: seq<byte>, s': seq<byte>, e': seq<byte>)
    requires AccountAad(s, e) == AccountAad(s', e') && |s| == |s'|
    ensures s == s' && e == e'
  {
    var x, y := AccountAad(s, e), AccountAad(s', e');
    assert x[1..1 + |s|] == s && x[2 + |s|..] == e;
    assert y[1..1 + |s'|] == s' && y[2 + |s'|..] == e';
  }

  predicate Collides(s: seq<byte>, e: seq<byte>, other: (seq<byte>, seq<byte>)) {
    other != (s, e) && AccountAad(other.0, other.1) == AccountAad(s, e)
  }

  /** Exactly which accounts share their associated data with some other account: those with a
      NUL byte in the server name or the email. */
  lemma AadCollidesOnNul(s: seq<byte>, e: seq<byte>)
    ensures (exists other :: Collides(s, e, other)) <==> 0 in s + e
  {
    var aad := AccountAad(s, e);
    if other :| Collides(s, e, other) {
      var i := 1 + |other.0|;
      assert AccountAad(other.0, other.1)[i] == 0;
      NulIn(s, e, i);
      if |other.0| == |s| {
        SameSplit(s, e, other.0, other.1);
      }
    }
    if 0 in s + e {
      var k :| 0 <= k < |s + e| && (s + e)[k] == 0;
      var i := if k < |s| then k + 1 else k + 2;
      NulIn(s, e, i);
      AccountAtIs(s, e, i);
      assert Collides(s, e, AccountAt(aad, i));
    }
  }

  /** For instance a server that ends in a NUL byte, with an empty email. */
  lemma AadCollisionExample(server: seq<byte>) returns (s: seq<byte>, e: seq<byte>)
    ensures (s, e) != (server + [0], []) && AccountAad(s, e) == AccountAad(server + [0], [])
  {
    assert (server + [0] + [])[|server|] == 0;
    AadCollidesOnNul(server + [0], []);
    var other :| Collides(server + [0], [], other);
    s, e := other.0, other.1;
  }

  /** An authentic envelope opens under an account exactly when that account has the same
      associated data and the payload fits; so never under another one, when neither server name
      has a NUL byte. */
  lemma WrongAccountFails(a: Aead, keys: Keys, nonce: seq<byte>, plaintext: seq<byte>,
                          s: seq<byte>, e: seq<byte>, s': seq<byte>, e': seq<byte>)
    requires Correct(a) && |keys.data| >= 64 && |nonce| == NONCE_LEN
    requires Authentic(a, a.derive(keys.EncKey()), nonce, AccountAad(s, e), plaintext)
    ensures var blob := Sealed(a, keys, nonce, plaintext, AccountAad(s, e)).value;
            var outcome := Opened(a, keys, blob, AccountAad(s', e'));
            && (outcome.Ok? <==> AccountAad(s, e) == AccountAad(s', e') && |plaintext| <= CAPACITY)
            && (0 !in s && 0 !in s' && (s, e) != (s', e') ==> outcome.Err?)
  {
    var blob := Sealed(a, keys, nonce, plaintext, AccountAad(s, e)).value;
    assert blob[1..1 + NONCE_LEN] == nonce;
    assert blob[1 + NONCE_LEN..] == a.encrypt(DeriveKey(a, keys).value, nonce, AccountAad(s, e), plaintext);
    if 0 !in s && 0 !in s' {
      AadIsInjective(s, e, s', e');
    }
    SealThenOpen(a, keys, nonce, plaintext, AccountAad(s, e));
  }

  // ----- The session file ------------------------------------------------------------------

  /** `save_to`: the file after writing the token of an account. */
  function SaveTo(a: Aead, keys: Keys, nonce: seq<byte>, server: seq<byte>, email: seq<byte>, token: seq<byte>)
    : Result<seq<byte>, Error>
  {
    Sealed(a, keys, nonce, token, AccountAad(server, email))
  }

  /** `load_from`: a missing file is no error, everything else that goes wrong is. */
  function LoadFrom(a: Aead, keys: Keys, server: seq<byte>, email: seq<byte>, file: Option<seq<byte>>)
    : Result<Option<Token>, Error>
  {
    if file.None? then Ok(None)
    else if |file.value| > MAX_ENVELOPE_BYTES then Err(TooLarge)
    else
      match Opened(a, keys, file.value, AccountAad(server, email))
      case Err(e) => Err(e)
      case Ok(plaintext) => if a.isUtf8(plaintext) then Ok(Some(TokenFromString(plaintext))) else Err(NotUtf8)
  }

  /** A saved token is loaded again, in the locked representation, exactly when it has at most
      4096 bytes; a longer one, which the agent does keep in memory, is lost with an error. */
  lemma SaveThenLoad(a: Aead, keys: Keys, nonce: seq<byte>, server: seq<byte>, email: seq<byte>, token: seq<byte>)
    requires Correct(a) && |keys.data| >= 64 && |nonce| == NONCE_LEN && a.isUtf8(token)
    ensures var loaded := LoadFrom(a, keys, server, email, Some(SaveTo(a, keys, nonce, server, email, token).value));
            && (loaded == Ok(Some(InBuffer(token))) <==> |token| <= 4096)
            && (|token| <= 4096 <==> TokenFromString(token) == InBuffer(token))
            && (|token| > 4096 <==> TokenFromString(token) == OnHeap(token) && loaded.Err?)
            && loaded != Ok(None)
  {
    SealThenOpen(a, keys, nonce, token, AccountAad(server, email));
  }

  /** What a file is loaded to: nothing when there is none, and otherwise the token it was written
      with, or the error of opening it, or that of a token that is no text. */
  lemma LoadsExactly(a: Aead, keys: Keys, server: seq<byte>, email: seq<byte>, file: Option<seq<byte>>,
                     token: seq<byte>)
    requires Correct(a)
    ensures LoadFrom(a, keys, server, email, file) == Ok(None) <==> file.None?
    ensures LoadFrom(a, keys, server, email, file) == Ok(Some(InBuffer(token))) <==>
              && file.Some? && a.isUtf8(token) && |token| <= 4096
              && OnDisk(a, keys, [1] + server + [0] + email, token, file.value)
    ensures LoadFrom(a, keys, server, email, file) == Err(NotUtf8) <==>
              && file.Some? && Opened(a, keys, file.value, [1] + server + [0] + email).Ok?
              && !a.isUtf8(Opened(a, keys, file.value, [1] + server + [0] + email).value)
    ensures file.Some? && Opened(a, keys, file.value, [1] + server + [0] + email).Err? ==>
              LoadFrom(a, keys, server, email, file)
              == Err(Opened(a, keys, file.value, [1] + server + [0] + email).error)
  {
    if file.Some? {
      OpensExactly(a, keys, file.value, AccountAad(server, email), token);
    }
    hide OnDisk;
  }

  /** A saved file is the sealing of the token under the account it belongs to. */
  lemma SavesExactly(a: Aead, keys: Keys, nonce: seq<byte>, server: seq<byte>, email: seq<byte>, token: seq<byte>)
    requires |nonce| == 24
    ensures var file := SaveTo(a, keys, nonce, server, email, token);
            && (file.Err? <==> |keys.data| < 64)
            && (file.Ok? ==> OnDisk(a, keys, [1] + server + [0] + email, token, file.value)
                             && file.value[1..25] == nonce)
  {
    if |keys.data| >= 64 {
      var file := SaveTo(a, keys, nonce, server, email, token).value;
      assert file[1..25] == nonce;
    }
  }
}
