/** The key hierarchy (`vault.rs`): identity keys unwrap the vault keys, vault keys unwrap
    entry keys and the private key, the private key unwraps organization keys, and whichever
    key applies decrypts a field. */
module Vault {
  import opened Prelude
  import opened Bytes
  import opened Locked
  import opened Cipher
  import opened CipherText
  import Base64
  import opened Strings

  /** Parse a cipher string and decrypt it into a locked buffer. */
  function Unwrap(p: Primitives, text: string, keys: Keys): Result<seq<byte>, Error>
    requires Lawful(p)
  {
    var cipher := Parse(text);
    if cipher.Err? then Err(cipher.error) else DecryptLocked(p, cipher.value, keys)
  }

  /** `vault::decrypt`: decrypt a field, under its entry key when it has one. */
  function DecryptField(p: Primitives, text: string, keys: Keys, entryKey: Option<string>): Result<string, Error>
    requires Lawful(p)
  {
    var cipher := Parse(text);
    if cipher.Err? then Err(cipher.error) else
    var key := if entryKey.Some? then Unwrap(p, entryKey.value, keys) else Ok(keys.data);
    if key.Err? then Err(key.error) else
    var plain := DecryptSymmetric(p, cipher.value, keys, if entryKey.Some? then Some(Keys(key.value)) else None);
    if plain.Err? then Err(plain.error) else
    var text := p.utf8Decode(plain.value);
    if text.None? then Err(Utf8) else Ok(text.value)
  }

  /** The vault keys behind the protected key; a wrong MAC means a wrong password. */
  function VaultKeys(p: Primitives, identity: Keys, protectedKey: string): Result<Keys, Error>
    requires Lawful(p)
  {
    var cipher := Parse(protectedKey);
    if cipher.Err? then Err(cipher.error) else
    match DecryptLocked(p, cipher.value, identity)
    case Ok(data) => Ok(Keys(data))
    case Err(e) => Err(if e == InvalidMac then WrongPassword else e)
  }

  function OrgKey(p: Primitives, privateKey: seq<byte>, protectedOrgKey: string): Result<Keys, Error> {
    var cipher := Parse(protectedOrgKey);
    if cipher.Err? then Err(cipher.error) else
    var data := DecryptAsymmetric(p, cipher.value, privateKey);
    if data.Err? then Err(data.error) else Ok(Keys(data.value))
  }

  /** What `decrypt_org_keys` may return: without a private key no organization key; otherwise
      every organization's key, or the error of one that cannot be unwrapped (which one depends
      on the order of the hash map). */
  ghost predicate OrgKeysResult(p: Primitives, vaultKeys: Keys, privateKey: Option<string>,
                                orgs: map<string, string>, r: Result<map<string, Keys>, Error>)
    requires Lawful(p)
  {
    if privateKey.None? then r == Ok(map[])
    else
      match Unwrap(p, privateKey.value, vaultKeys)
      case Err(e) => r == Err(e)
      case Ok(pk) =>
        match r
        case Ok(keys) =>
          keys.Keys == orgs.Keys && forall id :: id in orgs ==> OrgKey(p, pk, orgs[id]) == Ok(keys[id])
        case Err(e) =>
          exists id :: id in orgs && OrgKey(p, pk, orgs[id]) == Err(e)
  }

  /** `decrypt_org_keys`. */
  method DecryptOrgKeys(p: Primitives, vaultKeys: Keys, privateKey: Option<string>, orgs: map<string, string>)
    returns (r: Result<map<string, Keys>, Error>)
    requires Lawful(p)
    ensures OrgKeysResult(p, vaultKeys, privateKey, orgs, r)
  {
    if privateKey.None? {
      return Ok(map[]);
    }
    var pk := Unwrap(p, privateKey.value, vaultKeys);
    if pk.Err? {
      return Err(pk.error);
    }
    var keys: map<string, Keys> := map[];
    var left := orgs.Keys;
    while left != {}
      invariant left <= orgs.Keys && keys.Keys == orgs.Keys - left
      invariant forall id :: id in keys ==> OrgKey(p, pk.value, orgs[id]) == Ok(keys[id])
      decreases left
    {
      var id :| id in left;
      var key := OrgKey(p, pk.value, orgs[id]);
      if key.Err? {
        return Err(key.error);
      }
      keys := keys[id := key.value];
      left := left - {id};
    }
    return Ok(keys);
  }

  /** `unlock_from_keys`. */
  method UnlockFromKeys(p: Primitives, identity: Keys, protectedKey: string, privateKey: Option<string>,
                        orgs: map<string, string>)
    returns (r: Result<(Keys, map<string, Keys>), Error>)
    requires Lawful(p)
    ensures match VaultKeys(p, identity, protectedKey)
            case Err(e) => r == Err(e)
            case Ok(keys) =>
              (r.Ok? ==> r.value.0 == keys && OrgKeysResult(p, keys, privateKey, orgs, Ok(r.value.1)))
              && (r.Err? ==> OrgKeysResult(p, keys, privateKey, orgs, Err(r.error)))
  {
    var keys := VaultKeys(p, identity, protectedKey);
    if keys.Err? {
      return Err(keys.error);
    }
    var orgKeys := DecryptOrgKeys(p, keys.value, privateKey, orgs);
    if orgKeys.Err? {
      return Err(orgKeys.error);
    }
    return Ok((keys.value, orgKeys.value));
  }

  // ----- Round trips -----------------------------------------------------------------------

  /** Encrypt and print. */
  function Wrap(p: Primitives, keys: Keys, iv: seq<byte>, plaintext: seq<byte>): string
    requires Lawful(p) && |keys.data| >= 64 && |iv| == BLOCK
  {
    Print(EncryptSymmetric(p, keys, iv, plaintext))
  }

  /** A usable key: both halves are there and its padded form fits a locked buffer. */
  predicate Usable(keys: Keys) {
    |keys.data| >= 64 && |Pad(keys.data)| <= CAPACITY
  }

  /** Unwrapping gives a buffer that still carries the padding, and is usable in place of the
      key that was wrapped. */
  lemma UnwrapWrapped(p: Primitives, keys: Keys, buffer: Keys, iv: seq<byte>, plaintext: seq<byte>)
    requires Lawful(p) && |keys.data| >= 64 && |iv| == BLOCK && keys.data[..64] <= buffer.data
    requires |Pad(plaintext)| <= CAPACITY
    ensures Unwrap(p, Wrap(p, keys, iv, plaintext), buffer) == Ok(Pad(plaintext))
    ensures VaultKeys(p, buffer, Wrap(p, keys, iv, plaintext)) == Ok(Keys(Pad(plaintext)))
    ensures Pad(plaintext) != plaintext && Unpad(Pad(plaintext)) == Some(plaintext)
    ensures |plaintext| >= 64 ==> plaintext[..64] <= Pad(plaintext)
  {
    ParsePrint(EncryptSymmetric(p, keys, iv, plaintext));
    DecryptEncrypted(p, keys, buffer, iv, plaintext);
    var n := BLOCK - |plaintext| % BLOCK;
    assert Pad(plaintext)[|Pad(plaintext)| - n..] == Repeat(n, n);
    assert Pad(plaintext)[..|Pad(plaintext)| - n] == plaintext;
  }

  /** Unlocking with other identity keys is told as a wrong password exactly when the MAC under
      them differs, and the right keys always unlock. */
  lemma WrongPasswordExactly(p: Primitives, identity: Keys, other: Keys, iv: seq<byte>, vault: seq<byte>)
    requires Lawful(p) && |identity.data| >= 64 && |other.data| >= 64 && |iv| == BLOCK && |Pad(vault)| <= CAPACITY
    ensures var ciphertext := EncryptSymmetric(p, identity, iv, vault).ciphertext;
            VaultKeys(p, other, Wrap(p, identity, iv, vault)) == Err(WrongPassword) <==>
              p.mac(other.MacKey(), iv + ciphertext) != p.mac(identity.MacKey(), iv + ciphertext)
    ensures VaultKeys(p, identity, Wrap(p, identity, iv, vault)) == Ok(Keys(Pad(vault)))
  {
    ParsePrint(EncryptSymmetric(p, identity, iv, vault));
    DecryptEncrypted(p, identity, identity, iv, vault);
  }

  /** A field encrypted under an entry key, which is wrapped under the vault keys, which are
      wrapped under the identity keys, decrypts to its text; so does a field encrypted under the
      vault keys directly. */
  lemma KeyHierarchyRoundTrip(p: Primitives, identity: Keys, vault: Keys, entry: Keys,
                              iv0: seq<byte>, iv1: seq<byte>, iv2: seq<byte>, text: string)
    requires Lawful(p) && Usable(identity) && Usable(vault) && Usable(entry)
    requires |iv0| == |iv1| == |iv2| == BLOCK
    ensures var unlocked := VaultKeys(p, identity, Wrap(p, identity, iv0, vault.data));
            && unlocked.Ok? && unlocked.value.data == Pad(vault.data)
            && DecryptField(p, Wrap(p, entry, iv2, p.utf8Encode(text)), unlocked.value,
                            Some(Wrap(p, vault, iv1, entry.data))) == Ok(text)
            && DecryptField(p, Wrap(p, vault, iv2, p.utf8Encode(text)), unlocked.value, None) == Ok(text)
  {
    UnwrapWrapped(p, identity, identity, iv0, vault.data);
    var unlocked := Keys(Pad(vault.data));
    UnwrapWrapped(p, vault, unlocked, iv1, entry.data);
    var unwrapped := Keys(Pad(entry.data));
    ParsePrint(EncryptSymmetric(p, entry, iv2, p.utf8Encode(text)));
    DecryptEncrypted(p, entry, unwrapped, iv2, p.utf8Encode(text));
    ParsePrint(EncryptSymmetric(p, vault, iv2, p.utf8Encode(text)));
    DecryptEncrypted(p, vault, unlocked, iv2, p.utf8Encode(text));
  }

  /** The same through an organization: the private key is wrapped under the vault keys, its
      buffer keeps the padding, and still the organization key comes out as it went in. */
  lemma OrgHierarchyRoundTrip(p: Primitives, vault: Keys, unlocked: Keys, org: Keys, privateKey: seq<byte>,
                              iv0: seq<byte>, iv1: seq<byte>, text: string)
    requires Lawful(p) && Usable(vault) && Usable(org) && vault.data[..64] <= unlocked.data
    requires |Pad(privateKey)| <= CAPACITY && |iv0| == |iv1| == BLOCK
    ensures var pk := Unwrap(p, Wrap(p, vault, iv0, privateKey), unlocked);
            && pk == Ok(Pad(privateKey))
            && OrgKey(p, pk.value, Print(Asymmetric(p.rsaEncrypt(privateKey, org.data)))) == Ok(org)
            && DecryptField(p, Wrap(p, org, iv1, p.utf8Encode(text)), org, None) == Ok(text)
  {
    UnwrapWrapped(p, vault, unlocked, iv0, privateKey);
    ParsePrint(Asymmetric(p.rsaEncrypt(privateKey, org.data)));
    ParsePrint(EncryptSymmetric(p, org, iv1, p.utf8Encode(text)));
    DecryptEncrypted(p, org, org, iv1, p.utf8Encode(text));
  }

  /** The right password unlocks: what a client sealed under the two halves of the identity keys, in
      the text form of type 2. */
  lemma RightPasswordUnlocks(p: Primitives, enc: seq<byte>, mac: seq<byte>, tail: seq<byte>, iv: seq<byte>,
                             vault: seq<byte>)
    requires Lawful(p) && |enc| == |mac| == 32 && |iv| == 16 && |Pad(vault)| <= 4096
    ensures var ct := CbcEncrypt(p, enc, iv, Pad(vault));
            var text := "2." + Base64.Encode(iv) + "|" + Base64.Encode(ct) + "|"
                        + Base64.Encode(p.mac(mac, iv + ct));
            VaultKeys(p, Keys(enc + mac + tail), text) == Ok(Keys(Pad(vault)))
  {
    DecryptsUnderHalves(p, enc, mac, tail, iv, vault);
    hide CbcEncrypt, Pad, DecryptLocked, Lawful;
    var ct := CbcEncrypt(p, enc, iv, Pad(vault));
    ParsePrint(Symmetric(iv, ct, Some(p.mac(mac, iv + ct))));
    hide Parse;
  }

  /** When a field can be read: without an entry key under the given keys; with one only if that can
      be unwrapped, and then under it alone. */
  lemma FieldReadsExactly(p: Primitives, text: string, keys: Keys, entryKey: Option<string>, plain: string)
    requires Lawful(p)
    ensures DecryptField(p, text, keys, entryKey) == Ok(plain) <==>
              && Parse(text).Ok?
              && match entryKey
                 case None => ReadsUnder(p, Parse(text).value, keys, plain)
                 case Some(wrapped) =>
                   && Parse(wrapped).Ok? && DecryptLocked(p, Parse(wrapped).value, keys).Ok?
                   && ReadsUnder(p, Parse(text).value, Keys(DecryptLocked(p, Parse(wrapped).value, keys).value), plain)
  {
    hide Parse, CbcDecrypt, UnpadBlock, Refused;
  }

  lemma OtherErrors(p: Primitives, text: string, v: CipherString, keys: Keys)
    requires Lawful(p)
    ensures Parse(text).Err? ==> Parse(text).error != Utf8
    ensures DecryptSymmetric(p, v, keys, None).Err? ==> DecryptSymmetric(p, v, keys, None).error != Utf8
  {
    hide Split, Base64.Decode, CbcDecrypt, UnpadBlock;
  }

  /** Bytes that decrypt but are no text have an error of their own. */
  lemma NoTextExactly(p: Primitives, text: string, keys: Keys)
    requires Lawful(p)
    ensures DecryptField(p, text, keys, None) == Err(Utf8) <==>
              && Parse(text).Ok? && DecryptSymmetric(p, Parse(text).value, keys, None).Ok?
              && p.utf8Decode(DecryptSymmetric(p, Parse(text).value, keys, None).value).None?
  {
    OtherErrors(p, text, if Parse(text).Ok? then Parse(text).value else Asymmetric([]), keys);
    hide Parse, DecryptSymmetric;
  }

  ghost predicate ReadsUnder(p: Primitives, v: CipherString, keys: Keys, plain: string)
    requires Lawful(p)
  {
    var bytes := DecryptSymmetric(p, v, keys, None);
    bytes.Ok? && p.utf8Decode(bytes.value) == Some(plain)
  }

  /** What an unlock may say of the organization keys: without a private key there are none; if the
      private key cannot be unwrapped, or some organization's key cannot be recovered, there is an
      error for it; and otherwise every organization has its key. */
  lemma OrgKeysAreAllOrNone(p: Primitives, vaultKeys: Keys, privateKey: Option<string>, orgs: map<string, string>,
                            r: Result<map<string, Keys>, Error>)
    requires Lawful(p) && OrgKeysResult(p, vaultKeys, privateKey, orgs, r)
    ensures privateKey.None? ==> r.Ok? && r.value == map[]
    ensures privateKey.Some? && r.Ok? ==>
              && Unwrap(p, privateKey.value, vaultKeys).Ok?
              && (forall id :: id in orgs <==> id in r.value)
              && forall id :: id in orgs ==>
                   OrgKey(p, Unwrap(p, privateKey.value, vaultKeys).value, orgs[id]) == Ok(r.value[id])
    ensures privateKey.Some? && r.Err? ==>
              || Unwrap(p, privateKey.value, vaultKeys) == Err(r.error)
              || (Unwrap(p, privateKey.value, vaultKeys).Ok?
                  && exists id :: id in orgs
                       && OrgKey(p, Unwrap(p, privateKey.value, vaultKeys).value, orgs[id]) == Err(r.error))
  {
    hide Unwrap, OrgKey;
  }

  /** When an organization key is recovered: from a value sealed to the public key, with the private
      key that stands before the padding of its buffer. */
  lemma OrgKeyExactly(p: Primitives, privateKey: seq<byte>, text: string, key: seq<byte>)
    ensures OrgKey(p, privateKey, text) == Ok(Keys(key)) <==>
              && Parse(text).Ok? && Parse(text).value.Asymmetric? && |key| <= 4096
              && exists der, n: nat ::
                   && 1 <= n < 256 && privateKey == der + Repeat(n, n)
                   && p.rsaDecrypt(der, Parse(text).value.ciphertext) == Some(key)
  {
    hide Parse;
    forall der: seq<byte>, n: nat | 1 <= n < 256 && privateKey == der + Repeat(n, n)
      ensures Unpad(privateKey) == Some(der)
    {
      UnpadExactly(privateKey, der);
    }
    if Unpad(privateKey).Some? {
      UnpadExactly(privateKey, Unpad(privateKey).value);
    }
    hide Unpad;
  }
}
