/** From the master key to `ssh-add -l`: the decryption of `Vault` put under the caches of
    `Sidebar` and the search of `AgentState`. */
module EndToEnd {
  import opened Prelude
  import opened Bytes
  import opened Locked
  import opened Cipher
  import opened CipherText
  import opened Vault
  import opened Entries
  import opened Sidebar
  import opened AgentState
  import Host = Domain

  /** The decryption that entries use: an error of `vault::decrypt` is no text. */
  ghost function VaultDecryptor(p: Primitives): Decryptor
    requires Lawful(p)
  {
    (text, keys, entryKey) =>
      match DecryptField(p, text, keys, entryKey)
      case Ok(plain) => Some(plain)
      case Err(_) => None
  }

  /** The keys a client chose when it made the account and the entry. The entry key is wrapped
      under `vault`, which is an organization's key for an entry of an organization. */
  datatype Chain = Chain(identity: Keys, vault: Keys, entry: Keys, iv: seq<byte>)

  predicate Fits(c: Chain) {
    Usable(c.identity) && Usable(c.vault) && Usable(c.entry) && |c.iv| == BLOCK
  }

  /** Where an SSH key entry has its key pair. */
  datatype Place = Native | InFields

  /** An SSH key entry as the server stores it. */
  function Stored(p: Primitives, c: Chain, place: Place, id: string, name: string, privateKey: string,
                  publicKey: string): Entry
    requires Lawful(p) && Fits(c)
  {
    var sealedPrivate, sealedPublic := Some(Sealed(p, c, privateKey)), Some(Sealed(p, c, publicKey));
    match place
    case Native =>
      Entry(id, None, Sealed(p, c, name), false, SshKey(sealedPrivate, sealedPublic, None), [], None, SealedKey(p, c))
    case InFields =>
      var fields := [Field(Some(Sealed(p, c, "private_key")), sealedPrivate),
                     Field(Some(Sealed(p, c, "public_key")), sealedPublic)];
      Entry(id, None, Sealed(p, c, name), false, SshKey(None, None, None), fields, None, SealedKey(p, c))
  }

  function Sealed(p: Primitives, c: Chain, text: string): string
    requires Lawful(p) && Fits(c)
  {
    Wrap(p, c.entry, c.iv, p.utf8Encode(text))
  }

  /** The entry key as the server stores it. */
  function SealedKey(p: Primitives, c: Chain): Option<string>
    requires Lawful(p) && Fits(c)
  {
    Some(Wrap(p, c.vault, c.iv, c.entry.data))
  }

  /** The vault keys as an unlock with the identity keys recovers them: it never fails. */
  function Unlocked(p: Primitives, c: Chain): (keys: Keys)
    requires Lawful(p) && Fits(c)
    ensures VaultKeys(p, c.identity, Wrap(p, c.identity, c.iv, c.vault.data)) == Ok(keys)
  {
    KeyHierarchyRoundTrip(p, c.identity, c.vault, c.entry, c.iv, c.iv, c.iv, "");
    VaultKeys(p, c.identity, Wrap(p, c.identity, c.iv, c.vault.data)).value
  }

  lemma UnlockedOpens(p: Primitives, c: Chain)
    requires Lawful(p) && Fits(c)
    ensures Unlocked(p, c).data == Pad(c.vault.data) && c.vault.data[..64] <= Unlocked(p, c).data
  {
    UnwrapWrapped(p, c.identity, c.identity, c.iv, c.vault.data);
  }

  /** A sealed text reads under any key buffer that starts with the wrapping keys. */
  lemma SealedReads(p: Primitives, c: Chain, keys: Keys, text: string)
    requires Lawful(p) && Fits(c) && c.vault.data[..64] <= keys.data
    ensures VaultDecryptor(p)(Sealed(p, c, text), keys, SealedKey(p, c)) == Some(text)
  {
    UnwrapWrapped(p, c.vault, keys, c.iv, c.entry.data);
    UnwrapWrapped(p, c.entry, c.entry, c.iv, c.entry.data);
    ParsePrint(EncryptSymmetric(p, c.entry, c.iv, p.utf8Encode(text)));
    DecryptEncrypted(p, c.entry, Keys(Pad(c.entry.data)), c.iv, p.utf8Encode(text));
  }

  /** The halves of a pair in two custom fields are told apart by the names of the fields. */
  lemma PairInFields(d: Decryptor, e: Entry, keys: Keys, orgKeys: map<string, Keys>, privateKey: string,
                     publicKey: string)
    requires e.orgId.None? && e.data == SshKey(None, None, None) && |e.fields| == 2
    requires e.fields[0].name.Some? && d(e.fields[0].name.value, keys, e.key) == Some("private_key")
    requires e.fields[1].name.Some? && d(e.fields[1].name.value, keys, e.key) == Some("public_key")
    requires e.fields[0].value.Some? && d(e.fields[0].value.value, keys, e.key) == Some(privateKey)
    requires e.fields[1].value.Some? && d(e.fields[1].value.value, keys, e.key) == Some(publicKey)
    ensures Decrypted(d, e, keys, orgKeys).data == SshKey(Some(privateKey), Some(publicKey), None)
  {
    var fields := Decrypted(d, e, keys, orgKeys).fields;
    EveryTextIsDecrypted(d, e, keys, orgKeys, keys);
    assert FieldReads(d, keys, e.key, e.fields[0], fields[0]) && FieldReads(d, keys, e.key, e.fields[1], fields[1]);
    KeyPairIsExact(d, e, keys, orgKeys, keys);
    hide Decrypted;
    assert LastNamed(fields, "private_key", 0) && LastNamed(fields, "public_key", 1);
  }

  lemma PairInPlace(d: Decryptor, e: Entry, keys: Keys, orgKeys: map<string, Keys>, privateKey: string,
                    publicKey: string)
    requires e.orgId.None? && e.data.SshKey? && e.data.fingerprint.None?
    requires e.data.privateKey.Some? && d(e.data.privateKey.value, keys, e.key) == Some(privateKey)
    requires e.data.publicKey.Some? && d(e.data.publicKey.value, keys, e.key) == Some(publicKey)
    ensures Decrypted(d, e, keys, orgKeys).data == SshKey(Some(privateKey), Some(publicKey), None)
  {
    KeyPairIsExact(d, e, keys, orgKeys, keys);
    hide Decrypted;
  }

  lemma NameReads(d: Decryptor, e: Entry, keys: Keys, orgKeys: map<string, Keys>, name: string)
    requires e.orgId.None? && d(e.name, keys, e.key) == Some(name)
    ensures Decrypted(d, e, keys, orgKeys).name == name
  {
    EveryTextIsDecrypted(d, e, keys, orgKeys, keys);
    hide Decrypted;
  }

  /** An entry that decrypts to a key pair is listed under its public key and found for it. */
  lemma PairReads(d: Decryptor, parse: KeyParser, e: Entry, keys: Keys, orgKeys: map<string, Keys>, name: string,
                  privateKey: string, publicKey: string, pubkey: KeyData)
    requires Decrypted(d, e, keys, orgKeys).data == SshKey(Some(privateKey), Some(publicKey), None)
    requires Decrypted(d, e, keys, orgKeys).name == name && parse(publicKey) == Some(pubkey)
    ensures SigningKey(d, parse, e, keys, orgKeys, pubkey) == Some(privateKey)
    ensures IdentityOf(parse, RowOf(d, e, keys, orgKeys)) == Some(Identity(pubkey, name))
  {
    hide Decrypted;
  }

  lemma StoredPairReads(p: Primitives, c: Chain, place: Place, id: string, name: string, privateKey: string,
                        publicKey: string, orgKeys: map<string, Keys>)
    requires Lawful(p) && Fits(c)
    ensures var plain := Decrypted(VaultDecryptor(p), Stored(p, c, place, id, name, privateKey, publicKey),
                                   Unlocked(p, c), orgKeys);
            plain.name == name && plain.data == SshKey(Some(privateKey), Some(publicKey), None)
  {
    UnlockedOpens(p, c);
    var d, keys := VaultDecryptor(p), Unlocked(p, c);
    hide VaultDecryptor, Unlocked, Sealed, SealedKey, Lawful, Fits, Decrypted;
    SealedReads(p, c, keys, name);
    SealedReads(p, c, keys, privateKey);
    SealedReads(p, c, keys, publicKey);
    var e := Stored(p, c, place, id, name, privateKey, publicKey);
    NameReads(d, e, keys, orgKeys, name);
    if place.InFields? {
      SealedReads(p, c, keys, "private_key");
      SealedReads(p, c, keys, "public_key");
      PairInFields(d, e, keys, orgKeys, privateKey, publicKey);
    } else {
      PairInPlace(d, e, keys, orgKeys, privateKey, publicKey);
    }
  }

  lemma StoredKeyReads(p: Primitives, parse: KeyParser, c: Chain, place: Place, id: string, name: string,
                       privateKey: string, publicKey: string, pubkey: KeyData, orgKeys: map<string, Keys>)
    requires Lawful(p) && Fits(c) && parse(publicKey) == Some(pubkey)
    ensures var e := Stored(p, c, place, id, name, privateKey, publicKey);
            && SigningKey(VaultDecryptor(p), parse, e, Unlocked(p, c), orgKeys, pubkey) == Some(privateKey)
            && IdentityOf(parse, RowOf(VaultDecryptor(p), e, Unlocked(p, c), orgKeys)) == Some(Identity(pubkey, name))
  {
    StoredPairReads(p, c, place, id, name, privateKey, publicKey, orgKeys);
    hide VaultDecryptor, Unlocked, Stored, Lawful, Fits, Decrypted, RowOf, IdentityOf, SigningKey;
    PairReads(VaultDecryptor(p), parse, Stored(p, c, place, id, name, privateKey, publicKey), Unlocked(p, c), orgKeys,
              name, privateKey, publicKey, pubkey);
  }

  /** Wherever an entry with a public and a private key stands, it is listed, and decides the
      search unless an entry in front of it does. */
  lemma KeyInDatabase(d: Decryptor, parse: KeyParser, front: seq<Entry>, e: Entry, back: seq<Entry>, keys: Keys,
                      orgKeys: map<string, Keys>, id: Identity, privateKey: string, r: SignOutcome)
    requires SigningKey(d, parse, e, keys, orgKeys, id.pubkey) == Some(privateKey)
    requires IdentityOf(parse, RowOf(d, e, keys, orgKeys)) == Some(id)
    ensures id in Identities(parse, Rows(d, front + [e] + back, keys, orgKeys))
    ensures Selects(d, parse, front + [e] + back, keys, orgKeys, id.pubkey, r) ==>
              && r.SignWith?
              && ((forall f :: f in front ==> SigningKey(d, parse, f, keys, orgKeys, id.pubkey).None?)
                  ==> r == SignWith(privateKey))
  {
    hide SigningKey, RowOf, IdentityOf, Selects, Rows, Identities;
    var entries := front + [e] + back;
    assert entries[|front|] == e && forall j :: 0 <= j < |front| ==> entries[j] == front[j];
    RowIsListed(d, parse, entries, keys, orgKeys, |front|, id);
    if Selects(d, parse, entries, keys, orgKeys, id.pubkey, r) {
      FirstMatchDecides(d, parse, entries, keys, orgKeys, id.pubkey, |front|, privateKey, r);
    }
  }

  /** After an unlock with the identity keys, a stored SSH key anywhere in any database, with
      its pair in the native fields or in custom fields, is listed under its name with its public
      key; a request for that key is answered with the private key of the first entry that has one
      for it, and so with the stored one when no earlier entry has. */
  lemma StoredKeyIsListedAndSigns(p: Primitives, parse: KeyParser, c: Chain, place: Place,
                                  front: seq<Entry>, back: seq<Entry>, id: string, name: string, privateKey: string,
                                  publicKey: string, pubkey: KeyData, orgKeys: map<string, Keys>, r: SignOutcome)
    requires Lawful(p) && Fits(c) && parse(publicKey) == Some(pubkey)
    ensures var entries := front + [Stored(p, c, place, id, name, privateKey, publicKey)] + back;
            && Identity(pubkey, name) in Identities(parse, Rows(VaultDecryptor(p), entries, Unlocked(p, c), orgKeys))
            && (Selects(VaultDecryptor(p), parse, entries, Unlocked(p, c), orgKeys, pubkey, r) ==>
                  && r.SignWith?
                  && ((forall e :: e in front ==>
                         SigningKey(VaultDecryptor(p), parse, e, Unlocked(p, c), orgKeys, pubkey).None?)
                      ==> r == SignWith(privateKey)))
  {
    StoredKeyReads(p, parse, c, place, id, name, privateKey, publicKey, pubkey, orgKeys);
    hide VaultDecryptor, Unlocked, Stored, Lawful, Fits, SigningKey, RowOf, IdentityOf, Selects, Rows, Identities;
    KeyInDatabase(VaultDecryptor(p), parse, front, Stored(p, c, place, id, name, privateKey, publicKey), back,
                  Unlocked(p, c), orgKeys, Identity(pubkey, name), privateKey, r);
  }

  /** A login as the server stores it, of an organization or of the user's own. */
  function StoredLogin(p: Primitives, c: Chain, id: string, orgId: Option<string>, name: string,
                       username: string, password: string, uri: string): Entry
    requires Lawful(p) && Fits(c)
  {
    Entry(id, orgId, Sealed(p, c, name), true,
          Login(Some(Sealed(p, c, username)), Some(Sealed(p, c, password)), None, [Uri(Sealed(p, c, uri), None)]),
          [], None, SealedKey(p, c))
  }

  /** The entry is shown under its name and user name, matched under the host of its URI, and
      decrypts to its password. */
  ghost predicate LoginShown(d: Decryptor, e: Entry, keys: Keys, orgKeys: map<string, Keys>, name: string,
                             username: string, password: string, uri: string)
  {
    var row := RowOf(d, e, keys, orgKeys);
    var data := Decrypted(d, e, keys, orgKeys).data;
    && row.entry == SidebarEntry(e.id, name, Some(username), None, LoginType, e.favorite)
    && (Host.HostFromUri(uri).Some? ==> row.hosts == [Host.HostFromUri(uri).value])
    && data.Login? && data.password == Some(password)
  }

  lemma OneHost(d: Decryptor, keys: Keys, key: Option<string>, uri: Uri, plain: string)
    requires d(uri.uri, keys, key) == Some(plain) && uri.matchType.None? && Host.HostFromUri(plain).Some?
    ensures UriHosts(d, keys, key, [uri]) == [Host.HostFromUri(plain).value]
  {
    hide Host.HostFromUri;
    assert [uri][..0] == [] && UriHosts(d, keys, key, []) == [];
    assert UriHosts(d, keys, key, [uri]) == [] + [Host.HostFromUri(plain).value];
  }

  /** A login with one URI whose texts read under the keys that apply to it is shown. */
  lemma ReadableIsShown(d: Decryptor, e: Entry, keys: Keys, orgKeys: map<string, Keys>, name: string,
                        username: string, password: string, uri: string)
    requires e.data.Login? && e.data.username.Some? && e.data.password.Some? && e.data.totp.None?
    requires |e.data.uris| == 1 && e.data.uris[0].matchType.None?
    requires var effective := EffectiveKeys(e, keys, orgKeys);
             && d(e.name, effective, e.key) == Some(name)
             && d(e.data.username.value, effective, e.key) == Some(username)
             && d(e.data.password.value, effective, e.key) == Some(password)
             && d(e.data.uris[0].uri, effective, e.key) == Some(uri)
    ensures LoginShown(d, e, keys, orgKeys, name, username, password, uri)
  {
    var effective := EffectiveKeys(e, keys, orgKeys);
    assert e.data.uris == [e.data.uris[0]];
    hide EffectiveKeys, Map, LastValue, Host.HostFromUri, Host.HostFromName, UriHosts;
    assert Decrypted(d, e, keys, orgKeys).name == name && TypeOf(e.data) == LoginType;
    if Host.HostFromUri(uri).Some? {
      OneHost(d, effective, e.key, e.data.uris[0], uri);
    }
  }

  lemma LoginReads(p: Primitives, c: Chain, id: string, orgId: Option<string>, name: string, username: string,
                   password: string, uri: string, keys: Keys, orgKeys: map<string, Keys>)
    requires Lawful(p) && Fits(c)
    ensures var e := StoredLogin(p, c, id, orgId, name, username, password, uri);
            c.vault.data[..64] <= EffectiveKeys(e, keys, orgKeys).data ==>
              LoginShown(VaultDecryptor(p), e, keys, orgKeys, name, username, password, uri)
  {
    var e := StoredLogin(p, c, id, orgId, name, username, password, uri);
    var effective := EffectiveKeys(e, keys, orgKeys);
    if c.vault.data[..64] <= effective.data {
      hide VaultDecryptor, Sealed, SealedKey, Lawful, LoginShown, EffectiveKeys;
      SealedReads(p, c, effective, name);
      SealedReads(p, c, effective, username);
      SealedReads(p, c, effective, password);
      SealedReads(p, c, effective, uri);
      ReadableIsShown(VaultDecryptor(p), e, keys, orgKeys, name, username, password, uri);
    }
  }

  /** After an unlock with the identity keys a stored login of the user's own is shown, whatever
      the organization keys are. */
  lemma StoredLoginIsShown(p: Primitives, c: Chain, id: string, name: string, username: string, password: string,
                           uri: string, orgKeys: map<string, Keys>)
    requires Lawful(p) && Fits(c)
    ensures LoginShown(VaultDecryptor(p), StoredLogin(p, c, id, None, name, username, password, uri), Unlocked(p, c),
                       orgKeys, name, username, password, uri)
  {
    UnlockedOpens(p, c);
    LoginReads(p, c, id, None, name, username, password, uri, Unlocked(p, c), orgKeys);
    hide LoginShown;
  }

  /** An organization's key as the server stores it for a user: under the user's RSA key. */
  function SealedOrgKey(p: Primitives, org: Keys, privateKey: seq<byte>): string {
    Print(Asymmetric(p.rsaEncrypt(privateKey, org.data)))
  }

  /** The organization keys that an unlock recovers, through the wrapped private key, contain the
      organization's own key. */
  lemma OrgKeyIsRecovered(p: Primitives, c: Chain, org: Keys, privateKey: seq<byte>, orgId: string,
                          orgs: map<string, string>, orgKeys: map<string, Keys>)
    requires Lawful(p) && Fits(c) && Usable(org) && |Pad(privateKey)| <= CAPACITY
    ensures orgId in orgs && orgs[orgId] == SealedOrgKey(p, org, privateKey)
            && OrgKeysResult(p, Unlocked(p, c), Some(Wrap(p, c.vault, c.iv, privateKey)), orgs, Ok(orgKeys))
            ==> orgId in orgKeys && orgKeys[orgId] == org
  {
    UnlockedOpens(p, c);
    OrgHierarchyRoundTrip(p, c.vault, Unlocked(p, c), org, privateKey, c.iv, c.iv, "");
    hide Unwrap, Wrap, OrgKey, Unlocked, Lawful, Fits;
  }

  /** A stored login of an organization is shown after an unlock that recovered the organization
      keys, each by RSA under the private key that the vault keys unwrap. */
  lemma StoredOrgLoginIsShown(p: Primitives, c: Chain, org: Keys, privateKey: seq<byte>, orgId: string,
                              orgs: map<string, string>, orgKeys: map<string, Keys>, id: string, name: string,
                              username: string, password: string, uri: string)
    requires Lawful(p) && Fits(c) && Usable(org) && |Pad(privateKey)| <= CAPACITY
    ensures orgId in orgs && orgs[orgId] == SealedOrgKey(p, org, privateKey)
            && OrgKeysResult(p, Unlocked(p, c), Some(Wrap(p, c.vault, c.iv, privateKey)), orgs, Ok(orgKeys))
            ==> var e := StoredLogin(p, c.(vault := org), id, Some(orgId), name, username, password, uri);
                LoginShown(VaultDecryptor(p), e, Unlocked(p, c), orgKeys, name, username, password, uri)
  {
    OrgKeyIsRecovered(p, c, org, privateKey, orgId, orgs, orgKeys);
    LoginReads(p, c.(vault := org), id, Some(orgId), name, username, password, uri, Unlocked(p, c), orgKeys);
    hide LoginShown, OrgKeysResult, SealedOrgKey, Wrap, Unlocked, Sealed, SealedKey, Lawful;
  }
}
