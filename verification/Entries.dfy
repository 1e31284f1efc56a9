/** Vault entries and their decryption (`db/models.rs`). Login, SSH key and secure note are
    spelled out; every other type is a list of optional fields that are decrypted one by one. */
module Entries {
  import opened Prelude
  import opened Locked

  /** `vault::decrypt` as entries use it: cipher string, keys, entry key; an error is only logged. */
  type Decryptor = (string, Keys, Option<string>) -> Option<string>

  datatype MatchType = Domain | Host | StartsWith | Exact | RegularExpression | Never

  datatype Uri = Uri(uri: string, matchType: Option<MatchType>)

  datatype Field = Field(name: Option<string>, value: Option<string>)

  datatype EntryType =
    | LoginType | SshKeyType | SecureNoteType | CardType | IdentityType
    | BankAccountType | DriversLicenseType | PassportType

  datatype EntryData =
    | Login(username: Option<string>, password: Option<string>, totp: Option<string>, uris: seq<Uri>)
    | SshKey(privateKey: Option<string>, publicKey: Option<string>, fingerprint: Option<string>)
    | SecureNote
    | Other(kind: EntryType, values: seq<Option<string>>)

  datatype Entry = Entry(
    id: string,
    orgId: Option<string>,
    name: string,
    favorite: bool,
    data: EntryData,
    fields: seq<Field>,
    notes: Option<string>,
    key: Option<string>
  )

  /** The keys of the entry's organization when it has one and they are known. */
  function EffectiveKeys(e: Entry, keys: Keys, orgKeys: map<string, Keys>): Keys {
    if e.orgId.Some? && e.orgId.value in orgKeys then orgKeys[e.orgId.value] else keys
  }

  /** An optional text: absent stays absent, and one that cannot be decrypted becomes absent. */
  function DecryptOptional(d: Decryptor, keys: Keys, key: Option<string>, text: Option<string>): Option<string> {
    if text.None? then None else d(text.value, keys, key)
  }

  /** A text that keeps its encrypted form when it cannot be decrypted. */
  function DecryptOrKeep(d: Decryptor, keys: Keys, key: Option<string>, text: string): string {
    var plain := d(text, keys, key);
    if plain.Some? then plain.value else text
  }

  function DecryptedUri(d: Decryptor, keys: Keys, key: Option<string>, u: Uri): Uri {
    u.(uri := DecryptOrKeep(d, keys, key, u.uri))
  }

  function DecryptedField(d: Decryptor, keys: Keys, key: Option<string>, f: Field): Field {
    Field(if f.name.Some? then Some(DecryptOrKeep(d, keys, key, f.name.value)) else None,
          DecryptOptional(d, keys, key, f.value))
  }

  function Map<T, U>(f: T -> U, s: seq<T>): (r: seq<U>)
    ensures |r| == |s| && forall i {:trigger r[i]} :: 0 <= i < |s| ==> r[i] == f(s[i])
  {
    seq(|s|, i requires 0 <= i < |s| => f(s[i]))
  }

  /** The value of the last custom field with this name, which may itself be absent. */
  function LastValue(fields: seq<Field>, name: string): Option<string> {
    if fields == [] then None
    else if fields[|fields| - 1].name == Some(name) then fields[|fields| - 1].value
    else LastValue(fields[..|fields| - 1], name)
  }

  function OrElse(a: Option<string>, b: Option<string>): Option<string> {
    if a.Some? then a else b
  }

  function DecryptedData(d: Decryptor, keys: Keys, key: Option<string>, data: EntryData, fields: seq<Field>)
    : EntryData
  {
    match data
    case Login(username, password, totp, uris) =>
      Login(DecryptOptional(d, keys, key, username), DecryptOptional(d, keys, key, password),
            DecryptOptional(d, keys, key, totp), Map(u => DecryptedUri(d, keys, key, u), uris))
    case SshKey(privateKey, publicKey, fingerprint) =>
      SshKey(OrElse(DecryptOptional(d, keys, key, privateKey), LastValue(fields, "private_key")),
             OrElse(DecryptOptional(d, keys, key, publicKey), LastValue(fields, "public_key")),
             DecryptOptional(d, keys, key, fingerprint))
    case SecureNote => SecureNote
    case Other(kind, values) => Other(kind, Map(v => DecryptOptional(d, keys, key, v), values))
  }

  /** The decrypted entry. An SSH key without a readable key pair takes it from the decrypted
      custom fields `private_key` and `public_key`. */
  function Decrypted(d: Decryptor, e: Entry, keys: Keys, orgKeys: map<string, Keys>): Entry {
    var k := EffectiveKeys(e, keys, orgKeys);
    var fields := Map(f => DecryptedField(d, k, e.key, f), e.fields);
    e.(name := DecryptOrKeep(d, k, e.key, e.name),
       notes := if e.notes.Some? then Some(DecryptOrKeep(d, k, e.key, e.notes.value)) else None,
       data := DecryptedData(d, k, e.key, e.data, fields),
       fields := fields)
  }

  /** The part of `Entry::decrypt` that overwrites the typed data of the copy. */
  method DecryptData(d: Decryptor, keys: Keys, key: Option<string>, data: EntryData) returns (r: EntryData)
    ensures match data
            case SshKey(privateKey, publicKey, fingerprint) =>
              r == SshKey(DecryptOptional(d, keys, key, privateKey), DecryptOptional(d, keys, key, publicKey),
                          DecryptOptional(d, keys, key, fingerprint))
            case _ => r == DecryptedData(d, keys, key, data, [])
  {
    match data
    case Login(username, password, totp, uris) =>
      var plain := uris;
      for i := 0 to |uris|
        invariant |plain| == |uris|
        invariant forall j :: 0 <= j < i ==> plain[j] == DecryptedUri(d, keys, key, uris[j])
        invariant forall j :: i <= j < |uris| ==> plain[j] == uris[j]
      {
        var text := d(plain[i].uri, keys, key);
        if text.Some? {
          plain := plain[i := plain[i].(uri := text.value)];
        }
      }
      assert plain == Map(u => DecryptedUri(d, keys, key, u), uris);
      r := Login(DecryptOptional(d, keys, key, username), DecryptOptional(d, keys, key, password),
                 DecryptOptional(d, keys, key, totp), plain);
    case SshKey(privateKey, publicKey, fingerprint) =>
      r := SshKey(DecryptOptional(d, keys, key, privateKey), DecryptOptional(d, keys, key, publicKey),
                  DecryptOptional(d, keys, key, fingerprint));
    case SecureNote =>
      r := SecureNote;
    case Other(kind, values) =>
      var plain := values;
      for i := 0 to |values|
        invariant |plain| == |values|
        invariant forall j :: 0 <= j < i ==> plain[j] == DecryptOptional(d, keys, key, values[j])
        invariant forall j :: i <= j < |values| ==> plain[j] == values[j]
      {
        plain := plain[i := DecryptOptional(d, keys, key, plain[i])];
      }
      assert plain == Map(v => DecryptOptional(d, keys, key, v), values);
      r := Other(kind, plain);
  }

  method DecryptFields(d: Decryptor, keys: Keys, key: Option<string>, fields: seq<Field>) returns (r: seq<Field>)
    ensures r == Map(f => DecryptedField(d, keys, key, f), fields)
  {
    r := fields;
    for i := 0 to |fields|
      invariant |r| == |fields|
      invariant forall j :: 0 <= j < i ==> r[j] == DecryptedField(d, keys, key, fields[j])
      invariant forall j :: i <= j < |fields| ==> r[j] == fields[j]
    {
      var f := r[i];
      if f.name.Some? {
        var name := d(f.name.value, keys, key);
        f := f.(name := if name.Some? then name else f.name);
      }
      if f.value.Some? {
        f := f.(value := d(f.value.value, keys, key));
      }
      r := r[i := f];
    }
  }

  /** The scan for the custom fields that can stand in for an SSH key pair. */
  method FindFallbacks(fields: seq<Field>) returns (privateKey: Option<string>, publicKey: Option<string>)
    ensures privateKey == LastValue(fields, "private_key") && publicKey == LastValue(fields, "public_key")
  {
    privateKey, publicKey := None, None;
    for i := 0 to |fields|
      invariant privateKey == LastValue(fields[..i], "private_key")
      invariant publicKey == LastValue(fields[..i], "public_key")
    {
      assert fields[..i + 1][..i] == fields[..i];
      if fields[i].name == Some("private_key") {
        privateKey := fields[i].value;
      }
      if fields[i].name == Some("public_key") {
        publicKey := fields[i].value;
      }
    }
    assert fields[..|fields|] == fields;
  }

  /** `Entry::decrypt`: copy the entry, then overwrite field by field. */
  method Decrypt(d: Decryptor, e: Entry, keys: Keys, orgKeys: map<string, Keys>) returns (r: Entry)
    ensures r == Decrypted(d, e, keys, orgKeys)
  {
    var k := EffectiveKeys(e, keys, orgKeys);
    r := e;
    var name := d(e.name, k, e.key);
    if name.Some? {
      r := r.(name := name.value);
    }
    if e.notes.Some? {
      var notes := d(e.notes.value, k, e.key);
      if notes.Some? {
        r := r.(notes := notes);
      }
    }
    var data := DecryptData(d, k, e.key, e.data);
    var fields := DecryptFields(d, k, e.key, e.fields);
    var privateKey, publicKey := FindFallbacks(fields);
    if data.SshKey? {
      data := data.(privateKey := OrElse(data.privateKey, privateKey), publicKey := OrElse(data.publicKey, publicKey));
    }
    r := r.(data := data, fields := fields);
  }

  /** `LastValue` finds the last field of that name, and nothing when there is none. */
  lemma {:induction false} LastValueIsLast(fields: seq<Field>, name: string)
    ensures forall i :: 0 <= i < |fields| && fields[i].name == Some(name)
                        && (forall j :: i < j < |fields| ==> fields[j].name != Some(name))
                        ==> LastValue(fields, name) == fields[i].value
    ensures (forall i :: 0 <= i < |fields| ==> fields[i].name != Some(name)) ==> LastValue(fields, name) == None
  {
    var n := |fields|;
    if n > 0 && fields[n - 1].name != Some(name) {
      LastValueIsLast(fields[..n - 1], name);
    }
  }

  /** The keys an entry is decrypted under: those of its organization when they are known. */
  predicate AppliesTo(k: Keys, e: Entry, keys: Keys, orgKeys: map<string, Keys>) {
    match e.orgId
    case None => k == keys
    case Some(org) => (org in orgKeys ==> k == orgKeys[org]) && (org !in orgKeys ==> k == keys)
  }

  /** What becomes of every text of an entry: names, notes and URIs that cannot be read stay as they
      are, other texts that cannot be read go, and nothing else changes. */
  lemma EveryTextIsDecrypted(d: Decryptor, e: Entry, keys: Keys, orgKeys: map<string, Keys>, k: Keys)
    requires AppliesTo(k, e, keys, orgKeys)
    ensures var r := Decrypted(d, e, keys, orgKeys);
            && (r.id, r.orgId, r.favorite, r.key) == (e.id, e.orgId, e.favorite, e.key)
            && (d(e.name, k, e.key).Some? ==> r.name == d(e.name, k, e.key).value)
            && (d(e.name, k, e.key).None? ==> r.name == e.name)
            && (e.notes.None? <==> r.notes.None?)
            && (e.notes.Some? && d(e.notes.value, k, e.key).Some? ==> r.notes == d(e.notes.value, k, e.key))
            && (e.notes.Some? && d(e.notes.value, k, e.key).None? ==> r.notes == e.notes)
            && |r.fields| == |e.fields|
            && forall i :: 0 <= i < |e.fields| ==> FieldReads(d, k, e.key, e.fields[i], r.fields[i])
    ensures e.data.Login? ==>
              var r := Decrypted(d, e, keys, orgKeys).data;
              && r.Login? && OptionalReads(d, k, e.key, e.data.username, r.username)
              && OptionalReads(d, k, e.key, e.data.password, r.password)
              && OptionalReads(d, k, e.key, e.data.totp, r.totp)
              && |r.uris| == |e.data.uris|
              && forall i :: 0 <= i < |r.uris| ==> UriReads(d, k, e.key, e.data.uris[i], r.uris[i])
    ensures e.data.SecureNote? ==> Decrypted(d, e, keys, orgKeys).data == e.data
    ensures e.data.Other? ==>
              var r := Decrypted(d, e, keys, orgKeys).data;
              && r.Other? && r.kind == e.data.kind && |r.values| == |e.data.values|
              && forall i :: 0 <= i < |r.values| ==> OptionalReads(d, k, e.key, e.data.values[i], r.values[i])
  {
  }

  predicate OptionalReads(d: Decryptor, k: Keys, key: Option<string>, text: Option<string>, r: Option<string>) {
    match text
    case None => r.None?
    case Some(sealed) => r == d(sealed, k, key)
  }

  predicate FieldReads(d: Decryptor, k: Keys, key: Option<string>, f: Field, r: Field) {
    && OptionalReads(d, k, key, f.value, r.value)
    && match f.name
       case None => r.name.None?
       case Some(sealed) => r.name == Some(match d(sealed, k, key) case Some(plain) => plain case None => sealed)
  }

  predicate UriReads(d: Decryptor, k: Keys, key: Option<string>, u: Uri, r: Uri) {
    r.matchType == u.matchType && r.uri == match d(u.uri, k, key) case Some(plain) => plain case None => u.uri
  }

  /** The field at `i` is the last one with that name. */
  predicate LastNamed(fields: seq<Field>, name: string, i: nat) {
    && i < |fields| && fields[i].name == Some(name)
    && forall j :: i < j < |fields| ==> fields[j].name != Some(name)
  }

  predicate NoneNamed(fields: seq<Field>, name: string) {
    forall i :: 0 <= i < |fields| ==> fields[i].name != Some(name)
  }

  /** The key pair of an SSH key: each half is the native one when that can be read, and otherwise
      the value of the last custom field that decrypts to its name, if there is one. */
  lemma KeyPairIsExact(d: Decryptor, e: Entry, keys: Keys, orgKeys: map<string, Keys>, k: Keys)
    requires e.data.SshKey? && AppliesTo(k, e, keys, orgKeys)
    ensures var r := Decrypted(d, e, keys, orgKeys);
            && r.data.SshKey? && OptionalReads(d, k, e.key, e.data.fingerprint, r.data.fingerprint)
            && HalfIsExact(d, k, e.key, e.data.privateKey, r.fields, "private_key", r.data.privateKey)
            && HalfIsExact(d, k, e.key, e.data.publicKey, r.fields, "public_key", r.data.publicKey)
  {
    var fields := Decrypted(d, e, keys, orgKeys).fields;
    HalfOf(d, k, e.key, e.data.privateKey, fields, "private_key");
    HalfOf(d, k, e.key, e.data.publicKey, fields, "public_key");
    hide HalfIsExact, LastValue, DecryptOptional, DecryptedField, Map;
  }

  lemma HalfOf(d: Decryptor, k: Keys, key: Option<string>, native: Option<string>, fields: seq<Field>, name: string)
    ensures HalfIsExact(d, k, key, native, fields, name,
                        OrElse(DecryptOptional(d, k, key, native), LastValue(fields, name)))
  {
    LastValueIsLast(fields, name);
    hide LastValue;
  }

  ghost predicate HalfIsExact(d: Decryptor, k: Keys, key: Option<string>, native: Option<string>, fields: seq<Field>,
                              name: string, r: Option<string>) {
    var readable := native.Some? && d(native.value, k, key).Some?;
    && (readable ==> r == d(native.value, k, key))
    && (!readable ==> forall i: nat {:trigger LastNamed(fields, name, i)} ::
          LastNamed(fields, name, i) ==> r == fields[i].value)
    && (!readable && NoneNamed(fields, name) ==> r.None?)
  }
}
