/** The cached sidebar rows (`State::rebuild_sidebar_cache` in `state.rs`) and the SSH identities
    drawn from them (`ssh_agent/identities.rs`), on values. */
module Sidebar {
  import opened Prelude
  import opened Bytes
  import opened Locked
  import opened Entries
  import Host = Domain

  /** An SSH public key, identified with its wire encoding. */
  type KeyData = seq<byte>

  /** Parsing of an OpenSSH public key. */
  type KeyParser = string -> Option<KeyData>

  datatype SidebarEntry = SidebarEntry(
    id: string,
    name: string,
    username: Option<string>,
    publicKey: Option<string>,
    entryType: EntryType,
    isPinned: bool
  )

  datatype Row = Row(entry: SidebarEntry, hosts: seq<string>)

  datatype Identity = Identity(pubkey: KeyData, comment: string)

  function TypeOf(data: EntryData): EntryType {
    match data
    case Login(_, _, _, _) => LoginType
    case SshKey(_, _, _) => SshKeyType
    case SecureNote => SecureNoteType
    case Other(kind, _) => kind
  }

  // ----- Rows ------------------------------------------------------------------------------

  /** What the sidebar shows of a decrypted entry. */
  function Projection(plain: Entry): SidebarEntry {
    SidebarEntry(plain.id, plain.name,
                 if plain.data.Login? then plain.data.username else None,
                 if plain.data.SshKey? then plain.data.publicKey else None,
                 TypeOf(plain.data), plain.favorite)
  }

  /** The host of one stored URI, when the URI takes part in matching and can be read. */
  function UriHost(d: Decryptor, keys: Keys, key: Option<string>, u: Uri): Option<string> {
    if u.matchType == Some(Never) then None
    else
      var plain := d(u.uri, keys, key);
      if plain.None? then None else Host.HostFromUri(plain.value)
  }

  function UriHosts(d: Decryptor, keys: Keys, key: Option<string>, uris: seq<Uri>): seq<string> {
    if uris == [] then [] else
      var h := UriHost(d, keys, key, uris[|uris| - 1]);
      UriHosts(d, keys, key, uris[..|uris| - 1]) + (if h.Some? then [h.value] else [])
  }

  /** The hosts of a login: those of its URIs, or else the one in its name. */
  function HostsOf(d: Decryptor, keys: Keys, key: Option<string>, name: string, data: EntryData): seq<string> {
    if !data.Login? then []
    else
      var hosts := UriHosts(d, keys, key, data.uris);
      var named := Host.HostFromName(name);
      if hosts != [] then hosts else if named.Some? then [named.value] else []
  }

  /** The row of an entry, by way of its full decryption. */
  function RowOf(d: Decryptor, e: Entry, keys: Keys, orgKeys: map<string, Keys>): Row {
    var plain := Decrypted(d, e, keys, orgKeys);
    Row(Projection(plain), HostsOf(d, EffectiveKeys(e, keys, orgKeys), e.key, plain.name, e.data))
  }

  /** What a row shows: the identifier, type and pin of the entry as they are, its readable name or
      else the stored one, and the user name of a login or the public key of an SSH key. */
  lemma RowsShowEntries(d: Decryptor, e: Entry, keys: Keys, orgKeys: map<string, Keys>, k: Keys)
    requires AppliesTo(k, e, keys, orgKeys)
    ensures var row := RowOf(d, e, keys, orgKeys).entry;
            && row.id == e.id && row.isPinned == e.favorite
            && row.name == (match d(e.name, k, e.key) case Some(plain) => plain case None => e.name)
            && (e.data.Login? ==> row.entryType == LoginType && row.publicKey.None?
                                  && OptionalReads(d, k, e.key, e.data.username, row.username))
            && (e.data.SshKey? ==> row.entryType == SshKeyType && row.username.None?
                                   && HalfIsExact(d, k, e.key, e.data.publicKey, Decrypted(d, e, keys, orgKeys).fields,
                                                  "public_key", row.publicKey))
            && (e.data.SecureNote? ==> row.entryType == SecureNoteType && row.username.None? && row.publicKey.None?)
            && (e.data.Other? ==> row.entryType == e.data.kind && row.username.None? && row.publicKey.None?)
  {
    EveryTextIsDecrypted(d, e, keys, orgKeys, k);
    if e.data.SshKey? {
      KeyPairIsExact(d, e, keys, orgKeys, k);
    }
    hide Decrypted, HalfIsExact, HostsOf;
  }

  /** The hosts of a row are those of the stored URIs, and without any the one of the shown name. */
  lemma RowsHaveHosts(d: Decryptor, e: Entry, keys: Keys, orgKeys: map<string, Keys>, k: Keys)
    requires AppliesTo(k, e, keys, orgKeys)
    ensures var row := RowOf(d, e, keys, orgKeys);
            row.hosts == HostsOf(d, k, e.key, row.entry.name, e.data) && (!e.data.Login? ==> row.hosts == [])
  {
    hide UriHosts, Host.HostFromName;
  }

  function Rows(d: Decryptor, entries: seq<Entry>, keys: Keys, orgKeys: map<string, Keys>): (r: seq<Row>)
    ensures |r| == |entries| && forall i {:trigger r[i]} :: 0 <= i < |r| ==> r[i] == RowOf(d, entries[i], keys, orgKeys)
  {
    seq(|entries|, i requires 0 <= i < |entries| => RowOf(d, entries[i], keys, orgKeys))
  }

  method CollectHosts(d: Decryptor, keys: Keys, key: Option<string>, uris: seq<Uri>) returns (hosts: seq<string>)
    ensures hosts == UriHosts(d, keys, key, uris)
  {
    hide Host.HostFromUri;
    hosts := [];
    for i := 0 to |uris|
      invariant hosts == UriHosts(d, keys, key, uris[..i])
    {
      assert uris[..i + 1][..i] == uris[..i];
      if uris[i].matchType != Some(Never) {
        var plain := d(uris[i].uri, keys, key);
        if plain.Some? {
          var host := Host.HostFromUri(plain.value);
          if host.Some? {
            hosts := hosts + [host.value];
          }
        }
      }
    }
    assert uris[..|uris|] == uris;
  }

  /** One round of the rebuild loop. It decrypts only what the row needs, and falls back to the
      full decryption when an SSH key has no readable native public key. */
  method BuildRow(d: Decryptor, e: Entry, keys: Keys, orgKeys: map<string, Keys>) returns (row: Row)
    ensures row == RowOf(d, e, keys, orgKeys)
  {
    hide Host.HostFromUri, Host.HostFromName;
    var effective := EffectiveKeys(e, keys, orgKeys);
    var name := d(e.name, effective, e.key);
    var shown := if name.Some? then name.value else e.name;
    var username, publicKey, hosts := None, None, [];
    match e.data {
      case Login(user, _, _, uris) =>
        if user.Some? {
          username := d(user.value, effective, e.key);
        }
        hosts := CollectHosts(d, effective, e.key, uris);
        if hosts == [] {
          var named := Host.HostFromName(shown);
          if named.Some? {
            hosts := [named.value];
          }
        }
      case SshKey(_, pk, _) =>
        if pk.Some? {
          publicKey := d(pk.value, effective, e.key);
        }
        if publicKey.None? {
          var plain := Decrypt(d, e, effective, orgKeys);
          publicKey := plain.data.publicKey;
        }
      case _ =>
    }
    row := Row(SidebarEntry(e.id, shown, username, publicKey, TypeOf(e.data), e.favorite), hosts);
  }

  /** The loop of `rebuild_sidebar_cache`. */
  method BuildRows(d: Decryptor, entries: seq<Entry>, keys: Keys, orgKeys: map<string, Keys>) returns (rows: seq<Row>)
    ensures rows == Rows(d, entries, keys, orgKeys)
  {
    rows := [];
    for i := 0 to |entries|
      invariant |rows| == i && forall j :: 0 <= j < i ==> rows[j] == RowOf(d, entries[j], keys, orgKeys)
    {
      var row := BuildRow(d, entries[i], keys, orgKeys);
      rows := rows + [row];
    }
  }

  /** A host is cached for a login exactly when some URI of it that is not excluded from
      matching decrypts to that host, or when there is no such URI and the name gives it. */
  lemma HostsAreExact(d: Decryptor, keys: Keys, key: Option<string>, name: string, data: EntryData, h: string)
    requires data.Login?
    ensures h in HostsOf(d, keys, key, name, data) <==>
              || (exists u :: u in data.uris && Offers(d, keys, key, u, h))
              || ((forall u, other: string :: u in data.uris ==> !Offers(d, keys, key, u, other))
                  && Host.HostFromName(name) == Some(h))
  {
    hide Host.HostFromUri, Host.HostFromName;
    var hosts := UriHosts(d, keys, key, data.uris);
    UriHostsAreExact(d, keys, key, data.uris);
    forall u | u in data.uris && UriHost(d, keys, key, u).Some? ensures hosts != [] {
      assert UriHost(d, keys, key, u).value in UriHosts(d, keys, key, data.uris);
    }
    assert forall u, other: string :: Offers(d, keys, key, u, other) <==> UriHost(d, keys, key, u) == Some(other);
    assert forall u :: UriHost(d, keys, key, u).Some? ==> Offers(d, keys, key, u, UriHost(d, keys, key, u).value);
    assert hosts != [] ==> hosts[0] in UriHosts(d, keys, key, data.uris);
  }

  /** The URI takes part in matching, can be read, and has this host. */
  predicate Offers(d: Decryptor, keys: Keys, key: Option<string>, u: Uri, h: string) {
    u.matchType != Some(Never) && d(u.uri, keys, key).Some? && Host.HostFromUri(d(u.uri, keys, key).value) == Some(h)
  }

  lemma {:induction false} UriHostsAreExact(d: Decryptor, keys: Keys, key: Option<string>, uris: seq<Uri>)
    ensures forall h {:trigger h in UriHosts(d, keys, key, uris)} ::
              h in UriHosts(d, keys, key, uris) <==> exists u :: u in uris && UriHost(d, keys, key, u) == Some(h)
  {
    if uris != [] {
      UriHostsAreExact(d, keys, key, uris[..|uris| - 1]);
      assert uris == uris[..|uris| - 1] + [uris[|uris| - 1]];
    }
  }

  // ----- SSH identities --------------------------------------------------------------------

  /** The identity of a row, when it is an SSH key whose public key can be parsed. */
  function IdentityOf(parse: KeyParser, row: Row): Option<Identity> {
    if row.entry.entryType != SshKeyType || row.entry.publicKey.None? then None
    else
      var pk := parse(row.entry.publicKey.value);
      if pk.None? then None else Some(Identity(pk.value, row.entry.name))
  }

  function Identities(parse: KeyParser, rows: seq<Row>): seq<Identity> {
    if rows == [] then [] else
      var id := IdentityOf(parse, rows[|rows| - 1]);
      Identities(parse, rows[..|rows| - 1]) + (if id.Some? then [id.value] else [])
  }

  /** The row shows an SSH key with this public key, under this name. */
  predicate ShowsKey(parse: KeyParser, row: Row, id: Identity) {
    && row.entry.entryType == SshKeyType && row.entry.publicKey.Some?
    && parse(row.entry.publicKey.value) == Some(id.pubkey) && row.entry.name == id.comment
  }

  /** The identities are exactly the parsable public keys of the SSH key rows, with their names. */
  lemma IdentitiesShowKeys(parse: KeyParser, rows: seq<Row>, id: Identity)
    ensures id in Identities(parse, rows) <==> exists i :: 0 <= i < |rows| && ShowsKey(parse, rows[i], id)
  {
    IdentitiesAreExact(parse, rows);
  }

  lemma {:induction false} IdentitiesAreExact(parse: KeyParser, rows: seq<Row>)
    ensures forall id {:trigger id in Identities(parse, rows)} ::
              id in Identities(parse, rows) <==> exists i :: 0 <= i < |rows| && IdentityOf(parse, rows[i]) == Some(id)
  {
    if rows != [] {
      var n := |rows| - 1;
      IdentitiesAreExact(parse, rows[..n]);
      forall id | id in Identities(parse, rows)
        ensures exists i :: 0 <= i < |rows| && IdentityOf(parse, rows[i]) == Some(id)
      {
        if id in Identities(parse, rows[..n]) {
          var i :| 0 <= i < n && IdentityOf(parse, rows[..n][i]) == Some(id);
          assert rows[..n][i] == rows[i];
        } else {
          assert IdentityOf(parse, rows[n]) == Some(id);
        }
      }
      forall id, i | 0 <= i < |rows| && IdentityOf(parse, rows[i]) == Some(id)
        ensures id in Identities(parse, rows)
      {
        if i < n {
          assert rows[..n][i] == rows[i];
        }
      }
    }
  }

  lemma RowIsListed(d: Decryptor, parse: KeyParser, entries: seq<Entry>, keys: Keys, orgKeys: map<string, Keys>,
                    i: nat, id: Identity)
    requires i < |entries| && IdentityOf(parse, RowOf(d, entries[i], keys, orgKeys)) == Some(id)
    ensures id in Identities(parse, Rows(d, entries, keys, orgKeys))
  {
    hide RowOf, IdentityOf;
    var rows := Rows(d, entries, keys, orgKeys);
    IdentitiesAreExact(parse, rows);
    assert IdentityOf(parse, rows[i]) == Some(id);
  }

  const LOCKED_COMMENT_TOKEN := "[cosmarden:locked]"

  function LockedComment(comment: string): string {
    comment + " " + LOCKED_COMMENT_TOKEN
  }

  function IdentitiesForList(cache: seq<Identity>, locked: bool): seq<Identity> {
    Map((id: Identity) => if locked then Identity(id.pubkey, LockedComment(id.comment)) else id, cache)
  }

  predicate CacheHasPubkey(cache: seq<Identity>, pubkey: KeyData) {
    exists id :: id in cache && id.pubkey == pubkey
  }

  function Pubkeys(ids: seq<Identity>): seq<KeyData> {
    Map((id: Identity) => id.pubkey, ids)
  }

  /** Locked and unlocked listings carry the same keys in the same order; a locked comment is the
      name and the token. */
  lemma ListingsAgree(cache: seq<Identity>)
    ensures Pubkeys(IdentitiesForList(cache, true)) == Pubkeys(IdentitiesForList(cache, false)) == Pubkeys(cache)
    ensures IdentitiesForList(cache, false) == cache
    ensures forall i :: 0 <= i < |cache| ==>
              IdentitiesForList(cache, true)[i].comment == cache[i].comment + " [cosmarden:locked]"
  {
  }
}
