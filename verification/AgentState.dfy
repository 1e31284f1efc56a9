/** The agent's shared state (`state.rs`) with the operations that change it in place. Every
    method is specified by a function on `Snapshot`, the value of all fields. */
module AgentState {
  import opened Prelude
  import opened Locked
  import opened Entries
  import opened Sidebar

  datatype Event = LockedEvent | UnlockedEvent | VaultChanged | UnlockRequested | PinRequested | OpenEntry(id: string)

  datatype VaultSession = SessionLocked | SessionUnlocked | SessionLoggedOut

  datatype Db = Db(entries: seq<Entry>, accessToken: Option<string>, refreshToken: Option<string>)

  /** The sending half of a subscriber's channel: what was sent into it, and whether the
      receiver of connection `conn` still exists. */
  class Channel {
    const conn: nat
    var received: seq<Event>
    var connected: bool

    constructor (conn: nat)
      ensures this.conn == conn && received == [] && connected
    {
      this.conn := conn;
      received, connected := [], true;
    }

    method Send(event: Event) returns (ok: bool)
      modifies this
      ensures ok == old(connected) && connected == old(connected)
      ensures received == if ok then old(received) + [event] else old(received)
    {
      ok := connected;
      if ok {
        received := received + [event];
      }
    }

    ghost function View(): Stream
      reads this
    {
      Stream(conn, received, connected)
    }
  }

  datatype Stream = Stream(conn: nat, received: seq<Event>, connected: bool)

  datatype Snapshot = Snapshot(
    keys: Option<Keys>,
    orgKeys: Option<map<string, Keys>>,
    db: Option<Db>,
    userId: Option<string>,
    pinnedIds: set<string>,
    sidebarCache: seq<Row>,
    identityCache: seq<Identity>,
    session: VaultSession,
    pendingEntryId: Option<string>,
    streams: seq<Stream>,
    unlockNotified: bool,
    syncFailed: bool,
    lastSyncError: Option<string>,
    lockEpoch: nat,
    tpmConfigured: bool
  )

  const U64: nat := 0x1_0000_0000_0000_0000

  const FRESH := Snapshot(None, None, None, None, {}, [], [], SessionLoggedOut, None, [], false, false, None, 0, false)

  // ----- The operations on values ----------------------------------------------------------

  /** Send to every subscriber and drop those whose receiver is gone. */
  function Deliver(streams: seq<Stream>, event: Event): seq<Stream> {
    if streams == [] then [] else
      var last := streams[|streams| - 1];
      Deliver(streams[..|streams| - 1], event)
      + (if last.connected then [last.(received := last.received + [event])] else [])
  }

  function Broadcasted(v: Snapshot, event: Event): Snapshot {
    v.(streams := Deliver(v.streams, event))
  }

  function OrgKeysOf(v: Snapshot): map<string, Keys> {
    if v.orgKeys.Some? then v.orgKeys.value else map[]
  }

  /** `rebuild_sidebar_cache`: without a database or keys the rows are dropped, and without
      keys the identities and the session are left alone. */
  function Rebuilt(d: Decryptor, parse: KeyParser, v: Snapshot): Snapshot {
    var rows := if v.db.Some? && v.keys.Some? then Rows(d, v.db.value.entries, v.keys.value, OrgKeysOf(v)) else [];
    if v.keys.Some? then v.(sidebarCache := rows, identityCache := Identities(parse, rows), session := SessionUnlocked)
    else v.(sidebarCache := rows)
  }

  function WithoutTokens(db: Option<Db>): Option<Db> {
    if db.Some? then Some(Db(db.value.entries, None, None)) else None
  }

  function NextEpoch(epoch: nat): nat {
    (epoch + 1) % U64
  }

  /** What `lock` forgets before it tells the subscribers; the SSH identities stay. */
  function Forgotten(v: Snapshot): Snapshot {
    v.(keys := None, orgKeys := None, pinnedIds := {}, sidebarCache := [], pendingEntryId := None,
       unlockNotified := false, session := SessionLocked, lockEpoch := NextEpoch(v.lockEpoch),
       db := WithoutTokens(v.db))
  }

  function WhenLocked(v: Snapshot): Snapshot {
    Broadcasted(Forgotten(v), LockedEvent)
  }

  function Cleared(v: Snapshot): Snapshot {
    WhenLocked(v).(identityCache := [], db := None, userId := None, syncFailed := false, lastSyncError := None,
                session := SessionLoggedOut)
  }

  function UnlockEvent(v: Snapshot): Event {
    if v.tpmConfigured then PinRequested else UnlockRequested
  }

  function Requested(v: Snapshot): Snapshot {
    if v.unlockNotified then v else Broadcasted(v, UnlockEvent(v)).(unlockNotified := true)
  }

  /** A connection becomes a subscriber (`lib.rs`) and takes the pending deep link with it. */
  function Joined(v: Snapshot, conn: nat): Snapshot {
    v.(pendingEntryId := None, streams := v.streams + [Stream(conn, PendingEvents(v), true)])
  }

  function PendingEvents(v: Snapshot): seq<Event> {
    if v.pendingEntryId.Some? then [OpenEntry(v.pendingEntryId.value)] else []
  }

  function PendingSet(v: Snapshot, id: string): Snapshot {
    Broadcasted(v, OpenEntry(id)).(pendingEntryId := Some(id))
  }

  // ----- The search for a signing key ------------------------------------------------------

  /** The private key to sign with, when the entry is an SSH key for the requested public key. */
  function SigningKey(d: Decryptor, parse: KeyParser, e: Entry, keys: Keys, orgKeys: map<string, Keys>,
                      pubkey: KeyData): Option<string> {
    var data := Decrypted(d, e, keys, orgKeys).data;
    if data.SshKey? && data.privateKey.Some? && data.publicKey.Some? && parse(data.publicKey.value) == Some(pubkey)
    then data.privateKey else None
  }

  /** The outcome of a sign request, up to the signature itself. */
  datatype SignOutcome = SignWith(privateKey: string) | AgentLocked | NoMatchingKey

  /** The outcome is that of the first entry for the requested key that also has a private key. */
  ghost predicate Selects(d: Decryptor, parse: KeyParser, entries: seq<Entry>, keys: Keys, orgKeys: map<string, Keys>,
                          pubkey: KeyData, r: SignOutcome) {
    match r
    case SignWith(privateKey) =>
      exists i :: 0 <= i < |entries|
                  && SigningKey(d, parse, entries[i], keys, orgKeys, pubkey) == Some(privateKey)
                  && forall j :: 0 <= j < i ==> SigningKey(d, parse, entries[j], keys, orgKeys, pubkey).None?
    case NoMatchingKey =>
      forall i :: 0 <= i < |entries| ==> SigningKey(d, parse, entries[i], keys, orgKeys, pubkey).None?
    case AgentLocked => false
  }

  /** An entry for the key decides the search, unless an earlier one does. */
  lemma FirstMatchDecides(d: Decryptor, parse: KeyParser, entries: seq<Entry>, keys: Keys, orgKeys: map<string, Keys>,
                          pubkey: KeyData, i: nat, privateKey: string, r: SignOutcome)
    requires i < |entries| && SigningKey(d, parse, entries[i], keys, orgKeys, pubkey) == Some(privateKey)
    requires Selects(d, parse, entries, keys, orgKeys, pubkey, r)
    ensures r.SignWith?
    ensures (forall j :: 0 <= j < i ==> SigningKey(d, parse, entries[j], keys, orgKeys, pubkey).None?)
            ==> r == SignWith(privateKey)
  {
    hide SigningKey;
  }

  // ----- The class -------------------------------------------------------------------------

  ghost predicate Distinct(cs: seq<Channel>) {
    forall i, j :: 0 <= i < j < |cs| ==> cs[i] != cs[j]
  }

  ghost function Streams(cs: seq<Channel>): (r: seq<Stream>)
    reads cs
    ensures |r| == |cs| && forall i {:trigger r[i]} :: 0 <= i < |cs| ==> r[i] == cs[i].View()
  {
    seq(|cs|, i requires 0 <= i < |cs| reads cs => cs[i].View())
  }

  /** `retain` with `send` in `broadcast`: send to all channels, keep those that took the event. */
  method SendToAll(all: seq<Channel>, event: Event) returns (kept: seq<Channel>)
    requires Distinct(all)
    modifies all
    ensures Distinct(kept) && forall c :: c in kept ==> c in all
    ensures Streams(kept) == Deliver(old(Streams(all)), event)
  {
    ghost var was := Streams(all);
    kept := [];
    for i := 0 to |all|
      invariant forall c :: c in kept ==> c in all[..i]
      invariant Distinct(kept)
      invariant forall j :: i <= j < |all| ==> all[j].View() == was[j]
      invariant Streams(kept) == Deliver(was[..i], event)
    {
      assert was[..i + 1][..i] == was[..i];
      assert all[i] !in all[..i];
      assert all[i] !in kept;
      ghost var sent := Streams(kept);
      var ok := all[i].Send(event);
      assert Streams(kept) == sent;
      if ok {
        kept := kept + [all[i]];
        assert Streams(kept) == sent + [all[i].View()];
      }
    }
    assert was[..|all|] == was;
  }

  class State {
    var keys: Option<Keys>
    var orgKeys: Option<map<string, Keys>>
    var db: Option<Db>
    var userId: Option<string>
    var pinnedIds: set<string>
    var sidebarCache: seq<Row>
    var identityCache: seq<Identity>
    var session: VaultSession
    var pendingEntryId: Option<string>
    var subscribers: seq<Channel>
    var unlockNotified: bool
    var syncFailed: bool
    var lastSyncError: Option<string>
    var lockEpoch: nat
    var tpmConfigured: bool

    /** No channel is registered twice, and the epoch is an unsigned 64-bit number. */
    ghost predicate Valid()
      reads this
    {
      Distinct(subscribers) && lockEpoch < U64
    }

    ghost function View(): Snapshot
      reads this, subscribers
    {
      Snapshot(keys, orgKeys, db, userId, pinnedIds, sidebarCache, identityCache, session, pendingEntryId,
               Streams(subscribers), unlockNotified, syncFailed, lastSyncError, lockEpoch, tpmConfigured)
    }

    constructor ()
      ensures Valid() && View() == FRESH
    {
      keys, orgKeys, db, userId, pinnedIds := None, None, None, None, {};
      sidebarCache, identityCache, session, pendingEntryId := [], [], SessionLoggedOut, None;
      subscribers, unlockNotified, syncFailed, lastSyncError := [], false, false, None;
      lockEpoch, tpmConfigured := 0, false;
    }

    method Broadcast(event: Event)
      requires Valid()
      modifies this`subscribers, subscribers
      ensures Valid() && View() == Broadcasted(old(View()), event)
      ensures forall c :: c in subscribers ==> c in old(subscribers)
    {
      var kept := SendToAll(subscribers, event);
      subscribers := kept;
    }

    method BumpEpoch()
      requires Valid()
      modifies this`lockEpoch
      ensures Valid() && lockEpoch == NextEpoch(old(lockEpoch))
    {
      lockEpoch := (lockEpoch + 1) % U64;
    }

    method RebuildFromSidebar(parse: KeyParser)
      requires Valid()
      modifies this`identityCache
      ensures Valid() && View() == old(View()).(identityCache := Identities(parse, sidebarCache))
    {
      identityCache := [];
      for i := 0 to |sidebarCache|
        invariant Valid() && identityCache == Identities(parse, sidebarCache[..i])
      {
        assert sidebarCache[..i + 1][..i] == sidebarCache[..i];
        var entry := sidebarCache[i].entry;
        if entry.entryType == SshKeyType && entry.publicKey.Some? {
          var pk := parse(entry.publicKey.value);
          if pk.Some? {
            identityCache := identityCache + [Identity(pk.value, entry.name)];
          }
        }
      }
      assert sidebarCache[..|sidebarCache|] == sidebarCache;
    }

    method RebuildSidebarCache(d: Decryptor, parse: KeyParser)
      requires Valid()
      modifies this`sidebarCache, this`identityCache, this`session
      ensures Valid() && View() == Rebuilt(d, parse, old(View()))
    {
      hide Identities, RowOf, Streams;
      if db.Some? && keys.Some? {
        sidebarCache := BuildRows(d, db.value.entries, keys.value, if orgKeys.Some? then orgKeys.value else map[]);
      } else {
        sidebarCache := [];
      }
      if keys.Some? {
        RebuildFromSidebar(parse);
        session := SessionUnlocked;
      }
    }

    /** `lock` up to its broadcast. */
    method Forget()
      requires Valid()
      modifies this
      ensures Valid() && unchanged(`userId, `identityCache, `subscribers, `syncFailed, `lastSyncError, `tpmConfigured)
      ensures keys.None? && orgKeys.None? && pinnedIds == {} && sidebarCache == [] && pendingEntryId.None?
      ensures !unlockNotified && session == SessionLocked && lockEpoch == NextEpoch(old(lockEpoch))
      ensures db == WithoutTokens(old(db))
    {
      keys, orgKeys, pinnedIds, sidebarCache := None, None, {}, [];
      pendingEntryId, unlockNotified, session := None, false, SessionLocked;
      BumpEpoch();
      if db.Some? {
        db := Some(db.value.(accessToken := None, refreshToken := None));
      }
    }

    method Lock()
      requires Valid()
      modifies this, subscribers
      ensures Valid() && View() == WhenLocked(old(View()))
    {
      Forget();
      assert View() == Forgotten(old(View()));
      Broadcast(LockedEvent);
    }

    method ClearAccount()
      requires Valid()
      modifies this, subscribers
      ensures Valid() && View() == Cleared(old(View()))
    {
      hide Deliver, Streams, Forgotten;
      Lock();
      identityCache, db, userId := [], None, None;
      syncFailed, lastSyncError, session := false, None, SessionLoggedOut;
    }

    method RequestUnlock()
      requires Valid()
      modifies this`subscribers, this`unlockNotified, subscribers
      ensures Valid() && View() == Requested(old(View()))
    {
      if !unlockNotified {
        Broadcast(if tpmConfigured then PinRequested else UnlockRequested);
        unlockNotified := true;
      }
    }

    /** `list_identities`, under the state mutex. */
    method ListIdentities() returns (r: seq<Identity>)
      requires Valid()
      modifies this`subscribers, this`unlockNotified, subscribers
      ensures Valid() && View() == if old(keys).None? then Requested(old(View())) else old(View())
      ensures r == IdentitiesForList(old(identityCache), old(keys).None?)
    {
      var locked := keys.None?;
      if locked {
        RequestUnlock();
      }
      r := IdentitiesForList(identityCache, locked);
    }

    /** The registration of a new subscriber in the connection loop. */
    method Subscribe(conn: nat) returns (channel: Channel)
      requires Valid()
      modifies this`subscribers, this`pendingEntryId
      ensures Valid() && View() == Joined(old(View()), conn) && fresh(channel)
    {
      ghost var was := Streams(subscribers);
      channel := new Channel(conn);
      if pendingEntryId.Some? {
        var _ := channel.Send(OpenEntry(pendingEntryId.value));
        pendingEntryId := None;
      }
      assert channel.View() == Stream(conn, PendingEvents(old(View())), true);
      assert Streams(subscribers + [channel]) == was + [channel.View()];
      subscribers := subscribers + [channel];
    }

    /** The handler of `SetPendingEntry`. */
    method SetPendingEntry(id: string)
      requires Valid()
      modifies this`subscribers, this`pendingEntryId, subscribers
      ensures Valid() && View() == PendingSet(old(View()), id)
    {
      Broadcast(OpenEntry(id));
      pendingEntryId := Some(id);
    }

    /** `sign_unlocked`: the first entry for the requested key that also has a private key. */
    method SignUnlocked(d: Decryptor, parse: KeyParser, pubkey: KeyData) returns (r: SignOutcome)
      ensures r.AgentLocked? <==> keys.None? || db.None?
      ensures keys.Some? && db.Some? ==>
                var org := if orgKeys.Some? then orgKeys.value else map[];
                Selects(d, parse, db.value.entries, keys.value, org, pubkey, r)
    {
      if keys.None? || db.None? {
        return AgentLocked;
      }
      var org := if orgKeys.Some? then orgKeys.value else map[];
      var entries := db.value.entries;
      for i := 0 to |entries|
        invariant forall j :: 0 <= j < i ==> SigningKey(d, parse, entries[j], keys.value, org, pubkey).None?
      {
        if entries[i].data.SshKey? {
          var plain := Decrypt(d, entries[i], keys.value, org);
          if plain.data.privateKey.Some? && plain.data.publicKey.Some?
             && parse(plain.data.publicKey.value) == Some(pubkey) {
            return SignWith(plain.data.privateKey.value);
          }
        }
      }
      return NoMatchingKey;
    }
  }
}
