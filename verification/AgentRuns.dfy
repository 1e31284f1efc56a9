/** Runs of the agent over its shared state. Every request handler is a sequence of segments
    under the state mutex; a run is any interleaving of such segments. The handlers that are not
    modelled in full (login, unlock, sync, edits) appear with the segment that changes the state. */
module AgentRuns {
  import opened Prelude
  import opened Locked
  import opened Entries
  import opened Sidebar
  import opened AgentState

  datatype Op =
    | Unlock(keys: Keys, orgKeys: map<string, Keys>, db: Db)  // with the master password or a PIN
    | Login(keys: Keys, orgKeys: map<string, Keys>, db: Db, userId: string)
    | Sync(entries: seq<Entry>, userId: string)
    | SyncAborted(entries: seq<Entry>, userId: string)        // the configuration cannot be read half-way
    | SyncFailed(message: string)
    | Edit(entries: seq<Entry>, pinnedIds: set<string>)       // an edit in memory, as for favorites
    | Notify                                                  // the notification after an edit
    | LoadDb(db: Db)
    | Lock
    | ClearAccount
    | RequestUnlock
    | List
    | SetPending(id: string)
    | Join(conn: nat)
    | Leave(conn: nat)
    | SetTpm(configured: bool)

  /** The two abstract functions every step is taken under. */
  datatype Env = Env(decrypt: Decryptor, parse: KeyParser)

  function Favorites(entries: seq<Entry>): set<string> {
    set e | e in entries && e.favorite :: e.id
  }

  function WithEntries(v: Snapshot, entries: seq<Entry>): Snapshot {
    v.(db := if v.db.Some? then Some(v.db.value.(entries := entries)) else None)
  }

  predicate HasConn(v: Snapshot, conn: nat) {
    exists s :: s in v.streams && s.conn == conn
  }

  function Dropped(streams: seq<Stream>, conn: nat): (r: seq<Stream>)
    ensures |r| == |streams|
    ensures forall i {:trigger r[i]} :: 0 <= i < |r| ==>
              r[i] == if streams[i].conn == conn then streams[i].(connected := false) else streams[i]
  {
    seq(|streams|, i requires 0 <= i < |streams| =>
      if streams[i].conn == conn then streams[i].(connected := false) else streams[i])
  }

  /** The state after the segment, before what it broadcasts. */
  function Changed(env: Env, v: Snapshot, op: Op): Snapshot {
    match op
    case Unlock(keys, orgKeys, db) =>
      Rebuilt(env.decrypt, env.parse,
              v.(keys := Some(keys), orgKeys := Some(orgKeys), db := Some(db), pinnedIds := Favorites(db.entries),
                 lockEpoch := NextEpoch(v.lockEpoch)))
    case Login(keys, orgKeys, db, userId) =>
      Rebuilt(env.decrypt, env.parse,
              v.(keys := Some(keys), orgKeys := Some(orgKeys), db := Some(db), pinnedIds := Favorites(db.entries),
                 lockEpoch := NextEpoch(v.lockEpoch), userId := Some(userId), syncFailed := false,
                 lastSyncError := None))
    case Sync(entries, userId) =>
      Rebuilt(env.decrypt, env.parse,
              WithEntries(v, entries).(userId := Some(userId), pinnedIds := Favorites(entries),
                                       syncFailed := false, lastSyncError := None))
    case SyncAborted(entries, userId) => WithEntries(v, entries).(userId := Some(userId))
    case SyncFailed(message) => v.(syncFailed := true, lastSyncError := Some(message))
    case Edit(entries, pinnedIds) =>
      if v.keys.Some? then Rebuilt(env.decrypt, env.parse, WithEntries(v, entries).(pinnedIds := pinnedIds)) else v
    case Notify => v
    case LoadDb(db) => if v.db.None? then v.(db := Some(db)) else v
    case Lock => Forgotten(v)
    case ClearAccount =>
      Forgotten(v).(identityCache := [], db := None, userId := None, syncFailed := false, lastSyncError := None,
                    session := SessionLoggedOut)
    case RequestUnlock => v.(unlockNotified := true)
    case List => if v.keys.None? then v.(unlockNotified := true) else v
    case SetPending(id) => v.(pendingEntryId := Some(id))
    case Join(conn) => if HasConn(v, conn) then v else Joined(v, conn)
    case Leave(conn) => v.(streams := Dropped(v.streams, conn))
    case SetTpm(configured) => v.(tpmConfigured := configured)
  }

  /** What the segment broadcasts. */
  function EventOf(v: Snapshot, op: Op): Option<Event> {
    match op
    case Unlock(_, _, _) => Some(UnlockedEvent)
    case Login(_, _, _, _) => Some(UnlockedEvent)
    case Sync(_, _) => Some(VaultChanged)
    case Notify => Some(VaultChanged)
    case Lock => Some(LockedEvent)
    case ClearAccount => Some(LockedEvent)
    case RequestUnlock => if v.unlockNotified then None else Some(UnlockEvent(v))
    case List => if v.keys.None? && !v.unlockNotified then Some(UnlockEvent(v)) else None
    case SetPending(id) => Some(OpenEntry(id))
    case _ => None
  }

  function Step(env: Env, v: Snapshot, op: Op): Snapshot {
    var e := EventOf(v, op);
    if e.Some? then Broadcasted(Changed(env, v, op), e.value) else Changed(env, v, op)
  }

  /** The steps are the operations of the class `State`. */
  lemma LocksAreOperations(env: Env, v: Snapshot)
    ensures Step(env, v, Lock) == WhenLocked(v) && Step(env, v, ClearAccount) == Cleared(v)
  {
    hide Deliver;
  }

  lemma RequestsAreOperations(env: Env, v: Snapshot)
    ensures Step(env, v, RequestUnlock) == Requested(v)
    ensures Step(env, v, List) == if v.keys.None? then Requested(v) else v
  {
    hide Deliver;
    assert v.unlockNotified ==> v.(unlockNotified := true) == v;
  }

  lemma SubscriptionsAreOperations(env: Env, v: Snapshot, conn: nat, id: string)
    ensures Step(env, v, SetPending(id)) == PendingSet(v, id)
    ensures !HasConn(v, conn) ==> Step(env, v, Join(conn)) == Joined(v, conn)
  {
    hide Deliver;
  }

  function Exec(env: Env, v: Snapshot, run: seq<Op>): Snapshot
    decreases |run|
  {
    if run == [] then v else Exec(env, Step(env, v, run[0]), run[1..])
  }

  function Broadcasts(env: Env, v: Snapshot, run: seq<Op>): seq<Event>
    decreases |run|
  {
    if run == [] then [] else
      var e := EventOf(v, run[0]);
      (if e.Some? then [e.value] else []) + Broadcasts(env, Step(env, v, run[0]), run[1..])
  }

  // ----- The session -----------------------------------------------------------------------

  ghost predicate DistinctConns(streams: seq<Stream>) {
    forall i, j :: 0 <= i < j < |streams| ==> streams[i].conn != streams[j].conn
  }

  /** The session value sign-waiters look at always tells whether keys are present, and a
      logged-out agent lists no identity. */
  ghost predicate SessionInv(v: Snapshot) {
    && (v.session == SessionUnlocked <==> v.keys.Some?)
    && (v.session == SessionLoggedOut ==> v.identityCache == [])
    && (v.orgKeys.Some? <==> v.keys.Some?)
    && (v.keys.Some? ==> v.db.Some?)
    && (v.keys.None? ==> v.sidebarCache == [])
    && DistinctConns(v.streams)
  }

  lemma {:induction false} DeliverConns(streams: seq<Stream>, event: Event)
    ensures forall s :: s in Deliver(streams, event) ==> exists t :: t in streams && t.conn == s.conn
    ensures DistinctConns(streams) ==> DistinctConns(Deliver(streams, event))
  {
    if streams != [] {
      var n := |streams| - 1;
      DeliverConns(streams[..n], event);
      var front := Deliver(streams[..n], event);
      forall i | 0 <= i < |front| && DistinctConns(streams) ensures front[i].conn != streams[n].conn {
        var t :| t in streams[..n] && t.conn == front[i].conn;
      }
    }
  }

  lemma StepSession(env: Env, v: Snapshot, op: Op)
    requires SessionInv(v)
    ensures SessionInv(Step(env, v, op))
  {
    hide Rows, Identities, Deliver;
    var w := Changed(env, v, op);
    assert SessionInv(w);
    var e := EventOf(v, op);
    if e.Some? {
      DeliverConns(w.streams, e.value);
    }
  }

  lemma {:induction false} SessionHolds(env: Env, v: Snapshot, run: seq<Op>)
    requires SessionInv(v)
    ensures SessionInv(Exec(env, v, run))
    decreases |run|
  {
    hide Step;
    if run != [] {
      StepSession(env, v, run[0]);
      SessionHolds(env, Step(env, v, run[0]), run[1..]);
    }
  }

  // ----- The caches ------------------------------------------------------------------------

  /** While unlocked, both caches are what a rebuild from the database would give. */
  ghost predicate CachesAgree(env: Env, v: Snapshot) {
    v.keys.Some? && v.db.Some? ==>
      && v.sidebarCache == Rows(env.decrypt, v.db.value.entries, v.keys.value, OrgKeysOf(v))
      && v.identityCache == Identities(env.parse, v.sidebarCache)
  }

  /** After these operations the caches agree, whatever they were before: they rebuild them, or
      take the keys away. */
  predicate Repairs(op: Op) {
    op.Unlock? || op.Login? || op.Sync? || op.Edit? || op.Lock? || op.ClearAccount?
  }

  lemma RepairsCaches(env: Env, v: Snapshot, op: Op)
    requires SessionInv(v) && Repairs(op)
    ensures CachesAgree(env, Step(env, v, op))
  {
    hide Rows, Identities, Deliver;
  }

  /** No operation but these and an aborted sync makes or mends a disagreement. */
  lemma OthersLeaveCaches(env: Env, v: Snapshot, op: Op)
    requires SessionInv(v) && !Repairs(op) && !op.SyncAborted?
    ensures CachesAgree(env, Step(env, v, op)) <==> CachesAgree(env, v)
  {
    hide Rows, Identities, Deliver;
  }

  predicate AbortedBy(before: bool, op: Op) {
    op.SyncAborted? || (before && !Repairs(op))
  }

  /** An aborted sync has not been followed by a repair yet; `before` is the answer for what
      came before the run. */
  predicate Aborted(before: bool, run: seq<Op>)
    decreases |run|
  {
    if run == [] then before else Aborted(AbortedBy(before, run[0]), run[1..])
  }

  lemma {:induction false} CachesStayFresh(env: Env, v: Snapshot, before: bool, run: seq<Op>)
    requires SessionInv(v) && (before || CachesAgree(env, v)) && !Aborted(before, run)
    ensures CachesAgree(env, Exec(env, v, run))
    decreases |run|
  {
    hide Step, CachesAgree;
    if run != [] {
      StepSession(env, v, run[0]);
      if Repairs(run[0]) {
        RepairsCaches(env, v, run[0]);
      } else if !run[0].SyncAborted? {
        OthersLeaveCaches(env, v, run[0]);
      }
      CachesStayFresh(env, Step(env, v, run[0]), AbortedBy(before, run[0]), run[1..]);
    }
  }

  /** Over every run, the caches of the unlocked agent agree with a full decryption of the
      database, unless a sync was aborted since the last unlock, login, sync, edit, lock or
      logout. */
  lemma CachesAgreeUnlessAborted(env: Env, run: seq<Op>)
    requires !Aborted(false, run)
    ensures CachesAgree(env, Exec(env, FRESH, run))
  {
    CachesStayFresh(env, FRESH, false, run);
  }

  const BLANK := Entry("", None, "", false, SecureNote, [], None, None)

  /** The condition is needed: in every unlocked state some aborted sync leaves the caches stale,
      and they stay stale until one of those operations. */
  lemma AbortedSyncIsStale(env: Env, v: Snapshot, userId: string, after: seq<Op>) returns (entries: seq<Entry>)
    requires SessionInv(v) && v.keys.Some?
    requires forall op :: op in after ==> !Repairs(op) && !op.SyncAborted?
    ensures !CachesAgree(env, Exec(env, Step(env, v, SyncAborted(entries, userId)), after))
  {
    entries := seq(|v.sidebarCache| + 1, _ => BLANK);
    var w := Step(env, v, SyncAborted(entries, userId));
    assert !CachesAgree(env, w) by {
      assert |Rows(env.decrypt, entries, v.keys.value, OrgKeysOf(w))| == |v.sidebarCache| + 1;
    }
    StepSession(env, v, SyncAborted(entries, userId));
    StalenessStays(env, w, after);
  }

  lemma {:induction false} StalenessStays(env: Env, v: Snapshot, run: seq<Op>)
    requires SessionInv(v) && !CachesAgree(env, v)
    requires forall op :: op in run ==> !Repairs(op) && !op.SyncAborted?
    ensures !CachesAgree(env, Exec(env, v, run))
    decreases |run|
  {
    hide Step, CachesAgree;
    if run != [] {
      assert run[0] in run;
      StepSession(env, v, run[0]);
      OthersLeaveCaches(env, v, run[0]);
      StalenessStays(env, Step(env, v, run[0]), run[1..]);
    }
  }

  // ----- Listing and signing ---------------------------------------------------------------

  /** A key for which the search finds an entry is in the identities of the rows. */
  lemma SignableIsListed(env: Env, entries: seq<Entry>, keys: Keys, orgKeys: map<string, Keys>, pubkey: KeyData, i: nat)
    requires i < |entries| && SigningKey(env.decrypt, env.parse, entries[i], keys, orgKeys, pubkey).Some?
    ensures CacheHasPubkey(Identities(env.parse, Rows(env.decrypt, entries, keys, orgKeys)), pubkey)
  {
    hide Decrypted;
    var rows := Rows(env.decrypt, entries, keys, orgKeys);
    IdentitiesAreExact(env.parse, rows);
    var row := RowOf(env.decrypt, entries[i], keys, orgKeys);
    assert rows[i] == row && IdentityOf(env.parse, row) == Some(Identity(pubkey, row.entry.name));
    assert Identity(pubkey, row.entry.name) in Identities(env.parse, rows);
  }

  /** A key is listed exactly when some SSH key entry decrypts to it; whether it can sign
      depends on the private key in addition. */
  lemma ListedExactly(env: Env, entries: seq<Entry>, keys: Keys, orgKeys: map<string, Keys>, pubkey: KeyData)
    ensures CacheHasPubkey(Identities(env.parse, Rows(env.decrypt, entries, keys, orgKeys)), pubkey) <==>
              exists i :: 0 <= i < |entries| && PublicKeyOf(env, entries[i], keys, orgKeys) == Some(pubkey)
  {
    hide Decrypted;
    var rows := Rows(env.decrypt, entries, keys, orgKeys);
    IdentitiesAreExact(env.parse, rows);
    if CacheHasPubkey(Identities(env.parse, rows), pubkey) {
      var id :| id in Identities(env.parse, rows) && id.pubkey == pubkey;
      var i :| 0 <= i < |rows| && IdentityOf(env.parse, rows[i]) == Some(id);
      assert PublicKeyOf(env, entries[i], keys, orgKeys) == Some(pubkey);
    }
    forall i | 0 <= i < |entries| && PublicKeyOf(env, entries[i], keys, orgKeys) == Some(pubkey)
      ensures CacheHasPubkey(Identities(env.parse, rows), pubkey)
    {
      assert IdentityOf(env.parse, rows[i]) == Some(Identity(pubkey, rows[i].entry.name));
      assert Identity(pubkey, rows[i].entry.name) in Identities(env.parse, rows);
    }
  }

  function PublicKeyOf(env: Env, e: Entry, keys: Keys, orgKeys: map<string, Keys>): Option<KeyData> {
    var data := Decrypted(env.decrypt, e, keys, orgKeys).data;
    if data.SshKey? && data.publicKey.Some? then env.parse(data.publicKey.value) else None
  }

  predicate KeepsIdentities(op: Op) {
    !op.Unlock? && !op.Login? && !op.ClearAccount?
  }

  lemma StepKeepsIdentities(env: Env, v: Snapshot, op: Op)
    requires v.keys.None? && KeepsIdentities(op)
    ensures Step(env, v, op).identityCache == v.identityCache && Step(env, v, op).keys.None?
  {
    hide EventOf, Deliver;
    ChangedKeepsIdentities(env, v, op);
  }

  lemma ChangedKeepsIdentities(env: Env, v: Snapshot, op: Op)
    requires v.keys.None? && KeepsIdentities(op)
    ensures Changed(env, v, op).identityCache == v.identityCache && Changed(env, v, op).keys.None?
  {
    hide Rows, Identities;
  }

  lemma {:induction false} LockedKeepsIdentities(env: Env, v: Snapshot, run: seq<Op>)
    requires v.keys.None? && forall op :: op in run ==> KeepsIdentities(op)
    ensures Exec(env, v, run).identityCache == v.identityCache && Exec(env, v, run).keys.None?
    decreases |run|
  {
    hide Step;
    if run != [] {
      StepKeepsIdentities(env, v, run[0]);
      LockedKeepsIdentities(env, Step(env, v, run[0]), run[1..]);
    }
  }

  /** After any run without a sync left aborted, a key that can sign is still accepted by the
      locked-state check after a lock, whatever happens next short of an unlock, a login or a
      logout. */
  lemma SignableSurvivesLock(env: Env, run: seq<Op>, v: Snapshot, after: seq<Op>, pubkey: KeyData, i: nat)
    requires v == Exec(env, FRESH, run) && !Aborted(false, run)
    requires v.keys.Some? && v.db.Some? && i < |v.db.value.entries|
    requires SigningKey(env.decrypt, env.parse, v.db.value.entries[i], v.keys.value, OrgKeysOf(v), pubkey).Some?
    requires forall op :: op in after ==> KeepsIdentities(op)
    ensures CacheHasPubkey(Exec(env, Step(env, v, Lock), after).identityCache, pubkey)
  {
    CachesAgreeUnlessAborted(env, run);
    SignableIsListed(env, v.db.value.entries, v.keys.value, OrgKeysOf(v), pubkey, i);
    LockedKeepsIdentities(env, Step(env, v, Lock), after);
  }

  /** After an aborted sync a key of a new entry can sign, but once the vault is locked it is
      accepted exactly when it was listed before that sync. */
  lemma AbortedSyncCanHideKey(env: Env, v: Snapshot, e: Entry, userId: string, pubkey: KeyData)
    requires SessionInv(v) && v.keys.Some?
    requires SigningKey(env.decrypt, env.parse, e, v.keys.value, OrgKeysOf(v), pubkey).Some?
    ensures var w := Step(env, v, SyncAborted([e], userId));
            && w.keys == v.keys && OrgKeysOf(w) == OrgKeysOf(v) && w.db.Some? && w.db.value.entries == [e]
            && (CacheHasPubkey(Step(env, w, Lock).identityCache, pubkey) <==> CacheHasPubkey(v.identityCache, pubkey))
  {
    hide Rows, Identities, Deliver, Decrypted;
  }

  /** So a key that can sign is refused after unlocking an empty vault, a sync that is aborted,
      and a lock. */
  lemma SignableKeyIsRefused(env: Env, keys: Keys, orgKeys: map<string, Keys>, e: Entry, pubkey: KeyData)
    requires SigningKey(env.decrypt, env.parse, e, keys, orgKeys, pubkey).Some?
    ensures var v := Exec(env, FRESH, [Unlock(keys, orgKeys, Db([], None, None)), SyncAborted([e], "")]);
            && v.keys == Some(keys) && OrgKeysOf(v) == orgKeys && v.db.Some? && v.db.value.entries == [e]
            && !CacheHasPubkey(Step(env, v, Lock).identityCache, pubkey)
  {
    var unlock, abort := Unlock(keys, orgKeys, Db([], None, None)), SyncAborted([e], "");
    var v := Step(env, FRESH, unlock);
    assert v.identityCache == [];
    assert [unlock, abort][1..] == [abort] && [abort][1..] == [];
    assert Exec(env, v, [abort]) == Exec(env, Step(env, v, abort), []);
    StepSession(env, FRESH, unlock);
    hide SigningKey, Step;
    AbortedSyncCanHideKey(env, v, e, "", pubkey);
  }

  // ----- The event streams -----------------------------------------------------------------

  /** A broadcast reaches exactly the subscribers whose receiver still exists, and keeps only
      those. */
  lemma {:induction false} DeliverIsExact(streams: seq<Stream>, event: Event, s: Stream)
    ensures s in Deliver(streams, event) <==>
              exists t :: t in streams && t.connected && s == t.(received := t.received + [event])
  {
    if streams != [] {
      var n := |streams| - 1;
      DeliverIsExact(streams[..n], event, s);
      assert streams == streams[..n] + [streams[n]];
    }
  }

  lemma ChangedKeepsStream(env: Env, v: Snapshot, op: Op, s: Stream)
    requires s in v.streams && op != Leave(s.conn)
    ensures s in Changed(env, v, op).streams
  {
    hide Rows, Identities;
    if op.Leave? {
      var i :| 0 <= i < |v.streams| && v.streams[i] == s;
      assert Changed(env, v, op).streams[i] == s;
    }
  }

  lemma StepDelivers(env: Env, v: Snapshot, op: Op, conn: nat, got: seq<Event>)
    requires Stream(conn, got, true) in v.streams && op != Leave(conn)
    ensures var e := EventOf(v, op);
            Stream(conn, got + (if e.Some? then [e.value] else []), true) in Step(env, v, op).streams
  {
    hide Changed, EventOf, Deliver;
    ChangedKeepsStream(env, v, op, Stream(conn, got, true));
    var e := EventOf(v, op);
    if e.Some? {
      DeliverIsExact(Changed(env, v, op).streams, e.value, Stream(conn, got + [e.value], true));
    } else {
      assert got + [] == got;
    }
  }

  lemma {:induction false} StreamGrows(env: Env, v: Snapshot, run: seq<Op>, conn: nat, got: seq<Event>)
    requires Stream(conn, got, true) in v.streams && Leave(conn) !in run
    ensures Stream(conn, got + Broadcasts(env, v, run), true) in Exec(env, v, run).streams
    decreases |run|
  {
    hide Step, EventOf;
    if run == [] {
      assert got + [] == got;
    } else {
      var e := EventOf(v, run[0]);
      var more := if e.Some? then [e.value] else [];
      var rest := Broadcasts(env, Step(env, v, run[0]), run[1..]);
      StepDelivers(env, v, run[0], conn, got);
      StreamGrows(env, Step(env, v, run[0]), run[1..], conn, got + more);
      assert got + more + rest == got + (more + rest);
    }
  }

  predicate IsRequest(e: Event) {
    e == UnlockRequested || e == PinRequested
  }

  /** Between any two unlock or PIN requests the vault was locked. */
  ghost predicate Debounced(h: seq<Event>) {
    forall i, j :: 0 <= i < j < |h| && IsRequest(h[i]) && IsRequest(h[j]) ==> LockedEvent in h[i..j]
  }

  /** No request while `notified`, and one at most until the next lock. */
  predicate Quiet(notified: bool, h: seq<Event>)
    decreases |h|
  {
    if h == [] then true
    else if h[0] == LockedEvent then Quiet(false, h[1..])
    else if IsRequest(h[0]) then !notified && Quiet(true, h[1..])
    else Quiet(notified, h[1..])
  }

  lemma {:induction false} QuietIsDebounced(notified: bool, h: seq<Event>)
    requires Quiet(notified, h)
    ensures Debounced(h)
    ensures notified ==> forall j :: 0 <= j < |h| && IsRequest(h[j]) ==> LockedEvent in h[..j]
    decreases |h|
  {
    if h != [] {
      var next := if h[0] == LockedEvent then false else if IsRequest(h[0]) then true else notified;
      QuietIsDebounced(next, h[1..]);
      forall j | 1 <= j < |h| && IsRequest(h[j]) && (IsRequest(h[0]) || notified) ensures LockedEvent in h[..j] {
        assert h[1..][j - 1] == h[j];
        if h[0] != LockedEvent {
          assert LockedEvent in h[1..][..j - 1];
          assert h[..j] == [h[0]] + h[1..][..j - 1];
        } else {
          assert h[..j][0] == LockedEvent;
        }
      }
      forall i, j | 0 <= i < j < |h| && IsRequest(h[i]) && IsRequest(h[j]) ensures LockedEvent in h[i..j] {
        if i == 0 {
          assert h[0..j] == h[..j];
        } else {
          assert h[1..][i - 1] == h[i] && h[1..][j - 1] == h[j];
          assert h[1..][i - 1..j - 1] == h[i..j];
        }
      }
    }
  }

  /** One segment broadcasts a request only when none is outstanding, and remembers it. */
  lemma StepIsQuiet(env: Env, v: Snapshot, op: Op)
    ensures match EventOf(v, op)
            case None => v.unlockNotified ==> Step(env, v, op).unlockNotified
            case Some(e) =>
              if e == LockedEvent then true
              else if IsRequest(e) then !v.unlockNotified && Step(env, v, op).unlockNotified
              else v.unlockNotified ==> Step(env, v, op).unlockNotified
  {
    hide Rows, Identities, Deliver;
  }

  lemma {:induction false} QuietWhenNotified(h: seq<Event>)
    requires Quiet(true, h)
    ensures Quiet(false, h)
    decreases |h|
  {
    if h != [] && h[0] != LockedEvent {
      QuietWhenNotified(h[1..]);
    }
  }

  lemma {:induction false} BroadcastsAreQuiet(env: Env, v: Snapshot, run: seq<Op>)
    ensures Quiet(v.unlockNotified, Broadcasts(env, v, run))
    decreases |run|
  {
    hide Step, EventOf;
    if run != [] {
      var w := Step(env, v, run[0]);
      var rest := Broadcasts(env, w, run[1..]);
      BroadcastsAreQuiet(env, w, run[1..]);
      if w.unlockNotified {
        QuietWhenNotified(rest);
      }
      StepIsQuiet(env, v, run[0]);
      var e := EventOf(v, run[0]);
      if e.Some? {
        assert ([e.value] + rest)[1..] == rest;
      } else {
        assert [] + rest == rest;
      }
    }
  }

  /** For every subscriber of every run: its channel holds the deep link that was pending when it
      joined, if any, followed by exactly the events broadcast since, in order; it is the only
      channel of its connection; and two unlock requests in it always have a lock in between. */
  lemma StreamIsConserved(env: Env, before: seq<Op>, v: Snapshot, conn: nat, after: seq<Op>)
    requires v == Exec(env, FRESH, before) && !HasConn(v, conn) && Leave(conn) !in after
    ensures var joined := Step(env, v, Join(conn));
            var link := match v.pendingEntryId case Some(id) => [OpenEntry(id)] case None => [];
            var got := link + Broadcasts(env, joined, after);
            var w := Exec(env, joined, after);
            && Stream(conn, got, true) in w.streams && DistinctConns(w.streams)
            && joined.pendingEntryId.None? && Debounced(got)
  {
    var joined := Step(env, v, Join(conn));
    var h := Broadcasts(env, joined, after);
    SessionHolds(env, FRESH, before);
    StepSession(env, v, Join(conn));
    SessionHolds(env, joined, after);
    assert joined.streams[|v.streams|] == Stream(conn, PendingEvents(v), true);
    StreamGrows(env, joined, after, conn, PendingEvents(v));
    BroadcastsAreQuiet(env, joined, after);
    if PendingEvents(v) != [] {
      assert (PendingEvents(v) + h)[1..] == h;
    } else {
      assert PendingEvents(v) + h == h;
    }
    QuietIsDebounced(joined.unlockNotified, PendingEvents(v) + h);
  }

  /** What each operation tells the subscribers. */
  predicate Tells(v: Snapshot, op: Op, told: seq<Event>) {
    match op
    case Unlock(_, _, _) => told == [UnlockedEvent]
    case Login(_, _, _, _) => told == [UnlockedEvent]
    case Lock => told == [LockedEvent]
    case ClearAccount => told == [LockedEvent]
    case Sync(_, _) => told == [VaultChanged]
    case Notify => told == [VaultChanged]
    case SetPending(id) => told == [OpenEntry(id)]
    case RequestUnlock => told == Asks(v)
    case List => told == if v.keys.Some? then [] else Asks(v)
    case _ => told == []
  }

  /** One request for each lock period, for a PIN when a TPM is set up. */
  function Asks(v: Snapshot): seq<Event> {
    if v.unlockNotified then [] else if v.tpmConfigured then [PinRequested] else [UnlockRequested]
  }

  /** Whatever a step does, a subscriber that stays gets exactly the event it should. */
  lemma SubscribersAreTold(env: Env, v: Snapshot, op: Op, conn: nat, got: seq<Event>, told: seq<Event>)
    requires Stream(conn, got, true) in v.streams && op != Leave(conn) && Tells(v, op, told)
    ensures Stream(conn, got + told, true) in Step(env, v, op).streams
  {
    StepDelivers(env, v, op, conn, got);
    hide Step, Changed;
  }

  /** A subscriber that left gets nothing any more, and is forgotten with the next broadcast. */
  lemma LeaversAreForgotten(env: Env, v: Snapshot, conn: nat, op: Op)
    requires op != Join(conn)
    ensures var left := Step(env, v, Leave(conn));
            && (forall s :: s in left.streams && s.conn == conn ==> !s.connected)
            && (EventOf(left, op).Some? ==> !HasConn(Step(env, left, op), conn))
  {
    var left := Step(env, v, Leave(conn));
    if EventOf(left, op).Some? {
      LeftStays(env, left, conn, op);
      hide Step, Changed, EventOf, Deliver;
      forall s | s in Step(env, left, op).streams ensures s.conn != conn {
        BroadcastReaches(env, left, op, s);
      }
    }
  }

  lemma LeftStays(env: Env, v: Snapshot, conn: nat, op: Op)
    requires op != Join(conn) && forall s :: s in v.streams && s.conn == conn ==> !s.connected
    ensures forall s :: s in Changed(env, v, op).streams && s.conn == conn ==> !s.connected
  {
    hide Rows, Identities;
  }

  lemma BroadcastReaches(env: Env, v: Snapshot, op: Op, s: Stream)
    requires EventOf(v, op).Some? && s in Step(env, v, op).streams
    ensures exists t :: t in Changed(env, v, op).streams && t.connected && t.conn == s.conn
  {
    hide Changed, EventOf, Deliver;
    DeliverIsExact(Changed(env, v, op).streams, EventOf(v, op).value, s);
  }

  /** The lock state that a subscriber makes out of the events it gets. */
  function Heard(unlocked: bool, h: seq<Event>): bool
    decreases |h|
  {
    if h == [] then unlocked
    else Heard(if h[0] == UnlockedEvent then true else if h[0] == LockedEvent then false else unlocked, h[1..])
  }

  lemma StepIsHeard(env: Env, v: Snapshot, op: Op)
    ensures var e := EventOf(v, op);
            Step(env, v, op).keys.Some? ==
              (if e == Some(UnlockedEvent) then true else if e == Some(LockedEvent) then false else v.keys.Some?)
  {
    hide Rows, Identities, Deliver;
  }

  /** A subscriber that knew the lock state when it joined can tell it from its events at any time. */
  lemma {:induction false} EventsTellTheLock(env: Env, v: Snapshot, run: seq<Op>)
    ensures Exec(env, v, run).keys.Some? == Heard(v.keys.Some?, Broadcasts(env, v, run))
    decreases |run|
  {
    hide Step, EventOf;
    if run != [] {
      var w := Step(env, v, run[0]);
      var rest := Broadcasts(env, w, run[1..]);
      StepIsHeard(env, v, run[0]);
      EventsTellTheLock(env, w, run[1..]);
      var e := EventOf(v, run[0]);
      if e.Some? {
        assert ([e.value] + rest)[1..] == rest;
      } else {
        assert [] + rest == rest;
      }
    }
  }

  // ----- What a lock leaves ----------------------------------------------------------------

  /** The two states differ at most in what a lock must not leave behind: keys, tokens, pins, rows,
      the pending link, the debounce flag and the session. */
  predicate SameButSecrets(v: Snapshot, w: Snapshot) {
    && v.identityCache == w.identityCache && v.userId == w.userId && v.streams == w.streams
    && v.syncFailed == w.syncFailed && v.lastSyncError == w.lastSyncError && v.lockEpoch == w.lockEpoch
    && v.tpmConfigured == w.tpmConfigured
    && v.db.Some? == w.db.Some? && (v.db.Some? ==> v.db.value.entries == w.db.value.entries)
  }

  /** Whatever the keys and tokens were, nothing of them can be told from the state after a lock, and
      nothing of the account from the state after a logout; the rest is kept. */
  lemma LockHidesSecrets(env: Env, v: Snapshot, w: Snapshot)
    ensures SameButSecrets(v, w) ==> Step(env, v, Lock) == Step(env, w, Lock)
    ensures v.streams == w.streams && v.lockEpoch == w.lockEpoch && v.tpmConfigured == w.tpmConfigured ==>
              Step(env, v, ClearAccount) == Step(env, w, ClearAccount)
    ensures var t := Step(env, v, Lock);
            && t.identityCache == v.identityCache && t.userId == v.userId && t.tpmConfigured == v.tpmConfigured
            && t.syncFailed == v.syncFailed && t.lastSyncError == v.lastSyncError && !t.unlockNotified
            && (v.db.Some? ==> t.db == Some(Db(v.db.value.entries, None, None))) && (v.db.None? ==> t.db.None?)
            && t.pinnedIds == {} && t.pendingEntryId.None? && t.keys.None? && t.sidebarCache == []
  {
    hide Deliver;
  }

  // ----- What the agent knows of its account -----------------------------------------------

  /** The error of the last sync, as the operations report it; a login and a logout start afresh. */
  function LastSync(before: Option<string>, run: seq<Op>): Option<string>
    decreases |run|
  {
    if run == [] then before
    else
      LastSync(match run[0]
               case SyncFailed(message) => Some(message)
               case Sync(_, _) => None
               case Login(_, _, _, _) => None
               case ClearAccount => None
               case _ => before,
               run[1..])
  }

  /** The account of the last login or sync that is still there. */
  function LastUser(before: Option<string>, run: seq<Op>): Option<string>
    decreases |run|
  {
    if run == [] then before
    else
      LastUser(match run[0]
               case Login(_, _, _, user) => Some(user)
               case Sync(_, user) => Some(user)
               case SyncAborted(_, user) => Some(user)
               case ClearAccount => None
               case _ => before,
               run[1..])
  }

  lemma StepAccount(env: Env, v: Snapshot, op: Op)
    ensures Step(env, v, op).lastSyncError == LastSync(v.lastSyncError, [op])
    ensures Step(env, v, op).userId == LastUser(v.userId, [op])
    ensures (v.syncFailed <==> v.lastSyncError.Some?) ==>
              (Step(env, v, op).syncFailed <==> Step(env, v, op).lastSyncError.Some?)
  {
    hide Rows, Identities, Deliver;
    assert [op][1..] == [];
  }

  /** After every run the sync status is that of the last sync, and the user is the one of the last
      login or sync, up to the last logout. */
  lemma {:induction false} AccountIsTracked(env: Env, v: Snapshot, run: seq<Op>)
    requires v.syncFailed <==> v.lastSyncError.Some?
    ensures var w := Exec(env, v, run);
            && w.lastSyncError == LastSync(v.lastSyncError, run) && (w.syncFailed <==> w.lastSyncError.Some?)
            && w.userId == LastUser(v.userId, run)
    decreases |run|
  {
    hide Step;
    if run != [] {
      assert [run[0]][1..] == [];
      StepAccount(env, v, run[0]);
      AccountIsTracked(env, Step(env, v, run[0]), run[1..]);
    }
  }

  /** The identifiers of the favorites among the entries. */
  ghost predicate ArePins(ids: set<string>, entries: seq<Entry>) {
    forall id :: id in ids <==> exists i :: 0 <= i < |entries| && entries[i].id == id && entries[i].favorite
  }

  /** What an unlock and a login put into the state. */
  lemma UnlocksAreStored(env: Env, v: Snapshot, keys: Keys, orgKeys: map<string, Keys>, db: Db, userId: string, op: Op)
    requires op == Unlock(keys, orgKeys, db) || op == Op.Login(keys, orgKeys, db, userId)
    ensures var t := Step(env, v, op);
            t.keys == Some(keys) && t.orgKeys == Some(orgKeys) && t.db == Some(db) && ArePins(t.pinnedIds, db.entries)
  {
    hide Rows, Identities, Deliver;
    assert ArePins(Favorites(db.entries), db.entries);
  }

  /** What a sync puts into the state; while locked it rebuilds nothing. */
  lemma SyncsAreStored(env: Env, v: Snapshot, entries: seq<Entry>, userId: string)
    ensures var t := Step(env, v, Sync(entries, userId));
            && t.keys == v.keys && t.orgKeys == v.orgKeys && ArePins(t.pinnedIds, entries)
            && (v.db.Some? ==> t.db == Some(v.db.value.(entries := entries))) && (v.db.None? ==> t.db.None?)
            && (v.keys.None? ==> t.sidebarCache == [] && t.identityCache == v.identityCache)
  {
    hide Rows, Identities, Deliver;
    assert ArePins(Favorites(entries), entries);
  }

  /** An edit replaces entries and pins, and does nothing while locked; loading the database keeps one
      that is there. */
  lemma EditsAreStored(env: Env, v: Snapshot, db: Db, entries: seq<Entry>, pinnedIds: set<string>, tpm: bool)
    ensures var t := Step(env, v, Edit(entries, pinnedIds));
            && (v.keys.None? ==> t == v) && t.keys == v.keys
            && (v.keys.Some? && v.db.Some? ==>
                  t.db == Some(v.db.value.(entries := entries)) && t.pinnedIds == pinnedIds)
    ensures Step(env, v, LoadDb(db)) == v.(db := Some(if v.db.Some? then v.db.value else db))
    ensures Step(env, v, SetTpm(tpm)) == v.(tpmConfigured := tpm)
  {
    hide Rows, Identities, Deliver;
  }

  // ----- The epoch -------------------------------------------------------------------------

  predicate IsTransition(op: Op) {
    op.Unlock? || op.Login? || op.Lock? || op.ClearAccount?
  }

  function Transitions(run: seq<Op>): nat {
    if run == [] then 0 else (if IsTransition(run[0]) then 1 else 0) + Transitions(run[1..])
  }

  lemma StepEpoch(env: Env, v: Snapshot, op: Op)
    ensures Step(env, v, op).lockEpoch == if IsTransition(op) then NextEpoch(v.lockEpoch) else v.lockEpoch
  {
    hide Rows, Identities, Deliver;
  }

  /** The epoch counts the lock-state transitions of the session, modulo the width of its type:
      a client that compares epochs sees a snapshot as newer exactly when a transition lies
      between, for fewer than 2^64 of them. */
  lemma {:induction false} EpochCounts(env: Env, v: Snapshot, run: seq<Op>)
    requires v.lockEpoch < U64
    ensures Exec(env, v, run).lockEpoch == (v.lockEpoch + Transitions(run)) % U64
    decreases |run|
  {
    hide Step;
    if run != [] {
      StepEpoch(env, v, run[0]);
      EpochCounts(env, Step(env, v, run[0]), run[1..]);
    }
  }
}
