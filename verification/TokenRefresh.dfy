/** The session-token protocol of the agent (`server/auth.rs`, `handler/auth/reauth.rs`,
    `handler/auth/unlock.rs`, `handler/auth/login.rs`, `session_store.rs`).

    Any number of tasks share the token pair kept in the vault database, the envelope file
    that holds one refresh token across restarts, and `refresh_lock`. The agent runs on a
    current-thread runtime, so whatever a task does between two awaits is one atomic step.
    A task is described by the await it is suspended at (`Pc`); everything the scheduler,
    the user, the disk and the server decide is an `Event`. The keyring is off. */
module TokenRefresh {
  import opened Prelude

  /** Tokens are opaque; the server never issues the same one twice. */
  type Token = nat
  type TaskId = nat

  datatype Tokens = Tokens(access: Option<Token>, refresh: Option<Token>)

  /** What the token endpoint answers: an access token and, when it rotates, a refresh token. */
  datatype Grant = Grant(access: Token, refresh: Option<Token>)

  /** The await a task is suspended at. `guarded` tells the restore that `with_refresh` runs
      under `refresh_lock` from the one the unlock handlers run without it. `pinned` records
      whether the access token in memory was still the rejected one when the refresh token
      was read. */
  datatype Pc =
    | Start
    | RestoreWait
    | RestoreCheck
    | RestoreInFlight(guarded: bool, sent: Token)
    | RestoreReply(guarded: bool, got: Grant)
    | RestorePersist(guarded: bool)
    | RestoreReread
    | Request(used: Token)
    | RefreshWait(used: Token)
    | RefreshCheck(used: Token)
    | RefreshRead(used: Token)
    | RefreshInFlight(used: Token, sent: Token, pinned: bool)
    | RefreshReply(used: Token, got: Grant)
    | RefreshPersist(used: Token, retry: Token)
    | RefreshRetry(used: Token, retry: Token)
    | LoginStart
    | LoginMinted(got: Grant)
    | LoginSaved(got: Grant)
    | UnlockStart
    | PasswordGrant
    | Done

  datatype State = State(
    db: Option<Tokens>,          // the token fields of `State::db`
    unlocked: bool,              // `State::keys` is present
    holder: Option<TaskId>,      // who holds `refresh_lock`
    envelope: Option<Token>,     // the refresh token in the session file
    tasks: map<TaskId, Pc>,
    next: Token,                 // every token below it has been issued
    installed: seq<Token>,       // access tokens ever put into `db`, oldest first
    seen: set<Token>,            // refresh tokens ever put into `db`
    acked: set<Token>,           // rotated away by a 401-arm exchange that got its answer
    restored: set<Token>,        // rotated away by a restore exchange that got its answer
    lost: set<Token>,            // rotated away by an exchange whose answer never arrived
    renewals: seq<Token>         // the access token behind each answered 401-arm exchange
  )

  const INIT := State(None, false, None, None, map[], 0, [], {}, {}, {}, {}, [])

  datatype Outcome =
    | Go            // the segment runs to its next await
    | Fail          // an error is returned: I/O, configuration, a rejected request
    | Unauthorized  // the request itself was answered with 401
    | NoWrite       // as Go, but writing the envelope failed
    | Rotated       // the token endpoint accepted and issued a new refresh token
    | Kept          // the token endpoint accepted and kept the refresh token valid
    | Dropped       // the token endpoint accepted and rotated, but the answer was lost

  datatype Event =
    | Spawn(i: TaskId, pc: Pc)
    | Run(i: TaskId, outcome: Outcome)
    | Lock
    | ClearAccount
    | ForgetEnvelope
    | LoadDb

  function Access(s: State): Option<Token> {
    if s.db.Some? then s.db.value.access else None
  }

  function Refresh(s: State): Option<Token> {
    if s.db.Some? then s.db.value.refresh else None
  }

  function Put(s: State, i: TaskId, pc: Pc): State {
    s.(tasks := s.tasks[i := pc])
  }

  function Release(s: State): State {
    s.(holder := None)
  }

  /** Store an answer of the token endpoint in `db`; without a database it is dropped. A
      missing refresh token leaves the old one in place. */
  function Store(s: State, got: Grant): State {
    if s.db.None? then s else
      s.(db := Some(Tokens(Some(got.access), if got.refresh.Some? then got.refresh else s.db.value.refresh)),
         installed := s.installed + [got.access],
         seen := if got.refresh.Some? then s.seen + {got.refresh.value} else s.seen)
  }

  /** `session_store::persist_current`: write the refresh token in memory to the envelope. */
  function Persist(s: State, outcome: Outcome): State {
    if outcome == Go && s.unlocked && Refresh(s).Some? then s.(envelope := Refresh(s)) else s
  }

  function Minted(s: State, outcome: Outcome): Grant {
    Grant(s.next, if outcome == Rotated then Some(s.next + 1) else None)
  }

  function Issue(s: State): State {
    s.(next := s.next + 2)
  }

  /** One segment of task `i`, suspended at `pc`: the new shared state and the await it reaches;
      `None` when it cannot be resumed this way. */
  function RunTask(s: State, i: TaskId, pc: Pc, o: Outcome): Option<(State, Pc)> {
    match pc
    case Start =>
      if o == Fail then Some((s, Done))
      else if o != Go then None
      else if s.db.None? then Some((s, Done))
      else if Access(s).Some? then Some((s, Request(Access(s).value)))
      else Some((s, if s.unlocked then RestoreWait else Done))
    case RestoreWait =>
      if o == Go && s.holder.None? then Some((s.(holder := Some(i)), RestoreCheck)) else None
    case RestoreCheck =>
      if o == Fail then Some((Release(s), Done))
      else if o != Go then None
      else if Access(s).Some? then Some((Release(s), Request(Access(s).value)))
      else if s.envelope.None? then Some((Release(s), Done))
      else Some((s, RestoreInFlight(true, s.envelope.value)))
    case RestoreInFlight(guarded, sent) =>
      var failed := if guarded then (Release(s), Done) else (s, PasswordGrant);
      if o == Rotated then Some((Issue(s).(restored := s.restored + {sent}), RestoreReply(guarded, Minted(s, o))))
      else if o == Kept then Some((Issue(s), RestoreReply(guarded, Minted(s, o))))
      else if o == Dropped then Some((failed.0.(lost := s.lost + {sent}), failed.1))
      else if o == Fail then Some(failed)
      else None
    case RestoreReply(guarded, got) =>
      if o == Go then Some((Store(s, got), RestorePersist(guarded))) else None
    case RestorePersist(guarded) =>
      if o == Go || o == NoWrite then Some((Persist(s, o), if guarded then RestoreReread else Done)) else None
    case RestoreReread =>
      if o != Go then None
      else Some((Release(s), if Access(s).Some? then Request(Access(s).value) else Done))
    case Request(used) =>
      if o == Go || o == Fail then Some((s, Done))
      else if o == Unauthorized then Some((s, RefreshWait(used)))
      else None
    case RefreshWait(used) =>
      if o == Go && s.holder.None? then Some((s.(holder := Some(i)), RefreshCheck(used))) else None
    case RefreshCheck(used) =>
      if o != Go then None
      else if Access(s).Some? && Access(s).value != used then Some((s, RefreshRetry(used, Access(s).value)))
      else Some((s, RefreshRead(used)))
    case RefreshRead(used) =>
      if o != Go then None
      else if Refresh(s).None? then Some((Release(s), Done))
      else Some((s, RefreshInFlight(used, Refresh(s).value, Access(s) == Some(used))))
    case RefreshInFlight(used, sent, _) =>
      var renewed := Issue(s).(renewals := s.renewals + [used]);
      if o == Rotated then Some((renewed.(acked := s.acked + {sent}), RefreshReply(used, Minted(s, o))))
      else if o == Kept then Some((renewed, RefreshReply(used, Minted(s, o))))
      else if o == Dropped then Some((Release(s).(lost := s.lost + {sent}), Done))
      else if o == Fail then Some((Release(s), Done))
      else None
    case RefreshReply(used, got) =>
      if o == Go then Some((Store(s, got), RefreshPersist(used, got.access))) else None
    case RefreshPersist(used, retry) =>
      if o == Go || o == NoWrite then Some((Persist(s, o), RefreshRetry(used, retry))) else None
    case RefreshRetry(_, _) =>
      if o == Go || o == Fail then Some((Release(s), Done)) else None
    case LoginStart =>
      if o == Rotated || o == Kept then Some((Issue(s), LoginMinted(Minted(s, o))))
      else if o == Fail then Some((s, Done))
      else None
    case LoginMinted(got) =>
      if o == Go then Some((if got.refresh.Some? then s.(envelope := got.refresh) else s, LoginSaved(got)))
      else if o == NoWrite then Some((s, LoginSaved(got)))
      else if o == Fail then Some((s, Done))
      else None
    case LoginSaved(got) =>
      if o == Go then Some((Store(s.(db := Some(Tokens(None, None)), unlocked := true), got), Done)) else None
    case UnlockStart =>
      if o == Fail then Some((s, Done))
      else if o != Go then None
      else Some((s.(db := Some(Tokens(Access(s), Refresh(s))), unlocked := true),
                 if Access(s).Some? then RestorePersist(false)
                 else if s.envelope.Some? then RestoreInFlight(false, s.envelope.value)
                 else PasswordGrant))
    case PasswordGrant =>
      if o == Rotated || o == Kept then Some((Issue(s), RestoreReply(false, Minted(s, o))))
      else if o == Fail then Some((s, Done))
      else None
    case Done => None
  }

  function Locked(s: State): State {
    s.(unlocked := false, db := if s.db.Some? then Some(Tokens(None, None)) else None)
  }

  function Step(s: State, e: Event): Option<State> {
    match e
    case Spawn(i, pc) =>
      if i !in s.tasks && (pc == Start || pc == LoginStart || pc == UnlockStart) then Some(Put(s, i, pc)) else None
    case Run(i, o) =>
      if i !in s.tasks then None else
        var r := RunTask(s, i, s.tasks[i], o);
        if r.None? then None else Some(Put(r.value.0, i, r.value.1))
    case Lock => Some(Locked(s))
    case ClearAccount => Some(Locked(s).(db := None))
    case ForgetEnvelope => Some(s.(envelope := None))
    case LoadDb => if s.db.None? then Some(s.(db := Some(Tokens(None, None)))) else None
  }

  /** The state a run ends in, when every event of it could happen. */
  function Exec(s: State, run: seq<Event>): Option<State>
    decreases |run|
  {
    if run == [] then Some(s) else
      var t := Step(s, run[0]);
      if t.None? then None else Exec(t.value, run[1..])
  }

  /** The state after a run from the agent's start. */
  ghost predicate Reaches(run: seq<Event>, s: State) {
    Exec(INIT, run) == Some(s)
  }

  lemma {:induction false} ExecSnoc(s: State, run: seq<Event>, e: Event)
    requires Exec(s, run).Some?
    ensures Exec(s, run + [e]) == Step(Exec(s, run).value, e)
    decreases |run|
  {
    if run == [] {
      assert [e][1..] == [] && run + [e] == [e];
      assert Exec(s, [e]) == (if Step(s, e).None? then None else Exec(Step(s, e).value, []));
    } else {
      assert (run + [e])[1..] == run[1..] + [e];
      ExecSnoc(Step(s, run[0]).value, run[1..], e);
    }
  }

  lemma Then(run: seq<Event>, s: State, e: Event) returns (longer: seq<Event>, t: State)
    requires Reaches(run, s) && Step(s, e).Some?
    ensures Reaches(longer, t) && t == Step(s, e).value && longer == run + [e]
  {
    ExecSnoc(INIT, run, e);
    longer, t := run + [e], Step(s, e).value;
  }
}
