/** Runs of the session-token protocol that break single use, and so show that the conditions
    of `TokenSafety` are needed. */
module TokenRuns {
  import opened Prelude
  import opened TokenRefresh
  import opened TokenSafety

  /** A login has been granted access token 0 and refresh token 1 and has saved the envelope. */
  lemma LoginSaves() returns (run: seq<Event>, s: State)
    ensures Reaches(run, s)
    ensures s == INIT.(next := 2, envelope := Some(1), tasks := map[0 := LoginSaved(Grant(0, Some(1)))])
  {
    run, s := Then([], INIT, Spawn(0, LoginStart));
    run, s := Then(run, s, Run(0, Rotated));
    run, s := Then(run, s, Run(0, Go));
  }

  /** It has installed them as well. */
  lemma LoggedIn() returns (run: seq<Event>, s: State)
    ensures Reaches(run, s) && s.tasks == map[0 := Done] && s.holder.None? && s.next == 2 && s.unlocked
    ensures s.db == Some(Tokens(Some(0), Some(1))) && s.envelope == Some(1)
    ensures Spent(s) == {} && s.renewals == []
  {
    run, s := LoginSaves();
    run, s := Then(run, s, Run(0, Go));
  }

  /** A task is started and its request is answered with 401. */
  lemma Rejected(run0: seq<Event>, s0: State, i: TaskId) returns (run: seq<Event>, s: State)
    requires Reaches(run0, s0) && i !in s0.tasks && Access(s0).Some?
    ensures run0 <= run
    ensures Reaches(run, s) && s == s0.(tasks := s0.tasks[i := RefreshWait(Access(s0).value)])
  {
    run, s := Then(run0, s0, Spawn(i, Start));
    run, s := Then(run, s, Run(i, Go));
    run, s := Then(run, s, Run(i, Unauthorized));
  }

  /** A waiting task takes the lock, finds its own access token and submits the refresh token. */
  lemma Submits(run0: seq<Event>, s0: State, i: TaskId) returns (run: seq<Event>, s: State)
    requires Reaches(run0, s0) && i in s0.tasks && s0.holder.None? && Refresh(s0).Some?
    requires Access(s0).Some? && s0.tasks[i] == RefreshWait(Access(s0).value)
    ensures run0 <= run
    ensures Reaches(run, s)
    ensures s == s0.(holder := Some(i),
                     tasks := s0.tasks[i := RefreshInFlight(Access(s0).value, Refresh(s0).value, true)])
  {
    run, s := Then(run0, s0, Run(i, Go));
    run, s := Then(run, s, Run(i, Go));
    run, s := Then(run, s, Run(i, Go));
  }

  /** An unlock finds no access token and submits what is in the envelope. */
  lemma UnlockLoads(run0: seq<Event>, s0: State, i: TaskId) returns (run: seq<Event>, s: State)
    requires Reaches(run0, s0) && i !in s0.tasks && Access(s0).None? && s0.envelope.Some?
    ensures Reaches(run, s)
    ensures s == s0.(db := Some(Tokens(None, Refresh(s0))), unlocked := true,
                     tasks := s0.tasks[i := RestoreInFlight(false, s0.envelope.value)])
  {
    run, s := UnlockOpens(run0, s0, i);
  }

  /** The token endpoint accepts it. */
  lemma UnlockSpends(run0: seq<Event>, s0: State, i: TaskId) returns (run: seq<Event>, s: State)
    requires Reaches(run0, s0) && i !in s0.tasks && Access(s0).None? && s0.envelope.Some?
    ensures Reaches(run, s)
    ensures s == s0.(db := Some(Tokens(None, Refresh(s0))), unlocked := true, next := s0.next + 2,
                     restored := s0.restored + {s0.envelope.value},
                     tasks := s0.tasks[i := RestoreReply(false, Grant(s0.next, Some(s0.next + 1)))])
  {
    run, s := UnlockLoads(run0, s0, i);
    run, s := Then(run, s, Run(i, Rotated));
  }

  /** A submitted exchange is answered and its answer stored. */
  lemma Stores(run0: seq<Event>, s0: State, i: TaskId) returns (run: seq<Event>, s: State)
    requires Reaches(run0, s0) && i in s0.tasks && s0.tasks[i].RefreshInFlight? && s0.db.Some? && s0.unlocked
    ensures Reaches(run, s) && s.tasks == s0.tasks[i := RefreshPersist(s0.tasks[i].used, s0.next)] && s.unlocked
    ensures s.db == Some(Tokens(Some(s0.next), Some(s0.next + 1)))
    ensures s.renewals == s0.renewals + [s0.tasks[i].used]
  {
    run, s := Then(run0, s0, Run(i, Rotated));
    run, s := Then(run, s, Run(i, Go));
  }

  /** The new token is persisted as well, and the task finishes. */
  lemma Renews(run0: seq<Event>, s0: State, i: TaskId) returns (run: seq<Event>, s: State)
    requires Reaches(run0, s0) && i in s0.tasks && s0.tasks[i].RefreshInFlight? && s0.db.Some? && s0.unlocked
    ensures Reaches(run, s) && s.tasks == s0.tasks[i := Done] && s.holder.None? && s.unlocked
    ensures s.db == Some(Tokens(Some(s0.next), Some(s0.next + 1))) && s.envelope == Some(s0.next + 1)
    ensures s.renewals == s0.renewals + [s0.tasks[i].used]
  {
    run, s := Stores(run0, s0, i);
    run, s := Then(run, s, Run(i, Go));
    run, s := Then(run, s, Run(i, Go));
  }

  /** The unlock handlers restore a session without `refresh_lock`. When the vault is locked
      and unlocked again during a 401-arm exchange, the restore can spend the same token. */
  lemma UnlockCanReplayAnExchange() returns (run: seq<Event>, s: State)
    ensures Reaches(run, s) && Replaying(s)
  {
    run, s := LoggedIn();
    run, s := Rejected(run, s, 1);
    run, s := Submits(run, s, 1);
    run, s := Then(run, s, Lock);
    run, s := UnlockSpends(run, s, 2);
    assert 1 in s.tasks && s.tasks[1].sent in s.restored;
  }

  /** A login saves its refresh token before it installs it; a restore in between spends it. */
  lemma LoginCanInstallASpentToken() returns (run: seq<Event>, s: State)
    ensures Reaches(run, s) && Replaying(s)
  {
    run, s := LoginSaves();
    run, s := UnlockSpends(run, s, 1);
    assert 1 in s.restored && s.holder.None? && 0 in s.tasks && s.tasks[0] == LoginSaved(Grant(0, Some(1)));
    run, s := Then(run, s, Run(0, Go));
    run, s := Rejected(run, s, 2);
    run, s := Submits(run, s, 2);
    assert 2 in s.tasks && s.tasks[2].sent in s.restored;
  }

  /** When the answer to an exchange is lost, the next 401 submits the spent token again. */
  lemma LostAnswerIsReplayed() returns (run: seq<Event>, s: State)
    ensures Reaches(run, s) && Replaying(s)
  {
    run, s := LoggedIn();
    run, s := Rejected(run, s, 1);
    run, s := Submits(run, s, 1);
    run, s := Then(run, s, Run(1, Dropped));
    run, s := Rejected(run, s, 2);
    run, s := Submits(run, s, 2);
    assert 2 in s.tasks && s.tasks[2].sent in s.lost;
  }

  /** The check of the access token and the reading of the refresh token are two segments. The
      check of a waiting task can fall into a locked period. */
  lemma ChecksWhileLocked(run0: seq<Event>, s0: State, i: TaskId) returns (run: seq<Event>, s: State)
    requires Reaches(run0, s0) && i in s0.tasks && s0.tasks[i].RefreshWait? && s0.holder.None? && s0.db.Some?
    ensures Reaches(run, s) && s.tasks == s0.tasks[i := RefreshRead(s0.tasks[i].used)]
    ensures Access(s).None? && s.envelope == s0.envelope && s.renewals == s0.renewals
  {
    run, s := Then(run0, s0, Lock);
    run, s := Then(run, s, Run(i, Go));
    run, s := Then(run, s, Run(i, Go));
  }

  /** When its read falls after the next restore, it renews its access token, whatever has been
      renewed before. */
  lemma RenewsAcrossALock(run0: seq<Event>, s0: State, i: TaskId, j: TaskId) returns (run: seq<Event>, s: State)
    requires Reaches(run0, s0) && i in s0.tasks && s0.tasks[i].RefreshWait? && j !in s0.tasks
    requires s0.holder.None? && s0.db.Some? && s0.envelope.Some?
    ensures Reaches(run, s) && s.renewals == s0.renewals + [s0.tasks[i].used]
  {
    run, s := ChecksWhileLocked(run0, s0, i);
    run, s := UnlockSpends(run, s, j);
    run, s := Then(run, s, Run(j, Go));
    assert i in s.tasks && s.tasks[i] == RefreshRead(s0.tasks[i].used) && Refresh(s).Some?;
    run, s := Then(run, s, Run(i, Go));
    run, s := Then(run, s, Run(i, Rotated));
  }

  /** The condition of `OneRenewalPerAccessToken` is exact: from every reachable state, a step
      that breaks it goes on to a second renewal when its exchange is answered. */
  lemma RereadingRenewsTwice(run0: seq<Event>, s0: State, e: Event) returns (run: seq<Event>, s: State)
    requires Reaches(run0, s0) && RereadsRenewed(s0, e)
    ensures Reaches(run, s) && run == run0 + [e] + [Run(e.i, Rotated)]
    ensures s.renewals == s0.renewals + [s0.tasks[e.i].used] && !NoDuplicates(s.renewals)
  {
    run, s := Then(run0, s0, e);
    run, s := Then(run, s, Run(e.i, Rotated));
    var k :| 0 <= k < |s0.renewals| && s0.renewals[k] == s0.tasks[e.i].used;
    assert s.renewals[k] == s.renewals[|s0.renewals|];
  }

  /** Two tasks are rejected with access token 0, and both renew it. */
  lemma OneAccessTokenCanBeRenewedTwice() returns (run: seq<Event>, s: State)
    ensures Reaches(run, s) && s.renewals == [0, 0]
  {
    run, s := LoggedIn();
    run, s := Rejected(run, s, 1);
    run, s := Rejected(run, s, 2);
    run, s := Submits(run, s, 1);
    run, s := Renews(run, s, 1);
    run, s := RenewsAcrossALock(run, s, 2, 3);
  }

  // ----- What the handlers achieve ---------------------------------------------------------

  /** Memory and envelope hold the tokens of this grant; nothing else of the session has changed. */
  predicate Holding(s: State, got: Grant) {
    && s.db == Some(Tokens(Some(got.access), got.refresh)) && s.envelope == got.refresh
    && s.unlocked && s.holder.None?
  }

  /** A request of an unlocked vault without a token restores the session from the envelope, and goes
      out with the new access token; the new refresh token is in the envelope. */
  lemma RequestRestoresSession(run0: seq<Event>, s0: State, i: TaskId) returns (run: seq<Event>, s: State)
    requires Reaches(run0, s0) && i !in s0.tasks && s0.holder.None?
    requires s0.db.Some? && s0.unlocked && Access(s0).None? && s0.envelope.Some?
    ensures Reaches(run, s) && Holding(s, Grant(s0.next, Some(s0.next + 1)))
    ensures s.tasks == s0.tasks[i := Request(s0.next)] && s.restored == s0.restored + {s0.envelope.value}
  {
    hide Reaches;
    run, s := Then(run0, s0, Spawn(i, Start));
    run, s := Then(run, s, Run(i, Go));
    run, s := Then(run, s, Run(i, Go));
    run, s := Then(run, s, Run(i, Go));
    run, s := Then(run, s, Run(i, Rotated));
    run, s := RequestGoesOut(run, s, i);
  }

  lemma RequestGoesOut(run0: seq<Event>, s0: State, i: TaskId) returns (run: seq<Event>, s: State)
    requires Reaches(run0, s0) && i in s0.tasks && s0.tasks[i].RestoreReply? && s0.tasks[i].guarded
    requires s0.db.Some? && s0.unlocked && s0.tasks[i].got.refresh.Some?
    ensures Reaches(run, s) && Holding(s, s0.tasks[i].got)
    ensures s.tasks == s0.tasks[i := Request(s0.tasks[i].got.access)] && s.restored == s0.restored
  {
    run, s := Then(run0, s0, Run(i, Go));
    run, s := Then(run, s, Run(i, Go));
    run, s := Then(run, s, Run(i, Go));
  }

  /** A rejected request of an unlocked vault renews its token, retries with the new one while it
      still holds `refresh_lock`, and releases it; a refresh token that the server keeps is kept. */
  lemma RejectedRequestRenews(run0: seq<Event>, s0: State, i: TaskId, kept: bool)
    returns (run: seq<Event>, middle: State, s: State)
    requires Reaches(run0, s0) && i !in s0.tasks && s0.holder.None? && s0.unlocked
    requires Access(s0).Some? && Refresh(s0).Some?
    ensures Reaches(run, s) && Holding(s, Grant(s0.next, if kept then Refresh(s0) else Some(s0.next + 1)))
    ensures s.tasks == s0.tasks[i := Done] && s.renewals == s0.renewals + [Access(s0).value]
    ensures s.acked == s0.acked + (if kept then {} else {Refresh(s0).value})
    ensures middle.tasks == s0.tasks[i := RefreshRetry(Access(s0).value, s0.next)] && middle.holder == Some(i)
    ensures Step(middle, Run(i, Go)) == Some(s)
  {
    hide Reaches, Step;
    run, s := Rejected(run0, s0, i);
    run, s := Submits(run, s, i);
    run, middle, s := AnswerIsUsed(run, s, i, kept);
  }

  lemma AnswerIsUsed(run0: seq<Event>, s0: State, i: TaskId, kept: bool)
    returns (run: seq<Event>, middle: State, s: State)
    requires Reaches(run0, s0) && i in s0.tasks && s0.tasks[i].RefreshInFlight? && s0.holder == Some(i)
    requires s0.unlocked && Refresh(s0) == Some(s0.tasks[i].sent)
    ensures Reaches(run, s) && Holding(s, Grant(s0.next, if kept then Refresh(s0) else Some(s0.next + 1)))
    ensures s.tasks == s0.tasks[i := Done] && s.renewals == s0.renewals + [s0.tasks[i].used]
    ensures s.acked == s0.acked + (if kept then {} else {s0.tasks[i].sent})
    ensures middle.tasks == s0.tasks[i := RefreshRetry(s0.tasks[i].used, s0.next)] && middle.holder == Some(i)
    ensures Step(middle, Run(i, Go)) == Some(s)
  {
    hide Reaches;
    run, s := AnswerIsStored(run0, s0, i, kept);
    run, middle := Then(run, s, Run(i, Go));
    run, s := Then(run, middle, Run(i, Go));
  }

  lemma AnswerIsStored(run0: seq<Event>, s0: State, i: TaskId, kept: bool) returns (run: seq<Event>, s: State)
    requires Reaches(run0, s0) && i in s0.tasks && s0.tasks[i].RefreshInFlight? && s0.db.Some?
    requires Refresh(s0) == Some(s0.tasks[i].sent)
    ensures Reaches(run, s) && s.tasks == s0.tasks[i := RefreshPersist(s0.tasks[i].used, s0.next)]
    ensures s.db == Some(Tokens(Some(s0.next), if kept then Refresh(s0) else Some(s0.next + 1)))
    ensures s.renewals == s0.renewals + [s0.tasks[i].used] && s.holder == s0.holder && s.unlocked == s0.unlocked
    ensures s.acked == s0.acked + (if kept then {} else {s0.tasks[i].sent})
  {
    hide Reaches;
    run, s := Then(run0, s0, Run(i, if kept then Kept else Rotated));
    run, s := Then(run, s, Run(i, Go));
  }

  /** How an unlock without a token in memory fares with the envelope. */
  datatype Unlocking = NoEnvelope | EnvelopeAccepted | EnvelopeRefused

  /** An unlock restores the session from the envelope, and falls back on the password when there is
      no envelope or the token in it is refused. */
  lemma UnlockRestoresSession(run0: seq<Event>, s0: State, i: TaskId, how: Unlocking)
    returns (run: seq<Event>, s: State)
    requires Reaches(run0, s0) && i !in s0.tasks && s0.holder.None? && Access(s0).None?
    requires how.NoEnvelope? <==> s0.envelope.None?
    ensures Reaches(run, s) && Holding(s, Grant(s0.next, Some(s0.next + 1))) && s.tasks == s0.tasks[i := Done]
    ensures s.restored == s0.restored + (if how.EnvelopeAccepted? then {s0.envelope.value} else {})
  {
    hide Reaches;
    run, s := UnlockIsGranted(run0, s0, i, how);
    run, s := Then(run, s, Run(i, Go));
    run, s := Then(run, s, Run(i, Go));
  }

  lemma UnlockIsGranted(run0: seq<Event>, s0: State, i: TaskId, how: Unlocking) returns (run: seq<Event>, s: State)
    requires Reaches(run0, s0) && i !in s0.tasks && Access(s0).None? && (how.NoEnvelope? <==> s0.envelope.None?)
    ensures Reaches(run, s) && s.tasks == s0.tasks[i := RestoreReply(false, Grant(s0.next, Some(s0.next + 1)))]
    ensures s.db.Some? && s.unlocked && s.holder == s0.holder
    ensures s.restored == s0.restored + (if how.EnvelopeAccepted? then {s0.envelope.value} else {})
  {
    hide Reaches;
    run, s := UnlockOpens(run0, s0, i);
    if how.EnvelopeRefused? {
      run, s := Then(run, s, Run(i, Fail));
    }
    run, s := Then(run, s, Run(i, Rotated));
  }

  /** An unlock without a token in memory submits the envelope, if there is one, or the password. */
  lemma UnlockOpens(run0: seq<Event>, s0: State, i: TaskId) returns (run: seq<Event>, s: State)
    requires Reaches(run0, s0) && i !in s0.tasks && Access(s0).None?
    ensures Reaches(run, s)
    ensures s == s0.(db := Some(Tokens(None, Refresh(s0))), unlocked := true,
                     tasks := s0.tasks[i := match s0.envelope
                                            case Some(token) => RestoreInFlight(false, token)
                                            case None => PasswordGrant])
  {
    run, s := Then(run0, s0, Spawn(i, UnlockStart));
    run, s := Then(run, s, Run(i, Go));
  }

  /** An unlock that finds tokens in memory spends nothing and writes the refresh token down. */
  lemma UnlockKeepsTokens(run0: seq<Event>, s0: State, i: TaskId) returns (run: seq<Event>, s: State)
    requires Reaches(run0, s0) && i !in s0.tasks && s0.holder.None? && Access(s0).Some? && Refresh(s0).Some?
    ensures Reaches(run, s) && Holding(s, Grant(Access(s0).value, Refresh(s0))) && s.tasks == s0.tasks[i := Done]
    ensures Spent(s) == Spent(s0) && s.next == s0.next
  {
    run, s := Then(run0, s0, Spawn(i, UnlockStart));
    run, s := Then(run, s, Run(i, Go));
    run, s := Then(run, s, Run(i, Go));
  }

  /** A login replaces whatever session there was, also when the envelope cannot be written. */
  lemma LoginInstallsSession(run0: seq<Event>, s0: State, i: TaskId, written: bool)
    returns (run: seq<Event>, s: State)
    requires Reaches(run0, s0) && i !in s0.tasks && s0.holder.None?
    ensures Reaches(run, s) && s.tasks == s0.tasks[i := Done] && s.unlocked && s.holder.None?
    ensures s.db == Some(Tokens(Some(s0.next), Some(s0.next + 1))) && Spent(s) == Spent(s0)
    ensures s.envelope == if written then Some(s0.next + 1) else s0.envelope
  {
    hide Reaches;
    run, s := LoginIsGranted(run0, s0, i);
    run, s := Then(run, s, Run(i, if written then Go else NoWrite));
    run, s := Then(run, s, Run(i, Go));
  }

  lemma LoginIsGranted(run0: seq<Event>, s0: State, i: TaskId) returns (run: seq<Event>, s: State)
    requires Reaches(run0, s0) && i !in s0.tasks
    ensures Reaches(run, s)
    ensures s == s0.(next := s0.next + 2, tasks := s0.tasks[i := LoginMinted(Grant(s0.next, Some(s0.next + 1)))])
  {
    run, s := Then(run0, s0, Spawn(i, LoginStart));
    run, s := Then(run, s, Run(i, Rotated));
  }

  /** A login that is granted no refresh token leaves the envelope alone and memory without one. */
  lemma LoginWithoutRefreshToken(run0: seq<Event>, s0: State, i: TaskId) returns (run: seq<Event>, s: State)
    requires Reaches(run0, s0) && i !in s0.tasks && s0.holder.None?
    ensures Reaches(run, s) && s.tasks == s0.tasks[i := Done] && s.unlocked
    ensures s.db == Some(Tokens(Some(s0.next), None)) && s.envelope == s0.envelope && Spent(s) == Spent(s0)
  {
    hide Reaches;
    run, s := LoginIsKept(run0, s0, i);
    run, s := Then(run, s, Run(i, Go));
    run, s := Then(run, s, Run(i, Go));
  }

  lemma LoginIsKept(run0: seq<Event>, s0: State, i: TaskId) returns (run: seq<Event>, s: State)
    requires Reaches(run0, s0) && i !in s0.tasks
    ensures Reaches(run, s)
    ensures s == s0.(next := s0.next + 2, tasks := s0.tasks[i := LoginMinted(Grant(s0.next, None))])
  {
    run, s := Then(run0, s0, Spawn(i, LoginStart));
    run, s := Then(run, s, Run(i, Kept));
  }

  /** A restore whose refresh token the server keeps spends nothing, and leaves the envelope as it is;
      so does a password grant without one. */
  lemma KeptRestoreSpendsNothing(run0: seq<Event>, s0: State, i: TaskId) returns (run: seq<Event>, s: State)
    requires Reaches(run0, s0) && i in s0.tasks && s0.db.Some? && s0.unlocked && Refresh(s0).None?
    requires s0.tasks[i].RestoreInFlight? || s0.tasks[i].PasswordGrant?
    ensures Reaches(run, s) && Spent(s) == Spent(s0) && s.envelope == s0.envelope
    ensures s.db == Some(Tokens(Some(s0.next), None)) && s.holder == s0.holder
    ensures s.tasks == s0.tasks[i := if s0.tasks[i].PasswordGrant? || !s0.tasks[i].guarded then Done
                                     else RestoreReread]
  {
    hide Reaches;
    run, s := Then(run0, s0, Run(i, Kept));
    run, s := Then(run, s, Run(i, Go));
    run, s := Then(run, s, Run(i, Go));
  }

  // ----- Failures --------------------------------------------------------------------------

  /** What a task that is suspended here can be resumed with. */
  predicate Answers(s: State, pc: Pc, o: Outcome) {
    match pc
    case Start => o == Go || o == Fail
    case RestoreWait => o == Go && s.holder.None?
    case RestoreCheck => o == Go || o == Fail
    case RestoreInFlight(_, _) => o == Rotated || o == Kept || o == Dropped || o == Fail
    case RestorePersist(_) => o == Go || o == NoWrite
    case Request(_) => o == Go || o == Fail || o == Unauthorized
    case RefreshWait(_) => o == Go && s.holder.None?
    case RefreshInFlight(_, _, _) => o == Rotated || o == Kept || o == Dropped || o == Fail
    case RefreshPersist(_, _) => o == Go || o == NoWrite
    case RefreshRetry(_, _) => o == Go || o == Fail
    case LoginStart => o == Rotated || o == Kept || o == Fail
    case LoginMinted(_) => o == Go || o == NoWrite || o == Fail
    case UnlockStart => o == Go || o == Fail
    case PasswordGrant => o == Rotated || o == Kept || o == Fail
    case Done => false
    case _ => o == Go
  }

  /** A failure ends the task, except that an unlock whose envelope is refused goes on with the
      password; it releases `refresh_lock` if the task holds it, and changes nothing else. When an
      answer is lost the submitted token is spent in addition. */
  lemma FailuresReleaseTheLock(s: State, i: TaskId, o: Outcome)
    requires i in s.tasks
    ensures Step(s, Run(i, o)).Some? <==> Answers(s, s.tasks[i], o)
    ensures Step(s, Run(i, o)).Some? && (o == Fail || o == Dropped) ==>
              var pc := s.tasks[i];
              var after := if pc.RestoreInFlight? && !pc.guarded then PasswordGrant else Done;
              Step(s, Run(i, o)).value
              == s.(tasks := s.tasks[i := after], holder := if Holds(pc) then None else s.holder,
                    lost := s.lost + (if o == Dropped then {pc.sent} else {}))
  {
  }

  /** Requests that have no session to use end at once, without a call to the server and without
      `refresh_lock`. */
  lemma RequestsWithoutSession(s: State, i: TaskId)
    requires i in s.tasks
    ensures s.tasks[i] == Start && (s.db.None? || (Access(s).None? && !s.unlocked)) ==>
              Step(s, Run(i, Go)) == Some(s.(tasks := s.tasks[i := Done]))
    ensures s.tasks[i] == RestoreCheck && Access(s).None? && s.envelope.None? ==>
              Step(s, Run(i, Go)) == Some(s.(tasks := s.tasks[i := Done], holder := None))
    ensures s.tasks[i] == RestoreReread && Access(s).None? ==>
              Step(s, Run(i, Go)) == Some(s.(tasks := s.tasks[i := Done], holder := None))
    ensures s.tasks[i].RefreshRead? && Refresh(s).None? ==>
              Step(s, Run(i, Go)) == Some(s.(tasks := s.tasks[i := Done], holder := None))
    ensures s.tasks[i].Request? ==> Step(s, Run(i, Go)) == Some(s.(tasks := s.tasks[i := Done]))
  {
  }

  /** A lock takes keys and tokens, a logout the database as well; neither touches the envelope, the
      tasks or `refresh_lock`, and a new request fails at once. */
  lemma LocksEndTheSession(s: State, e: Event, i: TaskId)
    requires e == Lock || e == ClearAccount
    ensures var t := Step(s, e).value;
            && t == s.(db := t.db, unlocked := false) && Access(t).None? && Refresh(t).None?
            && (t.db.Some? <==> e == Lock && s.db.Some?)
            && (i !in s.tasks ==>
                  Step(Put(t, i, Start), Run(i, Go)) == Some(t.(tasks := s.tasks[i := Done])))
  {
    assert s.tasks[i := Start][i := Done] == s.tasks[i := Done];
  }

  // ----- Restores that submit a spent token ------------------------------------------------

  /** Log in and lock: 1 is in the envelope and nothing is in memory. */
  lemma LoggedInAndLocked() returns (run: seq<Event>, s: State)
    ensures Reaches(run, s) && s.tasks == map[0 := Done] && s.holder.None? && Access(s).None? && s.db.Some?
    ensures s.envelope == Some(1)
  {
    run, s := LoggedIn();
    run, s := Then(run, s, Lock);
  }

  /** Two unlocks restore at once, neither under `refresh_lock`. */
  lemma TwoUnlocksReplay() returns (run: seq<Event>, s: State)
    ensures Reaches(run, s) && RestoreReplaying(s)
  {
    run, s := LoggedInAndLocked();
    run, s := UnlockLoads(run, s, 1);
    run, s := UnlockLoads(run, s, 2);
    run, s := Then(run, s, Run(1, Rotated));
    assert 2 in s.tasks && s.tasks[2].sent in s.restored;
  }

  /** A restore stores its answer, which never reaches the envelope: because the write fails, or
      because the vault is locked before it. The next restore submits the spent token again. */
  lemma UnpersistedRestoreReplays(lock: bool) returns (run: seq<Event>, s: State)
    ensures Reaches(run, s) && RestoreReplaying(s)
  {
    run, s := LoggedInAndLocked();
    run, s := UnlockSpends(run, s, 1);
    assert s.envelope == Some(1) && 1 in s.restored;
    run, s := Unpersisted(run, s, 1, lock);
    run, s := UnlockLoads(run, s, 2);
    assert 2 in s.tasks && s.tasks[2].sent in s.restored;
  }

  lemma Unpersisted(run0: seq<Event>, s0: State, i: TaskId, lock: bool) returns (run: seq<Event>, s: State)
    requires Reaches(run0, s0) && i in s0.tasks && s0.tasks[i].RestoreReply? && !s0.tasks[i].guarded
    ensures Reaches(run, s) && s.envelope == s0.envelope && s.restored == s0.restored && Access(s).None?
    ensures s.tasks == s0.tasks[i := Done]
  {
    run, s := Then(run0, s0, Run(i, Go));
    if lock {
      run, s := Then(run, s, Lock);
      run, s := Then(run, s, Run(i, Go));
    } else {
      run, s := Then(run, s, Run(i, NoWrite));
      run, s := Then(run, s, Lock);
    }
  }

  // ----- Every careless step can end in a replay -------------------------------------------

  lemma SpentGrows(s: State, i: TaskId, o: Outcome)
    requires Step(s, Run(i, o)).Some?
    ensures Spent(s) <= Spent(Step(s, Run(i, o)).value)
  {
    ExchangeOf(s, i, s.tasks[i], o);
    RestoreOf(s, i, s.tasks[i], o);
  }

  /** The state has changed only where the holder of `refresh_lock` may change it. */
  ghost predicate OnlyHolderMoved(s: State, t: State) {
    && t.tasks.Keys == s.tasks.Keys && Spent(s) <= Spent(t)
    && forall j :: j in s.tasks && !Holds(s.tasks[j]) ==> t.tasks[j] == s.tasks[j]
  }

  function HolderEvent(s: State): Event
    requires LockDiscipline(s) && s.holder.Some?
  {
    Run(s.holder.value, Forward(s.tasks[s.holder.value]))
  }

  lemma HolderCanRun(s: State)
    requires LockDiscipline(s) && s.holder.Some?
    ensures Step(s, HolderEvent(s)).Some?
  {
    var h := s.holder.value;
    if RunTask(s, h, s.tasks[h], Forward(s.tasks[h])).None? {
      OnlyWaitersBlock(s, h, s.tasks[h]);
    }
  }

  lemma HolderMovesAlone(s: State)
    requires LockDiscipline(s) && s.holder.Some? && Step(s, HolderEvent(s)).Some?
    ensures OnlyHolderMoved(s, Step(s, HolderEvent(s)).value)
  {
    SpentGrows(s, s.holder.value, HolderEvent(s).outcome);
  }

  lemma HolderComesCloser(s: State)
    requires LockDiscipline(s) && s.holder.Some? && Step(s, HolderEvent(s)).Some?
    ensures var t := Step(s, HolderEvent(s)).value;
            t.holder.None? || (t.holder == s.holder && s.holder.value in t.tasks
                               && Remaining(t.tasks[s.holder.value]) < Remaining(s.tasks[s.holder.value]))
  {
    ReleaseComesCloser(s, s.holder.value, s.tasks[s.holder.value], HolderEvent(s).outcome);
  }

  /** The holder runs until it releases the lock; the other tasks stay put. */
  lemma {:induction false} FreesLock(run0: seq<Event>, s0: State) returns (run: seq<Event>, s: State)
    requires Reaches(run0, s0)
    ensures Reaches(run, s) && run0 <= run && s.holder.None? && OnlyHolderMoved(s0, s)
    decreases if s0.holder.Some? && s0.holder.value in s0.tasks then 1 + Remaining(s0.tasks[s0.holder.value]) else 0
  {
    ExecInv(INIT, run0);
    run, s := run0, s0;
    if s0.holder.Some? {
      HolderCanRun(s0);
      HolderMovesAlone(s0);
      HolderComesCloser(s0);
      run, s := Then(run0, s0, HolderEvent(s0));
      run, s := FreesLock(run, s);
    }
  }

  /** With a spent refresh token in memory and the lock free, the next 401 submits it. */
  lemma NextRejectionReplays(run0: seq<Event>, s0: State) returns (run: seq<Event>, s: State)
    requires Reaches(run0, s0) && s0.holder.None? && Refresh(s0).Some? && Refresh(s0).value in Spent(s0)
    ensures Reaches(run, s) && run0 <= run && Replaying(s)
  {
    ExecInv(INIT, run0);
    var i := FreshId(s0.tasks.Keys);
    run, s := Rejected(run0, s0, i);
    run, s := Submits(run, s, i);
    assert i in s.tasks && s.tasks[i].sent in Spent(s);
  }

  /** A restore loads the envelope and spends what is in it; tasks other than its own stay put. */
  lemma RestoreSpends(run0: seq<Event>, s0: State, e: Event) returns (run: seq<Event>, s: State)
    requires Reaches(run0, s0) && Step(s0, e).Some? && LoadsEnvelope(s0, e)
    ensures Reaches(run, s) && run0 + [e] <= run && s0.envelope.value in Spent(s)
    ensures forall j :: j in s0.tasks && j != e.i ==> j in s.tasks && s.tasks[j] == s0.tasks[j]
  {
    run, s := Then(run0, s0, e);
    assert s.tasks[e.i].RestoreInFlight? && s.tasks[e.i].sent == s0.envelope.value;
    run, s := Then(run, s, Run(e.i, Rotated));
  }

  /** A login installs a refresh token that has been spent meanwhile. */
  lemma InstallsSpent(run0: seq<Event>, s0: State, i: TaskId) returns (run: seq<Event>, s: State)
    requires Reaches(run0, s0) && i in s0.tasks && s0.tasks[i].LoginSaved?
    requires s0.tasks[i].got.refresh.Some? && s0.tasks[i].got.refresh.value in Spent(s0)
    ensures Reaches(run, s) && run0 <= run && Replaying(s)
  {
    run, s := FreesLock(run0, s0);
    run, s := Then(run, s, Run(i, Go));
    run, s := NextRejectionReplays(run, s);
  }

  lemma LoadedInFlightReplays(run0: seq<Event>, s0: State, e: Event) returns (run: seq<Event>, s: State)
    requires Reaches(run0, s0) && Step(s0, e).Some? && LoadsEnvelope(s0, e) && InRefreshFlight(s0, s0.envelope.value)
    ensures Reaches(run, s) && run0 + [e] <= run && Replaying(s)
  {
    var i :| i in s0.tasks && s0.tasks[i].RefreshInFlight? && s0.tasks[i].sent == s0.envelope.value;
    run, s := RestoreSpends(run0, s0, e);
    assert i in s.tasks && s.tasks[i] == s0.tasks[i];
  }

  lemma LoadedSavedReplays(run0: seq<Event>, s0: State, e: Event) returns (run: seq<Event>, s: State)
    requires Reaches(run0, s0) && Step(s0, e).Some? && LoadsEnvelope(s0, e) && SavedByLogin(s0, s0.envelope.value)
    ensures Reaches(run, s) && run0 + [e] <= run && Replaying(s)
  {
    var i :| i in s0.tasks && s0.tasks[i].LoginSaved? && s0.tasks[i].got.refresh == s0.envelope;
    run, s := RestoreSpends(run0, s0, e);
    run, s := InstallsSpent(run, s, i);
  }

  lemma LostAnswerReplays(run0: seq<Event>, s0: State, e: Event) returns (run: seq<Event>, s: State)
    requires Reaches(run0, s0) && Step(s0, e).Some? && LosesAnswer(s0, e)
    ensures Reaches(run, s) && run0 + [e] <= run && Replaying(s)
  {
    run, s := Then(run0, s0, e);
    assert s.holder.None? && Refresh(s) == Refresh(s0) && Refresh(s).value in s.lost;
    run, s := NextRejectionReplays(run, s);
  }

  /** The condition of `CarefulRunsNeverReplay` is exact: whichever way a step breaks it, the
      run that took the step can go on to replay a spent token. */
  lemma CarelessStepsCanReplay(run0: seq<Event>, s0: State, e: Event) returns (run: seq<Event>, s: State)
    requires Reaches(run0, s0) && Step(s0, e).Some? && !Careful(s0, e)
    ensures Reaches(run, s) && run0 + [e] <= run && Replaying(s)
  {
    if LosesAnswer(s0, e) {
      run, s := LostAnswerReplays(run0, s0, e);
    } else if InRefreshFlight(s0, s0.envelope.value) {
      run, s := LoadedInFlightReplays(run0, s0, e);
    } else {
      run, s := LoadedSavedReplays(run0, s0, e);
    }
  }
}
