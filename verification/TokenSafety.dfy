/** What every run of the session-token protocol keeps: `refresh_lock` is held by the task in
    the guarded section, refresh tokens are used once, and the lock is always passed on. */
module TokenSafety {
  import opened Prelude
  import opened TokenRefresh

  predicate Holds(pc: Pc) {
    match pc
    case RestoreCheck => true
    case RestoreInFlight(guarded, _) => guarded
    case RestoreReply(guarded, _) => guarded
    case RestorePersist(guarded) => guarded
    case RestoreReread => true
    case RefreshCheck(_) => true
    case RefreshRead(_) => true
    case RefreshInFlight(_, _, _) => true
    case RefreshReply(_, _) => true
    case RefreshPersist(_, _) => true
    case RefreshRetry(_, _) => true
    case _ => false
  }

  /** Tokens a task has received and not yet put into memory. */
  function Pending(pc: Pc): set<Token> {
    if pc.RestoreReply? || pc.RefreshReply? || pc.LoginMinted? || pc.LoginSaved? then
      {pc.got.access} + (if pc.got.refresh.Some? then {pc.got.refresh.value} else {})
    else {}
  }

  predicate UsesAccess(pc: Pc) {
    pc.Request? || pc.RefreshWait? || pc.RefreshCheck? || pc.RefreshRead? || pc.RefreshInFlight? || pc.RefreshReply?
  }

  /** `refresh_lock` is held exactly by the task whose code is inside the guarded section. */
  ghost predicate LockDiscipline(s: State) {
    && (s.holder.Some? ==> s.holder.value in s.tasks && Holds(s.tasks[s.holder.value]))
    && (forall i :: i in s.tasks && Holds(s.tasks[i]) ==> s.holder == Some(i))
  }

  /** A token that has been issued and has never been in memory. */
  predicate Unused(s: State, t: Token) {
    t < s.next && t !in s.seen && t !in s.installed
  }

  /** A pending token is known to its task alone and has never been in memory. */
  ghost predicate PendingFresh(s: State) {
    && (forall i, t {:trigger t in Pending(s.tasks[i])} :: i in s.tasks && t in Pending(s.tasks[i]) ==> Unused(s, t))
    && (forall i, j, t {:trigger t in Pending(s.tasks[i]), t in Pending(s.tasks[j])} ::
          i in s.tasks && j in s.tasks && t in Pending(s.tasks[i]) && t in Pending(s.tasks[j]) ==> i == j)
    && (forall t :: t in s.seen ==> t < s.next)
    && (forall t :: t in s.installed ==> t < s.next)
  }

  ghost predicate MemoryWellFormed(s: State) {
    && (Refresh(s).Some? ==> Refresh(s).value in s.seen && Access(s).Some?)
    && (Access(s).Some? ==> s.installed != [] && s.installed[|s.installed| - 1] == Access(s).value)
    && (forall i :: i in s.tasks && UsesAccess(s.tasks[i]) ==> s.tasks[i].used in s.installed)
  }

  /** The task inside the guarded section has its answer but has not stored it yet. */
  predicate HolderStores(s: State) {
    s.holder.Some? && s.holder.value in s.tasks && s.tasks[s.holder.value].RefreshReply?
  }

  /** A refresh token that a 401-arm exchange has rotated away is out of memory, except in the
      window between the answer and storing it, which the lock holder covers. */
  ghost predicate NoStaleRefresh(s: State) {
    && s.acked <= s.seen
    && (forall i :: i in s.tasks && s.tasks[i].RefreshInFlight? ==>
          s.tasks[i].sent in s.seen && s.tasks[i].sent !in s.acked)
    && (Refresh(s).Some? && Refresh(s).value in s.acked ==>
          HolderStores(s) && s.tasks[s.holder.value].got.refresh.Some?)
  }

  /** The same for access tokens: one that has been renewed leaves memory under the lock. */
  ghost predicate NoStaleAccess(s: State) {
    && (forall t :: t in s.renewals ==> t in s.installed)
    && (forall i :: i in s.tasks && s.tasks[i].RefreshInFlight? && s.tasks[i].pinned ==> s.tasks[i].used !in s.renewals)
    && (Access(s).Some? && Access(s).value in s.renewals ==> HolderStores(s))
  }

  ghost predicate Inv(s: State) {
    LockDiscipline(s) && PendingFresh(s) && MemoryWellFormed(s) && NoStaleRefresh(s) && NoStaleAccess(s)
  }

  // ----- What one segment can change -------------------------------------------------------

  /** A segment keeps, takes or releases `refresh_lock` together with entering or leaving the
      guarded section. */
  predicate LockEffect(s: State, t: State, i: TaskId, a: Pc, b: Pc) {
    || (t.holder == s.holder && Holds(a) == Holds(b))
    || (s.holder.None? && t.holder == Some(i) && !Holds(a) && Holds(b))
    || (t.holder.None? && Holds(a) && !Holds(b))
  }

  /** A segment receives fresh tokens, moves its pending tokens into memory, or does neither. */
  predicate TokenEffect(s: State, t: State, a: Pc, b: Pc) {
    || (t.next == s.next && t.seen == s.seen && t.installed == s.installed && Pending(b) <= Pending(a))
    || (t.next == s.next + 2 && t.seen == s.seen && t.installed == s.installed && Pending(b) <= {s.next, s.next + 1})
    || (t.next == s.next && Pending(b) == {} && Pending(a) != {} && a.got.access in Pending(a)
        && s.seen <= t.seen <= s.seen + Pending(a) && t.installed == s.installed + [a.got.access])
  }

  /** A segment leaves the token pair in memory alone, or stores the answer it was holding. */
  predicate MemoryEffect(s: State, t: State, a: Pc, b: Pc) {
    || (Access(t) == Access(s) && Refresh(t) == Refresh(s) && t.installed == s.installed && t.seen == s.seen)
    || (Pending(a) != {} && a.got.access in Pending(a) && (a.got.refresh.Some? ==> a.got.refresh.value in Pending(a))
        && Access(t) == Some(a.got.access) && t.installed == s.installed + [a.got.access]
        && t.seen == s.seen + (if a.got.refresh.Some? then {a.got.refresh.value} else {})
        && (Refresh(t) == a.got.refresh || (a.got.refresh.None? && Refresh(t) == Refresh(s))))
  }

  /** The access token a request runs with is the one in memory when the request started. */
  predicate UseEffect(s: State, a: Pc, b: Pc) {
    UsesAccess(b) ==> (UsesAccess(a) && b.used == a.used) || Access(s) == Some(b.used)
  }

  /** A segment answers a 401-arm exchange, starts one from the refresh token in memory, or
      neither; after storing an answer the old refresh token is no longer in memory. */
  predicate ExchangeEffect(s: State, t: State, a: Pc, b: Pc) {
    if a.RefreshInFlight? && b.RefreshReply? then
      && b.used == a.used && t.renewals == s.renewals + [a.used] && t.holder == s.holder
      && t.acked == s.acked + (if b.got.refresh.Some? then {a.sent} else {})
      && Access(t) == Access(s) && Refresh(t) == Refresh(s)
    else
      && t.renewals == s.renewals && t.acked == s.acked && !b.RefreshReply?
      && (b.RefreshInFlight? ==>
            a.RefreshRead? && b.used == a.used && Refresh(s) == Some(b.sent) && b.pinned == (Access(s) == Some(b.used)))
      && (a.RefreshReply? ==>
            || (Access(t).None? && Refresh(t).None?)
            || (Access(t) == Some(a.got.access) && (a.got.refresh.Some? ==> Refresh(t) == a.got.refresh)))
  }

  /** The shared state goes from `s` to `t` while task `i` goes from `a` to `b`. */
  predicate Effect(s: State, t: State, i: TaskId, a: Pc, b: Pc) {
    && LockEffect(s, t, i, a, b) && TokenEffect(s, t, a, b) && MemoryEffect(s, t, a, b)
    && UseEffect(s, a, b) && ExchangeEffect(s, t, a, b)
  }

  /** Only task `i` has moved. */
  predicate Moves(s: State, t: State, i: TaskId) {
    i in s.tasks && i in t.tasks && t.tasks == s.tasks[i := t.tasks[i]]
  }

  /** `t` is `s` after one segment of task `i`. */
  predicate Segment(s: State, t: State, i: TaskId) {
    Moves(s, t, i) && Effect(s, t, i, s.tasks[i], t.tasks[i])
  }

  lemma SegmentEffect(s: State, i: TaskId, o: Outcome)
    requires Step(s, Run(i, o)).Some?
    ensures Segment(s, Step(s, Run(i, o)).value, i)
  {
    var a := s.tasks[i];
    TasksOf(s, i, a, o);
    LockOf(s, i, a, o);
    TokensOf(s, i, a, o);
    MemoryOf(s, i, a, o);
    UseOf(s, i, a, o);
    ExchangeOf(s, i, a, o);
  }

  lemma TasksOf(s: State, i: TaskId, a: Pc, o: Outcome)
    requires RunTask(s, i, a, o).Some?
    ensures RunTask(s, i, a, o).value.0.tasks == s.tasks
  {
  }

  lemma LockOf(s: State, i: TaskId, a: Pc, o: Outcome)
    requires RunTask(s, i, a, o).Some?
    ensures var r := RunTask(s, i, a, o).value; LockEffect(s, r.0, i, a, r.1)
  {
  }

  lemma TokensOf(s: State, i: TaskId, a: Pc, o: Outcome)
    requires RunTask(s, i, a, o).Some?
    ensures var r := RunTask(s, i, a, o).value; TokenEffect(s, r.0, a, r.1)
  {
  }

  lemma MemoryOf(s: State, i: TaskId, a: Pc, o: Outcome)
    requires RunTask(s, i, a, o).Some?
    ensures var r := RunTask(s, i, a, o).value; MemoryEffect(s, r.0, a, r.1)
  {
  }

  lemma UseOf(s: State, i: TaskId, a: Pc, o: Outcome)
    requires RunTask(s, i, a, o).Some?
    ensures var r := RunTask(s, i, a, o).value; UseEffect(s, a, r.1)
  {
  }

  lemma ExchangeOf(s: State, i: TaskId, a: Pc, o: Outcome)
    requires RunTask(s, i, a, o).Some?
    ensures var r := RunTask(s, i, a, o).value; ExchangeEffect(s, r.0, a, r.1)
  {
  }

  lemma KeepsLock(s: State, t: State, i: TaskId)
    requires LockDiscipline(s) && Segment(s, t, i)
    ensures LockDiscipline(t)
  {
  }

  lemma KeepsPending(s: State, t: State, i: TaskId)
    requires PendingFresh(s) && Segment(s, t, i)
    ensures PendingFresh(t)
  {
    forall j, x | j in t.tasks && x in Pending(t.tasks[j])
      ensures Unused(t, x)
    {
      if j != i {
        assert x in Pending(s.tasks[j]) && Unused(s, x);
        assert x !in Pending(s.tasks[i]);
      }
    }
    forall j, k, x | j in t.tasks && k in t.tasks && x in Pending(t.tasks[j]) && x in Pending(t.tasks[k])
      ensures j == k
    {
      if j != i && k != i {
        assert x in Pending(s.tasks[j]) && x in Pending(s.tasks[k]);
      }
    }
  }

  lemma KeepsMemory(s: State, t: State, i: TaskId)
    requires MemoryWellFormed(s) && Segment(s, t, i)
    ensures MemoryWellFormed(t)
  {
  }

  lemma KeepsRefresh(s: State, t: State, i: TaskId)
    requires Inv(s) && LockDiscipline(t) && Segment(s, t, i)
    ensures NoStaleRefresh(t)
  {
    var a := s.tasks[i];
    if Pending(a) != {} && a.got.refresh.Some? {
      assert a.got.refresh.value in Pending(a) && Unused(s, a.got.refresh.value);
    }
  }

  lemma KeepsAccess(s: State, t: State, i: TaskId)
    requires Inv(s) && LockDiscipline(t) && Segment(s, t, i)
    ensures NoStaleAccess(t)
  {
    var a := s.tasks[i];
    if Pending(a) != {} {
      assert a.got.access in Pending(a) && Unused(s, a.got.access);
    }
  }

  lemma StepInv(s: State, e: Event)
    requires Inv(s) && Step(s, e).Some?
    ensures Inv(Step(s, e).value)
  {
    var t := Step(s, e).value;
    if e.Run? {
      SegmentEffect(s, e.i, e.outcome);
      KeepsLock(s, t, e.i);
      KeepsPending(s, t, e.i);
      KeepsMemory(s, t, e.i);
      KeepsRefresh(s, t, e.i);
      KeepsAccess(s, t, e.i);
    } else {
      OutsideInv(s, e);
    }
  }

  lemma OutsideInv(s: State, e: Event)
    requires Inv(s) && !e.Run? && Step(s, e).Some?
    ensures Inv(Step(s, e).value)
  {
    hide Inv;
    if e.Spawn? {
      SpawnInv(s, e.i, e.pc);
    } else {
      ForgetsInv(s, Step(s, e).value);
    }
  }

  /** Besides the envelope and the lock state, at most the token pair in memory is given up. */
  lemma ForgetsInv(s: State, t: State)
    requires Inv(s) && t == s.(db := t.db, unlocked := t.unlocked, envelope := t.envelope)
    requires (Access(t).None? && Refresh(t).None?) || t.db == s.db
    ensures Inv(t)
  {
  }

  lemma SpawnInv(s: State, i: TaskId, pc: Pc)
    requires Inv(s) && Step(s, Spawn(i, pc)).Some?
    ensures Inv(Put(s, i, pc))
  {
  }

  lemma {:induction false} ExecInv(s: State, run: seq<Event>)
    requires Inv(s) && Exec(s, run).Some?
    ensures Inv(Exec(s, run).value)
    decreases |run|
  {
    if run != [] {
      StepInv(s, run[0]);
      ExecInv(Step(s, run[0]).value, run[1..]);
    }
  }

  // ----- Single use of refresh tokens ------------------------------------------------------

  function Spent(s: State): set<Token> {
    s.acked + s.restored + s.lost
  }

  /** Some 401-arm exchange has a spent refresh token in flight. */
  ghost predicate Replaying(s: State) {
    exists i :: i in s.tasks && s.tasks[i].RefreshInFlight? && s.tasks[i].sent in Spent(s)
  }

  /** Over every interleaving: a 401-arm exchange never has in flight a refresh token that
      another answered 401-arm exchange has rotated away, so its token is spent exactly when a
      restore spent it or an answer was lost; and while memory still holds a rotated-away token
      the holder of `refresh_lock` is about to overwrite it. */
  lemma RefreshTokensAreSingleUse(run: seq<Event>, s: State)
    requires Reaches(run, s)
    ensures forall i :: i in s.tasks && s.tasks[i].RefreshInFlight? ==>
              && s.tasks[i].sent !in s.acked
              && (s.tasks[i].sent in Spent(s) <==> s.tasks[i].sent in s.restored + s.lost)
    ensures Refresh(s).Some? && Refresh(s).value in s.acked ==> HolderStores(s)
  {
    ExecInv(INIT, run);
  }

  /** A refresh token that has left memory and that no 401-arm exchange has in flight. */
  ghost predicate Dead(s: State, f: Token) {
    && f in s.seen && Refresh(s) != Some(f)
    && (forall i :: i in s.tasks && s.tasks[i].RefreshInFlight? ==> s.tasks[i].sent != f)
  }

  lemma SegmentKeepsDead(s: State, t: State, i: TaskId, f: Token)
    requires Inv(s) && Dead(s, f) && Segment(s, t, i)
    ensures Dead(t, f)
  {
    var a := s.tasks[i];
    if Pending(a) != {} && a.got.refresh.Some? {
      assert a.got.refresh.value in Pending(a) && Unused(s, a.got.refresh.value);
    }
  }

  /** Once out of memory and out of flight, a refresh token never comes back. */
  lemma DeadStaysDead(s: State, e: Event, f: Token)
    requires Inv(s) && Dead(s, f) && Step(s, e).Some?
    ensures Dead(Step(s, e).value, f)
  {
    if e.Run? {
      SegmentEffect(s, e.i, e.outcome);
      SegmentKeepsDead(s, Step(s, e).value, e.i, f);
    }
  }

  /** A login has written this refresh token to the envelope and not installed it yet. */
  ghost predicate SavedByLogin(s: State, f: Token) {
    exists i :: i in s.tasks && s.tasks[i].LoginSaved? && s.tasks[i].got.refresh == Some(f)
  }

  ghost predicate InRefreshFlight(s: State, f: Token) {
    exists i :: i in s.tasks && s.tasks[i].RefreshInFlight? && s.tasks[i].sent == f
  }

  /** The event makes a restore load the envelope and submit what is in it. */
  predicate LoadsEnvelope(s: State, e: Event) {
    && e.Run? && e.outcome == Go && e.i in s.tasks && Access(s).None? && s.envelope.Some?
    && (s.tasks[e.i].RestoreCheck? || s.tasks[e.i].UnlockStart?)
  }

  /** A 401-arm exchange is accepted, its answer is lost, and its token is still in memory. */
  predicate LosesAnswer(s: State, e: Event) {
    && e.Run? && e.outcome == Dropped && e.i in s.tasks && s.tasks[e.i].RefreshInFlight?
    && Refresh(s) == Some(s.tasks[e.i].sent)
  }

  /** No restore loads a token that a 401-arm exchange has in flight or that a login has saved
      but not installed, and no answer is lost while the token it replaces is in memory. */
  ghost predicate Careful(s: State, e: Event) {
    && (LoadsEnvelope(s, e) ==> !InRefreshFlight(s, s.envelope.value) && !SavedByLogin(s, s.envelope.value))
    && !LosesAnswer(s, e)
  }

  ghost predicate CarefulRun(s: State, run: seq<Event>)
    decreases |run|
  {
    run == [] || (Careful(s, run[0]) && (Step(s, run[0]).Some? ==> CarefulRun(Step(s, run[0]).value, run[1..])))
  }

  ghost predicate EnvelopeKnown(s: State) {
    s.envelope.Some? ==> s.envelope.value in s.seen || SavedByLogin(s, s.envelope.value)
  }

  /** What a restore spends, has spent or may load never comes back to a 401-arm exchange. */
  ghost predicate RestoresAreDead(s: State) {
    && EnvelopeKnown(s)
    && (forall f :: f in s.restored + s.lost ==> Dead(s, f))
    && (forall i :: i in s.tasks && s.tasks[i].RestoreInFlight? ==> Dead(s, s.tasks[i].sent))
  }

  /** A segment leaves the envelope alone, writes the token in memory, or saves a login's token;
      a login that leaves its saved state has installed its token. */
  predicate EnvelopeEffect(s: State, t: State, a: Pc, b: Pc) {
    && (|| t.envelope == s.envelope
        || (t.envelope.Some? && t.envelope == Refresh(s))
        || (a.LoginMinted? && b == LoginSaved(a.got) && t.envelope == a.got.refresh))
    && (a.LoginSaved? && a.got.refresh.Some? ==> a.got.refresh.value in t.seen)
  }

  lemma EnvelopeOf(s: State, i: TaskId, a: Pc, o: Outcome)
    requires RunTask(s, i, a, o).Some?
    ensures var r := RunTask(s, i, a, o).value; EnvelopeEffect(s, r.0, a, r.1) && s.seen <= r.0.seen
  {
  }

  lemma EnvelopeStaysKnown(s: State, t: State, i: TaskId)
    requires MemoryWellFormed(s) && EnvelopeKnown(s) && Moves(s, t, i) && s.seen <= t.seen
    requires EnvelopeEffect(s, t, s.tasks[i], t.tasks[i])
    ensures EnvelopeKnown(t)
  {
    if t.envelope.Some? && t.envelope.value !in t.seen {
      if t.envelope == s.envelope {
        var j :| j in s.tasks && s.tasks[j].LoginSaved? && s.tasks[j].got.refresh == s.envelope;
        assert j in t.tasks && t.tasks[j] == s.tasks[j];
      } else {
        assert t.tasks[i].LoginSaved? && t.tasks[i].got.refresh == t.envelope;
      }
    }
  }

  /** Tokens become restored or lost only when a restore had them in flight or the answer to
      a 401-arm exchange is lost, and a restore has in flight what it read from the envelope. */
  predicate RestoreEffect(s: State, t: State, a: Pc, o: Outcome, b: Pc) {
    && (t.restored + t.lost == s.restored + s.lost
        || (a.RestoreInFlight? && t.restored + t.lost == s.restored + s.lost + {a.sent})
        || (a.RefreshInFlight? && o == Dropped && Refresh(t) == Refresh(s) && b == Done
            && t.restored + t.lost == s.restored + s.lost + {a.sent}))
    && (b.RestoreInFlight? ==>
          (a.RestoreCheck? || a.UnlockStart?) && o == Go && Access(s).None? && s.envelope == Some(b.sent))
  }

  lemma RestoreOf(s: State, i: TaskId, a: Pc, o: Outcome)
    requires RunTask(s, i, a, o).Some?
    ensures var r := RunTask(s, i, a, o).value; RestoreEffect(s, r.0, a, o, r.1)
  {
  }

  lemma LoadedIsDead(s: State, e: Event)
    requires Inv(s) && RestoresAreDead(s) && Careful(s, e) && LoadsEnvelope(s, e)
    ensures Dead(s, s.envelope.value)
  {
  }

  lemma CarefulSegment(s: State, t: State, i: TaskId, o: Outcome)
    requires Inv(s) && RestoresAreDead(s) && Careful(s, Run(i, o)) && Segment(s, t, i) && EnvelopeKnown(t)
    requires RestoreEffect(s, t, s.tasks[i], o, t.tasks[i])
    ensures RestoresAreDead(t)
  {
    forall f | f in t.restored + t.lost ensures Dead(t, f) {
      if !(s.tasks[i].RefreshInFlight? && f == s.tasks[i].sent) {
        assert Dead(s, f);
        SegmentKeepsDead(s, t, i, f);
      }
    }
    forall j | j in t.tasks && t.tasks[j].RestoreInFlight? ensures Dead(t, t.tasks[j].sent) {
      if j == i {
        LoadedIsDead(s, Run(i, o));
      }
      SegmentKeepsDead(s, t, i, t.tasks[j].sent);
    }
  }

  lemma CarefulOutside(s: State, e: Event)
    requires RestoresAreDead(s) && !e.Run? && Step(s, e).Some?
    ensures RestoresAreDead(Step(s, e).value)
  {
    var t := Step(s, e).value;
    if s.envelope.Some? && s.envelope.value !in s.seen {
      var i :| i in s.tasks && s.tasks[i].LoginSaved? && s.tasks[i].got.refresh == s.envelope;
      assert i in t.tasks && t.tasks[i] == s.tasks[i];
    }
  }

  lemma CarefulStep(s: State, e: Event)
    requires Inv(s) && RestoresAreDead(s) && Careful(s, e) && Step(s, e).Some?
    ensures RestoresAreDead(Step(s, e).value)
  {
    if e.Run? {
      var t := Step(s, e).value;
      SegmentEffect(s, e.i, e.outcome);
      EnvelopeOf(s, e.i, s.tasks[e.i], e.outcome);
      RestoreOf(s, e.i, s.tasks[e.i], e.outcome);
      EnvelopeStaysKnown(s, t, e.i);
      CarefulSegment(s, t, e.i, e.outcome);
    } else {
      CarefulOutside(s, e);
    }
  }

  lemma {:induction false} CarefulExec(s: State, run: seq<Event>)
    requires Inv(s) && RestoresAreDead(s) && CarefulRun(s, run) && Exec(s, run).Some?
    ensures Inv(Exec(s, run).value) && RestoresAreDead(Exec(s, run).value)
    decreases |run|
  {
    if run != [] {
      StepInv(s, run[0]);
      CarefulStep(s, run[0]);
      CarefulExec(Step(s, run[0]).value, run[1..]);
    }
  }

  /** In a careful run no 401-arm exchange ever has a spent refresh token in flight, whoever
      spent it: the logins, unlocks, locks and logouts may interleave in any other way. */
  lemma CarefulRunsNeverReplay(run: seq<Event>, s: State)
    requires Reaches(run, s) && CarefulRun(INIT, run)
    ensures !Replaying(s)
  {
    CarefulExec(INIT, run);
    ExecInv(INIT, run);
  }

  // ----- Restores that submit a spent token ------------------------------------------------

  /** Some restore has a spent refresh token in flight. */
  ghost predicate RestoreReplaying(s: State) {
    exists i :: i in s.tasks && s.tasks[i].RestoreInFlight? && s.tasks[i].sent in Spent(s)
  }

  /** The step is the acceptance of a refresh token that a restore of another task has in flight
      as well. */
  ghost predicate SpendsUnderRestore(s: State, e: Event) {
    && e.Run? && (e.outcome == Rotated || e.outcome == Dropped) && e.i in s.tasks
    && (s.tasks[e.i].RestoreInFlight? || s.tasks[e.i].RefreshInFlight?)
    && exists j :: j in s.tasks && j != e.i && s.tasks[j].RestoreInFlight? && s.tasks[j].sent == s.tasks[e.i].sent
  }

  /** What a segment adds to the spent tokens, and when it puts a restore in flight. */
  predicate SpendEffect(s: State, t: State, a: Pc, o: Outcome, b: Pc) {
    && (var spends := (a.RestoreInFlight? || a.RefreshInFlight?) && (o == Rotated || o == Dropped);
        Spent(t) == Spent(s) + (if spends then {a.sent} else {}))
    && (b.RestoreInFlight? <==>
          (a.RestoreCheck? || a.UnlockStart?) && o == Go && Access(s).None? && s.envelope.Some?)
    && (b.RestoreInFlight? ==> s.envelope == Some(b.sent))
  }

  lemma SpendOf(s: State, i: TaskId, a: Pc, o: Outcome)
    requires RunTask(s, i, a, o).Some?
    ensures var r := RunTask(s, i, a, o).value; SpendEffect(s, r.0, a, o, r.1)
  {
  }

  /** A restore comes to have a spent token in flight exactly when it loads one from the envelope,
      or when the one it has in flight is accepted for another task. */
  lemma RestoreReplayAt(s: State, e: Event)
    requires !RestoreReplaying(s) && Step(s, e).Some?
    ensures RestoreReplaying(Step(s, e).value) <==>
              (LoadsEnvelope(s, e) && s.envelope.value in Spent(s)) || SpendsUnderRestore(s, e)
  {
    if e.Run? {
      SpendOf(s, e.i, s.tasks[e.i], e.outcome);
      var t := Step(s, e).value;
      assert Moves(s, t, e.i) && SpendEffect(s, t, s.tasks[e.i], e.outcome, t.tasks[e.i]);
      hide Step, SpendEffect, RestoreReplaying, SpendsUnderRestore, LoadsEnvelope;
      RestoreReplayStep(s, t, e.i, e.outcome);
    } else {
      RestoreReplayOutside(s, e);
    }
  }

  lemma RestoreReplayOutside(s: State, e: Event)
    requires !RestoreReplaying(s) && !e.Run? && Step(s, e).Some?
    ensures !RestoreReplaying(Step(s, e).value)
  {
    var t := Step(s, e).value;
    assert forall i :: i in t.tasks && t.tasks[i].RestoreInFlight? ==> i in s.tasks && s.tasks[i] == t.tasks[i];
  }

  predicate GuardedRestore(pc: Pc) {
    pc.RestoreInFlight? && pc.guarded
  }

  /** Of the restores that concurrent requests run, under `refresh_lock`, at most one is in flight. */
  lemma GuardedRestoresAreAlone(run: seq<Event>, s: State, i: TaskId, j: TaskId)
    requires Reaches(run, s) && i in s.tasks && j in s.tasks
    ensures GuardedRestore(s.tasks[i]) && GuardedRestore(s.tasks[j]) ==> i == j
  {
    ExecInv(INIT, run);
  }

  lemma RestoreReplayStep(s: State, t: State, i: TaskId, o: Outcome)
    requires !RestoreReplaying(s) && Moves(s, t, i) && SpendEffect(s, t, s.tasks[i], o, t.tasks[i])
    ensures RestoreReplaying(t) <==>
              (LoadsEnvelope(s, Run(i, o)) && s.envelope.value in Spent(s)) || SpendsUnderRestore(s, Run(i, o))
  {
    if RestoreReplaying(t) {
      var j :| j in t.tasks && t.tasks[j].RestoreInFlight? && t.tasks[j].sent in Spent(t);
      assert j != i ==> s.tasks[j] == t.tasks[j];
    }
    if LoadsEnvelope(s, Run(i, o)) && s.envelope.value in Spent(s) {
      assert t.tasks[i].RestoreInFlight? && t.tasks[i].sent in Spent(t);
    }
    if SpendsUnderRestore(s, Run(i, o)) {
      var j :| j in s.tasks && j != i && s.tasks[j].RestoreInFlight? && s.tasks[j].sent == s.tasks[i].sent;
      assert j in t.tasks && t.tasks[j] == s.tasks[j] && t.tasks[j].sent in Spent(t);
    }
  }

  // ----- One renewal per rejected access token ---------------------------------------------

  /** A task reads the refresh token for an access token that has been renewed already, and that
      is no longer the one in memory. */
  predicate RereadsRenewed(s: State, e: Event) {
    && e.Run? && e.outcome == Go && e.i in s.tasks && s.tasks[e.i].RefreshRead?
    && Refresh(s).Some? && Access(s) != Some(s.tasks[e.i].used) && s.tasks[e.i].used in s.renewals
  }

  ghost predicate NeverRereads(s: State, run: seq<Event>)
    decreases |run|
  {
    run == []
    || (!RereadsRenewed(s, run[0]) && (Step(s, run[0]).Some? ==> NeverRereads(Step(s, run[0]).value, run[1..])))
  }

  /** No access token has been renewed twice, nor is about to be. */
  ghost predicate RenewedOnce(s: State) {
    && NoDuplicates(s.renewals)
    && (forall i :: i in s.tasks && s.tasks[i].RefreshInFlight? ==> s.tasks[i].used !in s.renewals)
  }

  lemma RenewedOnceStep(s: State, t: State, i: TaskId, o: Outcome)
    requires Inv(s) && Inv(t) && RenewedOnce(s) && Segment(s, t, i)
    requires t.tasks[i].RefreshInFlight? ==> o == Go && !RereadsRenewed(s, Run(i, o))
    ensures RenewedOnce(t)
  {
  }

  lemma ReadsOnGo(s: State, i: TaskId, o: Outcome)
    requires Step(s, Run(i, o)).Some?
    ensures Step(s, Run(i, o)).value.tasks[i].RefreshInFlight? ==> o == Go
  {
  }

  lemma RenewedOnceAt(s: State, e: Event)
    requires Inv(s) && RenewedOnce(s) && !RereadsRenewed(s, e) && Step(s, e).Some?
    ensures RenewedOnce(Step(s, e).value)
  {
    StepInv(s, e);
    if e.Run? {
      SegmentEffect(s, e.i, e.outcome);
      ReadsOnGo(s, e.i, e.outcome);
      hide Inv, Segment;
      RenewedOnceStep(s, Step(s, e).value, e.i, e.outcome);
    }
  }

  lemma {:induction false} RenewedOnceExec(s: State, run: seq<Event>)
    requires Inv(s) && RenewedOnce(s) && NeverRereads(s, run) && Exec(s, run).Some?
    ensures RenewedOnce(Exec(s, run).value)
    decreases |run|
  {
    hide Inv, RenewedOnce, RereadsRenewed, Step;
    if run != [] {
      StepInv(s, run[0]);
      RenewedOnceAt(s, run[0]);
      RenewedOnceExec(Step(s, run[0]).value, run[1..]);
    }
  }

  /** However many tasks get a 401 on one access token, at most one answered exchange renews it,
      unless a task reads a refresh token for an access token that was renewed and replaced. */
  lemma OneRenewalPerAccessToken(run: seq<Event>, s: State)
    requires Reaches(run, s) && NeverRereads(INIT, run)
    ensures NoDuplicates(s.renewals)
  {
    RenewedOnceExec(INIT, run);
  }

  /** No task retries its request with the access token that was rejected. */
  ghost predicate RetriesMoveOn(s: State) {
    forall i :: i in s.tasks && (s.tasks[i].RefreshPersist? || s.tasks[i].RefreshRetry?) ==>
      s.tasks[i].retry != s.tasks[i].used
  }

  /** A retry uses the token just granted, or another one found in memory. */
  predicate RetryEffect(s: State, a: Pc, b: Pc) {
    && (b.RefreshPersist? ==> a.RefreshReply? && b.used == a.used && b.retry == a.got.access)
    && (b.RefreshRetry? ==>
          || (a.RefreshPersist? && b.used == a.used && b.retry == a.retry)
          || (a.RefreshCheck? && b.used == a.used && b.retry != a.used && Access(s) == Some(b.retry)))
  }

  lemma RetryOf(s: State, i: TaskId, a: Pc, o: Outcome)
    requires RunTask(s, i, a, o).Some?
    ensures RetryEffect(s, a, RunTask(s, i, a, o).value.1)
  {
  }

  lemma KeepsRetries(s: State, t: State, i: TaskId)
    requires Inv(s) && RetriesMoveOn(s) && Moves(s, t, i) && RetryEffect(s, s.tasks[i], t.tasks[i])
    ensures RetriesMoveOn(t)
  {
    var a := s.tasks[i];
    assert a.RefreshReply? ==> a.got.access in Pending(a) && Unused(s, a.got.access) && a.used in s.installed;
  }

  lemma RetriesStep(s: State, e: Event)
    requires Inv(s) && RetriesMoveOn(s) && Step(s, e).Some?
    ensures RetriesMoveOn(Step(s, e).value)
  {
    hide Inv;
    if e.Run? {
      RetryOf(s, e.i, s.tasks[e.i], e.outcome);
      KeepsRetries(s, Step(s, e).value, e.i);
    }
  }

  lemma {:induction false} RetriesExec(s: State, run: seq<Event>)
    requires Inv(s) && RetriesMoveOn(s) && Exec(s, run).Some?
    ensures RetriesMoveOn(Exec(s, run).value)
    decreases |run|
  {
    hide Inv, Step, RetriesMoveOn;
    if run != [] {
      StepInv(s, run[0]);
      RetriesStep(s, run[0]);
      RetriesExec(Step(s, run[0]).value, run[1..]);
    }
  }

  /** In every run, also one with such reads: a 401-arm exchange that read its refresh token
      under the rejected access token is the first for that access token; a waiting task retries
      instead of renewing exactly when it finds another access token in memory, and that one was
      installed after its own; and no task ever retries with the token that was rejected. */
  lemma RenewalsAndRetries(run: seq<Event>, s: State, i: TaskId)
    requires Reaches(run, s) && i in s.tasks
    ensures s.tasks[i].RefreshInFlight? && s.tasks[i].pinned ==> s.tasks[i].used !in s.renewals
    ensures s.tasks[i].RefreshCheck? ==>
              (Step(s, Run(i, Go)).value.tasks[i].RefreshRetry? <==>
                 Access(s).Some? && Access(s) != Some(s.tasks[i].used))
    ensures s.tasks[i].RefreshCheck? && Step(s, Run(i, Go)).value.tasks[i].RefreshRetry? ==>
              && s.installed != [] && s.tasks[i].used in s.installed[..|s.installed| - 1]
              && Step(s, Run(i, Go)).value.tasks[i].retry == s.installed[|s.installed| - 1]
    ensures s.tasks[i].RefreshRetry? ==> s.tasks[i].retry != s.tasks[i].used
  {
    ExecInv(INIT, run);
    RetriesExec(INIT, run);
  }

  // ----- No deadlock on `refresh_lock` -----------------------------------------------------

  /** How many more segments the holder of `refresh_lock` can run before it releases it. */
  function Remaining(pc: Pc): nat {
    match pc
    case RestoreCheck => 5
    case RestoreInFlight(_, _) => 4
    case RestoreReply(_, _) => 3
    case RestorePersist(_) => 2
    case RestoreReread => 1
    case RefreshCheck(_) => 6
    case RefreshRead(_) => 5
    case RefreshInFlight(_, _, _) => 4
    case RefreshReply(_, _) => 3
    case RefreshPersist(_, _) => 2
    case RefreshRetry(_, _) => 1
    case _ => 0
  }

  /** An outcome with which a task that does not wait for the lock can always be resumed. */
  function Forward(pc: Pc): Outcome {
    if pc.RestoreInFlight? || pc.RefreshInFlight? || pc.LoginStart? || pc.PasswordGrant? then Fail else Go
  }

  predicate WaitsForLock(pc: Pc) {
    pc.RestoreWait? || pc.RefreshWait?
  }

  lemma ReleaseComesCloser(s: State, i: TaskId, a: Pc, o: Outcome)
    requires RunTask(s, i, a, o).Some? && Holds(a)
    ensures var r := RunTask(s, i, a, o).value;
            r.0.holder.None? || (r.0.holder == s.holder && Remaining(r.1) < Remaining(a) <= 6)
  {
  }

  lemma OnlyWaitersBlock(s: State, i: TaskId, pc: Pc)
    requires pc != Done && RunTask(s, i, pc, Forward(pc)).None?
    ensures WaitsForLock(pc) && s.holder.Some?
  {
  }

  /** An unfinished task is blocked only while it waits for `refresh_lock` and another task
      holds it; the holder itself never waits for it, and every segment it runs brings the
      release closer, so the lock is passed on after at most six segments of its holder. */
  lemma NoTaskBlocksForever(run: seq<Event>, s: State, i: TaskId)
    requires Reaches(run, s) && i in s.tasks && s.tasks[i] != Done
    ensures Step(s, Run(i, Forward(s.tasks[i]))).None? ==>
              && WaitsForLock(s.tasks[i]) && s.holder.Some? && s.holder.value in s.tasks
              && !WaitsForLock(s.tasks[s.holder.value])
              && Step(s, Run(s.holder.value, Forward(s.tasks[s.holder.value]))).Some?
    ensures forall o :: Holds(s.tasks[i]) && Step(s, Run(i, o)).Some? ==>
              var t := Step(s, Run(i, o)).value;
              t.holder.None? || (t.holder == s.holder && Remaining(t.tasks[i]) < Remaining(s.tasks[i]) <= 6)
  {
    ExecInv(INIT, run);
    if Step(s, Run(i, Forward(s.tasks[i]))).None? {
      OnlyWaitersBlock(s, i, s.tasks[i]);
      var h := s.holder.value;
      if Step(s, Run(h, Forward(s.tasks[h]))).None? {
        OnlyWaitersBlock(s, h, s.tasks[h]);
      }
    }
    forall o | Holds(s.tasks[i]) && Step(s, Run(i, o)).Some?
      ensures var t := Step(s, Run(i, o)).value;
              t.holder.None? || (t.holder == s.holder && Remaining(t.tasks[i]) < Remaining(s.tasks[i]) <= 6)
    {
      ReleaseComesCloser(s, i, s.tasks[i], o);
    }
  }
}
