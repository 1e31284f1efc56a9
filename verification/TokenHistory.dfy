/** Where the tokens in memory and in the envelope come from, over the whole history of a run. */
module TokenHistory {
  import opened Prelude
  import opened TokenRefresh
  import opened TokenSafety

  /** `states` are the states that `run` goes through. */
  ghost predicate Path(run: seq<Event>, states: seq<State>) {
    && |states| == |run| + 1
    && forall k {:trigger run[k]} :: 0 <= k < |run| ==> Step(states[k], run[k]) == Some(states[k + 1])
  }

  /** They start with the agent's start. */
  ghost predicate History(run: seq<Event>, states: seq<State>) {
    Path(run, states) && states[0] == INIT
  }

  /** Every run has a history: what holds at the end of every history holds in every reachable state. */
  lemma RunsHaveHistories(run: seq<Event>, s: State) returns (states: seq<State>)
    requires Reaches(run, s)
    ensures History(run, states) && states[|run|] == s
  {
    states := PathOf(INIT, run);
  }

  lemma {:induction false} PathOf(s: State, run: seq<Event>) returns (states: seq<State>)
    requires Exec(s, run).Some?
    ensures Path(run, states) && states[0] == s && states[|run|] == Exec(s, run).value
    decreases |run|
  {
    hide Step;
    if run == [] {
      states := [s];
    } else {
      var t := Step(s, run[0]).value;
      var rest := PathOf(t, run[1..]);
      states := [s] + rest;
      forall k {:trigger run[k]} | 0 <= k < |run| ensures Step(states[k], run[k]) == Some(states[k + 1]) {
        if k > 0 {
          assert run[k] == run[1..][k - 1] && states[k] == rest[k - 1];
        }
      }
    }
  }

  lemma {:induction false} InvAt(run: seq<Event>, states: seq<State>, n: nat)
    requires History(run, states) && n <= |run|
    ensures Inv(states[n]) && TokensKnown(states[n])
  {
    hide Inv, TokensKnown, Step;
    if n == 0 {
      StartIsKnown();
    } else {
      InvAt(run, states, n - 1);
      assert Step(states[n - 1], run[n - 1]) == Some(states[n]);
      StepInv(states[n - 1], run[n - 1]);
      KnownStep(states[n - 1], run[n - 1]);
    }
  }

  // ----- How the envelope comes to hold a spent token --------------------------------------

  ghost predicate Known(s: State, f: Token) {
    f in s.seen || SavedByLogin(s, f)
  }

  /** Tokens that are spent, in the envelope or submitted by a restore have been in memory, or a
      login has saved them. */
  ghost predicate TokensKnown(s: State) {
    && EnvelopeKnown(s)
    && (forall f :: f in Spent(s) ==> Known(s, f))
    && (forall i :: i in s.tasks && s.tasks[i].RestoreInFlight? ==> Known(s, s.tasks[i].sent))
  }

  lemma StartIsKnown()
    ensures Inv(INIT) && TokensKnown(INIT)
  {
  }

  /** The refresh token in memory is written to the envelope. */
  predicate Persists(s: State, e: Event) {
    && e.Run? && e.outcome == Go && e.i in s.tasks && s.unlocked && Refresh(s).Some?
    && (s.tasks[e.i].RestorePersist? || s.tasks[e.i].RefreshPersist?)
  }

  /** A login writes the refresh token it was granted to the envelope. */
  predicate SavesLogin(s: State, e: Event) {
    e.Run? && e.outcome == Go && e.i in s.tasks && s.tasks[e.i].LoginMinted? && s.tasks[e.i].got.refresh.Some?
  }

  predicate Overwrites(s: State, e: Event) {
    Persists(s, e) || SavesLogin(s, e) || e.ForgetEnvelope?
  }

  /** The token endpoint rotates the token in the envelope away, for whichever task submitted it. */
  predicate AcceptsEnvelope(s: State, e: Event) {
    && e.Run? && (e.outcome == Rotated || e.outcome == Dropped) && e.i in s.tasks
    && (s.tasks[e.i].RestoreInFlight? || s.tasks[e.i].RefreshInFlight?) && s.envelope == Some(s.tasks[e.i].sent)
  }

  /** The envelope is left with a spent token: the one in it is accepted, or a spent one is
      written to it from memory. */
  predicate SpoilsEnvelope(s: State, e: Event) {
    AcceptsEnvelope(s, e) || (Persists(s, e) && Refresh(s).value in Spent(s))
  }

  predicate EnvelopeSpent(s: State) {
    s.envelope.Some? && s.envelope.value in Spent(s)
  }

  /** What a segment makes of the envelope, and that it forgets no token. */
  predicate WriteEffect(s: State, t: State, a: Pc, o: Outcome) {
    && t.envelope == (if (a.RestorePersist? || a.RefreshPersist?) && o == Go && s.unlocked && Refresh(s).Some?
                      then Refresh(s)
                      else if a.LoginMinted? && o == Go && a.got.refresh.Some? then a.got.refresh
                      else s.envelope)
    && s.seen <= t.seen
  }

  lemma WriteOf(s: State, i: TaskId, a: Pc, o: Outcome)
    requires RunTask(s, i, a, o).Some?
    ensures WriteEffect(s, RunTask(s, i, a, o).value.0, a, o)
  {
  }

  lemma StaysKnown(s: State, t: State, i: TaskId, f: Token)
    requires Known(s, f) && Moves(s, t, i) && s.seen <= t.seen && EnvelopeEffect(s, t, s.tasks[i], t.tasks[i])
    ensures Known(t, f)
  {
    if f !in s.seen {
      var j :| j in s.tasks && s.tasks[j].LoginSaved? && s.tasks[j].got.refresh == Some(f);
      assert j != i ==> t.tasks[j] == s.tasks[j];
    }
  }

  lemma KnownSegment(s: State, t: State, i: TaskId, o: Outcome)
    requires Inv(s) && TokensKnown(s) && Moves(s, t, i) && s.seen <= t.seen && EnvelopeKnown(t)
    requires EnvelopeEffect(s, t, s.tasks[i], t.tasks[i]) && SpendEffect(s, t, s.tasks[i], o, t.tasks[i])
    ensures TokensKnown(t)
  {
    hide EnvelopeEffect;
    forall f | f in Spent(t) ensures Known(t, f) {
      assert f in Spent(s) || f == s.tasks[i].sent;
      StaysKnown(s, t, i, f);
    }
    forall j | j in t.tasks && t.tasks[j].RestoreInFlight? ensures Known(t, t.tasks[j].sent) {
      StaysKnown(s, t, i, t.tasks[j].sent);
    }
  }

  lemma KnownOutside(s: State, e: Event)
    requires TokensKnown(s) && !e.Run? && Step(s, e).Some?
    ensures TokensKnown(Step(s, e).value)
  {
    var t := Step(s, e).value;
    assert Spent(t) == Spent(s) && (t.envelope.Some? ==> t.envelope == s.envelope);
    assert t.envelope.Some? ==> Known(s, t.envelope.value);
    forall f | Known(s, f) ensures Known(t, f) {
      if f !in s.seen {
        var i :| i in s.tasks && s.tasks[i].LoginSaved? && s.tasks[i].got.refresh == Some(f);
        assert i in t.tasks && t.tasks[i] == s.tasks[i];
      }
    }
  }

  lemma EffectsOf(s: State, i: TaskId, o: Outcome)
    requires Step(s, Run(i, o)).Some?
    ensures var t := Step(s, Run(i, o)).value;
            && Moves(s, t, i) && s.seen <= t.seen && EnvelopeEffect(s, t, s.tasks[i], t.tasks[i])
            && SpendEffect(s, t, s.tasks[i], o, t.tasks[i])
  {
    TasksOf(s, i, s.tasks[i], o);
    EnvelopeOf(s, i, s.tasks[i], o);
    SpendOf(s, i, s.tasks[i], o);
    hide RunTask;
  }

  lemma KnownStep(s: State, e: Event)
    requires Inv(s) && TokensKnown(s) && Step(s, e).Some?
    ensures TokensKnown(Step(s, e).value)
  {
    if e.Run? {
      var t := Step(s, e).value;
      EffectsOf(s, e.i, e.outcome);
      hide Step, EnvelopeEffect, SpendEffect, Moves;
      EnvelopeStaysKnown(s, t, e.i);
      KnownSegment(s, t, e.i, e.outcome);
    } else {
      KnownOutside(s, e);
    }
  }

  /** The token that a login has been granted and not yet saved is not spent. */
  lemma GrantedIsLive(s: State, e: Event)
    requires Inv(s) && TokensKnown(s) && SavesLogin(s, e)
    ensures s.tasks[e.i].got.refresh.value !in Spent(s)
  {
    var f := s.tasks[e.i].got.refresh.value;
    assert f in Pending(s.tasks[e.i]);
    forall j | j in s.tasks && s.tasks[j].LoginSaved? ensures s.tasks[j].got.refresh != Some(f) {
      if s.tasks[j].got.refresh.Some? {
        assert s.tasks[j].got.refresh.value in Pending(s.tasks[j]);
      }
    }
  }

  lemma EnvelopeStep(s: State, e: Event)
    requires Inv(s) && TokensKnown(s) && Step(s, e).Some?
    ensures EnvelopeSpent(Step(s, e).value) <==> SpoilsEnvelope(s, e) || (EnvelopeSpent(s) && !Overwrites(s, e))
  {
    hide Inv, TokensKnown;
    if e.Run? {
      WriteOf(s, e.i, s.tasks[e.i], e.outcome);
      SpendOf(s, e.i, s.tasks[e.i], e.outcome);
      hide RunTask;
      if SavesLogin(s, e) {
        GrantedIsLive(s, e);
      }
    }
  }

  /** At this place of the run the envelope is left with a spent token. */
  predicate SpoilsAt(run: seq<Event>, states: seq<State>, k: nat)
    requires k < |run| && k < |states|
  {
    SpoilsEnvelope(states[k], run[k])
  }

  /** At this place of the run the envelope is written or deleted. */
  predicate OverwritesAt(run: seq<Event>, states: seq<State>, k: nat)
    requires k < |run| && k < |states|
  {
    Overwrites(states[k], run[k])
  }

  /** A step at some place before `n` left a spent token in the envelope, and none after it has
      written or deleted the envelope. */
  ghost predicate SpoiltBefore(run: seq<Event>, states: seq<State>, n: nat)
    requires n <= |run| && n <= |states|
  {
    exists k: nat :: k < n && SpoilsAt(run, states, k) && forall j: nat :: k < j < n ==> !OverwritesAt(run, states, j)
  }

  lemma SpoiltStep(run: seq<Event>, states: seq<State>, n: nat)
    requires n < |run| && n < |states|
    ensures SpoiltBefore(run, states, n + 1) <==>
              SpoilsAt(run, states, n) || (SpoiltBefore(run, states, n) && !OverwritesAt(run, states, n))
  {
    hide SpoilsAt, OverwritesAt;
    if SpoiltBefore(run, states, n + 1) && !SpoilsAt(run, states, n) {
      var k: nat :| k < n + 1 && SpoilsAt(run, states, k)
                    && forall j: nat :: k < j < n + 1 ==> !OverwritesAt(run, states, j);
      assert k < n && !OverwritesAt(run, states, n);
    }
    if SpoiltBefore(run, states, n) && !OverwritesAt(run, states, n) {
      var k: nat :| k < n && SpoilsAt(run, states, k)
                    && forall j: nat :: k < j < n ==> !OverwritesAt(run, states, j);
      assert forall j: nat :: k < j < n + 1 ==> !OverwritesAt(run, states, j);
    }
  }

  /** The envelope holds a spent token exactly when an exchange of the token in it was accepted, or
      a spent token was written to it from memory, and it has not been written or deleted since. */
  lemma {:induction false} EnvelopeIsSpentExactly(run: seq<Event>, states: seq<State>, n: nat)
    requires History(run, states) && n <= |run|
    ensures EnvelopeSpent(states[n]) <==> SpoiltBefore(run, states, n)
  {
    hide Inv, TokensKnown, Step, Overwrites, SpoilsEnvelope, EnvelopeSpent;
    if n == 0 {
      NothingSpentAtStart();
    } else {
      InvAt(run, states, n - 1);
      assert states[n] == Step(states[n - 1], run[n - 1]).value;
      EnvelopeStep(states[n - 1], run[n - 1]);
      EnvelopeIsSpentExactly(run, states, n - 1);
      SpoiltStep(run, states, n - 1);
      hide SpoiltBefore;
    }
  }

  lemma NothingSpentAtStart()
    ensures !EnvelopeSpent(INIT)
  {
  }

  /** In every run a step puts a spent token in flight for a restore exactly when it loads one from
      an envelope that was left with a spent token, or when the token of a restore is accepted for
      another task. */
  lemma RestoresReplayExactly(run: seq<Event>, states: seq<State>, n: nat)
    requires History(run, states) && n < |run| && !RestoreReplaying(states[n])
    ensures RestoreReplaying(states[n + 1]) <==>
              || (LoadsEnvelope(states[n], run[n]) && SpoiltBefore(run, states, n))
              || SpendsUnderRestore(states[n], run[n])
  {
    assert Step(states[n], run[n]) == Some(states[n + 1]);
    hide Step;
    EnvelopeIsSpentExactly(run, states, n);
    RestoreReplayAt(states[n], run[n]);
  }

  // ----- One restore serves all requests ---------------------------------------------------

  /** Locking and logging out take the tokens out of memory. */
  predicate TakesTokens(e: Event) {
    e.Lock? || e.ClearAccount?
  }

  lemma AccessStep(s: State, e: Event)
    requires Step(s, e).Some?
    ensures var t := Step(s, e).value;
            && (Access(s).Some? && !TakesTokens(e) ==> Access(t).Some?)
            && (t.installed != s.installed ==> e.Run? && Access(t).Some?)
  {
    if e.Run? {
      MemoryOf(s, e.i, s.tasks[e.i], e.outcome);
      hide RunTask;
    }
  }

  /** Once a token is in memory it stays until a lock or a logout: no request, unlock or anything
      else loads the envelope in between, and a request that waited for its turn to restore goes
      ahead with the token that it finds. */
  lemma {:induction false} InstalledTokenIsUsed(run: seq<Event>, states: seq<State>, k: nat, n: nat)
    requires Path(run, states) && k <= n <= |run| && Access(states[k]).Some?
    requires forall j {:trigger run[j]} :: k <= j < n ==> !TakesTokens(run[j])
    ensures Access(states[n]).Some? && (n < |run| ==> !LoadsEnvelope(states[n], run[n]))
    ensures forall i :: i in states[n].tasks && states[n].tasks[i].RestoreCheck? ==>
              Step(states[n], Run(i, Go)) == Some(Put(Release(states[n]), i, Request(Access(states[n]).value)))
    decreases n
  {
    if k < n {
      hide Step, Release, Put;
      InstalledTokenIsUsed(run, states, k, n - 1);
      assert Step(states[n - 1], run[n - 1]) == Some(states[n]);
      AccessStep(states[n - 1], run[n - 1]);
    }
    RestoresTakeTurns(states[n]);
  }

  lemma RestoresTakeTurns(s: State)
    ensures forall i :: i in s.tasks && s.tasks[i].RestoreCheck? && Access(s).Some? ==>
              Step(s, Run(i, Go)) == Some(Put(Release(s), i, Request(Access(s).value)))
  {
  }

  /** Of two restores that load the envelope without a lock or a logout between them, the first has
      not installed a token, nor has anything else. */
  lemma RestoresAreShared(run: seq<Event>, states: seq<State>, k: nat, n: nat)
    requires Path(run, states) && k <= n < |run| && LoadsEnvelope(states[n], run[n])
    requires forall j {:trigger run[j]} :: k <= j < n ==> !TakesTokens(run[j])
    ensures states[n].installed == states[k].installed
  {
    hide Step;
    if states[n].installed != states[k].installed {
      var m := InstallBetween(run, states, k, n);
      assert Step(states[m], run[m]) == Some(states[m + 1]);
      AccessStep(states[m], run[m]);
      InstalledTokenIsUsed(run, states, m + 1, n);
    }
  }

  lemma {:induction false} InstallBetween(run: seq<Event>, states: seq<State>, k: nat, n: nat) returns (m: nat)
    requires Path(run, states) && k <= n <= |run| && states[n].installed != states[k].installed
    ensures k <= m < n && states[m + 1].installed != states[m].installed
  {
    if states[n].installed != states[n - 1].installed {
      m := n - 1;
    } else {
      m := InstallBetween(run, states, k, n - 1);
    }
  }

  // ----- Requests that are rejected without a refresh token --------------------------------

  /** An answer with a refresh token is put into memory. */
  predicate StoresRefresh(s: State, e: Event) {
    && e.Run? && e.outcome == Go && e.i in s.tasks
    && ((s.db.Some? && (s.tasks[e.i].RestoreReply? || s.tasks[e.i].RefreshReply?)) || s.tasks[e.i].LoginSaved?)
    && s.tasks[e.i].got.refresh.Some?
  }

  /** A lock, a logout, or a login that was granted no refresh token. */
  predicate DropsRefresh(s: State, e: Event) {
    || TakesTokens(e)
    || (e.Run? && e.outcome == Go && e.i in s.tasks && s.tasks[e.i].LoginSaved? && s.tasks[e.i].got.refresh.None?)
  }

  lemma RefreshOf(s: State, i: TaskId, a: Pc, o: Outcome)
    requires RunTask(s, i, a, o).Some?
    ensures var stores := ((a.RestoreReply? || a.RefreshReply?) && s.db.Some?) || a.LoginSaved?;
            Refresh(RunTask(s, i, a, o).value.0).Some? <==>
              (stores && a.got.refresh.Some?) || (Refresh(s).Some? && !(a.LoginSaved? && a.got.refresh.None?))
    ensures a.RestoreReply? || a.RefreshReply? || a.LoginSaved? ==> o == Go
  {
  }

  lemma RefreshStep(s: State, e: Event)
    requires Step(s, e).Some?
    ensures Refresh(Step(s, e).value).Some? <==> StoresRefresh(s, e) || (Refresh(s).Some? && !DropsRefresh(s, e))
  {
    if e.Run? {
      RefreshOf(s, e.i, s.tasks[e.i], e.outcome);
      hide RunTask;
    }
  }

  /** At this place of the run a refresh token is stored. */
  predicate StoresAt(run: seq<Event>, states: seq<State>, k: nat)
    requires k < |run| && k < |states|
  {
    StoresRefresh(states[k], run[k])
  }

  /** At this place of the run it is given up. */
  predicate DropsAt(run: seq<Event>, states: seq<State>, k: nat)
    requires k < |run| && k < |states|
  {
    DropsRefresh(states[k], run[k])
  }

  ghost predicate StoredBefore(run: seq<Event>, states: seq<State>, n: nat)
    requires n <= |run| && n <= |states|
  {
    exists k: nat :: k < n && StoresAt(run, states, k) && forall j: nat :: k < j < n ==> !DropsAt(run, states, j)
  }

  lemma StoredStep(run: seq<Event>, states: seq<State>, n: nat)
    requires n < |run| && n < |states|
    ensures StoredBefore(run, states, n + 1) <==>
              StoresAt(run, states, n) || (StoredBefore(run, states, n) && !DropsAt(run, states, n))
  {
    hide StoresAt, DropsAt;
    if StoredBefore(run, states, n + 1) && !StoresAt(run, states, n) {
      var k: nat :| k < n + 1 && StoresAt(run, states, k)
                    && forall j: nat :: k < j < n + 1 ==> !DropsAt(run, states, j);
      assert k < n && !DropsAt(run, states, n);
    }
    if StoredBefore(run, states, n) && !DropsAt(run, states, n) {
      var k: nat :| k < n && StoresAt(run, states, k)
                    && forall j: nat :: k < j < n ==> !DropsAt(run, states, j);
      assert forall j: nat :: k < j < n + 1 ==> !DropsAt(run, states, j);
    }
  }

  /** There is a refresh token in memory exactly when one was stored and no lock, logout or login
      without one has come since. */
  lemma {:induction false} RefreshIsHeldExactly(run: seq<Event>, states: seq<State>, n: nat)
    requires History(run, states) && n <= |run|
    ensures Refresh(states[n]).Some? <==> StoredBefore(run, states, n)
  {
    hide Step, StoresRefresh, DropsRefresh;
    if n > 0 {
      assert states[n] == Step(states[n - 1], run[n - 1]).value;
      RefreshStep(states[n - 1], run[n - 1]);
      RefreshIsHeldExactly(run, states, n - 1);
      StoredStep(run, states, n - 1);
      hide StoredBefore;
    }
  }

  lemma InstalledStep(s: State, e: Event, a: Token)
    requires Step(s, e).Some? && a in Step(s, e).value.installed && a !in s.installed
    ensures Step(s, e).value.installed == s.installed + [a]
  {
    if e.Run? {
      MemoryOf(s, e.i, s.tasks[e.i], e.outcome);
      hide RunTask;
    }
  }

  lemma {:induction false} InstalledAt(run: seq<Event>, states: seq<State>, n: nat, a: Token) returns (k: nat)
    requires History(run, states) && n <= |run| && a in states[n].installed
    ensures k < n && a !in states[k].installed && states[k + 1].installed == states[k].installed + [a]
  {
    hide Step;
    assert Step(states[n - 1], run[n - 1]) == Some(states[n]);
    if a in states[n - 1].installed {
      k := InstalledAt(run, states, n - 1, a);
    } else {
      InstalledStep(states[n - 1], run[n - 1], a);
      k := n - 1;
    }
  }

  /** Without a lock, logout or login between `k` and `n`, memory without a refresh token at `n` has
      been without one all the time. */
  lemma {:induction false} NoneSince(run: seq<Event>, states: seq<State>, k: nat, n: nat)
    requires Path(run, states) && k <= n <= |run| && Refresh(states[n]).None?
    requires forall j :: k <= j < n ==> !DropsRefresh(states[j], run[j])
    ensures forall j :: k <= j <= n ==> Refresh(states[j]).None?
    decreases n
  {
    hide Step, DropsRefresh, StoresRefresh;
    if k < n {
      assert Step(states[n - 1], run[n - 1]) == Some(states[n]);
      RefreshStep(states[n - 1], run[n - 1]);
      NoneSince(run, states, k, n - 1);
    }
  }

  /** The other end of the 401 arm: a task that was rejected with token `used` is refused a new one
      for want of a refresh token only if a lock, a logout or a login without a refresh token came
      after `used` was installed, or there has been no refresh token since it was installed. */
  lemma RefusedWithoutRefreshToken(run: seq<Event>, states: seq<State>, i: TaskId) returns (k: nat)
    requires History(run, states) && i in states[|run|].tasks && states[|run|].tasks[i].RefreshRead?
    requires Step(states[|run|], Run(i, Go)) == Some(Put(Release(states[|run|]), i, Done))
    ensures k < |run| && states[k + 1].installed == states[k].installed + [states[|run|].tasks[i].used]
    ensures || (exists j :: k < j < |run| && DropsRefresh(states[j], run[j]))
            || (forall j :: k < j <= |run| ==> Refresh(states[j]).None?)
  {
    InvAt(run, states, |run|);
    assert Refresh(states[|run|]).None?;
    hide Step, DropsRefresh;
    k := InstalledAt(run, states, |run|, states[|run|].tasks[i].used);
    if forall j :: k < j < |run| ==> !DropsRefresh(states[j], run[j]) {
      NoneSince(run, states, k + 1, |run|);
    }
  }

  // ----- Renewing a renewed access token takes a lock --------------------------------------

  /** No task that is about to read the refresh token was rejected with `a` after `a` was renewed. */
  ghost predicate NotReread(s: State, a: Token) {
    a in s.renewals ==> forall i :: i in s.tasks && s.tasks[i].RefreshRead? ==> s.tasks[i].used != a
  }

  /** A task goes on to read the refresh token only when no other access token is in memory. */
  predicate CheckEffect(s: State, a: Pc, b: Pc) {
    b.RefreshRead? ==> a.RefreshCheck? && b.used == a.used && (Access(s).Some? ==> Access(s) == Some(b.used))
  }

  lemma CheckOf(s: State, i: TaskId, a: Pc, o: Outcome)
    requires RunTask(s, i, a, o).Some?
    ensures CheckEffect(s, a, RunTask(s, i, a, o).value.1)
  {
  }

  lemma NotRereadSegment(s: State, t: State, i: TaskId, a: Token)
    requires Inv(s) && NotReread(s, a) && Access(s).Some?
    requires Segment(s, t, i) && CheckEffect(s, s.tasks[i], t.tasks[i])
    ensures NotReread(t, a)
  {
    assert a in t.renewals && a !in s.renewals ==> s.tasks[i].RefreshInFlight? && t.tasks[i].RefreshReply?;
  }

  lemma NotRereadStep(s: State, e: Event, a: Token)
    requires Inv(s) && NotReread(s, a) && Access(s).Some? && Step(s, e).Some?
    ensures NotReread(Step(s, e).value, a)
  {
    if e.Run? {
      SegmentEffect(s, e.i, e.outcome);
      CheckOf(s, e.i, s.tasks[e.i], e.outcome);
      hide RunTask, Inv, Segment, CheckEffect;
      NotRereadSegment(s, Step(s, e).value, e.i, a);
    }
  }

  /** An access token that is just being installed has not been renewed. */
  lemma FreshlyInstalled(s: State, e: Event, a: Token)
    requires Inv(s) && Step(s, e).Some? && a !in s.installed && Step(s, e).value.installed == s.installed + [a]
    ensures Access(Step(s, e).value).Some? && NotReread(Step(s, e).value, a)
  {
    if e.Run? {
      MemoryOf(s, e.i, s.tasks[e.i], e.outcome);
      ExchangeOf(s, e.i, s.tasks[e.i], e.outcome);
      hide RunTask;
      assert a in Step(s, e).value.installed;
    }
  }

  lemma {:induction false} NotRereadSince(run: seq<Event>, states: seq<State>, k: nat, n: nat, a: Token)
    requires History(run, states) && k < n <= |run|
    requires a !in states[k].installed && states[k + 1].installed == states[k].installed + [a]
    requires forall j {:trigger run[j]} :: k < j < n ==> !TakesTokens(run[j])
    ensures NotReread(states[n], a) && Access(states[n]).Some?
    decreases n
  {
    hide Step, Inv, NotReread;
    InvAt(run, states, n - 1);
    assert Step(states[n - 1], run[n - 1]) == Some(states[n]);
    if n == k + 1 {
      FreshlyInstalled(states[k], run[k], a);
    } else {
      NotRereadSince(run, states, k, n - 1, a);
      AccessStep(states[n - 1], run[n - 1]);
      NotRereadStep(states[n - 1], run[n - 1], a);
    }
  }

  /** A task reads the refresh token for an access token that was renewed and replaced only if a
      lock or a logout came between the installation of that access token and the read. */
  lemma RereadFollowsALock(run: seq<Event>, states: seq<State>, n: nat) returns (k: nat, j: nat)
    requires History(run, states) && n < |run| && RereadsRenewed(states[n], run[n])
    ensures k < j < n && TakesTokens(run[j])
    ensures states[k + 1].installed == states[k].installed + [states[n].tasks[run[n].i].used]
  {
    InvAt(run, states, n);
    var a := states[n].tasks[run[n].i].used;
    k := InstalledAt(run, states, n, a);
    if forall j {:trigger run[j]} :: k < j < n ==> !TakesTokens(run[j]) {
      NotRereadSince(run, states, k, n, a);
      assert false;
    }
    j :| k < j < n && TakesTokens(run[j]);
  }

  /** Without a lock or a logout no access token is renewed twice: a task that waited for
      `refresh_lock` while another renewed its token finds the new one and retries with that. */
  lemma {:induction false} RenewedOnceWithoutLocks(run: seq<Event>, states: seq<State>, n: nat)
    requires History(run, states) && n <= |run|
    requires forall j {:trigger run[j]} :: 0 <= j < n ==> !TakesTokens(run[j])
    ensures RenewedOnce(states[n]) && NoDuplicates(states[n].renewals)
  {
    hide Step, Inv, RereadsRenewed;
    if n > 0 {
      RenewedOnceWithoutLocks(run, states, n - 1);
      InvAt(run, states, n - 1);
      assert Step(states[n - 1], run[n - 1]) == Some(states[n]);
      if RereadsRenewed(states[n - 1], run[n - 1]) {
        var _, _ := RereadFollowsALock(run, states, n - 1);
        assert false;
      }
      RenewedOnceAt(states[n - 1], run[n - 1]);
    }
  }
}
