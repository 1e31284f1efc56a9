/** A sign request that arrives while the vault is locked (`ssh_agent/sign.rs`): it waits on the
    watch channel of the session for an unlock, with a fixed deadline. One waiter is followed
    through every interleaving with the rest of the agent; other waiters touch the shared state
    only by asking for an unlock, which is one of the operations of `AgentRuns`. */
module SignWait {
  import opened Prelude
  import opened Sidebar
  import opened AgentState
  import Agent = AgentRuns

  datatype Outcome = Served | NoSuchKey | TimedOut | LoggedOut

  /** Where the waiter is suspended: before taking the state mutex, or on the watch channel.
      `seen` is the version of the channel it has looked at. */
  datatype Pc = Enter | Waiting(polled: bool, seen: nat) | Finished(outcome: Outcome)

  datatype System = System(
    v: Snapshot,
    version: nat,     // of the watch channel: one more for every value sent into it
    now: nat,
    pc: Pc,
    rounds: nat,      // how often the waiter started to wait
    locks: nat,       // how often the vault was locked since the request arrived
    cleared: bool     // the account was cleared since the last look at the identity cache
  )

  /** What stays fixed: the requested key and the deadline. */
  datatype Request = Request(env: Agent.Env, pubkey: KeyData, deadline: nat)

  datatype Event = Shared(op: Agent.Op) | Advance(ticks: nat) | Run

  function Arrive(v: Snapshot, version: nat, now: nat): System {
    System(v, version, now, Enter, 0, 0, false)
  }

  /** How many values the operation sends into the watch channel. */
  function Sends(v: Snapshot, op: Agent.Op): nat {
    match op
    case Unlock(_, _, _) => 1
    case Login(_, _, _, _) => 1
    case Sync(_, _) => if v.keys.Some? then 1 else 0
    case Edit(_, _) => if v.keys.Some? then 1 else 0
    case Lock => 1
    case ClearAccount => 2
    case _ => 0
  }

  predicate IsLock(op: Agent.Op) {
    op.Lock? || op.ClearAccount?
  }

  function OnShared(r: Request, s: System, op: Agent.Op): System {
    s.(v := Agent.Step(r.env, s.v, op), version := s.version + Sends(s.v, op),
       locks := s.locks + (if IsLock(op) then 1 else 0), cleared := s.cleared || op.ClearAccount?)
  }

  /** The segment under the state mutex. */
  function Check(r: Request, s: System): System {
    if s.v.keys.Some? then s.(pc := Finished(Served))
    else
      var asked := s.(v := Agent.Step(r.env, s.v, Agent.RequestUnlock));
      if !CacheHasPubkey(asked.v.identityCache, r.pubkey) then asked.(pc := Finished(NoSuchKey))
      else if r.deadline <= s.now then asked.(pc := Finished(TimedOut))
      else asked.(pc := Waiting(false, s.version), rounds := s.rounds + 1, cleared := false)
  }

  /** One poll of the wait: the current value of the channel decides first, then the timer. */
  function Poll(r: Request, s: System): System
    requires s.pc.Waiting?
  {
    if s.v.session == SessionLoggedOut then s.(pc := Finished(LoggedOut))
    else if s.v.session == SessionUnlocked then s.(pc := Enter)
    else if r.deadline <= s.now then s.(pc := Finished(TimedOut))
    else s.(pc := Waiting(true, s.version))
  }

  /** The scheduler polls a waiter when it is new, when the channel has a value it has not seen,
      or when its timer has fired. */
  predicate Runnable(r: Request, s: System) {
    s.pc.Enter? || (s.pc.Waiting? && (!s.pc.polled || s.version != s.pc.seen || r.deadline <= s.now))
  }

  function Step(r: Request, s: System, e: Event): Option<System> {
    match e
    case Shared(op) => Some(OnShared(r, s, op))
    case Advance(ticks) => Some(s.(now := s.now + ticks))
    case Run => if !Runnable(r, s) then None else if s.pc.Enter? then Some(Check(r, s)) else Some(Poll(r, s))
  }

  function Exec(r: Request, s: System, run: seq<Event>): Option<System>
    decreases |run|
  {
    if run == [] then Some(s) else
      var t := Step(r, s, run[0]);
      if t.None? then None else Exec(r, t.value, run[1..])
  }

  /** What holds of the waiter at every moment. */
  ghost predicate Inv(r: Request, s: System) {
    && Agent.SessionInv(s.v)
    && s.rounds <= s.locks + 1
    && (s.pc.Enter? && s.v.keys.None? ==> s.rounds <= s.locks)
    && (s.pc.Waiting? ==>
          && s.pc.seen <= s.version
          && (s.pc.polled && s.version == s.pc.seen ==> s.v.session == SessionLocked)
          && (s.v.session == SessionLoggedOut ==> s.cleared))
    && (s.pc == Finished(LoggedOut) ==> s.cleared)
  }

  /** What an operation of the agent does to the session. */
  lemma SharedEffect(env: Agent.Env, v: Snapshot, op: Agent.Op)
    requires Agent.SessionInv(v)
    ensures var w := Agent.Step(env, v, op);
            && Agent.SessionInv(w)
            && (Sends(v, op) == 0 ==> w.session == v.session)
            && (w.session == SessionLoggedOut && v.session != SessionLoggedOut ==> op.ClearAccount?)
            && (w.keys.None? && v.keys.Some? ==> IsLock(op))
  {
    hide Rows, Identities, Deliver;
    Agent.StepSession(env, v, op);
  }

  lemma RequestEffect(env: Agent.Env, v: Snapshot)
    requires Agent.SessionInv(v)
    ensures var w := Agent.Step(env, v, Agent.RequestUnlock);
            Agent.SessionInv(w) && w.keys == v.keys && w.session == v.session && w.identityCache == v.identityCache
  {
    hide Deliver;
    Agent.StepSession(env, v, Agent.RequestUnlock);
  }

  lemma StepInv(r: Request, s: System, e: Event)
    requires Inv(r, s) && Step(r, s, e).Some?
    ensures Inv(r, Step(r, s, e).value)
  {
    hide Agent.Step;
    match e
    case Shared(op) => SharedEffect(r.env, s.v, op);
    case Advance(_) =>
    case Run => RequestEffect(r.env, s.v);
  }

  lemma {:induction false} ExecInv(r: Request, s: System, run: seq<Event>)
    requires Inv(r, s) && Exec(r, s, run).Some?
    ensures Inv(r, Exec(r, s, run).value)
    decreases |run|
  {
    if run != [] {
      StepInv(r, s, run[0]);
      ExecInv(r, Step(r, s, run[0]).value, run[1..]);
    }
  }

  /** `s` is reached by a request that arrived after some run of the agent. */
  ghost predicate Reached(r: Request, before: seq<Agent.Op>, version: nat, now: nat, run: seq<Event>, s: System) {
    Exec(r, Arrive(Agent.Exec(r.env, FRESH, before), version, now), run) == Some(s)
  }

  lemma ReachedInv(r: Request, before: seq<Agent.Op>, version: nat, now: nat, run: seq<Event>, s: System)
    requires Reached(r, before, version, now, run, s)
    ensures Inv(r, s)
  {
    Agent.SessionHolds(r.env, FRESH, before);
    ExecInv(r, Arrive(Agent.Exec(r.env, FRESH, before), version, now), run);
  }

  /** No lost wake-up: an unlock that is in force, or a logout, always makes the waiter
      runnable, and while the unlock is in force the waiter is served within two polls, even
      after its deadline. */
  lemma UnlockIsServed(r: Request, before: seq<Agent.Op>, version: nat, now: nat, run: seq<Event>, s: System)
    requires Reached(r, before, version, now, run, s) && !s.pc.Finished?
    ensures s.v.session != SessionLocked ==> Runnable(r, s)
    ensures s.v.keys.Some? ==>
              && Runnable(r, s)
              && var t := if s.pc.Enter? then s else Step(r, s, Run).value;
                 && t.pc.Enter? && t.v == s.v && Step(r, t, Run).Some?
                 && Step(r, t, Run).value.pc == Finished(Served)
  {
    ReachedInv(r, before, version, now, run, s);
  }

  /** A waiter that finds the vault locked asks for an unlock, unless the subscribers have been
      asked since the last lock, and changes the shared state in no other way. */
  lemma LockedRequestAsks(r: Request, s: System)
    requires s.pc.Enter? && s.v.keys.None?
    ensures Check(r, s).v == Requested(s.v) && Check(r, s).v.unlockNotified
    ensures !Check(r, s).pc.Enter? && Check(r, s).pc != Finished(Served)
    ensures Check(r, s).pc.Waiting? ==> !Check(r, s).cleared
  {
    Agent.RequestsAreOperations(r.env, s.v);
    hide Agent.Step, Deliver;
  }

  /** How a poll ends a request, exactly. It is served when it looks while keys are there, and then
      the database is there as well; it finds no key when it looks while the vault is locked and
      the cache does not list the key; it times out at or after its deadline, while the vault is
      locked and not logged out, and at a look only when the key is listed; and it fails as logged
      out when it waits while no account is there, which was cleared after its last look. */
  lemma OutcomesAreExact(r: Request, before: seq<Agent.Op>, version: nat, now: nat, run: seq<Event>, s: System)
    requires Reached(r, before, version, now, run, s) && !s.pc.Finished? && Runnable(r, s)
    ensures var t := Step(r, s, Run).value;
            var listed := exists id :: id in s.v.identityCache && id.pubkey == r.pubkey;
            && (t.pc == Finished(Served) <==> s.pc.Enter? && s.v.keys.Some?)
            && (t.pc == Finished(NoSuchKey) <==> s.pc.Enter? && s.v.keys.None? && !listed)
            && (t.pc == Finished(TimedOut) <==>
                  s.v.session == SessionLocked && r.deadline <= s.now && (s.pc.Enter? ==> listed))
            && (t.pc == Finished(LoggedOut) <==> s.pc.Waiting? && s.v.session == SessionLoggedOut)
    ensures var t := Step(r, s, Run).value;
            && (t.pc == Finished(Served) ==> s.v.db.Some?)
            && (t.pc == Finished(LoggedOut) ==> s.cleared)
            && (t.pc == Finished(TimedOut) ==> s.v.keys.None?)
  {
    hide Agent.Step;
    ReachedInv(r, before, version, now, run, s);
    RequestEffect(r.env, s.v);
    assert CacheHasPubkey(s.v.identityCache, r.pubkey) ==> s.v.identityCache != [];
  }

  /** The event opens no vault and clears no account. */
  predicate StaysClosed(e: Event) {
    e.Shared? ==> !e.op.Unlock? && !e.op.Login? && !e.op.ClearAccount?
  }

  lemma ClosedStep(r: Request, s: System, e: Event)
    requires s.v.keys.None? && !s.pc.Finished? && StaysClosed(e) && Step(r, s, e).Some?
    requires CacheHasPubkey(s.v.identityCache, r.pubkey)
    ensures var t := Step(r, s, e).value;
            && t.v.keys.None? && t.v.identityCache == s.v.identityCache
            && t.pc != Finished(NoSuchKey) && t.pc != Finished(Served)
  {
    hide Agent.Step;
    match e
    case Shared(op) => Agent.StepKeepsIdentities(r.env, s.v, op);
    case Advance(_) =>
    case Run => Agent.StepKeepsIdentities(r.env, s.v, Agent.RequestUnlock);
  }

  /** A request for a listed key goes on waiting while the vault is not opened and the account not
      cleared: whatever else happens, the key stays listed, and the request cannot end for want of
      the key. */
  lemma {:induction false} ListedKeyStaysListed(r: Request, s: System, run: seq<Event>)
    requires s.v.keys.None? && CacheHasPubkey(s.v.identityCache, r.pubkey)
    requires !s.pc.Finished? && Exec(r, s, run).Some? && forall e :: e in run ==> StaysClosed(e)
    ensures var t := Exec(r, s, run).value;
            && t.v.keys.None? && t.v.identityCache == s.v.identityCache
            && t.pc != Finished(NoSuchKey) && t.pc != Finished(Served)
    decreases |run|
  {
    hide Agent.Step;
    if run != [] {
      assert run[0] in run;
      ClosedStep(r, s, run[0]);
      var t := Step(r, s, run[0]).value;
      if t.pc.Finished? {
        FinishedStays(r, t, run[1..]);
      } else {
        ListedKeyStaysListed(r, t, run[1..]);
      }
    }
  }

  lemma {:induction false} FinishedStays(r: Request, s: System, run: seq<Event>)
    requires s.pc.Finished? && s.v.keys.None? && Exec(r, s, run).Some? && forall e :: e in run ==> StaysClosed(e)
    ensures var t := Exec(r, s, run).value;
            t.pc == s.pc && t.v.keys.None? && t.v.identityCache == s.v.identityCache
    decreases |run|
  {
    hide Agent.Step;
    if run != [] {
      assert run[0] in run;
      if run[0].Shared? {
        Agent.StepKeepsIdentities(r.env, s.v, run[0].op);
      }
      FinishedStays(r, Step(r, s, run[0]).value, run[1..]);
    }
  }

  /** A waiter does not spin: after a poll that leaves it waiting it is not polled again before its
      deadline, until the channel gets another value. */
  lemma WaitsQuietly(r: Request, s: System, others: seq<Event>)
    requires s.pc.Waiting? && Step(r, s, Run).Some? && Step(r, s, Run).value.pc.Waiting?
    requires forall e :: e in others ==> !e.Run?
    ensures var t := Step(r, s, Run).value;
            && Exec(r, t, others).Some?
            && var u := Exec(r, t, others).value;
               u.version == t.version && u.now < r.deadline ==> !Runnable(r, u)
  {
    hide Agent.Step;
    OthersKeepPc(r, Step(r, s, Run).value, others);
  }

  /** What the agent does in a step; a look while the vault is locked asks for an unlock. */
  function OpsOf(s: System, e: Event): seq<Agent.Op> {
    match e
    case Shared(op) => [op]
    case Advance(_) => []
    case Run => if s.pc.Enter? && s.v.keys.None? then [Agent.RequestUnlock] else []
  }

  function AgentRun(r: Request, s: System, run: seq<Event>): seq<Agent.Op>
    requires Exec(r, s, run).Some?
    decreases |run|
  {
    if run == [] then [] else OpsOf(s, run[0]) + AgentRun(r, Step(r, s, run[0]).value, run[1..])
  }

  lemma StepAsks(r: Request, s: System, e: Event, rest: seq<Agent.Op>)
    requires Step(r, s, e).Some?
    ensures Agent.Exec(r.env, s.v, OpsOf(s, e) + rest) == Agent.Exec(r.env, Step(r, s, e).value.v, rest)
  {
    hide Agent.Step;
    if OpsOf(s, e) == [] {
      assert OpsOf(s, e) + rest == rest;
    } else {
      assert (OpsOf(s, e) + rest)[1..] == rest;
    }
  }

  /** The time that passes in a run. */
  function Ticks(run: seq<Event>): nat {
    if run == [] then 0 else (if run[0].Advance? then run[0].ticks else 0) + Ticks(run[1..])
  }

  /** The waiter touches the shared state only by asking for an unlock when it looks while the vault
      is locked: what the agent goes through is a run of `AgentRuns` with these requests. */
  lemma {:induction false} WaiterOnlyAsks(r: Request, s: System, run: seq<Event>)
    requires Exec(r, s, run).Some?
    ensures Exec(r, s, run).value.v == Agent.Exec(r.env, s.v, AgentRun(r, s, run))
    ensures Exec(r, s, run).value.now == s.now + Ticks(run)
    decreases |run|
  {
    hide Agent.Step, Agent.Exec;
    if run == [] {
      NoOps(r.env, s.v);
    } else {
      var t := Step(r, s, run[0]).value;
      WaiterOnlyAsks(r, t, run[1..]);
      StepAsks(r, s, run[0], AgentRun(r, t, run[1..]));
    }
  }

  lemma NoOps(env: Agent.Env, v: Snapshot)
    ensures Agent.Exec(env, v, []) == v
  {
  }

  /** A waiter starts to wait at most once more than the vault has been locked since the request
      arrived. */
  lemma RoundsAreBounded(r: Request, before: seq<Agent.Op>, version: nat, now: nat, run: seq<Event>, s: System)
    requires Reached(r, before, version, now, run, s)
    ensures WaitsIn(r, Arrive(Agent.Exec(r.env, FRESH, before), version, now), run) <= 1 + LocksIn(run)
  {
    ReachedInv(r, before, version, now, run, s);
    LocksCount(r, Arrive(Agent.Exec(r.env, FRESH, before), version, now), run);
  }

  /** How often the waiter starts to wait in a run. */
  function WaitsIn(r: Request, s: System, run: seq<Event>): nat
    requires Exec(r, s, run).Some?
    decreases |run|
  {
    if run == [] then 0
    else
      (if s.pc.Enter? && Step(r, s, run[0]).value.pc.Waiting? then 1 else 0)
      + WaitsIn(r, Step(r, s, run[0]).value, run[1..])
  }

  function LocksIn(run: seq<Event>): nat {
    if run == [] then 0 else (if run[0].Shared? && IsLock(run[0].op) then 1 else 0) + LocksIn(run[1..])
  }

  lemma {:induction false} LocksCount(r: Request, s: System, run: seq<Event>)
    requires Exec(r, s, run).Some?
    ensures Exec(r, s, run).value.locks == s.locks + LocksIn(run)
    ensures Exec(r, s, run).value.rounds == s.rounds + WaitsIn(r, s, run)
    decreases |run|
  {
    hide Agent.Step;
    if run != [] {
      LocksCount(r, Step(r, s, run[0]).value, run[1..]);
    }
  }

  /** The deadline binds: from then on the waiter is runnable, and whatever the rest of the agent
      does, its second poll at the latest ends the request. */
  lemma DeadlineBinds(r: Request, s: System, others: seq<Event>)
    requires r.deadline <= s.now && !s.pc.Finished?
    requires forall e :: e in others ==> !e.Run?
    ensures Runnable(r, s)
    ensures var t := Step(r, s, Run).value;
            t.pc.Finished? || (t.pc.Enter? && Exec(r, t, others).Some?
                               && Step(r, Exec(r, t, others).value, Run).Some?
                               && Step(r, Exec(r, t, others).value, Run).value.pc.Finished?)
  {
    hide Agent.Step;
    var t := Step(r, s, Run).value;
    if t.pc.Enter? {
      OthersKeepPc(r, t, others);
    }
  }

  lemma {:induction false} OthersKeepPc(r: Request, s: System, run: seq<Event>)
    requires forall e :: e in run ==> !e.Run?
    ensures Exec(r, s, run).Some? && Exec(r, s, run).value.pc == s.pc && s.now <= Exec(r, s, run).value.now
    ensures s.version <= Exec(r, s, run).value.version
    decreases |run|
  {
    hide Agent.Step;
    if run != [] {
      assert run[0] in run;
      OthersKeepPc(r, Step(r, s, run[0]).value, run[1..]);
    }
  }
}
