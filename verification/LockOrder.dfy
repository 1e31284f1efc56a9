/** How the agent's tasks take their two mutexes: the state mutex and `refresh_lock`. A handler
    is, on each of its paths, a sequence of lock operations and of awaits on something outside
    the locks. Here the keyring may be on, so the state mutex can be held across an await. */
module LockOrder {
  import opened Prelude

  datatype Mutex = RefreshLock | StateMutex

  /** What a task awaits besides a mutex. The keyring and the network answer or fail by
      themselves; the watch channel and the timer depend on other tasks or on time passing. */
  datatype Wait = Network | Keyring | Watch | Timer | Client

  datatype Op = Acquire(m: Mutex) | Release(m: Mutex) | Await(w: Wait)

  type TaskId = nat

  datatype System = System(holder: map<Mutex, TaskId>, tasks: map<TaskId, seq<Op>>)

  const INIT := System(map[], map[])

  datatype Event = Spawn(i: TaskId, program: seq<Op>) | Run(i: TaskId)

  function Step(s: System, e: Event): Option<System> {
    match e
    case Spawn(i, program) => if i in s.tasks then None else Some(s.(tasks := s.tasks[i := program]))
    case Run(i) =>
      if i !in s.tasks || s.tasks[i] == [] then None
      else
        var rest := s.tasks[i := s.tasks[i][1..]];
        match s.tasks[i][0]
        case Acquire(m) => if m in s.holder then None else Some(System(s.holder[m := i], rest))
        case Release(m) => Some(System(s.holder - {m}, rest))
        case Await(_) => Some(System(s.holder, rest))
  }

  function Exec(s: System, run: seq<Event>): Option<System>
    decreases |run|
  {
    if run == [] then Some(s) else
      var t := Step(s, run[0]);
      if t.None? then None else Exec(t.value, run[1..])
  }

  // ----- The discipline --------------------------------------------------------------------

  function Next(held: set<Mutex>, op: Op): set<Mutex> {
    match op
    case Acquire(m) => held + {m}
    case Release(m) => held - {m}
    case Await(_) => held
  }

  /** A task that holds `held` may do this next: nothing is acquired while the state mutex is
      held, nothing twice, and with the state mutex only the keyring is awaited. */
  predicate Allowed(held: set<Mutex>, op: Op) {
    match op
    case Acquire(m) => StateMutex !in held && m !in held
    case Release(m) => m in held
    case Await(w) => StateMutex in held ==> w == Keyring
  }

  /** The program is allowed from `held` on, and ends with `after` held. */
  predicate Leads(held: set<Mutex>, program: seq<Op>, after: set<Mutex>)
    decreases |program|
  {
    if program == [] then held == after
    else Allowed(held, program[0]) && Leads(Next(held, program[0]), program[1..], after)
  }

  predicate Disciplined(program: seq<Op>) {
    Leads({}, program, {})
  }

  function HeldBy(s: System, i: TaskId): set<Mutex> {
    set m | m in s.holder && s.holder[m] == i
  }

  ghost predicate Inv(s: System) {
    && (forall m :: m in s.holder ==> s.holder[m] in s.tasks)
    && (forall i :: i in s.tasks ==> Leads(HeldBy(s, i), s.tasks[i], {}))
  }

  predicate SpawnsDisciplined(run: seq<Event>) {
    forall e :: e in run && e.Spawn? ==> Disciplined(e.program)
  }

  lemma StepInv(s: System, e: Event)
    requires Inv(s) && Step(s, e).Some? && (e.Spawn? ==> Disciplined(e.program))
    ensures Inv(Step(s, e).value)
  {
    var t := Step(s, e).value;
    if e.Spawn? {
      assert HeldBy(s, e.i) == {};
    }
    forall i | i in t.tasks ensures Leads(HeldBy(t, i), t.tasks[i], {}) {
      if e.Spawn? || i != e.i {
        assert HeldBy(t, i) == HeldBy(s, i) by {
          if e.Run? && s.tasks[e.i][0].Release? {
            assert s.tasks[e.i][0].m in HeldBy(s, e.i);
          }
        }
      } else {
        assert HeldBy(t, i) == Next(HeldBy(s, i), s.tasks[i][0]);
      }
    }
  }

  lemma {:induction false} ExecInv(s: System, run: seq<Event>)
    requires Inv(s) && Exec(s, run).Some? && SpawnsDisciplined(run)
    ensures Inv(Exec(s, run).value)
    decreases |run|
  {
    if run != [] {
      assert run[0] in run;
      StepInv(s, run[0]);
      ExecInv(Step(s, run[0]).value, run[1..]);
    }
  }

  predicate Blocked(s: System, i: TaskId) {
    i in s.tasks && s.tasks[i] != [] && Step(s, Run(i)).None?
  }

  /** The task that holds the mutex a blocked task wants. */
  function Blocker(s: System, i: TaskId): TaskId
    requires Blocked(s, i)
  {
    s.holder[s.tasks[i][0].m]
  }

  predicate HoldsState(s: System, i: TaskId) {
    StateMutex in s.holder && s.holder[StateMutex] == i
  }

  /** No deadlock: in every reachable state a task that holds the state mutex can run; a blocked
      task waits for another one, which either can run or waits for the state mutex, whose
      holder can run; and such a task never waits for the watch channel or the timer. */
  lemma NoDeadlock(run: seq<Event>, s: System, i: TaskId)
    requires Exec(INIT, run) == Some(s) && SpawnsDisciplined(run) && i in s.tasks
    ensures HoldsState(s, i) ==> s.tasks[i] != [] && Step(s, Run(i)).Some?
    ensures HoldsState(s, i) ==> !(s.tasks[i][0].Await? && s.tasks[i][0].w != Keyring)
    ensures Blocked(s, i) ==>
              var h := Blocker(s, i);
              && h != i && h in s.tasks && s.tasks[h] != []
              && (Step(s, Run(h)).Some?
                  || (&& Blocked(s, h) && s.tasks[h][0] == Acquire(StateMutex)
                      && Blocker(s, h) != i && Blocker(s, h) != h && Step(s, Run(Blocker(s, h))).Some?))
  {
    ExecInv(INIT, run);
    if HoldsState(s, i) {
      HolderRuns(s, i);
    }
    if Blocked(s, i) {
      var m := s.tasks[i][0].m;
      var h := Blocker(s, i);
      assert m in HeldBy(s, h) && m !in HeldBy(s, i);
      if m == StateMutex {
        HolderRuns(s, h);
      } else if Step(s, Run(h)).None? {
        assert s.tasks[h][0] == Acquire(StateMutex);
        HolderRuns(s, Blocker(s, h));
      }
    }
  }

  lemma HolderRuns(s: System, i: TaskId)
    requires Inv(s) && HoldsState(s, i)
    ensures i in s.tasks && s.tasks[i] != [] && Step(s, Run(i)).Some?
    ensures !s.tasks[i][0].Acquire? && (s.tasks[i][0].Await? ==> s.tasks[i][0].w == Keyring)
  {
    assert StateMutex in HeldBy(s, i);
  }

  // ----- The handlers ----------------------------------------------------------------------

  const LOOK: seq<Op> := [Acquire(StateMutex), Release(StateMutex)]

  /** A look at, or change of, the state that asks the keyring while it holds the mutex. */
  function LookWithKeyring(keyring: bool): seq<Op> {
    if keyring then [Acquire(StateMutex), Await(Keyring), Release(StateMutex)] else LOOK
  }

  function Guarded(program: seq<Op>): seq<Op> {
    [Acquire(RefreshLock)] + program + [Release(RefreshLock)]
  }

  const REQUEST: seq<Op> := [Await(Network)]

  /** How a restore fares with the stored refresh token, and with the password grant that only an
      unlock with the master password can try after it. */
  datatype Stored = Missing | Accepted | Refused

  datatype Grant = NotTried | GrantAccepted | GrantRefused

  /** `adopt_tokens`: keyring, store, persist. */
  function Adopt(keyring: bool): seq<Op> {
    (if keyring then [Await(Keyring)] else []) + (LOOK + LOOK)
  }

  function PasswordGrant(keyring: bool, grant: Grant): seq<Op> {
    match grant
    case NotTried => []
    case GrantAccepted => REQUEST + Adopt(keyring)
    case GrantRefused => REQUEST
  }

  /** `restore_session`. */
  function Restore(keyring: bool, stored: Stored, grant: Grant): seq<Op> {
    match stored
    case Missing => PasswordGrant(keyring, grant)
    case Accepted => REQUEST + Adopt(keyring)
    case Refused => REQUEST + PasswordGrant(keyring, grant)
  }

  /** Where `with_refresh` gets its access token (after a restore it looks once more, and may
      find nothing), and how the request fares. */
  datatype Source = Found | NotOpened | Already | Restored | NothingLeft | NotRestored(stored: Stored)

  datatype Fate = Answered | Moved | NoRefreshToken | Exchanged | NotExchanged

  function TokenPath(keyring: bool, source: Source): seq<Op> {
    LookWithKeyring(keyring)
    + match source
      case Found => []
      case NotOpened => []
      case Already => Guarded(LOOK)
      case Restored => Guarded(LOOK + (Restore(keyring, Accepted, NotTried) + LOOK))
      case NothingLeft => Guarded(LOOK + (Restore(keyring, Accepted, NotTried) + LOOK))
      case NotRestored(stored) => Guarded(LOOK + Restore(keyring, stored, NotTried))
  }

  function RequestPath(keyring: bool, fate: Fate): seq<Op> {
    REQUEST
    + match fate
      case Answered => []
      case Moved => Guarded(LOOK + REQUEST)
      case NoRefreshToken => Guarded(LOOK + LOOK)
      case Exchanged => Guarded((LOOK + LOOK) + (REQUEST + (LookWithKeyring(keyring) + (LOOK + REQUEST))))
      case NotExchanged => Guarded((LOOK + LOOK) + REQUEST)
  }

  /** `with_refresh` on one of its paths. */
  function WithRefresh(keyring: bool, source: Source, fate: Fate): seq<Op> {
    TokenPath(keyring, source)
    + (if source.NotOpened? || source.NothingLeft? || source.NotRestored? then [] else RequestPath(keyring, fate))
  }

  /** What request handlers are made of: a look at the state or a change of it, such a look that
      asks the keyring meanwhile, a question to the keyring or a call to the server without the
      mutex, a request through `with_refresh`, and a session restore. A sync is a look, a
      `with_refresh` and a look; an edit is looks, a `with_refresh` and a sync; an unlock asks
      the keyring, looks, restores and looks; a login calls out, asks the keyring and looks. */
  datatype Part =
    | Look | LookAtKeyring | AskKeyring | CallOut
    | Refreshing(source: Source, fate: Fate)
    | Restoring(stored: Stored, grant: Grant)

  function PartProgram(keyring: bool, part: Part): seq<Op> {
    match part
    case Look => LOOK
    case LookAtKeyring => LookWithKeyring(keyring)
    case AskKeyring => [Await(Keyring)]
    case CallOut => REQUEST
    case Refreshing(source, fate) => WithRefresh(keyring, source, fate)
    case Restoring(stored, grant) => Restore(keyring, stored, grant)
  }

  function Handler(keyring: bool, parts: seq<Part>): seq<Op> {
    if parts == [] then [] else PartProgram(keyring, parts[0]) + Handler(keyring, parts[1..])
  }

  /** A connection that reads, handles and answers these requests, one after the other, and then
      becomes a subscriber. */
  function Connection(keyring: bool, requests: seq<seq<Part>>): seq<Op> {
    if requests == [] then [Await(Client)] + (LOOK + [Await(Client)])
    else [Await(Client)] + (Handler(keyring, requests[0]) + ([Await(Client)] + Connection(keyring, requests[1..])))
  }

  /** `sign_request` with so many rounds of waiting. */
  function Sign(rounds: nat): seq<Op> {
    if rounds == 0 then LOOK else LOOK + ([Await(Watch)] + Sign(rounds - 1))
  }

  /** The timer loop for so many rounds, locking the vault in each. */
  function TimerLoop(rounds: nat): seq<Op> {
    if rounds == 0 then [] else [Await(Timer)] + (LOOK + TimerLoop(rounds - 1))
  }

  lemma {:induction false} LeadsThrough(held: set<Mutex>, p: seq<Op>, middle: set<Mutex>, q: seq<Op>, after: set<Mutex>)
    requires Leads(held, p, middle) && Leads(middle, q, after)
    ensures Leads(held, p + q, after)
    decreases |p|
  {
    if p == [] {
      assert p + q == q;
    } else {
      assert (p + q)[1..] == p[1..] + q;
      LeadsThrough(Next(held, p[0]), p[1..], middle, q, after);
    }
  }

  lemma OneLeads(held: set<Mutex>, op: Op)
    requires Allowed(held, op)
    ensures Leads(held, [op], Next(held, op))
  {
    assert [op][1..] == [];
  }

  /** The program can run while `held` is held, and leaves it held. */
  predicate Neutral(held: set<Mutex>, program: seq<Op>) {
    Leads(held, program, held)
  }

  lemma Both(held: set<Mutex>, p: seq<Op>, q: seq<Op>)
    requires Neutral(held, p) && Neutral(held, q)
    ensures Neutral(held, p + q)
  {
    LeadsThrough(held, p, held, q, held);
  }

  lemma WaitIsNeutral(held: set<Mutex>, w: Wait)
    requires StateMutex !in held
    ensures Neutral(held, [Await(w)])
  {
    OneLeads(held, Await(w));
  }

  lemma LookIsNeutral(held: set<Mutex>, keyring: bool)
    requires StateMutex !in held
    ensures Neutral(held, LOOK) && Neutral(held, LookWithKeyring(keyring))
  {
    var locked := held + {StateMutex};
    assert locked - {StateMutex} == held;
    OneLeads(locked, Release(StateMutex));
    assert LOOK[1..] == [Release(StateMutex)];
    assert Leads(held, LOOK, held);
    if keyring {
      var rest := [Await(Keyring), Release(StateMutex)];
      assert rest[1..] == [Release(StateMutex)] && LookWithKeyring(keyring)[1..] == rest;
      assert Leads(locked, rest, held);
    }
  }

  lemma GuardedIsNeutral(program: seq<Op>)
    requires Neutral({RefreshLock}, program)
    ensures Neutral({}, Guarded(program))
  {
    OneLeads({}, Acquire(RefreshLock));
    OneLeads({RefreshLock}, Release(RefreshLock));
    LeadsThrough({}, [Acquire(RefreshLock)], {RefreshLock}, program, {RefreshLock});
    LeadsThrough({}, [Acquire(RefreshLock)] + program, {RefreshLock}, [Release(RefreshLock)], {});
  }

  lemma GrantIsNeutral(held: set<Mutex>, keyring: bool, grant: Grant)
    requires StateMutex !in held
    ensures Neutral(held, REQUEST + Adopt(keyring)) && Neutral(held, PasswordGrant(keyring, grant))
  {
    WaitIsNeutral(held, Network);
    WaitIsNeutral(held, Keyring);
    LookIsNeutral(held, keyring);
    Both(held, LOOK, LOOK);
    Both(held, if keyring then [Await(Keyring)] else [], LOOK + LOOK);
    Both(held, REQUEST, Adopt(keyring));
  }

  lemma RestoreIsNeutral(held: set<Mutex>, keyring: bool, stored: Stored, grant: Grant)
    requires StateMutex !in held
    ensures Neutral(held, Restore(keyring, stored, grant))
  {
    GrantIsNeutral(held, keyring, grant);
    WaitIsNeutral(held, Network);
    Both(held, REQUEST, PasswordGrant(keyring, grant));
  }

  lemma TokenPathIsNeutral(keyring: bool, source: Source)
    ensures Neutral({}, TokenPath(keyring, source))
  {
    var r := {RefreshLock};
    var stored := if source.NotRestored? then source.stored else Accepted;
    LookIsNeutral({}, keyring);
    LookIsNeutral(r, keyring);
    RestoreIsNeutral(r, keyring, stored, NotTried);
    Both(r, Restore(keyring, stored, NotTried), LOOK);
    Both(r, LOOK, Restore(keyring, stored, NotTried) + LOOK);
    Both(r, LOOK, Restore(keyring, stored, NotTried));
    var program :=
      if source.Already? then LOOK
      else if source.NotRestored? then LOOK + Restore(keyring, stored, NotTried)
      else LOOK + (Restore(keyring, stored, NotTried) + LOOK);
    GuardedIsNeutral(program);
    hide Leads, Guarded, Restore, LookWithKeyring;
    if source.Found? || source.NotOpened? {
      assert TokenPath(keyring, source) == LookWithKeyring(keyring);
    } else {
      Both({}, LookWithKeyring(keyring), Guarded(program));
    }
  }

  lemma ExchangeIsNeutral(keyring: bool)
    ensures Neutral({RefreshLock}, (LOOK + LOOK) + (REQUEST + (LookWithKeyring(keyring) + (LOOK + REQUEST))))
  {
    var r := {RefreshLock};
    LookIsNeutral(r, keyring);
    WaitIsNeutral(r, Network);
    hide Leads, LookWithKeyring;
    Both(r, LOOK, REQUEST);
    Both(r, LookWithKeyring(keyring), LOOK + REQUEST);
    Both(r, REQUEST, LookWithKeyring(keyring) + (LOOK + REQUEST));
    Both(r, LOOK, LOOK);
    Both(r, LOOK + LOOK, REQUEST + (LookWithKeyring(keyring) + (LOOK + REQUEST)));
  }

  lemma RequestPathIsNeutral(keyring: bool, fate: Fate)
    ensures Neutral({}, RequestPath(keyring, fate))
  {
    var r := {RefreshLock};
    LookIsNeutral(r, keyring);
    WaitIsNeutral(r, Network);
    WaitIsNeutral({}, Network);
    ExchangeIsNeutral(keyring);
    hide Leads, Guarded, LookWithKeyring;
    var program :=
      match fate
      case Answered => []
      case Moved => LOOK + REQUEST
      case NoRefreshToken => LOOK + LOOK
      case Exchanged => (LOOK + LOOK) + (REQUEST + (LookWithKeyring(keyring) + (LOOK + REQUEST)))
      case NotExchanged => (LOOK + LOOK) + REQUEST;
    if fate.Answered? {
      assert RequestPath(keyring, fate) == REQUEST;
    } else {
      Both(r, LOOK, REQUEST);
      Both(r, LOOK, LOOK);
      Both(r, LOOK + LOOK, REQUEST);
      GuardedIsNeutral(program);
      Both({}, REQUEST, Guarded(program));
    }
  }

  lemma WithRefreshIsNeutral(keyring: bool, source: Source, fate: Fate)
    ensures Neutral({}, WithRefresh(keyring, source, fate))
  {
    TokenPathIsNeutral(keyring, source);
    RequestPathIsNeutral(keyring, fate);
    hide Leads;
    Both({}, TokenPath(keyring, source), RequestPath(keyring, fate));
    assert TokenPath(keyring, source) + [] == TokenPath(keyring, source);
  }

  lemma PartIsNeutral(keyring: bool, part: Part)
    ensures Neutral({}, PartProgram(keyring, part))
  {
    match part
    case Look => LookIsNeutral({}, keyring);
    case LookAtKeyring => LookIsNeutral({}, keyring);
    case AskKeyring => WaitIsNeutral({}, Keyring);
    case CallOut => WaitIsNeutral({}, Network);
    case Refreshing(source, fate) => WithRefreshIsNeutral(keyring, source, fate);
    case Restoring(stored, grant) => RestoreIsNeutral({}, keyring, stored, grant);
  }

  lemma {:induction false} HandlerIsNeutral(keyring: bool, parts: seq<Part>)
    ensures Neutral({}, Handler(keyring, parts))
  {
    if parts != [] {
      PartIsNeutral(keyring, parts[0]);
      HandlerIsNeutral(keyring, parts[1..]);
      Both({}, PartProgram(keyring, parts[0]), Handler(keyring, parts[1..]));
    }
  }

  lemma {:induction false} ConnectionIsNeutral(keyring: bool, requests: seq<seq<Part>>)
    ensures Neutral({}, Connection(keyring, requests))
  {
    WaitIsNeutral({}, Client);
    LookIsNeutral({}, false);
    hide Leads;
    if requests == [] {
      Both({}, LOOK, [Await(Client)]);
      Both({}, [Await(Client)], LOOK + [Await(Client)]);
    } else {
      var rest := Connection(keyring, requests[1..]);
      HandlerIsNeutral(keyring, requests[0]);
      ConnectionIsNeutral(keyring, requests[1..]);
      Both({}, [Await(Client)], rest);
      Both({}, Handler(keyring, requests[0]), [Await(Client)] + rest);
      Both({}, [Await(Client)], Handler(keyring, requests[0]) + ([Await(Client)] + rest));
    }
  }

  lemma {:induction false} LoopsAreNeutral(rounds: nat)
    ensures Neutral({}, Sign(rounds)) && Neutral({}, TimerLoop(rounds))
  {
    LookIsNeutral({}, false);
    WaitIsNeutral({}, Watch);
    WaitIsNeutral({}, Timer);
    if rounds > 0 {
      LoopsAreNeutral(rounds - 1);
      hide Leads;
      Both({}, [Await(Watch)], Sign(rounds - 1));
      Both({}, LOOK, [Await(Watch)] + Sign(rounds - 1));
      Both({}, LOOK, TimerLoop(rounds - 1));
      Both({}, [Await(Timer)], LOOK + TimerLoop(rounds - 1));
    }
  }

  // ----- Refreshes one at a time -----------------------------------------------------------

  /** How many calls to the server the program makes while `refresh_lock` is not held. */
  function Unguarded(held: set<Mutex>, program: seq<Op>): nat
    decreases |program|
  {
    if program == [] then 0
    else (if program[0] == Await(Network) && RefreshLock !in held then 1 else 0)
         + Unguarded(Next(held, program[0]), program[1..])
  }

  lemma {:induction false} UnguardedParts(held: set<Mutex>, p: seq<Op>, middle: set<Mutex>, q: seq<Op>)
    requires Leads(held, p, middle)
    ensures Unguarded(held, p + q) == Unguarded(held, p) + Unguarded(middle, q)
    decreases |p|
  {
    if p == [] {
      assert p + q == q;
    } else {
      assert (p + q)[1..] == p[1..] + q;
      UnguardedParts(Next(held, p[0]), p[1..], middle, q);
    }
  }

  lemma {:induction false} InsideIsGuarded(held: set<Mutex>, program: seq<Op>)
    requires RefreshLock in held && Release(RefreshLock) !in program
    ensures Unguarded(held, program) == 0
    decreases |program|
  {
    if program != [] {
      InsideIsGuarded(Next(held, program[0]), program[1..]);
    }
  }

  lemma {:induction false} LocalIsGuarded(held: set<Mutex>, program: seq<Op>)
    requires Await(Network) !in program
    ensures Unguarded(held, program) == 0
    decreases |program|
  {
    if program != [] {
      LocalIsGuarded(Next(held, program[0]), program[1..]);
    }
  }

  lemma GuardedCallsNobody(program: seq<Op>)
    requires Release(RefreshLock) !in program
    ensures Unguarded({}, Guarded(program)) == 0
  {
    var rest := program + [Release(RefreshLock)];
    assert Guarded(program)[1..] == rest && Guarded(program)[0] == Acquire(RefreshLock);
    InsideThenRelease({RefreshLock}, program);
    assert {} + {RefreshLock} == {RefreshLock};
  }

  lemma {:induction false} InsideThenRelease(held: set<Mutex>, program: seq<Op>)
    requires RefreshLock in held && Release(RefreshLock) !in program
    ensures Unguarded(held, program + [Release(RefreshLock)]) == 0
    decreases |program|
  {
    if program == [] {
      assert (program + [Release(RefreshLock)])[1..] == [];
    } else {
      assert (program + [Release(RefreshLock)])[1..] == program[1..] + [Release(RefreshLock)];
      InsideThenRelease(Next(held, program[0]), program[1..]);
    }
  }

  lemma RestoreKeepsLock(keyring: bool, stored: Stored, grant: Grant)
    ensures Release(RefreshLock) !in Restore(keyring, stored, grant)
  {
  }

  lemma TokenPathCallsNobody(keyring: bool, source: Source)
    ensures Unguarded({}, TokenPath(keyring, source)) == 0
  {
    var stored := if source.NotRestored? then source.stored else Accepted;
    RestoreKeepsLock(keyring, stored, NotTried);
    LookIsNeutral({}, keyring);
    LocalIsGuarded({}, LookWithKeyring(keyring));
    var program :=
      if source.Already? then LOOK
      else if source.NotRestored? then LOOK + Restore(keyring, stored, NotTried)
      else LOOK + (Restore(keyring, stored, NotTried) + LOOK);
    GuardedCallsNobody(program);
    var rest := if source.Found? || source.NotOpened? then [] else Guarded(program);
    UnguardedParts({}, LookWithKeyring(keyring), {}, rest);
    hide Leads, Guarded, Restore, LookWithKeyring, Unguarded;
    LocalIsGuarded({}, []);
  }

  lemma RequestPathCallsOnce(keyring: bool, fate: Fate)
    ensures Unguarded({}, RequestPath(keyring, fate)) == 1
  {
    WaitIsNeutral({}, Network);
    assert REQUEST[1..] == [] && Unguarded({}, REQUEST) == 1;
    var program :=
      match fate
      case Answered => []
      case Moved => LOOK + REQUEST
      case NoRefreshToken => LOOK + LOOK
      case Exchanged => (LOOK + LOOK) + (REQUEST + (LookWithKeyring(keyring) + (LOOK + REQUEST)))
      case NotExchanged => (LOOK + LOOK) + REQUEST;
    GuardedCallsNobody(program);
    LocalIsGuarded({}, []);
    UnguardedParts({}, REQUEST, {}, if fate.Answered? then [] else Guarded(program));
    hide Leads, Guarded, LookWithKeyring, Unguarded;
  }

  /** Of all calls to the server on any path of `with_refresh`, only the request itself goes out
      without `refresh_lock`: restores, exchanges and retries of all tasks take turns. */
  lemma RefreshesTakeTurns(keyring: bool, source: Source, fate: Fate)
    ensures Unguarded({}, WithRefresh(keyring, source, fate))
            == if source.NotOpened? || source.NothingLeft? || source.NotRestored? then 0 else 1
  {
    TokenPathIsNeutral(keyring, source);
    TokenPathCallsNobody(keyring, source);
    RequestPathCallsOnce(keyring, fate);
    LocalIsGuarded({}, []);
    hide Leads, TokenPath, RequestPath, Unguarded;
    UnguardedParts({}, TokenPath(keyring, source), {},
                   if source.NotOpened? || source.NothingLeft? || source.NotRestored? then []
                   else RequestPath(keyring, fate));
  }

  // ----- What the paths wait for -----------------------------------------------------------

  /** How often the program awaits this. */
  function Awaits(program: seq<Op>, w: Wait): nat {
    if program == [] then 0 else (if program[0] == Await(w) then 1 else 0) + Awaits(program[1..], w)
  }

  lemma {:induction false} AwaitsOfBoth(p: seq<Op>, q: seq<Op>, w: Wait)
    ensures Awaits(p + q, w) == Awaits(p, w) + Awaits(q, w)
  {
    if p == [] {
      assert p + q == q;
    } else {
      assert (p + q)[1..] == p[1..] + q;
      AwaitsOfBoth(p[1..], q, w);
    }
  }

  lemma AwaitsOfOne(op: Op, w: Wait)
    ensures Awaits([op], w) == if op == Await(w) then 1 else 0
  {
    assert [op][1..] == [];
  }

  lemma AwaitsOfGuarded(program: seq<Op>, w: Wait)
    ensures Awaits(Guarded(program), w) == Awaits(program, w)
  {
    AwaitsOfOne(Acquire(RefreshLock), w);
    AwaitsOfOne(Release(RefreshLock), w);
    AwaitsOfBoth([Acquire(RefreshLock)], program, w);
    AwaitsOfBoth([Acquire(RefreshLock)] + program, [Release(RefreshLock)], w);
    hide Awaits;
  }

  /** What one call to the server, and one question to the keyring, count for. */
  function Call(w: Wait): nat {
    if w == Network then 1 else 0
  }

  function Question(keyring: bool, w: Wait): nat {
    if keyring && w == Keyring then 1 else 0
  }

  lemma AwaitsOfLook(keyring: bool, w: Wait)
    ensures Awaits(LOOK, w) == 0 && Awaits(REQUEST, w) == Call(w) && Awaits([], w) == 0
    ensures Awaits(LookWithKeyring(keyring), w) == Question(keyring, w)
  {
    assert LOOK[1..][1..] == [] && REQUEST[1..] == [];
    AwaitsOfOne(Await(Network), w);
    AwaitsOfBoth([Acquire(StateMutex)], [Release(StateMutex)], w);
    AwaitsOfBoth([Acquire(StateMutex)], [Await(Keyring)] + [Release(StateMutex)], w);
    AwaitsOfBoth([Await(Keyring)], [Release(StateMutex)], w);
    AwaitsOfOne(Acquire(StateMutex), w);
    AwaitsOfOne(Release(StateMutex), w);
    AwaitsOfOne(Await(Keyring), w);
    assert [Acquire(StateMutex)] + [Release(StateMutex)] == LOOK;
    assert [Acquire(StateMutex)] + ([Await(Keyring)] + [Release(StateMutex)]) == LookWithKeyring(true);
  }

  /** A restore calls the server once for the stored token, if there is one, and once more for the
      password, if that is tried then; it asks the keyring once for tokens it has been given. */
  lemma RestoreCalls(keyring: bool, stored: Stored, grant: Grant, w: Wait)
    requires w == Network || w == Keyring
    ensures var tries := if stored == Accepted then NotTried else grant;
            Awaits(Restore(keyring, stored, grant), w)
            == (if stored == Missing then 0 else Call(w)) + (if tries == NotTried then 0 else Call(w))
               + (if stored == Accepted || tries == GrantAccepted then Question(keyring, w) else 0)
  {
    AwaitsOfLook(keyring, w);
    AwaitsOfOne(Await(Keyring), w);
    AwaitsOfBoth(LOOK, LOOK, w);
    AwaitsOfBoth(if keyring then [Await(Keyring)] else [], LOOK + LOOK, w);
    AwaitsOfBoth(REQUEST, Adopt(keyring), w);
    AwaitsOfBoth(REQUEST, PasswordGrant(keyring, grant), w);
    hide Awaits;
  }

  lemma TokenCalls(keyring: bool, source: Source, w: Wait)
    requires w == Network || w == Keyring
    ensures Awaits(TokenPath(keyring, source), w)
            == Question(keyring, w)
               + (if source.NotRestored? then Awaits(Restore(keyring, source.stored, NotTried), w)
                  else if source.Restored? || source.NothingLeft? then Call(w) + Question(keyring, w)
                  else 0)
  {
    var stored := if source.NotRestored? then source.stored else Accepted;
    var restore := Restore(keyring, stored, NotTried);
    RestoreCalls(keyring, stored, NotTried, w);
    AwaitsOfLook(keyring, w);
    AwaitsOfBoth(restore, LOOK, w);
    AwaitsOfBoth(LOOK, restore + LOOK, w);
    AwaitsOfBoth(LOOK, restore, w);
    var program :=
      if source.Already? then LOOK else if source.NotRestored? then LOOK + restore else LOOK + (restore + LOOK);
    AwaitsOfGuarded(program, w);
    AwaitsOfBoth(LookWithKeyring(keyring), if source.Found? || source.NotOpened? then [] else Guarded(program), w);
    hide Awaits, Restore, LookWithKeyring, Guarded;
  }

  lemma RequestCalls(keyring: bool, fate: Fate, w: Wait)
    requires w == Network || w == Keyring
    ensures Awaits(RequestPath(keyring, fate), w)
            == Call(w)
               + (match fate
                  case Answered => 0
                  case Moved => Call(w)
                  case NoRefreshToken => 0
                  case Exchanged => 2 * Call(w) + Question(keyring, w)
                  case NotExchanged => Call(w))
  {
    AwaitsOfLook(keyring, w);
    var look := LookWithKeyring(keyring);
    AwaitsOfBoth(LOOK, REQUEST, w);
    AwaitsOfBoth(LOOK, LOOK, w);
    AwaitsOfBoth(look, LOOK + REQUEST, w);
    AwaitsOfBoth(REQUEST, look + (LOOK + REQUEST), w);
    AwaitsOfBoth(LOOK + LOOK, REQUEST + (look + (LOOK + REQUEST)), w);
    AwaitsOfBoth(LOOK + LOOK, REQUEST, w);
    var program :=
      match fate
      case Answered => []
      case Moved => LOOK + REQUEST
      case NoRefreshToken => LOOK + LOOK
      case Exchanged => (LOOK + LOOK) + (REQUEST + (look + (LOOK + REQUEST)))
      case NotExchanged => (LOOK + LOOK) + REQUEST;
    AwaitsOfGuarded(program, w);
    AwaitsOfBoth(REQUEST, if fate.Answered? then [] else Guarded(program), w);
    hide Awaits, LookWithKeyring, Guarded;
  }

  /** How often `with_refresh` calls the server on each of its paths: once for the request, and besides
      for a restore, for a retry with a token that has moved on, for an exchange, and for the retry
      after it; and it asks the keyring for each look at tokens, if the keyring is on. */
  lemma CallsAreCounted(keyring: bool, source: Source, fate: Fate, w: Wait)
    requires w == Network || w == Keyring
    ensures var failed := source.NotOpened? || source.NothingLeft? || source.NotRestored?;
            var restoring := source.Restored? || source.NothingLeft? || source == NotRestored(Accepted);
            var calls := (if restoring || source == NotRestored(Refused) then 1 else 0)
                         + (if failed then 0
                            else match fate case Exchanged => 3 case Moved => 2 case NotExchanged => 2 case _ => 1);
            var questions := 1 + (if restoring then 1 else 0) + (if !failed && fate == Exchanged then 1 else 0);
            Awaits(WithRefresh(keyring, source, fate), w)
            == if w == Network then calls else if keyring then questions else 0
  {
    TokenCalls(keyring, source, w);
    RequestCalls(keyring, fate, w);
    if source.NotRestored? {
      RestoreCalls(keyring, source.stored, NotTried, w);
    }
    AwaitsOfLook(keyring, w);
    var failed := source.NotOpened? || source.NothingLeft? || source.NotRestored?;
    AwaitsOfBoth(TokenPath(keyring, source), if failed then [] else RequestPath(keyring, fate), w);
    hide Awaits, TokenPath, RequestPath, Restore;
  }

  /** What the other parts of a handler wait for, and that looks take and give back the state mutex. */
  lemma PartsAreTold(keyring: bool, part: Part, w: Wait)
    requires w == Network || w == Keyring
    ensures part == Look ==> PartProgram(keyring, part) == LOOK && Awaits(LOOK, w) == 0
    ensures part == LookAtKeyring ==>
              var program := PartProgram(keyring, part);
              && program[0] == Acquire(StateMutex) && program[|program| - 1] == Release(StateMutex)
              && Awaits(program, w) == Question(keyring, w)
    ensures part == AskKeyring ==>
              |PartProgram(keyring, part)| == 1 && Awaits(PartProgram(keyring, part), w) == Question(true, w)
    ensures part == CallOut ==>
              |PartProgram(keyring, part)| == 1 && Awaits(PartProgram(keyring, part), w) == Call(w)
    ensures part.Refreshing? ==>
              Awaits(PartProgram(keyring, part), w) == Awaits(WithRefresh(keyring, part.source, part.fate), w)
    ensures part.Restoring? ==>
              Awaits(PartProgram(keyring, part), w) == Awaits(Restore(keyring, part.stored, part.grant), w)
  {
    AwaitsOfLook(keyring, w);
    AwaitsOfOne(Await(Keyring), w);
    hide Awaits;
  }

  /** Any handler made of these parts, on every path of `with_refresh` and of a restore, any
      connection, sign requests and the timer are disciplined, so `NoDeadlock` holds of all of
      them together. */
  lemma HandlersAreDisciplined(keyring: bool, parts: seq<Part>, requests: seq<seq<Part>>, rounds: nat)
    ensures Disciplined(Handler(keyring, parts)) && Disciplined(Connection(keyring, requests))
    ensures Disciplined(Sign(rounds)) && Disciplined(TimerLoop(rounds))
  {
    HandlerIsNeutral(keyring, parts);
    ConnectionIsNeutral(keyring, requests);
    LoopsAreNeutral(rounds);
  }
}
