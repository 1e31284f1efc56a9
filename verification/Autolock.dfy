/** The autolock timer (`timeout.rs`) and the requests that reset it (`lib.rs`). The clock counts
    ticks, `rate` of them to a second; the agent reads it in whole seconds. Sleeps end on time,
    the clock never runs backwards, and the state mutex is free when the timer wants it. */
module Autolock {
  import opened Prelude

  const MAX_SLEEP: nat := 30

  /** Ticks per second. */
  type Rate = r: nat | r > 0 witness 1

  /** `remaining_sleep_secs`. */
  function RemainingSleep(now: nat, last: nat, timeout: nat): nat {
    if timeout == 0 then MAX_SLEEP
    else
      var elapsed := if now < last then 0 else now - last;
      if elapsed >= timeout then 0
      else if timeout - elapsed < MAX_SLEEP then timeout - elapsed else MAX_SLEEP
  }

  /** With the timer enabled: no sleep exactly when the inactivity is over, and otherwise a sleep
      that ends at the deadline or, when that is further away, after 30 seconds. A clock that was
      set back counts as no inactivity, and a disabled timer looks again every 30 seconds. */
  lemma SleepIsExact(now: nat, last: nat, timeout: nat)
    ensures timeout > 0 ==> (RemainingSleep(now, last, timeout) == 0 <==> last + timeout <= now)
    ensures last <= now < last + timeout ==>
              now + RemainingSleep(now, last, timeout)
              == if last + timeout <= now + 30 then last + timeout else now + 30
    ensures now < last && timeout > 0 ==> RemainingSleep(now, last, timeout) == if timeout < 30 then timeout else 30
    ensures timeout == 0 ==> RemainingSleep(now, last, timeout) == 30
  {
  }

  /** `TimerHandle`: two numbers that every connection task may store to. */
  class TimerHandle {
    var lastActivity: nat
    var lockTimeoutSecs: nat  // 0 disables the timer

    constructor (now: nat, seconds: nat)
      ensures View() == Timer(now, seconds)
    {
      lastActivity, lockTimeoutSecs := now, seconds;
    }

    ghost function View(): Timer
      reads this
    {
      Timer(lastActivity, lockTimeoutSecs)
    }

    method Reset(now: nat)
      modifies this`lastActivity
      ensures View() == old(View()).(last := now)
    {
      lastActivity := now;
    }

    method SetDuration(now: nat, seconds: nat)
      modifies this
      ensures View() == Timer(now, seconds)
    {
      lockTimeoutSecs := seconds;
      Reset(now);
    }

    /** What the connection loop does with the timer once a request has been handled. */
    method AfterRequest(now: nat, action: Action, ok: bool)
      modifies this
      ensures View() == Handled(old(View()), now, action, ok)
    {
      if action.UpdateLockTimeout? {
        SetDuration(now, action.seconds);
      }
      if !NonActivity(action) && ok {
        Reset(now);
      }
    }
  }

  datatype Timer = Timer(last: nat, timeout: nat)

  /** Requests, as far as the timer tells them apart. */
  datatype Action =
    | LockAction | Logout | Quit | Subscribe | Version | GetConfig | UpdateLockTimeout(seconds: nat)
    | VaultAction

  predicate NonActivity(action: Action) {
    !action.VaultAction?
  }

  function Handled(t: Timer, now: nat, action: Action, ok: bool): Timer {
    if action.UpdateLockTimeout? then Timer(now, action.seconds)
    else if action.VaultAction? && ok then t.(last := now)
    else t
  }

  // ----- The timer task among the other tasks ----------------------------------------------

  /** The sleep the timer task is in, and when it ends: `Nap` goes back to the top of the loop,
      `Wait` to the second check. */
  datatype Phase = Nap(wake: nat) | Wait(wake: nat)

  datatype System = System(
    rate: Rate,
    clock: nat,
    timer: Timer,
    phase: Phase,
    unlocked: bool,
    touched: nat,      // tick of the last recorded activity, timeout change or unlock
    unlockIsLast: bool // an unlock came after the last activity or timeout change
  )

  function Now(s: System): nat {
    s.clock / s.rate
  }

  function Sleep(s: System, seconds: nat): nat {
    s.clock + seconds * s.rate
  }

  /** From the top of the loop to the next sleep. */
  function Top(s: System): System {
    if s.timer.timeout == 0 then s.(phase := Nap(Sleep(s, MAX_SLEEP)))
    else
      var seconds := RemainingSleep(Now(s), s.timer.last, s.timer.timeout);
      if seconds > 0 then s.(phase := Wait(Sleep(s, seconds))) else Expire(s)
  }

  function Expire(s: System): System {
    s.(unlocked := false, phase := Nap(Sleep(s, MAX_SLEEP)))
  }

  predicate Expired(s: System) {
    Now(s) >= s.timer.last && Now(s) - s.timer.last >= s.timer.timeout
  }

  /** From the end of a sleep to the next one. */
  function Fire(s: System): System {
    if s.phase.Wait? && s.timer.timeout > 0 && Expired(s) then Expire(s) else Top(s)
  }

  datatype Event =
    | Tick(ticks: nat)
    | TimerRuns
    | Handle(action: Action, ok: bool)  // a request has been handled
    | Unlock                            // an unlock or login installs keys, before its request is handled
    | LockElsewhere                     // a lock request, a logout, or a lock from the desktop session

  function Step(s: System, e: Event): Option<System> {
    match e
    case Tick(n) => if s.clock + n <= s.phase.wake then Some(s.(clock := s.clock + n)) else None
    case TimerRuns => if s.clock == s.phase.wake then Some(Fire(s)) else None
    case Handle(action, ok) =>
      var t := Handled(s.timer, Now(s), action, ok);
      var touches := action.UpdateLockTimeout? || (action.VaultAction? && ok);
      Some(s.(timer := t, touched := if touches then s.clock else s.touched,
              unlockIsLast := !touches && s.unlockIsLast))
    case Unlock => Some(s.(unlocked := true, touched := s.clock, unlockIsLast := true))
    case LockElsewhere => Some(s.(unlocked := false))
  }

  function Exec(s: System, run: seq<Event>): Option<System>
    decreases |run|
  {
    if run == [] then Some(s) else
      var t := Step(s, run[0]);
      if t.None? then None else Exec(t.value, run[1..])
  }

  /** The agent at its start: the timer task runs at once. */
  function Start(rate: Rate, clock: nat, timeout: nat): System {
    Top(System(rate, clock, Timer(clock / rate, timeout), Nap(clock), false, clock, false))
  }

  /** The next wake-up is at most a capped sleep away; while the vault is unlocked it is also
      within a capped sleep of the last touch or within the second of the deadline. */
  ghost predicate Inv(s: System) {
    && s.touched <= s.clock <= s.phase.wake <= Sleep(s, MAX_SLEEP)
    && s.timer.last <= s.clock / s.rate
    && (!s.unlockIsLast ==> s.timer.last == s.touched / s.rate)
    && (s.unlocked && s.timer.timeout > 0 ==>
          || s.phase.wake <= s.touched + MAX_SLEEP * s.rate
          || s.phase.wake / s.rate <= s.timer.last + s.timer.timeout)
  }

  lemma WholeSeconds(clock: nat, seconds: nat, rate: Rate)
    ensures (clock + seconds * rate) / rate == clock / rate + seconds
  {
    var q, f := clock / rate, clock % rate;
    assert clock + seconds * rate == (q + seconds) * rate + f;
    QuotientIs(clock + seconds * rate, q + seconds, f, rate);
  }

  lemma QuotientIs(x: nat, q: nat, f: nat, rate: Rate)
    requires x == q * rate + f && f < rate
    ensures x / rate == q
  {
    var d := x / rate - q;
    assert x == (x / rate) * rate + x % rate;
    assert d * rate == f - x % rate;
    assert d >= 1 ==> d * rate >= rate;
    assert d <= -1 ==> d * rate <= -(rate as int);
  }

  lemma Later(a: nat, b: nat, rate: Rate)
    requires a <= b
    ensures a / rate <= b / rate
  {
    var p, q := a / rate, b / rate;
    assert p * rate <= a && b < (q + 1) * rate;
    assert p > q ==> p * rate >= (q + 1) * rate;
  }

  lemma AtMost(a: nat, b: nat, rate: Rate)
    requires a <= b
    ensures a * rate <= b * rate
  {
  }

  /** Before the deadline the timer goes to sleep until a later second, at most that of the
      deadline. */
  lemma TopWaits(s: System)
    requires s.timer.timeout > 0 && s.timer.last <= Now(s) < s.timer.last + s.timer.timeout
    ensures Top(s).phase.Wait? && Top(s) == s.(phase := Top(s).phase)
    ensures Now(s) < Top(s).phase.wake / s.rate <= s.timer.last + s.timer.timeout
  {
    WholeSeconds(s.clock, RemainingSleep(Now(s), s.timer.last, s.timer.timeout), s.rate);
  }

  lemma TopInv(s: System)
    requires s.touched <= s.clock && s.timer.last <= s.clock / s.rate
    requires !s.unlockIsLast ==> s.timer.last == s.touched / s.rate
    ensures Inv(Top(s)) && Top(s).clock == s.clock
  {
    if s.timer.timeout > 0 {
      var seconds := RemainingSleep(Now(s), s.timer.last, s.timer.timeout);
      WholeSeconds(s.clock, seconds, s.rate);
      AtMost(seconds, MAX_SLEEP, s.rate);
    }
  }

  lemma StepInv(s: System, e: Event)
    requires Inv(s) && Step(s, e).Some?
    ensures Inv(Step(s, e).value)
  {
    match e
    case Tick(n) => Later(s.clock, s.clock + n, s.rate);
    case TimerRuns => TopInv(s);
    case _ =>
  }

  lemma {:induction false} ExecInv(s: System, run: seq<Event>)
    requires Inv(s) && Exec(s, run).Some?
    ensures Inv(Exec(s, run).value) && Exec(s, run).value.rate == s.rate
    decreases |run|
  {
    if run != [] {
      StepInv(s, run[0]);
      ExecInv(Step(s, run[0]).value, run[1..]);
    }
  }

  ghost predicate Reached(rate: Rate, clock: nat, timeout: nat, run: seq<Event>, s: System) {
    Exec(Start(rate, clock, timeout), run) == Some(s)
  }

  lemma ReachedInv(rate: Rate, clock: nat, timeout: nat, run: seq<Event>, s: System)
    requires Reached(rate, clock, timeout, run, s)
    ensures Inv(s) && s.rate == rate
  {
    TopInv(System(rate, clock, Timer(clock / rate, timeout), Nap(clock), false, clock, false));
    ExecInv(Start(rate, clock, timeout), run);
  }

  /** Every round of the timer ends in a sleep of at least a second, so time can always pass; and the
      timer runs exactly when its sleep is over. */
  lemma TimerSleepsAgain(s: System)
    requires Inv(s)
    ensures Fire(s).phase.wake >= s.clock + s.rate
    ensures Step(s, TimerRuns).Some? <==> s.clock == s.phase.wake
  {
    var seconds := RemainingSleep(Now(s), s.timer.last, s.timer.timeout);
    AtMost(1, if seconds > 0 then seconds else MAX_SLEEP, s.rate);
    AtMost(1, MAX_SLEEP, s.rate);
  }

  /** The event moves the deadline: a successful vault request or a new timeout. */
  predicate MovesDeadline(e: Event) {
    e.Handle? && (e.action.UpdateLockTimeout? || (e.action.VaultAction? && e.ok))
  }

  /** Neither a lock from outside the timer nor anything that moves the deadline. */
  predicate Quiet(run: seq<Event>) {
    forall e :: e in run ==> !e.LockElsewhere? && !MovesDeadline(e)
  }

  /** The timer is never early: an unlocked vault stays unlocked until the second of the last
      activity plus the timeout, or for good when the timer is disabled. */
  lemma {:induction false} NeverEarly(s: System, run: seq<Event>)
    requires s.unlocked && Quiet(run) && Exec(s, run).Some?
    requires s.timer.timeout == 0 || Now(Exec(s, run).value) < s.timer.last + s.timer.timeout
    ensures Exec(s, run).value.unlocked
    decreases |run|
  {
    if run != [] {
      assert run[0] in run;
      var t := Step(s, run[0]).value;
      ClockAdvances(t, run[1..]);
      Later(t.clock, Exec(s, run).value.clock, s.rate);
      NeverEarly(t, run[1..]);
    }
  }

  lemma {:induction false} ClockAdvances(s: System, run: seq<Event>)
    requires Exec(s, run).Some?
    ensures s.clock <= Exec(s, run).value.clock && Exec(s, run).value.rate == s.rate
    decreases |run|
  {
    if run != [] {
      ClockAdvances(Step(s, run[0]).value, run[1..]);
    }
  }

  /** So a successful vault request keeps the vault unlocked for the whole timeout after it. */
  lemma ActivityPostpones(s: System, run: seq<Event>)
    requires s.unlocked && Quiet(run)
    ensures var t := Step(s, Handle(VaultAction, true)).value;
            Exec(t, run).Some? && (s.timer.timeout == 0 || Now(Exec(t, run).value) < Now(s) + s.timer.timeout) ==>
              Exec(t, run).value.unlocked
  {
    var t := Step(s, Handle(VaultAction, true)).value;
    if Exec(t, run).Some? && (s.timer.timeout == 0 || Now(Exec(t, run).value) < Now(s) + s.timer.timeout) {
      NeverEarly(t, run);
    }
  }

  /** And a new timeout holds from the moment it is set. */
  lemma NewTimeoutApplies(s: System, seconds: nat, ok: bool, run: seq<Event>)
    requires s.unlocked && Quiet(run)
    ensures var t := Step(s, Handle(UpdateLockTimeout(seconds), ok)).value;
            Exec(t, run).Some? && (seconds == 0 || Now(Exec(t, run).value) < Now(s) + seconds) ==>
              Exec(t, run).value.unlocked
  {
    var t := Step(s, Handle(UpdateLockTimeout(seconds), ok)).value;
    if Exec(t, run).Some? && (seconds == 0 || Now(Exec(t, run).value) < Now(s) + seconds) {
      NeverEarly(t, run);
    }
  }

  /** The timer is never late: whatever phase it was in, a vault that is still unlocked is in the
      second of its deadline or before, or within 30 seconds of the last touch. */
  lemma NeverLate(rate: Rate, clock: nat, timeout: nat, run: seq<Event>, s: System)
    requires Reached(rate, clock, timeout, run, s)
    requires s.timer.timeout > 0 && Now(s) > s.timer.last + s.timer.timeout && s.clock > s.touched + MAX_SLEEP * rate
    ensures !s.unlocked
  {
    ReachedInv(rate, clock, timeout, run, s);
    Later(s.clock, s.phase.wake, s.rate);
  }

  /** The last unlock, activity or timeout change of a run was an unlock; `before` is the answer for
      what came before the run. */
  function UnlockLast(before: bool, run: seq<Event>): bool
    decreases |run|
  {
    if run == [] then before
    else UnlockLast(run[0].Unlock? || (before && !MovesDeadline(run[0])), run[1..])
  }

  lemma {:induction false} UnlockLastIs(s: System, run: seq<Event>)
    requires Exec(s, run).Some?
    ensures Exec(s, run).value.unlockIsLast == UnlockLast(s.unlockIsLast, run)
    decreases |run|
  {
    if run != [] {
      UnlockLastIs(Step(s, run[0]).value, run[1..]);
    }
  }

  /** The bound from the last activity alone, the larger of the timeout and 30 seconds after it:
      a vault that is unlocked beyond it has been unlocked since that activity. */
  lemma LockedInTime(rate: Rate, clock: nat, timeout: nat, run: seq<Event>, s: System)
    requires Reached(rate, clock, timeout, run, s) && s.timer.timeout > 0 && BeyondBound(s)
    ensures s.unlocked ==> s.unlockIsLast && UnlockLast(false, run)
  {
    ReachedInv(rate, clock, timeout, run, s);
    UnlockLastIs(Start(rate, clock, timeout), run);
    if !s.unlockIsLast {
      WholeSeconds(s.touched, MAX_SLEEP, rate);
      if s.clock <= s.touched + MAX_SLEEP * rate {
        Later(s.clock, s.touched + MAX_SLEEP * rate, rate);
      }
      NeverLate(rate, clock, timeout, run, s);
    }
  }

  function Bound(t: Timer): nat {
    t.last + (if t.timeout < MAX_SLEEP then MAX_SLEEP else t.timeout)
  }

  predicate BeyondBound(s: System) {
    Now(s) > Bound(s.timer)
  }

  /** The timer wakes up next beyond the bound. */
  predicate WakesBeyond(s: System) {
    s.phase.wake / s.rate > Bound(s.timer)
  }

  predicate Outlasts(s: System) {
    s.timer.timeout > 0 && s.unlocked && WakesBeyond(s)
  }

  /** Only an unlock can make a vault outlast the bound, and it does exactly when the timer
      sleeps beyond it. */
  lemma OutlastsStep(s: System, e: Event)
    requires Inv(s) && !Outlasts(s) && Step(s, e).Some?
    ensures Outlasts(Step(s, e).value) <==> e.Unlock? && s.timer.timeout > 0 && WakesBeyond(s)
  {
    match e
    case TimerRuns =>
      if s.timer.timeout > 0 && Now(s) < s.timer.last + s.timer.timeout {
        TopWaits(s);
      }
    case Handle(_, _) =>
      Later(s.phase.wake, Sleep(s, MAX_SLEEP), s.rate);
      WholeSeconds(s.clock, MAX_SLEEP, s.rate);
    case _ =>
  }

  predicate NoUnlock(run: seq<Event>) {
    forall e :: e in run ==> !e.Unlock?
  }

  lemma {:induction false} NeverOutlasts(s: System, run: seq<Event>)
    requires Inv(s) && !Outlasts(s) && NoUnlock(run) && Exec(s, run).Some?
    ensures Inv(Exec(s, run).value) && !Outlasts(Exec(s, run).value)
    decreases |run|
  {
    if run != [] {
      assert run[0] in run;
      StepInv(s, run[0]);
      OutlastsStep(s, run[0]);
      NeverOutlasts(Step(s, run[0]).value, run[1..]);
    }
  }

  /** The vault is unlocked with the timer enabled, and later than the bound from the last
      activity alone. */
  predicate Late(s: System) {
    s.timer.timeout > 0 && s.unlocked && BeyondBound(s)
  }

  /** Time passes to the next wake-up. */
  function SleepOn(s: System): Event
    requires s.clock <= s.phase.wake
  {
    Tick(s.phase.wake - s.clock)
  }

  lemma BecomesLate(s: System) returns (t: System)
    requires Inv(s) && Outlasts(s)
    ensures Step(s, SleepOn(s)) == Some(t) && Exec(s, [SleepOn(s)]) == Some(t) && Late(t) && t.timer == s.timer
  {
    t := Step(s, SleepOn(s)).value;
    ExecCons(s, SleepOn(s), []);
    assert [SleepOn(s)] + [] == [SleepOn(s)];
  }

  /** Exactly when a vault can still be unlocked beyond the bound without being unlocked again:
      when it is unlocked and the timer wakes up next beyond the bound. */
  lemma OutlivesExactly(rate: Rate, clock: nat, timeout: nat, before: seq<Event>, s: System)
    requires Reached(rate, clock, timeout, before, s)
    ensures (exists run {:trigger Exec(s, run)} :: NoUnlock(run) && Exec(s, run).Some? && Late(Exec(s, run).value))
            <==> Outlasts(s)
  {
    ReachedInv(rate, clock, timeout, before, s);
    if Outlasts(s) {
      var t := BecomesLate(s);
      assert NoUnlock([SleepOn(s)]) && Exec(s, [SleepOn(s)]) == Some(t);
    } else {
      forall run | NoUnlock(run) && Exec(s, run).Some? ensures !Late(Exec(s, run).value) {
        NeverOutlasts(s, run);
        var t := Exec(s, run).value;
        Later(t.clock, t.phase.wake, t.rate);
      }
    }
  }

  /** No poll of a status client, no failed request, no lock and no unlock counts as activity:
      after a run of those the deadline is where it was, and only an unlock opens the vault. */
  lemma {:induction false} OnlyActivityPostpones(s: System, run: seq<Event>)
    requires Exec(s, run).Some?
    requires forall e :: e in run ==> !MovesDeadline(e)
    ensures Exec(s, run).value.timer == s.timer
    ensures (forall e :: e in run ==> !e.Unlock?) ==>
              Exec(s, run).value.touched == s.touched && (!s.unlocked ==> !Exec(s, run).value.unlocked)
    decreases |run|
  {
    if run != [] {
      assert run[0] in run;
      OnlyActivityPostpones(Step(s, run[0]).value, run[1..]);
    }
  }

  /** The agent starts locked, a lock from outside locks, and only an unlock ends either. */
  lemma LockedUntilUnlocked(rate: Rate, clock: nat, timeout: nat, s: System, run: seq<Event>)
    requires NoUnlock(run) && Exec(s, run).Some?
    requires s == Start(rate, clock, timeout) || exists t :: Step(t, LockElsewhere) == Some(s)
    ensures !Exec(s, run).value.unlocked
  {
    StaysLocked(s, run);
  }

  lemma {:induction false} StaysLocked(s: System, run: seq<Event>)
    requires !s.unlocked && NoUnlock(run) && Exec(s, run).Some?
    ensures !Exec(s, run).value.unlocked
    decreases |run|
  {
    if run != [] {
      assert run[0] in run;
      StaysLocked(Step(s, run[0]).value, run[1..]);
    }
  }

  /** The timeout that is in force after the event. */
  function TimeoutAfter(s: System, e: Event): nat {
    match e
    case Handle(UpdateLockTimeout(seconds), _) => seconds
    case _ => s.timer.timeout
  }

  /** After a vault request, or after a new timeout was set, the vault is locked once the timeout, or
      30 seconds if that is more, have passed, unless there is more activity or another unlock. */
  lemma LocksAfterActivity(rate: Rate, clock: nat, timeout: nat, before: seq<Event>, s: System, e: Event,
                           run: seq<Event>)
    requires Reached(rate, clock, timeout, before, s)
    requires e == Handle(VaultAction, true) || (e.Handle? && e.action.UpdateLockTimeout?)
    requires NoUnlock(run) && forall f :: f in run ==> !MovesDeadline(f)
    requires Exec(Step(s, e).value, run).Some?
    ensures var seconds := TimeoutAfter(s, e);
            var end := Exec(Step(s, e).value, run).value;
            seconds > 0 && Now(end) > Now(s) + seconds && Now(end) > Now(s) + 30 ==> !end.unlocked
  {
    ReachedInv(rate, clock, timeout, before, s);
    var t := Step(s, e).value;
    var end := Exec(t, run).value;
    StepInv(s, e);
    Later(s.phase.wake, Sleep(s, MAX_SLEEP), s.rate);
    WholeSeconds(s.clock, MAX_SLEEP, s.rate);
    assert !Outlasts(t);
    NeverOutlasts(t, run);
    OnlyActivityPostpones(t, run);
    Later(end.clock, end.phase.wake, end.rate);
    ClockAdvances(t, run);
  }

  // ----- The bounds are tight --------------------------------------------------------------

  lemma ExecCons(s: System, e: Event, run: seq<Event>)
    requires Step(s, e).Some?
    ensures Exec(s, [e] + run) == Exec(Step(s, e).value, run)
  {
    assert ([e] + run)[1..] == run;
  }

  /** The state at another time and in another sleep. */
  predicate OnlyTimePassed(s: System, t: System) {
    t == s.(clock := t.clock, phase := t.phase)
  }

  /** Left alone, a waiting timer comes to the second of the deadline. */
  lemma {:induction false} WaitsForDeadline(s: System) returns (run: seq<Event>, t: System)
    requires s.phase.Wait? && s.timer.timeout > 0 && s.clock <= s.phase.wake
    requires s.timer.last <= s.phase.wake / s.rate <= s.timer.last + s.timer.timeout
    ensures Exec(s, run) == Some(t) && OnlyTimePassed(s, t) && t.phase.Wait? && t.clock == t.phase.wake
    ensures Now(t) == s.timer.last + s.timer.timeout
    decreases s.timer.last + s.timer.timeout - s.phase.wake / s.rate
  {
    var tick := Tick(s.phase.wake - s.clock);
    var u := Step(s, tick).value;
    if Now(u) == s.timer.last + s.timer.timeout {
      run, t := [], u;
    } else {
      TopWaits(u);
      run, t := WaitsForDeadline(Step(u, TimerRuns).value);
      ExecCons(u, TimerRuns, run);
      run := [TimerRuns] + run;
    }
    ExecCons(s, tick, run);
    run := [tick] + run;
  }

  lemma {:induction false} ExecThen(s: System, run: seq<Event>, t: System, later: seq<Event>)
    requires Exec(s, run) == Some(t)
    ensures Exec(s, run + later) == Exec(t, later)
    decreases |run|
  {
    if run == [] {
      assert run + later == later;
    } else {
      assert (run + later)[1..] == run[1..] + later;
      ExecThen(Step(s, run[0]).value, run[1..], t, later);
    }
  }

  /** From the start of the agent the timer comes to its first deadline, finds a locked vault and
      naps; then the vault is unlocked, with or without activity after it. */
  lemma UnlockedInNap(rate: Rate, clock: nat, timeout: nat, active: bool) returns (run: seq<Event>, s: System)
    requires timeout > 0
    ensures Reached(rate, clock, timeout, run, s) && s.unlocked && s.phase == Nap(Sleep(s, MAX_SLEEP)) && s.rate == rate
    ensures s.timer == (if active then Timer(Now(s), timeout) else Timer(clock / rate, timeout))
    ensures s.unlockIsLast == !active && s.touched == s.clock && Now(s) == clock / rate + timeout
  {
    var s0 := Start(rate, clock, timeout);
    TopWaits(System(rate, clock, Timer(clock / rate, timeout), Nap(clock), false, clock, false));
    var t;
    run, t := WaitsForDeadline(s0);
    var u := Step(t, TimerRuns).value;
    var v := Step(u, Unlock).value;
    s := if active then Step(v, Handle(VaultAction, true)).value else v;
    var last: seq<Event> := if active then [Handle(VaultAction, true)] + [] else [];
    if active {
      ExecCons(v, Handle(VaultAction, true), []);
    }
    ExecCons(u, Unlock, last);
    ExecCons(t, TimerRuns, [Unlock] + last);
    ExecThen(s0, run, t, [TimerRuns] + ([Unlock] + last));
    run := run + ([TimerRuns] + ([Unlock] + last));
  }

  lemma Extend(rate: Rate, clock: nat, timeout: nat, run0: seq<Event>, s0: System, e: Event)
    returns (run: seq<Event>, s: System)
    requires Reached(rate, clock, timeout, run0, s0) && Step(s0, e).Some?
    ensures Reached(rate, clock, timeout, run, s) && s == Step(s0, e).value
  {
    s := Step(s0, e).value;
    ExecCons(s0, e, []);
    ExecThen(Start(rate, clock, timeout), run0, s0, [e] + []);
    run := run0 + ([e] + []);
  }

  /** For every timeout there is a run after which the vault is unlocked up to the full bound, the
      larger of the timeout and 30 seconds after its last activity. */
  lemma BoundIsTight(rate: Rate, clock: nat, timeout: nat) returns (run: seq<Event>, s: System)
    requires timeout > 0
    ensures Reached(rate, clock, timeout, run, s) && s.unlocked && !s.unlockIsLast && s.timer.timeout == timeout
    ensures Now(s) == Bound(s.timer)
  {
    run, s := UnlockedInNap(rate, clock, timeout, true);
    WholeSeconds(s.clock, MAX_SLEEP, rate);
    run, s := Extend(rate, clock, timeout, run, s, Tick(MAX_SLEEP * rate));
    if timeout > MAX_SLEEP {
      TopWaits(s);
      run, s := Extend(rate, clock, timeout, run, s, TimerRuns);
      var later, t := WaitsForDeadline(s);
      ExecThen(Start(rate, clock, timeout), run, s, later);
      run, s := run + later, t;
    }
  }

  /** An unlock that no activity follows does outlive the bound from the last activity: for every
      timeout there is a run after which the vault is unlocked beyond it. */
  lemma UnlockOutlivesBound(rate: Rate, clock: nat, timeout: nat) returns (run: seq<Event>, s: System)
    requires timeout > 0
    ensures Reached(rate, clock, timeout, run, s) && Late(s) && s.timer == Timer(clock / rate, timeout)
  {
    run, s := UnlockedInNap(rate, clock, timeout, false);
    WholeSeconds(s.clock, MAX_SLEEP, rate);
    ReachedInv(rate, clock, timeout, run, s);
    var t := BecomesLate(s);
    run, s := Extend(rate, clock, timeout, run, s, SleepOn(s));
  }
}
