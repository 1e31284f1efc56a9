/** The save prompt of the browser extension (`background-save.js`). Submitted credentials wait
    in a record per tab; handlers read the record, await the agent, and write their copy back,
    so that any number of them interleave at every await. A task is described by the await it
    is suspended at. */
module PendingSave {
  import opened Prelude

  type Tab = nat
  type TaskId = nat

  /** What the content script reports. */
  datatype Submission = Submission(username: string, password: string, url: string)

  datatype Mode = Unset | LockedMode | SaveMode | UpdateMode

  datatype Pending = Pending(
    username: string,
    password: string,
    url: string,
    domain: string,
    entryId: Option<string>,
    mode: Mode,
    evaluated: bool,
    awaitingUnlock: bool
  )

  datatype Credentials = Credentials(domain: string, username: string, password: string)

  /** The agent's answer to a match request; `Unexpected` is any response of another form. */
  datatype MatchReply = Unexpected | LoginMatch(passwordMatches: bool, entryId: Option<string>)

  datatype ConfigReply = NoConfig | Config(isLocked: bool, needsLogin: bool)

  datatype AgentAction =
    | AddEntry(name: string, username: string, password: string, uri: string)
    | UpdateLoginPassword(id: string, password: string)

  datatype Click = Save | Update | UnlockClick | Dismiss

  /** The URL parser of the browser: registered host and origin. */
  datatype Urls = Urls(domain: string -> Option<string>, origin: string -> Option<string>)

  function VaultUsable(c: ConfigReply): bool {
    c.Config? && !c.isLocked && !c.needsLogin
  }

  /** An empty entry id counts as none. */
  predicate HasEntry(id: Option<string>) {
    id.Some? && id.value != ""
  }

  function DecideBarMode(m: MatchReply): Option<Mode> {
    if m.Unexpected? || m.passwordMatches then None
    else Some(if HasEntry(m.entryId) then UpdateMode else SaveMode)
  }

  function CredentialsOf(p: Pending): Credentials {
    Credentials(p.domain, p.username, p.password)
  }

  /** The record of a submission, when it has a domain, a username and a password. */
  function Record(u: Urls, s: Submission): Option<Pending> {
    var domain := u.domain(s.url);
    if domain.None? || domain.value == "" || s.username == "" || s.password == "" then None
    else Some(Pending(s.username, s.password, s.url, domain.value, None, Unset, false, false))
  }

  /** What a click sends to the agent. */
  function ActionFor(u: Urls, p: Pending, click: Click): Option<AgentAction> {
    if click == Save && p.mode == SaveMode then
      var origin := u.origin(p.url);
      Some(AddEntry(p.domain, p.username, p.password, if HasEntry(origin) then origin.value else p.url))
    else if click == Update && p.mode == UpdateMode && HasEntry(p.entryId) then
      Some(UpdateLoginPassword(p.entryId.value, p.password))
    else None
  }

  datatype Pc =
    | SubmitClear(made: Pending)
    | SubmitSet(made: Pending)
    | EvalGet
    | EvalMark(copy: Pending)
    | EvalConfig(copy: Pending)
    | EvalDefer(copy: Pending)
    | EvalMatch(copy: Pending, config: ConfigReply)
    | EvalVerdict(copy: Pending)
    | EvalShow
    | BarGet(click: Click)
    | BarSent
    | Clear
    | Done

  datatype Task = Task(tab: Tab, pc: Pc)

  /** An answer to a match request, and the lock state the agent had reported just before. */
  datatype Verdict = Verdict(about: Credentials, reply: MatchReply, config: ConfigReply)

  /** What a click sent, and the record it read. */
  datatype Sent = Sent(tab: Tab, copy: Pending, action: AgentAction)

  datatype World = World(
    store: map<Tab, Pending>,          // `browser.storage.session`
    tasks: map<TaskId, Task>,
    submitted: set<(Tab, Submission)>,
    verdicts: set<Verdict>,            // what the agent has answered about which credentials
    sent: seq<Sent>
  )

  const INIT := World(map[], map[], {}, {}, [])

  datatype Outcome = Go | Fail | ConfigIs(config: ConfigReply) | MatchIs(reply: MatchReply)

  datatype Event =
    | Submit(i: TaskId, tab: Tab, s: Submission)  // a login form was submitted
    | Evaluate(i: TaskId, tab: Tab)               // after a delay, a page load, or an unlock
    | Press(i: TaskId, tab: Tab, click: Click)    // the user clicked in the bar
    | Forget(i: TaskId, tab: Tab)                 // the tab was closed, or the record expired
    | Run(i: TaskId, o: Outcome)

  function Spawned(w: World, i: TaskId, tab: Tab, pc: Pc): Option<World> {
    if i in w.tasks then None else Some(w.(tasks := w.tasks[i := Task(tab, pc)]))
  }

  /** One segment of a task: the world it leaves and the await it reaches. */
  function Segment(u: Urls, w: World, tab: Tab, pc: Pc, o: Outcome): Option<(World, Pc)> {
    match pc
    case SubmitClear(made) =>
      if o == Go then Some((w.(store := w.store - {tab}), SubmitSet(made)))
      else if o == Fail then Some((w, Done)) else None
    case SubmitSet(made) =>
      if o == Go then Some((w.(store := w.store[tab := made]), Done))
      else if o == Fail then Some((w, Done)) else None
    case EvalGet =>
      if o == Fail then Some((w, Done))
      else if o != Go then None
      else if tab !in w.store then Some((w, Done))
      else
        var p := w.store[tab];
        Some((w, if p.evaluated && !p.awaitingUnlock then Done else EvalMark(p.(evaluated := true))))
    case EvalMark(p) =>
      if o == Go then Some((w.(store := w.store[tab := p]), EvalConfig(p)))
      else if o == Fail then Some((w, Done)) else None
    case EvalConfig(p) =>
      if o == Fail then Some((w, Clear))
      else if !o.ConfigIs? then None
      else if VaultUsable(o.config) then Some((w, EvalMatch(p.(awaitingUnlock := false), o.config)))
      else Some((w, EvalDefer(p.(awaitingUnlock := true, evaluated := false, mode := LockedMode))))
    case EvalDefer(p) =>
      if o == Go then Some((w.(store := w.store[tab := p]), EvalShow))
      else if o == Fail then Some((w, Clear)) else None
    case EvalMatch(p, config) =>
      if o == Fail then Some((w, Clear))
      else if !o.MatchIs? then None
      else
        var heard := w.(verdicts := w.verdicts + {Verdict(CredentialsOf(p), o.reply, config)});
        var mode := DecideBarMode(o.reply);
        Some((heard, if mode.None? then Clear else EvalVerdict(p.(mode := mode.value, entryId := o.reply.entryId))))
    case EvalVerdict(p) =>
      if o == Go then Some((w.(store := w.store[tab := p]), EvalShow))
      else if o == Fail then Some((w, Clear)) else None
    case EvalShow =>
      if o == Go then Some((w, Done)) else if o == Fail then Some((w, Clear)) else None
    case BarGet(click) =>
      if o == Fail then Some((w, Done))
      else if o != Go then None
      else if tab !in w.store then Some((w, Done))
      else
        var p := w.store[tab];
        var action := ActionFor(u, p, click);
        if click == UnlockClick && p.mode == LockedMode then Some((w, Done))
        else if action.None? then Some((w, Clear))
        else Some((w.(sent := w.sent + [Sent(tab, p, action.value)]), BarSent))
    case BarSent =>
      if o == Go then Some((w, Clear)) else if o == Fail then Some((w, Done)) else None
    case Clear =>
      if o == Go then Some((w.(store := w.store - {tab}), Done))
      else if o == Fail then Some((w, Done)) else None
    case Done => None
  }

  function Step(u: Urls, w: World, e: Event): Option<World> {
    match e
    case Submit(i, tab, s) =>
      var made := Record(u, s);
      var noted := w.(submitted := w.submitted + {(tab, s)});
      if made.None? then Some(w) else Spawned(noted, i, tab, SubmitClear(made.value))
    case Evaluate(i, tab) => Spawned(w, i, tab, EvalGet)
    case Press(i, tab, click) => Spawned(w, i, tab, BarGet(click))
    case Forget(i, tab) => Spawned(w, i, tab, Clear)
    case Run(i, o) =>
      if i !in w.tasks then None
      else
        var r := Segment(u, w, w.tasks[i].tab, w.tasks[i].pc, o);
        if r.None? then None else Some(r.value.0.(tasks := w.tasks[i := Task(w.tasks[i].tab, r.value.1)]))
  }

  function Exec(u: Urls, w: World, run: seq<Event>): Option<World>
    decreases |run|
  {
    if run == [] then Some(w) else
      var t := Step(u, w, run[0]);
      if t.None? then None else Exec(u, t.value, run[1..])
  }

  // ----- The invariant ---------------------------------------------------------------------

  /** The record a task carries, if any. */
  function Carried(pc: Pc): Option<Pending> {
    match pc
    case SubmitClear(p) => Some(p)
    case SubmitSet(p) => Some(p)
    case EvalMark(p) => Some(p)
    case EvalConfig(p) => Some(p)
    case EvalDefer(p) => Some(p)
    case EvalMatch(p, _) => Some(p)
    case EvalVerdict(p) => Some(p)
    case _ => None
  }

  /** The record is about this submission. */
  predicate About(u: Urls, p: Pending, s: Submission) {
    p.username == s.username && p.password == s.password && p.url == s.url && u.domain(s.url) == Some(p.domain)
  }

  ghost predicate FromSubmission(u: Urls, w: World, tab: Tab, p: Pending) {
    exists s :: (tab, s) in w.submitted && About(u, p, s)
  }

  /** The vault was unlocked and logged in, and the agent found no entry for the credentials. */
  predicate FoundNone(v: Verdict, about: Credentials) {
    && v.about == about && v.config == Config(false, false)
    && v.reply.LoginMatch? && !v.reply.passwordMatches && !HasEntry(v.reply.entryId)
  }

  /** The same, but it found this entry, with another password. */
  predicate FoundOther(v: Verdict, about: Credentials, id: string) {
    && v.about == about && v.config == Config(false, false)
    && v.reply.LoginMatch? && !v.reply.passwordMatches && v.reply.entryId == Some(id) && id != ""
  }

  ghost predicate Judged(w: World, p: Pending) {
    && (p.mode == SaveMode ==> exists v :: v in w.verdicts && FoundNone(v, CredentialsOf(p)))
    && (p.mode == UpdateMode ==>
          p.entryId.Some? && exists v :: v in w.verdicts && FoundOther(v, CredentialsOf(p), p.entryId.value))
  }

  /** All fields come from one submission on the tab, and the mode from a verdict on it. */
  ghost predicate Coherent(u: Urls, w: World, tab: Tab, p: Pending) {
    FromSubmission(u, w, tab, p) && Judged(w, p)
  }

  /** What was sent is what one submission on that tab and the agent's verdict on exactly its
      credentials call for. */
  ghost predicate Justified(u: Urls, w: World, tab: Tab, a: AgentAction) {
    exists s, v ::
      && (tab, s) in w.submitted && v in w.verdicts && u.domain(s.url).Some?
      && (var about := Credentials(u.domain(s.url).value, s.username, s.password);
          match a
          case AddEntry(name, username, password, uri) =>
            && FoundNone(v, about)
            && name == about.domain && username == s.username && password == s.password
            && uri == (var origin := u.origin(s.url); if HasEntry(origin) then origin.value else s.url)
          case UpdateLoginPassword(id, password) =>
            FoundOther(v, about, id) && password == s.password)
  }

  ghost predicate Inv(u: Urls, w: World) {
    && (forall tab :: tab in w.store ==> Coherent(u, w, tab, w.store[tab]))
    && (forall i :: i in w.tasks && Carried(w.tasks[i].pc).Some? ==>
          Coherent(u, w, w.tasks[i].tab, Carried(w.tasks[i].pc).value))
    && (forall i :: i in w.tasks && w.tasks[i].pc.EvalMatch? ==> w.tasks[i].pc.config == Config(false, false))
    && (forall k :: 0 <= k < |w.sent| ==> Justified(u, w, w.sent[k].tab, w.sent[k].action))
  }

  /** The history only grows, so what it supports stays supported. */
  predicate Grows(w: World, t: World) {
    w.submitted <= t.submitted && w.verdicts <= t.verdicts
  }

  lemma CoherentStays(u: Urls, w: World, t: World, tab: Tab, p: Pending)
    requires Grows(w, t) && Coherent(u, w, tab, p)
    ensures Coherent(u, t, tab, p)
  {
    var s :| (tab, s) in w.submitted && About(u, p, s);
    assert (tab, s) in t.submitted;
    if p.mode == SaveMode {
      var v :| v in w.verdicts && FoundNone(v, CredentialsOf(p));
      assert v in t.verdicts;
    }
    if p.mode == UpdateMode {
      var v :| v in w.verdicts && FoundOther(v, CredentialsOf(p), p.entryId.value);
      assert v in t.verdicts;
    }
  }

  lemma JustifiedStays(u: Urls, w: World, t: World, tab: Tab, a: AgentAction)
    requires Grows(w, t) && Justified(u, w, tab, a)
    ensures Justified(u, t, tab, a)
  {
  }

  /** A click on a coherent record sends something justified. */
  lemma ClickIsJustified(u: Urls, w: World, tab: Tab, p: Pending, click: Click)
    requires Coherent(u, w, tab, p) && ActionFor(u, p, click).Some?
    ensures Justified(u, w, tab, ActionFor(u, p, click).value)
  {
    var s :| (tab, s) in w.submitted && About(u, p, s);
    if p.mode == SaveMode {
      var v :| v in w.verdicts && FoundNone(v, CredentialsOf(p));
    } else {
      var v :| v in w.verdicts && FoundOther(v, CredentialsOf(p), p.entryId.value);
    }
  }

  /** A verdict makes the copy it was asked about coherent again. */
  lemma VerdictIsCoherent(u: Urls, w: World, tab: Tab, p: Pending, reply: MatchReply, t: World)
    requires Coherent(u, w, tab, p) && DecideBarMode(reply).Some?
    requires t.submitted == w.submitted
    requires t.verdicts == w.verdicts + {Verdict(CredentialsOf(p), reply, Config(false, false))}
    ensures Coherent(u, t, tab, p.(mode := DecideBarMode(reply).value, entryId := reply.entryId))
  {
    var s :| (tab, s) in w.submitted && About(u, p, s);
    var q := p.(mode := DecideBarMode(reply).value, entryId := reply.entryId);
    assert (tab, s) in t.submitted && About(u, q, s);
    assert Verdict(CredentialsOf(p), reply, Config(false, false)) in t.verdicts && CredentialsOf(q) == CredentialsOf(p);
  }

  /** A copy that only changes its flags, or is marked as waiting for an unlock, stays coherent. */
  lemma FlagsKeepCoherence(u: Urls, w: World, tab: Tab, p: Pending, q: Pending)
    requires Coherent(u, w, tab, p)
    requires q == p.(evaluated := q.evaluated, awaitingUnlock := q.awaitingUnlock, mode := q.mode)
    requires q.mode == p.mode || q.mode == LockedMode
    ensures Coherent(u, w, tab, q)
  {
    var s :| (tab, s) in w.submitted && About(u, p, s);
    assert About(u, q, s) && CredentialsOf(q) == CredentialsOf(p);
  }

  /** One more thing was sent, for the tab. */
  predicate Appends(w: World, t: World, tab: Tab) {
    |t.sent| == |w.sent| + 1 && t.sent[..|w.sent|] == w.sent && t.sent[|w.sent|].tab == tab
  }

  /** What a segment does to the store, to the copy it carries, and to what was sent. */
  ghost predicate Effect(u: Urls, w: World, t: World, tab: Tab, a: Pc, b: Pc) {
    && Grows(w, t)
    && (|| t.store == w.store || t.store == w.store - {tab}
        || (Carried(a).Some? && t.store == w.store[tab := Carried(a).value]))
    && (Carried(b).Some? ==> Coherent(u, t, tab, Carried(b).value))
    && (b.EvalMatch? ==> b.config == Config(false, false))
    && (t.sent == w.sent || (Appends(w, t, tab) && Justified(u, t, tab, t.sent[|w.sent|].action)))
  }

  lemma SegmentEffect(u: Urls, w: World, tab: Tab, pc: Pc, o: Outcome)
    requires Segment(u, w, tab, pc, o).Some?
    requires tab in w.store ==> Coherent(u, w, tab, w.store[tab])
    requires Carried(pc).Some? ==> Coherent(u, w, tab, Carried(pc).value)
    requires pc.EvalMatch? ==> pc.config == Config(false, false)
    ensures var r := Segment(u, w, tab, pc, o).value; Effect(u, w, r.0, tab, pc, r.1)
  {
    hide Coherent, Justified;
    var r := Segment(u, w, tab, pc, o).value;
    if Carried(pc).Some? {
      CoherentStays(u, w, r.0, tab, Carried(pc).value);
    }
    match pc
    case EvalGet =>
      if r.1.EvalMark? {
        FlagsKeepCoherence(u, w, tab, w.store[tab], r.1.copy);
        CoherentStays(u, w, r.0, tab, r.1.copy);
      }
    case EvalConfig(p) =>
      if Carried(r.1).Some? {
        FlagsKeepCoherence(u, w, tab, p, Carried(r.1).value);
      }
    case EvalMatch(p, _) =>
      if r.1.EvalVerdict? {
        VerdictIsCoherent(u, w, tab, p, o.reply, r.0);
      }
    case BarGet(click) =>
      if r.1.BarSent? {
        ClickIsJustified(u, w, tab, w.store[tab], click);
        JustifiedStays(u, w, r.0, tab, ActionFor(u, w.store[tab], click).value);
      }
    case _ =>
  }

  lemma EffectKeepsInv(u: Urls, w: World, t: World, i: TaskId, b: Pc)
    requires Inv(u, w) && i in w.tasks && t.tasks == w.tasks[i := Task(w.tasks[i].tab, b)]
    requires Effect(u, w, t, w.tasks[i].tab, w.tasks[i].pc, b)
    ensures Inv(u, t)
  {
    hide Coherent, Justified;
    forall tab | tab in t.store ensures Coherent(u, t, tab, t.store[tab]) {
      CoherentStays(u, w, t, tab, t.store[tab]);
    }
    forall j | j in t.tasks && Carried(t.tasks[j].pc).Some?
      ensures Coherent(u, t, t.tasks[j].tab, Carried(t.tasks[j].pc).value)
    {
      if j != i {
        CoherentStays(u, w, t, w.tasks[j].tab, Carried(w.tasks[j].pc).value);
      }
    }
    forall k | 0 <= k < |t.sent| ensures Justified(u, t, t.sent[k].tab, t.sent[k].action) {
      if k < |w.sent| {
        JustifiedStays(u, w, t, w.sent[k].tab, w.sent[k].action);
      }
    }
  }

  lemma SpawnKeepsInv(u: Urls, w: World, e: Event)
    requires Inv(u, w) && !e.Run? && Step(u, w, e).Some?
    ensures Inv(u, Step(u, w, e).value)
  {
    hide Coherent, Justified;
    var t := Step(u, w, e).value;
    if e.Submit? && Record(u, e.s).Some? {
      FreshIsCoherent(u, t, e.tab, e.s);
    }
    forall tab | tab in w.store ensures Coherent(u, t, tab, w.store[tab]) {
      CoherentStays(u, w, t, tab, w.store[tab]);
    }
    forall j | j in w.tasks && Carried(w.tasks[j].pc).Some?
      ensures Coherent(u, t, w.tasks[j].tab, Carried(w.tasks[j].pc).value)
    {
      CoherentStays(u, w, t, w.tasks[j].tab, Carried(w.tasks[j].pc).value);
    }
    forall k | 0 <= k < |w.sent| ensures Justified(u, t, w.sent[k].tab, w.sent[k].action) {
      JustifiedStays(u, w, t, w.sent[k].tab, w.sent[k].action);
    }
  }

  lemma FreshIsCoherent(u: Urls, w: World, tab: Tab, s: Submission)
    requires (tab, s) in w.submitted && Record(u, s).Some?
    ensures Coherent(u, w, tab, Record(u, s).value)
  {
    assert About(u, Record(u, s).value, s);
  }

  lemma StepInv(u: Urls, w: World, e: Event)
    requires Inv(u, w) && Step(u, w, e).Some?
    ensures Inv(u, Step(u, w, e).value)
  {
    if e.Run? {
      var task := w.tasks[e.i];
      SegmentEffect(u, w, task.tab, task.pc, e.o);
      var r := Segment(u, w, task.tab, task.pc, e.o).value;
      hide Segment, Inv;
      EffectIgnoresTasks(u, w, r.0, Step(u, w, e).value, task.tab, task.pc, r.1);
      EffectKeepsInv(u, w, Step(u, w, e).value, e.i, r.1);
    } else {
      SpawnKeepsInv(u, w, e);
    }
  }

  lemma EffectIgnoresTasks(u: Urls, w: World, t: World, t': World, tab: Tab, a: Pc, b: Pc)
    requires Effect(u, w, t, tab, a, b) && t' == t.(tasks := t'.tasks)
    ensures Effect(u, w, t', tab, a, b)
  {
    if Carried(b).Some? {
      CoherentStays(u, t, t', tab, Carried(b).value);
    }
    if t.sent != w.sent {
      JustifiedStays(u, t, t', tab, t.sent[|w.sent|].action);
    }
  }

  lemma {:induction false} ExecInv(u: Urls, w: World, run: seq<Event>)
    requires Inv(u, w) && Exec(u, w, run).Some?
    ensures Inv(u, Exec(u, w, run).value)
    decreases |run|
  {
    hide Inv, Step;
    if run != [] {
      StepInv(u, w, run[0]);
      ExecInv(u, Step(u, w, run[0]).value, run[1..]);
    }
  }

  /** Whatever interleaves: everything sent to the agent carries the fields of one submission on
      that tab, and the agent itself decided for it on exactly these credentials. */
  lemma SavesAreJustified(u: Urls, run: seq<Event>, w: World, k: nat)
    requires Exec(u, INIT, run) == Some(w) && k < |w.sent|
    ensures Justified(u, w, w.sent[k].tab, w.sent[k].action)
  {
    ExecInv(u, INIT, run);
  }

  // ----- Which submission is saved ---------------------------------------------------------

  predicate SameFields(p: Pending, q: Pending) {
    p.username == q.username && p.password == q.password && p.url == q.url && p.domain == q.domain
  }

  /** A click on the record saves it. */
  predicate Clickable(p: Pending) {
    p.mode == SaveMode || (p.mode == UpdateMode && HasEntry(p.entryId))
  }

  /** A click on the record saves it, or an evaluation takes it up again. */
  predicate Savable(p: Pending) {
    Clickable(p) || !p.evaluated || p.awaitingUnlock
  }

  /** The record of the tab, if it can be saved, and every copy in flight hold the fields of
      `latest`. */
  ghost predicate OnlyAbout(w: World, tab: Tab, latest: Pending) {
    && (tab in w.store && Savable(w.store[tab]) ==> SameFields(w.store[tab], latest))
    && (forall i :: i in w.tasks && w.tasks[i].tab == tab && Carried(w.tasks[i].pc).Some? ==>
          SameFields(Carried(w.tasks[i].pc).value, latest))
  }

  /** The action saves these fields. */
  predicate Saves(a: AgentAction, p: Pending) {
    match a
    case AddEntry(name, username, password, _) => name == p.domain && username == p.username && password == p.password
    case UpdateLoginPassword(_, password) => password == p.password
  }

  /** Whatever was sent for the tab from then on came from a record with the fields of `latest`,
      and saves them. */
  ghost predicate SentOnly(w: World, from: nat, tab: Tab, latest: Pending) {
    forall k :: from <= k < |w.sent| && w.sent[k].tab == tab ==>
      SameFields(w.sent[k].copy, latest) && Saves(w.sent[k].action, latest)
  }

  predicate SubmitsTo(e: Event, tab: Tab) {
    e.Submit? && e.tab == tab
  }

  predicate NoSubmits(run: seq<Event>, tab: Tab) {
    forall e :: e in run ==> !SubmitsTo(e, tab)
  }

  lemma SegmentKeepsFields(u: Urls, w: World, tab: Tab, pc: Pc, o: Outcome, latest: Pending)
    requires Segment(u, w, tab, pc, o).Some?
    requires tab in w.store && Savable(w.store[tab]) ==> SameFields(w.store[tab], latest)
    requires Carried(pc).Some? ==> SameFields(Carried(pc).value, latest)
    ensures var r := Segment(u, w, tab, pc, o).value;
            && (tab in r.0.store && Savable(r.0.store[tab]) ==> SameFields(r.0.store[tab], latest))
            && (Carried(r.1).Some? ==> SameFields(Carried(r.1).value, latest))
            && (r.0.sent == w.sent
                || (&& Appends(w, r.0, tab) && SameFields(r.0.sent[|w.sent|].copy, latest)
                    && Saves(r.0.sent[|w.sent|].action, latest)))
  {
  }

  lemma SegmentStaysOnTab(u: Urls, w: World, tab: Tab, pc: Pc, o: Outcome, other: Tab)
    requires Segment(u, w, tab, pc, o).Some? && other != tab
    ensures var r := Segment(u, w, tab, pc, o).value;
            && (other in r.0.store <==> other in w.store) && (other in w.store ==> r.0.store[other] == w.store[other])
            && (r.0.sent == w.sent || Appends(w, r.0, tab))
  {
  }

  lemma StepKeepsLatest(u: Urls, w: World, e: Event, tab: Tab, from: nat, latest: Pending)
    requires OnlyAbout(w, tab, latest) && SentOnly(w, from, tab, latest)
    requires Step(u, w, e).Some? && !SubmitsTo(e, tab)
    ensures OnlyAbout(Step(u, w, e).value, tab, latest) && SentOnly(Step(u, w, e).value, from, tab, latest)
  {
    if e.Run? {
      var task := w.tasks[e.i];
      if task.tab == tab {
        SegmentKeepsFields(u, w, tab, task.pc, e.o, latest);
      } else {
        SegmentStaysOnTab(u, w, task.tab, task.pc, e.o, tab);
      }
      var r := Segment(u, w, task.tab, task.pc, e.o).value;
      assert forall k :: 0 <= k < |w.sent| ==>
                           r.0.sent[k] == (if r.0.sent == w.sent then w.sent else r.0.sent[..|w.sent|])[k];
      hide Segment;
    }
  }

  lemma {:induction false} LatestStays(u: Urls, w: World, run: seq<Event>, tab: Tab, from: nat, latest: Pending)
    requires OnlyAbout(w, tab, latest) && SentOnly(w, from, tab, latest)
    requires Exec(u, w, run).Some? && NoSubmits(run, tab)
    ensures SentOnly(Exec(u, w, run).value, from, tab, latest)
    decreases |run|
  {
    if run != [] {
      assert run[0] in run;
      StepKeepsLatest(u, w, run[0], tab, from, latest);
      hide Step, OnlyAbout, SentOnly;
      LatestStays(u, Step(u, w, run[0]).value, run[1..], tab, from, latest);
    }
  }

  // ----- An older copy can always win ------------------------------------------------------

  /** What the copies a task carries look like where the task stands. */
  predicate Shape(pc: Pc) {
    match pc
    case SubmitClear(p) => !p.evaluated
    case SubmitSet(p) => !p.evaluated
    case EvalDefer(p) => p.awaitingUnlock
    case EvalVerdict(p) => Clickable(p)
    case _ => true
  }

  ghost predicate Shaped(w: World) {
    forall i :: i in w.tasks ==> Shape(w.tasks[i].pc)
  }

  lemma SegmentShape(u: Urls, w: World, tab: Tab, pc: Pc, o: Outcome)
    requires Shape(pc) && Segment(u, w, tab, pc, o).Some?
    ensures Shape(Segment(u, w, tab, pc, o).value.1)
  {
  }

  lemma StepShaped(u: Urls, w: World, e: Event)
    requires Shaped(w) && Step(u, w, e).Some?
    ensures Shaped(Step(u, w, e).value)
  {
    if e.Run? {
      SegmentShape(u, w, w.tasks[e.i].tab, w.tasks[e.i].pc, e.o);
      hide Segment, Shape;
    }
  }

  lemma {:induction false} ExecShaped(u: Urls, w: World, run: seq<Event>)
    requires Shaped(w) && Exec(u, w, run).Some?
    ensures Shaped(Exec(u, w, run).value)
    decreases |run|
  {
    hide Step, Shaped;
    if run != [] {
      StepShaped(u, w, run[0]);
      ExecShaped(u, Step(u, w, run[0]).value, run[1..]);
    }
  }

  /** After the run, in which nothing is submitted, the next thing sent is for the tab and from a
      record with the fields of `p`. */
  ghost predicate Wins(u: Urls, w: World, run: seq<Event>, tab: Tab, p: Pending) {
    && Exec(u, w, run).Some? && (forall e :: e in run ==> !e.Submit?)
    && Appends(w, Exec(u, w, run).value, tab) && SameFields(Exec(u, w, run).value.sent[|w.sent|].copy, p)
  }

  lemma WinsLater(u: Urls, w: World, e: Event, t: World, later: seq<Event>, tab: Tab, p: Pending)
    requires Step(u, w, e) == Some(t) && !e.Submit? && t.sent == w.sent && Wins(u, t, later, tab, p)
    ensures Wins(u, w, [e] + later, tab, p)
  {
    assert ([e] + later)[1..] == later;
    assert Exec(u, w, [e] + later) == Exec(u, t, later);
  }

  /** A click saves a clickable record. */
  lemma ClickWins(u: Urls, w: World, tab: Tab) returns (run: seq<Event>)
    requires tab in w.store && Clickable(w.store[tab])
    ensures Wins(u, w, run, tab, w.store[tab])
  {
    var j := FreshId(w.tasks.Keys);
    var press := Press(j, tab, if w.store[tab].mode == SaveMode then Save else Update);
    var t := Step(u, w, press).value;
    var read := Run(j, Go);
    assert [read][1..] == [] && Exec(u, t, [read]) == Exec(u, Step(u, t, read).value, []);
    assert Wins(u, t, [read], tab, w.store[tab]);
    WinsLater(u, w, press, t, [read], tab, w.store[tab]);
    run := [press] + [read];
  }

  /** A verdict is written and then clicked. */
  lemma VerdictWins(u: Urls, w: World, i: TaskId) returns (run: seq<Event>)
    requires i in w.tasks && w.tasks[i].pc.EvalVerdict? && Shape(w.tasks[i].pc)
    ensures Wins(u, w, run, w.tasks[i].tab, w.tasks[i].pc.copy)
  {
    var tab, p := w.tasks[i].tab, w.tasks[i].pc.copy;
    var t := Step(u, w, Run(i, Go)).value;
    run := ClickWins(u, t, tab);
    WinsLater(u, w, Run(i, Go), t, run, tab, p);
    run := [Run(i, Go)] + run;
  }

  predicate Undecided(pc: Pc) {
    pc.EvalMark? || pc.EvalConfig? || pc.EvalMatch?
  }

  /** The next outcome on the way to a verdict that offers to save. */
  function TowardsSave(pc: Pc): Outcome {
    if pc.EvalMark? then Go
    else if pc.EvalConfig? then ConfigIs(Config(false, false))
    else MatchIs(LoginMatch(false, None))
  }

  lemma {:induction false} UndecidedWins(u: Urls, w: World, i: TaskId) returns (run: seq<Event>)
    requires i in w.tasks && Undecided(w.tasks[i].pc)
    ensures Wins(u, w, run, w.tasks[i].tab, w.tasks[i].pc.copy)
    decreases if w.tasks[i].pc.EvalMark? then 2 else if w.tasks[i].pc.EvalConfig? then 1 else 0
  {
    var tab, p := w.tasks[i].tab, w.tasks[i].pc.copy;
    var e := Run(i, TowardsSave(w.tasks[i].pc));
    var t := Step(u, w, e).value;
    if w.tasks[i].pc.EvalMatch? {
      run := VerdictWins(u, t, i);
    } else {
      run := UndecidedWins(u, t, i);
    }
    assert SameFields(t.tasks[i].pc.copy, p);
    WinsLater(u, w, e, t, run, tab, p);
    run := [e] + run;
  }

  /** A savable record is clicked, or evaluated first. */
  lemma RecordWins(u: Urls, w: World, tab: Tab) returns (run: seq<Event>)
    requires tab in w.store && Savable(w.store[tab])
    ensures Wins(u, w, run, tab, w.store[tab])
  {
    var p := w.store[tab];
    if Clickable(p) {
      run := ClickWins(u, w, tab);
    } else {
      var k := FreshId(w.tasks.Keys);
      var t := Step(u, w, Evaluate(k, tab)).value;
      var t' := Step(u, t, Run(k, Go)).value;
      run := UndecidedWins(u, t', k);
      assert SameFields(t'.tasks[k].pc.copy, p);
      WinsLater(u, t, Run(k, Go), t', run, tab, p);
      WinsLater(u, w, Evaluate(k, tab), t, [Run(k, Go)] + run, tab, p);
      run := [Evaluate(k, tab)] + ([Run(k, Go)] + run);
    }
  }

  /** A copy that is about to be written is in the store next. */
  lemma WriterWins(u: Urls, w: World, i: TaskId) returns (run: seq<Event>)
    requires i in w.tasks && (w.tasks[i].pc.SubmitSet? || w.tasks[i].pc.EvalDefer?) && Shape(w.tasks[i].pc)
    ensures Wins(u, w, run, w.tasks[i].tab, Carried(w.tasks[i].pc).value)
  {
    var t := Step(u, w, Run(i, Go)).value;
    run := RecordWins(u, t, w.tasks[i].tab);
    WinsLater(u, w, Run(i, Go), t, run, w.tasks[i].tab, Carried(w.tasks[i].pc).value);
    run := [Run(i, Go)] + run;
  }

  /** In whatever state a task carries a copy, that copy can be the next thing saved. */
  lemma StaleCopyCanWin(u: Urls, w: World, i: TaskId) returns (run: seq<Event>)
    requires i in w.tasks && Shape(w.tasks[i].pc) && Carried(w.tasks[i].pc).Some?
    ensures Wins(u, w, run, w.tasks[i].tab, Carried(w.tasks[i].pc).value)
  {
    var pc := w.tasks[i].pc;
    if Undecided(pc) {
      run := UndecidedWins(u, w, i);
    } else if pc.EvalVerdict? {
      run := VerdictWins(u, w, i);
    } else if pc.SubmitClear? {
      var t := Step(u, w, Run(i, Go)).value;
      run := WriterWins(u, t, i);
      WinsLater(u, w, Run(i, Go), t, run, w.tasks[i].tab, pc.made);
      run := [Run(i, Go)] + run;
    } else {
      run := WriterWins(u, w, i);
    }
  }

  lemma OlderWins(u: Urls, w: World, tab: Tab, latest: Pending) returns (run: seq<Event>)
    requires Shaped(w) && !OnlyAbout(w, tab, latest)
    ensures Exec(u, w, run).Some? && NoSubmits(run, tab) && !SentOnly(Exec(u, w, run).value, |w.sent|, tab, latest)
  {
    if tab in w.store && Savable(w.store[tab]) && !SameFields(w.store[tab], latest) {
      run := RecordWins(u, w, tab);
    } else {
      var i :| i in w.tasks && w.tasks[i].tab == tab && Carried(w.tasks[i].pc).Some?
               && !SameFields(Carried(w.tasks[i].pc).value, latest);
      run := StaleCopyCanWin(u, w, i);
    }
  }

  /** Exactly when only the latest submission on a tab can be saved until the next one: when its
      record, if it can be saved at all, and every copy in flight are about that submission. */
  lemma LatestWins(u: Urls, before: seq<Event>, w: World, tab: Tab, latest: Pending)
    requires Exec(u, INIT, before) == Some(w)
    ensures OnlyAbout(w, tab, latest) <==>
              forall run {:trigger Exec(u, w, run)} :: Exec(u, w, run).Some? && NoSubmits(run, tab) ==>
                SentOnly(Exec(u, w, run).value, |w.sent|, tab, latest)
  {
    ExecShaped(u, INIT, before);
    hide Exec;
    if OnlyAbout(w, tab, latest) {
      forall run | Exec(u, w, run).Some? && NoSubmits(run, tab)
        ensures SentOnly(Exec(u, w, run).value, |w.sent|, tab, latest)
      {
        LatestStays(u, w, run, tab, |w.sent|, latest);
      }
    } else {
      var run := OlderWins(u, w, tab, latest);
      assert Exec(u, w, run).Some?;
    }
  }

  lemma {:induction false} ExecSnoc(u: Urls, w: World, run: seq<Event>, e: Event)
    requires Exec(u, w, run).Some?
    ensures Exec(u, w, run + [e]) == Step(u, Exec(u, w, run).value, e)
    decreases |run|
  {
    if run == [] {
      assert [e][1..] == [] && run + [e] == [e];
      assert Exec(u, w, [e]) == (if Step(u, w, e).None? then None else Exec(u, Step(u, w, e).value, []));
    } else {
      assert (run + [e])[1..] == run[1..] + [e];
      ExecSnoc(u, Step(u, w, run[0]).value, run[1..], e);
    }
  }

  lemma Then(u: Urls, run0: seq<Event>, w0: World, e: Event) returns (run: seq<Event>, w: World)
    requires Exec(u, INIT, run0) == Some(w0) && Step(u, w0, e).Some?
    ensures Exec(u, INIT, run) == Some(w) && w == Step(u, w0, e).value && run == run0 + [e]
  {
    ExecSnoc(u, INIT, run0, e);
    run, w := run0 + [e], Step(u, w0, e).value;
  }

  /** A submission is made, and its task runs until its record is stored. */
  lemma Stored(u: Urls, run0: seq<Event>, w0: World, i: TaskId, tab: Tab, s: Submission)
    returns (run: seq<Event>, w: World)
    requires Exec(u, INIT, run0) == Some(w0) && i !in w0.tasks && Record(u, s).Some?
    ensures Exec(u, INIT, run) == Some(w) && run == run0 + [Submit(i, tab, s), Run(i, Go), Run(i, Go)]
    ensures tab in w.store && w.store[tab] == Record(u, s).value && w.tasks == w0.tasks[i := Task(tab, Done)]
    ensures w.submitted == w0.submitted + {(tab, s)} && w.sent == w0.sent
  {
    run, w := Then(u, run0, w0, Submit(i, tab, s));
    run, w := Then(u, run, w, Run(i, Go));
    run, w := Then(u, run, w, Run(i, Go));
    assert run == run0 + [Submit(i, tab, s), Run(i, Go), Run(i, Go)];
  }

  /** A submission is stored, and an evaluation reads it. */
  lemma BeingEvaluated(u: Urls, tab: Tab, s: Submission) returns (run: seq<Event>, w: World)
    requires Record(u, s).Some?
    ensures Exec(u, INIT, run) == Some(w) && w.sent == []
    ensures run == [Submit(0, tab, s), Run(0, Go), Run(0, Go), Evaluate(1, tab), Run(1, Go)]
    ensures w.tasks == map[0 := Task(tab, Done), 1 := Task(tab, EvalMark(Record(u, s).value.(evaluated := true)))]
  {
    run, w := Stored(u, [], INIT, 0, tab, s);
    run, w := Then(u, run, w, Evaluate(1, tab));
    run, w := Then(u, run, w, Run(1, Go));
  }

  /** `older` is submitted and stored, an evaluation reads it, and `newer` is submitted and
      stored. */
  function Overtaken(tab: Tab, older: Submission, newer: Submission): seq<Event> {
    [Submit(0, tab, older), Run(0, Go), Run(0, Go), Evaluate(1, tab), Run(1, Go),
     Submit(2, tab, newer), Run(2, Go), Run(2, Go)]
  }

  /** An older submission can be saved after a newer one has been stored: from the start there is
      a run after which the record of the tab is that of the newer submission, nothing has been
      sent, and yet the next thing sent can be the older one. */
  lemma OlderSubmissionCanBeSaved(u: Urls, tab: Tab, older: Submission, newer: Submission)
    returns (w: World, run: seq<Event>)
    requires Record(u, older).Some? && Record(u, newer).Some?
    ensures Exec(u, INIT, Overtaken(tab, older, newer)) == Some(w)
    ensures tab in w.store && w.store[tab] == Record(u, newer).value && w.sent == []
    ensures Wins(u, w, run, tab, Record(u, older).value)
    ensures !SameFields(Record(u, older).value, Record(u, newer).value) ==> !OnlyAbout(w, tab, Record(u, newer).value)
  {
    hide Step, Exec, Wins, Record;
    var before, v := BeingEvaluated(u, tab, older);
    before, w := Stored(u, before, v, 2, tab, newer);
    assert before == Overtaken(tab, older, newer);
    assert 1 in w.tasks && w.tasks[1] == v.tasks[1];
    run := StaleCopyCanWin(u, w, 1);
    var copy := v.tasks[1].pc.copy;
    assert SameFields(copy, Record(u, older).value);
    WinsAs(u, w, run, tab, copy, Record(u, older).value);
  }

  lemma WinsAs(u: Urls, w: World, run: seq<Event>, tab: Tab, p: Pending, q: Pending)
    requires Wins(u, w, run, tab, p) && SameFields(p, q)
    ensures Wins(u, w, run, tab, q)
  {
  }

  // ----- What is offered and what a click does ---------------------------------------------

  /** The run, in which nothing is submitted, leads from one world to the other. */
  ghost predicate Leads(u: Urls, w: World, run: seq<Event>, t: World) {
    Exec(u, w, run) == Some(t) && forall e :: e in run ==> !e.Submit?
  }

  lemma Nothing(u: Urls, w: World)
    ensures Leads(u, w, [], w)
  {
  }

  lemma Along(u: Urls, w: World, run: seq<Event>, s: World, e: Event) returns (longer: seq<Event>, t: World)
    requires Leads(u, w, run, s) && Step(u, s, e).Some? && !e.Submit?
    ensures Leads(u, w, longer, t) && t == Step(u, s, e).value && longer == run + [e]
  {
    ExecSnoc(u, w, run, e);
    longer, t := run + [e], Step(u, s, e).value;
  }

  /** The record is still to be evaluated. */
  predicate Open(p: Pending) {
    !p.evaluated || p.awaitingUnlock
  }

  /** An evaluation reads the record, marks it, and asks for the configuration. */
  lemma StartsEvaluation(u: Urls, w: World, tab: Tab) returns (run: seq<Event>, t: World, i: TaskId)
    requires tab in w.store && Open(w.store[tab])
    ensures Leads(u, w, run, t) && t.sent == w.sent && t.store == w.store[tab := w.store[tab].(evaluated := true)]
    ensures i in t.tasks && t.tasks[i] == Task(tab, EvalConfig(w.store[tab].(evaluated := true)))
  {
    hide Leads;
    Nothing(u, w);
    i := FreshId(w.tasks.Keys);
    run, t := Along(u, w, [], w, Evaluate(i, tab));
    run, t := Along(u, w, run, t, Run(i, Go));
    run, t := Along(u, w, run, t, Run(i, Go));
  }

  /** While the vault is locked, logged out or not known, the record is kept for later, marked as
      such, and stays open to evaluation. */
  lemma LockedVaultDefers(u: Urls, w: World, tab: Tab, config: ConfigReply) returns (run: seq<Event>, t: World)
    requires tab in w.store && Open(w.store[tab]) && config != Config(false, false)
    ensures Leads(u, w, run, t) && t.sent == w.sent && tab in t.store && Open(t.store[tab])
    ensures t.store == w.store[tab := w.store[tab].(evaluated := false, awaitingUnlock := true, mode := LockedMode)]
  {
    hide Leads;
    var i;
    run, t, i := StartsEvaluation(u, w, tab);
    run, t := Along(u, w, run, t, Run(i, ConfigIs(config)));
    run, t := Along(u, w, run, t, Run(i, Go));
  }

  /** With an unlocked vault the agent's answer decides: credentials that are stored already are
      dropped, a changed password is offered as an update of the entry, and anything else as a new
      entry. */
  lemma AnswerDecides(u: Urls, w: World, tab: Tab, reply: MatchReply) returns (run: seq<Event>, t: World)
    requires tab in w.store && Open(w.store[tab])
    ensures Leads(u, w, run, t) && t.sent == w.sent
    ensures var judged := w.store[tab].(evaluated := true, awaitingUnlock := false);
            match reply
            case Unexpected => t.store == w.store - {tab}
            case LoginMatch(true, _) => t.store == w.store - {tab}
            case LoginMatch(false, None) => t.store == w.store[tab := judged.(mode := SaveMode, entryId := None)]
            case LoginMatch(false, Some(id)) =>
              t.store == w.store[tab := judged.(mode := if id == "" then SaveMode else UpdateMode, entryId := Some(id))]
  {
    hide Leads;
    var i;
    run, t, i := StartsEvaluation(u, w, tab);
    run, t := Along(u, w, run, t, Run(i, ConfigIs(Config(false, false))));
    run, t := Along(u, w, run, t, Run(i, MatchIs(reply)));
    run, t := Along(u, w, run, t, Run(i, Go));
  }

  /** What a click sends. */
  function SentBy(u: Urls, p: Pending, click: Click): Option<AgentAction> {
    match (click, p.mode)
    case (Save, SaveMode) => Some(AddEntry(p.domain, p.username, p.password, UriOf(u, p.url)))
    case (Update, UpdateMode) =>
      if p.entryId == None || p.entryId == Some("") then None
      else Some(UpdateLoginPassword(p.entryId.value, p.password))
    case _ => None
  }

  /** A click reads the record and sends what it should. */
  lemma ClickSends(u: Urls, w: World, tab: Tab, click: Click) returns (run: seq<Event>, t: World, i: TaskId)
    requires tab in w.store
    ensures Leads(u, w, run, t) && t.store == w.store && i in t.tasks && t.tasks[i].tab == tab
    ensures var p := w.store[tab];
            && t.tasks[i].pc == (if click == UnlockClick && p.mode == LockedMode then Done
                                 else if SentBy(u, p, click).Some? then BarSent else Clear)
            && t.sent == w.sent + (match SentBy(u, p, click)
                                   case Some(action) => [Sent(tab, p, action)]
                                   case None => [])
  {
    hide Leads;
    Nothing(u, w);
    i := FreshId(w.tasks.Keys);
    run, t := Along(u, w, [], w, Press(i, tab, click));
    run, t := Along(u, w, run, t, Run(i, Go));
  }

  /** A click on the bar ends the matter, except that an unlock keeps the record that waits for it; a
      refusal of the agent keeps the record as well. */
  lemma ClickDecides(u: Urls, w: World, tab: Tab, click: Click, accepted: bool) returns (run: seq<Event>, t: World)
    requires tab in w.store
    ensures Leads(u, w, run, t)
    ensures t.sent == w.sent + (match SentBy(u, w.store[tab], click)
                                case Some(action) => [Sent(tab, w.store[tab], action)]
                                case None => [])
    ensures var kept := (click == UnlockClick && w.store[tab].mode == LockedMode)
                        || (SentBy(u, w.store[tab], click).Some? && !accepted);
            t.store == if kept then w.store else w.store - {tab}
  {
    hide Leads, SentBy;
    var i;
    run, t, i := ClickSends(u, w, tab, click);
    if t.tasks[i].pc.BarSent? {
      run, t := Along(u, w, run, t, Run(i, if accepted then Go else Fail));
    }
    if t.tasks[i].pc.Clear? {
      run, t := Along(u, w, run, t, Run(i, Go));
    }
  }

  /** The origin of the page, or its address when it has none. */
  function UriOf(u: Urls, url: string): string {
    match u.origin(url)
    case Some(origin) => if origin == "" then url else origin
    case None => url
  }

  lemma LeadsOn(u: Urls, w: World, r: seq<Event>, s: World, r': seq<Event>, t: World)
    requires Leads(u, w, r, s) && Leads(u, s, r', t)
    ensures Leads(u, w, r + r', t)
  {
    ExecJoins(u, w, r, r');
  }

  lemma {:induction false} ExecJoins(u: Urls, w: World, run: seq<Event>, more: seq<Event>)
    requires Exec(u, w, run).Some?
    ensures Exec(u, w, run + more) == Exec(u, Exec(u, w, run).value, more)
    decreases |run|
  {
    if run == [] {
      assert run + more == more;
    } else {
      assert (run + more)[1..] == run[1..] + more;
      ExecJoins(u, Step(u, w, run[0]).value, run[1..], more);
    }
  }

  /** So a changed password that is evaluated and confirmed reaches its entry, and the record goes. */
  lemma ChangedPasswordIsUpdated(u: Urls, w: World, tab: Tab, id: string) returns (run: seq<Event>, t: World)
    requires tab in w.store && Open(w.store[tab]) && id != ""
    ensures Leads(u, w, run, t) && t.store == w.store - {tab} && |t.sent| == |w.sent| + 1
    ensures t.sent[|w.sent|].tab == tab && t.sent[|w.sent|].action == UpdateLoginPassword(id, w.store[tab].password)
  {
    hide Leads;
    var s, later;
    run, s := AnswerDecides(u, w, tab, LoginMatch(false, Some(id)));
    later, t := ClickDecides(u, s, tab, Update, true);
    LeadsOn(u, w, run, s, later, t);
    run := run + later;
  }

  // ----- Failures --------------------------------------------------------------------------

  /** What a task that is suspended here can be resumed with: the answer it asked for, or a failure. */
  predicate Answers(pc: Pc, o: Outcome) {
    match pc
    case EvalConfig(_) => o.ConfigIs? || o == Fail
    case EvalMatch(_, _) => o.MatchIs? || o == Fail
    case Done => false
    case _ => o == Go || o == Fail
  }

  /** The part of an evaluation that gives the record up when anything fails. */
  predicate GivesUp(pc: Pc) {
    pc.EvalConfig? || pc.EvalDefer? || pc.EvalMatch? || pc.EvalVerdict? || pc.EvalShow?
  }

  /** A task goes on with every answer and with nothing else. A failure changes nothing by itself: the
      task ends, unless it has begun to talk to the agent about the record, which it then gives up. */
  lemma FailuresAreHandled(u: Urls, w: World, i: TaskId, o: Outcome)
    requires i in w.tasks
    ensures Step(u, w, Run(i, o)).Some? <==> Answers(w.tasks[i].pc, o)
    ensures w.tasks[i].pc != Done ==>
              Step(u, w, Run(i, Fail))
              == Some(w.(tasks := w.tasks[i := Task(w.tasks[i].tab, if GivesUp(w.tasks[i].pc) then Clear else Done)]))
  {
  }

  /** Giving up, like closing the tab or running out of time, takes the record away and sends nothing. */
  lemma GivingUpDrops(u: Urls, w: World, i: TaskId) returns (t: World)
    requires i in w.tasks && GivesUp(w.tasks[i].pc)
    ensures Leads(u, w, [Run(i, Fail), Run(i, Go)], t) && t.store == w.store - {w.tasks[i].tab} && t.sent == w.sent
  {
    hide Leads, Exec;
    Nothing(u, w);
    var run;
    run, t := Along(u, w, [], w, Run(i, Fail));
    run, t := Along(u, w, run, t, Run(i, Go));
    assert run == [Run(i, Fail), Run(i, Go)];
  }

  lemma ForgettingDrops(u: Urls, w: World, i: TaskId, tab: Tab) returns (t: World)
    requires i !in w.tasks
    ensures Leads(u, w, [Forget(i, tab), Run(i, Go)], t) && t.store == w.store - {tab} && t.sent == w.sent
  {
    hide Leads, Exec;
    Nothing(u, w);
    var run;
    run, t := Along(u, w, [], w, Forget(i, tab));
    run, t := Along(u, w, run, t, Run(i, Go));
    assert run == [Forget(i, tab), Run(i, Go)];
  }

  /** A bar that cannot be shown is such a failure: the record that was just written goes again. */
  lemma UnshownBarDrops(u: Urls, w: World, i: TaskId) returns (t: World)
    requires i in w.tasks && (w.tasks[i].pc.EvalVerdict? || w.tasks[i].pc.EvalDefer?)
    ensures Leads(u, w, [Run(i, Go), Run(i, Fail), Run(i, Go)], t)
    ensures t.store == w.store - {w.tasks[i].tab} && t.sent == w.sent
  {
    hide Leads, Exec;
    Nothing(u, w);
    var run;
    run, t := Along(u, w, [], w, Run(i, Go));
    run, t := Along(u, w, run, t, Run(i, Fail));
    run, t := Along(u, w, run, t, Run(i, Go));
    assert run == [Run(i, Go), Run(i, Fail), Run(i, Go)];
  }

  /** A complete submission first takes away the record of the tab, and then puts a new one there, which
      is still to be evaluated. Every event that starts a task starts a new one. */
  lemma SubmissionReplaces(u: Urls, w: World, i: TaskId, tab: Tab, s: Submission) returns (middle: World, t: World)
    requires i !in w.tasks && Complete(u, s)
    ensures Step(u, w, Submit(i, tab, s)).Some?
    ensures Step(u, Step(u, w, Submit(i, tab, s)).value, Run(i, Go)) == Some(middle) && middle.store == w.store - {tab}
    ensures Step(u, middle, Run(i, Go)) == Some(t) && t.tasks == w.tasks[i := Task(tab, Done)]
    ensures t.store == (w.store - {tab})[tab := Pending(s.username, s.password, s.url, u.domain(s.url).value, None,
                                                        Unset, false, false)]
  {
    var t0 := Step(u, w, Submit(i, tab, s)).value;
    middle := Step(u, t0, Run(i, Go)).value;
    t := Step(u, middle, Run(i, Go)).value;
  }

  lemma TasksAreNew(u: Urls, w: World, i: TaskId, tab: Tab, s: Submission, click: Click)
    requires i in w.tasks
    ensures Complete(u, s) ==> Step(u, w, Submit(i, tab, s)).None?
    ensures Step(u, w, Evaluate(i, tab)).None? && Step(u, w, Press(i, tab, click)).None?
    ensures Step(u, w, Forget(i, tab)).None?
  {
  }

  // ----- Which submissions count -----------------------------------------------------------

  ghost predicate CompleteOnly(u: Urls, w: World) {
    forall tab, s :: (tab, s) in w.submitted ==> Complete(u, s)
  }

  /** A domain, a user name and a password are there. */
  predicate Complete(u: Urls, s: Submission) {
    && s.username != "" && s.password != ""
    && match u.domain(s.url) case Some(domain) => domain != "" case None => false
  }

  lemma CompleteStep(u: Urls, w: World, e: Event)
    requires CompleteOnly(u, w) && Step(u, w, e).Some?
    ensures CompleteOnly(u, Step(u, w, e).value)
    ensures e.Submit? && !Complete(u, e.s) ==> Step(u, w, e) == Some(w)
    ensures e.Submit? && Complete(u, e.s) ==> (e.tab, e.s) in Step(u, w, e).value.submitted
  {
  }

  lemma {:induction false} CompleteExec(u: Urls, w: World, run: seq<Event>)
    requires CompleteOnly(u, w) && Exec(u, w, run).Some?
    ensures CompleteOnly(u, Exec(u, w, run).value)
    decreases |run|
  {
    hide Step, CompleteOnly;
    if run != [] {
      CompleteStep(u, w, run[0]);
      CompleteExec(u, Step(u, w, run[0]).value, run[1..]);
    }
  }

  /** In every run a submission without a domain, a user name or a password changes nothing, and
      so never counts as one that something is saved for. */
  lemma OnlyCompleteSubmissions(u: Urls, run: seq<Event>, w: World, i: TaskId, tab: Tab, s: Submission)
    requires Exec(u, INIT, run) == Some(w)
    ensures forall t: Tab, c: Submission :: (t, c) in w.submitted ==> Complete(u, c)
    ensures !Complete(u, s) ==> Step(u, w, Submit(i, tab, s)) == Some(w)
  {
    CompleteExec(u, INIT, run);
  }
}
