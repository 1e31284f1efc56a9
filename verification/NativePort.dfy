/** The request queue of the browser extension (`background.js`): promises wait in a queue, one
    request at a time is with the native host, and a lost port fails everything that waits. */
module NativePort {
  import opened Prelude

  datatype Request = Request(id: nat, action: string)

  /** What a promise can be settled with. A reply names the request the host was answering. */
  datatype Outcome = Resolved(answered: Request, body: string) | Rejected

  /** How the browser reacts while a handler runs: whether opening a port throws, and which
      messages a port refuses. */
  datatype Browser = Browser(connectThrows: bool, postThrows: Request -> bool)

  /** All module variables, what the host has been given and not answered (`atHost`), and how
      promises have been settled. A promise keeps its first settlement. */
  datatype Store = Store(
    port: bool,
    queue: seq<Request>,
    isProcessing: bool,
    atHost: seq<Request>,
    settled: map<nat, Outcome>,
    next: nat
  )

  const INIT := Store(false, [], false, [], map[], 0)

  /** The first settlement of a promise stands. */
  function Settled(m: map<nat, Outcome>, r: Request, o: Outcome): map<nat, Outcome> {
    if r.id in m then m else m[r.id := o]
  }

  function AllRejected(m: map<nat, Outcome>, rs: seq<Request>): map<nat, Outcome>
    decreases |rs|
  {
    if rs == [] then m else AllRejected(Settled(m, rs[0], Rejected), rs[1..])
  }

  /** Opening the port would throw. */
  predicate Throws(s: Store, b: Browser) {
    !s.isProcessing && s.queue != [] && !s.port && b.connectThrows
  }

  /** `processQueue` on values. */
  function Processed(s: Store, b: Browser): Store
    decreases |s.queue|
  {
    if s.isProcessing || s.queue == [] || Throws(s, b) then s
    else
      var head := s.queue[0];
      if !b.postThrows(head) then s.(port := true, isProcessing := true, atHost := s.atHost + [head])
      else Processed(s.(port := true, queue := s.queue[1..], settled := Settled(s.settled, head, Rejected)), b)
  }

  /** A new promise: its request is queued and the queue is processed; if that throws, the
      promise is rejected, but its request stays in the queue. */
  function Sent(s: Store, action: string, b: Browser): Store {
    var r := Request(s.next, action);
    var queued := s.(queue := s.queue + [r], next := s.next + 1);
    if Throws(queued, b) then queued.(settled := Settled(s.settled, r, Rejected)) else Processed(queued, b)
  }

  /** The host answers the request it was given first. */
  function Answered(s: Store, body: string, b: Browser): Store
    requires s.atHost != []
  {
    var answered := s.atHost[0];
    var taken := s.(atHost := s.atHost[1..], isProcessing := false);
    Processed(if s.queue == [] then taken
              else taken.(queue := s.queue[1..],
                          settled := Settled(s.settled, s.queue[0], Resolved(answered, body))), b)
  }

  /** The port is gone: every promise in the queue fails. */
  function Disconnected(s: Store): Store {
    s.(port := false, queue := [], isProcessing := false, atHost := [], settled := AllRejected(s.settled, s.queue))
  }

  // ----- The module ------------------------------------------------------------------------

  class Background {
    var port: bool
    var queue: seq<Request>
    var isProcessing: bool
    var atHost: seq<Request>
    var settled: map<nat, Outcome>
    var next: nat

    constructor ()
      ensures View() == INIT
    {
      port, queue, isProcessing, atHost, settled, next := false, [], false, [], map[], 0;
    }

    ghost function View(): Store
      reads this
    {
      Store(port, queue, isProcessing, atHost, settled, next)
    }

    method Settle(r: Request, o: Outcome)
      modifies this`settled
      ensures settled == Settled(old(settled), r, o)
    {
      if r.id !in settled {
        settled := settled[r.id := o];
      }
    }

    /** `processQueue`. `threw` when opening the port threw out of it. */
    method ProcessQueue(b: Browser) returns (threw: bool)
      modifies this
      ensures threw == Throws(old(View()), b) && View() == Processed(old(View()), b)
      decreases |queue|
    {
      if isProcessing || queue == [] {
        return false;
      }
      if !port {
        if b.connectThrows {
          return true;
        }
        port := true;
      }
      isProcessing := true;
      var head := queue[0];
      if !b.postThrows(head) {
        atHost := atHost + [head];
        return false;
      }
      queue := queue[1..];
      isProcessing := false;
      Settle(head, Rejected);
      threw := ProcessQueue(b);
    }

    /** `sendToAgent`. */
    method SendToAgent(action: string, b: Browser) returns (promise: nat)
      modifies this
      ensures promise == old(next) && View() == Sent(old(View()), action, b)
    {
      promise := next;
      next := next + 1;
      queue := queue + [Request(promise, action)];
      var threw := ProcessQueue(b);
      if threw {
        Settle(Request(promise, action), Rejected);
      }
    }

    /** The `onMessage` listener. */
    method OnMessage(body: string, b: Browser)
      requires atHost != []
      modifies this
      ensures View() == Answered(old(View()), body, b)
    {
      var answered := atHost[0];
      atHost := atHost[1..];
      if queue != [] {
        var req := queue[0];
        queue := queue[1..];
        Settle(req, Resolved(answered, body));
      }
      isProcessing := false;
      var _ := ProcessQueue(b);
    }

    /** The `onDisconnect` listener. */
    method OnDisconnect()
      modifies this
      ensures View() == Disconnected(old(View()))
    {
      port, atHost := false, [];
      while queue != []
        invariant AllRejected(settled, queue) == AllRejected(old(settled), old(queue))
        invariant unchanged(`next) && !port && atHost == []
        decreases |queue|
      {
        var req := queue[0];
        queue := queue[1..];
        Settle(req, Rejected);
      }
      isProcessing := false;
    }
  }

  // ----- Runs ------------------------------------------------------------------------------

  /** The host answers only what it was given, and only an open port can be lost. */
  datatype Event = Send(action: string, b: Browser) | Reply(body: string, b: Browser) | Disconnect

  function Step(s: Store, e: Event): Option<Store> {
    match e
    case Send(action, b) => Some(Sent(s, action, b))
    case Reply(body, b) => if s.atHost != [] then Some(Answered(s, body, b)) else None
    case Disconnect => if s.port then Some(Disconnected(s)) else None
  }

  function Exec(s: Store, run: seq<Event>): Option<Store>
    decreases |run|
  {
    if run == [] then Some(s) else
      var t := Step(s, run[0]);
      if t.None? then None else Exec(t.value, run[1..])
  }

  /** The actions of the requests of a run, in the order of their promises. */
  function Actions(run: seq<Event>): seq<string> {
    if run == [] then [] else (if run[0].Send? then [run[0].action] else []) + Actions(run[1..])
  }

  predicate Waits(queue: seq<Request>, id: nat) {
    exists r :: r in queue && r.id == id
  }

  /** The queue holds known requests in the order they were made; the host has its first one or
      none; promises are settled with answers to their own requests, and none is forgotten. */
  ghost predicate Consistent(s: Store, actions: seq<string>) {
    && s.next == |actions|
    && (forall r :: r in s.queue ==> r.id < s.next && r.action == actions[r.id])
    && (forall i, j :: 0 <= i < j < |s.queue| ==> s.queue[i].id < s.queue[j].id)
    && (s.isProcessing ==> s.port && s.queue != [])
    && s.atHost == (if s.isProcessing then [s.queue[0]] else [])
    && (forall id :: id in s.settled ==> id < s.next && OwnAnswer(s.settled[id], id, actions))
    && (forall id: nat :: id < s.next ==> id in s.settled || Waits(s.queue, id))
  }

  predicate OwnAnswer(o: Outcome, id: nat, actions: seq<string>)
    requires id < |actions|
  {
    o.Resolved? ==> o.answered == Request(id, actions[id])
  }

  /** Between two events something is queued and nothing is with the host. */
  predicate Stuck(s: Store) {
    s.queue != [] && !s.isProcessing
  }

  ghost predicate Inv(s: Store, actions: seq<string>) {
    Consistent(s, actions) && (Stuck(s) ==> !s.port)
  }

  /** No promise waits in the queue after it has been settled. */
  ghost predicate Exclusive(s: Store) {
    forall r :: r in s.queue ==> r.id !in s.settled
  }

  lemma TakeHead(s: Store, actions: seq<string>, o: Outcome, t: Store)
    requires Consistent(s, actions) && s.queue != [] && OwnAnswer(o, s.queue[0].id, actions)
    requires t == s.(queue := s.queue[1..], settled := Settled(s.settled, s.queue[0], o),
                     port := true, isProcessing := false, atHost := [])
    ensures Consistent(t, actions) && (Exclusive(s) ==> Exclusive(t))
  {
    forall id: nat | id < t.next ensures id in t.settled || Waits(t.queue, id) {
      if id !in t.settled {
        var r :| r in s.queue && r.id == id;
        assert r in t.queue;
      }
    }
    forall r | r in t.queue ensures r in s.queue && r.id > s.queue[0].id {
    }
  }

  lemma {:induction false} ProcessedInv(s: Store, b: Browser, actions: seq<string>)
    requires Consistent(s, actions) && !Throws(s, b)
    ensures Inv(Processed(s, b), actions) && !Stuck(Processed(s, b)) && (Exclusive(s) ==> Exclusive(Processed(s, b)))
    decreases |s.queue|
  {
    if !s.isProcessing && s.queue != [] && b.postThrows(s.queue[0]) {
      var t := s.(port := true, queue := s.queue[1..], settled := Settled(s.settled, s.queue[0], Rejected));
      TakeHead(s, actions, Rejected, t);
      ProcessedInv(t, b, actions);
    }
  }

  lemma Queue(s: Store, action: string, actions: seq<string>, t: Store)
    requires Consistent(s, actions)
    requires t == s.(queue := s.queue + [Request(s.next, action)], next := s.next + 1)
    ensures Consistent(t, actions + [action]) && (Exclusive(s) ==> Exclusive(t))
  {
    assert Request(s.next, action) in t.queue;
    forall id: nat | id < t.next ensures id in t.settled || Waits(t.queue, id) {
      if id < s.next && id !in s.settled {
        var q :| q in s.queue && q.id == id;
        assert q in t.queue;
      }
    }
  }

  lemma RejectLast(s: Store, actions: seq<string>, t: Store)
    requires Consistent(s, actions) && s.queue != []
    requires t == s.(settled := Settled(s.settled, s.queue[|s.queue| - 1], Rejected))
    ensures Consistent(t, actions)
  {
  }

  lemma SentInv(s: Store, action: string, b: Browser, actions: seq<string>)
    requires Inv(s, actions)
    ensures Inv(Sent(s, action, b), actions + [action])
    ensures Stuck(Sent(s, action, b)) <==> !s.isProcessing && !s.port && b.connectThrows
    ensures Exclusive(s) && !Stuck(Sent(s, action, b)) ==> Exclusive(Sent(s, action, b))
  {
    var queued := s.(queue := s.queue + [Request(s.next, action)], next := s.next + 1);
    Queue(s, action, actions, queued);
    hide Consistent, Processed, Exclusive;
    if Throws(queued, b) {
      RejectLast(queued, actions + [action], Sent(s, action, b));
    } else {
      ProcessedInv(queued, b, actions + [action]);
    }
  }

  lemma AnsweredInv(s: Store, body: string, b: Browser, actions: seq<string>)
    requires Inv(s, actions) && s.atHost != []
    ensures Inv(Answered(s, body, b), actions) && !Stuck(Answered(s, body, b))
    ensures Exclusive(s) ==> Exclusive(Answered(s, body, b))
  {
    var t := s.(atHost := [], isProcessing := false, queue := s.queue[1..],
                settled := Settled(s.settled, s.queue[0], Resolved(s.queue[0], body)));
    assert s.port && s.atHost == [s.queue[0]] && s.atHost[1..] == [];
    TakeHead(s, actions, Resolved(s.queue[0], body), t);
    hide Consistent, Processed, Exclusive;
    assert Answered(s, body, b) == Processed(t, b);
    ProcessedInv(t, b, actions);
  }

  lemma {:induction false} AllRejectedIs(m: map<nat, Outcome>, rs: seq<Request>)
    ensures forall id :: id in AllRejected(m, rs) <==> id in m || Waits(rs, id)
    ensures forall id :: id in AllRejected(m, rs) ==> AllRejected(m, rs)[id] == if id in m then m[id] else Rejected
    decreases |rs|
  {
    if rs != [] {
      AllRejectedIs(Settled(m, rs[0], Rejected), rs[1..]);
      assert forall r :: r in rs <==> r == rs[0] || r in rs[1..];
    }
  }

  lemma DisconnectedInv(s: Store, actions: seq<string>)
    requires Inv(s, actions)
    ensures Inv(Disconnected(s), actions) && !Stuck(Disconnected(s)) && Exclusive(Disconnected(s))
  {
    AllRejectedIs(s.settled, s.queue);
  }

  lemma StepInv(s: Store, e: Event, actions: seq<string>)
    requires Inv(s, actions) && Step(s, e).Some?
    ensures var t := Step(s, e).value;
            && Inv(t, actions + Actions([e]))
            && (Stuck(t) <==> FailsToOpen(s, e))
            && (Exclusive(s) && !Stuck(t) ==> Exclusive(t))
  {
    assert Actions([e]) == if e.Send? then [e.action] else [];
    assert actions + [] == actions;
    hide Consistent, Exclusive, Sent, Answered, Disconnected;
    match e
    case Send(action, b) => SentInv(s, action, b, actions);
    case Reply(body, b) => AnsweredInv(s, body, b, actions);
    case Disconnect => DisconnectedInv(s, actions);
  }

  /** The request needs a port, and opening one throws. */
  predicate FailsToOpen(s: Store, e: Event) {
    e.Send? && !s.isProcessing && !s.port && e.b.connectThrows
  }

  /** No request of the run was made while a port was needed and could not be opened. */
  predicate PortsOpen(s: Store, run: seq<Event>)
    decreases |run|
  {
    run == [] || (!FailsToOpen(s, run[0]) && (Step(s, run[0]).Some? ==> PortsOpen(Step(s, run[0]).value, run[1..])))
  }

  lemma {:induction false} ExecInv(s: Store, run: seq<Event>, actions: seq<string>)
    requires Inv(s, actions) && Exec(s, run).Some?
    ensures Inv(Exec(s, run).value, actions + Actions(run))
    ensures PortsOpen(s, run) && Exclusive(s) && !Stuck(s) ==>
              Exclusive(Exec(s, run).value) && !Stuck(Exec(s, run).value)
    decreases |run|
  {
    hide Consistent, Exclusive, Step;
    if run == [] {
      assert actions + [] == actions;
    } else {
      StepInv(s, run[0], actions);
      ExecInv(Step(s, run[0]).value, run[1..], actions + Actions([run[0]]));
      assert [run[0]][1..] == [] && Actions([run[0]]) == (if run[0].Send? then [run[0].action] else []) + [];
      assert actions + Actions([run[0]]) + Actions(run[1..]) == actions + Actions(run);
    }
  }

  /** Over every run: a resolved promise carries the host's answer to its own request; the host
      holds at most one request, the oldest in the queue; and every promise is waiting or
      settled. If no port failed to open, no promise is both, and the queue is non-empty exactly
      when one request is with the host. */
  lemma RepliesAreCorrelated(run: seq<Event>, s: Store)
    requires Exec(INIT, run) == Some(s)
    ensures forall id :: id in s.settled && s.settled[id].Resolved? ==>
              id < |Actions(run)| && s.settled[id].answered == Request(id, Actions(run)[id])
    ensures |s.atHost| <= 1 && (s.atHost != [] ==> s.queue != [] && s.atHost[0] == s.queue[0])
    ensures forall id: nat :: id < |Actions(run)| <==> id in s.settled || Waits(s.queue, id)
    ensures PortsOpen(INIT, run) ==>
              && (s.queue != [] <==> |s.atHost| == 1)
              && forall id: nat :: !(id in s.settled && Waits(s.queue, id))
  {
    hide PortsOpen, Exec, Actions;
    ExecInv(INIT, run, []) by {
      assert Inv(INIT, []) && Exclusive(INIT);
    }
    assert [] + Actions(run) == Actions(run);
  }

  // ----- What promises are settled with ----------------------------------------------------

  /** Posting this request was refused by the port. */
  predicate Refused(b: Browser, queue: seq<Request>, id: nat) {
    exists r :: r in queue && r.id == id && b.postThrows(r)
  }

  /** Settled promises keep their outcome. */
  predicate Keeps(m: map<nat, Outcome>, n: map<nat, Outcome>) {
    forall id :: id in m ==> id in n && n[id] == m[id]
  }

  lemma {:induction false} ProcessedSettles(s: Store, b: Browser)
    ensures Keeps(s.settled, Processed(s, b).settled)
    ensures forall id :: id in Processed(s, b).settled && id !in s.settled ==>
              Processed(s, b).settled[id] == Rejected && Refused(b, s.queue, id)
    decreases |s.queue|
  {
    if !s.isProcessing && s.queue != [] && !Throws(s, b) && b.postThrows(s.queue[0]) {
      ProcessedSettles(s.(port := true, queue := s.queue[1..], settled := Settled(s.settled, s.queue[0], Rejected)), b);
      assert forall r :: r in s.queue[1..] ==> r in s.queue;
    }
  }

  /** Why a step settles a promise, and with what. */
  predicate SettledBy(s: Store, e: Event, id: nat, o: Outcome) {
    match e
    case Reply(body, b) =>
      || (s.atHost != [] && id == s.atHost[0].id && o == Resolved(s.atHost[0], body))
      || (o == Rejected && Refused(b, s.queue, id))
    case Send(action, b) =>
      && o == Rejected
      && (FailsToOpen(s, e) ==> id == s.next)
      && (!FailsToOpen(s, e) ==> Refused(b, s.queue + [Request(s.next, action)], id))
    case Disconnect => o == Rejected && Waits(s.queue, id)
  }

  /** A step settles promises only for these reasons: a reply resolves the request the host was
      given with exactly that reply; and a promise is rejected when its own request is refused by
      the port, when no port could be opened for it, or when the port is lost. A reply and a lost
      port settle everything they should, and no promise is settled twice. */
  lemma StepSettles(s: Store, e: Event, actions: seq<string>)
    requires Inv(s, actions) && Step(s, e).Some?
    ensures Keeps(s.settled, Step(s, e).value.settled)
    ensures forall id :: id in Step(s, e).value.settled && id !in s.settled ==>
              SettledBy(s, e, id, Step(s, e).value.settled[id])
    ensures e.Reply? && s.atHost[0].id !in s.settled ==>
              s.atHost[0].id in Step(s, e).value.settled
              && Step(s, e).value.settled[s.atHost[0].id] == Resolved(s.atHost[0], e.body)
    ensures e.Disconnect? ==>
              forall r :: r in s.queue && r.id !in s.settled ==>
                r.id in Step(s, e).value.settled && Step(s, e).value.settled[r.id] == Rejected
  {
    hide Processed, Consistent, Refused;
    match e
    case Send(action, b) =>
      ProcessedSettles(s.(queue := s.queue + [Request(s.next, action)], next := s.next + 1), b);
    case Reply(body, b) =>
      ReplySettles(s, body, b, actions);
    case Disconnect =>
      AllRejectedIs(s.settled, s.queue);
  }

  lemma ReplySettles(s: Store, body: string, b: Browser, actions: seq<string>)
    requires Inv(s, actions) && s.atHost != []
    ensures var t := Answered(s, body, b);
            && s.atHost == [s.queue[0]]
            && (forall id :: id in t.settled && id !in s.settled && id != s.atHost[0].id ==>
                  t.settled[id] == Rejected && Refused(b, s.queue, id))
            && Keeps(Settled(s.settled, s.atHost[0], Resolved(s.atHost[0], body)), t.settled)
  {
    assert s.atHost == [s.queue[0]] && s.atHost[1..] == [];
    var taken := s.(atHost := [], isProcessing := false, queue := s.queue[1..],
                    settled := Settled(s.settled, s.queue[0], Resolved(s.queue[0], body)));
    hide Processed, Consistent;
    assert Answered(s, body, b) == Processed(taken, b);
    ProcessedSettles(taken, b);
    assert forall r :: r in s.queue[1..] ==> r in s.queue;
  }

  /** After the port is lost the next request opens a new one and goes to the host at once; if no
      port can be opened its promise is rejected. */
  lemma ReconnectsAfterLoss(s: Store, actions: seq<string>, action: string, b: Browser)
    requires Inv(s, actions) && s.port
    ensures var t := Step(s, Disconnect).value;
            var r := Request(s.next, action);
            && t.queue == [] && t.atHost == [] && FailsToOpen(t, Send(action, b)) == b.connectThrows
            && (!b.connectThrows && !b.postThrows(r) ==> Step(t, Send(action, b)).value.atHost == [r])
            && (b.connectThrows ==>
                  r.id in Step(t, Send(action, b)).value.settled
                  && Step(t, Send(action, b)).value.settled[r.id] == Rejected)
  {
    AllRejectedIs(s.settled, s.queue);
    hide AllRejected;
  }

  lemma {:induction false} ExecInit(s: Store, run: seq<Event>, e: Event)
    requires Exec(s, run + [e]).Some?
    ensures Exec(s, run).Some? && Step(Exec(s, run).value, e) == Exec(s, run + [e])
    decreases |run|
  {
    if run == [] {
      assert [e][1..] == [] && run + [e] == [e];
      assert Exec(s, [e]) == (if Step(s, e).None? then None else Exec(Step(s, e).value, []));
    } else {
      assert (run + [e])[1..] == run[1..] + [e];
      ExecInit(Step(s, run[0]).value, run[1..], e);
    }
  }

  /** A prefix of the run ends in `s`. */
  predicate ReachedAt(run: seq<Event>, k: nat, s: Store) {
    k <= |run| && Exec(INIT, run[..k]) == Some(s)
  }

  /** A resolved promise was resolved by a reply of the run, with the text of that reply, when the
      host was holding exactly the request of the promise. */
  lemma {:induction false} RepliesAreDelivered(run: seq<Event>, s: Store, id: nat) returns (k: nat, before: Store)
    requires Exec(INIT, run) == Some(s) && id in s.settled && s.settled[id].Resolved?
    ensures k < |run| && ReachedAt(run, k, before)
    ensures run[k].Reply? && run[k].body == s.settled[id].body
    ensures before.atHost == [s.settled[id].answered] && s.settled[id].answered.id == id
    decreases |run|
  {
    var n := |run| - 1;
    assert run == run[..n] + [run[n]];
    ExecInit(INIT, run[..n], run[n]);
    var t := Exec(INIT, run[..n]).value;
    ExecInv(INIT, run[..n], []);
    StepSettles(t, run[n], [] + Actions(run[..n]));
    hide Step, Exec, Inv;
    if id in t.settled {
      k, before := RepliesAreDelivered(run[..n], t, id);
      assert run[..n][..k] == run[..k];
    } else {
      k, before := n, t;
      HostHoldsOne(run[..n], t);
    }
  }

  lemma HostHoldsOne(run: seq<Event>, s: Store)
    requires Exec(INIT, run) == Some(s)
    ensures |s.atHost| <= 1
  {
    RepliesAreCorrelated(run, s);
  }

  /** And every reply is delivered: the promise of the request the host was holding, unless it has
      been settled before, is resolved with that reply for good. */
  lemma {:induction false} EveryReplyIsDelivered(run: seq<Event>, s: Store, k: nat, before: Store)
    requires Exec(INIT, run) == Some(s) && k < |run| && ReachedAt(run, k, before) && run[k].Reply?
    ensures before.atHost != []
    ensures var id := before.atHost[0].id;
            id !in before.settled ==> id in s.settled && s.settled[id] == Resolved(before.atHost[0], run[k].body)
    decreases |run|
  {
    var n := |run| - 1;
    assert run == run[..n] + [run[n]];
    ExecInit(INIT, run[..n], run[n]);
    var t := Exec(INIT, run[..n]).value;
    ExecInv(INIT, run[..n], []);
    StepSettles(t, run[n], [] + Actions(run[..n]));
    if k < n {
      assert run[..n][..k] == run[..k];
      hide Step, Exec, Inv;
      EveryReplyIsDelivered(run[..n], t, k, before);
    }
  }

  /** Exactly when the queue is left without a request in flight: a request was made with no
      port and opening one threw. Then its promise is settled and waiting at once. */
  lemma StuckExactly(run: seq<Event>, s: Store, e: Event)
    requires Exec(INIT, run) == Some(s) && Step(s, e).Some?
    ensures Stuck(Step(s, e).value) <==> FailsToOpen(s, e)
    ensures FailsToOpen(s, e) ==>
              var t := Step(s, e).value;
              s.next in t.settled && t.settled[s.next] == Rejected && Waits(t.queue, s.next) && t.atHost == []
  {
    ExecInv(INIT, run, []);
    StepInv(s, e, [] + Actions(run));
    if FailsToOpen(s, e) {
      BothAtOnce(s, e, Actions(run));
    }
  }

  lemma BothAtOnce(s: Store, e: Event, actions: seq<string>)
    requires Inv(s, actions) && FailsToOpen(s, e)
    ensures var t := Sent(s, e.action, e.b);
            s.next in t.settled && t.settled[s.next] == Rejected && Waits(t.queue, s.next) && t.atHost == []
  {
    var t := Sent(s, e.action, e.b);
    assert Request(s.next, e.action) in t.queue;
  }

  /** Such a request stays queued although its promise was rejected, and the next request sends
      it to the host. */
  lemma RejectedRequestIsStillSent(a: string, c: string, b: Browser) returns (s: Store)
    requires !b.connectThrows && !b.postThrows(Request(0, a))
    ensures Exec(INIT, [Send(a, Browser(true, b.postThrows)), Send(c, b)]) == Some(s)
    ensures s.settled == map[0 := Rejected] && s.atHost == [Request(0, a)]
  {
    var e, f := Send(a, Browser(true, b.postThrows)), Send(c, b);
    var t := Step(INIT, e).value;
    assert t == INIT.(queue := [Request(0, a)], next := 1, settled := map[0 := Rejected]);
    s := Step(t, f).value;
    assert [e, f][1..] == [f] && [f][1..] == [];
    assert Exec(t, [f]) == Exec(s, []);
  }
}
