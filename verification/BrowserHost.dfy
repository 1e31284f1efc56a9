/** The native messaging host (`browser_host.rs`): it reads frames from standard input, each a
    little-endian length and a body, forwards the action in the body to the agent, and writes
    one frame back. Writing to standard output always succeeds here. */
module BrowserHost {
  import opened Prelude
  import opened Bytes

  const MAX_MESSAGE: nat := 1024 * 1024

  /** JSON, its parser, and the agent. The answer of the agent may depend on when it is asked,
      so the number of the frame is passed along. */
  datatype World<!A> = World(
    parse: seq<byte> -> Option<A>,
    agent: (nat, A) -> Option<seq<byte>>,  // the JSON of the response, or nothing when it cannot be reached
    invalid: seq<byte> -> seq<byte>,       // the JSON error for a body that is no action
    unreachable: nat -> seq<byte>          // the JSON error for an agent that cannot be reached
  )

  /** How the host stops: standard input is at its end, a length is over the limit, or a body
      is cut short. */
  datatype Ending = Closed | TooLarge | CutShort

  /** The low `count` bytes of a number, least significant first. */
  function LittleEndian(n: nat, count: nat): (r: seq<byte>)
    ensures |r| == count
  {
    if count == 0 then [] else [n % 256] + LittleEndian(n / 256, count - 1)
  }

  function FromLittleEndian(b: seq<byte>): nat {
    if b == [] then 0 else b[0] as nat + 256 * FromLittleEndian(b[1..])
  }

  lemma {:induction false} LittleEndianRoundTrip(n: nat, count: nat)
    requires n < Bound(count)
    ensures FromLittleEndian(LittleEndian(n, count)) == n
  {
    if count > 0 {
      LittleEndianRoundTrip(n / 256, count - 1);
      assert LittleEndian(n, count)[1..] == LittleEndian(n / 256, count - 1);
    }
  }

  function Bound(count: nat): nat {
    if count == 0 then 1 else 256 * Bound(count - 1)
  }

  function Frame(body: seq<byte>): seq<byte> {
    LittleEndian(|body|, 4) + body
  }

  function Frames(bodies: seq<seq<byte>>): seq<byte> {
    if bodies == [] then [] else Frame(bodies[0]) + Frames(bodies[1..])
  }

  /** The bodies that are read from the input, and why reading stops. */
  function Received(input: seq<byte>): (seq<seq<byte>>, Ending)
    decreases |input|
  {
    if |input| < 4 then ([], Closed)
    else
      var len := FromLittleEndian(input[..4]);
      if len > MAX_MESSAGE then ([], TooLarge)
      else if |input| - 4 < len then ([], CutShort)
      else
        var rest := Received(input[4 + len..]);
        ([input[4..4 + len]] + rest.0, rest.1)
  }

  /** The body of the reply to the `k`-th frame. */
  function Reply<A>(w: World<A>, k: nat, body: seq<byte>): seq<byte> {
    var action := w.parse(body);
    if action.None? then w.invalid(body)
    else
      var response := w.agent(k, action.value);
      if response.None? then w.unreachable(k) else response.value
  }

  function Replies<A>(w: World<A>, first: nat, bodies: seq<seq<byte>>): (r: seq<seq<byte>>)
    ensures |r| == |bodies| && forall k {:trigger r[k]} :: 0 <= k < |r| ==> r[k] == Reply(w, first + k, bodies[k])
  {
    seq(|bodies|, k requires 0 <= k < |bodies| => Reply(w, first + k, bodies[k]))
  }

  /** One attempt to read a frame: its body and where the next one starts, or why to stop. */
  datatype Attempt = Body(body: seq<byte>, next: nat) | Stop(ending: Ending)

  method ReadFrame(stdin: seq<byte>, at: nat) returns (r: Attempt)
    requires at <= |stdin|
    ensures match r
            case Body(body, next) =>
              && at < next <= |stdin|
              && Received(stdin[at..]) == ([body] + Received(stdin[next..]).0, Received(stdin[next..]).1)
            case Stop(ending) => Received(stdin[at..]) == ([], ending)
  {
    hide FromLittleEndian;
    ghost var rest := stdin[at..];
    if |stdin| - at < 4 {
      return Stop(Closed);
    }
    var len := FromLittleEndian(stdin[at..at + 4]);
    assert rest[..4] == stdin[at..at + 4];
    if len > MAX_MESSAGE {
      return Stop(TooLarge);
    }
    if |stdin| - at - 4 < len {
      return Stop(CutShort);
    }
    var body := stdin[at + 4..at + 4 + len];
    assert rest[4..4 + len] == body && rest[4 + len..] == stdin[at + 4 + len..];
    return Body(body, at + 4 + len);
  }

  /** Parse the body, ask the agent, and turn either failure into an error reply. */
  method Answer<A>(w: World<A>, k: nat, body: seq<byte>) returns (response: seq<byte>)
    ensures response == Reply(w, k, body)
  {
    var action := w.parse(body);
    if action.None? {
      return w.invalid(body);
    }
    var answer := w.agent(k, action.value);
    if answer.None? {
      return w.unreachable(k);
    }
    return answer.value;
  }

  /** `run`. */
  method Run<A>(w: World<A>, stdin: seq<byte>) returns (stdout: seq<byte>, ending: Ending)
    ensures stdout == Frames(Replies(w, 0, Received(stdin).0)) && ending == Received(stdin).1
  {
    hide Received, Frame, Reply;
    var at, served := 0, 0;
    stdout := [];
    ghost var done: seq<seq<byte>> := [];
    assert stdin[0..] == stdin && done + Received(stdin).0 == Received(stdin).0;
    while true
      invariant at <= |stdin| && served == |done|
      invariant Received(stdin) == (done + Received(stdin[at..]).0, Received(stdin[at..]).1)
      invariant stdout == Frames(Replies(w, 0, done))
      decreases |stdin| - at
    {
      var attempt := ReadFrame(stdin, at);
      if attempt.Stop? {
        assert done + [] == done;
        return stdout, attempt.ending;
      }
      var body := attempt.body;
      var response := Answer(w, served, body);
      FramesSnoc(Replies(w, 0, done), response);
      stdout := stdout + Frame(response);
      assert Replies(w, 0, done + [body]) == Replies(w, 0, done) + [response];
      ghost var later := Received(stdin[attempt.next..]).0;
      assert done + ([body] + later) == (done + [body]) + later;
      done := done + [body];
      at, served := attempt.next, served + 1;
    }
  }

  lemma {:induction false} FramesSnoc(bodies: seq<seq<byte>>, last: seq<byte>)
    ensures Frames(bodies + [last]) == Frames(bodies) + Frame(last)
  {
    if bodies == [] {
      assert [last][1..] == [] && bodies + [last] == [last];
      assert Frames([last]) == Frame(last) + Frames([]);
    } else {
      assert (bodies + [last])[1..] == bodies[1..] + [last];
      FramesSnoc(bodies[1..], last);
    }
  }

  /** The length field is 32 bits, least significant byte first. */
  lemma LengthsAreLittleEndian(b0: byte, b1: byte, b2: byte, b3: byte)
    ensures FromLittleEndian([b0, b1, b2, b3]) == b0 + b1 * 0x100 + b2 * 0x1_0000 + b3 * 0x100_0000
    ensures LittleEndian(b0 + b1 * 0x100 + b2 * 0x1_0000 + b3 * 0x100_0000, 4) == [b0, b1, b2, b3]
  {
    var n := b0 + b1 * 0x100 + b2 * 0x1_0000 + b3 * 0x100_0000;
    assert n / 256 == b1 + b2 * 0x100 + b3 * 0x1_0000 && n % 256 == b0;
    assert n / 256 / 256 == b2 + b3 * 0x100 && n / 256 % 256 == b1;
    assert n / 256 / 256 / 256 == b3 && n / 256 / 256 % 256 == b2;
    assert LittleEndian(n, 4) == [b0] + LittleEndian(n / 256, 3);
    assert LittleEndian(n / 256, 3) == [b1] + LittleEndian(n / 256 / 256, 2);
    assert LittleEndian(n / 256 / 256, 2) == [b2] + LittleEndian(b3, 1);
    assert LittleEndian(b3, 1) == [b3] + LittleEndian(b3 / 256, 0);
    assert [b0, b1, b2, b3][1..] == [b1, b2, b3] && [b1, b2, b3][1..] == [b2, b3] && [b2, b3][1..] == [b3];
    assert FromLittleEndian([b3]) == b3 + 256 * FromLittleEndian([]);
    assert FromLittleEndian([b2, b3]) == b2 + 256 * FromLittleEndian([b3]);
    assert FromLittleEndian([b1, b2, b3]) == b1 + 256 * FromLittleEndian([b2, b3]);
  }

  /** How reading stops, exactly: before any body when fewer than four bytes are left, when they
      announce more than a mebibyte, or when they announce more than there is. */
  lemma StopsExactly(input: seq<byte>)
    ensures Received(input) == ([], Closed) <==> |input| < 4
    ensures Received(input) == ([], TooLarge) <==> |input| >= 4 && FromLittleEndian(input[..4]) > 0x10_0000
    ensures Received(input) == ([], CutShort) <==>
              |input| >= 4 && |input| - 4 < FromLittleEndian(input[..4]) <= 0x10_0000
  {
    hide FromLittleEndian;
  }

  lemma LengthRoundTrip(body: seq<byte>)
    requires |body| <= MAX_MESSAGE
    ensures FromLittleEndian(LittleEndian(|body|, 4)) == |body|
  {
    assert Bound(4) == 256 * Bound(3) && Bound(3) == 256 * Bound(2) && Bound(2) == 256 * Bound(1) && Bound(1) == 256;
    LittleEndianRoundTrip(|body|, 4);
  }

  predicate Sendable(bodies: seq<seq<byte>>) {
    forall k :: 0 <= k < |bodies| ==> |bodies[k]| <= MAX_MESSAGE
  }

  /** Frames within the limit are read back as they were written; what follows them decides how
      reading ends. */
  lemma {:induction false} ReceivedFrames(bodies: seq<seq<byte>>, tail: seq<byte>)
    requires Sendable(bodies)
    ensures Received(Frames(bodies) + tail) == (bodies + Received(tail).0, Received(tail).1)
    decreases |bodies|
  {
    hide Received, Frame;
    if bodies == [] {
      assert Frames(bodies) + tail == tail && bodies + Received(tail).0 == Received(tail).0;
    } else {
      var rest := Frames(bodies[1..]) + tail;
      assert Frames(bodies) + tail == Frame(bodies[0]) + rest;
      ReceivedFrame(bodies[0], rest);
      ReceivedFrames(bodies[1..], tail);
      assert [bodies[0]] + (bodies[1..] + Received(tail).0) == bodies + Received(tail).0;
    }
  }

  lemma ReceivedFrame(body: seq<byte>, rest: seq<byte>)
    requires |body| <= MAX_MESSAGE
    ensures Received(Frame(body) + rest) == ([body] + Received(rest).0, Received(rest).1)
  {
    hide FromLittleEndian, LittleEndian;
    LengthRoundTrip(body);
    var input := Frame(body) + rest;
    assert input[..4] == LittleEndian(|body|, 4) && input[4..4 + |body|] == body && input[4 + |body|..] == rest;
  }

  /** One reply per accepted frame, in order: when a browser writes frames within the limit and
      reads frames within the limit back, the `k`-th body it reads is the agent's response to the
      action in the `k`-th body it wrote, or the error for a body that is no action or for an agent
      that cannot be reached, and there are no others. */
  lemma AnswersInOrder<A>(w: World<A>, bodies: seq<seq<byte>>)
    requires Sendable(bodies) && Sendable(Replies(w, 0, bodies))
    ensures Received(Frames(bodies)) == (bodies, Closed)
    ensures var read := Received(Frames(Replies(w, 0, Received(Frames(bodies)).0))).0;
            && |read| == |bodies|
            && forall k :: 0 <= k < |bodies| ==>
                 match w.parse(bodies[k])
                 case None => read[k] == w.invalid(bodies[k])
                 case Some(action) =>
                   match w.agent(k, action)
                   case Some(response) => read[k] == response
                   case None => read[k] == w.unreachable(k)
  {
    ReceivedFrames(bodies, []);
    assert Frames(bodies) + [] == Frames(bodies) && bodies + Received([]).0 == bodies;
    var replies := Replies(w, 0, bodies);
    ReceivedFrames(replies, []);
    assert Frames(replies) + [] == Frames(replies) && replies + Received([]).0 == replies;
  }
}
