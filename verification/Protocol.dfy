/** The tool-call protocol between host and guest, as a step system.

    Every Exec and every readiness probe opens a connection of its own through the
    vsock multiplexer. The host sends CONNECT, reads one reply line, writes one
    request and reads one response; the agent accepts what the multiplexer forwards,
    reads one request, runs one tool, writes one response. Bytes travel in arbitrary
    pieces, and either side may fail at any point. */
module Protocol {
  import opened Options
  import opened Sums
  import opened Text
  import opened Handshake
  import Deadline

  datatype Request = Request(tool: string, input: Bytes, timeoutSeconds: int)

  datatype Response = Response(output: string, isError: bool, durationMS: int)

  /** What a tool call comes to: a result or a Go error. */
  datatype Outcome = Finished(content: string, isError: bool) | Raised(message: string)

  /** What a decoder makes of the bytes so far. */
  datatype Decoded<+T> = More | Bad | Value(value: T)

  /** The JSON envelopes, as encoders and decoders. */
  datatype Codec = Codec(
    encReq: Request -> Bytes,
    decReq: Bytes -> Decoded<Request>,
    encResp: Response -> Bytes,
    decResp: Bytes -> Decoded<Response>)

  /** No decoder finds a value in nothing. */
  ghost predicate Sane(j: Codec) {
    !j.decReq("").Value? && !j.decResp("").Value?
  }

  /** The bytes carry this value: they decode to it, and a decoder that has seen only
      part of them finds it already or asks for more. */
  ghost predicate Carries<T>(dec: Bytes -> Decoded<T>, bytes: Bytes, x: T) {
    && dec(bytes) == Value(x)
    && forall n :: 0 <= n <= |bytes| ==> dec(bytes[..n]).More? || dec(bytes[..n]) == Value(x)
  }

  /** The request survives the wire. */
  ghost predicate ReqSurvives(j: Codec, x: Request) { Carries(j.decReq, j.encReq(x), x) }

  ghost predicate RespSurvives(j: Codec, x: Response) { Carries(j.decResp, j.encResp(x), x) }

  datatype Kind = Call(req: Request) | Probe

  datatype Host =
    | Dialing
    | AwaitReply
    | Sending(rest: Bytes)
    | AwaitResponse
    | Returned(resp: Response)
    | Ready
    | Failed

  datatype Mux = Unanswered | Forwarding | Dropped

  datatype Guest =
    | NotAccepted
    | Reading(got: Bytes)
    | Running
    | Writing(rest: Bytes)
    | Closed

  /** One execution of a tool. */
  datatype Execution = Execution(req: Request, outcome: Outcome)

  /** A connection: both ends, the bytes in flight (`up` to the guest, `down` to the
      host), the host's read buffer, and history: the bytes each side wrote, the
      request the guest decoded, its answer, and the tool executions. */
  datatype Conn = Conn(
    kind: Kind, host: Host, mux: Mux, guest: Guest,
    up: Bytes, down: Bytes, buf: Bytes,
    sent: Bytes, reply: Bytes, wrote: Bytes,
    asked: Option<Request>, answer: Option<Response>, ran: seq<Execution>)

  function Opened(kind: Kind): Conn {
    Conn(kind, Dialing, Unanswered, NotAccepted, "", "", "", "", "", "", None, None, [])
  }

  datatype Move =
    | Connect
    | HostFail
    | MuxReply(line: Bytes, forward: bool)
    | HostRecv(n: nat)
    | HostLine
    | HostSend(n: nat)
    | HostDecode
    | Accept
    | GuestRecv(n: nat)
    | GuestDecode
    | GuestRun(outcome: Outcome, ms: int)
    | GuestSend(n: nat)
    | GuestFail

  /** The reply is one line. */
  predicate IsLine(line: Bytes) {
    |line| > 0 && Find(line, '\n') == |line| - 1
  }

  predicate CanMove(j: Codec, c: Conn, m: Move) {
    match m
    case Connect => c.host.Dialing?
    case HostFail => !c.host.Returned? && !c.host.Ready? && !c.host.Failed?
    case MuxReply(line, _) => c.mux.Unanswered? && !c.host.Dialing? && IsLine(line)
    case HostRecv(n) => (c.host.AwaitReply? || c.host.AwaitResponse?) && n <= |c.down|
    case HostLine => c.host.AwaitReply? && LineOf(c.buf, '\n').1
    case HostSend(n) => c.host.Sending? && n <= |c.host.rest|
    case HostDecode => c.host.AwaitResponse? && j.decResp(c.buf).Value?
    case Accept => c.mux.Forwarding? && c.guest.NotAccepted?
    case GuestRecv(n) => c.guest.Reading? && n <= |c.up|
    case GuestDecode => c.guest.Reading? && j.decReq(c.guest.got).Value?
    case GuestRun(_, _) => c.guest.Running? && c.asked.Some?
    case GuestSend(n) => c.guest.Writing? && n <= |c.guest.rest|
    case GuestFail => c.guest.Reading? || c.guest.Writing?
  }

  /** executeTool: the response to a request, given what the tool does if there is one. */
  function Respond(tools: set<string>, req: Request, outcome: Outcome, ms: int): Response {
    if req.tool !in tools then Response("unknown tool: " + req.tool, true, ms)
    else match outcome
      case Raised(message) => Response("tool error: " + message, true, ms)
      case Finished(content, isError) => Response(content, isError, ms)
  }

  function Moved(j: Codec, tools: set<string>, c: Conn, m: Move): Conn
    requires CanMove(j, c, m)
  {
    match m
    case Connect => c.(host := AwaitReply)
    case HostFail => c.(host := Failed)
    case MuxReply(line, forward) =>
      c.(down := c.down + line, reply := line, mux := if forward then Forwarding else Dropped)
    case HostRecv(n) => c.(buf := c.buf + c.down[..n], down := c.down[n..])
    case HostLine =>
      var line := LineOf(c.buf, '\n').0;
      c.(buf := c.buf[|line|..],
         host :=
           match c.kind {
             case Probe => if ProbeAccepts(line) then Ready else Failed
             case Call(req) => if DialAccepts(line) then Sending(j.encReq(req)) else Failed
           })
    case HostSend(n) =>
      c.(up := c.up + c.host.rest[..n], sent := c.sent + c.host.rest[..n],
         host := if n == |c.host.rest| then AwaitResponse else Sending(c.host.rest[n..]))
    case HostDecode => c.(host := Returned(j.decResp(c.buf).value))
    case Accept => c.(guest := Reading(""))
    case GuestRecv(n) => c.(guest := Reading(c.guest.got + c.up[..n]), up := c.up[n..])
    case GuestDecode => c.(guest := Running, asked := Some(j.decReq(c.guest.got).value))
    case GuestRun(outcome, ms) =>
      var req := c.asked.value;
      var resp := Respond(tools, req, outcome, ms);
      c.(guest := Writing(j.encResp(resp)), answer := Some(resp),
         ran := if req.tool in tools then c.ran + [Execution(req, outcome)] else c.ran)
    case GuestSend(n) =>
      c.(down := c.down + c.guest.rest[..n], wrote := c.wrote + c.guest.rest[..n],
         guest := if n == |c.guest.rest| then Closed else Writing(c.guest.rest[n..]))
    case GuestFail => c.(guest := Closed)
  }

  /* ---------- one connection ---------- */

  /** The host has written a prefix of the encoded request, and nothing on a probe. */
  ghost predicate HostSide(j: Codec, c: Conn) {
    match c.kind
    case Probe =>
      c.sent == "" && !c.host.Sending? && !c.host.AwaitResponse? && !c.host.Returned?
    case Call(req) =>
      && !c.host.Ready?
      && c.sent <= j.encReq(req)
      && (c.host.Dialing? || c.host.AwaitReply? ==> c.sent == "")
      && (c.host.Sending? ==> c.sent + c.host.rest == j.encReq(req))
  }

  /** What the guest has read, decoded, run and answered. */
  ghost predicate GuestSide(j: Codec, tools: set<string>, c: Conn) {
    && (c.guest.NotAccepted? ==> c.up == c.sent)
    && (c.guest.Reading? ==> c.guest.got + c.up == c.sent)
    && (c.guest.NotAccepted? || c.guest.Reading? ==> c.asked.None?)
    && (c.guest.Running? ==> c.asked.Some? && c.answer.None?)
    && (c.guest.Writing? ==> c.answer.Some? && c.wrote + c.guest.rest == j.encResp(c.answer.value))
    && (c.asked.None? ==> c.answer.None?)
    && (c.asked.Some? ==> c.sent != "")
    && (c.asked.Some? ==> c.kind.Call? && (ReqSurvives(j, c.kind.req) ==> c.asked.value == c.kind.req))
    && (c.answer.None? ==> c.ran == [] && c.wrote == "")
    && (c.answer.Some? ==> c.wrote <= j.encResp(c.answer.value))
    && (c.answer.Some? ==> Answered(tools, c.asked.value, c.ran, c.answer.value))
  }

  /** The answer comes from running the tool once, or from there being no such tool. */
  ghost predicate Answered(tools: set<string>, req: Request, ran: seq<Execution>, resp: Response) {
    if req.tool in tools then
      |ran| == 1 && ran[0].req == req && resp == Respond(tools, req, ran[0].outcome, resp.durationMS)
    else
      |ran| == 0 && resp == Response("unknown tool: " + req.tool, true, resp.durationMS)
  }

  /** The bytes on their way to the host: the reply line, then what the guest wrote. */
  ghost predicate DownSide(j: Codec, c: Conn) {
    && (c.host.Dialing? ==> c.mux.Unanswered?)
    && (c.mux.Unanswered? ==> c.reply == "" && c.wrote == "" && c.guest.NotAccepted?)
    && (!c.mux.Unanswered? ==> IsLine(c.reply))
    && (c.host.Dialing? || c.host.AwaitReply? ==> c.buf + c.down == c.reply + c.wrote)
    && (c.host.Sending? || c.host.AwaitResponse? ==> !c.mux.Unanswered? && c.buf + c.down == c.wrote)
    && (c.host.Returned? ==> c.answer.Some? && (RespSurvives(j, c.answer.value) ==> c.host.resp == c.answer.value))
  }

  /** Whoever got past the reply line, or sent anything, was answered with an OK. */
  ghost predicate ReplySide(c: Conn) {
    c.host.Sending? || c.host.AwaitResponse? || c.host.Returned? || c.host.Ready? || c.sent != "" ==>
      "OK " <= c.reply
  }

  ghost predicate ConnInv(j: Codec, tools: set<string>, c: Conn) {
    HostSide(j, c) && GuestSide(j, tools, c) && DownSide(j, c) && ReplySide(c)
  }

  lemma OpenedInv(j: Codec, tools: set<string>, kind: Kind)
    ensures ConnInv(j, tools, Opened(kind))
  {
  }

  /** The first newline of the buffer ends the reply line. */
  lemma ReplyLine(buf: Bytes, down: Bytes, reply: Bytes, wrote: Bytes)
    requires buf + down == reply + wrote && LineOf(buf, '\n').1
    requires reply == "" ==> wrote == ""
    requires reply != "" ==> IsLine(reply)
    ensures LineOf(buf, '\n').0 == reply && IsLine(reply) && buf[|reply|..] + down == wrote
  {
    var k := Find(buf, '\n');
    assert (buf + down)[k] == '\n';
    assert reply != "";
    assert forall i :: 0 <= i < |reply| - 1 ==> (buf + down)[i] == reply[i] != '\n';
    assert (buf + down)[|reply| - 1] == '\n';
    if |reply| - 1 < |buf| {
      FindIs(buf, '\n', |reply| - 1);
    }
    assert (reply + wrote)[|reply|..] == wrote;
    assert (buf + down)[|reply|..] == buf[|reply|..] + down;
    assert (buf + down)[..|reply|] == reply;
  }

  lemma HostLineInv(j: Codec, tools: set<string>, c: Conn)
    requires ConnInv(j, tools, c) && CanMove(j, c, HostLine)
    ensures ConnInv(j, tools, Moved(j, tools, c, HostLine))
  {
    ReplyLine(c.buf, c.down, c.reply, c.wrote);
    DialAcceptsIffProbeAccepts(c.reply);
  }

  lemma PrefixOf(a: Bytes, b: Bytes, x: Bytes)
    requires a + b <= x
    ensures a == x[..|a|]
  {
    assert (a + b)[..|a|] == a;
  }

  lemma GuestDecodeInv(j: Codec, tools: set<string>, c: Conn)
    requires Sane(j) && ConnInv(j, tools, c) && CanMove(j, c, GuestDecode)
    ensures ConnInv(j, tools, Moved(j, tools, c, GuestDecode))
  {
    assert |c.guest.got| + |c.up| == |c.sent|;
    if c.kind.Call? {
      PrefixOf(c.guest.got, c.up, j.encReq(c.kind.req));
    }
  }

  lemma HostDecodeInv(j: Codec, tools: set<string>, c: Conn)
    requires Sane(j) && ConnInv(j, tools, c) && CanMove(j, c, HostDecode)
    ensures ConnInv(j, tools, Moved(j, tools, c, HostDecode))
  {
    assert c.answer.None? ==> |c.buf| + |c.down| == |c.wrote| == 0;
    if c.answer.Some? {
      PrefixOf(c.buf, c.down, j.encResp(c.answer.value));
    }
  }

  /** A piece of what is to be written moves to what has been. */
  lemma PieceSent(x: Bytes, rest: Bytes, n: nat)
    requires n <= |rest|
    ensures (x + rest[..n]) + rest[n..] == x + rest && x + rest[..n] <= x + rest
    ensures n == |rest| ==> x + rest[..n] == x + rest
  {
    assert rest == rest[..n] + rest[n..];
  }

  lemma HostSendHost(j: Codec, tools: set<string>, c: Conn, n: nat)
    requires ConnInv(j, tools, c) && CanMove(j, c, HostSend(n))
    ensures HostSide(j, Moved(j, tools, c, HostSend(n))) && ReplySide(Moved(j, tools, c, HostSend(n)))
  {
    PieceSent(c.sent, c.host.rest, n);
  }

  lemma HostSendGuest(j: Codec, tools: set<string>, c: Conn, n: nat)
    requires GuestSide(j, tools, c) && CanMove(j, c, HostSend(n))
    ensures GuestSide(j, tools, Moved(j, tools, c, HostSend(n)))
  {
    var piece := c.host.rest[..n];
    assert |c.sent + piece| >= |c.sent|;
    if c.guest.Reading? {
      assert c.guest.got + (c.up + piece) == (c.guest.got + c.up) + piece;
    }
  }

  lemma HostSendDown(j: Codec, c: Conn, n: nat, tools: set<string>)
    requires DownSide(j, c) && CanMove(j, c, HostSend(n))
    ensures DownSide(j, Moved(j, tools, c, HostSend(n)))
  {
  }

  lemma HostSendInv(j: Codec, tools: set<string>, c: Conn, n: nat)
    requires ConnInv(j, tools, c) && CanMove(j, c, HostSend(n))
    ensures ConnInv(j, tools, Moved(j, tools, c, HostSend(n)))
  {
    HostSendHost(j, tools, c, n);
    HostSendGuest(j, tools, c, n);
    HostSendDown(j, c, n, tools);
  }

  lemma GuestSendInv(j: Codec, tools: set<string>, c: Conn, n: nat)
    requires ConnInv(j, tools, c) && CanMove(j, c, GuestSend(n))
    ensures ConnInv(j, tools, Moved(j, tools, c, GuestSend(n)))
  {
    var w, rest := c.wrote, c.guest.rest;
    assert rest == rest[..n] + rest[n..];
    assert w + rest == (w + rest[..n]) + rest[n..];
    assert c.buf + (c.down + rest[..n]) == (c.buf + c.down) + rest[..n];
    assert c.reply + (w + rest[..n]) == (c.reply + w) + rest[..n];
  }

  lemma PieceMoves(a: Bytes, b: Bytes, n: nat)
    requires n <= |b|
    ensures (a + b[..n]) + b[n..] == a + b
  {
  }

  lemma MuxReplyInv(j: Codec, tools: set<string>, c: Conn, line: Bytes, forward: bool)
    requires ConnInv(j, tools, c) && CanMove(j, c, MuxReply(line, forward))
    ensures ConnInv(j, tools, Moved(j, tools, c, MuxReply(line, forward)))
  {
    if c.host.AwaitReply? {
      assert |c.buf + c.down| == 0;
      assert c.buf + (c.down + line) == line + c.wrote;
    }
  }

  /** Moves that read or write nothing. */
  lemma QuietMoveInv(j: Codec, tools: set<string>, c: Conn, m: Move)
    requires ConnInv(j, tools, c) && CanMove(j, c, m) && (m.Connect? || m.HostFail? || m.Accept? || m.GuestFail?)
    ensures ConnInv(j, tools, Moved(j, tools, c, m))
  {
  }

  lemma GuestRunInv(j: Codec, tools: set<string>, c: Conn, outcome: Outcome, ms: int)
    requires ConnInv(j, tools, c) && CanMove(j, c, GuestRun(outcome, ms))
    ensures ConnInv(j, tools, Moved(j, tools, c, GuestRun(outcome, ms)))
  {
  }

  lemma RecvInv(j: Codec, tools: set<string>, c: Conn, m: Move)
    requires ConnInv(j, tools, c) && CanMove(j, c, m) && (m.HostRecv? || m.GuestRecv?)
    ensures ConnInv(j, tools, Moved(j, tools, c, m))
  {
    if m.HostRecv? {
      PieceMoves(c.buf, c.down, m.n);
    } else {
      PieceMoves(c.guest.got, c.up, m.n);
    }
  }

  lemma MoveInv(j: Codec, tools: set<string>, c: Conn, m: Move)
    requires Sane(j) && ConnInv(j, tools, c) && CanMove(j, c, m)
    ensures ConnInv(j, tools, Moved(j, tools, c, m))
  {
    match m
    case MuxReply(line, forward) => MuxReplyInv(j, tools, c, line, forward);
    case HostRecv(n) => RecvInv(j, tools, c, m);
    case HostLine => HostLineInv(j, tools, c);
    case HostSend(n) => HostSendInv(j, tools, c, n);
    case HostDecode => HostDecodeInv(j, tools, c);
    case GuestRecv(n) => RecvInv(j, tools, c, m);
    case GuestDecode => GuestDecodeInv(j, tools, c);
    case GuestSend(n) => GuestSendInv(j, tools, c, n);
    case GuestRun(outcome, ms) => GuestRunInv(j, tools, c, outcome, ms);
    case Connect => QuietMoveInv(j, tools, c, m);
    case HostFail => QuietMoveInv(j, tools, c, m);
    case Accept => QuietMoveInv(j, tools, c, m);
    case GuestFail => QuietMoveInv(j, tools, c, m);
  }

  /* ---------- all connections, and the accept loop ---------- */

  datatype Serve = Accepting | Draining | ReturnedNil | ReturnedErr

  /** `handlers` is the WaitGroup's counter. */
  datatype State = State(conns: seq<Conn>, serve: Serve, cancelled: bool, handlers: nat)

  const Start := State([], Accepting, false, 0)

  datatype Action =
    | Open(kind: Kind)
    | Do(i: nat, move: Move)
    | Cancel
    | AcceptFails
    | DrainDone

  function Handling(c: Conn): nat {
    if c.guest.Reading? || c.guest.Running? || c.guest.Writing? then 1 else 0
  }

  ghost predicate Enabled(j: Codec, s: State, a: Action) {
    match a
    case Open(_) => true
    case Do(i, m) => i < |s.conns| && CanMove(j, s.conns[i], m) && (m.Accept? ==> s.serve.Accepting?)
    case Cancel => true
    case AcceptFails => s.serve.Accepting?
    case DrainDone => s.serve.Draining? && s.handlers == 0
  }

  /** A handler adds itself to the counter when accepted and leaves it when its
      connection is closed. */
  ghost function Apply(j: Codec, tools: set<string>, s: State, a: Action): State
    requires Enabled(j, s, a)
  {
    match a
    case Open(kind) => s.(conns := s.conns + [Opened(kind)])
    case Do(i, m) =>
      var c' := Moved(j, tools, s.conns[i], m);
      var handlers := s.handlers + Handling(c') - Handling(s.conns[i]);
      s.(conns := s.conns[i := c'], handlers := if handlers < 0 then 0 else handlers)
    case Cancel => s.(cancelled := true)
    case AcceptFails => s.(serve := if s.cancelled then Draining else ReturnedErr)
    case DrainDone => s.(serve := ReturnedNil)
  }

  ghost predicate Runs(j: Codec, tools: set<string>, s: State, acts: seq<Action>)
    decreases |acts|
  {
    |acts| == 0 || (Enabled(j, s, acts[0]) && Runs(j, tools, Apply(j, tools, s, acts[0]), acts[1..]))
  }

  ghost function Final(j: Codec, tools: set<string>, s: State, acts: seq<Action>): State
    requires Runs(j, tools, s, acts)
    decreases |acts|
  {
    if |acts| == 0 then s else Final(j, tools, Apply(j, tools, s, acts[0]), acts[1..])
  }

  ghost predicate Inv(j: Codec, tools: set<string>, s: State) {
    && (forall i :: 0 <= i < |s.conns| ==> ConnInv(j, tools, s.conns[i]))
    && s.handlers == Sum(s.conns, Handling)
    && (s.serve.Draining? || s.serve.ReturnedNil? ==> s.cancelled)
    && (s.serve.ReturnedNil? ==> s.handlers == 0)
  }

  lemma StepInv(j: Codec, tools: set<string>, s: State, a: Action)
    requires Sane(j) && Inv(j, tools, s) && Enabled(j, s, a)
    ensures Inv(j, tools, Apply(j, tools, s, a))
  {
    match a
    case Open(kind) =>
      OpenedInv(j, tools, kind);
      SumAppend(s.conns, Opened(kind), Handling);
    case Do(i, m) =>
      MoveInv(j, tools, s.conns[i], m);
      SumUpdate(s.conns, i, Moved(j, tools, s.conns[i], m), Handling);
      SumAtLeast(s.conns, i, Handling);
    case _ =>
  }

  lemma {:induction false} RunInv(j: Codec, tools: set<string>, s: State, acts: seq<Action>)
    requires Sane(j) && Inv(j, tools, s) && Runs(j, tools, s, acts)
    ensures Inv(j, tools, Final(j, tools, s, acts))
    decreases |acts|
  {
    if |acts| > 0 {
      StepInv(j, tools, s, acts[0]);
      RunInv(j, tools, Apply(j, tools, s, acts[0]), acts[1..]);
    }
  }

  /** Every connection of every run keeps the invariant. */
  lemma ConnReached(j: Codec, tools: set<string>, acts: seq<Action>, i: nat)
    requires Sane(j) && Runs(j, tools, Start, acts) && i < |Final(j, tools, Start, acts).conns|
    ensures ConnInv(j, tools, Final(j, tools, Start, acts).conns[i])
  {
    RunInv(j, tools, Start, acts);
  }

  lemma ConnRunsOnce(j: Codec, tools: set<string>, c: Conn)
    requires ConnInv(j, tools, c)
    ensures |c.ran| <= 1
    ensures c.kind.Probe? ==> |c.ran| == 0
    ensures c.kind.Call? && ReqSurvives(j, c.kind.req) && |c.ran| == 1 ==> c.ran[0].req == c.kind.req
  {
  }

  /** At-most-once execution: whatever interleaving of calls, probes, failures and
      handlers, an Exec runs at most one tool, with the request it sent if that
      survives the wire; a probe runs none. */
  lemma AtMostOnce(j: Codec, tools: set<string>, acts: seq<Action>, i: nat)
    requires Sane(j) && Runs(j, tools, Start, acts) && i < |Final(j, tools, Start, acts).conns|
    ensures var c := Final(j, tools, Start, acts).conns[i];
      && |c.ran| <= 1
      && (c.kind.Probe? ==> |c.ran| == 0)
      && (c.kind.Call? && ReqSurvives(j, c.kind.req) && |c.ran| == 1 ==> c.ran[0].req == c.kind.req)
  {
    ConnReached(j, tools, acts, i);
    ConnRunsOnce(j, tools, Final(j, tools, Start, acts).conns[i]);
  }

  /** The line that counts as a yes. */
  lemma ConnNeedsOk(j: Codec, tools: set<string>, c: Conn)
    requires ConnInv(j, tools, c)
    requires c.sent != "" || c.ran != [] || !(c.host.Dialing? || c.host.AwaitReply? || c.host.Failed?)
    ensures "OK " <= c.reply && c.reply[|c.reply| - 1] == '\n' && '\n' !in c.reply[..|c.reply| - 1]
  {
  }

  /** Nothing without an OK: in every run, a call that has sent anything, waits for a
      response, has returned or has had its tool run, and a probe that has succeeded, was
      answered with one line, and that line starts with "OK ". */
  lemma OnlyBehindOk(j: Codec, tools: set<string>, acts: seq<Action>, i: nat)
    requires Sane(j) && Runs(j, tools, Start, acts) && i < |Final(j, tools, Start, acts).conns|
    ensures var c := Final(j, tools, Start, acts).conns[i];
      c.sent != "" || c.ran != [] || c.host.Sending? || c.host.AwaitResponse? || c.host.Returned? || c.host.Ready?
      ==> "OK " <= c.reply && c.reply[|c.reply| - 1] == '\n' && '\n' !in c.reply[..|c.reply| - 1]
  {
    ConnReached(j, tools, acts, i);
    var c := Final(j, tools, Start, acts).conns[i];
    if c.sent != "" || c.ran != [] || !(c.host.Dialing? || c.host.AwaitReply? || c.host.Failed?) {
      ConnNeedsOk(j, tools, c);
    }
  }

  lemma ConnRefused(j: Codec, tools: set<string>, c: Conn)
    requires ConnInv(j, tools, c) && !c.mux.Unanswered? && !("OK " <= c.reply)
    ensures c.sent == "" && c.ran == [] && (c.host.AwaitReply? || c.host.Failed?)
    ensures CanMove(j, c, HostLine) ==> Moved(j, tools, c, HostLine).host.Failed?
  {
    if CanMove(j, c, HostLine) {
      ReplyLine(c.buf, c.down, c.reply, c.wrote);
      DialAcceptsIffProbeAccepts(c.reply);
    }
  }

  /** Any other reply, such as "REJECTED", and the host can only fail: it has sent
      nothing, no tool runs, and reading the line makes it fail. */
  lemma RefusedOnlyFails(j: Codec, tools: set<string>, acts: seq<Action>, i: nat)
    requires Sane(j) && Runs(j, tools, Start, acts) && i < |Final(j, tools, Start, acts).conns|
    requires var c := Final(j, tools, Start, acts).conns[i];
      !c.mux.Unanswered? && !("OK " <= c.reply)
    ensures var c := Final(j, tools, Start, acts).conns[i];
      && c.sent == "" && c.ran == [] && (c.host.AwaitReply? || c.host.Failed?)
      && (CanMove(j, c, HostLine) ==> Moved(j, tools, c, HostLine).host.Failed?)
  {
    ConnReached(j, tools, acts, i);
    ConnRefused(j, tools, Final(j, tools, Start, acts).conns[i]);
  }

  /** An Exec has returned without error, and its envelopes survive the wire. */
  ghost predicate ReturnedIntact(j: Codec, c: Conn) {
    && c.host.Returned? && c.kind.Call?
    && ReqSurvives(j, c.kind.req)
    && (c.answer.Some? ==> RespSurvives(j, c.answer.value))
  }

  lemma ConnReturnsOwn(j: Codec, tools: set<string>, c: Conn)
    requires ConnInv(j, tools, c) && ReturnedIntact(j, c)
    ensures Answered(tools, c.kind.req, c.ran, c.host.resp)
  {
  }

  /** Matching: an Exec that returns without error returns the response to exactly its
      own request. Its tool has run exactly once, or does not exist. */
  lemma ReturnsOwnResponse(j: Codec, tools: set<string>, acts: seq<Action>, i: nat)
    requires Sane(j) && Runs(j, tools, Start, acts) && i < |Final(j, tools, Start, acts).conns|
    requires ReturnedIntact(j, Final(j, tools, Start, acts).conns[i])
    ensures var c := Final(j, tools, Start, acts).conns[i];
      Answered(tools, c.kind.req, c.ran, c.host.resp)
  {
    ConnReached(j, tools, acts, i);
    ConnReturnsOwn(j, tools, Final(j, tools, Start, acts).conns[i]);
  }

  /** When Serve returns nil it was cancelled and every handler has finished. */
  lemma NilMeansDrained(j: Codec, tools: set<string>, acts: seq<Action>)
    requires Sane(j) && Runs(j, tools, Start, acts) && Final(j, tools, Start, acts).serve.ReturnedNil?
    ensures Final(j, tools, Start, acts).cancelled && !Busy(Final(j, tools, Start, acts))
  {
    RunInv(j, tools, Start, acts);
    BusyCounted(j, tools, Final(j, tools, Start, acts));
  }

  /** Some connection has been accepted and is not closed. */
  ghost predicate Busy(s: State) {
    exists i :: 0 <= i < |s.conns| && !s.conns[i].guest.NotAccepted? && !s.conns[i].guest.Closed?
  }

  predicate HasReturned(s: State) { s.serve.ReturnedNil? || s.serve.ReturnedErr? }

  lemma BusyCounted(j: Codec, tools: set<string>, s: State)
    requires Inv(j, tools, s)
    ensures Busy(s) <==> s.handlers > 0
  {
    SumZero(s.conns, Handling);
  }

  /** A failed accept makes Serve return over a running handler, unless the context
      was cancelled or there is none: the guard is read at the failure, and only one of
      its branches waits. */
  lemma FailedAcceptIff(j: Codec, tools: set<string>, s: State)
    requires Inv(j, tools, s) && Enabled(j, s, AcceptFails)
    ensures var s' := Apply(j, tools, s, AcceptFails);
      (HasReturned(s') ==> !Busy(s')) <==> s.cancelled || !Busy(s)
  {
  }

  /** In the course of this run Serve returns while a connection is being handled. */
  ghost predicate ReturnsBusy(j: Codec, tools: set<string>, s: State, acts: seq<Action>)
    requires Runs(j, tools, s, acts)
    decreases |acts|
  {
    |acts| > 0 &&
    var s' := Apply(j, tools, s, acts[0]);
    (!HasReturned(s) && HasReturned(s') && Busy(s')) || ReturnsBusy(j, tools, s', acts[1..])
  }

  /** In the course of this run an accept fails that nobody asked for, while a
      connection is being handled. */
  ghost predicate FailsBusy(j: Codec, tools: set<string>, s: State, acts: seq<Action>)
    requires Runs(j, tools, s, acts)
    decreases |acts|
  {
    |acts| > 0 &&
    ((acts[0].AcceptFails? && !s.cancelled && Busy(s)) || FailsBusy(j, tools, Apply(j, tools, s, acts[0]), acts[1..]))
  }

  /** One step: Serve returns over a running handler exactly at such a failure. */
  lemma ReturnStep(j: Codec, tools: set<string>, s: State, a: Action)
    requires Inv(j, tools, s) && Enabled(j, s, a)
    ensures var s' := Apply(j, tools, s, a);
      !HasReturned(s) && HasReturned(s') && Busy(s') <==> a.AcceptFails? && !s.cancelled && Busy(s)
  {
    BusyCounted(j, tools, s);
    if a.DrainDone? {
      assert Apply(j, tools, s, a).conns == s.conns;
    }
  }

  lemma {:induction false} RunReturnsBusyIff(j: Codec, tools: set<string>, s: State, acts: seq<Action>)
    requires Sane(j) && Inv(j, tools, s) && Runs(j, tools, s, acts)
    ensures ReturnsBusy(j, tools, s, acts) <==> FailsBusy(j, tools, s, acts)
    decreases |acts|
  {
    if |acts| > 0 {
      ReturnStep(j, tools, s, acts[0]);
      StepInv(j, tools, s, acts[0]);
      RunReturnsBusyIff(j, tools, Apply(j, tools, s, acts[0]), acts[1..]);
    }
  }

  /** Serve's drain, over every run: it returns with a handler still running exactly
      when, uncancelled, an accept failed while a connection was being handled. */
  lemma ServeLeavesHandlersIff(j: Codec, tools: set<string>, acts: seq<Action>)
    requires Sane(j) && Runs(j, tools, Start, acts)
    ensures ReturnsBusy(j, tools, Start, acts) <==> FailsBusy(j, tools, Start, acts)
  {
    RunReturnsBusyIff(j, tools, Start, acts);
  }

  lemma Prepend(j: Codec, tools: set<string>, s: State, a: Action, rest: seq<Action>)
    requires Enabled(j, s, a) && Runs(j, tools, Apply(j, tools, s, a), rest)
    ensures Runs(j, tools, s, [a] + rest)
    ensures Final(j, tools, s, [a] + rest) == Final(j, tools, Apply(j, tools, s, a), rest)
  {
    assert ([a] + rest)[1..] == rest && ([a] + rest)[0] == a;
  }

  lemma OkIsLine()
    ensures IsLine("OK 1\n")
  {
    FindIs("OK 1\n", '\n', 4);
  }

  /** A connection whose reply is in flight, accepted while Serve's next accept fails. */
  lemma AcceptThenFail(j: Codec, tools: set<string>, s: State)
    requires |s.conns| == 1 && s.conns[0].mux.Forwarding? && s.conns[0].guest.NotAccepted?
    requires s.serve.Accepting? && !s.cancelled && s.handlers == 0
    ensures var acts := [Do(0, Accept), AcceptFails];
      && Runs(j, tools, s, acts)
      && Final(j, tools, s, acts).serve.ReturnedErr? && Final(j, tools, s, acts).handlers == 1
  {
    var s1 := Apply(j, tools, s, Do(0, Accept));
    var s2 := Apply(j, tools, s1, AcceptFails);
    assert Runs(j, tools, s2, []) && Final(j, tools, s2, []) == s2;
    Prepend(j, tools, s1, AcceptFails, []);
    assert [AcceptFails] + [] == [AcceptFails];
    Prepend(j, tools, s, Do(0, Accept), [AcceptFails]);
    assert [Do(0, Accept)] + [AcceptFails] == [Do(0, Accept), AcceptFails];
  }

  /** Serve can return nil, from wherever it still accepts and nothing is being handled. */
  lemma ServeCanReturnNil(j: Codec, tools: set<string>, s: State)
    requires Inv(j, tools, s) && s.serve.Accepting? && !Busy(s)
    ensures var acts := [Cancel, AcceptFails, DrainDone];
      Runs(j, tools, s, acts) && Final(j, tools, s, acts).serve.ReturnedNil?
  {
    BusyCounted(j, tools, s);
    var s1 := Apply(j, tools, s, Cancel);
    var s2 := Apply(j, tools, s1, AcceptFails);
    var s3 := Apply(j, tools, s2, DrainDone);
    assert Runs(j, tools, s3, []) && Final(j, tools, s3, []) == s3;
    Prepend(j, tools, s2, DrainDone, []);
    Prepend(j, tools, s1, AcceptFails, [DrainDone] + []);
    Prepend(j, tools, s, Cancel, [AcceptFails] + ([DrainDone] + []));
    assert [Cancel] + ([AcceptFails] + ([DrainDone] + [])) == [Cancel, AcceptFails, DrainDone];
  }

  /** And a run that leaves one running exists. */
  lemma ErrorLeavesHandlers(j: Codec, tools: set<string>)
    ensures exists acts ::
      (Runs(j, tools, Start, acts)
       && Final(j, tools, Start, acts).serve.ReturnedErr?
       && Final(j, tools, Start, acts).handlers == 1)
  {
    OkIsLine();
    var a0, a1, a2 := Open(Probe), Do(0, Connect), Do(0, MuxReply("OK 1\n", true));
    var end := [Do(0, Accept), AcceptFails];
    var s1 := Apply(j, tools, Start, a0);
    var s2 := Apply(j, tools, s1, a1);
    var s3 := Apply(j, tools, s2, a2);
    AcceptThenFail(j, tools, s3);
    Prepend(j, tools, s2, a2, end);
    Prepend(j, tools, s1, a1, [a2] + end);
    Prepend(j, tools, Start, a0, [a1] + ([a2] + end));
  }

  /* ---------- agreement with the in-process backend ---------- */

  /** HostBackend.Exec: the content and the error flag. */
  function HostExec(
    tools: set<string>, behaviour: (string, Bytes) -> Outcome, tool: string, input: Bytes): (string, bool)
  {
    if tool !in tools then ("unknown tool: " + tool, true)
    else match behaviour(tool, input)
      case Raised(message) => ("tool error: " + message, true)
      case Finished(content, isError) => (content, isError)
  }

  /** The tools did what the host's would have done. */
  ghost predicate Behaves(ran: seq<Execution>, behaviour: (string, Bytes) -> Outcome) {
    forall k :: 0 <= k < |ran| ==> ran[k].outcome == behaviour(ran[k].req.tool, ran[k].req.input)
  }

  lemma AnsweredAgrees(
    tools: set<string>, behaviour: (string, Bytes) -> Outcome, req: Request, ran: seq<Execution>, resp: Response)
    requires Answered(tools, req, ran, resp) && Behaves(ran, behaviour)
    ensures (resp.output, resp.isError) == HostExec(tools, behaviour, req.tool, req.input)
  {
  }

  /** Backend agreement: with the same registry and tools that behave the same, what a
      remote Exec returns, whatever the interleaving and the chunking, is what the
      host backend returns for the same call. */
  lemma RemoteAgreesWithHost(
    j: Codec, tools: set<string>, behaviour: (string, Bytes) -> Outcome, acts: seq<Action>, i: nat)
    requires Sane(j) && Runs(j, tools, Start, acts) && i < |Final(j, tools, Start, acts).conns|
    requires ReturnedIntact(j, Final(j, tools, Start, acts).conns[i])
    requires Behaves(Final(j, tools, Start, acts).conns[i].ran, behaviour)
    ensures var c := Final(j, tools, Start, acts).conns[i];
      (c.host.resp.output, c.host.resp.isError) == HostExec(tools, behaviour, c.kind.req.tool, c.kind.req.input)
  {
    ReturnsOwnResponse(j, tools, acts, i);
    var c := Final(j, tools, Start, acts).conns[i];
    AnsweredAgrees(tools, behaviour, c.kind.req, c.ran, c.host.resp);
  }

  /** The request that a call with this remaining time sends. */
  function CallFor(tool: string, input: Bytes, remaining: Option<int>): Kind {
    Call(Request(tool, input, Deadline.SecondsSent(remaining)))
  }

  /** The budget of a remote execution is the one that the deadline arithmetic gives
      for the time the host had left. */
  lemma RemoteBudget(
    j: Codec, tools: set<string>, acts: seq<Action>, i: nat, tool: string, input: Bytes, remaining: Option<int>)
    requires Sane(j) && Runs(j, tools, Start, acts) && i < |Final(j, tools, Start, acts).conns|
    requires remaining.Some? ==> remaining.value <= Deadline.MAX_DURATION
    requires var c := Final(j, tools, Start, acts).conns[i];
      c.kind == CallFor(tool, input, remaining) && ReqSurvives(j, c.kind.req) && |c.ran| > 0
    ensures var g := Deadline.GuestBudget(Final(j, tools, Start, acts).conns[i].ran[0].req.timeoutSeconds);
      && (Deadline.Within(g, remaining) <==>
            remaining.None? || (remaining.value >= Deadline.SECOND && !Deadline.RoundsUp(remaining.value)))
      && (remaining.Some? && remaining.value >= Deadline.SECOND ==>
            remaining.value - Deadline.SECOND < g <= remaining.value + Deadline.MAX_EXCESS)
  {
    AtMostOnce(j, tools, acts, i);
    Deadline.BudgetWithinRemainingIff(remaining);
    if remaining.Some? && remaining.value >= Deadline.SECOND {
      Deadline.BudgetRounds(remaining.value);
    }
  }

  /* ---------- an accepted call can return ---------- */

  /** The moves lead one connection from `c` to `d`. */
  ghost predicate Leads(j: Codec, tools: set<string>, c: Conn, moves: seq<Move>, d: Conn)
    decreases |moves|
  {
    if |moves| == 0 then c == d
    else CanMove(j, c, moves[0]) && Leads(j, tools, Moved(j, tools, c, moves[0]), moves[1..], d)
  }

  lemma LeadsFirst(j: Codec, tools: set<string>, c: Conn, m: Move, rest: seq<Move>, d: Conn)
    requires CanMove(j, c, m) && Leads(j, tools, Moved(j, tools, c, m), rest, d)
    ensures Leads(j, tools, c, [m] + rest, d)
  {
    assert ([m] + rest)[0] == m && ([m] + rest)[1..] == rest;
  }

  function Dos(i: nat, moves: seq<Move>): seq<Action> {
    if |moves| == 0 then [] else [Do(i, moves[0])] + Dos(i, moves[1..])
  }

  /** The same moves in the system, while Serve accepts. */
  lemma {:induction false} LeadsInSystem(j: Codec, tools: set<string>, s: State, i: nat, moves: seq<Move>, d: Conn)
    requires i < |s.conns| && s.serve.Accepting? && Leads(j, tools, s.conns[i], moves, d)
    ensures Runs(j, tools, s, Dos(i, moves))
    ensures var s' := Final(j, tools, s, Dos(i, moves)); |s'.conns| == |s.conns| && s'.conns[i] == d
    decreases |moves|
  {
    if |moves| > 0 {
      var s' := Apply(j, tools, s, Do(i, moves[0]));
      LeadsInSystem(j, tools, s', i, moves[1..], d);
      Prepend(j, tools, s, Do(i, moves[0]), Dos(i, moves[1..]));
    }
  }

  /** A reply that accepts: one line that starts with "OK ". */
  predicate IsOkLine(line: Bytes) {
    "OK " <= line && line[|line| - 1] == '\n' && '\n' !in line[..|line| - 1]
  }

  lemma OkLine(line: Bytes)
    requires IsOkLine(line)
    ensures IsLine(line) && LineOf(line, '\n') == (line, true) && DialAccepts(line) && ProbeAccepts(line)
  {
    FindIs(line, '\n', |line| - 1);
    DialAcceptsIffProbeAccepts(line);
    assert line[..|line|] == line;
  }

  /** A connection whose reply has been read. */
  function Replied(kind: Kind, host: Host, line: Bytes): Conn {
    Conn(kind, host, Forwarding, NotAccepted, "", "", "", "", line, "", None, None, [])
  }

  /** A connection whose reply has not been read. */
  function Waiting(kind: Kind, mux: Mux, down: Bytes, buf: Bytes, reply: Bytes): Conn {
    Conn(kind, AwaitReply, mux, NotAccepted, "", down, buf, "", reply, "", None, None, [])
  }

  lemma LineLeads(j: Codec, tools: set<string>, kind: Kind, line: Bytes, rest: seq<Move>, d: Conn)
    requires IsOkLine(line)
    requires Leads(j, tools, Replied(kind, if kind.Probe? then Ready else Sending(j.encReq(kind.req)), line), rest, d)
    ensures Leads(j, tools, Waiting(kind, Forwarding, "", line, line), [HostLine] + rest, d)
  {
    OkLine(line);
    assert line[|line|..] == "";
    LeadsFirst(j, tools, Waiting(kind, Forwarding, "", line, line), HostLine, rest, d);
  }

  lemma RecvLeads(j: Codec, tools: set<string>, kind: Kind, line: Bytes, rest: seq<Move>, d: Conn)
    requires Leads(j, tools, Waiting(kind, Forwarding, "", line, line), rest, d)
    ensures Leads(j, tools, Waiting(kind, Forwarding, line, "", line), [HostRecv(|line|)] + rest, d)
  {
    assert "" + line[..|line|] == line && line[|line|..] == "";
    LeadsFirst(j, tools, Waiting(kind, Forwarding, line, "", line), HostRecv(|line|), rest, d);
  }

  lemma MuxLeads(j: Codec, tools: set<string>, kind: Kind, line: Bytes, rest: seq<Move>, d: Conn)
    requires IsLine(line) && Leads(j, tools, Waiting(kind, Forwarding, line, "", line), rest, d)
    ensures Leads(j, tools, Waiting(kind, Unanswered, "", "", ""), [MuxReply(line, true)] + rest, d)
  {
    assert "" + line == line;
    LeadsFirst(j, tools, Waiting(kind, Unanswered, "", "", ""), MuxReply(line, true), rest, d);
  }

  lemma DialLeads(j: Codec, tools: set<string>, kind: Kind, line: Bytes, rest: seq<Move>, d: Conn)
    returns (moves: seq<Move>)
    requires IsOkLine(line)
    requires Leads(j, tools, Replied(kind, if kind.Probe? then Ready else Sending(j.encReq(kind.req)), line), rest, d)
    ensures Leads(j, tools, Opened(kind), moves, d)
  {
    OkLine(line);
    LineLeads(j, tools, kind, line, rest, d);
    RecvLeads(j, tools, kind, line, [HostLine] + rest, d);
    MuxLeads(j, tools, kind, line, [HostRecv(|line|)] + ([HostLine] + rest), d);
    moves := [MuxReply(line, true)] + ([HostRecv(|line|)] + ([HostLine] + rest));
    LeadsFirst(j, tools, Opened(kind), Connect, moves, d);
    moves := [Connect] + moves;
  }

  /** The request goes out and is decoded. */
  lemma AskLeads(j: Codec, tools: set<string>, req: Request, line: Bytes, rest: seq<Move>, d: Conn)
    returns (moves: seq<Move>)
    requires ReqSurvives(j, req)
    requires var x := j.encReq(req);
      Leads(j, tools, Conn(Call(req), AwaitResponse, Forwarding, Running, "", "", "", x, line, "", Some(req), None, []),
        rest, d)
    ensures Leads(j, tools, Replied(Call(req), Sending(j.encReq(req)), line), moves, d)
  {
    var x := j.encReq(req);
    assert "" + x == x && x[..|x|] == x && x[|x|..] == "";
    var c0 := Replied(Call(req), Sending(x), line);
    var c1 := Moved(j, tools, c0, HostSend(|x|));
    var c2 := Moved(j, tools, c1, Accept);
    var c3 := Moved(j, tools, c2, GuestRecv(|x|));
    assert c3.guest == Reading(x) && c3.up == "";
    LeadsFirst(j, tools, c3, GuestDecode, rest, d);
    LeadsFirst(j, tools, c2, GuestRecv(|x|), [GuestDecode] + rest, d);
    var tail := [GuestRecv(|x|)] + ([GuestDecode] + rest);
    LeadsFirst(j, tools, c1, Accept, tail, d);
    LeadsFirst(j, tools, c0, HostSend(|x|), [Accept] + tail, d);
    moves := [HostSend(|x|)] + ([Accept] + tail);
  }

  /** The tool runs, and its response comes back. */
  lemma AnswerLeads(j: Codec, tools: set<string>, req: Request, line: Bytes, outcome: Outcome, ms: int)
    returns (moves: seq<Move>, d: Conn)
    requires RespSurvives(j, Respond(tools, req, outcome, ms))
    ensures var x := j.encReq(req);
      Leads(j, tools, Conn(Call(req), AwaitResponse, Forwarding, Running, "", "", "", x, line, "", Some(req), None, []),
        moves, d)
    ensures d.kind == Call(req) && d.host == Returned(Respond(tools, req, outcome, ms))
    ensures d.ran == if req.tool in tools then [Execution(req, outcome)] else []
  {
    var x, resp := j.encReq(req), Respond(tools, req, outcome, ms);
    var y := j.encResp(resp);
    assert "" + y == y && y[..|y|] == y && y[|y|..] == "";
    var c0 := Conn(Call(req), AwaitResponse, Forwarding, Running, "", "", "", x, line, "", Some(req), None, []);
    var c1 := Moved(j, tools, c0, GuestRun(outcome, ms));
    var c2 := Moved(j, tools, c1, GuestSend(|y|));
    assert c2.down == y;
    var c3 := Moved(j, tools, c2, HostRecv(|y|));
    assert c3.buf == y;
    d := Moved(j, tools, c3, HostDecode);
    LeadsFirst(j, tools, c3, HostDecode, [], d);
    LeadsFirst(j, tools, c2, HostRecv(|y|), [HostDecode] + [], d);
    var tail := [HostRecv(|y|)] + ([HostDecode] + []);
    LeadsFirst(j, tools, c1, GuestSend(|y|), tail, d);
    LeadsFirst(j, tools, c0, GuestRun(outcome, ms), [GuestSend(|y|)] + tail, d);
    moves := [GuestRun(outcome, ms)] + ([GuestSend(|y|)] + tail);
  }

  lemma OpenedLeads(j: Codec, tools: set<string>, kind: Kind, moves: seq<Move>, d: Conn) returns (acts: seq<Action>)
    requires Leads(j, tools, Opened(kind), moves, d)
    ensures Runs(j, tools, Start, acts) && Final(j, tools, Start, acts).conns == [d]
  {
    var s := Apply(j, tools, Start, Open(kind));
    assert s.conns == [Opened(kind)];
    LeadsInSystem(j, tools, s, 0, moves, d);
    Prepend(j, tools, Start, Open(kind), Dos(0, moves));
    acts := [Open(kind)] + Dos(0, moves);
  }

  /** What a caller is to be told. */
  predicate Tells(tools: set<string>, tool: string, outcome: Outcome, content: string, isError: bool) {
    && (tool !in tools ==> content == "unknown tool: " + tool && isError)
    && (tool in tools && outcome.Raised? ==> content == "tool error: " + outcome.message && isError)
    && (tool in tools && outcome.Finished? ==> content == outcome.content && isError == outcome.isError)
  }

  /** Progress: whatever accepting line, surviving request and response, and outcome of
      the tool, there is a run on which the Exec returns, with what the outcome tells and
      what the host backend returns, after one execution of the tool if it exists. */
  lemma ExecCanReturn(j: Codec, tools: set<string>, req: Request, line: Bytes, outcome: Outcome, ms: int)
    returns (acts: seq<Action>)
    requires IsOkLine(line) && ReqSurvives(j, req) && RespSurvives(j, Respond(tools, req, outcome, ms))
    ensures Runs(j, tools, Start, acts) && |Final(j, tools, Start, acts).conns| == 1
    ensures var c := Final(j, tools, Start, acts).conns[0];
      && c.kind == Call(req) && c.host.Returned?
      && Tells(tools, req.tool, outcome, c.host.resp.output, c.host.resp.isError) && c.host.resp.durationMS == ms
      && (c.host.resp.output, c.host.resp.isError) == HostExec(tools, (t, x) => outcome, req.tool, req.input)
      && c.ran == if req.tool in tools then [Execution(req, outcome)] else []
  {
    var d;
    acts := [];
    var moves;
    moves, d := AnswerLeads(j, tools, req, line, outcome, ms);
    moves := AskLeads(j, tools, req, line, moves, d);
    moves := DialLeads(j, tools, Call(req), line, moves, d);
    acts := OpenedLeads(j, tools, Call(req), moves, d);
  }

  /** And a probe answered with such a line can succeed. */
  lemma ProbeCanSucceed(j: Codec, tools: set<string>, line: Bytes) returns (acts: seq<Action>)
    requires IsOkLine(line)
    ensures Runs(j, tools, Start, acts) && |Final(j, tools, Start, acts).conns| == 1
    ensures var c := Final(j, tools, Start, acts).conns[0]; c.kind.Probe? && c.host.Ready? && c.reply == line
  {
    var d := Replied(Probe, Ready, line);
    var moves := DialLeads(j, tools, Probe, line, [], d);
    acts := OpenedLeads(j, tools, Probe, moves, d);
  }

  /** What a call of the in-process backend tells, for every behaviour of the tools. */
  lemma HostExecTells(tools: set<string>, behaviour: (string, Bytes) -> Outcome, tool: string, input: Bytes)
    ensures var (content, isError) := HostExec(tools, behaviour, tool, input);
      Tells(tools, tool, behaviour(tool, input), content, isError)
  {
  }
}
