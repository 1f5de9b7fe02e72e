/** Both ends of one exchange as code over a buffered connection: the guest's handler,
    the host's dial and round trip, and the two put together. */
module Exchange {
  import opened Options
  import opened Handshake
  import opened Protocol
  import Deadline

  /** A decoder that has settled, or has seen everything, has found what is carried. */
  lemma Settles<T(!new)>(dec: Bytes -> Decoded<T>, got: Bytes, rest: Bytes, all: Bytes)
    requires got + rest == all && (!dec(got).More? || rest == "")
    ensures forall x :: Carries(dec, all, x) ==> dec(got) == Value(x)
    ensures all == "" ==> got == ""
  {
    forall x | Carries(dec, all, x) ensures dec(got) == Value(x) {
      assert all[..|got|] == got;
      if rest == "" {
        assert got + rest == got;
      }
    }
  }

  lemma NextPiece(got: Bytes, piece: Bytes, rest: Bytes, before: Bytes)
    requires piece + rest == before
    ensures got + before == (got + piece) + rest
    ensures |rest| == |before| - |piece|
  {
  }

  /** Decode: read, in pieces of at most `size` bytes, until the decoder has a value.
      If the stream carries a value that is the result, however it arrives. */
  method Decode<T(!new)>(dec: Bytes -> Decoded<T>, conn: BufferedConn, size: nat)
    returns (r: Option<T>)
    requires conn.Valid() && size > 0
    modifies conn
    ensures conn.Valid()
    ensures forall x :: Carries(dec, old(conn.Stream()), x) ==> r == Some(x)
    ensures old(conn.Stream()) == "" && !dec("").Value? ==> r == None
  {
    ghost var all := conn.Stream();
    var got: Bytes := "";
    while dec(got).More?
      invariant conn.Valid() && got + conn.Stream() == all
      decreases |conn.Stream()|
    {
      ghost var before := conn.Stream();
      var b := conn.Read(size);
      NextPiece(got, b, conn.Stream(), before);
      if b == "" {
        Settles(dec, got, before, all);
        return None;
      }
      got := got + b;
    }
    Settles(dec, got, conn.Stream(), all);
    r := if dec(got).Value? then Some(dec(got).value) else None;
  }

  /** HandleConnection: at most one execution; on a surviving request the reply, the
      execution and the tool's budget are those of that request, and on an empty
      stream, which is all that a probe sends, nothing happens. */
  method HandleConnection(
    j: Codec, tools: set<string>, behaviour: (string, Bytes) -> Outcome, ms: int, guestRemaining: Option<int>,
    conn: BufferedConn, size: nat)
    returns (reply: Option<Bytes>, ran: seq<Execution>, budget: Option<int>)
    requires conn.Valid() && size > 0
    modifies conn
    ensures |ran| <= 1
    ensures forall x :: old(conn.Stream()) == j.encReq(x) && ReqSurvives(j, x) ==>
      var outcome := behaviour(x.tool, x.input);
      && reply == Some(j.encResp(Respond(tools, x, outcome, ms)))
      && ran == (if x.tool in tools then [Execution(x, outcome)] else [])
      && budget == Some(Deadline.ToolBudget(guestRemaining, x.timeoutSeconds))
    ensures old(conn.Stream()) == "" && Sane(j) ==> reply == None && ran == []
  {
    ran := [];
    var req := Decode(j.decReq, conn, size);
    if req.None? {
      return None, [], None;
    }
    var x := req.value;
    budget := Some(Deadline.ToolBudget(guestRemaining, x.timeoutSeconds));
    var outcome := behaviour(x.tool, x.input);
    if x.tool in tools {
      ran := [Execution(x, outcome)];
    }
    reply := Some(j.encResp(Respond(tools, x, outcome, ms)));
  }

  /** dialAgentVsockUDS behind the CONNECT, and the first half of agentRoundTrip: read
      the reply line, and send the request only if it was accepted. What arrived behind
      the line stays readable. */
  method DialAgent(j: Codec, req: Request, conn: BufferedConn) returns (sent: Option<Bytes>)
    requires conn.Valid()
    modifies conn
    ensures conn.Valid()
    ensures var (line, ok) := LineOf(old(conn.Stream()), '\n');
      && line + conn.Stream() == old(conn.Stream())
      && sent == if ok && "OK " <= line then Some(j.encReq(req)) else None
  {
    var accepted := conn.DialReply();
    if !accepted {
      return None;
    }
    sent := Some(j.encReq(req));
  }

  lemma WholeLine(line: Bytes)
    requires IsLine(line)
    ensures LineOf(line, '\n') == (line, true)
  {
    assert line[..|line|] == line;
  }

  /** The second half of agentRoundTrip: the response arrives and is decoded. */
  method Await(j: Codec, reply: Bytes, sizes: seq<nat>, conn: BufferedConn, size: nat)
    returns (resp: Option<Response>)
    requires conn.Valid() && conn.Stream() == "" && size > 0
    modifies conn
    ensures forall x :: reply == j.encResp(x) && RespSurvives(j, x) ==> resp == Some(x)
  {
    conn.Arrive(reply, sizes);
    assert conn.Stream() == reply;
    resp := Decode(j.decResp, conn, size);
  }

  lemma Nothing(line: Bytes, rest: Bytes)
    requires line + rest == line
    ensures rest == ""
  {
    assert |line + rest| == |line|;
  }

  lemma RespondAgrees(tools: set<string>, behaviour: (string, Bytes) -> Outcome, req: Request, ms: int)
    ensures var resp := Respond(tools, req, behaviour(req.tool, req.input), ms);
      && (resp.output, resp.isError) == HostExec(tools, behaviour, req.tool, req.input)
      && Tells(tools, req.tool, behaviour(req.tool, req.input), resp.output, resp.isError) && resp.durationMS == ms
  {
  }

  /** In which pieces the three messages of an exchange arrive. */
  datatype Cuts = Cuts(line: seq<nat>, request: seq<nat>, response: seq<nat>)

  /** The whole exchange. The multiplexer answers with a line; the guest's handler reads
      what the host sent, and the host reads what the handler replied, each in any pieces.
      If the line refuses, nothing runs. If it accepts, Exec returns what the in-process
      backend would have, after exactly one execution of the tool, if there is such a
      tool, within the budget of the request. */
  method ExecOverTheWire(
    j: Codec, tools: set<string>, behaviour: (string, Bytes) -> Outcome, ms: int, guestRemaining: Option<int>,
    req: Request, line: Bytes, cuts: Cuts, size: nat)
    returns (resp: Option<Response>, ran: seq<Execution>, budget: Option<int>)
    requires size > 0 && IsLine(line)
    requires ReqSurvives(j, req)
    requires RespSurvives(j, Respond(tools, req, behaviour(req.tool, req.input), ms))
    ensures !("OK " <= line) ==> resp == None && ran == [] && budget == None
    ensures "OK " <= line ==>
      && resp.Some?
      && (resp.value.output, resp.value.isError) == HostExec(tools, behaviour, req.tool, req.input)
      && Tells(tools, req.tool, behaviour(req.tool, req.input), resp.value.output, resp.value.isError)
      && resp.value.durationMS == ms
      && ran == (if req.tool in tools then [Execution(req, behaviour(req.tool, req.input))] else [])
      && budget == Some(Deadline.ToolBudget(guestRemaining, req.timeoutSeconds))
  {
    WholeLine(line);
    RespondAgrees(tools, behaviour, req, ms);
    var down := new BufferedConn.Carrying(line, cuts.line);
    var sent := DialAgent(j, req, down);
    if sent.None? {
      return None, [], None;
    }
    Nothing(line, down.Stream());
    var up := new BufferedConn.Carrying(sent.value, cuts.request);
    var reply;
    reply, ran, budget := HandleConnection(j, tools, behaviour, ms, guestRemaining, up, size);
    resp := Await(j, reply.value, cuts.response, down, size);
  }
}
