/** The CONNECT handshake over a buffered reader: however the incoming bytes are cut
    into reads, the reply line plus everything read later is the original stream.
    Bytes are modelled as characters. */
module Handshake {
  import opened Text

  type Bytes = string

  /** The first line with its delimiter and whether the delimiter was met. */
  function LineOf(s: Bytes, c: char): (Bytes, bool) {
    var k := Find(s, c);
    if k < |s| then (s[..k + 1], true) else (s, false)
  }

  function Concat(chunks: seq<Bytes>): Bytes {
    if |chunks| == 0 then "" else chunks[0] + Concat(chunks[1..])
  }

  lemma {:induction false} ConcatAppend(a: seq<Bytes>, b: seq<Bytes>)
    ensures Concat(a + b) == Concat(a) + Concat(b)
  {
    if |a| == 0 {
      assert a + b == b;
    } else {
      assert (a + b)[1..] == a[1..] + b;
      ConcatAppend(a[1..], b);
      assert a[0] + (Concat(a[1..]) + Concat(b)) == (a[0] + Concat(a[1..])) + Concat(b);
    }
  }

  /** A way to cut bytes into pieces: the sizes say where, and what they leave is the
      last piece. */
  function Cut(bytes: Bytes, sizes: seq<nat>): (chunks: seq<Bytes>)
    ensures forall i :: 0 <= i < |chunks| ==> |chunks[i]| > 0
    decreases |sizes|
  {
    if |bytes| == 0 then []
    else if |sizes| == 0 || sizes[0] >= |bytes| then [bytes]
    else if sizes[0] == 0 then Cut(bytes, sizes[1..])
    else [bytes[..sizes[0]]] + Cut(bytes[sizes[0]..], sizes[1..])
  }

  lemma {:induction false} CutRestores(bytes: Bytes, sizes: seq<nat>)
    ensures Concat(Cut(bytes, sizes)) == bytes
    decreases |sizes|
  {
    if |bytes| == 0 {
    } else if |sizes| == 0 || sizes[0] >= |bytes| {
      assert [bytes][1..] == [];
    } else if sizes[0] == 0 {
      CutRestores(bytes, sizes[1..]);
    } else {
      var head, tail := bytes[..sizes[0]], Cut(bytes[sizes[0]..], sizes[1..]);
      CutRestores(bytes[sizes[0]..], sizes[1..]);
      assert ([head] + tail)[1..] == tail;
    }
  }

  function Sizes(chunks: seq<Bytes>): seq<nat> {
    if |chunks| == 0 then [] else [|chunks[0]|] + Sizes(chunks[1..])
  }

  /** Every way for a stream to arrive in non-empty pieces is such a cut. */
  lemma {:induction false} EveryChunkingIsACut(chunks: seq<Bytes>)
    requires forall i :: 0 <= i < |chunks| ==> |chunks[i]| > 0
    ensures Cut(Concat(chunks), Sizes(chunks)) == chunks
  {
    if |chunks| > 0 {
      var rest := chunks[1..];
      EveryChunkingIsACut(rest);
      assert chunks == [chunks[0]] + rest;
      assert Concat(chunks)[..|chunks[0]|] == chunks[0] && Concat(chunks)[|chunks[0]|..] == Concat(rest);
      assert Sizes(chunks)[1..] == Sizes(rest);
      if |rest| > 0 {
        assert |Concat(rest)| >= |rest[0]| > 0;
      } else {
        assert Concat(chunks) == chunks[0];
      }
    }
  }

  /** A connection behind a buffered reader. `chunks` are the results of the reads to
      come; after the last one the connection reports its end. */
  class BufferedConn {
    var buf: Bytes
    var chunks: seq<Bytes>

    ghost predicate Valid()
      reads this
    {
      forall i :: 0 <= i < |chunks| ==> |chunks[i]| > 0
    }

    /** All bytes that can still be read. */
    function Stream(): Bytes
      reads this
    {
      buf + Concat(chunks)
    }

    constructor (chunks: seq<Bytes>)
      requires forall i :: 0 <= i < |chunks| ==> |chunks[i]| > 0
      ensures Valid() && Stream() == Concat(chunks)
    {
      buf := "";
      this.chunks := chunks;
    }

    /** A connection on which these bytes arrive, cut in this way. */
    constructor Carrying(bytes: Bytes, sizes: seq<nat>)
      ensures Valid() && Stream() == bytes
    {
      CutRestores(bytes, sizes);
      buf := "";
      chunks := Cut(bytes, sizes);
    }

    /** The other side has written more. */
    method Arrive(bytes: Bytes, sizes: seq<nat>)
      requires Valid()
      modifies this`chunks
      ensures Valid() && Stream() == old(Stream()) + bytes
    {
      CutRestores(bytes, sizes);
      ConcatAppend(chunks, Cut(bytes, sizes));
      assert buf + (Concat(chunks) + bytes) == (buf + Concat(chunks)) + bytes;
      chunks := chunks + Cut(bytes, sizes);
    }

    /** One read of the connection into the buffer. */
    method Fill() returns (ok: bool)
      requires Valid()
      modifies this
      ensures Valid() && Stream() == old(Stream())
      ensures ok == (|old(chunks)| > 0)
      ensures ok ==> |chunks| < |old(chunks)| && |buf| > 0
      ensures !ok ==> buf == old(buf) && chunks == []
    {
      if |chunks| == 0 {
        return false;
      }
      assert buf + (chunks[0] + Concat(chunks[1..])) == (buf + chunks[0]) + Concat(chunks[1..]);
      buf := buf + chunks[0];
      chunks := chunks[1..];
      return true;
    }

    /** ReadString: up to and including the delimiter, or everything if there is
        none. The result depends on the stream alone, not on how it is cut. */
    method ReadString(delim: char) returns (line: Bytes, ok: bool)
      requires Valid()
      modifies this
      ensures Valid()
      ensures (line, ok) == LineOf(old(Stream()), delim)
      ensures line + Stream() == old(Stream())
      ensures ok ==> |line| > 0 && line[|line| - 1] == delim && delim !in line[..|line| - 1]
      ensures !ok ==> delim !in line && Stream() == ""
    {
      ghost var all := Stream();
      while Find(buf, delim) == |buf|
        invariant Valid() && Stream() == all
        decreases |chunks|
      {
        var more := Fill();
        if !more {
          line := buf;
          buf := "";
          assert all == line;
          return line, false;
        }
      }
      var k := Find(buf, delim);
      assert all[..k + 1] == buf[..k + 1];
      FindIs(all, delim, k);
      line := buf[..k + 1];
      assert line + (buf[k + 1..] + Concat(chunks)) == all;
      buf := buf[k + 1..];
      ok := true;
    }

    /** Read through the same buffer: the next bytes, at most `n`, none only at the
        end of the stream. */
    method Read(n: nat) returns (b: Bytes)
      requires Valid()
      modifies this
      ensures Valid() && b + Stream() == old(Stream())
      ensures |b| <= n && (|b| == 0 <==> n == 0 || |old(Stream())| == 0)
    {
      ghost var all := Stream();
      if n == 0 {
        return "";
      }
      if |buf| == 0 {
        var more := Fill();
        if !more {
          return "";
        }
      }
      var m := if n < |buf| then n else |buf|;
      b := buf[..m];
      assert b + (buf[m..] + Concat(chunks)) == all;
      buf := buf[m..];
    }

    /** Any sequence of reads, of any sizes: no byte is lost, duplicated or moved. */
    method ReadMany(sizes: seq<nat>) returns (out: Bytes)
      requires Valid()
      modifies this
      ensures Valid() && out + Stream() == old(Stream())
    {
      out := "";
      var i := 0;
      while i < |sizes|
        invariant 0 <= i <= |sizes|
        invariant Valid() && out + Stream() == old(Stream())
      {
        var b := Read(sizes[i]);
        ghost var before := out;
        assert before + (b + Stream()) == (before + b) + Stream();
        out := out + b;
        i := i + 1;
      }
    }

    /** The reply half of a dial: the agent's bytes behind the line stay readable. */
    method DialReply() returns (accepted: bool)
      requires Valid()
      modifies this
      ensures Valid()
      ensures var (line, ok) := LineOf(old(Stream()), '\n');
        accepted == (ok && "OK " <= line) && line + Stream() == old(Stream())
    {
      var line, ok := ReadString('\n');
      if !ok {
        return false;
      }
      DialAcceptsIffProbeAccepts(line);
      line := TrimRight(line);
      return "OK " <= line;
    }

    /** The reply half of a readiness probe. */
    method ProbeReply() returns (accepted: bool)
      requires Valid()
      modifies this
      ensures Valid()
      ensures var (line, ok) := LineOf(old(Stream()), '\n');
        accepted == (ok && "OK " <= line) && line + Stream() == old(Stream())
    {
      var line, ok := ReadString('\n');
      if !ok {
        return false;
      }
      return "OK " <= line;
    }
  }

  /** The line without trailing carriage returns and newlines. */
  function TrimRight(line: Bytes): Bytes {
    if |line| > 0 && (line[|line| - 1] == '\r' || line[|line| - 1] == '\n')
    then TrimRight(line[..|line| - 1])
    else line
  }

  predicate DialAccepts(line: Bytes) { "OK " <= TrimRight(line) }

  predicate ProbeAccepts(line: Bytes) { "OK " <= line }

  /** The dial trims the reply first and the probe does not, yet they accept exactly
      the same reply lines. */
  lemma {:induction false} DialAcceptsIffProbeAccepts(line: Bytes)
    ensures DialAccepts(line) <==> ProbeAccepts(line)
  {
    if |line| > 0 && (line[|line| - 1] == '\r' || line[|line| - 1] == '\n') {
      var init := line[..|line| - 1];
      DialAcceptsIffProbeAccepts(init);
      assert "OK "[2] == ' ' && "OK "[1] == 'K' && "OK "[0] == 'O';
      if "OK " <= line {
        assert line[..3] == "OK ";
        assert |line| > 3;
        assert init[..3] == line[..3];
      }
    }
  }

  /** Two connections that carry the same bytes cut differently: the same verdict and
      the same bytes left. */
  method ChunkingIsIrrelevant(a: BufferedConn, b: BufferedConn) returns (x: bool, y: bool)
    requires a != b && a.Valid() && b.Valid() && a.Stream() == b.Stream()
    modifies a, b
    ensures x == y && a.Stream() == b.Stream()
  {
    ghost var line := LineOf(a.Stream(), '\n').0;
    ghost var all := a.Stream();
    x := a.DialReply();
    y := b.ProbeReply();
    assert all[|line|..] == a.Stream() && all[|line|..] == b.Stream();
  }
}
