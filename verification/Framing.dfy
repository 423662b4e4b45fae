/** resolver/listeners.go:164-201: DNS messages over a byte stream, each behind a
    two-byte length (section 4.2.2 of RFC 1035, section 3.3 of RFC 7858). */
module Framing {
  import opened GoStrings
  import opened Counters

  type Byte = x: int | 0 <= x < 256

  type Bytes = seq<Byte>

  const MAX_MESSAGE: nat := 65535

  // ---- frames ----

  /** The reply, behind its length as `PutUint16` writes it. */
  function Frame(out: Bytes): Bytes
    requires |out| <= MAX_MESSAGE
  {
    [|out| / 256, |out| % 256] + out
  }

  /** `BigEndian.Uint16`. */
  function Length(hi: int, lo: int): int { 256 * hi + lo }

  /** The first frame of a stream and what follows it; nothing for a length of
      zero, and nothing when the stream ends first. */
  function Deframe(s: Bytes): (r: Option<(Bytes, Bytes)>)
    ensures r.Some? ==> |r.value.1| < |s| && 0 < |r.value.0| <= MAX_MESSAGE
  {
    if |s| < 2 then None
    else
      var n := Length(s[0], s[1]);
      if n == 0 || |s| < 2 + n then None else Some((s[2..2 + n], s[2 + n..]))
  }

  /** What two bytes on the wire stand for: the first counts 256 times the second. */
  function TwoBytes(first: int, second: int): int { first * 256 + second }

  lemma Places(first: int, second: int, n: int)
    requires 0 <= second < 256
    ensures TwoBytes(first, second) == n <==> first == n / 256 && second == n % 256
  {}

  /** On the wire: a frame is read exactly from two bytes of its length, the high
      one first, its bytes, which are one at least, and whatever follows. */
  lemma DeframeExact(s: Bytes, frame: Bytes, rest: Bytes)
    ensures Deframe(s) == Some((frame, rest))
       <==> |s| >= 3 && |frame| > 0 && TwoBytes(s[0], s[1]) == |frame| && s[2..] == frame + rest
  {
    if |s| >= 2 {
      var n := Length(s[0], s[1]);
      if 0 < n <= |s| - 2 {
        assert s[2..] == s[2..2 + n] + s[2 + n..];
        if |frame| == n && s[2..] == frame + rest {
          assert s[2..2 + n] == s[2..][..n] == frame && s[2 + n..] == s[2..][n..] == rest;
        }
      }
    }
  }

  /** All the frames a reader gets out of a stream. */
  function Frames(s: Bytes): seq<Bytes>
    decreases |s|
  {
    match Deframe(s)
    case None => []
    case Some((frame, rest)) => [frame] + Frames(rest)
  }

  predicate Fits(replies: seq<Bytes>) { forall i :: 0 <= i < |replies| ==> |replies[i]| <= MAX_MESSAGE }

  function Join(replies: seq<Bytes>): Bytes
    requires Fits(replies)
  {
    if replies == [] then [] else Frame(replies[0]) + Join(replies[1..])
  }

  lemma FrameExact(out: Bytes, rest: Bytes)
    requires |out| <= MAX_MESSAGE
    ensures var s := Frame(out) + rest; |s| >= 2 && TwoBytes(s[0], s[1]) == |out| && s[2..] == out + rest
  {
    var head: Bytes := [|out| / 256, |out| % 256];
    assert Frame(out) + rest == head + (out + rest);
    Places(|out| / 256, |out| % 256, |out|);
  }

  /** And replies are written so: the two bytes of the first one's length, the
      high one first, its bytes, and then the others alike. */
  lemma JoinExact(replies: seq<Bytes>)
    requires Fits(replies)
    ensures replies == [] ==> Join(replies) == []
    ensures replies != [] ==> var s := Join(replies);
      && |s| >= 2 && TwoBytes(s[0], s[1]) == |replies[0]| && s[2..] == replies[0] + Join(replies[1..])
  {
    if replies != [] { FrameExact(replies[0], Join(replies[1..])); }
  }

  lemma FirstFrame(out: Bytes, rest: Bytes)
    requires 0 < |out| <= MAX_MESSAGE
    ensures Deframe(Frame(out) + rest) == Some((out, rest))
  {
    var s := Frame(out) + rest;
    assert Length(s[0], s[1]) == |out|;
    assert s[2..2 + |out|] == out && s[2 + |out|..] == rest;
  }

  lemma {:induction false} JoinOneMore(replies: seq<Bytes>, out: Bytes)
    requires Fits(replies) && |out| <= MAX_MESSAGE
    ensures Join(replies + [out]) == Join(replies) + Frame(out)
  {
    if replies == [] {
      assert [] + [out] == [out] && [out][1..] == [];
    } else {
      assert (replies + [out])[1..] == replies[1..] + [out];
      JoinOneMore(replies[1..], out);
    }
  }

  lemma FirstOfJoin(replies: seq<Bytes>)
    requires Fits(replies) && replies != [] && replies[0] != []
    ensures Frames(Join(replies)) == [replies[0]] + Frames(Join(replies[1..]))
  {
    FirstFrame(replies[0], Join(replies[1..]));
  }

  lemma EmptyFirst(replies: seq<Bytes>)
    requires Fits(replies) && replies != [] && replies[0] == []
    ensures Frames(Join(replies)) == []
  {
    var s := Join(replies);
    assert s[0] == 0 && s[1] == 0;
  }

  /** De-framing recovers the replies, exactly when none of them is empty: a
      zero length reads as the end. The length never wraps. */
  lemma {:induction false} DeframeJoin(replies: seq<Bytes>)
    requires Fits(replies)
    ensures Frames(Join(replies)) == replies <==> [] !in replies
  {
    if replies != [] {
      var rest := replies[1..];
      DeframeJoin(rest);
      assert replies == [replies[0]] + rest;
      assert [] in replies <==> replies[0] == [] || [] in rest;
      if replies[0] == [] { EmptyFirst(replies); }
      else {
        FirstOfJoin(replies);
        PairSame(replies[0], Frames(Join(rest)), rest);
      }
    }
  }

  lemma PairSame(x: Bytes, a: seq<Bytes>, b: seq<Bytes>)
    ensures [x] + a == [x] + b <==> a == b
  {
    assert ([x] + a)[1..] == a && ([x] + b)[1..] == b;
  }

  // ---- serving a stream ----

  /** What becomes of a request: it does not parse, its reply does not pack, or
      the packed reply. */
  datatype Handled = Unparsed | Unpacked | Packed(out: Bytes)

  /** What handles the k-th message of the connection. */
  type Handler = (nat, Bytes) -> Handled

  predicate Good(h: Handled) { h.Packed? && |h.out| <= MAX_MESSAGE }

  /** How the serving of a stream ended: at its end, or with a message that does
      not parse, or with a reply that could not be written. */
  datatype End = Over | Malformed | Unsent(reply: Bytes)

  /** The replies sent for a stream from its k-th request on, and how it ended.
      The first `sends` writes of the connection succeed. */
  function Served(handle: Handler, s: Bytes, k: nat, sends: nat): (seq<Bytes>, End)
    decreases |s|
  {
    match Deframe(s)
    case None => ([], Over)
    case Some((frame, rest)) =>
      var h := handle(k, frame);
      if !Good(h) then ([], if h.Unparsed? then End.Malformed else Over)
      else if k >= sends then ([], Unsent(h.out))
      else
        var (replies, end) := Served(handle, rest, k + 1, sends);
        ([h.out] + replies, end)
  }

  /** One reply for each request, in order, for the longest run of requests that
      parse, whose replies fit, and that can be sent. */
  ghost predicate Longest(handle: Handler, requests: seq<Bytes>, k: nat, sends: nat, replies: seq<Bytes>, end: End) {
    && |replies| <= |requests|
    && (forall j :: 0 <= j < |replies| ==> Answers(handle, k + j, requests[j], sends, replies[j]))
    && (|replies| < |requests| ==> Refuses(handle, k + |replies|, requests[|replies|], sends))
    && (end == End.Malformed <==> |replies| < |requests| && handle(k + |replies|, requests[|replies|]) == Unparsed)
    && (end.Unsent? <==> |replies| < |requests| && Good(handle(k + |replies|, requests[|replies|])))
    && (end.Unsent? ==> end.reply == handle(k + |replies|, requests[|replies|]).out)
  }

  predicate Answers(handle: Handler, n: nat, request: Bytes, sends: nat, reply: Bytes) {
    n < sends && |reply| <= MAX_MESSAGE && handle(n, request) == Packed(reply)
  }

  predicate Refuses(handle: Handler, n: nat, request: Bytes, sends: nat) { !Good(handle(n, request)) || n >= sends }

  lemma LongestCons(handle: Handler, requests: seq<Bytes>, k: nat, sends: nat, replies: seq<Bytes>, end: End,
                    first: Bytes)
    requires Longest(handle, requests, k + 1, sends, replies, end)
    requires Good(handle(k, first)) && k < sends
    ensures Longest(handle, [first] + requests, k, sends, [handle(k, first).out] + replies, end)
  {
    var all, reqs := [handle(k, first).out] + replies, [first] + requests;
    forall j | 0 <= j < |all| ensures Answers(handle, k + j, reqs[j], sends, all[j]) {
      if j > 0 { assert Answers(handle, k + 1 + (j - 1), requests[j - 1], sends, replies[j - 1]); }
    }
    assert k + |all| == k + 1 + |replies|;
  }

  lemma {:induction false} ServedLongest(handle: Handler, s: Bytes, k: nat, sends: nat)
    ensures Longest(handle, Frames(s), k, sends, Served(handle, s, k, sends).0, Served(handle, s, k, sends).1)
    decreases |s|
  {
    match Deframe(s)
    case None =>
    case Some((frame, rest)) =>
      assert Frames(s) == [frame] + Frames(rest) && Frames(s)[0] == frame;
      if Good(handle(k, frame)) && k < sends {
        ServedLongest(handle, rest, k + 1, sends);
        var (replies, end) := Served(handle, rest, k + 1, sends);
        LongestCons(handle, Frames(rest), k, sends, replies, end, frame);
      }
  }

  function Flat(chunks: seq<Bytes>): Bytes {
    if chunks == [] then [] else chunks[0] + Flat(chunks[1..])
  }

  /** A connection: what its reads will return, one by one, before it ends, and
      what has been written to it. */
  class Conn {
    var chunks: seq<Bytes>
    var out: Bytes

    constructor (chunks: seq<Bytes>)
      ensures this.chunks == chunks && out == []
    { this.chunks, out := chunks, []; }

    /** One Read into a buffer of `n` bytes; it may return fewer, or none. */
    method Read(n: nat) returns (data: Bytes, ok: bool)
      modifies this`chunks
      ensures ok <==> old(chunks) != []
      ensures |data| <= n && Flat(old(chunks)) == data + Flat(chunks)
      ensures ok ==> |chunks| + |Flat(chunks)| < |old(chunks)| + |Flat(old(chunks))| || |data| == n
      ensures |chunks| <= |old(chunks)|
    {
      if chunks == [] { return [], false; }
      var c := chunks[0];
      if |c| <= n {
        chunks := chunks[1..];
        return c, true;
      }
      assert c == c[..n] + c[n..];
      chunks := [c[n..]] + chunks[1..];
      return c[..n], true;
    }

    /** `io.ReadFull`: reads until the buffer is full or the stream ends. */
    method ReadFull(n: nat) returns (buf: Bytes, ok: bool)
      modifies this`chunks
      ensures ok <==> |Flat(old(chunks))| >= n
      ensures ok ==> |buf| == n && Flat(old(chunks)) == buf + Flat(chunks)
    {
      buf := [];
      while |buf| < n
        invariant |buf| <= n && Flat(old(chunks)) == buf + Flat(chunks)
        decreases |chunks| + |Flat(chunks)| + (n - |buf|)
      {
        var data, more := Read(n - |buf|);
        if !more { return buf, false; }
        buf := buf + data;
      }
      return buf, true;
    }
  }

  /** The two ReadFull calls of a round take one frame. */
  lemma RoundReads(from: Bytes, lenBuf: Bytes, mid: Bytes)
    requires |lenBuf| == 2 && from == lenBuf + mid
    ensures var n := Length(lenBuf[0], lenBuf[1]);
      && (n == 0 || |mid| < n ==> Deframe(from) == None)
      && (0 < n <= |mid| ==> Deframe(from) == Some((mid[..n], mid[n..])))
  {
    assert from[0] == lenBuf[0] && from[1] == lenBuf[1];
    var n := Length(lenBuf[0], lenBuf[1]);
    if 0 < n <= |mid| { assert from[2..2 + n] == mid[..n] && from[2 + n..] == mid[n..]; }
  }

  /** The reading half of a round. */
  method ReadFrame(conn: Conn) returns (frame: Option<Bytes>)
    modifies conn`chunks
    ensures match Deframe(Flat(old(conn.chunks)))
      case None => frame == None
      case Some((f, rest)) => frame == Some(f) && Flat(conn.chunks) == rest
  {
    ghost var from := Flat(conn.chunks);
    var lenBuf, ok := conn.ReadFull(2);
    if !ok { return None; }
    ghost var mid := Flat(conn.chunks);
    RoundReads(from, lenBuf, mid);
    var n := Length(lenBuf[0], lenBuf[1]);
    if n == 0 { return None; }
    var buf;
    buf, ok := conn.ReadFull(n);
    if !ok { return None; }
    assert mid[..n] == buf && mid[n..] == Flat(conn.chunks);
    return Some(buf);
  }

  /** Serving stream `s` has sent `replies` and is left with `at`. */
  ghost predicate Along(handle: Handler, s: Bytes, sends: nat, replies: seq<Bytes>, at: Bytes) {
    var (rest, bad) := Served(handle, at, |replies|, sends);
    Served(handle, s, 0, sends) == (replies + rest, bad)
  }

  lemma AlongStart(handle: Handler, s: Bytes, sends: nat)
    ensures Along(handle, s, sends, [], s)
  {
    assert [] + Served(handle, s, 0, sends).0 == Served(handle, s, 0, sends).0;
  }

  lemma AlongMore(handle: Handler, s: Bytes, sends: nat, replies: seq<Bytes>, at: Bytes, frame: Bytes, rest: Bytes)
    requires Along(handle, s, sends, replies, at) && Deframe(at) == Some((frame, rest))
    requires Good(handle(|replies|, frame)) && |replies| < sends
    ensures Along(handle, s, sends, replies + [handle(|replies|, frame).out], rest)
  {
    Reassociate(replies, handle(|replies|, frame).out, Served(handle, rest, |replies| + 1, sends).0);
  }

  lemma AlongStop(handle: Handler, s: Bytes, sends: nat, replies: seq<Bytes>, at: Bytes)
    requires Along(handle, s, sends, replies, at) && Served(handle, at, |replies|, sends).0 == []
    ensures Served(handle, s, 0, sends) == (replies, Served(handle, at, |replies|, sends).1)
  {
    assert replies + [] == replies;
  }

  /** As much of an unsent reply's frame as got out before the write failed. */
  function Spilled(end: End, spill: nat): (s: Bytes)
    requires end.Unsent? ==> |end.reply| <= MAX_MESSAGE
    ensures !end.Unsent? ==> s == []
    ensures end.Unsent? ==>
      s <= Frame(end.reply) && |s| == if spill < |Frame(end.reply)| then spill else |Frame(end.reply)| - 1
  {
    if !end.Unsent? then []
    else Frame(end.reply)[..if spill <= |end.reply| then spill else |end.reply| + 1]
  }

  /** serveStream. A deadline that passes is an end of the stream for a read and
      a failure for a write; `spill` bytes of a failing write may still get out.
      A message that does not parse is counted, and ends the connection. */
  method ServeStream(conn: Conn, m: CounterSet, handle: Handler, sends: nat, spill: nat)
    returns (ghost replies: seq<Bytes>, end: End)
    modifies conn, m
    ensures (replies, end) == Served(handle, Flat(old(conn.chunks)), 0, sends)
    ensures Fits(replies) && (end.Unsent? ==> |end.reply| <= MAX_MESSAGE)
    ensures conn.out == old(conn.out) + Join(replies) + Spilled(end, spill)
    ensures m.counts == old(m.counts) + Rejection(end == End.Malformed)
  {
    replies, end := [], Over;
    var k := 0;
    ghost var s := Flat(conn.chunks);
    AlongStart(handle, s, sends);
    while true
      invariant Fits(replies) && k == |replies| && end == Over
      invariant conn.out == old(conn.out) + Join(replies) && m.counts == old(m.counts)
      invariant Along(handle, s, sends, replies, Flat(conn.chunks))
      decreases |Flat(conn.chunks)|
    {
      ghost var at := Flat(conn.chunks);
      var frame := ReadFrame(conn);
      if frame == None {
        AlongStop(handle, s, sends, replies, at);
        return;
      }
      var h := handle(k, frame.value);
      if !Good(h) {
        AlongStop(handle, s, sends, replies, at);
        if h.Unparsed? {
          m.Add(Metric.Malformed);
          end := End.Malformed;
        }
        return;
      }
      if k >= sends {
        AlongStop(handle, s, sends, replies, at);
        end := Unsent(h.out);
        conn.out := conn.out + Spilled(end, spill);
        return;
      }
      AlongMore(handle, s, sends, replies, at, frame.value, Flat(conn.chunks));
      JoinOneMore(replies, h.out);
      conn.out := conn.out + Frame(h.out);
      replies := replies + [h.out];
      k := k + 1;
    }
  }

  // ---- one message in an HTTP body ----

  datatype DohReply = Status(code: nat) | Replied(out: Bytes)

  /** dohHandler, from the decoded body on; None is a body that could not be read
      or decoded. A body that does not parse is counted before the host name is
      looked at. */
  method ServeDoh(m: CounterSet, body: Option<Bytes>, routeID: string, handle: Handler) returns (r: DohReply)
    modifies m
    ensures m.counts == old(m.counts) + Rejection(body.Some? && body.value != [] && handle(0, body.value).Unparsed?)
    ensures r.Replied? <==> body.Some? && body.value != [] && routeID != "" && handle(0, body.value).Packed?
    ensures r.Replied? ==> handle(0, body.value) == Packed(r.out)
    ensures r == Status(400) <==> body == None || body.value == [] || handle(0, body.value).Unparsed?
    ensures r == Status(500) <==> body.Some? && body.value != [] && routeID != "" && handle(0, body.value).Unpacked?
    ensures r == Status(403) <==> body.Some? && body.value != [] && routeID == "" && !handle(0, body.value).Unparsed?
  {
    if body == None || body.value == [] { return Status(400); }
    var h := handle(0, body.value);
    if h.Unparsed? {
      m.Add(Metric.Malformed);
      return Status(400);
    }
    if routeID == "" { return Status(403); }
    if h.Unpacked? { return Status(500); }
    return Replied(h.out);
  }

  // ---- a reply that is cut off is no message ----

  lemma FrameThen(out: Bytes, rest: Bytes)
    requires 0 < |out| <= MAX_MESSAGE
    ensures Frames(Frame(out) + rest) == [out] + Frames(rest)
  {
    FirstFrame(out, rest);
  }

  predicate NoneEmpty(replies: seq<Bytes>) { forall i :: 0 <= i < |replies| ==> |replies[i]| > 0 }

  lemma {:induction false} FramesThen(replies: seq<Bytes>, tail: Bytes)
    requires Fits(replies) && NoneEmpty(replies)
    ensures Frames(Join(replies) + tail) == replies + Frames(tail)
  {
    if replies == [] {
      assert Join(replies) + tail == tail && replies + Frames(tail) == Frames(tail);
    } else {
      FramesThen(replies[1..], tail);
      FrameThen(replies[0], Join(replies[1..]) + tail);
      FirstThenRest(replies, tail);
    }
  }

  lemma FirstThenRest(replies: seq<Bytes>, tail: Bytes)
    requires Fits(replies) && replies != []
    ensures Join(replies) + tail == Frame(replies[0]) + (Join(replies[1..]) + tail)
    ensures replies + Frames(tail) == [replies[0]] + (replies[1..] + Frames(tail))
  {
    Associates(Frame(replies[0]), Join(replies[1..]), tail);
    Associates([replies[0]], replies[1..], Frames(tail));
    assert replies == [replies[0]] + replies[1..];
  }

  lemma Associates<T>(a: seq<T>, b: seq<T>, c: seq<T>)
    ensures (a + b) + c == a + (b + c)
  {}

  lemma SpilledIsNoFrame(end: End, spill: nat)
    requires end.Unsent? ==> 0 < |end.reply| <= MAX_MESSAGE
    ensures Frames(Spilled(end, spill)) == []
  {
    var s := Spilled(end, spill);
    if |s| >= 2 { assert Length(s[0], s[1]) == |end.reply|; }
  }

  /** De-framing all that was written recovers exactly the replies sent in full,
      whatever part of another one got out before the connection failed. */
  lemma DeframeOutput(replies: seq<Bytes>, end: End, spill: nat)
    requires Fits(replies) && [] !in replies && (end.Unsent? ==> 0 < |end.reply| <= MAX_MESSAGE)
    ensures Frames(Join(replies) + Spilled(end, spill)) == replies
  {
    assert forall i :: 0 <= i < |replies| ==> replies[i] in replies;
    FramesThen(replies, Spilled(end, spill));
    SpilledIsNoFrame(end, spill);
    assert replies + [] == replies;
  }
}
