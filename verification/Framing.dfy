/** Length-prefixed framing over a byte stream: what the RAN writes to one dApp connection, and
    what the dApp reads back, when the kernel moves as few bytes per call as it likes. */
module Framing {
  import opened Options

  newtype byte = b: int | 0 <= b < 256

  const CHUNK_SIZE: nat := 8192
  const MAX_PAYLOAD: nat := 65536
  const U32: nat := 0x1_0000_0000

  // ------------------------------------------------------------------- the length prefix

  function BigEndian(n: nat): (s: seq<byte>)
    requires n < U32
    ensures |s| == 4
  {
    [(n / 0x100_0000) as byte, (n / 0x1_0000 % 256) as byte, (n / 256 % 256) as byte, (n % 256) as byte]
  }

  function FromBigEndian(s: seq<byte>): (n: nat)
    requires |s| == 4
    ensures n < U32
  {
    ((s[0] as int * 256 + s[1] as int) * 256 + s[2] as int) * 256 + s[3] as int
  }

  /** The prefix and its reading are inverse, both ways. */
  lemma PrefixRoundTrip(n: nat)
    requires n < U32
    ensures FromBigEndian(BigEndian(n)) == n
  {
    assert n / 0x1_0000 == n / 256 / 256 && n / 0x100_0000 == n / 256 / 256 / 256;
  }

  lemma PrefixIsUnique(s: seq<byte>)
    requires |s| == 4
    ensures BigEndian(FromBigEndian(s)) == s
  {
    var a, b, c, d := s[0] as int, s[1] as int, s[2] as int, s[3] as int;
    var n := FromBigEndian(s);
    assert n == a * 0x100_0000 + b * 0x1_0000 + c * 256 + d;
    assert n / 256 == a * 0x1_0000 + b * 256 + c && n / 0x1_0000 == a * 256 + b && n / 0x100_0000 == a;
  }

  /** Most significant byte first. */
  lemma PrefixIsMostSignificantFirst(n: nat)
    requires n < U32
    ensures var s := BigEndian(n);
            n == s[0] as int * 0x100_0000 + s[1] as int * 0x1_0000 + s[2] as int * 0x100 + s[3] as int
    ensures BigEndian(1) == [0, 0, 0, 1] && BigEndian(0x100_0000) == [1, 0, 0, 0]
  {
    PrefixRoundTrip(n);
  }

  /** A message on the wire.  The prefix is a 32-bit field. */
  function Frame(m: seq<byte>): (f: seq<byte>)
    ensures |f| == 4 + |m|
  {
    BigEndian(|m| % U32) + m
  }

  function FrameAll(ms: seq<seq<byte>>): seq<byte> {
    if ms == [] then [] else Frame(ms[0]) + FrameAll(ms[1..])
  }

  // ----------------------------------------------------------------------------- sending

  /** The kernel's answer to one transfer call. */
  datatype Outcome = Moved(n: nat) | Interrupted | Failed

  function Min(a: nat, b: nat): nat {
    if a < b then a else b
  }

  /** How much the next call offers: everything while the prefix is not out, then a chunk. */
  function Offered(len: nat, done: nat): (n: nat)
    requires done <= len
    ensures n <= len - done && (done < len ==> n > 0)
    ensures done >= 4 ==> n <= CHUNK_SIZE
  {
    if done < 4 then len - done else Min(CHUNK_SIZE, len - done)
  }

  /** The bytes of a frame of `len` bytes that have gone out when the calls end, `done` of them
      being out already.  A plan that runs out is a call that failed. */
  function Transferred(plan: seq<Outcome>, len: nat, done: nat): (t: nat)
    requires done <= len
    ensures done <= t <= len
    decreases |plan|
  {
    if plan == [] || done == len then done
    else
      match plan[0]
      case Failed => done
      case Interrupted => Transferred(plan[1..], len, done)
      case Moved(n) => Transferred(plan[1..], len, done + Min(n, Offered(len, done)))
  }

  /** The calls of a plan that move something; none of it counts after a failure. */
  function Productive(plan: seq<Outcome>): nat {
    if plan == [] || plan[0].Failed? then 0
    else (if plan[0].Moved? && plan[0].n > 0 then 1 else 0) + Productive(plan[1..])
  }

  /** However short the writes and however often interrupted, enough calls send everything. */
  lemma {:induction false} EnoughCallsSendEverything(plan: seq<Outcome>, len: nat, done: nat)
    requires done <= len && Productive(plan) >= len - done
    ensures Transferred(plan, len, done) == len
    decreases |plan|
  {
    if done < len {
      match plan[0]
      case Interrupted => EnoughCallsSendEverything(plan[1..], len, done);
      case Moved(n) => EnoughCallsSendEverything(plan[1..], len, done + Min(n, Offered(len, done)));
    }
  }

  lemma PrefixGrows(wire: seq<byte>, frame: seq<byte>, done: nat, offered: nat, sent: nat)
    requires done + offered <= |frame| && sent <= offered
    ensures wire + frame[..done] + frame[done..done + offered][..sent] == wire + frame[..done + sent]
  {
  }

  /** The bytes offered to the next call: the rest of the prefix with the payload behind it, or
      the next chunk of the payload. */
  function Next(prefix: seq<byte>, data: seq<byte>, done: nat): (bytes: seq<byte>)
    requires |prefix| == 4 && done <= 4 + |data|
    ensures |bytes| == Offered(4 + |data|, done)
  {
    if done < 4 then prefix[done..] + data else data[done - 4..done - 4 + Min(CHUNK_SIZE, |data| - (done - 4))]
  }

  lemma RestOfAll(prefix: seq<byte>, data: seq<byte>, done: nat)
    requires done <= |prefix|
    ensures (prefix + data)[done..|prefix| + |data|] == prefix[done..] + data
  {
  }

  lemma ChunkOfData(prefix: seq<byte>, data: seq<byte>, done: nat, n: nat)
    requires done + n <= |data|
    ensures (prefix + data)[|prefix| + done..|prefix| + done + n] == data[done..done + n]
  {
  }

  lemma NextIsOfTheFrame(prefix: seq<byte>, data: seq<byte>, done: nat)
    requires |prefix| == 4 && done <= 4 + |data|
    ensures Next(prefix, data, done) == (prefix + data)[done..done + Offered(4 + |data|, done)]
  {
    if done < 4 {
      RestOfAll(prefix, data, done);
    } else {
      ChunkOfData(prefix, data, done - 4, Min(CHUNK_SIZE, |data| - (done - 4)));
    }
  }

  /** Sends one framed message over a connection whose stream so far is `wire`: a prefix of the
      frame goes out, and the call answers 0 exactly when that is all of it. */
  method SendInChunks(wire: seq<byte>, data: seq<byte>, plan: seq<Outcome>) returns (wire': seq<byte>, rc: int)
    ensures wire' == wire + Frame(data)[..Transferred(plan, |Frame(data)|, 0)]
    ensures rc == if Transferred(plan, |Frame(data)|, 0) == |Frame(data)| then 0 else -1
  {
    var prefix := BigEndian(|data| % U32);
    var totalLen := 4 + |data|;
    var totalSent := 0;
    wire' := wire;
    var i := 0;
    while totalSent < totalLen
      invariant totalSent <= totalLen && i <= |plan|
      invariant wire' == wire + Frame(data)[..totalSent]
      invariant Transferred(plan, totalLen, 0) == Transferred(plan[i..], totalLen, totalSent)
      decreases |plan| - i
    {
      if i == |plan| {
        return wire', -1;
      }
      var outcome := plan[i];
      i := i + 1;
      assert plan[i - 1..][1..] == plan[i..];
      if outcome.Interrupted? {
        continue;
      } else if outcome.Failed? {
        return wire', -1;
      }
      var offered := Next(prefix, data, totalSent);
      NextIsOfTheFrame(prefix, data, totalSent);
      var sent := Min(outcome.n, |offered|);
      PrefixGrows(wire, prefix + data, totalSent, |offered|, sent);
      wire' := wire' + offered[..sent];
      totalSent := totalSent + sent;
    }
    rc := 0;
  }

  // --------------------------------------------------------------------------- receiving

  datatype Received = Message(data: seq<byte>) | NotConnected | TransportError

  /** What one receive makes of a stream that ends where `input` ends. */
  datatype Parsed = Parsed(result: Received, rest: seq<byte>)

  function Parse(input: seq<byte>): Parsed {
    if |input| < 4 then Parsed(NotConnected, [])
    else
      var n := FromBigEndian(input[..4]);
      if n == 0 || n > MAX_PAYLOAD then Parsed(TransportError, input[4..])
      else if |input| < 4 + n then Parsed(TransportError, [])
      else Parsed(Message(input[4..4 + n]), input[4 + n..])
  }

  /** No call of the plan fails, and there are enough of them. */
  predicate Reliable(plan: seq<Outcome>, calls: nat) {
    |plan| >= calls && forall i :: 0 <= i < |plan| ==> plan[i].Moved?
  }

  /** One kernel read of at most `most` bytes: at least one byte if any is left, none at the end
      of the stream. */
  function Read(input: seq<byte>, outcome: Outcome, most: nat): (got: Option<seq<byte>>)
    requires most > 0
    ensures got.Some? ==> |got.value| <= most && got.value <= input && (got.value == [] <==> input == [])
    ensures got.Some? <==> outcome.Moved?
  {
    if outcome.Moved? then Some(input[..Min(Min(if outcome.n == 0 then 1 else outcome.n, most), |input|)]) else None
  }

  /** Reads until `want` bytes are in or the stream ends or fails, at most a chunk per call. */
  method ReadExactly(input: seq<byte>, want: nat, plan: seq<Outcome>)
    returns (buffer: seq<byte>, eof: bool, ok: bool, rest: seq<byte>, left: seq<Outcome>)
    ensures input == buffer + rest && |buffer| <= want && (ok <==> |buffer| == want)
    ensures eof ==> !ok && rest == []
    ensures |left| <= |plan| && left == plan[|plan| - |left|..]
    ensures Reliable(plan, want + 1) ==> (ok <==> |input| >= want) && (!ok ==> eof) && |left| + want >= |plan|
  {
    buffer, rest, left, eof := [], input, plan, false;
    while |buffer| < want
      invariant input == buffer + rest && |buffer| <= want
      invariant |left| <= |plan| && left == plan[|plan| - |left|..]
      invariant Reliable(plan, want + 1) ==> |left| + |buffer| >= |plan|
      decreases |left|
    {
      if left == [] {
        return buffer, false, false, rest, left;
      }
      var got := Read(rest, left[0], Min(CHUNK_SIZE, want - |buffer|));
      left := left[1..];
      if got.None? {
        return buffer, false, false, rest, left;
      }
      if got.value == [] {
        return buffer, true, false, rest, left;
      }
      buffer := buffer + got.value;
      rest := rest[|got.value|..];
    }
    ok := true;
  }

  /** Receives one framed message.  A message is delivered only if it is the complete next frame
      of the stream, a closed connection is reported only inside a header, and as long as the
      kernel reports no error the answer is exactly what the stream says. */
  method RecvWithSize(input: seq<byte>, plan: seq<Outcome>) returns (result: Received, rest: seq<byte>)
    ensures result.Message? || result.NotConnected? ==> Parse(input) == Parsed(result, rest)
    ensures Reliable(plan, MAX_PAYLOAD + 5) ==> Parse(input) == Parsed(result, rest)
  {
    var header, eof, ok, after, left := ReadExactly(input, 4, plan);
    rest := after;
    if !ok {
      return if eof then NotConnected else TransportError, rest;
    }
    assert header == input[..4] && rest == input[4..];
    var payloadSize := FromBigEndian(header);
    if payloadSize == 0 || payloadSize > MAX_PAYLOAD {
      return TransportError, rest;
    }
    var buffer;
    buffer, eof, ok, rest, left := ReadExactly(after, payloadSize, left);
    if !ok {
      return TransportError, rest;
    }
    assert buffer == after[..payloadSize] == input[4..4 + payloadSize];
    result := Message(buffer);
  }

  // ---------------------------------------------------------------------------- theorems

  /** One frame is read back as it was written exactly when its payload is 1 to 65536 bytes
      long, whatever follows it. */
  lemma FrameRoundTrip(m: seq<byte>, rest: seq<byte>)
    ensures Parse(Frame(m) + rest) == Parsed(Message(m), rest) <==> 1 <= |m| <= MAX_PAYLOAD
  {
    var input := Frame(m) + rest;
    var n := |m| % U32;
    assert input[..4] == BigEndian(n);
    PrefixRoundTrip(n);
    if 1 <= |m| <= MAX_PAYLOAD {
      assert input[4..4 + n] == m && input[4 + n..] == rest;
    }
  }

  /** And what is delivered was framed: a message comes out only of a stream that starts with its
      frame. */
  lemma DeliveredWasFramed(input: seq<byte>, m: seq<byte>, rest: seq<byte>)
    ensures Parse(input) == Parsed(Message(m), rest) ==> input == Frame(m) + rest && 1 <= |m| <= MAX_PAYLOAD
  {
    if Parse(input) == Parsed(Message(m), rest) {
      PrefixIsUnique(input[..4]);
      assert input == input[..4] + m + rest;
    }
  }

  /** A stream that ends inside a header is a closed connection; a complete header that does not
      announce 1 to 65536 bytes, or announces more than there are, is a transport error. */
  lemma ParseErrors(n: nat, body: seq<byte>, short: seq<byte>)
    requires n < U32 && |short| < 4
    ensures Parse(short) == Parsed(NotConnected, [])
    ensures n == 0 || n > MAX_PAYLOAD ==> Parse(BigEndian(n) + body) == Parsed(TransportError, body)
    ensures 1 <= n <= MAX_PAYLOAD && |body| < n ==> Parse(BigEndian(n) + body) == Parsed(TransportError, [])
  {
    var input := BigEndian(n) + body;
    assert input[..4] == BigEndian(n) && input[4..] == body;
    PrefixRoundTrip(n);
  }

  ghost predicate Sendable(ms: seq<seq<byte>>) {
    forall i :: 0 <= i < |ms| ==> 1 <= |ms[i]| <= MAX_PAYLOAD
  }

  /** What receiving over and over yields: messages up to the first answer that is none. */
  datatype Session = Session(messages: seq<seq<byte>>, last: Received)

  ghost function ReceiveAll(input: seq<byte>): Session
    decreases |input|
  {
    var p := Parse(input);
    if p.result.Message? then
      var s := ReceiveAll(p.rest);
      Session([p.result.data] + s.messages, s.last)
    else Session([], p.result)
  }

  /** The receiving loop, one plan of kernel answers for each receive.  What it delivers is always a
      prefix of the complete messages of the stream, whatever fails; with reliable plans, enough of
      them, it is all of them, and then the error the stream ends with. */
  method ReceiveLoop(input: seq<byte>, plans: seq<seq<Outcome>>) returns (messages: seq<seq<byte>>, last: Option<Received>)
    ensures messages <= ReceiveAll(input).messages
    ensures last.Some? ==> !last.value.Message?
    ensures AllReliable(plans) && |plans| > |ReceiveAll(input).messages| ==>
              messages == ReceiveAll(input).messages && last == Some(ReceiveAll(input).last)
  {
    messages, last := [], None;
    var rest := input;
    for i := 0 to |plans|
      invariant |messages| == i && last == None
      invariant ReceiveAll(input).messages == messages + ReceiveAll(rest).messages
      invariant ReceiveAll(input).last == ReceiveAll(rest).last
    {
      var result, after := RecvWithSize(rest, plans[i]);
      if !result.Message? {
        return messages, Some(result);
      }
      OneReceived(messages, rest, result.data, after);
      messages := messages + [result.data];
      rest := after;
    }
  }

  lemma OneReceived(messages: seq<seq<byte>>, rest: seq<byte>, m: seq<byte>, after: seq<byte>)
    requires Parse(rest) == Parsed(Message(m), after)
    ensures messages + ReceiveAll(rest).messages == messages + [m] + ReceiveAll(after).messages
    ensures ReceiveAll(rest).last == ReceiveAll(after).last
  {
    assert ReceiveAll(rest).messages == [m] + ReceiveAll(after).messages;
  }

  predicate AllReliable(plans: seq<seq<Outcome>>) {
    forall i :: 0 <= i < |plans| ==> Reliable(plans[i], MAX_PAYLOAD + 5)
  }

  /** The messages whose frames lie completely within the first `k` bytes. */
  ghost function Complete(ms: seq<seq<byte>>, k: nat): (c: nat)
    ensures c <= |ms|
  {
    if ms == [] || k < 4 + |ms[0]| then 0 else 1 + Complete(ms[1..], k - (4 + |ms[0]|))
  }

  /** `Complete` counts what it says: the frames of the first c messages fit, those of one more
      do not. */
  lemma {:induction false} CompleteIsExact(ms: seq<seq<byte>>, k: nat)
    ensures var c := Complete(ms, k);
            && |FrameAll(ms[..c])| <= k
            && (c < |ms| ==> k < |FrameAll(ms[..c + 1])|)
  {
    if ms != [] && k >= 4 + |ms[0]| {
      var c := Complete(ms[1..], k - (4 + |ms[0]|));
      CompleteIsExact(ms[1..], k - (4 + |ms[0]|));
      assert ms[..c + 1][1..] == ms[1..][..c];
      if c + 1 < |ms| {
        assert ms[..c + 2][1..] == ms[1..][..c + 1];
      }
    } else if ms != [] {
      assert ms[..1][1..] == [] && ms[..1][0] == ms[0];
    }
  }

  /** A stream of frames cut at any byte: exactly the complete frames are delivered, then an
      error, and a closed connection is reported exactly when less than a header is left. */
  lemma {:induction false} CutStreams(ms: seq<seq<byte>>, k: nat)
    requires Sendable(ms) && k <= |FrameAll(ms)|
    ensures var c := Complete(ms, k);
            && ReceiveAll(FrameAll(ms)[..k]).messages == ms[..c]
            && |FrameAll(ms[..c])| <= k
            && ReceiveAll(FrameAll(ms)[..k]).last ==
                 if k - |FrameAll(ms[..c])| < 4 then NotConnected else TransportError
    decreases |ms|
  {
    CompleteIsExact(ms, k);
    if ms != [] {
      if k < 4 + |ms[0]| {
        CutFrame(ms[0], FrameAll(ms)[..k]);
      } else {
        var k' := k - (4 + |ms[0]|);
        var tail := FrameAll(ms[1..])[..k'];
        assert FrameAll(ms)[..k] == Frame(ms[0]) + tail;
        CutStreams(ms[1..], k');
        FirstIsReceived(ms[0], tail);
        FirstFrames(ms, Complete(ms[1..], k'));
      }
    }
  }

  /** The first frame is received, and the rest is what the rest of the messages make of it. */
  lemma FirstIsReceived(m: seq<byte>, tail: seq<byte>)
    requires 1 <= |m| <= MAX_PAYLOAD
    ensures var rest := ReceiveAll(tail);
            ReceiveAll(Frame(m) + tail) == Session([m] + rest.messages, rest.last)
  {
    FrameRoundTrip(m, tail);
  }

  lemma FirstFrames(ms: seq<seq<byte>>, c: nat)
    requires c < |ms|
    ensures ms[..c + 1] == [ms[0]] + ms[1..][..c]
    ensures FrameAll(ms[..c + 1]) == Frame(ms[0]) + FrameAll(ms[1..][..c])
  {
    assert ms[..c + 1][1..] == ms[1..][..c];
  }

  lemma CutFrame(m: seq<byte>, input: seq<byte>)
    requires 1 <= |m| <= MAX_PAYLOAD && input < Frame(m)
    ensures Parse(input).result == if |input| < 4 then NotConnected else TransportError
  {
    if |input| >= 4 {
      assert input[..4] == Frame(m)[..4] == BigEndian(|m|);
      PrefixRoundTrip(|m|);
    }
  }

  /** Everything sent is received, in order, when the stream is not cut. */
  lemma StreamRoundTrip(ms: seq<seq<byte>>)
    requires Sendable(ms)
    ensures ReceiveAll(FrameAll(ms)) == Session(ms, NotConnected)
  {
    var k := |FrameAll(ms)|;
    CutStreams(ms, k);
    assert FrameAll(ms)[..k] == FrameAll(ms);
    AllComplete(ms);
  }

  /** Whatever loop of receives runs over the frames of `ms`, cut anywhere: what it delivers is a
      prefix of what was sent. */
  lemma DeliveredIsPrefix(ms: seq<seq<byte>>, k: nat, messages: seq<seq<byte>>)
    requires Sendable(ms) && k <= |FrameAll(ms)| && messages <= ReceiveAll(FrameAll(ms)[..k]).messages
    ensures messages <= ms
  {
    CutStreams(ms, k);
  }

  lemma {:induction false} AllComplete(ms: seq<seq<byte>>)
    ensures Complete(ms, |FrameAll(ms)|) == |ms| && ms[..|ms|] == ms
  {
    if ms != [] {
      AllComplete(ms[1..]);
    }
  }

  lemma {:induction false} FrameAllAppends(ms: seq<seq<byte>>, m: seq<byte>)
    ensures FrameAll(ms + [m]) == FrameAll(ms) + Frame(m)
  {
    if ms == [] {
      assert ([] + [m])[1..] == [] && FrameAll([m]) == Frame(m) + FrameAll([]);
    } else {
      FrameAllAppends(ms[1..], m);
      assert (ms + [m])[1..] == ms[1..] + [m];
    }
  }
}
