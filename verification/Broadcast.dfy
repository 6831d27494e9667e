/** The RAN's outbound side: every message is framed and broadcast to every attached dApp; a
    connection that cannot take a whole frame is dropped. */
module Broadcast {
  import opened Options
  import opened Framing

  /** A connection, named apart from every other one ever accepted. */
  datatype Conn = Conn(id: int)

  datatype Code = Success | Cancelled | NotConnected | TransportError

  /** The attached peers in order, the bytes ever written to each connection, every message
      broadcast so far, and for each connection how many had been when it was accepted and when
      it was dropped. */
  datatype Hub = Hub(
    peers: seq<Conn>,
    wires: map<Conn, seq<byte>>,
    log: seq<seq<byte>>,
    joined: map<Conn, int>,
    dropped: map<Conn, int>)

  const NOBODY: Hub := Hub([], map[], [], map[], map[])

  /** What the kernel does with the writes to each connection during one broadcast. */
  type Plans = Conn -> seq<Outcome>

  // ---------------------------------------------------------------- one broadcast, as values

  /** How much of the frame goes out to `c`. */
  function Out(plans: Plans, frame: seq<byte>, c: Conn): (t: nat)
    ensures t <= |frame|
  {
    Transferred(plans(c), |frame|, 0)
  }

  predicate Fails(plans: Plans, frame: seq<byte>, c: Conn) {
    Out(plans, frame, c) < |frame|
  }

  function Among(cs: seq<Conn>): set<Conn> {
    set c | c in cs
  }

  ghost function Failing(cs: set<Conn>, plans: Plans, frame: seq<byte>): set<Conn> {
    set c | c in cs && Fails(plans, frame, c)
  }

  /** Those of `cs` that take the whole frame, in the same order. */
  function Kept(cs: seq<Conn>, plans: Plans, frame: seq<byte>): (kept: seq<Conn>)
    ensures |kept| <= |cs|
  {
    if cs == [] then []
    else (if Fails(plans, frame, cs[0]) then [] else [cs[0]]) + Kept(cs[1..], plans, frame)
  }

  function Accepted(wires: map<Conn, seq<byte>>, arrivals: set<Conn>): map<Conn, seq<byte>> {
    wires + map c | c in arrivals :: []
  }

  /** The streams after the frame has been offered to each of `cs`: each gets what its own
      writes let through, and nobody else gets anything. */
  ghost function Written(wires: map<Conn, seq<byte>>, cs: set<Conn>, plans: Plans, frame: seq<byte>): map<Conn, seq<byte>> {
    map c | c in wires :: if c in cs then wires[c] + frame[..Out(plans, frame, c)] else wires[c]
  }

  ghost function Marked(times: map<Conn, int>, cs: set<Conn>, now: int): map<Conn, int> {
    times + map c | c in cs :: now
  }

  /** The state after a broadcast of a message framed as `frame`. */
  ghost function Sent(h: Hub, arrivals: seq<Conn>, data: seq<byte>, frame: seq<byte>, plans: Plans): Hub {
    var all := Among(h.peers) + Among(arrivals);
    Hub(Kept(h.peers + arrivals, plans, frame),
        Written(Accepted(h.wires, Among(arrivals)), all, plans, frame),
        h.log + [data],
        Marked(h.joined, Among(arrivals), |h.log|),
        Marked(h.dropped, Failing(all, plans, frame), |h.log|))
  }

  // ------------------------------------------------------------------------- what is kept

  /** The stream of a connection accepted after `joined` messages: while it is attached, the
      frames of every message since, in order; once dropped on message `gone`, the same up to
      that message, and less than all of its frame. */
  ghost predicate StreamIs(wire: seq<byte>, log: seq<seq<byte>>, joined: int, gone: Option<int>) {
    && 0 <= joined <= |log|
    && match gone
       case None => wire == FrameAll(log[joined..])
       case Some(d) =>
         joined <= d < |log| && FrameAll(log[joined..d]) <= wire < FrameAll(log[joined..d]) + Frame(log[d])
  }

  ghost function Gone(h: Hub, c: Conn): Option<int> {
    if c in h.dropped then Some(h.dropped[c]) else None
  }

  ghost predicate StreamOk(h: Hub, c: Conn)
    requires c in h.wires && c in h.joined
  {
    StreamIs(h.wires[c], h.log, h.joined[c], Gone(h, c))
  }

  predicate Distinct(cs: seq<Conn>) {
    forall i, j :: 0 <= i < j < |cs| ==> cs[i] != cs[j]
  }

  /** Every connection ever accepted is attached or dropped, not both. */
  ghost predicate Partition(h: Hub) {
    && Distinct(h.peers) && Among(h.peers) !! h.dropped.Keys
    && h.wires.Keys == h.joined.Keys == Among(h.peers) + h.dropped.Keys
  }

  /** And every one has the stream it should have. */
  ghost predicate Streams(h: Hub) {
    Partition(h) && forall c :: c in h.wires ==> StreamOk(h, c)
  }

  /** The new connections are new. */
  predicate Fresh(h: Hub, arrivals: seq<Conn>) {
    Distinct(arrivals) && Among(arrivals) !! h.wires.Keys
  }

  lemma {:induction false} KeptExactly(cs: seq<Conn>, plans: Plans, frame: seq<byte>)
    ensures Among(Kept(cs, plans, frame)) == Among(cs) - Failing(Among(cs), plans, frame)
  {
    if cs != [] {
      var k := Kept(cs[1..], plans, frame);
      KeptExactly(cs[1..], plans, frame);
      assert Among(cs) == Among(cs[1..]) + {cs[0]};
      assert Among([cs[0]] + k) == {cs[0]} + Among(k) && [] + k == k;
    }
  }

  lemma {:induction false} KeptDistinct(cs: seq<Conn>, plans: Plans, frame: seq<byte>)
    requires Distinct(cs)
    ensures Distinct(Kept(cs, plans, frame))
  {
    if cs != [] {
      KeptDistinct(cs[1..], plans, frame);
      KeptExactly(cs[1..], plans, frame);
      assert cs[0] !in Among(cs[1..]);
      var k := Kept(cs[1..], plans, frame);
      assert forall i :: 0 <= i < |k| ==> k[i] in Among(k);
    }
  }

  lemma AllDistinct(peers: seq<Conn>, arrivals: seq<Conn>)
    requires Distinct(peers) && Distinct(arrivals) && Among(peers) !! Among(arrivals)
    ensures Distinct(peers + arrivals) && Among(peers + arrivals) == Among(peers) + Among(arrivals)
  {
    var all := peers + arrivals;
    forall i, j | 0 <= i < j < |all| ensures all[i] != all[j] {
      if i < |peers| <= j {
        assert peers[i] in Among(peers) && arrivals[j - |peers|] in Among(arrivals);
      }
    }
  }

  lemma StreamExtends(wire: seq<byte>, log: seq<seq<byte>>, j: int, data: seq<byte>, out: nat)
    requires StreamIs(wire, log, j, None) && out <= |Frame(data)|
    ensures StreamIs(wire + Frame(data)[..out], log + [data], j, if out == |Frame(data)| then None else Some(|log|))
  {
    assert (log + [data])[j..] == log[j..] + [data];
    assert (log + [data])[j..|log|] == log[j..];
    FrameAllAppends(log[j..], data);
  }

  lemma StreamStays(wire: seq<byte>, log: seq<seq<byte>>, j: int, d: int, data: seq<byte>)
    requires StreamIs(wire, log, j, Some(d))
    ensures StreamIs(wire, log + [data], j, Some(d))
  {
    assert (log + [data])[j..d] == log[j..d];
  }

  lemma StreamBegins(log: seq<seq<byte>>)
    ensures StreamIs([], log, |log|, None)
  {
    assert log[|log|..] == [];
  }

  lemma SentPartition(h: Hub, arrivals: seq<Conn>, data: seq<byte>, frame: seq<byte>, plans: Plans)
    requires Partition(h) && Fresh(h, arrivals)
    ensures Partition(Sent(h, arrivals, data, frame, plans))
  {
    AllDistinct(h.peers, arrivals);
    KeptDistinct(h.peers + arrivals, plans, frame);
    KeptExactly(h.peers + arrivals, plans, frame);
    var all := Among(h.peers) + Among(arrivals);
    SameKeys(h, Among(arrivals), all, plans, frame);
    StillPartitioned(Among(h.peers), Among(arrivals), h.dropped.Keys, Failing(all, plans, frame));
  }

  lemma SameKeys(h: Hub, arrivals: set<Conn>, all: set<Conn>, plans: Plans, frame: seq<byte>)
    ensures Written(Accepted(h.wires, arrivals), all, plans, frame).Keys == h.wires.Keys + arrivals
    ensures Marked(h.joined, arrivals, |h.log|).Keys == h.joined.Keys + arrivals
    ensures Marked(h.dropped, Failing(all, plans, frame), |h.log|).Keys == h.dropped.Keys + Failing(all, plans, frame)
  {
  }

  lemma StillPartitioned(peers: set<Conn>, arrivals: set<Conn>, dropped: set<Conn>, failing: set<Conn>)
    requires peers !! dropped && arrivals !! peers + dropped && failing <= peers + arrivals
    ensures var kept := peers + arrivals - failing;
            kept !! dropped + failing && kept + (dropped + failing) == peers + dropped + arrivals
  {
  }

  lemma SentKeepsStreams(h: Hub, arrivals: seq<Conn>, data: seq<byte>, frame: seq<byte>, plans: Plans)
    requires Streams(h) && Fresh(h, arrivals) && frame == Frame(data)
    ensures Streams(Sent(h, arrivals, data, frame, plans))
  {
    var h' := Sent(h, arrivals, data, frame, plans);
    SentPartition(h, arrivals, data, frame, plans);
    forall c | c in h'.wires ensures StreamOk(h', c) {
      SentKeepsStream(h, arrivals, data, frame, plans, c);
    }
  }

  lemma SentKeepsStream(h: Hub, arrivals: seq<Conn>, data: seq<byte>, frame: seq<byte>, plans: Plans, c: Conn)
    requires Streams(h) && Fresh(h, arrivals) && frame == Frame(data) && c in Accepted(h.wires, Among(arrivals))
    ensures StreamOk(Sent(h, arrivals, data, frame, plans), c)
  {
    StreamBegins(h.log);
    var wire := Accepted(h.wires, Among(arrivals))[c];
    var j := if c in Among(arrivals) then |h.log| else h.joined[c];
    if c in h.wires { assert StreamOk(h, c); }
    if c in h.dropped {
      StreamStays(wire, h.log, j, h.dropped[c], data);
    } else {
      StreamExtends(wire, h.log, j, data, Out(plans, frame, c));
    }
  }

  // ---------------------------------------------------------------------------- the object

  class RanOutbound {
    var shutdownRequested: bool
    var listening: bool
    var peers: seq<Conn>
    var wires: map<Conn, seq<byte>>
    ghost var log: seq<seq<byte>>
    ghost var joined: map<Conn, int>
    ghost var dropped: map<Conn, int>

    ghost function View(): Hub
      reads this
    {
      Hub(peers, wires, log, joined, dropped)
    }

    ghost predicate Valid()
      reads this
    {
      Streams(View())
    }

    constructor ()
      ensures Valid() && View() == NOBODY && !shutdownRequested && !listening
    {
      shutdownRequested, listening := false, false;
      peers, wires, log, joined, dropped := [], map[], [], map[], map[];
    }

    /** Accepts what is waiting, then offers the frame to every peer.  Peers that do not take all
        of it are dropped; the call fails only if that leaves nobody. */
    method Send(data: seq<byte>, arrivals: seq<Conn>, plans: Plans) returns (code: Code)
      requires Valid() && Fresh(View(), arrivals)
      modifies this`peers, this`wires, this`log, this`joined, this`dropped
      ensures Valid()
      ensures code == Code.Cancelled <==> shutdownRequested
      ensures code == Code.NotConnected <==> !shutdownRequested && !listening
      ensures code == Code.Cancelled || code == Code.NotConnected ==> View() == old(View())
      ensures code == Code.Success || code == Code.TransportError ==>
                View() == Sent(old(View()), arrivals, data, Frame(data), plans)
      ensures code == Code.TransportError <==>
                !shutdownRequested && listening && peers == [] && old(peers) + arrivals != []
    {
      if shutdownRequested {
        return Code.Cancelled;
      }
      if !listening {
        return Code.NotConnected;
      }
      ghost var h := View();
      ghost var frame := Frame(data);
      SentKeepsStreams(h, arrivals, data, frame, plans);
      AllDistinct(peers, arrivals);
      wires := Accepted(wires, Among(arrivals));
      peers := peers + arrivals;
      var failed := Offer(data, plans);
      log := log + [data];
      joined := Marked(joined, Among(arrivals), |h.log|);
      dropped := Marked(dropped, Failing(Among(h.peers) + Among(arrivals), plans, frame), |h.log|);
      assert View() == Sent(h, arrivals, data, frame, plans);
      code := if failed && peers == [] then Code.TransportError else Code.Success;
    }

    /** The loop over the peer list, erasing in place. */
    method Offer(data: seq<byte>, plans: Plans) returns (failed: bool)
      requires Distinct(peers) && Among(peers) <= wires.Keys
      modifies this`peers, this`wires
      ensures peers == Kept(old(peers), plans, Frame(data))
      ensures wires == Written(old(wires), Among(old(peers)), plans, Frame(data))
      ensures failed <==> |peers| < |old(peers)|
    {
      ghost var frame := Frame(data);
      ghost var kept, rest := [], peers;
      failed := false;
      var i := 0;
      while i < |peers|
        invariant peers == kept + rest && i == |kept|
        invariant Distinct(rest) && Among(rest) <= old(wires).Keys == wires.Keys
        invariant kept + Kept(rest, plans, frame) == Kept(old(peers), plans, frame)
        invariant Written(wires, Among(rest), plans, frame) == Written(old(wires), Among(old(peers)), plans, frame)
        invariant failed <==> |peers| < |old(peers)|
        invariant |peers| <= |old(peers)|
        decreases |rest|
      {
        ghost var c := peers[i];
        OfferStep(wires, rest, plans, frame);
        KeptStep(kept, rest, plans, frame);
        EraseAt(kept, c, rest[1..]);
        var dead := OfferOne(i, data, plans);
        if dead {
          failed := true;
        } else {
          i := i + 1;
          kept := kept + [c];
        }
        rest := rest[1..];
      }
    }

    /** One peer: erased from the list if it does not take the whole frame. */
    method OfferOne(i: nat, data: seq<byte>, plans: Plans) returns (dead: bool)
      requires i < |peers| && peers[i] in wires
      modifies this`peers, this`wires
      ensures var c := old(peers[i]);
              && dead == Fails(plans, Frame(data), c)
              && wires == old(wires)[c := old(wires)[c] + Frame(data)[..Out(plans, Frame(data), c)]]
              && peers == if dead then old(peers)[..i] + old(peers)[i + 1..] else old(peers)
    {
      var c := peers[i];
      var wire, rc := SendInChunks(wires[c], data, plans(c));
      wires := wires[c := wire];
      dead := rc < 0;
      if dead {
        peers := peers[..i] + peers[i + 1..];
      }
    }
  }

  lemma EraseAt(before: seq<Conn>, c: Conn, after: seq<Conn>)
    ensures var all := before + ([c] + after);
            && all[|before|] == c
            && all[..|before|] + all[|before| + 1..] == before + after
            && all == before + [c] + after
  {
  }

  lemma KeptStep(kept: seq<Conn>, rest: seq<Conn>, plans: Plans, frame: seq<byte>)
    requires rest != []
    ensures kept + Kept(rest, plans, frame) ==
            (if Fails(plans, frame, rest[0]) then kept else kept + [rest[0]]) + Kept(rest[1..], plans, frame)
  {
    var k := Kept(rest[1..], plans, frame);
    assert kept + ([rest[0]] + k) == kept + [rest[0]] + k && [] + k == k;
  }

  /** What offering the frame to the first of the remaining peers leaves to do. */
  lemma OfferStep(wires: map<Conn, seq<byte>>, rest: seq<Conn>, plans: Plans, frame: seq<byte>)
    requires Distinct(rest) && Among(rest) <= wires.Keys && rest != []
    ensures var c := rest[0];
            && rest == [c] + rest[1..] && Distinct(rest[1..]) && Among(rest[1..]) <= wires.Keys && c in wires
            && wires[c := wires[c] + frame[..Out(plans, frame, c)]].Keys == wires.Keys
            && Written(wires[c := wires[c] + frame[..Out(plans, frame, c)]], Among(rest[1..]), plans, frame)
               == Written(wires, Among(rest), plans, frame)
  {
    assert Among(rest) == Among(rest[1..]) + {rest[0]} && rest[0] !in Among(rest[1..]);
  }

  // ------------------------------------------------------------------------------ runs

  datatype Call = Call(data: seq<byte>, arrivals: seq<Conn>, plans: Plans)

  ghost predicate IsRun(hubs: seq<Hub>, calls: seq<Call>) {
    && |hubs| == |calls| + 1 && hubs[0] == NOBODY
    && forall i :: 0 <= i < |calls| ==>
         && Fresh(hubs[i], calls[i].arrivals)
         && hubs[i + 1] == Sent(hubs[i], calls[i].arrivals, calls[i].data, Frame(calls[i].data), calls[i].plans)
  }

  lemma {:induction false} RunStreams(hubs: seq<Hub>, calls: seq<Call>, i: nat)
    requires IsRun(hubs, calls) && i < |hubs|
    ensures Streams(hubs[i])
    decreases i
  {
    if i > 0 {
      RunStreams(hubs, calls, i - 1);
      SentKeepsStreams(hubs[i - 1], calls[i - 1].arrivals, calls[i - 1].data, Frame(calls[i - 1].data), calls[i - 1].plans);
    }
  }

  /** End to end, over any run of broadcasts of receivable messages with any short writes and
      failures: a dApp still attached has received exactly the messages broadcast since it was
      accepted; one that was dropped exactly those up to the drop, and then an error. */
  lemma EveryDappReceivesItsMessages(hubs: seq<Hub>, calls: seq<Call>, i: nat, c: Conn)
    requires IsRun(hubs, calls) && i < |hubs| && Sendable(hubs[i].log) && c in hubs[i].wires
    ensures var h := hubs[i];
            && c in h.joined && 0 <= h.joined[c] <= |h.log|
            && if c !in h.dropped then ReceiveAll(h.wires[c]) == Session(h.log[h.joined[c]..], Received.NotConnected)
               else
                 && c !in h.peers && h.joined[c] <= h.dropped[c] < |h.log|
                 && ReceiveAll(h.wires[c]).messages == h.log[h.joined[c]..h.dropped[c]]
                 && !ReceiveAll(h.wires[c]).last.Message?
  {
    var h := hubs[i];
    RunStreams(hubs, calls, i);
    assert StreamOk(h, c);
    if c in h.dropped {
      assert c in h.peers ==> c in Among(h.peers);
      CutReceives(h.log[h.joined[c]..h.dropped[c]], h.log[h.dropped[c]], h.wires[c]);
    } else {
      StreamRoundTrip(h.log[h.joined[c]..]);
    }
  }

  lemma CutReceives(ms: seq<seq<byte>>, m: seq<byte>, wire: seq<byte>)
    requires Sendable(ms) && 1 <= |m| <= MAX_PAYLOAD && FrameAll(ms) <= wire < FrameAll(ms) + Frame(m)
    ensures ReceiveAll(wire).messages == ms && !ReceiveAll(wire).last.Message?
  {
    FrameAllAppends(ms, m);
    assert wire == FrameAll(ms + [m])[..|wire|];
    CutStreams(ms + [m], |wire|);
    CompleteWithin(ms, m, |wire|);
  }

  lemma {:induction false} CompleteWithin(ms: seq<seq<byte>>, m: seq<byte>, k: nat)
    requires |FrameAll(ms)| <= k < |FrameAll(ms)| + |Frame(m)|
    ensures Complete(ms + [m], k) == |ms| && (ms + [m])[..|ms|] == ms
  {
    if ms != [] {
      assert (ms + [m])[1..] == ms[1..] + [m];
      CompleteWithin(ms[1..], m, k - |Frame(ms[0])|);
    }
  }
}
