/** The RAN's inbound side: one call of `receive` polls every attached dApp and reads from the
    next one, in rotation, that has data. */
module PeerScan {
  import opened Options
  import opened Bits
  import opened Framing

  datatype Fd = Fd(number: int)

  /** What one read from a polled peer yields. */
  datatype Recv = Bytes(data: seq<byte>) | Eof | NotNow | Broken

  /** One peer's poll events, and what reading from it would yield. */
  datatype Poll = Poll(readable: bool, hangup: bool, recv: Recv)

  /** What the poll call itself yields. */
  datatype Polled = Timeout | Interrupted | PollError | Events(arrivals: seq<Fd>, polls: seq<Poll>)

  datatype Result = Data(bytes: seq<byte>) | Nothing | NoListener | PollFailed

  predicate HasData(p: Poll) {
    p.readable && p.recv.Bytes? && p.recv.data != []
  }

  /** Closed or failed, with nothing left to deliver. */
  predicate Drops(p: Poll) {
    !HasData(p) && (p.hangup || (p.readable && (p.recv.Eof? || p.recv.Broken? || p.recv == Bytes([]))))
  }

  // --------------------------------------------------------------------- the scan, as values

  /** The k-th peer looked at. */
  function At(cursor: nat, k: nat, n: nat): (i: nat)
    requires n > 0
    ensures i < n
  {
    SlotOf(cursor + k, n)
  }

  /** How many peers, from the k-th on, are looked at before one with data; all of them if none
      has any. */
  function Steps(polls: seq<Poll>, cursor: nat, k: nat): (s: nat)
    requires k <= |polls|
    ensures k <= s <= |polls|
    ensures s < |polls| ==> HasData(polls[At(cursor, s, |polls|)])
    decreases |polls| - k
  {
    if k == |polls| || HasData(polls[At(cursor, k, |polls|)]) then k else Steps(polls, cursor, k + 1)
  }

  function Served(polls: seq<Poll>, cursor: nat): (i: Option<nat>)
    ensures i.Some? ==> i.value < |polls| && HasData(polls[i.value])
  {
    var s := Steps(polls, cursor, 0);
    if s < |polls| then Some(At(cursor, s, |polls|)) else None
  }

  function Advanced(cursor: nat, n: nat): nat {
    if n > 0 then (cursor + 1) % n else cursor
  }

  function NextCursor(polls: seq<Poll>, cursor: nat): nat {
    match Served(polls, cursor)
    case Some(i) => i + 1
    case None => Advanced(cursor, |polls|)
  }

  /** The peers found broken among the first k looked at. */
  function Gone(fds: seq<Fd>, polls: seq<Poll>, cursor: nat, k: nat): set<Fd>
    requires |fds| == |polls| && k <= |polls|
  {
    if k == 0 then {}
    else
      var before, i := Gone(fds, polls, cursor, k - 1), At(cursor, k - 1, |polls|);
      if Drops(polls[i]) then before + {fds[i]} else before
  }

  function Without(fds: seq<Fd>, gone: set<Fd>): seq<Fd> {
    if fds == [] then []
    else (if fds[0] in gone then [] else [fds[0]]) + Without(fds[1..], gone)
  }

  lemma {:induction false} WithoutTwice(fds: seq<Fd>, gone: set<Fd>, more: set<Fd>)
    ensures Without(Without(fds, gone), more) == Without(fds, gone + more)
  {
    if fds != [] {
      WithoutTwice(fds[1..], gone, more);
      var rest := Without(fds[1..], gone);
      assert ([fds[0]] + rest)[1..] == rest && [] + rest == rest;
    }
  }

  lemma {:induction false} WithoutNone(fds: seq<Fd>)
    ensures Without(fds, {}) == fds
  {
    if fds != [] {
      WithoutNone(fds[1..]);
    }
  }

  // --------------------------------------------------------------------- rotation distance

  /** How many peers are looked at before peer `i`. */
  function Distance(cursor: nat, i: nat, n: nat): (d: nat)
    requires i < n
    ensures d < n
  {
    var c := SlotOf(cursor, n);
    if i >= c then i - c else i + n - c
  }

  lemma {:induction false} AroundOnce(cursor: nat, k: nat, n: nat)
    requires k < n
    ensures var c := SlotOf(cursor, n); At(cursor, k, n) == if c + k < n then c + k else c + k - n
    decreases cursor
  {
    if cursor >= n {
      AroundOnce(cursor - n, k, n);
    } else if cursor + k >= n {
      assert SlotOf(cursor + k - n, n) == cursor + k - n;
    }
  }

  /** The scan reaches peer i exactly at its distance. */
  lemma ReachedAtDistance(cursor: nat, i: nat, k: nat, n: nat)
    requires i < n && k < n
    ensures At(cursor, k, n) == i <==> k == Distance(cursor, i, n)
  {
    AroundOnce(cursor, k, n);
  }

  /** A scan stops at k if k is reached, has data, and nothing before it has. */
  lemma {:induction false} StepsSkip(polls: seq<Poll>, cursor: nat, k: nat, d: nat)
    requires k <= |polls| && k <= d < Steps(polls, cursor, k)
    ensures !HasData(polls[At(cursor, d, |polls|)])
    decreases d - k
  {
    if k < d {
      StepsSkip(polls, cursor, k + 1, d);
    }
  }

  /** The served peer is the nearest one with data; there is none exactly when nobody has. */
  lemma NearestIsServed(polls: seq<Poll>, cursor: nat, i: nat)
    requires i < |polls| && HasData(polls[i])
    ensures Served(polls, cursor).Some?
    ensures Distance(cursor, Served(polls, cursor).value, |polls|) <= Distance(cursor, i, |polls|)
    ensures Distance(cursor, Served(polls, cursor).value, |polls|) == Distance(cursor, i, |polls|) ==> Served(polls, cursor) == Some(i)
  {
    var n, d, s := |polls|, Distance(cursor, i, |polls|), Steps(polls, cursor, 0);
    ReachedAtDistance(cursor, i, d, n);
    if d < s {
      StepsSkip(polls, cursor, 0, d);
    }
    ReachedAtDistance(cursor, At(cursor, s, n), s, n);
  }

  /** Dropped are exactly the broken peers the scan passed before it found data. */
  lemma {:induction false} GoneExactly(fds: seq<Fd>, polls: seq<Poll>, cursor: nat, k: nat, fd: Fd)
    requires |fds| == |polls| && k <= |polls|
    ensures fd in Gone(fds, polls, cursor, k) <==>
              exists i :: 0 <= i < |fds| && fds[i] == fd && Drops(polls[i]) && Distance(cursor, i, |fds|) < k
    decreases k
  {
    if k > 0 {
      GoneExactly(fds, polls, cursor, k - 1, fd);
      var j := At(cursor, k - 1, |polls|);
      ReachedAtDistance(cursor, j, k - 1, |polls|);
      forall i | 0 <= i < |fds| ensures Distance(cursor, i, |fds|) == k - 1 <==> i == j {
        ReachedAtDistance(cursor, i, k - 1, |polls|);
      }
    }
  }

  lemma {:induction false} WithoutExactly(fds: seq<Fd>, gone: set<Fd>, fd: Fd)
    ensures fd in Without(fds, gone) <==> fd in fds && fd !in gone
  {
    if fds != [] {
      WithoutExactly(fds[1..], gone, fd);
    }
  }

  /** Somebody is served exactly when a read of some readable peer yields bytes. */
  lemma ServedExactly(polls: seq<Poll>, cursor: nat)
    ensures Served(polls, cursor).Some? <==>
              exists i :: 0 <= i < |polls| && polls[i].readable && polls[i].recv.Bytes? && |polls[i].recv.data| > 0
  {
    if i :| 0 <= i < |polls| && polls[i].readable && polls[i].recv.Bytes? && |polls[i].recv.data| > 0 {
      NearestIsServed(polls, cursor, i);
    }
  }

  /** The served peer is no further from the cursor than peer i. */
  ghost predicate ServedBy(polls: seq<Poll>, cursor: nat, i: nat)
    requires i < |polls|
  {
    var s := Served(polls, cursor);
    s.Some? && Distance(cursor, s.value, |polls|) <= Distance(cursor, i, |polls|)
  }

  lemma ScannedUpToServed(polls: seq<Poll>, cursor: nat, i: nat)
    requires i < |polls|
    ensures ServedBy(polls, cursor, i) <==> Steps(polls, cursor, 0) <= Distance(cursor, i, |polls|)
  {
    var s := Steps(polls, cursor, 0);
    if s < |polls| {
      ReachedAtDistance(cursor, At(cursor, s, |polls|), s, |polls|);
    }
  }

  /** A polled peer stays attached exactly if the scan served somebody no further than it, or it
      has not hung up and is either silent or has nothing to read right now. */
  lemma StaysExactly(fds: seq<Fd>, arrivals: seq<Fd>, polls: seq<Poll>, cursor: nat, i: nat)
    requires |fds| == |polls| && i < |fds| && Distinct(fds)
    ensures fds[i] in Without(fds + arrivals, Gone(fds, polls, cursor, Steps(polls, cursor, 0))) <==>
              || ServedBy(polls, cursor, i)
              || (!polls[i].hangup && (!polls[i].readable || polls[i].recv.NotNow?))
  {
    var gone := Gone(fds, polls, cursor, Steps(polls, cursor, 0));
    WithoutExactly(fds + arrivals, gone, fds[i]);
    GoneExactly(fds, polls, cursor, Steps(polls, cursor, 0), fds[i]);
    ScannedUpToServed(polls, cursor, i);
    assert fds[i] in gone <==> Drops(polls[i]) && Distance(cursor, i, |fds|) < Steps(polls, cursor, 0);
    if HasData(polls[i]) {
      NearestIsServed(polls, cursor, i);
    }
  }

  /** Where the next scan starts: behind the peer served, or one further than this one. */
  lemma NextScanStarts(polls: seq<Poll>, cursor: nat)
    requires polls != []
    ensures var n, s := |polls|, Served(polls, cursor);
            At(NextCursor(polls, cursor), 0, n) == if s.Some? then (s.value + 1) % n else (cursor + 1) % n
  {
    SlotOfIsRemainder(NextCursor(polls, cursor), |polls|);
  }

  // ----------------------------------------------------------------------------- the object

  class RanInbound {
    var listening: bool
    var peers: seq<Fd>
    var cursor: nat

    constructor ()
      ensures !listening && peers == [] && cursor == 0
    {
      listening, peers, cursor := false, [], 0;
    }

    /** Takes in new peers, then reads from the nearest peer with data, dropping the broken ones
        it passes; the cursor moves behind the peer served. */
    method Receive(polled: Polled) returns (result: Result)
      requires polled.Events? ==> |polled.polls| == |peers|
      modifies this`peers, this`cursor
      ensures result == NoListener <==> !listening
      ensures result == PollFailed <==> listening && polled.PollError?
      ensures !listening || !polled.Events? ==> peers == old(peers) && cursor == old(cursor) && !result.Data?
      ensures listening && polled.Events? ==>
                var polls := polled.polls;
                && cursor == NextCursor(polls, old(cursor))
                && peers == Without(old(peers) + polled.arrivals, Gone(old(peers), polls, old(cursor), Steps(polls, old(cursor), 0)))
                && result == match Served(polls, old(cursor))
                             case Some(i) => Data(polls[i].recv.data)
                             case None => Nothing
    {
      if !listening {
        return NoListener;
      }
      match polled
      case Timeout => return Nothing;
      case Interrupted => return Nothing;
      case PollError => return PollFailed;
      case Events(arrivals, polls) =>
        result := Scan(arrivals, polls);
    }

    /** The rotating scan over the peers that were polled. */
    method Scan(arrivals: seq<Fd>, polls: seq<Poll>) returns (result: Result)
      requires |polls| == |peers|
      modifies this`peers, this`cursor
      ensures cursor == NextCursor(polls, old(cursor))
      ensures peers == Without(old(peers) + arrivals, Gone(old(peers), polls, old(cursor), Steps(polls, old(cursor), 0)))
      ensures result == match Served(polls, old(cursor))
                        case Some(i) => Data(polls[i].recv.data)
                        case None => Nothing
    {
      var fds, n := peers, |polls|;
      peers := peers + arrivals;
      ghost var all, gone := peers, {};
      WithoutNone(all);
      var k := 0;
      while k < n
        invariant k <= n == |fds| && cursor == old(cursor)
        invariant Steps(polls, cursor, 0) == Steps(polls, cursor, k)
        invariant gone == Gone(fds, polls, cursor, k) && peers == Without(all, gone)
      {
        var idx := Index(cursor, k, n);
        if polls[idx].readable || polls[idx].hangup {
          var broken, data := Look(polls[idx]);
          if data != [] {
            cursor := idx + 1;
            return Data(data);
          }
          if broken {
            WithoutTwice(all, gone, {fds[idx]});
            peers := Without(peers, {fds[idx]});
            gone := gone + {fds[idx]};
          }
        }
        k := k + 1;
      }
      cursor := Advanced(cursor, n);
      result := Nothing;
    }
  }

  method Index(cursor: nat, k: nat, n: nat) returns (idx: nat)
    requires n > 0
    ensures idx == At(cursor, k, n)
  {
    SlotOfIsRemainder(cursor + k, n);
    idx := (cursor + k) % n;
  }

  /** Reads from one peer that has an event: what it yields, and whether the peer is broken. */
  method Look(p: Poll) returns (broken: bool, data: seq<byte>)
    requires p.readable || p.hangup
    ensures data == if HasData(p) then p.recv.data else []
    ensures !HasData(p) ==> (broken <==> Drops(p))
    ensures data == if p.readable && p.recv.Bytes? then p.recv.data else []
    ensures data == [] ==> (broken <==> p.hangup || (p.readable && !p.recv.NotNow?))
  {
    broken, data := p.hangup, [];
    if p.readable {
      match p.recv
      case Bytes(bytes) =>
        data := bytes;
        broken := broken || bytes == [];
      case Eof => broken := true;
      case Broken => broken := true;
      case NotNow =>
    }
  }

  // ------------------------------------------------------------------------ bounded waiting

  /** Serving another peer brings the cursor closer to a waiting one. */
  lemma DistanceDrops(polls: seq<Poll>, cursor: nat, p: nat)
    requires p < |polls| && HasData(polls[p]) && Served(polls, cursor) != Some(p)
    ensures Distance(NextCursor(polls, cursor), p, |polls|) < Distance(cursor, p, |polls|)
  {
    var n := |polls|;
    NearestIsServed(polls, cursor, p);
    var i := Served(polls, cursor).value;
    assert SlotOf(i + 1, n) == if i + 1 < n then i + 1 else 0;
  }

  /** The calls of `receive` on an unchanged list of n peers. */
  ghost predicate Calls(rounds: seq<seq<Poll>>, cursors: seq<nat>, n: nat) {
    && |cursors| == |rounds| + 1
    && (forall j :: 0 <= j < |rounds| ==> |rounds[j]| == n)
    && (forall j :: 0 <= j < |rounds| ==> cursors[j + 1] == NextCursor(rounds[j], cursors[j]))
  }

  /** A peer that has data at every call is read within n calls, sooner the nearer it is to the
      cursor. */
  lemma {:induction false} BoundedWaiting(rounds: seq<seq<Poll>>, cursors: seq<nat>, n: nat, p: nat)
    requires Calls(rounds, cursors, n) && p < n
    requires |rounds| > Distance(cursors[0], p, n)
    requires forall j :: 0 <= j < |rounds| ==> HasData(rounds[j][p])
    ensures exists j :: 0 <= j <= Distance(cursors[0], p, n) < n && Served(rounds[j], cursors[j]) == Some(p)
    decreases |rounds|
  {
    if Served(rounds[0], cursors[0]) != Some(p) {
      DistanceDrops(rounds[0], cursors[0], p);
      assert cursors[1] == NextCursor(rounds[0], cursors[0]);
      BoundedWaiting(rounds[1..], cursors[1..], n, p);
      var j :| 0 <= j <= Distance(cursors[1..][0], p, n) && Served(rounds[1..][j], cursors[1..][j]) == Some(p);
      assert Served(rounds[j + 1], cursors[j + 1]) == Some(p);
    }
  }

  /** One call on the list as it is then. */
  datatype Round = Round(fds: seq<Fd>, polls: seq<Poll>, cursor: nat, arrivals: seq<Fd>)

  ghost predicate Distinct(fds: seq<Fd>) {
    forall i, j :: 0 <= i < j < |fds| ==> fds[i] != fds[j]
  }

  /** The list and the cursor the next call finds. */
  ghost predicate Follows(r: Round, r': Round)
    requires |r.fds| == |r.polls|
  {
    && r'.fds == Without(r.fds + r.arrivals, Gone(r.fds, r.polls, r.cursor, Steps(r.polls, r.cursor, 0)))
    && r'.cursor == NextCursor(r.polls, r.cursor)
  }

  /** At most `n` peers, among them `fd`, which has data. */
  ghost predicate Waits(r: Round, fd: Fd, n: nat) {
    && |r.fds| == |r.polls| <= n && Distinct(r.fds)
    && exists i :: 0 <= i < |r.fds| && r.fds[i] == fd && HasData(r.polls[i])
  }

  ghost predicate IsRead(r: Round, fd: Fd) {
    && |r.fds| == |r.polls|
    && var s := Served(r.polls, r.cursor); s.Some? && r.fds[s.value] == fd
  }

  ghost predicate Rounds(rounds: seq<Round>, fd: Fd, n: nat) {
    && (forall j :: 0 <= j < |rounds| ==> Waits(rounds[j], fd, n))
    && (forall j :: 0 <= j < |rounds| - 1 ==> FollowsAt(rounds, j))
  }

  ghost predicate FollowsAt(rounds: seq<Round>, j: nat)
    requires j + 1 < |rounds|
  {
    |rounds[j].fds| == |rounds[j].polls| && Follows(rounds[j], rounds[j + 1])
  }

  /** How often the list changes, by a drop or an arrival. */
  ghost function Changes(rounds: seq<Round>): nat {
    if |rounds| <= 1 then 0
    else (if rounds[0].fds != rounds[1].fds then 1 else 0) + Changes(rounds[1..])
  }

  /** d times n. */
  function Times(d: nat, n: nat): nat {
    if d == 0 then 0 else n + Times(d - 1, n)
  }

  ghost function Place(r: Round, fd: Fd, n: nat): (i: nat)
    requires Waits(r, fd, n)
    ensures i < |r.fds| && r.fds[i] == fd && HasData(r.polls[i])
  {
    var i :| 0 <= i < |r.fds| && r.fds[i] == fd && HasData(r.polls[i]);
    i
  }

  ghost function Wait(r: Round, fd: Fd, n: nat): (d: nat)
    requires Waits(r, fd, n)
    ensures d < n
  {
    Distance(r.cursor, Place(r, fd, n), |r.fds|)
  }

  /** A call that neither reads the peer nor changes the list brings the cursor closer. */
  lemma WaitDrops(r: Round, r': Round, fd: Fd, n: nat)
    requires Waits(r, fd, n) && Waits(r', fd, n) && Follows(r, r') && r'.fds == r.fds && !IsRead(r, fd)
    ensures Wait(r', fd, n) < Wait(r, fd, n)
  {
    var i := Place(r, fd, n);
    assert Place(r', fd, n) == i;
    DistanceDrops(r.polls, r.cursor, i);
  }

  /** A peer that has data at every call is read within n calls for each time the list has
      changed, and its distance more; n bounds the length of the list. */
  lemma {:induction false} WaitingWithChanges(rounds: seq<Round>, fd: Fd, n: nat)
    requires Rounds(rounds, fd, n) && rounds != []
    requires |rounds| > Wait(rounds[0], fd, n) + Times(Changes(rounds), n)
    ensures exists j :: 0 <= j <= Wait(rounds[0], fd, n) + Times(Changes(rounds), n) && IsRead(rounds[j], fd)
    decreases |rounds|
  {
    if IsRead(rounds[0], fd) {
    } else if |rounds| == 1 {
      NearestIsRead(rounds[0], fd, n);
    } else {
      var rest := rounds[1..];
      RoundsRest(rounds, fd, n);
      OneRoundLess(rounds, fd, n);
      WaitingWithChanges(rest, fd, n);
      var j :| 0 <= j <= Wait(rest[0], fd, n) + Times(Changes(rest), n) && IsRead(rest[j], fd);
      assert IsRead(rounds[j + 1], fd);
    }
  }

  lemma ChangeCosts(rounds: seq<Round>, n: nat)
    requires |rounds| > 1
    ensures Times(Changes(rounds), n) == (if rounds[0].fds == rounds[1].fds then 0 else n) + Times(Changes(rounds[1..]), n)
  {
  }

  /** Every call that does not read the peer leaves less to wait for. */
  lemma OneRoundLess(rounds: seq<Round>, fd: Fd, n: nat)
    requires Rounds(rounds, fd, n) && |rounds| > 1 && !IsRead(rounds[0], fd)
    requires Waits(rounds[0], fd, n) && Waits(rounds[1], fd, n)
    ensures Wait(rounds[1], fd, n) + Times(Changes(rounds[1..]), n) < Wait(rounds[0], fd, n) + Times(Changes(rounds), n)
  {
    assert FollowsAt(rounds, 0);
    ChangeCosts(rounds, n);
    if rounds[0].fds == rounds[1].fds {
      WaitDrops(rounds[0], rounds[1], fd, n);
    }
  }

  lemma RoundsRest(rounds: seq<Round>, fd: Fd, n: nat)
    requires Rounds(rounds, fd, n) && |rounds| > 1
    ensures Rounds(rounds[1..], fd, n)
  {
    var rest := rounds[1..];
    forall j: nat | j < |rest| - 1 ensures FollowsAt(rest, j) {
      assert FollowsAt(rounds, j + 1);
    }
  }

  lemma NearestIsRead(r: Round, fd: Fd, n: nat)
    requires Waits(r, fd, n) && Wait(r, fd, n) == 0
    ensures IsRead(r, fd)
  {
    NearestIsServed(r.polls, r.cursor, Place(r, fd, n));
  }

  /** Why changes count: the broken peer in front is dropped, the cursor is not adjusted, and the
      peer behind the one just read is passed over. */
  lemma DropPassesOver(a: Fd, b: Fd, c: Fd, d: Fd, data: seq<byte>)
    requires Distinct([a, b, c, d]) && data != []
    ensures var busy, broken := Poll(true, false, Bytes(data)), Poll(true, true, Eof);
            var first := Round([a, b, c, d], [broken, busy, busy, busy], 0, []);
            var second := Round([b, c, d], [busy, busy, busy], 2, []);
            IsRead(first, b) && Follows(first, second) && IsRead(second, d)
  {
    var busy, broken := Poll(true, false, Bytes(data)), Poll(true, true, Eof);
    var polls, fds := [broken, busy, busy, busy], [a, b, c, d];
    assert fds[0] != fds[1] && fds[0] != fds[2] && fds[0] != fds[3];
    assert At(0, 0, 4) == 0 && At(0, 1, 4) == 1 && At(2, 0, 3) == 2;
    assert Steps(polls, 0, 1) == 1 && Steps(polls, 0, 0) == 1;
    assert Gone([a, b, c, d], polls, 0, 0) == {} && Gone([a, b, c, d], polls, 0, 1) == {a};
    DropsFirst(a, [b, c, d]);
    assert [a] + [b, c, d] == [a, b, c, d] == [a, b, c, d] + [];
    assert Steps([busy, busy, busy], 2, 0) == 0;
  }

  lemma DropsFirst(a: Fd, fds: seq<Fd>)
    requires a !in fds
    ensures Without([a] + fds, {a}) == fds
  {
    KeepsOthers(fds, a);
    assert ([a] + fds)[1..] == fds;
  }

  lemma {:induction false} KeepsOthers(fds: seq<Fd>, a: Fd)
    requires a !in fds
    ensures Without(fds, {a}) == fds
  {
    if fds != [] {
      KeepsOthers(fds[1..], a);
    }
  }

  /** With everyone busy all the time the peers are read in strict rotation, so the bound of n
      calls is reached. */
  lemma {:induction false} StrictRotation(rounds: seq<seq<Poll>>, cursors: seq<nat>, n: nat, j: nat)
    requires Calls(rounds, cursors, n) && j < |rounds| && n > 0
    requires forall r, p :: 0 <= r < |rounds| && 0 <= p < n ==> HasData(rounds[r][p])
    ensures Served(rounds[j], cursors[j]) == Some(SlotOf(cursors[0] + j, n))
    ensures SlotOf(cursors[j], n) == SlotOf(cursors[0] + j, n)
  {
    if j > 0 {
      StrictRotation(rounds, cursors, n, j - 1);
      assert cursors[j] == NextCursor(rounds[j - 1], cursors[j - 1]);
      SlotAdvances(cursors[0] + j - 1, n);
      SlotAdvances(SlotOf(cursors[0] + j - 1, n), n);
    }
    assert Steps(rounds[j], cursors[j], 0) == 0;
  }
}
