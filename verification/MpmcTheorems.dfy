/** What the ring promises, over every schedule of every number of threads. */
module MpmcTheorems {
  import opened Bits
  import opened Options
  import opened MpmcRing
  import opened MpmcInvariant

  /** The states of a ring of some capacity after some schedule. */
  ghost predicate Reachable<T(!new)>(s: State<T>) {
    exists capacity: nat, schedule: seq<Action<T>> :: capacity >= 2 && s == Run(Init<T>(capacity), schedule)
  }

  lemma ReachableInv<T(!new)>(s: State<T>)
    requires Reachable(s)
    ensures Inv(s)
  {
    var capacity: nat, schedule: seq<Action<T>> :| capacity >= 2 && s == Run(Init<T>(capacity), schedule);
    RunInv(capacity, schedule);
  }

  ghost predicate NothingInFlight<T>(s: State<T>) {
    forall t: Tid :: PcOf(s, t).Ready? || PcOf(s, t).Returned?
  }

  /** The item under ticket `p` was put in its slot and made visible to consumers. */
  ghost predicate Published<T>(s: State<T>, p: nat)
    requires |s.pushed| == s.head
  {
    p < s.head && !Filling(s, s.pushed[p].owner, p)
  }

  /** The slot that ticket `p` used has been handed back to the producers. */
  ghost predicate HandedBack<T>(s: State<T>, p: nat) {
    p in s.popped
  }

  // ------------------------------------------------------------- first in, first out

  /** The pop with ticket p returns exactly what the push with ticket p put in, and the
      consumer that claimed the ticket is the one that returns it. */
  lemma PopsMatchPushes<T(!new)>(s: State<T>, t: Tid, p: nat, item: Option<T>)
    requires Reachable(s)
    ensures |s.pushed| == s.head && |s.poppers| == s.tail && s.tail <= s.head
    ensures p in s.popped ==> p < s.tail && s.popped[p] == Some(s.pushed[p].item)
    ensures PcOf(s, t) == Returned(PopOk(p, item)) ==>
              p < s.tail && s.poppers[p] == t && item == Some(s.pushed[p].item) && p in s.popped
    ensures PcOf(s, t) == Returned(PushOk(p)) ==> p < s.head && s.pushed[p].owner == t
  {
    ReachableInv(s);
    assert ThreadOk(s, t);
  }

  /** Once no operation is half-way, the returned items in ticket order are a prefix of the
      pushed items, and the rest of the pushed items are all in their slots. */
  lemma NothingIsLost<T(!new)>(s: State<T>, p: nat)
    requires Reachable(s) && NothingInFlight(s)
    ensures s.tail <= s.head == |s.pushed|
    ensures p < s.tail <==> p in s.popped
    ensures p < s.tail ==> s.popped[p] == Some(s.pushed[p].item)
    ensures s.tail <= p < s.head ==> SeqAt(s, p) == p + 1 && DataAt(s, p) == Some(s.pushed[p].item)
  {
    ReachableInv(s);
    assert s.tail <= p < s.head ==> Occupied(s, p);
  }

  /** A ticket's result is recorded once: by the step with which its consumer returns. */
  lemma EachTicketReturnsOnce<T(!new)>(s: State<T>, a: Action<T>)
    requires Reachable(s) && Next(s, a).popped != s.popped
    ensures a.Move? && PcOf(s, a.t).PopRecycle?
    ensures var p := PcOf(s, a.t).pos;
            && p !in s.popped && p < |s.poppers| && p < |s.pushed| && s.poppers[p] == a.t
            && Next(s, a).popped == s.popped[p := Some(s.pushed[p].item)]
            && PcOf(Next(s, a), a.t) == Returned(PopOk(p, Some(s.pushed[p].item)))
  {
    ReachableInv(s);
    assert ThreadOk(s, a.t);
  }

  /** The queue the ring stands for: the items pushed and not yet claimed by a pop. */
  function Queue<T>(s: State<T>): seq<Claim<T>>
    requires s.tail <= s.head == |s.pushed|
  {
    s.pushed[s.tail..]
  }

  /** A step that moves the head appends the mover's item to a queue that had room. */
  lemma HeadStepAppends<T(!new)>(s: State<T>, a: Action<T>)
    requires Inv(s) && Next(s, a).head != s.head
    ensures a.Move? && PcOf(s, a.t).PushDecide? && s.head - s.tail < s.capacity
    ensures Next(s, a).tail == s.tail && Next(s, a).pushed == s.pushed + [Claim(a.t, PcOf(s, a.t).item)]
  {
    assert ThreadOk(s, a.t);
    PushClaimSound(s);
  }

  /** A step that moves the tail claims the oldest item. */
  lemma TailStepRemoves<T(!new)>(s: State<T>, a: Action<T>)
    requires Inv(s) && Next(s, a).tail != s.tail
    ensures a.Move? && s.tail < s.head && PcOf(Next(s, a), a.t) == PopRead(s.tail)
    ensures Next(s, a).tail == s.tail + 1 && Next(s, a).pushed == s.pushed
  {
    assert ThreadOk(s, a.t);
    PopClaimSound(s);
  }

  lemma QueueInBounds<T>(s: State<T>, a: Action<T>)
    requires Inv(s)
    ensures Counters(s) && Counters(Next(s, a))
  {
    assert Counters(Next(s, a)) by { NextKeepsInv(s, a); }
  }

  /** A step that moves neither counter pushes nothing. */
  lemma NothingPushed<T>(s: State<T>, a: Action<T>)
    requires Wf(s) && Next(s, a).head == s.head
    ensures Next(s, a).pushed == s.pushed
  {
  }

  /** What a step can do to a bounded first-in first-out queue. */
  ghost predicate FifoStep<T>(s: State<T>, a: Action<T>, s': State<T>)
    requires s.tail <= s.head == |s.pushed| && s'.tail <= s'.head == |s'.pushed|
  {
    || Queue(s') == Queue(s)
    || (|Queue(s)| < s.capacity && PcOf(s, a.t).PushDecide? && Queue(s') == Queue(s) + [Claim(a.t, PcOf(s, a.t).item)])
    || (Queue(s) != [] && Queue(s') == Queue(s)[1..] && PcOf(s', a.t) == PopRead(s.tail))
  }

  lemma HeadStepIsFifo<T(!new)>(s: State<T>, a: Action<T>)
    requires Inv(s) && Next(s, a).head != s.head && Counters(Next(s, a))
    ensures FifoStep(s, a, Next(s, a))
  {
    HeadStepAppends(s, a);
    var s' := Next(s, a);
    assert s'.pushed[s'.tail..] == s.pushed[s.tail..] + [Claim(a.t, PcOf(s, a.t).item)];
  }

  lemma TailStepIsFifo<T(!new)>(s: State<T>, a: Action<T>)
    requires Inv(s) && Next(s, a).tail != s.tail && Counters(Next(s, a))
    ensures FifoStep(s, a, Next(s, a))
  {
    TailStepRemoves(s, a);
    assert s.pushed[s.tail + 1..] == s.pushed[s.tail..][1..];
  }

  /** Every step leaves the bounded first-in first-out queue alone, appends one item when
      there was room, or removes the oldest item. */
  lemma StepRefinesBoundedFifo<T(!new)>(s: State<T>, a: Action<T>)
    requires Reachable(s)
    ensures s.tail <= s.head == |s.pushed| && |Queue(s)| <= s.capacity
    ensures Wf(s) && var s' := Next(s, a); s'.tail <= s'.head == |s'.pushed| && FifoStep(s, a, s')
  {
    ReachableInv(s);
    QueueInBounds(s, a);
    if Next(s, a).head != s.head {
      HeadStepIsFifo(s, a);
    } else if Next(s, a).tail != s.tail {
      TailStepIsFifo(s, a);
    } else {
      NothingPushed(s, a);
    }
  }

  // ------------------------------------------------------------------- exclusion

  /** The sequence of a slot tells which ticket is at work on it, and whose that is. */
  lemma BusyTicket<T>(s: State<T>, t: Tid, p: nat)
    requires Inv(s)
    ensures Filling(s, t, p) ==> p < |s.pushed| && s.pushed[p].owner == t && SeqAt(s, p) == p
    ensures Emptying(s, t, p) ==> p < |s.poppers| && s.poppers[p] == t && SeqAt(s, p) == p + 1
  {
    assert ThreadOk(s, t);
  }

  /** At most one thread is between claiming and publishing (or recycling) any slot. */
  lemma SlotsAreExclusive<T(!new)>(s: State<T>, t: Tid, p: nat, u: Tid, q: nat)
    requires Reachable(s)
    requires Filling(s, t, p) || Emptying(s, t, p)
    requires Filling(s, u, q) || Emptying(s, u, q)
    requires Wf(s) && SlotOf(p, s.capacity) == SlotOf(q, s.capacity)
    ensures t == u && p == q
  {
    assert Inv(s) by { ReachableInv(s); }
    BusyTicket(s, t, p);
    BusyTicket(s, u, q);
    if p == q + 1 {
      SlotsDistinct(q, p, s.capacity);
    } else if q == p + 1 {
      SlotsDistinct(p, q, s.capacity);
    }
  }

  /** Slot sequences only grow, and so do the two counters. */
  lemma SequencesNeverDecrease<T(!new)>(s: State<T>, a: Action<T>, i: nat)
    requires Reachable(s) && i < |s.slots|
    ensures s.head <= Next(s, a).head && s.tail <= Next(s, a).tail
    ensures s.slots[i].sequence <= Next(s, a).slots[i].sequence
  {
    ReachableInv(s);
    assert ThreadOk(s, a.t);
  }

  /** The counters stay within one lap, so a size computed from a head loaded before the tail
      lies between zero and the capacity however stale it is. */
  lemma SizeIsInRange<T(!new)>(s: State<T>, t: Tid)
    requires Reachable(s)
    ensures s.tail <= s.head <= s.tail + s.capacity
    ensures PcOf(s, t).Returned? && PcOf(s, t).answer.Size? ==> PcOf(s, t).answer.n <= s.capacity
  {
    ReachableInv(s);
    assert ThreadOk(s, t);
  }

  lemma SizeLoads<T>(s: State<T>, t: Tid, spurious: bool)
    requires Wf(s)
    ensures PcOf(s, t).SizeLoadHead? ==> Next(s, Move(t, spurious)) == At(s, t, SizeLoadTail(s.head))
    ensures PcOf(s, t).SizeLoadTail? ==>
              PcOf(Next(s, Move(t, spurious)), t) ==
                Returned(Size(if PcOf(s, t).head >= s.tail then PcOf(s, t).head - s.tail else 0))
  {
  }

  /** Taken in one go, the two loads of the size answer exactly how many items there are. */
  lemma SizeIsExact<T(!new)>(s: State<T>, t: Tid, spurious: bool)
    requires Reachable(s) && Wf(s) && PcOf(s, t).SizeLoadHead?
    ensures s.tail <= s.head == |s.pushed|
    ensures PcOf(TwoSteps(s, t, spurious), t) == Returned(Size(|Queue(s)|))
  {
    ReachableInv(s);
    SizeLoads(s, t, spurious);
    SizeLoads(Next(s, Move(t, spurious)), t, spurious);
  }

  lemma CountersStep<T>(s: State<T>, a: Action<T>)
    requires Wf(s)
    ensures s.head <= Next(s, a).head && s.tail <= Next(s, a).tail
  {
  }

  lemma StepStaysReachable<T(!new)>(s: State<T>, a: Action<T>)
    requires Reachable(s) && Wf(s)
    ensures Reachable(Next(s, a))
  {
    var capacity: nat, before: seq<Action<T>> :| capacity >= 2 && s == Run(Init<T>(capacity), before);
    var longer := before + [a];
    assert longer[..|longer| - 1] == before;
    assert Next(s, a) == Run(Init<T>(capacity), longer);
  }

  lemma {:induction false} ReachableOn<T(!new)>(s: State<T>, schedule: seq<Action<T>>)
    requires Reachable(s) && Wf(s)
    ensures Reachable(Run(s, schedule)) && s.head <= Run(s, schedule).head && s.tail <= Run(s, schedule).tail
  {
    if schedule != [] {
      var n := |schedule| - 1;
      ReachableOn(s, schedule[..n]);
      var before := Run(s, schedule[..n]);
      CountersStep(before, schedule[n]);
      StepStaysReachable(before, schedule[n]);
    }
  }

  /** With anything going on between the two loads, the size is never more than what the queue held
      at the first, and short of what it holds at the second by no more than was pushed meanwhile. */
  lemma SizeIsBracketed<T(!new)>(s: State<T>, t: Tid, schedule: seq<Action<T>>, spurious: bool)
    requires Reachable(s) && Wf(s) && PcOf(s, t).SizeLoadHead?
    requires PcOf(Run(Next(s, Move(t, spurious)), schedule), t) == SizeLoadTail(s.head)
    ensures var s' := Run(Next(s, Move(t, spurious)), schedule);
            && s.tail <= s.head == |s.pushed| && s'.tail <= s'.head == |s'.pushed| && s.head <= s'.head
            && var pc := PcOf(Next(s', Move(t, spurious)), t);
               && pc.Returned? && pc.answer.Size?
               && |Queue(s')| - (s'.head - s.head) <= pc.answer.n <= |Queue(s)|
  {
    ReachableInv(s);
    SizeLoads(s, t, spurious);
    var loaded := Next(s, Move(t, spurious));
    var s' := Run(loaded, schedule);
    StepStaysReachable(s, Move(t, spurious));
    ReachableOn(loaded, schedule);
    ReachableInv(s');
    SizeLoads(s', t, spurious);
  }

  // ------------------------------------------------- when "full" and "empty" are answered

  lemma HeadSlotBusy<T(!new)>(s: State<T>)
    requires Inv(s)
    ensures SeqAt(s, s.head) < s.head <==> s.head >= s.capacity && !HandedBack(s, s.head - s.capacity)
  {
    if s.head < s.tail + s.capacity {
      assert Vacant(s, s.head);
      if s.head >= s.capacity && s.head - s.capacity !in s.popped {
        var p := s.head - s.capacity;
        assert Emptying(s, s.poppers[p], p) && ThreadOk(s, s.poppers[p]);
        WrapSlot(s, p);
      }
    } else {
      WrapSlot(s, s.tail);
      assert Occupied(s, s.tail);
    }
  }

  lemma TailSlotBusy<T(!new)>(s: State<T>)
    requires Inv(s)
    ensures SeqAt(s, s.tail) < s.tail + 1 <==> !Published(s, s.tail)
  {
    if s.head == s.tail {
      assert Vacant(s, s.tail);
    } else {
      assert Occupied(s, s.tail);
      assert ThreadOk(s, s.pushed[s.tail].owner);
    }
  }

  /** The two private steps after reading a position: load the slot's sequence, then branch. */
  function TwoSteps<T>(s: State<T>, t: Tid, spurious: bool): State<T>
    requires Wf(s)
  {
    Next(Next(s, Move(t, spurious)), Move(t, spurious))
  }

  /** A push is on its way to answering "full" exactly when the position it read is still the
      head and the slot's previous ticket, one lap back, has not been handed back yet. */
  lemma FullExactly<T(!new)>(s: State<T>, t: Tid, spurious: bool)
    requires Reachable(s) && Wf(s) && PcOf(s, t).PushLoadSeq?
    ensures PcOf(TwoSteps(s, t, spurious), t) == Returned(PushFull) <==>
              PcOf(s, t).pos == s.head && s.head >= s.capacity && !HandedBack(s, s.head - s.capacity)
  {
    ReachableInv(s);
    assert ThreadOk(s, t);
    HeadSlotBusy(s);
    var pos := PcOf(s, t).pos;
    assert pos < s.head ==> SeqAt(s, pos) >= pos;
    assert PcOf(TwoSteps(s, t, spurious), t) == Returned(PushFull) <==> SeqAt(s, pos) < pos;
  }

  /** A pop is on its way to answering "empty" exactly when the position it read is still the
      tail and the item under that ticket has not been published. */
  lemma EmptyExactly<T(!new)>(s: State<T>, t: Tid, spurious: bool)
    requires Reachable(s) && Wf(s) && PcOf(s, t).PopLoadSeq?
    ensures |s.pushed| == s.head
    ensures PcOf(TwoSteps(s, t, spurious), t) == Returned(PopEmpty) <==>
              PcOf(s, t).pos == s.tail && !Published(s, s.tail)
  {
    ReachableInv(s);
    assert ThreadOk(s, t);
    TailSlotBusy(s);
    var pos := PcOf(s, t).pos;
    assert pos < s.tail ==> SeqAt(s, pos) >= pos + 1;
    assert PcOf(TwoSteps(s, t, spurious), t) == Returned(PopEmpty) <==> SeqAt(s, pos) < pos + 1;
  }

  /** With no operation in flight the two conditions mean exactly `capacity` items and exactly
      zero items. */
  lemma QuiescentFullAndEmpty<T(!new)>(s: State<T>)
    requires Reachable(s) && NothingInFlight(s)
    ensures |s.pushed| == s.head
    ensures s.head >= s.capacity && !HandedBack(s, s.head - s.capacity) <==> s.head - s.tail == s.capacity
    ensures !Published(s, s.tail) <==> s.head - s.tail == 0
  {
    ReachableInv(s);
    var p := s.head - s.capacity;
    assert 0 <= p < s.tail && p !in s.popped ==> Emptying(s, s.poppers[p], p);
  }
}
