/** Lock-freedom of the ring: a thread goes round its retry loop only if another thread has got
    ahead of it, or its compare-and-swap failed for no reason. */
module MpmcProgress {
  import opened Bits
  import opened Options
  import opened MpmcRing
  import opened MpmcInvariant
  import opened MpmcTheorems

  /** The tickets claimed since a thread read its position were claimed by others. */
  ghost predicate ByOthers<T>(s: State<T>, t: Tid) {
    var pc := PcOf(s, t);
    && (pc.PushLoadSeq? || pc.PushDecide? ==>
          forall p :: pc.pos <= p < |s.pushed| ==> s.pushed[p].owner != t)
    && (pc.PopLoadSeq? || pc.PopDecide? ==>
          forall p :: pc.pos <= p < |s.poppers| ==> s.poppers[p] != t)
  }

  /** What a step adds to the claims is the mover's. */
  lemma ClaimsAreTheMovers<T>(s: State<T>, t: Tid, spurious: bool)
    requires Wf(s)
    ensures var s' := Next(s, Move(t, spurious));
            && (s'.pushed == s.pushed || (|s'.pushed| == |s.pushed| + 1 && s.pushed <= s'.pushed && s'.pushed[|s.pushed|].owner == t))
            && (s'.poppers == s.poppers || s'.poppers == s.poppers + [t])
  {
  }

  lemma OtherStepKeepsByOthers<T>(s: State<T>, u: Tid, spurious: bool, t: Tid)
    requires Wf(s) && u != t && ByOthers(s, t)
    ensures ByOthers(Next(s, Move(u, spurious)), t)
  {
    assert PcOf(Next(s, Move(u, spurious)), t) == PcOf(s, t);
    ClaimsAreTheMovers(s, u, spurious);
  }

  /** A thread reads its position anew, or keeps it while it claims nothing. */
  lemma OwnStepKeepsByOthers<T>(s: State<T>, t: Tid, spurious: bool)
    requires Wf(s) && Counters(s) && ByOthers(s, t)
    ensures ByOthers(Next(s, Move(t, spurious)), t)
  {
    var pc' := PcOf(Next(s, Move(t, spurious)), t);
    assert pc'.PushLoadSeq? ==> pc'.pos == s.head;
    assert pc'.PopLoadSeq? ==> pc'.pos == s.tail;
  }

  lemma StepKeepsByOthers<T>(s: State<T>, a: Action<T>, t: Tid)
    requires Wf(s) && Counters(s) && ByOthers(s, t)
    ensures ByOthers(Next(s, a), t)
  {
    if a.Move? {
      if a.t == t { OwnStepKeepsByOthers(s, t, a.spurious); } else { OtherStepKeepsByOthers(s, a.t, a.spurious, t); }
    }
  }

  lemma {:induction false} RunKeepsByOthers<T>(capacity: nat, schedule: seq<Action<T>>, t: Tid)
    requires capacity >= 2
    ensures ByOthers(Run(Init<T>(capacity), schedule), t)
  {
    if schedule != [] {
      var n := |schedule| - 1;
      RunKeepsByOthers(capacity, schedule[..n], t);
      RunInv(capacity, schedule[..n]);
      StepKeepsByOthers(Run(Init<T>(capacity), schedule[..n]), schedule[n], t);
    }
  }

  lemma ReachableByOthers<T(!new)>(s: State<T>, t: Tid)
    requires Reachable(s)
    ensures ByOthers(s, t)
  {
    var capacity: nat, schedule: seq<Action<T>> :| capacity >= 2 && s == Run(Init<T>(capacity), schedule);
    RunKeepsByOthers(capacity, schedule, t);
  }

  /** The step that sends a push back to reload the head, or a pop to reload the tail. */
  ghost predicate Retries<T>(s: State<T>, t: Tid)
    requires Wf(s)
  {
    var pc, pc' := PcOf(s, t), PcOf(Next(s, Move(t, false)), t);
    (pc.PushDecide? && pc'.PushLoadSeq?) || (pc.PopDecide? && pc'.PopLoadSeq?)
  }

  /** No slot is ahead of the counter that will use it next. */
  lemma SlotsAreNotAhead<T>(s: State<T>)
    requires Inv(s)
    ensures SeqAt(s, s.head) <= s.head && SeqAt(s, s.tail) <= s.tail + 1
  {
    if s.head < s.tail + s.capacity {
      assert Vacant(s, s.head);
    } else {
      WrapSlot(s, s.tail);
      assert Occupied(s, s.tail);
    }
    if s.tail < s.head {
      assert Occupied(s, s.tail);
    }
  }

  lemma RetryIsBehind<T>(s: State<T>, t: Tid)
    requires Inv(s) && Retries(s, t)
    ensures PcOf(s, t).pos < if PcOf(s, t).PushDecide? then s.head else s.tail
  {
    assert ThreadOk(s, t);
    SlotsAreNotAhead(s);
  }

  /** A retry that is no spurious failure means that another thread has claimed the very ticket
      this one was after, since this one read its position: somebody got ahead. */
  lemma RetriesMeanProgress<T(!new)>(s: State<T>, t: Tid)
    requires Reachable(s) && Wf(s) && Retries(s, t)
    ensures var pc := PcOf(s, t);
            if pc.PushDecide? then pc.pos < |s.pushed| && s.pushed[pc.pos].owner != t
            else pc.pos < |s.poppers| && s.poppers[pc.pos] != t
  {
    ReachableInv(s);
    ReachableByOthers(s, t);
    RetryIsBehind(s, t);
  }
}
