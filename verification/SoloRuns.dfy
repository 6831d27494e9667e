/** What the ring and the blocking queue do for a thread that runs alone: the states it passes
    through, step by step. */
module SoloRuns {
  import opened Options
  import opened Bits
  import opened MpmcRing
  import opened MpmcInvariant
  import opened BlockingQueue
  import opened WakeupProof

  // ---------------------------------------------------------------- the ring, at rest

  ghost predicate Resting<T>(pc: Pc<T>) {
    pc.Ready? || pc.Returned?
  }

  ghost predicate OthersRest<T>(s: State<T>, t: Tid) {
    forall u: Tid :: u != t ==> Resting(PcOf(s, u))
  }

  /** Thread t is not in the middle of filling or emptying a slot either. */
  ghost predicate Calm<T>(s: State<T>, t: Tid) {
    Inv(s) && OthersRest(s, t) && !PcOf(s, t).PushWrite? && !PcOf(s, t).PushPublish? && !PcOf(s, t).PopRead? && !PcOf(s, t).PopRecycle?
  }

  lemma CalmTail<T>(s: State<T>, t: Tid)
    requires Calm(s, t)
    ensures s.tail < s.head ==> SeqAt(s, s.tail) == s.tail + 1 && DataAt(s, s.tail) == Some(s.pushed[s.tail].item)
    ensures s.tail == s.head ==> SeqAt(s, s.tail) < s.tail + 1
  {
    if s.tail < s.head {
      assert Occupied(s, s.tail);
      assert SeqAt(s, s.tail) == s.tail ==> Filling(s, s.pushed[s.tail].owner, s.tail);
    } else {
      CalmHead(s, t);
    }
  }

  lemma CalmHead<T>(s: State<T>, t: Tid)
    requires Calm(s, t)
    ensures s.head < s.tail + s.capacity ==> SeqAt(s, s.head) == s.head
    ensures s.head == s.tail + s.capacity ==> SeqAt(s, s.head) < s.head
  {
    if s.head < s.tail + s.capacity {
      assert Vacant(s, s.head);
      var p := s.head - s.capacity;
      assert 0 <= p < s.tail && p !in s.popped ==> Emptying(s, s.poppers[p], p);
    } else {
      WrapSlot(s, s.tail);
      assert Occupied(s, s.tail);
    }
  }

  // ---------------------------------------------------------------- paths through the ring

  /** Consecutive states of the ring while only t moves, the last of them with t's answer. */
  ghost predicate IsPath<T>(path: seq<State<T>>, t: Tid) {
    && |path| > 0
    && (forall k :: 0 <= k < |path| ==> Wf(path[k]))
    && (forall k :: 0 <= k < |path| - 1 ==> Moves(path[k], t, path[k + 1]))
  }

  ghost predicate Moves<T>(s: State<T>, t: Tid, s': State<T>)
    requires Wf(s)
  {
    !Resting(PcOf(s, t)) && Next(s, Move(t, false)) == s'
  }

  lemma AtTwice<T>(s: State<T>, t: Tid, pc: Pc<T>, pc': Pc<T>)
    ensures At(At(s, t, pc), t, pc') == At(s, t, pc') && PcOf(At(s, t, pc), t) == pc
  {
    assert s.threads[t := pc][t := pc'] == s.threads[t := pc'];
  }

  /** The ring after t has pushed `item`. */
  function Pushed<T>(s: State<T>, t: Tid, item: T): State<T>
    requires Wf(s)
  {
    var claimed := s.(head := s.head + 1, pushed := s.pushed + [Claim(t, item)]);
    At(Store(claimed, s.head, Slot(s.head + 1, Some(item))), t, Returned(PushOk(s.head)))
  }

  lemma PushPath<T>(s: State<T>, t: Tid, item: T) returns (path: seq<State<T>>)
    requires Wf(s) && SeqAt(s, s.head) == s.head
    ensures |path| == 6 && IsPath(path, t) && path[0] == At(s, t, PushLoadPos(item)) && path[5] == Pushed(s, t, item)
  {
    var h := s.head;
    var claimed := s.(head := h + 1, pushed := s.pushed + [Claim(t, item)]);
    var s0, s1, s2 := At(s, t, PushLoadPos(item)), At(s, t, PushLoadSeq(item, h)), At(s, t, PushDecide(item, h, h));
    var s3 := At(claimed, t, PushWrite(item, h));
    var s4 := At(Store(claimed, h, Slot(h, Some(item))), t, PushPublish(item, h));
    PushLoads(s, t, item);
    PushClaims(s, t, item);
    PushFills(s, t, item);
    path := [s0, s1, s2, s3, s4, Pushed(s, t, item)];
  }

  lemma PushLoads<T>(s: State<T>, t: Tid, item: T)
    requires Wf(s)
    ensures Moves(At(s, t, PushLoadPos(item)), t, At(s, t, PushLoadSeq(item, s.head)))
    ensures Moves(At(s, t, PushLoadSeq(item, s.head)), t, At(s, t, PushDecide(item, s.head, SeqAt(s, s.head))))
  {
    AtTwice(s, t, PushLoadPos(item), PushLoadSeq(item, s.head));
    AtTwice(s, t, PushLoadSeq(item, s.head), PushDecide(item, s.head, SeqAt(s, s.head)));
  }

  lemma PushClaims<T>(s: State<T>, t: Tid, item: T)
    requires Wf(s)
    ensures Moves(At(s, t, PushDecide(item, s.head, s.head)), t,
                  At(s.(head := s.head + 1, pushed := s.pushed + [Claim(t, item)]), t, PushWrite(item, s.head)))
  {
    AtTwice(s, t, PushDecide(item, s.head, s.head), PushWrite(item, s.head));
  }

  lemma PushFills<T>(s: State<T>, t: Tid, item: T)
    requires Wf(s) && SeqAt(s, s.head) == s.head
    ensures var h := s.head;
            var claimed := s.(head := h + 1, pushed := s.pushed + [Claim(t, item)]);
            var filled := Store(claimed, h, Slot(h, Some(item)));
            && Moves(At(claimed, t, PushWrite(item, h)), t, At(filled, t, PushPublish(item, h)))
            && Moves(At(filled, t, PushPublish(item, h)), t, Pushed(s, t, item))
  {
    var h := s.head;
    var claimed := s.(head := h + 1, pushed := s.pushed + [Claim(t, item)]);
    var filled := Store(claimed, h, Slot(h, Some(item)));
    AtTwice(claimed, t, PushWrite(item, h), PushPublish(item, h));
    AtTwice(filled, t, PushPublish(item, h), Returned(PushOk(h)));
    assert Store(filled, h, Slot(h + 1, Some(item))) == Store(claimed, h, Slot(h + 1, Some(item)));
  }

  lemma FullPath<T>(s: State<T>, t: Tid, item: T) returns (path: seq<State<T>>)
    requires Wf(s) && SeqAt(s, s.head) < s.head
    ensures |path| == 4 && IsPath(path, t) && path[0] == At(s, t, PushLoadPos(item)) && path[3] == At(s, t, Returned(PushFull))
  {
    var s2 := At(s, t, PushDecide(item, s.head, SeqAt(s, s.head)));
    PushLoads(s, t, item);
    AtTwice(s, t, PushDecide(item, s.head, SeqAt(s, s.head)), Returned(PushFull));
    path := [At(s, t, PushLoadPos(item)), At(s, t, PushLoadSeq(item, s.head)), s2, At(s, t, Returned(PushFull))];
  }

  /** The ring after t has popped. */
  function Popped<T>(s: State<T>, t: Tid): State<T>
    requires Wf(s)
  {
    var item := DataAt(s, s.tail);
    var claimed := s.(tail := s.tail + 1, poppers := s.poppers + [t]);
    At(Store(claimed, s.tail, Slot(s.tail + s.capacity, None)).(popped := s.popped[s.tail := item]), t, Returned(PopOk(s.tail, item)))
  }

  lemma PopLoads<T>(s: State<T>, t: Tid)
    requires Wf(s)
    ensures Moves(At(s, t, PopLoadPos), t, At(s, t, PopLoadSeq(s.tail)))
    ensures Moves(At(s, t, PopLoadSeq(s.tail)), t, At(s, t, PopDecide(s.tail, SeqAt(s, s.tail))))
  {
    AtTwice(s, t, PopLoadPos, PopLoadSeq(s.tail));
    AtTwice(s, t, PopLoadSeq(s.tail), PopDecide(s.tail, SeqAt(s, s.tail)));
  }

  lemma PopClaims<T>(s: State<T>, t: Tid)
    requires Wf(s)
    ensures Moves(At(s, t, PopDecide(s.tail, s.tail + 1)), t,
                  At(s.(tail := s.tail + 1, poppers := s.poppers + [t]), t, PopRead(s.tail)))
  {
    AtTwice(s, t, PopDecide(s.tail, s.tail + 1), PopRead(s.tail));
  }

  lemma PopEmpties<T>(s: State<T>, t: Tid)
    requires Wf(s) && SeqAt(s, s.tail) == s.tail + 1
    ensures var p, item := s.tail, DataAt(s, s.tail);
            var claimed := s.(tail := p + 1, poppers := s.poppers + [t]);
            var taken := Store(claimed, p, Slot(p + 1, None));
            && Moves(At(claimed, t, PopRead(p)), t, At(taken, t, PopRecycle(p, item)))
            && Moves(At(taken, t, PopRecycle(p, item)), t, Popped(s, t))
  {
    var p, item := s.tail, DataAt(s, s.tail);
    var claimed := s.(tail := p + 1, poppers := s.poppers + [t]);
    var taken := Store(claimed, p, Slot(p + 1, None));
    AtTwice(claimed, t, PopRead(p), PopRecycle(p, item));
    AtTwice(taken, t, PopRecycle(p, item), Returned(PopOk(p, item)));
    assert Store(taken, p, Slot(p + s.capacity, None)) == Store(claimed, p, Slot(p + s.capacity, None));
  }

  lemma PopPath<T>(s: State<T>, t: Tid) returns (path: seq<State<T>>)
    requires Wf(s) && SeqAt(s, s.tail) == s.tail + 1
    ensures |path| == 6 && IsPath(path, t) && path[0] == At(s, t, PopLoadPos) && path[5] == Popped(s, t)
  {
    var p, item := s.tail, DataAt(s, s.tail);
    var claimed := s.(tail := p + 1, poppers := s.poppers + [t]);
    var s3, s4 := At(claimed, t, PopRead(p)), At(Store(claimed, p, Slot(p + 1, None)), t, PopRecycle(p, item));
    PopLoads(s, t);
    PopClaims(s, t);
    PopEmpties(s, t);
    path := [At(s, t, PopLoadPos), At(s, t, PopLoadSeq(p)), At(s, t, PopDecide(p, p + 1)), s3, s4, Popped(s, t)];
  }

  lemma EmptyPath<T>(s: State<T>, t: Tid) returns (path: seq<State<T>>)
    requires Wf(s) && SeqAt(s, s.tail) < s.tail + 1
    ensures |path| == 4 && IsPath(path, t) && path[0] == At(s, t, PopLoadPos) && path[3] == At(s, t, Returned(PopEmpty))
  {
    var s2 := At(s, t, PopDecide(s.tail, SeqAt(s, s.tail)));
    PopLoads(s, t);
    AtTwice(s, t, PopDecide(s.tail, SeqAt(s, s.tail)), Returned(PopEmpty));
    path := [At(s, t, PopLoadPos), At(s, t, PopLoadSeq(s.tail)), s2, At(s, t, Returned(PopEmpty))];
  }
}
