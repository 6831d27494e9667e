/** The inductive invariant of the ring and the proof that every step keeps it. */
module MpmcInvariant {
  import opened Bits
  import opened Options
  import opened MpmcRing

  // ------------------------------------------------------------ the invariant

  ghost predicate Counters<T>(s: State<T>) {
    && s.tail <= s.head <= s.tail + s.capacity
    && |s.pushed| == s.head
    && |s.poppers| == s.tail
  }

  /** A ticket that holds an item: its slot is still being filled, or published. */
  ghost predicate Occupied<T>(s: State<T>, p: nat)
    requires Wf(s) && p < |s.pushed|
  {
    SeqAt(s, p) == p || (SeqAt(s, p) == p + 1 && DataAt(s, p) == Some(s.pushed[p].item))
  }

  /** A ticket nobody has pushed yet: its slot is recycled, or still being emptied. */
  ghost predicate Vacant<T>(s: State<T>, p: nat)
    requires Wf(s)
  {
    SeqAt(s, p) == p || (p >= s.capacity && SeqAt(s, p) == p - s.capacity + 1)
  }

  /** The lap that starts at the tail covers every slot exactly once. */
  ghost predicate Window<T>(s: State<T>)
    requires Wf(s) && Counters(s)
  {
    && (forall p: nat :: s.tail <= p < s.head ==> Occupied(s, p))
    && (forall p: nat :: s.head <= p < s.tail + s.capacity ==> Vacant(s, p))
  }

  ghost predicate Passed<T>(s: State<T>)
    requires Wf(s)
  {
    && (forall p: nat :: p < s.head ==> SeqAt(s, p) >= p)
    && (forall p: nat :: p < s.tail ==> SeqAt(s, p) >= p + 1)
  }

  ghost predicate Filling<T>(s: State<T>, t: Tid, p: nat) {
    var pc := PcOf(s, t);
    (pc.PushWrite? || pc.PushPublish?) && pc.pos == p
  }

  ghost predicate Emptying<T>(s: State<T>, t: Tid, p: nat) {
    var pc := PcOf(s, t);
    (pc.PopRead? || pc.PopRecycle?) && pc.pos == p
  }

  /** Every claimed but unpublished ticket has the thread that is filling its slot. */
  ghost predicate Fillers<T>(s: State<T>)
    requires Wf(s) && Counters(s)
  {
    forall p: nat :: s.tail <= p < s.head && SeqAt(s, p) == p ==> Filling(s, s.pushed[p].owner, p)
  }

  /** Every claimed but unfinished pop has the thread that is emptying its slot. */
  ghost predicate Emptiers<T>(s: State<T>)
    requires Wf(s) && Counters(s)
  {
    forall p: nat :: p < s.tail && p !in s.popped ==> Emptying(s, s.poppers[p], p)
  }

  /** Finished pops returned what was pushed under the same ticket. */
  ghost predicate Faithful<T>(s: State<T>)
    requires Wf(s) && Counters(s)
  {
    forall p: nat :: p in s.popped ==> p < s.tail && s.popped[p] == Some(s.pushed[p].item)
  }

  /** A slot ahead of the head that is not recycled belongs to an unfinished pop. */
  ghost predicate Recycled<T>(s: State<T>)
    requires Wf(s) && Counters(s)
  {
    forall p: nat :: s.head <= p < s.tail + s.capacity && SeqAt(s, p) != p ==>
      p >= s.capacity && p - s.capacity !in s.popped
  }

  ghost predicate Owned<T>(s: State<T>)
    requires Wf(s) && Counters(s)
  {
    Fillers(s) && Emptiers(s) && Faithful(s) && Recycled(s)
  }

  ghost predicate FillingOk<T>(s: State<T>, t: Tid, item: T, p: nat)
    requires Wf(s) && Counters(s)
  {
    s.tail <= p < s.head && SeqAt(s, p) == p && s.pushed[p] == Claim(t, item)
  }

  ghost predicate EmptyingOk<T>(s: State<T>, t: Tid, p: nat)
    requires Wf(s) && Counters(s)
  {
    p < s.tail && s.head <= p + s.capacity && SeqAt(s, p) == p + 1 && s.poppers[p] == t && p !in s.popped
  }

  ghost predicate AnswerOk<T>(s: State<T>, t: Tid, a: Answer<T>)
    requires Wf(s) && Counters(s)
  {
    match a
    case PushOk(p) => p < s.head && s.pushed[p].owner == t
    case PopOk(p, item) => p < s.tail && s.poppers[p] == t && item == Some(s.pushed[p].item) && p in s.popped
    case Size(n) => n <= s.capacity
    case _ => true
  }

  /** What a thread's private knowledge is worth: positions it read are not ahead of the
      shared counters, and sequences it read are not ahead of the slots. */
  ghost predicate ThreadOk<T>(s: State<T>, t: Tid)
    requires Wf(s) && Counters(s)
  {
    match PcOf(s, t)
    case PushLoadSeq(_, pos) => pos <= s.head
    case PushDecide(_, pos, seen) => pos <= s.head && seen <= SeqAt(s, pos)
    case PushWrite(item, pos) => FillingOk(s, t, item, pos)
    case PushPublish(item, pos) => FillingOk(s, t, item, pos) && DataAt(s, pos) == Some(item)
    case PopLoadSeq(pos) => pos <= s.tail
    case PopDecide(pos, seen) => pos <= s.tail && seen <= SeqAt(s, pos)
    case PopRead(pos) => EmptyingOk(s, t, pos) && DataAt(s, pos) == Some(s.pushed[pos].item)
    case PopRecycle(pos, item) => EmptyingOk(s, t, pos) && item == Some(s.pushed[pos].item)
    case SizeLoadTail(h) => h <= s.head
    case Returned(a) => AnswerOk(s, t, a)
    case _ => true
  }

  ghost predicate Inv<T>(s: State<T>) {
    && Wf(s)
    && Counters(s)
    && Window(s)
    && Passed(s)
    && Owned(s)
    && forall t: Tid :: ThreadOk(s, t)
  }

  // ------------------------------------------------------------ ticket algebra

  lemma SameSlots<T>(s: State<T>, s': State<T>)
    requires Wf(s) && s'.slots == s.slots && s'.capacity == s.capacity
    ensures forall p: nat :: SeqAt(s', p) == SeqAt(s, p)
    ensures forall p: nat :: DataAt(s', p) == DataAt(s, p)
  {
  }

  lemma WrapSlot<T>(s: State<T>, p: nat)
    requires Wf(s)
    ensures SeqAt(s, p + s.capacity) == SeqAt(s, p) && DataAt(s, p + s.capacity) == DataAt(s, p)
  {
  }

  /** A producer that saw `seen == pos` and finds the head still at `pos` owns a recycled
      slot: the ring is not full and the slot's sequence is exactly `pos`. */
  lemma PushClaimSound<T>(s: State<T>)
    requires Wf(s) && Counters(s) && Window(s) && s.head <= SeqAt(s, s.head)
    ensures s.head < s.tail + s.capacity && SeqAt(s, s.head) == s.head
  {
    WrapSlot(s, s.tail);
    if s.tail < s.head {
      assert Occupied(s, s.tail);
    }
    if s.head < s.tail + s.capacity {
      assert Vacant(s, s.head);
    }
  }

  /** A consumer that saw `seen == pos + 1` and finds the tail still at `pos` owns a
      published slot holding the item pushed under `pos`. */
  lemma PopClaimSound<T>(s: State<T>)
    requires Wf(s) && Counters(s) && Window(s) && s.tail + 1 <= SeqAt(s, s.tail)
    ensures s.tail < s.head && SeqAt(s, s.tail) == s.tail + 1
    ensures DataAt(s, s.tail) == Some(s.pushed[s.tail].item)
  {
    assert s.head == s.tail ==> Vacant(s, s.tail);
    assert s.head > s.tail ==> Occupied(s, s.tail);
  }

  // --------------------------------------------------------------- local steps

  /** The program counters a step may move to when it touches nothing shared. */
  ghost predicate LocalMove<T>(s: State<T>, t: Tid, pc: Pc<T>)
    requires Wf(s) && Counters(s)
  {
    && (forall p: nat :: !Filling(s, t, p) && !Emptying(s, t, p))
    && !pc.PushWrite? && !pc.PushPublish? && !pc.PopRead? && !pc.PopRecycle?
    && ThreadOk(At(s, t, pc), t)
  }

  lemma MovedWindow<T>(s: State<T>, t: Tid, pc: Pc<T>)
    requires Wf(s) && Counters(s) && Window(s) && Passed(s)
    ensures var s' := At(s, t, pc); Wf(s') && Counters(s') && Window(s') && Passed(s')
  {
    var s' := At(s, t, pc);
    SameSlots(s, s');
    forall p: nat | s.tail <= p < s.head ensures Occupied(s', p) {
      assert Occupied(s, p);
    }
    forall p: nat | s.head <= p < s.tail + s.capacity ensures Vacant(s', p) {
      assert Vacant(s, p);
    }
  }

  lemma MovedOwned<T>(s: State<T>, t: Tid, pc: Pc<T>)
    requires Wf(s) && Counters(s) && Owned(s)
    requires forall p: nat :: !Filling(s, t, p) && !Emptying(s, t, p)
    ensures Owned(At(s, t, pc))
  {
    var s' := At(s, t, pc);
    SameSlots(s, s');
    assert forall u, p: nat :: Filling(s, u, p) ==> Filling(s', u, p);
    assert forall u, p: nat :: Emptying(s, u, p) ==> Emptying(s', u, p);
  }

  lemma MovingOneThread<T>(s: State<T>, t: Tid, pc: Pc<T>, u: Tid)
    requires Wf(s) && Counters(s) && u != t && ThreadOk(s, u)
    ensures ThreadOk(At(s, t, pc), u)
  {
    SameSlots(s, At(s, t, pc));
  }

  lemma LocalMoveKeepsInv<T>(s: State<T>, t: Tid, pc: Pc<T>)
    requires Inv(s) && LocalMove(s, t, pc)
    ensures Inv(At(s, t, pc))
  {
    MovedWindow(s, t, pc);
    MovedOwned(s, t, pc);
    forall u: Tid ensures ThreadOk(At(s, t, pc), u) {
      if u != t {
        assert ThreadOk(s, u);
        MovingOneThread(s, t, pc, u);
      }
    }
  }

  // -------------------------------------------------------- claiming a ticket

  function AfterPushClaim<T>(s: State<T>, t: Tid, item: T): State<T> {
    At(s.(head := s.head + 1, pushed := s.pushed + [Claim(t, item)]), t, PushWrite(item, s.head))
  }

  lemma PushClaimWindow<T>(s: State<T>, t: Tid, item: T)
    requires Wf(s) && Counters(s) && Window(s) && Passed(s) && s.head <= SeqAt(s, s.head)
    ensures var s' := AfterPushClaim(s, t, item); Wf(s') && Counters(s') && Window(s') && Passed(s')
  {
    var s' := AfterPushClaim(s, t, item);
    PushClaimSound(s);
    SameSlots(s, s');
    forall p: nat | s'.tail <= p < s'.head ensures Occupied(s', p) {
      if p < s.head { assert Occupied(s, p); }
    }
    forall p: nat | s'.head <= p < s'.tail + s'.capacity ensures Vacant(s', p) {
      assert Vacant(s, p);
    }
  }

  lemma PushClaimOwned<T>(s: State<T>, t: Tid, item: T)
    requires Wf(s) && Counters(s) && Window(s) && Owned(s) && s.head <= SeqAt(s, s.head)
    requires forall p: nat :: !Filling(s, t, p) && !Emptying(s, t, p)
    ensures var s' := AfterPushClaim(s, t, item); Wf(s') && Counters(s') && Owned(s')
  {
    var s' := AfterPushClaim(s, t, item);
    PushClaimSound(s);
    SameSlots(s, s');
    assert forall u, p: nat :: u != t && Filling(s, u, p) ==> Filling(s', u, p);
    assert forall u, p: nat :: u != t && Emptying(s, u, p) ==> Emptying(s', u, p);
  }

  lemma PushClaimThread<T>(s: State<T>, t: Tid, item: T, u: Tid)
    requires Wf(s) && Counters(s) && Window(s) && ThreadOk(s, u) && s.head <= SeqAt(s, s.head)
    ensures var s' := AfterPushClaim(s, t, item); Wf(s') && Counters(s') && ThreadOk(s', u)
  {
    var s' := AfterPushClaim(s, t, item);
    PushClaimSound(s);
    SameSlots(s, s');
    if PcOf(s, u).PopRead? || PcOf(s, u).PopRecycle? {
      WrapSlot(s, PcOf(s, u).pos);
    }
  }

  lemma PushClaimKeepsInv<T>(s: State<T>, t: Tid, item: T)
    requires Inv(s) && s.head <= SeqAt(s, s.head)
    requires forall p: nat :: !Filling(s, t, p) && !Emptying(s, t, p)
    ensures Inv(AfterPushClaim(s, t, item))
  {
    PushClaimWindow(s, t, item);
    PushClaimOwned(s, t, item);
    forall u: Tid ensures ThreadOk(AfterPushClaim(s, t, item), u) {
      PushClaimThread(s, t, item, u);
    }
  }

  function AfterPopClaim<T>(s: State<T>, t: Tid): State<T> {
    At(s.(tail := s.tail + 1, poppers := s.poppers + [t]), t, PopRead(s.tail))
  }

  lemma PopClaimWindow<T>(s: State<T>, t: Tid)
    requires Wf(s) && Counters(s) && Window(s) && Passed(s) && s.tail + 1 <= SeqAt(s, s.tail)
    ensures var s' := AfterPopClaim(s, t); Wf(s') && Counters(s') && Window(s') && Passed(s')
  {
    var s' := AfterPopClaim(s, t);
    PopClaimSound(s);
    SameSlots(s, s');
    WrapSlot(s, s.tail);
    forall p: nat | s'.tail <= p < s'.head ensures Occupied(s', p) {
      assert Occupied(s, p);
    }
    forall p: nat | s'.head <= p < s'.tail + s'.capacity ensures Vacant(s', p) {
      if p < s.tail + s.capacity { assert Vacant(s, p); }
    }
  }

  lemma PopClaimOwned<T>(s: State<T>, t: Tid)
    requires Wf(s) && Counters(s) && Window(s) && Owned(s) && s.tail + 1 <= SeqAt(s, s.tail)
    requires forall p: nat :: !Filling(s, t, p) && !Emptying(s, t, p)
    ensures var s' := AfterPopClaim(s, t); Wf(s') && Counters(s') && Owned(s')
  {
    var s' := AfterPopClaim(s, t);
    PopClaimSound(s);
    SameSlots(s, s');
    assert forall u, p: nat :: u != t && Filling(s, u, p) ==> Filling(s', u, p);
    assert forall u, p: nat :: u != t && Emptying(s, u, p) ==> Emptying(s', u, p);
  }

  lemma PopClaimThread<T>(s: State<T>, t: Tid, u: Tid)
    requires Wf(s) && Counters(s) && Window(s) && Owned(s) && ThreadOk(s, u) && s.tail + 1 <= SeqAt(s, s.tail)
    ensures var s' := AfterPopClaim(s, t); Wf(s') && Counters(s') && ThreadOk(s', u)
  {
    var s' := AfterPopClaim(s, t);
    PopClaimSound(s);
    SameSlots(s, s');
  }

  lemma PopClaimKeepsInv<T>(s: State<T>, t: Tid)
    requires Inv(s) && s.tail + 1 <= SeqAt(s, s.tail)
    requires forall p: nat :: !Filling(s, t, p) && !Emptying(s, t, p)
    ensures Inv(AfterPopClaim(s, t))
  {
    PopClaimWindow(s, t);
    PopClaimOwned(s, t);
    forall u: Tid ensures ThreadOk(AfterPopClaim(s, t), u) {
      PopClaimThread(s, t, u);
    }
  }

  // --------------------------------------------------------- changing one slot

  /** Storing into ticket `w`'s slot leaves the slots of the rest of its lap alone. */
  lemma OtherTicketsUntouched<T>(s: State<T>, lo: nat, w: nat, slot: Slot<T>)
    requires Wf(s) && lo <= w < lo + s.capacity
    ensures forall p: nat :: lo <= p < lo + s.capacity && p != w ==> SeqAt(Store(s, w, slot), p) == SeqAt(s, p)
    ensures forall p: nat :: lo <= p < lo + s.capacity && p != w ==> DataAt(Store(s, w, slot), p) == DataAt(s, p)
    ensures SeqAt(Store(s, w, slot), w) == slot.sequence && DataAt(Store(s, w, slot), w) == slot.data
  {
    forall p: nat | lo <= p < lo + s.capacity && p != w
      ensures SlotOf(p, s.capacity) != SlotOf(w, s.capacity)
    {
      if SlotOf(p, s.capacity) == SlotOf(w, s.capacity) {
        SlotsDistinct(if p < w then p else w, if p < w then w else p, s.capacity);
      }
    }
  }

  /** A store whose sequence does not go back moves no ticket's sequence back. */
  lemma SequencesGrow<T>(s: State<T>, w: nat, slot: Slot<T>)
    requires Wf(s) && SeqAt(s, w) <= slot.sequence
    ensures forall p: nat :: SeqAt(s, p) <= SeqAt(Store(s, w, slot), p)
  {
  }

  /** The window ticket whose slot thread `t` is changing: its own while filling, the one a
      lap ahead while emptying. */
  ghost predicate Holds<T>(s: State<T>, t: Tid, w: nat)
    requires Wf(s) && Counters(s)
  {
    && s.tail <= w < s.tail + s.capacity
    && var pc := PcOf(s, t);
    if w < s.head then (pc.PushWrite? || pc.PushPublish?) && pc.pos == w && s.pushed[w].owner == t
    else (pc.PopRead? || pc.PopRecycle?) && pc.pos + s.capacity == w && s.poppers[pc.pos] == t
  }

  lemma StoreKeepsThread<T>(s: State<T>, t: Tid, w: nat, slot: Slot<T>, u: Tid)
    requires Wf(s) && Counters(s) && Holds(s, t, w) && u != t && ThreadOk(s, u)
    requires SeqAt(s, w) <= slot.sequence
    ensures var s' := Store(s, w, slot); ThreadOk(s', u)
  {
    var s' := Store(s, w, slot);
    OtherTicketsUntouched(s, s.tail, w, slot);
    SequencesGrow(s, w, slot);
    var pc := PcOf(s, u);
    if pc.PopRead? || pc.PopRecycle? {
      WrapSlot(s, pc.pos);
      WrapSlot(s', pc.pos);
    }
  }

  // ------------------------------------------------------------------- filling

  lemma FillWindow<T>(s: State<T>, pos: nat, slot: Slot<T>)
    requires Wf(s) && Counters(s) && Window(s) && Passed(s)
    requires s.tail <= pos < s.head && SeqAt(s, pos) <= slot.sequence
    requires slot.sequence == pos || (slot.sequence == pos + 1 && slot.data == Some(s.pushed[pos].item))
    ensures var s' := Store(s, pos, slot); Window(s') && Passed(s')
  {
    var s' := Store(s, pos, slot);
    OtherTicketsUntouched(s, s.tail, pos, slot);
    SequencesGrow(s, pos, slot);
    forall p: nat | s.tail <= p < s.head ensures Occupied(s', p) {
      assert Occupied(s, p);
    }
    forall p: nat | s.head <= p < s.tail + s.capacity ensures Vacant(s', p) {
      assert Vacant(s, p);
    }
  }

  lemma FillOwned<T>(s: State<T>, t: Tid, pos: nat, slot: Slot<T>, pc: Pc<T>)
    requires Wf(s) && Counters(s) && Owned(s) && s.tail <= pos < s.head
    requires Filling(s, t, pos) && s.pushed[pos].owner == t
    requires if slot.sequence == pos then (pc.PushWrite? || pc.PushPublish?) && pc.pos == pos else true
    ensures var s' := At(Store(s, pos, slot), t, pc); Owned(s')
  {
    var s1 := Store(s, pos, slot);
    var s' := At(s1, t, pc);
    OtherTicketsUntouched(s, s.tail, pos, slot);
    SameSlots(s1, s');
    assert forall u, p: nat :: u != t && Filling(s, u, p) ==> Filling(s', u, p);
    assert forall u, p: nat :: u != t && Emptying(s, u, p) ==> Emptying(s', u, p);
    forall p: nat | s.tail <= p < s.head && SeqAt(s', p) == p ensures Filling(s', s.pushed[p].owner, p) {
      if p != pos { assert Filling(s, s.pushed[p].owner, p); }
    }
  }

  lemma FillKeepsInv<T>(s: State<T>, t: Tid, pos: nat, slot: Slot<T>, pc: Pc<T>)
    requires Inv(s) && Filling(s, t, pos) && pos < s.head && SeqAt(s, pos) <= slot.sequence
    requires || (slot.sequence == pos && pc == PushPublish(s.pushed[pos].item, pos) && slot.data == Some(s.pushed[pos].item))
             || (slot.sequence == pos + 1 && pc == Returned(PushOk(pos)) && slot.data == Some(s.pushed[pos].item))
    ensures Inv(At(Store(s, pos, slot), t, pc))
  {
    assert ThreadOk(s, t);
    var s1 := Store(s, pos, slot);
    var s' := At(s1, t, pc);
    FillWindow(s, pos, slot);
    FillOwned(s, t, pos, slot, pc);
    SameSlots(s1, s');
    MovedWindow(s1, t, pc);
    forall u: Tid ensures ThreadOk(s', u) {
      if u == t {
        OtherTicketsUntouched(s, s.tail, pos, slot);
      } else {
        assert ThreadOk(s, u);
        StoreKeepsThread(s, t, pos, slot, u);
        MovingOneThread(s1, t, pc, u);
      }
    }
  }

  // ------------------------------------------------------------------ emptying

  lemma EmptyWindow<T>(s: State<T>, w: nat, slot: Slot<T>)
    requires Wf(s) && Counters(s) && Window(s) && Passed(s)
    requires s.head <= w < s.tail + s.capacity && w >= s.capacity && SeqAt(s, w) <= slot.sequence
    requires slot.sequence == w || slot.sequence == w - s.capacity + 1
    ensures var s' := Store(s, w, slot); Window(s') && Passed(s')
  {
    var s' := Store(s, w, slot);
    OtherTicketsUntouched(s, s.tail, w, slot);
    SequencesGrow(s, w, slot);
    forall p: nat | s.tail <= p < s.head ensures Occupied(s', p) {
      assert Occupied(s, p);
    }
    forall p: nat | s.head <= p < s.tail + s.capacity ensures Vacant(s', p) {
      assert Vacant(s, p);
    }
  }

  lemma TakeOwned<T>(s: State<T>, t: Tid, pos: nat, pc: Pc<T>)
    requires Wf(s) && Counters(s) && Owned(s) && Emptying(s, t, pos) && EmptyingOk(s, t, pos)
    requires pc.PopRecycle? && pc.pos == pos
    ensures Owned(At(Store(s, pos + s.capacity, Slot(SeqAt(s, pos), None)), t, pc))
  {
    var w := pos + s.capacity;
    var s1 := Store(s, w, Slot(SeqAt(s, pos), None));
    var s' := At(s1, t, pc);
    WrapSlot(s, pos);
    OtherTicketsUntouched(s, s.tail, w, Slot(SeqAt(s, pos), None));
    SameSlots(s1, s');
    assert forall u, p: nat :: Filling(s, u, p) ==> Filling(s', u, p);
    assert forall u, p: nat :: Emptying(s, u, p) ==> Emptying(s', u, p);
  }

  lemma TakeKeepsInv<T>(s: State<T>, t: Tid, pos: nat)
    requires Inv(s) && PcOf(s, t) == PopRead(pos)
    ensures Inv(PopTake(s, t, pos))
  {
    assert ThreadOk(s, t);
    var w, slot, pc := pos + s.capacity, Slot(SeqAt(s, pos), None), PopRecycle(pos, DataAt(s, pos));
    var s1 := Store(s, w, slot);
    var s' := At(s1, t, pc);
    WrapSlot(s, pos);
    EmptyWindow(s, w, slot);
    MovedWindow(s1, t, pc);
    TakeOwned(s, t, pos, pc);
    forall u: Tid ensures ThreadOk(s', u) {
      if u == t {
        OtherTicketsUntouched(s, s.tail, w, slot);
        SameSlots(s1, s');
        WrapSlot(s', pos);
      } else {
        assert ThreadOk(s, u);
        StoreKeepsThread(s, t, w, slot, u);
        MovingOneThread(s1, t, pc, u);
      }
    }
  }

  /** Recording a finished pop in the history. */
  function Record<T>(s: State<T>, pos: nat, item: Option<T>): State<T> {
    s.(popped := s.popped[pos := item])
  }

  lemma RecordWindow<T>(s: State<T>, pos: nat, item: Option<T>)
    requires Wf(s) && Counters(s) && Window(s) && Passed(s)
    ensures var s' := Record(s, pos, item); Wf(s') && Counters(s') && Window(s') && Passed(s')
  {
    var s' := Record(s, pos, item);
    SameSlots(s, s');
    forall p: nat | s.tail <= p < s.head ensures Occupied(s', p) {
      assert Occupied(s, p);
    }
    forall p: nat | s.head <= p < s.tail + s.capacity ensures Vacant(s', p) {
      assert Vacant(s, p);
    }
  }

  lemma RecordThread<T>(s: State<T>, pos: nat, item: Option<T>, u: Tid)
    requires Wf(s) && Counters(s) && ThreadOk(s, u) && !Emptying(s, u, pos)
    ensures ThreadOk(Record(s, pos, item), u)
  {
    SameSlots(s, Record(s, pos, item));
  }

  ghost predicate Finished<T>(s: State<T>, t: Tid, pos: nat, item: Option<T>, s': State<T>) {
    && s' == s.(slots := s'.slots, threads := s.threads[t := Returned(PopOk(pos, item))], popped := s.popped[pos := item])
    && Wf(s) && Wf(s') && SeqAt(s', pos + s.capacity) == pos + s.capacity
    && (forall p: nat :: s.tail <= p < s.tail + s.capacity && p != pos + s.capacity ==> SeqAt(s', p) == SeqAt(s, p))
  }

  lemma FinishFillers<T>(s: State<T>, t: Tid, pos: nat, item: Option<T>, s': State<T>)
    requires Finished(s, t, pos, item, s') && Counters(s) && Fillers(s)
    requires Emptying(s, t, pos) && EmptyingOk(s, t, pos)
    ensures Fillers(s')
  {
    forall p: nat | s.tail <= p < s.head && SeqAt(s', p) == p ensures Filling(s', s.pushed[p].owner, p) {
      assert SeqAt(s, p) == p && Filling(s, s.pushed[p].owner, p);
    }
  }

  lemma FinishEmptiers<T>(s: State<T>, t: Tid, pos: nat, item: Option<T>, s': State<T>)
    requires Finished(s, t, pos, item, s') && Counters(s) && Emptiers(s) && Emptying(s, t, pos)
    ensures Emptiers(s')
  {
    forall p: nat | p < s.tail && p !in s'.popped ensures Emptying(s', s.poppers[p], p) {
      assert Emptying(s, s.poppers[p], p);
    }
  }

  lemma FinishRecycled<T>(s: State<T>, t: Tid, pos: nat, item: Option<T>, s': State<T>)
    requires Finished(s, t, pos, item, s') && Counters(s) && Recycled(s)
    ensures Recycled(s')
  {
    forall p: nat | s.head <= p < s.tail + s.capacity && SeqAt(s', p) != p
      ensures p >= s.capacity && p - s.capacity !in s'.popped
    {
      assert SeqAt(s, p) != p;
    }
  }

  lemma FinishOwned<T>(s: State<T>, t: Tid, pos: nat, item: Option<T>, s': State<T>)
    requires Finished(s, t, pos, item, s') && Counters(s) && Owned(s)
    requires Emptying(s, t, pos) && EmptyingOk(s, t, pos) && item == Some(s.pushed[pos].item)
    ensures Owned(s')
  {
    FinishFillers(s, t, pos, item, s');
    FinishEmptiers(s, t, pos, item, s');
    FinishRecycled(s, t, pos, item, s');
    assert Faithful(s');
  }

  lemma FinishThread<T>(s: State<T>, t: Tid, pos: nat, item: Option<T>, slot: Slot<T>, u: Tid)
    requires Wf(s) && Counters(s) && ThreadOk(s, t) && ThreadOk(s, u)
    requires PcOf(s, t) == PopRecycle(pos, item) && slot.sequence == pos + s.capacity
    ensures ThreadOk(At(Record(Store(s, pos + s.capacity, slot), pos, item), t, Returned(PopOk(pos, item))), u)
  {
    var w := pos + s.capacity;
    if u != t {
      WrapSlot(s, pos);
      StoreKeepsThread(s, t, w, slot, u);
      RecordThread(Store(s, w, slot), pos, item, u);
      MovingOneThread(Record(Store(s, w, slot), pos, item), t, Returned(PopOk(pos, item)), u);
    }
  }

  lemma FinishWindow<T>(s: State<T>, t: Tid, pos: nat, item: Option<T>, w: nat, slot: Slot<T>)
    requires Wf(s) && Counters(s) && Window(s) && Passed(s) && w == pos + s.capacity
    requires EmptyingOk(s, t, pos) && slot == Slot(w, DataAt(s, pos)) && SeqAt(s, w) == pos + 1
    ensures var s' := At(Record(Store(s, w, slot), pos, item), t, Returned(PopOk(pos, item))); Window(s') && Passed(s')
  {
    EmptyWindow(s, w, slot);
    RecordWindow(Store(s, w, slot), pos, item);
    MovedWindow(Record(Store(s, w, slot), pos, item), t, Returned(PopOk(pos, item)));
  }

  lemma FinishKeepsOwned<T>(s: State<T>, t: Tid, pos: nat, item: Option<T>, w: nat, slot: Slot<T>)
    requires Wf(s) && Counters(s) && Owned(s) && ThreadOk(s, t) && w == pos + s.capacity
    requires PcOf(s, t) == PopRecycle(pos, item) && slot == Slot(w, DataAt(s, pos)) && SeqAt(s, w) == pos + 1
    ensures Owned(At(Record(Store(s, w, slot), pos, item), t, Returned(PopOk(pos, item))))
  {
    var s1 := Store(s, w, slot);
    var s' := At(Record(s1, pos, item), t, Returned(PopOk(pos, item)));
    OtherTicketsUntouched(s, s.tail, w, slot);
    SameSlots(s1, s');
    FinishOwned(s, t, pos, item, s');
  }

  lemma FinishKeepsInv<T>(s: State<T>, t: Tid, pos: nat, item: Option<T>)
    requires Inv(s) && PcOf(s, t) == PopRecycle(pos, item)
    ensures Inv(PopFinish(s, t, pos, item))
  {
    assert ThreadOk(s, t);
    var w, slot := pos + s.capacity, Slot(pos + s.capacity, DataAt(s, pos));
    var s' := At(Record(Store(s, w, slot), pos, item), t, Returned(PopOk(pos, item)));
    WrapSlot(s, pos);
    FinishWindow(s, t, pos, item, w, slot);
    FinishKeepsOwned(s, t, pos, item, w, slot);
    forall u: Tid ensures ThreadOk(s', u) {
      assert ThreadOk(s, u);
      FinishThread(s, t, pos, item, slot, u);
    }
  }

  // ---------------------------------------------------------------- every step

  lemma PushBranchKeepsInv<T>(s: State<T>, t: Tid, item: T, pos: nat, seen: nat, spurious: bool)
    requires Inv(s) && PcOf(s, t) == PushDecide(item, pos, seen)
    ensures Inv(PushBranch(s, t, item, pos, seen, spurious))
  {
    assert ThreadOk(s, t);
    if seen == pos && s.head == pos && !spurious {
      PushClaimKeepsInv(s, t, item);
    } else if seen < pos {
      LocalMoveKeepsInv(s, t, Returned(PushFull));
    } else {
      LocalMoveKeepsInv(s, t, PushLoadSeq(item, s.head));
    }
  }

  lemma PopBranchKeepsInv<T>(s: State<T>, t: Tid, pos: nat, seen: nat, spurious: bool)
    requires Inv(s) && PcOf(s, t) == PopDecide(pos, seen)
    ensures Inv(PopBranch(s, t, pos, seen, spurious))
  {
    assert ThreadOk(s, t);
    if seen == pos + 1 && s.tail == pos && !spurious {
      PopClaimKeepsInv(s, t);
    } else if seen < pos + 1 {
      LocalMoveKeepsInv(s, t, Returned(PopEmpty));
    } else {
      LocalMoveKeepsInv(s, t, PopLoadSeq(s.tail));
    }
  }

  lemma PushStepKeepsInv<T>(s: State<T>, t: Tid, spurious: bool)
    requires Inv(s)
    requires var pc := PcOf(s, t);
             pc.PushLoadPos? || pc.PushLoadSeq? || pc.PushDecide? || pc.PushWrite? || pc.PushPublish?
    ensures Inv(Advance(s, t, spurious))
  {
    assert ThreadOk(s, t);
    match PcOf(s, t)
    case PushLoadPos(item) => LocalMoveKeepsInv(s, t, PushLoadSeq(item, s.head));
    case PushLoadSeq(item, pos) => LocalMoveKeepsInv(s, t, PushDecide(item, pos, SeqAt(s, pos)));
    case PushDecide(item, pos, seen) => PushBranchKeepsInv(s, t, item, pos, seen, spurious);
    case PushWrite(item, pos) => FillKeepsInv(s, t, pos, Slot(SeqAt(s, pos), Some(item)), PushPublish(item, pos));
    case PushPublish(item, pos) => FillKeepsInv(s, t, pos, Slot(pos + 1, DataAt(s, pos)), Returned(PushOk(pos)));
  }

  lemma PopStepKeepsInv<T>(s: State<T>, t: Tid, spurious: bool)
    requires Inv(s)
    requires var pc := PcOf(s, t);
             pc.PopLoadPos? || pc.PopLoadSeq? || pc.PopDecide? || pc.PopRead? || pc.PopRecycle?
    ensures Inv(Advance(s, t, spurious))
  {
    assert ThreadOk(s, t);
    match PcOf(s, t)
    case PopLoadPos => LocalMoveKeepsInv(s, t, PopLoadSeq(s.tail));
    case PopLoadSeq(pos) => LocalMoveKeepsInv(s, t, PopDecide(pos, SeqAt(s, pos)));
    case PopDecide(pos, seen) => PopBranchKeepsInv(s, t, pos, seen, spurious);
    case PopRead(pos) => TakeKeepsInv(s, t, pos);
    case PopRecycle(pos, item) => FinishKeepsInv(s, t, pos, item);
  }

  lemma AdvanceKeepsInv<T>(s: State<T>, t: Tid, spurious: bool)
    requires Inv(s)
    ensures Inv(Advance(s, t, spurious))
  {
    var pc := PcOf(s, t);
    if pc.PushLoadPos? || pc.PushLoadSeq? || pc.PushDecide? || pc.PushWrite? || pc.PushPublish? {
      PushStepKeepsInv(s, t, spurious);
    } else if pc.PopLoadPos? || pc.PopLoadSeq? || pc.PopDecide? || pc.PopRead? || pc.PopRecycle? {
      PopStepKeepsInv(s, t, spurious);
    } else if pc.SizeLoadHead? {
      LocalMoveKeepsInv(s, t, SizeLoadTail(s.head));
    } else if pc.SizeLoadTail? {
      assert ThreadOk(s, t);
      LocalMoveKeepsInv(s, t, Returned(Size(if pc.head >= s.tail then pc.head - s.tail else 0)));
    }
  }

  lemma NextKeepsInv<T>(s: State<T>, a: Action<T>)
    requires Inv(s)
    ensures Inv(Next(s, a))
  {
    match a
    case Call(t, r) =>
      if PcOf(s, t).Ready? || PcOf(s, t).Returned? {
        LocalMoveKeepsInv(s, t, Entry(r));
      }
    case Move(t, spurious) => AdvanceKeepsInv(s, t, spurious);
  }

  lemma InitInv<T>(capacity: nat)
    requires capacity >= 2
    ensures Inv(Init<T>(capacity))
  {
    var s := Init<T>(capacity);
    assert forall p: nat :: p < capacity ==> SlotOf(p, capacity) == p;
  }

  /** Every state the ring can reach, under every schedule, satisfies the invariant. */
  lemma {:induction false} RunInv<T>(capacity: nat, schedule: seq<Action<T>>)
    requires capacity >= 2
    ensures Inv(Run(Init<T>(capacity), schedule))
    decreases |schedule|
  {
    if schedule == [] {
      InitInv<T>(capacity);
    } else {
      RunInv(capacity, schedule[..|schedule| - 1]);
      NextKeepsInv(Run(Init<T>(capacity), schedule[..|schedule| - 1]), schedule[|schedule| - 1]);
    }
  }
}
