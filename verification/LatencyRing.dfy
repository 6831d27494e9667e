/** The latency recorder: one writer stamps records into a power-of-two ring, and a reader
    recovers from the ring's slots the records in the order they were written. */
module LatencyRing {
  import opened Bits

  const SEQ_SPAN: nat := 0x1_0000_0000_0000
  const CPU_SPAN: nat := 0x100

  /** A record in the ring; a zero stamp marks a slot never written. */
  datatype Rec = Rec(sc: int, aux: int, aux2: int, t: int)

  const BLANK: Rec := Rec(0, 0, 0, 0)

  /** A record as the reader reports it. */
  datatype Record = Record(number: int, cpu: int, stage: int, t: int, aux: int, aux2: int)

  // ------------------------------------------------------------------------ packing

  /** Sequence number, cpu and stage in one word: 48, 8 and 8 bits, lowest first. */
  function Pack(number: nat, cpu: nat, stage: nat): nat {
    number % SEQ_SPAN + (cpu % CPU_SPAN) * SEQ_SPAN + stage * (CPU_SPAN * SEQ_SPAN)
  }

  function Unpack(r: Rec): Record {
    Record(r.sc % SEQ_SPAN, r.sc / SEQ_SPAN % CPU_SPAN, r.sc / (CPU_SPAN * SEQ_SPAN), r.t, r.aux, r.aux2)
  }

  /** The stage survives packing, the sequence number modulo 2^48 and the cpu modulo 256. */
  lemma PackRoundTrip(number: nat, cpu: nat, stage: nat, t: nat, aux: nat, aux2: nat)
    ensures Unpack(Rec(Pack(number, cpu, stage), aux, aux2, t)) ==
            Record(number % SEQ_SPAN, cpu % CPU_SPAN, stage, t, aux, aux2)
    ensures Pack(1, 0, 0) == 1 && Pack(0, 1, 0) == 0x1_0000_0000_0000 && Pack(0, 0, 1) == 0x100_0000_0000_0000
  {
    var sc := Pack(number, cpu, stage);
    assert sc / SEQ_SPAN == cpu % CPU_SPAN + stage * CPU_SPAN;
  }

  // ------------------------------------------------------------------- what the slots hold

  /** The slots after the records of `log` were written, each into the slot its number selects. */
  function Slots(log: seq<Rec>, entries: nat): (s: seq<Rec>)
    requires entries > 0
    ensures |s| == entries
  {
    if log == [] then seq(entries, _ => BLANK)
    else
      var m := |log| - 1;
      Slots(log[..m], entries)[SlotOf(m, entries) := log[m]]
  }

  lemma WriteOne(log: seq<Rec>, r: Rec, entries: nat)
    requires entries > 0
    ensures Slots(log + [r], entries) == Slots(log, entries)[SlotOf(|log|, entries) := r]
  {
    assert (log + [r])[..|log|] == log;
  }

  /** A ring that is not yet full: the records so far, then blanks. */
  ghost predicate IsPartial(slots: seq<Rec>, log: seq<Rec>) {
    && |log| <= |slots|
    && (forall i :: 0 <= i < |log| ==> slots[i] == log[i])
    && (forall i :: |log| <= i < |slots| ==> slots[i] == BLANK)
  }

  /** A full ring whose newest lap has `h` records: these first, behind them what is left of the
      lap before. */
  ghost predicate IsLaps(slots: seq<Rec>, log: seq<Rec>, h: nat) {
    && h < |slots| <= |log|
    && (forall k :: 0 <= k < h ==> slots[k] == log[|log| - h + k])
    && (forall k :: h <= k < |slots| ==> slots[k] == log[|log| - |slots| + k - h])
  }

  lemma {:induction false} PartialRing(log: seq<Rec>, entries: nat)
    requires entries > 0 && |log| <= entries
    ensures IsPartial(Slots(log, entries), log)
    decreases |log|
  {
    if log != [] {
      PartialRing(log[..|log| - 1], entries);
    }
  }

  lemma {:induction false} FullRing(log: seq<Rec>, entries: nat)
    requires 0 < entries <= |log|
    ensures IsLaps(Slots(log, entries), log, SlotOf(|log|, entries))
    decreases |log|
  {
    if |log| == entries {
      PartialRing(log, entries);
      FirstLap(Slots(log, entries), log);
    } else {
      var m := |log| - 1;
      FullRing(log[..m], entries);
      SlotAdvances(m, entries);
      LapStep(Slots(log[..m], entries), log, SlotOf(m, entries));
    }
  }

  lemma FirstLap(slots: seq<Rec>, log: seq<Rec>)
    requires IsPartial(slots, log) && |slots| == |log| > 0
    ensures IsLaps(slots, log, 0) && SlotOf(|log|, |slots|) == 0
  {
  }

  lemma LapStep(slots: seq<Rec>, log: seq<Rec>, h: nat)
    requires log != [] && IsLaps(slots, log[..|log| - 1], h)
    ensures IsLaps(slots[h := log[|log| - 1]], log, if h + 1 == |slots| then 0 else h + 1)
  {
  }

  // --------------------------------------------------------------------------- the writer

  class Ring {
    const entries: nat
    const mask: nat
    const recs: array<Rec>
    var enabled: bool
    var idx: nat
    var recCount: nat
    ghost var log: seq<Rec>

    ghost predicate Valid()
      reads this, recs
    {
      && IsPowerOfTwo(entries) && mask == entries - 1 && recs.Length == entries
      && idx == |log| && recs[..] == Slots(log, entries)
    }

    constructor (entries: nat)
      requires IsPowerOfTwo(entries)
      ensures Valid() && enabled && log == [] && this.entries == entries && fresh(recs)
    {
      this.entries, mask, enabled, idx, recCount, log := entries, entries - 1, true, 0, 0, [];
      recs := new Rec[entries](_ => BLANK);
      new;
    }

    /** Writes one record, over the oldest one once the ring is full.  A zero stamp means the
        caller took none. */
    method StampAt(number: nat, cpu: nat, stage: nat, aux: nat, aux2: nat, t: nat, now: nat)
      requires Valid()
      modifies this`idx, this`log, recs
      ensures Valid()
      ensures log == if enabled then old(log) + [Rec(Pack(number, cpu, stage), aux, aux2, if t == 0 then now else t)]
                     else old(log)
    {
      if !enabled {
        return;
      }
      var i := idx;
      idx := idx + 1;
      MaskIsSlot(i, entries);
      var r := Rec(Pack(number, cpu, stage), aux, aux2, if t == 0 then now else t);
      WriteOne(log, r, entries);
      recs[And(i, mask)] := r;
      log := log + [r];
    }

    /** Publishes how many records have been written. */
    method Heartbeat()
      requires Valid()
      modifies this`recCount
      ensures Valid() && recCount == if enabled then |log| else old(recCount)
    {
      if enabled {
        recCount := idx;
      }
    }
  }

  // --------------------------------------------------------------------------- the reader

  /** The written ones among the first n slots. */
  function Written(slots: seq<Rec>, n: nat): seq<Rec>
    requires n <= |slots|
  {
    if n == 0 then []
    else
      var before := Written(slots, n - 1);
      if slots[n - 1].t != 0 then before + [slots[n - 1]] else before
  }

  function UnpackAll(rs: seq<Rec>): (out: seq<Record>)
    ensures |out| == |rs|
  {
    if rs == [] then [] else UnpackAll(rs[..|rs| - 1]) + [Unpack(rs[|rs| - 1])]
  }

  function Stamps(rs: seq<Rec>): (ts: seq<int>)
    ensures |ts| == |rs| && forall i :: 0 <= i < |rs| ==> ts[i] == rs[i].t
  {
    seq(|rs|, i requires 0 <= i < |rs| => rs[i].t)
  }

  predicate Descends(ts: seq<int>, i: nat) {
    1 <= i < |ts| && ts[i] < ts[i - 1]
  }

  /** The positions below n where a stamp is below the one before it. */
  function Descents(ts: seq<int>, n: nat): (ds: seq<nat>)
    requires n <= |ts|
    ensures forall k :: 0 <= k < |ds| ==> ds[k] < n
  {
    if n == 0 then [] else Descents(ts, n - 1) + if Descends(ts, n - 1) then [n - 1] else []
  }

  /** What is rotated where the stamps descend, if they do so exactly once. */
  function Restored(rs: seq<Rec>): (out: seq<Rec>)
    ensures |out| == |rs|
  {
    var ds := Descents(Stamps(rs), |rs|);
    if |ds| == 1 then rs[ds[0]..] + rs[..ds[0]] else rs
  }

  /** What reading a ring's slots reports. */
  datatype Reading = Reading(records: seq<Record>, wrapped: bool, descents: nat)

  function Read(slots: seq<Rec>): Reading {
    var rs := Written(slots, |slots|);
    var ds := Descents(Stamps(rs), |rs|);
    Reading(UnpackAll(Restored(rs)), |ds| == 1, |ds|)
  }

  method ReadRing(slots: seq<Rec>) returns (reading: Reading)
    ensures reading == Read(slots)
  {
    var recs := Collect(slots);
    ghost var rs := Written(slots, |slots|);
    var descents := FindDescents(recs, Stamps(rs));
    var wrapped := false;
    if |descents| == 1 {
      var cut := descents[0];
      UnpackSplit(rs, cut);
      UnpackConcat(rs[cut..], rs[..cut]);
      recs := recs[cut..] + recs[..cut];
      wrapped := true;
    }
    reading := Reading(recs, wrapped, |descents|);
  }

  method FindDescents(recs: seq<Record>, ghost ts: seq<int>) returns (descents: seq<int>)
    requires |ts| == |recs| && forall i :: 0 <= i < |recs| ==> recs[i].t == ts[i]
    ensures descents == Descents(ts, |ts|)
  {
    descents := [];
    if recs == [] {
      return;
    }
    var i := 1;
    while i < |recs|
      invariant 1 <= i <= |recs| && descents == Descents(ts, i)
    {
      if recs[i].t < recs[i - 1].t {
        descents := descents + [i];
      }
      i := i + 1;
    }
  }

  /** The filter over the slots, unpacking what it keeps. */
  method Collect(slots: seq<Rec>) returns (recs: seq<Record>)
    ensures recs == UnpackAll(Written(slots, |slots|))
    ensures |recs| == |Written(slots, |slots|)| && forall i :: 0 <= i < |recs| ==> recs[i].t == Written(slots, |slots|)[i].t
  {
    recs := [];
    ghost var kept: seq<Rec> := [];
    for i := 0 to |slots|
      invariant kept == Written(slots, i) && recs == UnpackAll(kept)
      invariant forall k :: 0 <= k < |recs| ==> recs[k].t == kept[k].t
    {
      if slots[i].t != 0 {
        UnpackOneMore(kept, slots[i]);
        recs := recs + [Unpack(slots[i])];
        kept := kept + [slots[i]];
      }
    }
  }

  lemma UnpackOneMore(rs: seq<Rec>, r: Rec)
    ensures UnpackAll(rs + [r]) == UnpackAll(rs) + [Unpack(r)]
  {
    assert (rs + [r])[..|rs|] == rs;
  }

  lemma {:induction false} UnpackConcat(a: seq<Rec>, b: seq<Rec>)
    ensures UnpackAll(a + b) == UnpackAll(a) + UnpackAll(b)
  {
    if b == [] {
      assert a + b == a;
    } else {
      var n := |b| - 1;
      UnpackConcat(a, b[..n]);
      UnpackOneMore(a + b[..n], b[n]);
      assert a + b == a + b[..n] + [b[n]];
    }
  }

  lemma UnpackSplit(rs: seq<Rec>, cut: nat)
    requires cut <= |rs|
    ensures UnpackAll(rs)[..cut] == UnpackAll(rs[..cut]) && UnpackAll(rs)[cut..] == UnpackAll(rs[cut..])
  {
    UnpackConcat(rs[..cut], rs[cut..]);
    assert rs == rs[..cut] + rs[cut..];
  }

  /** How many records the ring has dropped, as the reader computes it. */
  function LostRecords(recCount: nat, entries: nat): int {
    if recCount - entries > 0 then recCount - entries else 0
  }

  // --------------------------------------------------------------------------- theorems

  /** One writer's records: stamped, in time order. */
  ghost predicate InOrder(log: seq<Rec>) {
    && (forall i :: 0 <= i < |log| ==> log[i].t > 0)
    && (forall i, j :: 0 <= i <= j < |log| ==> log[i].t <= log[j].t)
  }

  /** The records the ring still holds, in the order they were written. */
  function Kept(log: seq<Rec>, entries: nat): seq<Rec> {
    if |log| <= entries then log else log[|log| - entries..]
  }

  /** Whether the ring's start does not hold its oldest record. */
  predicate Offset(log: seq<Rec>, entries: nat)
    requires entries > 0
  {
    |log| > entries && SlotOf(|log|, entries) != 0
  }

  lemma {:induction false} WrittenFirst(slots: seq<Rec>, m: nat, n: nat)
    requires m <= |slots| && n <= |slots|
    requires forall i :: 0 <= i < m ==> slots[i].t > 0
    requires forall i :: m <= i < |slots| ==> slots[i].t == 0
    ensures Written(slots, n) == if n <= m then slots[..n] else slots[..m]
  {
    if n > 0 {
      WrittenFirst(slots, m, n - 1);
    }
  }

  /** The slots the reader takes: those of all records written and not overwritten. */
  lemma WrittenSlots(log: seq<Rec>, entries: nat)
    requires entries > 0 && InOrder(log)
    ensures Written(Slots(log, entries), entries) == if |log| < entries then log else Slots(log, entries)
  {
    var slots := Slots(log, entries);
    if |log| < entries {
      PartialRing(log, entries);
      WrittenFirst(slots, |log|, entries);
      assert slots[..|log|] == log;
    } else {
      FullRing(log, entries);
      LapsStamped(slots, log, SlotOf(|log|, entries));
      WrittenFirst(slots, entries, entries);
    }
  }

  lemma LapsStamped(slots: seq<Rec>, log: seq<Rec>, h: nat)
    requires IsLaps(slots, log, h) && InOrder(log)
    ensures forall i :: 0 <= i < |slots| ==> slots[i].t > 0
  {
  }

  lemma {:induction false} OnlyDescent(ts: seq<int>, n: nat, h: nat)
    requires n <= |ts| && forall k: nat :: k != h ==> !Descends(ts, k)
    ensures Descents(ts, n) == if h < n && Descends(ts, h) then [h] else []
  {
    if n > 0 {
      OnlyDescent(ts, n - 1, h);
    }
  }

  /** In a full ring the stamps can descend only where the newest lap ends. */
  lemma LapsDescendOnce(slots: seq<Rec>, log: seq<Rec>, h: nat)
    requires IsLaps(slots, log, h) && InOrder(log)
    ensures forall k: nat :: k != h ==> !Descends(Stamps(slots), k)
    ensures Descends(Stamps(slots), h) <==> h > 0 && log[|log| - |slots|].t < log[|log| - 1].t
  {
  }

  /** Whether the oldest record kept has an earlier stamp than the newest. */
  predicate Spans(log: seq<Rec>, entries: nat)
    requires entries > 0 && Offset(log, entries)
  {
    log[|log| - entries].t < log[|log| - 1].t
  }

  lemma NoDescentInOrder(rs: seq<Rec>)
    requires InOrder(rs)
    ensures Descents(Stamps(rs), |rs|) == []
  {
    var ts := Stamps(rs);
    forall k: nat ensures !Descends(ts, k) {
      if 1 <= k < |rs| { assert rs[k - 1].t <= rs[k].t; }
    }
    OnlyDescent(ts, |rs|, 0);
  }

  /** A full ring shows one descent, where its newest lap ends, or none. */
  lemma LapsDescents(slots: seq<Rec>, log: seq<Rec>, h: nat)
    requires IsLaps(slots, log, h) && InOrder(log)
    ensures Descents(Stamps(slots), |slots|) ==
            if h > 0 && log[|log| - |slots|].t < log[|log| - 1].t then [h] else []
  {
    LapsDescendOnce(slots, log, h);
    OnlyDescent(Stamps(slots), |slots|, h);
  }

  lemma WrappedFull(slots: seq<Rec>, log: seq<Rec>, h: nat)
    requires IsLaps(slots, log, h) && InOrder(log) && h == SlotOf(|log|, |slots|)
    ensures Descents(Stamps(slots), |slots|) ==
            if Offset(log, |slots|) && Spans(log, |slots|) then [h] else []
  {
    LapsDescents(slots, log, h);
    if |log| == |slots| {
      assert SlotOf(|log|, |slots|) == SlotOf(0, |slots|);
    }
  }

  /** What the reader makes of a ring written in time order: it sees a wrap exactly when the
      ring is offset and its stamps span some time. */
  lemma WrappedExactly(log: seq<Rec>, entries: nat)
    requires entries > 0 && InOrder(log)
    ensures var rs := Written(Slots(log, entries), entries);
            Descents(Stamps(rs), |rs|) ==
              if Offset(log, entries) && Spans(log, entries) then [SlotOf(|log|, entries)] else []
  {
    WrittenSlots(log, entries);
    if |log| < entries {
      NoDescentInOrder(log);
    } else {
      FullRing(log, entries);
      WrappedFull(Slots(log, entries), log, SlotOf(|log|, entries));
    }
  }

  lemma Rotation(slots: seq<Rec>, log: seq<Rec>, h: nat)
    requires IsLaps(slots, log, h)
    ensures slots[h..] + slots[..h] == log[|log| - |slots|..]
    ensures h == 0 ==> slots == log[|log| - |slots|..]
  {
  }

  lemma FullRingRotates(log: seq<Rec>, entries: nat)
    requires 0 < entries <= |log|
    ensures var h, slots := SlotOf(|log|, entries), Slots(log, entries);
            && slots[h..] + slots[..h] == log[|log| - entries..]
            && (h == 0 ==> slots == log[|log| - entries..])
            && slots[0] == log[if h == 0 then |log| - entries else |log| - h]
  {
    FullRing(log, entries);
    Rotation(Slots(log, entries), log, SlotOf(|log|, entries));
  }

  /** Ring recovery.  The reader restores the last min(m, N) records to the order they were
      written in if the ring has not wrapped, or wrapped a whole number of times, or its oldest
      kept stamp is below its newest. */
  lemma Recovers(log: seq<Rec>, entries: nat)
    requires entries > 0 && InOrder(log) && (Offset(log, entries) ==> Spans(log, entries))
    ensures Restored(Written(Slots(log, entries), entries)) == Kept(log, entries)
  {
    WrappedExactly(log, entries);
    WrittenSlots(log, entries);
    if |log| >= entries {
      FullRingRotates(log, entries);
    }
  }

  lemma ReportsInOrder(log: seq<Rec>, entries: nat)
    requires entries > 0 && InOrder(log) && (Offset(log, entries) ==> Spans(log, entries))
    ensures Read(Slots(log, entries)).records == UnpackAll(Kept(log, entries))
  {
    var rs := Restored(Written(Slots(log, entries), entries));
    assert Read(Slots(log, entries)).records == UnpackAll(rs);
    Recovers(log, entries);
  }

  /** Where the record in slot k of a full ring stands in the log. */
  function Origin(m: int, n: int, h: int, k: int): int {
    if k < h then m - h + k else m - n + k - h
  }

  /** Whether a ring of n slots, read from the first one on, looks as if nothing had been moved. */
  ghost predicate Unmoved(log: seq<Rec>, n: nat, h: nat)
    requires h < n <= |log|
  {
    forall k :: 0 <= k < n ==> log[Origin(|log|, n, h, k)] == log[|log| - n + k]
  }

  /** An offset ring whose order would not show, which takes records that repeat. */
  ghost predicate Repetitive(log: seq<Rec>, entries: nat)
    requires entries > 0 && Offset(log, entries)
  {
    Unmoved(log, entries, SlotOf(|log|, entries))
  }

  lemma UnmovedExactly(slots: seq<Rec>, log: seq<Rec>, n: nat, h: nat)
    requires IsLaps(slots, log, h) && |slots| == n
    ensures slots == log[|log| - n..] <==> Unmoved(log, n, h)
  {
    var kept := log[|log| - n..];
    forall k | 0 <= k < n
      ensures slots[k] == log[Origin(|log|, n, h, k)] && kept[k] == log[|log| - n + k]
    {
    }
  }

  lemma RepetitiveExactly(log: seq<Rec>, entries: nat)
    requires entries > 0 && Offset(log, entries)
    ensures Slots(log, entries) == log[|log| - entries..] <==> Repetitive(log, entries)
  {
    FullRing(log, entries);
    UnmovedExactly(Slots(log, entries), log, entries, SlotOf(|log|, entries));
  }

  /** Without a descent the reader leaves the slots as they lie. */
  lemma LeftAsTheyLie(log: seq<Rec>, entries: nat)
    requires entries > 0 && InOrder(log) && Offset(log, entries) && !Spans(log, entries)
    ensures Restored(Written(Slots(log, entries), entries)) == Slots(log, entries)
  {
    WrappedExactly(log, entries);
    WrittenSlots(log, entries);
  }

  /** And it restores the order only then, repetitive records apart: exactly when the ring is not
      offset, or its stamps span some time, or no order would show. */
  lemma RecoveryExactly(log: seq<Rec>, entries: nat)
    requires entries > 0 && InOrder(log)
    ensures Restored(Written(Slots(log, entries), entries)) == Kept(log, entries)
            <==> (Offset(log, entries) ==> Spans(log, entries) || Repetitive(log, entries))
  {
    if Offset(log, entries) && !Spans(log, entries) {
      LeftAsTheyLie(log, entries);
      RepetitiveExactly(log, entries);
    } else {
      Recovers(log, entries);
    }
  }

  /** The lost records are counted right, but the `wrapped` flag is no test for them: it is set
      only if some are lost, and misses exactly the rings that lost whole laps or whose kept
      stamps are all equal. */
  lemma WrappedFlag(log: seq<Rec>, entries: nat)
    requires entries > 0 && InOrder(log)
    ensures LostRecords(|log|, entries) == |log| - |Kept(log, entries)|
    ensures Read(Slots(log, entries)).wrapped ==> LostRecords(|log|, entries) > 0
    ensures LostRecords(|log|, entries) > 0 && !Read(Slots(log, entries)).wrapped <==>
              |log| > entries && (SlotOf(|log|, entries) == 0 || log[|log| - entries].t == log[|log| - 1].t)
  {
    WrappedExactly(log, entries);
  }
}
