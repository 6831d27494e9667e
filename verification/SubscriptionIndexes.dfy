/** The five indexes in which the manager keeps the relation, and why together they always
    describe exactly one relation. */
module SubscriptionIndexes {
  import opened Options
  import opened SubscriptionSpec

  /** `registered` with its registration entries, dApp -> functions, function -> dApps, id ->
      pair, packed pair -> id, packed pair -> details, and the callbacks made so far. */
  datatype Indexes = Indexes(
    registered: set<nat>,
    dappSubs: map<nat, set<nat>>,
    rfSubs: map<nat, set<nat>>,
    subIds: map<nat, Pair>,
    subRev: map<nat, nat>,
    details: map<nat, Details>,
    events: seq<Event>)

  // -------------------------------------------------------------------- packed keys

  /** dApp in the upper 32 bits, RAN function in the lower 32. */
  function Key(d: nat, r: nat): nat {
    d * U32 + r
  }

  function DappOf(k: nat): nat { k / U32 }

  function RfOf(k: nat): nat { k % U32 }

  /** Packing and unpacking are inverse, both ways. */
  lemma KeyRoundTrip(d: nat, r: nat, k: nat)
    requires d < U32 && r < U32
    ensures DappOf(Key(d, r)) == d && RfOf(Key(d, r)) == r && Key(d, r) < U32 * U32
    ensures Key(DappOf(k), RfOf(k)) == k && RfOf(k) < U32
  {
  }

  // ---------------------------------------------------------------------- coherence

  function GetSet(m: map<nat, set<nat>>, k: nat): set<nat> {
    if k in m then m[k] else {}
  }

  predicate Holds(ix: Indexes, d: nat, r: nat) {
    r in GetSet(ix.dappSubs, d)
  }

  predicate Serves(ix: Indexes, d: nat, r: nat) {
    d in GetSet(ix.rfSubs, r)
  }

  /** All five indexes agree about the pair (d, r). */
  ghost predicate Linked(ix: Indexes, d: nat, r: nat) {
    var k := Key(d, r);
    && (Holds(ix, d, r) <==> Serves(ix, d, r))
    && (Holds(ix, d, r) <==> k in ix.subRev)
    && (Holds(ix, d, r) <==> k in ix.details)
    && (Holds(ix, d, r) ==> ix.subRev[k] in ix.subIds && ix.subIds[ix.subRev[k]] == (d, r))
  }

  /** An id in use is the id of the pair it maps to. */
  ghost predicate IdLinked(ix: Indexes, i: nat) {
    i in ix.subIds ==>
      var (d, r) := ix.subIds[i];
      r < U32 && Key(d, r) in ix.subRev && ix.subRev[Key(d, r)] == i
  }

  ghost predicate Coherent(ix: Indexes) {
    && ix.dappSubs.Keys == ix.registered
    && (forall d: nat, r: nat :: Holds(ix, d, r) ==> r < U32)
    && (forall d: nat, r: nat :: Serves(ix, d, r) ==> r < U32)
    && (forall d: nat, r: nat :: r < U32 ==> Linked(ix, d, r))
    && (forall i: nat :: IdLinked(ix, i))
  }

  ghost function Pairs(ix: Indexes): set<Pair> {
    set d, r | d in ix.dappSubs && r in ix.dappSubs[d] :: (d, r)
  }

  lemma PairsHold(ix: Indexes)
    ensures forall d: nat, r: nat :: (d, r) in Pairs(ix) <==> Holds(ix, d, r)
  {
  }

  ghost predicate KeysPresent(ix: Indexes) {
    forall p :: p in Pairs(ix) ==> Key(p.0, p.1) in ix.subRev && Key(p.0, p.1) in ix.details
  }

  lemma CoherentKeys(ix: Indexes)
    requires Coherent(ix)
    ensures KeysPresent(ix)
  {
    forall p | p in Pairs(ix) ensures Key(p.0, p.1) in ix.subRev && Key(p.0, p.1) in ix.details {
      assert Holds(ix, p.0, p.1);
      assert Linked(ix, p.0, p.1);
    }
  }

  /** The relation the indexes stand for. */
  ghost function Relation(ix: Indexes): (m: map<Pair, Entry>)
    requires Coherent(ix)
    ensures m.Keys == Pairs(ix)
  {
    CoherentKeys(ix);
    map p | p in Pairs(ix) :: Entry(ix.subRev[Key(p.0, p.1)], ix.details[Key(p.0, p.1)])
  }

  ghost function Abs(ix: Indexes): Spec
    requires Coherent(ix)
  {
    Spec(ix.registered, Relation(ix), ix.events)
  }

  /** Each index, read its own way, is the relation: by dApp, by packed key, and the id and
      details stored under the key are the entry's. */
  lemma RelationAt(ix: Indexes, d: nat, r: nat)
    requires Coherent(ix) && r < U32
    ensures (d, r) in Relation(ix) <==> Holds(ix, d, r)
    ensures (d, r) in Relation(ix) <==> Key(d, r) in ix.details
    ensures (d, r) in Relation(ix) <==> Key(d, r) in ix.subRev
    ensures (d, r) in Relation(ix) ==> Relation(ix)[(d, r)] == Entry(ix.subRev[Key(d, r)], ix.details[Key(d, r)])
  {
    PairsHold(ix);
    assert Linked(ix, d, r);
  }

  /** The index by RAN function is the relation's subscriber sets. */
  lemma RfIndexIsSubscribers(ix: Indexes, r: nat)
    requires Coherent(ix)
    ensures Subscribers(Relation(ix), r) == GetSet(ix.rfSubs, r)
  {
    PairsHold(ix);
    forall d | d in Subscribers(Relation(ix), r) ensures d in GetSet(ix.rfSubs, r) {
      assert Linked(ix, d, r);
    }
    forall d | d in GetSet(ix.rfSubs, r) ensures d in Subscribers(Relation(ix), r) {
      assert Serves(ix, d, r);
      assert Linked(ix, d, r);
      assert (d, r) in Relation(ix);
    }
  }

  /** The index by id is the relation read by id. */
  lemma IdIndexIsOwnership(ix: Indexes, i: nat, d: nat, r: nat)
    requires Coherent(ix)
    ensures i in ix.subIds && ix.subIds[i] == (d, r) <==> Owns(Abs(ix), d, r, i)
  {
    PairsHold(ix);
    if i in ix.subIds && ix.subIds[i] == (d, r) {
      assert IdLinked(ix, i);
      RelationAt(ix, d, r);
    }
    if Owns(Abs(ix), d, r, i) {
      assert Linked(ix, d, r);
    }
  }

  lemma IdIndexIsIds(ix: Indexes)
    requires Coherent(ix)
    ensures Ids(Relation(ix)) == ix.subIds.Keys
  {
    forall i: nat | i in ix.subIds ensures i in Ids(Relation(ix)) {
      var p := ix.subIds[i];
      IdIndexIsOwnership(ix, i, p.0, p.1);
    }
    forall i | i in Ids(Relation(ix)) ensures i in ix.subIds {
      var p :| p in Relation(ix) && Relation(ix)[p].id == i;
      IdIndexIsOwnership(ix, i, p.0, p.1);
    }
  }

  // ----------------------------------------------------------- inserting and erasing

  lemma KeysDiffer(d: nat, r: nat, d': nat, r': nat)
    requires r < U32 && r' < U32 && (d, r) != (d', r')
    ensures Key(d, r) != Key(d', r')
  {
  }

  function Inserted(ix: Indexes, d: nat, r: nat, id: nat, details: Details): Indexes {
    ix.(dappSubs := ix.dappSubs[d := GetSet(ix.dappSubs, d) + {r}],
        rfSubs := ix.rfSubs[r := GetSet(ix.rfSubs, r) + {d}],
        subIds := ix.subIds[id := (d, r)],
        subRev := ix.subRev[Key(d, r) := id],
        details := ix.details[Key(d, r) := details])
  }

  lemma InsertedLinks(ix: Indexes, d: nat, r: nat, id: nat, details: Details, d': nat, r': nat)
    requires Linked(ix, d', r') && r < U32 && r' < U32 && id !in ix.subIds
    ensures Linked(Inserted(ix, d, r, id, details), d', r')
  {
    if (d, r) != (d', r') { KeysDiffer(d, r, d', r'); }
  }

  lemma InsertedIdLinks(ix: Indexes, d: nat, r: nat, id: nat, details: Details, i: nat)
    requires r < U32 && Key(d, r) !in ix.subRev
    requires i == id || IdLinked(ix, i)
    ensures IdLinked(Inserted(ix, d, r, id, details), i)
  {
  }

  lemma InsertCoherent(ix: Indexes, d: nat, r: nat, id: nat, details: Details)
    requires Coherent(ix) && d in ix.registered && r < U32
    requires !Holds(ix, d, r) && id !in ix.subIds
    ensures Coherent(Inserted(ix, d, r, id, details))
  {
    var ix' := Inserted(ix, d, r, id, details);
    assert Linked(ix, d, r);
    forall d': nat, r': nat | r' < U32 ensures Linked(ix', d', r') {
      assert Linked(ix, d', r');
      InsertedLinks(ix, d, r, id, details, d', r');
    }
    forall i: nat ensures IdLinked(ix', i) {
      assert IdLinked(ix, i);
      InsertedIdLinks(ix, d, r, id, details, i);
    }
    forall d': nat, r': nat | Holds(ix', d', r') ensures r' < U32 {
      assert Holds(ix, d', r') || r' == r;
    }
    forall d': nat, r': nat | Serves(ix', d', r') ensures r' < U32 {
      assert Serves(ix, d', r') || r' == r;
    }
  }

  lemma InsertedPairs(ix: Indexes, d: nat, r: nat, id: nat, details: Details)
    ensures Pairs(Inserted(ix, d, r, id, details)) == Pairs(ix) + {(d, r)}
  {
    var ix' := Inserted(ix, d, r, id, details);
    PairsHold(ix);
    PairsHold(ix');
    assert forall d': nat, r': nat :: Holds(ix', d', r') <==> Holds(ix, d', r') || (d', r') == (d, r);
  }

  /** Two coherent states with the same rows under a key have the same entry there. */
  lemma SameEntry(ix: Indexes, ix': Indexes, d: nat, r: nat)
    requires Coherent(ix) && Coherent(ix') && Holds(ix, d, r) && Holds(ix', d, r)
    requires var k := Key(d, r);
             && (k in ix.subRev && k in ix'.subRev ==> ix.subRev[k] == ix'.subRev[k])
             && (k in ix.details && k in ix'.details ==> ix.details[k] == ix'.details[k])
    ensures (d, r) in Relation(ix) && (d, r) in Relation(ix') && Relation(ix)[(d, r)] == Relation(ix')[(d, r)]
  {
    assert r < U32;
    RelationAt(ix, d, r);
    RelationAt(ix', d, r);
  }

  lemma InsertedEntry(ix: Indexes, d: nat, r: nat, id: nat, details: Details, d': nat, r': nat)
    requires Coherent(ix) && Coherent(Inserted(ix, d, r, id, details)) && r < U32
    requires Holds(ix, d', r') && (d, r) != (d', r')
    ensures var ix' := Inserted(ix, d, r, id, details);
            (d', r') in Relation(ix) && (d', r') in Relation(ix') && Relation(ix')[(d', r')] == Relation(ix)[(d', r')]
  {
    KeysDiffer(d, r, d', r');
    SameEntry(ix, Inserted(ix, d, r, id, details), d', r');
  }

  lemma InsertRelation(ix: Indexes, d: nat, r: nat, id: nat, details: Details)
    requires Coherent(ix) && d in ix.registered && r < U32
    requires !Holds(ix, d, r) && Coherent(Inserted(ix, d, r, id, details))
    ensures Relation(Inserted(ix, d, r, id, details)) == Relation(ix)[(d, r) := Entry(id, details)]
  {
    var ix' := Inserted(ix, d, r, id, details);
    InsertedPairs(ix, d, r, id, details);
    RelationAt(ix', d, r);
    forall p | p in Pairs(ix) ensures Relation(ix')[p] == Relation(ix)[p] {
      assert Holds(ix, p.0, p.1);
      InsertedEntry(ix, d, r, id, details, p.0, p.1);
    }
  }

  function Erased(ix: Indexes, d: nat, r: nat): Indexes
    requires Key(d, r) in ix.subRev
  {
    ix.(dappSubs := ix.dappSubs[d := GetSet(ix.dappSubs, d) - {r}],
        rfSubs := ix.rfSubs[r := GetSet(ix.rfSubs, r) - {d}],
        subIds := ix.subIds - {ix.subRev[Key(d, r)]},
        subRev := ix.subRev - {Key(d, r)},
        details := ix.details - {Key(d, r)})
  }

  lemma ErasedLinks(ix: Indexes, d: nat, r: nat, d': nat, r': nat)
    requires Linked(ix, d, r) && Linked(ix, d', r') && r < U32 && r' < U32 && Holds(ix, d, r)
    ensures Linked(Erased(ix, d, r), d', r')
  {
    if (d, r) != (d', r') {
      KeysDiffer(d, r, d', r');
    }
  }

  lemma ErasedIdLinks(ix: Indexes, d: nat, r: nat, i: nat)
    requires r < U32 && Key(d, r) in ix.subRev
    requires IdLinked(ix, i)
    ensures IdLinked(Erased(ix, d, r), i)
  {
  }

  lemma EraseCoherent(ix: Indexes, d: nat, r: nat)
    requires Coherent(ix) && Holds(ix, d, r)
    ensures Key(d, r) in ix.subRev && Coherent(Erased(ix, d, r))
  {
    assert Linked(ix, d, r);
    var ix' := Erased(ix, d, r);
    forall d': nat, r': nat | r' < U32 ensures Linked(ix', d', r') {
      assert Linked(ix, d', r');
      ErasedLinks(ix, d, r, d', r');
    }
    forall i: nat ensures IdLinked(ix', i) {
      assert IdLinked(ix, i);
      ErasedIdLinks(ix, d, r, i);
    }
    forall d': nat, r': nat | Holds(ix', d', r') ensures r' < U32 {
      assert Holds(ix, d', r');
    }
    forall d': nat, r': nat | Serves(ix', d', r') ensures r' < U32 {
      assert Serves(ix, d', r');
    }
  }

  lemma EraseRelation(ix: Indexes, d: nat, r: nat)
    requires Coherent(ix) && Holds(ix, d, r) && Key(d, r) in ix.subRev && Coherent(Erased(ix, d, r))
    ensures Relation(Erased(ix, d, r)) == Relation(ix) - {(d, r)}
  {
    var ix' := Erased(ix, d, r);
    PairsHold(ix);
    PairsHold(ix');
    assert Pairs(ix') == Pairs(ix) - {(d, r)};
    forall p | p in Pairs(ix') ensures Relation(ix')[p] == Relation(ix)[p] {
      assert Holds(ix, p.0, p.1) && Holds(ix', p.0, p.1);
      SameEntry(ix, ix', p.0, p.1);
    }
  }

  /** Replacing the details of a live key renews that one pair. */
  lemma RenewRelation(ix: Indexes, d: nat, r: nat, details: Details)
    requires Coherent(ix) && Holds(ix, d, r)
    ensures var ix' := ix.(details := ix.details[Key(d, r) := details]);
            && Coherent(ix') && Key(d, r) in ix.subRev
            && Relation(ix') == Relation(ix)[(d, r) := Entry(ix.subRev[Key(d, r)], details)]
  {
    var ix' := ix.(details := ix.details[Key(d, r) := details]);
    assert Linked(ix, d, r);
    forall d': nat, r': nat | r' < U32 ensures Linked(ix', d', r') {
      assert Linked(ix, d', r');
    }
    forall i: nat ensures IdLinked(ix', i) {
      assert IdLinked(ix, i);
    }
    forall d': nat, r': nat | Holds(ix', d', r') ensures r' < U32 {
      assert Holds(ix, d', r');
    }
    forall d': nat, r': nat | Serves(ix', d', r') ensures r' < U32 {
      assert Serves(ix, d', r');
    }
    PairsHold(ix);
    assert Pairs(ix') == Pairs(ix);
    forall p | p in Pairs(ix) && p != (d, r) ensures Relation(ix')[p] == Relation(ix)[p] {
      assert Holds(ix, p.0, p.1);
      KeysDiffer(d, r, p.0, p.1);
    }
  }

  /** Empty sets, the registry and the callback log carry no subscription: states with the same
      rows are equally coherent and stand for the same relation. */
  lemma SameRows(ix: Indexes, ix': Indexes)
    requires Coherent(ix) && ix'.dappSubs.Keys == ix'.registered
    requires forall d: nat :: GetSet(ix'.dappSubs, d) == GetSet(ix.dappSubs, d)
    requires forall r: nat :: GetSet(ix'.rfSubs, r) == GetSet(ix.rfSubs, r)
    requires ix'.subIds == ix.subIds && ix'.subRev == ix.subRev && ix'.details == ix.details
    ensures Coherent(ix') && Relation(ix') == Relation(ix)
  {
    forall d: nat, r: nat | r < U32 ensures Linked(ix', d, r) {
      assert Linked(ix, d, r) && (Holds(ix', d, r) <==> Holds(ix, d, r)) && (Serves(ix', d, r) <==> Serves(ix, d, r));
    }
    forall d: nat, r: nat | Serves(ix', d, r) ensures r < U32 {
      assert Serves(ix, d, r);
    }
    forall i: nat ensures IdLinked(ix', i) {
      assert IdLinked(ix, i);
    }
    forall d: nat, r: nat | Holds(ix', d, r) ensures r < U32 {
      assert Holds(ix, d, r);
    }
    PairsHold(ix);
    PairsHold(ix');
    assert forall d: nat, r: nat :: Holds(ix', d, r) <==> Holds(ix, d, r);
    assert Pairs(ix') == Pairs(ix);
  }
}
