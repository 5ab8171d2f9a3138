/**
 The append-only audit store: history keyed by position, with an event index for
 deduplication and a record index for lookup.
 */
module EventStore {
  import opened Wrappers
  import opened Records
  import opened PositionKeys

  datatype StoreError = InvalidRecord | NotFound | InvalidCursor

  datatype InsertOutcome = Inserted | Duplicate

  datatype BatchOutcome = BatchOutcome(inserted: nat, duplicates: nat)

  /** The store's three maps as one value. */
  datatype Store = Store(
    records: map<PositionKey, AuditRecord>,
    byEvent: map<EventId, RecordId>,
    byRecord: map<RecordId, PositionKey>)

  const EMPTY := Store(map[], map[], map[])

  // ---- What the operations compute ----

  function Put(s: Store, r: AuditRecord): Store {
    Store(s.records[KeyOf(r) := r],
          s.byEvent[r.event.eventId := r.recordId],
          s.byRecord[r.recordId := KeyOf(r)])
  }

  /** First occurrence wins: an event already recorded, or an invalid record, changes nothing. */
  function InsertRecord(s: Store, r: AuditRecord): Store {
    if !r.Valid() || r.event.eventId in s.byEvent then s else Put(s, r)
  }

  function InsertAll(s: Store, rs: seq<AuditRecord>): Store {
    if rs == [] then s else InsertRecord(InsertAll(s, rs[..|rs| - 1]), rs[|rs| - 1])
  }

  function PutAll(s: Store, rs: seq<AuditRecord>): Store {
    if rs == [] then s else Put(PutAll(s, rs[..|rs| - 1]), rs[|rs| - 1])
  }

  /** The records of a batch whose event the store does not hold yet. */
  function Fresh(s: Store, rs: seq<AuditRecord>): (picked: seq<AuditRecord>)
    ensures |picked| <= |rs|
  {
    if rs == [] then []
    else
      var last := rs[|rs| - 1];
      Fresh(s, rs[..|rs| - 1]) + (if last.event.eventId in s.byEvent then [] else [last])
  }

  predicate AllValid(rs: seq<AuditRecord>) {
    forall i :: 0 <= i < |rs| ==> rs[i].Valid()
  }

  predicate DistinctEvents(rs: seq<AuditRecord>) {
    forall i, j :: 0 <= i < j < |rs| ==> rs[i].event.eventId != rs[j].event.eventId
  }

  predicate DistinctRecords(rs: seq<AuditRecord>) {
    forall i, j :: 0 <= i < j < |rs| ==> rs[i].recordId != rs[j].recordId
  }

  /** What the `WriteBatch` constructor accepts. */
  predicate BatchOk(rs: seq<AuditRecord>) {
    AllValid(rs) && DistinctEvents(rs) && DistinctRecords(rs)
  }

  function Get(s: Store, id: RecordId): Result<AuditRecord, StoreError> {
    if id in s.byRecord && s.byRecord[id] in s.records then Ok(s.records[s.byRecord[id]]) else Err(NotFound)
  }

  function GetByEvent(s: Store, id: EventId): Result<Option<AuditRecord>, StoreError> {
    if id in s.byEvent then
      match Get(s, s.byEvent[id])
      case Ok(r) => Ok(Some(r))
      case Err(e) => Err(e)
    else Ok(None)
  }

  // ---- Agreement of the three maps ----

  predicate RecordIndexed(s: Store, k: PositionKey)
    requires k in s.records
  {
    var r := s.records[k];
    && k == KeyOf(r)
    && r.event.eventId in s.byEvent && s.byEvent[r.event.eventId] == r.recordId
    && r.recordId in s.byRecord && s.byRecord[r.recordId] == k
  }

  predicate IdResolves(s: Store, id: RecordId)
    requires id in s.byRecord
  {
    s.byRecord[id] in s.records && s.records[s.byRecord[id]].recordId == id
  }

  predicate EventResolves(s: Store, e: EventId)
    requires e in s.byEvent
  {
    && s.byEvent[e] in s.byRecord
    && s.byRecord[s.byEvent[e]] in s.records
    && s.records[s.byRecord[s.byEvent[e]]].event.eventId == e
  }

  /** Every map entry leads to one record, and every record is reached from both indexes. */
  ghost predicate Coherent(s: Store) {
    && (forall k {:trigger RecordIndexed(s, k)} :: k in s.records ==> RecordIndexed(s, k))
    && (forall id {:trigger IdResolves(s, id)} :: id in s.byRecord ==> IdResolves(s, id))
    && (forall e {:trigger EventResolves(s, e)} :: e in s.byEvent ==> EventResolves(s, e))
  }

  /** The guard a caller can check before inserting: the record is refused, known, or has an unused id. */
  predicate IdAvailable(s: Store, r: AuditRecord) {
    !r.Valid() || r.event.eventId in s.byEvent || r.recordId !in s.byRecord
  }

  lemma PutFreshRecord(s: Store, r: AuditRecord, k: PositionKey)
    requires r.event.eventId !in s.byEvent && r.recordId !in s.byRecord
    requires k == KeyOf(r) || (k in s.records && RecordIndexed(s, k))
    ensures RecordIndexed(Put(s, r), k)
  {
  }

  lemma PutFreshIds(s: Store, r: AuditRecord, id: RecordId, e: EventId)
    requires KeyOf(r) !in s.records && r.event.eventId !in s.byEvent && r.recordId !in s.byRecord
    ensures id in s.byRecord && IdResolves(s, id) ==> IdResolves(Put(s, r), id)
    ensures e in s.byEvent && EventResolves(s, e) ==> EventResolves(Put(s, r), e)
  {
  }

  lemma PutFreshCoherent(s: Store, r: AuditRecord)
    requires Coherent(s) && r.event.eventId !in s.byEvent && r.recordId !in s.byRecord
    ensures KeyOf(r) !in s.records && Coherent(Put(s, r))
  {
    var t := Put(s, r);
    assert KeyOf(r) in s.records ==> RecordIndexed(s, KeyOf(r));
    forall k | k in t.records ensures RecordIndexed(t, k) {
      PutFreshRecord(s, r, k);
    }
    forall id | id in t.byRecord ensures IdResolves(t, id) {
      if id != r.recordId {
        PutFreshIds(s, r, id, "");
      }
    }
    forall e | e in t.byEvent ensures EventResolves(t, e) {
      if e != r.event.eventId {
        PutFreshIds(s, r, "", e);
      }
    }
  }

  /** The record an event leads to is another event's: what a taken record id does to its former holder. */
  predicate Displaced(s: Store, e: EventId) {
    && e in s.byEvent && s.byEvent[e] in s.byRecord && s.byRecord[s.byEvent[e]] in s.records
    && s.records[s.byRecord[s.byEvent[e]]].event.eventId != e
  }

  ghost predicate Broken(s: Store) {
    exists e :: Displaced(s, e)
  }

  lemma PutTakenBreaks(s: Store, r: AuditRecord)
    requires Coherent(s) && r.event.eventId !in s.byEvent && r.recordId in s.byRecord
    ensures Broken(Put(s, r))
  {
    assert IdResolves(s, r.recordId) && RecordIndexed(s, s.byRecord[r.recordId]);
    assert Displaced(Put(s, r), s.records[s.byRecord[r.recordId]].event.eventId);
  }

  lemma BrokenIsIncoherent(s: Store)
    requires Broken(s)
    ensures !Coherent(s)
  {
    var e :| Displaced(s, e);
    assert !EventResolves(s, e);
  }

  /** Nothing a store does later repairs a displaced event. */
  lemma InsertStaysBroken(s: Store, r: AuditRecord)
    requires Broken(s)
    ensures Broken(InsertRecord(s, r))
  {
    var e :| Displaced(s, e);
    assert Displaced(InsertRecord(s, r), e);
  }

  /** An insert keeps the maps in agreement exactly when the record id is not already taken. */
  lemma InsertCoherentIff(s: Store, r: AuditRecord)
    requires Coherent(s)
    ensures Coherent(InsertRecord(s, r)) <==> IdAvailable(s, r)
    ensures Coherent(InsertRecord(s, r)) || Broken(InsertRecord(s, r))
  {
    if r.Valid() && r.event.eventId !in s.byEvent {
      if r.recordId in s.byRecord {
        PutTakenBreaks(s, r);
        BrokenIsIncoherent(Put(s, r));
      } else {
        PutFreshCoherent(s, r);
      }
    }
  }

  /** A coherent store answers a lookup by event with the record of that event. */
  lemma LookupsAgree(s: Store, r: AuditRecord)
    requires Coherent(s)
    ensures (exists k :: k in s.records && s.records[k] == r)
       <==> Get(s, r.recordId) == Ok(r)
    ensures Get(s, r.recordId) == Ok(r) <==> GetByEvent(s, r.event.eventId) == Ok(Some(r))
  {
    if k :| k in s.records && s.records[k] == r {
      assert RecordIndexed(s, k);
    }
    if Get(s, r.recordId) == Ok(r) {
      assert RecordIndexed(s, s.byRecord[r.recordId]);
    }
    if GetByEvent(s, r.event.eventId) == Ok(Some(r)) {
      assert RecordIndexed(s, s.byRecord[s.byEvent[r.event.eventId]]);
    }
  }

  ghost predicate Extends<K, V>(m: map<K, V>, n: map<K, V>) {
    forall k :: k in m ==> k in n && n[k] == m[k]
  }

  /** Nothing recorded is ever changed or removed. */
  ghost predicate Grows(s: Store, t: Store) {
    Extends(s.records, t.records) && Extends(s.byEvent, t.byEvent) && Extends(s.byRecord, t.byRecord)
  }

  /** What a lookup once returned it returns forever. */
  lemma GrowthKeepsLookups(s: Store, t: Store, id: RecordId, e: EventId)
    requires Grows(s, t)
    ensures Get(s, id).Ok? ==> Get(t, id) == Get(s, id)
    ensures GetByEvent(s, e).Ok? && e in s.byEvent ==> GetByEvent(t, e) == GetByEvent(s, e)
  {
  }

  lemma FreshKeyExtends<K, V>(m: map<K, V>, k: K, v: V)
    requires k !in m
    ensures Extends(m, m[k := v]) && |m[k := v]| == |m| + 1
  {
    assert m[k := v].Keys == m.Keys + {k};
  }

  lemma PutFreshGrows(s: Store, r: AuditRecord)
    requires KeyOf(r) !in s.records && r.event.eventId !in s.byEvent && r.recordId !in s.byRecord
    ensures Grows(s, Put(s, r))
    ensures |Put(s, r).records| == |s.records| + 1 && |Put(s, r).byEvent| == |s.byEvent| + 1
  {
    FreshKeyExtends(s.records, KeyOf(r), r);
    FreshKeyExtends(s.byEvent, r.event.eventId, r.recordId);
    FreshKeyExtends(s.byRecord, r.recordId, KeyOf(r));
  }

  lemma InsertGrows(s: Store, r: AuditRecord)
    requires Coherent(s) && IdAvailable(s, r)
    ensures Coherent(InsertRecord(s, r)) && Grows(s, InsertRecord(s, r))
    ensures |InsertRecord(s, r).records| - |s.records| == |InsertRecord(s, r).byEvent| - |s.byEvent|
  {
    if r.event.eventId !in s.byEvent && r.recordId !in s.byRecord {
      PutFreshCoherent(s, r);
      PutFreshGrows(s, r);
    }
  }

  predicate SameIdSameEvent(a: AuditRecord, b: AuditRecord) {
    a.recordId == b.recordId ==> a.event.eventId == b.event.eventId
  }

  /** Record ids stand for events: no two records, stored or offered, share an id but not an event. */
  ghost predicate IdsNameEvents(s: Store, rs: seq<AuditRecord>) {
    && (forall a, b :: a in rs && b in rs ==> SameIdSameEvent(a, b))
    && (forall k, b :: k in s.records && b in rs ==> SameIdSameEvent(s.records[k], b))
  }

  ghost predicate DrawnFrom(s: Store, t: Store, rs: seq<AuditRecord>) {
    forall k :: k in t.records ==> (k in s.records && t.records[k] == s.records[k]) || t.records[k] in rs
  }

  lemma OfferedIdAvailable(s: Store, t: Store, rs: seq<AuditRecord>, r: AuditRecord)
    requires IdsNameEvents(s, rs) && r in rs
    requires Coherent(t) && DrawnFrom(s, t, rs)
    ensures IdAvailable(t, r)
  {
    if r.recordId in t.byRecord {
      assert IdResolves(t, r.recordId);
      var k := t.byRecord[r.recordId];
      assert RecordIndexed(t, k);
      assert SameIdSameEvent(t.records[k], r);
    }
  }

  lemma InsertStaysDrawn(s: Store, t: Store, rs: seq<AuditRecord>, r: AuditRecord)
    requires DrawnFrom(s, t, rs) && r in rs
    ensures DrawnFrom(s, InsertRecord(t, r), rs)
  {
  }

  /** Whatever a store holds after any inserts it held before or was offered. */
  lemma {:induction false} InsertAllIsDrawn(s: Store, rs: seq<AuditRecord>)
    ensures DrawnFrom(s, InsertAll(s, rs), rs)
    ensures forall e :: e in InsertAll(s, rs).byEvent ==> e in s.byEvent || exists r :: r in rs && r.event.eventId == e
  {
    if rs != [] {
      InsertAllIsDrawn(s, rs[..|rs| - 1]);
      assert rs == rs[..|rs| - 1] + [rs[|rs| - 1]];
      assert rs[|rs| - 1] in rs;
    }
  }

  /** Each record was refused, known or under an unused id at the moment it was offered. */
  predicate AllAvailable(s: Store, rs: seq<AuditRecord>) {
    rs != [] ==>
      var init, last := rs[..|rs| - 1], rs[|rs| - 1];
      AllAvailable(s, init) && IdAvailable(InsertAll(s, init), last)
  }

  /**
   Over any sequence of inserts the maps are in agreement exactly when no record took an id already in
   use; nothing stored has then changed, and history and event index have grown alike.
   */
  lemma {:induction false} InsertAllKeepsHistory(s: Store, rs: seq<AuditRecord>)
    requires Coherent(s)
    ensures Coherent(InsertAll(s, rs)) <==> AllAvailable(s, rs)
    ensures Coherent(InsertAll(s, rs)) || Broken(InsertAll(s, rs))
    ensures AllAvailable(s, rs) ==>
      && Grows(s, InsertAll(s, rs))
      && |InsertAll(s, rs).records| - |s.records| == |InsertAll(s, rs).byEvent| - |s.byEvent|
  {
    hide InsertRecord, Coherent, Broken, IdAvailable, Grows;
    if rs == [] {
      GrowsReflexive(s);
    } else {
      var init, last := rs[..|rs| - 1], rs[|rs| - 1];
      InsertAllKeepsHistory(s, init);
      var t := InsertAll(s, init);
      if AllAvailable(s, init) {
        InsertCoherentIff(t, last);
        if IdAvailable(t, last) {
          InsertGrows(t, last);
          GrowsTransitive(s, t, InsertRecord(t, last));
        }
      } else {
        InsertStaysBroken(t, last);
        BrokenIsIncoherent(InsertRecord(t, last));
      }
    }
  }

  /** Ids derived from events are always available. */
  lemma {:induction false} DerivedIdsAreAvailable(s: Store, rs: seq<AuditRecord>, offered: seq<AuditRecord>)
    requires Coherent(s) && IdsNameEvents(s, offered)
    requires forall r :: r in rs ==> r in offered
    ensures AllAvailable(s, rs) && DrawnFrom(s, InsertAll(s, rs), offered)
  {
    hide InsertRecord, Coherent, IdAvailable, IdsNameEvents;
    if rs != [] {
      var init, last := rs[..|rs| - 1], rs[|rs| - 1];
      DerivedIdsAreAvailable(s, init, offered);
      InsertAllKeepsHistory(s, init);
      OfferedIdAvailable(s, InsertAll(s, init), offered, last);
      InsertStaysDrawn(s, InsertAll(s, init), offered, last);
    }
  }

  lemma GrowsReflexive(s: Store)
    ensures Grows(s, s)
  {
  }

  lemma GrowsTransitive(s: Store, t: Store, u: Store)
    requires Grows(s, t) && Grows(t, u)
    ensures Grows(s, u)
  {
  }

  // ---- Folding inserts ----

  lemma {:induction false} InsertAllAppend(s: Store, a: seq<AuditRecord>, b: seq<AuditRecord>)
    ensures InsertAll(s, a + b) == InsertAll(InsertAll(s, a), b)
    decreases |b|
  {
    if b == [] {
      assert a + b == a;
    } else {
      var init := b[..|b| - 1];
      assert (a + b)[..|a + b| - 1] == a + init;
      InsertAllAppend(s, a, init);
    }
  }

  ghost predicate Known(s: Store, rs: seq<AuditRecord>) {
    forall i :: 0 <= i < |rs| && rs[i].Valid() ==> rs[i].event.eventId in s.byEvent
  }

  lemma {:induction false} InsertAllRecords(s: Store, rs: seq<AuditRecord>)
    ensures s.byEvent.Keys <= InsertAll(s, rs).byEvent.Keys
    ensures Known(InsertAll(s, rs), rs)
  {
    if rs != [] {
      var init := rs[..|rs| - 1];
      InsertAllRecords(s, init);
      assert forall i :: 0 <= i < |init| ==> init[i] == rs[i];
    }
  }

  /** Re-inserting what is already known is a no-op. */
  lemma {:induction false} InsertAllKnown(s: Store, rs: seq<AuditRecord>)
    requires Known(s, rs)
    ensures InsertAll(s, rs) == s
  {
    if rs != [] {
      var init := rs[..|rs| - 1];
      assert forall i :: 0 <= i < |init| ==> init[i] == rs[i];
      InsertAllKnown(s, init);
    }
  }

  // ---- Batches ----

  lemma {:induction false} PutAllEvents(s: Store, rs: seq<AuditRecord>)
    ensures forall e :: e in PutAll(s, rs).byEvent <==>
                        e in s.byEvent || exists i :: 0 <= i < |rs| && rs[i].event.eventId == e
  {
    if rs != [] {
      var init, last := rs[..|rs| - 1], rs[|rs| - 1];
      PutAllEvents(s, init);
      forall e
        ensures e in PutAll(s, rs).byEvent <==>
                e in s.byEvent || exists i :: 0 <= i < |rs| && rs[i].event.eventId == e
      {
        if i :| 0 <= i < |init| && init[i].event.eventId == e {
          assert rs[i].event.eventId == e;
        }
        if i :| 0 <= i < |rs| && rs[i].event.eventId == e && i < |init| {
          assert init[i].event.eventId == e;
        }
        if last.event.eventId == e {
          assert rs[|rs| - 1].event.eventId == e;
        }
      }
    }
  }

  lemma {:induction false} FreshElements(s: Store, rs: seq<AuditRecord>)
    ensures forall r :: r in Fresh(s, rs) <==> r in rs && r.event.eventId !in s.byEvent
  {
    if rs != [] {
      var init, last := rs[..|rs| - 1], rs[|rs| - 1];
      FreshElements(s, init);
      assert rs == init + [last];
    }
  }

  lemma FreshAppend(s: Store, rs: seq<AuditRecord>, r: AuditRecord)
    ensures r.event.eventId in s.byEvent ==> Fresh(s, rs + [r]) == Fresh(s, rs)
    ensures r.event.eventId !in s.byEvent ==> Fresh(s, rs + [r]) == Fresh(s, rs) + [r]
  {
    assert (rs + [r])[..|rs|] == rs;
  }

  lemma PutAllAppend(s: Store, rs: seq<AuditRecord>, r: AuditRecord)
    ensures PutAll(s, rs + [r]) == Put(PutAll(s, rs), r)
  {
    assert (rs + [r])[..|rs|] == rs;
  }

  lemma EmptyPut(s: Store)
    ensures PutAll(s, []) == s
  {
  }

  lemma FreshLeavesOthersUnknown(s: Store, rs: seq<AuditRecord>, e: EventId)
    requires forall r :: r in rs ==> r.event.eventId != e
    ensures e in PutAll(s, Fresh(s, rs)).byEvent <==> e in s.byEvent
  {
    PutAllEvents(s, Fresh(s, rs));
    FreshElements(s, rs);
  }

  lemma {:induction false} FreshCount(s: Store, rs: seq<AuditRecord>)
    ensures |Fresh(s, rs)| == |rs| <==> forall i :: 0 <= i < |rs| ==> rs[i].event.eventId !in s.byEvent
    ensures |Fresh(s, rs)| == 0 <==> forall i :: 0 <= i < |rs| ==> rs[i].event.eventId in s.byEvent
  {
    if rs != [] {
      FreshCount(s, rs[..|rs| - 1]);
    }
  }

  lemma InitDistinct(rs: seq<AuditRecord>)
    requires rs != [] && AllValid(rs) && DistinctEvents(rs)
    ensures
      var init, last := rs[..|rs| - 1], rs[|rs| - 1];
      && AllValid(init) && DistinctEvents(init) && last.Valid()
      && forall r :: r in init ==> r.event.eventId != last.event.eventId
  {
  }

  lemma BatchStep(s: Store, init: seq<AuditRecord>, last: AuditRecord)
    requires last.Valid() && forall r :: r in init ==> r.event.eventId != last.event.eventId
    ensures PutAll(s, Fresh(s, init + [last])) == InsertRecord(PutAll(s, Fresh(s, init)), last)
    ensures |InsertRecord(PutAll(s, Fresh(s, init)), last).byEvent| - |PutAll(s, Fresh(s, init)).byEvent|
            == |Fresh(s, init + [last])| - |Fresh(s, init)|
  {
    FreshLeavesOthersUnknown(s, init, last.event.eventId);
    FreshAppend(s, init, last);
    if last.event.eventId !in s.byEvent {
      var t := PutAll(s, Fresh(s, init));
      PutAllAppend(s, Fresh(s, init), last);
      FreshKeyExtends(t.byEvent, last.event.eventId, last.recordId);
    }
  }

  /** An atomic batch writes exactly what inserting its records one by one would write. */
  lemma {:induction false} BatchIsSequential(s: Store, rs: seq<AuditRecord>)
    requires AllValid(rs) && DistinctEvents(rs)
    ensures PutAll(s, Fresh(s, rs)) == InsertAll(s, rs)
    ensures |InsertAll(s, rs).byEvent| == |s.byEvent| + |Fresh(s, rs)|
  {
    hide InsertRecord;
    if rs != [] {
      hide PutAll, Fresh;
      var init, last := rs[..|rs| - 1], rs[|rs| - 1];
      assert rs == init + [last];
      InitDistinct(rs);
      hide DistinctEvents;
      BatchIsSequential(s, init);
      BatchStep(s, init, last);
    }
  }

  // ---- Whole histories of writes ----

  datatype Write = Single(record: AuditRecord) | Batch(records: seq<AuditRecord>)

  /** One call on the store; a batch its constructor refuses never reaches it. */
  function ApplyWrite(s: Store, w: Write): Store {
    match w
    case Single(r) => InsertRecord(s, r)
    case Batch(rs) => if BatchOk(rs) then PutAll(s, Fresh(s, rs)) else s
  }

  function ApplyWrites(s: Store, ws: seq<Write>): Store {
    if ws == [] then s else ApplyWrite(ApplyWrites(s, ws[..|ws| - 1]), ws[|ws| - 1])
  }

  function OfferedBy(w: Write): seq<AuditRecord> {
    match w
    case Single(r) => [r]
    case Batch(rs) => if BatchOk(rs) then rs else []
  }

  function Offered(ws: seq<Write>): seq<AuditRecord> {
    if ws == [] then [] else Offered(ws[..|ws| - 1]) + OfferedBy(ws[|ws| - 1])
  }

  lemma WriteIsInsertAll(s: Store, w: Write)
    ensures ApplyWrite(s, w) == InsertAll(s, OfferedBy(w))
  {
    match w
    case Single(r) =>
      assert [r][..0] == [];
    case Batch(rs) =>
      if BatchOk(rs) {
        BatchIsSequential(s, rs);
      }
  }

  lemma {:induction false} WritesAreInsertAll(s: Store, ws: seq<Write>)
    ensures ApplyWrites(s, ws) == InsertAll(s, Offered(ws))
  {
    if ws != [] {
      var init, last := ws[..|ws| - 1], ws[|ws| - 1];
      WritesAreInsertAll(s, init);
      WriteIsInsertAll(ApplyWrites(s, init), last);
      InsertAllAppend(s, Offered(init), OfferedBy(last));
    }
  }

  lemma {:induction false} OfferedAppend(a: seq<Write>, b: seq<Write>)
    ensures Offered(a + b) == Offered(a) + Offered(b)
    decreases |b|
  {
    if b == [] {
      assert a + b == a;
    } else {
      var init, last := b[..|b| - 1], b[|b| - 1];
      assert (a + b)[..|a + b| - 1] == a + init;
      OfferedAppend(a, init);
      AppendAssociates(Offered(a), Offered(init), OfferedBy(last));
    }
  }

  lemma AppendAssociates<T>(x: seq<T>, y: seq<T>, z: seq<T>)
    ensures (x + y) + z == x + (y + z)
  {
  }

  lemma {:induction false} AvailableAppend(s: Store, a: seq<AuditRecord>, b: seq<AuditRecord>)
    ensures AllAvailable(s, a + b) <==> AllAvailable(s, a) && AllAvailable(InsertAll(s, a), b)
    decreases |b|
  {
    hide InsertAll, IdAvailable;
    if b == [] {
      assert a + b == a;
    } else {
      var init := b[..|b| - 1];
      assert (a + b)[..|a + b| - 1] == a + init;
      AvailableAppend(s, a, init);
      InsertAllAppend(s, a, init);
    }
  }

  /**
   Over every history of inserts and batches, from any coherent store, the three maps agree at the end
   exactly when no record took an id in use. They then agreed at every moment, and whatever the store
   held after the first `m` writes it still holds, unchanged.
   */
  lemma HistoryIsPermanent(s: Store, ws: seq<Write>, m: nat)
    requires m <= |ws| && Coherent(s)
    ensures Coherent(ApplyWrites(s, ws)) <==> AllAvailable(s, Offered(ws))
    ensures Coherent(ApplyWrites(s, ws)) ==>
      Coherent(ApplyWrites(s, ws[..m])) && Grows(ApplyWrites(s, ws[..m]), ApplyWrites(s, ws))
  {
    hide InsertAll, Offered, ApplyWrites, Grows, Coherent, AllAvailable;
    var early, late := Offered(ws[..m]), Offered(ws[m..]);
    OfferedAppend(ws[..m], ws[m..]);
    assert ws == ws[..m] + ws[m..];
    WritesAreInsertAll(s, ws);
    WritesAreInsertAll(s, ws[..m]);
    InsertAllAppend(s, early, late);
    AvailableAppend(s, early, late);
    InsertAllKeepsHistory(s, early + late);
    InsertAllKeepsHistory(s, early);
    if AllAvailable(s, early) {
      InsertAllKeepsHistory(InsertAll(s, early), late);
    }
  }

  // ---- What happens to the records themselves ----

  /** The record is refused, known, or replaces no other record at its position. */
  predicate KeyFree(s: Store, r: AuditRecord) {
    !r.Valid() || r.event.eventId in s.byEvent || KeyOf(r) !in s.records || s.records[KeyOf(r)] == r
  }

  /** An insert leaves every stored record in place exactly when it replaces none at its own position. */
  lemma InsertKeepsRecordsIff(s: Store, r: AuditRecord)
    ensures Extends(s.records, InsertRecord(s, r).records) <==> KeyFree(s, r)
  {
  }

  predicate AllKeysFree(s: Store, rs: seq<AuditRecord>) {
    rs != [] ==>
      var init, last := rs[..|rs| - 1], rs[|rs| - 1];
      AllKeysFree(s, init) && KeyFree(InsertAll(s, init), last)
  }

  lemma ExtendsTransitive<K, V>(a: map<K, V>, b: map<K, V>, c: map<K, V>)
    requires Extends(a, b) && Extends(b, c)
    ensures Extends(a, c)
  {
  }

  lemma {:induction false} KeysFreeBetween(s: Store, rs: seq<AuditRecord>, m: nat)
    requires AllKeysFree(s, rs) && m <= |rs|
    ensures AllKeysFree(s, rs[..m])
    ensures Extends(InsertAll(s, rs[..m]).records, InsertAll(s, rs).records)
  {
    hide InsertRecord, KeyFree, Extends;
    var n := |rs| - 1;
    if m == |rs| {
      assert rs[..m] == rs;
      ExtendsItself(InsertAll(s, rs).records);
    } else {
      assert rs[..n][..m] == rs[..m];
      KeysFreeBetween(s, rs[..n], m);
      InsertKeepsRecordsIff(InsertAll(s, rs[..n]), rs[n]);
      ExtendsTransitive(InsertAll(s, rs[..m]).records, InsertAll(s, rs[..n]).records, InsertAll(s, rs).records);
    }
  }

  lemma ExtendsItself<K, V>(m: map<K, V>)
    ensures Extends(m, m)
  {
  }

  /** Nothing stored between the two moments is replaced. */
  ghost predicate KeptBetween(s: Store, rs: seq<AuditRecord>, m: nat, n: nat)
    requires m <= n <= |rs|
  {
    Extends(InsertAll(s, rs[..m]).records, InsertAll(s, rs[..n]).records)
  }

  lemma {:induction false} KeptIsKeyFree(s: Store, rs: seq<AuditRecord>)
    requires forall m: nat, n: nat :: m <= n <= |rs| ==> KeptBetween(s, rs, m, n)
    ensures AllKeysFree(s, rs)
  {
    hide InsertRecord, KeyFree, Extends;
    if rs != [] {
      var k := |rs| - 1;
      forall m: nat, n: nat | m <= n <= k ensures KeptBetween(s, rs[..k], m, n) {
        assert rs[..k][..m] == rs[..m] && rs[..k][..n] == rs[..n];
        assert KeptBetween(s, rs, m, n);
      }
      KeptIsKeyFree(s, rs[..k]);
      assert KeptBetween(s, rs, k, k + 1);
      assert rs[..k + 1] == rs;
      InsertKeepsRecordsIff(InsertAll(s, rs[..k]), rs[k]);
    }
  }

  /** Over any inserts, from any store, no record is ever replaced exactly when each found its position free. */
  lemma RecordsKeptIff(s: Store, rs: seq<AuditRecord>)
    ensures AllKeysFree(s, rs) <==> forall m: nat, n: nat :: m <= n <= |rs| ==> KeptBetween(s, rs, m, n)
  {
    hide InsertAll, AllKeysFree, Extends;
    if AllKeysFree(s, rs) {
      forall m: nat, n: nat | m <= n <= |rs| ensures KeptBetween(s, rs, m, n) {
        KeysFreeBetween(s, rs, n);
        KeysFreeBetween(s, rs[..n], m);
        assert rs[..n][..m] == rs[..m];
      }
    }
    if forall m: nat, n: nat :: m <= n <= |rs| ==> KeptBetween(s, rs, m, n) {
      KeptIsKeyFree(s, rs);
    }
  }

  /** In a coherent store an available id means a free position. */
  lemma AvailableIsKeyFree(s: Store, r: AuditRecord)
    requires Coherent(s) && IdAvailable(s, r)
    ensures KeyFree(s, r)
  {
    assert KeyOf(r) in s.records ==> RecordIndexed(s, KeyOf(r));
  }

  lemma {:induction false} AllAvailableIsKeysFree(s: Store, rs: seq<AuditRecord>)
    requires Coherent(s) && AllAvailable(s, rs)
    ensures AllKeysFree(s, rs)
  {
    hide InsertRecord, KeyFree, Coherent, IdAvailable;
    if rs != [] {
      var init := rs[..|rs| - 1];
      AllAvailableIsKeysFree(s, init);
      InsertAllKeepsHistory(s, init);
      AvailableIsKeyFree(InsertAll(s, init), rs[|rs| - 1]);
    }
  }

  /** A record's references stay on its event's network, its operation in its transaction. */
  predicate OneNetwork(e: AuditEvent) {
    && (e.ledger.Some? ==> e.ledger.value.network == e.network)
    && (e.token.Some? ==> e.token.value.network == e.network)
    && (e.actor.Some? ==> e.actor.value.network == e.network)
    && (e.subject.Some? ==> e.subject.value.network == e.network)
    && (e.transaction.Some? ==> e.transaction.value.network == e.network)
    && (e.operation.Some? ==> e.transaction == Some(e.operation.value.transaction))
  }

  /**
   Whatever is written, every record of a history that began empty has a supported schema, references on
   one network, a derivation if it is derived, and correction links exactly if it is a correction.
   */
  lemma HistoryIsSound(ws: seq<Write>, k: PositionKey)
    requires k in ApplyWrites(EMPTY, ws).records
    ensures
      var r := ApplyWrites(EMPTY, ws).records[k];
      && r.schemaVersion == 1 && r.event.schemaVersion == 1 && OneNetwork(r.event)
      && (r.event.provenance.origin == Derived ==> r.event.provenance.derivation.Some?)
      && (r.supersedes.Some? <==> r.event.kind == RecordCorrected)
      && (r.correctionReason.Some? <==> r.event.kind == RecordCorrected)
  {
    hide InsertAll, Offered, ApplyWrites;
    WritesAreInsertAll(EMPTY, ws);
    InsertAllIsValid(Offered(ws), k);
  }

  lemma {:induction false} InsertAllIsValid(rs: seq<AuditRecord>, k: PositionKey)
    requires k in InsertAll(EMPTY, rs).records
    ensures InsertAll(EMPTY, rs).records[k].Valid()
  {
    var init := rs[..|rs| - 1];
    if k in InsertAll(EMPTY, init).records {
      InsertAllIsValid(init, k);
    }
  }

  // ---- One taken record id ----

  /** A minimal record: an unplaced audit-access event under given ids. */
  function Sample(event: EventId, record: RecordId): (r: AuditRecord)
    ensures r.Valid() && r.event.eventId == event && r.recordId == record
  {
    AuditRecord(
      record,
      AuditEvent(event, AuditAccess, EVENT_SCHEMA_VERSION, "testnet", EventProvenance(Simulated, "sample", "1", None),
                 None, UNPLACED, None, None, None, None, None, None, map[]),
      0, RECORD_SCHEMA_VERSION, Confidential, map[], None, None, None)
  }

  /** Two events under one record id: the store accepts both, and then answers for one with the other. */
  lemma TakenIdMisleadsLookup()
    ensures
      var first, second := Sample("evt_1", "rec_0b"), Sample("evt_2", "rec_0b");
      var s := InsertRecord(InsertRecord(EMPTY, first), second);
      !Coherent(s) && GetByEvent(s, "evt_1") == Ok(Some(second)) && GetByEvent(s, "evt_2") == Ok(Some(second))
  {
    var first, second := Sample("evt_1", "rec_0b"), Sample("evt_2", "rec_0b");
    hide Sample, KeyOf;
    var one := InsertRecord(EMPTY, first);
    var two := InsertRecord(one, second);
    assert "evt_1"[4] != "evt_2"[4];
    assert Displaced(two, "evt_1");
    BrokenIsIncoherent(two);
  }

  // ---- Where things are ----

  /** Records sit at their own keys and record ids lead to their records: what every history keeps. */
  ghost predicate Located(s: Store) {
    && (forall k :: k in s.records ==> KeyOf(s.records[k]) == k)
    && (forall id {:trigger IdResolves(s, id)} :: id in s.byRecord ==> IdResolves(s, id))
  }

  lemma CoherentIsLocated(s: Store)
    requires Coherent(s)
    ensures Located(s)
  {
    forall k | k in s.records ensures KeyOf(s.records[k]) == k {
      assert RecordIndexed(s, k);
    }
  }

  lemma InsertStaysLocated(s: Store, r: AuditRecord)
    requires Located(s)
    ensures Located(InsertRecord(s, r))
  {
    var t := InsertRecord(s, r);
    forall id | id in t.byRecord ensures IdResolves(t, id) {
      assert id in s.byRecord ==> IdResolves(s, id);
    }
  }

  lemma {:induction false} InsertAllStaysLocated(s: Store, rs: seq<AuditRecord>)
    requires Located(s)
    ensures Located(InsertAll(s, rs))
  {
    hide InsertRecord, Located;
    if rs != [] {
      InsertAllStaysLocated(s, rs[..|rs| - 1]);
      InsertStaysLocated(InsertAll(s, rs[..|rs| - 1]), rs[|rs| - 1]);
    }
  }

  lemma BatchOkStep(rs: seq<AuditRecord>, n: nat)
    requires n < |rs|
    ensures BatchOk(rs[..n + 1]) <==>
            && BatchOk(rs[..n]) && rs[n].Valid()
            && (forall i :: 0 <= i < n ==> rs[i].event.eventId != rs[n].event.eventId)
            && (forall i :: 0 <= i < n ==> rs[i].recordId != rs[n].recordId)
  {
    DistinctStep(rs[..n + 1], (r: AuditRecord) => r.event.eventId);
    DistinctStep(rs[..n + 1], (r: AuditRecord) => r.recordId);
    assert rs[..n + 1][..n] == rs[..n];
  }

  ghost predicate DistinctBy<R>(rs: seq<R>, id: R -> string) {
    forall i, j :: 0 <= i < j < |rs| ==> id(rs[i]) != id(rs[j])
  }

  lemma DistinctStep<R>(rs: seq<R>, id: R -> string)
    requires rs != []
    ensures
      var n := |rs| - 1;
      DistinctBy(rs, id) <==> DistinctBy(rs[..n], id) && forall i :: 0 <= i < n ==> id(rs[i]) != id(rs[n])
  {
  }

  /** Checks a batch before it is offered to the store. */
  method NewWriteBatch(rs: seq<AuditRecord>) returns (ok: bool)
    ensures ok <==> BatchOk(rs)
  {
    hide BatchOk;
    var seenEvents: set<EventId>, seenRecords: set<RecordId> := {}, {};
    EmptyBatchOk();
    for n := 0 to |rs|
      invariant BatchOk(rs[..n])
      invariant forall e :: e in seenEvents <==> exists i :: 0 <= i < n && rs[i].event.eventId == e
      invariant forall d :: d in seenRecords <==> exists i :: 0 <= i < n && rs[i].recordId == d
    {
      var r := rs[n];
      BatchOkStep(rs, n);
      if !r.Valid() || r.event.eventId in seenEvents || r.recordId in seenRecords {
        if BatchOk(rs) {
          BatchPrefixOk(rs, n + 1);
        }
        return false;
      }
      seenEvents, seenRecords := seenEvents + {r.event.eventId}, seenRecords + {r.recordId};
    }
    assert rs[..|rs|] == rs;
    return true;
  }

  lemma EmptyBatchOk()
    ensures BatchOk([])
  {
  }

  lemma BatchPrefixOk(rs: seq<AuditRecord>, n: nat)
    requires n <= |rs| && BatchOk(rs)
    ensures BatchOk(rs[..n])
  {
  }

  // ---- The store object ----

  class MemoryEventStore {
    var records: map<PositionKey, AuditRecord>
    var byEvent: map<EventId, RecordId>
    var byRecord: map<RecordId, PositionKey>

    function Contents(): Store
      reads this
    {
      Store(records, byEvent, byRecord)
    }

    constructor ()
      ensures Contents() == EMPTY
    {
      records, byEvent, byRecord := map[], map[], map[];
    }

    /** The three map writes shared by the single and the batch path. */
    method Commit(record: AuditRecord)
      modifies this
      ensures Contents() == Put(old(Contents()), record)
    {
      var key := KeyOf(record);
      records := records[key := record];
      byEvent := byEvent[record.event.eventId := record.recordId];
      byRecord := byRecord[record.recordId := key];
    }

    method Insert(record: AuditRecord) returns (outcome: Result<InsertOutcome, StoreError>)
      modifies this
      ensures Contents() == InsertRecord(old(Contents()), record)
      ensures outcome.Err? <==> !record.Valid()
      ensures outcome.Ok? ==> (outcome.value == Duplicate <==> record.event.eventId in old(byEvent))
    {
      if !record.Valid() {
        return Err(InvalidRecord);
      }
      if record.event.eventId in byEvent {
        return Ok(Duplicate);
      }
      Commit(record);
      return Ok(Inserted);
    }

    /** Phase one: validate the whole batch against the store without changing anything. */
    method PickFresh(batch: seq<AuditRecord>) returns (ok: bool, toInsert: seq<AuditRecord>)
      ensures ok <==> AllValid(batch)
      ensures ok ==> toInsert == Fresh(Contents(), batch)
    {
      hide AuditRecord.Valid;
      toInsert := [];
      ghost var now := Contents();
      for n := 0 to |batch|
        invariant forall i :: 0 <= i < n ==> batch[i].Valid()
        invariant toInsert == Fresh(now, batch[..n])
      {
        var record := batch[n];
        if !record.Valid() {
          return false, toInsert;
        }
        assert batch[..n + 1] == batch[..n] + [record];
        FreshAppend(now, batch[..n], record);
        if record.event.eventId !in byEvent {
          toInsert := toInsert + [record];
        }
      }
      assert batch[..|batch|] == batch;
      ok := true;
    }

    /** A rejected batch writes nothing; an accepted one writes its fresh records together. */
    method InsertBatch(batch: seq<AuditRecord>) returns (outcome: Result<BatchOutcome, StoreError>)
      modifies this
      ensures outcome.Ok? <==> AllValid(batch)
      ensures outcome.Err? ==> Contents() == old(Contents())
      ensures outcome.Ok? ==> Contents() == PutAll(old(Contents()), Fresh(old(Contents()), batch))
      ensures outcome.Ok? ==> outcome.value.inserted == |Fresh(old(Contents()), batch)|
      ensures outcome.Ok? ==> outcome.value.inserted + outcome.value.duplicates == |batch|
    {
      hide Put, Fresh, AllValid;
      ghost var before := Contents();
      EmptyPut(before);
      var ok, toInsert := PickFresh(batch);
      if !ok {
        return Err(InvalidRecord);
      }
      for n := 0 to |toInsert|
        invariant Contents() == PutAll(before, toInsert[..n])
      {
        hide PutAll;
        PutAllAppend(before, toInsert[..n], toInsert[n]);
        assert toInsert[..n + 1] == toInsert[..n] + [toInsert[n]];
        Commit(toInsert[n]);
      }
      assert toInsert[..|toInsert|] == toInsert;
      return Ok(BatchOutcome(|toInsert|, |batch| - |toInsert|));
    }
  }
}
