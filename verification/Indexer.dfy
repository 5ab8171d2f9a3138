/**
 One page of ingestion: resume from the checkpoint, fetch, normalize, check the order, write
 the batch, and only then move the checkpoint.
 */
module Indexer {
  import opened Wrappers
  import opened Records
  import opened PositionKeys
  import opened EventStore
  import opened EventOrdering

  datatype RawEventItem = RawEventItem(scheme: string, payload: string, position: string)

  datatype SourcePage = SourcePage(items: seq<RawEventItem>, next: Option<string>) {
    predicate HasMore() {
      next.Some?
    }
  }

  datatype IndexerError =
    | SourceFailed
    | MalformedItem
    | NotRecordable
    | OutOfOrder
    | DuplicateEvents(count: nat)
    | BadCheckpoint

  datatype DedupPolicy = SkipDuplicates | FailOnDuplicate

  datatype MalformedItemPolicy = AbortOnMalformed | SkipAndReport

  datatype IngestReport = IngestReport(
    fetched: nat, inserted: nat, duplicates: nat, quarantined: seq<string>, unverifiedOrder: nat, hasMore: bool)

  /** What turns items into records: normalizer, record identity, and the instant of recording. */
  datatype Pipeline = Pipeline(
    normalize: RawEventItem -> Option<AuditEvent>, identify: AuditEvent -> RecordId, now: I64)

  datatype Settings = Settings(dedup: DedupPolicy, malformed: MalformedItemPolicy, pageLimit: nat)

  // ---- Labels ----

  predicate IsLabelChar(c: char) {
    '!' <= c <= '~' && c != '"'
  }

  predicate ValidLabel(s: string, max: nat) {
    1 <= |s| <= max && forall i :: 0 <= i < |s| ==> IsLabelChar(s[i])
  }

  // ---- Normalizing a page ----

  /** What the item loop accumulates; the guard is the set of event ids of `records`. */
  datatype Intake = Intake(
    records: seq<AuditRecord>, placements: seq<EventOrder>, duplicates: nat, quarantined: seq<string>, unverified: nat)
  {
    ghost predicate Seen(e: EventId) {
      exists i :: 0 <= i < |records| && records[i].event.eventId == e
    }
  }

  const NOTHING := Intake([], [], 0, [], 0)

  function Place(acc: Intake, order: EventOrder): Intake {
    if order.ledgerSequence.Some? then acc.(placements := acc.placements + [order])
    else acc.(unverified := acc.unverified + 1)
  }

  ghost function Absorb(
    pl: Pipeline, policy: MalformedItemPolicy, acc: Intake, item: RawEventItem): Result<Intake, IndexerError>
  {
    match pl.normalize(item)
    case None =>
      if policy == AbortOnMalformed then Err(MalformedItem)
      else Ok(acc.(quarantined := acc.quarantined + [item.position]))
    case Some(event) =>
      if acc.Seen(event.eventId) then Ok(Place(acc.(duplicates := acc.duplicates + 1), event.order))
      else
        match FromEvent(event, pl.now, pl.identify)
        case None => Err(NotRecordable)
        case Some(r) => Ok(Place(acc.(records := acc.records + [r]), event.order))
  }

  ghost function ReadItems(
    pl: Pipeline, policy: MalformedItemPolicy, items: seq<RawEventItem>): Result<Intake, IndexerError>
  {
    if items == [] then Ok(NOTHING)
    else
      match ReadItems(pl, policy, items[..|items| - 1])
      case Err(e) => Err(e)
      case Ok(acc) => Absorb(pl, policy, acc, items[|items| - 1])
  }

  function RecordOf(pl: Pipeline, item: RawEventItem): seq<AuditRecord> {
    match pl.normalize(item)
    case None => []
    case Some(event) => [RecordFor(event, pl.now, pl.identify)]
  }

  /** The records of the items that normalize, repeats included: the plain meaning of a page. */
  function RecordsOf(pl: Pipeline, items: seq<RawEventItem>): seq<AuditRecord> {
    if items == [] then [] else RecordsOf(pl, items[..|items| - 1]) + RecordOf(pl, items[|items| - 1])
  }

  /** The positions of the items that do not normalize. */
  function MalformedPositions(pl: Pipeline, items: seq<RawEventItem>): seq<string> {
    if items == [] then []
    else
      var last := items[|items| - 1];
      MalformedPositions(pl, items[..|items| - 1]) + if pl.normalize(last).None? then [last.position] else []
  }

  /** The known placement an item brings to its page. */
  function PlacementOf(pl: Pipeline, item: RawEventItem): seq<EventOrder> {
    match pl.normalize(item)
    case None => []
    case Some(event) => if event.order.ledgerSequence.Some? then [event.order] else []
  }

  /** The known placements of the items, in page order, repeats of an event included. */
  function PlacementsOf(pl: Pipeline, items: seq<RawEventItem>): seq<EventOrder> {
    if items == [] then [] else PlacementsOf(pl, items[..|items| - 1]) + PlacementOf(pl, items[|items| - 1])
  }

  /** Everything decided before the store is touched: steps three and four, and the batch check. */
  ghost function Plan(pl: Pipeline, settings: Settings, page: SourcePage): Result<Intake, IndexerError> {
    match ReadItems(pl, settings.malformed, page.items)
    case Err(e) => Err(e)
    case Ok(acc) =>
      if !IsStrictlyIncreasing(acc.placements) then Err(OutOfOrder)
      else if !BatchOk(acc.records) then Err(NotRecordable)
      else Ok(acc)
  }

  function Written(s: Store, records: seq<AuditRecord>): Store {
    PutAll(s, Fresh(s, records))
  }

  predicate CheckpointOk(name: string, items: seq<RawEventItem>) {
    items != [] ==> ValidLabel(items[|items| - 1].position, 512) && ValidLabel(name, 64)
  }

  function NextCheckpoint(checkpoint: Option<string>, items: seq<RawEventItem>): Option<string> {
    if items == [] then checkpoint else Some(items[|items| - 1].position)
  }

  function ReportOf(page: SourcePage, acc: Intake, inserted: nat): IngestReport
    requires inserted <= |acc.records|
  {
    IngestReport(|page.items|, inserted, acc.duplicates + |acc.records| - inserted,
                 acc.quarantined, acc.unverified, page.HasMore())
  }

  /** The durable state: the store and the checkpoint of this source. */
  datatype Durable = Durable(store: Store, checkpoint: Option<string>)

  /** What one uninterrupted run over a fetched page answers and leaves behind. */
  ghost function RunPage(pl: Pipeline, settings: Settings, name: string, page: SourcePage, d: Durable)
    : (Result<IngestReport, IndexerError>, Durable)
  {
    match Plan(pl, settings, page)
    case Err(e) => (Err(e), d)
    case Ok(acc) =>
      var inserted := |Fresh(d.store, acc.records)|;
      var written := d.(store := Written(d.store, acc.records));
      if settings.dedup == FailOnDuplicate && inserted < |acc.records| then
        (Err(DuplicateEvents(|acc.records| - inserted)), written)
      else if !CheckpointOk(name, page.items) then (Err(BadCheckpoint), written)
      else (Ok(ReportOf(page, acc, inserted)), written.(checkpoint := NextCheckpoint(d.checkpoint, page.items)))
  }

  // ---- What the item loop computes ----

  lemma {:induction false} IntakeCounts(pl: Pipeline, policy: MalformedItemPolicy, items: seq<RawEventItem>)
    requires ReadItems(pl, policy, items).Ok?
    ensures
      var acc := ReadItems(pl, policy, items).value;
      && |items| == |acc.records| + acc.duplicates + |acc.quarantined|
      && |items| == |acc.placements| + acc.unverified + |acc.quarantined|
      && acc.placements == PlacementsOf(pl, items)
      && acc.quarantined == MalformedPositions(pl, items)
      && (policy == AbortOnMalformed ==> acc.quarantined == [])
  {
    if items != [] {
      hide Absorb;
      var init, last := items[..|items| - 1], items[|items| - 1];
      IntakeCounts(pl, policy, init);
      AbsorbCounts(pl, policy, ReadItems(pl, policy, init).value, last);
    }
  }

  lemma AbsorbCounts(pl: Pipeline, policy: MalformedItemPolicy, acc: Intake, item: RawEventItem)
    requires Absorb(pl, policy, acc, item).Ok?
    ensures
      var after := Absorb(pl, policy, acc, item).value;
      var bad := if pl.normalize(item).None? then [item.position] else [];
      && |after.records| + after.duplicates == |acc.records| + acc.duplicates + 1 - |bad|
      && after.unverified == acc.unverified + 1 - |bad| - |PlacementOf(pl, item)|
      && after.placements == acc.placements + PlacementOf(pl, item)
      && after.quarantined == acc.quarantined + bad
      && (policy == AbortOnMalformed ==> bad == [])
  {
    hide FromEvent;
  }

  // ---- Placements in a page ----

  predicate Placed(pl: Pipeline, item: RawEventItem) {
    PlacementOf(pl, item) != []
  }

  lemma {:induction false} PlacementAt(pl: Pipeline, items: seq<RawEventItem>, i: nat)
    requires i < |items| && Placed(pl, items[i])
    ensures
      var n := |PlacementsOf(pl, items[..i])|;
      n < |PlacementsOf(pl, items)| && PlacementsOf(pl, items)[n] == PlacementOf(pl, items[i])[0]
  {
    hide PlacementOf;
    if i < |items| - 1 {
      var init := items[..|items| - 1];
      assert init[..i] == items[..i];
      PlacementAt(pl, init, i);
    }
  }

  /** Two placed items stand in the placement list in page order. */
  lemma PlacementsInOrder(pl: Pipeline, items: seq<RawEventItem>, i: nat, j: nat) returns (a: nat, b: nat)
    requires i < j < |items| && Placed(pl, items[i]) && Placed(pl, items[j])
    ensures a < b < |PlacementsOf(pl, items)|
    ensures PlacementsOf(pl, items)[a] == PlacementOf(pl, items[i])[0]
    ensures PlacementsOf(pl, items)[b] == PlacementOf(pl, items[j])[0]
  {
    hide PlacementOf, PlacementsOf;
    assert items[..j][..i] == items[..i] && items[..j][i] == items[i];
    a, b := |PlacementsOf(pl, items[..i])|, |PlacementsOf(pl, items[..j])|;
    PlacementAt(pl, items[..j], i);
    PlacementAt(pl, items, i);
    PlacementAt(pl, items, j);
  }

  /**
   No page commits that places two of its items alike, wherever they sit: under every policy and on every
   store the run answers an error and changes nothing. The in-page guard therefore never absorbs a
   repeat of a placed item.
   */
  lemma RepeatedPlacementNeverCommits(
    pl: Pipeline, settings: Settings, name: string, page: SourcePage, d: Durable, i: nat, j: nat)
    requires i < j < |page.items| && Placed(pl, page.items[i]) && Placed(pl, page.items[j])
    requires SamePlacement(PlacementOf(pl, page.items[i])[0], PlacementOf(pl, page.items[j])[0])
    ensures Plan(pl, settings, page).Err?
    ensures RunPage(pl, settings, name, page, d).0.Err? && RunPage(pl, settings, name, page, d).1 == d
  {
    hide ReadItems, PlacementOf, PlacementsOf, CompareOrder, IsStrictlyIncreasing;
    var a, b := PlacementsInOrder(pl, page.items, i, j);
    RepeatedPlacementRefused(PlacementsOf(pl, page.items), a, b);
    if ReadItems(pl, settings.malformed, page.items).Ok? {
      IntakeCounts(pl, settings.malformed, page.items);
    }
  }

  lemma {:induction false} IntakeDistinct(pl: Pipeline, policy: MalformedItemPolicy, items: seq<RawEventItem>)
    requires ReadItems(pl, policy, items).Ok?
    ensures DistinctEvents(ReadItems(pl, policy, items).value.records)
  {
    if items != [] {
      IntakeDistinct(pl, policy, items[..|items| - 1]);
    }
  }

  lemma RepeatInserts(pl: Pipeline, acc: Intake, event: AuditEvent, s: Store)
    requires AllValid(acc.records) && acc.Seen(event.eventId)
    ensures InsertRecord(InsertAll(s, acc.records), RecordFor(event, pl.now, pl.identify)) == InsertAll(s, acc.records)
  {
    InsertAllRecords(s, acc.records);
  }

  lemma AbsorbInserts(pl: Pipeline, policy: MalformedItemPolicy, acc: Intake, item: RawEventItem, s: Store)
    requires Absorb(pl, policy, acc, item).Ok? && AllValid(acc.records)
    ensures InsertAll(s, Absorb(pl, policy, acc, item).value.records)
            == InsertAll(InsertAll(s, acc.records), RecordOf(pl, item))
  {
    match pl.normalize(item) {
      case None =>
      case Some(event) =>
        var r := RecordFor(event, pl.now, pl.identify);
        SingleInsert(InsertAll(s, acc.records), r);
        if acc.Seen(event.eventId) {
          RepeatInserts(pl, acc, event, s);
        } else {
          InsertAllAppend(s, acc.records, [r]);
        }
    }
  }

  lemma AbsorbKeepsRecords(pl: Pipeline, policy: MalformedItemPolicy, acc: Intake, item: RawEventItem)
    requires Absorb(pl, policy, acc, item).Ok? && AllValid(Absorb(pl, policy, acc, item).value.records)
    ensures AllValid(acc.records)
  {
    var after := Absorb(pl, policy, acc, item).value;
    assert forall i :: 0 <= i < |acc.records| ==> acc.records[i] == after.records[i];
  }

  /** Dropping in-page repeats changes nothing the store can see. */
  lemma {:induction false} IntakeInserts(pl: Pipeline, policy: MalformedItemPolicy, items: seq<RawEventItem>, s: Store)
    requires ReadItems(pl, policy, items).Ok? && AllValid(ReadItems(pl, policy, items).value.records)
    ensures InsertAll(s, ReadItems(pl, policy, items).value.records) == InsertAll(s, RecordsOf(pl, items))
  {
    if items != [] {
      var init, last := items[..|items| - 1], items[|items| - 1];
      var before := ReadItems(pl, policy, init).value;
      AbsorbKeepsRecords(pl, policy, before, last);
      IntakeInserts(pl, policy, init, s);
      AbsorbInserts(pl, policy, before, last, s);
      InsertAllAppend(s, RecordsOf(pl, init), RecordOf(pl, last));
    }
  }

  lemma SingleInsert(s: Store, r: AuditRecord)
    ensures InsertAll(s, [r]) == InsertRecord(s, r)
  {
    assert [r][..0] == [];
  }

  /** A committed page leaves the store as inserting its records one by one would. */
  lemma PlanInserts(pl: Pipeline, settings: Settings, page: SourcePage, s: Store)
    requires Plan(pl, settings, page).Ok?
    ensures Written(s, Plan(pl, settings, page).value.records) == InsertAll(s, RecordsOf(pl, page.items))
  {
    var acc := Plan(pl, settings, page).value;
    BatchIsSequential(s, acc.records);
    IntakeInserts(pl, settings.malformed, page.items, s);
  }

  // ---- What a report and a refusal say ----

  /** How many items normalize without a known ledger. */
  function UnplacedCount(pl: Pipeline, items: seq<RawEventItem>): nat {
    if items == [] then 0
    else
      var last := items[|items| - 1];
      UnplacedCount(pl, items[..|items| - 1])
      + if pl.normalize(last).Some? && pl.normalize(last).value.order.ledgerSequence.None? then 1 else 0
  }

  lemma {:induction false} UnplacedComplete(pl: Pipeline, items: seq<RawEventItem>)
    ensures |items| == |PlacementsOf(pl, items)| + UnplacedCount(pl, items) + |MalformedPositions(pl, items)|
  {
    if items != [] {
      UnplacedComplete(pl, items[..|items| - 1]);
    }
  }

  /**
   What a successful call reports of its page besides the counts: sizes, quarantine, unverified order,
   and more to come.
   */
  lemma ReportSays(pl: Pipeline, settings: Settings, name: string, page: SourcePage, d: Durable)
    requires RunPage(pl, settings, name, page, d).0.Ok?
    ensures
      var report := RunPage(pl, settings, name, page, d).0.value;
      && report.fetched == |page.items| && report.hasMore == page.next.Some?
      && report.quarantined == MalformedPositions(pl, page.items)
      && report.unverifiedOrder == UnplacedCount(pl, page.items)
      && (settings.malformed == AbortOnMalformed ==> report.quarantined == [])
  {
    hide ReadItems, Written, Fresh, MalformedPositions, PlacementsOf, UnplacedCount, IsStrictlyIncreasing;
    IntakeCounts(pl, settings.malformed, page.items);
    UnplacedComplete(pl, page.items);
  }

  /** One placement strictly before another: known before unknown, by ledger, then operation, then event. */
  predicate PlacedBefore(x: EventOrder, y: EventOrder) {
    || Sooner(x.ledgerSequence, y.ledgerSequence)
    || (x.ledgerSequence == y.ledgerSequence &&
        (|| Sooner(x.operationIndex, y.operationIndex)
         || (x.operationIndex == y.operationIndex && Sooner(x.eventIndex, y.eventIndex))))
  }

  lemma CompareOrderMeans(x: EventOrder, y: EventOrder)
    ensures CompareOrder(x, y) == Less <==> PlacedBefore(x, y)
  {
  }

  /** The placed items of a page that is not refused stand in strict placement order, wherever they sit. */
  lemma PlannedPageIsOrdered(pl: Pipeline, settings: Settings, page: SourcePage, i: nat, j: nat)
    requires Plan(pl, settings, page).Ok?
    requires i < j < |page.items| && Placed(pl, page.items[i]) && Placed(pl, page.items[j])
    ensures PlacedBefore(PlacementOf(pl, page.items[i])[0], PlacementOf(pl, page.items[j])[0])
  {
    hide ReadItems, PlacementOf, PlacementsOf, CompareOrder;
    IntakeCounts(pl, settings.malformed, page.items);
    var a, b := PlacementsInOrder(pl, page.items, i, j);
    AdjacentDecidesPairs(PlacementsOf(pl, page.items));
    CompareOrderMeans(PlacementsOf(pl, page.items)[a], PlacementsOf(pl, page.items)[b]);
  }

  /** The item is the first of its event on the page, and the event is refused. */
  ghost predicate Unrecordable(pl: Pipeline, items: seq<RawEventItem>, i: nat)
    requires i < |items|
  {
    && pl.normalize(items[i]).Some? && !pl.normalize(items[i]).value.Valid()
    && forall j :: 0 <= j < i && pl.normalize(items[j]).Some? ==>
         pl.normalize(items[j]).value.eventId != pl.normalize(items[i]).value.eventId
  }

  /** The item stops the page: malformed under the abort policy, or unrecordable. */
  ghost predicate Stops(pl: Pipeline, policy: MalformedItemPolicy, items: seq<RawEventItem>, i: nat)
    requires i < |items|
  {
    (policy == AbortOnMalformed && pl.normalize(items[i]).None?) || Unrecordable(pl, items, i)
  }

  lemma {:induction false} SeenIff(pl: Pipeline, policy: MalformedItemPolicy, items: seq<RawEventItem>, e: EventId)
    requires ReadItems(pl, policy, items).Ok?
    ensures ReadItems(pl, policy, items).value.Seen(e) <==>
            exists j :: 0 <= j < |items| && pl.normalize(items[j]).Some? && pl.normalize(items[j]).value.eventId == e
  {
    if items != [] {
      var n := |items| - 1;
      SeenIff(pl, policy, items[..n], e);
      AbsorbSees(pl, policy, ReadItems(pl, policy, items[..n]).value, items[n], e);
      hide Absorb, Intake.Seen;
      if j :| 0 <= j < n && pl.normalize(items[..n][j]).Some? && pl.normalize(items[..n][j]).value.eventId == e {
        assert items[j] == items[..n][j];
      }
      if j :| 0 <= j < |items| && pl.normalize(items[j]).Some? && pl.normalize(items[j]).value.eventId == e && j < n {
        assert items[j] == items[..n][j];
      }
    }
  }

  lemma AbsorbSees(pl: Pipeline, policy: MalformedItemPolicy, acc: Intake, item: RawEventItem, e: EventId)
    requires Absorb(pl, policy, acc, item).Ok?
    ensures Absorb(pl, policy, acc, item).value.Seen(e) <==>
            acc.Seen(e) || (pl.normalize(item).Some? && pl.normalize(item).value.eventId == e)
  {
    match pl.normalize(item)
    case None =>
    case Some(event) =>
      if !acc.Seen(event.eventId) {
        SeenAfter(acc, RecordFor(event, pl.now, pl.identify));
      }
  }

  /** The item at `i` is the first that stops the page, and its reason is the answer. */
  ghost predicate FailsAt(pl: Pipeline, policy: MalformedItemPolicy, items: seq<RawEventItem>, i: nat) {
    && i < |items| && Stops(pl, policy, items, i) && (forall j :: 0 <= j < i ==> !Stops(pl, policy, items, j))
    && ReadItems(pl, policy, items) == Err(if pl.normalize(items[i]).None? then MalformedItem else NotRecordable)
  }

  /** The item loop fails exactly at the first item that stops it, with that item's own reason. */
  lemma {:induction false} IntakeFailsIff(pl: Pipeline, policy: MalformedItemPolicy, items: seq<RawEventItem>)
    ensures ReadItems(pl, policy, items).Ok? <==> forall i :: 0 <= i < |items| ==> !Stops(pl, policy, items, i)
    ensures ReadItems(pl, policy, items).Err? ==> exists i: nat :: FailsAt(pl, policy, items, i)
  {
    hide Absorb, Stops;
    if items != [] {
      hide ReadItems;
      var n := |items| - 1;
      var init := items[..n];
      IntakeFailsIff(pl, policy, init);
      forall i | 0 <= i < n ensures Stops(pl, policy, items, i) <==> Stops(pl, policy, init, i) {
        StopsPrefix(pl, policy, items, n, i);
      }
      if ReadItems(pl, policy, init).Ok? {
        LastStopsIff(pl, policy, items);
        assert ReadItems(pl, policy, items).Err? ==> FailsAt(pl, policy, items, n);
      } else {
        ErrorsPersist(pl, policy, items, n);
        var i: nat :| FailsAt(pl, policy, init, i);
        assert items[i] == init[i];
        assert FailsAt(pl, policy, items, i);
      }
    }
  }

  lemma StopsPrefix(pl: Pipeline, policy: MalformedItemPolicy, items: seq<RawEventItem>, n: nat, i: nat)
    requires i < n <= |items|
    ensures Stops(pl, policy, items, i) <==> Stops(pl, policy, items[..n], i)
  {
    assert forall j :: 0 <= j <= i ==> items[..n][j] == items[j];
  }

  lemma LastStopsIff(pl: Pipeline, policy: MalformedItemPolicy, items: seq<RawEventItem>)
    requires items != [] && ReadItems(pl, policy, items[..|items| - 1]).Ok?
    ensures
      var n := |items| - 1;
      && (ReadItems(pl, policy, items).Err? <==> Stops(pl, policy, items, n))
      && (ReadItems(pl, policy, items).Err? ==>
            ReadItems(pl, policy, items) == Err(if pl.normalize(items[n]).None? then MalformedItem else NotRecordable))
  {
    var n := |items| - 1;
    if pl.normalize(items[n]).Some? {
      var e := pl.normalize(items[n]).value.eventId;
      SeenIff(pl, policy, items[..n], e);
      assert forall j :: 0 <= j < n ==> items[..n][j] == items[j];
    }
    hide Intake.Seen;
  }

  // ---- The indexer at work ----

  /** The item loop: normalize, drop repeats, note placements, quarantine or abort. */
  method NormalizeItems(pl: Pipeline, policy: MalformedItemPolicy, items: seq<RawEventItem>)
    returns (result: Result<Intake, IndexerError>)
    ensures result == ReadItems(pl, policy, items)
  {
    var guard: set<EventId> := {};
    var acc := NOTHING;
    for n := 0 to |items|
      invariant ReadItems(pl, policy, items[..n]) == Ok(acc)
      invariant forall e :: e in guard <==> acc.Seen(e)
    {
      var item := items[n];
      ghost var before := acc;
      ReadNext(pl, policy, items, n);
      match pl.normalize(item) {
        case None =>
          if policy == AbortOnMalformed {
            ErrorsPersist(pl, policy, items, n + 1);
            return Err(MalformedItem);
          }
          acc := acc.(quarantined := acc.quarantined + [item.position]);
        case Some(event) =>
          if event.eventId in guard {
            acc := acc.(duplicates := acc.duplicates + 1);
          } else {
            var record := FromEvent(event, pl.now, pl.identify);
            if record.None? {
              ErrorsPersist(pl, policy, items, n + 1);
              return Err(NotRecordable);
            }
            guard := guard + {event.eventId};
            acc := acc.(records := acc.records + [record.value]);
            SeenAfter(before, record.value);
          }
          acc := Place(acc, event.order);
      }
    }
    assert items[..|items|] == items;
    return Ok(acc);
  }

  lemma ReadNext(pl: Pipeline, policy: MalformedItemPolicy, items: seq<RawEventItem>, n: nat)
    requires n < |items| && ReadItems(pl, policy, items[..n]).Ok?
    ensures ReadItems(pl, policy, items[..n + 1])
            == Absorb(pl, policy, ReadItems(pl, policy, items[..n]).value, items[n])
  {
    assert items[..n + 1][..n] == items[..n];
  }

  lemma {:induction false} ErrorsPersist(pl: Pipeline, policy: MalformedItemPolicy, items: seq<RawEventItem>, n: nat)
    requires n <= |items| && ReadItems(pl, policy, items[..n]).Err?
    ensures ReadItems(pl, policy, items) == ReadItems(pl, policy, items[..n])
    decreases |items| - n
  {
    if n < |items| {
      assert items[..n + 1][..n] == items[..n];
      ErrorsPersist(pl, policy, items, n + 1);
    } else {
      assert items[..n] == items;
    }
  }

  lemma SeenAfter(before: Intake, r: AuditRecord)
    ensures
      var after := before.(records := before.records + [r]);
      forall e :: after.Seen(e) <==> before.Seen(e) || e == r.event.eventId
  {
    var after := before.(records := before.records + [r]);
    forall e ensures after.Seen(e) <==> before.Seen(e) || e == r.event.eventId {
      if before.Seen(e) {
        var i :| 0 <= i < |before.records| && before.records[i].event.eventId == e;
        assert after.records[i].event.eventId == e;
      }
      assert after.records[|before.records|] == r;
    }
  }

  /** Positions by source name; saving moves one source and leaves the others alone. */
  class CheckpointStore {
    var positions: map<string, string>

    function Load(name: string): (position: Option<string>)
      reads this
    {
      if name in positions then Some(positions[name]) else None
    }

    constructor ()
      ensures positions == map[]
    {
      positions := map[];
    }

    method Save(name: string, position: string)
      modifies this
      ensures positions == old(positions)[name := position]
    {
      positions := positions[name := position];
    }
  }

  /** Steps three and four, and the batch constructor: nothing durable is touched. */
  method PlanPage(pl: Pipeline, settings: Settings, page: SourcePage) returns (plan: Result<Intake, IndexerError>)
    ensures plan == Plan(pl, settings, page)
  {
    var intake := NormalizeItems(pl, settings.malformed, page.items);
    if intake.Err? {
      return Err(intake.error);
    }
    if !IsStrictlyIncreasing(intake.value.placements) {
      return Err(OutOfOrder);
    }
    var accepted := NewWriteBatch(intake.value.records);
    if !accepted {
      return Err(NotRecordable);
    }
    return Ok(intake.value);
  }

  /** Step five: append the planned records; an empty plan leaves the store alone. */
  method WriteRecords(store: MemoryEventStore, records: seq<AuditRecord>) returns (inserted: nat)
    requires AllValid(records)
    modifies store
    ensures store.Contents() == Written(old(store.Contents()), records)
    ensures inserted == |Fresh(old(store.Contents()), records)|
  {
    inserted := 0;
    if records != [] {
      var outcome := store.InsertBatch(records);
      inserted := outcome.value.inserted;
    }
  }

  method RunOnce(
    pl: Pipeline, settings: Settings, name: string,
    fetch: (Option<string>, nat) -> Option<SourcePage>,
    checkpoints: CheckpointStore, store: MemoryEventStore)
    returns (result: Result<IngestReport, IndexerError>)
    modifies checkpoints, store
    ensures
      var before := Durable(old(store.Contents()), old(checkpoints.Load(name)));
      var fetched := fetch(before.checkpoint, settings.pageLimit);
      var after := Durable(store.Contents(), checkpoints.Load(name));
      if fetched.None? then result == Err(SourceFailed) && after == before
      else (result, after) == RunPage(pl, settings, name, fetched.value, before)
    ensures forall other :: other != name ==> checkpoints.Load(other) == old(checkpoints.Load(other))
  {
    var fetched := fetch(checkpoints.Load(name), settings.pageLimit);
    if fetched.None? {
      return Err(SourceFailed);
    }
    var page := fetched.value;
    var plan := PlanPage(pl, settings, page);
    if plan.Err? {
      return Err(plan.error);
    }
    var acc := plan.value;
    var inserted := WriteRecords(store, acc.records);
    if settings.dedup == FailOnDuplicate && inserted < |acc.records| {
      return Err(DuplicateEvents(|acc.records| - inserted));
    }
    if page.items != [] {
      var position := page.items[|page.items| - 1].position;
      if !ValidLabel(position, 512) || !ValidLabel(name, 64) {
        return Err(BadCheckpoint);
      }
      checkpoints.Save(name, position);
    }
    return Ok(ReportOf(page, acc, inserted));
  }
}
