/** Derived events: audit-layer actions recorded with a stable identity and declared sensitivity. */
module DerivedEvents {
  import opened Wrappers
  import opened Records
  import opened Identity
  import opened PositionKeys

  /** The two identity hashes: of a part list, and of an event's canonical bytes. */
  datatype Ids = Ids(event: seq<string> -> EventId, record: AuditEvent -> RecordId)

  /** Who derives events: network, source label, parser version. */
  datatype Origin = Origin(network: string, source: string, parser: string)

  predicate ValidSource(source: string) {
    1 <= |source| <= 64 && forall i :: 0 <= i < |source| ==> '!' <= source[i] <= '~'
  }

  function DerivedEvent(
    ids: Ids, origin: Origin, kind: EventKind, derivation: string, note: string, refs: seq<string>,
      details: map<string, string>)
    : AuditEvent
  {
    AuditEvent(
      ids.event(DerivedParts(origin.network, derivation, refs)), kind, EVENT_SCHEMA_VERSION, origin.network,
      EventProvenance(Derived, origin.source, origin.parser, Some(DerivationInfo(derivation, note))),
      None, UNPLACED, None, None, None, None, None, None, details)
  }

  /** The declared sensitivity of a kind's detail keys. */
  function Declared(kind: EventKind): map<string, DataClassification> {
    match kind
    case ReportGenerated =>
      map["report" := Operational, "kind" := Public, "records" := Operational, "digest" := Public]
    case EvidenceGenerated =>
      map["evidence" := Operational, "kind" := Public, "records" := Operational,
          "manifest" := Operational, "digest" := Public]
    case InvestigationOpened =>
      map["case" := Operational, "actor" := Operational, "status" := Operational, "summary" := Confidential]
    case InvestigationUpdated =>
      map["case" := Operational, "actor" := Operational, "status" := Operational, "summary" := Confidential]
    case InvestigationClosed =>
      map["case" := Operational, "actor" := Operational, "status" := Operational, "summary" := Confidential]
    case _ => map[]
  }

  /** A record names exactly the declared keys its event carries. */
  function DetailPolicy(event: AuditEvent): map<string, DataClassification> {
    map key | key in Declared(event.kind) && key in event.details :: Declared(event.kind)[key]
  }

  /** `None` when the source label is refused; otherwise a record the store accepts. */
  function DerivedRecord(
    ids: Ids, origin: Origin, now: I64,
    kind: EventKind, derivation: string, note: string, refs: seq<string>, details: map<string, string>)
    : (r: Option<AuditRecord>)
    requires kind != RecordCorrected
    ensures r.Some? <==> ValidSource(origin.source)
    ensures r.Some? ==> r.value.Valid()
    ensures r.Some? ==> r.value.event.eventId == ids.event(DerivedParts(origin.network, derivation, refs))
    ensures r.Some? ==> r.value.event.kind == kind && r.value.event.details == details
  {
    var event := DerivedEvent(ids, origin, kind, derivation, note, refs, details);
    if !ValidSource(origin.source) then None
    else Some(RecordFor(event, now, ids.record).(redactions := DetailPolicy(event)))
  }

  /** A source label is acceptable exactly when it has one to sixty-four characters, all visible. */
  lemma SourceAcceptedIff(source: string)
    ensures ValidSource(source) <==> 1 <= |source| <= 64 && forall c :: c in source ==> 33 <= c as int <= 126
  {
    assert forall i :: 0 <= i < |source| ==> source[i] in source;
  }

  /** A derived record claims no place, time of observation or reference on the chain, and says how it was derived. */
  lemma DerivedRecordSays(
    ids: Ids, origin: Origin, now: I64,
    kind: EventKind, derivation: string, note: string, refs: seq<string>, details: map<string, string>)
    requires kind != RecordCorrected && ValidSource(origin.source)
    ensures
      var r := DerivedRecord(ids, origin, now, kind, derivation, note, refs, details).value;
      var e := r.event;
      && e.observedAt == None && e.order == EventOrder(None, None, None, None)
      && e.ledger == None && e.transaction == None && e.operation == None
      && e.token == None && e.actor == None && e.subject == None
      && e.provenance == EventProvenance(Derived, origin.source, origin.parser, Some(DerivationInfo(derivation, note)))
      && r.recordId == ids.record(e) && r.recordedAt == now && r.classification == Confidential
      && r.supersedes == None && r.correctionReason == None && r.integrity == None
      && (forall key :: key in r.redactions ==> key in details)
  {
  }

  /** Whatever the audit layer records of itself comes after all history with a known ledger. */
  lemma DerivedComesLast(
    ids: Ids, origin: Origin, now: I64,
    kind: EventKind, derivation: string, note: string, refs: seq<string>, details: map<string, string>,
    placed: AuditRecord)
    requires kind != RecordCorrected && ValidSource(origin.source) && placed.event.order.ledgerSequence.Some?
    ensures EarlierInHistory(placed, DerivedRecord(ids, origin, now, kind, derivation, note, refs, details).value)
  {
    hide DerivedRecord, ValidSource;
    DerivedRecordSays(ids, origin, now, kind, derivation, note, refs, details);
  }
}
