/** Evidence packages: an artifact, the manifest certifying its sources, and their verification. */
module Evidence {
  import opened Wrappers
  import opened Records
  import opened Orders
  import opened Sorting
  import opened Hashing
  import opened EventStore
  import opened DerivedEvents
  import Text

  // ---- Manifests ----

  datatype ManifestEntry = ManifestEntry(recordId: RecordId, digest: IntegrityDigest)

  datatype LedgerRange = LedgerRange(from: Option<I64>, to: Option<I64>) {
    predicate Coherent() {
      from.Some? && to.Some? ==> from.value <= to.value
    }
  }

  datatype EvidenceKind =
    | TransactionEvidence | ComplianceDecisionEvidence | EnforcementEvidence
    | InvestigationEvidence | HistoricalActivityEvidence | IntegrityEvidence

  function EvidenceKindText(kind: EvidenceKind): string {
    match kind
    case TransactionEvidence => "transaction-evidence"
    case ComplianceDecisionEvidence => "compliance-decision-evidence"
    case EnforcementEvidence => "enforcement-evidence"
    case InvestigationEvidence => "investigation-evidence"
    case HistoricalActivityEvidence => "historical-activity-evidence"
    case IntegrityEvidence => "integrity-evidence"
  }

  const EVIDENCE_SCHEMA_VERSION := 1

  datatype EvidenceArtifact = EvidenceArtifact(
    evidenceId: string,
    kind: EvidenceKind,
    sourceRecords: seq<RecordId>,
    sourceEvents: seq<EventId>,
    parserVersion: string,
    generatorVersion: string,
    generatedAt: I64,
    generatedBy: Option<string>,
    schemaVersion: int,
    digest: Option<IntegrityDigest>,
    manifestId: Option<string>)
  {
    /** What the content digest covers: the artifact without its integrity slots. */
    function Content(): EvidenceArtifact {
      this.(digest := None, manifestId := None)
    }
  }

  datatype EvidenceManifest = EvidenceManifest(
    manifestId: string,
    artifact: string,
    schemaVersion: int,
    generatedAt: I64,
    softwareVersion: string,
    parserVersion: string,
    network: string,
    range: LedgerRange,
    recordCount: nat,
    entries: seq<ManifestEntry>,
    aggregateDigest: IntegrityDigest)
  {
    predicate Valid() {
      schemaVersion == 1 && recordCount == |entries| && range.Coherent()
    }
  }

  datatype EvidencePackage = EvidencePackage(artifact: EvidenceArtifact, manifest: EvidenceManifest)

  /** Hashing plus the serializers and identity hashes evidence uses. */
  datatype Toolkit = Toolkit(
    crypto: Crypto,
    entriesJson: seq<ManifestEntry> -> Bytes,
    artifactJson: EvidenceArtifact -> Bytes,
    evidenceId: seq<string> -> string,
    manifestId: seq<string> -> string,
    ids: Ids)

  ghost predicate FaithfulJson(k: Toolkit) {
    && FaithfulCanon(k.crypto)
    && (forall a, b :: k.entriesJson(a) == k.entriesJson(b) ==> a == b)
    && (forall a, b :: k.artifactJson(a) == k.artifactJson(b) ==> a == b)
  }

  function EntryOf(k: Toolkit, r: AuditRecord): ManifestEntry {
    ManifestEntry(r.recordId, RecordDigest(k.crypto, r))
  }

  /** One entry per record, its digest recomputed from the body. */
  function Entries(k: Toolkit, records: seq<AuditRecord>): (entries: seq<ManifestEntry>)
    ensures |entries| == |records|
    ensures forall i :: 0 <= i < |records| ==> entries[i] == EntryOf(k, records[i])
  {
    seq(|records|, i requires 0 <= i < |records| => EntryOf(k, records[i]))
  }

  function Aggregate(k: Toolkit, entries: seq<ManifestEntry>): IntegrityDigest {
    HashBytes(k.crypto, k.entriesJson(entries))
  }

  function BoundText(bound: Option<I64>, open: string): string {
    if bound.Some? then Text.IntText(bound.value) else open
  }

  function ManifestParts(version: string, range: LedgerRange, count: nat, aggregate: IntegrityDigest): seq<string> {
    [version, BoundText(range.from, "start"), BoundText(range.to, "end"), Text.Digits(count), aggregate.value]
  }

  lemma KindTextTells(a: EvidenceKind, b: EvidenceKind)
    requires EvidenceKindText(a) == EvidenceKindText(b)
    ensures a == b
  {
    assert EvidenceKindText(a)[1] == EvidenceKindText(b)[1] && EvidenceKindText(a)[2] == EvidenceKindText(b)[2];
  }

  lemma BoundTextTells(a: Option<I64>, b: Option<I64>, open: string)
    requires open != [] && !Text.IsDigit(open[0]) && open[0] != '-' && BoundText(a, open) == BoundText(b, open)
    ensures a == b
  {
    hide Text.ParseInt, Text.Digits;
    if a.Some? {
      Text.ParseIntText(a.value, true);
      NumberStart(a.value);
    }
    if b.Some? {
      Text.ParseIntText(b.value, true);
      NumberStart(b.value);
    }
  }

  lemma NumberStart(x: int)
    ensures Text.IntText(x)[0] == '-' || Text.IsDigit(Text.IntText(x)[0])
  {
  }

  /** A manifest's identity tells its version, range, size and aggregate apart from any other's. */
  lemma ManifestPartsInjective(
    v: string, r: LedgerRange, n: nat, d: IntegrityDigest, v': string, r': LedgerRange, n': nat, d': IntegrityDigest)
    requires ManifestParts(v, r, n, d) == ManifestParts(v', r', n', d')
    ensures v == v' && r == r' && n == n' && d.value == d'.value
  {
    hide BoundText;
    var x, y := ManifestParts(v, r, n, d), ManifestParts(v', r', n', d');
    assert x[0] == y[0] && x[1] == y[1] && x[2] == y[2] && x[3] == y[3] && x[4] == y[4];
    BoundTextTells(r.from, r'.from, "start");
    BoundTextTells(r.to, r'.to, "end");
    Text.DigitsInjective(n, n');
  }

  datatype EvidenceError =
    | NotAuthorized | NoSourceRecords | SourceMissing(id: RecordId) | TamperedSource(id: RecordId)
    | InvalidArguments | EventRecord | InvalidContent

  /** Duplicate ids are refused; the entries are grown record by record. */
  method BuildEntries(k: Toolkit, records: seq<AuditRecord>) returns (entries: Option<seq<ManifestEntry>>)
    ensures entries == if DistinctRecords(records) then Some(Entries(k, records)) else None
  {
    hide EntryOf;
    var grown: seq<ManifestEntry> := [];
    var seen: set<RecordId> := {};
    for n := 0 to |records|
      invariant grown == Entries(k, records)[..n]
      invariant forall d :: d in seen <==> exists i :: 0 <= i < n && records[i].recordId == d
      invariant forall i, j :: 0 <= i < j < n ==> records[i].recordId != records[j].recordId
    {
      if records[n].recordId in seen {
        return None;
      }
      seen := seen + {records[n].recordId};
      grown := grown + [EntryOf(k, records[n])];
    }
    assert grown == Entries(k, records);
    return Some(grown);
  }

  // ---- Building ----

  /** The service: who it acts for, what it stamps, and who may use it. */
  datatype Builder = Builder(origin: Origin, generatorVersion: string, now: I64, authorized: string -> bool)

  datatype BuildOptions = BuildOptions(kind: EvidenceKind, recordIds: seq<RecordId>, generatedBy: string)

  /** A stored integrity block must match its body; a record without one is accepted. */
  predicate IntactSource(k: Toolkit, r: AuditRecord) {
    r.integrity.Some? ==> RecordDigest(k.crypto, r) == r.integrity.value.digest
  }

  const BY_ID: AuditRecord -> RecordId := (r: AuditRecord) => r.recordId

  predicate AllPlaced(records: seq<AuditRecord>) {
    forall i :: 0 <= i < |records| ==> records[i].event.order.ledgerSequence.Some?
  }

  function LeastLedger(records: seq<AuditRecord>): (m: I64)
    requires records != [] && AllPlaced(records)
    ensures forall i :: 0 <= i < |records| ==> m <= records[i].event.order.ledgerSequence.value
    ensures exists i :: 0 <= i < |records| && records[i].event.order.ledgerSequence == Some(m)
  {
    var last := records[|records| - 1].event.order.ledgerSequence.value;
    if |records| == 1 then last
    else
      var m := LeastLedger(records[..|records| - 1]);
      if last < m then last else m
  }

  function GreatestLedger(records: seq<AuditRecord>): (m: I64)
    requires records != [] && AllPlaced(records)
    ensures forall i :: 0 <= i < |records| ==> records[i].event.order.ledgerSequence.value <= m
    ensures exists i :: 0 <= i < |records| && records[i].event.order.ledgerSequence == Some(m)
  {
    var last := records[|records| - 1].event.order.ledgerSequence.value;
    if |records| == 1 then last
    else
      var m := GreatestLedger(records[..|records| - 1]);
      if last > m then last else m
  }

  /** Bounded by ledgers when every source record names one; otherwise open. */
  function RangeOf(records: seq<AuditRecord>): (range: LedgerRange)
    ensures range.Coherent()
  {
    if records != [] && AllPlaced(records) then
      assert records[0] == records[0];
      LedgerRange(Some(LeastLedger(records)), Some(GreatestLedger(records)))
    else LedgerRange(None, None)
  }

  /** The range spans the ledgers of the sources when all are placed, and is open otherwise. */
  lemma RangeSays(records: seq<AuditRecord>)
    ensures
      var range := RangeOf(records);
      if records != [] && AllPlaced(records) then
        && range.from.Some? && range.to.Some?
        && (forall i :: 0 <= i < |records| ==>
              range.from.value <= records[i].event.order.ledgerSequence.value <= range.to.value)
        && (exists i :: 0 <= i < |records| && records[i].event.order.ledgerSequence == range.from)
        && (exists i :: 0 <= i < |records| && records[i].event.order.ledgerSequence == range.to)
      else range.from == None && range.to == None
  {
    hide LeastLedger, GreatestLedger;
  }

  function RecordIds(records: seq<AuditRecord>): (ids: seq<RecordId>)
    ensures |ids| == |records| && forall i :: 0 <= i < |ids| ==> ids[i] == records[i].recordId
  {
    seq(|records|, i requires 0 <= i < |records| => records[i].recordId)
  }

  function Events(records: seq<AuditRecord>): (ids: seq<EventId>)
    ensures |ids| == |records|
  {
    seq(|records|, i requires 0 <= i < |records| => records[i].event.eventId)
  }

  function BareArtifact(k: Toolkit, b: Builder, o: BuildOptions, records: seq<AuditRecord>): EvidenceArtifact {
    EvidenceArtifact(
      k.evidenceId([b.origin.network, EvidenceKindText(o.kind)] + RecordIds(records)),
      o.kind, RecordIds(records), Events(records), b.origin.parser, b.generatorVersion, b.now,
      Some(o.generatedBy), EVIDENCE_SCHEMA_VERSION, None, None)
  }

  function ArtifactDigest(k: Toolkit, a: EvidenceArtifact): IntegrityDigest {
    HashBytes(k.crypto, k.artifactJson(a.Content()))
  }

  function ManifestOver(
    k: Toolkit, b: Builder, evidenceId: string, range: LedgerRange, entries: seq<ManifestEntry>): EvidenceManifest
  {
    var aggregate := Aggregate(k, entries);
    EvidenceManifest(
      k.manifestId(ManifestParts(b.generatorVersion, range, |entries|, aggregate)), evidenceId, 1, b.now,
      b.generatorVersion, b.origin.parser, b.origin.network, range, |entries|, entries, aggregate)
  }

  /** The package over records already in canonical order. */
  function PackageFor(k: Toolkit, b: Builder, o: BuildOptions, records: seq<AuditRecord>): EvidencePackage {
    var bare := BareArtifact(k, b, o, records);
    var manifest := ManifestOver(k, b, bare.evidenceId, RangeOf(records), Entries(k, records));
    EvidencePackage(bare.(digest := Some(ArtifactDigest(k, bare)), manifestId := Some(manifest.manifestId)), manifest)
  }

  /** The trail's own record of the generation; `None` when the source label is refused. */
  function GenerationRecord(k: Toolkit, b: Builder, o: BuildOptions, p: EvidencePackage): (r: Option<AuditRecord>)
    requires p.artifact.digest.Some?
    ensures r.Some? ==> r.value.Valid()
  {
    var kindText, count := EvidenceKindText(o.kind), Text.Digits(|p.manifest.entries|);
    DerivedRecord(
      k.ids, b.origin, b.now, EvidenceGenerated, "evidence-generation",
      "evidence artifact generation recorded by the evidence service",
      [p.artifact.evidenceId, kindText, count],
      map["evidence" := p.artifact.evidenceId, "kind" := kindText, "records" := count,
          "manifest" := p.manifest.manifestId, "digest" := p.artifact.digest.value.value])
  }

  /** Every named record, in the order named; the first missing id is the error. */
  function Fetch(s: Store, ids: seq<RecordId>): Result<seq<AuditRecord>, EvidenceError> {
    if ids == [] then Ok([])
    else
      match Fetch(s, ids[..|ids| - 1])
      case Err(e) => Err(e)
      case Ok(rs) =>
        match Get(s, ids[|ids| - 1])
        case Err(_) => Err(SourceMissing(ids[|ids| - 1]))
        case Ok(r) => Ok(rs + [r])
  }

  /** The first record whose stored block no longer matches its body. */
  function FirstTampered(k: Toolkit, records: seq<AuditRecord>): Option<RecordId> {
    if records == [] then None
    else
      var init := FirstTampered(k, records[..|records| - 1]);
      if init.Some? then init
      else if IntactSource(k, records[|records| - 1]) then None
      else Some(records[|records| - 1].recordId)
  }

  function Build(k: Toolkit, b: Builder, o: BuildOptions, s: Store): (Result<EvidencePackage, EvidenceError>, Store) {
    if o.recordIds == [] then (Err(NoSourceRecords), s)
    else if !b.authorized(o.generatedBy) then (Err(NotAuthorized), s)
    else
      match Fetch(s, o.recordIds)
      case Err(e) => (Err(e), s)
      case Ok(fetched) =>
        if FirstTampered(k, fetched).Some? then (Err(TamperedSource(FirstTampered(k, fetched).value)), s)
        else
          var records := Sort(BY_ID, LEX, fetched);
          if !DistinctRecords(records) then (Err(InvalidArguments), s)
          else
            var package := PackageFor(k, b, o, records);
            match GenerationRecord(k, b, o, package)
            case None => (Err(EventRecord), s)
            case Some(r) => (Ok(package), InsertRecord(s, r))
  }

  lemma FetchStep(s: Store, ids: seq<RecordId>, n: nat)
    requires n < |ids| && Fetch(s, ids[..n]).Ok?
    ensures Fetch(s, ids[..n + 1]) ==
            if Get(s, ids[n]).Ok? then Ok(Fetch(s, ids[..n]).value + [Get(s, ids[n]).value])
                else Err(SourceMissing(ids[n]))
  {
    hide Get;
    assert ids[..n + 1][..n] == ids[..n];
  }

  lemma {:induction false} FetchErrorPersists(s: Store, ids: seq<RecordId>, n: nat)
    requires n <= |ids| && Fetch(s, ids[..n]).Err?
    ensures Fetch(s, ids) == Fetch(s, ids[..n])
    decreases |ids| - n
  {
    hide Get;
    if n < |ids| {
      assert ids[..n + 1][..n] == ids[..n];
      FetchErrorPersists(s, ids, n + 1);
    } else {
      assert ids[..n] == ids;
    }
  }

  lemma {:induction false} TamperPersists(k: Toolkit, records: seq<AuditRecord>, n: nat)
    requires n <= |records| && FirstTampered(k, records[..n]).Some?
    ensures FirstTampered(k, records) == FirstTampered(k, records[..n])
    decreases |records| - n
  {
    hide IntactSource;
    if n < |records| {
      assert records[..n + 1][..n] == records[..n];
      TamperPersists(k, records, n + 1);
    } else {
      assert records[..n] == records;
    }
  }

  method FetchRecords(
    store: MemoryEventStore, ids: seq<RecordId>) returns (fetched: Result<seq<AuditRecord>, EvidenceError>)
    ensures fetched == Fetch(store.Contents(), ids)
  {
    hide Get;
    ghost var s := store.Contents();
    var records: seq<AuditRecord> := [];
    for n := 0 to |ids|
      invariant Fetch(s, ids[..n]) == Ok(records)
    {
      FetchStep(s, ids, n);
      var found := Get(store.Contents(), ids[n]);
      if found.Err? {
        FetchErrorPersists(s, ids, n + 1);
        return Err(SourceMissing(ids[n]));
      }
      records := records + [found.value];
    }
    assert ids[..|ids|] == ids;
    return Ok(records);
  }

  method RequireIntact(k: Toolkit, records: seq<AuditRecord>) returns (tampered: Option<RecordId>)
    ensures tampered == FirstTampered(k, records)
  {
    hide IntactSource;
    for n := 0 to |records|
      invariant FirstTampered(k, records[..n]).None?
    {
      assert records[..n + 1][..n] == records[..n];
      if !IntactSource(k, records[n]) {
        TamperPersists(k, records, n + 1);
        return Some(records[n].recordId);
      }
    }
    assert records[..|records|] == records;
    return None;
  }

  method BuildEvidence(k: Toolkit, b: Builder, o: BuildOptions, store: MemoryEventStore)
    returns (result: Result<EvidencePackage, EvidenceError>)
    modifies store
    ensures (result, store.Contents()) == Build(k, b, o, old(store.Contents()))
  {
    hide BareArtifact, ManifestOver, RangeOf, ArtifactDigest, GenerationRecord, Fetch, FirstTampered, InsertRecord;
    if o.recordIds == [] {
      return Err(NoSourceRecords);
    }
    if !b.authorized(o.generatedBy) {
      return Err(NotAuthorized);
    }
    var fetched := FetchRecords(store, o.recordIds);
    if fetched.Err? {
      return Err(fetched.error);
    }
    var tampered := RequireIntact(k, fetched.value);
    if tampered.Some? {
      return Err(TamperedSource(tampered.value));
    }
    var records := Sort(BY_ID, LEX, fetched.value);
    var entries := BuildEntries(k, records);
    if entries.None? {
      return Err(InvalidArguments);
    }
    var artifact := BareArtifact(k, b, o, records);
    artifact := artifact.(digest := Some(ArtifactDigest(k, artifact)));
    var manifest := ManifestOver(k, b, artifact.evidenceId, RangeOf(records), entries.value);
    artifact := artifact.(manifestId := Some(manifest.manifestId));
    var package := EvidencePackage(artifact, manifest);
    var generation := GenerationRecord(k, b, o, package);
    if generation.None? {
      return Err(EventRecord);
    }
    var outcome := store.Insert(generation.value);
    return Ok(package);
  }
}
