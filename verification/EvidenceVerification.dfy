/** Verifying evidence packages, and what acceptance guarantees. */
module EvidenceVerification {
  import opened Wrappers
  import opened Records
  import opened Orders
  import opened Sorting
  import opened Hashing
  import opened Chain
  import opened Verification
  import opened EventStore
  import opened Evidence
  import opened DerivedEvents
  import opened Text

  datatype PackageVerification = PackageVerification(
    artifactVerified: bool, aggregate: IntegrityStatus, records: seq<VerificationOutcome>, verified: bool)

  function AggregateStatus(k: Toolkit, m: EvidenceManifest): IntegrityStatus {
    if m.aggregateDigest.algorithm != SHA256 then UnsupportedAlgorithm
    else if Aggregate(k, m.entries).value == m.aggregateDigest.value then Verified
    else DigestMismatch
  }

  predicate ArtifactOk(k: Toolkit, a: EvidenceArtifact) {
    a.digest.Some? && ArtifactDigest(k, a) == a.digest.value
  }

  /** The checks possible without a store: artifact content and manifest aggregate. */
  function VerifyStructure(k: Toolkit, p: EvidencePackage): Result<PackageVerification, EvidenceError> {
    if p.artifact.schemaVersion != EVIDENCE_SCHEMA_VERSION || !p.manifest.range.Coherent() then Err(InvalidContent)
    else
      var artifactOk, aggregate := ArtifactOk(k, p.artifact), AggregateStatus(k, p.manifest);
      Ok(PackageVerification(artifactOk, aggregate, [], artifactOk && aggregate == Verified))
  }

  // ---- Records against a manifest ----

  /** The supplied records by id; a later record replaces an earlier one. */
  function ById(records: seq<AuditRecord>): map<RecordId, AuditRecord> {
    if records == [] then map[]
    else ById(records[..|records| - 1])[records[|records| - 1].recordId := records[|records| - 1]]
  }

  function EntryOutcome(k: Toolkit, byId: map<RecordId, AuditRecord>, e: ManifestEntry): VerificationOutcome {
    if e.recordId !in byId then VerificationOutcome(e.recordId, RecordMissing, Some(e.digest.value), None)
    else
      var recomputed := RecordDigest(k.crypto, byId[e.recordId]);
      VerificationOutcome(e.recordId, if recomputed == e.digest then Verified else DigestMismatch,
                          Some(e.digest.value), Some(recomputed.value))
  }

  function ManifestOutcomes(
    k: Toolkit, entries: seq<ManifestEntry>, records: seq<AuditRecord>): (outcomes: seq<VerificationOutcome>)
    ensures |outcomes| == |entries|
    ensures forall i :: 0 <= i < |entries| ==> outcomes[i] == EntryOutcome(k, ById(records), entries[i])
  {
    seq(|entries|, i requires 0 <= i < |entries| => EntryOutcome(k, ById(records), entries[i]))
  }

  method VerifyManifestRecords(k: Toolkit, entries: seq<ManifestEntry>, records: seq<AuditRecord>)
    returns (outcomes: seq<VerificationOutcome>)
    ensures outcomes == ManifestOutcomes(k, entries, records)
  {
    hide EntryOutcome;
    var byId: map<RecordId, AuditRecord> := map[];
    for n := 0 to |records|
      invariant byId == ById(records[..n])
    {
      assert records[..n + 1][..n] == records[..n];
      byId := byId[records[n].recordId := records[n]];
    }
    assert records[..|records|] == records;
    outcomes := [];
    for n := 0 to |entries|
      invariant outcomes == ManifestOutcomes(k, entries, records)[..n]
    {
      outcomes := outcomes + [EntryOutcome(k, byId, entries[n])];
    }
  }

  /** The stored records the entries name; names the store does not know are skipped. */
  function Collected(s: Store, entries: seq<ManifestEntry>): seq<AuditRecord> {
    if entries == [] then []
    else
      Collected(s, entries[..|entries| - 1]) +
      match Get(s, entries[|entries| - 1].recordId) {
        case Ok(r) => [r]
        case Err(_) => []
      }
  }

  predicate AllVerified(outcomes: seq<VerificationOutcome>) {
    forall i :: 0 <= i < |outcomes| ==> outcomes[i].status == Verified
  }

  function VerifyPackage(k: Toolkit, p: EvidencePackage, s: Store): Result<PackageVerification, EvidenceError> {
    match VerifyStructure(k, p)
    case Err(e) => Err(e)
    case Ok(structure) =>
      var outcomes := ManifestOutcomes(k, p.manifest.entries, Collected(s, p.manifest.entries));
      Ok(structure.(records := outcomes,
                    verified := structure.artifactVerified && structure.aggregate == Verified && AllVerified(outcomes)))
  }

  /** Structure first, then every entry against the stored bodies. */
  method VerifyEvidence(k: Toolkit, p: EvidencePackage, store: MemoryEventStore)
    returns (result: Result<PackageVerification, EvidenceError>)
    ensures result == VerifyPackage(k, p, store.Contents())
  {
    hide VerifyStructure, ManifestOutcomes, Collected;
    var structure := VerifyStructure(k, p);
    if structure.Err? {
      return Err(structure.error);
    }
    var found := structure.value;
    var outcomes := VerifyManifestRecords(k, p.manifest.entries, Collected(store.Contents(), p.manifest.entries));
    found := found.(records := outcomes);
    found := found.(verified := found.artifactVerified && found.aggregate == Verified && AllVerified(outcomes));
    return Ok(found);
  }

  predicate Accepts(k: Toolkit, p: EvidencePackage, s: Store) {
    VerifyPackage(k, p, s).Ok? && VerifyPackage(k, p, s).value.verified
  }

  // ---- What acceptance means ----

  lemma {:induction false} ByIdEntries(records: seq<AuditRecord>)
    ensures forall id :: id in ById(records) ==> ById(records)[id] in records && ById(records)[id].recordId == id
    ensures forall r :: r in records ==> r.recordId in ById(records)
  {
    if records != [] {
      var n := |records| - 1;
      ByIdEntries(records[..n]);
      assert records == records[..n] + [records[n]];
    }
  }

  lemma {:induction false} CollectedElements(s: Store, entries: seq<ManifestEntry>)
    ensures forall r :: r in Collected(s, entries) <==>
                        exists e :: e in entries && Get(s, e.recordId) == Ok(r)
  {
    hide Get;
    if entries != [] {
      var n := |entries| - 1;
      CollectedElements(s, entries[..n]);
      assert entries == entries[..n] + [entries[n]];
    }
  }

  /** In a coherent store, looking an entry up among the collected records is looking it up in the store. */
  lemma CollectedLookup(s: Store, entries: seq<ManifestEntry>, e: ManifestEntry)
    requires Located(s) && e in entries
    ensures
      var byId := ById(Collected(s, entries));
      if Get(s, e.recordId).Ok? then e.recordId in byId && byId[e.recordId] == Get(s, e.recordId).value
      else e.recordId !in byId
  {
    hide ById, Collected;
    var byId := ById(Collected(s, entries));
    ByIdEntries(Collected(s, entries));
    CollectedElements(s, entries);
    if e.recordId in byId {
      var r := byId[e.recordId];
      var f :| f in entries && Get(s, f.recordId) == Ok(r);
      assert IdResolves(s, f.recordId);
    }
    if Get(s, e.recordId).Ok? {
      assert IdResolves(s, e.recordId);
      assert Get(s, e.recordId).value in Collected(s, entries);
    }
  }

  /** The entry names a stored record whose body still hashes to the certified digest. */
  predicate Certified(k: Toolkit, s: Store, e: ManifestEntry) {
    Get(s, e.recordId).Ok? && RecordDigest(k.crypto, Get(s, e.recordId).value) == e.digest
  }

  lemma EntryVerifiedIff(k: Toolkit, s: Store, entries: seq<ManifestEntry>, e: ManifestEntry)
    requires Located(s) && e in entries
    ensures EntryOutcome(k, ById(Collected(s, entries)), e).status == Verified <==> Certified(k, s, e)
  {
    hide ById, Collected, Get, RecordDigest, Located;
    CollectedLookup(s, entries, e);
  }

  /**
   A package is accepted exactly when its artifact and aggregate recompute and every entry is certified
   by the store.
   */
  lemma AcceptedIff(k: Toolkit, p: EvidencePackage, s: Store)
    requires Located(s)
    ensures Accepts(k, p, s) <==>
            && p.artifact.schemaVersion == EVIDENCE_SCHEMA_VERSION && p.manifest.range.Coherent()
            && ArtifactOk(k, p.artifact)
            && p.manifest.aggregateDigest == Aggregate(k, p.manifest.entries)
            && forall i :: 0 <= i < |p.manifest.entries| ==> Certified(k, s, p.manifest.entries[i])
  {
    hide ById, Collected, Located, EntryOutcome, Certified, ArtifactOk, HexLower;
    var entries := p.manifest.entries;
    forall i | 0 <= i < |entries|
      ensures ManifestOutcomes(k, entries, Collected(s, entries))[i].status == Verified <==> Certified(k, s, entries[i])
    {
      EntryVerifiedIff(k, s, entries, entries[i]);
    }
  }

  // ---- Building then verifying ----

  lemma {:induction false} FetchElements(s: Store, ids: seq<RecordId>)
    ensures Fetch(s, ids).Ok? <==> forall i :: 0 <= i < |ids| ==> Get(s, ids[i]).Ok?
    ensures Fetch(s, ids).Ok? ==>
              && |Fetch(s, ids).value| == |ids|
              && forall i :: 0 <= i < |ids| ==> Get(s, ids[i]) == Ok(Fetch(s, ids).value[i])
  {
    hide Get;
    if ids != [] {
      FetchElements(s, ids[..|ids| - 1]);
    }
  }

  ghost predicate Stored(s: Store, records: seq<AuditRecord>) {
    forall r :: r in records ==> Get(s, r.recordId) == Ok(r)
  }

  lemma FetchedAreStored(s: Store, ids: seq<RecordId>)
    requires Located(s) && Fetch(s, ids).Ok?
    ensures Stored(s, Fetch(s, ids).value)
  {
    FetchElements(s, ids);
    var fetched := Fetch(s, ids).value;
    forall r | r in fetched ensures Get(s, r.recordId) == Ok(r) {
      var i :| 0 <= i < |fetched| && fetched[i] == r;
      assert IdResolves(s, ids[i]);
    }
  }

  lemma SortedAreStored(s: Store, fetched: seq<AuditRecord>)
    requires Stored(s, fetched)
    ensures Stored(s, Sort(BY_ID, LEX, fetched))
  {
    hide Get;
    LexIsStrict();
    SortSorts(BY_ID, LEX, fetched);
    forall r | r in Sort(BY_ID, LEX, fetched) ensures Get(s, r.recordId) == Ok(r) {
      assert r in multiset(Sort(BY_ID, LEX, fetched));
    }
  }

  lemma PackageAccepted(k: Toolkit, b: Builder, o: BuildOptions, records: seq<AuditRecord>, s: Store)
    requires Located(s) && Stored(s, records)
    ensures Accepts(k, PackageFor(k, b, o, records), s)
  {
    hide Located, Get, Accepts, RecordDigest, HashBytes;
    var p := PackageFor(k, b, o, records);
    AcceptedIff(k, p, s);
    forall i | 0 <= i < |records| ensures Certified(k, s, p.manifest.entries[i]) {
      assert records[i] in records;
    }
    assert p.artifact.Content() == BareArtifact(k, b, o, records).Content();
  }

  /** Artifact and manifest point at each other, and the manifest passes its own validation. */
  lemma PackageIsLinked(k: Toolkit, b: Builder, o: BuildOptions, records: seq<AuditRecord>)
    ensures
      var p := PackageFor(k, b, o, records);
      && p.manifest.Valid() && p.manifest.artifact == p.artifact.evidenceId
      && p.artifact.manifestId == Some(p.manifest.manifestId)
      && |p.artifact.sourceRecords| == |p.manifest.entries|
      && forall i :: 0 <= i < |records| ==> p.artifact.sourceRecords[i] == p.manifest.entries[i].recordId
  {
    hide RecordDigest;
  }

  /** The record the build would add to the trail, when it gets that far. */
  function TrailRecord(k: Toolkit, b: Builder, o: BuildOptions, s: Store): Option<AuditRecord> {
    match Fetch(s, o.recordIds)
    case Err(_) => None
    case Ok(fetched) => GenerationRecord(k, b, o, PackageFor(k, b, o, Sort(BY_ID, LEX, fetched)))
  }

  /** The generation record takes no source record's id: it is already on the trail, or its id is not among them. */
  predicate TrailHarmless(o: BuildOptions, s: Store, r: AuditRecord) {
    r.event.eventId in s.byEvent || r.recordId !in o.recordIds
  }

  lemma StoredStays(s: Store, r: AuditRecord, records: seq<AuditRecord>)
    requires Located(s) && Stored(s, records)
    requires r.event.eventId in s.byEvent || forall x :: x in records ==> x.recordId != r.recordId
    ensures Stored(InsertRecord(s, r), records)
  {
    hide InsertRecord, Get, Located;
    forall x | x in records ensures Get(InsertRecord(s, r), x.recordId) == Ok(x) {
      OtherIdsUnmoved(s, r, x);
    }
  }

  lemma OtherIdsUnmoved(s: Store, r: AuditRecord, x: AuditRecord)
    requires Located(s) && Get(s, x.recordId) == Ok(x)
    requires r.event.eventId in s.byEvent || x.recordId != r.recordId
    ensures Get(InsertRecord(s, r), x.recordId) == Ok(x)
  {
    assert IdResolves(s, x.recordId);
  }

  lemma SourcesAreNamed(s: Store, ids: seq<RecordId>)
    requires Located(s) && Fetch(s, ids).Ok?
    ensures forall x :: x in Sort(BY_ID, LEX, Fetch(s, ids).value) ==> x.recordId in ids
    ensures forall id :: id in ids ==> Get(s, id).Ok? && Get(s, id).value in Sort(BY_ID, LEX, Fetch(s, ids).value)
  {
    hide Sort, Fetch;
    LexIsStrict();
    FetchElements(s, ids);
    var fetched := Fetch(s, ids).value;
    var records := Sort(BY_ID, LEX, fetched);
    SortSorts(BY_ID, LEX, fetched);
    forall x | x in records ensures x.recordId in ids {
      SameMultisetSameElements(records, fetched, x);
      var i :| 0 <= i < |fetched| && fetched[i] == x;
      assert IdResolves(s, ids[i]);
    }
    forall id | id in ids ensures Get(s, id).Ok? && Get(s, id).value in records {
      var i :| 0 <= i < |ids| && ids[i] == id;
      SameMultisetSameElements(fetched, records, fetched[i]);
    }
  }

  /**
   The evidence round trip: every successful build whose generation record takes no source's id yields a
   package that verification accepts on the store the build leaves behind.
   */
  lemma BuiltPackageVerifies(k: Toolkit, b: Builder, o: BuildOptions, s: Store)
    requires Located(s) && Build(k, b, o, s).0.Ok?
    ensures Located(Build(k, b, o, s).1)
    ensures TrailRecord(k, b, o, s).Some?
    ensures TrailHarmless(o, s, TrailRecord(k, b, o, s).value) ==>
      Accepts(k, Build(k, b, o, s).0.value, Build(k, b, o, s).1)
  {
    hide Located, Get, Accepts, PackageFor, GenerationRecord, Fetch, FirstTampered, InsertRecord, Sort, Stored;
    var fetched := Fetch(s, o.recordIds).value;
    var records := Sort(BY_ID, LEX, fetched);
    FetchedAreStored(s, o.recordIds);
    SortedAreStored(s, fetched);
    SourcesAreNamed(s, o.recordIds);
    var r := TrailRecord(k, b, o, s).value;
    InsertStaysLocated(s, r);
    if TrailHarmless(o, s, r) {
      StoredStays(s, r, records);
      PackageAccepted(k, b, o, records, InsertRecord(s, r));
    }
  }

  /**
   A build keeps the store coherent exactly when its generation record's id is available, and only adds
   to it then.
   */
  lemma BuildKeepsHistory(k: Toolkit, b: Builder, o: BuildOptions, s: Store)
    requires Coherent(s) && Build(k, b, o, s).0.Ok?
    ensures TrailRecord(k, b, o, s).Some?
    ensures Coherent(Build(k, b, o, s).1) <==> IdAvailable(s, TrailRecord(k, b, o, s).value)
    ensures Coherent(Build(k, b, o, s).1) ==> Grows(s, Build(k, b, o, s).1)
  {
    hide Coherent, PackageFor, GenerationRecord, Fetch, FirstTampered, InsertRecord, Sort, IdAvailable, Grows;
    var r := TrailRecord(k, b, o, s).value;
    InsertCoherentIff(s, r);
    if IdAvailable(s, r) {
      InsertGrows(s, r);
    }
  }

  /** With a hash that does not collide here, taking a source's id is exactly what makes the round trip fail. */
  lemma BuiltPackageVerifiesIff(k: Toolkit, b: Builder, o: BuildOptions, s: Store)
    requires Coherent(s) && Build(k, b, o, s).0.Ok? && FaithfulCanon(k.crypto)
    requires
      TrailRecord(k, b, o, s).Some? ==>
        var r := TrailRecord(k, b, o, s).value;
        Get(s, r.recordId).Ok? ==>
          CollisionFree(k.crypto, {CanonicalInput(k.crypto, r), CanonicalInput(k.crypto, Get(s, r.recordId).value)})
    ensures TrailRecord(k, b, o, s).Some?
    ensures Accepts(k, Build(k, b, o, s).0.value, Build(k, b, o, s).1)
       <==> TrailHarmless(o, s, TrailRecord(k, b, o, s).value)
  {
    hide Accepts, GenerationRecord, Fetch, FirstTampered, Sort, Coherent, Located, CollisionFree, FaithfulCanon, Get,
      PackageFor, CanonicalInput, InsertRecord;
    CoherentIsLocated(s);
    BuiltPackageVerifies(k, b, o, s);
    var r := TrailRecord(k, b, o, s).value;
    if !TrailHarmless(o, s, r) {
      SourcesAreNamed(s, o.recordIds);
      var records := Sort(BY_ID, LEX, Fetch(s, o.recordIds).value);
      var i :| 0 <= i < |records| && records[i] == Get(s, r.recordId).value;
      EntryOfSource(k, b, o, records, i);
      TakenIdRefused(k, PackageFor(k, b, o, records), s, r, i);
    }
  }

  lemma EntryOfSource(k: Toolkit, b: Builder, o: BuildOptions, records: seq<AuditRecord>, i: nat)
    requires i < |records|
    ensures
      var entries := PackageFor(k, b, o, records).manifest.entries;
      |entries| == |records| && entries[i] == EntryOf(k, records[i])
  {
    hide EntryOf;
  }

  /** A record that takes the id of a covered one is not what the entry certifies. */
  lemma TakenIdRefused(k: Toolkit, p: EvidencePackage, s: Store, r: AuditRecord, i: nat)
    requires Coherent(s) && FaithfulCanon(k.crypto) && r.Valid() && r.event.eventId !in s.byEvent
    requires Get(s, r.recordId).Ok? && i < |p.manifest.entries|
    requires p.manifest.entries[i] == EntryOf(k, Get(s, r.recordId).value)
    requires
      CollisionFree(k.crypto, {CanonicalInput(k.crypto, r), CanonicalInput(k.crypto, Get(s, r.recordId).value)})
    ensures !Accepts(k, p, InsertRecord(s, r))
  {
    hide Accepts, Coherent, Located, CollisionFree, FaithfulCanon, HashBytes, Get, InsertRecord, CanonicalInput;
    var x := Get(s, r.recordId).value;
    CoherentIsLocated(s);
    InsertStaysLocated(s, r);
    StoredRecordKnown(s, r.recordId);
    AcceptedIff(k, p, InsertRecord(s, r));
    TakenIdMisleads(s, r);
    var a, c := CanonicalInput(k.crypto, r), CanonicalInput(k.crypto, x);
    if Certified(k, InsertRecord(s, r), p.manifest.entries[i]) {
      HashDetermines(k.crypto, {a, c}, a, c);
      SameCanonSameEvent(k.crypto, r, x);
    }
  }

  lemma StoredRecordKnown(s: Store, id: RecordId)
    requires Coherent(s) && Get(s, id).Ok?
    ensures Get(s, id).value.recordId == id && Get(s, id).value.event.eventId in s.byEvent
  {
    assert IdResolves(s, id) && RecordIndexed(s, s.byRecord[id]);
  }

  lemma TakenIdMisleads(s: Store, r: AuditRecord)
    requires r.Valid() && r.event.eventId !in s.byEvent
    ensures Get(InsertRecord(s, r), r.recordId) == Ok(r)
  {
  }

  lemma SameCanonSameEvent(c: Crypto, a: AuditRecord, b: AuditRecord)
    requires FaithfulCanon(c) && CanonicalInput(c, a) == CanonicalInput(c, b)
    ensures a.event == b.event
  {
    assert a.Body() == b.Body();
  }

  // ---- The order of the ids does not matter ----

  lemma {:induction false} TamperedIff(k: Toolkit, records: seq<AuditRecord>)
    ensures FirstTampered(k, records).None? <==> forall r :: r in records ==> IntactSource(k, r)
  {
    hide IntactSource;
    if records != [] {
      var n := |records| - 1;
      TamperedIff(k, records[..n]);
      assert records == records[..n] + [records[n]];
    }
  }

  /** How often a record is fetched: as often as its id is named. */
  lemma {:induction false} FetchMultiplicity(s: Store, ids: seq<RecordId>, r: AuditRecord)
    requires Located(s) && Fetch(s, ids).Ok?
    ensures multiset(Fetch(s, ids).value)[r] == if Get(s, r.recordId) == Ok(r) then multiset(ids)[r.recordId] else 0
  {
    if ids != [] {
      var n := |ids| - 1;
      FetchMultiplicity(s, ids[..n], r);
      var last := Get(s, ids[n]).value;
      assert ids == ids[..n] + [ids[n]];
      assert Fetch(s, ids).value == Fetch(s, ids[..n]).value + [last];
      assert IdResolves(s, ids[n]);
    }
  }

  lemma FetchForgetsOrder(s: Store, ids: seq<RecordId>, ids': seq<RecordId>)
    requires Located(s) && Fetch(s, ids).Ok? && multiset(ids) == multiset(ids')
    ensures Fetch(s, ids').Ok? && multiset(Fetch(s, ids').value) == multiset(Fetch(s, ids).value)
  {
    hide Get, Fetch, Located;
    FetchElements(s, ids);
    FetchElements(s, ids');
    forall i | 0 <= i < |ids'| ensures Get(s, ids'[i]).Ok? {
      assert ids'[i] in multiset(ids);
      var j :| 0 <= j < |ids| && ids[j] == ids'[i];
    }
    forall r ensures multiset(Fetch(s, ids').value)[r] == multiset(Fetch(s, ids).value)[r] {
      FetchMultiplicity(s, ids, r);
      FetchMultiplicity(s, ids', r);
    }
  }

  lemma SameMultisetSameElements<T>(a: seq<T>, b: seq<T>, x: T)
    requires multiset(a) == multiset(b) && x in a
    ensures x in b
  {
    assert x in multiset(a);
  }

  /** The same set of records builds the same package and leaves the same trail, in whatever order it is named. */
  lemma BuildForgetsOrder(k: Toolkit, b: Builder, o: BuildOptions, ids: seq<RecordId>, s: Store)
    requires Located(s) && Build(k, b, o, s).0.Ok? && multiset(ids) == multiset(o.recordIds)
    ensures Build(k, b, o.(recordIds := ids), s) == Build(k, b, o, s)
  {
    hide Located, Get, PackageFor, GenerationRecord, Fetch, FirstTampered, IntactSource, InsertRecord, Stored;
    FetchForgetsOrder(s, o.recordIds, ids);
    var fetched, fetched' := Fetch(s, o.recordIds).value, Fetch(s, ids).value;
    TamperedIff(k, fetched);
    TamperedIff(k, fetched');
    forall r | r in fetched' ensures IntactSource(k, r) {
      SameMultisetSameElements(fetched', fetched, r);
    }
    FetchedAreStored(s, o.recordIds);
    StoredIdsTell(s, fetched);
    LexIsStrict();
    SortForgetsOrder(BY_ID, LEX, fetched, fetched');
    assert |ids| == |multiset(ids)| && |o.recordIds| == |multiset(o.recordIds)|;
    PackageIgnoresIds(k, b, o, ids, Sort(BY_ID, LEX, fetched));
  }

  lemma StoredIdsTell(s: Store, records: seq<AuditRecord>)
    requires Stored(s, records)
    ensures KeyDetermines(BY_ID, records)
  {
    hide Get;
    forall x, y | x in records && y in records && BY_ID(x) == BY_ID(y) ensures x == y {
      assert Get(s, x.recordId) == Ok(x) && Get(s, y.recordId) == Ok(y);
    }
  }

  lemma PackageIgnoresIds(k: Toolkit, b: Builder, o: BuildOptions, ids: seq<RecordId>, records: seq<AuditRecord>)
    ensures
      var p := PackageFor(k, b, o, records);
      && PackageFor(k, b, o.(recordIds := ids), records) == p
      && GenerationRecord(k, b, o.(recordIds := ids), p) == GenerationRecord(k, b, o, p)
  {
  }

  // ---- When a build succeeds ----

  ghost predicate AllResolve(s: Store, ids: seq<RecordId>) {
    forall i :: 0 <= i < |ids| ==> Get(s, ids[i]).Ok?
  }

  /** A stored integrity block, if any, holds the hash of the canonical body. */
  predicate Genuine(k: Toolkit, r: AuditRecord) {
    r.integrity.Some? ==> r.integrity.value.digest == HashBytes(k.crypto, k.crypto.canon(r.Body()))
  }

  ghost predicate AllGenuine(k: Toolkit, s: Store, ids: seq<RecordId>)
    requires AllResolve(s, ids)
  {
    forall i :: 0 <= i < |ids| ==> Genuine(k, Get(s, ids[i]).value)
  }

  predicate DistinctIds(ids: seq<RecordId>) {
    forall i, j :: 0 <= i < j < |ids| ==> ids[i] != ids[j]
  }

  lemma SortedDistinctIff(s: Store, ids: seq<RecordId>)
    requires Located(s) && Fetch(s, ids).Ok?
    ensures DistinctRecords(Sort(BY_ID, LEX, Fetch(s, ids).value)) <==> DistinctIds(ids)
  {
    hide Sort, Fetch, Get;
    FetchElements(s, ids);
    var fetched := Fetch(s, ids).value;
    var records := Sort(BY_ID, LEX, fetched);
    forall i | 0 <= i < |ids| ensures BY_ID(fetched[i]) == ids[i] {
      LocatedId(s, ids[i]);
    }
    LexIsStrict();
    SortSorts(BY_ID, LEX, fetched);
    assert DistinctKeys(BY_ID, fetched) <==> DistinctIds(ids);
    if DistinctKeys(BY_ID, fetched) {
      DistinctKeysPermute(BY_ID, fetched, records);
    }
    if DistinctKeys(BY_ID, records) {
      DistinctKeysPermute(BY_ID, records, fetched);
    }
    assert DistinctKeys(BY_ID, records) <==> DistinctRecords(records);
  }

  lemma LocatedId(s: Store, id: RecordId)
    requires Located(s) && Get(s, id).Ok?
    ensures Get(s, id).value.recordId == id
  {
    assert IdResolves(s, id);
  }

  lemma GenuineIsIntact(k: Toolkit, r: AuditRecord)
    ensures Genuine(k, r) <==> IntactSource(k, r)
  {
    hide HashBytes;
  }

  lemma TamperedNoneIff(k: Toolkit, s: Store, ids: seq<RecordId>)
    requires Fetch(s, ids).Ok? && AllResolve(s, ids)
    ensures FirstTampered(k, Fetch(s, ids).value).None? <==> AllGenuine(k, s, ids)
  {
    hide Fetch, FirstTampered, Get, Genuine, IntactSource;
    FetchElements(s, ids);
    var fetched := Fetch(s, ids).value;
    TamperedIff(k, fetched);
    forall i | 0 <= i < |ids| ensures Genuine(k, Get(s, ids[i]).value) <==> IntactSource(k, fetched[i]) {
      GenuineIsIntact(k, fetched[i]);
      assert fetched[i] in fetched;
    }
  }

  lemma GenerationIff(k: Toolkit, b: Builder, o: BuildOptions, records: seq<AuditRecord>)
    ensures GenerationRecord(k, b, o, PackageFor(k, b, o, records)).Some? <==> ValidSource(b.origin.source)
  {
    hide ManifestOver, BareArtifact, ArtifactDigest, RangeOf, ValidSource;
  }

  /** Everything a successful build has established, and all it needs. */
  ghost predicate Buildable(k: Toolkit, b: Builder, o: BuildOptions, s: Store) {
    && o.recordIds != [] && b.authorized(o.generatedBy)
    && AllResolve(s, o.recordIds) && AllGenuine(k, s, o.recordIds)
    && DistinctIds(o.recordIds) && ValidSource(b.origin.source)
  }

  /**
   A build succeeds exactly when it names at least one record and none twice, its actor is authorized, every
   id resolves, every stored block holds the hash of its record's body, and the source label is acceptable.
   */
  lemma BuildSucceedsIff(k: Toolkit, b: Builder, o: BuildOptions, s: Store)
    requires Located(s)
    ensures Build(k, b, o, s).0.Ok? <==> Buildable(k, b, o, s)
    ensures Build(k, b, o, s).0.Err? ==> Build(k, b, o, s).1 == s
  {
    hide Fetch, FirstTampered, Get, Sort, Genuine, PackageFor, GenerationRecord, ValidSource, Located, InsertRecord,
      DistinctRecords, DistinctIds;
    FetchElements(s, o.recordIds);
    if Fetch(s, o.recordIds).Ok? {
      TamperedNoneIff(k, s, o.recordIds);
      SortedDistinctIff(s, o.recordIds);
      GenerationIff(k, b, o, Sort(BY_ID, LEX, Fetch(s, o.recordIds).value));
    }
  }

  lemma {:induction false} FirstMissing(s: Store, ids: seq<RecordId>) returns (i: nat)
    requires Fetch(s, ids).Err?
    ensures i < |ids| && Fetch(s, ids) == Err(SourceMissing(ids[i])) && Get(s, ids[i]).Err? && AllResolve(s, ids[..i])
  {
    hide Get;
    var n := |ids| - 1;
    if Fetch(s, ids[..n]).Err? {
      i := FirstMissing(s, ids[..n]);
      assert ids[..n][..i] == ids[..i];
    } else {
      i := n;
      FetchElements(s, ids[..n]);
    }
  }

  lemma {:induction false} FirstAltered(k: Toolkit, records: seq<AuditRecord>) returns (i: nat)
    requires FirstTampered(k, records).Some?
    ensures i < |records| && FirstTampered(k, records) == Some(records[i].recordId) && !Genuine(k, records[i])
    ensures forall j :: 0 <= j < i ==> Genuine(k, records[j])
  {
    hide IntactSource, Genuine;
    var n := |records| - 1;
    if FirstTampered(k, records[..n]).Some? {
      i := FirstAltered(k, records[..n]);
      assert forall j :: 0 <= j < i ==> records[..n][j] == records[j];
    } else {
      i := n;
      GenuineIsIntact(k, records[n]);
      TamperedIff(k, records[..n]);
      forall j | 0 <= j < n ensures Genuine(k, records[j]) {
        GenuineIsIntact(k, records[j]);
        assert records[..n][j] in records[..n];
      }
    }
  }

  /**
   A refused build names the first of these that applies: no sources, no authority, the first id that does
   not resolve, the first record whose block is not the hash of its body, a repeated id, the source label.
   */
  lemma BuildRefusedWith(k: Toolkit, b: Builder, o: BuildOptions, s: Store) returns (i: nat)
    requires Located(s) && Build(k, b, o, s).0.Err?
    ensures
      var error, ids := Build(k, b, o, s).0.error, o.recordIds;
      if ids == [] then error == NoSourceRecords
      else if !b.authorized(o.generatedBy) then error == NotAuthorized
      else if !AllResolve(s, ids) then
        i < |ids| && error == SourceMissing(ids[i]) && Get(s, ids[i]).Err? && AllResolve(s, ids[..i])
      else if !AllGenuine(k, s, ids) then
        && i < |ids| && error == TamperedSource(ids[i]) && !Genuine(k, Get(s, ids[i]).value)
        && forall j :: 0 <= j < i ==> Genuine(k, Get(s, ids[j]).value)
      else if !DistinctIds(ids) then error == InvalidArguments
      else error == EventRecord
  {
    hide Fetch, FirstTampered, Get, Sort, Genuine, PackageFor, GenerationRecord, ValidSource, Located, InsertRecord,
      DistinctRecords, DistinctIds;
    i := 0;
    var ids := o.recordIds;
    FetchElements(s, ids);
    if Fetch(s, ids).Err? {
      if ids != [] && b.authorized(o.generatedBy) {
        i := FirstMissing(s, ids);
      }
    } else {
      var fetched := Fetch(s, ids).value;
      TamperedNoneIff(k, s, ids);
      SortedDistinctIff(s, ids);
      if FirstTampered(k, fetched).Some? {
        i := FirstAltered(k, fetched);
        LocatedId(s, ids[i]);
      }
    }
  }

  // ---- What a package says ----

  /** The artifact and manifest of a package over sorted records, field by field. */
  lemma PackageSays(k: Toolkit, b: Builder, o: BuildOptions, records: seq<AuditRecord>)
    ensures
      var a, m := PackageFor(k, b, o, records).artifact, PackageFor(k, b, o, records).manifest;
      && a.kind == o.kind && a.generatedBy == Some(o.generatedBy) && a.generatedAt == b.now
      && a.parserVersion == b.origin.parser && a.generatorVersion == b.generatorVersion
      && |a.sourceEvents| == |records| && |a.sourceRecords| == |records|
      && (forall i :: 0 <= i < |records| ==>
            a.sourceRecords[i] == records[i].recordId && a.sourceEvents[i] == records[i].event.eventId)
      && a.evidenceId == k.evidenceId([b.origin.network, EvidenceKindText(o.kind)] + a.sourceRecords)
      && m.generatedAt == b.now && m.softwareVersion == b.generatorVersion && m.parserVersion == b.origin.parser
      && m.network == b.origin.network && m.range == RangeOf(records)
      && m.manifestId == k.manifestId(ManifestParts(b.generatorVersion, m.range, |records|, m.aggregateDigest))
      && (forall i :: 0 <= i < |records| ==>
            m.entries[i].digest == HashBytes(k.crypto, k.crypto.canon(records[i].Body())))
  {
    hide HashBytes, RangeOf, EvidenceKindText;
  }

  /** An artifact's identity parts tell network, kind and sources apart from any other's. */
  lemma EvidencePartsInjective(
    n: string, kind: EvidenceKind, ids: seq<RecordId>, n': string, kind': EvidenceKind, ids': seq<RecordId>)
    requires [n, EvidenceKindText(kind)] + ids == [n', EvidenceKindText(kind')] + ids'
    ensures n == n' && kind == kind' && ids == ids'
  {
    hide EvidenceKindText;
    var x, y := [n, EvidenceKindText(kind)] + ids, [n', EvidenceKindText(kind')] + ids';
    assert x[0] == y[0] && x[1] == y[1] && x[2..] == ids && y[2..] == ids';
    KindTextTells(kind, kind');
  }

  /** The sources of a successful build are exactly the named records, in strictly rising order of their ids. */
  lemma BuiltSourcesSay(k: Toolkit, b: Builder, o: BuildOptions, s: Store)
    requires Located(s) && Build(k, b, o, s).0.Ok?
    ensures
      var sources := Build(k, b, o, s).0.value.artifact.sourceRecords;
      && (forall id :: id in sources <==> id in o.recordIds)
      && (forall i, j :: 0 <= i < j < |sources| ==> LEX(sources[i], sources[j]))
  {
    hide Build, Fetch, Get, Sort, Located, RecordIds, PackageFor, DistinctRecords;
    BuiltIs(k, b, o, s);
    var fetched := Fetch(s, o.recordIds).value;
    SourcesAreNamed(s, o.recordIds);
    FetchedRise(Sort(BY_ID, LEX, fetched), fetched);
    NamedExactly(s, o.recordIds, Sort(BY_ID, LEX, fetched));
  }

  lemma BuiltIs(k: Toolkit, b: Builder, o: BuildOptions, s: Store)
    requires Build(k, b, o, s).0.Ok?
    ensures Fetch(s, o.recordIds).Ok?
    ensures
      var records := Sort(BY_ID, LEX, Fetch(s, o.recordIds).value);
      && DistinctRecords(records)
      && Build(k, b, o, s).0.value == PackageFor(k, b, o, records)
      && PackageFor(k, b, o, records).artifact.sourceRecords == RecordIds(records)
  {
    hide Fetch, FirstTampered, Sort, GenerationRecord, InsertRecord, ManifestOver, ArtifactDigest, DistinctRecords,
      RecordIds, RangeOf;
  }

  lemma NamedExactly(s: Store, ids: seq<RecordId>, records: seq<AuditRecord>)
    requires Located(s) && forall x :: x in records ==> x.recordId in ids
    requires forall id :: id in ids ==> Get(s, id).Ok? && Get(s, id).value in records
    ensures forall id :: id in RecordIds(records) <==> id in ids
  {
    hide Get, Located;
    var sources := RecordIds(records);
    forall id ensures id in sources <==> id in ids {
      if id in sources {
        var i :| 0 <= i < |sources| && sources[i] == id;
        assert records[i] in records;
      }
      if id in ids {
        var i :| 0 <= i < |records| && records[i] == Get(s, id).value;
        LocatedId(s, id);
        assert sources[i] == id;
      }
    }
  }

  lemma FetchedRise(records: seq<AuditRecord>, fetched: seq<AuditRecord>)
    requires records == Sort(BY_ID, LEX, fetched) && DistinctRecords(records)
    ensures forall i, j :: 0 <= i < j < |records| ==> LEX(records[i].recordId, records[j].recordId)
  {
    hide Sort;
    LexIsStrict();
    SortSorts(BY_ID, LEX, fetched);
    forall i, j | 0 <= i < j < |records| ensures LEX(records[i].recordId, records[j].recordId) {
      assert !LEX(BY_ID(records[j]), BY_ID(records[i]));
    }
  }

  /** What the trail records of a generation, field by field. */
  lemma GenerationSays(k: Toolkit, b: Builder, o: BuildOptions, p: EvidencePackage)
    requires p.artifact.digest.Some? && ValidSource(b.origin.source)
    ensures
      var r := GenerationRecord(k, b, o, p).value;
      && GenerationRecord(k, b, o, p).Some?
      && r.event.kind == EvidenceGenerated && r.event.network == b.origin.network && r.recordedAt == b.now
      && r.classification == Confidential && r.event.provenance.derivation.Some?
      && r.event.provenance.derivation.value.method_ == "evidence-generation"
      && r.event.details.Keys == {"evidence", "kind", "records", "manifest", "digest"}
      && r.event.details["evidence"] == p.artifact.evidenceId
      && r.event.details["kind"] == EvidenceKindText(o.kind)
      && r.event.details["records"] == Digits(|p.manifest.entries|)
      && r.event.details["manifest"] == p.manifest.manifestId
      && r.event.details["digest"] == p.artifact.digest.value.value
  {
    hide EvidenceKindText, Digits, ValidSource;
  }

  // ---- What a verification reports ----

  /** The outcome of one entry: missing, or the recomputed digest with whether it is the certified one. */
  lemma EntrySays(k: Toolkit, p: EvidencePackage, s: Store, i: nat)
    requires Located(s) && VerifyPackage(k, p, s).Ok? && i < |p.manifest.entries|
    ensures
      var e, outcomes := p.manifest.entries[i], VerifyPackage(k, p, s).value.records;
      && |outcomes| == |p.manifest.entries|
      && var found := outcomes[i];
      && found.recordId == e.recordId && found.expected == Some(e.digest.value)
      && if Get(s, e.recordId).Err? then found.status == RecordMissing && found.computed == None
         else
           var hash := HashBytes(k.crypto, k.crypto.canon(Get(s, e.recordId).value.Body()));
           && found.computed == Some(hash.value)
           && found.status == if hash == e.digest then Verified else DigestMismatch
  {
    hide ById, Collected, Get, Located, HashBytes, VerifyStructure;
    CollectedLookup(s, p.manifest.entries, p.manifest.entries[i]);
  }

  /** The structure half of a verification: what it refuses, and what it says of artifact and aggregate. */
  lemma StructureSays(k: Toolkit, p: EvidencePackage)
    ensures
      var r := VerifyStructure(k, p);
      && (r.Ok? <==> p.artifact.schemaVersion == 1 && p.manifest.range.Coherent())
      && (r.Ok? ==>
            && (r.value.artifactVerified <==>
                p.artifact.digest
                == Some(HashBytes(k.crypto, k.artifactJson(p.artifact.(digest := None, manifestId := None)))))
            && r.value.aggregate ==
               (if p.manifest.aggregateDigest.algorithm != "sha-256" then UnsupportedAlgorithm
                else if p.manifest.aggregateDigest == HashBytes(k.crypto, k.entriesJson(p.manifest.entries))
                then Verified
                else DigestMismatch))
  {
    hide HexLower;
  }

  // ---- What an accepted package pins ----

  /** Two stores that accept one package agree on the body of every record it covers. */
  lemma AcceptancePinsBodies(k: Toolkit, p: EvidencePackage, s: Store, t: Store, i: nat)
    requires FaithfulJson(k) && Located(s) && Located(t) && Accepts(k, p, s) && Accepts(k, p, t)
    requires i < |p.manifest.entries|
    requires
      var id := p.manifest.entries[i].recordId;
      Get(s, id).Ok? && Get(t, id).Ok? ==>
        CollisionFree(k.crypto, {CanonicalInput(k.crypto, Get(s, id).value),
          CanonicalInput(k.crypto, Get(t, id).value)})
    ensures
      var id := p.manifest.entries[i].recordId;
      && Get(s, id).Ok? && Get(t, id).Ok?
      && Get(s, id).value.(integrity := None) == Get(t, id).value.(integrity := None)
  {
    hide Located, Accepts, CollisionFree, HashBytes, Get;
    AcceptedIff(k, p, s);
    AcceptedIff(k, p, t);
    var e := p.manifest.entries[i];
    assert Certified(k, s, e) && Certified(k, t, e);
    var x, y := CanonicalInput(k.crypto, Get(s, e.recordId).value), CanonicalInput(k.crypto, Get(t, e.recordId).value);
    HashDetermines(k.crypto, {x, y}, x, y);
  }

  /** Accepted packages with one aggregate digest have the same entries: none altered, removed or added. */
  lemma AcceptancePinsEntries(k: Toolkit, p: EvidencePackage, q: EvidencePackage, s: Store, t: Store)
    requires FaithfulJson(k) && Located(s) && Located(t) && Accepts(k, p, s) && Accepts(k, q, t)
    requires p.manifest.aggregateDigest == q.manifest.aggregateDigest
    requires CollisionFree(k.crypto, {k.entriesJson(p.manifest.entries), k.entriesJson(q.manifest.entries)})
    ensures p.manifest.entries == q.manifest.entries
  {
    hide Located, Accepts, CollisionFree, HashBytes, ArtifactOk, Certified;
    AcceptedIff(k, p, s);
    AcceptedIff(k, q, t);
    var x, y := k.entriesJson(p.manifest.entries), k.entriesJson(q.manifest.entries);
    HashDetermines(k.crypto, {x, y}, x, y);
  }

  /** Accepted packages with one artifact digest carry the same artifact content. */
  lemma AcceptancePinsArtifact(k: Toolkit, p: EvidencePackage, q: EvidencePackage, s: Store, t: Store)
    requires FaithfulJson(k) && Located(s) && Located(t) && Accepts(k, p, s) && Accepts(k, q, t)
    requires p.artifact.digest == q.artifact.digest
    requires CollisionFree(k.crypto, {k.artifactJson(p.artifact.Content()), k.artifactJson(q.artifact.Content())})
    ensures p.artifact.(digest := None, manifestId := None) == q.artifact.(digest := None, manifestId := None)
  {
    hide Located, Accepts, CollisionFree, HashBytes, Certified;
    AcceptedIff(k, p, s);
    AcceptedIff(k, q, t);
    var x, y := k.artifactJson(p.artifact.Content()), k.artifactJson(q.artifact.Content());
    HashDetermines(k.crypto, {x, y}, x, y);
  }

  /**
   What verification does not cover: the manifest's own identity, its link to the artifact,
   versions, network, time, and any ledger range that is still coherent.
   */
  lemma UncoveredManifestFields(k: Toolkit, p: EvidencePackage, m: EvidenceManifest, s: Store)
    requires Located(s)
    requires m.entries == p.manifest.entries && m.aggregateDigest == p.manifest.aggregateDigest
    requires m.range.Coherent() && p.manifest.range.Coherent()
    ensures Accepts(k, p.(manifest := m), s) <==> Accepts(k, p, s)
  {
    hide Located, Accepts, ArtifactOk, Certified, Aggregate;
    AcceptedIff(k, p, s);
    AcceptedIff(k, p.(manifest := m), s);
  }

  /** Verification does not tie artifact and manifest together: halves of two accepted packages are accepted as one. */
  lemma SplicedPackageAccepted(k: Toolkit, p: EvidencePackage, q: EvidencePackage, s: Store)
    requires Located(s) && Accepts(k, p, s) && Accepts(k, q, s)
    ensures Accepts(k, EvidencePackage(p.artifact, q.manifest), s)
  {
    hide Located, Accepts, ArtifactOk, Certified, Aggregate;
    AcceptedIff(k, p, s);
    AcceptedIff(k, q, s);
    AcceptedIff(k, EvidencePackage(p.artifact, q.manifest), s);
  }

  /** Of a genuine chain only the opening record can become evidence; every later one is refused as tampered. */
  lemma ChainedSourceAcceptedIff(k: Toolkit, s: seq<AuditRecord>, i: nat)
    requires FaithfulCanon(k.crypto) && Verify(k.crypto, s).None? && i < |s|
    requires
      CollisionFree(k.crypto, {StepInput(k.crypto, Tip(k.crypto, s[..i]), s[i]), StepInput(k.crypto, None, s[i])})
    ensures IntactSource(k, s[i]) <==> i == 0
  {
    hide Verify, Tip, CollisionFree, FaithfulCanon, RecordDigest;
    SealedBlock(k.crypto, s, i);
    ChainedRecordStandaloneIff(k.crypto, s, i);
  }
}
