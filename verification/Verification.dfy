/** Recompute, compare, report: record verification, whole histories, and where tampering shows. */
module Verification {
  import opened Wrappers
  import opened Records
  import opened Hashing
  import opened Chain

  datatype VerificationOutcome = VerificationOutcome(
    recordId: RecordId, status: IntegrityStatus, expected: Option<HexString>, computed: Option<HexString>)

  /** One record's stored digest against a fresh standalone recomputation. */
  function VerifyRecord(c: Crypto, r: AuditRecord): VerificationOutcome {
    match r.integrity
    case None => VerificationOutcome(r.recordId, MissingDigest, None, None)
    case Some(block) =>
      var expected := Some(block.digest.value);
      var computed := RecordDigest(c, r);
      if block.digest.algorithm != SHA256 then
        VerificationOutcome(r.recordId, UnsupportedAlgorithm, expected, None)
      else if computed == block.digest then
        VerificationOutcome(r.recordId, Verified, expected, Some(computed.value))
      else
        VerificationOutcome(r.recordId, DigestMismatch, expected, Some(computed.value))
  }

  predicate IsChained(r: AuditRecord) {
    r.integrity.Some? && r.integrity.value.chained
  }

  predicate AnyChained(records: seq<AuditRecord>) {
    exists i :: 0 <= i < |records| && IsChained(records[i])
  }

  function VerifyEach(c: Crypto, records: seq<AuditRecord>): (outcomes: seq<VerificationOutcome>)
    ensures |outcomes| == |records|
    ensures forall i :: 0 <= i < |records| ==> outcomes[i] == VerifyRecord(c, records[i])
  {
    seq(|records|, i requires 0 <= i < |records| => VerifyRecord(c, records[i]))
  }

  function OutcomeOf(failure: VerificationFailure): VerificationOutcome {
    VerificationOutcome(failure.recordId, failure.status, None, None)
  }

  /** One chain when any record is flagged chained; otherwise record by record. */
  function VerifyAll(c: Crypto, records: seq<AuditRecord>): seq<VerificationOutcome> {
    if AnyChained(records) then
      match Verify(c, records)
      case None => []
      case Some(failure) => [OutcomeOf(failure)]
    else VerifyEach(c, records)
  }

  function Failures(outcomes: seq<VerificationOutcome>): seq<VerificationOutcome> {
    if outcomes == [] then []
    else (if outcomes[0].status == Verified then [] else [outcomes[0]]) + Failures(outcomes[1..])
  }

  function LocateTampering(c: Crypto, records: seq<AuditRecord>): seq<VerificationOutcome> {
    Failures(VerifyAll(c, records))
  }

  predicate Intact(c: Crypto, records: seq<AuditRecord>) {
    LocateTampering(c, records) == []
  }

  method VerifyHistory(c: Crypto, records: seq<AuditRecord>) returns (outcomes: seq<VerificationOutcome>)
    ensures outcomes == VerifyAll(c, records)
  {
    hide Verify, VerifyRecord;
    var anyChained := false;
    for n := 0 to |records|
      invariant anyChained <==> AnyChained(records[..n])
    {
      assert records[..n + 1] == records[..n] + [records[n]];
      AnyChainedAppend(records[..n], records[n]);
      if IsChained(records[n]) {
        anyChained := true;
      }
    }
    assert records[..|records|] == records;
    if anyChained {
      var failure := VerifyChain(c, records);
      return if failure.None? then [] else [OutcomeOf(failure.value)];
    }
    outcomes := [];
    for n := 0 to |records|
      invariant outcomes == VerifyEach(c, records)[..n]
    {
      outcomes := outcomes + [VerifyRecord(c, records[n])];
    }
  }

  lemma AnyChainedAppend(rs: seq<AuditRecord>, r: AuditRecord)
    ensures AnyChained(rs + [r]) <==> AnyChained(rs) || IsChained(r)
  {
    if AnyChained(rs) {
      var i :| 0 <= i < |rs| && IsChained(rs[i]);
      assert (rs + [r])[i] == rs[i];
    }
    assert (rs + [r])[|rs|] == r;
  }

  // ---- What an intact history is ----

  predicate StandaloneOk(c: Crypto, r: AuditRecord) {
    r.integrity.Some? && r.integrity.value.digest == RecordDigest(c, r)
  }

  lemma {:induction false} FailuresElements(outcomes: seq<VerificationOutcome>)
    ensures forall o :: o in Failures(outcomes) <==> o in outcomes && o.status != Verified
  {
    if outcomes != [] {
      FailuresElements(outcomes[1..]);
      assert outcomes == [outcomes[0]] + outcomes[1..];
    }
  }

  lemma VerifyRecordIff(c: Crypto, r: AuditRecord)
    ensures VerifyRecord(c, r).status == Verified <==> StandaloneOk(c, r)
  {
    hide HexLower;
  }

  /** The digest a record should carry on its own. */
  function BodyHash(c: Crypto, r: AuditRecord): HexString {
    HashBytes(c, c.canon(r.Body())).value
  }

  /** No block, a foreign algorithm, or a stored digest that is not the hash of the canonical body. */
  predicate Suspect(c: Crypto, r: AuditRecord) {
    || r.integrity.None?
    || r.integrity.value.digest.algorithm != "sha-256"
    || r.integrity.value.digest.value != BodyHash(c, r)
  }

  function Suspects(c: Crypto, records: seq<AuditRecord>): seq<AuditRecord> {
    if records == [] then []
    else (if Suspect(c, records[0]) then [records[0]] else []) + Suspects(c, records[1..])
  }

  /** What the report says of a suspect: which record, why, what it stores and what its body hashes to. */
  predicate ReportedAs(c: Crypto, r: AuditRecord, o: VerificationOutcome) {
    && o.recordId == r.recordId
    && match r.integrity
       case None => o.status == MissingDigest && o.expected == None && o.computed == None
       case Some(block) =>
         && o.expected == Some(block.digest.value)
         && if block.digest.algorithm != "sha-256" then o.status == UnsupportedAlgorithm && o.computed == None
            else o.status == DigestMismatch && o.computed == Some(BodyHash(c, r))
  }

  lemma SuspectIsReported(c: Crypto, r: AuditRecord)
    ensures VerifyRecord(c, r).status != Verified <==> Suspect(c, r)
    ensures Suspect(c, r) ==> ReportedAs(c, r, VerifyRecord(c, r))
  {
    hide HexLower;
  }

  lemma {:induction false} FailuresAreSuspects(c: Crypto, records: seq<AuditRecord>)
    ensures
      var found, suspects := Failures(VerifyEach(c, records)), Suspects(c, records);
      |found| == |suspects| && forall i :: 0 <= i < |found| ==> ReportedAs(c, suspects[i], found[i])
  {
    hide VerifyRecord, Suspect, ReportedAs;
    if records != [] {
      FailuresAreSuspects(c, records[1..]);
      SuspectIsReported(c, records[0]);
      assert VerifyEach(c, records)[1..] == VerifyEach(c, records[1..]);
    }
  }

  /**
   Tampering in a history without chained records: exactly the suspect records are located, in order and
   once each, every one under its own record id with the reason, the stored digest and the recomputed one.
   */
  lemma StandaloneTamperingLocated(c: Crypto, records: seq<AuditRecord>)
    requires !AnyChained(records)
    ensures
      var found, suspects := LocateTampering(c, records), Suspects(c, records);
      |found| == |suspects| && forall i :: 0 <= i < |found| ==> ReportedAs(c, suspects[i], found[i])
  {
    hide VerifyRecord, Suspect, ReportedAs, Failures, Suspects;
    FailuresAreSuspects(c, records);
  }

  /** Sealing a record on its own makes it verify, and sealing again changes nothing. */
  lemma StandaloneSealVerifies(c: Crypto, r: AuditRecord)
    ensures VerifyRecord(c, SealStandalone(c, r)).status == Verified
    ensures SealStandalone(c, SealStandalone(c, r)) == SealStandalone(c, r)
    ensures SealStandalone(c, r).Body() == r.Body() && !IsChained(SealStandalone(c, r))
    ensures SealStandalone(c, r).integrity.value.prevDigest == None
  {
    hide HashBytes, VerifyRecord;
    assert SealStandalone(c, r).Body() == r.Body();
    VerifyRecordIff(c, SealStandalone(c, r));
  }

  lemma OneFailure(o: VerificationOutcome)
    requires o.status != Verified
    ensures Failures([o]) == [o]
  {
    assert [o][1..] == [];
  }

  lemma NoFailuresIff(outcomes: seq<VerificationOutcome>)
    ensures Failures(outcomes) == [] <==> forall i :: 0 <= i < |outcomes| ==> outcomes[i].status == Verified
  {
    hide Failures;
    FailuresElements(outcomes);
    if Failures(outcomes) != [] {
      var o := Failures(outcomes)[0];
      assert o in Failures(outcomes);
      var i :| 0 <= i < |outcomes| && outcomes[i] == o;
    } else {
      forall i | 0 <= i < |outcomes| ensures outcomes[i].status == Verified {
        assert outcomes[i] in outcomes && outcomes[i] !in Failures(outcomes);
      }
    }
  }

  /** A chained history is intact exactly when it is what sealing it yields. */
  lemma ChainIntactIff(c: Crypto, records: seq<AuditRecord>)
    requires AnyChained(records)
    ensures Intact(c, records) <==> records == Seal(c, records)
  {
    hide Verify, Failures, Seal;
    VerifyIffSealOfItself(c, records);
    ChainFailureStatus(c, records);
    NoFailuresIff(VerifyAll(c, records));
    if Verify(c, records).Some? {
      assert VerifyAll(c, records)[0].status != Verified;
    }
  }

  /** A history without chained records is intact exactly when every stored digest recomputes. */
  lemma StandaloneIntactIff(c: Crypto, records: seq<AuditRecord>)
    requires !AnyChained(records)
    ensures Intact(c, records) <==> forall i :: 0 <= i < |records| ==> StandaloneOk(c, records[i])
  {
    hide VerifyRecord, StandaloneOk, Failures;
    var outcomes := VerifyEach(c, records);
    NoFailuresIff(outcomes);
    forall i | 0 <= i < |records| ensures outcomes[i].status == Verified <==> StandaloneOk(c, records[i]) {
      VerifyRecordIff(c, records[i]);
    }
  }

  lemma {:induction false} ChainFailureStatus(c: Crypto, records: seq<AuditRecord>)
    ensures Verify(c, records).Some? ==> Verify(c, records).value.status in {BrokenChain, DigestMismatch}
  {
    if records != [] {
      ChainFailureStatus(c, records[..|records| - 1]);
    }
  }

  // ---- Where tampering with a chain shows ----

  /** The chain over `t` fails at `i`, and that one outcome is all that is located. */
  ghost predicate LocatedAt(c: Crypto, t: seq<AuditRecord>, i: nat, status: IntegrityStatus)
    requires i < |t|
  {
    && Verify(c, t) == Some(VerificationFailure(status, t[i].recordId))
    && (AnyChained(t) ==> LocateTampering(c, t) == [VerificationOutcome(t[i].recordId, status, None, None)])
  }

  lemma FirstBadLink(c: Crypto, t: seq<AuditRecord>, i: nat, status: IntegrityStatus)
    requires i < |t| && Verify(c, t[..i]).None? && status != Verified
    requires CheckLink(c, Tip(c, t[..i]), t[i]) == Some(VerificationFailure(status, t[i].recordId))
    ensures LocatedAt(c, t, i, status)
  {
    hide CheckLink, Tip;
    hide Failures;
    assert t[..i + 1][..i] == t[..i];
    assert Verify(c, t[..i + 1]) == CheckLink(c, Tip(c, t[..i]), t[i]);
    FailurePersists(c, t, i + 1);
    OneFailure(VerificationOutcome(t[i].recordId, status, None, None));
  }

  lemma EqualTipsEqualLengths(c: Crypto, s: seq<AuditRecord>, i: nat, j: nat)
    requires FaithfulCanon(c) && CollisionFree(c, Inputs(c, s)) && i <= |s| && j <= |s|
    requires Tip(c, s[..i]) == Tip(c, s[..j])
    ensures i == j
  {
    hide Tip, Inputs, CollisionFree, FaithfulCanon;
    InputsOfPrefix(c, s, i);
    InputsOfPrefix(c, s, j);
    TipDeterminesBodies(c, s[..i], s[..j], Inputs(c, s));
  }

  lemma SealedBlock(c: Crypto, s: seq<AuditRecord>, j: nat)
    requires j < |s| && Verify(c, s).None?
    ensures s[j].integrity == Some(RecordIntegrity(ChainStep(c, Tip(c, s[..j]), s[j]), Tip(c, s[..j]), true))
  {
    hide Verify, Tip, ChainStep;
    VerifyIffSealed(c, s);
    assert SealedAt(c, s, j);
  }

  /**
   Dropping, repeating or reordering records of a genuine chain is caught at the first record
   that is not where it was sealed, as a broken link.
   */
  lemma MisplacedRecordLocated(c: Crypto, s: seq<AuditRecord>, t: seq<AuditRecord>, i: nat)
    requires FaithfulCanon(c) && CollisionFree(c, Inputs(c, s)) && Verify(c, s).None?
    requires i < |t| && i <= |s| && t[..i] == s[..i] && t[i] in s && (i < |s| ==> t[i] != s[i])
    ensures LocatedAt(c, t, i, BrokenChain) && AnyChained(t)
  {
    hide Tip, Inputs, CollisionFree, FaithfulCanon, Verify, ChainStep, LocatedAt;
    var j :| 0 <= j < |s| && s[j] == t[i];
    SealedBlock(c, s, j);
    assert IsChained(t[i]);
    PrefixVerifies(c, s, i);
    if Tip(c, s[..i]) == Tip(c, s[..j]) {
      EqualTipsEqualLengths(c, s, i, j);
    }
    FirstBadLink(c, t, i, BrokenChain);
  }

  /** A sequence drawn from a genuine chain verifies exactly when it is a prefix of it. */
  lemma DrawnVerifiesIffPrefix(c: Crypto, s: seq<AuditRecord>, t: seq<AuditRecord>)
    requires FaithfulCanon(c) && CollisionFree(c, Inputs(c, s)) && Verify(c, s).None?
    requires forall r :: r in t ==> r in s
    ensures Verify(c, t).None? <==> t <= s
  {
    hide Tip, Inputs, CollisionFree, FaithfulCanon, Verify;
    if t <= s {
      PrefixVerifies(c, s, |t|);
      assert s[..|t|] == t;
    } else {
      var i := FirstDifference(s, t);
      MisplacedRecordLocated(c, s, t, i);
    }
  }

  lemma {:induction false} FirstDifference<T>(s: seq<T>, t: seq<T>) returns (i: nat)
    requires !(t <= s)
    ensures i < |t| && i <= |s| && t[..i] == s[..i] && (i < |s| ==> t[i] != s[i])
  {
    if s == [] || t[0] != s[0] {
      i := 0;
    } else {
      assert s == [s[0]] + s[1..] && t == [t[0]] + t[1..];
      var k := FirstDifference(s[1..], t[1..]);
      i := k + 1;
      assert t[..i] == [t[0]] + t[1..][..k] && s[..i] == [s[0]] + s[1..][..k];
    }
  }

  lemma SameBodyAndBlock(a: AuditRecord, b: AuditRecord)
    requires a.Body() == b.Body() && a.integrity == b.integrity
    ensures a == b
  {
    assert a == a.Body().(integrity := a.integrity) && b == b.Body().(integrity := b.integrity);
  }

  /** Rewriting bodies under their old integrity blocks is caught at the first rewritten record. */
  lemma EditedBodyLocated(c: Crypto, s: seq<AuditRecord>, t: seq<AuditRecord>, i: nat)
    requires FaithfulCanon(c) && Verify(c, s).None?
    requires |t| == |s| && i < |t|
    requires forall k :: 0 <= k < |t| ==> t[k].integrity == s[k].integrity
    requires (forall k :: 0 <= k < i ==> t[k].Body() == s[k].Body()) && t[i].Body() != s[i].Body()
    requires CollisionFree(c, {StepInput(c, Tip(c, s[..i]), s[i]), StepInput(c, Tip(c, s[..i]), t[i])})
    ensures LocatedAt(c, t, i, DigestMismatch) && AnyChained(t)
  {
    hide Tip, CollisionFree, FaithfulCanon, Verify, StepInput, HashBytes, LocatedAt;
    forall k | 0 <= k < i ensures t[k] == s[k] {
      SameBodyAndBlock(t[k], s[k]);
    }
    assert t[..i] == s[..i];
    SealedBlock(c, s, i);
    assert IsChained(t[i]);
    PrefixVerifies(c, s, i);
    var prev := Tip(c, s[..i]);
    if ChainStep(c, prev, t[i]) == ChainStep(c, prev, s[i]) {
      HashDetermines(c, {StepInput(c, prev, s[i]), StepInput(c, prev, t[i])}, StepInput(c, prev, s[i]),
        StepInput(c, prev, t[i]));
      StepInputDetermines(c, prev, s[i], prev, t[i]);
    }
    FirstBadLink(c, t, i, DigestMismatch);
  }

  /**
   Standalone verification of a chained record: only the record that opens a genuine chain
   passes, because every later digest also covers its predecessor.
   */
  lemma ChainedRecordStandaloneIff(c: Crypto, s: seq<AuditRecord>, i: nat)
    requires FaithfulCanon(c) && Verify(c, s).None? && i < |s|
    requires CollisionFree(c, {StepInput(c, Tip(c, s[..i]), s[i]), StepInput(c, None, s[i])})
    ensures StandaloneOk(c, s[i]) <==> i == 0
  {
    hide Tip, CollisionFree, FaithfulCanon, Verify, HashBytes;
    SealedBlock(c, s, i);
    var prev := Tip(c, s[..i]);
    var chained, alone := StepInput(c, prev, s[i]), StepInput(c, None, s[i]);
    assert alone == CanonicalInput(c, s[i]);
    if HashBytes(c, chained) == HashBytes(c, alone) {
      HashDetermines(c, {chained, alone}, chained, alone);
      StepInputDetermines(c, prev, s[i], None, s[i]);
    }
  }
}
