/** The chained digest scheme: each digest covers the previous digest and the record's own body. */
module Chain {
  import opened Wrappers
  import opened Records
  import opened Hashing

  datatype IntegrityStatus =
    Verified | DigestMismatch | MissingDigest | BrokenChain | UnsupportedAlgorithm | RecordMissing

  datatype VerificationFailure = VerificationFailure(status: IntegrityStatus, recordId: RecordId)

  /** The bytes hashed for `r` after a predecessor with digest `prev`. */
  function StepInput(c: Crypto, prev: Option<IntegrityDigest>, r: AuditRecord): Bytes {
    (if prev.Some? then Ascii(prev.value.value) else []) + CanonicalInput(c, r)
  }

  function ChainStep(c: Crypto, prev: Option<IntegrityDigest>, r: AuditRecord): (d: IntegrityDigest) {
    HashBytes(c, StepInput(c, prev, r))
  }

  /** The digest the chain over `records` ends with. */
  function Tip(c: Crypto, records: seq<AuditRecord>): (d: Option<IntegrityDigest>)
    ensures d.None? <==> records == []
    ensures d.Some? ==> d.value.algorithm == SHA256
  {
    if records == [] then None
    else Some(ChainStep(c, Tip(c, records[..|records| - 1]), records[|records| - 1]))
  }

  function SealAfter(c: Crypto, prev: Option<IntegrityDigest>, r: AuditRecord): AuditRecord {
    r.(integrity := Some(RecordIntegrity(ChainStep(c, prev, r), prev, true)))
  }

  function Seal(c: Crypto, records: seq<AuditRecord>): (sealed: seq<AuditRecord>)
    ensures |sealed| == |records|
    ensures forall i :: 0 <= i < |records| ==> sealed[i] == SealAfter(c, Tip(c, records[..i]), records[i])
  {
    seq(|records|, i requires 0 <= i < |records| => SealAfter(c, Tip(c, records[..i]), records[i]))
  }

  /** Flag, then linkage, then body: the checks made of one record given its predecessor's digest. */
  function CheckLink(c: Crypto, prev: Option<IntegrityDigest>, r: AuditRecord): Option<VerificationFailure> {
    match r.integrity
    case None => Some(VerificationFailure(BrokenChain, r.recordId))
    case Some(block) =>
      if !block.chained || block.prevDigest != prev then Some(VerificationFailure(BrokenChain, r.recordId))
      else if block.digest != ChainStep(c, prev, r) then Some(VerificationFailure(DigestMismatch, r.recordId))
      else None
  }

  /** The first violation, if any. */
  function Verify(c: Crypto, records: seq<AuditRecord>): Option<VerificationFailure> {
    if records == [] then None
    else
      match Verify(c, records[..|records| - 1])
      case Some(failure) => Some(failure)
      case None => CheckLink(c, Tip(c, records[..|records| - 1]), records[|records| - 1])
  }

  // ---- The walker and the sealer ----

  lemma TipStep(c: Crypto, records: seq<AuditRecord>, n: nat)
    requires n < |records|
    ensures Tip(c, records[..n + 1]) == Some(ChainStep(c, Tip(c, records[..n]), records[n]))
  {
    hide ChainStep;
    assert records[..n + 1][..n] == records[..n];
  }

  method SealChain(c: Crypto, records: seq<AuditRecord>) returns (sealed: seq<AuditRecord>)
    ensures sealed == Seal(c, records)
  {
    hide ChainStep, Tip;
    sealed := [];
    var prev: Option<IntegrityDigest> := None;
    for n := 0 to |records|
      invariant prev == Tip(c, records[..n])
      invariant sealed == Seal(c, records)[..n]
    {
      TipStep(c, records, n);
      var digest := ChainStep(c, prev, records[n]);
      sealed := sealed + [records[n].(integrity := Some(RecordIntegrity(digest, prev, true)))];
      prev := Some(digest);
    }
  }

  method VerifyChain(c: Crypto, records: seq<AuditRecord>) returns (failure: Option<VerificationFailure>)
    ensures failure == Verify(c, records)
  {
    hide ChainStep, CheckLink;
    var prev: Option<IntegrityDigest> := None;
    for n := 0 to |records|
      invariant prev == Tip(c, records[..n]) && Verify(c, records[..n]).None?
    {
      var record := records[n];
      assert records[..n + 1][..n] == records[..n];
      var broken := CheckLink(c, prev, record);
      if broken.Some? {
        FailurePersists(c, records, n + 1);
        return broken;
      }
      prev := Some(ChainStep(c, prev, record));
    }
    assert records[..|records|] == records;
    return None;
  }

  lemma {:induction false} FailurePersists(c: Crypto, records: seq<AuditRecord>, n: nat)
    requires n <= |records| && Verify(c, records[..n]).Some?
    ensures Verify(c, records) == Verify(c, records[..n])
    decreases |records| - n
  {
    hide Tip, CheckLink;
    if n < |records| {
      assert records[..n + 1][..n] == records[..n];
      FailurePersists(c, records, n + 1);
    } else {
      assert records[..n] == records;
    }
  }

  // ---- Verification characterises sealing ----

  lemma LinkChecksIffSealed(c: Crypto, prev: Option<IntegrityDigest>, r: AuditRecord)
    ensures CheckLink(c, prev, r).None? <==> r == SealAfter(c, prev, r)
  {
    hide ChainStep;
  }

  /** Digests cover bodies only: sealing does not change what is hashed. */
  lemma {:induction false} TipOfBodies(c: Crypto, a: seq<AuditRecord>, b: seq<AuditRecord>)
    requires |a| == |b| && forall i :: 0 <= i < |a| ==> a[i].Body() == b[i].Body()
    ensures Tip(c, a) == Tip(c, b)
  {
    if a != [] {
      TipOfBodies(c, a[..|a| - 1], b[..|b| - 1]);
    }
  }

  predicate SealedAt(c: Crypto, s: seq<AuditRecord>, i: nat)
    requires i < |s|
  {
    s[i] == SealAfter(c, Tip(c, s[..i]), s[i])
  }

  ghost predicate Sealed(c: Crypto, s: seq<AuditRecord>) {
    forall i: nat :: i < |s| ==> SealedAt(c, s, i)
  }

  lemma SealedAtPrefix(c: Crypto, s: seq<AuditRecord>, n: nat, i: nat)
    requires i < n <= |s|
    ensures SealedAt(c, s[..n], i) <==> SealedAt(c, s, i)
  {
    hide SealAfter, Tip;
    assert s[..n][..i] == s[..i];
  }

  lemma {:induction false} VerifyIffSealed(c: Crypto, s: seq<AuditRecord>)
    ensures Verify(c, s).None? <==> Sealed(c, s)
  {
    hide SealAfter, CheckLink, Tip;
    if s != [] {
      var n := |s| - 1;
      VerifyIffSealed(c, s[..n]);
      LinkChecksIffSealed(c, Tip(c, s[..n]), s[n]);
      forall i: nat | i < n ensures SealedAt(c, s[..n], i) <==> SealedAt(c, s, i) {
        SealedAtPrefix(c, s, n, i);
      }
      assert SealedAt(c, s, n) <==> CheckLink(c, Tip(c, s[..n]), s[n]).None?;
    }
  }

  /** A chain verifies exactly when it is what sealing its own records yields; no assumption on the hash. */
  lemma VerifyIffSealOfItself(c: Crypto, s: seq<AuditRecord>)
    ensures Verify(c, s).None? <==> s == Seal(c, s)
  {
    hide SealAfter, Tip;
    VerifyIffSealed(c, s);
    forall i: nat | i < |s| ensures SealedAt(c, s, i) <==> s[i] == Seal(c, s)[i] {
    }
  }

  lemma SealKeepsTips(c: Crypto, s: seq<AuditRecord>, i: nat)
    requires i <= |s|
    ensures Tip(c, Seal(c, s)[..i]) == Tip(c, s[..i])
  {
    TipOfBodies(c, Seal(c, s)[..i], s[..i]);
  }

  /** Sealed chains verify, and sealing again changes nothing. */
  lemma SealVerifies(c: Crypto, s: seq<AuditRecord>)
    ensures Verify(c, Seal(c, s)).None?
    ensures Seal(c, Seal(c, s)) == Seal(c, s)
  {
    var sealed := Seal(c, s);
    forall i: nat | i < |s| ensures SealedAt(c, sealed, i) {
      SealKeepsTips(c, s, i);
      SealOfBody(c, Tip(c, s[..i]), s[i], sealed[i]);
    }
    VerifyIffSealed(c, sealed);
    VerifyIffSealOfItself(c, sealed);
  }

  /**
   What sealing writes: the first digest is the hash of the canonical body, every later one the hash of
   the previous digest's hex text followed by the body, and each block points at its predecessor's digest.
   */
  lemma SealSays(c: Crypto, records: seq<AuditRecord>, i: nat)
    requires i < |records|
    ensures
      var sealed := Seal(c, records);
      && sealed[i].Body() == records[i].Body() && sealed[i].integrity.Some?
      && var block := sealed[i].integrity.value;
      && block.chained
      && (i == 0 ==> block.prevDigest == None && block.digest == HashBytes(c, c.canon(records[i].Body())))
      && (i > 0 ==>
            && sealed[i - 1].integrity.Some?
            && var prev := sealed[i - 1].integrity.value.digest;
            && block.prevDigest == Some(prev)
            && block.digest == HashBytes(c, Ascii(prev.value) + c.canon(records[i].Body())))
  {
    hide HashBytes;
    var sealed := Seal(c, records);
    assert sealed[i].Body() == records[i].Body();
    if i == 0 {
      assert [] + c.canon(records[i].Body()) == c.canon(records[i].Body());
    } else {
      TipStep(c, records, i - 1);
    }
  }

  /** Every prefix of a verified chain verifies. */
  lemma PrefixVerifies(c: Crypto, s: seq<AuditRecord>, n: nat)
    requires n <= |s| && Verify(c, s).None?
    ensures Verify(c, s[..n]).None?
  {
    hide SealAfter, Tip, Verify;
    VerifyIffSealed(c, s);
    VerifyIffSealed(c, s[..n]);
    forall i: nat | i < n ensures SealedAt(c, s[..n], i) {
      SealedAtPrefix(c, s, n, i);
      assert SealedAt(c, s, i);
    }
  }

  // ---- The last digest pins the whole history ----

  /** Everything hashed while sealing `s`. */
  ghost function Inputs(c: Crypto, s: seq<AuditRecord>): set<Bytes> {
    set i | 0 <= i < |s| :: StepInput(c, Tip(c, s[..i]), s[i])
  }

  predicate OwnDigest(d: Option<IntegrityDigest>) {
    d.Some? ==> d.value.algorithm == SHA256
  }

  /** An input splits into its link and its body in one way: a hex link never starts with a brace. */
  lemma StepInputDetermines(
    c: Crypto, p: Option<IntegrityDigest>, a: AuditRecord, q: Option<IntegrityDigest>, b: AuditRecord)
    requires FaithfulCanon(c) && OwnDigest(p) && OwnDigest(q)
    requires StepInput(c, p, a) == StepInput(c, q, b)
    ensures p == q && a.Body() == b.Body()
  {
    var x, y := StepInput(c, p, a), StepInput(c, q, b);
    var bodyA, bodyB := CanonicalInput(c, a), CanonicalInput(c, b);
    assert p.None? ==> x[0] == OPEN_BRACE;
    assert q.None? ==> y[0] == OPEN_BRACE;
    if p.Some? && q.Some? {
      assert x[..64] == Ascii(p.value.value) && y[..64] == Ascii(q.value.value);
      AsciiInjective(p.value.value, q.value.value);
      assert x[64..] == bodyA && y[64..] == bodyB;
    } else {
      assert p.None? && q.None?;
      assert x == bodyA && y == bodyB;
    }
  }

  lemma InputsOfPrefix(c: Crypto, s: seq<AuditRecord>, n: nat)
    requires n <= |s|
    ensures Inputs(c, s[..n]) <= Inputs(c, s)
  {
    hide StepInput, Tip;
    forall x | x in Inputs(c, s[..n]) ensures x in Inputs(c, s) {
      var i :| 0 <= i < n && x == StepInput(c, Tip(c, s[..n][..i]), s[..n][i]);
      assert s[..n][..i] == s[..i];
    }
  }

  lemma TipIsHash(c: Crypto, s: seq<AuditRecord>)
    requires s != []
    ensures
      var n := |s| - 1;
      && Tip(c, s) == Some(HashBytes(c, StepInput(c, Tip(c, s[..n]), s[n])))
      && StepInput(c, Tip(c, s[..n]), s[n]) in Inputs(c, s)
  {
    hide HashBytes, StepInput;
  }

  lemma {:induction false} TipDeterminesBodies(c: Crypto, s: seq<AuditRecord>, t: seq<AuditRecord>, inputs: set<Bytes>)
    requires FaithfulCanon(c) && CollisionFree(c, inputs)
    requires Inputs(c, s) <= inputs && Inputs(c, t) <= inputs
    requires Tip(c, s) == Tip(c, t)
    ensures |s| == |t| && forall i :: 0 <= i < |s| ==> s[i].Body() == t[i].Body()
  {
    hide HashBytes, StepInput, CollisionFree, Tip, Inputs, FaithfulCanon;
    if s != [] {
      var m, n := |s| - 1, |t| - 1;
      TipIsHash(c, s);
      TipIsHash(c, t);
      HashDetermines(c, inputs, StepInput(c, Tip(c, s[..m]), s[m]), StepInput(c, Tip(c, t[..n]), t[n]));
      StepInputDetermines(c, Tip(c, s[..m]), s[m], Tip(c, t[..n]), t[n]);
      InputsOfPrefix(c, s, m);
      InputsOfPrefix(c, t, n);
      TipDeterminesBodies(c, s[..m], t[..n], inputs);
    }
  }

  lemma SealOfBody(c: Crypto, prev: Option<IntegrityDigest>, a: AuditRecord, b: AuditRecord)
    requires a.Body() == b.Body()
    ensures SealAfter(c, prev, a) == SealAfter(c, prev, b) && ChainStep(c, prev, a) == ChainStep(c, prev, b)
  {
    hide HashBytes;
    assert SealAfter(c, prev, a) == a.Body().(integrity := SealAfter(c, prev, a).integrity);
  }

  lemma SealedByBodies(c: Crypto, s: seq<AuditRecord>, t: seq<AuditRecord>)
    requires |s| == |t| && Sealed(c, s) && Sealed(c, t)
    requires forall i :: 0 <= i < |s| ==> s[i].Body() == t[i].Body()
    ensures s == t
  {
    hide SealAfter, Tip;
    forall i | 0 <= i < |s| ensures s[i] == t[i] {
      TipOfBodies(c, s[..i], t[..i]);
      assert SealedAt(c, s, i) && SealedAt(c, t, i);
      SealOfBody(c, Tip(c, s[..i]), s[i], t[i]);
    }
  }

  lemma LastDigestIsTip(c: Crypto, s: seq<AuditRecord>)
    requires s != [] && Verify(c, s).None?
    ensures s[|s| - 1].integrity.Some? && Tip(c, s) == Some(s[|s| - 1].integrity.value.digest)
  {
    hide ChainStep, Verify;
    VerifyIffSealed(c, s);
    assert SealedAt(c, s, |s| - 1);
  }

  /** Two accepted chains that end in the same digest are the same chain, record for record. */
  lemma LastDigestPinsHistory(c: Crypto, s: seq<AuditRecord>, t: seq<AuditRecord>)
    requires s != [] && t != [] && Verify(c, s).None? && Verify(c, t).None?
    requires FaithfulCanon(c) && CollisionFree(c, Inputs(c, s) + Inputs(c, t))
    requires s[|s| - 1].integrity.Some? && t[|t| - 1].integrity.Some?
    requires s[|s| - 1].integrity.value.digest == t[|t| - 1].integrity.value.digest
    ensures s == t
  {
    hide Tip, Verify, Inputs, Sealed, CollisionFree;
    LastDigestIsTip(c, s);
    LastDigestIsTip(c, t);
    TipDeterminesBodies(c, s, t, Inputs(c, s) + Inputs(c, t));
    VerifyIffSealed(c, s);
    VerifyIffSealed(c, t);
    SealedByBodies(c, s, t);
  }
}
