/**
 Deterministic identity: the part lists event ids are derived from. An id is a hash of its
 part list, so two events can share an id only by sharing the list or by a hash collision;
 here the lists themselves are shown to be unambiguous.
 */
module Identity {
  import opened Wrappers
  import opened Records
  import Text
  import Hashing

  function KindText(kind: EventKind): string {
    match kind
    case TransferAuthorized => "transfer-authorized"
    case TransferDenied => "transfer-denied"
    case TransferFlagged => "transfer-flagged"
    case AccountFrozen => "account-frozen"
    case AccountUnfrozen => "account-unfrozen"
    case TokenBound => "token-bound"
    case TokenUnbound => "token-unbound"
    case ConfigurationChanged => "configuration-changed"
    case EnforcementInitialized => "enforcement-initialized"
    case ComplianceDecision => "compliance-decision"
    case PolicyVersionChanged => "policy-version-changed"
    case AuthorizationChanged => "authorization-changed"
    case AuditAccess => "audit-access"
    case InvestigationOpened => "investigation-opened"
    case InvestigationUpdated => "investigation-updated"
    case InvestigationClosed => "investigation-closed"
    case EvidenceGenerated => "evidence-generated"
    case ReportGenerated => "report-generated"
    case RecordCorrected => "record-corrected"
  }

  function EnforcementKindFromWire(s: string): Option<EventKind> {
    if s == "transfer-authorized" then Some(TransferAuthorized)
    else if s == "transfer-denied" then Some(TransferDenied)
    else if s == "transfer-flagged" then Some(TransferFlagged)
    else if s == "account-frozen" then Some(AccountFrozen)
    else if s == "account-unfrozen" then Some(AccountUnfrozen)
    else if s == "token-bound" then Some(TokenBound)
    else if s == "token-unbound" then Some(TokenUnbound)
    else if s == "configuration-changed" then Some(ConfigurationChanged)
    else if s == "enforcement-initialized" then Some(EnforcementInitialized)
    else None
  }

  function AuditKindFromWire(s: string): Option<EventKind> {
    if s == "compliance-decision" then Some(ComplianceDecision)
    else if s == "policy-version-changed" then Some(PolicyVersionChanged)
    else if s == "authorization-changed" then Some(AuthorizationChanged)
    else if s == "audit-access" then Some(AuditAccess)
    else if s == "investigation-opened" then Some(InvestigationOpened)
    else if s == "investigation-updated" then Some(InvestigationUpdated)
    else if s == "investigation-closed" then Some(InvestigationClosed)
    else if s == "evidence-generated" then Some(EvidenceGenerated)
    else if s == "report-generated" then Some(ReportGenerated)
    else if s == "record-corrected" then Some(RecordCorrected)
    else None
  }

  /** Parses a wire string back into a kind. */
  function KindFromWire(s: string): Option<EventKind> {
    if EnforcementKindFromWire(s).Some? then EnforcementKindFromWire(s) else AuditKindFromWire(s)
  }

  predicate IsEnforcementKind(kind: EventKind) {
    kind in {TransferAuthorized, TransferDenied, TransferFlagged, AccountFrozen, AccountUnfrozen,
             TokenBound, TokenUnbound, ConfigurationChanged, EnforcementInitialized}
  }

  predicate IsCaseOrArtifactKind(kind: EventKind) {
    kind in {InvestigationOpened, InvestigationUpdated, InvestigationClosed,
             EvidenceGenerated, ReportGenerated, RecordCorrected}
  }

  lemma EnforcementKindRoundTrip(kind: EventKind)
    requires IsEnforcementKind(kind)
    ensures EnforcementKindFromWire(KindText(kind)) == Some(kind)
  {
  }

  lemma AuditKindsAreNotEnforcement(kind: EventKind)
    requires !IsEnforcementKind(kind)
    ensures EnforcementKindFromWire(KindText(kind)) == None
  {
    if IsCaseOrArtifactKind(kind) {
      LaterKindsAreNotEnforcement(kind);
    }
  }

  lemma LaterKindsAreNotEnforcement(kind: EventKind)
    requires IsCaseOrArtifactKind(kind)
    ensures EnforcementKindFromWire(KindText(kind)) == None
  {
  }

  lemma AuditKindRoundTrip(kind: EventKind)
    requires !IsEnforcementKind(kind)
    ensures AuditKindFromWire(KindText(kind)) == Some(kind)
  {
  }

  lemma KindRoundTrip(kind: EventKind)
    ensures KindFromWire(KindText(kind)) == Some(kind)
  {
    hide EnforcementKindFromWire, AuditKindFromWire, KindText;
    if IsEnforcementKind(kind) {
      EnforcementKindRoundTrip(kind);
    } else {
      AuditKindsAreNotEnforcement(kind);
      AuditKindRoundTrip(kind);
    }
  }

  // ---- Part lists ----

  function Tagged(tag: string, text: string): string {
    tag + text
  }

  lemma TaggedInjective(tag: string, a: string, b: string)
    requires Tagged(tag, a) == Tagged(tag, b)
    ensures a == b
  {
    assert Tagged(tag, a)[|tag|..] == a && Tagged(tag, b)[|tag|..] == b;
  }

  function OptionalPart(tag: string, value: Option<string>): seq<string> {
    if value.Some? then [Tagged(tag, value.value)] else []
  }

  function IndexText(index: Option<U32>): Option<string> {
    if index.Some? then Some(Text.Digits(index.value)) else None
  }

  lemma IndexTextInjective(a: Option<U32>, b: Option<U32>)
    requires IndexText(a) == IndexText(b)
    ensures a == b
  {
    if a.Some? {
      Text.DigitsInjective(a.value, b.value);
    }
  }

  /** Two optional tagged parts whose tags differ in their first character, read back unambiguously. */
  lemma OptionalPairInjective(
    t: string, u: string,
    a1: Option<string>, b1: Option<string>, a2: Option<string>, b2: Option<string>)
    requires t != [] && u != [] && t[0] != u[0]
    requires OptionalPart(t, a1) + OptionalPart(u, b1) == OptionalPart(t, a2) + OptionalPart(u, b2)
    ensures a1 == a2 && b1 == b2
  {
    var x, y := OptionalPart(t, a1) + OptionalPart(u, b1), OptionalPart(t, a2) + OptionalPart(u, b2);
    assert |x| == |y|;
    if a1.Some? || b1.Some? {
      assert x[0] == y[0] && x[0] != [];
      assert x[0][0] == (if a1.Some? then t[0] else u[0]);
      assert y[0][0] == (if a2.Some? then t[0] else u[0]);
      assert a1.Some? == a2.Some?;
      assert x[|x| - 1] == y[|y| - 1];
      if a1.Some? {
        TaggedInjective(t, a1.value, a2.value);
      }
      if b1.Some? {
        TaggedInjective(u, b1.value, b2.value);
      }
    }
  }

  /** Network, transaction, optional operation and event index, kind. */
  function OnchainParts(
    network: string, tx: string, op: Option<U32>, event: Option<U32>, kind: EventKind): seq<string>
  {
    [network, tx] + (OptionalPart("op:", IndexText(op)) + OptionalPart("ev:", IndexText(event))) + [KindText(kind)]
  }

  lemma FramedInjective<T>(a: T, b: T, mid: seq<T>, z: T, a': T, b': T, mid': seq<T>, z': T)
    requires [a, b] + mid + [z] == [a', b'] + mid' + [z']
    ensures a == a' && b == b' && mid == mid' && z == z'
  {
    var x, y := [a, b] + mid + [z], [a', b'] + mid' + [z'];
    assert |mid| == |mid'|;
    assert x[0] == a && y[0] == a' && x[1] == b && y[1] == b';
    assert x[2..|x| - 1] == mid && y[2..|y| - 1] == mid';
    assert x[|x| - 1] == z && y[|y| - 1] == z';
  }

  /** Distinct on-chain identities have distinct part lists, whichever indexes are missing. */
  lemma OnchainPartsInjective(
    n1: string, tx1: string, op1: Option<U32>, ev1: Option<U32>, k1: EventKind,
    n2: string, tx2: string, op2: Option<U32>, ev2: Option<U32>, k2: EventKind)
    requires OnchainParts(n1, tx1, op1, ev1, k1) == OnchainParts(n2, tx2, op2, ev2, k2)
    ensures n1 == n2 && tx1 == tx2 && op1 == op2 && ev1 == ev2 && k1 == k2
  {
    hide KindText, KindFromWire, OptionalPart;
    FramedInjective(
      n1, tx1, OptionalPart("op:", IndexText(op1)) + OptionalPart("ev:", IndexText(ev1)), KindText(k1),
      n2, tx2, OptionalPart("op:", IndexText(op2)) + OptionalPart("ev:", IndexText(ev2)), KindText(k2));
    OptionalPairInjective("op:", "ev:", IndexText(op1), IndexText(ev1), IndexText(op2), IndexText(ev2));
    IndexTextInjective(op1, op2);
    IndexTextInjective(ev1, ev2);
    KindRoundTrip(k1);
    KindRoundTrip(k2);
  }

  const DERIVED := "derived:"

  /** Network, derivation method, then the stable source references. */
  function DerivedParts(network: string, derivation: string, refs: seq<string>): seq<string> {
    [network, Tagged(DERIVED, derivation)] + refs
  }

  lemma DerivedPartsInjective(n1: string, m1: string, refs1: seq<string>, n2: string, m2: string, refs2: seq<string>)
    requires DerivedParts(n1, m1, refs1) == DerivedParts(n2, m2, refs2)
    ensures n1 == n2 && m1 == m2 && refs1 == refs2
  {
    hide Tagged;
    var x, y := DerivedParts(n1, m1, refs1), DerivedParts(n2, m2, refs2);
    assert x[0] == n1 && y[0] == n2 && x[1] == Tagged(DERIVED, m1) && y[1] == Tagged(DERIVED, m2);
    assert x[2..] == refs1 && y[2..] == refs2;
    TaggedInjective(DERIVED, m1, m2);
  }

  /** What the hooks validator demands of a transaction hash. */
  predicate CheckedTxHash(hash: string) {
    |hash| == 64 && forall i :: 0 <= i < |hash| ==> IsHexLower(hash[i])
  }

  /** The check admits exactly the lowercase hex renderings of thirty-two bytes. */
  lemma CheckedIsDigestText(hash: string)
    ensures CheckedTxHash(hash) <==> exists sum: Hashing.Sum :: Hashing.HexLower(sum) == hash
  {
    if CheckedTxHash(hash) {
      Hashing.HexDecodes(hash);
      var sum: Hashing.Sum := Hashing.FromHex(hash);
      assert Hashing.HexLower(sum) == hash;
    }
  }

  /** Lists of the two families coincide only if the transaction text imitates a derivation tag. */
  lemma OnchainDerivedOverlap(
    n1: string, tx: string, op: Option<U32>, ev: Option<U32>, kind: EventKind,
    n2: string, derivation: string, refs: seq<string>)
    requires OnchainParts(n1, tx, op, ev, kind) == DerivedParts(n2, derivation, refs)
    ensures tx == Tagged(DERIVED, derivation) && !CheckedTxHash(tx)
  {
    hide KindText, OptionalPart, IndexText;
    assert OnchainParts(n1, tx, op, ev, kind)[1] == tx;
    assert DerivedParts(n2, derivation, refs)[1] == Tagged(DERIVED, derivation);
    assert tx[1] == 'e' && tx[2] == 'r';
  }

  /** A transaction text can yield a derived event's part list exactly when it starts with the derivation tag. */
  lemma OverlapIff(network: string, tx: string, op: Option<U32>, ev: Option<U32>, kind: EventKind)
    ensures (exists n, m, refs :: OnchainParts(network, tx, op, ev, kind) == DerivedParts(n, m, refs)) <==>
      DERIVED <= tx
  {
    hide KindText, OptionalPart, IndexText;
    var parts := OnchainParts(network, tx, op, ev, kind);
    if n, m, refs :| parts == DerivedParts(n, m, refs) {
      OnchainDerivedOverlap(network, tx, op, ev, kind, n, m, refs);
    }
    if DERIVED <= tx {
      assert tx == Tagged(DERIVED, tx[|DERIVED|..]);
      assert parts == DerivedParts(network, tx[|DERIVED|..], parts[2..]);
    }
  }

  /** Without the hash check the two families do overlap. */
  lemma UncheckedHashOverlaps()
    ensures OnchainParts("testnet", "derived:x", None, None, AuditAccess)
      == DerivedParts("testnet", "x", ["audit-access"])
  {
    assert Tagged(DERIVED, "x") == "derived:x";
  }

  // ---- Transfers ----

  datatype DecisionResult = Allowed | Denied | Flagged

  function DecisionText(d: DecisionResult): string {
    match d
    case Allowed => "allowed"
    case Denied => "denied"
    case Flagged => "flagged"
  }

  function TransferRefs(
    tx: string, op: U32, token: string, from: Option<string>, to: Option<string>, outcome: DecisionResult): seq<string>
  {
    [Tagged("tx:", tx), Tagged("op:", Text.Digits(op)), Tagged("token:", token)]
    + (OptionalPart("from:", from) + OptionalPart("to:", to))
    + [Tagged("outcome:", DecisionText(outcome))]
  }

  /** Distinct transfer outcomes have distinct reference lists, whichever parties are missing. */
  lemma TransferRefsInjective(
    tx1: string, op1: U32, token1: string, from1: Option<string>, to1: Option<string>, o1: DecisionResult,
    tx2: string, op2: U32, token2: string, from2: Option<string>, to2: Option<string>, o2: DecisionResult)
    requires TransferRefs(tx1, op1, token1, from1, to1, o1) == TransferRefs(tx2, op2, token2, from2, to2, o2)
    ensures tx1 == tx2 && op1 == op2 && token1 == token2 && from1 == from2 && to1 == to2 && o1 == o2
  {
    hide OptionalPart, Tagged;
    var x, y := TransferRefs(tx1, op1, token1, from1, to1, o1), TransferRefs(tx2, op2, token2, from2, to2, o2);
    var p1, p2 := OptionalPart("from:", from1) + OptionalPart("to:", to1),
      OptionalPart("from:", from2) + OptionalPart("to:", to2);
    assert |p1| == |p2|;
    assert x[0] == y[0] && x[1] == y[1] && x[2] == y[2] && x[|x| - 1] == y[|y| - 1];
    assert x[3..|x| - 1] == p1 && y[3..|y| - 1] == p2;
    TaggedInjective("tx:", tx1, tx2);
    TaggedInjective("op:", Text.Digits(op1), Text.Digits(op2));
    Text.DigitsInjective(op1, op2);
    TaggedInjective("token:", token1, token2);
    OptionalPairInjective("from:", "to:", from1, to1, from2, to2);
    TaggedInjective("outcome:", DecisionText(o1), DecisionText(o2));
  }

  // ---- Case lifecycle steps ----

  const LIFECYCLE := "investigation-lifecycle"

  function LifecycleParts(network: string, caseId: string, actor: string, step: nat): seq<string> {
    DerivedParts(network, LIFECYCLE, [caseId, actor, Tagged("step:", Text.Digits(step))])
  }

  /** The Nth step of a case by an actor has an identity of its own. */
  lemma LifecyclePartsInjective(
    n1: string, c1: string, a1: string, s1: nat, n2: string, c2: string, a2: string, s2: nat)
    requires LifecycleParts(n1, c1, a1, s1) == LifecycleParts(n2, c2, a2, s2)
    ensures n1 == n2 && c1 == c2 && a1 == a2 && s1 == s2
  {
    hide Tagged, DerivedParts;
    var refs1, refs2 := [c1, a1, Tagged("step:", Text.Digits(s1))], [c2, a2, Tagged("step:", Text.Digits(s2))];
    DerivedPartsInjective(n1, LIFECYCLE, refs1, n2, LIFECYCLE, refs2);
    assert refs1[0] == refs2[0] && refs1[1] == refs2[1] && refs1[2] == refs2[2];
    TaggedInjective("step:", Text.Digits(s1), Text.Digits(s2));
    Text.DigitsInjective(s1, s2);
  }
}
