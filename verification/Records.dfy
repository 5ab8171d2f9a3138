/** The persisted vocabulary of the audit domain: normalized events and audit records. */
module Records {
  import opened Wrappers

  predicate FitsI64(x: int) {
    -0x8000_0000_0000_0000 <= x < 0x8000_0000_0000_0000
  }

  predicate FitsU32(x: int) {
    0 <= x < 0x1_0000_0000
  }

  type I64 = x: int | FitsI64(x)
  type U32 = x: nat | FitsU32(x)

  type RecordId = string
  type EventId = string

  const EVENT_SCHEMA_VERSION := 1
  const RECORD_SCHEMA_VERSION := 1

  datatype EventKind =
    | TransferAuthorized | TransferDenied | TransferFlagged
    | AccountFrozen | AccountUnfrozen
    | TokenBound | TokenUnbound
    | ConfigurationChanged | EnforcementInitialized
    | ComplianceDecision | PolicyVersionChanged | AuthorizationChanged | AuditAccess
    | InvestigationOpened | InvestigationUpdated | InvestigationClosed
    | EvidenceGenerated | ReportGenerated | RecordCorrected

  datatype OriginKind = OnChain | Derived | Imported | Simulated

  datatype DerivationInfo = DerivationInfo(method_: string, note: string)

  datatype EventProvenance = EventProvenance(
    origin: OriginKind, source: string, parserVersion: string, derivation: Option<DerivationInfo>)

  /** Placement in the on-chain hierarchy; every level is optional. */
  datatype EventOrder = EventOrder(
    ledgerSequence: Option<I64>,
    transactionPosition: Option<U32>,
    operationIndex: Option<U32>,
    eventIndex: Option<U32>)

  const UNPLACED := EventOrder(None, None, None, None)

  datatype TransactionReference = TransactionReference(network: string, hash: string)

  datatype OperationReference = OperationReference(transaction: TransactionReference, index: U32)

  /** A ledger, token or account named together with the network it lives on. */
  datatype NetworkReference = NetworkReference(network: string, name: string)

  datatype AuditEvent = AuditEvent(
    eventId: EventId,
    kind: EventKind,
    schemaVersion: int,
    network: string,
    provenance: EventProvenance,
    observedAt: Option<I64>,
    order: EventOrder,
    ledger: Option<NetworkReference>,
    transaction: Option<TransactionReference>,
    operation: Option<OperationReference>,
    token: Option<NetworkReference>,
    actor: Option<NetworkReference>,
    subject: Option<NetworkReference>,
    details: map<string, string>)
  {
    predicate OnNetwork(reference: Option<NetworkReference>) {
      reference.Some? ==> reference.value.network == network
    }

    /** Schema supported, derivation present when derived, one network, operation inside its transaction. */
    predicate Valid() {
      && schemaVersion == EVENT_SCHEMA_VERSION
      && (provenance.origin == Derived ==> provenance.derivation.Some?)
      && OnNetwork(ledger) && OnNetwork(token) && OnNetwork(actor) && OnNetwork(subject)
      && (transaction.Some? ==> transaction.value.network == network)
      && (operation.Some? ==> transaction.Some? && operation.value.transaction == transaction.value)
    }
  }

  datatype DataClassification = Public | Operational | Confidential | Restricted | HighlyRestricted {
    function Rank(): (r: nat)
      ensures r <= 4
    {
      match this
      case Public => 0
      case Operational => 1
      case Confidential => 2
      case Restricted => 3
      case HighlyRestricted => 4
    }

    predicate IsAtLeast(other: DataClassification) {
      Rank() >= other.Rank()
    }
  }

  predicate IsHexLower(c: char) {
    '0' <= c <= '9' || 'a' <= c <= 'f'
  }

  const HEX_ZEROS: string := seq(64, _ => '0')

  /** Sixty-four lowercase hexadecimal characters. */
  type HexString = s: string | |s| == 64 && forall i :: 0 <= i < |s| ==> IsHexLower(s[i])
    witness HEX_ZEROS

  const SHA256 := "sha-256"

  datatype IntegrityDigest = IntegrityDigest(algorithm: string, value: HexString)

  datatype RecordIntegrity = RecordIntegrity(
    digest: IntegrityDigest, prevDigest: Option<IntegrityDigest>, chained: bool)

  datatype AuditRecord = AuditRecord(
    recordId: RecordId,
    event: AuditEvent,
    recordedAt: I64,
    schemaVersion: int,
    classification: DataClassification,
    redactions: map<string, DataClassification>,
    supersedes: Option<RecordId>,
    correctionReason: Option<string>,
    integrity: Option<RecordIntegrity>)
  {
    /** Correction links appear on `RecordCorrected` records and on no others. */
    predicate Valid() {
      && event.Valid()
      && schemaVersion == RECORD_SCHEMA_VERSION
      && (event.kind == RecordCorrected ==> supersedes.Some? && correctionReason.Some?)
      && (event.kind != RecordCorrected ==> supersedes.None? && correctionReason.None?)
    }

    /** The record with its integrity block cleared: what every digest covers. */
    function Body(): AuditRecord {
      this.(integrity := None)
    }
  }

  /** The record made for `event`; `identify` is the hash of the event's canonical bytes. */
  function RecordFor(event: AuditEvent, now: I64, identify: AuditEvent -> RecordId): (r: AuditRecord)
  {
    AuditRecord(identify(event), event, now, RECORD_SCHEMA_VERSION, Confidential, map[], None, None, None)
  }

  function FromEvent(event: AuditEvent, now: I64, identify: AuditEvent -> RecordId): (r: Option<AuditRecord>)
    ensures r.Some? ==> (r.value.Valid() <==> event.kind != RecordCorrected)
  {
    if event.Valid() then Some(RecordFor(event, now, identify)) else None
  }
}
