/** The investigation case: its lifecycle, its timeline, and the rules it is validated against. */
module Cases {
  import opened Wrappers
  import opened Records

  datatype CaseStatus = Open | Investigating | Escalated | Resolved | Closed

  function StatusText(s: CaseStatus): string {
    match s
    case Open => "open"
    case Investigating => "investigating"
    case Escalated => "escalated"
    case Resolved => "resolved"
    case Closed => "closed"
  }

  lemma StatusTextTells(a: CaseStatus, b: CaseStatus)
    ensures StatusText(a) == StatusText(b) ==> a == b
  {
    assert StatusText(a)[0] == StatusText(b)[0] ==> a == b;
  }

  predicate CanTransition(from: CaseStatus, to: CaseStatus) {
    (from, to) in {
      (Open, Investigating), (Open, Escalated),
      (Investigating, Escalated), (Investigating, Resolved),
      (Escalated, Investigating), (Escalated, Resolved),
      (Resolved, Closed), (Resolved, Open), (Closed, Open)}
  }

  /**
   The lifecycle as it can really be walked: work leads to a resolution, only that to closing, and
   closing is final.
   */
  predicate LifecycleMove(from: CaseStatus, to: CaseStatus) {
    match from
    case Open => to == Investigating || to == Escalated
    case Investigating => to == Escalated || to == Resolved
    case Escalated => to == Investigating || to == Resolved
    case Resolved => to == Closed || to == Open
    case Closed => false
  }

  lemma MoveTable(from: CaseStatus, to: CaseStatus)
    ensures CanTransition(from, to) <==> LifecycleMove(from, to) || (from == Closed && to == Open)
  {
  }

  datatype Priority = Low | Medium | High | Critical

  datatype TimelineEntryKind =
    | TransactionObserved | PolicyDecision | EnforcementDecision | FreezeObserved | Denial
    | AuthorizationChange | AuditorAccess | EvidenceGeneration
    | FindingAdded | StatusChanged | NoteAdded

  /** Entries that record what an auditor did, and so must name one. */
  predicate IsAuditorAction(kind: TimelineEntryKind) {
    kind in {FindingAdded, StatusChanged, NoteAdded}
  }

  datatype TimelineEntry = TimelineEntry(
    at: I64, kind: TimelineEntryKind, actor: Option<string>, record: Option<RecordId>, provenance: string,
      detail: Option<string>)

  datatype FindingKind = PolicyVerdict | EnforcementVerdict | Anomaly | Pattern | IntegrityConcern

  datatype Severity = Info | LowSeverity | MediumSeverity | HighSeverity | CriticalSeverity

  datatype Finding = Finding(
    findingId: string, kind: FindingKind, severity: Severity, summary: string,
    relatedRecords: seq<RecordId>, createdAt: I64, createdBy: string)

  datatype Note = Note(noteId: string, author: string, body: string, createdAt: I64)

  datatype InvestigationCase = InvestigationCase(
    caseId: string,
    title: string,
    status: CaseStatus,
    priority: Priority,
    createdAt: I64,
    createdBy: string,
    assignedTo: Option<string>,
    relatedRecords: seq<RecordId>,
    timeline: seq<TimelineEntry>,
    findings: seq<Finding>,
    notes: seq<Note>,
    closedAt: Option<I64>,
    closedReason: Option<string>)
  {
    /** Closure fields agree with the status, and auditor actions name their auditor. */
    predicate Valid() {
      && (status == Closed ==> closedAt.Some?)
      && (status != Closed ==> closedAt.None? && closedReason.None?)
      && forall i :: 0 <= i < |timeline| && IsAuditorAction(timeline[i].kind) ==> timeline[i].actor.Some?
    }
  }

  /** An auditor action that names no auditor. */
  predicate ForgedEntry(e: TimelineEntry) {
    IsAuditorAction(e.kind) && e.actor.None?
  }

  predicate Forged(c: InvestigationCase) {
    exists i :: 0 <= i < |c.timeline| && ForgedEntry(c.timeline[i])
  }

  const AUDITOR_ACTION := "auditor-action"
  const AUDIT_RECORD := "audit-record"

  function OpenedCase(
    caseId: string, title: string, priority: Priority, at: I64, auditor: string): Option<InvestigationCase>
  {
    if 1 <= |title| <= 200 then
      Some(InvestigationCase(caseId, title, Open, priority, at, auditor, None, [], [], [], [], None, None))
    else None
  }

  function Assigned(c: InvestigationCase, investigator: string, at: I64): InvestigationCase {
    c.(assignedTo := Some(investigator),
       timeline := c.timeline + [TimelineEntry(at, StatusChanged, Some(investigator), None, AUDITOR_ACTION,
         Some("case assigned"))])
  }

  function MoveText(from: CaseStatus, to: CaseStatus, reason: Option<string>): string {
    var move := StatusText(from) + " -> " + StatusText(to);
    if reason.Some? then move + " (" + reason.value + ")" else move
  }

  /** `None` for a move the lifecycle does not allow. Closure fields are set on closing and never cleared. */
  function StatusMoved(
    c: InvestigationCase, to: CaseStatus, at: I64, auditor: string, reason: Option<string>): Option<InvestigationCase>
  {
    if !CanTransition(c.status, to) then None
    else
      var entry := TimelineEntry(at, StatusChanged, Some(auditor), None, AUDITOR_ACTION,
        Some(MoveText(c.status, to, reason)));
      var moved := c.(timeline := c.timeline + [entry], status := to);
      Some(if to == Closed then moved.(closedAt := Some(at), closedReason := reason) else moved)
  }

  function RecordLinked(c: InvestigationCase, record: RecordId, kind: TimelineEntryKind, at: I64): InvestigationCase {
    c.(relatedRecords := c.relatedRecords + [record],
       timeline := c.timeline + [TimelineEntry(at, kind, None, Some(record), AUDIT_RECORD, None)])
  }

  function FindingRecorded(c: InvestigationCase, finding: Finding, at: I64): InvestigationCase {
    c.(timeline := c.timeline + [TimelineEntry(at, FindingAdded, Some(finding.createdBy), None, AUDITOR_ACTION, None)],
       findings := c.findings + [finding])
  }

  function NoteRecorded(c: InvestigationCase, note: Note): InvestigationCase {
    c.(timeline := c.timeline + [TimelineEntry(note.createdAt, NoteAdded, Some(note.author), None, AUDITOR_ACTION,
      None)],
       notes := c.notes + [note])
  }

  // ---- The case object ----

  /** A case being worked on: mutated in place, then stored back as a value. */
  class CaseObject {
    const caseId: string
    const title: string
    const priority: Priority
    const createdAt: I64
    const createdBy: string
    var status: CaseStatus
    var assignedTo: Option<string>
    var relatedRecords: seq<RecordId>
    var timeline: seq<TimelineEntry>
    var findings: seq<Finding>
    var notes: seq<Note>
    var closedAt: Option<I64>
    var closedReason: Option<string>

    function State(): InvestigationCase
      reads this
    {
      InvestigationCase(
        caseId, title, status, priority, createdAt, createdBy, assignedTo, relatedRecords, timeline, findings, notes,
        closedAt, closedReason)
    }

    constructor Load(c: InvestigationCase)
      ensures State() == c
    {
      caseId, title, priority, createdAt, createdBy := c.caseId, c.title, c.priority, c.createdAt, c.createdBy;
      status, assignedTo, relatedRecords, timeline := c.status, c.assignedTo, c.relatedRecords, c.timeline;
      findings, notes, closedAt, closedReason := c.findings, c.notes, c.closedAt, c.closedReason;
    }

    method Assign(investigator: string, at: I64)
      modifies this
      ensures State() == Assigned(old(State()), investigator, at)
    {
      assignedTo := Some(investigator);
      timeline := timeline + [TimelineEntry(at, StatusChanged, Some(investigator), None, AUDITOR_ACTION,
        Some("case assigned"))];
    }

    /** A refused move leaves the case as it was. */
    method ChangeStatus(to: CaseStatus, at: I64, auditor: string, reason: Option<string>) returns (ok: bool)
      modifies this
      ensures ok <==> CanTransition(old(status), to)
      ensures ok ==> StatusMoved(old(State()), to, at, auditor, reason) == Some(State())
      ensures !ok ==> State() == old(State())
    {
      ok := CanTransition(status, to);
      if !ok {
        return;
      }
      var entry := TimelineEntry(
        at, StatusChanged, Some(auditor), None, AUDITOR_ACTION, Some(StatusText(status) + " -> " + StatusText(to)));
      if reason.Some? {
        entry := entry.(detail := Some(StatusText(status) + " -> " + StatusText(to) + " (" + reason.value + ")"));
      }
      assert entry.detail == Some(MoveText(status, to, reason));
      timeline := timeline + [entry];
      status := to;
      if to == Closed {
        closedAt := Some(at);
        closedReason := reason;
      }
    }

    method AddRelatedRecord(record: RecordId, kind: TimelineEntryKind, at: I64)
      modifies this
      ensures State() == RecordLinked(old(State()), record, kind, at)
    {
      relatedRecords := relatedRecords + [record];
      timeline := timeline + [TimelineEntry(at, kind, None, Some(record), AUDIT_RECORD, None)];
    }

    method AddFinding(finding: Finding, at: I64)
      modifies this
      ensures State() == FindingRecorded(old(State()), finding, at)
    {
      timeline := timeline + [TimelineEntry(at, FindingAdded, Some(finding.createdBy), None, AUDITOR_ACTION, None)];
      findings := findings + [finding];
    }

    method AddNote(note: Note)
      modifies this
      ensures State() == NoteRecorded(old(State()), note)
    {
      timeline := timeline + [TimelineEntry(note.createdAt, NoteAdded, Some(note.author), None, AUDITOR_ACTION, None)];
      notes := notes + [note];
    }

    method Validate() returns (ok: bool)
      ensures ok <==> State().Valid()
    {
      match status {
        case Closed =>
          if closedAt.None? {
            return false;
          }
        case _ =>
          if closedAt.Some? || closedReason.Some? {
            return false;
          }
      }
      for n := 0 to |timeline|
        invariant forall i :: 0 <= i < n && IsAuditorAction(timeline[i].kind) ==> timeline[i].actor.Some?
      {
        if timeline[n].actor.None? && IsAuditorAction(timeline[n].kind) {
          return false;
        }
      }
      return true;
    }
  }

  /** Linking keeps a case valid exactly when the entry kind is not an auditor action. */
  lemma LinkKeepsValidIff(c: InvestigationCase, record: RecordId, kind: TimelineEntryKind, at: I64)
    requires c.Valid()
    ensures RecordLinked(c, record, kind, at).Valid()
       <==> kind != FindingAdded && kind != StatusChanged && kind != NoteAdded
  {
    var linked := RecordLinked(c, record, kind, at);
    assert linked.timeline[|c.timeline|] == TimelineEntry(at, kind, None, Some(record), AUDIT_RECORD, None);
  }

  /** A move keeps an open case valid, whatever its target; from a closed case it never does. */
  lemma MoveKeepsValidIff(c: InvestigationCase, to: CaseStatus, at: I64, auditor: string, reason: Option<string>)
    requires c.Valid() && CanTransition(c.status, to)
    ensures StatusMoved(c, to, at, auditor, reason).value.Valid() <==> c.status != Closed
  {
  }

  /** Once an auditor action without an auditor is on the timeline, no later state of the case is valid. */
  lemma PoisonedStays(c: InvestigationCase, later: InvestigationCase, i: nat)
    requires i < |c.timeline| && ForgedEntry(c.timeline[i])
    requires c.timeline <= later.timeline
    ensures !c.Valid() && !later.Valid()
  {
    assert later.timeline[i] == c.timeline[i];
  }
}
