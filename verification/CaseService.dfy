/**
 The case workflow: every operation authorizes, mutates a case through the case store, and
 records the step in the audit store.
 */
module CaseService {
  import opened Wrappers
  import opened Records
  import opened EventStore
  import opened DerivedEvents
  import opened Identity
  import opened Cases
  import Text

  datatype CaseError =
    | NotAuthorized | CaseNotFound | CaseAlreadyExists | ClosedCase | InvalidTransition | InvalidContent
    | MissingRecord | Internal | LifecycleRecord

  /** The service's fixed surroundings: identity, clock, hashes, and the authorizer's verdicts. */
  datatype Service = Service(
    origin: Origin, now: I64, ids: Ids,
    caseId: string -> string, findingId: seq<string> -> string, noteId: seq<string> -> string,
    mayInvestigate: string -> bool, isAdministrator: string -> bool)

  /** Current state and history. */
  datatype World = World(cases: map<string, InvestigationCase>, audit: Store)

  datatype Operation =
    | OpenCase(actor: string, title: string, priority: Priority, caseKey: string)
    | Assign(actor: string, caseId: string, investigator: string)
    | Transition(actor: string, caseId: string, to: CaseStatus, reason: Option<string>)
    | LinkRecord(actor: string, caseId: string, recordId: RecordId, kind: TimelineEntryKind)
    | AddFinding(
        actor: string, caseId: string, findingKind: FindingKind, severity: Severity, summary: string,
        related: seq<RecordId>)
    | AddNote(actor: string, caseId: string, body: string)

  // ---- What each operation would commit ----

  /** A mutated case together with the lifecycle step that reports it. */
  datatype Commit = Commit(state: InvestigationCase, summary: Option<string>)

  function GetOpen(svc: Service, w: World, actor: string, caseId: string): Result<InvestigationCase, CaseError> {
    if !svc.mayInvestigate(actor) then Err(NotAuthorized)
    else if caseId !in w.cases then Err(CaseNotFound)
    else if w.cases[caseId].status == Closed then Err(ClosedCase)
    else Ok(w.cases[caseId])
  }

  function Opening(svc: Service, w: World, actor: string, title: string, priority: Priority, caseKey: string)
    : Result<Commit, CaseError>
  {
    if !svc.mayInvestigate(actor) then Err(NotAuthorized)
    else
      match OpenedCase(svc.caseId(caseKey), title, priority, svc.now, actor)
      case None => Err(InvalidContent)
      case Some(c) => if c.caseId in w.cases then Err(CaseAlreadyExists) else Ok(Commit(c, Some(title)))
  }

  function Moving(svc: Service, w: World, actor: string, caseId: string, to: CaseStatus, reason: Option<string>)
    : Result<Commit, CaseError>
  {
    if caseId !in w.cases then Err(CaseNotFound)
    else
      var c := w.cases[caseId];
      if to == Closed && reason.None? then Err(InvalidContent)
      else if c.status == Closed && to != Open then Err(ClosedCase)
      else if c.status == Closed && !svc.isAdministrator(actor) then Err(NotAuthorized)
      else if c.status != Closed && !svc.mayInvestigate(actor) then Err(NotAuthorized)
      else
        match StatusMoved(c, to, svc.now, actor, reason)
        case None => Err(InvalidTransition)
        case Some(moved) => if moved.Valid() then Ok(Commit(moved, None)) else Err(Internal)
  }

  function StepRef(tag: string, c: InvestigationCase): string {
    Tagged(tag, Text.Digits(|c.timeline|))
  }

  function NewFinding(svc: Service, c: InvestigationCase, op: Operation): Finding
    requires op.AddFinding?
  {
    Finding(
      svc.findingId([c.caseId, StepRef("finding:", c)]), op.findingKind, op.severity, op.summary, op.related,
      svc.now, op.actor)
  }

  function NewNote(svc: Service, c: InvestigationCase, op: Operation): Note
    requires op.AddNote?
  {
    Note(svc.noteId([c.caseId, StepRef("note:", c)]), op.actor, op.body, svc.now)
  }

  /** All the checks and the mutation of an operation, before anything is stored. */
  function Prepare(svc: Service, w: World, op: Operation): Result<Commit, CaseError> {
    match op
    case OpenCase(actor, title, priority, caseKey) => Opening(svc, w, actor, title, priority, caseKey)
    case Transition(actor, caseId, to, reason) => Moving(svc, w, actor, caseId, to, reason)
    case Assign(actor, caseId, investigator) => (
      match GetOpen(svc, w, actor, caseId)
      case Err(e) => Err(e)
      case Ok(c) => Ok(Commit(Assigned(c, investigator, svc.now), None)))
    case LinkRecord(actor, caseId, recordId, kind) => (
      match GetOpen(svc, w, actor, caseId)
      case Err(e) => Err(e)
      case Ok(c) =>
        if Get(w.audit, recordId).Err? then Err(MissingRecord)
        else Ok(Commit(RecordLinked(c, recordId, kind, svc.now), None)))
    case AddFinding(actor, caseId, _, _, summary, _) => (
      match GetOpen(svc, w, actor, caseId)
      case Err(e) => Err(e)
      case Ok(c) =>
        if 1 <= |summary| <= 512 then Ok(Commit(FindingRecorded(c, NewFinding(svc, c, op), svc.now), Some(summary)))
        else Err(InvalidContent))
    case AddNote(actor, caseId, body) => (
      match GetOpen(svc, w, actor, caseId)
      case Err(e) => Err(e)
      case Ok(c) =>
        if 1 <= |body| <= 4096 then Ok(Commit(NoteRecorded(c, NewNote(svc, c, op)), None))
        else Err(InvalidContent))
  }

  // ---- Recording a step ----

  /** What a lifecycle step says: who, which step, the status it led to, and a summary. */
  datatype Step = Step(actor: string, kind: EventKind, status: CaseStatus, summary: Option<string>)

  function StepOf(op: Operation, c: Commit): (s: Step)
    ensures s.kind != RecordCorrected
  {
    var kind :=
      if op.OpenCase? then InvestigationOpened
      else if c.state.status == Closed then InvestigationClosed else InvestigationUpdated;
    Step(op.actor, kind, c.state.status, c.summary)
  }

  function StepDetails(caseId: string, s: Step): map<string, string> {
    var base := map["case" := caseId, "actor" := s.actor, "status" := StatusText(s.status)];
    if s.summary.Some? then base["summary" := s.summary.value] else base
  }

  /** Step `n` of a case as a record; `None` when the service's source label is refused. */
  function StepRecord(svc: Service, caseId: string, n: nat, s: Step): (r: Option<AuditRecord>)
    requires s.kind != RecordCorrected
    ensures r.Some? <==> ValidSource(svc.origin.source)
    ensures r.Some? ==> r.value.Valid()
    ensures r.Some? ==> r.value.event.eventId == svc.ids.event(LifecycleParts(svc.origin.network, caseId, s.actor, n))
    ensures r.Some? ==> r.value.recordId == svc.ids.record(r.value.event)
  {
    DerivedRecord(
      svc.ids, svc.origin, svc.now, s.kind, LIFECYCLE,
      "case lifecycle step recorded by the investigation service",
      [caseId, s.actor, Tagged("step:", Text.Digits(n))], StepDetails(caseId, s))
  }

  /** What a lifecycle record states, field by field. */
  lemma StepRecordSays(svc: Service, caseId: string, n: nat, s: Step)
    requires s.kind != RecordCorrected && ValidSource(svc.origin.source)
    ensures
      var r := StepRecord(svc, caseId, n, s).value;
      && r.event.kind == s.kind && r.event.network == svc.origin.network && r.recordedAt == svc.now
      && r.event.provenance.origin == Derived && r.event.provenance.source == svc.origin.source
      && r.event.provenance.parserVersion == svc.origin.parser && r.event.provenance.derivation.Some?
      && r.event.provenance.derivation.value.method_ == "investigation-lifecycle"
      && r.event.eventId == svc.ids.event(
           [svc.origin.network, "derived:investigation-lifecycle", caseId, s.actor, "step:" + Text.Digits(n)])
      && r.event.details.Keys == {"case", "actor", "status"} + (if s.summary.Some? then {"summary"} else {})
      && r.event.details["case"] == caseId && r.event.details["actor"] == s.actor
      && r.event.details["status"] == StatusText(s.status)
      && (s.summary.Some? ==> r.event.details["summary"] == s.summary.value)
      && r.classification == Confidential && r.integrity == None && r.supersedes == None
  {
    hide DetailPolicy, Declared;
    StepPartsSay(svc.origin.network, caseId, s.actor, n);
  }

  lemma StepPartsSay(network: string, caseId: string, actor: string, n: nat)
    ensures LifecycleParts(network, caseId, actor, n)
            == [network, "derived:investigation-lifecycle", caseId, actor, "step:" + Text.Digits(n)]
  {
    assert Tagged(DERIVED, LIFECYCLE) == "derived:investigation-lifecycle";
  }

  /** The declared sensitivity of a lifecycle record's details. */
  lemma StepRecordProtects(svc: Service, caseId: string, n: nat, s: Step)
    requires s.kind == InvestigationOpened || s.kind == InvestigationUpdated || s.kind == InvestigationClosed
    requires ValidSource(svc.origin.source)
    ensures
      var r := StepRecord(svc, caseId, n, s).value;
      && r.redactions.Keys == r.event.details.Keys
      && r.redactions["case"] == Operational && r.redactions["actor"] == Operational
      && r.redactions["status"] == Operational
      && (s.summary.Some? ==> r.redactions["summary"] == Confidential)
  {
    hide DerivedParts;
  }

  /** The state between the case store write and the audit store write. */
  function Updated(w: World, c: Commit): World {
    w.(cases := w.cases[c.state.caseId := c.state])
  }

  function Perform(svc: Service, w: World, op: Operation): (Result<InvestigationCase, CaseError>, World) {
    match Prepare(svc, w, op)
    case Err(e) => (Err(e), w)
    case Ok(c) =>
      match StepRecord(svc, c.state.caseId, |c.state.timeline|, StepOf(op, c))
      case None => (Err(LifecycleRecord), Updated(w, c))
      case Some(r) => (Ok(c.state), Updated(w, c).(audit := InsertRecord(w.audit, r)))
  }

  // ---- What operations do, seen from outside ----

  /** An opened case, field by field. */
  lemma OpeningSays(svc: Service, w: World, op: Operation)
    requires op.OpenCase? && Prepare(svc, w, op).Ok?
    ensures
      var c := Prepare(svc, w, op).value.state;
      && c.caseId == svc.caseId(op.caseKey) && c.title == op.title && c.priority == op.priority
      && c.status == Open && c.createdAt == svc.now && c.createdBy == op.actor && c.assignedTo == None
      && c.relatedRecords == [] && c.timeline == [] && c.findings == [] && c.notes == []
      && c.closedAt == None && c.closedReason == None
  {
  }

  /** What an accepted operation changes of its case, and that it changes nothing else. */
  lemma EffectsSay(svc: Service, w: World, op: Operation)
    requires !op.OpenCase? && Prepare(svc, w, op).Ok?
    ensures op.caseId in w.cases
    ensures
      var b, c := w.cases[op.caseId], Prepare(svc, w, op).value.state;
      && c.caseId == b.caseId && c.title == b.title && c.priority == b.priority
      && c.createdAt == b.createdAt && c.createdBy == b.createdBy
      && c.status == (if op.Transition? then op.to else b.status)
      && c.assignedTo == (if op.Assign? then Some(op.investigator) else b.assignedTo)
      && c.relatedRecords == (if op.LinkRecord? then b.relatedRecords + [op.recordId] else b.relatedRecords)
      && (if op.Transition? && op.to == Closed then c.closedAt == Some(svc.now) && c.closedReason == op.reason
          else c.closedAt == b.closedAt && c.closedReason == b.closedReason)
  {
    hide Get, CanTransition, MoveText;
  }

  /** The finding or note an accepted operation adds, under an id of its case and step. */
  lemma FindingsSay(svc: Service, w: World, op: Operation)
    requires !op.OpenCase? && Prepare(svc, w, op).Ok?
    ensures op.caseId in w.cases
    ensures
      var b, c := w.cases[op.caseId], Prepare(svc, w, op).value.state;
      && (if op.AddFinding? then
            && |c.findings| == |b.findings| + 1 && b.findings <= c.findings
            && var f := c.findings[|b.findings|];
            && f.kind == op.findingKind && f.severity == op.severity && f.summary == op.summary
            && f.relatedRecords == op.related && f.createdAt == svc.now && f.createdBy == op.actor
            && f.findingId == svc.findingId([b.caseId, "finding:" + Text.Digits(|b.timeline|)])
          else c.findings == b.findings)
      && (if op.AddNote? then
            && |c.notes| == |b.notes| + 1 && b.notes <= c.notes
            && var n := c.notes[|b.notes|];
            && n.author == op.actor && n.body == op.body && n.createdAt == svc.now
            && n.noteId == svc.noteId([b.caseId, "note:" + Text.Digits(|b.timeline|)])
          else c.notes == b.notes)
  {
    hide Get, CanTransition, MoveText;
  }

  /** The timeline entry an accepted operation adds: when, what kind, and in whose name. */
  lemma EntrySays(svc: Service, w: World, op: Operation)
    requires !op.OpenCase? && Prepare(svc, w, op).Ok?
    ensures op.caseId in w.cases
    ensures
      var b, c := w.cases[op.caseId], Prepare(svc, w, op).value.state;
      && |c.timeline| == |b.timeline| + 1 && b.timeline <= c.timeline
      && var e := c.timeline[|b.timeline|];
      && e.at == svc.now
      && e.kind == (if op.AddFinding? then FindingAdded else if op.AddNote? then NoteAdded
                    else if op.LinkRecord? then op.kind else StatusChanged)
      && e.actor == (if op.LinkRecord? then None else if op.Assign? then Some(op.investigator) else Some(op.actor))
      && e.record == (if op.LinkRecord? then Some(op.recordId) else None)
      && e.provenance == (if op.LinkRecord? then "audit-record" else "auditor-action")
      && (op.Transition? ==>
            e.detail == Some(StatusText(b.status) + " -> " + StatusText(op.to)
                             + if op.reason.Some? then " (" + op.reason.value + ")" else ""))
  {
    hide Get, CanTransition;
    if op.Transition? {
      MoveTextSays(w.cases[op.caseId].status, op.to, op.reason);
    }
    hide MoveText;
  }

  lemma MoveTextSays(from: CaseStatus, to: CaseStatus, reason: Option<string>)
    ensures MoveText(from, to, reason)
            == StatusText(from) + " -> " + StatusText(to) + if reason.Some? then " (" + reason.value + ")" else ""
  {
    hide StatusText;
    var move := StatusText(from) + " -> " + StatusText(to);
    if reason.Some? {
      assert move + " (" + reason.value + ")" == move + (" (" + reason.value + ")");
    } else {
      assert move + "" == move;
    }
  }

  /** The step that reports an accepted operation: its actor, the status it led to, and what it summarises. */
  lemma StepSays(svc: Service, w: World, op: Operation)
    requires Prepare(svc, w, op).Ok?
    ensures
      var c := Prepare(svc, w, op).value;
      var s := StepOf(op, c);
      && s.actor == op.actor && s.status == c.state.status
      && (s.kind == InvestigationOpened <==> op.OpenCase?)
      && (s.kind == InvestigationClosed <==> !op.OpenCase? && c.state.status == Closed)
      && (s.kind == InvestigationUpdated <==> !op.OpenCase? && c.state.status != Closed)
      && s.summary == (if op.OpenCase? then Some(op.title) else if op.AddFinding? then Some(op.summary) else None)
  {
    hide Get, CanTransition, MoveText;
  }

  /** A call answers with the case it stored; a refused one with an error and both stores as they were. */
  lemma PerformSays(svc: Service, w: World, op: Operation)
    ensures
      var (result, after) := Perform(svc, w, op);
      && (result.Ok? <==> Prepare(svc, w, op).Ok? && ValidSource(svc.origin.source))
      && (result.Ok? ==> result.value.caseId in after.cases && after.cases[result.value.caseId] == result.value)
      && (Prepare(svc, w, op).Err? ==> result.Err? && result.error == Prepare(svc, w, op).error && after == w)
      && (result == Err(LifecycleRecord) && Prepare(svc, w, op).Ok? ==> after.audit == w.audit)
  {
    hide Prepare, StepRecord, InsertRecord, StepOf;
  }

  // ---- The service at work ----

  class CaseStore {
    var cases: map<string, InvestigationCase>

    constructor ()
      ensures cases == map[]
    {
      cases := map[];
    }

    method Create(c: InvestigationCase) returns (ok: bool)
      modifies this
      ensures ok <==> c.caseId !in old(cases)
      ensures cases == if ok then old(cases)[c.caseId := c] else old(cases)
    {
      ok := c.caseId !in cases;
      if ok {
        cases := cases[c.caseId := c];
      }
    }

    method Update(c: InvestigationCase) returns (ok: bool)
      modifies this
      ensures ok <==> c.caseId in old(cases)
      ensures cases == if ok then old(cases)[c.caseId := c] else old(cases)
    {
      ok := c.caseId in cases;
      if ok {
        cases := cases[c.caseId := c];
      }
    }
  }

  /** Cases sit under their own ids: what create and update keep. */
  ghost predicate Filed(cases: map<string, InvestigationCase>) {
    forall id :: id in cases ==> cases[id].caseId == id
  }

  lemma PreparedIsFiled(svc: Service, w: World, op: Operation)
    requires Filed(w.cases) && Prepare(svc, w, op).Ok?
    ensures op.OpenCase? <==> Prepare(svc, w, op).value.state.caseId !in w.cases
    ensures Filed(Updated(w, Prepare(svc, w, op).value).cases)
  {
  }

  /** Fetches a case that must exist and must not be closed. */
  method LoadOpen(svc: Service, cases: CaseStore, actor: string, caseId: string)
    returns (loaded: Result<CaseObject, CaseError>)
    ensures loaded.Ok? ==> fresh(loaded.value)
    ensures
      match GetOpen(svc, World(cases.cases, EMPTY), actor, caseId)
      case Err(e) => loaded == Err(e)
      case Ok(c) => loaded.Ok? && loaded.value.State() == c
  {
    if !svc.mayInvestigate(actor) {
      return Err(NotAuthorized);
    }
    if caseId !in cases.cases {
      return Err(CaseNotFound);
    }
    if cases.cases[caseId].status == Closed {
      return Err(ClosedCase);
    }
    var open := new CaseObject.Load(cases.cases[caseId]);
    return Ok(open);
  }

  method Transit(svc: Service, cases: CaseStore, actor: string, caseId: string, to: CaseStatus, reason: Option<string>)
    returns (prepared: Result<Commit, CaseError>)
    ensures prepared == Moving(svc, World(cases.cases, EMPTY), actor, caseId, to, reason)
  {
    hide CanTransition, StatusMoved;
    if caseId !in cases.cases {
      return Err(CaseNotFound);
    }
    if to == Closed && reason.None? {
      return Err(InvalidContent);
    }
    if cases.cases[caseId].status == Closed {
      if to != Open {
        return Err(ClosedCase);
      }
      if !svc.isAdministrator(actor) {
        return Err(NotAuthorized);
      }
    } else if !svc.mayInvestigate(actor) {
      return Err(NotAuthorized);
    }
    var moving := new CaseObject.Load(cases.cases[caseId]);
    var moved := moving.ChangeStatus(to, svc.now, actor, reason);
    MoveAllowedIff(cases.cases[caseId], to, svc.now, actor, reason);
    if !moved {
      return Err(InvalidTransition);
    }
    var valid := moving.Validate();
    if !valid {
      return Err(Internal);
    }
    return Ok(Commit(moving.State(), None));
  }

  lemma MoveAllowedIff(c: InvestigationCase, to: CaseStatus, at: I64, actor: string, reason: Option<string>)
    ensures StatusMoved(c, to, at, actor, reason).Some? <==> CanTransition(c.status, to)
  {
    hide CanTransition;
  }

  /** Checks and mutates a case object; neither store is touched yet. */
  method Mutate(svc: Service, cases: CaseStore, audit: MemoryEventStore, op: Operation)
    returns (prepared: Result<Commit, CaseError>)
    ensures prepared == Prepare(svc, World(cases.cases, audit.Contents()), op)
  {
    hide Moving, Get, Assigned, RecordLinked, FindingRecorded, NoteRecorded, NewFinding, NewNote;
    if op.Transition? {
      prepared := Transit(svc, cases, op.actor, op.caseId, op.to, op.reason);
      MovingIgnoresAudit(svc, cases.cases, audit.Contents(), op);
      return;
    }
    if op.OpenCase? {
      if !svc.mayInvestigate(op.actor) {
        return Err(NotAuthorized);
      }
      var created := OpenedCase(svc.caseId(op.caseKey), op.title, op.priority, svc.now, op.actor);
      if created.None? {
        return Err(InvalidContent);
      }
      if created.value.caseId in cases.cases {
        return Err(CaseAlreadyExists);
      }
      return Ok(Commit(created.value, Some(op.title)));
    }
    var loaded := LoadOpen(svc, cases, op.actor, op.caseId);
    if loaded.Err? {
      return Err(loaded.error);
    }
    var c := loaded.value;
    if op.Assign? {
      c.Assign(op.investigator, svc.now);
      return Ok(Commit(c.State(), None));
    }
    if op.LinkRecord? {
      if Get(audit.Contents(), op.recordId).Err? {
        return Err(MissingRecord);
      }
      c.AddRelatedRecord(op.recordId, op.kind, svc.now);
      return Ok(Commit(c.State(), None));
    }
    if op.AddFinding? {
      if !(1 <= |op.summary| <= 512) {
        return Err(InvalidContent);
      }
      c.AddFinding(NewFinding(svc, c.State(), op), svc.now);
      return Ok(Commit(c.State(), Some(op.summary)));
    }
    if !(1 <= |op.body| <= 4096) {
      return Err(InvalidContent);
    }
    c.AddNote(NewNote(svc, c.State(), op));
    return Ok(Commit(c.State(), None));
  }

  lemma MovingIgnoresAudit(svc: Service, cases: map<string, InvestigationCase>, audit: Store, op: Operation)
    requires op.Transition?
    ensures Moving(svc, World(cases, audit), op.actor, op.caseId, op.to, op.reason)
            == Moving(svc, World(cases, EMPTY), op.actor, op.caseId, op.to, op.reason)
  {
  }

  /** Runs one operation against the two stores, in the service's own order. */
  method Execute(svc: Service, cases: CaseStore, audit: MemoryEventStore, op: Operation)
    returns (result: Result<InvestigationCase, CaseError>)
    requires Filed(cases.cases)
    modifies cases, audit
    ensures (result, World(cases.cases, audit.Contents()))
            == Perform(svc, World(old(cases.cases), old(audit.Contents())), op)
    ensures Filed(cases.cases)
  {
    hide Prepare, StepRecord, InsertRecord;
    ghost var before := World(cases.cases, audit.Contents());
    var prepared := Mutate(svc, cases, audit, op);
    if prepared.Err? {
      return Err(prepared.error);
    }
    var c := prepared.value;
    PreparedIsFiled(svc, before, op);
    if op.OpenCase? {
      var created := cases.Create(c.state);
    } else {
      var updated := cases.Update(c.state);
    }
    var record := StepRecord(svc, c.state.caseId, |c.state.timeline|, StepOf(op, c));
    if record.None? {
      return Err(LifecycleRecord);
    }
    var outcome := audit.Insert(record.value);
    return Ok(c.state);
  }
}
