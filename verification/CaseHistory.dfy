/**
 Whole runs of the case service, with crashes between the case store and the audit store, and other
 services writing to the audit store in between.
 */
module CaseHistory {
  import opened Wrappers
  import opened Records
  import opened EventStore
  import opened DerivedEvents
  import opened Identity
  import opened Cases
  import opened CaseService

  /** One call, which may crash after the case store write and before the audit store write, or another writer's. */
  datatype Action = Call(op: Operation, crashes: bool) | OthersInsert(record: AuditRecord)

  predicate IsCrash(a: Action) {
    a.Call? && a.crashes
  }

  datatype Logged = Logged(step: Step, recorded: bool)

  /** The two stores, and what really happened to each case, step by step. */
  datatype History = History(world: World, trail: map<string, seq<Logged>>)

  function Log(h: History, id: string): seq<Logged> {
    if id in h.trail then h.trail[id] else []
  }

  function Act(svc: Service, h: History, a: Action): History {
    match a
    case OthersInsert(r) => h.(world := h.world.(audit := InsertRecord(h.world.audit, r)))
    case Call(op, crashes) =>
      match Prepare(svc, h.world, op)
      case Err(_) => h
      case Ok(c) =>
        var logged := Logged(StepOf(op, c), !crashes && ValidSource(svc.origin.source));
        History(if crashes then Updated(h.world, c) else Perform(svc, h.world, op).1,
                h.trail[c.state.caseId := Log(h, c.state.caseId) + [logged]])
  }

  /** A call whose checks pass. */
  predicate Accepted(svc: Service, h: History, a: Action) {
    a.Call? && Prepare(svc, h.world, a.op).Ok?
  }

  function Run(svc: Service, audit: Store, actions: seq<Action>): History {
    if actions == [] then History(World(map[], audit), map[])
    else Act(svc, Run(svc, audit, actions[..|actions| - 1]), actions[|actions| - 1])
  }

  // ---- One step seen from outside ----

  /** What an accepted operation does to its case. */
  lemma PreparedCase(svc: Service, w: World, op: Operation)
    requires Filed(w.cases) && Prepare(svc, w, op).Ok?
    ensures
      var c := Prepare(svc, w, op).value;
      if op.OpenCase? then
        && c.state.caseId !in w.cases && c.state.timeline == [] && c.state.status == Open
        && StepOf(op, c).kind == InvestigationOpened
      else
        && c.state.caseId in w.cases
        && w.cases[c.state.caseId].timeline < c.state.timeline
        && |c.state.timeline| == |w.cases[c.state.caseId].timeline| + 1
        && (c.state.status == w.cases[c.state.caseId].status
            || LifecycleMove(w.cases[c.state.caseId].status, c.state.status)
            || w.cases[c.state.caseId].status == Closed)
        && StepOf(op, c).kind == (if c.state.status == Closed then InvestigationClosed else InvestigationUpdated)
  {
    if op.Transition? && op.caseId in w.cases {
      MoveTable(w.cases[op.caseId].status, op.to);
    }
    hide CanTransition, LifecycleMove;
  }

  /** What an accepted action does to the history. */
  lemma ActShape(svc: Service, h: History, a: Action)
    requires Accepted(svc, h, a)
    ensures
      var c := Prepare(svc, h.world, a.op).value;
      var id, n, step := c.state.caseId, |c.state.timeline|, StepOf(a.op, c);
      var recorded := !a.crashes && ValidSource(svc.origin.source);
      var after := Act(svc, h, a);
      && after.world.cases == h.world.cases[id := c.state]
      && after.trail == h.trail[id := Log(h, id) + [Logged(step, recorded)]]
      && after.world.audit == (if recorded then InsertRecord(h.world.audit, StepRecord(svc, id, n, step).value)
        else h.world.audit)
  {
    hide Prepare, StepRecord, InsertRecord, StepOf;
  }

  // ---- Current state and logged steps stay in step ----

  /**
   From `Open`, each step stays or makes a lifecycle move, and its kind says which of opening, update
   and closing it is.
   */
  ghost predicate Walk(log: seq<Logged>) {
    && (log != [] ==> log[0].step.status == Open && log[0].step.kind == InvestigationOpened)
    && (forall k :: 0 < k < |log| ==> Follows(log[k - 1].step, log[k].step))
  }

  predicate Follows(prev: Step, next: Step) {
    && (next.status == prev.status || LifecycleMove(prev.status, next.status))
    && next.kind == (if next.status == Closed then InvestigationClosed else InvestigationUpdated)
  }

  ghost predicate InStep(c: InvestigationCase, log: seq<Logged>) {
    |log| == |c.timeline| + 1 && log[|log| - 1].step.status == c.status && Walk(log)
  }

  ghost predicate CasesInStep(h: History) {
    && h.trail.Keys == h.world.cases.Keys && ClosedAreValid(h.world)
    && forall id :: id in h.world.cases ==> InStep(h.world.cases[id], h.trail[id])
  }

  lemma WalkGrows(log: seq<Logged>, next: Logged)
    requires Walk(log)
    requires log == [] ==> next.step.status == Open && next.step.kind == InvestigationOpened
    requires log != [] ==>
      Follows(log[|log| - 1].step, next.step)
    ensures Walk(log + [next])
  {
  }

  lemma ActKeepsInStep(svc: Service, h: History, a: Action)
    requires CasesInStep(h)
    ensures CasesInStep(Act(svc, h, a))
  {
    hide Prepare, StepRecord, InsertRecord, InStep, Act, StepOf, ClosedAreValid;
    ActKeepsClosedValid(svc, h, a);
    if Accepted(svc, h, a) {
      var c := Prepare(svc, h.world, a.op).value;
      ActShape(svc, h, a);
      NextInStep(svc, h, a.op, !a.crashes && ValidSource(svc.origin.source));
    } else {
      UnacceptedKeepsCases(svc, h, a);
    }
  }

  /** The case an accepted operation commits is in step with its log and the step that reports it. */
  lemma NextInStep(svc: Service, h: History, op: Operation, recorded: bool)
    requires CasesInStep(h) && Prepare(svc, h.world, op).Ok?
    ensures
      var c := Prepare(svc, h.world, op).value;
      InStep(c.state, Log(h, c.state.caseId) + [Logged(StepOf(op, c), recorded)])
  {
    hide Prepare, Walk, LifecycleMove;
    var c := Prepare(svc, h.world, op).value;
    PreparedCase(svc, h.world, op);
    if !op.OpenCase? && h.world.cases[c.state.caseId].status == Closed {
      ClosedIsNotTouched(svc, h.world, op, c.state.caseId);
    }
    EmptyWalk();
    WalkGrows(Log(h, c.state.caseId), Logged(StepOf(op, c), recorded));
  }

  lemma EmptyWalk()
    ensures Walk([])
  {
  }

  /** Anything but an accepted call leaves the cases and their logs alone. */
  lemma UnacceptedKeepsCases(svc: Service, h: History, a: Action)
    requires !Accepted(svc, h, a)
    ensures
      var after := Act(svc, h, a);
      && after.world.cases == h.world.cases && after.trail == h.trail
      && after.world.audit == if a.OthersInsert? then InsertRecord(h.world.audit, a.record) else h.world.audit
  {
    hide Prepare, InsertRecord;
  }

  // ---- The audit store holds exactly the recorded steps ----

  function LifeParts(svc: Service, id: string, actor: string, k: nat): seq<string> {
    LifecycleParts(svc.origin.network, id, actor, k)
  }

  function LifeId(svc: Service, id: string, actor: string, k: nat): EventId {
    svc.ids.event(LifeParts(svc, id, actor, k))
  }

  /** The identity hashes do not collide on these inputs. No hash is free of collisions outright. */
  ghost predicate NoCollisions(svc: Service, parts: set<seq<string>>, events: set<AuditEvent>) {
    && (forall p, q :: p in parts && q in parts && svc.ids.event(p) == svc.ids.event(q) ==> p == q)
    && (forall e, f :: e in events && f in events && svc.ids.record(e) == svc.ids.record(f) ==> e.eventId == f.eventId)
  }

  ghost predicate StepHashed(
    svc: Service, id: string, k: nat, step: Step, parts: set<seq<string>>, events: set<AuditEvent>)
  {
    && LifeParts(svc, id, step.actor, k) in parts
    && (step.kind != RecordCorrected && StepRecord(svc, id, k, step).Some? ==>
          StepRecord(svc, id, k, step).value.event in events)
  }

  /** The sets hold every part list and every event hashed in this history. */
  ghost predicate Hashes(svc: Service, h: History, parts: set<seq<string>>, events: set<AuditEvent>) {
    forall id, k: nat :: k < |Log(h, id)| ==> StepHashed(svc, id, k, Log(h, id)[k].step, parts, events)
  }

  /** No record in the store sits under the id of another of these events. */
  ghost predicate IdsFree(svc: Service, s: Store, events: set<AuditEvent>) {
    forall k, e :: k in s.records && e in events && svc.ids.record(e) == s.records[k].recordId ==>
      s.records[k].event.eventId == e.eventId
  }

  predicate WasRecorded(h: History, id: string, actor: string, k: nat) {
    k < |Log(h, id)| && Log(h, id)[k].recorded && Log(h, id)[k].step.actor == actor
  }

  /** A lifecycle identity is in the audit store exactly when that step was recorded. */
  ghost predicate TrailExact(svc: Service, h: History, parts: set<seq<string>>) {
    forall id, actor, k: nat :: LifeParts(svc, id, actor, k) in parts ==>
      (LifeId(svc, id, actor, k) in h.world.audit.byEvent <==> WasRecorded(h, id, actor, k))
  }

  /** Looking a recorded step up returns the record made for it. */
  ghost predicate TrailFaithful(svc: Service, h: History) {
    forall id, k: nat :: k < |Log(h, id)| && Log(h, id)[k].recorded ==> StepStored(svc, h, id, k)
  }

  ghost predicate StepStored(svc: Service, h: History, id: string, k: nat)
    requires k < |Log(h, id)|
  {
    var step := Log(h, id)[k].step;
    && step.kind != RecordCorrected
    && StepRecord(svc, id, k, step).Some?
    && GetByEvent(h.world.audit, LifeId(svc, id, step.actor, k)) == Ok(Some(StepRecord(svc, id, k, step).value))
  }

  ghost predicate AuditSound(svc: Service, h: History, parts: set<seq<string>>, events: set<AuditEvent>) {
    && Coherent(h.world.audit) && IdsFree(svc, h.world.audit, events)
    && TrailExact(svc, h, parts) && TrailFaithful(svc, h)
  }

  lemma NewStepIsFresh(svc: Service, s: Store, r: AuditRecord, events: set<AuditEvent>)
    requires Coherent(s) && IdsFree(svc, s, events) && r.event in events
    requires r.event.eventId !in s.byEvent && r.recordId == svc.ids.record(r.event)
    ensures r.recordId !in s.byRecord
  {
    assert r.recordId in s.byRecord ==> IdResolves(s, r.recordId);
    assert r.recordId in s.byRecord ==> RecordIndexed(s, s.byRecord[r.recordId]);
  }

  lemma PutKeepsIdsFree(svc: Service, s: Store, r: AuditRecord, parts: set<seq<string>>, events: set<AuditEvent>)
    requires NoCollisions(svc, parts, events) && IdsFree(svc, s, events)
    requires r.event in events && r.recordId == svc.ids.record(r.event)
    ensures IdsFree(svc, Put(s, r), events)
  {
  }

  lemma FreshInsertIsPut(s: Store, r: AuditRecord)
    requires r.Valid() && r.event.eventId !in s.byEvent && r.recordId !in s.byRecord
    ensures InsertRecord(s, r) == Put(s, r)
  {
    hide Put;
  }

  lemma PutIsFound(s: Store, r: AuditRecord)
    ensures Put(s, r).byEvent.Keys == s.byEvent.Keys + {r.event.eventId}
    ensures GetByEvent(Put(s, r), r.event.eventId) == Ok(Some(r))
  {
  }

  lemma PutStep(svc: Service, s: Store, r: AuditRecord, parts: set<seq<string>>, events: set<AuditEvent>)
    requires NoCollisions(svc, parts, events) && Coherent(s) && IdsFree(svc, s, events) && r.event in events
    requires r.Valid() && r.event.eventId !in s.byEvent && r.recordId == svc.ids.record(r.event)
    ensures
      var t := InsertRecord(s, r);
      && Coherent(t) && IdsFree(svc, t, events) && Grows(s, t)
      && t.byEvent.Keys == s.byEvent.Keys + {r.event.eventId}
      && GetByEvent(t, r.event.eventId) == Ok(Some(r))
  {
    hide Coherent, IdsFree, Grows, NoCollisions, InsertRecord, Put, GetByEvent;
    NewStepIsFresh(svc, s, r, events);
    FreshInsertIsPut(s, r);
    PutIsFound(s, r);
    PutFreshCoherent(s, r);
    PutFreshGrows(s, r);
    PutKeepsIdsFree(svc, s, r, parts, events);
  }

  /** Steps whose part lists do not collide have identities of their own. */
  lemma LifeIdsDiffer(
    svc: Service, parts: set<seq<string>>, events: set<AuditEvent>,
    id: string, actor: string, k: nat, id': string, actor': string, k': nat)
    requires NoCollisions(svc, parts, events)
    requires LifeParts(svc, id, actor, k) in parts && LifeParts(svc, id', actor', k') in parts
    requires LifeId(svc, id, actor, k) == LifeId(svc, id', actor', k')
    ensures id == id' && actor == actor' && k == k'
  {
    hide LifecycleParts;
    LifecyclePartsInjective(svc.origin.network, id, actor, k, svc.origin.network, id', actor', k');
  }

  lemma LogAfter(h: History, h': History, id: string, logged: Logged, other: string, k: nat)
    requires h'.trail == h.trail[id := Log(h, id) + [logged]]
    ensures k < |Log(h, other)| ==> k < |Log(h', other)| && Log(h', other)[k] == Log(h, other)[k]
    ensures k >= |Log(h, other)| && k < |Log(h', other)| ==>
      other == id && k == |Log(h, id)| && Log(h', other)[k] == logged
    ensures other == id ==> |Log(h, id)| < |Log(h', id)|
  {
  }

  lemma TrailExactAfter(
    svc: Service, h: History, h': History, id: string, logged: Logged, parts: set<seq<string>>, events: set<AuditEvent>)
    requires NoCollisions(svc, parts, events) && TrailExact(svc, h, parts)
    requires LifeParts(svc, id, logged.step.actor, |Log(h, id)|) in parts
    requires h'.trail == h.trail[id := Log(h, id) + [logged]]
    requires
      h'.world.audit.byEvent.Keys
      == h.world.audit.byEvent.Keys + if logged.recorded then {LifeId(svc, id, logged.step.actor, |Log(h, id)|)} else {}
    ensures TrailExact(svc, h', parts)
  {
    hide LifeId, LifeParts, NoCollisions;
    var n := |Log(h, id)|;
    forall id2, actor, k: nat | LifeParts(svc, id2, actor, k) in parts
      ensures LifeId(svc, id2, actor, k) in h'.world.audit.byEvent <==> WasRecorded(h', id2, actor, k)
    {
      assert LifeId(svc, id2, actor, k) in h.world.audit.byEvent <==> WasRecorded(h, id2, actor, k);
      LogAfter(h, h', id, logged, id2, k);
      if LifeId(svc, id2, actor, k) == LifeId(svc, id, logged.step.actor, n) {
        LifeIdsDiffer(svc, parts, events, id2, actor, k, id, logged.step.actor, n);
      }
    }
  }

  lemma StepStaysStored(svc: Service, h: History, h': History, id: string, k: nat)
    requires k < |Log(h, id)| && k < |Log(h', id)| && Log(h', id)[k] == Log(h, id)[k]
    requires Grows(h.world.audit, h'.world.audit) && StepStored(svc, h, id, k)
    ensures StepStored(svc, h', id, k)
  {
    hide StepRecord;
    GrowthKeepsLookups(h.world.audit, h'.world.audit, "", LifeId(svc, id, Log(h, id)[k].step.actor, k));
  }

  lemma TrailFaithfulAfter(svc: Service, h: History, h': History, id: string, logged: Logged)
    requires TrailFaithful(svc, h) && Grows(h.world.audit, h'.world.audit)
    requires h'.trail == h.trail[id := Log(h, id) + [logged]]
    requires logged.recorded ==> |Log(h, id)| < |Log(h', id)| && StepStored(svc, h', id, |Log(h, id)|)
    ensures TrailFaithful(svc, h')
  {
    hide StepStored, Grows;
    forall id2, k: nat | k < |Log(h', id2)| && Log(h', id2)[k].recorded ensures StepStored(svc, h', id2, k) {
      LogAfter(h, h', id, logged, id2, k);
      if k < |Log(h, id2)| {
        StepStaysStored(svc, h, h', id2, k);
      }
    }
  }

  lemma RecordedStep(
    svc: Service, h: History, h': History, id: string, step: Step, parts: set<seq<string>>, events: set<AuditEvent>)
    requires NoCollisions(svc, parts, events) && AuditSound(svc, h, parts, events)
    requires step.kind != RecordCorrected && ValidSource(svc.origin.source)
    requires StepHashed(svc, id, |Log(h, id)|, step, parts, events)
    requires h'.trail == h.trail[id := Log(h, id) + [Logged(step, true)]]
    requires h'.world.audit == InsertRecord(h.world.audit, StepRecord(svc, id, |Log(h, id)|, step).value)
    ensures AuditSound(svc, h', parts, events)
  {
    hide StepRecord, InsertRecord, GetByEvent, Coherent, IdsFree, Grows, NoCollisions, LifeId, TrailExact,
      TrailFaithful;
    var n := |Log(h, id)|;
    var r := StepRecord(svc, id, n, step).value;
    StepIdentity(svc, id, n, step);
    assert r.event.eventId !in h.world.audit.byEvent by {
      NotYetRecorded(svc, h, id, step.actor, n, parts);
    }
    PutStep(svc, h.world.audit, r, parts, events);
    TrailExactAfter(svc, h, h', id, Logged(step, true), parts, events);
    LogAfter(h, h', id, Logged(step, true), id, n);
    TrailFaithfulAfter(svc, h, h', id, Logged(step, true));
  }

  lemma StepIdentity(svc: Service, id: string, n: nat, step: Step)
    requires step.kind != RecordCorrected && ValidSource(svc.origin.source)
    ensures StepRecord(svc, id, n, step).Some?
    ensures StepRecord(svc, id, n, step).value.event.eventId == LifeId(svc, id, step.actor, n)
  {
  }

  lemma NotYetRecorded(svc: Service, h: History, id: string, actor: string, n: nat, parts: set<seq<string>>)
    requires TrailExact(svc, h, parts) && LifeParts(svc, id, actor, n) in parts && n >= |Log(h, id)|
    ensures LifeId(svc, id, actor, n) !in h.world.audit.byEvent
  {
    assert LifeId(svc, id, actor, n) in h.world.audit.byEvent <==> WasRecorded(h, id, actor, n);
  }

  lemma UnrecordedStep(
    svc: Service, h: History, h': History, id: string, step: Step, parts: set<seq<string>>, events: set<AuditEvent>)
    requires NoCollisions(svc, parts, events) && AuditSound(svc, h, parts, events)
    requires StepHashed(svc, id, |Log(h, id)|, step, parts, events)
    requires h'.trail == h.trail[id := Log(h, id) + [Logged(step, false)]] && h'.world.audit == h.world.audit
    ensures AuditSound(svc, h', parts, events)
  {
    hide Coherent, IdsFree, NoCollisions, LifeId, TrailExact, TrailFaithful, StepRecord;
    GrowsReflexive(h.world.audit);
    TrailExactAfter(svc, h, h', id, Logged(step, false), parts, events);
    TrailFaithfulAfter(svc, h, h', id, Logged(step, false));
  }

  /** The step index an accepted operation commits under is the length of the case's log. */
  lemma StepIndex(svc: Service, h: History, a: Action)
    requires CasesInStep(h) && Accepted(svc, h, a)
    ensures
      var c := Prepare(svc, h.world, a.op).value;
      |c.state.timeline| == |Log(h, c.state.caseId)|
  {
    hide Prepare, Walk;
    PreparedCase(svc, h.world, a.op);
  }

  /** The step an accepted action logs is among the hashed ones. */
  lemma NewStepHashed(svc: Service, h: History, a: Action, parts: set<seq<string>>, events: set<AuditEvent>)
    requires Accepted(svc, h, a) && Hashes(svc, Act(svc, h, a), parts, events)
    ensures
      var c := Prepare(svc, h.world, a.op).value;
      StepHashed(svc, c.state.caseId, |Log(h, c.state.caseId)|, StepOf(a.op, c), parts, events)
  {
    hide Prepare, StepRecord, InsertRecord, Act, StepHashed, StepOf;
    var c := Prepare(svc, h.world, a.op).value;
    var id := c.state.caseId;
    ActShape(svc, h, a);
    var after := Act(svc, h, a);
    assert Log(after, id)[|Log(h, id)|].step == StepOf(a.op, c);
  }

  /** Another service's record: refused, known, or new under a free id that is none of these steps' own. */
  ghost predicate Harmless(
    svc: Service, s: Store, r: AuditRecord, parts: set<seq<string>>, events: set<AuditEvent>)
  {
    r.Valid() && r.event.eventId !in s.byEvent ==>
      && r.recordId !in s.byRecord
      && (forall p :: p in parts ==> svc.ids.event(p) != r.event.eventId)
      && (forall e :: e in events ==> svc.ids.record(e) != r.recordId)
  }

  lemma OthersKeepExact(svc: Service, h: History, h': History, r: AuditRecord, parts: set<seq<string>>)
    requires TrailExact(svc, h, parts) && h'.trail == h.trail
    requires h'.world.audit.byEvent.Keys == h.world.audit.byEvent.Keys + {r.event.eventId}
    requires forall p :: p in parts ==> svc.ids.event(p) != r.event.eventId
    ensures TrailExact(svc, h', parts)
  {
    hide LifeParts;
    forall id, actor, k: nat | LifeParts(svc, id, actor, k) in parts
      ensures LifeId(svc, id, actor, k) in h'.world.audit.byEvent <==> WasRecorded(h', id, actor, k)
    {
      assert LifeId(svc, id, actor, k) in h.world.audit.byEvent <==> WasRecorded(h, id, actor, k);
    }
  }

  lemma OthersKeepFaithful(svc: Service, h: History, h': History)
    requires TrailFaithful(svc, h) && h'.trail == h.trail && Grows(h.world.audit, h'.world.audit)
    ensures TrailFaithful(svc, h')
  {
    hide StepStored, Grows;
    forall id, k: nat | k < |Log(h', id)| && Log(h', id)[k].recorded ensures StepStored(svc, h', id, k) {
      assert StepStored(svc, h, id, k);
      StepStaysStored(svc, h, h', id, k);
    }
  }

  lemma PutKeepsOthersFree(svc: Service, s: Store, r: AuditRecord, events: set<AuditEvent>)
    requires IdsFree(svc, s, events) && forall e :: e in events ==> svc.ids.record(e) != r.recordId
    ensures IdsFree(svc, Put(s, r), events)
  {
  }

  lemma OthersKeepSound(
    svc: Service, h: History, h': History, r: AuditRecord, parts: set<seq<string>>, events: set<AuditEvent>)
    requires AuditSound(svc, h, parts, events) && Harmless(svc, h.world.audit, r, parts, events)
    requires h'.trail == h.trail && h'.world.audit == InsertRecord(h.world.audit, r)
    ensures AuditSound(svc, h', parts, events)
  {
    hide Coherent, IdsFree, TrailExact, TrailFaithful, Grows, Put, StepRecord;
    var s := h.world.audit;
    if r.Valid() && r.event.eventId !in s.byEvent {
      FreshInsertIsPut(s, r);
      PutFreshCoherent(s, r);
      PutFreshGrows(s, r);
      PutIsFound(s, r);
      PutKeepsOthersFree(svc, s, r, events);
      OthersKeepExact(svc, h, h', r, parts);
    } else {
      GrowsReflexive(s);
      SameAuditExact(svc, h, h', parts);
    }
    OthersKeepFaithful(svc, h, h');
  }

  lemma SameAuditExact(svc: Service, h: History, h': History, parts: set<seq<string>>)
    requires TrailExact(svc, h, parts) && h'.trail == h.trail && h'.world.audit == h.world.audit
    ensures TrailExact(svc, h', parts)
  {
    hide LifeParts;
    forall id, actor, k: nat | LifeParts(svc, id, actor, k) in parts
      ensures LifeId(svc, id, actor, k) in h'.world.audit.byEvent <==> WasRecorded(h', id, actor, k)
    {
      assert LifeId(svc, id, actor, k) in h.world.audit.byEvent <==> WasRecorded(h, id, actor, k);
    }
  }

  lemma RefusedIsSame(svc: Service, h: History, a: Action)
    requires a.Call? && !Accepted(svc, h, a)
    ensures Act(svc, h, a) == h
  {
    hide Prepare;
  }

  lemma ActKeepsAuditSound(svc: Service, h: History, a: Action, parts: set<seq<string>>, events: set<AuditEvent>)
    requires NoCollisions(svc, parts, events) && Hashes(svc, Act(svc, h, a), parts, events)
    requires CasesInStep(h) && AuditSound(svc, h, parts, events)
    requires a.OthersInsert? ==> Harmless(svc, h.world.audit, a.record, parts, events)
    ensures AuditSound(svc, Act(svc, h, a), parts, events)
  {
    hide Prepare, StepRecord, InsertRecord, CasesInStep, AuditSound, Act, NoCollisions, Hashes, StepHashed, Harmless;
    if Accepted(svc, h, a) {
      var c := Prepare(svc, h.world, a.op).value;
      ActShape(svc, h, a);
      StepIndex(svc, h, a);
      NewStepHashed(svc, h, a, parts, events);
      if !a.crashes && ValidSource(svc.origin.source) {
        RecordedStep(svc, h, Act(svc, h, a), c.state.caseId, StepOf(a.op, c), parts, events);
      } else {
        UnrecordedStep(svc, h, Act(svc, h, a), c.state.caseId, StepOf(a.op, c), parts, events);
      }
    } else if a.OthersInsert? {
      UnacceptedKeepsCases(svc, h, a);
      OthersKeepSound(svc, h, Act(svc, h, a), a.record, parts, events);
    } else {
      RefusedIsSame(svc, h, a);
    }
  }

  /** Whatever other services insert during the run is harmless when they insert it. */
  ghost predicate Peaceful(
    svc: Service, audit: Store, actions: seq<Action>, parts: set<seq<string>>, events: set<AuditEvent>)
  {
    actions != [] ==>
      var init, last := actions[..|actions| - 1], actions[|actions| - 1];
      && Peaceful(svc, audit, init, parts, events)
      && (last.OthersInsert? ==> Harmless(svc, Run(svc, audit, init).world.audit, last.record, parts, events))
  }

  /** A store the service may start on: coherent, holding none of these steps and none of their record ids. */
  ghost predicate Untouched(svc: Service, audit: Store, parts: set<seq<string>>, events: set<AuditEvent>) {
    && Coherent(audit) && IdsFree(svc, audit, events)
    && forall id, actor, k: nat :: LifeParts(svc, id, actor, k) in parts ==> LifeId(svc, id, actor, k) !in audit.byEvent
  }

  lemma ActExtendsLog(svc: Service, h: History, a: Action, id: string)
    ensures Log(h, id) <= Log(Act(svc, h, a), id)
  {
    hide Prepare, StepRecord, InsertRecord, StepOf, Act;
    if Accepted(svc, h, a) {
      ActShape(svc, h, a);
    } else {
      UnacceptedKeepsCases(svc, h, a);
    }
  }

  lemma HashesBefore(svc: Service, h: History, a: Action, parts: set<seq<string>>, events: set<AuditEvent>)
    requires Hashes(svc, Act(svc, h, a), parts, events)
    ensures Hashes(svc, h, parts, events)
  {
    hide StepHashed, Act, Log;
    forall id, k: nat | k < |Log(h, id)| ensures StepHashed(svc, id, k, Log(h, id)[k].step, parts, events) {
      ActExtendsLog(svc, h, a, id);
      assert Log(Act(svc, h, a), id)[k] == Log(h, id)[k];
    }
  }

  /**
   Over every run, crashes included, cases and logged steps stay in step, the audit store stays coherent,
   and it holds the identity of a step exactly when that step was recorded, under its own record.
   */
  lemma {:induction false} RunKeepsTrail(
    svc: Service, audit: Store, actions: seq<Action>, parts: set<seq<string>>, events: set<AuditEvent>)
    requires NoCollisions(svc, parts, events) && Untouched(svc, audit, parts, events)
    requires Hashes(svc, Run(svc, audit, actions), parts, events) && Peaceful(svc, audit, actions, parts, events)
    ensures CasesInStep(Run(svc, audit, actions)) && AuditSound(svc, Run(svc, audit, actions), parts, events)
  {
    hide Act, NoCollisions, Coherent, IdsFree, LifeId, LifeParts, Harmless;
    if actions != [] {
      hide CasesInStep, AuditSound, Hashes, Untouched;
      var init, last := actions[..|actions| - 1], actions[|actions| - 1];
      HashesBefore(svc, Run(svc, audit, init), last, parts, events);
      RunKeepsTrail(svc, audit, init, parts, events);
      ActKeepsInStep(svc, Run(svc, audit, init), last);
      ActKeepsAuditSound(svc, Run(svc, audit, init), last, parts, events);
    }
  }

  // ---- Trail conservation ----

  ghost predicate AllRecorded(h: History) {
    forall id, k: nat :: k < |Log(h, id)| ==> Log(h, id)[k].recorded
  }

  lemma ActRecords(svc: Service, h: History, a: Action)
    requires AllRecorded(h) && !IsCrash(a) && ValidSource(svc.origin.source)
    ensures AllRecorded(Act(svc, h, a))
  {
    hide Prepare, StepRecord, InsertRecord, StepOf, Act;
    if Accepted(svc, h, a) {
      var c := Prepare(svc, h.world, a.op).value;
      var after := Act(svc, h, a);
      ActShape(svc, h, a);
      hide ValidSource;
      forall id, k: nat | k < |Log(after, id)| ensures Log(after, id)[k].recorded {
        LogAfter(h, after, c.state.caseId, Logged(StepOf(a.op, c), true), id, k);
      }
    } else {
      UnacceptedKeepsCases(svc, h, a);
      assert forall id :: Log(Act(svc, h, a), id) == Log(h, id);
    }
  }

  lemma {:induction false} EveryStepRecorded(svc: Service, audit: Store, actions: seq<Action>)
    requires ValidSource(svc.origin.source) && forall i :: 0 <= i < |actions| ==> !IsCrash(actions[i])
    ensures AllRecorded(Run(svc, audit, actions))
  {
    hide Act;
    if actions != [] {
      hide AllRecorded;
      var init, last := actions[..|actions| - 1], actions[|actions| - 1];
      EveryStepRecorded(svc, audit, init);
      ActRecords(svc, Run(svc, audit, init), last);
    }
  }

  /**
   Conservation of the trail: over every run without crashes, a case whose timeline has `n`
   entries has exactly one lifecycle record for each step `0..n`, none beyond, all under distinct ids,
   each record says what its step did, and the recorded statuses form a walk of the lifecycle from
   `Open` to the current status.
   */
  lemma TrailConservation(
    svc: Service, audit: Store, actions: seq<Action>, id: string, parts: set<seq<string>>, events: set<AuditEvent>)
    requires NoCollisions(svc, parts, events) && Untouched(svc, audit, parts, events)
    requires Hashes(svc, Run(svc, audit, actions), parts, events) && Peaceful(svc, audit, actions, parts, events)
    requires ValidSource(svc.origin.source) && forall i :: 0 <= i < |actions| ==> !IsCrash(actions[i])
    requires id in Run(svc, audit, actions).world.cases
    ensures
      var h := Run(svc, audit, actions);
      var n := |h.world.cases[id].timeline|;
      && |Log(h, id)| == n + 1 && Walk(Log(h, id)) && Log(h, id)[n].step.status == h.world.cases[id].status
      && (forall k: nat, actor :: LifeParts(svc, id, actor, k) in parts ==>
            (LifeId(svc, id, actor, k) in h.world.audit.byEvent <==> k <= n && actor == Log(h, id)[k].step.actor))
      && (forall k: nat :: k <= n ==> StepStored(svc, h, id, k))
      && (forall j: nat, k: nat :: j < k <= n ==>
            LifeId(svc, id, Log(h, id)[j].step.actor, j) != LifeId(svc, id, Log(h, id)[k].step.actor, k))
  {
    hide Act, NoCollisions, Coherent, IdsFree, StepStored, Walk, LifeId, LifeParts, Run, StepRecord;
    RunKeepsTrail(svc, audit, actions, parts, events);
    EveryStepRecorded(svc, audit, actions);
    var h := Run(svc, audit, actions);
    assert InStep(h.world.cases[id], h.trail[id]);
    forall k: nat, actor | LifeParts(svc, id, actor, k) in parts
      ensures LifeId(svc, id, actor, k) in h.world.audit.byEvent
         <==> k <= |h.world.cases[id].timeline| && actor == Log(h, id)[k].step.actor
    {
      assert LifeId(svc, id, actor, k) in h.world.audit.byEvent <==> WasRecorded(h, id, actor, k);
    }
    forall j: nat, k: nat | j < k < |Log(h, id)|
      ensures LifeId(svc, id, Log(h, id)[j].step.actor, j) != LifeId(svc, id, Log(h, id)[k].step.actor, k)
    {
      LoggedIdsDiffer(svc, h, id, j, k, parts, events);
    }
  }

  lemma LoggedIdsDiffer(
    svc: Service, h: History, id: string, j: nat, k: nat, parts: set<seq<string>>, events: set<AuditEvent>)
    requires NoCollisions(svc, parts, events) && Hashes(svc, h, parts, events) && j < k < |Log(h, id)|
    ensures LifeId(svc, id, Log(h, id)[j].step.actor, j) != LifeId(svc, id, Log(h, id)[k].step.actor, k)
  {
    hide NoCollisions, LifeId, LifeParts, StepRecord;
    var a, b := Log(h, id)[j].step, Log(h, id)[k].step;
    assert StepHashed(svc, id, j, a, parts, events) && StepHashed(svc, id, k, b, parts, events);
    if LifeId(svc, id, a.actor, j) == LifeId(svc, id, b.actor, k) {
      LifeIdsDiffer(svc, parts, events, id, a.actor, j, id, b.actor, k);
    }
  }

  /**
   Reading the trail back: over every run without crashes, looking up step `k` of a case returns a
   confidential record of the service's network and instant that names the case, the actor, the status
   the step led to and its summary, and whose kind tells opening, update and closing apart.
   */
  lemma TrailReads(
    svc: Service, audit: Store, actions: seq<Action>, id: string, k: nat,
    parts: set<seq<string>>, events: set<AuditEvent>)
    returns (r: AuditRecord)
    requires NoCollisions(svc, parts, events) && Untouched(svc, audit, parts, events)
    requires Hashes(svc, Run(svc, audit, actions), parts, events) && Peaceful(svc, audit, actions, parts, events)
    requires ValidSource(svc.origin.source) && forall i :: 0 <= i < |actions| ==> !IsCrash(actions[i])
    requires id in Run(svc, audit, actions).world.cases && k <= |Run(svc, audit, actions).world.cases[id].timeline|
    ensures
      var h := Run(svc, audit, actions);
      && k < |Log(h, id)|
      && var step := Log(h, id)[k].step;
      && GetByEvent(h.world.audit, LifeId(svc, id, step.actor, k)) == Ok(Some(r))
      && r.event.kind == (if k == 0 then InvestigationOpened
                          else if step.status == Closed then InvestigationClosed else InvestigationUpdated)
      && r.event.network == svc.origin.network && r.recordedAt == svc.now && r.classification == Confidential
      && r.event.details.Keys == {"case", "actor", "status"} + (if step.summary.Some? then {"summary"} else {})
      && r.event.details["case"] == id && r.event.details["actor"] == step.actor
      && r.event.details["status"] == StatusText(step.status)
      && (step.summary.Some? ==> r.event.details["summary"] == step.summary.value)
  {
    hide Run, NoCollisions, Untouched, Hashes, Peaceful, StepRecord, LifeId, GetByEvent, Log, LifecycleMove;
    TrailConservation(svc, audit, actions, id, parts, events);
    var h := Run(svc, audit, actions);
    var step := Log(h, id)[k].step;
    assert StepStored(svc, h, id, k);
    r := StepRecord(svc, id, k, step).value;
    StepRecordSays(svc, id, k, step);
    assert k > 0 ==> Follows(Log(h, id)[k - 1].step, step);
  }

  /** The step an accepted call logs: in its actor's name, with the status the case now has and what it summarises. */
  lemma LoggedStepSays(svc: Service, h: History, a: Action)
    requires Accepted(svc, h, a)
    ensures
      var c := Prepare(svc, h.world, a.op).value.state;
      var before, after := Log(h, c.caseId), Log(Act(svc, h, a), c.caseId);
      && |after| == |before| + 1 && before <= after
      && var s := after[|before|].step;
      && s.actor == a.op.actor && s.status == c.status && Act(svc, h, a).world.cases[c.caseId] == c
      && s.summary == (if a.op.OpenCase? then Some(a.op.title)
                       else if a.op.AddFinding? then Some(a.op.summary) else None)
  {
    hide Prepare, Act, StepRecord, InsertRecord, StepOf;
    ActShape(svc, h, a);
    StepSays(svc, h.world, a.op);
  }

  /** A crash loses the one step it interrupted: the cases and all other steps are as without it. */
  lemma CrashLosesOneStep(svc: Service, h: History, op: Operation)
    requires CasesInStep(h) && Prepare(svc, h.world, op).Ok? && ValidSource(svc.origin.source)
    ensures
      var c := Prepare(svc, h.world, op).value;
      var id, n := c.state.caseId, |Log(h, c.state.caseId)|;
      var crashed, whole := Act(svc, h, Call(op, true)), Act(svc, h, Call(op, false));
      && crashed.world.cases == whole.world.cases
      && crashed.world.audit == h.world.audit
      && whole.world.audit == InsertRecord(h.world.audit, StepRecord(svc, id, n, StepOf(op, c)).value)
      && crashed.trail == whole.trail[id := whole.trail[id][n := Logged(StepOf(op, c), false)]]
  {
    hide Prepare, StepRecord, InsertRecord, Act, CasesInStep;
    ActShape(svc, h, Call(op, true));
    ActShape(svc, h, Call(op, false));
    StepIndex(svc, h, Call(op, true));
    var c := Prepare(svc, h.world, op).value;
    hide StepOf, Log;
    ReplaceLast(Log(h, c.state.caseId), Logged(StepOf(op, c), true), Logged(StepOf(op, c), false));
  }

  lemma ReplaceLast<T>(s: seq<T>, x: T, y: T)
    ensures (s + [x])[|s| := y] == s + [y]
  {
  }

  lemma {:induction false} LogsOnlyGrow(svc: Service, audit: Store, actions: seq<Action>, m: nat, id: string)
    requires m <= |actions|
    ensures Log(Run(svc, audit, actions[..m]), id) <= Log(Run(svc, audit, actions), id)
  {
    hide Act, Log;
    if m == |actions| {
      assert actions[..m] == actions;
    } else {
      var init, last := actions[..|actions| - 1], actions[|actions| - 1];
      assert init[..m] == actions[..m];
      LogsOnlyGrow(svc, audit, init, m, id);
      ActExtendsLog(svc, Run(svc, audit, init), last, id);
    }
  }

  /** A step lost at any moment of a run is in the audit store at no later moment, under any actor. */
  lemma LostStepStaysLost(
    svc: Service, audit: Store, actions: seq<Action>, m: nat, id: string, k: nat, actor: string,
    parts: set<seq<string>>, events: set<AuditEvent>)
    requires NoCollisions(svc, parts, events) && Untouched(svc, audit, parts, events)
    requires Hashes(svc, Run(svc, audit, actions), parts, events) && Peaceful(svc, audit, actions, parts, events)
    requires LifeParts(svc, id, actor, k) in parts
    requires m <= |actions|
    requires
      var early := Run(svc, audit, actions[..m]);
      k < |Log(early, id)| && !Log(early, id)[k].recorded
    ensures LifeId(svc, id, actor, k) !in Run(svc, audit, actions).world.audit.byEvent
  {
    hide Act, NoCollisions, Coherent, IdsFree, StepStored, Walk, LifeId, LifeParts, Run, Log, StepHashed;
    RunKeepsTrail(svc, audit, actions, parts, events);
    LogsOnlyGrow(svc, audit, actions, m, id);
    var h := Run(svc, audit, actions);
    assert LifeId(svc, id, actor, k) in h.world.audit.byEvent <==> WasRecorded(h, id, actor, k);
  }

  function Lost(log: seq<Logged>): nat {
    if log == [] then 0 else Lost(log[..|log| - 1]) + if log[|log| - 1].recorded then 0 else 1
  }

  function Crashes(actions: seq<Action>): nat {
    if actions == [] then 0 else Crashes(actions[..|actions| - 1]) + if IsCrash(actions[|actions| - 1]) then 1 else 0
  }

  lemma ActLosses(svc: Service, h: History, a: Action, id: string)
    requires ValidSource(svc.origin.source)
    ensures Lost(Log(Act(svc, h, a), id)) <= Lost(Log(h, id)) + if IsCrash(a) then 1 else 0
  {
    hide Prepare, StepRecord, InsertRecord, StepOf, Act;
    if Accepted(svc, h, a) {
      ActShape(svc, h, a);
      hide ValidSource;
      var before, after := Log(h, id), Log(Act(svc, h, a), id);
      assert after == before || after[..|after| - 1] == before;
    } else {
      UnacceptedKeepsCases(svc, h, a);
    }
  }

  /** Over every run, a case misses at most as many steps as there were crashes. */
  lemma {:induction false} LossesBoundedByCrashes(svc: Service, audit: Store, actions: seq<Action>, id: string)
    requires ValidSource(svc.origin.source)
    ensures Lost(Log(Run(svc, audit, actions), id)) <= Crashes(actions)
  {
    hide Act;
    if actions != [] {
      hide Log, Lost;
      var init, last := actions[..|actions| - 1], actions[|actions| - 1];
      LossesBoundedByCrashes(svc, audit, init, id);
      ActLosses(svc, Run(svc, audit, init), last, id);
    }
  }

  // ---- The case invariant ----

  /** Closed exactly when it says when, and exactly when it says why. */
  predicate ClosureAgrees(c: InvestigationCase) {
    (c.status == Closed <==> c.closedAt.Some?) && (c.closedAt.Some? <==> c.closedReason.Some?)
  }

  ghost predicate AllAgree(w: World) {
    Filed(w.cases) && forall id :: id in w.cases ==> ClosureAgrees(w.cases[id])
  }

  lemma PreparedAgrees(svc: Service, w: World, op: Operation)
    requires AllAgree(w) && Prepare(svc, w, op).Ok?
    ensures ClosureAgrees(Prepare(svc, w, op).value.state)
  {
  }

  lemma ActKeepsAgreement(svc: Service, h: History, a: Action)
    requires AllAgree(h.world)
    ensures AllAgree(Act(svc, h, a).world)
  {
    hide Prepare, Act, ClosureAgrees, StepRecord, InsertRecord;
    if Accepted(svc, h, a) {
      ActShape(svc, h, a);
      PreparedIsFiled(svc, h.world, a.op);
      PreparedAgrees(svc, h.world, a.op);
    } else {
      UnacceptedKeepsCases(svc, h, a);
    }
  }

  lemma {:induction false} RunKeepsAgreement(svc: Service, audit: Store, actions: seq<Action>)
    ensures AllAgree(Run(svc, audit, actions).world)
  {
    hide Act, ClosureAgrees;
    if actions != [] {
      hide AllAgree;
      RunKeepsAgreement(svc, audit, actions[..|actions| - 1]);
      ActKeepsAgreement(svc, Run(svc, audit, actions[..|actions| - 1]), actions[|actions| - 1]);
    }
  }

  // ---- Which operations are accepted ----

  /** The exact condition under which an operation is accepted. */
  predicate MayHappen(svc: Service, w: World, op: Operation) {
    && svc.mayInvestigate(op.actor)
    && (op.OpenCase? ==> 1 <= |op.title| <= 200 && svc.caseId(op.caseKey) !in w.cases)
    && (!op.OpenCase? ==> op.caseId in w.cases && w.cases[op.caseId].status != Closed)
    && (op.Transition? ==>
          && op.caseId in w.cases && LifecycleMove(w.cases[op.caseId].status, op.to)
          && (op.to == Closed ==> op.reason.Some?) && !Forged(w.cases[op.caseId]))
    && (op.LinkRecord? ==> Get(w.audit, op.recordId).Ok?)
    && (op.AddFinding? ==> 1 <= |op.summary| <= 512)
    && (op.AddNote? ==> 1 <= |op.body| <= 4096)
  }

  lemma ValidMeans(c: InvestigationCase)
    ensures c.Valid() <==>
            && (c.status == Closed ==> c.closedAt.Some?)
            && (c.status != Closed ==> c.closedAt.None? && c.closedReason.None?)
            && !Forged(c)
  {
    if Forged(c) {
      var i :| 0 <= i < |c.timeline| && ForgedEntry(c.timeline[i]);
    }
    assert forall i :: 0 <= i < |c.timeline| ==>
        (ForgedEntry(c.timeline[i]) <==> IsAuditorAction(c.timeline[i].kind) && c.timeline[i].actor.None?);
  }

  lemma MovedValidIff(c: InvestigationCase, to: CaseStatus, at: I64, actor: string, reason: Option<string>)
    requires ClosureAgrees(c) && CanTransition(c.status, to)
    ensures StatusMoved(c, to, at, actor, reason).value.Valid() <==> c.status != Closed && !Forged(c)
  {
    MoveTable(c.status, to);
    hide MoveText, CanTransition, Forged;
    var moved := StatusMoved(c, to, at, actor, reason).value;
    EntriesAppended(c, moved.timeline[|c.timeline|], moved);
    ValidMeans(moved);
  }

  /** An operation is accepted exactly when it may happen, closing and forging included. */
  lemma AcceptedIff(svc: Service, w: World, op: Operation)
    requires AllAgree(w)
    ensures Prepare(svc, w, op).Ok? <==> MayHappen(svc, w, op)
  {
    hide Get, StatusMoved, Forged, NewFinding, NewNote;
    if op.Transition? && op.caseId in w.cases {
      var c := w.cases[op.caseId];
      MoveTable(c.status, op.to);
      MoveAllowedIff(c, op.to, svc.now, op.actor, op.reason);
      if CanTransition(c.status, op.to) {
        MovedValidIff(c, op.to, svc.now, op.actor, op.reason);
      }
    }
    hide CanTransition, LifecycleMove;
  }

  /** What a refused operation is refused with: the first of these that applies. */
  function Refusal(svc: Service, w: World, op: Operation): CaseError {
    var missing, closed := !op.OpenCase? && op.caseId !in w.cases,
                           !op.OpenCase? && op.caseId in w.cases && w.cases[op.caseId].status == Closed;
    if op.Transition? then
      if missing then CaseNotFound
      else if op.to == Closed && op.reason.None? then InvalidContent
      else if closed && op.to != Open then ClosedCase
      else if (if closed then !svc.isAdministrator(op.actor) else !svc.mayInvestigate(op.actor)) then NotAuthorized
      else if !closed && op.caseId in w.cases && !LifecycleMove(w.cases[op.caseId].status, op.to) then InvalidTransition
      else Internal
    else if !svc.mayInvestigate(op.actor) then NotAuthorized
    else if missing then CaseNotFound
    else if closed then ClosedCase
    else if op.OpenCase? && 1 <= |op.title| <= 200 then CaseAlreadyExists
    else if op.LinkRecord? then MissingRecord
    else InvalidContent
  }

  lemma RefusedWith(svc: Service, w: World, op: Operation)
    requires AllAgree(w) && Prepare(svc, w, op).Err?
    ensures Prepare(svc, w, op).error == Refusal(svc, w, op)
  {
    hide Get, StatusMoved, NewFinding, NewNote;
    if op.Transition? && op.caseId in w.cases {
      var c := w.cases[op.caseId];
      MoveTable(c.status, op.to);
      MoveAllowedIff(c, op.to, svc.now, op.actor, op.reason);
    }
    hide CanTransition, LifecycleMove;
  }

  /**
   In every reachable state a call is accepted exactly when it may happen, and is refused with the first
   reason that applies. In particular nobody who may not investigate changes a case or its trail.
   */
  lemma RunAcceptsIff(svc: Service, audit: Store, actions: seq<Action>, a: Action)
    requires a.Call?
    ensures
      var h := Run(svc, audit, actions);
      && (Accepted(svc, h, a) <==> MayHappen(svc, h.world, a.op))
      && (!Accepted(svc, h, a) ==>
            && Act(svc, h, a) == h
            && Perform(svc, h.world, a.op) == (Err(Refusal(svc, h.world, a.op)), h.world))
      && (!svc.mayInvestigate(a.op.actor) ==> Act(svc, h, a) == h)
  {
    hide Run, Prepare, Act, Refusal, AllAgree, StepRecord, InsertRecord;
    var h := Run(svc, audit, actions);
    RunKeepsAgreement(svc, audit, actions);
    AcceptedIff(svc, h.world, a.op);
    if !Accepted(svc, h, a) {
      RefusedIsSame(svc, h, a);
      RefusedWith(svc, h.world, a.op);
      PerformSays(svc, h.world, a.op);
    }
  }

  // ---- Forged entries ----

  predicate ForgesAction(op: Operation) {
    op.LinkRecord? && IsAuditorAction(op.kind)
  }

  /** Whether a link is accepted does not depend on the kind it claims. */
  lemma LinkIgnoresKind(svc: Service, w: World, actor: string, id: string, record: RecordId, kind: TimelineEntryKind)
    ensures Prepare(svc, w, LinkRecord(actor, id, record, kind)).Ok? <==>
            svc.mayInvestigate(actor) && id in w.cases && w.cases[id].status != Closed && Get(w.audit, record).Ok?
  {
    hide Get;
  }

  lemma EntriesAppended(c: InvestigationCase, entry: TimelineEntry, after: InvestigationCase)
    requires after.timeline == c.timeline + [entry]
    ensures Forged(after) <==> Forged(c) || ForgedEntry(entry)
  {
    if Forged(c) {
      var i :| 0 <= i < |c.timeline| && ForgedEntry(c.timeline[i]);
      assert ForgedEntry(after.timeline[i]);
    }
    assert after.timeline[|c.timeline|] == entry;
  }

  /** The one entry an accepted operation adds is forged exactly when the operation forges it. */
  lemma PreparedEntry(svc: Service, w: World, op: Operation)
    requires Filed(w.cases) && Prepare(svc, w, op).Ok? && !op.OpenCase?
    ensures
      var before, after := w.cases[op.caseId], Prepare(svc, w, op).value.state;
      && op.caseId in w.cases && after.caseId == op.caseId
      && |after.timeline| == |before.timeline| + 1
      && after.timeline == before.timeline + [after.timeline[|before.timeline|]]
      && (ForgedEntry(after.timeline[|before.timeline|]) <==> ForgesAction(op))
      && (!op.Transition? ==> after.status == before.status)
  {
    hide CanTransition, MoveText;
  }

  /** An accepted operation leaves a forged entry on its case exactly when one was there or it forges one. */
  lemma PreparedForgesIff(svc: Service, w: World, op: Operation)
    requires Filed(w.cases) && Prepare(svc, w, op).Ok?
    ensures
      var c := Prepare(svc, w, op).value.state;
      Forged(c) <==> ForgesAction(op) || (c.caseId in w.cases && Forged(w.cases[c.caseId]))
  {
    if op.OpenCase? {
      PreparedCase(svc, w, op);
    } else {
      hide Prepare, Forged;
      PreparedEntry(svc, w, op);
      var before, after := w.cases[op.caseId], Prepare(svc, w, op).value.state;
      EntriesAppended(before, after.timeline[|before.timeline|], after);
    }
  }

  ghost predicate HasForged(h: History, id: string) {
    id in h.world.cases && Forged(h.world.cases[id])
  }

  /** The action forges an entry on the case. */
  predicate ForgesOn(svc: Service, h: History, a: Action, id: string) {
    Accepted(svc, h, a) && ForgesAction(a.op) && a.op.caseId == id
  }

  lemma ActForgesIff(svc: Service, h: History, a: Action, id: string)
    requires Filed(h.world.cases)
    ensures HasForged(Act(svc, h, a), id) <==> HasForged(h, id) || ForgesOn(svc, h, a, id)
  {
    hide Prepare, Act, Forged, StepRecord, InsertRecord, StepOf;
    if Accepted(svc, h, a) {
      ActShape(svc, h, a);
      PreparedForgesIff(svc, h.world, a.op);
      if !a.op.OpenCase? {
        PreparedEntry(svc, h.world, a.op);
      }
    } else {
      UnacceptedKeepsCases(svc, h, a);
    }
  }

  /** The action at `n` of a run forges an entry on the case. */
  predicate ForgedDuring(svc: Service, audit: Store, actions: seq<Action>, n: nat, id: string)
    requires n < |actions|
  {
    ForgesOn(svc, Run(svc, audit, actions[..n]), actions[n], id)
  }

  lemma {:induction false} RunForgesIff(svc: Service, audit: Store, actions: seq<Action>, id: string)
    ensures HasForged(Run(svc, audit, actions), id) <==>
            exists n: nat :: n < |actions| && ForgedDuring(svc, audit, actions, n, id)
  {
    hide Act, Forged, ForgesOn, AllAgree;
    if actions != [] {
      var k := |actions| - 1;
      var init := actions[..k];
      RunForgesIff(svc, audit, init, id);
      RunKeepsAgreement(svc, audit, init);
      AgreementFiles(Run(svc, audit, init).world);
      ActForgesIff(svc, Run(svc, audit, init), actions[k], id);
      hide Run, HasForged;
      if n: nat :| n < |init| && ForgedDuring(svc, audit, init, n, id) {
        assert init[..n] == actions[..n];
        assert ForgedDuring(svc, audit, actions, n, id);
      }
      if n: nat :| n < |actions| && ForgedDuring(svc, audit, actions, n, id) && n < k {
        assert init[..n] == actions[..n];
        assert ForgedDuring(svc, audit, init, n, id);
      }
      assert ForgesOn(svc, Run(svc, audit, init), actions[k], id) <==> ForgedDuring(svc, audit, actions, k, id);
    }
  }

  lemma AgreementFiles(w: World)
    requires AllAgree(w)
    ensures Filed(w.cases)
  {
  }

  lemma ValidIffUnforged(c: InvestigationCase)
    requires ClosureAgrees(c)
    ensures c.Valid() <==> !Forged(c)
  {
    if !c.Valid() {
      var i :| 0 <= i < |c.timeline| && IsAuditorAction(c.timeline[i].kind) && c.timeline[i].actor.None?;
      assert ForgedEntry(c.timeline[i]);
    }
  }

  /**
   In every reachable state a case is closed exactly when it says when and exactly when it says why, and
   it is valid exactly when no accepted operation of the run forged an entry on it.
   */
  lemma CaseInvariant(svc: Service, audit: Store, actions: seq<Action>, id: string)
    requires id in Run(svc, audit, actions).world.cases
    ensures
      var c := Run(svc, audit, actions).world.cases[id];
      && (c.status == Closed <==> c.closedAt.Some?) && (c.status == Closed <==> c.closedReason.Some?)
      && (c.Valid() <==> forall n: nat :: n < |actions| ==> !ForgedDuring(svc, audit, actions, n, id))
  {
    hide Run, Forged, ForgedDuring;
    RunKeepsAgreement(svc, audit, actions);
    RunForgesIff(svc, audit, actions, id);
    ValidIffUnforged(Run(svc, audit, actions).world.cases[id]);
  }

  // ---- Closing is final ----

  /** Closing validates, so whatever else is linked to it a closed case is valid. */
  ghost predicate ClosedAreValid(w: World) {
    Filed(w.cases) && forall id :: id in w.cases && w.cases[id].status == Closed ==> w.cases[id].Valid()
  }

  lemma PreparedClosedIsValid(svc: Service, w: World, op: Operation)
    requires Prepare(svc, w, op).Ok? && Prepare(svc, w, op).value.state.status == Closed
    ensures Prepare(svc, w, op).value.state.Valid()
  {
  }

  lemma ActKeepsClosedValid(svc: Service, h: History, a: Action)
    requires ClosedAreValid(h.world)
    ensures ClosedAreValid(Act(svc, h, a).world)
  {
    hide Prepare, Act, StepRecord, InsertRecord;
    if Accepted(svc, h, a) {
      ActShape(svc, h, a);
      PreparedIsFiled(svc, h.world, a.op);
      if Prepare(svc, h.world, a.op).value.state.status == Closed {
        PreparedClosedIsValid(svc, h.world, a.op);
      }
    } else {
      UnacceptedKeepsCases(svc, h, a);
    }
  }

  lemma {:induction false} RunKeepsClosedValid(svc: Service, audit: Store, actions: seq<Action>)
    ensures ClosedAreValid(Run(svc, audit, actions).world)
  {
    hide Act;
    if actions != [] {
      hide ClosedAreValid;
      RunKeepsClosedValid(svc, audit, actions[..|actions| - 1]);
      ActKeepsClosedValid(svc, Run(svc, audit, actions[..|actions| - 1]), actions[|actions| - 1]);
    }
  }

  /** No accepted operation touches a closed valid case. */
  lemma ClosedIsNotTouched(svc: Service, w: World, op: Operation, id: string)
    requires Filed(w.cases) && id in w.cases && w.cases[id].status == Closed && w.cases[id].Valid()
    ensures Prepare(svc, w, op).Ok? ==> Prepare(svc, w, op).value.state.caseId != id
  {
    if op.Transition? && op.caseId == id && op.to == Open {
      MoveKeepsValidIff(w.cases[id], Open, svc.now, op.actor, op.reason);
    }
  }

  lemma ReopenFailsValidation(svc: Service, w: World, actor: string, id: string, reason: Option<string>)
    requires id in w.cases && w.cases[id].status == Closed && w.cases[id].Valid()
    ensures
      var why := if svc.isAdministrator(actor) then Internal else NotAuthorized;
      Perform(svc, w, Transition(actor, id, Open, reason)) == (Err(why), w)
  {
    MoveKeepsValidIff(w.cases[id], Open, svc.now, actor, reason);
  }

  /**
   Reopening is promised to administrators, yet in every reachable state it fails validation for them,
   as it fails authorization for everyone else, and changes neither store.
   */
  lemma ReopenAlwaysFails(
    svc: Service, audit: Store, actions: seq<Action>, actor: string, id: string, reason: Option<string>)
    requires
      var w := Run(svc, audit, actions).world;
      id in w.cases && w.cases[id].status == Closed
    ensures
      var w := Run(svc, audit, actions).world;
      var why := if svc.isAdministrator(actor) then Internal else NotAuthorized;
      Perform(svc, w, Transition(actor, id, Open, reason)) == (Err(why), w)
  {
    hide Run, Perform;
    RunKeepsClosedValid(svc, audit, actions);
    ReopenFailsValidation(svc, Run(svc, audit, actions).world, actor, id, reason);
  }

  lemma ClosedSurvivesAction(svc: Service, h: History, a: Action, id: string)
    requires ClosedAreValid(h.world) && id in h.world.cases && h.world.cases[id].status == Closed
    ensures id in Act(svc, h, a).world.cases && Act(svc, h, a).world.cases[id] == h.world.cases[id]
    ensures Log(Act(svc, h, a), id) == Log(h, id)
  {
    hide Prepare, Act, StepRecord, InsertRecord;
    if Accepted(svc, h, a) {
      ClosedIsNotTouched(svc, h.world, a.op, id);
      ActShape(svc, h, a);
    } else {
      UnacceptedKeepsCases(svc, h, a);
    }
  }

  /** As coded, a closed case is never altered again, whatever was linked to it and whatever follows. */
  lemma {:induction false} ClosedIsForever(svc: Service, audit: Store, actions: seq<Action>, m: nat, id: string)
    requires m <= |actions|
    requires
      var early := Run(svc, audit, actions[..m]);
      id in early.world.cases && early.world.cases[id].status == Closed
    ensures
      var early, late := Run(svc, audit, actions[..m]), Run(svc, audit, actions);
      id in late.world.cases && late.world.cases[id] == early.world.cases[id] && Log(late, id) == Log(early, id)
  {
    hide Act, ClosedAreValid;
    if m == |actions| {
      assert actions[..m] == actions;
    } else {
      var init, last := actions[..|actions| - 1], actions[|actions| - 1];
      assert init[..m] == actions[..m];
      ClosedIsForever(svc, audit, init, m, id);
      RunKeepsClosedValid(svc, audit, init);
      ClosedSurvivesAction(svc, Run(svc, audit, init), last, id);
    }
  }

  /** A case with a forged entry refuses every transition, and both stores stay as they are. */
  lemma ForgedEntryBlocksTransitions(
    svc: Service, w: World, id: string, actor: string, to: CaseStatus, reason: Option<string>)
    requires id in w.cases && Forged(w.cases[id])
    ensures Prepare(svc, w, Transition(actor, id, to, reason)).Err?
    ensures Perform(svc, w, Transition(actor, id, to, reason)).0.Err?
    ensures Perform(svc, w, Transition(actor, id, to, reason)).1 == w
  {
    hide StepRecord, InsertRecord, StatusMoved;
    var moved := StatusMoved(w.cases[id], to, svc.now, actor, reason);
    var i :| 0 <= i < |w.cases[id].timeline| && ForgedEntry(w.cases[id].timeline[i]);
    if moved.Some? {
      MoveExtends(w.cases[id], to, svc.now, actor, reason);
      PoisonedStays(w.cases[id], moved.value, i);
    }
  }

  lemma ForgedSurvivesAction(svc: Service, h: History, a: Action, id: string)
    requires Filed(h.world.cases) && HasForged(h, id)
    ensures
      var after := Act(svc, h, a);
      && HasForged(after, id)
      && after.world.cases[id].status == h.world.cases[id].status
      && h.world.cases[id].timeline <= after.world.cases[id].timeline
  {
    hide Prepare, Act, Forged, StepRecord, InsertRecord, StepOf, Perform;
    ActForgesIff(svc, h, a, id);
    if Accepted(svc, h, a) {
      ActShape(svc, h, a);
      if a.op.OpenCase? {
        PreparedCase(svc, h.world, a.op);
      } else {
        PreparedEntry(svc, h.world, a.op);
        if a.op.Transition? && a.op.caseId == id {
          ForgedEntryBlocksTransitions(svc, h.world, id, a.op.actor, a.op.to, a.op.reason);
        }
      }
    } else {
      UnacceptedKeepsCases(svc, h, a);
    }
  }

  /**
   Once a forged entry is on a timeline, the case keeps it and keeps its status at every later moment of
   the run: it can never be moved, closed or reopened again.
   */
  lemma {:induction false} ForgedIsFrozen(svc: Service, audit: Store, actions: seq<Action>, m: nat, id: string)
    requires m <= |actions| && HasForged(Run(svc, audit, actions[..m]), id)
    ensures
      var early, late := Run(svc, audit, actions[..m]), Run(svc, audit, actions);
      && HasForged(late, id)
      && late.world.cases[id].status == early.world.cases[id].status
      && early.world.cases[id].timeline <= late.world.cases[id].timeline
  {
    hide Act, Forged, AllAgree;
    if m == |actions| {
      assert actions[..m] == actions;
    } else {
      var init, last := actions[..|actions| - 1], actions[|actions| - 1];
      assert init[..m] == actions[..m];
      ForgedIsFrozen(svc, audit, init, m, id);
      RunKeepsAgreement(svc, audit, init);
      AgreementFiles(Run(svc, audit, init).world);
      ForgedSurvivesAction(svc, Run(svc, audit, init), last, id);
    }
  }

  lemma MoveExtends(c: InvestigationCase, to: CaseStatus, at: I64, actor: string, reason: Option<string>)
    requires StatusMoved(c, to, at, actor, reason).Some?
    ensures c.timeline <= StatusMoved(c, to, at, actor, reason).value.timeline
  {
    hide MoveText, CanTransition;
  }
}
