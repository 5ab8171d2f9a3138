/**
 Whole runs of the indexer over one source, with any page cuts, policies, refusals, source
 failures, crashes before the store write or between the write and the checkpoint save, and other
 services writing to the same store in between.
 */
module Ingestion {
  import opened Wrappers
  import opened Records
  import opened PositionKeys
  import opened EventStore
  import opened EventOrdering
  import opened Indexer

  /** How a call ends, or what another service wrote instead of a call. */
  datatype Fate =
    | Completes | CrashesBeforeWrite | CrashesAfterWrite | SourceFails
    | OthersWrite(records: seq<AuditRecord>)

  /** One call of `run_once`: its settings, the page the source served, and how the call ended. */
  datatype Attempt = Attempt(settings: Settings, page: SourcePage, fate: Fate)

  /** The durable state plus the reports successful calls returned. */
  datatype World = World(durable: Durable, reports: seq<IngestReport>)

  /** A first run: whatever the store already holds, and no checkpoint. */
  function FirstRun(base: Store): World {
    World(Durable(base, None), [])
  }

  ghost function Execute(pl: Pipeline, name: string, w: World, a: Attempt): World {
    match a.fate
    case SourceFails => w
    case CrashesBeforeWrite => w
    case OthersWrite(records) => w.(durable := w.durable.(store := InsertAll(w.durable.store, records)))
    case CrashesAfterWrite =>
      var plan := Plan(pl, a.settings, a.page);
      if plan.Err? then w
      else w.(durable := w.durable.(store := Written(w.durable.store, plan.value.records)))
    case Completes =>
      var (result, after) := RunPage(pl, a.settings, name, a.page, w.durable);
      World(after, if result.Ok? then w.reports + [result.value] else w.reports)
  }

  ghost function Run(pl: Pipeline, name: string, base: Store, attempts: seq<Attempt>): World {
    if attempts == [] then FirstRun(base)
    else Execute(pl, name, Run(pl, name, base, attempts[..|attempts| - 1]), attempts[|attempts| - 1])
  }

  predicate Fetches(a: Attempt) {
    a.fate.Completes? || a.fate.CrashesBeforeWrite? || a.fate.CrashesAfterWrite?
  }

  /** Everything other services offered to the store during a run. */
  function OthersOf(attempts: seq<Attempt>): seq<AuditRecord> {
    if attempts == [] then []
    else
      var last := attempts[|attempts| - 1];
      OthersOf(attempts[..|attempts| - 1]) + if last.fate.OthersWrite? then last.fate.records else []
  }

  // ---- What the source promises ----

  ghost predicate DistinctPositions(log: seq<RawEventItem>) {
    forall i, j :: 0 <= i < j < |log| ==> log[i].position != log[j].position
  }

  /** The checkpoint names the item before index `c`. */
  ghost predicate At(log: seq<RawEventItem>, checkpoint: Option<string>, c: nat) {
    && c <= |log|
    && checkpoint == if c == 0 then None else Some(log[c - 1].position)
  }

  ghost predicate ServesFrom(log: seq<RawEventItem>, checkpoint: Option<string>, page: SourcePage, c: nat) {
    At(log, checkpoint, c) && c + |page.items| <= |log| && page.items == log[c..c + |page.items|]
  }

  /** The page is the next stretch of the log after the checkpoint, no longer than the limit. */
  ghost predicate Serves(log: seq<RawEventItem>, checkpoint: Option<string>, limit: nat, page: SourcePage) {
    |page.items| <= limit && exists c: nat :: ServesFrom(log, checkpoint, page, c)
  }

  ghost predicate LegalRun(pl: Pipeline, name: string, base: Store, log: seq<RawEventItem>, attempts: seq<Attempt>) {
    attempts != [] ==>
      var init, last := attempts[..|attempts| - 1], attempts[|attempts| - 1];
      && LegalRun(pl, name, base, log, init)
      && (Fetches(last) ==>
            Serves(log, Run(pl, name, base, init).durable.checkpoint, last.settings.pageLimit, last.page))
  }

  lemma AtIsUnique(log: seq<RawEventItem>, checkpoint: Option<string>, c: nat, c': nat)
    requires DistinctPositions(log) && At(log, checkpoint, c) && At(log, checkpoint, c')
    ensures c == c'
  {
  }

  // ---- The store is always a fold over a prefix of the log ----

  /** What arrived at the store, piece by piece: stretches of the log, and what others wrote. */
  datatype Piece = Own(records: seq<AuditRecord>) | Theirs(records: seq<AuditRecord>)

  function Flat(trace: seq<Piece>): seq<AuditRecord> {
    if trace == [] then [] else Flat(trace[..|trace| - 1]) + trace[|trace| - 1].records
  }

  function OwnOf(trace: seq<Piece>): seq<AuditRecord> {
    if trace == [] then []
    else OwnOf(trace[..|trace| - 1]) + if trace[|trace| - 1].Own? then trace[|trace| - 1].records else []
  }

  function TheirsOf(trace: seq<Piece>): seq<AuditRecord> {
    if trace == [] then []
    else TheirsOf(trace[..|trace| - 1]) + if trace[|trace| - 1].Theirs? then trace[|trace| - 1].records else []
  }

  /**
   The checkpoint stands before item `c`, and the store is the first-occurrence-wins insertion of the
   first `p` items, in log order, interleaved with what others wrote.
   */
  ghost predicate Covers(
    pl: Pipeline, base: Store, log: seq<RawEventItem>, d: Durable, c: nat, p: nat, trace: seq<Piece>)
  {
    && c <= p <= |log| && At(log, d.checkpoint, c)
    && d.store == InsertAll(base, Flat(trace)) && OwnOf(trace) == RecordsOf(pl, log[..p])
  }

  lemma PieceAdded(trace: seq<Piece>, piece: Piece)
    ensures Flat(trace + [piece]) == Flat(trace) + piece.records
    ensures OwnOf(trace + [piece]) == OwnOf(trace) + if piece.Own? then piece.records else []
    ensures TheirsOf(trace + [piece]) == TheirsOf(trace) + if piece.Theirs? then piece.records else []
  {
    assert (trace + [piece])[..|trace|] == trace;
  }

  lemma {:induction false} OwnInFlat(trace: seq<Piece>)
    ensures forall r :: r in OwnOf(trace) ==> r in Flat(trace)
  {
    if trace != [] {
      OwnInFlat(trace[..|trace| - 1]);
    }
  }

  /** Without other writers the trace is the log's own records. */
  lemma {:induction false} AloneFlatIsOwn(trace: seq<Piece>)
    requires TheirsOf(trace) == []
    ensures Flat(trace) == OwnOf(trace)
  {
    if trace != [] {
      AloneFlatIsOwn(trace[..|trace| - 1]);
    }
  }

  lemma {:induction false} RecordsOfAppend(pl: Pipeline, a: seq<RawEventItem>, b: seq<RawEventItem>)
    ensures RecordsOf(pl, a + b) == RecordsOf(pl, a) + RecordsOf(pl, b)
    decreases |b|
  {
    if b == [] {
      assert a + b == a;
    } else {
      var init, last := b[..|b| - 1], b[|b| - 1];
      assert (a + b)[..|a + b| - 1] == a + init;
      RecordsOfAppend(pl, a, init);
      AppendAssociates(RecordsOf(pl, a), RecordsOf(pl, init), RecordOf(pl, last));
    }
  }

  function Max(a: nat, b: nat): nat {
    if a >= b then a else b
  }

  /** Records that have arrived before are absorbed by deduplication when they arrive again. */
  lemma ArrivedIsAbsorbed(base: Store, arrived: seq<AuditRecord>, again: seq<AuditRecord>)
    requires forall r :: r in again ==> r in arrived
    ensures InsertAll(InsertAll(base, arrived), again) == InsertAll(base, arrived)
  {
    hide InsertAll;
    var s := InsertAll(base, arrived);
    InsertAllRecords(base, arrived);
    forall i | 0 <= i < |again| && again[i].Valid() ensures again[i].event.eventId in s.byEvent {
      assert again[i] in again;
      var j :| 0 <= j < |arrived| && arrived[j] == again[i];
    }
    InsertAllKnown(s, again);
  }

  lemma StretchInPrefix(pl: Pipeline, log: seq<RawEventItem>, a: nat, b: nat, p: nat)
    requires a <= b <= p <= |log|
    ensures forall r :: r in RecordsOf(pl, log[a..b]) ==> r in RecordsOf(pl, log[..p])
  {
    hide RecordsOf;
    RecordsOfAppend(pl, log[..b], log[b..p]);
    RecordsOfAppend(pl, log[..a], log[a..b]);
    assert log[..p] == log[..b] + log[b..p] && log[..b] == log[..a] + log[a..b];
  }

  /** What a page adds to the trace: the part past the prefix, or nothing. */
  function TraceAfter(pl: Pipeline, log: seq<RawEventItem>, p: nat, e: nat, trace: seq<Piece>): seq<Piece>
    requires p <= |log| && e <= |log|
  {
    if e <= p then trace else trace + [Own(RecordsOf(pl, log[p..e]))]
  }

  /** Writing any page that starts at or before the prefix arrives as its part past the prefix. */
  lemma WriteArrives(pl: Pipeline, base: Store, log: seq<RawEventItem>, c: nat, e: nat, p: nat, trace: seq<Piece>)
    requires c <= e <= |log| && c <= p <= |log| && OwnOf(trace) == RecordsOf(pl, log[..p])
    ensures
      var after := TraceAfter(pl, log, p, e, trace);
      && InsertAll(InsertAll(base, Flat(trace)), RecordsOf(pl, log[c..e])) == InsertAll(base, Flat(after))
      && OwnOf(after) == RecordsOf(pl, log[..Max(p, e)]) && TheirsOf(after) == TheirsOf(trace)
  {
    hide InsertAll, RecordsOf, Flat, OwnOf, TheirsOf;
    OwnInFlat(trace);
    if e <= p {
      StretchInPrefix(pl, log, c, e, p);
      ArrivedIsAbsorbed(base, Flat(trace), RecordsOf(pl, log[c..e]));
    } else {
      var repeated, further := RecordsOf(pl, log[c..p]), RecordsOf(pl, log[p..e]);
      assert log[c..e] == log[c..p] + log[p..e] && log[..e] == log[..p] + log[p..e];
      RecordsOfAppend(pl, log[c..p], log[p..e]);
      RecordsOfAppend(pl, log[..p], log[p..e]);
      PieceAdded(trace, Own(further));
      StretchInPrefix(pl, log, c, p, p);
      ArrivedIsAbsorbed(base, Flat(trace), repeated);
      InsertAllAppend(InsertAll(base, Flat(trace)), repeated, further);
      InsertAllAppend(base, Flat(trace), further);
    }
  }

  /** Where the checkpoint stands after an attempt: moved past the page, or not at all. */
  ghost function NextIndex(pl: Pipeline, name: string, w: World, a: Attempt, c: nat): nat {
    if a.fate == Completes && RunPage(pl, a.settings, name, a.page, w.durable).0.Ok? then c + |a.page.items| else c
  }

  predicate Writes(a: Attempt) {
    a.fate == Completes || a.fate == CrashesAfterWrite
  }

  /** An attempt leaves the store alone or adds the page's records, or others add theirs; nothing in between. */
  lemma ExecuteStore(pl: Pipeline, name: string, w: World, a: Attempt)
    ensures
      var after := Execute(pl, name, w, a).durable.store;
      if a.fate.OthersWrite? then after == InsertAll(w.durable.store, a.fate.records)
      else if Writes(a) && Plan(pl, a.settings, a.page).Ok? then
        after == InsertAll(w.durable.store, RecordsOf(pl, a.page.items))
      else after == w.durable.store
  {
    hide Plan, InsertAll, RecordsOf, Written, CheckpointOk, ReportOf;
    if Writes(a) && Plan(pl, a.settings, a.page).Ok? {
      PlanInserts(pl, a.settings, a.page, w.durable.store);
    }
  }

  /** Only a call that succeeds moves the checkpoint, and it moves it to the last item served. */
  lemma ExecuteCheckpoint(pl: Pipeline, name: string, w: World, a: Attempt)
    ensures
      var after := Execute(pl, name, w, a).durable.checkpoint;
      if a.fate == Completes && RunPage(pl, a.settings, name, a.page, w.durable).0.Ok?
      then after == NextCheckpoint(w.durable.checkpoint, a.page.items)
      else after == w.durable.checkpoint
  {
  }

  lemma CheckpointAdvances(log: seq<RawEventItem>, checkpoint: Option<string>, page: SourcePage, c: nat)
    requires ServesFrom(log, checkpoint, page, c)
    ensures At(log, NextCheckpoint(checkpoint, page.items), c + |page.items|)
  {
    if page.items != [] {
      assert page.items[|page.items| - 1] == log[c + |page.items| - 1];
    }
  }

  lemma ServedFromCheckpoint(log: seq<RawEventItem>, checkpoint: Option<string>, limit: nat, page: SourcePage, c: nat)
    requires DistinctPositions(log) && At(log, checkpoint, c) && Serves(log, checkpoint, limit, page)
    ensures ServesFrom(log, checkpoint, page, c)
  {
    var c': nat :| ServesFrom(log, checkpoint, page, c');
    AtIsUnique(log, checkpoint, c, c');
  }

  lemma CoverStep(
    pl: Pipeline, base: Store, log: seq<RawEventItem>, d: Durable, d': Durable, page: SourcePage,
    c: nat, p: nat, trace: seq<Piece>, moved: bool)
    requires Covers(pl, base, log, d, c, p, trace) && ServesFrom(log, d.checkpoint, page, c)
    requires d'.store == InsertAll(d.store, RecordsOf(pl, page.items))
    requires d'.checkpoint == if moved then NextCheckpoint(d.checkpoint, page.items) else d.checkpoint
    ensures
      var e := c + |page.items|;
      && Covers(pl, base, log, d', if moved then e else c, Max(p, e), TraceAfter(pl, log, p, e, trace))
      && TheirsOf(TraceAfter(pl, log, p, e, trace)) == TheirsOf(trace)
  {
    hide InsertAll, RecordsOf, Flat, OwnOf, TheirsOf, TraceAfter;
    CheckpointAdvances(log, d.checkpoint, page, c);
    WriteArrives(pl, base, log, c, c + |page.items|, p, trace);
  }

  lemma ExecuteIdle(pl: Pipeline, name: string, w: World, a: Attempt)
    requires !a.fate.OthersWrite? && !(Writes(a) && Plan(pl, a.settings, a.page).Ok?)
    ensures Execute(pl, name, w, a).durable == w.durable
  {
  }

  lemma OthersCover(
    pl: Pipeline, name: string, base: Store, log: seq<RawEventItem>, w: World, a: Attempt, c: nat, p: nat,
      trace: seq<Piece>)
    requires a.fate.OthersWrite? && Covers(pl, base, log, w.durable, c, p, trace)
    ensures
      var after := trace + [Theirs(a.fate.records)];
      && Covers(pl, base, log, Execute(pl, name, w, a).durable, c, p, after)
      && TheirsOf(after) == TheirsOf(trace) + a.fate.records
  {
    hide InsertAll, RecordsOf, Flat, OwnOf, TheirsOf, Plan, RunPage;
    PieceAdded(trace, Theirs(a.fate.records));
    InsertAllAppend(base, Flat(trace), a.fate.records);
  }

  lemma ExecuteKeepsCover(
    pl: Pipeline, name: string, base: Store, log: seq<RawEventItem>, w: World, a: Attempt, c: nat, p: nat,
      trace: seq<Piece>)
    returns (p': nat, trace': seq<Piece>)
    requires DistinctPositions(log) && Covers(pl, base, log, w.durable, c, p, trace)
    requires Fetches(a) ==> Serves(log, w.durable.checkpoint, a.settings.pageLimit, a.page)
    ensures Covers(pl, base, log, Execute(pl, name, w, a).durable, NextIndex(pl, name, w, a, c), p', trace')
    ensures TheirsOf(trace') == TheirsOf(trace) + if a.fate.OthersWrite? then a.fate.records else []
  {
    hide Execute, Plan, RunPage, InsertAll, RecordsOf, Covers, TheirsOf, Serves, TraceAfter;
    p', trace' := p, trace;
    var moved := a.fate == Completes && RunPage(pl, a.settings, name, a.page, w.durable).0.Ok?;
    if a.fate.OthersWrite? {
      trace' := trace + [Theirs(a.fate.records)];
      OthersCover(pl, name, base, log, w, a, c, p, trace);
    } else if Writes(a) && Plan(pl, a.settings, a.page).Ok? {
      CoversAt(pl, base, log, w.durable, c, p, trace);
      ServedFromCheckpoint(log, w.durable.checkpoint, a.settings.pageLimit, a.page, c);
      ExecuteStore(pl, name, w, a);
      ExecuteCheckpoint(pl, name, w, a);
      p', trace' := Max(p, c + |a.page.items|), TraceAfter(pl, log, p, c + |a.page.items|, trace);
      CoverStep(pl, base, log, w.durable, Execute(pl, name, w, a).durable, a.page, c, p, trace, moved);
    } else {
      ExecuteIdle(pl, name, w, a);
      if Plan(pl, a.settings, a.page).Err? {
        UnplannedFails(pl, name, w, a);
      }
    }
  }

  lemma CoversAt(pl: Pipeline, base: Store, log: seq<RawEventItem>, d: Durable, c: nat, p: nat, trace: seq<Piece>)
    requires Covers(pl, base, log, d, c, p, trace)
    ensures c <= p <= |log| && At(log, d.checkpoint, c)
  {
  }

  lemma UnplannedFails(pl: Pipeline, name: string, w: World, a: Attempt)
    requires Plan(pl, a.settings, a.page).Err?
    ensures RunPage(pl, a.settings, name, a.page, w.durable).0.Err?
  {
  }

  /** How far the durable state has got after a run: the checkpoint, the prefix that arrived, and the trace. */
  lemma {:induction false} RunCovers(
    pl: Pipeline, name: string, base: Store, log: seq<RawEventItem>, attempts: seq<Attempt>)
    returns (c: nat, p: nat, trace: seq<Piece>)
    requires DistinctPositions(log) && LegalRun(pl, name, base, log, attempts)
    ensures Covers(pl, base, log, Run(pl, name, base, attempts).durable, c, p, trace)
    ensures TheirsOf(trace) == OthersOf(attempts)
  {
    if attempts == [] {
      c, p, trace := 0, 0, [];
      assert log[..0] == [];
    } else {
      hide Covers, Execute, TheirsOf;
      var init, last := attempts[..|attempts| - 1], attempts[|attempts| - 1];
      var c0, p0, trace0 := RunCovers(pl, name, base, log, init);
      var w := Run(pl, name, base, init);
      p, trace := ExecuteKeepsCover(pl, name, base, log, w, last, c0, p0, trace0);
      c := NextIndex(pl, name, w, last, c0);
    }
  }

  /**
   Ingestion refines one simple fold. After every run, whatever the page cuts, policies, refusals,
   failures, crashes and other writers, the store is the first-occurrence-wins insertion of a prefix of
   the log, in log order and at least as long as the checkpointed one, interleaved with what the others
   wrote, in their order.
   */
  lemma IngestionRefinesFold(pl: Pipeline, name: string, base: Store, log: seq<RawEventItem>, attempts: seq<Attempt>)
    requires DistinctPositions(log) && LegalRun(pl, name, base, log, attempts)
    ensures exists c: nat, p: nat, trace: seq<Piece> ::
      Covers(pl, base, log, Run(pl, name, base, attempts).durable, c, p, trace) && TheirsOf(trace) == OthersOf(attempts)
  {
    hide Covers, Run, LegalRun, OthersOf, TheirsOf;
    var c, p, trace := RunCovers(pl, name, base, log, attempts);
  }

  /** Alone at the store, the store is exactly the insertion of such a prefix. */
  lemma IngestionAlone(pl: Pipeline, name: string, base: Store, log: seq<RawEventItem>, attempts: seq<Attempt>)
    returns (c: nat, p: nat)
    requires DistinctPositions(log) && LegalRun(pl, name, base, log, attempts) && OthersOf(attempts) == []
    ensures c <= p <= |log| && At(log, Run(pl, name, base, attempts).durable.checkpoint, c)
    ensures Run(pl, name, base, attempts).durable.store == InsertAll(base, RecordsOf(pl, log[..p]))
  {
    hide InsertAll, RecordsOf, Run, LegalRun, OthersOf, Flat, OwnOf, TheirsOf;
    var trace;
    c, p, trace := RunCovers(pl, name, base, log, attempts);
    AloneFlatIsOwn(trace);
  }

  /** A drained run, alone at the store, holds the insertion of the whole log. */
  lemma DrainedRun(pl: Pipeline, name: string, base: Store, log: seq<RawEventItem>, attempts: seq<Attempt>)
    requires DistinctPositions(log) && LegalRun(pl, name, base, log, attempts) && OthersOf(attempts) == []
    requires At(log, Run(pl, name, base, attempts).durable.checkpoint, |log|)
    ensures Run(pl, name, base, attempts).durable.store == InsertAll(base, RecordsOf(pl, log))
  {
    hide InsertAll, RecordsOf, Run, LegalRun, OthersOf;
    var c, p := IngestionAlone(pl, name, base, log, attempts);
    AtIsUnique(log, Run(pl, name, base, attempts).durable.checkpoint, c, |log|);
    assert log[..|log|] == log;
  }

  /** Two runs that drained the same log hold the same state, however differently they got there. */
  lemma DrainedRunsAgree(
    pl: Pipeline, name: string, base: Store, log: seq<RawEventItem>, one: seq<Attempt>, two: seq<Attempt>)
    requires DistinctPositions(log) && LegalRun(pl, name, base, log, one) && LegalRun(pl, name, base, log, two)
    requires OthersOf(one) == [] && OthersOf(two) == []
    requires At(log, Run(pl, name, base, one).durable.checkpoint, |log|)
    requires At(log, Run(pl, name, base, two).durable.checkpoint, |log|)
    ensures Run(pl, name, base, one).durable == Run(pl, name, base, two).durable
  {
    hide InsertAll, RecordsOf, Run, LegalRun, OthersOf;
    DrainedRun(pl, name, base, log, one);
    DrainedRun(pl, name, base, log, two);
  }

  // ---- What ingestion stores ----

  /**
   A record of `e` as ingestion stamps it: identified by its event, at this instant, confidential,
   unlinked, unsealed.
   */
  ghost predicate Stamped(pl: Pipeline, r: AuditRecord, e: AuditEvent) {
    && r.event == e && r.recordId == pl.identify(e) && r.recordedAt == pl.now
    && r.schemaVersion == 1 && r.classification == Confidential && r.redactions == map[]
    && r.supersedes == None && r.correctionReason == None && r.integrity == None
  }

  ghost predicate FromItem(pl: Pipeline, items: seq<RawEventItem>, r: AuditRecord) {
    exists i :: 0 <= i < |items| && pl.normalize(items[i]).Some? && Stamped(pl, r, pl.normalize(items[i]).value)
  }

  lemma {:induction false} RecordsAreStamped(pl: Pipeline, items: seq<RawEventItem>, r: AuditRecord)
    requires r in RecordsOf(pl, items)
    ensures FromItem(pl, items, r)
  {
    var n := |items| - 1;
    if r in RecordsOf(pl, items[..n]) {
      RecordsAreStamped(pl, items[..n], r);
      var i :| 0 <= i < n && pl.normalize(items[..n][i]).Some? && Stamped(pl, r, pl.normalize(items[..n][i]).value);
      assert items[..n][i] == items[i];
    } else {
      assert pl.normalize(items[n]).Some? && Stamped(pl, r, pl.normalize(items[n]).value);
    }
  }

  lemma {:induction false} FlatIsOwnOrTheirs(trace: seq<Piece>)
    ensures forall r :: r in Flat(trace) ==> r in OwnOf(trace) || r in TheirsOf(trace)
  {
    if trace != [] {
      FlatIsOwnOrTheirs(trace[..|trace| - 1]);
    }
  }

  /**
   After every run each stored record was in the store before, was offered by another writer, or is the
   stamped record of some item's normalized event.
   */
  lemma StoredAreStamped(
    pl: Pipeline, name: string, base: Store, log: seq<RawEventItem>, attempts: seq<Attempt>, k: PositionKey)
    requires DistinctPositions(log) && LegalRun(pl, name, base, log, attempts)
    requires k in Run(pl, name, base, attempts).durable.store.records
    ensures
      var r := Run(pl, name, base, attempts).durable.store.records[k];
      || (k in base.records && base.records[k] == r)
      || r in OthersOf(attempts)
      || FromItem(pl, log, r)
  {
    hide InsertAll, RecordsOf, Run, LegalRun, OthersOf, Flat, OwnOf, TheirsOf;
    var c, p, trace := RunCovers(pl, name, base, log, attempts);
    InsertAllIsDrawn(base, Flat(trace));
    FlatIsOwnOrTheirs(trace);
    var r := Run(pl, name, base, attempts).durable.store.records[k];
    if r in OwnOf(trace) {
      RecordsAreStamped(pl, log[..p], r);
      var i :| 0 <= i < p && pl.normalize(log[..p][i]).Some? && Stamped(pl, r, pl.normalize(log[..p][i]).value);
      assert log[..p][i] == log[i];
    }
  }

  lemma {:induction false} EventsOfRecords(pl: Pipeline, items: seq<RawEventItem>, r: AuditRecord) returns (i: nat)
    requires r in RecordsOf(pl, items)
    ensures i < |items| && pl.normalize(items[i]).Some? && pl.normalize(items[i]).value.eventId == r.event.eventId
  {
    hide Stamped;
    RecordsAreStamped(pl, items, r);
    i :| 0 <= i < |items| && pl.normalize(items[i]).Some? && Stamped(pl, r, pl.normalize(items[i]).value);
    assert r.event == pl.normalize(items[i]).value by {
      StampedEvent(pl, r, pl.normalize(items[i]).value);
    }
  }

  lemma StampedEvent(pl: Pipeline, r: AuditRecord, e: AuditEvent)
    requires Stamped(pl, r, e)
    ensures r.event == e
  {
  }

  lemma PutIsLookedUp(s: Store, r: AuditRecord)
    requires r.Valid() && r.event.eventId !in s.byEvent
    ensures GetByEvent(InsertRecord(s, r), r.event.eventId) == Ok(Some(r))
  {
  }

  /** Inserting a sequence leaves a record that was new at its turn to be looked up, when ids stand for events. */
  lemma NewRecordIsLookedUp(base: Store, before: seq<AuditRecord>, r: AuditRecord, after: seq<AuditRecord>)
    requires Coherent(base) && IdsNameEvents(base, before + [r] + after) && r.Valid()
    requires r.event.eventId !in base.byEvent && forall x :: x in before ==> x.event.eventId != r.event.eventId
    ensures GetByEvent(InsertAll(base, before + [r] + after), r.event.eventId) == Ok(Some(r))
  {
    hide Coherent, IdsNameEvents, InsertAll, InsertRecord, GetByEvent, AllAvailable, Grows;
    var all := before + [r] + after;
    var s := InsertAll(base, before);
    InsertAllIsDrawn(base, before);
    PutIsLookedUp(s, r);
    InsertAllAppend(base, before, [r]);
    SingleInsert(s, r);
    InsertAllAppend(base, before + [r], after);
    DerivedIdsAreAvailable(base, all, all);
    AvailableAppend(base, before + [r], after);
    InsertAllKeepsHistory(base, before + [r]);
    var t := InsertRecord(s, r);
    InsertAllKeepsHistory(t, after);
    LookupStays(t, InsertAll(t, after), r);
  }

  lemma LookupStays(s: Store, t: Store, r: AuditRecord)
    requires Grows(s, t) && GetByEvent(s, r.event.eventId) == Ok(Some(r))
    ensures GetByEvent(t, r.event.eventId) == Ok(Some(r))
  {
    GrowthKeepsLookups(s, t, r.recordId, r.event.eventId);
  }

  /**
   Looking up the event of an item at or before the checkpoint, the first item with that event and one
   the store did not know, returns its stamped record. Alone at the store, with ids that stand for events.
   */
  lemma IngestedIsLookedUp(
    pl: Pipeline, name: string, base: Store, log: seq<RawEventItem>, attempts: seq<Attempt>, c: nat, i: nat)
    returns (r: AuditRecord)
    requires DistinctPositions(log) && LegalRun(pl, name, base, log, attempts) && OthersOf(attempts) == []
    requires Coherent(base) && IdsNameEvents(base, RecordsOf(pl, log))
    requires At(log, Run(pl, name, base, attempts).durable.checkpoint, c) && i < c
    requires pl.normalize(log[i]).Some? && pl.normalize(log[i]).value.Valid()
    requires pl.normalize(log[i]).value.kind != RecordCorrected
    requires pl.normalize(log[i]).value.eventId !in base.byEvent
    requires forall j :: 0 <= j < i && pl.normalize(log[j]).Some? ==>
               pl.normalize(log[j]).value.eventId != pl.normalize(log[i]).value.eventId
    ensures Stamped(pl, r, pl.normalize(log[i]).value)
    ensures GetByEvent(Run(pl, name, base, attempts).durable.store, pl.normalize(log[i]).value.eventId) == Ok(Some(r))
  {
    hide InsertAll, RecordsOf, Run, LegalRun, OthersOf, Stamped, RecordFor, Coherent, IdsNameEvents, GetByEvent;
    var e := pl.normalize(log[i]).value;
    r := RecordFor(e, pl.now, pl.identify);
    MadeIsStamped(pl, e);
    var c0, p := IngestionAlone(pl, name, base, log, attempts);
    AtIsUnique(log, Run(pl, name, base, attempts).durable.checkpoint, c, c0);
    var before, after := RecordsOf(pl, log[..i]), RecordsOf(pl, log[i + 1..p]);
    SplitAtItem(pl, log, i, p);
    forall x | x in before ensures x.event.eventId != e.eventId {
      var j := EventsOfRecords(pl, log[..i], x);
      assert log[..i][j] == log[j];
    }
    RecordsOfAppend(pl, log[..p], log[p..]);
    assert log == log[..p] + log[p..];
    FewerIdsNameEvents(base, before + [r] + after, RecordsOf(pl, log));
    NewRecordIsLookedUp(base, before, r, after);
  }

  lemma MadeIsStamped(pl: Pipeline, e: AuditEvent)
    ensures
      var r := RecordFor(e, pl.now, pl.identify);
      Stamped(pl, r, e) && r.event == e && (r.Valid() <==> e.Valid() && e.kind != RecordCorrected)
  {
  }

  lemma SplitAtItem(pl: Pipeline, log: seq<RawEventItem>, i: nat, p: nat)
    requires i < p <= |log| && pl.normalize(log[i]).Some?
    ensures RecordsOf(pl, log[..p])
            == RecordsOf(pl, log[..i]) + [RecordFor(pl.normalize(log[i]).value, pl.now, pl.identify)]
               + RecordsOf(pl, log[i + 1..p])
  {
    hide RecordsOf;
    assert log[..p] == log[..i] + [log[i]] + log[i + 1..p];
    RecordsOfAppend(pl, log[..i] + [log[i]], log[i + 1..p]);
    RecordsOfAppend(pl, log[..i], [log[i]]);
    OneItem(pl, log[i]);
  }

  lemma OneItem(pl: Pipeline, item: RawEventItem)
    ensures RecordsOf(pl, [item]) == RecordOf(pl, item)
  {
    assert [item][..0] == [];
  }

  lemma FewerIdsNameEvents(s: Store, some: seq<AuditRecord>, all: seq<AuditRecord>)
    requires IdsNameEvents(s, all) && forall r :: r in some ==> r in all
    ensures IdsNameEvents(s, some)
  {
  }

  // ---- The checkpoint never passes work that did not land ----

  lemma {:induction false} MalformedListed(pl: Pipeline, items: seq<RawEventItem>, i: nat)
    requires i < |items| && pl.normalize(items[i]).None?
    ensures items[i].position in MalformedPositions(pl, items)
  {
    if i < |items| - 1 {
      MalformedListed(pl, items[..|items| - 1], i);
    }
  }

  lemma {:induction false} IntakeSees(pl: Pipeline, policy: MalformedItemPolicy, items: seq<RawEventItem>, i: nat)
    requires ReadItems(pl, policy, items).Ok? && i < |items| && pl.normalize(items[i]).Some?
    ensures ReadItems(pl, policy, items).value.Seen(pl.normalize(items[i]).value.eventId)
  {
    var before := ReadItems(pl, policy, items[..|items| - 1]).value;
    var after := ReadItems(pl, policy, items).value;
    var e := pl.normalize(items[i]).value.eventId;
    if i < |items| - 1 {
      IntakeSees(pl, policy, items[..|items| - 1], i);
      var j :| 0 <= j < |before.records| && before.records[j].event.eventId == e;
      assert after.records[j].event.eventId == e;
    } else if !before.Seen(e) {
      assert after.records[|before.records|].event.eventId == e;
    }
  }

  /** A page that was planned and written accounts for each of its items. */
  lemma WrittenPageAccounts(pl: Pipeline, settings: Settings, page: SourcePage, s: Store, i: nat)
    requires Plan(pl, settings, page).Ok? && i < |page.items|
    ensures
      match pl.normalize(page.items[i])
      case Some(event) => event.eventId in Written(s, Plan(pl, settings, page).value.records).byEvent
      case None => page.items[i].position in Plan(pl, settings, page).value.quarantined
  {
    var acc := Plan(pl, settings, page).value;
    IntakeCounts(pl, settings.malformed, page.items);
    if pl.normalize(page.items[i]).Some? {
      IntakeSees(pl, settings.malformed, page.items, i);
      BatchIsSequential(s, acc.records);
      InsertAllRecords(s, acc.records);
    } else {
      MalformedListed(pl, page.items, i);
    }
  }

  lemma ExecuteOnlyAdds(pl: Pipeline, name: string, w: World, a: Attempt)
    ensures w.durable.store.byEvent.Keys <= Execute(pl, name, w, a).durable.store.byEvent.Keys
    ensures w.reports <= Execute(pl, name, w, a).reports
  {
    ExecuteStore(pl, name, w, a);
    InsertAllRecords(w.durable.store, RecordsOf(pl, a.page.items));
    if a.fate.OthersWrite? {
      InsertAllRecords(w.durable.store, a.fate.records);
    }
  }

  predicate ItemAccounted(pl: Pipeline, w: World, item: RawEventItem) {
    match pl.normalize(item)
    case Some(event) => event.eventId in w.durable.store.byEvent
    case None => exists r :: r in w.reports && item.position in r.quarantined
  }

  lemma AccountedStays(pl: Pipeline, name: string, w: World, a: Attempt, item: RawEventItem)
    requires ItemAccounted(pl, w, item)
    ensures ItemAccounted(pl, Execute(pl, name, w, a), item)
  {
    ExecuteOnlyAdds(pl, name, w, a);
  }

  lemma SuccessAccounts(pl: Pipeline, name: string, w: World, a: Attempt, i: nat)
    requires a.fate == Completes && RunPage(pl, a.settings, name, a.page, w.durable).0.Ok? && i < |a.page.items|
    ensures ItemAccounted(pl, Execute(pl, name, w, a), a.page.items[i])
  {
    WrittenPageAccounts(pl, a.settings, a.page, w.durable.store, i);
    var after := Execute(pl, name, w, a);
    assert after.reports[|w.reports|] in after.reports;
  }

  lemma AccountedAfter(pl: Pipeline, name: string, log: seq<RawEventItem>, w: World, a: Attempt, c: nat, i: nat)
    requires DistinctPositions(log) && At(log, w.durable.checkpoint, c)
    requires Fetches(a) ==> Serves(log, w.durable.checkpoint, a.settings.pageLimit, a.page)
    requires i < NextIndex(pl, name, w, a, c) <= |log| && (i < c ==> ItemAccounted(pl, w, log[i]))
    ensures ItemAccounted(pl, Execute(pl, name, w, a), log[i])
  {
    hide ItemAccounted, Execute, RunPage, Serves;
    if i < c {
      AccountedStays(pl, name, w, a, log[i]);
    } else {
      ServedFromCheckpoint(log, w.durable.checkpoint, a.settings.pageLimit, a.page, c);
      assert a.page.items[i - c] == log[i];
      SuccessAccounts(pl, name, w, a, i - c);
    }
  }

  /**
   Checkpoint safety under every policy: in every reachable state each item at or before the
   checkpoint is either recorded, or failed normalization and was named in a returned report.
   */
  lemma {:induction false} CheckpointIsSafe(
    pl: Pipeline, name: string, base: Store, log: seq<RawEventItem>, attempts: seq<Attempt>, c: nat, i: nat)
    requires DistinctPositions(log) && LegalRun(pl, name, base, log, attempts)
    requires At(log, Run(pl, name, base, attempts).durable.checkpoint, c) && i < c
    ensures ItemAccounted(pl, Run(pl, name, base, attempts), log[i])
  {
    hide Execute, ItemAccounted, Covers, NextIndex, Serves;
    if attempts != [] {
      hide At, DistinctPositions;
      var init, last := attempts[..|attempts| - 1], attempts[|attempts| - 1];
      var w := Run(pl, name, base, init);
      var c0, p0, trace := RunCovers(pl, name, base, log, init);
      CoversAt(pl, base, log, w.durable, c0, p0, trace);
      var p1, trace1 := ExecuteKeepsCover(pl, name, base, log, w, last, c0, p0, trace);
      CoversAt(pl, base, log, Execute(pl, name, w, last).durable, NextIndex(pl, name, w, last, c0), p1, trace1);
      AtIsUnique(log, Run(pl, name, base, attempts).durable.checkpoint, c, NextIndex(pl, name, w, last, c0));
      if i < c0 {
        CheckpointIsSafe(pl, name, base, log, init, c0, i);
      }
      AccountedAfter(pl, name, log, w, last, c0, i);
    }
  }

  /** The checkpoint never moves backwards along a run. */
  lemma CheckpointNeverRetreats(
    pl: Pipeline, name: string, base: Store, log: seq<RawEventItem>, attempts: seq<Attempt>, c: nat, c': nat)
    requires attempts != [] && DistinctPositions(log) && LegalRun(pl, name, base, log, attempts)
    requires At(log, Run(pl, name, base, attempts[..|attempts| - 1]).durable.checkpoint, c)
    requires At(log, Run(pl, name, base, attempts).durable.checkpoint, c')
    ensures c <= c'
  {
    var init, last := attempts[..|attempts| - 1], attempts[|attempts| - 1];
    var w := Run(pl, name, base, init);
    var c0, p0, trace := RunCovers(pl, name, base, log, init);
    var p1, trace1 := ExecuteKeepsCover(pl, name, base, log, w, last, c0, p0, trace);
    AtIsUnique(log, w.durable.checkpoint, c, c0);
    AtIsUnique(log, Run(pl, name, base, attempts).durable.checkpoint, c', NextIndex(pl, name, w, last, c0));
  }

  // ---- What a successful call reports ----

  lemma RunPageOk(pl: Pipeline, settings: Settings, name: string, page: SourcePage, d: Durable)
    requires Plan(pl, settings, page).Ok?
    ensures
      var acc := Plan(pl, settings, page).value;
      var (result, after) := RunPage(pl, settings, name, page, d);
      && after.store == Written(d.store, acc.records)
      && (result.Ok? ==> result.value == ReportOf(page, acc, |Fresh(d.store, acc.records)|))
      && (result.Ok? <==> CheckpointOk(name, page.items) &&
                          (settings.dedup == SkipDuplicates || |Fresh(d.store, acc.records)| == |acc.records|))
  {
  }

  /** Every item is counted once, and the event index grows by exactly the reported insertions. */
  lemma ReportConserves(pl: Pipeline, settings: Settings, name: string, page: SourcePage, d: Durable)
    requires RunPage(pl, settings, name, page, d).0.Ok?
    ensures
      var (result, after) := RunPage(pl, settings, name, page, d);
      && result.value.fetched == result.value.inserted + result.value.duplicates + |result.value.quarantined|
      && |after.store.byEvent| == |d.store.byEvent| + result.value.inserted
      && PairwiseIncreasing(PlacementsOf(pl, page.items))
  {
    hide InsertAll, PutAll, Fresh, ReadItems, CompareOrder;
    var acc := Plan(pl, settings, page).value;
    RunPageOk(pl, settings, name, page, d);
    IntakeCounts(pl, settings.malformed, page.items);
    BatchIsSequential(d.store, acc.records);
    AdjacentDecidesPairs(acc.placements);
  }

  /**
   A successful call keeps the maps in agreement exactly when none of its records takes an id in use;
   history itself then grows by exactly the reported insertions.
   */
  lemma ReportMeasuresHistory(pl: Pipeline, settings: Settings, name: string, page: SourcePage, d: Durable)
    requires RunPage(pl, settings, name, page, d).0.Ok? && Coherent(d.store)
    ensures
      var (result, after) := RunPage(pl, settings, name, page, d);
      && (Coherent(after.store) <==> AllAvailable(d.store, Plan(pl, settings, page).value.records))
      && (Coherent(after.store) ==>
            Grows(d.store, after.store) && |after.store.records| == |d.store.records| + result.value.inserted)
  {
    hide InsertAll, PutAll, Fresh, ReadItems, Coherent, AllAvailable, Grows;
    var acc := Plan(pl, settings, page).value;
    RunPageOk(pl, settings, name, page, d);
    BatchIsSequential(d.store, acc.records);
    InsertAllKeepsHistory(d.store, acc.records);
  }

  /**
   What a refused call answers and leaves: an item that stops the page, a page out of order and a batch
   that cannot be recorded leave everything as it was; known events under `FailOnDuplicate`, counted, and
   a label the checkpoint refuses leave the page written and the checkpoint unmoved. The first that
   applies is the answer.
   */
  lemma PageRefusedWith(pl: Pipeline, settings: Settings, name: string, page: SourcePage, d: Durable)
    requires RunPage(pl, settings, name, page, d).0.Err?
    ensures
      var (result, after) := RunPage(pl, settings, name, page, d);
      var intake := ReadItems(pl, settings.malformed, page.items);
      && after.checkpoint == d.checkpoint
      && if intake.Err? then result == Err(intake.error) && after == d
         else if !PairwiseIncreasing(PlacementsOf(pl, page.items)) then result == Err(OutOfOrder) && after == d
         else if !BatchOk(intake.value.records) then result == Err(NotRecordable) && after == d
         else
           var known := |intake.value.records| - |Fresh(d.store, intake.value.records)|;
           && after.store == InsertAll(d.store, RecordsOf(pl, page.items))
           && result == if settings.dedup == FailOnDuplicate && known > 0 then Err(DuplicateEvents(known))
                        else Err(BadCheckpoint)
  {
    hide ReadItems, InsertAll, RecordsOf, Written, Fresh, PlacementsOf, BatchOk, CheckpointOk, CompareOrder;
    var intake := ReadItems(pl, settings.malformed, page.items);
    if intake.Ok? {
      IntakeCounts(pl, settings.malformed, page.items);
      AdjacentDecidesPairs(intake.value.placements);
      if Plan(pl, settings, page).Ok? {
        PlanInserts(pl, settings, page, d.store);
      }
    }
  }

  // ---- When a call succeeds ----

  /** Not empty, not too long, and of visible characters other than the double quote. */
  predicate Printable(s: string, max: nat) {
    1 <= |s| <= max && forall c :: c in s ==> 33 <= c as int <= 126 && c != '"'
  }

  lemma PrintableIsLabel(s: string, max: nat)
    ensures Printable(s, max) <==> ValidLabel(s, max)
  {
    assert forall i :: 0 <= i < |s| ==> s[i] in s;
  }

  lemma AcceptedByCheckpoint(pl: Pipeline, settings: Settings, name: string, page: SourcePage, d: Durable)
    requires Plan(pl, settings, page).Ok?
    ensures RunPage(pl, settings, name, page, d).0.Ok? <==>
            && CheckpointOk(name, page.items)
            && (settings.dedup == FailOnDuplicate ==>
                  forall r :: r in Plan(pl, settings, page).value.records ==> r.event.eventId !in d.store.byEvent)
  {
    hide ReadItems, CheckpointOk, Written, IsStrictlyIncreasing;
    var records := Plan(pl, settings, page).value.records;
    RunPageOk(pl, settings, name, page, d);
    FreshCount(d.store, records);
    assert (forall r :: r in records ==> r.event.eventId !in d.store.byEvent)
      <==> (forall i :: 0 <= i < |records| ==> records[i].event.eventId !in d.store.byEvent);
  }

  /** A planned page is accepted exactly when its checkpoint is well formed and the policy tolerates its repeats. */
  lemma PageAcceptedIff(pl: Pipeline, settings: Settings, name: string, page: SourcePage, d: Durable)
    requires Plan(pl, settings, page).Ok?
    ensures RunPage(pl, settings, name, page, d).0.Ok? <==>
            && (page.items != [] ==> Printable(page.items[|page.items| - 1].position, 512) && Printable(name, 64))
            && (settings.dedup == FailOnDuplicate ==>
                  forall r :: r in Plan(pl, settings, page).value.records ==> r.event.eventId !in d.store.byEvent)
  {
    hide RunPage, Plan, Printable, ValidLabel;
    AcceptedByCheckpoint(pl, settings, name, page, d);
    PrintableIsLabel(name, 64);
    if page.items != [] {
      PrintableIsLabel(page.items[|page.items| - 1].position, 512);
    }
  }

  /**
   Under `FailOnDuplicate`, retrying the very page whose write a crash left without its checkpoint
   answers with the duplicate error and changes nothing.
   */
  lemma IdenticalRetryRefused(pl: Pipeline, name: string, w: World, a: Attempt, retry: Attempt)
    requires a.fate == CrashesAfterWrite && Plan(pl, a.settings, a.page).Ok?
    requires Plan(pl, a.settings, a.page).value.records != []
    requires retry == Attempt(a.settings.(dedup := FailOnDuplicate), a.page, Completes)
    ensures
      var crashed := Execute(pl, name, w, a);
      && Execute(pl, name, crashed, retry) == crashed
      && RunPage(pl, retry.settings, name, retry.page, crashed.durable).0
         == Err(DuplicateEvents(|Plan(pl, a.settings, a.page).value.records|))
  {
    PolicyDoesNotPlan(pl, a.settings, FailOnDuplicate, a.page);
    hide Plan, Fresh, Written, CheckpointOk;
    AfterWriteNothingIsFresh(w.durable.store, Plan(pl, a.settings, a.page).value.records);
  }

  /** Deduplication plays no part in what is planned. */
  lemma PolicyDoesNotPlan(pl: Pipeline, settings: Settings, dedup: DedupPolicy, page: SourcePage)
    ensures Plan(pl, settings.(dedup := dedup), page) == Plan(pl, settings, page)
    ensures
      var plan := Plan(pl, settings, page);
      plan.Ok? ==> AllValid(plan.value.records) && DistinctEvents(plan.value.records)
  {
    hide ReadItems, IsStrictlyIncreasing;
  }

  /** A page that holds an item whose event is stored cannot succeed under `FailOnDuplicate`. */
  lemma StoredItemRefused(pl: Pipeline, settings: Settings, name: string, page: SourcePage, d: Durable, i: nat)
    requires settings.dedup == FailOnDuplicate && i < |page.items| && pl.normalize(page.items[i]).Some?
    requires pl.normalize(page.items[i]).value.eventId in d.store.byEvent
    ensures RunPage(pl, settings, name, page, d).0.Err?
  {
    hide ReadItems, CheckpointOk;
    if Plan(pl, settings, page).Ok? {
      IntakeSees(pl, settings.malformed, page.items, i);
      AcceptedByCheckpoint(pl, settings, name, page, d);
      var records := Plan(pl, settings, page).value.records;
      var j :| 0 <= j < |records| && records[j].event.eventId == pl.normalize(page.items[i]).value.eventId;
      assert records[j] in records;
    }
  }

  lemma StallStep(pl: Pipeline, name: string, log: seq<RawEventItem>, w: World, a: Attempt, c: nat, i: nat)
    requires DistinctPositions(log) && At(log, w.durable.checkpoint, c) && c <= i < |log|
    requires pl.normalize(log[i]).Some? && pl.normalize(log[i]).value.eventId in w.durable.store.byEvent
    requires a.settings.dedup == FailOnDuplicate
    requires Fetches(a) ==> Serves(log, w.durable.checkpoint, a.settings.pageLimit, a.page)
    ensures
      var moved := a.fate == Completes && RunPage(pl, a.settings, name, a.page, w.durable).0.Ok?;
      var next := if moved then c + |a.page.items| else c;
      next <= i && At(log, Execute(pl, name, w, a).durable.checkpoint, next)
  {
    hide Execute, RunPage;
    ExecuteCheckpoint(pl, name, w, a);
    if a.fate == Completes {
      ServedFromCheckpoint(log, w.durable.checkpoint, a.settings.pageLimit, a.page, c);
      CheckpointAdvances(log, w.durable.checkpoint, a.page, c);
      if i < c + |a.page.items| {
        assert a.page.items[i - c] == log[i];
        StoredItemRefused(pl, a.settings, name, a.page, w.durable, i - c);
      }
    }
  }

  /**
   Under `FailOnDuplicate` a stored item at or past the checkpoint, such as a crash between write and
   checkpoint leaves behind, stops the source: whatever page limits, refusals, failures and crashes
   follow, no later checkpoint passes it.
   */
  lemma {:induction false} FailOnDuplicateStalls(
    pl: Pipeline, name: string, base: Store, log: seq<RawEventItem>, attempts: seq<Attempt>, m: nat, c: nat, i: nat)
    returns (last: nat)
    requires DistinctPositions(log) && LegalRun(pl, name, base, log, attempts) && m <= |attempts|
    requires
      var stuck := Run(pl, name, base, attempts[..m]).durable;
      && At(log, stuck.checkpoint, c) && c <= i < |log|
      && pl.normalize(log[i]).Some? && pl.normalize(log[i]).value.eventId in stuck.store.byEvent
    requires forall n :: m <= n < |attempts| ==> attempts[n].settings.dedup == FailOnDuplicate
    ensures last <= i && At(log, Run(pl, name, base, attempts).durable.checkpoint, last)
    ensures pl.normalize(log[i]).value.eventId in Run(pl, name, base, attempts).durable.store.byEvent
  {
    hide Execute, RunPage, At, Serves, DistinctPositions;
    if m == |attempts| {
      last := c;
      assert attempts[..m] == attempts;
    } else {
      var n := |attempts| - 1;
      assert attempts[..n][..m] == attempts[..m];
      var before := FailOnDuplicateStalls(pl, name, base, log, attempts[..n], m, c, i);
      var w := Run(pl, name, base, attempts[..n]);
      ExecuteOnlyAdds(pl, name, w, attempts[n]);
      StallStep(pl, name, log, w, attempts[n], before, i);
      var a := attempts[n];
      var moved := a.fate == Completes && RunPage(pl, a.settings, name, a.page, w.durable).0.Ok?;
      last := if moved then before + |a.page.items| else before;
    }
  }

  /** What a crash past the write leaves behind: the page's events stored, the checkpoint where it was. */
  lemma CrashLeavesStored(pl: Pipeline, name: string, w: World, a: Attempt, i: nat)
    requires a.fate == CrashesAfterWrite && Plan(pl, a.settings, a.page).Ok?
    requires i < |a.page.items| && pl.normalize(a.page.items[i]).Some?
    ensures
      var after := Execute(pl, name, w, a).durable;
      && after.checkpoint == w.durable.checkpoint
      && pl.normalize(a.page.items[i]).value.eventId in after.store.byEvent
  {
    hide Plan;
    WrittenPageAccounts(pl, a.settings, a.page, w.durable.store, i);
  }

  lemma AfterWriteNothingIsFresh(s: Store, records: seq<AuditRecord>)
    requires AllValid(records) && DistinctEvents(records)
    ensures |Fresh(Written(s, records), records)| == 0
    ensures Written(Written(s, records), records) == Written(s, records)
  {
    BatchIsSequential(s, records);
    InsertAllRecords(s, records);
    FreshCount(Written(s, records), records);
  }

  // ---- Progress on a well-formed log ----

  predicate GoodItem(pl: Pipeline, item: RawEventItem) {
    && ValidLabel(item.position, 512)
    && pl.normalize(item).Some?
    && pl.normalize(item).value.Valid()
    && pl.normalize(item).value.kind != RecordCorrected
  }

  function EventOf(pl: Pipeline, item: RawEventItem): AuditEvent
    requires pl.normalize(item).Some?
  {
    pl.normalize(item).value
  }

  /** Every item normalizes to a recordable event, ids stand for events, known placements increase. */
  ghost predicate WellFormed(pl: Pipeline, name: string, log: seq<RawEventItem>) {
    && ValidLabel(name, 64)
    && (forall i :: 0 <= i < |log| ==> GoodItem(pl, log[i]))
    && (forall i, j :: 0 <= i < j < |log| && EventOf(pl, log[i]).order.ledgerSequence.Some?
                       && EventOf(pl, log[j]).order.ledgerSequence.Some? ==>
          CompareOrder(EventOf(pl, log[i]).order, EventOf(pl, log[j]).order) == Less)
    && (forall i, j :: 0 <= i < |log| && 0 <= j < |log|
                       && pl.identify(EventOf(pl, log[i])) == pl.identify(EventOf(pl, log[j])) ==>
          EventOf(pl, log[i]).eventId == EventOf(pl, log[j]).eventId)
  }

  lemma WellFormedSlice(pl: Pipeline, name: string, log: seq<RawEventItem>, a: nat, b: nat)
    requires WellFormed(pl, name, log) && a <= b <= |log|
    ensures WellFormed(pl, name, log[a..b])
  {
    var part := log[a..b];
    assert forall i :: 0 <= i < |part| ==> part[i] == log[a + i];
  }

  predicate Normalizes(pl: Pipeline, item: RawEventItem) {
    pl.normalize(item).Some?
  }

  ghost predicate PlacedBy(pl: Pipeline, items: seq<RawEventItem>, order: EventOrder) {
    && order.ledgerSequence.Some?
    && exists i :: 0 <= i < |items| && Normalizes(pl, items[i]) && order == EventOf(pl, items[i]).order
  }

  ghost predicate MadeBy(pl: Pipeline, items: seq<RawEventItem>, r: AuditRecord) {
    exists i :: 0 <= i < |items| && Normalizes(pl, items[i])
                && r == RecordFor(EventOf(pl, items[i]), pl.now, pl.identify)
  }

  /** What the item loop holds after a stretch of a well-formed log. */
  ghost predicate Tracks(pl: Pipeline, items: seq<RawEventItem>, acc: Intake) {
    && PairwiseIncreasing(acc.placements)
    && (forall k :: 0 <= k < |acc.placements| ==> PlacedBy(pl, items, acc.placements[k]))
    && (forall k :: 0 <= k < |acc.records| ==> MadeBy(pl, items, acc.records[k]))
  }

  lemma TracksMore(pl: Pipeline, init: seq<RawEventItem>, last: RawEventItem, order: EventOrder, r: AuditRecord)
    ensures PlacedBy(pl, init, order) ==> PlacedBy(pl, init + [last], order)
    ensures MadeBy(pl, init, r) ==> MadeBy(pl, init + [last], r)
  {
    var items := init + [last];
    assert forall i :: 0 <= i < |init| ==> init[i] == items[i];
  }

  lemma NextPlacementIsLater(pl: Pipeline, name: string, items: seq<RawEventItem>, order: EventOrder)
    requires items != [] && WellFormed(pl, name, items) && PlacedBy(pl, items[..|items| - 1], order)
    requires EventOf(pl, items[|items| - 1]).order.ledgerSequence.Some?
    ensures CompareOrder(order, EventOf(pl, items[|items| - 1]).order) == Less
  {
    var init := items[..|items| - 1];
    var i :| 0 <= i < |init| && Normalizes(pl, init[i]) && order == EventOf(pl, init[i]).order;
    assert init[i] == items[i];
  }

  lemma AbsorbShape(pl: Pipeline, policy: MalformedItemPolicy, acc: Intake, item: RawEventItem)
    requires GoodItem(pl, item)
    ensures
      var event := EventOf(pl, item);
      && Absorb(pl, policy, acc, item).Ok?
      && var after := Absorb(pl, policy, acc, item).value;
      && after.placements == acc.placements + (if event.order.ledgerSequence.Some? then [event.order] else [])
      && (after.records == acc.records || after.records == acc.records + [RecordFor(event, pl.now, pl.identify)])
  {
  }

  lemma TracksNext(pl: Pipeline, name: string, items: seq<RawEventItem>, before: Intake, after: Intake)
    requires items != [] && WellFormed(pl, name, items) && Tracks(pl, items[..|items| - 1], before)
    requires
      var event := EventOf(pl, items[|items| - 1]);
      && after.placements == before.placements + (if event.order.ledgerSequence.Some? then [event.order] else [])
      && (after.records == before.records || after.records == before.records + [RecordFor(event, pl.now, pl.identify)])
    ensures Tracks(pl, items, after)
  {
    var n := |items| - 1;
    var init, last, event := items[..n], items[n], EventOf(pl, items[n]);
    var r := RecordFor(event, pl.now, pl.identify);
    assert items == init + [last] && Normalizes(pl, items[n]);
    forall k | 0 <= k < |before.placements|
      ensures PlacedBy(pl, items, before.placements[k])
      ensures event.order.ledgerSequence.Some? ==> CompareOrder(before.placements[k], event.order) == Less
    {
      TracksMore(pl, init, last, before.placements[k], r);
      if event.order.ledgerSequence.Some? {
        NextPlacementIsLater(pl, name, items, before.placements[k]);
      }
    }
    forall k | 0 <= k < |before.records| ensures MadeBy(pl, items, before.records[k]) {
      TracksMore(pl, init, last, event.order, before.records[k]);
    }
    assert MadeBy(pl, items, r);
    assert event.order.ledgerSequence.Some? ==> PlacedBy(pl, items, event.order);
  }

  lemma {:induction false} ReadWellFormed(
    pl: Pipeline, policy: MalformedItemPolicy, name: string, items: seq<RawEventItem>)
    requires WellFormed(pl, name, items)
    ensures ReadItems(pl, policy, items).Ok? && Tracks(pl, items, ReadItems(pl, policy, items).value)
  {
    if items != [] {
      var n := |items| - 1;
      WellFormedSlice(pl, name, items, 0, n);
      ReadWellFormed(pl, policy, name, items[..n]);
      var before := ReadItems(pl, policy, items[..n]).value;
      AbsorbShape(pl, policy, before, items[n]);
      TracksNext(pl, name, items, before, ReadItems(pl, policy, items).value);
    }
  }

  lemma RecordsKeepDistinctIds(pl: Pipeline, name: string, items: seq<RawEventItem>, records: seq<AuditRecord>)
    requires WellFormed(pl, name, items) && DistinctEvents(records)
    requires forall k :: 0 <= k < |records| ==> MadeBy(pl, items, records[k])
    ensures BatchOk(records)
  {
    hide RecordFor, MadeBy;
    forall k | 0 <= k < |records| ensures records[k].Valid() {
      var i := Maker(pl, items, records[k]);
      assert GoodItem(pl, items[i]);
    }
    forall k, m | 0 <= k < m < |records| ensures records[k].recordId != records[m].recordId {
      var i := Maker(pl, items, records[k]);
      var j := Maker(pl, items, records[m]);
      assert records[k].event.eventId != records[m].event.eventId;
    }
  }

  /** The item a record was made from. */
  lemma Maker(pl: Pipeline, items: seq<RawEventItem>, r: AuditRecord) returns (i: nat)
    requires MadeBy(pl, items, r)
    ensures i < |items| && Normalizes(pl, items[i])
    ensures r == RecordFor(EventOf(pl, items[i]), pl.now, pl.identify)
    ensures r.event == EventOf(pl, items[i]) && r.recordId == pl.identify(EventOf(pl, items[i]))
    ensures GoodItem(pl, items[i]) ==> r.Valid()
  {
    i :| 0 <= i < |items| && Normalizes(pl, items[i])
         && r == RecordFor(EventOf(pl, items[i]), pl.now, pl.identify);
  }

  lemma PlanWellFormed(pl: Pipeline, settings: Settings, name: string, page: SourcePage)
    requires WellFormed(pl, name, page.items)
    ensures Plan(pl, settings, page).Ok? && CheckpointOk(name, page.items)
  {
    ReadWellFormed(pl, settings.malformed, name, page.items);
    var acc := ReadItems(pl, settings.malformed, page.items).value;
    AdjacentDecidesPairs(acc.placements);
    IntakeDistinct(pl, settings.malformed, page.items);
    RecordsKeepDistinctIds(pl, name, page.items, acc.records);
    if page.items != [] {
      assert GoodItem(pl, page.items[|page.items| - 1]);
    }
  }

  /** How many items the calls that ran to the end were served. */
  function Consumed(attempts: seq<Attempt>): nat {
    if attempts == [] then 0
    else
      var last := attempts[|attempts| - 1];
      Consumed(attempts[..|attempts| - 1]) + if last.fate == Completes then |last.page.items| else 0
  }

  lemma CompletedCallProgresses(pl: Pipeline, name: string, log: seq<RawEventItem>, w: World, a: Attempt, c: nat)
    requires WellFormed(pl, name, log) && ServesFrom(log, w.durable.checkpoint, a.page, c)
    requires a.fate == Completes && a.settings.dedup == SkipDuplicates
    ensures At(log, Execute(pl, name, w, a).durable.checkpoint, c + |a.page.items|)
  {
    hide Execute, Plan, RunPage, WellFormed, CheckpointOk, At, NextCheckpoint;
    WellFormedSlice(pl, name, log, c, c + |a.page.items|);
    PlanWellFormed(pl, a.settings, name, a.page);
    AcceptedByCheckpoint(pl, a.settings, name, a.page, w.durable);
    ExecuteCheckpoint(pl, name, w, a);
    CheckpointAdvances(log, w.durable.checkpoint, a.page, c);
  }

  /**
   On a well-formed log with duplicates skipped, every call that runs to the end succeeds and
   moves the checkpoint past its page, so the checkpoint counts exactly the items served:
   crashes cost retries, never progress, and a run drains the log once it has been served it.
   */
  lemma {:induction false} CompletedCallsProgress(
    pl: Pipeline, name: string, base: Store, log: seq<RawEventItem>, attempts: seq<Attempt>)
    requires DistinctPositions(log) && LegalRun(pl, name, base, log, attempts) && WellFormed(pl, name, log)
    requires forall i :: 0 <= i < |attempts| ==> attempts[i].settings.dedup == SkipDuplicates
    ensures At(log, Run(pl, name, base, attempts).durable.checkpoint, Consumed(attempts))
  {
    hide Execute, Plan, RunPage, WellFormed;
    if attempts != [] {
      var init, last := attempts[..|attempts| - 1], attempts[|attempts| - 1];
      CompletedCallsProgress(pl, name, base, log, init);
      var w := Run(pl, name, base, init);
      if last.fate == Completes {
        ServedFromCheckpoint(log, w.durable.checkpoint, last.settings.pageLimit, last.page, Consumed(init));
        CompletedCallProgresses(pl, name, log, w, last, Consumed(init));
      } else {
        ExecuteCheckpoint(pl, name, w, last);
      }
    }
  }
}
