/** Bounded replay: reconstruct a source window into a caller's store under a private checkpoint. */
module Replay {
  import opened Wrappers
  import opened EventStore
  import opened Indexer
  import opened Ingestion

  datatype ReplayOptions = ReplayOptions(maxPages: Option<nat>, maxRecords: Option<nat>, pageLimit: nat)

  datatype ReplayReport = ReplayReport(
    pages: nat, inserted: nat, duplicates: nat, truncated: bool, lastPosition: Option<string>)

  datatype ReplayError = BadArguments | Failed(error: IndexerError)

  /**
   A finite source that answers from its log: bounded pages, no final page before the end, and never an
   empty page that promises more. It may fail, and it may promise more after its last item.
   */
  ghost predicate Faithful(log: seq<RawEventItem>, fetch: (Option<string>, nat) -> Option<SourcePage>) {
    forall checkpoint, limit: nat, c: nat ::
      At(log, checkpoint, c) && limit > 0 && fetch(checkpoint, limit).Some? ==>
        var page := fetch(checkpoint, limit).value;
        && ServesFrom(log, checkpoint, page, c)
        && |page.items| <= limit
        && (!page.HasMore() ==> c + |page.items| == |log|)
        && (page.HasMore() ==> page.items != [])
  }

  /** The source answers at every position of its log, at the page size in use. */
  ghost predicate AlwaysAnswers(
    log: seq<RawEventItem>, fetch: (Option<string>, nat) -> Option<SourcePage>, limit: nat)
  {
    forall checkpoint, c: nat :: At(log, checkpoint, c) ==> fetch(checkpoint, limit).Some?
  }

  /** The target holds what it held before plus the items of the window, first occurrence winning. */
  ghost predicate Rebuilt(pl: Pipeline, log: seq<RawEventItem>, before: Store, after: Store, c: nat, p: nat) {
    c <= p <= |log| && after == InsertAll(before, RecordsOf(pl, log[c..p]))
  }

  lemma RebuiltNext(
    pl: Pipeline, log: seq<RawEventItem>, before: Store, after: Store, c: nat, p: nat, items: seq<RawEventItem>)
    requires Rebuilt(pl, log, before, after, c, p)
    requires p + |items| <= |log| && items == log[p..p + |items|]
    ensures Rebuilt(pl, log, before, InsertAll(after, RecordsOf(pl, items)), c, p + |items|)
  {
    hide InsertAll, RecordsOf;
    var e := p + |items|;
    assert log[c..e] == log[c..p] + log[p..e];
    RecordsOfAppend(pl, log[c..p], log[p..e]);
    InsertAllAppend(before, RecordsOf(pl, log[c..p]), RecordsOf(pl, log[p..e]));
  }

  /** What one call contributes to a replay. */
  lemma CallContributes(pl: Pipeline, settings: Settings, name: string, page: SourcePage, d: Durable)
    requires settings.malformed == AbortOnMalformed
    ensures
      var (result, after) := RunPage(pl, settings, name, page, d);
      && (after.store == d.store || after.store == InsertAll(d.store, RecordsOf(pl, page.items)))
      && (result.Ok? ==>
            && after.store == InsertAll(d.store, RecordsOf(pl, page.items))
            && after.checkpoint == NextCheckpoint(d.checkpoint, page.items)
            && result.value.hasMore == page.HasMore()
            && |after.store.byEvent| == |d.store.byEvent| + result.value.inserted
            && result.value.inserted + result.value.duplicates == |page.items|)
  {
    if RunPage(pl, settings, name, page, d).0.Ok? {
      ReportConserves(pl, settings, name, page, d);
    }
    hide Plan, InsertAll, RecordsOf, Written, Fresh, CheckpointOk, NextCheckpoint;
    if Plan(pl, settings, page).Ok? {
      PlanInserts(pl, settings, page, d.store);
      NothingQuarantined(pl, settings, page);
    }
  }

  lemma NothingQuarantined(pl: Pipeline, settings: Settings, page: SourcePage)
    requires settings.malformed == AbortOnMalformed && Plan(pl, settings, page).Ok?
    ensures Plan(pl, settings, page).value.quarantined == []
  {
    hide ReadItems, MalformedPositions, PlacementsOf;
    IntakeCounts(pl, settings.malformed, page.items);
  }

  /** On a well-formed log every page that is served goes through. */
  lemma CallSucceeds(
    pl: Pipeline, settings: Settings, name: string, log: seq<RawEventItem>, page: SourcePage, d: Durable, p: nat)
    requires WellFormed(pl, name, log) && settings.dedup == SkipDuplicates && ServesFrom(log, d.checkpoint, page, p)
    ensures RunPage(pl, settings, name, page, d).0.Ok?
  {
    hide RunPage, Plan, WellFormed, CheckpointOk;
    WellFormedSlice(pl, name, log, p, p + |page.items|);
    PlanWellFormed(pl, settings, name, page);
    AcceptedByCheckpoint(pl, settings, name, page, d);
  }

  predicate PagesExhausted(options: ReplayOptions, report: ReplayReport) {
    options.maxPages.Some? && report.pages >= options.maxPages.value
  }

  predicate RecordsExhausted(options: ReplayOptions, report: ReplayReport) {
    options.maxRecords.Some? && report.inserted >= options.maxRecords.value
  }

  /** The budgets: pages exactly, records up to less than one page of overshoot. */
  predicate WithinBudget(options: ReplayOptions, report: ReplayReport) {
    && (options.maxPages.Some? ==> report.pages <= options.maxPages.value)
    && (options.maxRecords.Some? ==> report.inserted <= Max(options.maxRecords.value, 1) - 1 + options.pageLimit)
  }

  /** What a report says about the replay so far: within budget, every item counted, the event index grown as told. */
  predicate Accounts(options: ReplayOptions, report: ReplayReport, before: Store, after: Store, c: nat, p: nat) {
    && WithinBudget(options, report)
    && |after.byEvent| == |before.byEvent| + report.inserted
    && report.inserted + report.duplicates == p - c <= report.pages * options.pageLimit
  }

  predicate BelowRecordBudget(options: ReplayOptions, report: ReplayReport) {
    options.maxRecords.Some? ==> report.inserted <= Max(options.maxRecords.value, 1) - 1
  }

  function AfterCall(report: ReplayReport, call: IngestReport, position: Option<string>): ReplayReport {
    ReplayReport(report.pages + 1, report.inserted + call.inserted, report.duplicates + call.duplicates, false,
      position)
  }

  lemma AccountsNext(
    options: ReplayOptions, report: ReplayReport, call: IngestReport, position: Option<string>,
    before: Store, mid: Store, after: Store, c: nat, p: nat, next: nat)
    requires Accounts(options, report, before, mid, c, p)
    requires BelowRecordBudget(options, report) && !PagesExhausted(options, report)
    requires call.inserted + call.duplicates == next - p <= options.pageLimit
    requires |after.byEvent| == |mid.byEvent| + call.inserted
    ensures Accounts(options, AfterCall(report, call, position), before, after, c, next)
    ensures !RecordsExhausted(options, AfterCall(report, call, position)) ==>
            BelowRecordBudget(options, AfterCall(report, call, position))
  {
    assert (report.pages + 1) * options.pageLimit == report.pages * options.pageLimit + options.pageLimit;
  }

  /** One call of a replay: it extends the rebuilt window by the page, or fails at a page boundary. */
  method ReplayPage(
    pl: Pipeline, settings: Settings, name: string, fetch: (Option<string>, nat) -> Option<SourcePage>,
    checkpoints: CheckpointStore, target: MemoryEventStore,
    ghost log: seq<RawEventItem>, ghost start: Store, ghost c: nat, ghost p: nat)
    returns (call: Result<IngestReport, IndexerError>, ghost next: nat)
    requires Faithful(log, fetch) && settings.pageLimit > 0
    requires settings.dedup == SkipDuplicates && settings.malformed == AbortOnMalformed
    requires At(log, checkpoints.Load(name), p) && Rebuilt(pl, log, start, target.Contents(), c, p)
    modifies checkpoints, target
    ensures p <= next <= |log| && Rebuilt(pl, log, start, target.Contents(), c, next)
    ensures call.Ok? ==>
      && At(log, checkpoints.Load(name), next)
      && (!call.value.hasMore ==> next == |log|)
      && (call.value.hasMore ==> p < next)
      && call.value.inserted + call.value.duplicates == next - p <= settings.pageLimit
      && |target.Contents().byEvent| == |old(target.Contents()).byEvent| + call.value.inserted
    ensures WellFormed(pl, name, log) && AlwaysAnswers(log, fetch, settings.pageLimit) ==> call.Ok?
  {
    hide InsertAll, RecordsOf, RunPage, Rebuilt, WellFormed;
    ghost var before := Durable(target.Contents(), checkpoints.Load(name));
    ghost var fetched := fetch(checkpoints.Load(name), settings.pageLimit);
    call := RunOnce(pl, settings, name, fetch, checkpoints, target);
    next := p;
    if fetched.Some? {
      CallContributes(pl, settings, name, fetched.value, before);
      RebuiltNext(pl, log, start, before.store, c, p, fetched.value.items);
      CheckpointAdvances(log, before.checkpoint, fetched.value, p);
      if WellFormed(pl, name, log) {
        CallSucceeds(pl, settings, name, log, fetched.value, before, p);
      }
      if call.Ok? || target.Contents() != before.store {
        next := p + |fetched.value.items|;
      }
    }
  }

  predicate BadReplay(name: string, startFrom: Option<string>, options: ReplayOptions) {
    (startFrom.Some? && !ValidLabel(name, 64)) || options.pageLimit == 0
  }

  /**
   Terminates on every faithful source. On success the window `log[c..p]` was rebuilt, the report ends
   at `p` and counts each of its items once, the target's event index grew by the reported insertions,
   the replay is untruncated only if the source was drained, and truncated only if a budget ran out. A
   failure still leaves the target at a page boundary, and a well-formed log from a source that answers
   never fails.
   */
  method ReplayInto(
    pl: Pipeline, name: string, fetch: (Option<string>, nat) -> Option<SourcePage>,
    target: MemoryEventStore, startFrom: Option<string>, options: ReplayOptions,
    ghost log: seq<RawEventItem>, ghost c: nat)
    returns (result: Result<ReplayReport, ReplayError>, ghost p: nat)
    requires Faithful(log, fetch) && At(log, startFrom, c)
    modifies target
    ensures Rebuilt(pl, log, old(target.Contents()), target.Contents(), c, p)
    ensures result == Err(BadArguments) <==> BadReplay(name, startFrom, options)
    ensures
      WellFormed(pl, name, log) && AlwaysAnswers(log, fetch, options.pageLimit) && options.pageLimit > 0 ==> result.Ok?
    ensures result.Ok? ==>
      && Accounts(options, result.value, old(target.Contents()), target.Contents(), c, p)
      && At(log, result.value.lastPosition, p)
      && (!result.value.truncated ==> p == |log|)
      && (result.value.truncated ==> PagesExhausted(options, result.value) || RecordsExhausted(options, result.value))
  {
    hide Rebuilt, WellFormed, Faithful, AlwaysAnswers, ValidLabel, Accounts, BelowRecordBudget, At;
    p := c;
    ghost var start := target.Contents();
    NothingYet(pl, name, log, options, startFrom, start, c);
    if BadReplay(name, startFrom, options) {
      return Err(BadArguments), p;
    }
    var checkpoints := new CheckpointStore();
    if startFrom.Some? {
      checkpoints.Save(name, startFrom.value);
    }
    var settings := Settings(SkipDuplicates, AbortOnMalformed, options.pageLimit);
    var report := ReplayReport(0, 0, 0, false, startFrom);
    while true
      invariant checkpoints.Load(name) == report.lastPosition && At(log, report.lastPosition, p)
      invariant Rebuilt(pl, log, start, target.Contents(), c, p)
      invariant Accounts(options, report, start, target.Contents(), c, p) && !report.truncated
      invariant BelowRecordBudget(options, report) && p <= |log|
      decreases |log| - p
    {
      if PagesExhausted(options, report) {
        Truncated(options, report, start, target.Contents(), c, p);
        return Ok(report.(truncated := true)), p;
      }
      ghost var mid, before := target.Contents(), p;
      var call;
      call, p := ReplayPage(pl, settings, name, fetch, checkpoints, target, log, start, c, p);
      if call.Err? {
        return Err(Failed(call.error)), p;
      }
      AccountsNext(options, report, call.value, checkpoints.Load(name), start, mid, target.Contents(), c, before, p);
      report := AfterCall(report, call.value, checkpoints.Load(name));
      if !call.value.hasMore {
        return Ok(report), p;
      }
      if PagesExhausted(options, report) || RecordsExhausted(options, report) {
        Truncated(options, report, start, target.Contents(), c, p);
        return Ok(report.(truncated := true)), p;
      }
    }
  }

  lemma NothingYet(
    pl: Pipeline, name: string, log: seq<RawEventItem>, options: ReplayOptions, startFrom: Option<string>, s: Store,
      c: nat)
    requires At(log, startFrom, c)
    ensures c <= |log| && Rebuilt(pl, log, s, s, c, c)
    ensures Accounts(options, ReplayReport(0, 0, 0, false, startFrom), s, s, c, c)
    ensures BelowRecordBudget(options, ReplayReport(0, 0, 0, false, startFrom))
    ensures WellFormed(pl, name, log) ==> ValidLabel(name, 64)
  {
    assert log[c..c] == [];
  }

  lemma Truncated(options: ReplayOptions, report: ReplayReport, before: Store, after: Store, c: nat, p: nat)
    requires Accounts(options, report, before, after, c, p)
    ensures Accounts(options, report.(truncated := true), before, after, c, p)
  {
  }

  /** A drained replay from the start is the store any drained live run over the same store ends with. */
  lemma DrainedReplayIsLiveIngestion(
    pl: Pipeline, name: string, base: Store, log: seq<RawEventItem>, attempts: seq<Attempt>, rebuilt: Store)
    requires DistinctPositions(log) && LegalRun(pl, name, base, log, attempts) && OthersOf(attempts) == []
    requires At(log, Run(pl, name, base, attempts).durable.checkpoint, |log|)
    requires Rebuilt(pl, log, base, rebuilt, 0, |log|)
    ensures rebuilt == Run(pl, name, base, attempts).durable.store
  {
    hide InsertAll, RecordsOf, Run;
    DrainedRun(pl, name, base, log, attempts);
    assert log[0..|log|] == log;
  }
}
