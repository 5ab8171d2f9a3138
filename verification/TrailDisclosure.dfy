/** What readers see of the audit layer's own records. */
module TrailDisclosure {
  import opened Wrappers
  import opened Records
  import opened DerivedEvents
  import opened Cases
  import opened CaseService
  import opened Scopes
  import opened Disclosure

  /**
   A reader of a lifecycle record sees the case, the actor and the status exactly with a grant that covers
   operational data, and the summary exactly with one that covers confidential data.
   */
  lemma LifecycleDisclosure(
    svc: Service, caseId: string, n: nat, s: Step, granted: seq<AccessScope>, ceiling: Ceiling, key: string)
    requires s.kind == InvestigationOpened || s.kind == InvestigationUpdated || s.kind == InvestigationClosed
    requires ValidSource(svc.origin.source) && AgreesWithAuthorizer(granted, ceiling)
    requires key == "case" || key == "actor" || key == "status" || (key == "summary" && s.summary.Some?)
    ensures
      var r := StepRecord(svc, caseId, n, s).value;
      var shown := key !in Disclose(r, ceiling).redactedKeys;
      && key in r.event.details
      && (shown <==> CoversClassification(granted, if key == "summary" then Confidential else Operational))
      && Disclose(r, ceiling).details[key] == if shown then r.event.details[key] else "[redacted]"
  {
    hide StepRecord, Disclose, CoversClassification, AgreesWithAuthorizer, ValidSource;
    var r := StepRecord(svc, caseId, n, s).value;
    StepRecordSays(svc, caseId, n, s);
    StepRecordProtects(svc, caseId, n, s);
    DisclosureAgrees(r, granted, ceiling, key);
  }
}
