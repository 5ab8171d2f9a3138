/** Redaction: the disclosure ceiling of a grant list, and the view of a record at a ceiling. */
module Disclosure {
  import opened Wrappers
  import opened Records
  import opened Scopes
  import opened Orders
  import opened Keyset
  import opened Text

  const REDACTED_MARKER := "[redacted]"

  type Ceiling = Option<DataClassification>

  // ---- The rule at one ceiling ----

  predicate IsDisclosable(c: DataClassification, ceiling: DataClassification) {
    !c.IsAtLeast(ceiling)
  }

  /** `None` is no ceiling at all. */
  predicate Passes(c: DataClassification, ceiling: Ceiling) {
    ceiling.Some? ==> IsDisclosable(c, ceiling.value)
  }

  function FieldClassification(r: AuditRecord, key: string): DataClassification {
    if key in r.redactions then r.redactions[key] else r.classification
  }

  predicate Withheld(r: AuditRecord, ceiling: Ceiling, key: string) {
    !Passes(FieldClassification(r, key), ceiling)
  }

  function DiscloseDetails(r: AuditRecord, ceiling: Ceiling): map<string, string> {
    if ceiling.None? then r.event.details
    else
      map key | key in r.event.details ::
        if IsDisclosable(FieldClassification(r, key), ceiling.value) then r.event.details[key] else REDACTED_MARKER
  }

  // ---- Keys in map order ----

  /** The keys in the order an ordered map yields them. */
  ghost function InOrder(keys: set<string>): seq<string> {
    LexIsStrict();
    OrderedKeys(LEX, keys)
  }

  ghost predicate StrictlyRising(s: seq<string>) {
    forall i, j :: 0 <= i < j < |s| ==> LexLess(s[i], s[j])
  }

  function Filter(s: seq<string>, keep: string -> bool): seq<string> {
    if s == [] then [] else (if keep(s[0]) then [s[0]] else []) + Filter(s[1..], keep)
  }

  lemma RisingFrom(m: string, s: seq<string>)
    requires StrictlyRising(s) && forall x :: x in s ==> LexLess(m, x)
    ensures StrictlyRising([m] + s)
  {
    var all := [m] + s;
    forall i, j | 0 <= i < j < |all| ensures LexLess(all[i], all[j]) {
      assert all[j] == s[j - 1] && (i > 0 ==> all[i] == s[i - 1]);
    }
  }

  lemma InOrderRises(keys: set<string>)
    ensures StrictlyRising(InOrder(keys)) && forall x :: x in InOrder(keys) <==> x in keys
  {
    LexIsStrict();
    var all := InOrder(keys);
    forall i, j | 0 <= i < j < |all| ensures LexLess(all[i], all[j]) {
      assert LEX(all[i], all[j]);
    }
  }

  lemma {:induction false} FilterRises(s: seq<string>, keep: string -> bool)
    requires StrictlyRising(s)
    ensures StrictlyRising(Filter(s, keep)) && forall x :: x in Filter(s, keep) <==> x in s && keep(x)
  {
    hide LexLess;
    if s != [] {
      assert StrictlyRising(s[1..]);
      FilterRises(s[1..], keep);
      assert forall x :: x in s[1..] ==> LexLess(s[0], x);
      if keep(s[0]) {
        RisingFrom(s[0], Filter(s[1..], keep));
      }
      assert s == [s[0]] + s[1..];
    }
  }

  ghost function RedactedKeys(r: AuditRecord, ceiling: Ceiling): seq<string> {
    if ceiling.None? then []
    else Filter(InOrder(r.event.details.Keys), key => !IsDisclosable(FieldClassification(r, key), ceiling.value))
  }

  /** The list of withheld keys is in strictly rising order and names each withheld key of the record once. */
  lemma RedactedKeysExact(r: AuditRecord, ceiling: Ceiling)
    ensures StrictlyRising(RedactedKeys(r, ceiling))
    ensures forall key :: key in RedactedKeys(r, ceiling) <==> key in r.event.details && Withheld(r, ceiling, key)
  {
    hide InOrder, Filter;
    InOrderRises(r.event.details.Keys);
    if ceiling.Some? {
      FilterRises(InOrder(r.event.details.Keys), key => !IsDisclosable(FieldClassification(r, key), ceiling.value));
    }
  }

  datatype RecordDisclosure = RecordDisclosure(
    recordId: RecordId, kind: EventKind, network: string, recordedAt: I64,
    details: map<string, string>, redactedKeys: seq<string>)

  ghost function Disclose(r: AuditRecord, ceiling: Ceiling): RecordDisclosure {
    RecordDisclosure(
      r.recordId, r.event.kind, r.event.network, r.recordedAt, DiscloseDetails(r, ceiling), RedactedKeys(r, ceiling))
  }

  // ---- The ceiling of a grant list ----

  /** The ceiling lets through exactly the classifications the authorizer would cover. */
  predicate AgreesWithAuthorizer(granted: seq<AccessScope>, ceiling: Ceiling) {
    forall c: DataClassification :: Passes(c, ceiling) <==> CoversClassification(granted, c)
  }

  function NextLevel(c: DataClassification): (next: Ceiling)
    ensures forall d: DataClassification :: Passes(d, next) <==> c.IsAtLeast(d)
  {
    match c
    case Public => Some(Operational)
    case Operational => Some(Confidential)
    case Confidential => Some(Restricted)
    case Restricted => Some(HighlyRestricted)
    case HighlyRestricted => None
  }

  /** The most sensitive classification granted so far. */
  ghost predicate IsMost(granted: seq<AccessScope>, most: Option<DataClassification>) {
    && All !in granted
    && (most.Some? ==> Classification(most.value) in granted)
    && forall s :: s in granted && s.Classification? ==> most.Some? && most.value.IsAtLeast(s.level)
  }

  method DisclosureCeiling(granted: seq<AccessScope>) returns (ceiling: Ceiling)
    ensures AgreesWithAuthorizer(granted, ceiling)
  {
    var most: Option<DataClassification> := None;
    for n := 0 to |granted|
      invariant IsMost(granted[..n], most)
    {
      assert granted[..n + 1] == granted[..n] + [granted[n]];
      match granted[n] {
        case All =>
          AllCoversEverything(granted, n);
          return None;
        case Classification(c) =>
          most := Some(if most.Some? && most.value.IsAtLeast(c) then most.value else c);
        case _ =>
      }
    }
    assert granted[..|granted|] == granted;
    MostDecides(granted, most);
    return if most.None? then Some(Public) else NextLevel(most.value);
  }

  lemma AllCoversEverything(granted: seq<AccessScope>, n: nat)
    requires n < |granted| && granted[n] == All
    ensures AgreesWithAuthorizer(granted, None)
  {
    forall c: DataClassification ensures CoversClassification(granted, c) {
      assert Contains(granted[n], Classification(c));
    }
  }

  lemma MostDecides(granted: seq<AccessScope>, most: Option<DataClassification>)
    requires IsMost(granted, most)
    ensures AgreesWithAuthorizer(granted, if most.None? then Some(Public) else NextLevel(most.value))
  {
    forall c: DataClassification
      ensures CoversClassification(granted, c) <==> most.Some? && most.value.IsAtLeast(c)
    {
      if most.Some? && most.value.IsAtLeast(c) {
        var i :| 0 <= i < |granted| && granted[i] == Classification(most.value);
        assert Contains(granted[i], Classification(c));
      }
      if CoversClassification(granted, c) {
        var i :| 0 <= i < |granted| && Contains(granted[i], Classification(c));
        assert granted[i] in granted;
      }
    }
  }

  /** Agreement leaves no choice: grant lists that cover the same classifications have the same ceiling. */
  lemma CeilingIsDetermined(granted: seq<AccessScope>, other: seq<AccessScope>, a: Ceiling, b: Ceiling)
    requires AgreesWithAuthorizer(granted, a) && AgreesWithAuthorizer(other, b)
    ensures a == b <==> forall c: DataClassification :: CoversClassification(granted, c) <==>
      CoversClassification(other, c)
  {
    if forall c: DataClassification :: CoversClassification(granted, c) <==> CoversClassification(other, c) {
      forall c: DataClassification ensures Passes(c, a) <==> Passes(c, b) {
        assert CoversClassification(granted, c) <==> CoversClassification(other, c);
      }
      PassesDecides(a, b);
    }
  }

  lemma PassesDecides(a: Ceiling, b: Ceiling)
    requires forall c: DataClassification :: Passes(c, a) <==> Passes(c, b)
    ensures a == b
  {
    assert Passes(Public, a) <==> Passes(Public, b);
    assert Passes(Operational, a) <==> Passes(Operational, b);
    assert Passes(Confidential, a) <==> Passes(Confidential, b);
    assert Passes(Restricted, a) <==> Passes(Restricted, b);
    assert Passes(HighlyRestricted, a) <==> Passes(HighlyRestricted, b);
  }

  // ---- Disclosure agrees with authorization ----

  /**
   The view carries the record's identity and metadata. At the ceiling of any grant list, a detail is shown
   as it is exactly when the authorizer covers its effective classification, the declared one or else the
   record's own, is otherwise replaced by the marker and listed, and no key is
   dropped or added.
   */
  lemma DisclosureAgrees(r: AuditRecord, granted: seq<AccessScope>, ceiling: Ceiling, key: string)
    requires AgreesWithAuthorizer(granted, ceiling)
    ensures
      var view := Disclose(r, ceiling);
      var effective := if key in r.redactions then r.redactions[key] else r.classification;
      && view.recordId == r.recordId && view.kind == r.event.kind && view.network == r.event.network
      && view.recordedAt == r.recordedAt
      && view.details.Keys == r.event.details.Keys
      && (key in r.event.details ==>
            if CoversClassification(granted, effective)
            then key !in view.redactedKeys && view.details[key] == r.event.details[key]
            else key in view.redactedKeys && view.details[key] == REDACTED_MARKER)
  {
    hide RedactedKeys, CoversClassification;
    RedactedKeysExact(r, ceiling);
    assert Passes(FieldClassification(r, key), ceiling) <==> CoversClassification(granted, FieldClassification(r, key));
  }

  /** More grants, in any order, never hide a key that fewer showed. */
  lemma GrantsNeverHide(
    r: AuditRecord, granted: seq<AccessScope>, ceiling: Ceiling, wider: seq<AccessScope>, wide: Ceiling, key: string)
    requires AgreesWithAuthorizer(granted, ceiling) && AgreesWithAuthorizer(wider, wide)
    requires forall i :: 0 <= i < |granted| ==> AnyContains(wider, granted[i])
    ensures key in Disclose(r, wide).redactedKeys ==> key in Disclose(r, ceiling).redactedKeys
    ensures key in r.event.details && key !in Disclose(r, ceiling).redactedKeys ==>
            Disclose(r, wide).details[key] == r.event.details[key]
  {
    hide Disclose, CoversClassification;
    DisclosureAgrees(r, granted, ceiling, key);
    DisclosureAgrees(r, wider, wide, key);
    var c := FieldClassification(r, key);
    if CoversClassification(granted, c) {
      CoverageTransfers(granted, wider, c);
    }
    hide AgreesWithAuthorizer;
    KeysAreDetails(r, wide, key);
  }

  /** Adding grants never hides a key. */
  lemma AddedGrantsNeverHide(
    r: AuditRecord, granted: seq<AccessScope>, ceiling: Ceiling, wider: seq<AccessScope>, wide: Ceiling, key: string)
    requires AgreesWithAuthorizer(granted, ceiling) && AgreesWithAuthorizer(wider, wide)
    requires forall s :: s in granted ==> s in wider
    ensures key in Disclose(r, wide).redactedKeys ==> key in Disclose(r, ceiling).redactedKeys
  {
    hide Disclose, AgreesWithAuthorizer;
    MoreGrantsCover(granted, wider);
    GrantsNeverHide(r, granted, ceiling, wider, wide, key);
  }

  lemma CoverageTransfers(granted: seq<AccessScope>, wider: seq<AccessScope>, c: DataClassification)
    requires forall i :: 0 <= i < |granted| ==> AnyContains(wider, granted[i])
    requires CoversClassification(granted, c)
    ensures CoversClassification(wider, c)
  {
    CoverageIsMonotone(granted, wider, Classification(c));
  }

  lemma KeysAreDetails(r: AuditRecord, ceiling: Ceiling, key: string)
    ensures key in Disclose(r, ceiling).redactedKeys ==> key in r.event.details
  {
    hide RedactedKeys;
    RedactedKeysExact(r, ceiling);
  }

  /** Two records that differ only in the values of withheld keys cannot be told apart from their views. */
  lemma WithheldValuesDoNotLeak(r: AuditRecord, ceiling: Ceiling, details: map<string, string>)
    requires details.Keys == r.event.details.Keys
    requires forall key :: key in details && !Withheld(r, ceiling, key) ==> details[key] == r.event.details[key]
    ensures Disclose(r.(event := r.event.(details := details)), ceiling) == Disclose(r, ceiling)
  {
    hide InOrder, Filter;
    var other := r.(event := r.event.(details := details));
    if ceiling.Some? {
      FilterSame(InOrder(details.Keys),
                 key => !IsDisclosable(FieldClassification(other, key), ceiling.value),
                 key => !IsDisclosable(FieldClassification(r, key), ceiling.value));
    }
    assert DiscloseDetails(other, ceiling) == DiscloseDetails(r, ceiling);
  }

  lemma {:induction false} FilterSame(s: seq<string>, p: string -> bool, q: string -> bool)
    requires forall x :: p(x) == q(x)
    ensures Filter(s, p) == Filter(s, q)
  {
    if s != [] {
      FilterSame(s[1..], p, q);
    }
  }
}
