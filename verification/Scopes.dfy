/** Scope containment: which granted scope covers which request. */
module Scopes {
  import opened Wrappers
  import opened Records

  /** Both bounds inclusive; a missing bound is unbounded on that side. */
  datatype TimeRange = TimeRange(start: Option<I64>, end: Option<I64>) {
    predicate Contains(t: int) {
      (start.Some? ==> start.value <= t) && (end.Some? ==> t <= end.value)
    }

    predicate WellFormed() {
      start.Some? && end.Some? ==> start.value <= end.value
    }
  }

  datatype AccessScope =
    | All
    | Network(network: string)
    | Token(token: NetworkReference)
    | Contract(contract: NetworkReference)
    | AccountClass(name: string)
    | Investigation(caseId: string)
    | During(range: TimeRange)
    | OfKind(kind: EventKind)
    | Classification(level: DataClassification)

  predicate RangeContains(granted: TimeRange, requested: TimeRange) {
    && (match (granted.start, requested.start)
        case (Some(g), Some(r)) => g <= r
        case (None, _) => true
        case (Some(_), None) => false)
    && (match (granted.end, requested.end)
        case (Some(g), Some(r)) => g >= r
        case (None, _) => true
        case (Some(_), None) => false)
  }

  predicate Contains(granted: AccessScope, requested: AccessScope) {
    match granted
    case All => true
    case During(range) => requested.During? && RangeContains(range, requested.range)
    case Classification(level) => requested.Classification? && level.IsAtLeast(requested.level)
    case _ => requested == granted
  }

  predicate AnyContains(granted: seq<AccessScope>, requested: AccessScope) {
    exists i :: 0 <= i < |granted| && Contains(granted[i], requested)
  }

  predicate CoversClassification(granted: seq<AccessScope>, c: DataClassification) {
    AnyContains(granted, Classification(c))
  }

  // ---- Time ranges ----

  /** Containment is set inclusion, for every well-formed request, on the unbounded time line. */
  lemma RangeContainsIff(granted: TimeRange, requested: TimeRange)
    requires requested.WellFormed()
    ensures RangeContains(granted, requested) <==> forall t: int :: requested.Contains(t) ==> granted.Contains(t)
  {
    if !RangeContains(granted, requested) {
      var t := OutsideInstant(granted, requested);
      assert requested.Contains(t) && !granted.Contains(t);
    }
  }

  /** An instant of the request that the grant leaves out. */
  lemma OutsideInstant(granted: TimeRange, requested: TimeRange) returns (t: int)
    requires requested.WellFormed() && !RangeContains(granted, requested)
    ensures requested.Contains(t) && !granted.Contains(t)
    ensures t < FIRST_INSTANT ==> requested.start.None? && granted.start == Some(FIRST_INSTANT)
    ensures t > LAST_INSTANT ==> requested.end.None? && granted.end == Some(LAST_INSTANT)
  {
    if granted.start.Some? && (requested.start.None? || requested.start.value < granted.start.value) {
      t := if requested.start.Some? then requested.start.value else granted.start.value - 1;
      if requested.end.Some? && t > requested.end.value {
        t := requested.end.value;
      }
    } else {
      t := if requested.end.Some? then requested.end.value else granted.end.value + 1;
      if requested.start.Some? && t < requested.start.value {
        t := requested.start.value;
      }
    }
  }

  const FIRST_INSTANT: I64 := -0x8000_0000_0000_0000
  const LAST_INSTANT: I64 := 0x7fff_ffff_ffff_ffff

  /**
   On 64-bit time the check is stricter than inclusion in exactly one way: a bound that excludes no
   64-bit instant still refuses a request unbounded on that side.
   */
  lemma RangeContainsOn64BitsIff(granted: TimeRange, requested: TimeRange)
    requires requested.WellFormed()
    ensures RangeContains(granted, requested) <==>
            && (forall t: I64 :: requested.Contains(t) ==> granted.Contains(t))
            && !(requested.start.None? && granted.start == Some(FIRST_INSTANT))
            && !(requested.end.None? && granted.end == Some(LAST_INSTANT))
  {
    RangeContainsIff(granted, requested);
    if !RangeContains(granted, requested)
       && !(requested.start.None? && granted.start == Some(FIRST_INSTANT))
       && !(requested.end.None? && granted.end == Some(LAST_INSTANT))
    {
      var t := OutsideInstant(granted, requested);
      var within: I64 := t;
      assert requested.Contains(within) && !granted.Contains(within);
    }
  }

  // ---- Containment as an order ----

  /**
   What a grant covers: everything if it is `All`; of its own kind, a time range the ranges it includes and a
   classification those it is at least as sensitive as; otherwise itself alone, and nothing of another kind.
   */
  lemma ContainsIff(granted: AccessScope, requested: AccessScope)
    requires requested.During? ==> requested.range.WellFormed()
    ensures Contains(granted, requested) <==>
            || granted.All?
            || granted == requested
            || (granted.Classification? && requested.Classification? && granted.level.Rank() >= requested.level.Rank())
            || (granted.During? && requested.During?
                && forall t: int :: requested.range.Contains(t) ==> granted.range.Contains(t))
  {
    hide RangeContains;
    if granted.During? && requested.During? {
      RangeContainsIff(granted.range, requested.range);
    }
  }

  lemma ContainsReflexive(a: AccessScope)
    ensures Contains(a, a)
  {
  }

  /** What a covered scope covers is covered. */
  lemma ContainsTransitive(a: AccessScope, b: AccessScope, c: AccessScope)
    requires Contains(a, b) && Contains(b, c)
    ensures Contains(a, c)
  {
  }

  lemma ContainsAntisymmetric(a: AccessScope, b: AccessScope)
    requires Contains(a, b) && Contains(b, a)
    ensures a == b
  {
  }

  /** Adding grants, at either end and in any order, covers what was covered. */
  lemma MoreGrantsCover(granted: seq<AccessScope>, wider: seq<AccessScope>)
    requires forall s :: s in granted ==> s in wider
    ensures forall i :: 0 <= i < |granted| ==> AnyContains(wider, granted[i])
  {
    forall i | 0 <= i < |granted| ensures AnyContains(wider, granted[i]) {
      assert granted[i] in wider;
      var j :| 0 <= j < |wider| && wider[j] == granted[i];
      ContainsReflexive(wider[j]);
    }
  }

  /** A list that covers each grant of another covers whatever the other covers. */
  lemma CoverageIsMonotone(granted: seq<AccessScope>, wider: seq<AccessScope>, requested: AccessScope)
    requires forall i :: 0 <= i < |granted| ==> AnyContains(wider, granted[i])
    requires AnyContains(granted, requested)
    ensures AnyContains(wider, requested)
  {
    var i :| 0 <= i < |granted| && Contains(granted[i], requested);
    assert AnyContains(wider, granted[i]);
    var j :| 0 <= j < |wider| && Contains(wider[j], granted[i]);
    ContainsTransitive(wider[j], granted[i], requested);
  }
}
