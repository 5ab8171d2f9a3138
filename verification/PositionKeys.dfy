/**
 Position keys: the deterministic sort key of a record within audit history, the order on
 keys, and their encoding as opaque page cursors.
 */
module PositionKeys {
  import opened Wrappers
  import opened Records
  import Text

  datatype Ordering = Less | Equal | Greater

  function CompareInt(a: int, b: int): Ordering {
    if a < b then Less else if a == b then Equal else Greater
  }

  /** A missing component orders after every present one. */
  function CompareUnknownLast(a: Option<int>, b: Option<int>): Ordering {
    match (a, b)
    case (Some(x), Some(y)) => CompareInt(x, y)
    case (Some(_), None) => Less
    case (None, Some(_)) => Greater
    case (None, None) => Equal
  }

  function CompareText(a: string, b: string): Ordering {
    if a == b then Equal else if Text.LexLess(a, b) then Less else Greater
  }

  function Then(first: Ordering, second: Ordering): Ordering {
    if first == Equal then second else first
  }

  datatype PositionKey = PositionKey(
    ledger: Option<I64>, operation: Option<U32>, event: Option<U32>, recordedAt: I64, recordId: RecordId)

  function KeyOf(r: AuditRecord): PositionKey {
    var o := r.event.order;
    PositionKey(o.ledgerSequence, o.operationIndex, o.eventIndex, r.recordedAt, r.recordId)
  }

  function CompareKeys(a: PositionKey, b: PositionKey): Ordering {
    Then(CompareUnknownLast(a.ledger, b.ledger),
         Then(CompareUnknownLast(a.operation, b.operation),
              Then(CompareUnknownLast(a.event, b.event),
                   Then(CompareInt(a.recordedAt, b.recordedAt),
                        CompareText(a.recordId, b.recordId)))))
  }

  predicate Before(a: PositionKey, b: PositionKey) {
    CompareKeys(a, b) == Less
  }

  lemma BeforeTransitive(a: PositionKey, b: PositionKey, c: PositionKey)
    requires Before(a, b) && Before(b, c)
    ensures Before(a, c)
  {
    Text.LexIrreflexive(a.recordId);
    if Text.LexLess(a.recordId, b.recordId) && Text.LexLess(b.recordId, c.recordId) {
      Text.LexTransitive(a.recordId, b.recordId, c.recordId);
    }
  }

  /** Exactly one of before, equal and after holds for any two keys. */
  lemma BeforeTrichotomy(a: PositionKey, b: PositionKey)
    ensures Before(a, b) || a == b || Before(b, a)
    ensures !(Before(a, b) && Before(b, a))
    ensures !Before(a, a)
  {
    hide CompareUnknownLast, CompareInt, CompareText;
    KnownTrichotomy(a.ledger, b.ledger);
    KnownTrichotomy(a.operation, b.operation);
    KnownTrichotomy(a.event, b.event);
    IntTrichotomy(a.recordedAt, b.recordedAt);
    TextTrichotomy(a.recordId, b.recordId);
  }

  function Opposite(o: Ordering): Ordering {
    match o
    case Less => Greater
    case Equal => Equal
    case Greater => Less
  }

  lemma KnownTrichotomy(a: Option<int>, b: Option<int>)
    ensures CompareUnknownLast(b, a) == Opposite(CompareUnknownLast(a, b))
    ensures CompareUnknownLast(a, b) == Equal <==> a == b
    ensures CompareUnknownLast(a, a) == Equal
  {
  }

  lemma IntTrichotomy(a: int, b: int)
    ensures CompareInt(b, a) == Opposite(CompareInt(a, b))
    ensures CompareInt(a, b) == Equal <==> a == b
    ensures CompareInt(a, a) == Equal
  {
  }

  lemma TextTrichotomy(a: string, b: string)
    ensures CompareText(b, a) == Opposite(CompareText(a, b))
    ensures CompareText(a, b) == Equal <==> a == b
    ensures CompareText(a, a) == Equal
  {
    hide Text.LexLess;
    Text.LexIrreflexive(a);
    Text.LexTotal(a, b);
    if Text.LexLess(a, b) && Text.LexLess(b, a) {
      Text.LexTransitive(a, b, a);
    }
  }

  /** A known value comes before an unknown one, and a lower known one before a higher. */
  predicate Sooner(a: Option<int>, b: Option<int>) {
    a.Some? && (b.None? || a.value < b.value)
  }

  /** By ledger, then operation, then event, then time of recording, then record id. */
  predicate EarlierInHistory(a: AuditRecord, b: AuditRecord) {
    var x, y := a.event.order, b.event.order;
    || Sooner(x.ledgerSequence, y.ledgerSequence)
    || (x.ledgerSequence == y.ledgerSequence &&
        (|| Sooner(x.operationIndex, y.operationIndex)
         || (x.operationIndex == y.operationIndex &&
             (|| Sooner(x.eventIndex, y.eventIndex)
              || (x.eventIndex == y.eventIndex &&
                  (|| a.recordedAt < b.recordedAt
                   || (a.recordedAt == b.recordedAt && Text.LexLess(a.recordId, b.recordId))))))))
  }

  lemma BeforeIsEarlier(a: AuditRecord, b: AuditRecord)
    ensures Before(KeyOf(a), KeyOf(b)) <==> EarlierInHistory(a, b)
  {
    hide Text.LexLess;
    Text.LexIrreflexive(a.recordId);
  }

  // ---- Record identifiers ----

  predicate IsHexDigit(c: char) {
    '0' <= c <= '9' || 'a' <= c <= 'f' || 'A' <= c <= 'F'
  }

  /** `rec_` followed by at least one hexadecimal digit: the shape every `RecordId` value has. */
  predicate IsRecordId(s: string) {
    && |s| >= 5
    && s[..4] == "rec_"
    && forall i :: 4 <= i < |s| ==> IsHexDigit(s[i])
  }

  // ---- Cursors ----

  function OptionText(x: Option<int>): string {
    match x
    case None => "-"
    case Some(v) => Text.IntText(v)
  }

  const BAR: char := '|'

  /** `ledger|op|event|recorded_at|record_id`, with `-` for an absent field. */
  function ToCursor(k: PositionKey): (cursor: string) {
    OptionText(k.ledger) + [BAR]
    + (OptionText(k.operation) + [BAR]
       + (OptionText(k.event) + [BAR]
          + (Text.IntText(k.recordedAt) + [BAR]
             + k.recordId)))
  }

  /** `None` for a text that is not a number; `Some(None)` for the absent-field dash. */
  function ParseLedger(s: string): (r: Option<Option<I64>>) {
    if s == "-" then Some(None)
    else
      match Text.ParseInt(s, true)
      case None => None
      case Some(x) => if FitsI64(x) then Some(Some(x)) else None
  }

  function ParseIndex(s: string): (r: Option<Option<U32>>) {
    if s == "-" then Some(None)
    else
      match Text.ParseInt(s, false)
      case None => None
      case Some(x) => if FitsU32(x) then Some(Some(x)) else None
  }

  function FromCursor(cursor: string): (r: Option<PositionKey>) {
    var parts := Text.Split(cursor, BAR);
    if |parts| != 5 then None
    else
      var ledger := ParseLedger(parts[0]);
      var operation := ParseIndex(parts[1]);
      var event := ParseIndex(parts[2]);
      var recordedAt := Text.ParseInt(parts[3], true);
      if ledger.Some? && operation.Some? && event.Some?
         && recordedAt.Some? && FitsI64(recordedAt.value) && IsRecordId(parts[4]) then
        Some(PositionKey(ledger.value, operation.value, event.value, recordedAt.value, parts[4]))
      else None
  }

  lemma NumbersHaveNoBar(x: int)
    ensures BAR !in Text.IntText(x) && Text.IntText(x) != "-"
  {
    if x < 0 {
      assert Text.IntText(x)[1..] == Text.Digits(-x);
    } else {
      assert Text.IsDigit(Text.Digits(x)[0]);
    }
  }

  lemma OptionTextParses(ledger: Option<I64>, index: Option<U32>)
    ensures BAR !in OptionText(ledger) && ParseLedger(OptionText(ledger)) == Some(ledger)
    ensures BAR !in OptionText(index) && ParseIndex(OptionText(index)) == Some(index)
  {
    if ledger.Some? {
      NumbersHaveNoBar(ledger.value);
      Text.ParseIntText(ledger.value, true);
    }
    if index.Some? {
      NumbersHaveNoBar(index.value);
      Text.ParseIntText(index.value, false);
    }
  }

  lemma RecordIdHasNoBar(id: string)
    requires IsRecordId(id)
    ensures BAR !in id
  {
    assert forall i :: 0 <= i < 4 ==> id[i] == id[..4][i];
  }

  /** Cursors decode losslessly: the page boundary a caller hands back is the key it was made from. */
  lemma CursorRoundTrip(k: PositionKey)
    requires IsRecordId(k.recordId)
    ensures FromCursor(ToCursor(k)) == Some(k)
  {
    hide IsRecordId, OptionText, ParseLedger, ParseIndex;
    hide Text.Split, Text.ParseInt, Text.IntText;
    RecordIdHasNoBar(k.recordId);
    OptionTextParses(k.ledger, k.operation);
    OptionTextParses(None, k.event);
    NumbersHaveNoBar(k.recordedAt);
    Text.ParseIntText(k.recordedAt, true);
    var tail3 := Text.IntText(k.recordedAt) + [BAR] + k.recordId;
    var tail2 := OptionText(k.event) + [BAR] + tail3;
    var tail1 := OptionText(k.operation) + [BAR] + tail2;
    Text.SplitWord(k.recordId, BAR);
    Text.SplitFirst(Text.IntText(k.recordedAt), BAR, k.recordId);
    Text.SplitFirst(OptionText(k.event), BAR, tail3);
    Text.SplitFirst(OptionText(k.operation), BAR, tail2);
    Text.SplitFirst(OptionText(k.ledger), BAR, tail1);
    assert ToCursor(k) == OptionText(k.ledger) + [BAR] + tail1;
  }

  // ---- The cursor constructor's limits ----

  predicate IsCursorChar(c: char) {
    'a' <= c <= 'z' || 'A' <= c <= 'Z' || '0' <= c <= '9'
    || c in {'_', '-', '.', '~', ':', '/', '+', '=', '|'}
  }

  predicate CursorText(s: string) {
    forall i :: 0 <= i < |s| ==> IsCursorChar(s[i])
  }

  /** What the `Cursor` constructor accepts; `to_cursor` panics on anything else. */
  predicate AcceptedCursor(s: string) {
    1 <= |s| <= 128 && CursorText(s)
  }

  lemma NumberTextBounds(x: int, width: nat)
    requires width > 0 && x < Text.Pow10(width) && -x < Text.Pow10(width)
    ensures 1 <= |Text.IntText(x)| <= width + if x < 0 then 1 else 0
    ensures CursorText(Text.IntText(x))
  {
    var n := if x < 0 then -x else x;
    Text.DigitsLength(n, width);
    assert forall i :: 0 <= i < |Text.Digits(n)| ==> Text.IsDigit(Text.Digits(n)[i]);
  }

  lemma OptionTextBounds(x: Option<int>, width: nat)
    requires width > 0 && (x.Some? ==> x.value < Text.Pow10(width) && -x.value < Text.Pow10(width))
    ensures 1 <= |OptionText(x)| <= width + 1
    ensures x.None? || x.value >= 0 ==> |OptionText(x)| <= width
    ensures CursorText(OptionText(x))
  {
    if x.Some? {
      NumberTextBounds(x.value, width);
    }
  }

  lemma FieldThenBar(field: string, rest: string)
    requires CursorText(field) && CursorText(rest)
    ensures CursorText(field + [BAR] + rest)
  {
  }

  lemma RecordIdIsCursorText(id: string)
    requires IsRecordId(id)
    ensures CursorText(id)
  {
    assert forall i :: 0 <= i < 4 ==> id[i] == id[..4][i];
  }

  lemma WidthsOfMachineIntegers()
    ensures Text.Pow10(10) == 10_000_000_000
    ensures Text.Pow10(19) == 10_000_000_000_000_000_000
  {
    assert Text.Pow10(5) == 100_000;
    assert Text.Pow10(15) == 1_000_000_000_000_000;
  }

  /** The keys whose encoding does not panic. */
  predicate Encodable(k: PositionKey) {
    IsRecordId(k.recordId) && AcceptedCursor(ToCursor(k))
  }

  /**
   Encoding panics exactly when the text is longer than the cursor constructor allows: never for record
   ids of up to 64 characters, of which derived ones have 36, and always beyond 120.
   */
  lemma CursorIsAccepted(k: PositionKey)
    requires IsRecordId(k.recordId)
    ensures Encodable(k) <==> |ToCursor(k)| <= 128
    ensures |k.recordId| <= 64 ==> Encodable(k)
    ensures |k.recordId| > 120 ==> !Encodable(k)
  {
    hide IsRecordId, OptionText, CursorText;
    hide Text.Pow10, Text.IntText;
    RecordIdIsCursorText(k.recordId);
    WidthsOfMachineIntegers();
    NumberTextBounds(k.recordedAt, 19);
    OptionTextBounds(k.ledger, 19);
    OptionTextBounds(k.operation, 10);
    OptionTextBounds(k.event, 10);
    var tail3 := Text.IntText(k.recordedAt) + [BAR] + k.recordId;
    FieldThenBar(Text.IntText(k.recordedAt), k.recordId);
    var tail2 := OptionText(k.event) + [BAR] + tail3;
    FieldThenBar(OptionText(k.event), tail3);
    var tail1 := OptionText(k.operation) + [BAR] + tail2;
    FieldThenBar(OptionText(k.operation), tail2);
    FieldThenBar(OptionText(k.ledger), tail1);
    assert ToCursor(k) == OptionText(k.ledger) + [BAR] + tail1;
  }

  /** A record id the parser accepts and whose cursor panics. */
  lemma LongIdPanics()
    ensures
      var id := "rec_" + seq(117, _ => '0');
      IsRecordId(id) && !Encodable(PositionKey(None, None, None, 0, id))
  {
    var id := "rec_" + seq(117, _ => '0');
    assert id[..4] == "rec_";
    CursorIsAccepted(PositionKey(None, None, None, 0, id));
  }
}
