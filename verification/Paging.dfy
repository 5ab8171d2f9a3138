/** Queries over the audit store: a filter, a direction, and stable cursor pagination. */
module Paging {
  import opened Wrappers
  import opened Records
  import opened PositionKeys
  import opened EventStore
  import opened Orders
  import opened Keyset
  import opened Text

  datatype SortDirection = Ascending | Descending

  /** A query is a predicate over records plus a direction. */
  datatype AuditQuery = AuditQuery(matches: AuditRecord -> bool, sort: SortDirection)

  /** Forward iteration of the ordered map, or its reverse. */
  function HistoryOrder(d: SortDirection): Order<PositionKey> {
    if d == Ascending then (a, b) => Before(a, b) else (a, b) => Before(b, a)
  }

  lemma HistoryOrderIsStrict(d: SortDirection)
    ensures StrictTotal(HistoryOrder(d))
  {
    var less := HistoryOrder(d);
    forall a, b ensures less(a, b) || a == b || less(b, a) ensures !(less(a, b) && less(b, a)) {
      BeforeTrichotomy(a, b);
    }
    forall a, b, c | less(a, b) && less(b, c) ensures less(a, c) {
      if d == Ascending {
        BeforeTransitive(a, b, c);
      } else {
        BeforeTransitive(c, b, a);
      }
    }
  }

  const CURSORS: Codec<PositionKey> :=
    Codec((k: PositionKey) => Encodable(k), k => ToCursor(k), c => FromCursor(c))

  lemma CursorsAreLossless()
    ensures Lossless(CURSORS)
  {
    forall k | CURSORS.good(k) ensures CURSORS.decode(CURSORS.encode(k)) == Some(k) {
      CursorRoundTrip(k);
    }
  }

  const KEY: AuditRecord -> PositionKey := r => KeyOf(r)

  /** The matching records of the store in the requested direction. */
  ghost function Results(s: Store, q: AuditQuery): seq<AuditRecord> {
    HistoryOrderIsStrict(q.sort);
    Matched(HistoryOrder(q.sort), s.records, q.matches)
  }

  ghost function Query(
    s: Store, q: AuditQuery, limit: nat, cursor: Option<string>): Result<Page<AuditRecord>, StoreError>
  {
    match Request(CURSORS, KEY, HistoryOrder(q.sort), Results(s, q), limit, cursor)
    case None => Err(InvalidCursor)
    case Some(page) => Ok(page)
  }

  /** Records sit at their own keys, and those keys encode as cursors. */
  ghost predicate Keyed(s: Store) {
    forall k :: k in s.records ==> KeyOf(s.records[k]) == k && Encodable(k)
  }

  ghost predicate Matches(s: Store, q: AuditQuery, r: AuditRecord) {
    KeyOf(r) in s.records && s.records[KeyOf(r)] == r && q.matches(r)
  }

  lemma ResultsAreTheMatches(s: Store, q: AuditQuery)
    requires Keyed(s)
    ensures Increasing(KEY, HistoryOrder(q.sort), Results(s, q))
    ensures forall r :: r in Results(s, q) <==> Matches(s, q, r)
    ensures GoodKeys(CURSORS, KEY, Results(s, q))
  {
    HistoryOrderIsStrict(q.sort);
    MatchedIsTheFilter(KEY, HistoryOrder(q.sort), s.records, q.matches);
    forall r ensures r in Results(s, q) <==> Matches(s, q, r) {
      assert Holds(KEY, s.records, q.matches, r) <==> Matches(s, q, r);
    }
  }

  /** One request of a reader: the store at that moment and the page size asked for. */
  datatype Read = Read(store: Store, limit: nat)

  /** A reader who resumes at each page's cursor until a page carries none. */
  ghost predicate ReadThrough(q: AuditQuery, requests: seq<Read>, pages: seq<Page<AuditRecord>>, cursor: Option<string>)
    decreases |requests|
  {
    && |requests| == |pages| > 0
    && Query(requests[0].store, q, requests[0].limit, cursor) == Ok(pages[0])
    && (pages[0].nextCursor.None? <==> |pages| == 1)
    && (|pages| > 1 ==> ReadThrough(q, requests[1..], pages[1..], pages[0].nextCursor))
  }

  /** The stores are read at positive page sizes and their keys encode; nothing is said of how they change. */
  ghost predicate SoundReads(requests: seq<Read>) {
    forall i :: 0 <= i < |requests| ==> Keyed(requests[i].store) && requests[i].limit > 0
  }

  /** The store only gains records between requests. */
  ghost predicate GrowingReads(requests: seq<Read>) {
    && SoundReads(requests)
    && (forall i, j :: 0 <= i <= j < |requests| ==> Extends(requests[i].store.records, requests[j].store.records))
  }

  ghost predicate AlwaysMatches(requests: seq<Read>, q: AuditQuery, r: AuditRecord) {
    forall i :: 0 <= i < |requests| ==> Matches(requests[i].store, q, r)
  }

  ghost function VisitsOf(q: AuditQuery, requests: seq<Read>): (visits: seq<Visit<AuditRecord>>)
    ensures |visits| == |requests|
    ensures forall i :: 0 <= i < |requests| ==> visits[i] == Visit(Results(requests[i].store, q), requests[i].limit)
  {
    seq(|requests|, i requires 0 <= i < |requests| => Visit(Results(requests[i].store, q), requests[i].limit))
  }

  lemma {:induction false} ReadThroughIsSession(
    q: AuditQuery, requests: seq<Read>, pages: seq<Page<AuditRecord>>, cursor: Option<string>)
    ensures ReadThrough(q, requests, pages, cursor)
       <==> Session(CURSORS, KEY, HistoryOrder(q.sort), VisitsOf(q, requests), pages, cursor)
    decreases |requests|
  {
    if |requests| == |pages| && |pages| > 1 {
      ReadThroughIsSession(q, requests[1..], pages[1..], pages[0].nextCursor);
      assert VisitsOf(q, requests)[1..] == VisitsOf(q, requests[1..]);
    }
  }

  lemma SoundReadsAreOrdered(q: AuditQuery, requests: seq<Read>)
    requires SoundReads(requests)
    ensures OrderedVisits(CURSORS, KEY, HistoryOrder(q.sort), VisitsOf(q, requests))
  {
    hide Keyed, Results, Increasing, GoodKeys;
    forall i | 0 <= i < |requests|
      ensures Increasing(KEY, HistoryOrder(q.sort), Results(requests[i].store, q))
      ensures GoodKeys(CURSORS, KEY, Results(requests[i].store, q))
    {
      ResultsAreTheMatches(requests[i].store, q);
    }
  }

  lemma AlwaysMatchesIsAlwaysRow(q: AuditQuery, requests: seq<Read>, r: AuditRecord)
    requires SoundReads(requests) && AlwaysMatches(requests, q, r)
    ensures AlwaysRow(VisitsOf(q, requests), r)
  {
    hide Keyed, Results, Matches;
    forall i | 0 <= i < |requests| ensures r in VisitsOf(q, requests)[i].rows {
      ResultsAreTheMatches(requests[i].store, q);
    }
  }

  lemma IncreasingHasNoRepeats(less: Order<PositionKey>, rs: seq<AuditRecord>)
    requires StrictTotal(less) && Increasing(KEY, less, rs)
    ensures forall i, j :: 0 <= i < j < |rs| ==> rs[i] != rs[j]
  {
  }

  /**
   Whatever happens to the store between requests, and however the page size changes, no record is served
   twice, records come in history order, each page holds matches of the store it was read from, and a
   record that matches at every request is served.
   */
  lemma ReadingServes(q: AuditQuery, requests: seq<Read>, pages: seq<Page<AuditRecord>>)
    requires SoundReads(requests) && ReadThrough(q, requests, pages, None)
    ensures Increasing(KEY, HistoryOrder(q.sort), Served(pages))
    ensures forall i, j :: 0 <= i < j < |Served(pages)| ==> Served(pages)[i] != Served(pages)[j]
    ensures forall i, r :: 0 <= i < |pages| && r in pages[i].items ==> Matches(requests[i].store, q, r)
    ensures forall r :: AlwaysMatches(requests, q, r) ==> r in Served(pages)
  {
    hide Results, Session, OrderedVisits, Matches, Lossless, Query, Keyed, Served, Increasing, AlwaysMatches, AlwaysRow;
    var visits := VisitsOf(q, requests);
    HistoryOrderIsStrict(q.sort);
    CursorsAreLossless();
    ReadThroughIsSession(q, requests, pages, None);
    SoundReadsAreOrdered(q, requests);
    SessionServes(CURSORS, KEY, HistoryOrder(q.sort), visits, pages, None);
    IncreasingHasNoRepeats(HistoryOrder(q.sort), Served(pages));
    forall i, r | 0 <= i < |pages| && r in pages[i].items ensures Matches(requests[i].store, q, r) {
      PagesAreRows(CURSORS, KEY, HistoryOrder(q.sort), visits, pages, None, i, r);
      ResultsAreTheMatches(requests[i].store, q);
    }
    forall r | AlwaysMatches(requests, q, r) ensures r in Served(pages) {
      AlwaysMatchesIsAlwaysRow(q, requests, r);
    }
  }

  /**
   Records are served by placement first: a known ledger before an unknown one and a lower before a
   higher, then so by operation and by event, then by time of recording, then by record id; descending
   queries serve the reverse.
   */
  lemma ServedInHistoryOrder(q: AuditQuery, requests: seq<Read>, pages: seq<Page<AuditRecord>>, i: nat, j: nat)
    requires SoundReads(requests) && ReadThrough(q, requests, pages, None) && i < j < |Served(pages)|
    ensures
      var a, b := Served(pages)[i], Served(pages)[j];
      if q.sort == Ascending then EarlierInHistory(a, b) else EarlierInHistory(b, a)
  {
    hide Query, Keyed, Served, ReadThrough, EarlierInHistory, Before, KeyOf;
    ReadingServes(q, requests, pages);
    var a, b := Served(pages)[i], Served(pages)[j];
    assert HistoryOrder(q.sort)(KEY(a), KEY(b));
    BeforeIsEarlier(a, b);
    BeforeIsEarlier(b, a);
  }

  /**
   When the store only gains records between pages, every match there was when the reading began is
   served, and everything served still matches at its end.
   */
  lemma ReadingSurvivesInserts(q: AuditQuery, requests: seq<Read>, pages: seq<Page<AuditRecord>>)
    requires GrowingReads(requests) && ReadThrough(q, requests, pages, None)
    ensures Increasing(KEY, HistoryOrder(q.sort), Served(pages))
    ensures forall i, j :: 0 <= i < j < |Served(pages)| ==> Served(pages)[i] != Served(pages)[j]
    ensures forall r :: Matches(requests[0].store, q, r) ==> r in Served(pages)
    ensures forall r :: r in Served(pages) ==> Matches(requests[|requests| - 1].store, q, r)
  {
    hide Query, Keyed, Served, Increasing;
    ReadingServes(q, requests, pages);
    forall r | Matches(requests[0].store, q, r) ensures r in Served(pages) {
      assert AlwaysMatches(requests, q, r);
    }
    forall r | r in Served(pages) ensures Matches(requests[|requests| - 1].store, q, r) {
      var i := ServedOnSomePage(pages, r);
      assert Matches(requests[i].store, q, r);
    }
  }

  // ---- Reading while others write ----

  ghost predicate AllEncodable(rs: seq<AuditRecord>) {
    forall r :: r in rs ==> Encodable(KeyOf(r))
  }

  lemma {:induction false} InsertAllStaysKeyed(s: Store, rs: seq<AuditRecord>)
    requires Keyed(s) && AllEncodable(rs)
    ensures Keyed(InsertAll(s, rs))
  {
    hide Encodable;
    if rs != [] {
      InsertAllStaysKeyed(s, rs[..|rs| - 1]);
    }
  }

  /** Each request sees the store after some of the writes, later requests after at least as many. */
  ghost predicate ReadsDuring(base: Store, ws: seq<Write>, requests: seq<Read>, moments: seq<nat>) {
    && |moments| == |requests|
    && (forall i :: 0 <= i < |requests| ==>
          moments[i] <= |ws| && requests[i].limit > 0 && requests[i].store == ApplyWrites(base, ws[..moments[i]]))
    && (forall i, j :: 0 <= i <= j < |requests| ==> moments[i] <= moments[j])
  }

  lemma MomentIsKeyed(base: Store, ws: seq<Write>, m: nat)
    requires Keyed(base) && AllEncodable(Offered(ws)) && m <= |ws|
    ensures Keyed(ApplyWrites(base, ws[..m]))
  {
    hide Encodable, InsertAll, Offered, ApplyWrites, Keyed;
    WritesAreInsertAll(base, ws[..m]);
    OfferedAppend(ws[..m], ws[m..]);
    assert ws == ws[..m] + ws[m..];
    InsertAllStaysKeyed(base, Offered(ws[..m]));
  }

  lemma MomentsGrow(base: Store, ws: seq<Write>, m: nat, n: nat)
    requires AllKeysFree(base, Offered(ws)) && m <= n <= |ws|
    ensures Extends(ApplyWrites(base, ws[..m]).records, ApplyWrites(base, ws[..n]).records)
  {
    hide InsertAll, Offered, ApplyWrites, AllKeysFree, Extends;
    var all, late, early := Offered(ws), Offered(ws[..n]), Offered(ws[..m]);
    WritesAreInsertAll(base, ws[..n]);
    WritesAreInsertAll(base, ws[..m]);
    OfferedAppend(ws[..n], ws[n..]);
    OfferedAppend(ws[..m], ws[m..n]);
    assert ws == ws[..n] + ws[n..] && ws[..n] == ws[..m] + ws[m..n];
    assert all[..|late|] == late && late[..|early|] == early;
    KeysFreeBetween(base, all, |late|);
    KeysFreeBetween(base, late, |early|);
  }

  lemma WritesAreSoundReads(base: Store, ws: seq<Write>, requests: seq<Read>, moments: seq<nat>)
    requires Keyed(base) && AllEncodable(Offered(ws)) && ReadsDuring(base, ws, requests, moments)
    ensures SoundReads(requests)
  {
    hide Keyed, AllEncodable, Offered, ApplyWrites;
    forall i | 0 <= i < |requests| ensures Keyed(requests[i].store) && requests[i].limit > 0 {
      MomentIsKeyed(base, ws, moments[i]);
    }
  }

  lemma WritesGrowReads(base: Store, ws: seq<Write>, requests: seq<Read>, moments: seq<nat>)
    requires Keyed(base) && AllEncodable(Offered(ws)) && AllKeysFree(base, Offered(ws))
    requires ReadsDuring(base, ws, requests, moments)
    ensures GrowingReads(requests)
  {
    hide Keyed, AllEncodable, AllKeysFree, Offered, ApplyWrites, Extends;
    WritesAreSoundReads(base, ws, requests, moments);
    forall i, j | 0 <= i <= j < |requests| ensures Extends(requests[i].store.records, requests[j].store.records) {
      MomentsGrow(base, ws, moments[i], moments[j]);
    }
  }

  /**
   A reading that goes on while any inserts and batches arrive, under any page sizes, serves each record
   at most once and in history order. When no write replaces a record at its position it also serves
   every match there was when it began, and nothing but matches of the store at its end.
   */
  lemma ReadingSurvivesWrites(
    q: AuditQuery, base: Store, ws: seq<Write>, requests: seq<Read>, moments: seq<nat>, pages: seq<Page<AuditRecord>>)
    requires Keyed(base) && AllEncodable(Offered(ws))
    requires ReadsDuring(base, ws, requests, moments) && ReadThrough(q, requests, pages, None)
    ensures Increasing(KEY, HistoryOrder(q.sort), Served(pages))
    ensures forall i, j :: 0 <= i < j < |Served(pages)| ==> Served(pages)[i] != Served(pages)[j]
    ensures AllKeysFree(base, Offered(ws)) ==>
      && (forall r :: Matches(ApplyWrites(base, ws[..moments[0]]), q, r) ==> r in Served(pages))
      && (forall r :: r in Served(pages) ==> Matches(ApplyWrites(base, ws[..moments[|moments| - 1]]), q, r))
  {
    hide Keyed, AllEncodable, AllKeysFree, Offered, ApplyWrites, Matches, Increasing, Query, Served;
    WritesAreSoundReads(base, ws, requests, moments);
    ReadingServes(q, requests, pages);
    if AllKeysFree(base, Offered(ws)) {
      WritesGrowReads(base, ws, requests, moments);
      ReadingSurvivesInserts(q, requests, pages);
    }
  }

  // ---- A record replaced during a reading ----

  /** A store with just two records, in key order. */
  ghost predicate Holds2(s: Store, a: AuditRecord, b: AuditRecord) {
    s.records == map[KeyOf(a) := a, KeyOf(b) := b] && Before(KeyOf(a), KeyOf(b))
  }

  const EVERYTHING := AuditQuery(_ => true, Ascending)

  lemma TwoResults(s: Store, a: AuditRecord, b: AuditRecord)
    requires Keyed(s) && Holds2(s, a, b)
    ensures Results(s, EVERYTHING) == [a, b]
  {
    hide Results, Encodable, KeyOf;
    BeforeTrichotomy(KeyOf(a), KeyOf(b));
    ResultsAreTheMatches(s, EVERYTHING);
    var rs := Results(s, EVERYTHING);
    assert Matches(s, EVERYTHING, a) && Matches(s, EVERYTHING, b);
    TwoInOrder(rs, a, b);
  }

  lemma TwoInOrder(rs: seq<AuditRecord>, a: AuditRecord, b: AuditRecord)
    requires Increasing(KEY, HistoryOrder(Ascending), rs) && Before(KeyOf(a), KeyOf(b))
    requires a in rs && b in rs && forall r :: r in rs ==> r == a || r == b
    ensures rs == [a, b]
  {
    hide KeyOf, Before;
    HistoryOrderIsStrict(Ascending);
    IncreasingHasNoRepeats(HistoryOrder(Ascending), rs);
    var i :| 0 <= i < |rs| && rs[i] == a;
    var j :| 0 <= j < |rs| && rs[j] == b;
    assert HistoryOrder(Ascending)(KEY(a), KEY(b));
    assert i < j;
    assert rs[0] in rs && rs[j - 1] in rs && rs[|rs| - 1] in rs;
  }

  /** The page of one that starts at the first of two records. */
  lemma FirstPage(s: Store, a: AuditRecord, b: AuditRecord)
    requires Keyed(s) && Holds2(s, a, b)
    ensures Query(s, EVERYTHING, 1, None) == Ok(Page([a], Some(ToCursor(KeyOf(a)))))
  {
    hide Results, ToCursor, FromCursor, KeyOf, Before, Encodable, Lossless, Request;
    TwoResults(s, a, b);
    CursorsAreLossless();
    assert GoodKeys(CURSORS, KEY, [a, b]);
    RequestAt(CURSORS, KEY, HistoryOrder(Ascending), [a, b], 1, None);
    assert [a, b][0..1] == [a];
  }

  /** The page of one that resumes after the first of two records. */
  lemma SecondPage(t: Store, a: AuditRecord, c: AuditRecord)
    requires Keyed(t) && Holds2(t, a, c)
    ensures Query(t, EVERYTHING, 1, Some(ToCursor(KeyOf(a)))) == Ok(Page([c], None))
  {
    hide Results, ToCursor, FromCursor, KeyOf, Before, Encodable, Lossless, Request;
    TwoResults(t, a, c);
    HistoryOrderIsStrict(Ascending);
    CursorsAreLossless();
    assert GoodKeys(CURSORS, KEY, [a, c]);
    assert CURSORS.Good(Some(KEY(a)));
    RequestAt(CURSORS, KEY, HistoryOrder(Ascending), [a, c], 1, Some(KEY(a)));
    Resume(KEY, HistoryOrder(Ascending), [a, c], 1);
    assert [a, c][1..2] == [c];
  }

  /** A reading of two pages of one, over a second record that changed in between. */
  lemma TwoPages(s: Store, t: Store, a: AuditRecord, b: AuditRecord, c: AuditRecord)
    requires Keyed(s) && Holds2(s, a, b) && Keyed(t) && Holds2(t, a, c)
    ensures
      var pages := [Page([a], Some(ToCursor(KeyOf(a)))), Page([c], None)];
      ReadThrough(EVERYTHING, [Read(s, 1), Read(t, 1)], pages, None) && Served(pages) == [a, c]
  {
    hide ToCursor, KeyOf, Query, Keyed, Holds2;
    FirstPage(s, a, b);
    SecondPage(t, a, c);
    var cursor := Some(ToCursor(KeyOf(a)));
    var requests, pages := [Read(s, 1), Read(t, 1)], [Page([a], cursor), Page([c], None)];
    assert requests[1..] == [Read(t, 1)] && pages[1..] == [Page([c], None)] && pages[1..][1..] == [];
    assert ReadThrough(EVERYTHING, requests[1..], pages[1..], cursor);
    assert Served(pages[1..]) == [c];
  }

  lemma SampleKeys(event: EventId, record: RecordId)
    ensures KeyOf(Sample(event, record)) == PositionKey(None, None, None, 0, record)
  {
  }

  lemma SampleIdsEncode()
    ensures Encodable(PositionKey(None, None, None, 0, "rec_0a"))
    ensures Encodable(PositionKey(None, None, None, 0, "rec_0b"))
    ensures Before(PositionKey(None, None, None, 0, "rec_0a"), PositionKey(None, None, None, 0, "rec_0b"))
  {
    assert "rec_0a"[..4] == "rec_" && "rec_0b"[..4] == "rec_";
    CursorIsAccepted(PositionKey(None, None, None, 0, "rec_0a"));
    CursorIsAccepted(PositionKey(None, None, None, 0, "rec_0b"));
    LexPrefix("rec_0", "a", "b");
    assert "rec_0" + "a" == "rec_0a" && "rec_0" + "b" == "rec_0b";
  }

  lemma SampleStores(first: AuditRecord, second: AuditRecord, third: AuditRecord)
    requires first == Sample("evt_1", "rec_0a")
    requires second == Sample("evt_2", "rec_0b") && third == Sample("evt_3", "rec_0b")
    ensures
      var s := InsertRecord(InsertRecord(EMPTY, first), second);
      var t := InsertRecord(s, third);
      && Keyed(s) && Holds2(s, first, second) && Keyed(t) && Holds2(t, first, third)
      && first != second && third != second
  {
    SampleKeys("evt_1", "rec_0a");
    SampleKeys("evt_2", "rec_0b");
    SampleKeys("evt_3", "rec_0b");
    SampleIdsEncode();
    hide Sample, KeyOf, Encodable, Before;
    assert "evt_1"[4] != "evt_2"[4] && "evt_1"[4] != "evt_3"[4] && "evt_2"[4] != "evt_3"[4];
    assert "rec_0a"[5] != "rec_0b"[5];
  }

  /**
   One insert that takes a whole position: the record it replaces matched when the reading began and is
   never served.
   */
  lemma ReplacedRecordIsMissed()
    ensures
      var first, second, third := Sample("evt_1", "rec_0a"), Sample("evt_2", "rec_0b"), Sample("evt_3", "rec_0b");
      var s := InsertRecord(InsertRecord(EMPTY, first), second);
      var t := InsertRecord(s, third);
      && Matches(s, EVERYTHING, second)
      && exists pages :: ReadThrough(EVERYTHING, [Read(s, 1), Read(t, 1)], pages, None) && second !in Served(pages)
  {
    hide Sample, ToCursor, KeyOf, Encodable, Before, ReadThrough, InsertRecord, Keyed, Served;
    var first, second, third := Sample("evt_1", "rec_0a"), Sample("evt_2", "rec_0b"), Sample("evt_3", "rec_0b");
    var s := InsertRecord(InsertRecord(EMPTY, first), second);
    SampleStores(first, second, third);
    TwoPages(s, InsertRecord(s, third), first, second, third);
  }

  lemma SameRequest(s: Store, q: AuditQuery, limit: nat, requests: seq<Read>, visits: seq<Visit<AuditRecord>>)
    requires |requests| == |visits|
    requires forall i :: 0 <= i < |requests| ==> requests[i] == Read(s, limit)
    requires forall v :: v in visits ==> v == Visit(Results(s, q), limit)
    ensures VisitsOf(q, requests) == visits
  {
    forall i | 0 <= i < |visits| ensures VisitsOf(q, requests)[i] == visits[i] {
      assert visits[i] in visits;
    }
  }

  /** A request is refused exactly when it carries a cursor that does not decode. */
  lemma QueryRefusedIff(s: Store, q: AuditQuery, limit: nat, cursor: Option<string>)
    ensures Query(s, q, limit, cursor).Err? <==> cursor.Some? && FromCursor(cursor.value).None?
    ensures Query(s, q, limit, cursor).Err? ==> Query(s, q, limit, cursor).error == InvalidCursor
  {
    hide Results, FromCursor;
  }

  /** A page holds at most as many records as asked for, and exactly as many when it promises more. */
  lemma PageIsFull(s: Store, q: AuditQuery, limit: nat, cursor: Option<string>)
    requires Query(s, q, limit, cursor).Ok?
    ensures
      var page := Query(s, q, limit, cursor).value;
      |page.items| <= limit && (page.nextCursor.Some? ==> |page.items| == limit)
  {
    hide Results;
  }

  /**
   Over an unchanging store, for any query, direction and page size, following the cursors
   ends after finitely many pages and yields exactly the plain filtered list.
   */
  lemma PagingYieldsTheFilter(s: Store, q: AuditQuery, limit: nat)
    returns (requests: seq<Read>, pages: seq<Page<AuditRecord>>)
    requires Keyed(s) && limit > 0
    ensures forall r :: r in requests ==> r == Read(s, limit)
    ensures |pages| <= |Results(s, q)| + 1
    ensures ReadThrough(q, requests, pages, None)
    ensures Served(pages) == Results(s, q)
  {
    hide Results, ReadThrough, Session, Served, Lossless, Keyed;
    HistoryOrderIsStrict(q.sort);
    CursorsAreLossless();
    ResultsAreTheMatches(s, q);
    var visits, ps := SessionExists(CURSORS, KEY, HistoryOrder(q.sort), Results(s, q), limit, None);
    pages := ps;
    requests := seq(|visits|, i => Read(s, limit));
    SameRequest(s, q, limit, requests, visits);
    ReadThroughIsSession(q, requests, pages, None);
  }
}
