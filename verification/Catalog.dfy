/** The error-code allocator: merging scanned variants with the codes already recorded. */
module Catalog {
  import opened Wrappers

  const CODE_BASE := 1000
  const CODE_BLOCK_SIZE := 100

  const TAXONOMY: seq<string> := [
    "AuditError", "AuthorizationError", "DecryptionError", "EventError", "EvidenceError", "IndexerError",
    "IntegrityError", "InvestigationError", "NormalizerError", "PermissionReason", "ReportingError", "RpcError",
    "SourceError", "StoreError"]

  /** A variant found in the sources, with its explicit discriminant if it declares one. */
  datatype Scanned = Scanned(variant: string, discriminant: Option<int>, kind: string, path: string)

  datatype Entry = Entry(
    id: string, code: Option<int>, enumName: string, variant: string, kind: string, path: string, summary: string)

  datatype Catalog = Catalog(version: int, codes: seq<Entry>, retired: seq<Entry>)

  /** A discriminant that another variant's recorded code already uses. */
  datatype Clash = Clash(enumName: string, variant: string, code: int)

  type Symbols = (string, string) -> string

  function Position(names: seq<string>, name: string): (k: nat)
    requires name in names
    ensures k < |names| && names[k] == name
  {
    if names[0] == name then 0 else 1 + Position(names[1..], name)
  }

  function Block(enumName: string): int
    requires enumName in TAXONOMY
  {
    CODE_BASE + Position(TAXONOMY, enumName) * CODE_BLOCK_SIZE
  }

  /** The recorded entry of a variant; among repeated ones the last. */
  function Prior(codes: seq<Entry>, enumName: string, variant: string): (e: Option<Entry>)
    ensures e.Some? ==> e.value in codes && e.value.enumName == enumName && e.value.variant == variant
  {
    if codes == [] then None
    else
      var last := codes[|codes| - 1];
      if last.enumName == enumName && last.variant == variant then Some(last)
      else Prior(codes[..|codes| - 1], enumName, variant)
  }

  function Used(codes: seq<Entry>): set<int> {
    set e | e in codes && e.code.Some? :: e.code.value
  }

  // ---- The allocator's specification: one fold over the scanned variants in order ----

  datatype Item = Item(enumName: string, scanned: Scanned)

  /** The work so far; `next` holds the next candidate of each enum that has been started. */
  datatype Draft = Draft(used: set<int>, next: map<string, int>, codes: seq<Entry>, notes: seq<Clash>)

  function Next(d: Draft, enumName: string): int
    requires enumName in TAXONOMY
  {
    if enumName in d.next then d.next[enumName] else Block(enumName) + 1
  }

  function FirstFree(used: set<int>, n: int): (free: int)
    ensures n <= free && free !in used && forall x :: n <= x < free ==> x in used
    decreases |set x | x in used && x >= n|
  {
    if n !in used then n
    else
      assert (set x | x in used && x >= n) == (set x | x in used && x >= n + 1) + {n};
      FirstFree(used, n + 1)
  }

  function Carried(prior: Entry, s: Scanned): Entry {
    prior.(kind := s.kind, path := s.path)
  }

  function Issue(symbol: Symbols, item: Item, code: int): Entry {
    var s := item.scanned;
    Entry(symbol(item.enumName, s.variant), Some(code), item.enumName, s.variant, s.kind, s.path, "")
  }

  function Declare(symbol: Symbols, d: Draft, item: Item, code: int): Draft {
    var notes := if code in d.used then d.notes + [Clash(item.enumName, item.scanned.variant, code)] else d.notes;
    Draft(d.used + {code}, d.next, d.codes + [Issue(symbol, item, code)], notes)
  }

  function Allocate(symbol: Symbols, d: Draft, item: Item): Result<Draft, string>
    requires item.enumName in TAXONOMY
  {
    var code := FirstFree(d.used, Next(d, item.enumName));
    if code >= Block(item.enumName) + CODE_BLOCK_SIZE then Err(item.enumName)
    else Ok(Draft(d.used + {code}, d.next[item.enumName := code + 1], d.codes + [Issue(symbol, item, code)], d.notes))
  }

  function Step(symbol: Symbols, recorded: seq<Entry>, d: Draft, item: Item): Result<Draft, string>
    requires item.enumName in TAXONOMY
  {
    var prior := Prior(recorded, item.enumName, item.scanned.variant);
    if prior.Some? then Ok(d.(codes := d.codes + [Carried(prior.value, item.scanned)]))
    else if item.scanned.discriminant.Some? then Ok(Declare(symbol, d, item, item.scanned.discriminant.value))
    else Allocate(symbol, d, item)
  }

  ghost predicate InTaxonomy(items: seq<Item>) {
    forall i :: 0 <= i < |items| ==> items[i].enumName in TAXONOMY
  }

  function Fold(symbol: Symbols, recorded: seq<Entry>, items: seq<Item>): Result<Draft, string>
    requires InTaxonomy(items)
  {
    if items == [] then Ok(Draft(Used(recorded), map[], [], []))
    else
      match Fold(symbol, recorded, items[..|items| - 1])
      case Err(e) => Err(e)
      case Ok(d) => Step(symbol, recorded, d, items[|items| - 1])
  }

  function ItemsOf(enumName: string, entries: seq<Scanned>): seq<Item> {
    seq(|entries|, i requires 0 <= i < |entries| => Item(enumName, entries[i]))
  }

  /** The scanned variants of the first `k` taxonomy enums, in taxonomy and then declaration order. */
  function Items(scanned: map<string, seq<Scanned>>, k: nat): (items: seq<Item>)
    requires k <= |TAXONOMY|
    ensures forall i :: 0 <= i < |items| ==> items[i].enumName in TAXONOMY[..k]
  {
    if k == 0 then []
    else
      Items(scanned, k - 1) + if TAXONOMY[k - 1] in scanned then ItemsOf(TAXONOMY[k - 1], scanned[TAXONOMY[k - 1]])
        else []
  }

  function Build(
    symbol: Symbols, scanned: map<string, seq<Scanned>>, previous: Catalog): Result<(Catalog, seq<Clash>), string>
  {
    match Fold(symbol, previous.codes, Items(scanned, |TAXONOMY|))
    case Err(e) => Err(e)
    case Ok(d) => Ok((Catalog(previous.version, d.codes, previous.retired), d.notes))
  }

  // ---- The allocator ----

  lemma {:induction false} FailurePersists(symbol: Symbols, recorded: seq<Entry>, items: seq<Item>, more: seq<Item>)
    requires InTaxonomy(items + more) && InTaxonomy(items) && Fold(symbol, recorded, items).Err?
    ensures Fold(symbol, recorded, items + more) == Fold(symbol, recorded, items)
  {
    if more == [] {
      assert items + more == items;
    } else {
      hide Step;
      assert (items + more)[..|items + more| - 1] == items + more[..|more| - 1];
      FailurePersists(symbol, recorded, items, more[..|more| - 1]);
    }
  }

  lemma FoldStep(symbol: Symbols, recorded: seq<Entry>, items: seq<Item>, item: Item)
    requires InTaxonomy(items) && item.enumName in TAXONOMY && Fold(symbol, recorded, items).Ok?
    ensures InTaxonomy(items + [item])
    ensures Fold(symbol, recorded, items + [item]) == Step(symbol, recorded, Fold(symbol, recorded, items).value, item)
  {
    hide Step;
    assert (items + [item])[..|items|] == items;
  }

  /** Skips the numbers already in use. */
  method SkipUsed(used: set<int>, start: int) returns (free: int)
    ensures free == FirstFree(used, start)
  {
    free := start;
    while free in used
      invariant FirstFree(used, free) == FirstFree(used, start)
      decreases |set x | x in used && x >= free|
    {
      assert (set x | x in used && x >= free) == (set x | x in used && x >= free + 1) + {free};
      free := free + 1;
    }
  }

  lemma {:induction false} ItemsSplit(scanned: map<string, seq<Scanned>>, k: nat, m: nat) returns (more: seq<Item>)
    requires k <= m <= |TAXONOMY|
    ensures Items(scanned, m) == Items(scanned, k) + more
  {
    more := [];
    if k < m {
      var front := ItemsSplit(scanned, k, m - 1);
      more := front + if TAXONOMY[m - 1] in scanned then ItemsOf(TAXONOMY[m - 1], scanned[TAXONOMY[m - 1]]) else [];
    }
  }

  lemma TaxonomyDistinct()
    ensures forall i, j :: 0 <= i < j < |TAXONOMY| ==> TAXONOMY[i] != TAXONOMY[j]
  {
  }

  lemma {:induction false} PositionOf(names: seq<string>, k: nat)
    requires k < |names| && forall i, j :: 0 <= i < j < |names| ==> names[i] != names[j]
    ensures Position(names, names[k]) == k
  {
    if k > 0 {
      PositionOf(names[1..], k - 1);
    }
  }

  /** Blocks of a hundred from 1000 on, in taxonomy order. */
  lemma BlockOf(k: nat)
    requires k < |TAXONOMY|
    ensures Block(TAXONOMY[k]) == 1000 + 100 * k
  {
    TaxonomyDistinct();
    hide TAXONOMY;
    PositionOf(TAXONOMY, k);
  }

  /**
   The recorded entry of a variant is the last one with its enum and name, and there is none only if
   there is no such.
   */
  lemma {:induction false} PriorIsLast(codes: seq<Entry>, enumName: string, variant: string)
    ensures Prior(codes, enumName, variant).None? ==>
              forall i :: 0 <= i < |codes| ==> !EntryOf(codes[i], enumName, variant)
    ensures Prior(codes, enumName, variant).Some? ==>
      exists i :: 0 <= i < |codes| && codes[i] == Prior(codes, enumName, variant).value
        && EntryOf(codes[i], enumName, variant) && forall j :: i < j < |codes| ==> !EntryOf(codes[j], enumName, variant)
  {
    if codes != [] {
      var n := |codes| - 1;
      var init := codes[..n];
      if !EntryOf(codes[n], enumName, variant) {
        PriorIsLast(init, enumName, variant);
        assert Prior(codes, enumName, variant) == Prior(init, enumName, variant);
        hide EntryOf, Prior;
        if Prior(init, enumName, variant).Some? {
          var i :| 0 <= i < n && init[i] == Prior(init, enumName, variant).value
            && EntryOf(init[i], enumName, variant) && forall j :: i < j < n ==> !EntryOf(init[j], enumName, variant);
          forall j | i < j < |codes| ensures !EntryOf(codes[j], enumName, variant) {
            assert j < n ==> codes[j] == init[j];
          }
          assert codes[i] == init[i];
        } else {
          forall i | 0 <= i < |codes| ensures !EntryOf(codes[i], enumName, variant) {
            assert i < n ==> codes[i] == init[i];
          }
        }
      }
    }
  }

  predicate EntryOf(e: Entry, enumName: string, variant: string) {
    e.enumName == enumName && e.variant == variant
  }

  lemma ItemsOfStart(enumName: string, entries: seq<Scanned>, done: seq<Item>)
    ensures done + ItemsOf(enumName, entries[..0]) == done
  {
  }

  lemma ItemsOfStep(enumName: string, entries: seq<Scanned>, i: nat, done: seq<Item>)
    requires i < |entries|
    ensures done + ItemsOf(enumName, entries[..i + 1])
            == done + ItemsOf(enumName, entries[..i]) + [Item(enumName, entries[i])]
  {
  }

  /** A failure while allocating for one enum is a failure of the whole build. */
  lemma FailureIsFinal(symbol: Symbols, scanned: map<string, seq<Scanned>>, previous: Catalog, k: nat, i: nat)
    requires k < |TAXONOMY| && TAXONOMY[k] in scanned && i <= |scanned[TAXONOMY[k]]|
    requires
      var items := Items(scanned, k) + ItemsOf(TAXONOMY[k], scanned[TAXONOMY[k]][..i]);
      InTaxonomy(items) && Fold(symbol, previous.codes, items) == Err(TAXONOMY[k])
    ensures Build(symbol, scanned, previous) == Err(TAXONOMY[k])
  {
    hide Fold, TAXONOMY, Items, ItemsOf, InTaxonomy;
    var entries := scanned[TAXONOMY[k]];
    var items, rest := Items(scanned, k) + ItemsOf(TAXONOMY[k], entries[..i]), ItemsOf(TAXONOMY[k], entries[i..]);
    ItemsOfSplits(TAXONOMY[k], entries, i);
    ItemsNext(scanned, k);
    var more := ItemsSplit(scanned, k + 1, |TAXONOMY|);
    Regrouped(Items(scanned, k), ItemsOf(TAXONOMY[k], entries[..i]), rest, more);
    ItemsInTaxonomy(scanned);
    FailurePersists(symbol, previous.codes, items, rest + more);
  }

  lemma Regrouped<T>(a: seq<T>, b: seq<T>, c: seq<T>, d: seq<T>)
    ensures a + (b + c) + d == (a + b) + (c + d)
  {
  }

  lemma ItemsInTaxonomy(scanned: map<string, seq<Scanned>>)
    ensures InTaxonomy(Items(scanned, |TAXONOMY|))
  {
    hide Items, TAXONOMY;
    assert TAXONOMY[..|TAXONOMY|] == TAXONOMY;
  }

  lemma ItemsOfSplits(enumName: string, entries: seq<Scanned>, i: nat)
    requires i <= |entries|
    ensures ItemsOf(enumName, entries) == ItemsOf(enumName, entries[..i]) + ItemsOf(enumName, entries[i..])
  {
  }

  lemma ItemsNext(scanned: map<string, seq<Scanned>>, k: nat)
    requires k < |TAXONOMY|
    ensures Items(scanned, k + 1)
            == if TAXONOMY[k] in scanned then Items(scanned, k) + ItemsOf(TAXONOMY[k], scanned[TAXONOMY[k]])
              else Items(scanned, k)
  {
    hide TAXONOMY;
  }

  /** One scanned variant: carry its recorded entry over, take its discriminant, or issue the next unused number. */
  method PlaceVariant(
    symbol: Symbols, recorded: seq<Entry>, item: Item, nextFree: int,
    used: set<int>, codes: seq<Entry>, notes: seq<Clash>, ghost next: map<string, int>)
    returns (ok: bool, nextFree': int, used': set<int>, codes': seq<Entry>, notes': seq<Clash>,
      ghost next': map<string, int>)
    requires item.enumName in TAXONOMY && nextFree == Next(Draft(used, next, codes, notes), item.enumName)
    ensures Step(symbol, recorded, Draft(used, next, codes, notes), item)
            == if ok then Ok(Draft(used', next', codes', notes')) else Err(item.enumName)
    ensures ok ==> nextFree' == Next(Draft(used', next', codes', notes'), item.enumName)
    ensures next'.Keys <= next.Keys + {item.enumName}
  {
    hide TAXONOMY, FirstFree, Prior, Block;
    var name, s := item.enumName, item.scanned;
    ok, nextFree', used', codes', notes', next' := true, nextFree, used, codes, notes, next;
    var prior := Prior(recorded, name, s.variant);
    if prior.Some? {
      codes' := codes + [Carried(prior.value, s)];
      return;
    }
    var code;
    if s.discriminant.Some? {
      code := s.discriminant.value;
      if code in used {
        notes' := notes + [Clash(name, s.variant, code)];
      }
    } else {
      code := SkipUsed(used, nextFree);
      if code >= Block(name) + CODE_BLOCK_SIZE {
        ok := false;
        return;
      }
      nextFree' := code + 1;
      next' := next[name := nextFree'];
    }
    used' := used + {code};
    codes' := codes + [Entry(symbol(name, s.variant), Some(code), name, s.variant, s.kind, s.path, "")];
  }

  /** The variants of one enum, in declaration order, from the first number of its block. */
  method PlaceEnum(
    symbol: Symbols, scanned: map<string, seq<Scanned>>, previous: Catalog, k: nat,
    used: set<int>, codes: seq<Entry>, notes: seq<Clash>, ghost next: map<string, int>)
    returns (ok: bool, used': set<int>, codes': seq<Entry>, notes': seq<Clash>, ghost next': map<string, int>)
    requires k < |TAXONOMY| && TAXONOMY[k] in scanned && InTaxonomy(Items(scanned, k))
    requires Fold(symbol, previous.codes, Items(scanned, k)) == Ok(Draft(used, next, codes, notes))
    requires forall name :: name in next ==> name in TAXONOMY[..k]
    ensures ok ==>
      && InTaxonomy(Items(scanned, k + 1))
      && Fold(symbol, previous.codes, Items(scanned, k + 1)) == Ok(Draft(used', next', codes', notes'))
      && forall name :: name in next' ==> name in TAXONOMY[..k + 1]
    ensures !ok ==> Build(symbol, scanned, previous) == Err(TAXONOMY[k])
  {
    hide Fold, Step, Build, Block, TAXONOMY, Items, ItemsOf, InTaxonomy;
    var name := TAXONOMY[k];
    var entries := scanned[name];
    var nextFree := Block(name) + 1;
    ok, used', codes', notes', next' := true, used, codes, notes, next;
    ghost var done := Items(scanned, k);
    ItemsOfStart(name, entries, done);
    NotStarted(k);
    for i := 0 to |entries|
      invariant InTaxonomy(done + ItemsOf(name, entries[..i]))
      invariant
        Fold(symbol, previous.codes, done + ItemsOf(name, entries[..i])) == Ok(Draft(used', next', codes', notes'))
      invariant ok && nextFree == Next(Draft(used', next', codes', notes'), name)
      invariant forall other :: other in next' ==> other in TAXONOMY[..k + 1]
    {
      ItemsOfStep(name, entries, i, done);
      FoldStep(symbol, previous.codes, done + ItemsOf(name, entries[..i]), Item(name, entries[i]));
      ok, nextFree, used', codes', notes', next' :=
        PlaceVariant(symbol, previous.codes, Item(name, entries[i]), nextFree, used', codes', notes', next');
      if !ok {
        FailureIsFinal(symbol, scanned, previous, k, i + 1);
        return;
      }
    }
    ItemsNext(scanned, k);
    assert entries[..|entries|] == entries;
  }

  /** Merges the scanned variants with the previous catalog, enum by enum and variant by variant. */
  method BuildCatalog(symbol: Symbols, scanned: map<string, seq<Scanned>>, previous: Catalog)
    returns (result: Result<(Catalog, seq<Clash>), string>)
    ensures result == Build(symbol, scanned, previous)
  {
    hide Fold, TAXONOMY, Items, InTaxonomy, Used;
    var used, codes, notes := Used(previous.codes), [], [];
    ghost var next: map<string, int> := map[];
    EmptyFold(symbol, previous.codes, scanned);
    for k := 0 to |TAXONOMY|
      invariant InTaxonomy(Items(scanned, k))
      invariant Fold(symbol, previous.codes, Items(scanned, k)) == Ok(Draft(used, next, codes, notes))
      invariant forall name :: name in next ==> name in TAXONOMY[..k]
    {
      if TAXONOMY[k] in scanned {
        var ok;
        ok, used, codes, notes, next := PlaceEnum(symbol, scanned, previous, k, used, codes, notes, next);
        if !ok {
          return Err(TAXONOMY[k]);
        }
      } else {
        ItemsNext(scanned, k);
      }
    }
    return Ok((Catalog(previous.version, codes, previous.retired), notes));
  }

  lemma EmptyFold(symbol: Symbols, recorded: seq<Entry>, scanned: map<string, seq<Scanned>>)
    ensures Items(scanned, 0) == [] && InTaxonomy([])
    ensures Fold(symbol, recorded, []) == Ok(Draft(Used(recorded), map[], [], []))
  {
  }

  lemma NotStarted(k: nat)
    requires k < |TAXONOMY|
    ensures TAXONOMY[k] !in TAXONOMY[..k]
  {
    TaxonomyDistinct();
  }
}
