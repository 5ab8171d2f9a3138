/** What a catalog build guarantees about codes: which survive, which are issued, and when a build fails. */
module CodeAllocation {
  import opened Wrappers
  import opened Catalog

  // ---- Blocks ----

  predicate InBlock(name: string, x: int)
    requires name in TAXONOMY
  {
    Block(name) < x < Block(name) + CODE_BLOCK_SIZE
  }

  lemma BlocksDisjoint(a: string, b: string, x: int)
    requires a in TAXONOMY && b in TAXONOMY && InBlock(a, x) && InBlock(b, x)
    ensures a == b
  {
    hide TAXONOMY;
    var i, j := Position(TAXONOMY, a), Position(TAXONOMY, b);
    assert i == j;
  }

  predicate BlockFull(used: set<int>, name: string)
    requires name in TAXONOMY
  {
    forall x :: Block(name) < x < Block(name) + CODE_BLOCK_SIZE ==> x in used
  }

  // ---- The rule each variant's code follows ----

  predicate IsNew(recorded: seq<Entry>, item: Item) {
    Prior(recorded, item.enumName, item.scanned.variant).None?
  }

  /** Neither recorded nor declared: a number has to be found. */
  predicate NeedsCode(recorded: seq<Entry>, item: Item) {
    IsNew(recorded, item) && item.scanned.discriminant.None?
  }

  /** The numbers taken once `codes` are listed: those of the previous catalog, dropped entries included, and theirs. */
  function InUse(recorded: seq<Entry>, codes: seq<Entry>): set<int> {
    Used(recorded) + Used(codes)
  }

  ghost predicate LeastFree(used: set<int>, name: string, c: int)
    requires name in TAXONOMY
  {
    InBlock(name, c) && c !in used && forall x :: Block(name) < x < c ==> x in used
  }

  /**
   A survivor keeps its recorded entry, a declared variant its discriminant, and any other gets the least
   number of its enum's block that is not in use when its turn comes.
   */
  ghost predicate Assigned(symbol: Symbols, recorded: seq<Entry>, taken: seq<Entry>, item: Item, e: Entry)
    requires item.enumName in TAXONOMY
  {
    var prior := Prior(recorded, item.enumName, item.scanned.variant);
    if prior.Some? then e == Carried(prior.value, item.scanned)
    else if item.scanned.discriminant.Some? then e == Issue(symbol, item, item.scanned.discriminant.value)
    else
      && e.code.Some? && e == Issue(symbol, item, e.code.value)
      && LeastFree(InUse(recorded, taken), item.enumName, e.code.value)
  }

  ghost predicate AllAssigned(symbol: Symbols, recorded: seq<Entry>, items: seq<Item>, codes: seq<Entry>)
    requires InTaxonomy(items)
  {
    |codes| == |items| && forall m :: 0 <= m < |items| ==> Assigned(symbol, recorded, codes[..m], items[m], codes[m])
  }

  /** The clash a declared variant causes when its discriminant is in use. */
  function ClashAt(recorded: seq<Entry>, taken: seq<Entry>, item: Item): seq<Clash> {
    if IsNew(recorded, item) && item.scanned.discriminant.Some?
       && item.scanned.discriminant.value in InUse(recorded, taken)
    then [Clash(item.enumName, item.scanned.variant, item.scanned.discriminant.value)]
    else []
  }

  function Clashes(recorded: seq<Entry>, items: seq<Item>, codes: seq<Entry>): seq<Clash>
    requires |codes| == |items|
  {
    if items == [] then []
    else
      var n := |items| - 1;
      Clashes(recorded, items[..n], codes[..n]) + ClashAt(recorded, codes[..n], items[n])
  }

  // ---- What the fold maintains ----

  /** Everything of an enum's block below its candidate is in use. */
  ghost predicate Passed(d: Draft, name: string)
    requires name in TAXONOMY
  {
    && Block(name) < Next(d, name) <= Block(name) + CODE_BLOCK_SIZE
    && forall x :: Block(name) < x < Next(d, name) ==> x in d.used
  }

  ghost predicate Orderly(recorded: seq<Entry>, items: seq<Item>, d: Draft) {
    && d.used == InUse(recorded, d.codes)
    && |d.codes| == |items| && d.notes == Clashes(recorded, items, d.codes)
    && forall name :: name in TAXONOMY ==> Passed(d, name)
  }

  lemma UsedAppend(codes: seq<Entry>, e: Entry)
    ensures Used(codes + [e]) == Used(codes) + if e.code.Some? then {e.code.value} else {}
  {
  }

  lemma ClashesAppend(recorded: seq<Entry>, items: seq<Item>, codes: seq<Entry>, item: Item, e: Entry)
    requires |codes| == |items|
    ensures Clashes(recorded, items + [item], codes + [e])
            == Clashes(recorded, items, codes) + ClashAt(recorded, codes, item)
  {
    hide ClashAt;
    assert (items + [item])[..|items|] == items && (codes + [e])[..|codes|] == codes;
  }

  lemma AllAssignedGrows(
    symbol: Symbols, recorded: seq<Entry>, items: seq<Item>, codes: seq<Entry>, item: Item, e: Entry)
    requires InTaxonomy(items) && AllAssigned(symbol, recorded, items, codes)
    requires item.enumName in TAXONOMY && Assigned(symbol, recorded, codes, item, e)
    ensures InTaxonomy(items + [item]) && AllAssigned(symbol, recorded, items + [item], codes + [e])
  {
    hide Assigned, TAXONOMY;
    var all, listed := items + [item], codes + [e];
    forall m | 0 <= m < |all| ensures Assigned(symbol, recorded, listed[..m], all[m], listed[m]) {
      assert listed[..m] == codes[..m];
      assert m == |items| ==> codes[..m] == codes;
    }
  }

  lemma PassedStays(d: Draft, d': Draft, name: string)
    requires name in TAXONOMY && Passed(d, name) && d.used <= d'.used && Next(d', name) == Next(d, name)
    ensures Passed(d', name)
  {
    hide TAXONOMY, Block, Next;
  }

  /** The number found is the least free one of the block; none is found exactly when the block is full. */
  lemma FoundIsLeast(d: Draft, name: string)
    requires name in TAXONOMY && Passed(d, name)
    ensures
      var code := FirstFree(d.used, Next(d, name));
      if code < Block(name) + CODE_BLOCK_SIZE then LeastFree(d.used, name, code) && !BlockFull(d.used, name)
      else BlockFull(d.used, name)
  {
    hide TAXONOMY, Block, Next, FirstFree;
  }

  lemma AllocateStep(symbol: Symbols, recorded: seq<Entry>, items: seq<Item>, d: Draft, item: Item)
    requires item.enumName in TAXONOMY && NeedsCode(recorded, item) && Orderly(recorded, items, d)
    requires Allocate(symbol, d, item).Ok?
    ensures
      var d' := Allocate(symbol, d, item).value;
      Orderly(recorded, items + [item], d') && d'.codes == d.codes + [d'.codes[|d.codes|]]
      && Assigned(symbol, recorded, d.codes, item, d'.codes[|d.codes|])
  {
    hide TAXONOMY, Block, FirstFree, Used, Clashes, LeastFree, Prior;
    var name, d' := item.enumName, Allocate(symbol, d, item).value;
    var e := d'.codes[|d.codes|];
    FoundIsLeast(d, name);
    UsedAppend(d.codes, e);
    ClashesAppend(recorded, items, d.codes, item, e);
    forall other | other in TAXONOMY ensures Passed(d', other) {
      if other != name {
        PassedStays(d, d', other);
      } else {
        IssuedIsPassed(d, d', name);
      }
    }
  }

  lemma IssuedIsPassed(d: Draft, d': Draft, name: string)
    requires name in TAXONOMY && Passed(d, name)
    requires
      var code := FirstFree(d.used, Next(d, name));
      code < Block(name) + CODE_BLOCK_SIZE && d'.used == d.used + {code} && Next(d', name) == code + 1
    ensures Passed(d', name)
  {
    hide TAXONOMY, Block, Next, FirstFree;
  }

  lemma KeptStep(recorded: seq<Entry>, items: seq<Item>, d: Draft, item: Item, d': Draft, e: Entry)
    requires Orderly(recorded, items, d) && d'.next == d.next && d'.codes == d.codes + [e]
    requires d'.used == d.used + if e.code.Some? then {e.code.value} else {}
    requires d'.notes == d.notes + ClashAt(recorded, d.codes, item)
    ensures Orderly(recorded, items + [item], d')
  {
    hide TAXONOMY, Block, Used, Clashes, ClashAt;
    UsedAppend(d.codes, e);
    ClashesAppend(recorded, items, d.codes, item, e);
    forall name | name in TAXONOMY ensures Passed(d', name) {
      PassedStays(d, d', name);
    }
  }

  /** One step follows the rule, and fails exactly when a number is needed and the block is full. */
  lemma StepAssigns(symbol: Symbols, recorded: seq<Entry>, items: seq<Item>, d: Draft, item: Item)
    requires InTaxonomy(items) && item.enumName in TAXONOMY
    requires AllAssigned(symbol, recorded, items, d.codes) && Orderly(recorded, items, d)
    ensures InTaxonomy(items + [item])
    ensures
      var r := Step(symbol, recorded, d, item);
      && (r.Err? <==> NeedsCode(recorded, item) && BlockFull(InUse(recorded, d.codes), item.enumName))
      && (r.Ok? ==>
            && AllAssigned(symbol, recorded, items + [item], r.value.codes)
            && Orderly(recorded, items + [item], r.value))
  {
    hide TAXONOMY, Block, Next, FirstFree, Used, Prior, AllAssigned, Clashes, LeastFree, BlockFull;
    var r := Step(symbol, recorded, d, item);
    FoundIsLeast(d, item.enumName);
    if r.Ok? {
      var e := r.value.codes[|d.codes|];
      if NeedsCode(recorded, item) {
        AllocateStep(symbol, recorded, items, d, item);
      } else {
        if !IsNew(recorded, item) {
          PriorCodeIsUsed(recorded, item);
        }
        KeptStep(recorded, items, d, item, r.value, e);
      }
      AllAssignedGrows(symbol, recorded, items, d.codes, item, e);
    }
  }

  lemma StartOrderly(recorded: seq<Entry>)
    ensures Orderly(recorded, [], Draft(Used(recorded), map[], [], []))
  {
    hide TAXONOMY, Block;
    assert Used([]) == {};
  }

  /** Every code of a successful fold follows the rule, and its notes are exactly the clashes. */
  lemma {:induction false} FoldAssigns(symbol: Symbols, recorded: seq<Entry>, items: seq<Item>)
    requires InTaxonomy(items) && Fold(symbol, recorded, items).Ok?
    ensures
      var d := Fold(symbol, recorded, items).value;
      AllAssigned(symbol, recorded, items, d.codes) && Orderly(recorded, items, d)
  {
    hide TAXONOMY, Step, Orderly, Assigned;
    if items == [] {
      StartOrderly(recorded);
    } else {
      hide AllAssigned;
      var init, last := items[..|items| - 1], items[|items| - 1];
      assert items == init + [last];
      FoldAssigns(symbol, recorded, init);
      StepAssigns(symbol, recorded, init, Fold(symbol, recorded, init).value, last);
    }
  }

  lemma InTaxonomyPrefix(items: seq<Item>, m: nat)
    requires InTaxonomy(items) && m <= |items|
    ensures InTaxonomy(items[..m])
  {
    hide TAXONOMY;
  }

  /** The variant at `m` needs a number when its block has none left. */
  ghost predicate FailsAt(symbol: Symbols, recorded: seq<Entry>, items: seq<Item>, m: nat)
    requires InTaxonomy(items) && m < |items|
  {
    InTaxonomyPrefix(items, m);
    var before := Fold(symbol, recorded, items[..m]);
    before.Ok? && NeedsCode(recorded, items[m]) && BlockFull(InUse(recorded, before.value.codes), items[m].enumName)
  }

  lemma FailsAtStops(symbol: Symbols, recorded: seq<Entry>, items: seq<Item>, m: nat)
    requires InTaxonomy(items) && m < |items| && FailsAt(symbol, recorded, items, m)
    ensures Fold(symbol, recorded, items).Err?
  {
    hide TAXONOMY, Step, Fold, AllAssigned, Orderly, NeedsCode, BlockFull, InUse;
    InTaxonomyPrefix(items, m);
    InTaxonomyPrefix(items, m + 1);
    FoldAssigns(symbol, recorded, items[..m]);
    StepAssigns(symbol, recorded, items[..m], Fold(symbol, recorded, items[..m]).value, items[m]);
    FoldStep(symbol, recorded, items[..m], items[m]);
    assert items[..m] + [items[m]] == items[..m + 1];
    assert items[..m + 1] + items[m + 1..] == items;
    FailurePersists(symbol, recorded, items[..m + 1], items[m + 1..]);
  }

  /** The fold fails exactly when some variant needs a number and its block has none left at its turn. */
  lemma {:induction false} FoldFailsIff(symbol: Symbols, recorded: seq<Entry>, items: seq<Item>)
    requires InTaxonomy(items)
    ensures Fold(symbol, recorded, items).Err? <==> exists m: nat :: m < |items| && FailsAt(symbol, recorded, items, m)
  {
    hide TAXONOMY, Step, AllAssigned, Orderly, NeedsCode, BlockFull, InUse;
    if m: nat :| m < |items| && FailsAt(symbol, recorded, items, m) {
      FailsAtStops(symbol, recorded, items, m);
    }
    if Fold(symbol, recorded, items).Err? {
      var n := |items| - 1;
      InTaxonomyPrefix(items, n);
      FoldFailsIff(symbol, recorded, items[..n]);
      if Fold(symbol, recorded, items[..n]).Err? {
        var m: nat :| m < n && FailsAt(symbol, recorded, items[..n], m);
        assert items[..n][..m] == items[..m];
        assert FailsAt(symbol, recorded, items, m);
      } else {
        FoldAssigns(symbol, recorded, items[..n]);
        StepAssigns(symbol, recorded, items[..n], Fold(symbol, recorded, items[..n]).value, items[n]);
        assert FailsAt(symbol, recorded, items, n);
      }
    }
  }

  // ---- Whole builds ----

  ghost predicate UniqueVariants(scanned: map<string, seq<Scanned>>) {
    forall name, i, j :: name in scanned && 0 <= i < j < |scanned[name]| ==>
      scanned[name][i].variant != scanned[name][j].variant
  }

  predicate SameKey(a: Item, b: Item) {
    a.enumName == b.enumName && a.scanned.variant == b.scanned.variant
  }

  ghost predicate KeysDistinct(items: seq<Item>) {
    forall i, j :: 0 <= i < j < |items| ==> !SameKey(items[i], items[j])
  }

  ghost predicate DistinctCodes(codes: seq<Entry>) {
    forall i, j :: 0 <= i < j < |codes| && codes[i].code.Some? ==> codes[i].code != codes[j].code
  }

  function AllItems(scanned: map<string, seq<Scanned>>): (items: seq<Item>)
    ensures InTaxonomy(items)
  {
    Items(scanned, |TAXONOMY|)
  }

  lemma {:induction false} ItemsDistinct(scanned: map<string, seq<Scanned>>, k: nat)
    requires k <= |TAXONOMY| && UniqueVariants(scanned)
    ensures KeysDistinct(Items(scanned, k))
  {
    hide TAXONOMY;
    if k > 0 {
      ItemsDistinct(scanned, k - 1);
      NotStarted(k - 1);
    }
  }

  lemma SurvivorsDiffer(recorded: seq<Entry>, a: Item, b: Item)
    requires DistinctCodes(recorded) && !SameKey(a, b) && !IsNew(recorded, a) && !IsNew(recorded, b)
    ensures
      var x, y := Prior(recorded, a.enumName, a.scanned.variant).value,
        Prior(recorded, b.enumName, b.scanned.variant).value;
      x.code.Some? ==> x.code != y.code
  {
    var x, y := Prior(recorded, a.enumName, a.scanned.variant).value,
      Prior(recorded, b.enumName, b.scanned.variant).value;
    hide Prior;
    var i :| 0 <= i < |recorded| && recorded[i] == x;
    var j :| 0 <= j < |recorded| && recorded[j] == y;
    assert i != j;
    assert y.code.Some? && x.code == y.code ==> false;
  }

  lemma PriorCodeIsUsed(recorded: seq<Entry>, a: Item)
    requires !IsNew(recorded, a)
    ensures
      var x := Prior(recorded, a.enumName, a.scanned.variant).value;
      x.code.Some? ==> x.code.value in Used(recorded)
  {
  }

  lemma CodeIsUsed(codes: seq<Entry>, i: nat)
    requires i < |codes| && codes[i].code.Some?
    ensures codes[i].code.value in Used(codes)
  {
  }

  lemma {:induction false} NoClashAt(recorded: seq<Entry>, items: seq<Item>, codes: seq<Entry>, m: nat)
    requires |codes| == |items| && m < |items| && Clashes(recorded, items, codes) == []
    ensures ClashAt(recorded, codes[..m], items[m]) == []
  {
    hide ClashAt;
    var n := |items| - 1;
    if m < n {
      NoClashAt(recorded, items[..n], codes[..n], m);
      assert codes[..n][..m] == codes[..m];
    }
  }

  /** A new code without a clash was not in use when it was given. */
  lemma NewCodeUnused(symbol: Symbols, recorded: seq<Entry>, items: seq<Item>, codes: seq<Entry>, m: nat)
    requires InTaxonomy(items) && AllAssigned(symbol, recorded, items, codes) && Clashes(recorded, items, codes) == []
    requires m < |items| && IsNew(recorded, items[m])
    ensures codes[m].code.Some? && codes[m].code.value !in InUse(recorded, codes[..m])
  {
    hide TAXONOMY, Clashes, Used, Prior, Block;
    assert Assigned(symbol, recorded, codes[..m], items[m], codes[m]);
    NoClashAt(recorded, items, codes, m);
  }

  lemma AssignedDiffer(symbol: Symbols, recorded: seq<Entry>, items: seq<Item>, codes: seq<Entry>, i: nat, j: nat)
    requires InTaxonomy(items) && AllAssigned(symbol, recorded, items, codes) && Clashes(recorded, items, codes) == []
    requires KeysDistinct(items) && DistinctCodes(recorded) && i < j < |items| && codes[i].code.Some?
    ensures codes[i].code != codes[j].code
  {
    hide TAXONOMY, Used, Prior, DistinctCodes, LeastFree, Clashes;
    var a, b := items[i], items[j];
    assert Assigned(symbol, recorded, codes[..i], a, codes[i]);
    assert Assigned(symbol, recorded, codes[..j], b, codes[j]);
    if IsNew(recorded, b) {
      NewCodeUnused(symbol, recorded, items, codes, j);
      CodeIsUsed(codes[..j], i);
    } else if IsNew(recorded, a) {
      NewCodeUnused(symbol, recorded, items, codes, i);
      PriorCodeIsUsed(recorded, b);
    } else {
      SurvivorsDiffer(recorded, a, b);
    }
  }

  /**
   For any scan, explicit discriminants included, and any previous catalog, a successful build lists
   exactly the scanned variants in order, each with the code the rule gives it, notes exactly the
   clashes and leaves the retired list alone. With unique variants and distinct recorded codes, a
   build without clashes has pairwise distinct codes.
   */
  lemma BuildAllocates(symbol: Symbols, scanned: map<string, seq<Scanned>>, previous: Catalog)
    requires Build(symbol, scanned, previous).Ok?
    ensures
      var (catalog, notes) := Build(symbol, scanned, previous).value;
      && AllAssigned(symbol, previous.codes, AllItems(scanned), catalog.codes)
      && catalog.retired == previous.retired && catalog.version == previous.version
      && notes == Clashes(previous.codes, AllItems(scanned), catalog.codes)
      && (UniqueVariants(scanned) && DistinctCodes(previous.codes) && notes == [] ==> DistinctCodes(catalog.codes))
  {
    hide TAXONOMY, Fold, Items, Assigned, UniqueVariants, Clashes;
    var items := AllItems(scanned);
    FoldAssigns(symbol, previous.codes, items);
    var codes := Fold(symbol, previous.codes, items).value.codes;
    if UniqueVariants(scanned) && DistinctCodes(previous.codes) && Clashes(previous.codes, items, codes) == [] {
      ItemsDistinct(scanned, |TAXONOMY|);
      forall i, j | 0 <= i < j < |codes| && codes[i].code.Some? ensures codes[i].code != codes[j].code {
        AssignedDiffer(symbol, previous.codes, items, codes, i, j);
      }
    }
  }

  /**
   What the catalog says of the variant at `m`: its own enum, name, kind and place as scanned; and the id, code
   and summary recorded for it, or else its symbol, a new code and no summary yet.
   */
  lemma ListedEntrySays(symbol: Symbols, scanned: map<string, seq<Scanned>>, previous: Catalog, m: nat)
    requires Build(symbol, scanned, previous).Ok? && m < |AllItems(scanned)|
    ensures
      var codes := Build(symbol, scanned, previous).value.0.codes;
      && |codes| == |AllItems(scanned)|
      && var item, e := AllItems(scanned)[m], codes[m];
      var prior := Prior(previous.codes, item.enumName, item.scanned.variant);
      && e.enumName == item.enumName && e.variant == item.scanned.variant
      && e.kind == item.scanned.kind && e.path == item.scanned.path
      && (prior.Some? ==> e.id == prior.value.id && e.code == prior.value.code && e.summary == prior.value.summary)
      && (prior.None? ==> e.id == symbol(item.enumName, item.scanned.variant) && e.code.Some? && e.summary == "")
      && (prior.None? && item.scanned.discriminant.Some? ==> e.code == item.scanned.discriminant)
  {
    hide TAXONOMY, Build, Items, Clashes, LeastFree, UniqueVariants, DistinctCodes;
    BuildAllocates(symbol, scanned, previous);
    var codes := Build(symbol, scanned, previous).value.0.codes;
    assert Assigned(symbol, previous.codes, codes[..m], AllItems(scanned)[m], codes[m]);
  }

  ghost predicate NoExplicitCodes(scanned: map<string, seq<Scanned>>) {
    forall name, i :: name in scanned && 0 <= i < |scanned[name]| ==> scanned[name][i].discriminant.None?
  }

  lemma {:induction false} ItemsUndeclared(scanned: map<string, seq<Scanned>>, k: nat)
    requires k <= |TAXONOMY| && NoExplicitCodes(scanned)
    ensures forall i :: 0 <= i < |Items(scanned, k)| ==> Items(scanned, k)[i].scanned.discriminant.None?
  {
    hide TAXONOMY;
    if k > 0 {
      ItemsUndeclared(scanned, k - 1);
    }
  }

  lemma {:induction false} UndeclaredNeverClash(recorded: seq<Entry>, items: seq<Item>, codes: seq<Entry>)
    requires |codes| == |items| && forall i :: 0 <= i < |items| ==> items[i].scanned.discriminant.None?
    ensures Clashes(recorded, items, codes) == []
  {
    hide IsNew, InUse;
    if items != [] {
      UndeclaredNeverClash(recorded, items[..|items| - 1], codes[..|codes| - 1]);
    }
  }

  /** Without explicit discriminants nothing clashes: surviving codes are kept and all codes are pairwise distinct. */
  lemma UndeclaredBuildIsDistinct(symbol: Symbols, scanned: map<string, seq<Scanned>>, previous: Catalog)
    requires UniqueVariants(scanned) && NoExplicitCodes(scanned) && DistinctCodes(previous.codes)
    requires Build(symbol, scanned, previous).Ok?
    ensures
      var (catalog, notes) := Build(symbol, scanned, previous).value;
      notes == [] && DistinctCodes(catalog.codes)
  {
    hide TAXONOMY, Build, Items, UniqueVariants, NoExplicitCodes, DistinctCodes, Clashes, Assigned;
    BuildAllocates(symbol, scanned, previous);
    ItemsUndeclared(scanned, |TAXONOMY|);
    UndeclaredNeverClash(previous.codes, AllItems(scanned), Build(symbol, scanned, previous).value.0.codes);
  }

  /** A build fails exactly when some variant needs a number and its block has none left at its turn. */
  lemma BuildFailsIff(symbol: Symbols, scanned: map<string, seq<Scanned>>, previous: Catalog)
    ensures
      var items := AllItems(scanned);
      Build(symbol, scanned, previous).Err? <==>
      exists m: nat :: m < |items| && FailsAt(symbol, previous.codes, items, m)
  {
    hide TAXONOMY, Fold, Items, FailsAt;
    FoldFailsIff(symbol, previous.codes, AllItems(scanned));
  }

  // ---- Building again changes nothing ----

  predicate Mirrors(e: Entry, item: Item) {
    && e.enumName == item.enumName && e.variant == item.scanned.variant
    && e.kind == item.scanned.kind && e.path == item.scanned.path
  }

  ghost predicate AllMirror(codes: seq<Entry>, items: seq<Item>) {
    |codes| == |items| && forall m :: 0 <= m < |codes| ==> Mirrors(codes[m], items[m])
  }

  lemma {:induction false} FoldMirrors(symbol: Symbols, recorded: seq<Entry>, items: seq<Item>)
    requires InTaxonomy(items) && Fold(symbol, recorded, items).Ok?
    ensures AllMirror(Fold(symbol, recorded, items).value.codes, items)
  {
    hide TAXONOMY, Prior, FirstFree, Block, Next;
    if items != [] {
      FoldMirrors(symbol, recorded, items[..|items| - 1]);
    }
  }

  lemma {:induction false} PriorIsItsEntry(codes: seq<Entry>, items: seq<Item>, m: nat)
    requires AllMirror(codes, items) && KeysDistinct(items) && m < |codes|
    ensures Prior(codes, items[m].enumName, items[m].scanned.variant) == Some(codes[m])
  {
    var n := |codes| - 1;
    assert Mirrors(codes[n], items[n]) && Mirrors(codes[m], items[m]);
    if m < n {
      assert !SameKey(items[m], items[n]);
      PriorIsItsEntry(codes[..n], items[..n], m);
    }
  }

  lemma {:induction false} RefoldIsPrefix(symbol: Symbols, codes: seq<Entry>, items: seq<Item>, m: nat)
    requires InTaxonomy(items) && AllMirror(codes, items) && KeysDistinct(items) && m <= |codes|
    ensures Fold(symbol, codes, items[..m]) == Ok(Draft(Used(codes), map[], codes[..m], []))
  {
    hide TAXONOMY, Prior, FirstFree, Block, Next, Used, KeysDistinct;
    if m > 0 {
      RefoldIsPrefix(symbol, codes, items, m - 1);
      PriorIsItsEntry(codes, items, m - 1);
      assert items[..m][..m - 1] == items[..m - 1];
      assert Mirrors(codes[m - 1], items[m - 1]);
      assert Carried(codes[m - 1], items[m - 1].scanned) == codes[m - 1];
      assert codes[..m] == codes[..m - 1] + [codes[m - 1]];
    }
  }

  /** Building again from a build's own result, with any variants declaring discriminants, gives the same catalog. */
  lemma RebuildChangesNothing(symbol: Symbols, scanned: map<string, seq<Scanned>>, previous: Catalog)
    requires UniqueVariants(scanned) && Build(symbol, scanned, previous).Ok?
    ensures
      var catalog := Build(symbol, scanned, previous).value.0;
      Build(symbol, scanned, catalog) == Ok((catalog, []))
  {
    hide TAXONOMY, Fold, Items, UniqueVariants, AllMirror;
    var items := AllItems(scanned);
    var codes := Fold(symbol, previous.codes, items).value.codes;
    ItemsDistinct(scanned, |TAXONOMY|);
    FoldMirrors(symbol, previous.codes, items);
    assert |codes| == |items| by {
      MirrorLength(codes, items);
    }
    RefoldIsPrefix(symbol, codes, items, |codes|);
    assert items[..|codes|] == items && codes[..|codes|] == codes;
  }

  lemma MirrorLength(codes: seq<Entry>, items: seq<Item>)
    requires AllMirror(codes, items)
    ensures |codes| == |items|
  {
  }
}
