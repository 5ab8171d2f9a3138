/** The allocator in numbers: exactly which codes a build issues, and when a block runs out. */
module CodeCounts {
  import opened Wrappers
  import opened Catalog
  import opened CodeAllocation

  // ---- Counting unused numbers ----

  /** How many unused numbers lie strictly between `base` and `c`. */
  function FreeBelow(used: set<int>, base: int, c: int): nat
    decreases c - base
  {
    if c <= base + 1 then 0 else FreeBelow(used, base, c - 1) + if c - 1 in used then 0 else 1
  }

  /** How many variants of an enum need a number. */
  function NewCount(recorded: seq<Entry>, items: seq<Item>, name: string): nat {
    if items == [] then 0
    else
      var last := items[|items| - 1];
      NewCount(recorded, items[..|items| - 1], name) + if last.enumName == name && NeedsCode(recorded, last) then 1
        else 0
  }

  lemma {:induction false} FreeBelowGrows(used: set<int>, base: int, a: int, b: int)
    requires base < a < b
    ensures FreeBelow(used, base, a) + (if a in used then 0 else 1) <= FreeBelow(used, base, b)
    decreases b - a
  {
    if a < b - 1 {
      FreeBelowGrows(used, base, a, b - 1);
    }
  }

  /** Every count below the total is the count before some unused number. */
  lemma {:induction false} FreeAt(used: set<int>, base: int, c: int, a: nat) returns (x: int)
    requires a < FreeBelow(used, base, c)
    ensures base < x < c && x !in used && FreeBelow(used, base, x) == a
    decreases c - base
  {
    if a < FreeBelow(used, base, c - 1) {
      x := FreeAt(used, base, c - 1, a);
    } else {
      x := c - 1;
    }
  }

  lemma {:induction false} FreeBelowWith(used: set<int>, d: int, base: int, c: int)
    ensures FreeBelow(used + {d}, base, c)
            == FreeBelow(used, base, c) - if base < d < c && d !in used then 1 else 0
    decreases c - base
  {
    if c > base + 1 {
      FreeBelowWith(used, d, base, c - 1);
    }
  }

  lemma NewCountStep(recorded: seq<Entry>, items: seq<Item>, m: nat, name: string)
    requires m < |items|
    ensures NewCount(recorded, items[..m + 1], name)
            == NewCount(recorded, items[..m], name)
               + if items[m].enumName == name && NeedsCode(recorded, items[m]) then 1 else 0
  {
    hide NeedsCode;
    assert items[..m + 1][..m] == items[..m];
  }

  // ---- Numbers that are spoken for ----

  predicate IsDeclared(recorded: seq<Entry>, item: Item) {
    IsNew(recorded, item) && item.scanned.discriminant.Some?
  }

  /** The numbers a listed entry uses, and those the new variants declare, wherever they stand. */
  function Reserved(recorded: seq<Entry>, items: seq<Item>): set<int> {
    Used(recorded)
    + set i | 0 <= i < |items| && IsDeclared(recorded, items[i]) :: items[i].scanned.discriminant.value
  }

  lemma ReservedStep(recorded: seq<Entry>, items: seq<Item>, m: nat)
    requires m < |items|
    ensures Reserved(recorded, items[..m + 1])
            == Reserved(recorded, items[..m])
               + if IsDeclared(recorded, items[m]) then {items[m].scanned.discriminant.value} else {}
  {
    hide IsNew, Used;
    assert items[..m + 1] == items[..m] + [items[m]];
  }

  lemma ReservedGrows(recorded: seq<Entry>, items: seq<Item>, m: nat)
    requires m <= |items|
    ensures Reserved(recorded, items[..m]) <= Reserved(recorded, items)
  {
    hide IsDeclared, Used;
  }

  /** The number is spoken for, or lies past everything its block has issued. */
  ghost predicate NotYetIssued(recorded: seq<Entry>, before: seq<Item>, d: int) {
    d in Reserved(recorded, before) ||
    forall name :: name in TAXONOMY && InBlock(name, d) ==>
      NewCount(recorded, before, name) <= FreeBelow(Reserved(recorded, before), Block(name), d)
  }

  ghost predicate TimelyAt(recorded: seq<Entry>, items: seq<Item>, m: nat)
    requires m < |items|
  {
    IsDeclared(recorded, items[m]) ==> NotYetIssued(recorded, items[..m], items[m].scanned.discriminant.value)
  }

  /**
   Every new discriminant is declared before its number would be issued to another variant. Any
   discriminant outside the blocks is.
   */
  ghost predicate Timely(recorded: seq<Entry>, items: seq<Item>) {
    forall m: nat :: m < |items| ==> TimelyAt(recorded, items, m)
  }

  lemma TimelyAtPrefix(recorded: seq<Entry>, items: seq<Item>, n: nat, m: nat)
    requires m < n <= |items|
    ensures TimelyAt(recorded, items[..n], m) <==> TimelyAt(recorded, items, m)
  {
    hide NotYetIssued, IsDeclared;
    assert items[..n][..m] == items[..m];
  }

  lemma TimelyPrefix(recorded: seq<Entry>, items: seq<Item>, n: nat)
    requires Timely(recorded, items) && n <= |items|
    ensures Timely(recorded, items[..n])
  {
    hide TimelyAt;
    forall m: nat | m < n ensures TimelyAt(recorded, items[..n], m) {
      TimelyAtPrefix(recorded, items, n, m);
    }
  }

  // ---- What the listed codes fill ----

  /** Of a block exactly the reserved numbers and the first so many others are in use. */
  ghost predicate Filled(recorded: seq<Entry>, items: seq<Item>, codes: seq<Entry>, name: string)
    requires name in TAXONOMY
  {
    var reserved := Reserved(recorded, items);
    forall x :: InBlock(name, x) ==>
      (x in InUse(recorded, codes) <==>
       x in reserved || FreeBelow(reserved, Block(name), x) < NewCount(recorded, items, name))
  }

  /** The least free number of a block has exactly the issued ones before it. */
  lemma LeastIsNext(recorded: seq<Entry>, items: seq<Item>, codes: seq<Entry>, name: string, c: int)
    requires name in TAXONOMY && Filled(recorded, items, codes, name) && LeastFree(InUse(recorded, codes), name, c)
    ensures c !in Reserved(recorded, items)
    ensures FreeBelow(Reserved(recorded, items), Block(name), c) == NewCount(recorded, items, name)
  {
    hide TAXONOMY, Block, Reserved, NewCount, FreeBelow, InUse;
    var reserved, base, n := Reserved(recorded, items), Block(name), NewCount(recorded, items, name);
    if FreeBelow(reserved, base, c) > n {
      var x := FreeAt(reserved, base, c, n);
    }
  }

  lemma FilledNext(
    recorded: seq<Entry>, items: seq<Item>, codes: seq<Entry>, name: string, c: int,
    items': seq<Item>, codes': seq<Entry>)
    requires name in TAXONOMY && Filled(recorded, items, codes, name) && LeastFree(InUse(recorded, codes), name, c)
    requires InUse(recorded, codes') == InUse(recorded, codes) + {c}
    requires NewCount(recorded, items', name) == NewCount(recorded, items, name) + 1
    requires Reserved(recorded, items') == Reserved(recorded, items)
    ensures Filled(recorded, items', codes', name)
  {
    hide TAXONOMY, Block, Reserved, NewCount, FreeBelow, InUse;
    LeastIsNext(recorded, items, codes, name, c);
    var reserved, base := Reserved(recorded, items), Block(name);
    forall x | InBlock(name, x)
      ensures x in InUse(recorded, codes') <==>
              x in reserved || FreeBelow(reserved, base, x) < NewCount(recorded, items', name)
    {
      if x < c && x !in reserved {
        FreeBelowGrows(reserved, base, x, c);
      } else if c < x {
        FreeBelowGrows(reserved, base, c, x);
      }
    }
  }

  lemma FilledDeclared(
    recorded: seq<Entry>, items: seq<Item>, codes: seq<Entry>, name: string, d: int,
    items': seq<Item>, codes': seq<Entry>)
    requires name in TAXONOMY && Filled(recorded, items, codes, name) && NotYetIssued(recorded, items, d)
    requires InUse(recorded, codes') == InUse(recorded, codes) + {d}
    requires NewCount(recorded, items', name) == NewCount(recorded, items, name)
    requires Reserved(recorded, items') == Reserved(recorded, items) + {d}
    ensures Filled(recorded, items', codes', name)
  {
    hide TAXONOMY, Block, Reserved, NewCount, FreeBelow, InUse;
    var reserved, base := Reserved(recorded, items), Block(name);
    forall x | InBlock(name, x)
      ensures x in InUse(recorded, codes') <==>
              x in reserved + {d} || FreeBelow(reserved + {d}, base, x) < NewCount(recorded, items', name)
    {
      FreeBelowWith(reserved, d, base, x);
      if InBlock(name, d) && d < x {
        FreeBelowGrows(reserved, base, d, x);
      }
    }
  }

  lemma FilledSame(
    recorded: seq<Entry>, items: seq<Item>, codes: seq<Entry>, name: string, items': seq<Item>, codes': seq<Entry>)
    requires name in TAXONOMY && Filled(recorded, items, codes, name)
    requires forall x :: InBlock(name, x) ==> (x in InUse(recorded, codes') <==> x in InUse(recorded, codes))
    requires NewCount(recorded, items', name) == NewCount(recorded, items, name)
    requires Reserved(recorded, items') == Reserved(recorded, items)
    ensures Filled(recorded, items', codes', name)
  {
    hide TAXONOMY, Block, Reserved, NewCount, FreeBelow, InUse;
  }

  lemma FilledStep(symbol: Symbols, recorded: seq<Entry>, items: seq<Item>, codes: seq<Entry>, m: nat, name: string)
    requires InTaxonomy(items) && AllAssigned(symbol, recorded, items, codes) && Timely(recorded, items)
    requires m < |items| && name in TAXONOMY && Filled(recorded, items[..m], codes[..m], name)
    ensures Filled(recorded, items[..m + 1], codes[..m + 1], name)
  {
    hide TAXONOMY, Block, Used, NewCount, FreeBelow, Filled, Prior, Reserved, NotYetIssued;
    var item, e := items[m], codes[m];
    assert Assigned(symbol, recorded, codes[..m], item, e) && TimelyAt(recorded, items, m);
    assert codes[..m + 1] == codes[..m] + [e];
    UsedAppend(codes[..m], e);
    NewCountStep(recorded, items, m, name);
    ReservedStep(recorded, items, m);
    if !IsNew(recorded, item) {
      PriorCodeIsUsed(recorded, item);
      FilledSame(recorded, items[..m], codes[..m], name, items[..m + 1], codes[..m + 1]);
    } else if item.scanned.discriminant.Some? {
      FilledDeclared(recorded, items[..m], codes[..m], name, e.code.value, items[..m + 1], codes[..m + 1]);
    } else if item.enumName == name {
      FilledNext(recorded, items[..m], codes[..m], name, e.code.value, items[..m + 1], codes[..m + 1]);
    } else {
      if InBlock(name, e.code.value) {
        BlocksDisjoint(name, item.enumName, e.code.value);
      }
      FilledSame(recorded, items[..m], codes[..m], name, items[..m + 1], codes[..m + 1]);
    }
  }

  lemma {:induction false} FilledAt(
    symbol: Symbols, recorded: seq<Entry>, items: seq<Item>, codes: seq<Entry>, m: nat, name: string)
    requires InTaxonomy(items) && AllAssigned(symbol, recorded, items, codes) && Timely(recorded, items)
    requires m <= |items| && name in TAXONOMY
    ensures |codes| == |items| && Filled(recorded, items[..m], codes[..m], name)
  {
    hide TAXONOMY, Block, AllAssigned, Timely;
    SameLength(symbol, recorded, items, codes);
    if m == 0 {
      assert Used([]) == {};
    } else {
      hide Filled;
      FilledAt(symbol, recorded, items, codes, m - 1, name);
      FilledStep(symbol, recorded, items, codes, m - 1, name);
    }
  }

  lemma FilledEnd(symbol: Symbols, recorded: seq<Entry>, items: seq<Item>, codes: seq<Entry>, name: string)
    requires InTaxonomy(items) && AllAssigned(symbol, recorded, items, codes) && Timely(recorded, items)
    requires name in TAXONOMY
    ensures |codes| == |items| && Filled(recorded, items, codes, name)
  {
    hide TAXONOMY, AllAssigned, Timely, Filled;
    FilledAt(symbol, recorded, items, codes, |items|, name);
    assert items[..|items|] == items && codes[..|items|] == codes;
  }

  lemma SameLength(symbol: Symbols, recorded: seq<Entry>, items: seq<Item>, codes: seq<Entry>)
    requires InTaxonomy(items) && AllAssigned(symbol, recorded, items, codes)
    ensures |codes| == |items|
  {
  }

  // ---- When a block runs out ----

  /** How many numbers of an enum's block nothing is reserved for. */
  function Room(recorded: seq<Entry>, items: seq<Item>, name: string): nat
    requires name in TAXONOMY
  {
    FreeBelow(Reserved(recorded, items), Block(name), Block(name) + CODE_BLOCK_SIZE)
  }

  ghost predicate Fits(recorded: seq<Entry>, items: seq<Item>) {
    forall name :: name in TAXONOMY ==> NewCount(recorded, items, name) <= Room(recorded, items, name)
  }

  lemma FullIff(recorded: seq<Entry>, items: seq<Item>, codes: seq<Entry>, name: string)
    requires name in TAXONOMY && Filled(recorded, items, codes, name)
    ensures BlockFull(InUse(recorded, codes), name) <==> Room(recorded, items, name) <= NewCount(recorded, items, name)
  {
    hide TAXONOMY, Block, Reserved, NewCount, FreeBelow, InUse;
    var reserved, base, n := Reserved(recorded, items), Block(name), NewCount(recorded, items, name);
    if n < Room(recorded, items, name) {
      var x := FreeAt(reserved, base, base + CODE_BLOCK_SIZE, n);
      assert InBlock(name, x);
    } else {
      forall x | base < x < base + CODE_BLOCK_SIZE ensures x in InUse(recorded, codes) {
        assert InBlock(name, x);
        FreeBelowGrows(reserved, base, x, base + CODE_BLOCK_SIZE);
      }
    }
  }

  predicate OutOfRoom(recorded: seq<Entry>, items: seq<Item>, item: Item)
    requires item.enumName in TAXONOMY
  {
    NeedsCode(recorded, item) && Room(recorded, items, item.enumName) <= NewCount(recorded, items, item.enumName)
  }

  lemma StepFitsIff(symbol: Symbols, recorded: seq<Entry>, items: seq<Item>, d: Draft, item: Item)
    requires InTaxonomy(items) && item.enumName in TAXONOMY
    requires Timely(recorded, items) && AllAssigned(symbol, recorded, items, d.codes) && Orderly(recorded, items, d)
    ensures Step(symbol, recorded, d, item).Err? <==> OutOfRoom(recorded, items, item)
  {
    hide TAXONOMY, Step, Room, NewCount, AllAssigned, Orderly, Timely, Filled, InUse, BlockFull, NeedsCode;
    StepAssigns(symbol, recorded, items, d, item);
    FilledEnd(symbol, recorded, items, d.codes, item.enumName);
    FullIff(recorded, items, d.codes, item.enumName);
  }

  /** What one more variant does to the room of a block and to the number of variants in need of it. */
  lemma RoomStep(recorded: seq<Entry>, items: seq<Item>, item: Item, name: string)
    requires name in TAXONOMY
    ensures
      var all, d := items + [item], if IsDeclared(recorded, item) then item.scanned.discriminant.value else 0;
      && Room(recorded, all, name) == Room(recorded, items, name)
         - (if IsDeclared(recorded, item) && InBlock(name, d) && d !in Reserved(recorded, items) then 1 else 0)
      && NewCount(recorded, all, name) == NewCount(recorded, items, name)
         + if item.enumName == name && NeedsCode(recorded, item) then 1 else 0
  {
    hide TAXONOMY, Block, NewCount, FreeBelow, Reserved, NeedsCode, IsNew;
    var all := items + [item];
    assert all[..|items|] == items && all[..|items| + 1] == all;
    NewCountStep(recorded, all, |items|, name);
    ReservedStep(recorded, all, |items|);
    if IsDeclared(recorded, item) {
      FreeBelowWith(
        Reserved(recorded, items), item.scanned.discriminant.value, Block(name), Block(name) + CODE_BLOCK_SIZE);
    } else {
      assert Reserved(recorded, all) == Reserved(recorded, items);
    }
  }

  lemma TimelyLeavesRoom(recorded: seq<Entry>, items: seq<Item>, d: int, name: string)
    requires name in TAXONOMY && InBlock(name, d) && d !in Reserved(recorded, items) && NotYetIssued(recorded, items, d)
    ensures NewCount(recorded, items, name) < Room(recorded, items, name)
  {
    hide TAXONOMY, Block, NewCount, FreeBelow, Reserved;
    FreeBelowGrows(Reserved(recorded, items), Block(name), d, Block(name) + CODE_BLOCK_SIZE);
  }

  lemma FitsNext(recorded: seq<Entry>, items: seq<Item>, item: Item)
    requires item.enumName in TAXONOMY && Fits(recorded, items)
    requires IsDeclared(recorded, item) ==> NotYetIssued(recorded, items, item.scanned.discriminant.value)
    ensures Fits(recorded, items + [item]) <==> !OutOfRoom(recorded, items, item)
  {
    hide TAXONOMY, Room, NewCount, Reserved, NotYetIssued, InBlock, IsNew;
    forall name | name in TAXONOMY
      ensures NewCount(recorded, items + [item], name) <= Room(recorded, items + [item], name) <==>
              !(item.enumName == name && OutOfRoom(recorded, items, item))
    {
      RoomStep(recorded, items, item, name);
      if IsDeclared(recorded, item) {
        var d := item.scanned.discriminant.value;
        if InBlock(name, d) && d !in Reserved(recorded, items) {
          TimelyLeavesRoom(recorded, items, d, name);
        }
      }
    }
  }

  lemma UnfitStays(recorded: seq<Entry>, items: seq<Item>, item: Item)
    requires !Fits(recorded, items)
    ensures !Fits(recorded, items + [item])
  {
    hide TAXONOMY, Room, NewCount, Reserved, InBlock, NeedsCode, IsDeclared;
    var name :| name in TAXONOMY && NewCount(recorded, items, name) > Room(recorded, items, name);
    RoomStep(recorded, items, item, name);
  }

  lemma LastIsTimely(recorded: seq<Entry>, init: seq<Item>, last: Item)
    requires Timely(recorded, init + [last])
    ensures Timely(recorded, init)
    ensures IsDeclared(recorded, last) ==> NotYetIssued(recorded, init, last.scanned.discriminant.value)
  {
    hide NotYetIssued, IsDeclared;
    var all := init + [last];
    assert all[..|init|] == init;
    TimelyPrefix(recorded, all, |init|);
    assert TimelyAt(recorded, all, |init|);
  }

  lemma {:induction false} FoldSucceedsIff(symbol: Symbols, recorded: seq<Entry>, items: seq<Item>)
    requires InTaxonomy(items) && Timely(recorded, items)
    ensures Fold(symbol, recorded, items).Ok? <==> Fits(recorded, items)
  {
    hide TAXONOMY, Step, Room, AllAssigned, Orderly, OutOfRoom, TimelyAt, NotYetIssued, IsDeclared;
    if items != [] {
      hide Fits, NewCount, Timely;
      var init, last := items[..|items| - 1], items[|items| - 1];
      assert items == init + [last];
      LastIsTimely(recorded, init, last);
      FoldSucceedsIff(symbol, recorded, init);
      if Fold(symbol, recorded, init).Ok? {
        FoldAssigns(symbol, recorded, init);
        StepFitsIff(symbol, recorded, init, Fold(symbol, recorded, init).value, last);
        FitsNext(recorded, init, last);
      } else {
        UnfitStays(recorded, init, last);
      }
    }
  }

  /**
   When no discriminant comes too late, a build fails exactly when an enum has more variants in need of a
   number than its block has numbers nothing is reserved for.
   */
  lemma BuildSucceedsIff(symbol: Symbols, scanned: map<string, seq<Scanned>>, previous: Catalog)
    requires Timely(previous.codes, AllItems(scanned))
    ensures Build(symbol, scanned, previous).Ok? <==> Fits(previous.codes, AllItems(scanned))
  {
    hide TAXONOMY, Fold, Items, Fits, Timely;
    FoldSucceedsIff(symbol, previous.codes, AllItems(scanned));
  }

  // ---- Discriminants outside the blocks ----

  ghost predicate OutsideBlocks(code: int) {
    forall name :: name in TAXONOMY ==> !InBlock(name, code)
  }

  ghost predicate ScanOutside(scanned: map<string, seq<Scanned>>) {
    forall name, i :: name in scanned && 0 <= i < |scanned[name]| && scanned[name][i].discriminant.Some? ==>
      OutsideBlocks(scanned[name][i].discriminant.value)
  }

  lemma {:induction false} ItemsOutside(scanned: map<string, seq<Scanned>>, k: nat)
    requires k <= |TAXONOMY| && ScanOutside(scanned)
    ensures forall i :: 0 <= i < |Items(scanned, k)| && Items(scanned, k)[i].scanned.discriminant.Some? ==>
              OutsideBlocks(Items(scanned, k)[i].scanned.discriminant.value)
  {
    hide TAXONOMY, OutsideBlocks;
    if k > 0 {
      ItemsOutside(scanned, k - 1);
    }
  }

  /** Discriminants outside the blocks, or none at all, never come too late. */
  lemma OutsideIsTimely(recorded: seq<Entry>, scanned: map<string, seq<Scanned>>)
    requires ScanOutside(scanned)
    ensures Timely(recorded, AllItems(scanned))
  {
    hide TAXONOMY, Items, ScanOutside, Reserved, NewCount, FreeBelow, Block, IsNew;
    ItemsOutside(scanned, |TAXONOMY|);
  }

  // ---- Which numbers are issued ----

  /** The variant at `m` was given code `c` by this build. */
  ghost predicate Gave(recorded: seq<Entry>, items: seq<Item>, codes: seq<Entry>, m: nat, c: int)
    requires m < |items| && m < |codes|
  {
    NeedsCode(recorded, items[m]) && codes[m].code == Some(c)
  }

  ghost predicate GivenOut(recorded: seq<Entry>, items: seq<Item>, codes: seq<Entry>, c: int)
    requires |codes| == |items|
  {
    exists m: nat :: m < |items| && Gave(recorded, items, codes, m, c)
  }

  /** A number nothing is reserved for, with fewer such numbers before it than there are variants in need. */
  predicate DueOut(recorded: seq<Entry>, items: seq<Item>, name: string, c: int)
    requires name in TAXONOMY
  {
    && c !in Reserved(recorded, items)
    && FreeBelow(Reserved(recorded, items), Block(name), c) < NewCount(recorded, items, name)
  }

  lemma GaveIsUsed(symbol: Symbols, recorded: seq<Entry>, items: seq<Item>, codes: seq<Entry>, j: nat, m: nat, c: int)
    requires InTaxonomy(items) && AllAssigned(symbol, recorded, items, codes)
    requires j < m <= |items| && |codes| == |items| && Gave(recorded, items, codes, j, c)
    ensures LeastFree(InUse(recorded, codes[..j]), items[j].enumName, c) && c in InUse(recorded, codes[..m])
  {
    hide TAXONOMY, Used, LeastFree, Prior;
    assert Assigned(symbol, recorded, codes[..j], items[j], codes[j]);
    CodeIsUsed(codes[..m], j);
  }

  /** When no discriminant comes too late, an issued number is reserved for nothing, before or after. */
  lemma {:induction false} IssuedIsUnreserved(
    symbol: Symbols, recorded: seq<Entry>, items: seq<Item>, codes: seq<Entry>, j: nat, m: nat, c: int)
    requires InTaxonomy(items) && AllAssigned(symbol, recorded, items, codes) && Timely(recorded, items)
    requires j < m <= |items| && |codes| == |items| && Gave(recorded, items, codes, j, c)
    ensures c !in Reserved(recorded, items[..m])
    decreases m
  {
    hide TAXONOMY, Used, LeastFree, Prior, AllAssigned, Block, Reserved, NewCount, FreeBelow, InUse;
    var n, name := m - 1, items[j].enumName;
    GaveIsUsed(symbol, recorded, items, codes, j, m, c);
    LeastIsInBlock(InUse(recorded, codes[..j]), name, c);
    ReservedStep(recorded, items, n);
    FilledAt(symbol, recorded, items, codes, n, name);
    if n == j {
      LeastIsNext(recorded, items[..j], codes[..j], name, c);
    } else {
      GaveIsUsed(symbol, recorded, items, codes, j, n, c);
      IssuedIsUnreserved(symbol, recorded, items, codes, j, n, c);
      assert TimelyAt(recorded, items, n);
    }
  }

  lemma LeastIsInBlock(used: set<int>, name: string, c: int)
    requires name in TAXONOMY && LeastFree(used, name, c)
    ensures InBlock(name, c) && c !in used
  {
  }

  /** A number in use that nothing was reserved for was issued. */
  lemma UnreservedWasIssued(symbol: Symbols, recorded: seq<Entry>, items: seq<Item>, codes: seq<Entry>, m: nat, c: int)
    returns (j: nat)
    requires InTaxonomy(items) && AllAssigned(symbol, recorded, items, codes) && m <= |items| && |codes| == |items|
    requires c in InUse(recorded, codes[..m]) && c !in Reserved(recorded, items[..m])
    ensures j < m && Gave(recorded, items, codes, j, c)
  {
    hide TAXONOMY, Block, Prior, LeastFree;
    var e :| e in codes[..m] && e.code == Some(c);
    j :| 0 <= j < m && codes[j] == e;
    assert Assigned(symbol, recorded, codes[..j], items[j], codes[j]);
    assert items[..m][j] == items[j];
    if !IsNew(recorded, items[j]) {
      PriorCodeIsUsed(recorded, items[j]);
    }
  }

  lemma TimelyGivesOutIff(
    symbol: Symbols, recorded: seq<Entry>, items: seq<Item>, codes: seq<Entry>, name: string, c: int)
    requires InTaxonomy(items) && AllAssigned(symbol, recorded, items, codes) && Timely(recorded, items)
    requires |codes| == |items| && name in TAXONOMY && InBlock(name, c)
    ensures GivenOut(recorded, items, codes, c) <==> DueOut(recorded, items, name, c)
  {
    hide TAXONOMY, AllAssigned, Timely, Reserved, NewCount, FreeBelow, Block, InUse, Gave;
    FilledEnd(symbol, recorded, items, codes, name);
    assert items[..|items|] == items && codes[..|items|] == codes;
    if m: nat :| m < |items| && Gave(recorded, items, codes, m, c) {
      GaveIsUsed(symbol, recorded, items, codes, m, |items|, c);
      IssuedIsUnreserved(symbol, recorded, items, codes, m, |items|, c);
    }
    if DueOut(recorded, items, name, c) {
      var j := UnreservedWasIssued(symbol, recorded, items, codes, |items|, c);
    }
  }

  lemma {:induction false} FirstUntimely(recorded: seq<Entry>, items: seq<Item>) returns (m: nat)
    requires !Timely(recorded, items)
    ensures m < |items| && Timely(recorded, items[..m]) && !TimelyAt(recorded, items, m)
  {
    hide TimelyAt;
    var n := |items| - 1;
    if Timely(recorded, items[..n]) {
      m := n;
      var k: nat :| k < |items| && !TimelyAt(recorded, items, k);
      if k < n {
        TimelyAtPrefix(recorded, items, n, k);
      }
    } else {
      m := FirstUntimely(recorded, items[..n]);
      TimelyAtPrefix(recorded, items, n, m);
      assert items[..n][..m] == items[..m];
    }
  }

  lemma AssignedPrefix(symbol: Symbols, recorded: seq<Entry>, items: seq<Item>, codes: seq<Entry>, n: nat)
    requires InTaxonomy(items) && AllAssigned(symbol, recorded, items, codes) && n <= |items| && |codes| == |items|
    ensures InTaxonomy(items[..n]) && AllAssigned(symbol, recorded, items[..n], codes[..n])
  {
    hide Assigned, TAXONOMY;
    forall m | 0 <= m < n ensures Assigned(symbol, recorded, codes[..n][..m], items[..n][m], codes[..n][m]) {
      assert codes[..n][..m] == codes[..m];
    }
  }

  /** A discriminant that comes too late: its number was issued before, although it is reserved. */
  lemma LateWasIssued(symbol: Symbols, recorded: seq<Entry>, items: seq<Item>, codes: seq<Entry>)
    returns (name: string, c: int)
    requires InTaxonomy(items) && AllAssigned(symbol, recorded, items, codes) && |codes| == |items|
    requires !Timely(recorded, items)
    ensures name in TAXONOMY && InBlock(name, c)
    ensures GivenOut(recorded, items, codes, c) && c in Reserved(recorded, items)
  {
    hide TAXONOMY, AllAssigned, Timely, Reserved, NewCount, FreeBelow, Block, InUse, Gave, IsNew, InBlock;
    var m := FirstUntimely(recorded, items);
    c := items[m].scanned.discriminant.value;
    name :| name in TAXONOMY && InBlock(name, c)
            && NewCount(recorded, items[..m], name) > FreeBelow(Reserved(recorded, items[..m]), Block(name), c);
    AssignedPrefix(symbol, recorded, items, codes, m);
    FilledEnd(symbol, recorded, items[..m], codes[..m], name);
    var j := UnreservedWasIssued(symbol, recorded, items, codes, m, c);
    ReservedStep(recorded, items, m);
    ReservedGrows(recorded, items, m + 1);
  }

  /**
   Exactly which numbers of a block a build gives out: when no discriminant comes too late, those nothing
   is reserved for, with fewer such numbers before them than there are variants in need; and this is so
   of every number only then. Retired entries play no part, so a retired code is reissued whenever it
   meets this condition.
   */
  lemma GivenOutIff(symbol: Symbols, scanned: map<string, seq<Scanned>>, previous: Catalog)
    requires Build(symbol, scanned, previous).Ok?
    ensures
      var recorded, items, codes := previous.codes, AllItems(scanned), Build(symbol, scanned, previous).value.0.codes;
      && |codes| == |items|
      && (Timely(recorded, items) <==>
          forall name, c :: name in TAXONOMY && InBlock(name, c) ==>
            (GivenOut(recorded, items, codes, c) <==> DueOut(recorded, items, name, c)))
  {
    hide TAXONOMY, Build, Items, AllAssigned, Clashes, Timely, GivenOut, Reserved, NewCount, FreeBelow, InBlock;
    BuildAllocates(symbol, scanned, previous);
    var recorded, items, codes := previous.codes, AllItems(scanned), Build(symbol, scanned, previous).value.0.codes;
    SameLength(symbol, recorded, items, codes);
    if Timely(recorded, items) {
      forall name, c | name in TAXONOMY && InBlock(name, c)
        ensures GivenOut(recorded, items, codes, c) <==> DueOut(recorded, items, name, c)
      {
        TimelyGivesOutIff(symbol, recorded, items, codes, name, c);
      }
    } else {
      var name, c := LateWasIssued(symbol, recorded, items, codes);
      assert !DueOut(recorded, items, name, c);
    }
  }

  /** The documented promise that a retired code is never reissued, broken by one build. */
  lemma RetiredCodeReissued(symbol: Symbols)
    ensures
      var gone := Entry("SGA-AUDIT-ERROR-OLD", Some(1001), "AuditError", "Old", "unit", "errors.rs", "");
      var scanned := map["AuditError" := [Scanned("Fresh", None, "unit", "errors.rs")]];
      var r := Build(symbol, scanned, Catalog(1, [], [gone]));
      r.Ok? && r.value.0.retired == [gone] && |r.value.0.codes| == 1 && r.value.0.codes[0].variant == "Fresh"
      && r.value.0.codes[0].code == gone.code
  {
    var gone := Entry("SGA-AUDIT-ERROR-OLD", Some(1001), "AuditError", "Old", "unit", "errors.rs", "");
    var scanned := map["AuditError" := [Scanned("Fresh", None, "unit", "errors.rs")]];
    var item := Item("AuditError", scanned["AuditError"][0]);
    assert TAXONOMY[0] == "AuditError";
    TaxonomyDistinct();
    OneEnumItems(scanned, |TAXONOMY|);
    hide Items;
    assert ItemsOf("AuditError", scanned["AuditError"]) == [item];
    EmptyFold(symbol, [], scanned);
    assert Used([]) == {};
    assert [] + [item] == [item];
    FoldStep(symbol, [], [], item);
    assert Block("AuditError") == 1000;
  }

  lemma {:induction false} OneEnumItems(scanned: map<string, seq<Scanned>>, k: nat)
    requires 0 < k <= |TAXONOMY| && scanned.Keys == {TAXONOMY[0]}
    ensures Items(scanned, k) == ItemsOf(TAXONOMY[0], scanned[TAXONOMY[0]])
  {
    hide TAXONOMY;
    if k > 1 {
      OneEnumItems(scanned, k - 1);
      NotStarted(k - 1);
      assert TAXONOMY[..k - 1][0] == TAXONOMY[0];
    }
  }
}
