/**
 Changesets merged part by part, against the same changesets one by one. Merging
 changes three things only: which gas coin pays how much, how often an owner's books
 are posted, and when the supply is checked.
 */
module Merging {
  import opened Prelude
  import opened ChangeSets
  import opened Ledger

  function MergeAll(css: seq<ChangeSet>): ChangeSet {
    if css == [] then EMPTY_CHANGESET
    else Merge(MergeAll(css[..|css| - 1]), css[|css| - 1])
  }

  /** What a part is applied as: itself when it is a single changeset. */
  function Merged(part: seq<ChangeSet>): ChangeSet {
    if |part| == 1 then part[0] else MergeAll(part)
  }

  function MergedParts(parts: seq<seq<ChangeSet>>): (r: seq<ChangeSet>)
    ensures |r| == |parts| && forall b :: 0 <= b < |parts| ==> r[b] == Merged(parts[b])
  {
    seq(|parts|, b requires 0 <= b < |parts| => Merged(parts[b]))
  }

  // ---------------------------------------------------------------------------
  // What merging keeps
  // ---------------------------------------------------------------------------

  lemma {:induction false} MergedObjects(css: seq<ChangeSet>, id: ObjectId)
    ensures id in MergeAll(css).objects <==> exists i :: 0 <= i < |css| && id in css[i].objects
  {
    if css != [] {
      var init := css[..|css| - 1];
      MergedObjects(init, id);
      assert forall i :: 0 <= i < |init| ==> init[i] == css[i];
    }
  }

  lemma {:induction false} MergedRefs(css: seq<ChangeSet>, id: ObjectId)
    ensures id in MergeAll(css).gasRefs <==> exists i :: 0 <= i < |css| && id in css[i].gasRefs
  {
    if css != [] {
      var init := css[..|css| - 1];
      MergedRefs(init, id);
      assert forall i :: 0 <= i < |init| ==> init[i] == css[i];
    }
  }

  ghost predicate TouchedBySome(css: seq<ChangeSet>, id: ObjectId) {
    exists i :: 0 <= i < |css| && id in Touched(css[i])
  }

  lemma MergedTouches(css: seq<ChangeSet>, id: ObjectId)
    ensures id in Touched(MergeAll(css)) <==> TouchedBySome(css, id)
  {
    MergedObjects(css, id);
    MergedRefs(css, id);
    if i :| 0 <= i < |css| && id in css[i].objects {
      assert id in Touched(css[i]);
    }
    if i :| 0 <= i < |css| && id in css[i].gasRefs {
      assert id in Touched(css[i]);
    }
  }

  lemma {:induction false} MergedWrite(css: seq<ChangeSet>, i: nat, id: ObjectId)
    requires Apart(css) && i < |css| && id in Touched(css[i])
    ensures id in MergeAll(css).objects <==> id in css[i].objects
    ensures id in css[i].objects ==> MergeAll(css).objects[id] == css[i].objects[id]
  {
    var init, last := css[..|css| - 1], css[|css| - 1];
    if i == |css| - 1 {
      MergedTouches(init, id);
      assert forall j :: 0 <= j < |init| ==> id !in Touched(css[j]) && init[j] == css[j];
      assert !TouchedBySome(init, id);
    } else {
      assert id !in Touched(last);
      MergedWrite(init, i, id);
    }
  }

  /** Before gas, an object is written as by the one changeset that touches it. */
  lemma MergedWritten(objects: Objects, css: seq<ChangeSet>, i: nat, id: ObjectId)
    requires Apart(css) && i < |css| && id in Touched(css[i])
    ensures id in Touched(Merged(css)) && Written(objects, Merged(css), id) == Written(objects, css[i], id)
  {
    if |css| > 1 {
      MergedTouches(css, id);
      MergedWrite(css, i, id);
    }
  }

  lemma AddDeltasStep(a: map<Address, OwnerDelta>, b: map<Address, OwnerDelta>, k: Address)
    requires k in b
    ensures AddDeltas(a, b) == AddDeltas(a, b - {k})[k := AddDeltas(a, b)[k]]
  {
  }

  lemma {:induction false} TotalAdd(a: map<Address, OwnerDelta>, b: map<Address, OwnerDelta>)
    ensures Total(AddDeltas(a, b)) == Total(a) + Total(b)
    decreases |b|
  {
    if b == map[] {
      assert AddDeltas(a, b) == a;
    } else {
      var k :| k in b;
      var rest := b - {k};
      TotalAdd(a, rest);
      AddDeltasStep(a, b, k);
      MapSumRemove(b, BalanceDelta, k);
      MapSumUpdate(AddDeltas(a, rest), BalanceDelta, k, AddDeltas(a, b)[k]);
    }
  }

  lemma {:induction false} MergedSupply(supply: int, css: seq<ChangeSet>)
    ensures SupplyAfter(supply, css) == supply + Total(MergeAll(css).ownerDeltas)
  {
    if css == [] {
      assert Total(MergeAll(css).ownerDeltas) == 0;
    } else {
      MergedSupply(supply, css[..|css| - 1]);
      TotalAdd(MergeAll(css[..|css| - 1]).ownerDeltas, css[|css| - 1].ownerDeltas);
    }
  }

  lemma {:induction false} MergedModules(modules: set<string>, css: seq<ChangeSet>, a: Address)
    ensures ModulesAfter(modules, css, a) == modules + DeltaOf(MergeAll(css), a).modules
  {
    if css != [] {
      MergedModules(modules, css[..|css| - 1], a);
    }
  }

  // ---------------------------------------------------------------------------
  // Cells
  // ---------------------------------------------------------------------------

  lemma CellNamed(cs: ChangeSet, n: CellName)
    ensures n in CellNames(cs) <==>
              match n
              case SupplyOf(t) => t in cs.treasuries
              case TreasuryOf(t) => t in cs.treasuries
              case DynamicField(f) => f in cs.dynamicFields
              case Cell(c) => c in cs.cells
              case TokenSupplies => false
  {
  }

  lemma MergedUpdateAt(a: ChangeSet, b: ChangeSet, n: CellName)
    ensures n in CellNames(Merge(a, b)) <==> n in CellNames(a) || n in CellNames(b)
    ensures n in CellNames(b) ==> CellValue(Merge(a, b), n) == CellValue(b, n)
    ensures n in CellNames(a) && n !in CellNames(b) ==> CellValue(Merge(a, b), n) == CellValue(a, n)
  {
    CellNamed(a, n);
    CellNamed(b, n);
    CellNamed(Merge(a, b), n);
  }

  lemma MergedUpdatesAt(a: ChangeSet, b: ChangeSet, n: CellName)
    ensures var merged, each := CellUpdates(Merge(a, b)), CellUpdates(a) + CellUpdates(b);
            (n in merged <==> n in each) && (n in merged ==> merged[n] == each[n])
  {
    MergedUpdateAt(a, b, n);
  }

  lemma SameUpdates(u: map<CellName, Option<string>>, v: map<CellName, Option<string>>)
    requires forall n :: (n in u <==> n in v) && (n in u ==> u[n] == v[n])
    ensures u == v
  {
  }

  lemma MergedUpdates(a: ChangeSet, b: ChangeSet)
    ensures CellUpdates(Merge(a, b)) == CellUpdates(a) + CellUpdates(b)
  {
    forall n
      ensures var merged, each := CellUpdates(Merge(a, b)), CellUpdates(a) + CellUpdates(b);
              (n in merged <==> n in each) && (n in merged ==> merged[n] == each[n])
    {
      MergedUpdatesAt(a, b, n);
    }
    SameUpdates(CellUpdates(Merge(a, b)), CellUpdates(a) + CellUpdates(b));
  }

  lemma ApplyCellsTwice(cells: map<CellName, string>, u: map<CellName, Option<string>>,
                        v: map<CellName, Option<string>>)
    ensures ApplyCells(cells, u + v) == ApplyCells(ApplyCells(cells, u), v)
  {
  }

  lemma {:induction false} MergedCells(cells: map<CellName, string>, css: seq<ChangeSet>)
    ensures CellsAfter(cells, css) == ApplyCells(cells, CellUpdates(MergeAll(css)))
  {
    if css == [] {
      assert CellNames(EMPTY_CHANGESET) == {};
      assert ApplyCells(cells, CellUpdates(EMPTY_CHANGESET)) == cells;
    } else {
      var init, last := css[..|css| - 1], css[|css| - 1];
      MergedCells(cells, init);
      MergedUpdates(MergeAll(init), last);
      ApplyCellsTwice(cells, CellUpdates(MergeAll(init)), CellUpdates(last));
    }
  }

  // ---------------------------------------------------------------------------
  // Lists of parts
  // ---------------------------------------------------------------------------

  lemma {:induction false} SupplyAppend(supply: int, a: seq<ChangeSet>, b: seq<ChangeSet>)
    ensures SupplyAfter(supply, a + b) == SupplyAfter(SupplyAfter(supply, a), b)
  {
    if b == [] {
      assert a + b == a;
    } else {
      SupplyAppend(supply, a, b[..|b| - 1]);
      AppendLast(a, b);
    }
  }

  lemma {:induction false} CellsAppend(cells: map<CellName, string>, a: seq<ChangeSet>, b: seq<ChangeSet>)
    ensures CellsAfter(cells, a + b) == CellsAfter(CellsAfter(cells, a), b)
  {
    if b == [] {
      assert a + b == a;
    } else {
      CellsAppend(cells, a, b[..|b| - 1]);
      AppendLast(a, b);
    }
  }

  lemma {:induction false} ModulesAppend(modules: set<string>, a: seq<ChangeSet>, b: seq<ChangeSet>, who: Address)
    ensures ModulesAfter(modules, a + b, who) == ModulesAfter(ModulesAfter(modules, a, who), b, who)
  {
    if b == [] {
      assert a + b == a;
    } else {
      ModulesAppend(modules, a, b[..|b| - 1], who);
      AppendLast(a, b);
    }
  }

  lemma OnePart(supply: int, cells: map<CellName, string>, modules: set<string>, part: seq<ChangeSet>, a: Address)
    ensures SupplyAfter(supply, part) == supply + Total(Merged(part).ownerDeltas)
    ensures CellsAfter(cells, part) == ApplyCells(cells, CellUpdates(Merged(part)))
    ensures ModulesAfter(modules, part, a) == modules + DeltaOf(Merged(part), a).modules
  {
    if |part| == 1 {
      assert part[..0] == [];
    } else {
      MergedSupply(supply, part);
      MergedCells(cells, part);
      MergedModules(modules, part, a);
    }
  }

  /** Supply, cells and modules come out the same merged as one by one. */
  lemma {:induction false} PartsKeepTotals(supply: int, cells: map<CellName, string>, modules: set<string>,
                                           parts: seq<seq<ChangeSet>>, a: Address)
    ensures SupplyAfter(supply, MergedParts(parts)) == SupplyAfter(supply, Flatten(parts))
    ensures CellsAfter(cells, MergedParts(parts)) == CellsAfter(cells, Flatten(parts))
    ensures ModulesAfter(modules, MergedParts(parts), a) == ModulesAfter(modules, Flatten(parts), a)
  {
    if parts != [] {
      var init, last := parts[..|parts| - 1], parts[|parts| - 1];
      PartsKeepTotals(supply, cells, modules, init, a);
      assert MergedParts(parts)[..|init|] == MergedParts(init);
      FlattenLast(parts);
      SupplyAppend(supply, Flatten(init), last);
      CellsAppend(cells, Flatten(init), last);
      ModulesAppend(modules, Flatten(init), last, a);
      OnePart(SupplyAfter(supply, Flatten(init)), CellsAfter(cells, Flatten(init)),
              ModulesAfter(modules, Flatten(init), a), last, a);
    }
  }

  lemma PartIsApart(parts: seq<seq<ChangeSet>>, b: nat)
    requires Apart(Flatten(parts)) && b < |parts|
    ensures Apart(parts[b])
  {
    forall i, j | 0 <= i < j < |parts[b]| ensures Touched(parts[b][i]) !! Touched(parts[b][j]) {
      FlattenIndex(parts, b, i);
      FlattenIndex(parts, b, j);
    }
  }

  lemma MergedIsTouchedBy(part: seq<ChangeSet>, id: ObjectId) returns (k: nat)
    requires id in Touched(Merged(part))
    ensures k < |part| && id in Touched(part[k])
  {
    if |part| == 1 {
      k := 0;
    } else {
      MergedTouches(part, id);
      k :| 0 <= k < |part| && id in Touched(part[k]);
    }
  }

  lemma {:induction false} OffsetsGrow<T>(parts: seq<seq<T>>, b: nat, c: nat)
    requires b < c <= |parts|
    ensures |Flatten(parts[..b])| + |parts[b]| <= |Flatten(parts[..c])|
  {
    FlattenAppend(parts[..b], parts[b..c]);
    assert parts[..b] + parts[b..c] == parts[..c];
    assert parts[b..c][0] == parts[b];
  }

  lemma MergedPartsAreApart(parts: seq<seq<ChangeSet>>)
    requires Apart(Flatten(parts))
    ensures Apart(MergedParts(parts))
  {
    forall b, c | 0 <= b < c < |parts| ensures Touched(Merged(parts[b])) !! Touched(Merged(parts[c])) {
      forall id | id in Touched(Merged(parts[b])) && id in Touched(Merged(parts[c])) ensures false {
        var j := MergedIsTouchedBy(parts[b], id);
        var k := MergedIsTouchedBy(parts[c], id);
        FlattenIndex(parts, b, j);
        FlattenIndex(parts, c, k);
        OffsetsGrow(parts, b, c);
      }
    }
  }

  lemma {:induction false} FinalIsNext(objects: Objects, css: seq<ChangeSet>, i: nat, id: ObjectId)
    requires Apart(css) && i < |css| && id in Touched(css[i])
    ensures FinalAt(objects, css, id) == Next(objects, css[i], id)
  {
    if i < |css| - 1 {
      FinalIsNext(objects, css[..|css| - 1], i, id);
    }
  }

  // ---------------------------------------------------------------------------
  // When merging is applying one by one
  // ---------------------------------------------------------------------------

  /** Every coin pays for gas in the merged part what it pays in its own changeset. */
  ghost predicate PartPaysAlike(objects: Objects, part: seq<ChangeSet>) {
    forall k, id :: 0 <= k < |part| && id in Touched(part[k]) ==>
      TollOn(objects, Merged(part), id) == TollOn(objects, part[k], id)
  }

  ghost predicate GasAgrees(objects: Objects, parts: seq<seq<ChangeSet>>) {
    forall b :: 0 <= b < |parts| ==> PartPaysAlike(objects, parts[b])
  }

  /** An owner's books come out the same posted part by part as changeset by changeset. */
  ghost predicate OwnerAgrees(books: Books, s: State, parts: seq<seq<ChangeSet>>, a: Address) {
    PostedAll(books, BookOf(s, a), StepsOf(s.objects, MergedParts(parts), a))
    == PostedAll(books, BookOf(s, a), StepsOf(s.objects, Flatten(parts), a))
  }

  ghost predicate OwnersAgree(books: Books, s: State, parts: seq<seq<ChangeSet>>) {
    forall a :: OwnerAgrees(books, s, parts, a)
  }

  /** What the state before and the changesets must satisfy for merging not to show. */
  ghost predicate MergesUnseen(books: Books, s: State, parts: seq<seq<ChangeSet>>) {
    && GasAgrees(s.objects, parts) && OwnersAgree(books, s, parts)
    && SupplyInRange(s.supply, Flatten(parts))
  }

  lemma PayableAlike(objects: Objects, part: seq<ChangeSet>)
    requires Apart(part) && PartPaysAlike(objects, part)
    ensures Payable(objects, Merged(part)) <==> AllPayable(objects, part)
  {
    if Payable(objects, Merged(part)) {
      forall k, id | 0 <= k < |part| && id in Touched(part[k])
        ensures Covers(Written(objects, part[k], id), TollOn(objects, part[k], id).amount)
      {
        MergedWritten(objects, part, k, id);
      }
    }
    if AllPayable(objects, part) {
      forall id | id in Touched(Merged(part))
        ensures Covers(Written(objects, Merged(part), id), TollOn(objects, Merged(part), id).amount)
      {
        var k := MergedIsTouchedBy(part, id);
        MergedWritten(objects, part, k, id);
        assert Payable(objects, part[k]);
      }
    }
  }

  lemma AllPayableAlike(objects: Objects, parts: seq<seq<ChangeSet>>)
    requires Apart(Flatten(parts)) && GasAgrees(objects, parts)
    ensures AllPayable(objects, MergedParts(parts)) <==> AllPayable(objects, Flatten(parts))
  {
    forall b | 0 <= b < |parts|
      ensures Payable(objects, MergedParts(parts)[b]) <==> AllPayable(objects, parts[b])
    {
      PartIsApart(parts, b);
      PayableAlike(objects, parts[b]);
    }
    if AllPayable(objects, MergedParts(parts)) {
      forall i | 0 <= i < |Flatten(parts)| ensures Payable(objects, Flatten(parts)[i]) {
        var b, k := FlattenLocate(parts, i);
        assert Payable(objects, MergedParts(parts)[b]);
      }
    }
    if AllPayable(objects, Flatten(parts)) {
      forall b | 0 <= b < |parts| ensures AllPayable(objects, parts[b]) {
        forall k | 0 <= k < |parts[b]| ensures Payable(objects, parts[b][k]) {
          FlattenIndex(parts, b, k);
        }
      }
    }
  }

  /** Equal remainders of one coin are equal tolls. */
  lemma TollFromRemainder(o: Option<StoredObject>, x: Toll, y: Toll)
    requires Covers(o, x.amount) && Covers(o, y.amount)
    requires (x.bumps ==> x.amount > 0) && (y.bumps ==> y.amount > 0)
    ensures Tolled(o, x) == Tolled(o, y) <==> x == y
  {
  }

  lemma NextAgrees(objects: Objects, merged: ChangeSet, own: ChangeSet, id: ObjectId)
    requires id in Touched(merged) && id in Touched(own) && Written(objects, merged, id) == Written(objects, own, id)
    requires Payable(objects, merged) && Payable(objects, own)
    ensures Next(objects, merged, id) == Next(objects, own, id)
            <==> TollOn(objects, merged, id) == TollOn(objects, own, id)
  {
    BumpIsPaid(objects, merged, id);
    BumpIsPaid(objects, own, id);
    TollFromRemainder(Written(objects, own, id), TollOn(objects, merged, id), TollOn(objects, own, id));
  }

  lemma FinalOfMerged(objects: Objects, parts: seq<seq<ChangeSet>>, b: nat, k: nat, id: ObjectId)
    requires Apart(Flatten(parts)) && b < |parts| && k < |parts[b]| && id in Touched(parts[b][k])
    ensures FinalAt(objects, MergedParts(parts), id) == Next(objects, Merged(parts[b]), id)
  {
    PartIsApart(parts, b);
    MergedPartsAreApart(parts);
    MergedWritten(objects, parts[b], k, id);
    FinalIsNext(objects, MergedParts(parts), b, id);
  }

  lemma FinalOfEach(objects: Objects, parts: seq<seq<ChangeSet>>, b: nat, k: nat, id: ObjectId)
    requires Apart(Flatten(parts)) && b < |parts| && k < |parts[b]| && id in Touched(parts[b][k])
    ensures FinalAt(objects, Flatten(parts), id) == Next(objects, parts[b][k], id)
  {
    FlattenIndex(parts, b, k);
    FinalIsNext(objects, Flatten(parts), |Flatten(parts[..b])| + k, id);
  }

  lemma PayableIn(objects: Objects, parts: seq<seq<ChangeSet>>, b: nat, k: nat)
    requires b < |parts| && k < |parts[b]|
    requires AllPayable(objects, MergedParts(parts)) && AllPayable(objects, Flatten(parts))
    ensures Payable(objects, Merged(parts[b])) && Payable(objects, parts[b][k])
  {
    FlattenIndex(parts, b, k);
    assert Payable(objects, MergedParts(parts)[b]);
  }

  /** The object comes out the same merged as one by one. */
  ghost predicate SameFinal(objects: Objects, parts: seq<seq<ChangeSet>>, id: ObjectId) {
    FinalAt(objects, MergedParts(parts), id) == FinalAt(objects, Flatten(parts), id)
  }

  lemma ObjectAgrees(objects: Objects, parts: seq<seq<ChangeSet>>, b: nat, k: nat, id: ObjectId)
    requires Apart(Flatten(parts)) && b < |parts| && k < |parts[b]| && id in Touched(parts[b][k])
    requires AllPayable(objects, MergedParts(parts)) && AllPayable(objects, Flatten(parts))
    ensures SameFinal(objects, parts, id) <==> TollOn(objects, Merged(parts[b]), id) == TollOn(objects, parts[b][k], id)
  {
    PartIsApart(parts, b);
    MergedWritten(objects, parts[b], k, id);
    PayableIn(objects, parts, b, k);
    FinalOfMerged(objects, parts, b, k, id);
    FinalOfEach(objects, parts, b, k, id);
    NextAgrees(objects, Merged(parts[b]), parts[b][k], id);
  }

  lemma UntouchedAgrees(objects: Objects, parts: seq<seq<ChangeSet>>, id: ObjectId)
    requires forall b, k :: 0 <= b < |parts| && 0 <= k < |parts[b]| ==> id !in Touched(parts[b][k])
    ensures FinalAt(objects, MergedParts(parts), id) == FinalAt(objects, Flatten(parts), id)
  {
    forall b | 0 <= b < |parts| ensures id !in Touched(MergedParts(parts)[b]) {
      if id in Touched(Merged(parts[b])) {
        var k := MergedIsTouchedBy(parts[b], id);
      }
    }
    forall i | 0 <= i < |Flatten(parts)| ensures id !in Touched(Flatten(parts)[i]) {
      var b, k := FlattenLocate(parts, i);
    }
    UntouchedIsFinal(objects, MergedParts(parts), id);
    UntouchedIsFinal(objects, Flatten(parts), id);
  }

  lemma FinalFromToll(objects: Objects, parts: seq<seq<ChangeSet>>, id: ObjectId)
    requires Apart(Flatten(parts)) && GasAgrees(objects, parts)
    requires AllPayable(objects, MergedParts(parts)) && AllPayable(objects, Flatten(parts))
    ensures SameFinal(objects, parts, id)
  {
    if b, k :| 0 <= b < |parts| && 0 <= k < |parts[b]| && id in Touched(parts[b][k]) {
      assert PartPaysAlike(objects, parts[b]);
      ObjectAgrees(objects, parts, b, k, id);
    } else {
      UntouchedAgrees(objects, parts, id);
    }
  }

  lemma TollsFromFinals(objects: Objects, parts: seq<seq<ChangeSet>>, b: nat)
    requires Apart(Flatten(parts)) && b < |parts|
    requires AllPayable(objects, MergedParts(parts)) && AllPayable(objects, Flatten(parts))
    requires forall id :: SameFinal(objects, parts, id)
    ensures PartPaysAlike(objects, parts[b])
  {
    forall k, id | 0 <= k < |parts[b]| && id in Touched(parts[b][k])
      ensures TollOn(objects, Merged(parts[b]), id) == TollOn(objects, parts[b][k], id)
    {
      assert SameFinal(objects, parts, id);
      ObjectAgrees(objects, parts, b, k, id);
    }
  }

  /** The objects come out the same exactly when every coin pays the same. */
  lemma ObjectsAgreeIff(objects: Objects, parts: seq<seq<ChangeSet>>)
    requires Apart(Flatten(parts))
    requires AllPayable(objects, MergedParts(parts)) && AllPayable(objects, Flatten(parts))
    ensures (forall id :: SameFinal(objects, parts, id)) <==> GasAgrees(objects, parts)
  {
    if forall id :: SameFinal(objects, parts, id) {
      forall b | 0 <= b < |parts| ensures PartPaysAlike(objects, parts[b]) {
        TollsFromFinals(objects, parts, b);
      }
    }
    if GasAgrees(objects, parts) {
      forall id ensures SameFinal(objects, parts, id) {
        FinalFromToll(objects, parts, id);
      }
    }
  }

  predicate NoneEmpty<T(==)>(parts: seq<seq<T>>) {
    forall b :: 0 <= b < |parts| ==> parts[b] != []
  }

  lemma PrefixesCoverCuts(supply: int, parts: seq<seq<ChangeSet>>)
    requires SupplyInRange(supply, Flatten(parts)) && NoneEmpty(parts)
    ensures SupplyInRange(supply, MergedParts(parts))
  {
    forall b | 0 < b <= |parts| ensures InRange(SupplyAfter(supply, MergedParts(parts)[..b])) {
      SupplyAtCut(supply, parts, b);
      FlattenCut(parts, b);
      FlattenIsLonger(parts[..b]);
    }
  }

  lemma SupplyAtCut(supply: int, parts: seq<seq<ChangeSet>>, b: nat)
    requires b <= |parts|
    ensures SupplyAfter(supply, MergedParts(parts)[..b]) == SupplyAfter(supply, Flatten(parts[..b]))
  {
    assert MergedParts(parts)[..b] == MergedParts(parts[..b]);
    PartsKeepTotals(supply, map[], {}, parts[..b], "");
  }

  lemma FoundAlike(x: Objects, y: Objects)
    requires forall id :: Find(x, id) == Find(y, id)
    ensures x == y
  {
    forall id ensures id in x <==> id in y {
      assert Find(x, id) == Find(y, id);
    }
    forall id | id in x ensures x[id] == y[id] {
      assert Find(x, id) == Find(y, id);
    }
  }

  lemma AccountsAlike(books: Books, s: State, parts: seq<seq<ChangeSet>>, x: State, y: State, a: Address)
    requires Leaves(books, s, MergedParts(parts), x) && Leaves(books, s, Flatten(parts), y)
    ensures AccountAt(x.accounts, a).modules == AccountAt(y.accounts, a).modules
    ensures OwnerAgrees(books, s, parts, a) <==> BookOf(x, a) == BookOf(y, a)
  {
    PartsKeepTotals(s.supply, s.cells, AccountAt(s.accounts, a).modules, parts, a);
  }

  lemma ObjectsAlikeIff(books: Books, s: State, parts: seq<seq<ChangeSet>>, x: State, y: State)
    requires Leaves(books, s, MergedParts(parts), x) && Leaves(books, s, Flatten(parts), y)
    ensures x.objects == y.objects <==> forall id :: SameFinal(s.objects, parts, id)
  {
    forall id ensures Find(x.objects, id) == Find(y.objects, id) <==> SameFinal(s.objects, parts, id) {
    }
    if forall id :: SameFinal(s.objects, parts, id) {
      FoundAlike(x.objects, y.objects);
    }
    if x.objects == y.objects {
      forall id ensures SameFinal(s.objects, parts, id) {
        assert Find(x.objects, id) == Find(y.objects, id);
      }
    }
  }

  /** Two ends of the same changesets are alike exactly when objects and books are. */
  lemma AlikeIff(books: Books, s: State, parts: seq<seq<ChangeSet>>, x: State, y: State)
    requires Leaves(books, s, MergedParts(parts), x) && Leaves(books, s, Flatten(parts), y)
    ensures Alike(x, y) <==> (forall id :: SameFinal(s.objects, parts, id)) && OwnersAgree(books, s, parts)
  {
    PartsKeepTotals(s.supply, s.cells, {}, parts, "");
    ObjectsAlikeIff(books, s, parts, x, y);
    forall a
      ensures AccountAt(x.accounts, a).modules == AccountAt(y.accounts, a).modules
      ensures OwnerAgrees(books, s, parts, a) <==> BookOf(x, a) == BookOf(y, a)
    {
      AccountsAlike(books, s, parts, x, y, a);
    }
    EndsAlike(books, s, parts, x, y);
  }

  lemma EndsAlike(books: Books, s: State, parts: seq<seq<ChangeSet>>, x: State, y: State)
    requires x.supply == y.supply && x.cells == y.cells
    requires forall a :: AccountAt(x.accounts, a).modules == AccountAt(y.accounts, a).modules
    requires forall a :: OwnerAgrees(books, s, parts, a) <==> BookOf(x, a) == BookOf(y, a)
    ensures Alike(x, y) <==> x.objects == y.objects && OwnersAgree(books, s, parts)
  {
    if x.objects == y.objects && OwnersAgree(books, s, parts) {
      forall a ensures AccountAt(x.accounts, a) == AccountAt(y.accounts, a) {
        assert OwnerAgrees(books, s, parts, a);
      }
    }
    if Alike(x, y) {
      forall a ensures OwnerAgrees(books, s, parts, a) {
        assert BookOf(x, a) == BookOf(y, a);
      }
    }
  }

  lemma BooksAcceptAlike(books: Books, s: State, parts: seq<seq<ChangeSet>>)
    requires OwnersAgree(books, s, parts)
    ensures BooksAccept(books, s, MergedParts(parts)) <==> BooksAccept(books, s, Flatten(parts))
  {
    forall a
      ensures PostedAll(books, BookOf(s, a), StepsOf(s.objects, MergedParts(parts), a)).Some?
              <==> PostedAll(books, BookOf(s, a), StepsOf(s.objects, Flatten(parts), a)).Some?
    {
      assert OwnerAgrees(books, s, parts, a);
    }
  }

  lemma SucceedsAlike(books: Books, s: State, parts: seq<seq<ChangeSet>>)
    requires Apart(Flatten(parts)) && MergesUnseen(books, s, parts) && NoneEmpty(parts)
    ensures Succeeds(books, s, MergedParts(parts)) <==> Succeeds(books, s, Flatten(parts))
  {
    AllPayableAlike(s.objects, parts);
    PrefixesCoverCuts(s.supply, parts);
    BooksAcceptAlike(books, s, parts);
  }

  /**
   Applying changesets part by part, each part merged, gives what applying them one by one
   gives, failure included, if and only if, once one of the two succeeds, every gas coin
   pays the same, every owner's books come out the same and every prefix keeps the supply
   in range. All three are decided by the state before and the changesets.
   */
  lemma MergedIsEachIff(books: Books, s: State, parts: seq<seq<ChangeSet>>)
    requires Apart(Flatten(parts)) && NoneEmpty(parts)
    ensures var merged, each := ApplyEach(books, s, MergedParts(parts)), ApplyEach(books, s, Flatten(parts));
            SameOutcome(merged, each) <==> (merged.Ok? || each.Ok? ==> MergesUnseen(books, s, parts))
  {
    MergedPartsAreApart(parts);
    EachIff(books, s, MergedParts(parts));
    EachIff(books, s, Flatten(parts));
    var merged, each := ApplyEach(books, s, MergedParts(parts)), ApplyEach(books, s, Flatten(parts));
    if MergesUnseen(books, s, parts) {
      SucceedsAlike(books, s, parts);
    }
    if merged.Ok? && each.Ok? {
      ObjectsAgreeIff(s.objects, parts);
      AlikeIff(books, s, parts, merged.value, each.value);
    }
  }

  // ---------------------------------------------------------------------------
  // Gas of one payer
  // ---------------------------------------------------------------------------

  /** A coin that a changeset only names for gas. */
  ghost predicate GasCoin(objects: Objects, cs: ChangeSet, id: ObjectId, owner: Address) {
    && id in cs.gasRefs && id !in cs.objects
    && id in objects && objects[id].value.coin.Some? && objects[id].value.owner == owner
  }

  lemma {:induction false} TakenIsCharged(bill: seq<Charge>, id: ObjectId) returns (k: nat)
    requires TakenFrom(bill, id) > 0
    ensures k < |bill| && bill[k].id == id
  {
    if bill[0].id == id {
      k := 0;
    } else {
      k := TakenIsCharged(bill[1..], id);
      k := k + 1;
    }
  }

  lemma {:induction false} EarlyAreWritten(objects: Objects, cs: ChangeSet, ids: seq<ObjectId>, v: Visit)
    requires v in EarlyVisits(objects, cs, ids)
    ensures v.id in cs.objects && v.id in objects && v.owner == objects[v.id].value.owner && !v.late
  {
    if ids != [] && v in EarlyVisits(objects, cs, ids[1..]) {
      EarlyAreWritten(objects, cs, ids[1..], v);
    }
  }

  lemma {:induction false} LateOwner(objects: Objects, cs: ChangeSet, ids: seq<ObjectId>, v: Visit)
    requires v in LateVisits(objects, cs, ids)
    ensures v.id in ids && v.late
    ensures Written(objects, cs, v.id).Some? && v.owner == Written(objects, cs, v.id).value.value.owner
  {
    if ids != [] && v in LateVisits(objects, cs, ids[1..]) {
      LateOwner(objects, cs, ids[1..], v);
    }
  }

  /** A coin that is not written is charged for its own owner. */
  lemma ChargedFor(objects: Objects, cs: ChangeSet, id: ObjectId, owner: Address) returns (k: nat)
    requires GasCoin(objects, cs, id, owner) && TollOn(objects, cs, id).amount > 0
    ensures k < |Bill(objects, cs)| && Bill(objects, cs)[k].id == id && Bill(objects, cs)[k].owner == owner
  {
    var early, late := EarlyVisits(objects, cs, cs.order), LateVisits(objects, cs, cs.gasRefs);
    k := TakenIsCharged(Bill(objects, cs), id);
    ChargesAreVisits(DueBy(cs), early + late, {}, k);
    var c := Bill(objects, cs)[k];
    var v := Visit(c.id, c.owner, c.late);
    if v in early {
      EarlyAreWritten(objects, cs, cs.order, v);
    } else {
      assert v in late;
      LateOwner(objects, cs, cs.gasRefs, v);
    }
  }

  /** One changeset charges at most one coin of an owner. */
  lemma OneCoinPerOwner(objects: Objects, cs: ChangeSet, x: ObjectId, y: ObjectId, owner: Address)
    requires x != y && GasCoin(objects, cs, x, owner) && GasCoin(objects, cs, y, owner)
    ensures TollOn(objects, cs, x).amount == 0 || TollOn(objects, cs, y).amount == 0
  {
    if TollOn(objects, cs, x).amount > 0 && TollOn(objects, cs, y).amount > 0 {
      var early, late := EarlyVisits(objects, cs, cs.order), LateVisits(objects, cs, cs.gasRefs);
      var i := ChargedFor(objects, cs, x, owner);
      var j := ChargedFor(objects, cs, y, owner);
      PaysOnce(DueBy(cs), early + late, {}, Min(i, j), Max(i, j));
      assert false;
    }
  }

  lemma MergedGasCoin(objects: Objects, part: seq<ChangeSet>, i: nat, id: ObjectId, owner: Address)
    requires Apart(part) && i < |part| && GasCoin(objects, part[i], id, owner)
    ensures GasCoin(objects, Merged(part), id, owner)
  {
    assert id in Touched(part[i]);
    if |part| > 1 {
      MergedWrite(part, i, id);
      MergedRefs(part, id);
    }
  }

  /** Two changesets that charge coins of one owner never merge unseen: merged, only one of the coins pays. */
  lemma OnePayerTwice(objects: Objects, part: seq<ChangeSet>, i: nat, j: nat, x: ObjectId, y: ObjectId, owner: Address)
    requires Apart(part) && i < j < |part|
    requires GasCoin(objects, part[i], x, owner) && TollOn(objects, part[i], x).amount > 0
    requires GasCoin(objects, part[j], y, owner) && TollOn(objects, part[j], y).amount > 0
    ensures !PartPaysAlike(objects, part)
  {
    assert x in Touched(part[i]) && y in Touched(part[j]) && Touched(part[i]) !! Touched(part[j]);
    MergedGasCoin(objects, part, i, x, owner);
    MergedGasCoin(objects, part, j, y, owner);
    OneCoinPerOwner(objects, Merged(part), x, y, owner);
  }

  // ---------------------------------------------------------------------------
  // Only owners that two changesets move can come out differently
  // ---------------------------------------------------------------------------

  lemma MergedChange(objects: Objects, part: seq<ChangeSet>, k: nat, id: ObjectId)
    requires Apart(part) && PartPaysAlike(objects, part) && k < |part| && id in Touched(part[k])
    ensures id in ChangesOf(objects, Merged(part)) <==> id in ChangesOf(objects, part[k])
    ensures id in ChangesOf(objects, part[k]) ==>
            ChangesOf(objects, Merged(part))[id] == ChangesOf(objects, part[k])[id]
  {
    MergedWritten(objects, part, k, id);
    assert TollOn(objects, Merged(part), id) == TollOn(objects, part[k], id);
    if |part| > 1 {
      MergedWrite(part, k, id);
    }
  }

  predicate NamesOwner(cs: ChangeSet, a: Address) {
    a in cs.ownerDeltas || a in cs.gasCredits
  }

  lemma {:induction false} NobodyNames(css: seq<ChangeSet>, a: Address)
    requires forall i :: 0 <= i < |css| ==> !NamesOwner(css[i], a)
    ensures !NamesOwner(MergeAll(css), a)
  {
    if css != [] {
      NobodyNames(css[..|css| - 1], a);
    }
  }

  lemma {:induction false} OnlyOneNames(css: seq<ChangeSet>, k: nat, a: Address)
    requires k < |css| && forall i :: 0 <= i < |css| && i != k ==> !NamesOwner(css[i], a)
    ensures NamesOwner(MergeAll(css), a) <==> NamesOwner(css[k], a)
    ensures DeltaOf(MergeAll(css), a).balance == DeltaOf(css[k], a).balance
    ensures GasCredit(MergeAll(css), a) == GasCredit(css[k], a)
  {
    var init := css[..|css| - 1];
    if k == |css| - 1 {
      NobodyNames(init, a);
    } else {
      OnlyOneNames(init, k, a);
    }
  }

  ghost predicate MovesOwner(objects: Objects, cs: ChangeSet, a: Address) {
    Moves(StepOf(objects, cs, a))
  }

  lemma NotMovedNotOwned(objects: Objects, cs: ChangeSet, a: Address, id: ObjectId)
    requires !MovesOwner(objects, cs, a) && id in ChangesOf(objects, cs)
    ensures !Owns(a, ChangesOf(objects, cs)[id].before) && !Owns(a, ChangesOf(objects, cs)[id].after)
  {
    assert id !in StepOf(objects, cs, a).before;
  }

  /** `x` and `y` have the same changes of objects that the owner had or has. */
  ghost predicate SameFor(a: Address, x: Changes, y: Changes) {
    && (forall id :: id in x && (Owns(a, x[id].before) || Owns(a, x[id].after)) ==> id in y && y[id] == x[id])
    && (forall id :: id in y && (Owns(a, y[id].before) || Owns(a, y[id].after)) ==> id in x && x[id] == y[id])
  }

  lemma SameStep(a: Address, x: Changes, y: Changes, named: bool, delta: int, credit: nat)
    requires SameFor(a, x, y)
    ensures StepIn(x, a, named, delta, credit) == StepIn(y, a, named, delta, credit)
  {
    var mine := set id | id in x && (Owns(a, x[id].before) || Owns(a, x[id].after));
    assert mine == set id | id in y && (Owns(a, y[id].before) || Owns(a, y[id].after));
  }

  lemma MergedChangesFor(objects: Objects, part: seq<ChangeSet>, k: nat, a: Address)
    requires Apart(part) && PartPaysAlike(objects, part) && k < |part|
    requires forall i :: 0 <= i < |part| && i != k ==> !MovesOwner(objects, part[i], a)
    ensures SameFor(a, ChangesOf(objects, Merged(part)), ChangesOf(objects, part[k]))
  {
    var all, own := ChangesOf(objects, Merged(part)), ChangesOf(objects, part[k]);
    forall id | id in own ensures id in all && all[id] == own[id] {
      MergedChange(objects, part, k, id);
    }
    forall id | id in all && (Owns(a, all[id].before) || Owns(a, all[id].after))
      ensures id in own && own[id] == all[id]
    {
      var i := MergedIsTouchedBy(part, id);
      MergedChange(objects, part, i, id);
      if i != k {
        NotMovedNotOwned(objects, part[i], a, id);
      }
    }
  }

  lemma MergedFigures(part: seq<ChangeSet>, k: nat, a: Address)
    requires k < |part| && forall i :: 0 <= i < |part| && i != k ==> !NamesOwner(part[i], a)
    ensures NamesOwner(Merged(part), a) <==> NamesOwner(part[k], a)
    ensures DeltaOf(Merged(part), a).balance == DeltaOf(part[k], a).balance
    ensures GasCredit(Merged(part), a) == GasCredit(part[k], a)
  {
    if |part| > 1 {
      OnlyOneNames(part, k, a);
    }
  }

  /** An owner moved by one changeset of a part is moved by the merged part in the same way. */
  lemma MergedStep(objects: Objects, part: seq<ChangeSet>, k: nat, a: Address)
    requires Apart(part) && PartPaysAlike(objects, part) && k < |part|
    requires forall i :: 0 <= i < |part| && i != k ==> !MovesOwner(objects, part[i], a)
    ensures StepOf(objects, Merged(part), a) == StepOf(objects, part[k], a)
  {
    forall i | 0 <= i < |part| && i != k ensures !NamesOwner(part[i], a) {
      assert !MovesOwner(objects, part[i], a);
    }
    MergedFigures(part, k, a);
    MergedChangesFor(objects, part, k, a);
    SameStep(a, ChangesOf(objects, Merged(part)), ChangesOf(objects, part[k]), NamesOwner(part[k], a),
             DeltaOf(part[k], a).balance, GasCredit(part[k], a));
  }

  lemma EmptyPartMovesNobody(objects: Objects, a: Address)
    ensures !MovesOwner(objects, EMPTY_CHANGESET, a)
  {
    assert Touched(EMPTY_CHANGESET) == {};
    assert ChangesOf(objects, EMPTY_CHANGESET) == map[];
    assert StepOf(objects, EMPTY_CHANGESET, a).before == map[];
  }

  lemma MergedStillNotMoved(objects: Objects, part: seq<ChangeSet>, a: Address)
    requires Apart(part) && PartPaysAlike(objects, part)
    requires forall i :: 0 <= i < |part| ==> !MovesOwner(objects, part[i], a)
    ensures !MovesOwner(objects, Merged(part), a)
  {
    if part == [] {
      EmptyPartMovesNobody(objects, a);
    } else {
      MergedStep(objects, part, 0, a);
      assert !MovesOwner(objects, part[0], a);
    }
  }

  lemma {:induction false} NothingPosted(books: Books, book: Book, steps: seq<Step>)
    requires forall i :: 0 <= i < |steps| ==> !Moves(steps[i])
    ensures PostedAll(books, book, steps) == Some(book)
  {
    if steps != [] {
      NothingPosted(books, book, steps[..|steps| - 1]);
    }
  }

  lemma {:induction false} OnePosted(books: Books, book: Book, steps: seq<Step>, k: nat)
    requires k < |steps| && forall i :: 0 <= i < |steps| && i != k ==> !Moves(steps[i])
    ensures PostedAll(books, book, steps) == Posted(books, book, steps[k])
  {
    var init := steps[..|steps| - 1];
    if k == |steps| - 1 {
      NothingPosted(books, book, init);
    } else {
      OnePosted(books, book, init, k);
    }
  }

  /** Two changesets move the owner. */
  ghost predicate Shared(objects: Objects, css: seq<ChangeSet>, a: Address) {
    exists i, j :: 0 <= i < j < |css| && MovesOwner(objects, css[i], a) && MovesOwner(objects, css[j], a)
  }

  lemma OnlyOneMoves(objects: Objects, css: seq<ChangeSet>, a: Address, i: nat, j: nat)
    requires !Shared(objects, css, a) && i < |css| && j < |css| && i != j && MovesOwner(objects, css[i], a)
    ensures !MovesOwner(objects, css[j], a)
  {
  }

  lemma OnlyMover(objects: Objects, parts: seq<seq<ChangeSet>>, a: Address, i: nat, b: nat, k: nat)
    requires !Shared(objects, Flatten(parts), a) && i < |Flatten(parts)| && MovesOwner(objects, Flatten(parts)[i], a)
    requires b < |parts| && k < |parts[b]| && |Flatten(parts[..b])| + k != i
    ensures !MovesOwner(objects, parts[b][k], a)
  {
    FlattenIndex(parts, b, k);
    OnlyOneMoves(objects, Flatten(parts), a, i, |Flatten(parts[..b])| + k);
  }

  lemma SingleMoverAgrees(books: Books, s: State, parts: seq<seq<ChangeSet>>, a: Address, i: nat)
    requires Apart(Flatten(parts)) && GasAgrees(s.objects, parts) && !Shared(s.objects, Flatten(parts), a)
    requires i < |Flatten(parts)| && MovesOwner(s.objects, Flatten(parts)[i], a)
    ensures OwnerAgrees(books, s, parts, a)
  {
    var b, k := FlattenLocate(parts, i);
    forall c, l | 0 <= c < |parts| && 0 <= l < |parts[c]| && (c != b || l != k)
      ensures !MovesOwner(s.objects, parts[c][l], a)
    {
      if c < b {
        OffsetsGrow(parts, c, b);
      } else if b < c {
        OffsetsGrow(parts, b, c);
      }
      OnlyMover(s.objects, parts, a, i, c, l);
    }
    OtherPartsStill(s.objects, parts, a, b);
    PartIsApart(parts, b);
    MergedStep(s.objects, parts[b], k, a);
    OnePosted(books, BookOf(s, a), StepsOf(s.objects, MergedParts(parts), a), b);
    forall j | 0 <= j < |Flatten(parts)| && j != i ensures !Moves(StepsOf(s.objects, Flatten(parts), a)[j]) {
      OnlyOneMoves(s.objects, Flatten(parts), a, i, j);
    }
    OnePosted(books, BookOf(s, a), StepsOf(s.objects, Flatten(parts), a), i);
  }

  lemma OtherPartsStill(objects: Objects, parts: seq<seq<ChangeSet>>, a: Address, b: nat)
    requires Apart(Flatten(parts)) && GasAgrees(objects, parts)
    requires forall c, l :: 0 <= c < |parts| && c != b && 0 <= l < |parts[c]| ==> !MovesOwner(objects, parts[c][l], a)
    ensures forall c :: 0 <= c < |parts| && c != b ==> !MovesOwner(objects, Merged(parts[c]), a)
  {
    forall c | 0 <= c < |parts| && c != b ensures !MovesOwner(objects, Merged(parts[c]), a) {
      PartIsApart(parts, c);
      assert PartPaysAlike(objects, parts[c]);
      MergedStillNotMoved(objects, parts[c], a);
    }
  }

  lemma UnsharedAgrees(books: Books, s: State, parts: seq<seq<ChangeSet>>, a: Address)
    requires Apart(Flatten(parts)) && GasAgrees(s.objects, parts) && !Shared(s.objects, Flatten(parts), a)
    ensures OwnerAgrees(books, s, parts, a)
  {
    if i :| 0 <= i < |Flatten(parts)| && MovesOwner(s.objects, Flatten(parts)[i], a) {
      SingleMoverAgrees(books, s, parts, a, i);
    } else {
      forall c, l | 0 <= c < |parts| && 0 <= l < |parts[c]| ensures !MovesOwner(s.objects, parts[c][l], a) {
        FlattenIndex(parts, c, l);
      }
      OtherPartsStill(s.objects, parts, a, |parts|);
      NothingPosted(books, BookOf(s, a), StepsOf(s.objects, MergedParts(parts), a));
      NothingPosted(books, BookOf(s, a), StepsOf(s.objects, Flatten(parts), a));
    }
  }

  /**
   Where gas agrees, merging can show only in the books of an owner that two changesets
   move; with no such owner and the supply in range it does not show, whatever the books.
   */
  lemma OnlySharedOwnersMatter(books: Books, s: State, parts: seq<seq<ChangeSet>>)
    requires Apart(Flatten(parts)) && GasAgrees(s.objects, parts)
    ensures OwnersAgree(books, s, parts)
            <==> forall a :: Shared(s.objects, Flatten(parts), a) ==> OwnerAgrees(books, s, parts, a)
  {
    if forall a :: Shared(s.objects, Flatten(parts), a) ==> OwnerAgrees(books, s, parts, a) {
      forall a ensures OwnerAgrees(books, s, parts, a) {
        if !Shared(s.objects, Flatten(parts), a) {
          UnsharedAgrees(books, s, parts, a);
        }
      }
    }
  }
}
