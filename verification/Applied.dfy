/**
 What one application leaves, in the terms of its changeset: which keys it declares, which
 of an owner's coins pays for gas and how much, and every object and cell afterwards; and
 what a merged changeset reports.
 */
module Applied {
  import opened Prelude
  import opened ChangeSets
  import opened Ledger
  import opened Merging

  // ---------------------------------------------------------------------------
  // Declared keys
  // ---------------------------------------------------------------------------

  ghost predicate WritesObject(cs: ChangeSet, id: ObjectId) {
    id in cs.objects || id in cs.gasRefs || (cs.payment.Some? && id in cs.payment.value.objects)
  }

  ghost predicate WritesOwner(cs: ChangeSet, a: Address) {
    && a in cs.ownerDeltas
    && (|| cs.ownerDeltas[a].modules != {} || cs.ownerDeltas[a].balance >= 0
        || cs.payment.None? || cs.payment.value.objects == [] || cs.payment.value.owner != Some(a))
  }

  ghost predicate WritesCell(cs: ChangeSet, n: CellName) {
    match n
    case SupplyOf(t) => t in cs.treasuries
    case TreasuryOf(t) => t in cs.treasuries
    case TokenSupplies => cs.treasuries != map[]
    case DynamicField(f) => f in cs.dynamicFields
    case Cell(c) => c in cs.cells
  }

  ghost predicate Writes(cs: ChangeSet, key: Key) {
    match key
    case DynamicFence => cs.dynamicFields != map[]
    case OwnerKey(a) => WritesOwner(cs, a)
    case ObjectKey(id) => WritesObject(cs, id)
    case Named(n) => WritesCell(cs, n)
  }

  ghost predicate Reads(cs: ChangeSet, key: Key) {
    key.DynamicFence? || key in cs.resolverReads || (key.ObjectKey? && key.id in cs.inputs)
  }

  /** What the manifest declares, kind by kind. */
  lemma DeclaredIff(cs: ChangeSet, key: Key)
    ensures key in Manifest(cs).writeKeys <==> Writes(cs, key)
    ensures key in Manifest(cs).readKeys <==> Reads(cs, key)
  {
    match key
    case OwnerKey(a) => OwnerKeyWritten(cs, a);
    case ObjectKey(id) => ObjectKeyWritten(cs, id);
    case Named(n) => CellKeyWritten(cs, n);
    case DynamicFence =>
  }

  lemma ObjectKeyWritten(cs: ChangeSet, id: ObjectId)
    ensures ObjectKey(id) in Manifest(cs).writeKeys <==> WritesObject(cs, id)
  {
    assert ObjectKey(id) !in OwnerWrites(cs) && ObjectKey(id) !in NamedWrites(cs);
    assert ObjectKey(id) in ObjectWrites(cs) <==> id in PaymentObjects(cs) + cs.objects.Keys;
  }

  lemma CellKeyWritten(cs: ChangeSet, n: CellName)
    ensures Named(n) in Manifest(cs).writeKeys <==> WritesCell(cs, n)
  {
    assert Named(n) !in OwnerWrites(cs) && Named(n) !in ObjectWrites(cs);
    assert Named(n) in NamedWrites(cs) <==> n in CellNames(cs) || (n.TokenSupplies? && cs.treasuries != map[]);
  }

  /** Two changesets conflict exactly when one writes what the other writes or reads. */
  lemma ConflictIff(a: ChangeSet, b: ChangeSet)
    ensures ConflictsWith(Manifest(a), Manifest(b)) <==>
            exists key :: (Writes(a, key) && (Writes(b, key) || Reads(b, key))) || (Writes(b, key) && Reads(a, key))
  {
    forall key
      ensures key in Manifest(a).writeKeys <==> Writes(a, key)
      ensures key in Manifest(a).readKeys <==> Reads(a, key)
      ensures key in Manifest(b).writeKeys <==> Writes(b, key)
      ensures key in Manifest(b).readKeys <==> Reads(b, key)
    {
      DeclaredIff(a, key);
      DeclaredIff(b, key);
    }
  }

  /** The fence: a writer of dynamic fields conflicts with every changeset, whatever it does. */
  lemma DynamicWriterConflicts(a: ChangeSet, b: ChangeSet)
    requires a.dynamicFields != map[]
    ensures ConflictsWith(Manifest(a), Manifest(b)) && ConflictsWith(Manifest(b), Manifest(a))
  {
    DeclaredIff(a, DynamicFence);
    DeclaredIff(b, DynamicFence);
    ConflictSymmetric(a := Manifest(a), b := Manifest(b));
  }

  // ---------------------------------------------------------------------------
  // Who pays
  // ---------------------------------------------------------------------------

  /** What an owner is charged altogether. */
  ghost function PaidBy(bill: seq<Charge>, a: Address): nat {
    if bill == [] then 0 else (if bill[0].owner == a then bill[0].amount else 0) + PaidBy(bill[1..], a)
  }

  ghost predicate Visited(visits: seq<Visit>, a: Address) {
    exists k :: 0 <= k < |visits| && visits[k].owner == a
  }

  lemma VisitedCons(visits: seq<Visit>, a: Address)
    requires visits != []
    ensures Visited(visits, a) <==> visits[0].owner == a || Visited(visits[1..], a)
  {
    var rest := visits[1..];
    assert forall k :: 0 <= k < |rest| ==> rest[k] == visits[k + 1];
    assert forall k :: 1 <= k < |visits| ==> visits[k] == rest[k - 1];
  }

  /** An owner one of whose coins is visited pays exactly what is due, and any other nothing. */
  lemma {:induction false} PaysWhatIsDue(due: Address -> nat, visits: seq<Visit>, paid: set<Address>, a: Address)
    ensures PaidBy(Charges(due, visits, paid), a) == if a !in paid && Visited(visits, a) then due(a) else 0
    decreases |visits|
  {
    if visits != [] {
      var v, rest := visits[0], visits[1..];
      VisitedCons(visits, a);
      if due(v.owner) == 0 || v.owner in paid {
        PaysWhatIsDue(due, rest, paid, a);
      } else {
        PaysWhatIsDue(due, rest, paid + {v.owner}, a);
      }
    }
  }

  /** Of an owner's coins, the first one visited is charged. */
  lemma {:induction false} FirstCoinPays(due: Address -> nat, visits: seq<Visit>, paid: set<Address>, k: nat)
    requires k < |visits| && forall j :: 0 <= j < k ==> visits[j].owner != visits[k].owner
    requires visits[k].owner !in paid && due(visits[k].owner) > 0
    ensures var v := visits[k]; Charge(v.id, v.owner, due(v.owner), v.late) in Charges(due, visits, paid)
    decreases |visits|
  {
    if k > 0 {
      var rest := visits[1..];
      assert rest[k - 1] == visits[k] && forall j :: 0 <= j < k - 1 ==> rest[j] == visits[j + 1];
      var v := visits[0];
      if due(v.owner) == 0 || v.owner in paid {
        FirstCoinPays(due, rest, paid, k - 1);
      } else {
        FirstCoinPays(due, rest, paid + {v.owner}, k - 1);
      }
    }
  }

  // ---------------------------------------------------------------------------
  // Objects
  // ---------------------------------------------------------------------------

  lemma {:induction false} EarlyIsWritten(objects: Objects, cs: ChangeSet, ids: seq<ObjectId>, v: Visit)
    requires v in EarlyVisits(objects, cs, ids)
    ensures v.id in cs.objects && !v.late
  {
    if !Designated(objects, cs, ids[0]) || v != Visit(ids[0], objects[ids[0]].value.owner, false) {
      EarlyIsWritten(objects, cs, ids[1..], v);
    }
  }

  lemma {:induction false} LateIsLate(objects: Objects, cs: ChangeSet, ids: seq<ObjectId>, v: Visit)
    requires v in LateVisits(objects, cs, ids)
    ensures v.id in ids && v.late
  {
    var o := Written(objects, cs, ids[0]);
    if !(o.Some? && o.value.value.coin.Some? && v == Visit(ids[0], o.value.value.owner, true)) {
      LateIsLate(objects, cs, ids[1..], v);
    }
  }

  lemma {:induction false} AllLate(bill: seq<Charge>, id: ObjectId)
    requires forall k :: 0 <= k < |bill| ==> bill[k].amount > 0 && (bill[k].id == id ==> bill[k].late)
    ensures LateFor(bill, id) <==> TakenFrom(bill, id) > 0
  {
    if bill != [] {
      AllLate(bill[1..], id);
    }
  }

  /** A coin that is not rewritten takes another version exactly when gas is taken from it. */
  lemma GasOnlyBumps(objects: Objects, cs: ChangeSet, id: ObjectId)
    requires id !in cs.objects
    ensures TollOn(objects, cs, id).bumps <==> TollOn(objects, cs, id).amount > 0
  {
    var early, late := EarlyVisits(objects, cs, cs.order), LateVisits(objects, cs, cs.gasRefs);
    var bill := Bill(objects, cs);
    forall k | 0 <= k < |bill| ensures bill[k].amount > 0 && (bill[k].id == id ==> bill[k].late) {
      ChargesAreVisits(DueBy(cs), early + late, {}, k);
      var v := Visit(bill[k].id, bill[k].owner, bill[k].late);
      assert v in early || v in late;
      if v in early {
        EarlyIsWritten(objects, cs, cs.order, v);
      } else {
        LateIsLate(objects, cs, cs.gasRefs, v);
      }
    }
    AllLate(bill, id);
  }

  /** The coin of an object less what gas took from it. */
  ghost predicate LessGas(before: Option<nat>, after: Option<nat>, taken: nat) {
    match before
    case None => after.None?
    case Some(n) => taken <= n && after == Some(n - taken)
  }

  /** An object that is rewritten: contents and owner as written, gas taken, and the version after the stored one. */
  ghost predicate Rewritten(id: ObjectId, before: Option<StoredObject>, v: ObjectValue, toll: Toll, after: StoredObject)
  {
    && after.value.data == v.data && LessGas(v.coin, after.value.coin, toll.amount)
    && after.value.owner == (if before.Some? && v.owner == id then before.value.value.owner else v.owner)
    && after.version == (if before.Some? then before.value.version else 0) + 1 + (if toll.bumps then 1 else 0)
  }

  /** An object that only pays: everything else stays, and the version advances if it paid. */
  ghost predicate OnlyPaid(before: StoredObject, toll: Toll, after: StoredObject) {
    && after.value.data == before.value.data && after.value.owner == before.value.owner
    && LessGas(before.value.coin, after.value.coin, toll.amount)
    && after.version == before.version + (if toll.amount > 0 then 1 else 0)
  }

  /** Every object after an application whose gas can be paid. */
  lemma ObjectAfter(objects: Objects, cs: ChangeSet, id: ObjectId)
    requires Payable(objects, cs)
    ensures var before, after := Find(objects, id), Find(ObjectsAfter(objects, cs), id);
            var toll := TollOn(objects, cs, id);
            if id in cs.objects then
              if cs.objects[id].None? then after.None?
              else after.Some? && Rewritten(id, before, cs.objects[id].value, toll, after.value)
            else if id in cs.gasRefs && before.Some? then after.Some? && OnlyPaid(before.value, toll, after.value)
            else after == before
  {
    FindAfter(objects, cs, id);
    if id in Touched(cs) {
      assert Covers(Written(objects, cs, id), TollOn(objects, cs, id).amount);
      if id !in cs.objects {
        GasOnlyBumps(objects, cs, id);
      } else {
        BumpIsPaid(objects, cs, id);
      }
    }
  }

  // ---------------------------------------------------------------------------
  // Cells, supply and modules
  // ---------------------------------------------------------------------------

  ghost function CellAt(cells: map<CellName, string>, n: CellName): Option<string> {
    if n in cells then Some(cells[n]) else None
  }

  /** What the changeset has for a cell, if anything; an inner None removes it. */
  ghost function CellIn(cs: ChangeSet, n: CellName): Option<Option<string>> {
    match n
    case SupplyOf(token) => if token in cs.treasuries then Some(Some(cs.treasuries[token])) else None
    case TreasuryOf(token) => if token in cs.treasuries then Some(Some(cs.treasuries[token])) else None
    case DynamicField(f) => if f in cs.dynamicFields then Some(cs.dynamicFields[f]) else None
    case Cell(c) => if c in cs.cells then Some(cs.cells[c]) else None
    case TokenSupplies => None
  }

  lemma UpdateIs(cs: ChangeSet, n: CellName)
    ensures n in CellUpdates(cs) <==> CellIn(cs, n).Some?
    ensures n in CellUpdates(cs) ==> CellIn(cs, n) == Some(CellUpdates(cs)[n])
  {
  }

  /** Every cell after an application. */
  lemma CellAfter(books: Books, s: State, cs: ChangeSet, n: CellName)
    ensures var now := CellAt(Effected(books, s, cs).cells, n);
            now == if CellIn(cs, n).Some? then CellIn(cs, n).value else CellAt(s.cells, n)
  {
    UpdateIs(cs, n);
    UpdatedCell(s.cells, CellUpdates(cs), n);
  }

  lemma UpdatedCell(cells: map<CellName, string>, updates: map<CellName, Option<string>>, n: CellName)
    ensures CellAt(ApplyCells(cells, updates), n) == if n in updates then updates[n] else CellAt(cells, n)
  {
  }

  /** The supply moves by the sum of the deltas, an owner's modules grow by its own, and the epoch tells a write. */
  lemma SupplyAndModulesAfter(books: Books, s: State, cs: ChangeSet, a: Address)
    ensures var t := Effected(books, s, cs);
            && t.supply == s.supply + Total(cs.ownerDeltas)
            && AccountAt(t.accounts, a).modules
               == AccountAt(s.accounts, a).modules + (if a in cs.ownerDeltas then cs.ownerDeltas[a].modules else {})
            && s.epoch <= t.epoch <= s.epoch + 1 && (t.epoch == s.epoch <==> forall key :: !Writes(cs, key))
  {
    AccountOfEffect(books, s, cs, a);
    forall key ensures key in Manifest(cs).writeKeys <==> Writes(cs, key) {
      DeclaredIff(cs, key);
    }
  }

  // ---------------------------------------------------------------------------
  // What a merged changeset reports
  // ---------------------------------------------------------------------------

  ghost function GasSum(css: seq<ChangeSet>): nat {
    if css == [] then 0 else GasSum(css[..|css| - 1]) + css[|css| - 1].gasUsed
  }

  /** Changeset `i` failed and none after it did. */
  ghost predicate LastFailure(css: seq<ChangeSet>, i: nat) {
    i < |css| && !css[i].success && forall j :: i < j < |css| ==> css[j].success
  }

  /** Success exactly when all succeed, with the message of the last failure. */
  ghost predicate ReportsFor(css: seq<ChangeSet>, success: bool, message: Option<string>) {
    && (success <==> forall i :: 0 <= i < |css| ==> css[i].success)
    && (success ==> message == None)
    && (!success ==> exists i: nat :: LastFailure(css, i) && message == css[i].errorMessage)
  }

  lemma ReportsNext(init: seq<ChangeSet>, last: ChangeSet, success: bool, message: Option<string>)
    requires ReportsFor(init, success, message)
    ensures ReportsFor(init + [last], success && last.success, if last.success then message else last.errorMessage)
  {
    var css := init + [last];
    assert css[|init|] == last && forall i :: 0 <= i < |init| ==> css[i] == init[i];
    if !last.success {
      assert LastFailure(css, |init|);
    } else if !success {
      var i: nat :| LastFailure(init, i) && message == init[i].errorMessage;
      assert LastFailure(css, i);
    }
  }

  lemma MergeAllReports(css: seq<ChangeSet>)
    requires css != []
    ensures var init, last := MergeAll(css[..|css| - 1]), css[|css| - 1];
            && MergeAll(css).success == (init.success && last.success)
            && MergeAll(css).errorMessage == if last.success then init.errorMessage else last.errorMessage
  {
  }

  /** A merged changeset succeeds exactly when all do, with the message of the last failure. */
  lemma {:induction false} MergedSuccess(css: seq<ChangeSet>)
    ensures ReportsFor(css, MergeAll(css).success, MergeAll(css).errorMessage)
  {
    if css != [] {
      hide *;
      var init, last := css[..|css| - 1], css[|css| - 1];
      MergedSuccess(init);
      ReportsNext(init, last, MergeAll(init).success, MergeAll(init).errorMessage);
      MergeAllReports(css);
      assert css == init + [last];
    }
  }

  /** It reports the gas of all, up to the 64-bit bound. */
  lemma {:induction false} MergedGas(css: seq<ChangeSet>)
    ensures MergeAll(css).gasUsed == Min(GasSum(css), U64_MAX)
  {
    if css != [] {
      MergedGas(css[..|css| - 1]);
    }
  }

  ghost predicate ReadBySome(css: seq<ChangeSet>, key: Key) {
    exists i :: 0 <= i < |css| && Reads(css[i], key)
  }

  lemma ReadByNext(init: seq<ChangeSet>, last: ChangeSet, key: Key)
    ensures ReadBySome(init + [last], key) <==> ReadBySome(init, key) || Reads(last, key)
  {
    var css := init + [last];
    assert css[|init|] == last && forall i :: 0 <= i < |init| ==> css[i] == init[i];
  }

  /** And it reads what any of them reads. */
  lemma {:induction false} MergedReads(css: seq<ChangeSet>, key: Key)
    ensures Reads(MergeAll(css), key) <==> key.DynamicFence? || ReadBySome(css, key)
  {
    if css != [] {
      var init, last := css[..|css| - 1], css[|css| - 1];
      MergedReads(init, key);
      ReadByNext(init, last, key);
      assert css == init + [last];
      assert Reads(MergeAll(css), key) <==> Reads(MergeAll(init), key) || Reads(last, key);
    }
  }
}
