/**
 Changesets, the access manifest derived from them, and the gas settlement that
 every executed transaction goes through.

 A changeset is a value: the engine builds it, derives its manifest and hands it
 to the state. Keys are the canonical state keys of the manifest, with the byte
 prefix of the source turned into a constructor.
 */
module ChangeSets {
  import opened Prelude

  type Address = string
  type ObjectId = string

  datatype Key =
    | DynamicFence             // "df:*", read by every transaction
    | OwnerKey(owner: Address)
    | ObjectKey(id: ObjectId)
    | Named(cell: CellName)

  datatype CellName =
    | SupplyOf(token: string)
    | TreasuryOf(token: string)
    | TokenSupplies            // the global supply index
    | DynamicField(field: string)
    | Cell(name: string)       // NFT, token balance, collection, module and resource keys

  datatype AccessSet = AccessSet(readKeys: set<Key>, writeKeys: set<Key>)

  const NO_ACCESS := AccessSet({}, {})

  datatype OwnerDelta = OwnerDelta(balance: int, modules: set<string>)

  /** `owner` is absent when the declared owner is not a plain hexadecimal address. */
  datatype GasPayment = GasPayment(owner: Option<Address>, objects: seq<ObjectId>)

  /** What an object holds; `coin` is the amount when it is a coin of the native token. */
  datatype ObjectValue = ObjectValue(owner: Address, coin: Option<nat>, data: string)

  datatype ChangeSet = ChangeSet(
    ownerDeltas: map<Address, OwnerDelta>,
    gasCredits: map<Address, nat>,
    treasuries: map<string, string>,
    inputs: set<ObjectId>,
    payment: Option<GasPayment>,
    gasRefs: seq<ObjectId>,                        // the objects that gas is taken from
    objects: map<ObjectId, Option<ObjectValue>>,   // created or rewritten, None when deleted
    order: seq<ObjectId>,                          // the created or rewritten ones, as recorded
    dynamicFields: map<string, Option<string>>,
    cells: map<string, Option<string>>,            // every other named write
    resolverReads: set<Key>,
    gasUsed: nat,
    success: bool,
    errorMessage: Option<string>)

  const EMPTY_CHANGESET :=
    ChangeSet(map[], map[], map[], {}, None, [], map[], [], map[], map[], {}, 0, true, None)

  // ---------------------------------------------------------------------------
  // Conflicts
  // ---------------------------------------------------------------------------

  predicate ConflictsWith(a: AccessSet, b: AccessSet) {
    || (exists k :: k in a.writeKeys && (k in b.readKeys || k in b.writeKeys))
    || (exists k :: k in b.writeKeys && k in a.readKeys)
  }

  function ExtendAccess(target: AccessSet, source: AccessSet): AccessSet {
    AccessSet(target.readKeys + source.readKeys, target.writeKeys + source.writeKeys)
  }

  /** The access set accumulated by extending over a list, oldest first. */
  function Accumulated(accesses: seq<AccessSet>): AccessSet {
    if accesses == [] then NO_ACCESS
    else ExtendAccess(Accumulated(accesses[..|accesses| - 1]), accesses[|accesses| - 1])
  }

  ghost predicate ConflictFree(accesses: seq<AccessSet>) {
    forall i, j :: 0 <= i < j < |accesses| ==> !ConflictsWith(accesses[j], accesses[i])
  }

  lemma ConflictSymmetric(a: AccessSet, b: AccessSet)
    ensures ConflictsWith(a, b) == ConflictsWith(b, a)
  {}

  /** Testing against the accumulated set is testing against each member. */
  lemma {:induction false} AccumulatedConflict(a: AccessSet, accesses: seq<AccessSet>)
    ensures ConflictsWith(a, Accumulated(accesses))
            <==> exists i :: 0 <= i < |accesses| && ConflictsWith(a, accesses[i])
  {
    if accesses != [] {
      var init, last := accesses[..|accesses| - 1], accesses[|accesses| - 1];
      AccumulatedConflict(a, init);
      assert forall i :: 0 <= i < |init| ==> init[i] == accesses[i];
      if ConflictsWith(a, Accumulated(accesses)) && !ConflictsWith(a, last) {
        assert ConflictsWith(a, Accumulated(init));
      }
    }
  }

  // ---------------------------------------------------------------------------
  // The manifest
  // ---------------------------------------------------------------------------

  /** A pure native debit of the gas payer is left out of the write set. */
  predicate ParallelSafeDebit(cs: ChangeSet, owner: Address)
    requires owner in cs.ownerDeltas
  {
    && cs.ownerDeltas[owner].modules == {}
    && cs.ownerDeltas[owner].balance < 0
    && cs.payment.Some?
    && cs.payment.value.objects != []
    && cs.payment.value.owner == Some(owner)
  }

  function PaymentObjects(cs: ChangeSet): set<ObjectId> {
    (if cs.payment.Some? then set id | id in cs.payment.value.objects else {}) + (set id | id in cs.gasRefs)
  }

  function OwnerWrites(cs: ChangeSet): set<Key> {
    set a | a in cs.ownerDeltas && !ParallelSafeDebit(cs, a) :: OwnerKey(a)
  }

  function ObjectWrites(cs: ChangeSet): set<Key> {
    set id | id in PaymentObjects(cs) + cs.objects.Keys :: ObjectKey(id)
  }

  function CellNames(cs: ChangeSet): set<CellName> {
    (set t | t in cs.treasuries :: SupplyOf(t))
    + (set t | t in cs.treasuries :: TreasuryOf(t))
    + (set f | f in cs.dynamicFields :: DynamicField(f))
    + (set c | c in cs.cells :: Cell(c))
  }

  function NamedWrites(cs: ChangeSet): set<Key> {
    (set n | n in CellNames(cs) :: Named(n))
    + (if cs.treasuries == map[] then {} else {Named(TokenSupplies)})
  }

  function Manifest(cs: ChangeSet): AccessSet {
    AccessSet(
      cs.resolverReads + {DynamicFence} + (set id | id in cs.inputs :: ObjectKey(id)),
      OwnerWrites(cs) + ObjectWrites(cs) + NamedWrites(cs)
      + (if cs.dynamicFields == map[] then {} else {DynamicFence}))
  }

  lemma OwnerKeyWritten(cs: ChangeSet, a: Address)
    ensures OwnerKey(a) in Manifest(cs).writeKeys
            <==> a in cs.ownerDeltas && !ParallelSafeDebit(cs, a)
  {
    assert OwnerKey(a) !in ObjectWrites(cs);
    assert OwnerKey(a) !in NamedWrites(cs);
    assert OwnerKey(a) in OwnerWrites(cs) <==> a in cs.ownerDeltas && !ParallelSafeDebit(cs, a);
  }

  function Manifests(css: seq<ChangeSet>): (m: seq<AccessSet>)
    ensures |m| == |css|
    ensures forall i :: 0 <= i < |css| ==> m[i] == Manifest(css[i])
  {
    seq(|css|, i requires 0 <= i < |css| => Manifest(css[i]))
  }

  // ---------------------------------------------------------------------------
  // Owner deltas and gas
  // ---------------------------------------------------------------------------

  function DeltaOf(cs: ChangeSet, owner: Address): OwnerDelta {
    if owner in cs.ownerDeltas then cs.ownerDeltas[owner] else OwnerDelta(0, {})
  }

  /** Credits `amount` to the owner, or debits it when negative. */
  function AddBalance(cs: ChangeSet, owner: Address, amount: int): ChangeSet {
    var d := DeltaOf(cs, owner);
    cs.(ownerDeltas := cs.ownerDeltas[owner := d.(balance := d.balance + amount)])
  }

  function Transfer(cs: ChangeSet, from: Address, to: Address, amount: nat): ChangeSet {
    AddBalance(AddBalance(cs, from, -(amount as int)), to, amount)
  }

  function GasCredit(cs: ChangeSet, collector: Address): nat {
    if collector in cs.gasCredits then cs.gasCredits[collector] else 0
  }

  /** The collector's credit counter saturates at the top of its 64-bit range. */
  function CollectGas(cs: ChangeSet, collector: Address, cost: nat): ChangeSet {
    var credited := AddBalance(cs, collector, cost);
    credited.(gasCredits := cs.gasCredits[collector := Min(GasCredit(cs, collector) + cost, U64_MAX)])
  }

  /** Settles gas at the end of an execution; fails when the credit counter saturated. */
  function ApplyGas(cs: ChangeSet, sender: Address, collector: Address, cost: nat, used: nat)
    : Result<ChangeSet>
  {
    var collected := CollectGas(AddBalance(cs, sender, -(cost as int)), collector, cost);
    if GasCredit(collected, collector) - GasCredit(cs, collector) != cost then
      Err("DAO gas-credit metadata mismatch")
    else
      Ok(collected.(gasUsed := used))
  }

  /** The declared gas owner is the sender (checked before execution starts). */
  predicate PaidBySender(cs: ChangeSet, sender: Address) {
    cs.payment.Some? && cs.payment.value.owner.Some? ==> cs.payment.value.owner.value == sender
  }

  /** The one kind of changeset that settles gas without writing the collector's owner key. */
  predicate CollectorDebit(cs: ChangeSet, collector: Address) {
    collector in cs.ownerDeltas && ParallelSafeDebit(cs, collector)
  }

  /**
   The gas fence: settling gas puts the collector's owner key in the write set,
   whatever the transaction did, except when the collector itself pays for a
   transaction that leaves it with a net debit.
   */
  lemma GasFence(pre: ChangeSet, sender: Address, collector: Address, cost: nat, used: nat)
    requires ApplyGas(pre, sender, collector, cost, used).Ok?
    ensures var cs := ApplyGas(pre, sender, collector, cost, used).value;
            && (OwnerKey(collector) in Manifest(cs).writeKeys <==> !CollectorDebit(cs, collector))
            && (PaidBySender(pre, sender) && CollectorDebit(cs, collector) ==> sender == collector)
  {
    var cs := ApplyGas(pre, sender, collector, cost, used).value;
    assert collector in cs.ownerDeltas;
    OwnerKeyWritten(cs, collector);
  }

  // ---------------------------------------------------------------------------
  // Merging
  // ---------------------------------------------------------------------------

  function AddDeltas(a: map<Address, OwnerDelta>, b: map<Address, OwnerDelta>): map<Address, OwnerDelta> {
    map k | k in a.Keys + b.Keys ::
      if k !in b then a[k]
      else if k !in a then b[k]
      else OwnerDelta(a[k].balance + b[k].balance, a[k].modules + b[k].modules)
  }

  function AddCredits(a: map<Address, nat>, b: map<Address, nat>): map<Address, nat> {
    map k | k in a.Keys + b.Keys ::
      if k !in b then a[k]
      else if k !in a then b[k]
      else Min(a[k] + b[k], U64_MAX)
  }

  /** Later writes win, deltas add up, and the first gas payment is kept. */
  function Merge(a: ChangeSet, b: ChangeSet): ChangeSet {
    ChangeSet(
      AddDeltas(a.ownerDeltas, b.ownerDeltas),
      AddCredits(a.gasCredits, b.gasCredits),
      a.treasuries + b.treasuries,
      a.inputs + b.inputs,
      if a.payment.None? then b.payment else a.payment,
      a.gasRefs + b.gasRefs,
      a.objects + b.objects,
      a.order + b.order,
      a.dynamicFields + b.dynamicFields,
      a.cells + b.cells,
      a.resolverReads + b.resolverReads,
      Min(a.gasUsed + b.gasUsed, U64_MAX),
      a.success && b.success,
      if b.success then a.errorMessage else b.errorMessage)
  }
}
