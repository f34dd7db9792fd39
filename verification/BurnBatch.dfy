/**
 The batched path for owned native burns: it rewrites the burned coin by itself, after the
 burn has already written it, and declines what it does not recognise; the caller then
 applies the changesets in the ordinary way.
 */
module BurnBatch {
  import opened Prelude
  import opened ChangeSets
  import opened Ledger
  import opened Executor
  import opened Execution
  import opened Gas
  import opened NativeCalls
  import N = NativeCoin

  // ---------------------------------------------------------------------------
  // The batched path
  // ---------------------------------------------------------------------------

  /** The changeset writes one native coin, which also is its one gas coin and belongs to the payer. */
  ghost predicate OneOwnCoin(cs: ChangeSet) {
    && |cs.order| == 1 && cs.gasRefs == cs.order && cs.objects.Keys == {cs.order[0]}
    && cs.objects[cs.order[0]].Some? && cs.objects[cs.order[0]].value.coin.Some?
    && cs.payment.Some? && cs.payment.value.owner == Some(cs.objects[cs.order[0]].value.owner)
  }

  ghost function Written(cs: ChangeSet): ObjectValue
    requires OneOwnCoin(cs)
  {
    cs.objects[cs.order[0]].value
  }

  /** The changesets that the batched path takes. */
  ghost predicate Takes(cs: ChangeSet) {
    && cs.success && cs.treasuries == map[] && cs.dynamicFields == map[] && cs.cells == map[] && cs.resolverReads == {}
    && OneOwnCoin(cs) && (forall o :: DeltaOf(cs, o).modules == {})
    && Debit(cs, Written(cs).owner) > 0 && CreditTotal(cs) <= Debit(cs, Written(cs).owner)
    && Written(cs).coin.value >= Debit(cs, Written(cs).owner)
  }

  /** What it stores as the coin's balance. */
  ghost function Stores(cs: ChangeSet): nat
    requires Takes(cs)
  {
    Written(cs).coin.value - Debit(cs, Written(cs).owner)
  }

  // ---------------------------------------------------------------------------
  // The changeset of a burn
  // ---------------------------------------------------------------------------

  /** A burn that goes through, with its one write recorded and its gas settled. */
  ghost function BurnOf(native: string -> bool, rest: N.Coin -> string, objects: N.Objects, tx: N.NativeTx, cost: nat,
                        used: nat, collector: Address): Result<ChangeSet>
    requires N.CanBurn(native, objects, tx, cost)
  {
    var (cs, writes) := N.BurnEffect(objects, tx, cost, ContextOf(tx, {}));
    ApplyGas(Recorded(View(native, rest), cs, writes[0]), tx.sender, collector, cost, used)
  }

  /** It is what the engine returns for a burn without object inputs that goes through. */
  lemma BurnIsExecuted(r: Reader, d: Address, tx: Transaction, s: State)
    requires WellFormed(r) && r.call(tx).call.BurnCall? && r.inputs(tx) == {} && GoesThrough(r, tx, s)
    requires Execute(NativeMachine(r), d, tx, s).Ok?
    ensures N.CanBurn(r.native, CoinsIn(r, s.objects), r.call(tx), BaseCost(Terms(r, tx)))
    ensures Execute(NativeMachine(r), d, tx, s)
            == BurnOf(r.native, r.rest, CoinsIn(r, s.objects), r.call(tx), BaseCost(Terms(r, tx)), Units(TransferGas),
                      d)
  {
    ExecutedIs(r, d, tx, s);
    var (cs, writes) := N.BurnEffect(CoinsIn(r, s.objects), r.call(tx), BaseCost(Terms(r, tx)),
                                     ContextOf(r.call(tx), {}));
    assert writes[..0] == [];
    assert RecordedAll(View(r.native, r.rest), cs, writes)
        == Recorded(View(r.native, r.rest), RecordedAll(View(r.native, r.rest), cs, []), writes[0]);
  }

  /** What the sender's ledger loses: the amount, and the gas unless it collects it itself. */
  function Loss(tx: N.NativeTx, cost: nat, collector: Address): nat {
    tx.call.amount + (if tx.sender == collector then 0 else cost)
  }

  /** The facts about a burn that does not empty its coin. */
  ghost predicate IsBurn(cs: ChangeSet, tx: N.NativeTx, cost: nat, collector: Address, balance: nat)
    requires tx.payment.Some? && tx.payment.value != []
  {
    var id := tx.payment.value[0];
    && cs.success && cs.treasuries == map[] && cs.dynamicFields == map[] && cs.cells == map[] && cs.resolverReads == {}
    && cs.payment == Some(GasPayment(Some(tx.sender), tx.payment.value)) && cs.gasRefs == tx.payment.value
    && cs.order == [id] && cs.objects.Keys == {id} && cs.objects[id].Some?
    && cs.objects[id].value.owner == tx.sender && cs.objects[id].value.coin == Some(balance - tx.call.amount)
    && (forall o :: DeltaOf(cs, o).modules == {})
    && DeltaOf(cs, tx.sender).balance == -(Loss(tx, cost, collector) as int) && cs.gasCredits == map[collector := cost]
  }

  /** Settling gas changes the deltas of sender and collector, the credits and the gas used. */
  lemma SettledBurn(pre: ChangeSet, sender: Address, amount: nat, collector: Address, cost: nat, used: nat)
    requires pre.ownerDeltas == map[sender := OwnerDelta(-(amount as int), {})] && pre.gasCredits == map[]
    requires cost <= U64_MAX
    ensures var cs := ApplyGas(pre, sender, collector, cost, used);
            && cs.Ok? && cs.value.gasCredits == map[collector := cost]
            && (forall o :: DeltaOf(cs.value, o).modules == {})
            && DeltaOf(cs.value, sender).balance == -(amount as int) - (if sender == collector then 0 else cost)
            && cs.value == pre.(ownerDeltas := cs.value.ownerDeltas, gasCredits := cs.value.gasCredits, gasUsed := used)
  {
  }

  lemma BurnIsBurn(native: string -> bool, rest: N.Coin -> string, objects: N.Objects, tx: N.NativeTx, cost: nat,
                   used: nat, collector: Address, balance: nat)
    requires N.CanBurn(native, objects, tx, cost) && N.HeldAt(native, objects, tx.payment.value[0]) == balance
    requires balance != tx.call.amount + cost
    ensures BurnOf(native, rest, objects, tx, cost, used, collector).Ok?
    ensures IsBurn(BurnOf(native, rest, objects, tx, cost, used, collector).value, tx, cost, collector, balance)
  {
    var data := objects[tx.payment.value[0]].data;
    N.TakenAmount(data, tx.call.amount, None);
    var (cs, writes) := N.BurnEffect(objects, tx, cost, ContextOf(tx, {}));
    SettledBurn(Recorded(View(native, rest), cs, writes[0]), tx.sender, tx.call.amount, collector, cost, used);
  }

  /** A coin that gas would empty is deleted, and the batched path declines. */
  lemma EmptiedIsDeclined(native: string -> bool, rest: N.Coin -> string, objects: N.Objects, tx: N.NativeTx, cost: nat,
                          used: nat, collector: Address)
    requires N.CanBurn(native, objects, tx, cost)
    requires N.HeldAt(native, objects, tx.payment.value[0]) == tx.call.amount + cost
    ensures var cs := BurnOf(native, rest, objects, tx, cost, used, collector); cs.Ok? && !Takes(cs.value)
  {
  }

  lemma TakesBurnIff(cs: ChangeSet, tx: N.NativeTx, cost: nat, collector: Address, balance: nat)
    requires tx.payment.Some? && tx.payment.value != [] && IsBurn(cs, tx, cost, collector, balance)
    requires 0 < tx.call.amount <= balance
    ensures Takes(cs) <==>
            && |tx.payment.value| == 1 && cost <= Loss(tx, cost, collector)
            && balance >= tx.call.amount + Loss(tx, cost, collector)
    ensures Takes(cs) ==> Stores(cs) == balance - tx.call.amount - Loss(tx, cost, collector)
  {
    OneCredit(cs.gasCredits, collector, cost);
    assert |tx.payment.value| == 1 ==> tx.payment.value == [tx.payment.value[0]];
  }

  lemma EarlyOnce(objects: Objects, cs: ChangeSet, id: ObjectId)
    requires Designated(objects, cs, id)
    ensures EarlyVisits(objects, cs, [id]) == [Visit(id, objects[id].value.owner, false)]
  {
    assert [id][1..] == [];
    assert EarlyVisits(objects, cs, []) == [];
  }

  lemma LateOnce(objects: Objects, cs: ChangeSet, id: ObjectId)
    requires Ledger.Written(objects, cs, id).Some? && Ledger.Written(objects, cs, id).value.value.coin.Some?
    ensures LateVisits(objects, cs, [id]) == [Visit(id, Ledger.Written(objects, cs, id).value.value.owner, true)]
  {
    assert [id][1..] == [];
    assert LateVisits(objects, cs, []) == [];
  }

  /** The ordinary path takes the gas once, when the coin is written. */
  lemma OrdinaryBurn(objects: Objects, cs: ChangeSet, tx: N.NativeTx, cost: nat, collector: Address, balance: nat)
    requires tx.payment.Some? && |tx.payment.value| == 1 && IsBurn(cs, tx, cost, collector, balance)
    requires tx.call.amount + cost <= balance
    requires var id := tx.payment.value[0];
             id in objects && objects[id].value.owner == tx.sender && objects[id].value.coin == Some(balance)
    ensures var after := Next(objects, cs, tx.payment.value[0]);
            && after.Some?
            && after.value.value.coin == Some(balance - tx.call.amount - Min(Loss(tx, cost, collector), cost))
  {
    var id, a := tx.payment.value[0], tx.sender;
    OneCredit(cs.gasCredits, collector, cost);
    var early, late := EarlyVisits(objects, cs, cs.order), LateVisits(objects, cs, cs.gasRefs);
    assert cs.gasRefs == [id];
    EarlyOnce(objects, cs, id);
    LateOnce(objects, cs, id);
    assert early + late == [Visit(id, a, false), Visit(id, a, true)];
    var due := DueBy(cs);
    assert due(a) == Min(Loss(tx, cost, collector), cost);
    OneChargeOnly(due, early + late, id, a);
  }

  lemma OneChargeOnly(due: Address -> nat, visits: seq<Visit>, id: ObjectId, a: Address)
    requires visits == [Visit(id, a, false), Visit(id, a, true)]
    ensures TakenFrom(Charges(due, visits, {}), id) == due(a)
  {
    var rest := visits[1..];
    assert rest == [Visit(id, a, true)] && rest[1..] == [];
    assert Charges(due, rest, {a}) == [];
    assert {} + {a} == {a};
    if due(a) > 0 {
      var bill := Charges(due, visits, {});
      assert bill == [Charge(id, a, due(a), false)];
      assert bill[1..] == [];
    } else {
      assert Charges(due, rest, {}) == [];
    }
  }

  /** The ledger stores the coin that the burn found. */
  ghost predicate Stored(native: string -> bool, rest: N.Coin -> string, objects: N.Objects, tx: N.NativeTx,
                         stored: Objects)
    requires N.HasGasObject(native, objects, tx)
  {
    var id := tx.payment.value[0];
    id in stored && stored[id].value == View(native, rest)(objects[id])
  }

  /**
   The batched path takes a burn exactly when its coin is the only gas coin and still covers,
   after the burn, the whole debit; what it then stores is short of what the ordinary path
   stores by all of the debit that is not gas: the burned amount, when another collects the gas.
   */
  lemma BatchedBurnIff(native: string -> bool, rest: N.Coin -> string, objects: N.Objects, stored: Objects,
                       tx: N.NativeTx, cost: nat, used: nat, collector: Address)
    requires N.CanBurn(native, objects, tx, cost) && Stored(native, rest, objects, tx, stored)
    ensures BurnOf(native, rest, objects, tx, cost, used, collector).Ok?
    ensures var cs := BurnOf(native, rest, objects, tx, cost, used, collector).value;
            var balance, amount := N.HeldAt(native, objects, tx.payment.value[0]), tx.call.amount;
            var loss := Loss(tx, cost, collector);
            var ordinary := Next(stored, cs, tx.payment.value[0]);
            && (Takes(cs) <==> && |tx.payment.value| == 1 && balance != amount + cost
                               && cost <= loss && balance >= amount + loss)
            && (Takes(cs) ==> && ordinary.Some? && ordinary.value.value.coin == Some(balance - amount - cost)
                              && Stores(cs) == balance - amount - loss)
  {
    var id, balance := tx.payment.value[0], N.HeldAt(native, objects, tx.payment.value[0]);
    if balance == tx.call.amount + cost {
      EmptiedIsDeclined(native, rest, objects, tx, cost, used, collector);
    } else {
      BurnIsBurn(native, rest, objects, tx, cost, used, collector, balance);
      var cs := BurnOf(native, rest, objects, tx, cost, used, collector).value;
      TakesBurnIff(cs, tx, cost, collector, balance);
      if |tx.payment.value| == 1 {
        OrdinaryBurn(stored, cs, tx, cost, collector, balance);
      }
    }
  }

  /** With the gas going to somebody else: taken exactly from twice the amount on, and then burned twice. */
  lemma BatchedBurnTakesTwice(native: string -> bool, rest: N.Coin -> string, objects: N.Objects, stored: Objects,
                              tx: N.NativeTx, cost: nat, used: nat, collector: Address)
    requires N.CanBurn(native, objects, tx, cost) && Stored(native, rest, objects, tx, stored)
    requires tx.sender != collector && |tx.payment.value| == 1
    ensures BurnOf(native, rest, objects, tx, cost, used, collector).Ok?
    ensures var cs := BurnOf(native, rest, objects, tx, cost, used, collector).value;
            var balance := N.HeldAt(native, objects, tx.payment.value[0]);
            && (Takes(cs) <==> balance >= 2 * tx.call.amount + cost)
            && var ordinary := Next(stored, cs, tx.payment.value[0]);
               Takes(cs) ==> ordinary.Some? && ordinary.value.value.coin == Some(Stores(cs) + tx.call.amount)
  {
    BatchedBurnIff(native, rest, objects, stored, tx, cost, used, collector);
  }
}
