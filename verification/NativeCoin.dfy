/**
 Native transfers, burns and gas: what they write, and that they conserve what the
 coin objects and the owner ledger hold.
 */
module NativeCoin {
  import opened Prelude
  import opened ChangeSets
  import opened Ledger

  /** The parts of a stored object that a native call reads and writes. */
  datatype Coin = Coin(owner: Address, kind: string, data: Bytes)

  type Objects = map<ObjectId, Coin>

  /** Object writes in the order they are recorded; None deletes. */
  type Writes = seq<(ObjectId, Option<Coin>)>

  /** `recipient` is absent when it does not parse as an address. */
  datatype Call =
    | TransferCall(coin: ObjectId, recipient: Option<Address>, amount: nat)
    | BurnCall(amount: nat)

  /** `outputId` is the hash-derived id of a transfer's output, `outputAddress` its bytes when it is one. */
  datatype NativeTx = NativeTx(
    sender: Address,
    payment: Option<seq<ObjectId>>,
    call: Call,
    outputId: ObjectId,
    outputAddress: Option<Bytes>)

  ghost predicate WellTyped(tx: NativeTx) {
    tx.call.amount <= U64_MAX && (tx.outputAddress.Some? ==> |tx.outputAddress.value| == 32)
  }

  // ---------------------------------------------------------------------------
  // Balances in coin bytes
  // ---------------------------------------------------------------------------

  function LittleEndian(n: nat, width: nat): (r: Bytes)
    ensures |r| == width
  {
    if width == 0 then [] else [(n % 256) as byte] + LittleEndian(n / 256, width - 1)
  }

  function FromLittleEndian(s: Bytes): nat {
    if s == [] then 0 else s[0] as nat + 256 * FromLittleEndian(s[1..])
  }

  lemma {:induction false} NumberRoundTrip(n: nat, width: nat)
    requires n < Capacity(width)
    ensures FromLittleEndian(LittleEndian(n, width)) == n
  {
    if width > 0 {
      NumberRoundTrip(n / 256, width - 1);
    }
  }

  lemma {:induction false} NumberIsBounded(s: Bytes)
    ensures FromLittleEndian(s) < Capacity(|s|)
  {
    if s != [] {
      NumberIsBounded(s[1..]);
    }
  }

  function ReadBalance(data: Bytes): Option<nat> {
    if |data| < 40 then None else Some(FromLittleEndian(data[32..40]))
  }

  function WithBalance(data: Bytes, amount: nat): Option<Bytes> {
    if |data| < 40 then None else Some(data[..32] + LittleEndian(amount, 8) + data[40..])
  }

  function WithAddress(data: Bytes, address: Option<Bytes>): Bytes
    requires |data| >= 40
  {
    if address.Some? then address.value + data[32..] else data
  }

  /** Writing a balance is read back, and changes nothing but the eight bytes it occupies. */
  lemma BalanceRoundTrip(data: Bytes, amount: nat)
    requires |data| >= 40 && amount <= U64_MAX
    ensures var next := WithBalance(data, amount).value;
            && ReadBalance(next) == Some(amount)
            && |next| == |data| && next[..32] == data[..32] && next[40..] == data[40..]
  {
    WordCapacities();
    NumberRoundTrip(amount, 8);
    var digits := LittleEndian(amount, 8);
    var next := data[..32] + digits + data[40..];
    assert next[32..40] == digits;
  }

  lemma AddressKeepsBalance(data: Bytes, address: Option<Bytes>)
    requires |data| >= 40 && (address.Some? ==> |address.value| == 32)
    ensures ReadBalance(WithAddress(data, address)) == ReadBalance(data)
  {
    var next := WithAddress(data, address);
    assert next[32..40] == data[32..40];
  }

  /** Taking an amount out of a coin, and putting it into the bytes of a new one. */
  lemma TakenAmount(data: Bytes, amount: nat, address: Option<Bytes>)
    requires ReadBalance(data).Some? && amount <= ReadBalance(data).value
    requires address.Some? ==> |address.value| == 32
    ensures WithBalance(data, ReadBalance(data).value - amount).Some? && WithBalance(data, amount).Some?
    ensures |WithBalance(data, amount).value| >= 40
    ensures ReadBalance(WithBalance(data, ReadBalance(data).value - amount).value)
            == Some(ReadBalance(data).value - amount)
    ensures ReadBalance(WithAddress(WithBalance(data, amount).value, address)) == Some(amount)
  {
    NumberIsBounded(data[32..40]);
    WordCapacities();
    BalanceRoundTrip(data, ReadBalance(data).value - amount);
    BalanceRoundTrip(data, amount);
    AddressKeepsBalance(WithBalance(data, amount).value, address);
  }

  // ---------------------------------------------------------------------------
  // What the coin objects hold
  // ---------------------------------------------------------------------------

  /** The native balance of one object: nothing unless it is a readable native coin. */
  function Held(native: string -> bool, c: Coin): nat {
    if native(c.kind) && ReadBalance(c.data).Some? then ReadBalance(c.data).value else 0
  }

  function HeldAt(native: string -> bool, objects: Objects, id: ObjectId): nat {
    if id in objects then Held(native, objects[id]) else 0
  }

  /** The measure of `CoinTotal`. */
  function Measure(native: string -> bool): Coin -> int {
    c => Held(native, c)
  }

  /** The native balance in all coin objects together. */
  ghost function CoinTotal(native: string -> bool, objects: Objects): int {
    MapSum(objects, Measure(native))
  }

  function ApplyWrite(objects: Objects, w: (ObjectId, Option<Coin>)): Objects {
    if w.1.Some? then objects[w.0 := w.1.value] else objects - {w.0}
  }

  function ApplyWrites(objects: Objects, writes: Writes): Objects {
    if writes == [] then objects
    else ApplyWrite(ApplyWrites(objects, writes[..|writes| - 1]), writes[|writes| - 1])
  }

  lemma CoinWrite(native: string -> bool, objects: Objects, w: (ObjectId, Option<Coin>))
    ensures CoinTotal(native, ApplyWrite(objects, w))
            == CoinTotal(native, objects) - HeldAt(native, objects, w.0)
               + (if w.1.Some? then Held(native, w.1.value) else 0)
  {
    if w.1.Some? {
      MapSumUpdate(objects, Measure(native), w.0, w.1.value);
    } else if w.0 in objects {
      MapSumRemove(objects, Measure(native), w.0);
    } else {
      assert objects - {w.0} == objects;
    }
  }

  lemma OneWrite(objects: Objects, w: (ObjectId, Option<Coin>))
    ensures ApplyWrites(objects, [w]) == ApplyWrite(objects, w)
  {
    assert [w][..0] == [];
  }

  lemma TwoWrites(objects: Objects, v: (ObjectId, Option<Coin>), w: (ObjectId, Option<Coin>))
    ensures ApplyWrites(objects, [v, w]) == ApplyWrite(ApplyWrite(objects, v), w)
  {
    assert [v, w][..1] == [v];
    OneWrite(objects, v);
  }

  // ---------------------------------------------------------------------------
  // What the owner ledger gains or loses
  // ---------------------------------------------------------------------------

  /** The ledger moves by the amount from the one to the other, and nothing else moves. */
  ghost predicate LedgerMoved(before: ChangeSet, after: ChangeSet, from: Address, to: Address, amount: nat) {
    forall a ::
      DeltaOf(after, a).balance
      == DeltaOf(before, a).balance - (if a == from then amount else 0) + (if a == to then amount else 0)
  }

  // ---------------------------------------------------------------------------
  // Native transfer
  // ---------------------------------------------------------------------------

  /** The balance of a native coin object the sender owns. */
  function Usable(native: string -> bool, objects: Objects, id: ObjectId, sender: Address): Option<nat> {
    if id !in objects || !native(objects[id].kind) || objects[id].owner != sender then None
    else ReadBalance(objects[id].data)
  }

  predicate HasGasObject(native: string -> bool, objects: Objects, tx: NativeTx) {
    && tx.payment.Some? && tx.payment.value != []
    && Usable(native, objects, tx.payment.value[0], tx.sender).Some?
  }

  /** Exactly when a native transfer goes through. */
  predicate CanTransfer(native: string -> bool, objects: Objects, tx: NativeTx, cost: nat)
    requires tx.call.TransferCall?
  {
    && tx.call.amount > 0 && tx.call.recipient.Some?
    && HasGasObject(native, objects, tx) && tx.payment.value[0] != tx.call.coin
    && Usable(native, objects, tx.payment.value[0], tx.sender).value >= cost
    && Usable(native, objects, tx.call.coin, tx.sender).Some?
    && Usable(native, objects, tx.call.coin, tx.sender).value >= tx.call.amount
  }

  /** What a split loses: whatever the output overwrites, which is nothing for a fresh id. */
  function Overwritten(native: string -> bool, objects: Objects, tx: NativeTx): nat
    requires tx.call.TransferCall?
  {
    var balance := HeldAt(native, objects, tx.call.coin);
    if balance <= tx.call.amount then 0
    else if tx.outputId == tx.call.coin then balance - tx.call.amount
    else HeldAt(native, objects, tx.outputId)
  }

  /** The recipient holds a coin of exactly the amount, and the sender the rest. */
  ghost predicate Moved(native: string -> bool, before: Objects, after: Objects, tx: NativeTx)
    requires tx.call.TransferCall? && tx.call.recipient.Some?
  {
    var coin, to, amount := tx.call.coin, tx.call.recipient.value, tx.call.amount;
    var id := if HeldAt(native, before, coin) == amount then coin else tx.outputId;
    && id in after && after[id].owner == to && Held(native, after[id]) == amount
    && (id != coin ==>
          && coin in after && after[coin].owner == tx.sender
          && Held(native, after[coin]) == HeldAt(native, before, coin) - amount)
    && forall k :: k !in {id, coin} ==> (k in after <==> k in before) && (k in before ==> after[k] == before[k])
  }

  lemma SplitConserves(native: string -> bool, objects: Objects, tx: NativeTx, rest: Bytes, output: Bytes)
    requires WellTyped(tx) && tx.call.TransferCall? && tx.call.recipient.Some?
    requires Usable(native, objects, tx.call.coin, tx.sender).Some?
    requires HeldAt(native, objects, tx.call.coin) > tx.call.amount
    requires ReadBalance(rest) == Some(HeldAt(native, objects, tx.call.coin) - tx.call.amount)
    requires ReadBalance(output) == Some(tx.call.amount)
    ensures var coin := objects[tx.call.coin];
            var after := ApplyWrites(objects, [(tx.call.coin, Some(coin.(data := rest))),
                                               (tx.outputId, Some(Coin(tx.call.recipient.value, coin.kind, output)))]);
            && CoinTotal(native, after) == CoinTotal(native, objects) - Overwritten(native, objects, tx)
            && Moved(native, objects, after, tx)
  {
    var coin := objects[tx.call.coin];
    var v := (tx.call.coin, Some(coin.(data := rest)));
    var w := (tx.outputId, Some(Coin(tx.call.recipient.value, coin.kind, output)));
    TwoWrites(objects, v, w);
    CoinWrite(native, objects, v);
    CoinWrite(native, ApplyWrite(objects, v), w);
  }

  lemma WholeConserves(native: string -> bool, objects: Objects, tx: NativeTx)
    requires tx.call.TransferCall? && tx.call.recipient.Some?
    requires Usable(native, objects, tx.call.coin, tx.sender) == Some(tx.call.amount)
    ensures var coin := objects[tx.call.coin];
            var after := ApplyWrites(objects, [(tx.call.coin, Some(coin.(owner := tx.call.recipient.value)))]);
            && CoinTotal(native, after) == CoinTotal(native, objects)
            && Moved(native, objects, after, tx)
  {
    var w := (tx.call.coin, Some(objects[tx.call.coin].(owner := tx.call.recipient.value)));
    OneWrite(objects, w);
    CoinWrite(native, objects, w);
  }

  /** What a transfer that goes through records. */
  function TransferEffect(objects: Objects, tx: NativeTx, cs: ChangeSet): (ChangeSet, Writes)
    requires tx.call.TransferCall? && tx.call.recipient.Some? && tx.call.coin in objects
    requires ReadBalance(objects[tx.call.coin].data).Some?
    requires ReadBalance(objects[tx.call.coin].data).value >= tx.call.amount
  {
    var source, to, amount := objects[tx.call.coin], tx.call.recipient.value, tx.call.amount;
    var balance := ReadBalance(source.data).value;
    if balance == amount then (cs, [(tx.call.coin, Some(source.(owner := to)))])
    else
      (Transfer(cs, tx.sender, to, amount),
       [(tx.call.coin, Some(source.(data := WithBalance(source.data, balance - amount).value))),
        (tx.outputId,
         Some(Coin(to, source.kind, WithAddress(WithBalance(source.data, amount).value, tx.outputAddress))))])
  }

  lemma SplitCoins(native: string -> bool, objects: Objects, tx: NativeTx, cs: ChangeSet, balance: nat)
    requires WellTyped(tx) && tx.call.TransferCall? && tx.call.recipient.Some? && balance > tx.call.amount
    requires Usable(native, objects, tx.call.coin, tx.sender) == Some(balance)
    ensures var after := ApplyWrites(objects, TransferEffect(objects, tx, cs).1);
            && Moved(native, objects, after, tx)
            && CoinTotal(native, after) == CoinTotal(native, objects) - Overwritten(native, objects, tx)
  {
    var data := objects[tx.call.coin].data;
    TakenAmount(data, tx.call.amount, tx.outputAddress);
    SplitConserves(native, objects, tx, WithBalance(data, balance - tx.call.amount).value,
                   WithAddress(WithBalance(data, tx.call.amount).value, tx.outputAddress));
  }

  /**
   A transfer that goes through keeps the ledger total, moves exactly the amount to the
   recipient (a coin handed over whole leaves the ledger to the later reconciliation),
   and keeps the coin total unless its output id is already in use.
   */
  lemma TransferConserves(native: string -> bool, objects: Objects, tx: NativeTx, cost: nat, cs: ChangeSet)
    requires WellTyped(tx) && tx.call.TransferCall? && CanTransfer(native, objects, tx, cost)
    ensures var (out, writes) := TransferEffect(objects, tx, cs);
            var after := ApplyWrites(objects, writes);
            && Total(out.ownerDeltas) == Total(cs.ownerDeltas)
            && LedgerMoved(cs, out, tx.sender, tx.call.recipient.value,
                           if HeldAt(native, objects, tx.call.coin) == tx.call.amount then 0 else tx.call.amount)
            && Moved(native, objects, after, tx)
            && CoinTotal(native, after) == CoinTotal(native, objects) - Overwritten(native, objects, tx)
  {
    var balance := Usable(native, objects, tx.call.coin, tx.sender).value;
    TransferTotal(cs, tx.sender, tx.call.recipient.value, tx.call.amount);
    if balance == tx.call.amount {
      WholeConserves(native, objects, tx);
    } else {
      SplitCoins(native, objects, tx, cs, balance);
    }
  }

  /** A transfer either goes through whole or leaves the changeset untouched. */
  method ExecuteTransfer(native: string -> bool, objects: Objects, tx: NativeTx, cost: nat, cs: ChangeSet)
    returns (ok: bool, out: ChangeSet, writes: Writes)
    requires WellTyped(tx) && tx.call.TransferCall?
    ensures ok == CanTransfer(native, objects, tx, cost)
    ensures (out, writes) == if ok then TransferEffect(objects, tx, cs) else (cs, [])
  {
    ok, out, writes := false, cs, [];
    var amount, id := tx.call.amount, tx.call.coin;
    if amount == 0 || tx.payment.None? || tx.payment.value == [] || tx.payment.value[0] == id {
      return;
    }
    var coin := Usable(native, objects, id, tx.sender);
    var gas := Usable(native, objects, tx.payment.value[0], tx.sender);
    if coin.None? || gas.None? || coin.value < amount || gas.value < cost || tx.call.recipient.None? {
      return;
    }
    var source, to := objects[id], tx.call.recipient.value;
    if coin.value == amount {
      writes := [(id, Some(source.(owner := to)))];
    } else {
      out := Transfer(out, tx.sender, to, amount);
      var rest := WithBalance(source.data, coin.value - amount);
      if rest.None? {
        return false, out, writes;
      }
      writes := writes + [(id, Some(source.(data := rest.value)))];
      var output := WithBalance(source.data, amount);
      if output.None? {
        return false, out, writes;
      }
      writes := writes + [(tx.outputId, Some(Coin(to, source.kind, WithAddress(output.value, tx.outputAddress))))];
      assert writes == TransferEffect(objects, tx, cs).1;
    }
    ok := true;
  }

  // ---------------------------------------------------------------------------
  // Native burn
  // ---------------------------------------------------------------------------

  /** Exactly when a native burn goes through. */
  predicate CanBurn(native: string -> bool, objects: Objects, tx: NativeTx, cost: nat) {
    && tx.call.amount > 0 && HasGasObject(native, objects, tx)
    && tx.call.amount + cost <= U64_MAX
    && Usable(native, objects, tx.payment.value[0], tx.sender).value >= tx.call.amount + cost
  }

  /** What a burn that goes through records; the gas coin is deleted if gas would empty it. */
  function BurnEffect(objects: Objects, tx: NativeTx, cost: nat, cs: ChangeSet): (ChangeSet, Writes)
    requires tx.payment.Some? && tx.payment.value != [] && tx.payment.value[0] in objects
    requires ReadBalance(objects[tx.payment.value[0]].data).Some?
    requires ReadBalance(objects[tx.payment.value[0]].data).value >= tx.call.amount + cost
  {
    var id := tx.payment.value[0];
    var balance := ReadBalance(objects[id].data).value;
    (AddBalance(cs, tx.sender, -(tx.call.amount as int)),
     if balance == tx.call.amount + cost then [(id, None)]
     else [(id, Some(objects[id].(data := WithBalance(objects[id].data, balance - tx.call.amount).value)))])
  }

  lemma CoinDeleted(native: string -> bool, objects: Objects, id: ObjectId)
    ensures ApplyWrites(objects, [(id, None)]) == objects - {id}
    ensures CoinTotal(native, objects - {id}) == CoinTotal(native, objects) - HeldAt(native, objects, id)
  {
    OneWrite(objects, (id, None));
    CoinWrite(native, objects, (id, None));
  }

  lemma CoinReduced(native: string -> bool, objects: Objects, id: ObjectId, data: Bytes)
    requires id in objects
    ensures var coin := objects[id].(data := data);
            && ApplyWrites(objects, [(id, Some(coin))]) == objects[id := coin]
            && CoinTotal(native, objects[id := coin])
               == CoinTotal(native, objects) - Held(native, objects[id]) + Held(native, coin)
  {
    var w := (id, Some(objects[id].(data := data)));
    OneWrite(objects, w);
    CoinWrite(native, objects, w);
  }

  ghost predicate Burned(native: string -> bool, before: Objects, after: Objects, tx: NativeTx, cost: nat)
    requires tx.payment.Some? && tx.payment.value != []
  {
    var id := tx.payment.value[0];
    && (id in after <==> HeldAt(native, before, id) != tx.call.amount + cost)
    && (id in after ==>
          after[id].owner == tx.sender && Held(native, after[id]) == HeldAt(native, before, id) - tx.call.amount)
    && CoinTotal(native, after) == CoinTotal(native, before) - tx.call.amount - (if id in after then 0 else cost)
  }

  lemma BurnCoins(native: string -> bool, objects: Objects, tx: NativeTx, cost: nat, cs: ChangeSet)
    requires CanBurn(native, objects, tx, cost)
    ensures Burned(native, objects, ApplyWrites(objects, BurnEffect(objects, tx, cost, cs).1), tx, cost)
  {
    var id := tx.payment.value[0];
    var balance := ReadBalance(objects[id].data).value;
    if balance == tx.call.amount + cost {
      CoinDeleted(native, objects, id);
    } else {
      TakenAmount(objects[id].data, tx.call.amount, None);
      CoinReduced(native, objects, id, WithBalance(objects[id].data, balance - tx.call.amount).value);
    }
  }

  /**
   A burn that goes through takes the amount from the ledger total and from the coin
   total; when gas empties the coin as well, the gas leaves the coin total with it.
   */
  lemma BurnConserves(native: string -> bool, objects: Objects, tx: NativeTx, cost: nat, cs: ChangeSet)
    requires CanBurn(native, objects, tx, cost)
    ensures var (out, writes) := BurnEffect(objects, tx, cost, cs);
            && Total(out.ownerDeltas) == Total(cs.ownerDeltas) - tx.call.amount
            && Burned(native, objects, ApplyWrites(objects, writes), tx, cost)
  {
    AddBalanceTotal(cs, tx.sender, -(tx.call.amount as int));
    BurnCoins(native, objects, tx, cost, cs);
  }

  method ExecuteBurn(native: string -> bool, objects: Objects, tx: NativeTx, cost: nat, cs: ChangeSet)
    returns (ok: bool, out: ChangeSet, writes: Writes)
    requires WellTyped(tx) && tx.call.BurnCall?
    ensures ok == CanBurn(native, objects, tx, cost)
    ensures (out, writes) == if ok then BurnEffect(objects, tx, cost, cs) else (cs, [])
  {
    ok, out, writes := false, cs, [];
    var amount := tx.call.amount;
    if amount == 0 || tx.payment.None? || tx.payment.value == [] {
      return;
    }
    var id := tx.payment.value[0];
    var balance := Usable(native, objects, id, tx.sender);
    if balance.None? || amount + cost > U64_MAX || balance.value < amount + cost {
      return;
    }
    out := AddBalance(out, tx.sender, -(amount as int));
    if balance.value == amount + cost {
      writes := [(id, None)];
    } else {
      var data := WithBalance(objects[id].data, balance.value - amount);
      if data.None? {
        return false, out, writes;
      }
      writes := [(id, Some(objects[id].(data := data.value)))];
    }
    ok := true;
  }

  // ---------------------------------------------------------------------------
  // Settling a native call
  // ---------------------------------------------------------------------------

  predicate Can(native: string -> bool, objects: Objects, tx: NativeTx, cost: nat) {
    if tx.call.TransferCall? then CanTransfer(native, objects, tx, cost) else CanBurn(native, objects, tx, cost)
  }

  /** A native coin of the owner that holds at least so much. */
  ghost predicate HasCoin(native: string -> bool, objects: Objects, id: ObjectId, owner: Address, least: nat) {
    && id in objects && objects[id].owner == owner && native(objects[id].kind) && |objects[id].data| >= 40
    && HeldAt(native, objects, id) >= least
  }

  /**
   A transfer needs the coin for its amount and another one for gas, a burn one coin for both,
   all of them the sender's; the overflow check of a burn never decides.
   */
  lemma CanIff(native: string -> bool, objects: Objects, tx: NativeTx, cost: nat)
    ensures Can(native, objects, tx, cost) <==>
            && tx.call.amount > 0 && tx.payment.Some? && tx.payment.value != []
            && var gas := tx.payment.value[0];
               match tx.call
               case TransferCall(coin, recipient, amount) =>
                 && recipient.Some? && coin != gas
                 && HasCoin(native, objects, gas, tx.sender, cost) && HasCoin(native, objects, coin, tx.sender, amount)
               case BurnCall(amount) => HasCoin(native, objects, gas, tx.sender, amount + cost)
  {
    WordCapacities();
    if tx.payment.Some? && tx.payment.value != [] && tx.payment.value[0] in objects {
      var data := objects[tx.payment.value[0]].data;
      if |data| >= 40 {
        NumberIsBounded(data[32..40]);
      }
    }
  }

  /** The changeset of a native call before gas: its effect, or a failure mark and nothing else. */
  function BeforeGas(native: string -> bool, objects: Objects, tx: NativeTx, cost: nat, cs: ChangeSet, error: string)
    : (ChangeSet, Writes)
  {
    if !Can(native, objects, tx, cost) then (cs.(success := false, errorMessage := Some(error)), [])
    else if tx.call.TransferCall? then TransferEffect(objects, tx, cs)
    else BurnEffect(objects, tx, cost, cs)
  }

  /** What a call writes leaves the gas coin able to pay, or deletes it when a burn and gas empty it. */
  lemma GasStaysCovered(native: string -> bool, objects: Objects, tx: NativeTx, cost: nat, cs: ChangeSet, error: string)
    requires WellTyped(tx) && Can(native, objects, tx, cost)
    requires tx.call.TransferCall? ==> tx.outputId != tx.payment.value[0]
    ensures var gas := tx.payment.value[0];
            var after := ApplyWrites(objects, BeforeGas(native, objects, tx, cost, cs, error).1);
            if gas in after then HasCoin(native, after, gas, tx.sender, cost)
            else tx.call.BurnCall? && HeldAt(native, objects, gas) == tx.call.amount + cost
  {
    var gas := tx.payment.value[0];
    if tx.call.TransferCall? {
      TransferConserves(native, objects, tx, cost, cs);
      var after := ApplyWrites(objects, TransferEffect(objects, tx, cs).1);
      assert gas in after && after[gas] == objects[gas];
    } else {
      BurnKeepsKind(native, objects, tx, cost, cs);
      BurnCoins(native, objects, tx, cost, cs);
    }
  }

  lemma BurnKeepsKind(native: string -> bool, objects: Objects, tx: NativeTx, cost: nat, cs: ChangeSet)
    requires CanBurn(native, objects, tx, cost)
    ensures var gas := tx.payment.value[0];
            var after := ApplyWrites(objects, BurnEffect(objects, tx, cost, cs).1);
            gas in after ==> after[gas].kind == objects[gas].kind && |after[gas].data| == |objects[gas].data|
  {
    var gas := tx.payment.value[0];
    var balance := ReadBalance(objects[gas].data).value;
    if balance == tx.call.amount + cost {
      CoinDeleted(native, objects, gas);
    } else {
      CoinReduced(native, objects, gas, WithBalance(objects[gas].data, balance - tx.call.amount).value);
    }
  }

  /** What a native call adds to the ledger: nothing, minus the amount for a burn that went through. */
  function LedgerChange(native: string -> bool, objects: Objects, tx: NativeTx, cost: nat): int {
    if tx.call.BurnCall? && Can(native, objects, tx, cost) then -(tx.call.amount as int) else 0
  }

  method ExecuteNative(native: string -> bool, objects: Objects, tx: NativeTx, cost: nat, used: nat,
                       collector: Address, cs: ChangeSet, error: string)
    returns (settled: Result<ChangeSet>, writes: Writes)
    requires WellTyped(tx)
    ensures var (before, recorded) := BeforeGas(native, objects, tx, cost, cs, error);
            settled == ApplyGas(before, tx.sender, collector, cost, used) && writes == recorded
  {
    var ok, out;
    if tx.call.TransferCall? {
      ok, out, writes := ExecuteTransfer(native, objects, tx, cost, cs);
    } else {
      ok, out, writes := ExecuteBurn(native, objects, tx, cost, cs);
    }
    if !ok {
      out := out.(success := false, errorMessage := Some(error));
    }
    settled := ApplyGas(out, tx.sender, collector, cost, used);
  }

  /**
   Owner deltas of a native call, gas included, add up to nothing, or to minus the amount
   for a burn that went through: applying it changes the supply by exactly that.
   */
  lemma NativeCallBalances(native: string -> bool, objects: Objects, tx: NativeTx, cost: nat, used: nat,
                           collector: Address, cs: ChangeSet, error: string, books: Books, s: State)
    requires WellTyped(tx) && cs.ownerDeltas == map[]
    requires ApplyGas(BeforeGas(native, objects, tx, cost, cs, error).0, tx.sender, collector, cost, used).Ok?
    ensures var before := BeforeGas(native, objects, tx, cost, cs, error).0;
            var settled := ApplyGas(before, tx.sender, collector, cost, used);
            && Total(settled.value.ownerDeltas) == LedgerChange(native, objects, tx, cost)
            && Effected(books, s, settled.value).supply == s.supply + LedgerChange(native, objects, tx, cost)
  {
    GasTotal(BeforeGas(native, objects, tx, cost, cs, error).0, tx.sender, collector, cost, used);
    if Can(native, objects, tx, cost) {
      if tx.call.TransferCall? {
        TransferConserves(native, objects, tx, cost, cs);
      } else {
        BurnConserves(native, objects, tx, cost, cs);
      }
    }
  }

  /** A failed native call contributes its gas and nothing else; sent by the collector, nothing at all. */
  lemma FailedCallPaysGasOnly(native: string -> bool, objects: Objects, tx: NativeTx, cost: nat, used: nat,
                              collector: Address, cs: ChangeSet, error: string)
    requires !Can(native, objects, tx, cost) && cs.ownerDeltas == map[]
    requires ApplyGas(BeforeGas(native, objects, tx, cost, cs, error).0, tx.sender, collector, cost, used).Ok?
    ensures var (before, writes) := BeforeGas(native, objects, tx, cost, cs, error);
            var settled := ApplyGas(before, tx.sender, collector, cost, used).value;
            && writes == [] && !settled.success && settled.objects == cs.objects
            && settled.ownerDeltas
               == if tx.sender == collector then map[collector := OwnerDelta(0, {})]
                  else map[tx.sender := OwnerDelta(-(cost as int), {}), collector := OwnerDelta(cost, {})]
  {
  }
}
