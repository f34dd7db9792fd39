/**
 Inputs at which merging and speculation are seen, all of them split transfers as the engine
 executes them: the gas of conflict-free transfers adds up when they are merged, and a transfer
 of the collector that passed its guard against the snapshot is refused at its turn.
 */
module Divergence {
  import opened Prelude
  import opened ChangeSets
  import opened Ledger
  import opened Merging
  import opened Gas
  import opened Executor
  import opened Execution
  import opened Batches
  import opened Waves
  import opened Debits
  import opened NativeCalls
  import N = NativeCoin

  // ---------------------------------------------------------------------------
  // Gas of explicit coins
  // ---------------------------------------------------------------------------

  /** No gas coin of the changeset is written by it. */
  predicate GasIsApart(cs: ChangeSet) {
    cs.gasRefs != [] && forall k :: 0 <= k < |cs.gasRefs| ==> cs.gasRefs[k] !in cs.objects
  }

  lemma {:induction false} NoEarlyVisits(objects: Objects, cs: ChangeSet, ids: seq<ObjectId>)
    requires GasIsApart(cs)
    ensures EarlyVisits(objects, cs, ids) == []
  {
    if ids != [] {
      NoEarlyVisits(objects, cs, ids[1..]);
    }
  }

  ghost function Share(cs: ChangeSet, a: Address): nat {
    Min(Debit(cs, a), CreditTotal(cs))
  }

  ghost function TollOf(due: nat): Toll {
    Toll(due, due > 0)
  }

  lemma LateVisit(objects: Objects, cs: ChangeSet, x: ObjectId, a: Address, rest: seq<ObjectId>)
    requires GasCoin(objects, cs, x, a)
    ensures LateVisits(objects, cs, [x] + rest) == [Visit(x, a, true)] + LateVisits(objects, cs, rest)
  {
    var ids := [x] + rest;
    assert ids[0] == x && ids[1..] == rest;
    assert Written(objects, cs, x) == Some(objects[x]);
  }

  lemma NextCharge(due: Address -> nat, v: Visit, rest: seq<Visit>, paid: set<Address>)
    requires v.owner !in paid && v.late
    ensures Charges(due, [v] + rest, paid)
            == if due(v.owner) == 0 then Charges(due, rest, paid)
               else [Charge(v.id, v.owner, due(v.owner), true)] + Charges(due, rest, paid + {v.owner})
  {
    var visits := [v] + rest;
    assert visits[0] == v && visits[1..] == rest;
  }

  function LateCharge(x: ObjectId, a: Address, due: nat): seq<Charge> {
    if due == 0 then [] else [Charge(x, a, due, true)]
  }

  lemma TakenFirst(x: ObjectId, a: Address, due: nat, rest: seq<Charge>, id: ObjectId)
    ensures TakenFrom(LateCharge(x, a, due) + rest, id) == (if id == x then due else 0) + TakenFrom(rest, id)
    ensures LateFor(LateCharge(x, a, due) + rest, id) == ((id == x && due > 0) || LateFor(rest, id))
  {
    var bill := LateCharge(x, a, due) + rest;
    if due == 0 {
      assert bill == rest;
    } else {
      assert bill[0] == Charge(x, a, due, true) && bill[1..] == rest;
    }
  }

  lemma SoleBill(objects: Objects, cs: ChangeSet, x: ObjectId, a: Address)
    requires cs.gasRefs == [x] && GasCoin(objects, cs, x, a)
    ensures Bill(objects, cs) == LateCharge(x, a, Share(cs, a)) + []
  {
    NoEarlyVisits(objects, cs, cs.order);
    LateVisit(objects, cs, x, a, []);
    assert [x] + [] == [x];
    NextCharge(DueBy(cs), Visit(x, a, true), [], {});
    assert [] + ([Visit(x, a, true)] + []) == [Visit(x, a, true)] + [];
  }

  lemma SoleCoin(objects: Objects, cs: ChangeSet, x: ObjectId, a: Address, id: ObjectId)
    requires cs.gasRefs == [x] && GasCoin(objects, cs, x, a)
    ensures TollOn(objects, cs, id) == TollOf(if id == x then Share(cs, a) else 0)
  {
    SoleBill(objects, cs, x, a);
    TakenFirst(x, a, Share(cs, a), [], id);
  }

  lemma TwoVisits(objects: Objects, cs: ChangeSet, x: ObjectId, a: Address, y: ObjectId, b: Address)
    requires cs.gasRefs == [x, y] && GasCoin(objects, cs, x, a) && GasCoin(objects, cs, y, b)
    ensures EarlyVisits(objects, cs, cs.order) + LateVisits(objects, cs, cs.gasRefs)
            == [Visit(x, a, true)] + [Visit(y, b, true)]
  {
    NoEarlyVisits(objects, cs, cs.order);
    LateVisit(objects, cs, x, a, [y]);
    LateVisit(objects, cs, y, b, []);
    assert [x] + [y] == [x, y] && [y] + [] == [y];
  }

  lemma TwoCharges(due: Address -> nat, v: Visit, w: Visit)
    requires v.owner != w.owner && v.late && w.late
    ensures Charges(due, [v] + [w], {})
            == LateCharge(v.id, v.owner, due(v.owner)) + (LateCharge(w.id, w.owner, due(w.owner)) + [])
  {
    NextCharge(due, v, [w], {});
    NextCharge(due, w, [], {});
    NextCharge(due, w, [], {v.owner});
    assert [w] + [] == [w] && {} + {v.owner} == {v.owner};
  }

  lemma TwoBills(objects: Objects, cs: ChangeSet, x: ObjectId, a: Address, y: ObjectId, b: Address)
    requires cs.gasRefs == [x, y] && a != b && GasCoin(objects, cs, x, a) && GasCoin(objects, cs, y, b)
    ensures Bill(objects, cs) == LateCharge(x, a, Share(cs, a)) + (LateCharge(y, b, Share(cs, b)) + [])
  {
    TwoVisits(objects, cs, x, a, y, b);
    TwoCharges(DueBy(cs), Visit(x, a, true), Visit(y, b, true));
  }

  lemma TwoCoins(objects: Objects, cs: ChangeSet, x: ObjectId, a: Address, y: ObjectId, b: Address, id: ObjectId)
    requires cs.gasRefs == [x, y] && x != y && a != b && GasCoin(objects, cs, x, a) && GasCoin(objects, cs, y, b)
    ensures TollOn(objects, cs, id) == TollOf(if id == x then Share(cs, a) else if id == y then Share(cs, b) else 0)
  {
    TwoBills(objects, cs, x, a, y, b);
    TakenFirst(x, a, Share(cs, a), LateCharge(y, b, Share(cs, b)) + [], id);
    TakenFirst(y, b, Share(cs, b), [], id);
  }

  lemma MergedPair(part: seq<ChangeSet>)
    requires |part| == 2
    ensures Merged(part) == Merge(Merge(EMPTY_CHANGESET, part[0]), part[1])
    ensures Merged(part).gasRefs == part[0].gasRefs + part[1].gasRefs
  {
    assert part[..1][..0] == [];
    assert MergeAll(part[..1]) == Merge(MergeAll([]), part[0]);
    assert [] + part[0].gasRefs == part[0].gasRefs;
  }

  /** Two changesets with one gas coin each, which neither writes, of different owners. */
  ghost predicate CoinEach(objects: Objects, part: seq<ChangeSet>, x: ObjectId, a: Address, y: ObjectId, b: Address) {
    && |part| == 2 && Apart(part) && a != b && part[0].gasRefs == [x] && part[1].gasRefs == [y]
    && GasCoin(objects, part[0], x, a) && GasCoin(objects, part[1], y, b)
  }

  lemma CoinsDiffer(objects: Objects, part: seq<ChangeSet>, x: ObjectId, a: Address, y: ObjectId, b: Address)
    requires CoinEach(objects, part, x, a, y, b)
    ensures x != y && x in Touched(part[0]) && x !in Touched(part[1]) && y in Touched(part[1]) && y !in Touched(part[0])
  {
    assert Touched(part[0]) !! Touched(part[1]);
  }

  lemma MergedTolls(objects: Objects, part: seq<ChangeSet>, x: ObjectId, a: Address, y: ObjectId, b: Address,
                    id: ObjectId)
    requires CoinEach(objects, part, x, a, y, b)
    ensures TollOn(objects, Merged(part), id)
            == TollOf(if id == x then Share(Merged(part), a) else if id == y then Share(Merged(part), b) else 0)
  {
    CoinsDiffer(objects, part, x, a, y, b);
    MergedPair(part);
    MergedGasCoin(objects, part, 0, x, a);
    MergedGasCoin(objects, part, 1, y, b);
    TwoCoins(objects, Merged(part), x, a, y, b, id);
  }

  lemma TollsCompared(objects: Objects, part: seq<ChangeSet>, x: ObjectId, a: Address, y: ObjectId, b: Address,
                      k: nat, id: ObjectId)
    requires CoinEach(objects, part, x, a, y, b) && k < 2 && id in Touched(part[k])
    ensures TollOn(objects, part[k], id)
            == TollOf(if id == x then Share(part[0], a) else if id == y then Share(part[1], b) else 0)
  {
    CoinsDiffer(objects, part, x, a, y, b);
    SoleCoin(objects, part[0], x, a, id);
    SoleCoin(objects, part[1], y, b, id);
  }

  /**
   Two changesets with one gas coin each, of different owners, pay merged what they pay alone if
   and only if both payers owe the same against the merged deltas and the sum of all credits.
   */
  lemma PairPaysAlikeIff(objects: Objects, part: seq<ChangeSet>, x: ObjectId, a: Address, y: ObjectId, b: Address)
    requires CoinEach(objects, part, x, a, y, b)
    ensures PartPaysAlike(objects, part)
            <==> Share(Merged(part), a) == Share(part[0], a) && Share(Merged(part), b) == Share(part[1], b)
  {
    CoinsDiffer(objects, part, x, a, y, b);
    forall k, id | 0 <= k < |part| && id in Touched(part[k])
      ensures TollOn(objects, Merged(part), id) == TollOn(objects, part[k], id)
              <==> (id == x ==> Share(Merged(part), a) == Share(part[0], a))
                   && (id == y ==> Share(Merged(part), b) == Share(part[1], b))
    {
      MergedTolls(objects, part, x, a, y, b, id);
      TollsCompared(objects, part, x, a, y, b, k, id);
    }
    assert PartPaysAlike(objects, part) ==>
      TollOn(objects, Merged(part), x) == TollOn(objects, part[0], x)
      && TollOn(objects, Merged(part), y) == TollOn(objects, part[1], y);
  }

  // ---------------------------------------------------------------------------
  // Split transfers
  // ---------------------------------------------------------------------------

  /** `from` sends `amount` out of its `coin` to `to`, in the new object `output`, and pays gas with another coin. */
  datatype Pay = Pay(
    from: Address, coin: ObjectId, output: ObjectId, to: Address, amount: nat, gas: ObjectId, cost: nat)

  /** The transaction is such a transfer: its coin is its input, its gas object is alone, its output is new. */
  ghost predicate Describes(r: Reader, tx: Transaction, s: State, u: Pay) {
    var n := r.call(tx);
    && n.call == N.TransferCall(u.coin, Some(u.to), u.amount) && tx.sender == u.from
    && n.payment == Some([u.gas]) && r.inputs(tx) == {u.coin} && n.outputId == u.output && u.output !in s.objects
    && u.cost == BaseCost(Terms(r, tx)) && N.HeldAt(r.native, CoinsIn(r, s.objects), u.coin) > u.amount
  }

  /** `cs` is what the engine returns for a split transfer that goes through. */
  ghost predicate IsSplit(r: Reader, d: Address, tx: Transaction, s: State, u: Pay, cs: ChangeSet) {
    Describes(r, tx, s, u) && GoesThrough(r, tx, s) && Execute(NativeMachine(r), d, tx, s) == Ok(cs)
  }

  /** What a payment adds to an owner's balance. */
  function Gain(u: Pay, d: Address, o: Address): int {
    (if o == u.from then -(u.amount as int) - u.cost else 0) + (if o == u.to then u.amount else 0)
    + (if o == d then u.cost else 0)
  }

  /** The ledger side of a payment. */
  ghost predicate IsPay(cs: ChangeSet, u: Pay, d: Address) {
    && cs.ownerDeltas.Keys == {u.from, u.to, d} && Total(cs.ownerDeltas) == 0 && cs.gasCredits == map[d := u.cost]
    && (forall o :: DeltaOf(cs, o) == OwnerDelta(Gain(u, d, o), {}))
    && cs.gasRefs == [u.gas] && cs.payment == Some(GasPayment(Some(u.from), [u.gas]))
  }

  /** The object side: the coin is rewritten, the output is new, the gas coin is only named. */
  ghost predicate Rewrites(cs: ChangeSet, u: Pay, objects: Objects) {
    && cs.objects.Keys == {u.coin, u.output} && cs.inputs == {u.coin} && u.gas !in cs.objects
    && cs.treasuries == map[] && cs.dynamicFields == map[] && cs.cells == map[] && cs.resolverReads == {}
    && u.coin in objects && objects[u.coin].value.coin.Some? && objects[u.coin].value.owner == u.from
    && objects[u.coin].value.coin.value >= u.amount
    && cs.objects[u.coin].Some? && cs.objects[u.coin].value.owner == u.from
    && cs.objects[u.coin].value.coin == Some(objects[u.coin].value.coin.value - u.amount)
    && u.output !in objects && cs.objects[u.output].Some? && cs.objects[u.output].value.owner == u.to
    && cs.objects[u.output].value.coin == Some(u.amount)
    && u.gas in objects && objects[u.gas].value.coin.Some? && objects[u.gas].value.owner == u.from
    && objects[u.gas].value.coin.value >= u.cost
  }

  /** The coin a split leaves, and the one it makes. */
  function LeftOf(coin: N.Coin, amount: nat): N.Coin
    requires N.ReadBalance(coin.data).Some? && amount <= N.ReadBalance(coin.data).value
  {
    coin.(data := N.WithBalance(coin.data, N.ReadBalance(coin.data).value - amount).value)
  }

  function OutputOf(coin: N.Coin, amount: nat, to: Address, address: Option<Bytes>): N.Coin
    requires N.ReadBalance(coin.data).Some?
  {
    N.Coin(to, coin.kind, N.WithAddress(N.WithBalance(coin.data, amount).value, address))
  }

  lemma SplitAmounts(coin: N.Coin, amount: nat, to: Address, address: Option<Bytes>)
    requires N.ReadBalance(coin.data).Some? && amount <= N.ReadBalance(coin.data).value
    requires address.Some? ==> |address.value| == 32
    ensures N.ReadBalance(LeftOf(coin, amount).data) == Some(N.ReadBalance(coin.data).value - amount)
    ensures N.ReadBalance(OutputOf(coin, amount, to, address).data) == Some(amount)
  {
    N.TakenAmount(coin.data, amount, address);
  }

  /** The stored coin behind the transferred object. */
  ghost function SourceOf(r: Reader, s: State, u: Pay): N.Coin
    requires u.coin in s.objects
  {
    CoinsIn(r, s.objects)[u.coin]
  }

  /** The coin that a described transfer which goes through finds. */
  lemma SplitSource(r: Reader, tx: Transaction, s: State, u: Pay)
    requires WellFormed(r) && Describes(r, tx, s, u) && GoesThrough(r, tx, s)
    ensures u.coin in s.objects && r.native(SourceOf(r, s, u).kind) && SourceOf(r, s, u).owner == u.from
    ensures N.ReadBalance(SourceOf(r, s, u).data) == Some(N.HeldAt(r.native, CoinsIn(r, s.objects), u.coin))
  {
  }

  lemma SplitEffect(r: Reader, tx: Transaction, s: State, u: Pay, cs: ChangeSet)
    requires WellFormed(r) && Describes(r, tx, s, u) && GoesThrough(r, tx, s)
    requires u.coin in s.objects
    requires N.ReadBalance(SourceOf(r, s, u).data) == Some(N.HeldAt(r.native, CoinsIn(r, s.objects), u.coin))
    ensures var coin := SourceOf(r, s, u);
            N.TransferEffect(CoinsIn(r, s.objects), r.call(tx), cs)
            == (Transfer(cs, u.from, u.to, u.amount),
                [(u.coin, Some(LeftOf(coin, u.amount))),
                 (u.output, Some(OutputOf(coin, u.amount, u.to, r.call(tx).outputAddress)))])
  {
  }

  /** What a split transfer records before gas. */
  lemma SplitBody(r: Reader, tx: Transaction, s: State, u: Pay)
    requires WellFormed(r) && Describes(r, tx, s, u) && GoesThrough(r, tx, s)
    ensures u.coin in s.objects && N.ReadBalance(SourceOf(r, s, u).data).Some?
    ensures N.ReadBalance(SourceOf(r, s, u).data).value > u.amount
    ensures var coin, view := SourceOf(r, s, u), View(r.native, r.rest);
            Unsettled(r, tx, s)
            == Recorded(view,
                        Recorded(view, Transfer(ContextOf(r.call(tx), {u.coin}), u.from, u.to, u.amount),
                                 (u.coin, Some(LeftOf(coin, u.amount)))),
                        (u.output, Some(OutputOf(coin, u.amount, u.to, r.call(tx).outputAddress))))
  {
    SplitSource(r, tx, s, u);
    var coin, context := SourceOf(r, s, u), ContextOf(r.call(tx), {u.coin});
    SplitEffect(r, tx, s, u, context);
    TwoRecorded(View(r.native, r.rest), Transfer(context, u.from, u.to, u.amount),
                (u.coin, Some(LeftOf(coin, u.amount))),
                (u.output, Some(OutputOf(coin, u.amount, u.to, r.call(tx).outputAddress))));
  }

  lemma TwoRecorded(view: N.Coin -> ObjectValue, cs: ChangeSet, v: (ObjectId, Option<N.Coin>),
                    w: (ObjectId, Option<N.Coin>))
    ensures RecordedAll(view, cs, [v, w]) == Recorded(view, Recorded(view, cs, v), w)
  {
    assert [v, w][..1] == [v] && [v][..0] == [];
    assert RecordedAll(view, cs, [v]) == Recorded(view, RecordedAll(view, cs, []), v);
  }

  /** The ledger side of what was transferred in a context and settled. */
  lemma SettledPay(context: ChangeSet, moved: ChangeSet, u: Pay, d: Address, used: nat)
    requires context.ownerDeltas == map[] && context.gasCredits == map[] && context.gasRefs == [u.gas]
    requires context.payment == Some(GasPayment(Some(u.from), [u.gas]))
    requires moved.ownerDeltas == Transfer(context, u.from, u.to, u.amount).ownerDeltas
    requires moved.gasCredits == map[] && moved.gasRefs == [u.gas] && moved.payment == context.payment
    requires u.cost <= U64_MAX
    ensures ApplyGas(moved, u.from, d, u.cost, used).Ok? && IsPay(ApplyGas(moved, u.from, d, u.cost, used).value, u, d)
  {
    TransferTotal(context, u.from, u.to, u.amount);
    GasTotal(moved, u.from, d, u.cost, used);
  }

  lemma SplitIsPay(r: Reader, d: Address, tx: Transaction, s: State, u: Pay, cs: ChangeSet)
    requires WellFormed(r) && IsSplit(r, d, tx, s, u, cs)
    ensures IsPay(cs, u, d)
  {
    ExecutedIs(r, d, tx, s);
    SplitBody(r, tx, s, u);
    SettledPay(ContextOf(r.call(tx), {u.coin}), Unsettled(r, tx, s), u, d, Units(TransferGas));
  }

  /** The coins a split transfer finds, as the ledger sees them. */
  ghost predicate Finds(objects: Objects, u: Pay, balance: nat) {
    && u.coin in objects && objects[u.coin].value.coin == Some(balance) && objects[u.coin].value.owner == u.from
    && u.gas in objects && objects[u.gas].value.coin.Some? && objects[u.gas].value.owner == u.from
    && objects[u.gas].value.coin.value >= u.cost && u.gas != u.coin && u.output !in objects && balance > u.amount
  }

  lemma SplitFinds(r: Reader, tx: Transaction, s: State, u: Pay)
    requires WellFormed(r) && Reads(r, s.objects) && Describes(r, tx, s, u) && GoesThrough(r, tx, s)
    ensures Finds(s.objects, u, N.HeldAt(r.native, CoinsIn(r, s.objects), u.coin))
  {
    assert View(r.native, r.rest)(r.coin(s.objects[u.coin].value)) == s.objects[u.coin].value;
    assert View(r.native, r.rest)(r.coin(s.objects[u.gas].value)) == s.objects[u.gas].value;
  }

  lemma RecordedSplit(native: string -> bool, rest: N.Coin -> string, moved: ChangeSet, u: Pay, left: N.Coin,
                      out: N.Coin, balance: nat, objects: Objects)
    requires Finds(objects, u, balance) && native(left.kind) && native(out.kind)
    requires left.owner == u.from && out.owner == u.to
    requires N.ReadBalance(left.data) == Some(balance - u.amount) && N.ReadBalance(out.data) == Some(u.amount)
    requires moved.objects == map[] && moved.inputs == {u.coin} && moved.treasuries == map[]
    requires moved.dynamicFields == map[] && moved.cells == map[] && moved.resolverReads == {}
    ensures Rewrites(Recorded(View(native, rest), Recorded(View(native, rest), moved, (u.coin, Some(left))),
                              (u.output, Some(out))), u, objects)
  {
  }

  lemma SettledRewrites(cs: ChangeSet, u: Pay, d: Address, used: nat, objects: Objects)
    requires Rewrites(cs, u, objects) && ApplyGas(cs, u.from, d, u.cost, used).Ok?
    ensures Rewrites(ApplyGas(cs, u.from, d, u.cost, used).value, u, objects)
  {
  }

  lemma SplitRewrites(r: Reader, d: Address, tx: Transaction, s: State, u: Pay, cs: ChangeSet)
    requires WellFormed(r) && Reads(r, s.objects) && IsSplit(r, d, tx, s, u, cs)
    ensures Rewrites(cs, u, s.objects)
  {
    ExecutedIs(r, d, tx, s);
    SplitBody(r, tx, s, u);
    SplitFinds(r, tx, s, u);
    UnsettledRewrites(r, tx, s, u);
    SettledRewrites(Unsettled(r, tx, s), u, d, Units(TransferGas), s.objects);
  }

  lemma UnsettledRewrites(r: Reader, tx: Transaction, s: State, u: Pay)
    requires WellFormed(r) && Reads(r, s.objects) && Describes(r, tx, s, u) && GoesThrough(r, tx, s)
    ensures Rewrites(Unsettled(r, tx, s), u, s.objects)
  {
    SplitSource(r, tx, s, u);
    SplitBody(r, tx, s, u);
    SplitFinds(r, tx, s, u);
    var coin, address := SourceOf(r, s, u), r.call(tx).outputAddress;
    assert N.WellTyped(r.call(tx));
    SplitAmounts(coin, u.amount, u.to, address);
    RecordedSplit(r.native, r.rest, Transfer(ContextOf(r.call(tx), {u.coin}), u.from, u.to, u.amount), u,
                  LeftOf(coin, u.amount), OutputOf(coin, u.amount, u.to, address),
                  N.ReadBalance(coin.data).value, s.objects);
  }

  // ---------------------------------------------------------------------------
  // Two transfers in one batch
  // ---------------------------------------------------------------------------

  lemma PairDeltas(part: seq<ChangeSet>, o: Address)
    requires |part| == 2
    ensures DeltaOf(Merged(part), o).balance == DeltaOf(part[0], o).balance + DeltaOf(part[1], o).balance
  {
    MergedPair(part);
  }

  lemma AddedCredits(x: map<Address, nat>, y: map<Address, nat>, d: Address, c: nat, e: nat)
    requires x == map[d := c] && y == map[d := e] && c + e <= U64_MAX
    ensures AddCredits(AddCredits(map[], x), y) == map[d := c + e]
  {
    assert AddCredits(map[], x) == x;
  }

  lemma PairCreditMap(part: seq<ChangeSet>)
    requires |part| == 2
    ensures Merged(part).gasCredits == AddCredits(AddCredits(map[], part[0].gasCredits), part[1].gasCredits)
  {
    MergedPair(part);
  }

  lemma PairCredits(part: seq<ChangeSet>, u: Pay, v: Pay, d: Address)
    requires |part| == 2 && IsPay(part[0], u, d) && IsPay(part[1], v, d) && u.cost + v.cost <= U64_MAX
    ensures CreditTotal(Merged(part)) == u.cost + v.cost
  {
    PairCreditMap(part);
    AddedCredits(part[0].gasCredits, part[1].gasCredits, d, u.cost, v.cost);
    OneCredit(Merged(part).gasCredits, d, u.cost + v.cost);
  }

  function Owed(balance: int, credits: nat): nat {
    Min(if balance < 0 then -balance else 0, credits)
  }

  lemma PayShare(cs: ChangeSet, u: Pay, d: Address, o: Address)
    requires IsPay(cs, u, d)
    ensures Share(cs, o) == Owed(Gain(u, d, o), u.cost)
  {
    OneCredit(cs.gasCredits, d, u.cost);
  }

  lemma PairShare(part: seq<ChangeSet>, u: Pay, v: Pay, d: Address, o: Address)
    requires |part| == 2 && IsPay(part[0], u, d) && IsPay(part[1], v, d) && u.cost + v.cost <= U64_MAX
    ensures Share(Merged(part), o) == Owed(Gain(u, d, o) + Gain(v, d, o), u.cost + v.cost)
  {
    PairDeltas(part, o);
    PairCredits(part, u, v, d);
  }

  /** What a transfer reads and writes: the payer's own debit is not declared. */
  lemma PayManifest(cs: ChangeSet, u: Pay, d: Address, objects: Objects, k: Key)
    requires IsPay(cs, u, d) && Rewrites(cs, u, objects)
    ensures k in Manifest(cs).readKeys <==> k == DynamicFence || k == ObjectKey(u.coin)
    ensures k in Manifest(cs).writeKeys <==>
            || (k.ObjectKey? && k.id in {u.coin, u.output, u.gas})
            || (k.OwnerKey? && k.owner in {u.from, u.to, d} && !(k.owner == u.from && Gain(u, d, u.from) < 0))
  {
    assert PaymentObjects(cs) + cs.objects.Keys == {u.coin, u.output, u.gas};
    assert NamedWrites(cs) == {};
    if k.OwnerKey? {
      OwnerKeyWritten(cs, k.owner);
      assert k.owner in cs.ownerDeltas ==> cs.ownerDeltas[k.owner] == DeltaOf(cs, k.owner);
    }
  }

  /** The transfers use different objects and recipients, and one of them is the collector's. */
  ghost predicate Unrelated(u: Pay, v: Pay, d: Address) {
    && {u.coin, u.output, u.gas} !! {v.coin, v.output, v.gas} && (u.from == d || v.from == d)
    && Gain(u, d, u.from) < 0 && Gain(v, d, v.from) < 0
    && u.to != v.to && u.to != d && v.to != d
  }

  ghost predicate Clash(a: AccessSet, b: AccessSet, k: Key) {
    (k in a.writeKeys && (k in b.readKeys || k in b.writeKeys)) || (k in b.writeKeys && k in a.readKeys)
  }

  lemma NoCommonKey(p: ChangeSet, q: ChangeSet, u: Pay, v: Pay, d: Address, objects: Objects, k: Key)
    requires IsPay(p, u, d) && IsPay(q, v, d) && Unrelated(u, v, d)
    requires Rewrites(p, u, objects) && Rewrites(q, v, objects)
    ensures !Clash(Manifest(q), Manifest(p), k)
  {
    PayManifest(p, u, d, objects, k);
    PayManifest(q, v, d, objects, k);
  }

  lemma NoConflict(accesses: seq<AccessSet>)
    requires |accesses| == 2 && forall k :: !Clash(accesses[1], accesses[0], k)
    ensures ConflictFree(accesses)
  {
    assert !ConflictsWith(accesses[1], accesses[0]) by {
      if k :| k in accesses[1].writeKeys && (k in accesses[0].readKeys || k in accesses[0].writeKeys) {
        assert Clash(accesses[1], accesses[0], k);
      }
      if k :| k in accesses[0].writeKeys && k in accesses[1].readKeys {
        assert Clash(accesses[1], accesses[0], k);
      }
    }
  }

  /** Two payments as a part of a schedule. */
  ghost predicate Payments(objects: Objects, part: seq<ChangeSet>, u: Pay, v: Pay, d: Address) {
    && |part| == 2 && IsPay(part[0], u, d) && IsPay(part[1], v, d) && u.cost + v.cost <= U64_MAX
    && Rewrites(part[0], u, objects) && Rewrites(part[1], v, objects) && Unrelated(u, v, d)
  }

  /** A transfer and a transfer of the collector do not conflict: neither declares its payer's debit. */
  lemma PaymentsAreConflictFree(objects: Objects, part: seq<ChangeSet>, u: Pay, v: Pay, d: Address)
    requires Payments(objects, part, u, v, d)
    ensures ConflictFree(Manifests(part)) && Apart(part)
  {
    forall k ensures !Clash(Manifests(part)[1], Manifests(part)[0], k) {
      NoCommonKey(part[0], part[1], u, v, d, objects, k);
    }
    NoConflict(Manifests(part));
    ConflictFreeIsApart(part);
  }

  lemma PaymentCoins(objects: Objects, part: seq<ChangeSet>, u: Pay, v: Pay, d: Address)
    requires Payments(objects, part, u, v, d)
    ensures Apart(part) && GasCoin(objects, part[0], u.gas, u.from) && GasCoin(objects, part[1], v.gas, v.from)
  {
    PaymentsAreConflictFree(objects, part, u, v, d);
  }

  /** Two transfers as the engine executes them against one snapshot. */
  ghost predicate Splits(r: Reader, d: Address, s: State, wave: seq<Transaction>, part: seq<ChangeSet>, u: Pay,
                         v: Pay)
  {
    && WellFormed(r) && Reads(r, s.objects) && |wave| == |part| == 2
    && IsSplit(r, d, wave[0], s, u, part[0]) && IsSplit(r, d, wave[1], s, v, part[1])
    && Unrelated(u, v, d) && u.cost + v.cost <= U64_MAX
  }

  lemma SplitsArePayments(r: Reader, d: Address, s: State, wave: seq<Transaction>, part: seq<ChangeSet>, u: Pay, v: Pay)
    requires Splits(r, d, s, wave, part, u, v)
    ensures Payments(s.objects, part, u, v, d)
  {
    SplitIsPay(r, d, wave[0], s, u, part[0]);
    SplitIsPay(r, d, wave[1], s, v, part[1]);
    SplitRewrites(r, d, wave[0], s, u, part[0]);
    SplitRewrites(r, d, wave[1], s, v, part[1]);
  }

  /** What a payer owes when both transfers are one changeset. */
  function OwedTogether(u: Pay, v: Pay, d: Address, o: Address): nat {
    Owed(Gain(u, d, o) + Gain(v, d, o), u.cost + v.cost)
  }

  /** The gas of both payers, alone and merged. */
  ghost predicate TollsAre(objects: Objects, part: seq<ChangeSet>, u: Pay, v: Pay, d: Address)
    requires |part| == 2
  {
    && TollOn(objects, part[0], u.gas).amount == Owed(Gain(u, d, u.from), u.cost)
    && TollOn(objects, part[1], v.gas).amount == Owed(Gain(v, d, v.from), v.cost)
    && TollOn(objects, Merged(part), u.gas).amount == OwedTogether(u, v, d, u.from)
    && TollOn(objects, Merged(part), v.gas).amount == OwedTogether(u, v, d, v.from)
  }

  lemma SharesOfPair(part: seq<ChangeSet>, u: Pay, v: Pay, d: Address)
    requires |part| == 2 && IsPay(part[0], u, d) && IsPay(part[1], v, d) && u.cost + v.cost <= U64_MAX
    ensures Share(part[0], u.from) == Owed(Gain(u, d, u.from), u.cost)
    ensures Share(part[1], v.from) == Owed(Gain(v, d, v.from), v.cost)
    ensures Share(Merged(part), u.from) == OwedTogether(u, v, d, u.from)
    ensures Share(Merged(part), v.from) == OwedTogether(u, v, d, v.from)
  {
    PayShare(part[0], u, d, u.from);
    PayShare(part[1], v, d, v.from);
    PairShare(part, u, v, d, u.from);
    PairShare(part, u, v, d, v.from);
  }

  lemma TollsOfPair(objects: Objects, part: seq<ChangeSet>, x: ObjectId, a: Address, y: ObjectId, b: Address)
    requires CoinEach(objects, part, x, a, y, b)
    ensures TollOn(objects, part[0], x).amount == Share(part[0], a)
    ensures TollOn(objects, part[1], y).amount == Share(part[1], b)
    ensures TollOn(objects, Merged(part), x).amount == Share(Merged(part), a)
    ensures TollOn(objects, Merged(part), y).amount == Share(Merged(part), b)
  {
    CoinsDiffer(objects, part, x, a, y, b);
    TollsCompared(objects, part, x, a, y, b, 0, x);
    TollsCompared(objects, part, x, a, y, b, 1, y);
    MergedTolls(objects, part, x, a, y, b, x);
    MergedTolls(objects, part, x, a, y, b, y);
  }

  /**
   Two transfers with different payers pay merged what they pay alone if and only if each payer
   owes the same on the sum of both gains and both gas costs as on its own.
   */
  lemma PaymentsMergeIff(objects: Objects, part: seq<ChangeSet>, u: Pay, v: Pay, d: Address)
    requires Payments(objects, part, u, v, d) && u.from != v.from
    ensures TollsAre(objects, part, u, v, d)
    ensures PartPaysAlike(objects, part) <==>
            && OwedTogether(u, v, d, u.from) == Owed(Gain(u, d, u.from), u.cost)
            && OwedTogether(u, v, d, v.from) == Owed(Gain(v, d, v.from), v.cost)
  {
    PaymentCoins(objects, part, u, v, d);
    SharesOfPair(part, u, v, d);
    TollsOfPair(objects, part, u.gas, u.from, v.gas, v.from);
    PairPaysAlikeIff(objects, part, u.gas, u.from, v.gas, v.from);
  }

  /** Somebody's transfer of at least the collector's gas cost, and one of the collector well above both. */
  ghost predicate LargeEnough(u: Pay, v: Pay, d: Address) {
    && u.from != d && v.from == d && u.from !in {u.to, v.to} && u.to != d && v.to != d
    && u.amount >= v.cost && v.amount >= 2 * u.cost + v.cost
  }

  lemma OwedForBoth(u: Pay, v: Pay, d: Address)
    requires LargeEnough(u, v, d)
    ensures Owed(Gain(u, d, u.from), u.cost) == u.cost && Owed(Gain(v, d, d), v.cost) == v.cost
    ensures OwedTogether(u, v, d, u.from) == u.cost + v.cost && OwedTogether(u, v, d, d) == u.cost + v.cost
  {
    assert Gain(u, d, u.from) == -(u.amount as int) - u.cost && Gain(v, d, u.from) == 0;
    assert Gain(u, d, d) == u.cost && Gain(v, d, d) == -(v.amount as int);
  }

  /**
   The gas of two conflict-free transfers, as the engine executes them, adds up when they are
   merged: alone each gas coin pays its own gas, merged each pays the gas of both.
   */
  lemma CreditsAddUp(r: Reader, d: Address, s: State, wave: seq<Transaction>, part: seq<ChangeSet>, u: Pay, v: Pay)
    requires Splits(r, d, s, wave, part, u, v) && LargeEnough(u, v, d)
    ensures ConflictFree(Manifests(part))
    ensures TollOn(s.objects, part[0], u.gas).amount == u.cost && TollOn(s.objects, part[1], v.gas).amount == v.cost
    ensures TollOn(s.objects, Merged(part), u.gas).amount == u.cost + v.cost
    ensures TollOn(s.objects, Merged(part), v.gas).amount == u.cost + v.cost
    ensures PartPaysAlike(s.objects, part) <==> u.cost == 0 && v.cost == 0
  {
    SplitsArePayments(r, d, s, wave, part, u, v);
    PaymentsAreConflictFree(s.objects, part, u, v, d);
    PaymentsMergeIff(s.objects, part, u, v, d);
    OwedForBoth(u, v, d);
  }

  // ---------------------------------------------------------------------------
  // Two transfers of the collector
  // ---------------------------------------------------------------------------

  lemma PaidAlready(due: Address -> nat, v: Visit, paid: set<Address>)
    requires v.owner in paid
    ensures Charges(due, [v], paid) == []
  {
    assert [v][1..] == [];
  }

  lemma OneOwnerBill(objects: Objects, cs: ChangeSet, x: ObjectId, y: ObjectId, a: Address)
    requires cs.gasRefs == [x, y] && GasCoin(objects, cs, x, a) && GasCoin(objects, cs, y, a)
    requires Share(cs, a) > 0
    ensures Bill(objects, cs) == LateCharge(x, a, Share(cs, a)) + []
  {
    var v, w := Visit(x, a, true), Visit(y, a, true);
    TwoVisits(objects, cs, x, a, y, a);
    NextCharge(DueBy(cs), v, [w], {});
    assert {} + {a} == {a};
    PaidAlready(DueBy(cs), w, {a});
  }

  /** Of two coins of one payer only the first pays. */
  lemma FirstCoinPays(objects: Objects, cs: ChangeSet, x: ObjectId, y: ObjectId, a: Address, id: ObjectId)
    requires cs.gasRefs == [x, y] && GasCoin(objects, cs, x, a) && GasCoin(objects, cs, y, a) && Share(cs, a) > 0
    ensures TollOn(objects, cs, id) == TollOf(if id == x then Share(cs, a) else 0)
  {
    OneOwnerBill(objects, cs, x, y, a);
    TakenFirst(x, a, Share(cs, a), [], id);
  }

  lemma PairTollBound(objects: Objects, cs: ChangeSet, x: ObjectId, y: ObjectId, a: Address, id: ObjectId)
    requires cs.gasRefs == [x, y] && GasCoin(objects, cs, x, a) && GasCoin(objects, cs, y, a)
    ensures TollOn(objects, cs, id).amount <= if id == x then Share(cs, a) else 0
  {
    if Share(cs, a) > 0 {
      FirstCoinPays(objects, cs, x, y, a, id);
    } else {
      NothingDue(objects, cs, x, y, a);
    }
  }

  lemma NothingDue(objects: Objects, cs: ChangeSet, x: ObjectId, y: ObjectId, a: Address)
    requires cs.gasRefs == [x, y] && GasCoin(objects, cs, x, a) && GasCoin(objects, cs, y, a) && Share(cs, a) == 0
    ensures Bill(objects, cs) == []
  {
    var v, w := Visit(x, a, true), Visit(y, a, true);
    TwoVisits(objects, cs, x, a, y, a);
    NextCharge(DueBy(cs), v, [w], {});
    NextCharge(DueBy(cs), w, [], {});
    assert [w] + [] == [w];
  }

  /** Both gas coins cover the gas of both. */
  ghost predicate RichCoins(objects: Objects, u: Pay, v: Pay) {
    && u.gas in objects && objects[u.gas].value.coin.Some? && objects[u.gas].value.coin.value >= u.cost + v.cost
    && v.gas in objects && objects[v.gas].value.coin.Some? && objects[v.gas].value.coin.value >= u.cost + v.cost
  }

  lemma CoinsCover(objects: Objects, cs: ChangeSet, u: Pay, v: Pay)
    requires cs.gasRefs == [u.gas, v.gas] && u.gas !in cs.objects && v.gas !in cs.objects && RichCoins(objects, u, v)
    requires forall id :: TollOn(objects, cs, id).amount <= if id == u.gas || id == v.gas then u.cost + v.cost else 0
    ensures Payable(objects, cs)
  {
    forall id | id in Touched(cs) ensures Covers(Written(objects, cs, id), TollOn(objects, cs, id).amount) {
      assert TollOn(objects, cs, id).amount <= if id == u.gas || id == v.gas then u.cost + v.cost else 0;
    }
  }

  lemma PairTotal(part: seq<ChangeSet>, u: Pay, v: Pay, d: Address)
    requires |part| == 2 && IsPay(part[0], u, d) && IsPay(part[1], v, d)
    ensures Total(Merged(part).ownerDeltas) == 0
  {
    MergedPair(part);
    TotalOfPair(part[0].ownerDeltas, part[1].ownerDeltas);
  }

  lemma TotalOfPair(x: map<Address, OwnerDelta>, y: map<Address, OwnerDelta>)
    ensures Total(AddDeltas(AddDeltas(map[], x), y)) == Total(x) + Total(y)
  {
    var none: map<Address, OwnerDelta> := map[];
    TotalAdd(none, x);
    TotalAdd(AddDeltas(none, x), y);
  }

  lemma MergedCoins(objects: Objects, part: seq<ChangeSet>, u: Pay, v: Pay, d: Address)
    requires Payments(objects, part, u, v, d) && u.from == d && v.from == d
    ensures GasCoin(objects, Merged(part), u.gas, d) && GasCoin(objects, Merged(part), v.gas, d)
    ensures Merged(part).gasRefs == [u.gas, v.gas]
  {
    PaymentCoins(objects, part, u, v, d);
    MergedPair(part);
    MergedGasCoin(objects, part, 0, u.gas, d);
    MergedGasCoin(objects, part, 1, v.gas, d);
  }

  lemma SpentTwiceIsPayable(objects: Objects, part: seq<ChangeSet>, u: Pay, v: Pay, d: Address)
    requires Payments(objects, part, u, v, d) && u.from == d && v.from == d && RichCoins(objects, u, v)
    ensures Payable(objects, Merged(part))
  {
    MergedCoins(objects, part, u, v, d);
    PairShare(part, u, v, d, d);
    forall id ensures TollOn(objects, Merged(part), id).amount
                      <= if id == u.gas || id == v.gas then u.cost + v.cost else 0
    {
      PairTollBound(objects, Merged(part), u.gas, v.gas, d, id);
    }
    CoinsCover(objects, Merged(part), u, v);
  }

  /** Two transfers of the collector: each passes the guard against the snapshot, the second not after the first. */
  ghost predicate SpendsTwice(s: State, u: Pay, v: Pay, d: Address, need: nat) {
    && u.from == d && v.from == d
    && u.amount + v.amount <= BookOf(s, d).balance
    && BookOf(s, d).balance - u.amount < need <= BookOf(s, d).balance
    && Coins(BookOf(s, d).held) < need
  }

  /** A transfer leaves its payer no object more, and none with more in it. */
  lemma PayerHolds(objects: Objects, cs: ChangeSet, u: Pay, id: ObjectId)
    requires Rewrites(cs, u, objects) && cs.gasRefs == [u.gas] && u.to != u.from
    requires id in Held(ObjectsAfter(objects, cs), u.from)
    ensures id in Held(objects, u.from)
    ensures CoinAmount(Held(ObjectsAfter(objects, cs), u.from)[id]) <= CoinAmount(Held(objects, u.from)[id])
  {
    HeldIs(ObjectsAfter(objects, cs), u.from, id);
    HeldIs(objects, u.from, id);
    FindAfter(objects, cs, id);
  }

  lemma CoinsShrink(objects: Objects, cs: ChangeSet, u: Pay)
    requires Rewrites(cs, u, objects) && cs.gasRefs == [u.gas] && u.to != u.from
    ensures Coins(Held(ObjectsAfter(objects, cs), u.from)) <= Coins(Held(objects, u.from))
  {
    var after := Held(ObjectsAfter(objects, cs), u.from);
    forall id | id in after
      ensures id in Held(objects, u.from) && CoinAmount(after[id]) <= CoinAmount(Held(objects, u.from)[id])
    {
      PayerHolds(objects, cs, u, id);
    }
    MapSumMonotone(after, Held(objects, u.from), CoinAmount);
  }

  lemma PostedLow(books: Books, book: Book, step: Step)
    requires Takes(books, book, step) && step.named && step.delta < 0 && book.balance >= -step.delta
    ensures Posted(books, book, step).Some? && Posted(books, book, step).value.balance <= book.balance + step.delta
  {
    assert books(book.balance, book.held, step).Some?;
  }

  lemma MeansBelow(book: Book, need: nat)
    requires book.balance < need && Coins(book.held) < need && need > 0
    ensures Means(book) < need
  {
  }

  lemma LowAfterFirst(books: Books, s: State, cs: ChangeSet, u: Pay, d: Address, need: nat)
    requires Room(books, s, cs) && IsPay(cs, u, d) && Rewrites(cs, u, s.objects)
    requires u.from == d && u.to != d && u.amount > 0
    requires u.amount <= BookOf(s, d).balance && BookOf(s, d).balance - u.amount < need
    requires Coins(BookOf(s, d).held) < need
    ensures Means(BookOf(Effected(books, s, cs), d)) < need
  {
    var book, step := BookOf(s, d), StepOf(s.objects, cs, d);
    assert DeltaOf(cs, d) == OwnerDelta(Gain(u, d, d), {});
    assert step.delta == -(u.amount as int) && step.named;
    PostedLow(books, book, step);
    BookOfEffect(books, s, cs, d);
    CoinsShrink(s.objects, cs, u);
    MeansBelow(BookOf(Effected(books, s, cs), d), need);
  }

  lemma SpendingIsCovered(s: State, part: seq<ChangeSet>, u: Pay, v: Pay, d: Address, need: nat)
    requires Payments(s.objects, part, u, v, d) && SpendsTwice(s, u, v, d, need)
    ensures Covered(s, Merged(part))
  {
    forall o ensures Debit(Merged(part), o) <= Wealth(BookOf(s, o)) {
      PairDeltas(part, o);
      CoinsAreNonNegative(BookOf(s, o).held);
      assert DeltaOf(part[0], o).balance == Gain(u, d, o) && DeltaOf(part[1], o).balance == Gain(v, d, o);
    }
  }

  lemma SpendingIsAdmitted(books: Books, s: State, part: seq<ChangeSet>, u: Pay, v: Pay, d: Address, need: nat)
    requires Payments(s.objects, part, u, v, d) && SpendsTwice(s, u, v, d, need)
    requires RichCoins(s.objects, u, v) && InRange(s.supply) && Room(books, s, Merged(part))
    ensures Apply(books, s, Merged(part)).Ok?
  {
    SpentTwiceIsPayable(s.objects, part, u, v, d);
    PairTotal(part, u, v, d);
    SpendingIsCovered(s, part, u, v, d, need);
    CoveredIsAdmitted(books, s, Merged(part));
  }

  lemma FirstEffect(books: Books, s: State, css: seq<ChangeSet>)
    requires css != []
    ensures EffectedByAll(books, s, css[..1]) == Effected(books, s, css[0])
  {
    assert css[..1][..0] == [];
  }

  lemma GuardFails(books: Books, m: Machine, s: State, part: seq<ChangeSet>, u: Pay, v: Pay, d: Address,
                   tx: Transaction)
    requires Payments(s.objects, part, u, v, d) && SpendsTwice(s, u, v, d, Need(m.terms(tx)))
    requires tx.sender == d && Room(books, s, part[0])
    ensures !Refuses(m.terms(tx), Means(BookOf(s, d))) && !GuardHolds(books, m, s, tx, part[..1])
  {
    LowAfterFirst(books, s, part[0], u, d, Need(m.terms(tx)));
    FirstEffect(books, s, part);
    NotAlike(m.terms(tx), Means(BookOf(s, d)), Means(BookOf(Effected(books, s, part[0]), d)));
  }

  lemma NotAlike(g: GasTerms, x: nat, y: nat)
    requires y < Need(g) <= x
    ensures !Refuses(g, x) && !GuardAlike(g, x, y)
  {
  }

  /**
   For every two split transfers of the collector, as the engine executes them, that its recorded
   balance covers and whose first leaves less than the second's maximum gas: they do not conflict
   and their merged batch is accepted, although the second is refused at its turn.
   */
  lemma CollectorIsTurnedAway(books: Books, r: Reader, d: Address, s: State, wave: seq<Transaction>,
                              part: seq<ChangeSet>, u: Pay, v: Pay)
    requires Splits(r, d, s, wave, part, u, v)
    requires SpendsTwice(s, u, v, d, Need(Terms(r, wave[1]))) && RichCoins(s.objects, u, v) && InRange(s.supply)
    requires Room(books, s, part[0]) && Room(books, s, Merged(part))
    ensures ConflictFree(Manifests(part)) && Apply(books, s, Merged(part)).Ok?
    ensures !GuardHolds(books, NativeMachine(r), s, wave[1], part[..1])
  {
    SplitsArePayments(r, d, s, wave, part, u, v);
    PaymentsAreConflictFree(s.objects, part, u, v, d);
    SpendingIsAdmitted(books, s, part, u, v, d, Need(Terms(r, wave[1])));
    GuardFails(books, NativeMachine(r), s, part, u, v, d, wave[1]);
  }

  /** And a wave that commits such a pair does not leave what serial execution leaves. */
  lemma CollectorWaveDeviates(rt: Runtime, books: Books, r: Reader, d: Address, settings: Settings, s: State,
                              wave: seq<Transaction>, part: seq<ChangeSet>, batches: seq<seq<nat>>,
                              u: Pay, v: Pay, failHard: bool, t: Tally)
    requires Modelled(rt, books, NativeMachine(r), d) && CachedSupplyValid(rt.supply(s))
    requires Speculated(rt, s, wave, part)
    requires Schedules(batches, part, settings) && AllWithin(batches, |part|)
    requires CandidateFrom(rt, s, part, batches).Ok? && Undisturbed(rt, books, s, part, batches)
    requires Splits(r, d, s, wave, part, u, v) && Room(books, s, part[0])
    requires SpendsTwice(s, u, v, d, Need(Terms(r, wave[1])))
    ensures !SameRun(SerialRun(rt, s, wave, failHard, t),
                     Outcome(CandidateFrom(rt, s, part, batches).value, Ok(ExecutedAll(t, wave, part))))
  {
    SplitsArePayments(r, d, s, wave, part, u, v);
    CommittedWaveIff(rt, books, NativeMachine(r), d, settings, s, wave, part, batches, failHard, t);
    GuardFails(books, NativeMachine(r), s, part, u, v, d, wave[1]);
  }
}
