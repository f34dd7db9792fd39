/**
 Native transfers and burns as executions of the engine: the access checks, the guard, the
 call itself on the stored coins, its writes and the settled gas. What such an execution
 debits is always covered: by the wealth of its sender when it is executed, and, when the
 call went through, by coins it declares, which stay until its turn in a conflict-free wave.
 */
module NativeCalls {
  import opened Prelude
  import opened ChangeSets
  import opened Ledger
  import opened Footprints
  import opened Gas
  import opened Executor
  import opened Execution
  import opened Batches
  import opened Waves
  import opened Debits
  import N = NativeCoin

  /** How the engine finds stored coins behind ledger objects and calls behind transactions. */
  datatype Reader = Reader(
    native: string -> bool,
    rest: N.Coin -> string,                    // what the ledger does not look at
    coin: ObjectValue -> N.Coin,
    call: Transaction -> N.NativeTx,
    inputs: Transaction -> set<ObjectId>,
    limit: Transaction -> nat,
    price: Transaction -> nat,
    fits: (Transaction, Objects) -> bool,      // versions, digests and owners that a transaction declares
    error: (Transaction, Objects) -> string)

  const FAILED := "Execution failed: "

  /** The call is the sender's, is well typed, and the coin of a transfer is one of the inputs. */
  ghost predicate WellFormed(r: Reader) {
    forall tx ::
      && r.call(tx).sender == tx.sender && N.WellTyped(r.call(tx))
      && (r.call(tx).call.TransferCall? ==> r.call(tx).call.coin in r.inputs(tx))
  }

  // ---------------------------------------------------------------------------
  // Stored coins and ledger objects
  // ---------------------------------------------------------------------------

  /** A stored coin as the ledger sees it. */
  function View(native: string -> bool, rest: N.Coin -> string): N.Coin -> ObjectValue {
    (c: N.Coin) => ObjectValue(c.owner, if native(c.kind) then N.ReadBalance(c.data) else None, rest(c))
  }

  function CoinsIn(r: Reader, objects: Objects): N.Objects {
    map id | id in objects :: r.coin(objects[id].value)
  }

  /** Every object is the view of the coin stored behind it. */
  ghost predicate Reads(r: Reader, objects: Objects) {
    forall id :: id in objects ==> View(r.native, r.rest)(r.coin(objects[id].value)) == objects[id].value
  }

  function Recorded(view: N.Coin -> ObjectValue, cs: ChangeSet, w: (ObjectId, Option<N.Coin>)): ChangeSet {
    if w.1.None? then cs.(objects := cs.objects[w.0 := None])
    else cs.(objects := cs.objects[w.0 := Some(view(w.1.value))], order := cs.order + [w.0])
  }

  function RecordedAll(view: N.Coin -> ObjectValue, cs: ChangeSet, writes: N.Writes): (after: ChangeSet)
    ensures after == cs.(objects := after.objects, order := after.order)
  {
    if writes == [] then cs
    else Recorded(view, RecordedAll(view, cs, writes[..|writes| - 1]), writes[|writes| - 1])
  }

  // ---------------------------------------------------------------------------
  // The execution
  // ---------------------------------------------------------------------------

  /** The objects that pay. */
  function Payers(tx: N.NativeTx): seq<ObjectId> {
    if tx.payment.Some? then tx.payment.value else []
  }

  function Declared(r: Reader, tx: Transaction): set<ObjectId> {
    r.inputs(tx) + (set id | id in Payers(r.call(tx)))
  }

  function Seen(r: Reader, tx: Transaction, objects: Objects): Objects {
    map id | id in objects && id in Declared(r, tx) :: objects[id]
  }

  function ContextOf(tx: N.NativeTx, inputs: set<ObjectId>): ChangeSet {
    EMPTY_CHANGESET.(
      inputs := inputs, gasRefs := Payers(tx),
      payment := if tx.payment.Some? then Some(GasPayment(Some(tx.sender), tx.payment.value)) else None)
  }

  /** Declared objects exist and are as declared; gas objects are native coins of the sender. */
  predicate Accessible(r: Reader, tx: Transaction, objects: Objects) {
    && Declared(r, tx) <= objects.Keys && r.fits(tx, Seen(r, tx, objects))
    && forall id :: id in Payers(r.call(tx)) && id in objects ==>
         r.native(r.coin(objects[id].value).kind) && r.coin(objects[id].value).owner == tx.sender
  }

  function Check(r: Reader, tx: Transaction, s: State): Result<ChangeSet> {
    if Accessible(r, tx, s.objects) then Ok(ContextOf(r.call(tx), r.inputs(tx))) else Err("object access")
  }

  function Terms(r: Reader, tx: Transaction): GasTerms {
    GasTerms(TransferGas, r.limit(tx), r.price(tx))
  }

  function BaseCost(g: GasTerms): nat {
    Min(Units(g.op) * g.price, U64_MAX)
  }

  /** The native call on the stored coins, with its writes recorded. */
  function Body(r: Reader, tx: Transaction, s: State): (ChangeSet, Work) {
    var (cs, writes) := N.BeforeGas(r.native, CoinsIn(r, s.objects), r.call(tx), BaseCost(Terms(r, tx)),
                                    ContextOf(r.call(tx), r.inputs(tx)),
                                    FAILED + r.error(tx, Seen(r, tx, s.objects)));
    (RecordedAll(View(r.native, r.rest), cs, writes), NativeWork)
  }

  function NativeMachine(r: Reader): Machine {
    Machine(tx => Terms(r, tx), (tx, s) => Check(r, tx, s), (tx, s) => Body(r, tx, s))
  }

  /** The gas a native call is charged. */
  ghost function CostOf(r: Reader, tx: Transaction, s: State): nat {
    var balance := Means(BookOf(s, tx.sender));
    if Refuses(Terms(r, tx), balance) then Min(BaseCost(Terms(r, tx)), balance) else BaseCost(Terms(r, tx))
  }

  /** The changeset of an execution before gas. */
  ghost function Unsettled(r: Reader, tx: Transaction, s: State): ChangeSet {
    var g, balance := Terms(r, tx), Means(BookOf(s, tx.sender));
    if Refuses(g, balance) then Refused(ContextOf(r.call(tx), r.inputs(tx)), Need(g), balance) else Body(r, tx, s).0
  }

  lemma ExecutedIs(r: Reader, d: Address, tx: Transaction, s: State)
    requires Execute(NativeMachine(r), d, tx, s).Ok?
    ensures Execute(NativeMachine(r), d, tx, s)
            == ApplyGas(Unsettled(r, tx, s), tx.sender, d, CostOf(r, tx, s), Units(TransferGas))
  {
  }

  // ---------------------------------------------------------------------------
  // What an execution declares
  // ---------------------------------------------------------------------------

  /** A native call leaves the context as it is, apart from deltas, writes and the outcome. */
  lemma BodyKeepsContext(r: Reader, tx: Transaction, s: State)
    ensures var cs, context := Body(r, tx, s).0, ContextOf(r.call(tx), r.inputs(tx));
            && cs == context.(ownerDeltas := cs.ownerDeltas, objects := cs.objects, order := cs.order,
                              success := cs.success, errorMessage := cs.errorMessage)
            && (cs.errorMessage.Some? ==> FAILED <= cs.errorMessage.value)
  {
  }

  lemma ExecutionKeepsContext(r: Reader, d: Address, tx: Transaction, s: State)
    requires Execute(NativeMachine(r), d, tx, s).Ok?
    ensures var cs := Execute(NativeMachine(r), d, tx, s).value;
            cs.inputs == r.inputs(tx) && cs.gasRefs == Payers(r.call(tx))
  {
    BodyKeepsContext(r, tx, s);
    ExecutedIs(r, d, tx, s);
    SettledContext(Unsettled(r, tx, s), tx.sender, d, CostOf(r, tx, s), Units(TransferGas));
  }

  lemma SettledContext(cs: ChangeSet, sender: Address, d: Address, cost: nat, used: nat)
    requires ApplyGas(cs, sender, d, cost, used).Ok?
    ensures ApplyGas(cs, sender, d, cost, used).value.inputs == cs.inputs
    ensures ApplyGas(cs, sender, d, cost, used).value.gasRefs == cs.gasRefs
  {
  }

  lemma DeclaredIsInManifest(r: Reader, d: Address, tx: Transaction, s: State, id: ObjectId)
    requires Execute(NativeMachine(r), d, tx, s).Ok? && id in Declared(r, tx)
    ensures var m := Manifest(Execute(NativeMachine(r), d, tx, s).value);
            ObjectKey(id) in m.readKeys || ObjectKey(id) in m.writeKeys
  {
    ExecutionKeepsContext(r, d, tx, s);
    var cs := Execute(NativeMachine(r), d, tx, s).value;
    if id in Payers(r.call(tx)) {
      assert id in Touched(cs);
      TouchedIsWritten(cs, id);
    }
  }

  ghost predicate SameDeclared(r: Reader, tx: Transaction, x: Objects, y: Objects) {
    forall id :: id in Declared(r, tx) ==> Find(x, id) == Find(y, id)
  }

  lemma SameSeen(r: Reader, tx: Transaction, x: Objects, y: Objects)
    requires SameDeclared(r, tx, x, y)
    ensures Seen(r, tx, x) == Seen(r, tx, y)
  {
    forall id | id in Declared(r, tx) ensures id in x <==> id in y {
      assert Find(x, id) == Find(y, id);
    }
    forall id | id in Declared(r, tx) && id in x ensures x[id] == y[id] {
      assert Find(x, id) == Find(y, id);
    }
  }

  lemma SameAccess(r: Reader, tx: Transaction, x: Objects, y: Objects)
    requires SameDeclared(r, tx, x, y)
    ensures Accessible(r, tx, x) == Accessible(r, tx, y)
  {
    SameSeen(r, tx, x, y);
    forall id | id in Declared(r, tx) ensures (id in x <==> id in y) && (id in x ==> x[id] == y[id]) {
      assert Find(x, id) == Find(y, id);
    }
    assert forall id :: id in Payers(r.call(tx)) ==> id in Declared(r, tx);
  }

  /** The call looks at its coin and at its first gas object only. */
  lemma SameCall(r: Reader, tx: Transaction, x: Objects, y: Objects, cost: nat, cs: ChangeSet, error: string)
    requires WellFormed(r) && SameDeclared(r, tx, x, y)
    ensures N.Can(r.native, CoinsIn(r, x), r.call(tx), cost) == N.Can(r.native, CoinsIn(r, y), r.call(tx), cost)
    ensures N.BeforeGas(r.native, CoinsIn(r, x), r.call(tx), cost, cs, error)
            == N.BeforeGas(r.native, CoinsIn(r, y), r.call(tx), cost, cs, error)
  {
    var n := r.call(tx);
    if n.payment.Some? && n.payment.value != [] {
      assert n.payment.value[0] in Payers(n);
      assert Find(x, n.payment.value[0]) == Find(y, n.payment.value[0]);
    }
    if n.call.TransferCall? {
      assert n.call.coin in Declared(r, tx);
      assert Find(x, n.call.coin) == Find(y, n.call.coin);
    }
  }

  lemma DeclaredSame(r: Reader, d: Address, tx: Transaction, s: State, t: State)
    requires Execute(NativeMachine(r), d, tx, s).Ok?
    requires SameOn(s, t, Manifest(Execute(NativeMachine(r), d, tx, s).value))
    ensures SameDeclared(r, tx, s.objects, t.objects)
  {
    forall id | id in Declared(r, tx) ensures Find(s.objects, id) == Find(t.objects, id) {
      DeclaredIsInManifest(r, d, tx, s, id);
      assert SameAt(s, t, ObjectKey(id));
    }
  }

  lemma SameBody(r: Reader, tx: Transaction, s: State, t: State)
    requires WellFormed(r) && SameDeclared(r, tx, s.objects, t.objects)
    ensures Body(r, tx, t) == Body(r, tx, s)
  {
    SameSeen(r, tx, s.objects, t.objects);
    SameCall(r, tx, s.objects, t.objects, BaseCost(Terms(r, tx)), ContextOf(r.call(tx), r.inputs(tx)),
             FAILED + r.error(tx, Seen(r, tx, s.objects)));
  }

  lemma SameAgain(r: Reader, d: Address, tx: Transaction, s: State, t: State)
    requires WellFormed(r) && Execute(NativeMachine(r), d, tx, s).Ok?
    requires SameOn(s, t, Manifest(Execute(NativeMachine(r), d, tx, s).value))
    ensures Check(r, tx, t) == Check(r, tx, s) && Body(r, tx, t) == Body(r, tx, s)
  {
    DeclaredSame(r, d, tx, s, t);
    SameAccess(r, tx, s.objects, t.objects);
    SameBody(r, tx, s, t);
  }

  /** Checks and body look only at declared objects. */
  lemma NativeDeclares(r: Reader, d: Address)
    requires WellFormed(r)
    ensures Declares(NativeMachine(r), d)
  {
    var m := NativeMachine(r);
    forall tx, s, t | Execute(m, d, tx, s).Ok? && SameOn(s, t, Manifest(Execute(m, d, tx, s).value))
      ensures m.check(tx, t) == m.check(tx, s) && m.body(tx, t) == m.body(tx, s)
    {
      SameAgain(r, d, tx, s, t);
    }
  }

  lemma NativePaysItself(r: Reader)
    requires WellFormed(r)
    ensures PaysItself(NativeMachine(r))
  {
    var m := NativeMachine(r);
    forall tx, s ensures PaidBySender(m.body(tx, s).0, tx.sender) {
      BodyKeepsContext(r, tx, s);
    }
  }

  lemma FailureWords(r: Reader, tx: Transaction, s: State)
    requires Body(r, tx, s).0.errorMessage.Some?
    ensures !(SHORTFALL <= Body(r, tx, s).0.errorMessage.value)
  {
    BodyKeepsContext(r, tx, s);
    assert FAILED[0] == 'E' && SHORTFALL[0] == 'I';
  }

  lemma NativeOwnWords(r: Reader)
    ensures OwnWords(NativeMachine(r))
  {
    var m := NativeMachine(r);
    forall tx, s | m.body(tx, s).0.errorMessage.Some?
      ensures !(SHORTFALL <= m.body(tx, s).0.errorMessage.value)
    {
      FailureWords(r, tx, s);
    }
  }

  // ---------------------------------------------------------------------------
  // A runtime that executes native calls and applies by the ledger
  // ---------------------------------------------------------------------------

  ghost function NativeRuntime(r: Reader, books: Books, d: Address, figures: SupplyView): Runtime {
    Runtime(
      (tx, s) => Execute(NativeMachine(r), d, tx, s), (tx, s, e) => Err(e), (s, cs) => Apply(books, s, cs),
      (txs, css) => false, (s, css) => Err("not trusted"), s => Ok(s), s => figures)
  }

  lemma ExecutesAlike(r: Reader, d: Address, tx: Transaction, s: State, t: State)
    requires Alike(s, t)
    ensures Execute(NativeMachine(r), d, tx, s) == Execute(NativeMachine(r), d, tx, t)
  {
    assert BookOf(s, tx.sender) == BookOf(t, tx.sender);
  }

  lemma TreatedAlike(r: Reader, books: Books, d: Address, figures: SupplyView, s: State, t: State)
    requires Alike(s, t)
    ensures TreatsAlike(NativeRuntime(r, books, d, figures), s, t)
  {
    var rt := NativeRuntime(r, books, d, figures);
    forall tx ensures rt.execute(tx, s) == rt.execute(tx, t) {
      ExecutesAlike(r, d, tx, s, t);
    }
    forall cs ensures Matches(rt.apply(s, cs), rt.apply(t, cs)) {
      AlikeApply(books, s, t, cs);
    }
  }

  /** What the theorems on waves ask of a runtime can be had: with any books, native calls meet it. */
  lemma NativeIsModelled(r: Reader, books: Books, d: Address, figures: SupplyView)
    requires WellFormed(r)
    ensures Modelled(NativeRuntime(r, books, d, figures), books, NativeMachine(r), d)
  {
    var rt := NativeRuntime(r, books, d, figures);
    NativePaysItself(r);
    NativeDeclares(r, d);
    NativeOwnWords(r);
    assert OnLedger(rt, books);
    forall s, t | Alike(s, t) ensures TreatsAlike(rt, s, t) {
      TreatedAlike(r, books, d, figures, s, t);
    }
  }

  // ---------------------------------------------------------------------------
  // What an execution debits
  // ---------------------------------------------------------------------------

  /** The guard passes and the call succeeds. */
  ghost predicate GoesThrough(r: Reader, tx: Transaction, s: State) {
    && !Refuses(Terms(r, tx), Means(BookOf(s, tx.sender)))
    && N.Can(r.native, CoinsIn(r, s.objects), r.call(tx), BaseCost(Terms(r, tx)))
  }

  /** What a call itself may take from its sender. */
  function AmountOf(r: Reader, tx: Transaction): nat {
    r.call(tx).call.amount
  }

  lemma SettledDelta(cs: ChangeSet, sender: Address, d: Address, cost: nat, used: nat, o: Address)
    requires ApplyGas(cs, sender, d, cost, used).Ok?
    ensures DeltaOf(ApplyGas(cs, sender, d, cost, used).value, o).balance
            == DeltaOf(cs, o).balance - (if o == sender then cost else 0) + (if o == d then cost else 0)
  {
  }

  /** Gas adds to the sender's loss unless the sender collects it. */
  lemma SettledDebits(cs: ChangeSet, sender: Address, d: Address, cost: nat, used: nat, amount: nat)
    requires ApplyGas(cs, sender, d, cost, used).Ok?
    requires forall o :: DeltaOf(cs, o).balance >= if o == sender then -(amount as int) else 0
    ensures var settled := ApplyGas(cs, sender, d, cost, used).value;
            forall o :: Debit(settled, o) <= if o == sender then amount + (if sender == d then 0 else cost) else 0
  {
    forall o
      ensures DeltaOf(ApplyGas(cs, sender, d, cost, used).value, o).balance
              == DeltaOf(cs, o).balance - (if o == sender then cost else 0) + (if o == d then cost else 0)
    {
      SettledDelta(cs, sender, d, cost, used, o);
    }
  }

  lemma BodyDebits(r: Reader, tx: Transaction, s: State)
    requires WellFormed(r)
    ensures var through := N.Can(r.native, CoinsIn(r, s.objects), r.call(tx), BaseCost(Terms(r, tx)));
            forall o :: DeltaOf(Body(r, tx, s).0, o).balance
                        >= if o == tx.sender && through then -(AmountOf(r, tx) as int) else 0
  {
  }

  ghost function TakenBy(r: Reader, tx: Transaction, s: State): nat {
    if GoesThrough(r, tx, s) then AmountOf(r, tx) else 0
  }

  lemma UnsettledDebits(r: Reader, tx: Transaction, s: State)
    requires WellFormed(r)
    ensures forall o :: DeltaOf(Unsettled(r, tx, s), o).balance
                        >= if o == tx.sender then -(TakenBy(r, tx, s) as int) else 0
  {
    BodyDebits(r, tx, s);
  }

  /** An execution debits its sender only: the amount if the call went through, and the gas unless it collects it. */
  lemma NativeDebits(r: Reader, d: Address, tx: Transaction, s: State)
    requires WellFormed(r) && Execute(NativeMachine(r), d, tx, s).Ok?
    ensures forall o :: Debit(Execute(NativeMachine(r), d, tx, s).value, o)
                        <= if o == tx.sender then TakenBy(r, tx, s) + (if tx.sender == d then 0 else CostOf(r, tx, s))
                           else 0
  {
    ExecutedIs(r, d, tx, s);
    UnsettledDebits(r, tx, s);
    SettledDebits(Unsettled(r, tx, s), tx.sender, d, CostOf(r, tx, s), Units(TransferGas), TakenBy(r, tx, s));
  }

  /** Gas is within the means that the guard looked at. */
  lemma CostIsWithinMeans(r: Reader, d: Address, tx: Transaction, s: State)
    requires Execute(NativeMachine(r), d, tx, s).Ok?
    ensures CostOf(r, tx, s) <= Wealth(BookOf(s, tx.sender))
  {
    var g := Terms(r, tx);
    ScaledUnits(Units(g.op), g.limit, g.price);
    MeansAreWithinWealth(BookOf(s, tx.sender));
  }

  // ---------------------------------------------------------------------------
  // Declared coins cover a call that goes through
  // ---------------------------------------------------------------------------

  lemma UsableIsHeld(r: Reader, objects: Objects, id: ObjectId, a: Address)
    requires N.Usable(r.native, CoinsIn(r, objects), id, a).Some? && id in objects
    requires View(r.native, r.rest)(r.coin(objects[id].value)) == objects[id].value
    ensures id in Held(objects, a)
    ensures CoinAmount(Held(objects, a)[id]) == N.Usable(r.native, CoinsIn(r, objects), id, a).value
  {
  }

  /** The sender's coins cover amount and gas of a call that goes through. */
  lemma CoinsCoverCall(r: Reader, tx: Transaction, objects: Objects, cost: nat)
    requires WellFormed(r) && N.Can(r.native, CoinsIn(r, objects), r.call(tx), cost)
    requires forall id :: id in objects && id in Declared(r, tx) ==>
               View(r.native, r.rest)(r.coin(objects[id].value)) == objects[id].value
    ensures Coins(Held(objects, tx.sender)) >= AmountOf(r, tx) + cost
  {
    var n := r.call(tx);
    var gas := n.payment.value[0];
    assert gas in Payers(n);
    UsableIsHeld(r, objects, gas, tx.sender);
    if n.call.TransferCall? {
      UsableIsHeld(r, objects, n.call.coin, tx.sender);
      TwoCoinsCount(Held(objects, tx.sender), n.call.coin, gas);
    } else {
      OneCoinCounts(Held(objects, tx.sender), gas);
    }
  }

  /** Where the declared objects are as they were, the coins cover the call still. */
  lemma CoinsStillCover(r: Reader, tx: Transaction, x: Objects, y: Objects, cost: nat)
    requires WellFormed(r) && Reads(r, x) && SameDeclared(r, tx, x, y)
    requires N.Can(r.native, CoinsIn(r, x), r.call(tx), cost)
    ensures Coins(Held(y, tx.sender)) >= AmountOf(r, tx) + cost
  {
    SameCall(r, tx, x, y, cost, EMPTY_CHANGESET, "");
    forall id | id in y && id in Declared(r, tx)
      ensures View(r.native, r.rest)(r.coin(y[id].value)) == y[id].value
    {
      assert Find(x, id) == Find(y, id);
    }
    CoinsCoverCall(r, tx, y, cost);
  }

  /** A bound on what a native call debits its sender. */
  ghost function DebitBound(r: Reader, d: Address, tx: Transaction, s: State): nat {
    TakenBy(r, tx, s) + (if tx.sender == d then 0 else CostOf(r, tx, s))
  }

  lemma BoundedIsCovered(t: State, cs: ChangeSet, sender: Address, bound: nat)
    requires forall o :: Debit(cs, o) <= if o == sender then bound else 0
    requires bound <= Wealth(BookOf(t, sender))
    ensures Covered(t, cs)
  {
    forall o ensures Debit(cs, o) <= Wealth(BookOf(t, o)) {
      CoinsAreNonNegative(BookOf(t, o).held);
    }
  }

  lemma BoundIsWithinWealth(r: Reader, d: Address, tx: Transaction, s: State, t: State)
    requires WellFormed(r) && Reads(r, s.objects) && Execute(NativeMachine(r), d, tx, s).Ok?
    requires SameDeclared(r, tx, s.objects, t.objects)
    requires GoesThrough(r, tx, s) || tx.sender == d || BookOf(t, tx.sender) == BookOf(s, tx.sender)
    ensures DebitBound(r, d, tx, s) <= Wealth(BookOf(t, tx.sender))
  {
    CostIsWithinMeans(r, d, tx, s);
    CoinsAreNonNegative(BookOf(t, tx.sender).held);
    if GoesThrough(r, tx, s) {
      CoinsStillCover(r, tx, s.objects, t.objects, BaseCost(Terms(r, tx)));
    }
  }

  /** A native call, however it ends, debits nobody above its wealth. */
  lemma NativeIsCovered(r: Reader, d: Address, tx: Transaction, s: State)
    requires WellFormed(r) && Reads(r, s.objects) && Execute(NativeMachine(r), d, tx, s).Ok?
    ensures Covered(s, Execute(NativeMachine(r), d, tx, s).value)
  {
    NativeDebits(r, d, tx, s);
    BoundIsWithinWealth(r, d, tx, s, s);
    BoundedIsCovered(s, Execute(NativeMachine(r), d, tx, s).value, tx.sender, DebitBound(r, d, tx, s));
  }

  /** In another state with the same declared keys: covered, unless a failed call finds its sender changed. */
  lemma CoveredAgain(r: Reader, d: Address, tx: Transaction, s: State, t: State)
    requires WellFormed(r) && Reads(r, s.objects) && Execute(NativeMachine(r), d, tx, s).Ok?
    requires SameOn(s, t, Manifest(Execute(NativeMachine(r), d, tx, s).value))
    requires GoesThrough(r, tx, s) || tx.sender == d || BookOf(t, tx.sender) == BookOf(s, tx.sender)
    ensures Covered(t, Execute(NativeMachine(r), d, tx, s).value)
  {
    DeclaredSame(r, d, tx, s, t);
    NativeDebits(r, d, tx, s);
    BoundIsWithinWealth(r, d, tx, s, t);
    BoundedIsCovered(t, Execute(NativeMachine(r), d, tx, s).value, tx.sender, DebitBound(r, d, tx, s));
  }

  /** A native call that went through, one of the collector, or one whose sender the others leave alone. */
  ghost predicate NativeAt(books: Books, r: Reader, d: Address, s: State, wave: seq<Transaction>, css: seq<ChangeSet>,
                           j: nat)
    requires j < |wave| == |css|
  {
    && Execute(NativeMachine(r), d, wave[j], s) == Ok(css[j])
    && (GoesThrough(r, wave[j], s) || wave[j].sender == d
        || BookOf(EffectedByAll(books, s, css[..j]), wave[j].sender) == BookOf(s, wave[j].sender))
  }

  /**
   At its turn in a conflict-free wave, whatever the other transactions do, the debit of a
   native call that went through is covered: its own coins are declared and nobody has touched
   them. So is that of a failed or refused call, unless the others changed its sender's book and
   the sender is not the collector, whom gas costs nothing.
   */
  lemma NativeDebitStands(books: Books, r: Reader, d: Address, s: State, wave: seq<Transaction>, css: seq<ChangeSet>,
                          j: nat)
    requires WellFormed(r) && Reads(r, s.objects) && ConflictFree(Manifests(css))
    requires j < |wave| == |css| && NativeAt(books, r, d, s, wave, css, j)
    ensures Covered(EffectedByAll(books, s, css[..j]), css[j])
  {
    DeclaredKeysStay(books, s, css, j);
    CoveredAgain(r, d, wave[j], s, EffectedByAll(books, s, css[..j]));
  }

  /**
   So no overdraft is hidden by merging such a wave: one by one, only gas coins and the supply
   can reject its changesets.
   */
  lemma NoOverdraftInTurn(books: Books, r: Reader, d: Address, s: State, wave: seq<Transaction>, css: seq<ChangeSet>)
    requires WellFormed(r) && Reads(r, s.objects) && ConflictFree(Manifests(css)) && |wave| == |css|
    requires forall j :: 0 <= j < |css| ==> NativeAt(books, r, d, s, wave, css, j) && RoomAt(books, s, css, j)
    ensures ApplyEach(books, s, css).Ok? <==> AllPayable(s.objects, css) && SupplyInRange(s.supply, css)
  {
    ConflictFreeIsApart(css);
    forall j | 0 <= j < |css| ensures CoveredAt(books, s, css, j) {
      NativeDebitStands(books, r, d, s, wave, css, j);
    }
    CoveredRunIff(books, s, css);
  }
}
