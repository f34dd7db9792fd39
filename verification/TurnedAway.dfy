/**
 A wave in full: the collector's account records 1005 and owns two coins of 11 and two of 200.
 It sends two transfers of 10 at a gas limit of 1000 and a price of 1, so each must be able to
 pay 1000 and costs 100. The wave commits both; serial execution refuses the second.
 */
module TurnedAway {
  import opened Prelude
  import opened ChangeSets
  import opened Ledger
  import opened Merging
  import opened Gas
  import opened Executor
  import opened Execution
  import opened Batches
  import opened Waves
  import opened Debits
  import opened NativeCalls
  import opened Divergence
  import N = NativeCoin

  const RECORDED: nat := 1005
  const COIN: nat := 11
  const GAS_COIN: nat := 200
  const AMOUNT: nat := 10
  const LIMIT: nat := 1000
  const COST: nat := 100
  const SUPPLY: nat := 100_000

  /** Two transfers of the collector, with names that do not meet. */
  ghost predicate Cast(d: Address, u: Pay, v: Pay) {
    && u == Pay(d, u.coin, u.output, u.to, AMOUNT, u.gas, COST)
    && v == Pay(d, v.coin, v.output, v.to, AMOUNT, v.gas, COST)
    && Distinct([u.coin, u.output, u.gas, v.coin, v.output, v.gas]) && u.to != v.to && u.to != d && v.to != d
  }

  // ---------------------------------------------------------------------------
  // The state
  // ---------------------------------------------------------------------------

  function Native(owner: Address, amount: nat): StoredObject {
    StoredObject(ObjectValue(owner, Some(amount), ""), 1)
  }

  function Store(d: Address, u: Pay, v: Pay): Objects {
    map[u.coin := Native(d, COIN), u.gas := Native(d, GAS_COIN),
        v.coin := Native(d, COIN), v.gas := Native(d, GAS_COIN)]
  }

  function Start(d: Address, u: Pay, v: Pay): State {
    State(map[d := Account(RECORDED, {})], SUPPLY, Store(d, u, v), map[], 0)
  }

  lemma StartCoins(d: Address, u: Pay, v: Pay)
    requires Cast(d, u, v)
    ensures Coins(Held(Store(d, u, v), d)) == 2 * COIN + 2 * GAS_COIN
  {
    var none: Inventory := map[];
    var coin, gas := Native(d, COIN).value, Native(d, GAS_COIN).value;
    var one := none[u.coin := coin];
    var two := one[u.gas := gas];
    var three := two[v.coin := coin];
    MapSumUpdate(none, CoinAmount, u.coin, coin);
    MapSumUpdate(one, CoinAmount, u.gas, gas);
    MapSumUpdate(two, CoinAmount, v.coin, coin);
    MapSumUpdate(three, CoinAmount, v.gas, gas);
    Apart6([u.coin, u.output, u.gas, v.coin, v.output, v.gas]);
    assert Held(Store(d, u, v), d) == three[v.gas := gas];
  }

  lemma Apart6(ids: seq<ObjectId>)
    requires |ids| == 6 && Distinct(ids)
    ensures ids[0] !in {ids[1], ids[2], ids[3], ids[4], ids[5]} && ids[1] !in {ids[2], ids[3], ids[4], ids[5]}
    ensures ids[2] !in {ids[3], ids[4], ids[5]} && ids[3] !in {ids[4], ids[5]} && ids[4] != ids[5]
  {
  }

  // ---------------------------------------------------------------------------
  // The reader
  // ---------------------------------------------------------------------------

  function CoinFor(v: ObjectValue): N.Coin {
    N.Coin(v.owner, "", if v.coin.Some? then seq(32, i => 0) + N.LittleEndian(v.coin.value, 8) else [])
  }

  function CallOf(tx: Transaction, w: Pay): N.NativeTx {
    N.NativeTx(tx.sender, Some([w.gas]), N.TransferCall(w.coin, Some(w.to), w.amount), w.output, None)
  }

  function First(d: Address): Transaction {
    Transaction("first", d, {}, false)
  }

  function Second(d: Address): Transaction {
    Transaction("second", d, {}, false)
  }

  function Chosen(d: Address, u: Pay, v: Pay, tx: Transaction): Pay {
    if tx == First(d) then u else v
  }

  function TheReader(d: Address, u: Pay, v: Pay): Reader {
    Reader(
      (kind: string) => true, (c: N.Coin) => "", CoinFor,
      (tx: Transaction) => CallOf(tx, Chosen(d, u, v, tx)), (tx: Transaction) => {Chosen(d, u, v, tx).coin},
      (tx: Transaction) => LIMIT, (tx: Transaction) => 1,
      (tx: Transaction, seen: Objects) => true, (tx: Transaction, seen: Objects) => "")
  }

  lemma CoinReads(owner: Address, amount: nat)
    requires amount <= U64_MAX
    ensures N.ReadBalance(CoinFor(Native(owner, amount).value).data) == Some(amount)
  {
    WordCapacities();
    N.NumberRoundTrip(amount, 8);
    var zeros: Bytes := seq(32, i => 0);
    assert (zeros + N.LittleEndian(amount, 8))[32..40] == N.LittleEndian(amount, 8);
  }

  lemma ReaderFits(d: Address, u: Pay, v: Pay)
    requires Cast(d, u, v)
    ensures WellFormed(TheReader(d, u, v)) && Reads(TheReader(d, u, v), Store(d, u, v))
  {
    CoinReads(d, COIN);
    CoinReads(d, GAS_COIN);
  }

  /** The transfer that a transaction stands for finds its coins. */
  lemma FindsCoins(d: Address, u: Pay, v: Pay, tx: Transaction)
    requires Cast(d, u, v) && tx.sender == d
    ensures var r, w, coins := TheReader(d, u, v), Chosen(d, u, v, tx), CoinsIn(TheReader(d, u, v), Store(d, u, v));
            && N.Usable(r.native, coins, w.coin, d) == Some(COIN)
            && N.Usable(r.native, coins, w.gas, d) == Some(GAS_COIN)
            && N.HeldAt(r.native, coins, w.coin) == COIN
            && w.gas != w.coin && w.output !in Store(d, u, v)
  {
    CoinReads(d, COIN);
    CoinReads(d, GAS_COIN);
    Apart6([u.coin, u.output, u.gas, v.coin, v.output, v.gas]);
  }

  lemma StartMeans(d: Address, u: Pay, v: Pay)
    ensures Means(BookOf(Start(d, u, v), d)) == RECORDED
  {
  }

  lemma StartNeeds(d: Address, u: Pay, v: Pay, tx: Transaction)
    ensures Need(Terms(TheReader(d, u, v), tx)) == LIMIT && BaseCost(Terms(TheReader(d, u, v), tx)) == COST
  {
  }

  lemma CanSend(d: Address, u: Pay, v: Pay, tx: Transaction)
    requires Cast(d, u, v) && tx.sender == d
    ensures var r := TheReader(d, u, v); N.Can(r.native, CoinsIn(r, Store(d, u, v)), r.call(tx), COST)
  {
    FindsCoins(d, u, v, tx);
  }

  lemma Through(d: Address, u: Pay, v: Pay, tx: Transaction)
    requires Cast(d, u, v) && tx.sender == d
    ensures GoesThrough(TheReader(d, u, v), tx, Start(d, u, v))
  {
    StartNeeds(d, u, v, tx);
    StartMeans(d, u, v);
    CanSend(d, u, v, tx);
  }

  lemma IsDescribed(d: Address, u: Pay, v: Pay, tx: Transaction)
    requires Cast(d, u, v) && tx.sender == d
    ensures Describes(TheReader(d, u, v), tx, Start(d, u, v), Chosen(d, u, v, tx))
  {
    StartNeeds(d, u, v, tx);
    FindsCoins(d, u, v, tx);
  }

  lemma ChecksOut(d: Address, u: Pay, v: Pay, tx: Transaction)
    requires Cast(d, u, v) && tx.sender == d
    ensures Accessible(TheReader(d, u, v), tx, Store(d, u, v))
  {
    FindsCoins(d, u, v, tx);
    var r, w := TheReader(d, u, v), Chosen(d, u, v, tx);
    assert Declared(r, tx) == {w.coin, w.gas};
  }

  /** Both transfers are executed. */
  lemma IsExecuted(d: Address, u: Pay, v: Pay, tx: Transaction)
    requires Cast(d, u, v) && tx.sender == d
    ensures Execute(NativeMachine(TheReader(d, u, v)), d, tx, Start(d, u, v)).Ok?
  {
    var r, s, w := TheReader(d, u, v), Start(d, u, v), Chosen(d, u, v, tx);
    ReaderFits(d, u, v);
    Through(d, u, v, tx);
    IsDescribed(d, u, v, tx);
    ChecksOut(d, u, v, tx);
    SplitBody(r, tx, s, w);
    SettledPay(ContextOf(r.call(tx), {w.coin}), Unsettled(r, tx, s), w, d, Units(TransferGas));
  }

  // ---------------------------------------------------------------------------
  // The wave
  // ---------------------------------------------------------------------------

  const FIGURES := SupplyView(SUPPLY, None, 0, 0, 0, true)
  const SETTINGS := Settings(false, 1)

  ghost function TheRuntime(d: Address, u: Pay, v: Pay): Runtime {
    NativeRuntime(TheReader(d, u, v), PlainBooks, d, FIGURES)
  }

  function TheWave(d: Address): seq<Transaction> {
    [First(d), Second(d)]
  }

  ghost function ExecutedTo(d: Address, u: Pay, v: Pay, tx: Transaction): ChangeSet
    requires Cast(d, u, v) && tx.sender == d
  {
    IsExecuted(d, u, v, tx);
    Execute(NativeMachine(TheReader(d, u, v)), d, tx, Start(d, u, v)).value
  }

  ghost function Results(d: Address, u: Pay, v: Pay): seq<ChangeSet>
    requires Cast(d, u, v)
  {
    [ExecutedTo(d, u, v, First(d)), ExecutedTo(d, u, v, Second(d))]
  }

  lemma ChosenAre(d: Address, u: Pay, v: Pay)
    ensures Chosen(d, u, v, First(d)) == u && Chosen(d, u, v, Second(d)) == v
  {
    assert |"first"| != |"second"|;
  }

  lemma NamesAreApart(d: Address, u: Pay, v: Pay)
    requires Cast(d, u, v)
    ensures Unrelated(u, v, d)
  {
    Apart6([u.coin, u.output, u.gas, v.coin, v.output, v.gas]);
  }

  lemma WaveSplits(d: Address, u: Pay, v: Pay)
    requires Cast(d, u, v)
    ensures Splits(TheReader(d, u, v), d, Start(d, u, v), TheWave(d), Results(d, u, v), u, v)
  {
    ChosenAre(d, u, v);
    ReaderFits(d, u, v);
    NamesAreApart(d, u, v);
    Through(d, u, v, First(d));
    Through(d, u, v, Second(d));
    IsDescribed(d, u, v, First(d));
    IsDescribed(d, u, v, Second(d));
    IsExecuted(d, u, v, First(d));
    IsExecuted(d, u, v, Second(d));
  }

  lemma WaveSpendsTwice(d: Address, u: Pay, v: Pay)
    requires Cast(d, u, v)
    ensures SpendsTwice(Start(d, u, v), u, v, d, LIMIT) && Need(Terms(TheReader(d, u, v), Second(d))) == LIMIT
    ensures RichCoins(Start(d, u, v).objects, u, v) && InRange(Start(d, u, v).supply)
  {
    StartCoins(d, u, v);
    Apart6([u.coin, u.output, u.gas, v.coin, v.output, v.gas]);
  }

  lemma WaveIsSpeculated(d: Address, u: Pay, v: Pay)
    requires Cast(d, u, v)
    ensures Speculated(TheRuntime(d, u, v), Start(d, u, v), TheWave(d), Results(d, u, v))
    ensures Payments(Start(d, u, v).objects, Results(d, u, v), u, v, d)
  {
    WaveSplits(d, u, v);
    SplitsArePayments(TheReader(d, u, v), d, Start(d, u, v), TheWave(d), Results(d, u, v), u, v);
    PaymentsAreConflictFree(Store(d, u, v), Results(d, u, v), u, v, d);
    IsExecuted(d, u, v, First(d));
    IsExecuted(d, u, v, Second(d));
  }

  lemma OneBatch(rt: Runtime, s: State, part: seq<ChangeSet>)
    requires |part| == 2
    ensures Schedules([Range(2)], part, SETTINGS) && AllWithin([Range(2)], |part|)
    ensures BatchedApply(rt, s, part, [Range(2)]) == rt.apply(s, Merged(part))
  {
    assert Select(part, Range(2)) == part;
    assert [Range(2)][1..] == [];
  }

  /** The supply is always valid and there is never anything to repair. */
  ghost predicate Calm(rt: Runtime) {
    forall x :: rt.repair(x) == Ok(x) && SupplyValid(rt.supply(x))
  }

  lemma AlwaysIdle(rt: Runtime, books: Books, s: State, css: seq<ChangeSet>)
    requires Calm(rt)
    ensures IdleThroughout(rt, books, s, css)
  {
  }

  /** A batch that is accepted is then committed. */
  lemma BatchCommits(rt: Runtime, books: Books, s: State, part: seq<ChangeSet>)
    requires |part| == 2 && Calm(rt) && rt.apply(s, Merged(part)).Ok?
    ensures AllWithin([Range(2)], |part|) && CandidateFrom(rt, s, part, [Range(2)]).Ok?
    ensures Undisturbed(rt, books, s, part, [Range(2)])
  {
    OneBatch(rt, s, part);
    AlwaysIdle(rt, books, s, part);
    assert rt.repair(rt.apply(s, Merged(part)).value).Ok?;
  }

  lemma SpendingIsAccepted(s: State, part: seq<ChangeSet>, u: Pay, v: Pay, d: Address)
    requires Payments(s.objects, part, u, v, d) && SpendsTwice(s, u, v, d, LIMIT)
    requires RichCoins(s.objects, u, v) && InRange(s.supply)
    ensures Apply(PlainBooks, s, Merged(part)).Ok?
  {
    PlainRoom(s, Merged(part));
    SpendingIsAdmitted(PlainBooks, s, part, u, v, d, LIMIT);
  }

  lemma WaveIsAdmitted(d: Address, u: Pay, v: Pay)
    requires Cast(d, u, v)
    ensures Apply(PlainBooks, Start(d, u, v), Merged(Results(d, u, v))).Ok?
  {
    WaveIsSpeculated(d, u, v);
    WaveSpendsTwice(d, u, v);
    SpendingIsAccepted(Start(d, u, v), Results(d, u, v), u, v, d);
  }

  lemma NativeIsCalm(r: Reader, books: Books, d: Address)
    ensures Calm(NativeRuntime(r, books, d, FIGURES))
  {
  }

  lemma NativeApplies(r: Reader, books: Books, d: Address, s: State, cs: ChangeSet)
    ensures NativeRuntime(r, books, d, FIGURES).apply(s, cs) == Apply(books, s, cs)
  {
  }

  lemma WaveCommits(d: Address, u: Pay, v: Pay)
    requires Cast(d, u, v)
    ensures AllWithin([Range(2)], |Results(d, u, v)|)
    ensures CandidateFrom(TheRuntime(d, u, v), Start(d, u, v), Results(d, u, v), [Range(2)]).Ok?
    ensures Undisturbed(TheRuntime(d, u, v), PlainBooks, Start(d, u, v), Results(d, u, v), [Range(2)])
  {
    WaveIsAdmitted(d, u, v);
    NativeIsCalm(TheReader(d, u, v), PlainBooks, d);
    NativeApplies(TheReader(d, u, v), PlainBooks, d, Start(d, u, v), Merged(Results(d, u, v)));
    BatchCommits(TheRuntime(d, u, v), PlainBooks, Start(d, u, v), Results(d, u, v));
  }

  /** Everything that the theorems on waves ask for holds, the wave commits, and serial execution ends differently. */
  lemma AWaveThatDeviates(d: Address, u: Pay, v: Pay)
    requires Cast(d, u, v)
    ensures var rt, s, wave, css := TheRuntime(d, u, v), Start(d, u, v), TheWave(d), Results(d, u, v);
            && Modelled(rt, PlainBooks, NativeMachine(TheReader(d, u, v)), d) && CachedSupplyValid(rt.supply(s))
            && Speculated(rt, s, wave, css) && Schedules([Range(2)], css, SETTINGS) && AllWithin([Range(2)], |css|)
            && CandidateFrom(rt, s, css, [Range(2)]).Ok? && Undisturbed(rt, PlainBooks, s, css, [Range(2)])
            && !SameRun(SerialRun(rt, s, wave, false, NO_TALLY),
                        Outcome(CandidateFrom(rt, s, css, [Range(2)]).value, Ok(ExecutedAll(NO_TALLY, wave, css))))
  {
    var rt, s, wave, css := TheRuntime(d, u, v), Start(d, u, v), TheWave(d), Results(d, u, v);
    ReaderFits(d, u, v);
    NativeIsModelled(TheReader(d, u, v), PlainBooks, d, FIGURES);
    WaveIsSpeculated(d, u, v);
    WaveCommits(d, u, v);
    WaveSplits(d, u, v);
    WaveSpendsTwice(d, u, v);
    PlainRoom(s, css[0]);
    OneBatch(rt, s, css);
    CollectorWaveDeviates(rt, PlainBooks, TheReader(d, u, v), d, SETTINGS, s, wave, css, [Range(2)], u, v, false,
                          NO_TALLY);
  }
}
