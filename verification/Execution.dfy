/**
 One execution of a transaction: the access checks, the guard that the sender can pay the
 maximum gas, the body (a native call or the Move VM, arbitrary here) and the settlement of
 gas. The guard reads the sender's balance, which no manifest declares; everything else an
 execution looks at is in its manifest.
 */
module Execution {
  import opened Prelude
  import opened ChangeSets
  import opened Ledger
  import opened Footprints
  import opened Gas
  import opened Executor

  /** What the engine runs: `check` refuses or starts the changeset, `body` does the rest before gas. */
  datatype Machine = Machine(
    terms: Transaction -> GasTerms,
    check: (Transaction, State) -> Result<ChangeSet>,
    body: (Transaction, State) -> (ChangeSet, Work))

  // ---------------------------------------------------------------------------
  // The balance guard
  // ---------------------------------------------------------------------------

  function CoinAmount(v: ObjectValue): int {
    if v.coin.Some? then v.coin.value else 0
  }

  /** The balance an owner can spend: its recorded one, or its coins when none is recorded. */
  ghost function Means(book: Book): nat {
    var coins := MapSum(book.held, CoinAmount);
    if book.balance > 0 then book.balance else if InRange(coins) then coins else 0
  }

  function Need(g: GasTerms): nat {
    g.limit * g.price
  }

  predicate Refuses(g: GasTerms, balance: nat) {
    Need(g) > 0 && balance < Need(g)
  }

  function Decimal(n: nat): string {
    if n < 10 then [Digit(n)] else Decimal(n / 10) + [Digit(n % 10)]
  }

  function Digit(d: nat): char
    requires d < 10
  {
    '0' + d as char
  }

  function FromDecimal(s: string): int {
    if s == [] then 0 else 10 * FromDecimal(s[..|s| - 1]) + (s[|s| - 1] as int - '0' as int)
  }

  lemma {:induction false} DecimalRoundTrip(n: nat)
    ensures FromDecimal(Decimal(n)) == n
  {
    if n < 10 {
      assert Decimal(n)[..0] == [];
    } else {
      DecimalRoundTrip(n / 10);
      assert Decimal(n)[..|Decimal(n)| - 1] == Decimal(n / 10);
    }
  }

  const SHORTFALL := "Insufficient balance for maximum gas: need "

  function Shortfall(need: nat, have: nat): string {
    SHORTFALL + (Decimal(need) + (", have " + Decimal(have)))
  }

  lemma SameEnd<T>(a: seq<T>, x: seq<T>, y: seq<T>)
    requires a + x == a + y
    ensures x == y
  {
    assert x == (a + x)[|a|..];
    assert y == (a + y)[|a|..];
  }

  /** The message tells the balance. */
  lemma ShortfallTells(need: nat, have: nat, other: nat)
    requires Shortfall(need, have) == Shortfall(need, other)
    ensures have == other
  {
    var tail := ", have ";
    SameEnd(SHORTFALL, Decimal(need) + (tail + Decimal(have)), Decimal(need) + (tail + Decimal(other)));
    SameEnd(Decimal(need), tail + Decimal(have), tail + Decimal(other));
    SameEnd(tail, Decimal(have), Decimal(other));
    DecimalRoundTrip(have);
    DecimalRoundTrip(other);
  }

  // ---------------------------------------------------------------------------
  // Executing
  // ---------------------------------------------------------------------------

  function Refused(context: ChangeSet, need: nat, have: nat): ChangeSet {
    context.(success := false, errorMessage := Some(Shortfall(need, have)))
  }

  /** The changeset before gas, and the work it stands for. */
  ghost function Prepared(m: Machine, tx: Transaction, s: State, context: ChangeSet): (ChangeSet, Work) {
    var balance := Means(BookOf(s, tx.sender));
    if Refuses(m.terms(tx), balance) then (Refused(context, Need(m.terms(tx)), balance), NativeWork)
    else m.body(tx, s)
  }

  ghost function Execute(m: Machine, collector: Address, tx: Transaction, s: State): Result<ChangeSet> {
    var g := m.terms(tx);
    if Units(g.op) > g.limit || Need(g) > U64_MAX then Err("gas limit")
    else
      match m.check(tx, s)
      case Err(e) => Err(e)
      case Ok(context) =>
        var (cs, work) := Prepared(m, tx, s, context);
        match ExecutionCharge(g, Means(BookOf(s, tx.sender)), true, work)
        case None => Err("gas usage")
        case Some(charge) => ApplyGas(cs, tx.sender, collector, charge.0, charge.1)
  }

  /** The declared gas owner is the sender, from the checks on. */
  ghost predicate PaysItself(m: Machine) {
    && (forall tx, s :: m.check(tx, s).Ok? ==> PaidBySender(m.check(tx, s).value, tx.sender))
    && forall tx, s :: PaidBySender(m.body(tx, s).0, tx.sender)
  }

  /** The runtime executes as the machine does. */
  ghost predicate Runs(rt: Runtime, m: Machine, collector: Address) {
    forall tx, s ::
      && (rt.execute(tx, s).Ok? <==> Execute(m, collector, tx, s).Ok?)
      && (rt.execute(tx, s).Ok? ==> rt.execute(tx, s) == Execute(m, collector, tx, s))
  }

  lemma ExecutedIsSettled(m: Machine, collector: Address, tx: Transaction, s: State)
    requires PaysItself(m) && Execute(m, collector, tx, s).Ok?
    ensures Settled(Execute(m, collector, tx, s).value, tx.sender, collector)
  {
    var (cs, work) := Prepared(m, tx, s, m.check(tx, s).value);
    var charge := ExecutionCharge(m.terms(tx), Means(BookOf(s, tx.sender)), true, work).value;
    assert PaidBySender(cs, tx.sender);
    assert ApplyGas(cs, tx.sender, collector, charge.0, charge.1) == Execute(m, collector, tx, s);
  }

  /** Every changeset the engine executes has settled its gas with the collector. */
  lemma MachineIsMetered(rt: Runtime, m: Machine, collector: Address)
    requires Runs(rt, m, collector) && PaysItself(m)
    ensures Metered(rt, collector)
  {
    forall tx, s | rt.execute(tx, s).Ok? ensures Settled(rt.execute(tx, s).value, tx.sender, collector) {
      ExecutedIsSettled(m, collector, tx, s);
    }
  }

  // ---------------------------------------------------------------------------
  // Executing again in another state
  // ---------------------------------------------------------------------------

  /** Checks and body look only at what the manifest of their changeset declares. */
  ghost predicate Declares(m: Machine, collector: Address) {
    forall tx, s, t ::
      Execute(m, collector, tx, s).Ok? && SameOn(s, t, Manifest(Execute(m, collector, tx, s).value)) ==>
        && m.check(tx, t) == m.check(tx, s)
        && (!Refuses(m.terms(tx), Means(BookOf(s, tx.sender))) ==> m.body(tx, t) == m.body(tx, s))
  }

  /** No body reports its error in the words of the guard. */
  ghost predicate OwnWords(m: Machine) {
    forall tx, s :: m.body(tx, s).0.errorMessage.Some? ==> !(SHORTFALL <= m.body(tx, s).0.errorMessage.value)
  }

  /** The guard comes to the same with both balances. */
  predicate GuardAlike(g: GasTerms, x: nat, y: nat) {
    Need(g) > 0 ==> (x >= Need(g) && y >= Need(g)) || x == y
  }

  lemma RefusedMessage(m: Machine, collector: Address, tx: Transaction, s: State)
    requires Execute(m, collector, tx, s).Ok?
    ensures var g, balance := m.terms(tx), Means(BookOf(s, tx.sender));
            Execute(m, collector, tx, s).value.errorMessage
            == if Refuses(g, balance) then Some(Shortfall(Need(g), balance)) else m.body(tx, s).0.errorMessage
  {
  }

  lemma WordsDiffer(m: Machine, tx: Transaction, s: State, need: nat, have: nat)
    requires OwnWords(m)
    ensures m.body(tx, s).0.errorMessage != Some(Shortfall(need, have))
  {
    assert SHORTFALL <= Shortfall(need, have);
  }

  lemma NotRecomputed(m: Machine, collector: Address, tx: Transaction, s: State, t: State)
    requires OwnWords(m) && Execute(m, collector, tx, s).Ok?
    requires !GuardAlike(m.terms(tx), Means(BookOf(s, tx.sender)), Means(BookOf(t, tx.sender)))
    ensures Execute(m, collector, tx, t) != Execute(m, collector, tx, s)
  {
    if Execute(m, collector, tx, t) == Execute(m, collector, tx, s) {
      var need, x, y := Need(m.terms(tx)), Means(BookOf(s, tx.sender)), Means(BookOf(t, tx.sender));
      RefusedMessage(m, collector, tx, s);
      RefusedMessage(m, collector, tx, t);
      WordsDiffer(m, tx, s, need, y);
      WordsDiffer(m, tx, t, need, x);
      ShortfallTells(need, x, y);
      assert false;
    }
  }

  lemma ChargedAlike(g: GasTerms, x: nat, y: nat, work: Work)
    requires GuardAlike(g, x, y)
    ensures ExecutionCharge(g, x, true, work) == ExecutionCharge(g, y, true, work)
  {
  }

  /**
   Where all declared keys read the same, a transaction executes to the same changeset if and
   only if the guard comes to the same: it passes with both balances, or both balances are equal.
   */
  lemma RecomputedIff(m: Machine, collector: Address, tx: Transaction, s: State, t: State)
    requires Declares(m, collector) && OwnWords(m) && Execute(m, collector, tx, s).Ok?
    requires SameOn(s, t, Manifest(Execute(m, collector, tx, s).value))
    ensures Execute(m, collector, tx, t) == Execute(m, collector, tx, s)
            <==> GuardAlike(m.terms(tx), Means(BookOf(s, tx.sender)), Means(BookOf(t, tx.sender)))
  {
    var g, x, y := m.terms(tx), Means(BookOf(s, tx.sender)), Means(BookOf(t, tx.sender));
    if GuardAlike(g, x, y) {
      assert m.check(tx, t) == m.check(tx, s);
      var context := m.check(tx, s).value;
      assert Prepared(m, tx, t, context) == Prepared(m, tx, s, context);
      ChargedAlike(g, x, y, Prepared(m, tx, s, context).1);
    } else {
      NotRecomputed(m, collector, tx, s, t);
    }
  }
}
