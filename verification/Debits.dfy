/**
 What an owner can be debited: the check of the state manager compares a debit with the
 larger of the recorded balance and the owned native coins.
 */
module Debits {
  import opened Prelude
  import opened ChangeSets
  import opened Ledger
  import opened Execution

  /** What an owner's native coins add up to. */
  ghost function Coins(held: Inventory): int {
    MapSum(held, CoinAmount)
  }

  /** What the debit check lets an owner spend. */
  ghost function Wealth(book: Book): int {
    Max(book.balance, Coins(book.held))
  }

  lemma CoinsAreNonNegative(held: Inventory)
    ensures Coins(held) >= 0
  {
    MapSumNonNegative(held, CoinAmount);
  }

  lemma OneCoinCounts(held: Inventory, x: ObjectId)
    requires x in held
    ensures Coins(held) >= CoinAmount(held[x])
  {
    MapSumRemove(held, CoinAmount, x);
    CoinsAreNonNegative(held - {x});
  }

  lemma TwoCoinsCount(held: Inventory, x: ObjectId, y: ObjectId)
    requires x in held && y in held && x != y
    ensures Coins(held) >= CoinAmount(held[x]) + CoinAmount(held[y])
  {
    MapSumRemove(held, CoinAmount, x);
    OneCoinCounts(held - {x}, y);
  }

  /** The balance the gas guard looks at is within the wealth the debit check looks at. */
  lemma MeansAreWithinWealth(book: Book)
    ensures Means(book) <= Wealth(book)
  {
    CoinsAreNonNegative(book.held);
  }

  // ---------------------------------------------------------------------------
  // Books that check debits
  // ---------------------------------------------------------------------------

  /** What a debit is taken from: the recorded balance if it covers it, else the coins. */
  ghost function Drawn(book: Book, debit: nat): int {
    if book.balance >= debit then book.balance else Coins(book.held)
  }

  ghost predicate Affords(book: Book, step: Step) {
    step.delta < 0 ==> Wealth(book) >= -step.delta
  }

  /** The books take a step its owner can afford, and a debit leaves at most the difference. */
  ghost predicate Takes(books: Books, book: Book, step: Step) {
    Affords(book, step) ==>
      && books(book.balance, book.held, step).Some?
      && (step.delta < 0 ==> books(book.balance, book.held, step).value <= Drawn(book, -step.delta) + step.delta)
  }

  /** No sum of an owner's figures leaves 64 bits. */
  ghost predicate Fits(book: Book, step: Step) {
    book.balance + Coins(book.held) + Coins(step.after) + step.credit
    + (if step.delta < 0 then -step.delta else step.delta) <= U64_MAX / 2
  }

  /**
   What the debit check and the reconciliation do in every case: a debit above the wealth is
   rejected; with room, any other step is taken.
   */
  ghost predicate Prudent(books: Books) {
    forall book: Book, step: Step ::
      && (!Affords(book, step) ==> books(book.balance, book.held, step).None?)
      && (Fits(book, step) ==> Takes(books, book, step))
  }

  /** The simplest such books: the checked difference and nothing else. */
  ghost function PlainBooks(balance: int, held: Inventory, step: Step): Option<nat> {
    if step.delta >= 0 then Some(Max(balance + step.delta, 0))
    else if Wealth(Book(balance, held)) < -step.delta then None
    else Some(Drawn(Book(balance, held), -step.delta) + step.delta)
  }

  lemma PlainTakes(book: Book, step: Step)
    ensures Takes(PlainBooks, book, step)
    ensures !Affords(book, step) ==> PlainBooks(book.balance, book.held, step).None?
  {
    assert Book(book.balance, book.held) == book;
  }

  lemma PlainIsPrudent()
    ensures Prudent(PlainBooks)
  {
    forall book, step ensures Takes(PlainBooks, book, step)
                              && (!Affords(book, step) ==> PlainBooks(book.balance, book.held, step).None?)
    {
      PlainTakes(book, step);
    }
  }

  /** There is room for every owner's step. */
  ghost predicate Room(books: Books, s: State, cs: ChangeSet) {
    forall o :: Takes(books, BookOf(s, o), StepOf(s.objects, cs, o))
  }

  lemma PrudentRoom(books: Books, s: State, cs: ChangeSet)
    requires Prudent(books) && forall o :: Fits(BookOf(s, o), StepOf(s.objects, cs, o))
    ensures Room(books, s, cs)
  {
    forall o ensures Takes(books, BookOf(s, o), StepOf(s.objects, cs, o)) {
      assert Fits(BookOf(s, o), StepOf(s.objects, cs, o));
    }
  }

  lemma PlainRoom(s: State, cs: ChangeSet)
    ensures Room(PlainBooks, s, cs)
  {
    forall o ensures Takes(PlainBooks, BookOf(s, o), StepOf(s.objects, cs, o)) {
      PlainTakes(BookOf(s, o), StepOf(s.objects, cs, o));
    }
  }

  /** Every owner's wealth covers its debit. */
  ghost predicate Covered(s: State, cs: ChangeSet) {
    forall o :: Debit(cs, o) <= Wealth(BookOf(s, o))
  }

  /** With room and every debit covered, only gas coins and the supply can reject a changeset. */
  lemma CoveredIsAdmitted(books: Books, s: State, cs: ChangeSet)
    requires Room(books, s, cs) && Covered(s, cs)
    ensures Apply(books, s, cs).Ok? <==> Payable(s.objects, cs) && InRange(s.supply + Total(cs.ownerDeltas))
  {
    forall o ensures Posted(books, BookOf(s, o), StepOf(s.objects, cs, o)).Some? {
      var book, step := BookOf(s, o), StepOf(s.objects, cs, o);
      assert Debit(cs, o) <= Wealth(book) && Takes(books, book, step);
    }
  }

  /** A debit above its owner's wealth rejects a changeset. */
  lemma UncoveredIsRejected(books: Books, s: State, cs: ChangeSet)
    requires Prudent(books) && !Covered(s, cs)
    ensures Apply(books, s, cs).Err?
  {
    var o :| Debit(cs, o) > Wealth(BookOf(s, o));
    var book, step := BookOf(s, o), StepOf(s.objects, cs, o);
    CoinsAreNonNegative(book.held);
    assert step.named && !Affords(book, step);
    assert Posted(books, book, step).None?;
  }

  // ---------------------------------------------------------------------------
  // Runs
  // ---------------------------------------------------------------------------

  /** The turn of a changeset in a run. */
  ghost predicate RoomAt(books: Books, s: State, css: seq<ChangeSet>, j: nat)
    requires j < |css|
  {
    Room(books, EffectedByAll(books, s, css[..j]), css[j])
  }

  ghost predicate CoveredAt(books: Books, s: State, css: seq<ChangeSet>, j: nat)
    requires j < |css|
  {
    Covered(EffectedByAll(books, s, css[..j]), css[j])
  }

  lemma ApartPrefix(css: seq<ChangeSet>, k: nat)
    requires Apart(css) && k <= |css|
    ensures Apart(css[..k])
  {
  }

  lemma TurnLeaves(books: Books, s: State, css: seq<ChangeSet>, j: nat)
    requires Apart(css) && j < |css| && ApplyEach(books, s, css[..j]).Ok?
    ensures var t := EffectedByAll(books, s, css[..j]);
            Leaves(books, s, css[..j], t) && SameObjects(s.objects, t.objects, Touched(css[j]))
  {
    ApartPrefix(css, j);
    ApartPrefix(css, j + 1);
    PrefixSnoc(css, j);
    EachIff(books, s, css[..j]);
    StillThere(books, s, css[..j], css[j], EffectedByAll(books, s, css[..j]));
  }

  lemma PrefixSnoc(css: seq<ChangeSet>, j: nat)
    requires j < |css|
    ensures css[..j + 1] == css[..j] + [css[j]] && css[..j + 1][..j] == css[..j]
  {
  }

  lemma SupplyOneMore(supply: int, css: seq<ChangeSet>, j: nat)
    requires j < |css|
    ensures SupplyAfter(supply, css[..j + 1]) == SupplyAfter(supply, css[..j]) + Total(css[j].ownerDeltas)
  {
    PrefixSnoc(css, j);
  }

  lemma TurnIsPayable(books: Books, s: State, css: seq<ChangeSet>, j: nat)
    requires Apart(css) && AllPayable(s.objects, css) && SupplyInRange(s.supply, css) && j < |css|
    requires ApplyEach(books, s, css[..j]).Ok?
    ensures var t := EffectedByAll(books, s, css[..j]);
            Payable(t.objects, css[j]) && InRange(t.supply + Total(css[j].ownerDeltas))
  {
    TurnLeaves(books, s, css, j);
    PayableIsLocal(s.objects, EffectedByAll(books, s, css[..j]).objects, css[j]);
    SupplyOneMore(s.supply, css, j);
  }

  lemma TurnSucceeds(books: Books, s: State, css: seq<ChangeSet>, j: nat)
    requires Apart(css) && AllPayable(s.objects, css) && SupplyInRange(s.supply, css) && j < |css|
    requires ApplyEach(books, s, css[..j]).Ok? && RoomAt(books, s, css, j) && CoveredAt(books, s, css, j)
    ensures ApplyEach(books, s, css[..j + 1]).Ok?
  {
    TurnIsPayable(books, s, css, j);
    CoveredIsAdmitted(books, EffectedByAll(books, s, css[..j]), css[j]);
    EachIsEffect(books, s, css[..j]);
    PrefixSnoc(css, j);
  }

  lemma {:induction false} TurnsSucceed(books: Books, s: State, css: seq<ChangeSet>, k: nat)
    requires Apart(css) && AllPayable(s.objects, css) && SupplyInRange(s.supply, css) && k <= |css|
    requires forall j :: 0 <= j < |css| ==> CoveredAt(books, s, css, j) && RoomAt(books, s, css, j)
    ensures ApplyEach(books, s, css[..k]).Ok?
  {
    if k > 0 {
      TurnsSucceed(books, s, css, k - 1);
      TurnSucceeds(books, s, css, k - 1);
    }
  }

  /** A run whose debits are covered in turn fails only for a gas coin or for the supply. */
  lemma CoveredRunIff(books: Books, s: State, css: seq<ChangeSet>)
    requires Apart(css)
    requires forall j :: 0 <= j < |css| ==> CoveredAt(books, s, css, j) && RoomAt(books, s, css, j)
    ensures ApplyEach(books, s, css).Ok? <==> AllPayable(s.objects, css) && SupplyInRange(s.supply, css)
  {
    EachIff(books, s, css);
    if AllPayable(s.objects, css) && SupplyInRange(s.supply, css) {
      TurnsSucceed(books, s, css, |css|);
      assert css[..|css|] == css;
    }
  }
}
