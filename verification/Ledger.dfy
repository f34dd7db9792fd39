/**
 Applying changesets to the objects, the owners' books, the supply and the named
 cells. Gas is taken from coin objects by the rule of the state manager: an owner
 owes the smaller of its debit and of all gas credits of the changeset, and the
 first of its coins that is visited pays.

 How an owner's recorded balance follows from its delta, its gas credit and its
 coins (the debit check against ledger and coins, and the reconciliation of the two)
 is an arbitrary function of that owner's own figures, `Books`.
 */
module Ledger {
  import opened Prelude
  import opened ChangeSets

  datatype StoredObject = StoredObject(value: ObjectValue, version: nat)

  type Objects = map<ObjectId, StoredObject>

  datatype Account = Account(balance: int, modules: set<string>)

  datatype State = State(
    accounts: map<Address, Account>,
    supply: int,
    objects: Objects,
    cells: map<CellName, string>,
    epoch: nat)

  function Find(objects: Objects, id: ObjectId): Option<StoredObject> {
    if id in objects then Some(objects[id]) else None
  }

  function AccountAt(accounts: map<Address, Account>, a: Address): Account {
    if a in accounts then accounts[a] else Account(0, {})
  }

  // ---------------------------------------------------------------------------
  // Writes
  // ---------------------------------------------------------------------------

  /** The objects a changeset may change. */
  function Touched(cs: ChangeSet): set<ObjectId> {
    cs.objects.Keys + (set id | id in cs.gasRefs)
  }

  /** An object written with its own id as owner stays with the owner it had. */
  function Kept(objects: Objects, id: ObjectId, v: ObjectValue): ObjectValue {
    if id in objects && v.owner == id then v.(owner := objects[id].value.owner) else v
  }

  /** The object after the writes and before gas; a rewritten one takes the version after the stored one. */
  function Written(objects: Objects, cs: ChangeSet, id: ObjectId): Option<StoredObject> {
    if id !in cs.objects then Find(objects, id)
    else if cs.objects[id].None? then None
    else
      Some(StoredObject(Kept(objects, id, cs.objects[id].value), if id in objects then objects[id].version + 1 else 1))
  }

  // ---------------------------------------------------------------------------
  // Gas
  // ---------------------------------------------------------------------------

  function Debit(cs: ChangeSet, a: Address): nat {
    if DeltaOf(cs, a).balance < 0 then -DeltaOf(cs, a).balance else 0
  }

  function Amount(n: nat): int {
    n
  }

  /** The gas credits of all collectors together. */
  ghost function CreditTotal(cs: ChangeSet): nat {
    MapSumNonNegative(cs.gasCredits, Amount);
    MapSum(cs.gasCredits, Amount)
  }

  lemma OneCredit(credits: map<Address, nat>, d: Address, cost: nat)
    requires credits == map[d := cost]
    ensures MapSum(credits, Amount) == cost
  {
    MapSumRemove(credits, Amount, d);
    assert credits - {d} == map[];
  }

  ghost function Debtors(cs: ChangeSet): set<Address> {
    set a | a in cs.ownerDeltas && cs.ownerDeltas[a].balance < 0
  }

  /** Who pays when no gas object is named: the declared owner, or the only debtor. */
  ghost function ImplicitPayer(cs: ChangeSet): Option<Address> {
    if cs.payment.Some? && cs.payment.value.owner.Some? then cs.payment.value.owner
    else if exists a :: a in Debtors(cs) && Debtors(cs) == {a} then
      var a :| a in Debtors(cs) && Debtors(cs) == {a};
      Some(a)
    else None
  }

  /** What an owner's coins owe for gas. */
  ghost function Due(cs: ChangeSet, a: Address): nat {
    if cs.gasRefs != [] || ImplicitPayer(cs) == Some(a) then Min(Debit(cs, a), CreditTotal(cs)) else 0
  }

  ghost function DueBy(cs: ChangeSet): Address -> nat {
    a => Due(cs, a)
  }

  /** A coin the gas rule looks at, and the owner it looks at it for; late ones after all writes. */
  datatype Visit = Visit(id: ObjectId, owner: Address, late: bool)

  ghost predicate Designated(objects: Objects, cs: ChangeSet, id: ObjectId) {
    && id in objects && objects[id].value.coin.Some? && id in cs.objects && cs.objects[id].Some?
    && (if cs.gasRefs != [] then id in cs.gasRefs
        else CreditTotal(cs) > 0 && Debit(cs, objects[id].value.owner) > 0)
  }

  ghost function EarlyVisits(objects: Objects, cs: ChangeSet, ids: seq<ObjectId>): seq<Visit> {
    if ids == [] then []
    else
      (if Designated(objects, cs, ids[0]) then [Visit(ids[0], objects[ids[0]].value.owner, false)] else [])
      + EarlyVisits(objects, cs, ids[1..])
  }

  function LateVisits(objects: Objects, cs: ChangeSet, ids: seq<ObjectId>): seq<Visit> {
    if ids == [] then []
    else
      var o := Written(objects, cs, ids[0]);
      (if o.Some? && o.value.value.coin.Some? then [Visit(ids[0], o.value.value.owner, true)] else [])
      + LateVisits(objects, cs, ids[1..])
  }

  datatype Charge = Charge(id: ObjectId, owner: Address, amount: nat, late: bool)

  /** Each owner pays once, with the first coin visited for it. */
  ghost function Charges(due: Address -> nat, visits: seq<Visit>, paid: set<Address>): seq<Charge> {
    if visits == [] then []
    else
      var v := visits[0];
      if due(v.owner) == 0 || v.owner in paid then Charges(due, visits[1..], paid)
      else [Charge(v.id, v.owner, due(v.owner), v.late)] + Charges(due, visits[1..], paid + {v.owner})
  }

  ghost function Bill(objects: Objects, cs: ChangeSet): seq<Charge> {
    Charges(DueBy(cs), EarlyVisits(objects, cs, cs.order) + LateVisits(objects, cs, cs.gasRefs), {})
  }

  function TakenFrom(bill: seq<Charge>, id: ObjectId): nat {
    if bill == [] then 0 else (if bill[0].id == id then bill[0].amount else 0) + TakenFrom(bill[1..], id)
  }

  predicate LateFor(bill: seq<Charge>, id: ObjectId) {
    bill != [] && ((bill[0].id == id && bill[0].late) || LateFor(bill[1..], id))
  }

  /** What gas takes from a coin, and whether taking it counts as another version. */
  datatype Toll = Toll(amount: nat, bumps: bool)

  ghost function TollOn(objects: Objects, cs: ChangeSet, id: ObjectId): Toll {
    Toll(TakenFrom(Bill(objects, cs), id), LateFor(Bill(objects, cs), id))
  }

  function Tolled(o: Option<StoredObject>, toll: Toll): Option<StoredObject> {
    if o.None? then None
    else
      var coin := o.value.value.coin;
      var left := if coin.Some? then Some(Max(coin.value - toll.amount, 0)) else None;
      Some(StoredObject(o.value.value.(coin := left), if toll.bumps then o.value.version + 1 else o.value.version))
  }

  predicate Covers(o: Option<StoredObject>, amount: nat) {
    amount > 0 ==> o.Some? && o.value.value.coin.Some? && o.value.value.coin.value >= amount
  }

  /** The object after the changeset. */
  ghost function Next(objects: Objects, cs: ChangeSet, id: ObjectId): Option<StoredObject> {
    if id in Touched(cs) then Tolled(Written(objects, cs, id), TollOn(objects, cs, id)) else Find(objects, id)
  }

  ghost function ObjectsAfter(objects: Objects, cs: ChangeSet): Objects {
    map id | id in objects.Keys + Touched(cs) && Next(objects, cs, id).Some? :: Next(objects, cs, id).value
  }

  /** Every coin covers what gas takes from it. */
  ghost predicate Payable(objects: Objects, cs: ChangeSet) {
    forall id :: id in Touched(cs) ==> Covers(Written(objects, cs, id), TollOn(objects, cs, id).amount)
  }

  lemma {:induction false} ChargesAreVisits(due: Address -> nat, visits: seq<Visit>, paid: set<Address>, k: nat)
    requires k < |Charges(due, visits, paid)|
    ensures Charges(due, visits, paid)[k].amount > 0
    ensures Charges(due, visits, paid)[k].owner !in paid
    ensures var c := Charges(due, visits, paid)[k]; Visit(c.id, c.owner, c.late) in visits
    decreases |visits|
  {
    var v := visits[0];
    if due(v.owner) == 0 || v.owner in paid {
      ChargesAreVisits(due, visits[1..], paid, k);
    } else if k > 0 {
      ChargesAreVisits(due, visits[1..], paid + {v.owner}, k - 1);
    } else {
      assert visits[0] == Visit(v.id, v.owner, v.late);
    }
  }

  /** No owner is charged twice. */
  lemma {:induction false} PaysOnce(due: Address -> nat, visits: seq<Visit>, paid: set<Address>, i: nat, j: nat)
    requires i < j < |Charges(due, visits, paid)|
    ensures Charges(due, visits, paid)[i].owner != Charges(due, visits, paid)[j].owner
    decreases |visits|
  {
    var v := visits[0];
    if due(v.owner) == 0 || v.owner in paid {
      PaysOnce(due, visits[1..], paid, i, j);
    } else if i > 0 {
      PaysOnce(due, visits[1..], paid + {v.owner}, i - 1, j - 1);
    } else {
      ChargesAreVisits(due, visits[1..], paid + {v.owner}, j - 1);
    }
  }

  /** Only a charge of a positive amount bumps a version. */
  lemma {:induction false} NoTollNoBump(bill: seq<Charge>, id: ObjectId)
    requires forall k :: 0 <= k < |bill| ==> bill[k].amount > 0
    ensures LateFor(bill, id) ==> TakenFrom(bill, id) > 0
  {
    if bill != [] {
      NoTollNoBump(bill[1..], id);
    }
  }

  lemma BumpIsPaid(objects: Objects, cs: ChangeSet, id: ObjectId)
    ensures TollOn(objects, cs, id).bumps ==> TollOn(objects, cs, id).amount > 0
  {
    var visits := EarlyVisits(objects, cs, cs.order) + LateVisits(objects, cs, cs.gasRefs);
    forall k | 0 <= k < |Bill(objects, cs)| ensures Bill(objects, cs)[k].amount > 0 {
      ChargesAreVisits(DueBy(cs), visits, {}, k);
    }
    NoTollNoBump(Bill(objects, cs), id);
  }

  // ---------------------------------------------------------------------------
  // Locality: a changeset looks only at the objects it touches
  // ---------------------------------------------------------------------------

  ghost predicate SameObjects(x: Objects, y: Objects, ids: set<ObjectId>) {
    forall id :: id in ids ==> Find(x, id) == Find(y, id)
  }

  lemma WrittenIsLocal(x: Objects, y: Objects, cs: ChangeSet, id: ObjectId)
    requires Find(x, id) == Find(y, id)
    ensures Written(x, cs, id) == Written(y, cs, id)
  {
  }

  lemma DesignatedIsLocal(x: Objects, y: Objects, cs: ChangeSet, id: ObjectId)
    requires SameObjects(x, y, Touched(cs))
    ensures Designated(x, cs, id) == Designated(y, cs, id)
    ensures Designated(x, cs, id) ==> x[id] == y[id]
  {
    if id in cs.objects {
      assert Find(x, id) == Find(y, id);
    }
  }

  lemma {:induction false} EarlyIsLocal(x: Objects, y: Objects, cs: ChangeSet, ids: seq<ObjectId>)
    requires SameObjects(x, y, Touched(cs))
    ensures EarlyVisits(x, cs, ids) == EarlyVisits(y, cs, ids)
  {
    if ids != [] {
      DesignatedIsLocal(x, y, cs, ids[0]);
      EarlyIsLocal(x, y, cs, ids[1..]);
    }
  }

  lemma {:induction false} LateIsLocal(x: Objects, y: Objects, cs: ChangeSet, ids: seq<ObjectId>)
    requires SameObjects(x, y, Touched(cs)) && forall k :: 0 <= k < |ids| ==> ids[k] in Touched(cs)
    ensures LateVisits(x, cs, ids) == LateVisits(y, cs, ids)
  {
    if ids != [] {
      WrittenIsLocal(x, y, cs, ids[0]);
      LateIsLocal(x, y, cs, ids[1..]);
    }
  }

  lemma BillIsLocal(x: Objects, y: Objects, cs: ChangeSet)
    requires SameObjects(x, y, Touched(cs))
    ensures Bill(x, cs) == Bill(y, cs)
  {
    EarlyIsLocal(x, y, cs, cs.order);
    LateIsLocal(x, y, cs, cs.gasRefs);
  }

  lemma NextIsLocal(x: Objects, y: Objects, cs: ChangeSet, id: ObjectId)
    requires SameObjects(x, y, Touched(cs)) && Find(x, id) == Find(y, id)
    ensures Next(x, cs, id) == Next(y, cs, id) && TollOn(x, cs, id) == TollOn(y, cs, id)
  {
    BillIsLocal(x, y, cs);
    WrittenIsLocal(x, y, cs, id);
  }

  lemma PayableIsLocal(x: Objects, y: Objects, cs: ChangeSet)
    requires SameObjects(x, y, Touched(cs))
    ensures Payable(x, cs) == Payable(y, cs)
  {
    BillIsLocal(x, y, cs);
    forall id | id in Touched(cs) ensures Written(x, cs, id) == Written(y, cs, id) {
      WrittenIsLocal(x, y, cs, id);
    }
  }

  lemma FindAfter(objects: Objects, cs: ChangeSet, id: ObjectId)
    ensures Find(ObjectsAfter(objects, cs), id) == Next(objects, cs, id)
  {
  }

  // ---------------------------------------------------------------------------
  // Owners
  // ---------------------------------------------------------------------------

  type Inventory = map<ObjectId, ObjectValue>

  function Held(objects: Objects, a: Address): Inventory {
    map id | id in objects && objects[id].value.owner == a :: objects[id].value
  }

  function ValueOf(o: Option<StoredObject>): Option<ObjectValue> {
    if o.Some? then Some(o.value.value) else None
  }

  predicate Owns(a: Address, v: Option<ObjectValue>) {
    v.Some? && v.value.owner == a
  }

  /** An object before and after a changeset, and whether gas was taken from it after all writes. */
  datatype Change = Change(before: Option<ObjectValue>, after: Option<ObjectValue>, late: bool)

  type Changes = map<ObjectId, Change>

  ghost function ChangesOf(objects: Objects, cs: ChangeSet): Changes {
    map id | id in Touched(cs) && (id in cs.objects || TollOn(objects, cs, id).amount > 0) ::
      Change(ValueOf(Find(objects, id)), ValueOf(Next(objects, cs, id)), TollOn(objects, cs, id).bumps)
  }

  /** What one changeset does to one owner. */
  datatype Step = Step(
    named: bool,                                   // it has a delta or a gas credit for the owner
    delta: int,
    credit: nat,
    before: map<ObjectId, Option<ObjectValue>>,    // the changed objects it had or has, as they were
    after: Inventory,                              // those of them it has now
    late: set<ObjectId>)                           // those that were charged after all writes

  function StepIn(changes: Changes, a: Address, named: bool, delta: int, credit: nat): Step {
    var mine := set id | id in changes && (Owns(a, changes[id].before) || Owns(a, changes[id].after));
    Step(
      named, delta, credit,
      map id | id in mine :: changes[id].before,
      map id | id in mine && Owns(a, changes[id].after) :: changes[id].after.value,
      set id | id in mine && changes[id].late)
  }

  ghost function StepOf(objects: Objects, cs: ChangeSet, a: Address): Step {
    StepIn(ChangesOf(objects, cs), a, a in cs.ownerDeltas || a in cs.gasCredits,
           DeltaOf(cs, a).balance, GasCredit(cs, a))
  }

  predicate Moves(step: Step) {
    step.named || step.before != map[]
  }

  /** An owner's recorded balance and its objects. */
  datatype Book = Book(balance: int, held: Inventory)

  /** The new recorded balance from the old one, the objects held and the step; None rejects the changeset. */
  type Books = (int, Inventory, Step) -> Option<nat>

  function Posted(books: Books, book: Book, step: Step): Option<Book> {
    if !Moves(step) then Some(book)
    else
      match books(book.balance, book.held, step)
      case None => None
      case Some(n) => Some(Book(n, (book.held - step.before.Keys) + step.after))
  }

  /** A list of steps posted one after another. */
  function PostedAll(books: Books, book: Book, steps: seq<Step>): Option<Book> {
    if steps == [] then Some(book)
    else
      match PostedAll(books, book, steps[..|steps| - 1])
      case None => None
      case Some(before) => Posted(books, before, steps[|steps| - 1])
  }

  function BookOf(s: State, a: Address): Book {
    Book(AccountAt(s.accounts, a).balance, Held(s.objects, a))
  }

  lemma ChangesAreLocal(x: Objects, y: Objects, cs: ChangeSet)
    requires SameObjects(x, y, Touched(cs))
    ensures ChangesOf(x, cs) == ChangesOf(y, cs)
  {
    forall id | id in Touched(cs)
      ensures Find(x, id) == Find(y, id) && Next(x, cs, id) == Next(y, cs, id) && TollOn(x, cs, id) == TollOn(y, cs, id)
    {
      NextIsLocal(x, y, cs, id);
    }
  }

  lemma StepIsLocal(x: Objects, y: Objects, cs: ChangeSet, a: Address)
    requires SameObjects(x, y, Touched(cs))
    ensures StepOf(x, cs, a) == StepOf(y, cs, a)
  {
    ChangesAreLocal(x, y, cs);
  }

  /** An object that is only named for gas and not charged stays as it is. */
  lemma UnchangedStays(objects: Objects, cs: ChangeSet, id: ObjectId)
    requires id !in ChangesOf(objects, cs)
    ensures Next(objects, cs, id) == Find(objects, id)
  {
    BumpIsPaid(objects, cs, id);
  }

  /** `changes` tells how the objects `x` became `y`. */
  ghost predicate Turns(x: Objects, y: Objects, changes: Changes) {
    && (forall id :: id in changes ==>
          changes[id].before == ValueOf(Find(x, id)) && changes[id].after == ValueOf(Find(y, id)))
    && forall id :: id !in changes ==> Find(x, id) == Find(y, id)
  }

  lemma ChangesTurn(objects: Objects, cs: ChangeSet)
    ensures Turns(objects, ObjectsAfter(objects, cs), ChangesOf(objects, cs))
  {
    forall id
      ensures Find(ObjectsAfter(objects, cs), id) == Next(objects, cs, id)
      ensures id !in ChangesOf(objects, cs) ==> Next(objects, cs, id) == Find(objects, id)
    {
      FindAfter(objects, cs, id);
      if id !in ChangesOf(objects, cs) {
        UnchangedStays(objects, cs, id);
      }
    }
  }

  lemma HeldIs(objects: Objects, a: Address, id: ObjectId)
    ensures id in Held(objects, a) <==> Owns(a, ValueOf(Find(objects, id)))
    ensures id in Held(objects, a) ==> Some(Held(objects, a)[id]) == ValueOf(Find(objects, id))
  {
  }

  lemma HeldTurns(x: Objects, y: Objects, changes: Changes, a: Address, step: Step)
    requires Turns(x, y, changes) && step == StepIn(changes, a, step.named, step.delta, step.credit)
    ensures Held(y, a) == (Held(x, a) - step.before.Keys) + step.after
  {
    var now := (Held(x, a) - step.before.Keys) + step.after;
    forall id
      ensures id in Held(y, a) <==> id in now
      ensures id in now ==> Held(y, a)[id] == now[id]
    {
      HeldIs(x, a, id);
      HeldIs(y, a, id);
    }
  }

  // ---------------------------------------------------------------------------
  // Applying one changeset
  // ---------------------------------------------------------------------------

  function BalanceDelta(d: OwnerDelta): int {
    d.balance
  }

  /** The sum of all owner deltas: minted when positive, burned when negative. */
  ghost function Total(deltas: map<Address, OwnerDelta>): int {
    MapSum(deltas, BalanceDelta)
  }

  lemma AddBalanceTotal(cs: ChangeSet, owner: Address, amount: int)
    ensures Total(AddBalance(cs, owner, amount).ownerDeltas) == Total(cs.ownerDeltas) + amount
  {
    var d := DeltaOf(cs, owner);
    MapSumUpdate(cs.ownerDeltas, BalanceDelta, owner, d.(balance := d.balance + amount));
  }

  lemma TransferTotal(cs: ChangeSet, from: Address, to: Address, amount: nat)
    ensures Total(Transfer(cs, from, to, amount).ownerDeltas) == Total(cs.ownerDeltas)
  {
    AddBalanceTotal(cs, from, -(amount as int));
    AddBalanceTotal(AddBalance(cs, from, -(amount as int)), to, amount);
  }

  /** Settling gas moves it from the sender to the collector and creates none. */
  lemma GasTotal(cs: ChangeSet, sender: Address, collector: Address, cost: nat, used: nat)
    requires ApplyGas(cs, sender, collector, cost, used).Ok?
    ensures Total(ApplyGas(cs, sender, collector, cost, used).value.ownerDeltas) == Total(cs.ownerDeltas)
  {
    var debited := AddBalance(cs, sender, -(cost as int));
    AddBalanceTotal(cs, sender, -(cost as int));
    AddBalanceTotal(debited, collector, cost);
  }

  /** What a changeset stores in one of its cells, None to remove it. */
  function CellValue(cs: ChangeSet, n: CellName): Option<string>
    requires n in CellNames(cs)
  {
    match n
    case SupplyOf(t) => Some(cs.treasuries[t])
    case TreasuryOf(t) => Some(cs.treasuries[t])
    case DynamicField(f) => cs.dynamicFields[f]
    case Cell(c) => cs.cells[c]
    case TokenSupplies => None
  }

  function CellUpdates(cs: ChangeSet): map<CellName, Option<string>> {
    map n | n in CellNames(cs) :: CellValue(cs, n)
  }

  function ApplyCells(cells: map<CellName, string>, updates: map<CellName, Option<string>>): map<CellName, string> {
    map n | n in cells.Keys + updates.Keys && !(n in updates && updates[n].None?) ::
      if n in updates then updates[n].value else cells[n]
  }

  predicate InRange(x: int) {
    0 <= x <= U64_MAX
  }

  /** The owner's account after a changeset; a rejected step leaves the balance. */
  ghost function AccountAfter(books: Books, s: State, cs: ChangeSet, a: Address): Account {
    var posted := Posted(books, BookOf(s, a), StepOf(s.objects, cs, a));
    var was := AccountAt(s.accounts, a);
    Account(if posted.Some? then posted.value.balance else was.balance, was.modules + DeltaOf(cs, a).modules)
  }

  /** The owners a changeset may change. */
  ghost function OwnersOf(objects: Objects, cs: ChangeSet): set<Address> {
    cs.ownerDeltas.Keys + cs.gasCredits.Keys
    + (set id | id in ChangesOf(objects, cs) && ChangesOf(objects, cs)[id].before.Some? ::
         ChangesOf(objects, cs)[id].before.value.owner)
    + (set id | id in ChangesOf(objects, cs) && ChangesOf(objects, cs)[id].after.Some? ::
         ChangesOf(objects, cs)[id].after.value.owner)
  }

  /** The arithmetic of an application, with no check. */
  ghost function Effected(books: Books, s: State, cs: ChangeSet): State {
    State(
      map a | a in s.accounts.Keys + OwnersOf(s.objects, cs) :: AccountAfter(books, s, cs, a),
      s.supply + Total(cs.ownerDeltas),
      ObjectsAfter(s.objects, cs),
      ApplyCells(s.cells, CellUpdates(cs)),
      s.epoch + (if Manifest(cs).writeKeys == {} then 0 else 1))
  }

  /** Gas coins cover their charges, the supply stays in 64 bits, and every owner's books accept. */
  ghost predicate Admitted(books: Books, s: State, cs: ChangeSet) {
    && Payable(s.objects, cs)
    && InRange(s.supply + Total(cs.ownerDeltas))
    && forall a :: Posted(books, BookOf(s, a), StepOf(s.objects, cs, a)).Some?
  }

  ghost function Apply(books: Books, s: State, cs: ChangeSet): Result<State> {
    if Admitted(books, s, cs) then Ok(Effected(books, s, cs)) else Err("changeset rejected")
  }

  lemma OwnerNotMoved(objects: Objects, cs: ChangeSet, a: Address)
    requires a !in OwnersOf(objects, cs)
    ensures !Moves(StepOf(objects, cs, a)) && DeltaOf(cs, a).modules == {}
  {
    var changes := ChangesOf(objects, cs);
    forall id | id in changes ensures !Owns(a, changes[id].before) && !Owns(a, changes[id].after) {
    }
    assert StepOf(objects, cs, a).before == map[];
  }

  lemma AccountOfEffect(books: Books, s: State, cs: ChangeSet, a: Address)
    ensures AccountAt(Effected(books, s, cs).accounts, a) == AccountAfter(books, s, cs, a)
  {
    if a !in s.accounts.Keys + OwnersOf(s.objects, cs) {
      OwnerNotMoved(s.objects, cs, a);
    }
  }

  lemma PostedIs(books: Books, book: Book, step: Step, next: Book)
    requires Posted(books, book, step).Some? && next.balance == Posted(books, book, step).value.balance
    requires next.held == (book.held - step.before.Keys) + step.after
    requires step.before == map[] ==> step.after == map[]
    ensures Posted(books, book, step) == Some(next)
  {
    if !Moves(step) {
      assert (book.held - step.before.Keys) + step.after == book.held;
    }
  }

  lemma NothingBeforeNothingAfter(changes: Changes, a: Address, named: bool, delta: int, credit: nat)
    ensures var step := StepIn(changes, a, named, delta, credit);
            step.before == map[] ==> step.after == map[]
  {
    var step := StepIn(changes, a, named, delta, credit);
    assert step.after.Keys <= step.before.Keys;
  }

  lemma HeldOfEffect(objects: Objects, cs: ChangeSet, a: Address)
    ensures var step := StepOf(objects, cs, a);
            && Held(ObjectsAfter(objects, cs), a) == (Held(objects, a) - step.before.Keys) + step.after
            && (step.before == map[] ==> step.after == map[])
  {
    ChangesTurn(objects, cs);
    HeldTurns(objects, ObjectsAfter(objects, cs), ChangesOf(objects, cs), a, StepOf(objects, cs, a));
    NothingBeforeNothingAfter(ChangesOf(objects, cs), a, a in cs.ownerDeltas || a in cs.gasCredits,
                              DeltaOf(cs, a).balance, GasCredit(cs, a));
  }

  /** An admitted changeset posts its step to every owner's book. */
  lemma BookOfEffect(books: Books, s: State, cs: ChangeSet, a: Address)
    requires Posted(books, BookOf(s, a), StepOf(s.objects, cs, a)).Some?
    ensures Posted(books, BookOf(s, a), StepOf(s.objects, cs, a)) == Some(BookOf(Effected(books, s, cs), a))
  {
    AccountOfEffect(books, s, cs, a);
    HeldOfEffect(s.objects, cs, a);
    PostedIs(books, BookOf(s, a), StepOf(s.objects, cs, a), BookOf(Effected(books, s, cs), a));
  }

  // ---------------------------------------------------------------------------
  // Applying one by one
  // ---------------------------------------------------------------------------

  /** Two states with the same contents; the epoch counts applications and is left out. */
  ghost predicate Alike(s: State, t: State) {
    && s.supply == t.supply && s.objects == t.objects && s.cells == t.cells
    && forall a :: AccountAt(s.accounts, a) == AccountAt(t.accounts, a)
  }

  ghost predicate SameOutcome(a: Result<State>, b: Result<State>) {
    a.Ok? == b.Ok? && (a.Ok? ==> Alike(a.value, b.value))
  }

  ghost function ApplyEach(books: Books, s: State, css: seq<ChangeSet>): Result<State> {
    if css == [] then Ok(s)
    else
      match ApplyEach(books, s, css[..|css| - 1])
      case Err(e) => Err(e)
      case Ok(before) => Apply(books, before, css[|css| - 1])
  }

  ghost function EffectedByAll(books: Books, s: State, css: seq<ChangeSet>): State {
    if css == [] then s else Effected(books, EffectedByAll(books, s, css[..|css| - 1]), css[|css| - 1])
  }

  /** No object is touched by two changesets. */
  ghost predicate Apart(css: seq<ChangeSet>) {
    KeysDisjoint(Touched, css)
  }

  ghost function StepsOf(objects: Objects, css: seq<ChangeSet>, a: Address): (r: seq<Step>)
    ensures |r| == |css| && forall i :: 0 <= i < |css| ==> r[i] == StepOf(objects, css[i], a)
  {
    seq(|css|, i requires 0 <= i < |css| => StepOf(objects, css[i], a))
  }

  ghost predicate AllPayable(objects: Objects, css: seq<ChangeSet>) {
    forall i :: 0 <= i < |css| ==> Payable(objects, css[i])
  }

  ghost function SupplyAfter(supply: int, css: seq<ChangeSet>): int {
    if css == [] then supply else SupplyAfter(supply, css[..|css| - 1]) + Total(css[|css| - 1].ownerDeltas)
  }

  ghost predicate SupplyInRange(supply: int, css: seq<ChangeSet>) {
    forall k :: 0 < k <= |css| ==> InRange(SupplyAfter(supply, css[..k]))
  }

  function CellsAfter(cells: map<CellName, string>, css: seq<ChangeSet>): map<CellName, string> {
    if css == [] then cells else ApplyCells(CellsAfter(cells, css[..|css| - 1]), CellUpdates(css[|css| - 1]))
  }

  function ModulesAfter(modules: set<string>, css: seq<ChangeSet>, a: Address): set<string> {
    if css == [] then modules
    else ModulesAfter(modules, css[..|css| - 1], a) + DeltaOf(css[|css| - 1], a).modules
  }

  /** The object after all changesets, when no two of them touch it. */
  ghost function FinalAt(objects: Objects, css: seq<ChangeSet>, id: ObjectId): Option<StoredObject> {
    if css == [] then Find(objects, id)
    else if id in Touched(css[|css| - 1]) then Next(objects, css[|css| - 1], id)
    else FinalAt(objects, css[..|css| - 1], id)
  }

  ghost predicate BooksAccept(books: Books, s: State, css: seq<ChangeSet>) {
    forall a :: PostedAll(books, BookOf(s, a), StepsOf(s.objects, css, a)).Some?
  }

  /** What a run of changesets that touch different objects leaves, read off the state before it. */
  ghost predicate Leaves(books: Books, s: State, css: seq<ChangeSet>, t: State) {
    && t.supply == SupplyAfter(s.supply, css)
    && t.cells == CellsAfter(s.cells, css)
    && (forall id :: Find(t.objects, id) == FinalAt(s.objects, css, id))
    && (forall a :: PostedAll(books, BookOf(s, a), StepsOf(s.objects, css, a)) == Some(BookOf(t, a)))
    && forall a :: AccountAt(t.accounts, a).modules == ModulesAfter(AccountAt(s.accounts, a).modules, css, a)
  }

  ghost predicate Succeeds(books: Books, s: State, css: seq<ChangeSet>) {
    AllPayable(s.objects, css) && SupplyInRange(s.supply, css) && BooksAccept(books, s, css)
  }

  lemma {:induction false} UntouchedIsFinal(objects: Objects, css: seq<ChangeSet>, id: ObjectId)
    requires forall i :: 0 <= i < |css| ==> id !in Touched(css[i])
    ensures FinalAt(objects, css, id) == Find(objects, id)
  {
    if css != [] {
      UntouchedIsFinal(objects, css[..|css| - 1], id);
    }
  }

  /** The next changeset finds the objects it touches as they were. */
  lemma StillThere(books: Books, s: State, init: seq<ChangeSet>, last: ChangeSet, t: State)
    requires Apart(init + [last]) && Leaves(books, s, init, t)
    ensures SameObjects(s.objects, t.objects, Touched(last))
  {
    forall id | id in Touched(last) ensures Find(s.objects, id) == Find(t.objects, id) {
      assert (init + [last])[|init|] == last;
      forall i | 0 <= i < |init| ensures id !in Touched(init[i]) {
        assert (init + [last])[i] == init[i];
      }
      UntouchedIsFinal(s.objects, init, id);
    }
  }

  lemma StepsSnoc(objects: Objects, init: seq<ChangeSet>, last: ChangeSet, a: Address)
    ensures StepsOf(objects, init + [last], a) == StepsOf(objects, init, a) + [StepOf(objects, last, a)]
  {
  }

  lemma PostedSnoc(books: Books, book: Book, steps: seq<Step>, step: Step)
    ensures PostedAll(books, book, steps + [step])
            == match PostedAll(books, book, steps) case None => None case Some(before) => Posted(books, before, step)
  {
    assert (steps + [step])[..|steps|] == steps;
  }

  /** One more changeset, on an owner's book. */
  lemma BookSnoc(books: Books, s: State, init: seq<ChangeSet>, last: ChangeSet, t: State, a: Address)
    requires Leaves(books, s, init, t) && SameObjects(s.objects, t.objects, Touched(last))
    ensures PostedAll(books, BookOf(s, a), StepsOf(s.objects, init + [last], a))
            == Posted(books, BookOf(t, a), StepOf(t.objects, last, a))
  {
    StepsSnoc(s.objects, init, last, a);
    PostedSnoc(books, BookOf(s, a), StepsOf(s.objects, init, a), StepOf(s.objects, last, a));
    StepIsLocal(s.objects, t.objects, last, a);
  }

  lemma FinalSnoc(objects: Objects, init: seq<ChangeSet>, last: ChangeSet, id: ObjectId)
    ensures FinalAt(objects, init + [last], id)
            == if id in Touched(last) then Next(objects, last, id) else FinalAt(objects, init, id)
  {
    assert (init + [last])[..|init|] == init;
  }

  lemma ObjectsSnoc(books: Books, s: State, init: seq<ChangeSet>, last: ChangeSet, t: State, id: ObjectId)
    requires Leaves(books, s, init, t) && SameObjects(s.objects, t.objects, Touched(last))
    ensures Find(ObjectsAfter(t.objects, last), id) == FinalAt(s.objects, init + [last], id)
  {
    FinalSnoc(s.objects, init, last, id);
    FindAfter(t.objects, last, id);
    if id in Touched(last) {
      NextIsLocal(s.objects, t.objects, last, id);
    }
  }

  lemma OwnerSnoc(books: Books, s: State, init: seq<ChangeSet>, last: ChangeSet, t: State, a: Address)
    requires Leaves(books, s, init, t) && SameObjects(s.objects, t.objects, Touched(last)) && Admitted(books, t, last)
    ensures PostedAll(books, BookOf(s, a), StepsOf(s.objects, init + [last], a))
            == Some(BookOf(Effected(books, t, last), a))
    ensures AccountAt(Effected(books, t, last).accounts, a).modules
            == ModulesAfter(AccountAt(s.accounts, a).modules, init + [last], a)
  {
    assert (init + [last])[..|init|] == init;
    BookSnoc(books, s, init, last, t, a);
    BookOfEffect(books, t, last, a);
    AccountOfEffect(books, t, last, a);
  }

  lemma ObjectsLeft(books: Books, s: State, init: seq<ChangeSet>, last: ChangeSet, t: State, objects: Objects)
    requires Leaves(books, s, init, t) && SameObjects(s.objects, t.objects, Touched(last))
    requires objects == ObjectsAfter(t.objects, last)
    ensures forall id :: Find(objects, id) == FinalAt(s.objects, init + [last], id)
  {
    forall id ensures Find(objects, id) == FinalAt(s.objects, init + [last], id) {
      ObjectsSnoc(books, s, init, last, t, id);
    }
  }

  /** An owner of the state after a run. */
  ghost predicate OwnerLeft(books: Books, s: State, css: seq<ChangeSet>, t: State, a: Address) {
    && PostedAll(books, BookOf(s, a), StepsOf(s.objects, css, a)) == Some(BookOf(t, a))
    && AccountAt(t.accounts, a).modules == ModulesAfter(AccountAt(s.accounts, a).modules, css, a)
  }

  lemma LeavesFrom(books: Books, s: State, css: seq<ChangeSet>, t: State)
    requires t.supply == SupplyAfter(s.supply, css) && t.cells == CellsAfter(s.cells, css)
    requires forall id :: Find(t.objects, id) == FinalAt(s.objects, css, id)
    requires forall a :: OwnerLeft(books, s, css, t, a)
    ensures Leaves(books, s, css, t)
  {
    forall a
      ensures PostedAll(books, BookOf(s, a), StepsOf(s.objects, css, a)) == Some(BookOf(t, a))
      ensures AccountAt(t.accounts, a).modules == ModulesAfter(AccountAt(s.accounts, a).modules, css, a)
    {
      assert OwnerLeft(books, s, css, t, a);
    }
  }

  lemma LeavesSnoc(books: Books, s: State, init: seq<ChangeSet>, last: ChangeSet, t: State)
    requires Apart(init + [last]) && Leaves(books, s, init, t) && Admitted(books, t, last)
    ensures Leaves(books, s, init + [last], Effected(books, t, last))
  {
    assert (init + [last])[..|init|] == init;
    StillThere(books, s, init, last, t);
    ObjectsLeft(books, s, init, last, t, Effected(books, t, last).objects);
    forall a ensures OwnerLeft(books, s, init + [last], Effected(books, t, last), a) {
      OwnerSnoc(books, s, init, last, t, a);
    }
    LeavesFrom(books, s, init + [last], Effected(books, t, last));
  }

  lemma BooksAcceptSnoc(books: Books, s: State, init: seq<ChangeSet>, last: ChangeSet, t: State)
    requires Leaves(books, s, init, t) && SameObjects(s.objects, t.objects, Touched(last))
    ensures BooksAccept(books, s, init + [last])
            <==> forall a :: Posted(books, BookOf(t, a), StepOf(t.objects, last, a)).Some?
  {
    forall a
      ensures PostedAll(books, BookOf(s, a), StepsOf(s.objects, init + [last], a))
              == Posted(books, BookOf(t, a), StepOf(t.objects, last, a))
    {
      BookSnoc(books, s, init, last, t, a);
    }
  }

  lemma AdmittedSnoc(books: Books, s: State, init: seq<ChangeSet>, last: ChangeSet, t: State)
    requires Apart(init + [last]) && Leaves(books, s, init, t)
    ensures Admitted(books, t, last) <==>
            && Payable(s.objects, last) && InRange(SupplyAfter(s.supply, init + [last]))
            && BooksAccept(books, s, init + [last])
  {
    assert (init + [last])[..|init|] == init;
    StillThere(books, s, init, last, t);
    PayableIsLocal(s.objects, t.objects, last);
    BooksAcceptSnoc(books, s, init, last, t);
  }

  lemma AllPayableSnoc(objects: Objects, init: seq<ChangeSet>, last: ChangeSet)
    ensures AllPayable(objects, init + [last]) <==> AllPayable(objects, init) && Payable(objects, last)
  {
    assert (init + [last])[|init|] == last;
    assert forall i :: 0 <= i < |init| ==> (init + [last])[i] == init[i];
  }

  lemma SupplySnoc(supply: int, init: seq<ChangeSet>, last: ChangeSet)
    ensures SupplyInRange(supply, init + [last])
            <==> SupplyInRange(supply, init) && InRange(SupplyAfter(supply, init + [last]))
  {
    var all := init + [last];
    assert all[..|all|] == all;
    assert forall k :: 0 <= k <= |init| ==> all[..k] == init[..k];
  }

  lemma BooksAcceptPrefix(books: Books, s: State, init: seq<ChangeSet>, last: ChangeSet)
    requires BooksAccept(books, s, init + [last])
    ensures BooksAccept(books, s, init)
  {
    forall a ensures PostedAll(books, BookOf(s, a), StepsOf(s.objects, init, a)).Some? {
      StepsSnoc(s.objects, init, last, a);
      PostedSnoc(books, BookOf(s, a), StepsOf(s.objects, init, a), StepOf(s.objects, last, a));
    }
  }

  lemma SucceedsSnoc(books: Books, s: State, init: seq<ChangeSet>, last: ChangeSet)
    ensures Succeeds(books, s, init + [last]) <==>
            && Succeeds(books, s, init) && Payable(s.objects, last)
            && InRange(SupplyAfter(s.supply, init + [last])) && BooksAccept(books, s, init + [last])
  {
    AllPayableSnoc(s.objects, init, last);
    SupplySnoc(s.supply, init, last);
    if BooksAccept(books, s, init + [last]) {
      BooksAcceptPrefix(books, s, init, last);
    }
  }

  /**
   Changesets that touch different objects succeed one by one exactly when every gas coin
   covers its charge, every prefix keeps the supply in range and every owner's books accept
   its steps in turn; and all of that, and what they leave, is decided by the state before.
   */
  lemma {:induction false} EachIff(books: Books, s: State, css: seq<ChangeSet>)
    requires Apart(css)
    ensures ApplyEach(books, s, css).Ok? <==> Succeeds(books, s, css)
    ensures ApplyEach(books, s, css).Ok? ==>
            && Leaves(books, s, css, ApplyEach(books, s, css).value)
            && ApplyEach(books, s, css).value == EffectedByAll(books, s, css)
  {
    if css != [] {
      var init, last := css[..|css| - 1], css[|css| - 1];
      assert css == init + [last];
      EachIff(books, s, init);
      SucceedsSnoc(books, s, init, last);
      var before := ApplyEach(books, s, init);
      if before.Ok? {
        AdmittedSnoc(books, s, init, last, before.value);
        if Admitted(books, before.value, last) {
          LeavesSnoc(books, s, init, last, before.value);
        }
      }
    }
  }

  // ---------------------------------------------------------------------------
  // Alike states
  // ---------------------------------------------------------------------------

  lemma AlikeAccount(books: Books, s: State, t: State, cs: ChangeSet, a: Address)
    requires Alike(s, t)
    ensures AccountAt(Effected(books, s, cs).accounts, a) == AccountAt(Effected(books, t, cs).accounts, a)
  {
    AccountOfEffect(books, s, cs, a);
    AccountOfEffect(books, t, cs, a);
  }

  lemma AlikeEffect(books: Books, s: State, t: State, cs: ChangeSet)
    requires Alike(s, t)
    ensures Alike(Effected(books, s, cs), Effected(books, t, cs))
  {
    forall a ensures AccountAt(Effected(books, s, cs).accounts, a) == AccountAt(Effected(books, t, cs).accounts, a) {
      AlikeAccount(books, s, t, cs, a);
    }
  }

  lemma AlikeAdmitted(books: Books, s: State, t: State, cs: ChangeSet)
    requires Alike(s, t)
    ensures Admitted(books, s, cs) == Admitted(books, t, cs)
  {
    forall a ensures BookOf(s, a) == BookOf(t, a) {
    }
  }

  /** An application does not tell alike states apart. */
  lemma AlikeApply(books: Books, s: State, t: State, cs: ChangeSet)
    requires Alike(s, t)
    ensures SameOutcome(Apply(books, s, cs), Apply(books, t, cs))
  {
    AlikeAdmitted(books, s, t, cs);
    AlikeEffect(books, s, t, cs);
  }

  lemma {:induction false} EachIsEffect(books: Books, s: State, css: seq<ChangeSet>)
    requires ApplyEach(books, s, css).Ok?
    ensures ApplyEach(books, s, css).value == EffectedByAll(books, s, css)
  {
    if css != [] {
      EachIsEffect(books, s, css[..|css| - 1]);
    }
  }
}
