/**
 Transactions of one queue: same lane, same sender, same rank. The batch of a DAG vertex
 takes the lower nonce first, except where another transaction of the batch holds a key
 of the lower one that the higher one can do without.
 */
module Overtaking {
  import opened Prelude
  import opened Selection

  /** Both wait for the same thing, `a` with the lower nonce. */
  ghost predicate Queued(laneAware: bool, a: Transaction, b: Transaction) {
    && PrimaryKey(a) == PrimaryKey(b) && a.sender == b.sender && a.nonce < b.nonce
    && (laneAware ==> LaneRank(a) == LaneRank(b))
  }

  lemma QueuedBefore(laneAware: bool, a: Transaction, b: Transaction)
    requires Queued(laneAware, a, b)
    ensures Before(laneAware, a, b)
  {
    TextOrder(PrimaryKey(a), PrimaryKey(b));
    TextOrder(a.sender, b.sender);
  }

  /** In the sorted pool the lower nonce is in front. */
  lemma QueuedInOrder(laneAware: bool, pool: seq<Transaction>, a: Transaction, b: Transaction, i: nat, j: nat)
    requires Queued(laneAware, a, b)
    requires var sorted := Sort(laneAware, pool);
             i < |sorted| && j < |sorted| && sorted[i] == a && sorted[j] == b
    ensures i < j
  {
    SortInOrder(laneAware, pool);
    QueuedBefore(laneAware, a, b);
  }

  /** A member of the batch that holds a key of `a` and leaves `b` alone, and comes before `a`. */
  ghost predicate HoldsBack(policy: Policy, laneAware: bool, batch: seq<Transaction>, a: Transaction, b: Transaction,
                            c: Transaction)
  {
    && c in batch && Precedes(laneAware, c, a)
    && !(ConflictKeys(policy, c) !! ConflictKeys(policy, a)) && ConflictKeys(policy, c) !! ConflictKeys(policy, b)
  }

  /** A front of the pick of a sorted pool, as both kinds of batches are. */
  ghost predicate FrontOfPick(policy: Policy, laneAware: bool, pool: seq<Transaction>, batch: seq<Transaction>) {
    batch <= Greedy(KeysUnder(policy), Sort(laneAware, pool), {})
  }

  lemma DagBatchIsFront(policy: Policy, pool: seq<Transaction>)
    ensures FrontOfPick(policy, policy.laneAware, pool, DagBatch(policy, pool))
  {
    FittingFront(Greedy(KeysUnder(policy), Sort(policy.laneAware, pool), {}), 0, 0);
  }

  /** A batch with a higher nonce and without the lower one holds what kept the lower one out. */
  lemma OvertakenIsHeldBack(policy: Policy, laneAware: bool, pool: seq<Transaction>, batch: seq<Transaction>,
                            a: Transaction, b: Transaction)
    returns (c: Transaction)
    requires FrontOfPick(policy, laneAware, pool, batch) && Queued(laneAware, a, b) && a in pool && b in batch
    ensures HoldsBack(policy, laneAware, batch, a, b, c)
  {
    var sorted := Sort(laneAware, pool);
    var keys := KeysUnder(policy);
    var chosen := GreedyIsMaximal(keys, sorted);
    var picked := Pick(sorted, chosen);
    var m :| 0 <= m < |batch| && batch[m] == b;
    MemberIn(sorted, pool, a);
    var i :| 0 <= i < |sorted| && sorted[i] == a;
    QueuedInOrder(laneAware, pool, a, b, i, chosen[m]);
    var n := Blocker(policy, sorted, chosen, a, b, i, m);
    c := picked[n];
    assert c == batch[n] && keys(c) !! keys(b);
    SortInOrder(laneAware, pool);
    assert !Before(laneAware, a, c);
    OtherLaneIsOrdered(policy, laneAware, a, b, c);
  }

  /** The chosen transaction that blocked `a`. */
  lemma Blocker(policy: Policy, sorted: seq<Transaction>, chosen: seq<nat>, a: Transaction, b: Transaction, i: nat,
                m: nat)
    returns (n: nat)
    requires GreedyChoice(KeysUnder(policy), sorted, chosen) && PrimaryKey(a) == PrimaryKey(b)
    requires m < |chosen| && i < chosen[m] && sorted[i] == a && sorted[chosen[m]] == b
    ensures n < m && chosen[n] < i && !(KeysUnder(policy)(sorted[chosen[n]]) !! KeysUnder(policy)(a))
  {
    var picked := Pick(sorted, chosen);
    if i in chosen {
      var k :| 0 <= k < |chosen| && chosen[k] == i;
      assert k < m;
      PickedLanesDiffer(policy, picked);
      assert false;
    }
    assert Blocked(KeysUnder(policy), sorted, chosen, i);
    n :| 0 <= n < |chosen| && chosen[n] < i && !(KeysUnder(policy)(sorted[chosen[n]]) !! KeysUnder(policy)(a));
  }

  /** What does not clash with `b` is in another lane, so it is before `a` or behind it. */
  lemma OtherLaneIsOrdered(policy: Policy, laneAware: bool, a: Transaction, b: Transaction, c: Transaction)
    requires PrimaryKey(a) == PrimaryKey(b) && ConflictKeys(policy, c) !! ConflictKeys(policy, b)
    requires !Before(laneAware, a, c)
    ensures Precedes(laneAware, c, a) && PrimaryKey(c) != PrimaryKey(a)
  {
    if PrimaryKey(c) == PrimaryKey(a) {
      SameLaneClashes(policy, c, b);
    }
    TextOrder(PrimaryKey(a), PrimaryKey(c));
    TextOrder(PrimaryKey(c), PrimaryKey(a));
    BeforeIff(laneAware, c, a);
  }

  /** With all its keys needed by the higher nonce too, the lower nonce goes first: the higher one waits. */
  lemma LowerNonceFirst(policy: Policy, laneAware: bool, pool: seq<Transaction>, batch: seq<Transaction>,
                        a: Transaction, b: Transaction)
    requires FrontOfPick(policy, laneAware, pool, batch) && Queued(laneAware, a, b) && a in pool
    requires ConflictKeys(policy, a) <= ConflictKeys(policy, b)
    ensures b !in batch
  {
    if b in batch {
      var c := OvertakenIsHeldBack(policy, laneAware, pool, batch, a, b);
      assert false;
    }
  }

  /** So it does in the batch of a DAG vertex. */
  lemma DagLowerNonceFirst(policy: Policy, pool: seq<Transaction>, a: Transaction, b: Transaction)
    requires Queued(policy.laneAware, a, b) && a in pool && ConflictKeys(policy, a) <= ConflictKeys(policy, b)
    ensures b !in DagBatch(policy, pool)
  {
    DagBatchIsFront(policy, pool);
    LowerNonceFirst(policy, policy.laneAware, pool, DagBatch(policy, pool), a, b);
  }

  /** And in the batch of the owned fast path, which ignores the ranks. */
  lemma FastPathLowerNonceFirst(policy: Policy, pool: seq<Transaction>, a: Transaction, b: Transaction)
    requires Queued(false, a, b) && a in pool && OwnedOnly(a) && ConflictKeys(policy, a) <= ConflictKeys(policy, b)
    ensures b !in FastPathBatch(policy, pool)
  {
    FilterMembers(OwnedOnly, pool, a);
    LowerNonceFirst(policy, false, Filter(OwnedOnly, pool), FastPathBatch(policy, pool), a, b);
  }

  // ---------------------------------------------------------------------------
  // When overtaking is possible
  // ---------------------------------------------------------------------------

  /** Some lane that `b` has no part in comes before that of `a`. */
  ghost predicate LaneInFront(policy: Policy, a: Transaction, b: Transaction) {
    || a.inputs != [] || a.payment == []
    || exists z :: TextLess(z, a.payment[0]) && ObjectKey(z) !in ConflictKeys(policy, b)
  }

  /** `b` fits a vertex, does without a key of `a`, and something can be in front of `a`. */
  ghost predicate CanOvertake(policy: Policy, a: Transaction, b: Transaction) {
    Fits(b, 0) && !(ConflictKeys(policy, a) <= ConflictKeys(policy, b)) && LaneInFront(policy, a, b)
  }

  ghost predicate Overtaken(policy: Policy, pool: seq<Transaction>, a: Transaction, b: Transaction) {
    DistinctHashes(pool) && a in pool && b in DagBatch(policy, pool)
  }

  lemma {:induction false} TakenFits(selected: seq<Transaction>, bytes: nat, count: nat, x: Transaction)
    requires x in TakeFitting(selected, bytes, count)
    ensures Fits(x, 0)
    decreases selected
  {
    var taken := TakeFitting(selected, bytes, count);
    assert taken == [selected[0]] + TakeFitting(selected[1..], bytes + selected[0].size.value, count + 1);
    if x != selected[0] {
      assert x in taken[1..];
      TakenFits(selected[1..], bytes + selected[0].size.value, count + 1, x);
    }
  }

  lemma {:induction false} TextLessBehind(prefix: string, a: string, b: string)
    ensures TextLess(prefix + a, prefix + b) <==> TextLess(a, b)
  {
    if prefix == [] {
      assert prefix + a == a && prefix + b == b;
    } else {
      TextLessBehind(prefix[1..], a, b);
      var x, y := prefix + a, prefix + b;
      assert x[1..] == prefix[1..] + a && y[1..] == prefix[1..] + b;
      CompareTextIff(x, y);
      CompareTextIff(x[1..], y[1..]);
    }
  }

  lemma NoRankBeforeNoInputs(a: Transaction, c: Transaction)
    requires a.inputs == []
    ensures !EarlierRank(c, a)
  {
  }

  lemma NotBothLess(a: string, b: string)
    ensures !(TextLess(a, b) && TextLess(b, a))
  {
    CompareTextIff(a, b);
    CompareTextIff(b, a);
    TextOrder(a, b);
  }

  /** What is in front of a gas lane is in a gas lane. */
  lemma InFrontOfGas(policy: Policy, a: Transaction, c: Transaction)
    requires a.inputs == [] && a.payment != [] && Precedes(policy.laneAware, c, a) && PrimaryKey(c) != PrimaryKey(a)
    ensures c.payment != [] && TextLess(c.payment[0], a.payment[0])
    ensures ObjectKey(c.payment[0]) in ConflictKeys(policy, c)
  {
    LaneNames(a, 0);
    LaneNames(c, 0);
    var mine, other := PrimaryKey(a), PrimaryKey(c);
    NoRankBeforeNoInputs(a, c);
    NotBothLess(other, mine);
    GasLaneIsSmall(c, a.payment[0]);
    TextLessBehind("mut:gas:", c.payment[0], a.payment[0]);
    HeldIff(policy, c, ObjectKey(c.payment[0]));
  }

  lemma GasLaneIsSmall(c: Transaction, id: string)
    ensures (c.inputs == [] && c.payment != []) || TextLess("mut:gas:" + id, PrimaryKey(c))
  {
    var gas, lane := "mut:gas:" + id, PrimaryKey(c);
    if c.inputs != [] {
      if lane[0] == 'm' {
        assert gas[..4] == "mut:" == lane[..4] && gas[4] < lane[4];
        assert DifferAt(gas, lane, 4);
      } else {
        assert DifferAt(gas, lane, 0);
      }
    } else if c.payment == [] {
      assert DifferAt(gas, lane, 0);
    }
  }

  lemma OvertakenCould(policy: Policy, pool: seq<Transaction>, a: Transaction, b: Transaction)
    requires Queued(policy.laneAware, a, b) && Overtaken(policy, pool, a, b)
    ensures CanOvertake(policy, a, b)
  {
    DagBatchIsFront(policy, pool);
    var c := OvertakenIsHeldBack(policy, policy.laneAware, pool, DagBatch(policy, pool), a, b);
    TakenFits(Greedy(KeysUnder(policy), Sort(policy.laneAware, pool), {}), 0, 0, b);
    if a.inputs == [] && a.payment != [] {
      if PrimaryKey(c) == PrimaryKey(b) {
        SameLaneClashes(policy, c, b);
      }
      InFrontOfGas(policy, a, c);
    }
  }

  /** An object no key of the set is about. */
  lemma {:induction false} FreshObject(keys: set<ConflictKey>) returns (z: string)
    ensures forall key :: key in keys && key.ObjectKey? ==> |key.id| < |z|
  {
    z := "x";
    if keys != {} {
      var key :| key in keys;
      var rest := FreshObject(keys - {key});
      z := rest + if key.ObjectKey? then key.id + "x" else "";
    }
  }

  /** Holds the key `y` and pays with the coin `z`. */
  ghost function InTheWay(a: Transaction, b: Transaction, z: string, y: ConflictKey): Transaction {
    Transaction(a.hash + b.hash + "x", "", 0, [], [z], {y}, Some(0))
  }

  lemma InTheWayPrecedes(policy: Policy, a: Transaction, b: Transaction, z: string, y: ConflictKey)
    requires a.inputs == [] && a.payment != [] ==> TextLess(z, a.payment[0])
    ensures Before(policy.laneAware, InTheWay(a, b, z, y), a)
  {
    var c := InTheWay(a, b, z, y);
    assert PrimaryKey(c) == "mut:gas:" + z;
    GasLaneIsSmall(a, z);
    if a.inputs == [] && a.payment != [] {
      TextLessBehind("mut:gas:", z, a.payment[0]);
    }
    assert TextLess(PrimaryKey(c), PrimaryKey(a));
    CompareTextIff(PrimaryKey(c), PrimaryKey(a));
  }

  lemma InTheWayKeys(policy: Policy, a: Transaction, b: Transaction, z: string, y: ConflictKey)
    ensures ConflictKeys(policy, InTheWay(a, b, z, y)) == {ObjectKey(z), y}
  {
    var c := InTheWay(a, b, z, y);
    assert c.payment[0] == z;
    assert ObjectKeys(c) == {ObjectKey(z)};
  }

  /** Three transactions in order. */
  ghost predicate InRow(laneAware: bool, c: Transaction, a: Transaction, b: Transaction) {
    && Before(laneAware, c, a) && Before(laneAware, a, b)
    && c.hash != a.hash && c.hash != b.hash && a.hash != b.hash
  }

  lemma RowIsSorted(laneAware: bool, c: Transaction, a: Transaction, b: Transaction)
    requires InRow(laneAware, c, a, b)
    ensures Sorted(laneAware, [c, a, b]) && DistinctHashes([c, a, b])
  {
    BeforeIsTransitive(laneAware, c, a, b);
  }

  lemma SortedStays(laneAware: bool, s: seq<Transaction>)
    requires Sorted(laneAware, s) && DistinctHashes(s)
    ensures Sort(laneAware, s) == s
  {
    SortIsSorted(laneAware, s);
    SortedIsUnique(laneAware, Sort(laneAware, s), s);
  }

  lemma PicksFirstAndThird(keys: Transaction -> set<ConflictKey>, c: Transaction, a: Transaction, b: Transaction)
    requires !(keys(c) !! keys(a)) && keys(c) !! keys(b)
    ensures Greedy(keys, [c, a, b], {}) == [c, b]
  {
    var row := [c, a, b];
    GreedyStep(keys, row, {}, 0);
    GreedyStep(keys, row, keys(c), 1);
    GreedyStep(keys, row, keys(c), 2);
    assert row[0..] == row && row[3..] == [] && {} + keys(c) == keys(c);
    assert Greedy(keys, row[2..], keys(c)) == [b] + [];
  }

  lemma TakesBoth(c: Transaction, b: Transaction)
    requires Fits(c, 0) && Fits(b, c.size.value)
    ensures TakeFitting([c, b], 0, 0) == [c, b]
  {
    var n := c.size.value;
    assert [c, b][1..] == [b] && [b][1..] == [];
    assert TakeFitting([b], n, 1) == [b] + TakeFitting([], n + b.size.value, 2);
  }

  /** The first is in the way of the second only, and the third overtakes it. */
  lemma ThirdOvertakes(policy: Policy, c: Transaction, a: Transaction, b: Transaction)
    requires InRow(policy.laneAware, c, a, b)
    requires !(ConflictKeys(policy, c) !! ConflictKeys(policy, a)) && ConflictKeys(policy, c) !! ConflictKeys(policy, b)
    requires Fits(c, 0) && Fits(b, c.size.value)
    ensures DagBatch(policy, [c, a, b]) == [c, b] && DistinctHashes([c, a, b])
  {
    RowIsSorted(policy.laneAware, c, a, b);
    SortedStays(policy.laneAware, [c, a, b]);
    PicksFirstAndThird(KeysUnder(policy), c, a, b);
    TakesBoth(c, b);
  }

  /** A lane in front of `a` that `b` has no part in. */
  lemma FreeCoin(policy: Policy, a: Transaction, b: Transaction) returns (z: string)
    requires LaneInFront(policy, a, b)
    ensures a.inputs == [] && a.payment != [] ==> TextLess(z, a.payment[0])
    ensures ObjectKey(z) !in ConflictKeys(policy, b)
  {
    if a.inputs == [] && a.payment != [] {
      z :| TextLess(z, a.payment[0]) && ObjectKey(z) !in ConflictKeys(policy, b);
    } else {
      z := FreshObject(ConflictKeys(policy, b));
    }
  }

  lemma InTheWayOvertakes(policy: Policy, a: Transaction, b: Transaction, z: string, y: ConflictKey)
    requires Queued(policy.laneAware, a, b) && a.hash != b.hash && Fits(b, 0)
    requires y in ConflictKeys(policy, a) && y !in ConflictKeys(policy, b) && ObjectKey(z) !in ConflictKeys(policy, b)
    requires a.inputs == [] && a.payment != [] ==> TextLess(z, a.payment[0])
    ensures Overtaken(policy, [InTheWay(a, b, z, y), a, b], a, b)
  {
    var c := InTheWay(a, b, z, y);
    InTheWayKeys(policy, a, b, z, y);
    InTheWayPrecedes(policy, a, b, z, y);
    QueuedBefore(policy.laneAware, a, b);
    assert |c.hash| > |a.hash| && |c.hash| > |b.hash|;
    ThirdOvertakes(policy, c, a, b);
  }

  lemma CouldBeOvertaken(policy: Policy, a: Transaction, b: Transaction) returns (pool: seq<Transaction>)
    requires Queued(policy.laneAware, a, b) && a.hash != b.hash && CanOvertake(policy, a, b)
    ensures Overtaken(policy, pool, a, b)
  {
    var y :| y in ConflictKeys(policy, a) && y !in ConflictKeys(policy, b);
    var z := FreeCoin(policy, a, b);
    InTheWayOvertakes(policy, a, b, z, y);
    pool := [InTheWay(a, b, z, y), a, b];
  }

  /** A higher nonce is batched before a pending lower one in some pool exactly when it can overtake it. */
  lemma OvertakenIff(policy: Policy, a: Transaction, b: Transaction)
    requires Queued(policy.laneAware, a, b) && a.hash != b.hash
    ensures (exists pool :: Overtaken(policy, pool, a, b)) <==> CanOvertake(policy, a, b)
  {
    if pool :| Overtaken(policy, pool, a, b) {
      OvertakenCould(policy, pool, a, b);
    }
    if CanOvertake(policy, a, b) {
      var pool := CouldBeOvertaken(policy, a, b);
    }
  }

  // ---------------------------------------------------------------------------
  // An instance
  // ---------------------------------------------------------------------------

  ghost function Spends(hash: string, nonce: nat, coin: string): Transaction {
    Transaction(hash, "s", nonce, [ObjectInput("v", true, false)], [coin], {}, Some(300))
  }

  ghost function Pays(hash: string, coin: string): Transaction {
    Transaction(hash, "t", 7, [], [coin], {}, Some(200))
  }

  lemma InstanceInRow(policy: Policy, a: Transaction, b: Transaction, c: Transaction)
    requires a == Spends("a", 1, "g") && b == Spends("b", 2, "h") && c == Pays("c", "g")
    ensures Queued(policy.laneAware, a, b) && InRow(policy.laneAware, c, a, b)
  {
    GasLaneIsSmall(a, "g");
    CompareTextIff(PrimaryKey(c), PrimaryKey(a));
    QueuedBefore(policy.laneAware, a, b);
  }

  /** Two calls on one vault, nonces 1 and 2, gas coins g and h; another transaction pays with g. */
  lemma SecondNonceFirst(policy: Policy, a: Transaction, b: Transaction, c: Transaction)
    requires a == Spends("a", 1, "g") && b == Spends("b", 2, "h") && c == Pays("c", "g")
    ensures Queued(policy.laneAware, a, b) && DagBatch(policy, [a, b, c]) == [c, b]
  {
    InstanceInRow(policy, a, b, c);
    SpendsKeys(policy, "a", 1, "g");
    SpendsKeys(policy, "b", 2, "h");
    PaysKeys(policy, "c", "g");
    ThirdOvertakes(policy, c, a, b);
    SamePoolRotated(a, b, c);
    DagBatchForgetsArrival(policy, [c, a, b], [a, b, c]);
  }

  lemma SamePoolRotated(a: Transaction, b: Transaction, c: Transaction)
    ensures SamePool([c, a, b], [a, b, c])
  {
    assert multiset([c, a, b]) == multiset{c, a, b} == multiset([a, b, c]);
  }

  lemma SpendsKeys(policy: Policy, hash: string, nonce: nat, coin: string)
    ensures ConflictKeys(policy, Spends(hash, nonce, coin)) == {ObjectKey("v"), ObjectKey(coin)}
  {
    var tx := Spends(hash, nonce, coin);
    assert tx.inputs[0].id == "v" && tx.payment[0] == coin;
    assert ObjectKeys(tx) == {ObjectKey("v"), ObjectKey(coin)};
  }

  lemma PaysKeys(policy: Policy, hash: string, coin: string)
    ensures ConflictKeys(policy, Pays(hash, coin)) == {ObjectKey(coin)}
  {
    var tx := Pays(hash, coin);
    assert tx.payment[0] == coin;
    assert ObjectKeys(tx) == {ObjectKey(coin)};
  }
}
