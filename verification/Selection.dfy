/**
 Choosing a batch of pending transactions: a canonical order, a greedy pick of
 transactions with disjoint conflict keys, and the count, byte and hot-object caps
 of a DAG vertex.

 Address normalisation and the environment switches are parameters (`Policy`);
 strings compare character by character.
 */
module Selection {
  import opened Prelude

  const MAX_DAG_VERTEX_TRANSACTIONS: nat := 512
  const MAX_DAG_VERTEX_TRANSACTION_BYTES: nat := 350 * 1024

  datatype Policy = Policy(normalize: string -> string, laneAware: bool, hotObjectCap: nat, fastPathCap: nat)

  datatype ObjectInput = ObjectInput(id: string, mutable: bool, shared: bool)

  /** `extraKeys` are the module names published and the objects named in native call arguments. */
  datatype Transaction = Transaction(
    hash: string,
    sender: string,
    nonce: nat,
    inputs: seq<ObjectInput>,
    payment: seq<string>,
    extraKeys: set<ConflictKey>,
    size: Option<nat>)   // serialized size, None when serialization fails

  datatype ConflictKey = ObjectKey(id: string) | OwnerKey(owner: string) | ModuleKey(name: string)

  // ---------------------------------------------------------------------------
  // Keys
  // ---------------------------------------------------------------------------

  function ObjectKeys(tx: Transaction): set<ConflictKey> {
    (set i | 0 <= i < |tx.inputs| :: ObjectKey(tx.inputs[i].id))
    + (set i | 0 <= i < |tx.payment| :: ObjectKey(tx.payment[i]))
  }

  function ConflictKeys(policy: Policy, tx: Transaction): set<ConflictKey> {
    (if ObjectKeys(tx) != {} then ObjectKeys(tx) else {OwnerKey(policy.normalize(tx.sender))}) + tx.extraKeys
  }

  /** The object is an input, mutable or not, or a gas coin. */
  ghost predicate Names(tx: Transaction, id: string) {
    || (exists i :: 0 <= i < |tx.inputs| && tx.inputs[i].id == id)
    || (exists i :: 0 <= i < |tx.payment| && tx.payment[i] == id)
  }

  /** Two transactions clash over an object both name, over their sender if neither names any, or over an extra key. */
  lemma ClashIff(policy: Policy, a: Transaction, b: Transaction)
    ensures !(ConflictKeys(policy, a) !! ConflictKeys(policy, b)) <==>
            exists key :: HeldBy(policy, a, key) && HeldBy(policy, b, key)
  {
    forall key ensures key in ConflictKeys(policy, a) <==> HeldBy(policy, a, key) {
      HeldIff(policy, a, key);
    }
    forall key ensures key in ConflictKeys(policy, b) <==> HeldBy(policy, b, key) {
      HeldIff(policy, b, key);
    }
  }

  ghost predicate HeldBy(policy: Policy, tx: Transaction, key: ConflictKey) {
    || key in tx.extraKeys
    || (key.ObjectKey? && Names(tx, key.id))
    || (key == OwnerKey(policy.normalize(tx.sender)) && tx.inputs == [] && tx.payment == [])
  }

  lemma HeldIff(policy: Policy, tx: Transaction, key: ConflictKey)
    ensures key in ConflictKeys(policy, tx) <==> HeldBy(policy, tx, key)
  {
    if tx.inputs != [] {
      assert ObjectKey(tx.inputs[0].id) in ObjectKeys(tx);
    } else if tx.payment != [] {
      assert ObjectKey(tx.payment[0]) in ObjectKeys(tx);
    } else {
      assert ObjectKeys(tx) == {};
    }
  }

  /** The first mutable input, or the number of inputs. */
  function FirstMutable(inputs: seq<ObjectInput>): (i: nat)
    ensures i <= |inputs| && (i < |inputs| ==> inputs[i].mutable)
    ensures forall k :: 0 <= k < i ==> !inputs[k].mutable
  {
    if inputs == [] then 0 else if inputs[0].mutable then 0 else 1 + FirstMutable(inputs[1..])
  }

  /** The lane a transaction queues in. */
  function PrimaryKey(tx: Transaction): string {
    var i := FirstMutable(tx.inputs);
    if i < |tx.inputs| then "mut:object:" + tx.inputs[i].id
    else if tx.inputs != [] then (if tx.inputs[0].mutable then "mut" else "ro") + ":object:" + tx.inputs[0].id
    else if tx.payment != [] then "mut:gas:" + tx.payment[0]
    else "owner:" + tx.sender
  }

  /** The lane names the first mutable input, else the first input, else the first gas coin, else the sender. */
  lemma LaneNames(tx: Transaction, i: nat)
    ensures i < |tx.inputs| && tx.inputs[i].mutable && (forall k :: 0 <= k < i ==> !tx.inputs[k].mutable) ==>
              PrimaryKey(tx) == "mut:object:" + tx.inputs[i].id
    ensures tx.inputs != [] && (forall k :: 0 <= k < |tx.inputs| ==> !tx.inputs[k].mutable) ==>
              PrimaryKey(tx) == "ro:object:" + tx.inputs[0].id
    ensures tx.inputs == [] ==>
              PrimaryKey(tx) == if tx.payment != [] then "mut:gas:" + tx.payment[0] else "owner:" + tx.sender
  {
    var first := FirstMutable(tx.inputs);
    assert first < |tx.inputs| ==> tx.inputs[first].mutable;
  }

  /** Transactions in one lane always clash. */
  lemma SameLaneClashes(policy: Policy, a: Transaction, b: Transaction)
    requires PrimaryKey(a) == PrimaryKey(b)
    ensures !(ConflictKeys(policy, a) !! ConflictKeys(policy, b))
  {
    var ka, kb := LaneKey(policy, a), LaneKey(policy, b);
    LaneKeyIsAConflictKey(policy, a);
    LaneKeyIsAConflictKey(policy, b);
    LaneKeyFromText(policy, a);
    LaneKeyFromText(policy, b);
    assert ka == kb;
  }

  /** The conflict key behind the lane. */
  function LaneKey(policy: Policy, tx: Transaction): ConflictKey {
    var i := FirstMutable(tx.inputs);
    if i < |tx.inputs| then ObjectKey(tx.inputs[i].id)
    else if tx.inputs != [] then ObjectKey(tx.inputs[0].id)
    else if tx.payment != [] then ObjectKey(tx.payment[0])
    else OwnerKey(policy.normalize(tx.sender))
  }

  lemma LaneKeyIsAConflictKey(policy: Policy, tx: Transaction)
    ensures LaneKey(policy, tx) in ConflictKeys(policy, tx)
  {
    if tx.inputs != [] || tx.payment != [] {
      assert LaneKey(policy, tx) in ObjectKeys(tx);
    } else {
      assert ObjectKeys(tx) == {};
    }
  }

  /** Reads the lane key back from the lane's text. */
  function KeyOfText(policy: Policy, text: string): ConflictKey {
    if |text| >= 6 && text[0] == 'o' then OwnerKey(policy.normalize(text[6..]))
    else if |text| >= 10 && text[0] == 'r' then ObjectKey(text[10..])
    else if |text| >= 8 && text[4] == 'g' then ObjectKey(text[8..])
    else ObjectKey(if |text| >= 11 then text[11..] else "")
  }

  lemma LaneKeyFromText(policy: Policy, tx: Transaction)
    ensures KeyOfText(policy, PrimaryKey(tx)) == LaneKey(policy, tx)
  {
    var text := PrimaryKey(tx);
    var i := FirstMutable(tx.inputs);
    if i < |tx.inputs| {
      assert text[11..] == tx.inputs[i].id;
    } else if tx.inputs != [] {
      assert text == "ro:object:" + tx.inputs[0].id;
      assert text[10..] == tx.inputs[0].id;
    } else if tx.payment != [] {
      assert text[8..] == tx.payment[0];
    } else {
      assert text[6..] == tx.sender;
    }
  }

  // ---------------------------------------------------------------------------
  // The canonical order
  // ---------------------------------------------------------------------------

  datatype Ordering = Less | Equal | Greater

  function Then(first: Ordering, second: Ordering): Ordering {
    if first.Equal? then second else first
  }

  function CompareText(a: string, b: string): Ordering {
    if a == [] then (if b == [] then Equal else Less)
    else if b == [] then Greater
    else if a[0] < b[0] then Less
    else if b[0] < a[0] then Greater
    else CompareText(a[1..], b[1..])
  }

  function CompareNat(a: nat, b: nat): Ordering {
    if a < b then Less else if a == b then Equal else Greater
  }

  function LaneRank(tx: Transaction): nat {
    if exists i :: 0 <= i < |tx.inputs| && tx.inputs[i].shared then 2
    else if tx.inputs == [] then 0
    else 1
  }

  function Compare(laneAware: bool, a: Transaction, b: Transaction): Ordering {
    Then(if laneAware then CompareNat(LaneRank(a), LaneRank(b)) else Equal,
    Then(CompareText(PrimaryKey(a), PrimaryKey(b)),
    Then(CompareText(a.sender, b.sender),
    Then(CompareNat(a.nonce, b.nonce),
         CompareText(a.hash, b.hash)))))
  }

  lemma {:induction false} TextOrder(a: string, b: string)
    ensures CompareText(a, b).Equal? <==> a == b
    ensures CompareText(a, b).Less? <==> CompareText(b, a).Greater?
  {
    if a != [] && b != [] {
      TextOrder(a[1..], b[1..]);
      assert a == [a[0]] + a[1..] && b == [b[0]] + b[1..];
    }
  }

  lemma {:induction false} TextTransitive(a: string, b: string, c: string)
    requires CompareText(a, b).Less? && CompareText(b, c).Less?
    ensures CompareText(a, c).Less?
    decreases |a|
  {
    if a != [] && b != [] && c != [] && a[0] == b[0] == c[0] {
      TextTransitive(a[1..], b[1..], c[1..]);
    }
  }

  predicate Before(laneAware: bool, a: Transaction, b: Transaction) {
    Compare(laneAware, a, b).Less?
  }

  lemma BeforeIsTotal(laneAware: bool, a: Transaction, b: Transaction)
    ensures a.hash != b.hash ==> Before(laneAware, a, b) || Before(laneAware, b, a)
    ensures !(Before(laneAware, a, b) && Before(laneAware, b, a))
  {
    TextOrder(PrimaryKey(a), PrimaryKey(b));
    TextOrder(PrimaryKey(b), PrimaryKey(a));
    TextOrder(a.sender, b.sender);
    TextOrder(b.sender, a.sender);
    TextOrder(a.hash, b.hash);
    TextOrder(b.hash, a.hash);
  }

  lemma BeforeIsTransitive(laneAware: bool, a: Transaction, b: Transaction, c: Transaction)
    requires Before(laneAware, a, b) && Before(laneAware, b, c)
    ensures Before(laneAware, a, c)
  {
    TextChain(PrimaryKey(a), PrimaryKey(b), PrimaryKey(c));
    TextChain(a.sender, b.sender, c.sender);
    TextChain(a.hash, b.hash, c.hash);
  }

  lemma TextChain(a: string, b: string, c: string)
    ensures CompareText(a, b).Equal? <==> a == b
    ensures CompareText(b, c).Equal? <==> b == c
    ensures CompareText(a, b).Less? && CompareText(b, c).Less? ==> CompareText(a, c).Less?
    ensures a == b ==> CompareText(a, c) == CompareText(b, c)
  {
    TextOrder(a, b);
    TextOrder(b, c);
    if CompareText(a, b).Less? && CompareText(b, c).Less? {
      TextTransitive(a, b, c);
    }
  }

  /** The texts agree up to `k`, where the first one ends or has the smaller character. */
  ghost predicate DifferAt(a: string, b: string, k: nat) {
    k <= |a| && k < |b| && a[..k] == b[..k] && (k == |a| || a[k] < b[k])
  }

  /** The order of texts. */
  ghost predicate TextLess(a: string, b: string) {
    exists k: nat :: DifferAt(a, b, k)
  }

  lemma DifferFirst(a: string, b: string, k: nat)
    requires DifferAt(a, b, k)
    ensures k > 0 ==> a != [] && b != [] && a[0] == b[0]
  {
    if k > 0 {
      assert a[..k][0] == a[0] && b[..k][0] == b[0];
    }
  }

  lemma DifferLater(a: string, b: string, k: nat)
    requires a != [] && b != [] && a[0] == b[0]
    ensures DifferAt(a, b, k + 1) <==> DifferAt(a[1..], b[1..], k)
  {
    if k < |a| && k < |b| - 1 {
      assert a[..k + 1] == [a[0]] + a[1..][..k] && b[..k + 1] == [b[0]] + b[1..][..k];
      assert a[1..][..k] == a[..k + 1][1..] && b[1..][..k] == b[..k + 1][1..];
    }
  }

  lemma {:induction false} CompareTextIff(a: string, b: string)
    ensures CompareText(a, b).Less? <==> TextLess(a, b)
  {
    if a == [] || b == [] || a[0] != b[0] {
      assert DifferAt(a, b, 0) <==> CompareText(a, b).Less?;
      forall k: nat | DifferAt(a, b, k) ensures k == 0 {
        DifferFirst(a, b, k);
      }
    } else {
      CompareTextIff(a[1..], b[1..]);
      if k: nat :| DifferAt(a[1..], b[1..], k) {
        DifferLater(a, b, k);
      }
      if k: nat :| DifferAt(a, b, k) {
        DifferLater(a, b, k - 1);
      }
    }
  }

  /** Without inputs, then with owned inputs only, then with a shared input. */
  ghost predicate EarlierRank(a: Transaction, b: Transaction) {
    var sharedA := exists i :: 0 <= i < |a.inputs| && a.inputs[i].shared;
    var sharedB := exists i :: 0 <= i < |b.inputs| && b.inputs[i].shared;
    (a.inputs == [] && b.inputs != []) || (!sharedA && sharedB)
  }

  /** The canonical order: the lane's rank if it counts, the lane, the sender, the nonce, the hash. */
  ghost predicate Precedes(laneAware: bool, a: Transaction, b: Transaction) {
    || (laneAware && EarlierRank(a, b))
    || ((laneAware ==> !EarlierRank(a, b) && !EarlierRank(b, a))
        && (|| TextLess(PrimaryKey(a), PrimaryKey(b))
            || (PrimaryKey(a) == PrimaryKey(b)
                && (|| TextLess(a.sender, b.sender)
                    || (a.sender == b.sender
                        && (a.nonce < b.nonce || (a.nonce == b.nonce && TextLess(a.hash, b.hash))))))))
  }

  lemma BeforeIff(laneAware: bool, a: Transaction, b: Transaction)
    ensures Before(laneAware, a, b) <==> Precedes(laneAware, a, b)
  {
    RankIff(a, b);
    RankIff(b, a);
    TextOrder(PrimaryKey(a), PrimaryKey(b));
    CompareTextIff(PrimaryKey(a), PrimaryKey(b));
    TextOrder(a.sender, b.sender);
    CompareTextIff(a.sender, b.sender);
    CompareTextIff(a.hash, b.hash);
  }

  lemma RankIff(a: Transaction, b: Transaction)
    ensures LaneRank(a) < LaneRank(b) <==> EarlierRank(a, b)
  {
  }

  // ---------------------------------------------------------------------------
  // Sorting
  // ---------------------------------------------------------------------------

  ghost predicate Sorted(laneAware: bool, s: seq<Transaction>) {
    forall i, j :: 0 <= i < j < |s| ==> Before(laneAware, s[i], s[j])
  }

  ghost predicate DistinctHashes(s: seq<Transaction>) {
    forall i, j :: 0 <= i < j < |s| ==> s[i].hash != s[j].hash
  }

  function Insert(laneAware: bool, x: Transaction, s: seq<Transaction>): (r: seq<Transaction>)
    ensures multiset(r) == multiset(s) + multiset{x}
  {
    if s == [] then [x]
    else if Before(laneAware, x, s[0]) then [x] + s
    else
      assert s == [s[0]] + s[1..];
      [s[0]] + Insert(laneAware, x, s[1..])
  }

  /** The pool in canonical order. */
  function Sort(laneAware: bool, s: seq<Transaction>): (r: seq<Transaction>)
    ensures multiset(r) == multiset(s)
  {
    if s == [] then []
    else
      assert s == [s[0]] + s[1..];
      Insert(laneAware, s[0], Sort(laneAware, s[1..]))
  }

  lemma MemberIn(s: seq<Transaction>, t: seq<Transaction>, x: Transaction)
    requires multiset(s) == multiset(t)
    ensures x in s <==> x in t
  {
    assert x in multiset(s) <==> x in multiset(t);
  }

  /** No transaction is behind one it comes before; equal ones may be neighbours. */
  ghost predicate InOrder(laneAware: bool, s: seq<Transaction>) {
    forall i, j :: 0 <= i < j < |s| ==> !Before(laneAware, s[j], s[i])
  }

  lemma {:induction false} InsertInOrder(laneAware: bool, x: Transaction, s: seq<Transaction>)
    requires InOrder(laneAware, s)
    ensures InOrder(laneAware, Insert(laneAware, x, s))
  {
    if s != [] {
      if Before(laneAware, x, s[0]) {
        forall i | 0 <= i < |s|
          ensures !Before(laneAware, s[i], x)
        {
          if Before(laneAware, s[i], x) {
            BeforeIsTransitive(laneAware, s[i], x, s[0]);
            BeforeIsTotal(laneAware, s[0], s[0]);
          }
        }
      } else {
        InsertInOrder(laneAware, x, s[1..]);
        var rest := Insert(laneAware, x, s[1..]);
        forall i | 0 <= i < |rest|
          ensures !Before(laneAware, rest[i], s[0])
        {
          assert rest[i] in multiset(s[1..]) + multiset{x};
          if rest[i] != x {
            assert rest[i] in s[1..];
          }
        }
      }
    }
  }

  lemma {:induction false} SortInOrder(laneAware: bool, s: seq<Transaction>)
    ensures InOrder(laneAware, Sort(laneAware, s))
  {
    if s != [] {
      SortInOrder(laneAware, s[1..]);
      InsertInOrder(laneAware, s[0], Sort(laneAware, s[1..]));
    }
  }

  lemma SortedHead(laneAware: bool, s: seq<Transaction>, t: seq<Transaction>)
    requires Sorted(laneAware, s) && Sorted(laneAware, t) && multiset(s) == multiset(t) && s != [] && t != []
    ensures s[0] == t[0]
  {
    MemberIn(s, t, s[0]);
    MemberIn(s, t, t[0]);
    var i :| 0 <= i < |t| && t[i] == s[0];
    var j :| 0 <= j < |s| && s[j] == t[0];
    BeforeIsTotal(laneAware, s[0], t[0]);
  }

  /** Only one arrangement of the pool is sorted. */
  lemma {:induction false} SortedIsUnique(laneAware: bool, s: seq<Transaction>, t: seq<Transaction>)
    requires Sorted(laneAware, s) && Sorted(laneAware, t) && multiset(s) == multiset(t)
    ensures s == t
  {
    assert |s| == |multiset(s)| == |multiset(t)| == |t|;
    if s != [] {
      SortedHead(laneAware, s, t);
      assert s == [s[0]] + s[1..] && t == [t[0]] + t[1..];
      assert multiset(s[1..]) == multiset(s) - multiset{s[0]};
      assert multiset(t[1..]) == multiset(t) - multiset{t[0]};
      SortedIsUnique(laneAware, s[1..], t[1..]);
    }
  }

  ghost predicate SamePool(p: seq<Transaction>, q: seq<Transaction>) {
    multiset(p) == multiset(q)
  }

  lemma {:induction false} DistinctHashesCount(p: seq<Transaction>, x: Transaction)
    requires DistinctHashes(p)
    ensures multiset(p)[x] <= 1
  {
    if p != [] {
      assert p == [p[0]] + p[1..];
      DistinctHashesCount(p[1..], x);
      assert forall k :: 0 <= k < |p[1..]| ==> p[1..][k].hash != p[0].hash;
      assert p[0] !in p[1..];
    }
  }

  lemma DistinctHashesTransfer(p: seq<Transaction>, q: seq<Transaction>)
    requires SamePool(p, q) && DistinctHashes(p)
    ensures DistinctHashes(q)
  {
    forall i, j | 0 <= i < j < |q|
      ensures q[i].hash != q[j].hash
    {
      MemberIn(p, q, q[i]);
      MemberIn(p, q, q[j]);
      var a :| 0 <= a < |p| && p[a] == q[i];
      var b :| 0 <= b < |p| && p[b] == q[j];
      if a == b {
        DistinctHashesCount(p, q[i]);
        TwiceInMultiset(q, i, j);
      } else if a < b {
        assert p[a].hash != p[b].hash;
      } else {
        assert p[b].hash != p[a].hash;
      }
    }
  }

  lemma TwiceInMultiset(q: seq<Transaction>, i: nat, j: nat)
    requires i < j < |q| && q[i] == q[j]
    ensures multiset(q)[q[i]] >= 2
  {
    assert q == q[..j] + [q[j]] + q[j + 1..];
    assert q[..j][i] == q[i];
    assert q[i] in multiset(q[..j]);
  }

  lemma SortIsSorted(laneAware: bool, s: seq<Transaction>)
    requires DistinctHashes(s)
    ensures Sorted(laneAware, Sort(laneAware, s))
  {
    var sorted := Sort(laneAware, s);
    SortInOrder(laneAware, s);
    DistinctHashesTransfer(s, sorted);
    forall i, j | 0 <= i < j < |sorted|
      ensures Before(laneAware, sorted[i], sorted[j])
    {
      BeforeIsTotal(laneAware, sorted[i], sorted[j]);
    }
  }

  lemma SortedByIndex(laneAware: bool, sorted: seq<Transaction>, i: nat, j: nat)
    requires Sorted(laneAware, sorted) && i < |sorted| && j < |sorted|
    ensures i < j <==> Before(laneAware, sorted[i], sorted[j])
  {
    BeforeIsTotal(laneAware, sorted[i], sorted[j]);
  }

  /** In the sorted pool one transaction is in front of another exactly when it precedes it. */
  lemma SortedByKey(laneAware: bool, s: seq<Transaction>, i: nat, j: nat)
    requires DistinctHashes(s) && i < |Sort(laneAware, s)| && j < |Sort(laneAware, s)|
    ensures i < j <==> Precedes(laneAware, Sort(laneAware, s)[i], Sort(laneAware, s)[j])
  {
    var sorted := Sort(laneAware, s);
    SortIsSorted(laneAware, s);
    SortedByIndex(laneAware, sorted, i, j);
    BeforeIff(laneAware, sorted[i], sorted[j]);
  }

  lemma SortForgetsArrival(laneAware: bool, p: seq<Transaction>, q: seq<Transaction>)
    requires SamePool(p, q) && DistinctHashes(p)
    ensures Sort(laneAware, p) == Sort(laneAware, q)
  {
    DistinctHashesTransfer(p, q);
    SortIsSorted(laneAware, p);
    SortIsSorted(laneAware, q);
    SortedIsUnique(laneAware, Sort(laneAware, p), Sort(laneAware, q));
  }

  // ---------------------------------------------------------------------------
  // The greedy pick
  // ---------------------------------------------------------------------------

  function KeysUnder(policy: Policy): Transaction -> set<ConflictKey> {
    tx => ConflictKeys(policy, tx)
  }

  /** Keeps each transaction whose keys are still free. */
  function Greedy(keys: Transaction -> set<ConflictKey>, txs: seq<Transaction>, reserved: set<ConflictKey>)
    : seq<Transaction>
  {
    if txs == [] then []
    else
      if keys(txs[0]) !! reserved then [txs[0]] + Greedy(keys, txs[1..], reserved + keys(txs[0]))
      else Greedy(keys, txs[1..], reserved)
  }

  method SelectConflictFree(policy: Policy, txs: seq<Transaction>) returns (selected: seq<Transaction>)
    ensures selected == Greedy(KeysUnder(policy), txs, {})
  {
    ghost var keysOf := KeysUnder(policy);
    selected := [];
    var reserved: set<ConflictKey> := {};
    for i := 0 to |txs|
      invariant Greedy(keysOf, txs, {}) == selected + Greedy(keysOf, txs[i..], reserved)
    {
      var keys := ConflictKeys(policy, txs[i]);
      assert txs[i..][1..] == txs[i + 1..];
      if keys !! reserved {
        reserved := reserved + keys;
        selected := selected + [txs[i]];
      }
    }
  }

  function Pick(txs: seq<Transaction>, indices: seq<nat>): (r: seq<Transaction>)
    requires forall k :: 0 <= k < |indices| ==> indices[k] < |txs|
    ensures |r| == |indices| && forall k :: 0 <= k < |indices| ==> r[k] == txs[indices[k]]
  {
    seq(|indices|, k requires 0 <= k < |indices| => txs[indices[k]])
  }

  ghost predicate Increasing(indices: seq<nat>, n: nat) {
    && (forall k :: 0 <= k < |indices| ==> indices[k] < n)
    && (forall j, k :: 0 <= j < k < |indices| ==> indices[j] < indices[k])
  }

  /** Transaction `i` was not chosen because an earlier chosen one holds one of its keys. */
  ghost predicate Blocked(keys: Transaction -> set<ConflictKey>, txs: seq<Transaction>, chosen: seq<nat>, i: nat)
    requires i < |txs| && Increasing(chosen, |txs|)
  {
    exists k :: 0 <= k < |chosen| && chosen[k] < i
      && !(keys(txs[chosen[k]]) !! keys(txs[i]))
  }

  ghost predicate GreedyChoice(keys: Transaction -> set<ConflictKey>, txs: seq<Transaction>, chosen: seq<nat>) {
    && Increasing(chosen, |txs|)
    && KeysDisjoint(keys, Pick(txs, chosen))
    && forall i :: 0 <= i < |txs| && i !in chosen ==> Blocked(keys, txs, chosen, i)
  }

  ghost function HeldKeys(keys: Transaction -> set<ConflictKey>, txs: seq<Transaction>): set<ConflictKey> {
    set i, key | 0 <= i < |txs| && key in keys(txs[i]) :: key
  }

  /** The choice made among the first `i` transactions, and the keys it holds. */
  ghost predicate ChosenUpTo(keys: Transaction -> set<ConflictKey>, txs: seq<Transaction>, chosen: seq<nat>,
                             reserved: set<ConflictKey>, i: nat)
  {
    && i <= |txs| && Increasing(chosen, i)
    && reserved == HeldKeys(keys, Pick(txs, chosen))
    && KeysDisjoint(keys, Pick(txs, chosen))
    && forall j :: 0 <= j < i && j !in chosen ==> Blocked(keys, txs, chosen, j)
  }

  lemma GreedyStep(keys: Transaction -> set<ConflictKey>, txs: seq<Transaction>, reserved: set<ConflictKey>, i: nat)
    requires i < |txs|
    ensures Greedy(keys, txs[i..], reserved)
            == if keys(txs[i]) !! reserved then [txs[i]] + Greedy(keys, txs[i + 1..], reserved + keys(txs[i]))
               else Greedy(keys, txs[i + 1..], reserved)
  {
    assert txs[i..][1..] == txs[i + 1..];
  }

  /** The choice so far and the pick from what is left make the goal. */
  ghost predicate Heading(keys: Transaction -> set<ConflictKey>, txs: seq<Transaction>, chosen: seq<nat>,
                          reserved: set<ConflictKey>, i: nat, goal: seq<Transaction>)
  {
    && ChosenUpTo(keys, txs, chosen, reserved, i)
    && goal == Pick(txs, chosen) + Greedy(keys, txs[i..], reserved)
  }

  lemma HeadingChosen(keys: Transaction -> set<ConflictKey>, txs: seq<Transaction>, chosen: seq<nat>,
                      reserved: set<ConflictKey>, i: nat, goal: seq<Transaction>)
    requires Heading(keys, txs, chosen, reserved, i, goal) && i < |txs| && keys(txs[i]) !! reserved
    ensures Heading(keys, txs, chosen + [i], reserved + keys(txs[i]), i + 1, goal)
  {
    GreedyStep(keys, txs, reserved, i);
    ChooseNext(keys, txs, chosen, reserved, i);
    Associate(Pick(txs, chosen), [txs[i]], Greedy(keys, txs[i + 1..], reserved + keys(txs[i])));
  }

  lemma HeadingSkipped(keys: Transaction -> set<ConflictKey>, txs: seq<Transaction>, chosen: seq<nat>,
                       reserved: set<ConflictKey>, i: nat, goal: seq<Transaction>)
    requires Heading(keys, txs, chosen, reserved, i, goal) && i < |txs| && !(keys(txs[i]) !! reserved)
    ensures Heading(keys, txs, chosen, reserved, i + 1, goal)
  {
    GreedyStep(keys, txs, reserved, i);
    SkipNext(keys, txs, chosen, reserved, i);
  }

  lemma {:induction false} GreedyFrom(keys: Transaction -> set<ConflictKey>, txs: seq<Transaction>, chosen: seq<nat>,
                                      reserved: set<ConflictKey>, i: nat, goal: seq<Transaction>)
    returns (all: seq<nat>)
    requires i <= |txs| && Heading(keys, txs, chosen, reserved, i, goal)
    ensures GreedyChoice(keys, txs, all) && goal == Pick(txs, all)
    decreases |txs| - i
  {
    if i == |txs| {
      all := chosen;
    } else if keys(txs[i]) !! reserved {
      HeadingChosen(keys, txs, chosen, reserved, i, goal);
      all := GreedyFrom(keys, txs, chosen + [i], reserved + keys(txs[i]), i + 1, goal);
    } else {
      HeadingSkipped(keys, txs, chosen, reserved, i, goal);
      all := GreedyFrom(keys, txs, chosen, reserved, i + 1, goal);
    }
  }

  /** The pick is a subsequence with disjoint keys in which every dropped transaction was blocked. */
  lemma GreedyIsMaximal(keys: Transaction -> set<ConflictKey>, txs: seq<Transaction>) returns (chosen: seq<nat>)
    ensures GreedyChoice(keys, txs, chosen)
    ensures Greedy(keys, txs, {}) == Pick(txs, chosen)
  {
    assert txs[0..] == txs;
    chosen := GreedyFrom(keys, txs, [], {}, 0, Greedy(keys, txs, {}));
  }

  lemma ChooseNext(keys: Transaction -> set<ConflictKey>, txs: seq<Transaction>, chosen: seq<nat>,
                   reserved: set<ConflictKey>, i: nat)
    requires i < |txs| && ChosenUpTo(keys, txs, chosen, reserved, i)
    requires keys(txs[i]) !! reserved
    ensures ChosenUpTo(keys, txs, chosen + [i], reserved + keys(txs[i]), i + 1)
    ensures Pick(txs, chosen + [i]) == Pick(txs, chosen) + [txs[i]]
  {
    var more := chosen + [i];
    assert forall k :: 0 <= k < |chosen| ==> more[k] == chosen[k];
    assert more[|chosen|] == i;
    assert Pick(txs, more) == Pick(txs, chosen) + [txs[i]];
    HeldKeysExtend(keys, Pick(txs, chosen), txs[i]);
    forall j | 0 <= j < i + 1 && j !in more
      ensures Blocked(keys, txs, more, j)
    {
      assert j != i && j !in chosen by { assert more[|chosen|] == i; }
      assert Blocked(keys, txs, chosen, j);
    }
  }

  lemma HeldKeysExtend(keys: Transaction -> set<ConflictKey>, txs: seq<Transaction>, tx: Transaction)
    requires KeysDisjoint(keys, txs) && keys(tx) !! HeldKeys(keys, txs)
    ensures HeldKeys(keys, txs + [tx]) == HeldKeys(keys, txs) + keys(tx)
    ensures KeysDisjoint(keys, txs + [tx])
  {
    var more := txs + [tx];
    assert more[|txs|] == tx && forall k :: 0 <= k < |txs| ==> more[k] == txs[k];
    forall key | key in HeldKeys(keys, txs)
      ensures key in HeldKeys(keys, more)
    {
      var k :| 0 <= k < |txs| && key in keys(txs[k]);
      assert more[k] == txs[k];
    }
    forall k | 0 <= k < |txs|
      ensures keys(txs[k]) !! keys(tx)
    {
      assert forall key :: key in keys(txs[k]) ==> key in HeldKeys(keys, txs);
    }
  }

  lemma SkipNext(keys: Transaction -> set<ConflictKey>, txs: seq<Transaction>, chosen: seq<nat>,
                 reserved: set<ConflictKey>, i: nat)
    requires i < |txs| && ChosenUpTo(keys, txs, chosen, reserved, i)
    requires !(keys(txs[i]) !! reserved)
    ensures ChosenUpTo(keys, txs, chosen, reserved, i + 1)
  {
    var key :| key in keys(txs[i]) && key in reserved;
    var k :| 0 <= k < |chosen| && key in keys(Pick(txs, chosen)[k]);
    assert chosen[k] < i && key in keys(txs[chosen[k]]);
    assert Blocked(keys, txs, chosen, i);
  }

  // ---------------------------------------------------------------------------
  // The DAG batch
  // ---------------------------------------------------------------------------

  predicate Fits(tx: Transaction, bytes: nat) {
    tx.size.Some? && bytes + tx.size.value <= MAX_DAG_VERTEX_TRANSACTION_BYTES
  }

  /** The longest front of the pick within the count and byte caps. */
  function TakeFitting(selected: seq<Transaction>, bytes: nat, count: nat): seq<Transaction> {
    if selected == [] || count >= MAX_DAG_VERTEX_TRANSACTIONS || !Fits(selected[0], bytes) then []
    else [selected[0]] + TakeFitting(selected[1..], bytes + selected[0].size.value, count + 1)
  }

  function DagBatch(policy: Policy, pool: seq<Transaction>): seq<Transaction> {
    TakeFitting(Greedy(KeysUnder(policy), Sort(policy.laneAware, pool), {}), 0, 0)
  }

  ghost predicate LanesDiffer(lane: Transaction -> string, selected: seq<Transaction>) {
    forall i, j :: 0 <= i < j < |selected| ==> lane(selected[i]) != lane(selected[j])
  }

  ghost predicate LaneSeen(lane: Transaction -> string, selected: seq<Transaction>, i: nat, text: string)
    requires i <= |selected|
  {
    exists j :: 0 <= j < i && lane(selected[j]) == text
  }

  function CountOf(counts: map<string, nat>, key: string): nat {
    if key in counts then counts[key] else 0
  }

  ghost predicate Filling(goal: seq<Transaction>, selected: seq<Transaction>, ready: seq<Transaction>, bytes: nat) {
    |ready| <= |selected| && goal == ready + TakeFitting(selected[|ready|..], bytes, |ready|)
  }

  lemma FillStep(goal: seq<Transaction>, selected: seq<Transaction>, ready: seq<Transaction>, bytes: nat)
    requires Filling(goal, selected, ready, bytes) && |ready| < |selected|
    ensures var tx := selected[|ready|];
            if |ready| >= MAX_DAG_VERTEX_TRANSACTIONS || !Fits(tx, bytes) then ready == goal
            else Filling(goal, selected, ready + [tx], bytes + tx.size.value)
  {
    var rest := selected[|ready|..];
    assert rest[1..] == selected[|ready| + 1..];
    if |ready| < MAX_DAG_VERTEX_TRANSACTIONS && Fits(rest[0], bytes) {
      var more := TakeFitting(rest[1..], bytes + rest[0].size.value, |ready| + 1);
      assert ready + ([rest[0]] + more) == (ready + [rest[0]]) + more;
    }
  }

  /** Only lanes met among the first `i` are counted. */
  ghost predicate CountsSeen(lane: Transaction -> string, selected: seq<Transaction>, i: nat, counts: map<string, nat>)
  {
    i <= |selected| && forall k :: k in counts ==> LaneSeen(lane, selected, i, k)
  }

  lemma CountLane(lane: Transaction -> string, selected: seq<Transaction>, i: nat, counts: map<string, nat>, n: nat)
    requires i < |selected| && CountsSeen(lane, selected, i, counts) && LanesDiffer(lane, selected)
    ensures CountOf(counts, lane(selected[i])) == 0
    ensures CountsSeen(lane, selected, i + 1, counts[lane(selected[i]) := n])
  {
    assert !LaneSeen(lane, selected, i, lane(selected[i]));
  }

  /**
   Fills a vertex from the pick. The hot-object counter never reaches its cap when
   no two picked transactions share a lane, so the batch is a front of the pick.
   */
  method FillVertex(lane: Transaction -> string, hotObjectCap: nat, selected: seq<Transaction>)
    returns (ready: seq<Transaction>)
    requires hotObjectCap > 0 && LanesDiffer(lane, selected)
    ensures ready == TakeFitting(selected, 0, 0)
  {
    ready := [];
    ghost var goal := TakeFitting(selected, 0, 0);
    var counts: map<string, nat> := map[];
    var bytes: nat := 0;
    assert selected[0..] == selected;
    for i := 0 to |selected|
      invariant |ready| == i && Filling(goal, selected, ready, bytes)
      invariant CountsSeen(lane, selected, i, counts)
    {
      FillStep(goal, selected, ready, bytes);
      if |ready| >= MAX_DAG_VERTEX_TRANSACTIONS {
        return;
      }
      var tx := selected[i];
      var key := lane(tx);
      CountLane(lane, selected, i, counts, 1);
      if CountOf(counts, key) >= hotObjectCap {
        continue;
      }
      if tx.size.None? || bytes + tx.size.value > MAX_DAG_VERTEX_TRANSACTION_BYTES {
        return;
      }
      bytes := bytes + tx.size.value;
      counts := counts[key := CountOf(counts, key) + 1];
      ready := ready + [tx];
    }
  }

  /** Disjoint conflict keys put every picked transaction in a lane of its own. */
  lemma PickedLanesDiffer(policy: Policy, selected: seq<Transaction>)
    requires KeysDisjoint(KeysUnder(policy), selected)
    ensures LanesDiffer(PrimaryKey, selected)
  {
    forall i, j | 0 <= i < j < |selected|
      ensures PrimaryKey(selected[i]) != PrimaryKey(selected[j])
    {
      assert KeysUnder(policy)(selected[i]) !! KeysUnder(policy)(selected[j]);
      if PrimaryKey(selected[i]) == PrimaryKey(selected[j]) {
        SameLaneClashes(policy, selected[i], selected[j]);
      }
    }
  }

  /** Two pools with the same transactions give the same batch, whatever order they arrived in. */
  lemma DagBatchForgetsArrival(policy: Policy, p: seq<Transaction>, q: seq<Transaction>)
    requires SamePool(p, q) && DistinctHashes(p)
    ensures DagBatch(policy, p) == DagBatch(policy, q)
  {
    SortForgetsArrival(policy.laneAware, p, q);
  }

  function Bytes(txs: seq<Transaction>): nat
    requires forall i :: 0 <= i < |txs| ==> txs[i].size.Some?
  {
    if txs == [] then 0 else txs[0].size.value + Bytes(txs[1..])
  }

  /** What the caps promise, and that a batch stops short only where a cap bites. */
  lemma {:induction false} FittingFront(selected: seq<Transaction>, bytes: nat, count: nat)
    ensures var r := TakeFitting(selected, bytes, count);
            && r <= selected
            && (forall i :: 0 <= i < |r| ==> r[i].size.Some?)
            && (count <= MAX_DAG_VERTEX_TRANSACTIONS ==> count + |r| <= MAX_DAG_VERTEX_TRANSACTIONS)
            && (bytes <= MAX_DAG_VERTEX_TRANSACTION_BYTES ==> bytes + Bytes(r) <= MAX_DAG_VERTEX_TRANSACTION_BYTES)
            && (|r| < |selected| ==>
                  count + |r| >= MAX_DAG_VERTEX_TRANSACTIONS || !Fits(selected[|r|], bytes + Bytes(r)))
    decreases selected
  {
    if !(selected == [] || count >= MAX_DAG_VERTEX_TRANSACTIONS || !Fits(selected[0], bytes)) {
      FittingFront(selected[1..], bytes + selected[0].size.value, count + 1);
      var rest := TakeFitting(selected[1..], bytes + selected[0].size.value, count + 1);
      assert TakeFitting(selected, bytes, count)[1..] == rest;
    }
  }

  /**
   The batch is empty exactly when the pool is, or when the first transaction in
   canonical order does not fit a vertex on its own: nothing behind it is tried.
   */
  lemma DagBatchEmptyIff(policy: Policy, pool: seq<Transaction>)
    ensures DagBatch(policy, pool) == []
            <==> pool == [] || !Fits(Sort(policy.laneAware, pool)[0], 0)
  {
    var sorted := Sort(policy.laneAware, pool);
    assert |sorted| == |multiset(sorted)| == |pool|;
  }

  // ---------------------------------------------------------------------------
  // The batch without the algorithm
  // ---------------------------------------------------------------------------

  predicate Clashes(policy: Policy, a: Transaction, b: Transaction) {
    !(ConflictKeys(policy, a) !! ConflictKeys(policy, b))
  }

  /** Transactions of the pool in order, without clashes and within the caps. */
  ghost predicate ProperBatch(policy: Policy, pool: seq<Transaction>, batch: seq<Transaction>) {
    && (forall i :: 0 <= i < |batch| ==> batch[i] in pool && batch[i].size.Some?)
    && (forall i, j :: 0 <= i < j < |batch| ==> Precedes(policy.laneAware, batch[i], batch[j]))
    && (forall i, j :: 0 <= i < j < |batch| ==> !Clashes(policy, batch[i], batch[j]))
    && |batch| <= MAX_DAG_VERTEX_TRANSACTIONS && Bytes(batch) <= MAX_DAG_VERTEX_TRANSACTION_BYTES
  }

  /** A transaction of the batch that comes before this one and clashes with it. */
  ghost predicate KeptOut(policy: Policy, batch: seq<Transaction>, x: Transaction) {
    exists k :: 0 <= k < |batch| && Precedes(policy.laneAware, batch[k], x) && Clashes(policy, batch[k], x)
  }

  /** A transaction behind the whole batch, clashing with none of it, for which a cap leaves no room. */
  ghost predicate NoMoreRoom(policy: Policy, pool: seq<Transaction>, batch: seq<Transaction>, y: Transaction)
    requires forall i :: 0 <= i < |batch| ==> batch[i].size.Some?
  {
    && y in pool
    && (forall k :: 0 <= k < |batch| ==> Precedes(policy.laneAware, batch[k], y) && !Clashes(policy, batch[k], y))
    && (|batch| == MAX_DAG_VERTEX_TRANSACTIONS || !Fits(y, Bytes(batch)))
  }

  ghost predicate EndedBefore(policy: Policy, pool: seq<Transaction>, batch: seq<Transaction>, x: Transaction)
    requires forall i :: 0 <= i < |batch| ==> batch[i].size.Some?
  {
    exists y :: NoMoreRoom(policy, pool, batch, y) && (y == x || Precedes(policy.laneAware, y, x))
  }

  /** A proper batch; whoever is left out was kept out by it, or is at or behind where a cap ended it. */
  ghost predicate Canonical(policy: Policy, pool: seq<Transaction>, batch: seq<Transaction>) {
    && ProperBatch(policy, pool, batch)
    && forall x :: x in pool && x !in batch ==>
         KeptOut(policy, batch, x) || EndedBefore(policy, pool, batch, x)
  }

  /** How the batch sits in the sorted pool: a front of the chosen positions. */
  ghost predicate FrontOf(policy: Policy, sorted: seq<Transaction>, chosen: seq<nat>, batch: seq<Transaction>) {
    && Sorted(policy.laneAware, sorted) && GreedyChoice(KeysUnder(policy), sorted, chosen)
    && |batch| <= |chosen| && forall k :: 0 <= k < |batch| ==> batch[k] == sorted[chosen[k]]
  }

  lemma SortedPrecedes(policy: Policy, sorted: seq<Transaction>, i: nat, j: nat)
    requires Sorted(policy.laneAware, sorted) && i < j < |sorted|
    ensures Precedes(policy.laneAware, sorted[i], sorted[j])
  {
    BeforeIff(policy.laneAware, sorted[i], sorted[j]);
  }

  lemma ChosenApart(policy: Policy, sorted: seq<Transaction>, chosen: seq<nat>, i: nat, j: nat)
    requires GreedyChoice(KeysUnder(policy), sorted, chosen) && i < j < |chosen|
    ensures !Clashes(policy, sorted[chosen[i]], sorted[chosen[j]])
  {
    var picked := Pick(sorted, chosen);
    assert KeysUnder(policy)(picked[i]) !! KeysUnder(policy)(picked[j]);
  }

  lemma FrontIsProper(policy: Policy, pool: seq<Transaction>, sorted: seq<Transaction>, chosen: seq<nat>,
                      batch: seq<Transaction>)
    requires FrontOf(policy, sorted, chosen, batch) && multiset(sorted) == multiset(pool)
    requires forall i :: 0 <= i < |batch| ==> batch[i].size.Some?
    requires |batch| <= MAX_DAG_VERTEX_TRANSACTIONS && Bytes(batch) <= MAX_DAG_VERTEX_TRANSACTION_BYTES
    ensures ProperBatch(policy, pool, batch)
  {
    forall i | 0 <= i < |batch| ensures batch[i] in pool {
      MemberIn(sorted, pool, batch[i]);
    }
    forall i, j | 0 <= i < j < |batch|
      ensures Precedes(policy.laneAware, batch[i], batch[j]) && !Clashes(policy, batch[i], batch[j])
    {
      SortedPrecedes(policy, sorted, chosen[i], chosen[j]);
      ChosenApart(policy, sorted, chosen, i, j);
    }
  }

  /** The first chosen transaction that the batch does not hold. */
  lemma NextHasNoRoom(policy: Policy, pool: seq<Transaction>, sorted: seq<Transaction>, chosen: seq<nat>,
                      batch: seq<Transaction>)
    requires FrontOf(policy, sorted, chosen, batch) && multiset(sorted) == multiset(pool) && |batch| < |chosen|
    requires forall i :: 0 <= i < |batch| ==> batch[i].size.Some?
    requires |batch| == MAX_DAG_VERTEX_TRANSACTIONS || !Fits(sorted[chosen[|batch|]], Bytes(batch))
    ensures NoMoreRoom(policy, pool, batch, sorted[chosen[|batch|]])
  {
    var n := |batch|;
    MemberIn(sorted, pool, sorted[chosen[n]]);
    forall k | 0 <= k < n
      ensures Precedes(policy.laneAware, batch[k], sorted[chosen[n]]) && !Clashes(policy, batch[k], sorted[chosen[n]])
    {
      SortedPrecedes(policy, sorted, chosen[k], chosen[n]);
      ChosenApart(policy, sorted, chosen, k, n);
    }
  }

  /** A transaction that the batch does not hold: kept out by it, or not before the first one left out. */
  lemma LeftOut(policy: Policy, sorted: seq<Transaction>, chosen: seq<nat>, batch: seq<Transaction>, i: nat)
    requires FrontOf(policy, sorted, chosen, batch) && i < |sorted| && sorted[i] !in batch
    ensures KeptOut(policy, batch, sorted[i]) || (|batch| < |chosen| && chosen[|batch|] <= i)
  {
    if i in chosen {
      assert forall m :: 0 <= m < |batch| ==> batch[m] == sorted[chosen[m]] && batch[m] != sorted[i];
      var k :| 0 <= k < |chosen| && chosen[k] == i;
    } else {
      BlockedIsLeftOut(policy, sorted, chosen, batch, i);
    }
  }

  lemma BlockedIsLeftOut(policy: Policy, sorted: seq<Transaction>, chosen: seq<nat>, batch: seq<Transaction>, i: nat)
    requires FrontOf(policy, sorted, chosen, batch) && i < |sorted| && Blocked(KeysUnder(policy), sorted, chosen, i)
    ensures KeptOut(policy, batch, sorted[i]) || (|batch| < |chosen| && chosen[|batch|] <= i)
  {
    var keys := KeysUnder(policy);
    var k :| 0 <= k < |chosen| && chosen[k] < i && !(keys(sorted[chosen[k]]) !! keys(sorted[i]));
    if k < |batch| {
      SortedPrecedes(policy, sorted, chosen[k], i);
      assert Clashes(policy, batch[k], sorted[i]);
    }
  }

  lemma DagBatchIsFrontOf(policy: Policy, pool: seq<Transaction>) returns (chosen: seq<nat>)
    requires DistinctHashes(pool)
    ensures var sorted, batch := Sort(policy.laneAware, pool), DagBatch(policy, pool);
            && FrontOf(policy, sorted, chosen, batch)
            && (forall i :: 0 <= i < |batch| ==> batch[i].size.Some?)
            && |batch| <= MAX_DAG_VERTEX_TRANSACTIONS && Bytes(batch) <= MAX_DAG_VERTEX_TRANSACTION_BYTES
            && (|batch| < |chosen| ==>
                  |batch| == MAX_DAG_VERTEX_TRANSACTIONS || !Fits(sorted[chosen[|batch|]], Bytes(batch)))
  {
    var sorted := Sort(policy.laneAware, pool);
    SortIsSorted(policy.laneAware, pool);
    chosen := GreedyIsMaximal(KeysUnder(policy), sorted);
    FrontFits(sorted, chosen, DagBatch(policy, pool));
  }

  lemma FrontFits(sorted: seq<Transaction>, chosen: seq<nat>, batch: seq<Transaction>)
    requires Increasing(chosen, |sorted|) && batch == TakeFitting(Pick(sorted, chosen), 0, 0)
    ensures |batch| <= |chosen| && forall k :: 0 <= k < |batch| ==> batch[k] == sorted[chosen[k]]
    ensures forall i :: 0 <= i < |batch| ==> batch[i].size.Some?
    ensures |batch| <= MAX_DAG_VERTEX_TRANSACTIONS && Bytes(batch) <= MAX_DAG_VERTEX_TRANSACTION_BYTES
    ensures |batch| < |chosen| ==>
              |batch| == MAX_DAG_VERTEX_TRANSACTIONS || !Fits(sorted[chosen[|batch|]], Bytes(batch))
  {
    FittingFront(Pick(sorted, chosen), 0, 0);
    FrontAt(batch, Pick(sorted, chosen));
  }

  lemma FrontAt(front: seq<Transaction>, all: seq<Transaction>)
    requires front <= all
    ensures |front| <= |all| && forall k :: 0 <= k < |front| ==> front[k] == all[k]
  {
  }

  lemma DagBatchIsCanonical(policy: Policy, pool: seq<Transaction>)
    requires DistinctHashes(pool)
    ensures Canonical(policy, pool, DagBatch(policy, pool))
  {
    var sorted, batch := Sort(policy.laneAware, pool), DagBatch(policy, pool);
    var chosen := DagBatchIsFrontOf(policy, pool);
    FrontIsProper(policy, pool, sorted, chosen, batch);
    forall x | x in pool && x !in batch
      ensures KeptOut(policy, batch, x) || EndedBefore(policy, pool, batch, x)
    {
      MemberIn(sorted, pool, x);
      var i :| 0 <= i < |sorted| && sorted[i] == x;
      LeftOut(policy, sorted, chosen, batch, i);
      if !KeptOut(policy, batch, x) {
        NextHasNoRoom(policy, pool, sorted, chosen, batch);
        if chosen[|batch|] < i {
          SortedPrecedes(policy, sorted, chosen[|batch|], i);
        }
      }
    }
  }

  /** The transactions of the next DAG vertex: the one canonical batch of the pool. */
  method PendingDagBatch(policy: Policy, pool: seq<Transaction>) returns (ready: seq<Transaction>)
    requires policy.hotObjectCap > 0
    ensures ready == DagBatch(policy, pool)
    ensures DistinctHashes(pool) ==> Canonical(policy, pool, ready)
  {
    if DistinctHashes(pool) {
      DagBatchIsCanonical(policy, pool);
    }
    if pool == [] {
      return [];
    }
    var sorted := Sort(policy.laneAware, pool);
    var selected := SelectConflictFree(policy, sorted);
    ghost var chosen := GreedyIsMaximal(KeysUnder(policy), sorted);
    PickedLanesDiffer(policy, selected);
    ready := FillVertex(PrimaryKey, policy.hotObjectCap, selected);
  }

  // ---------------------------------------------------------------------------
  // The owned fast path
  // ---------------------------------------------------------------------------

  predicate OwnedOnly(tx: Transaction) {
    forall i :: 0 <= i < |tx.inputs| ==> !tx.inputs[i].shared
  }

  function Filter(keep: Transaction -> bool, s: seq<Transaction>): seq<Transaction> {
    if s == [] then [] else (if keep(s[0]) then [s[0]] else []) + Filter(keep, s[1..])
  }

  function FastPathBatch(policy: Policy, pool: seq<Transaction>): seq<Transaction> {
    var picked := Greedy(KeysUnder(policy), Sort(false, Filter(OwnedOnly, pool)), {});
    if |picked| <= policy.fastPathCap then picked else picked[..policy.fastPathCap]
  }

  lemma {:induction false} FilterCounts(keep: Transaction -> bool, s: seq<Transaction>, x: Transaction)
    ensures multiset(Filter(keep, s))[x] == if keep(x) then multiset(s)[x] else 0
  {
    if s != [] {
      FilterCounts(keep, s[1..], x);
      assert s == [s[0]] + s[1..];
    }
  }

  lemma FilterKeepsPool(keep: Transaction -> bool, p: seq<Transaction>, q: seq<Transaction>)
    requires SamePool(p, q)
    ensures SamePool(Filter(keep, p), Filter(keep, q))
  {
    forall x
      ensures multiset(Filter(keep, p))[x] == multiset(Filter(keep, q))[x]
    {
      FilterCounts(keep, p, x);
      FilterCounts(keep, q, x);
    }
  }

  lemma {:induction false} FilterMembers(keep: Transaction -> bool, s: seq<Transaction>, x: Transaction)
    ensures x in Filter(keep, s) <==> x in s && keep(x)
  {
    if s != [] {
      FilterMembers(keep, s[1..], x);
      assert s == [s[0]] + s[1..];
    }
  }

  lemma {:induction false} FilterKeepsDistinct(keep: Transaction -> bool, s: seq<Transaction>)
    requires DistinctHashes(s)
    ensures DistinctHashes(Filter(keep, s))
  {
    if s != [] {
      FilterKeepsDistinct(keep, s[1..]);
      var rest := Filter(keep, s[1..]);
      forall j | 0 <= j < |rest|
        ensures rest[j].hash != s[0].hash
      {
        FilterMembers(keep, s[1..], rest[j]);
        var k :| 0 <= k < |s[1..]| && s[1..][k] == rest[j];
        assert s[1 + k] == rest[j];
      }
    }
  }

  lemma FastPathForgetsArrival(policy: Policy, p: seq<Transaction>, q: seq<Transaction>)
    requires SamePool(p, q) && DistinctHashes(p)
    ensures FastPathBatch(policy, p) == FastPathBatch(policy, q)
  {
    FilterKeepsPool(OwnedOnly, p, q);
    FilterKeepsDistinct(OwnedOnly, p);
    SortForgetsArrival(false, Filter(OwnedOnly, p), Filter(OwnedOnly, q));
  }

  /** The front of a pick of at most `cap`; below the cap, whoever is left out clashes with it. */
  lemma CappedPick(keys: Transaction -> set<ConflictKey>, txs: seq<Transaction>, cap: nat, batch: seq<Transaction>)
    requires var picked := Greedy(keys, txs, {});
             batch == if |picked| <= cap then picked else picked[..cap]
    ensures |batch| <= cap && KeysDisjoint(keys, batch)
    ensures forall x :: x in batch ==> x in txs
    ensures |batch| < cap ==>
              forall x :: x in txs && x !in batch ==>
                exists k :: 0 <= k < |batch| && !(keys(batch[k]) !! keys(x))
  {
    var picked := Greedy(keys, txs, {});
    var chosen := GreedyIsMaximal(keys, txs);
    forall x | x in txs && x !in picked
      ensures exists k :: 0 <= k < |picked| && !(keys(picked[k]) !! keys(x))
    {
      var i :| 0 <= i < |txs| && txs[i] == x;
      var all := Pick(txs, chosen);
      assert forall k :: 0 <= k < |chosen| ==> all[k] == txs[chosen[k]] && all[k] != x;
      assert Blocked(keys, txs, chosen, i);
      var k :| 0 <= k < |chosen| && chosen[k] < i && !(keys(txs[chosen[k]]) !! keys(txs[i]));
      assert picked[k] == txs[chosen[k]];
    }
  }

  /**
   The fast path takes owned transactions only, with disjoint keys and at most its cap, and
   below the cap it leaves none that would fit.
   */
  lemma FastPathIsMaximal(policy: Policy, pool: seq<Transaction>)
    ensures var batch := FastPathBatch(policy, pool);
            && |batch| <= policy.fastPathCap && KeysDisjoint(KeysUnder(policy), batch)
            && (forall x :: x in batch ==> x in pool && OwnedOnly(x))
            && (|batch| < policy.fastPathCap ==>
                  forall x :: x in pool && OwnedOnly(x) && x !in batch ==>
                    exists k :: 0 <= k < |batch| && !(ConflictKeys(policy, batch[k]) !! ConflictKeys(policy, x)))
  {
    var batch := FastPathBatch(policy, pool);
    var owned := Filter(OwnedOnly, pool);
    var sorted := Sort(false, owned);
    var keys := KeysUnder(policy);
    CappedPick(keys, sorted, policy.fastPathCap, batch);
    forall x ensures x in sorted <==> x in pool && OwnedOnly(x) {
      MemberIn(sorted, owned, x);
      FilterMembers(OwnedOnly, pool, x);
    }
    if |batch| < policy.fastPathCap {
      forall x | x in pool && OwnedOnly(x) && x !in batch
        ensures exists k :: 0 <= k < |batch| && !(ConflictKeys(policy, batch[k]) !! ConflictKeys(policy, x))
      {
        var k :| 0 <= k < |batch| && !(keys(batch[k]) !! keys(x));
      }
    }
  }

  // ---------------------------------------------------------------------------
  // Draining the pool
  // ---------------------------------------------------------------------------

  function Without(pool: seq<Transaction>, batch: seq<Transaction>): seq<Transaction> {
    Filter(tx => tx !in batch, pool)
  }

  ghost predicate AllFit(pool: seq<Transaction>) {
    forall i :: 0 <= i < |pool| ==> Fits(pool[i], 0)
  }

  lemma {:induction false} GreedyMembers(keys: Transaction -> set<ConflictKey>, txs: seq<Transaction>,
                                         reserved: set<ConflictKey>, x: Transaction)
    ensures x in Greedy(keys, txs, reserved) ==> x in txs
    ensures multiset(Greedy(keys, txs, reserved))[x] <= multiset(txs)[x]
    decreases txs
  {
    if txs != [] {
      assert txs == [txs[0]] + txs[1..];
      GreedyMembers(keys, txs[1..], reserved + keys(txs[0]), x);
      GreedyMembers(keys, txs[1..], reserved, x);
    }
  }

  lemma FrontCounts(front: seq<Transaction>, all: seq<Transaction>, x: Transaction)
    requires front <= all
    ensures multiset(front)[x] <= multiset(all)[x]
  {
    assert all == front + all[|front|..];
  }

  /** A batch holds each of its transactions as often as the pool does, at most. */
  lemma BatchIsFromPool(policy: Policy, pool: seq<Transaction>, x: Transaction)
    ensures multiset(DagBatch(policy, pool))[x] <= multiset(pool)[x]
  {
    PickIsFromPool(KeysUnder(policy), Sort(policy.laneAware, pool), x);
  }

  lemma PickIsFromPool(keys: Transaction -> set<ConflictKey>, sorted: seq<Transaction>, x: Transaction)
    ensures multiset(TakeFitting(Greedy(keys, sorted, {}), 0, 0))[x] <= multiset(sorted)[x]
  {
    GreedyMembers(keys, sorted, {}, x);
    FittingFront(Greedy(keys, sorted, {}), 0, 0);
    FrontCounts(TakeFitting(Greedy(keys, sorted, {}), 0, 0), Greedy(keys, sorted, {}), x);
  }

  /** Removing a batch from a pool without duplicates splits the pool in two. */
  lemma BatchSplitsPool(policy: Policy, pool: seq<Transaction>)
    requires DistinctHashes(pool)
    ensures var batch := DagBatch(policy, pool);
            multiset(pool) == multiset(batch) + multiset(Without(pool, batch))
  {
    var batch := DagBatch(policy, pool);
    forall x
      ensures multiset(pool)[x] == multiset(batch)[x] + multiset(Without(pool, batch))[x]
    {
      BatchIsFromPool(policy, pool, x);
      DistinctHashesCount(pool, x);
      FilterCounts(tx => tx !in batch, pool, x);
      assert x in batch <==> multiset(batch)[x] > 0;
    }
  }

  lemma WithoutShrinks(policy: Policy, pool: seq<Transaction>)
    requires DistinctHashes(pool) && AllFit(pool) && pool != []
    ensures |Without(pool, DagBatch(policy, pool))| < |pool|
    ensures DistinctHashes(Without(pool, DagBatch(policy, pool))) && AllFit(Without(pool, DagBatch(policy, pool)))
  {
    var batch := DagBatch(policy, pool);
    var rest := Without(pool, batch);
    var sorted := Sort(policy.laneAware, pool);
    DagBatchEmptyIff(policy, pool);
    assert |sorted| == |multiset(sorted)| == |pool|;
    MemberIn(sorted, pool, sorted[0]);
    BatchSplitsPool(policy, pool);
    assert |pool| == |multiset(pool)| == |multiset(batch)| + |multiset(rest)| == |batch| + |rest|;
    FilterKeepsDistinct(tx => tx !in batch, pool);
    forall i | 0 <= i < |rest|
      ensures Fits(rest[i], 0)
    {
      FilterMembers(tx => tx !in batch, pool, rest[i]);
    }
  }

  /** The batches of successive rounds until the pool is empty. */
  ghost function Rounds(policy: Policy, pool: seq<Transaction>): seq<seq<Transaction>>
    requires DistinctHashes(pool) && AllFit(pool)
    decreases |pool|
  {
    if pool == [] then []
    else
      WithoutShrinks(policy, pool);
      [DagBatch(policy, pool)] + Rounds(policy, Without(pool, DagBatch(policy, pool)))
  }

  /** Round after round the pool drains: every transaction is in exactly one batch. */
  lemma {:induction false} RoundsDrainThePool(policy: Policy, pool: seq<Transaction>)
    requires DistinctHashes(pool) && AllFit(pool)
    ensures multiset(Flatten(Rounds(policy, pool))) == multiset(pool)
    decreases |pool|
  {
    if pool != [] {
      WithoutShrinks(policy, pool);
      var batch := DagBatch(policy, pool);
      var rest := Without(pool, batch);
      RoundsDrainThePool(policy, rest);
      BatchSplitsPool(policy, pool);
      assert Rounds(policy, pool)[1..] == Rounds(policy, rest);
      assert Flatten(Rounds(policy, pool)) == batch + Flatten(Rounds(policy, rest));
    }
  }
}
