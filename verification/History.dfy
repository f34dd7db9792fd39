/**
 Persisted history: writing a checkpoint, pruning old transaction payloads, and the
 two guards against replay that outlive the payloads, the hash index and the
 per-sender nonce watermark.
 */
module History {
  import opened Prelude

  type Hash = string

  const MAX_RECENT_HASHES: nat := 100_000
  const MAX_WATERMARK: nat := 0x20_0000_0000_0000

  /** `sender` is the normalized address. */
  datatype Tx = Tx(hash: Hash, sender: string, nonce: nat)

  datatype Checkpoint = Checkpoint(sequence: nat, root: string, body: string, txs: seq<Tx>)

  datatype Location = Location(sequence: nat, root: string)

  datatype View = View(
    metadata: map<nat, Checkpoint>,
    jsonMetadata: set<nat>,          // metadata under the superseded JSON key
    batches: map<nat, seq<Tx>>,
    payloads: set<Hash>,
    index: map<Hash, Location>,
    recent: seq<Hash>,
    watermark: map<string, nat>,
    prunedThrough: nat,              // 0 when never pruned
    persistedThrough: Option<nat>)

  // ---------------------------------------------------------------------------
  // Pruning
  // ---------------------------------------------------------------------------

  /** The hashes in the batches after `low` and up to `high`. */
  function Gone(batches: map<nat, seq<Tx>>, low: nat, high: nat): set<Hash> {
    set n, i | n in batches && low < n <= high && 0 <= i < |batches[n]| :: batches[n][i].hash
  }

  function Kept(batches: map<nat, seq<Tx>>, low: nat, high: nat): map<nat, seq<Tx>> {
    map n | n in batches && !(low < n <= high) :: batches[n]
  }

  function Without(hashes: seq<Hash>, gone: set<Hash>): seq<Hash> {
    if hashes == [] then []
    else if hashes[0] in gone then Without(hashes[1..], gone)
    else [hashes[0]] + Without(hashes[1..], gone)
  }

  function Pruned(v: View, through: nat): View {
    if through <= v.prunedThrough then v
    else
      var gone := Gone(v.batches, v.prunedThrough, through);
      v.(batches := Kept(v.batches, v.prunedThrough, through),
         payloads := v.payloads - gone,
         recent := Without(v.recent, gone),
         prunedThrough := through)
  }

  lemma {:induction false} WithoutTwice(hashes: seq<Hash>, a: set<Hash>, b: set<Hash>)
    ensures Without(Without(hashes, a), b) == Without(hashes, a + b)
  {
    if hashes != [] {
      WithoutTwice(hashes[1..], a, b);
      if hashes[0] !in a {
        var first := [hashes[0]] + Without(hashes[1..], a);
        assert first[1..] == Without(hashes[1..], a);
      }
    }
  }

  lemma {:induction false} WithoutNone(hashes: seq<Hash>)
    ensures Without(hashes, {}) == hashes
  {
    if hashes != [] {
      WithoutNone(hashes[1..]);
    }
  }

  lemma GoneSplits(batches: map<nat, seq<Tx>>, low: nat, mid: nat, high: nat)
    requires low <= mid <= high
    ensures Gone(batches, low, mid) + Gone(Kept(batches, low, mid), mid, high) == Gone(batches, low, high)
    ensures Kept(Kept(batches, low, mid), mid, high) == Kept(batches, low, high)
  {
    var kept := Kept(batches, low, mid);
    forall h | h in Gone(batches, low, high)
      ensures h in Gone(batches, low, mid) + Gone(kept, mid, high)
    {
      var n, i :| n in batches && low < n <= high && 0 <= i < |batches[n]| && batches[n][i].hash == h;
      if n > mid {
        assert kept[n] == batches[n];
      }
    }
  }

  /** Pruning to one point and then to another is pruning once to the later of the two. */
  lemma PruneTwice(v: View, a: nat, b: nat)
    ensures Pruned(Pruned(v, a), b) == Pruned(v, Max(a, b))
  {
    if v.prunedThrough < a < b {
      GoneSplits(v.batches, v.prunedThrough, a, b);
      var first, second := Gone(v.batches, v.prunedThrough, a), Gone(Kept(v.batches, v.prunedThrough, a), a, b);
      WithoutTwice(v.recent, first, second);
      assert v.payloads - first - second == v.payloads - (first + second);
    }
  }

  lemma {:induction false} WithoutKeeps(hashes: seq<Hash>, gone: set<Hash>, h: Hash)
    ensures h in Without(hashes, gone) <==> h in hashes && h !in gone
  {
    if hashes != [] {
      WithoutKeeps(hashes[1..], gone, h);
      assert hashes == [hashes[0]] + hashes[1..];
    }
  }

  /** The hash is that of a transaction in a batch of the range. */
  ghost predicate InRange(batches: map<nat, seq<Tx>>, low: nat, high: nat, h: Hash) {
    exists n, i :: n in batches && low < n <= high && 0 <= i < |batches[n]| && batches[n][i].hash == h
  }

  /**
   Pruning takes the batches of the range, their payloads and their recent hashes, leaves every
   other one, and keeps the metadata, the hash index and the watermark.
   */
  lemma PrunedExactly(v: View, through: nat)
    ensures var after, low := Pruned(v, through), v.prunedThrough;
            && after.prunedThrough == Max(low, through)
            && after.batches.Keys == (set n | n in v.batches && !(low < n <= through))
            && (forall n :: n in after.batches ==> after.batches[n] == v.batches[n])
            && (forall h :: h in after.payloads <==> h in v.payloads && !InRange(v.batches, low, through, h))
            && (forall h :: h in after.recent <==> h in v.recent && !InRange(v.batches, low, through, h))
            && after == v.(batches := after.batches, payloads := after.payloads, recent := after.recent,
                           prunedThrough := after.prunedThrough)
  {
    var low := v.prunedThrough;
    if low < through {
      var gone := Gone(v.batches, low, through);
      forall h ensures h in gone <==> InRange(v.batches, low, through, h) {
      }
      forall h ensures h in Without(v.recent, gone) <==> h in v.recent && h !in gone {
        WithoutKeeps(v.recent, gone, h);
      }
    }
  }

  // ---------------------------------------------------------------------------
  // Writing a checkpoint
  // ---------------------------------------------------------------------------

  function Stripped(c: Checkpoint): Checkpoint {
    c.(txs := [])
  }

  predicate Stored(c: Checkpoint) {
    c.txs != [] && c.sequence != 0
  }

  function Indexed(index: map<Hash, Location>, c: Checkpoint, n: nat): map<Hash, Location>
    requires n <= |c.txs|
  {
    if n == 0 then index else Indexed(index, c, n - 1)[c.txs[n - 1].hash := Location(c.sequence, c.root)]
  }

  function WithRecent(recent: seq<Hash>, txs: seq<Tx>): seq<Hash> {
    if txs == [] then recent
    else
      var before := WithRecent(recent, txs[..|txs| - 1]);
      if txs[|txs| - 1].hash in before then before else before + [txs[|txs| - 1].hash]
  }

  function Trimmed(recent: seq<Hash>): seq<Hash> {
    if |recent| > MAX_RECENT_HASHES then recent[|recent| - MAX_RECENT_HASHES..] else recent
  }

  function At(watermark: map<string, nat>, sender: string): nat {
    if sender in watermark then watermark[sender] else 0
  }

  /** Watermarks too large to be timestamps are reset on every write. */
  function Reset(watermark: map<string, nat>): map<string, nat> {
    map s | s in watermark :: if watermark[s] >= MAX_WATERMARK then 0 else watermark[s]
  }

  function Raised(watermark: map<string, nat>, txs: seq<Tx>): map<string, nat> {
    if txs == [] then watermark
    else
      var before := Raised(watermark, txs[..|txs| - 1]);
      var tx := txs[|txs| - 1];
      if tx.nonce > At(before, tx.sender) then before[tx.sender := tx.nonce] else before
  }

  function Persisted(v: View, c: Checkpoint, indexing: bool, mark: bool): View {
    var head := v.(
      metadata := v.metadata[c.sequence := Stripped(c)],
      jsonMetadata := v.jsonMetadata - {c.sequence},
      persistedThrough := if mark then Some(c.sequence) else v.persistedThrough);
    if !Stored(c) then head
    else head.(
      index := if indexing then Indexed(v.index, c, |c.txs|) else v.index,
      recent := Trimmed(WithRecent(v.recent, c.txs)),
      watermark := Raised(Reset(v.watermark), c.txs),
      batches := v.batches[c.sequence := c.txs])
  }

  // ---------------------------------------------------------------------------
  // The watermark
  // ---------------------------------------------------------------------------

  /** The largest nonce of a sender in a list of transactions, 0 when there is none. */
  function MaxNonce(txs: seq<Tx>, sender: string): nat {
    if txs == [] then 0
    else
      var before := MaxNonce(txs[..|txs| - 1], sender);
      if txs[|txs| - 1].sender == sender then Max(before, txs[|txs| - 1].nonce) else before
  }

  lemma {:induction false} RaisedAt(watermark: map<string, nat>, txs: seq<Tx>, sender: string)
    ensures At(Raised(watermark, txs), sender) == Max(At(watermark, sender), MaxNonce(txs, sender))
  {
    if txs != [] {
      RaisedAt(watermark, txs[..|txs| - 1], sender);
    }
  }

  /** The largest nonce a sender has in a list of checkpoints. */
  function Committed(cs: seq<Checkpoint>, sender: string): nat {
    if cs == [] then 0
    else
      var before := Committed(cs[..|cs| - 1], sender);
      if Stored(cs[|cs| - 1]) then Max(before, MaxNonce(cs[|cs| - 1].txs, sender)) else before
  }

  function PersistAll(v: View, cs: seq<Checkpoint>, indexing: bool, mark: bool): View {
    if cs == [] then v else Persisted(PersistAll(v, cs[..|cs| - 1], indexing, mark), cs[|cs| - 1], indexing, mark)
  }

  lemma WatermarkStep(v: View, c: Checkpoint, indexing: bool, mark: bool, sender: string)
    ensures At(Persisted(v, c, indexing, mark).watermark, sender)
            == if !Stored(c) then At(v.watermark, sender)
               else Max(if At(v.watermark, sender) >= MAX_WATERMARK then 0 else At(v.watermark, sender),
                        MaxNonce(c.txs, sender))
  {
    if Stored(c) {
      RaisedAt(Reset(v.watermark), c.txs, sender);
    }
  }

  lemma {:induction false} WatermarkBound(v: View, cs: seq<Checkpoint>, indexing: bool, mark: bool, sender: string)
    requires v.watermark == map[]
    ensures var mark := At(PersistAll(v, cs, indexing, mark).watermark, sender);
            mark <= Committed(cs, sender) && (Committed(cs, sender) < MAX_WATERMARK ==> mark == Committed(cs, sender))
  {
    if cs != [] {
      var init := cs[..|cs| - 1];
      WatermarkBound(v, init, indexing, mark, sender);
      WatermarkStep(PersistAll(v, init, indexing, mark), cs[|cs| - 1], indexing, mark, sender);
    }
  }

  /**
   After any run from an empty store the watermark is the sender's largest committed
   nonce exactly when the earlier nonces are below the reset bound or the last written
   checkpoint holds the largest.
   */
  lemma WatermarkIsMaximumIff(v: View, cs: seq<Checkpoint>, indexing: bool, mark: bool, sender: string)
    requires v.watermark == map[] && cs != [] && Stored(cs[|cs| - 1])
    ensures var before := Committed(cs[..|cs| - 1], sender);
            At(PersistAll(v, cs, indexing, mark).watermark, sender) == Committed(cs, sender)
            <==> before < MAX_WATERMARK || MaxNonce(cs[|cs| - 1].txs, sender) >= before
  {
    var init := cs[..|cs| - 1];
    WatermarkBound(v, init, indexing, mark, sender);
    WatermarkStep(PersistAll(v, init, indexing, mark), cs[|cs| - 1], indexing, mark, sender);
  }

  /** One large nonce, followed by any other transaction, and the sender's watermark is lost. */
  lemma LargeNonceIsForgotten(v: View, sender: string, other: string)
    requires v.watermark == map[] && sender != other
    ensures var first := Checkpoint(1, "", "", [Tx("a", sender, MAX_WATERMARK)]);
            var second := Checkpoint(2, "", "", [Tx("b", other, 1)]);
            && At(PersistAll(v, [first, second], true, false).watermark, sender) == 0
            && Committed([first, second], sender) == MAX_WATERMARK
  {
    var first := Checkpoint(1, "", "", [Tx("a", sender, MAX_WATERMARK)]);
    var second := Checkpoint(2, "", "", [Tx("b", other, 1)]);
    TwoCheckpoints(v, first, second, sender);
    OneNonce(first.txs[0], sender);
    OneNonce(second.txs[0], sender);
    WatermarkStep(v, first, true, false, sender);
    WatermarkStep(Persisted(v, first, true, false), second, true, false, sender);
  }

  lemma TwoCheckpoints(v: View, a: Checkpoint, b: Checkpoint, sender: string)
    requires Stored(a) && Stored(b)
    ensures PersistAll(v, [a, b], true, false) == Persisted(Persisted(v, a, true, false), b, true, false)
    ensures Committed([a, b], sender) == Max(MaxNonce(a.txs, sender), MaxNonce(b.txs, sender))
  {
    assert [a, b][..1] == [a] && [a][..0] == [];
    assert PersistAll(v, [a], true, false) == Persisted(v, a, true, false);
    assert Committed([a], sender) == MaxNonce(a.txs, sender);
  }

  lemma OneNonce(tx: Tx, sender: string)
    ensures MaxNonce([tx], sender) == if tx.sender == sender then tx.nonce else 0
  {
    assert [tx][..0] == [];
  }

  lemma {:induction false} RaisedDomain(watermark: map<string, nat>, txs: seq<Tx>, sender: string)
    ensures sender in Raised(watermark, txs) <==> sender in watermark || MaxNonce(txs, sender) > 0
  {
    if txs != [] {
      RaisedDomain(watermark, txs[..|txs| - 1], sender);
      RaisedAt(watermark, txs[..|txs| - 1], sender);
    }
  }

  /** Writing a checkpoint a second time leaves the watermark as it is. */
  lemma RepersistKeepsWatermark(v: View, c: Checkpoint, indexing: bool, mark: bool)
    ensures var once := Persisted(v, c, indexing, mark);
            Persisted(once, c, indexing, mark).watermark == once.watermark
  {
    if Stored(c) {
      var once := Persisted(v, c, indexing, mark).watermark;
      var twice := Raised(Reset(once), c.txs);
      forall s: string
        ensures (s in twice <==> s in once) && (s in once ==> twice[s] == once[s])
      {
        RaisedAt(Reset(v.watermark), c.txs, s);
        RaisedDomain(Reset(v.watermark), c.txs, s);
        RaisedAt(Reset(once), c.txs, s);
        RaisedDomain(Reset(once), c.txs, s);
      }
    }
  }

  // ---------------------------------------------------------------------------
  // Runs
  // ---------------------------------------------------------------------------

  datatype Operation = Persist(checkpoint: Checkpoint, indexing: bool, mark: bool) | Prune(through: nat)

  function Step(v: View, op: Operation): View {
    match op
    case Persist(c, indexing, mark) => Persisted(v, c, indexing, mark)
    case Prune(through) => Pruned(v, through)
  }

  function Run(v: View, ops: seq<Operation>): View {
    if ops == [] then v else Step(Run(v, ops[..|ops| - 1]), ops[|ops| - 1])
  }

  lemma {:induction false} IndexedKeys(index: map<Hash, Location>, c: Checkpoint, n: nat)
    requires n <= |c.txs|
    ensures index.Keys <= Indexed(index, c, n).Keys
    ensures forall i :: 0 <= i < n ==> c.txs[i].hash in Indexed(index, c, n)
                                       && Indexed(index, c, n)[c.txs[i].hash] == Location(c.sequence, c.root)
  {
    if n > 0 {
      IndexedKeys(index, c, n - 1);
    }
  }

  lemma StepKeepsGuards(v: View, op: Operation)
    ensures v.index.Keys <= Step(v, op).index.Keys && v.metadata.Keys <= Step(v, op).metadata.Keys
  {
    if op.Persist? {
      IndexedKeys(v.index, op.checkpoint, |op.checkpoint.txs|);
    }
  }

  /** Over any run of writes and prunes, a transaction once indexed stays committed and its metadata stays. */
  lemma {:induction false} CommittedForever(v: View, ops: seq<Operation>, i: nat, j: nat)
    requires i < |ops| && ops[i].Persist? && j < |ops[i].checkpoint.txs|
    ensures var end := Run(v, ops);
            && ops[i].checkpoint.sequence in end.metadata
            && (ops[i].indexing && Stored(ops[i].checkpoint) ==> ops[i].checkpoint.txs[j].hash in end.index)
  {
    var init, last := ops[..|ops| - 1], ops[|ops| - 1];
    if i == |ops| - 1 {
      IndexedKeys(Run(v, init).index, last.checkpoint, |last.checkpoint.txs|);
    } else {
      CommittedForever(v, init, i, j);
      StepKeepsGuards(Run(v, init), last);
    }
  }

  /** A written transaction is found where its hash points: in the batch of its checkpoint. */
  lemma IndexPointsToBatch(v: View, c: Checkpoint, mark: bool, j: nat)
    requires Stored(c) && j < |c.txs|
    ensures var after := Persisted(v, c, true, mark);
            var hash := c.txs[j].hash;
            && hash in after.index && after.index[hash] == Location(c.sequence, c.root)
            && c.sequence in after.batches && c.txs[j] in after.batches[c.sequence]
  {
    IndexedKeys(v.index, c, |c.txs|);
  }

  lemma {:induction false} IndexedOthers(index: map<Hash, Location>, c: Checkpoint, n: nat, h: Hash)
    requires n <= |c.txs| && forall i :: 0 <= i < n ==> c.txs[i].hash != h
    ensures h in Indexed(index, c, n) <==> h in index
    ensures h in index ==> Indexed(index, c, n)[h] == index[h]
  {
    if n > 0 {
      IndexedOthers(index, c, n - 1, h);
    }
  }

  ghost predicate Holds(c: Checkpoint, h: Hash) {
    exists i :: 0 <= i < |c.txs| && c.txs[i].hash == h
  }

  /** A write touches its own metadata, batch and hashes only; without transactions, only the metadata. */
  lemma PersistedExactly(v: View, c: Checkpoint, indexing: bool, mark: bool, h: Hash)
    ensures var after := Persisted(v, c, indexing, mark);
            && after.metadata == v.metadata[c.sequence := Checkpoint(c.sequence, c.root, c.body, [])]
            && after.jsonMetadata == v.jsonMetadata - {c.sequence}
            && after.payloads == v.payloads && after.prunedThrough == v.prunedThrough
            && after.persistedThrough == (if mark then Some(c.sequence) else v.persistedThrough)
            && after.batches
               == (if c.txs == [] || c.sequence == 0 then v.batches else v.batches[c.sequence := c.txs])
            && (c.txs == [] || c.sequence == 0 ==>
                  after.index == v.index && after.recent == v.recent && after.watermark == v.watermark)
            && (!Holds(c, h) || !indexing ==>
                  (h in after.index <==> h in v.index) && (h in v.index ==> after.index[h] == v.index[h]))
  {
    if !Holds(c, h) {
      IndexedOthers(v.index, c, |c.txs|, h);
    }
  }

  /** While there is room, a write only adds to the recent hashes. */
  lemma RecentGrows(v: View, c: Checkpoint, indexing: bool, mark: bool)
    requires |v.recent| + |c.txs| <= MAX_RECENT_HASHES
    ensures v.recent <= Persisted(v, c, indexing, mark).recent
  {
    WithRecentAppends(v.recent, c.txs);
  }

  /** No batch is left at or below the pruned point. */
  ghost predicate CleanBelow(v: View) {
    forall n :: n in v.batches ==> n > v.prunedThrough
  }

  /** Every write of transactions in the run is above what was pruned when it was made. */
  ghost predicate WritesAbove(v: View, ops: seq<Operation>) {
    forall i :: 0 <= i < |ops| && ops[i].Persist? && Stored(ops[i].checkpoint) ==>
      ops[i].checkpoint.sequence > Run(v, ops[..i]).prunedThrough
  }

  lemma WritesAboveNext(v: View, init: seq<Operation>, op: Operation)
    ensures WritesAbove(v, init + [op]) <==>
            && WritesAbove(v, init)
            && (op.Persist? && Stored(op.checkpoint) ==> op.checkpoint.sequence > Run(v, init).prunedThrough)
  {
    var ops := init + [op];
    assert forall i :: 0 <= i < |init| ==> ops[i] == init[i] && ops[..i] == init[..i];
    assert ops[|init|] == op && ops[..|init|] == init;
  }

  /** One step keeps the store clean exactly if it does not write below; what is left below stays. */
  lemma CleanStep(v: View, op: Operation)
    ensures CleanBelow(Step(v, op)) <==>
            && CleanBelow(v)
            && (op.Persist? && Stored(op.checkpoint) ==> op.checkpoint.sequence > v.prunedThrough)
  {
    var next := Step(v, op);
    if !CleanBelow(v) {
      var n :| n in v.batches && n <= v.prunedThrough;
      assert n in next.batches && n <= next.prunedThrough;
    }
    if op.Persist? && Stored(op.checkpoint) {
      assert op.checkpoint.sequence in next.batches;
      assert forall n :: n in v.batches ==> n in next.batches;
    }
  }

  /**
   Over any run no batch is left at or below the pruned point exactly when none was and every
   write was above it: a later one below is never pruned again.
   */
  lemma {:induction false} PrunedStaysPrunedIff(v: View, ops: seq<Operation>)
    ensures CleanBelow(Run(v, ops)) <==> CleanBelow(v) && WritesAbove(v, ops)
  {
    if ops != [] {
      var init, op := ops[..|ops| - 1], ops[|ops| - 1];
      PrunedStaysPrunedIff(v, init);
      CleanStep(Run(v, init), op);
      WritesAboveNext(v, init, op);
      assert ops == init + [op];
    }
  }

  lemma {:induction false} WithRecentAppends(recent: seq<Hash>, txs: seq<Tx>)
    ensures var r := WithRecent(recent, txs);
            && recent <= r && |r| <= |recent| + |txs|
            && forall i :: 0 <= i < |txs| ==> txs[i].hash in r
  {
    if txs != [] {
      WithRecentAppends(recent, txs[..|txs| - 1]);
    }
  }

  /** A hash that was not recent is, once its checkpoint is written. */
  lemma NewHashIsRecent(v: View, c: Checkpoint, indexing: bool, mark: bool, j: nat)
    requires Stored(c) && j < |c.txs| <= MAX_RECENT_HASHES && c.txs[j].hash !in v.recent
    ensures c.txs[j].hash in Persisted(v, c, indexing, mark).recent
  {
    var all := WithRecent(v.recent, c.txs);
    WithRecentAppends(v.recent, c.txs);
    var k :| 0 <= k < |all| && all[k] == c.txs[j].hash;
    assert k >= |v.recent|;
    if |all| > MAX_RECENT_HASHES {
      assert Trimmed(all)[k - (|all| - MAX_RECENT_HASHES)] == all[k];
    }
  }

  lemma {:induction false} WithRecentIsDistinct(recent: seq<Hash>, txs: seq<Tx>)
    requires Distinct(recent)
    ensures Distinct(WithRecent(recent, txs))
  {
    if txs != [] {
      WithRecentIsDistinct(recent, txs[..|txs| - 1]);
    }
  }

  lemma {:induction false} WithoutIsDistinct(hashes: seq<Hash>, gone: set<Hash>)
    requires Distinct(hashes)
    ensures Distinct(Without(hashes, gone)) && |Without(hashes, gone)| <= |hashes|
    ensures forall h :: h in Without(hashes, gone) ==> h in hashes && h !in gone
  {
    if hashes != [] {
      WithoutIsDistinct(hashes[1..], gone);
      assert hashes == [hashes[0]] + hashes[1..];
    }
  }

  /** Over any run the recent list holds each hash once and at most the cap. */
  lemma {:induction false} RecentIsBounded(v: View, ops: seq<Operation>)
    requires Distinct(v.recent) && |v.recent| <= MAX_RECENT_HASHES
    ensures Distinct(Run(v, ops).recent) && |Run(v, ops).recent| <= MAX_RECENT_HASHES
  {
    if ops != [] {
      var before := Run(v, ops[..|ops| - 1]);
      var last := ops[|ops| - 1];
      RecentIsBounded(v, ops[..|ops| - 1]);
      if last.Persist? {
        WithRecentIsDistinct(before.recent, last.checkpoint.txs);
      } else if last.through > before.prunedThrough {
        WithoutIsDistinct(before.recent, Gone(before.batches, before.prunedThrough, last.through));
      }
    }
  }

  // ---------------------------------------------------------------------------
  // The store
  // ---------------------------------------------------------------------------

  class Store {
    var metadata: map<nat, Checkpoint>
    var jsonMetadata: set<nat>
    var batches: map<nat, seq<Tx>>
    var payloads: set<Hash>
    var index: map<Hash, Location>
    var recent: seq<Hash>
    var watermark: map<string, nat>
    var prunedThrough: nat
    var persistedThrough: Option<nat>

    function Contents(): View
      reads this
    {
      View(metadata, jsonMetadata, batches, payloads, index, recent, watermark, prunedThrough, persistedThrough)
    }

    constructor ()
      ensures Contents() == View(map[], {}, map[], {}, map[], [], map[], 0, None)
    {
      metadata, jsonMetadata, batches, payloads, index := map[], {}, map[], {}, map[];
      recent, watermark, prunedThrough, persistedThrough := [], map[], 0, None;
    }

    method PersistCheckpoint(c: Checkpoint, indexing: bool, mark: bool)
      modifies this
      ensures Contents() == Persisted(old(Contents()), c, indexing, mark)
    {
      metadata := metadata[c.sequence := Stripped(c)];
      jsonMetadata := jsonMetadata - {c.sequence};
      if c.txs != [] && c.sequence != 0 {
        WriteIndexes(c, indexing);
        RaiseWatermark(c.txs);
        batches := batches[c.sequence := c.txs];
      }
      if mark {
        persistedThrough := Some(c.sequence);
      }
    }

    method WriteIndexes(c: Checkpoint, indexing: bool)
      modifies this`index, this`recent
      ensures index == if indexing then Indexed(old(index), c, |c.txs|) else old(index)
      ensures recent == Trimmed(WithRecent(old(recent), c.txs))
    {
      var hashes := recent;
      for i := 0 to |c.txs|
        invariant index == if indexing then Indexed(old(index), c, i) else old(index)
        invariant recent == old(recent) && hashes == WithRecent(old(recent), c.txs[..i])
      {
        if indexing {
          index := index[c.txs[i].hash := Location(c.sequence, c.root)];
        }
        assert c.txs[..i + 1][..i] == c.txs[..i];
        if c.txs[i].hash !in hashes {
          hashes := hashes + [c.txs[i].hash];
        }
      }
      assert c.txs[..|c.txs|] == c.txs;
      recent := Trimmed(hashes);
    }

    method RaiseWatermark(txs: seq<Tx>)
      modifies this`watermark
      ensures watermark == Raised(Reset(old(watermark)), txs)
    {
      var raised := Reset(watermark);
      for i := 0 to |txs|
        invariant watermark == old(watermark) && raised == Raised(Reset(old(watermark)), txs[..i])
      {
        assert txs[..i + 1][..i] == txs[..i];
        if txs[i].nonce > At(raised, txs[i].sender) {
          raised := raised[txs[i].sender := txs[i].nonce];
        }
      }
      assert txs[..|txs|] == txs;
      watermark := raised;
    }

    /** Deletes old payloads; metadata and the hash index are not touched. */
    method PrunePayloads(through: nat)
      modifies this
      ensures Contents() == Pruned(old(Contents()), through)
    {
      if through == 0 || through <= prunedThrough {
        return;
      }
      var gone: set<Hash> := {};
      ghost var before := batches;
      assert Gone(before, prunedThrough, prunedThrough) == {};
      assert Kept(before, prunedThrough, prunedThrough) == before;
      for n := prunedThrough + 1 to through + 1
        invariant unchanged(`metadata, `jsonMetadata, `index, `recent, `watermark, `prunedThrough, `persistedThrough)
        invariant gone == Gone(before, prunedThrough, n - 1)
        invariant batches == Kept(before, prunedThrough, n - 1)
        invariant payloads == old(payloads) - gone
      {
        if n in batches {
          var hashes := DeletePayloads(batches[n]);
          gone := gone + hashes;
        }
        GoneNext(before, prunedThrough, n);
        batches := batches - {n};
      }
      WithoutNone(recent);
      if gone != {} {
        recent := Without(recent, gone);
      }
      prunedThrough := through;
    }

    method DeletePayloads(txs: seq<Tx>) returns (hashes: set<Hash>)
      modifies this`payloads
      ensures hashes == (set i | 0 <= i < |txs| :: txs[i].hash)
      ensures payloads == old(payloads) - hashes
    {
      hashes := {};
      for i := 0 to |txs|
        invariant hashes == set k | 0 <= k < i :: txs[k].hash
        invariant payloads == old(payloads) - hashes
      {
        payloads := payloads - {txs[i].hash};
        hashes := hashes + {txs[i].hash};
      }
    }
  }

  lemma GoneNext(batches: map<nat, seq<Tx>>, low: nat, n: nat)
    requires low < n
    ensures Gone(batches, low, n)
            == Gone(batches, low, n - 1)
               + (if n in batches then set i | 0 <= i < |batches[n]| :: batches[n][i].hash else {})
    ensures Kept(batches, low, n) == Kept(batches, low, n - 1) - {n}
  {
  }
}
