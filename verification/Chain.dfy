/**
 The in-memory blockchain: a bounded window of checkpoints with a replay-protection
 queue, a location index and a lifetime transaction counter that survive eviction
 and restart.

 Transaction and checkpoint hashes are opaque strings; the checkpoint hash is an
 arbitrary function of the checkpoint.
 */
module Chain {
  import opened Prelude

  const MAX_RETAINED_BLOCKS: nat := 1000
  const MAX_RETAINED_TX_HASHES: nat := 2_000_000

  type Hash = string

  datatype Transaction = Transaction(hash: Hash, payload: string)

  datatype Checkpoint = Checkpoint(
    sequence: nat,
    transactions: seq<Transaction>,
    effects: seq<string>,
    stateRoot: string,
    timestamp: nat,
    prevHash: Hash)

  /** Where a transaction was found: itself, its checkpoint, the state root, its effects if recorded. */
  datatype Location = Location(tx: Transaction, sequence: nat, stateRoot: string, effect: Option<string>)

  // ---------------------------------------------------------------------------
  // Logs of hashes
  // ---------------------------------------------------------------------------

  function Hashes(c: Checkpoint): (r: seq<Hash>)
    ensures |r| == |c.transactions|
    ensures forall i :: 0 <= i < |r| ==> r[i] == c.transactions[i].hash
  {
    seq(|c.transactions|, i requires 0 <= i < |c.transactions| => c.transactions[i].hash)
  }

  /** The hashes of a run of checkpoints, oldest first. */
  function LogOf(cps: seq<Checkpoint>): seq<Hash> {
    if cps == [] then [] else LogOf(cps[..|cps| - 1]) + Hashes(cps[|cps| - 1])
  }

  function Last<T>(s: seq<T>, n: nat): seq<T> {
    if |s| <= n then s else s[|s| - n..]
  }

  /** A repeated hash is more than the retained number of hashes away. */
  ghost predicate Fresh(log: seq<Hash>) {
    forall i, j :: 0 <= i < j < |log| && j - i <= MAX_RETAINED_TX_HASHES ==> log[i] != log[j]
  }

  ghost predicate SuffixOf(s: seq<Hash>, log: seq<Hash>) {
    |s| <= |log| && log[|log| - |s|..] == s
  }

  lemma LogOfSnoc(cps: seq<Checkpoint>, c: Checkpoint)
    ensures LogOf(cps + [c]) == LogOf(cps) + Hashes(c)
  {
    assert (cps + [c])[..|cps|] == cps;
  }

  lemma LogOfNext(cps: seq<Checkpoint>, p: nat)
    requires p < |cps|
    ensures |LogOf(cps[..p + 1])| == |LogOf(cps[..p])| + |cps[p].transactions|
  {
    assert cps[..p + 1] == cps[..p] + [cps[p]];
    LogOfSnoc(cps[..p], cps[p]);
  }

  lemma {:induction false} LogOfAppend(a: seq<Checkpoint>, b: seq<Checkpoint>)
    ensures LogOf(a + b) == LogOf(a) + LogOf(b)
  {
    if b == [] {
      assert a + b == a;
    } else {
      var init, last := b[..|b| - 1], b[|b| - 1];
      LogOfAppend(a, init);
      LogOfSnoc(a + init, last);
      LogOfSnoc(init, last);
      AppendLast(a, b);
      Associate(LogOf(a), LogOf(init), Hashes(last));
    }
  }

  lemma LogOfOne(c: Checkpoint)
    ensures LogOf([c]) == Hashes(c)
  {
    assert [c][..0] == [];
  }

  lemma FreshSuffix(s: seq<Hash>, log: seq<Hash>)
    requires SuffixOf(s, log) && Fresh(log)
    ensures Fresh(s)
  {
    var d := |log| - |s|;
    forall i, j | 0 <= i < j < |s| && j - i <= MAX_RETAINED_TX_HASHES
      ensures s[i] != s[j]
    {
      assert s[i] == log[d + i] && s[j] == log[d + j];
    }
  }

  /** New distinct hashes outside the retained window keep the log fresh. */
  lemma FreshExtends(log: seq<Hash>, more: seq<Hash>)
    requires Fresh(log) && Distinct(more)
    requires forall i :: 0 <= i < |more| ==> more[i] !in Last(log, MAX_RETAINED_TX_HASHES)
    ensures Fresh(log + more)
  {
    var all := log + more;
    forall i, j | 0 <= i < j < |all| && j - i <= MAX_RETAINED_TX_HASHES
      ensures all[i] != all[j]
    {
      if i < |log| <= j {
        var window := Last(log, MAX_RETAINED_TX_HASHES);
        assert all[i] == window[i - (|log| - |window|)];
        assert all[j] == more[j - |log|];
      } else if i >= |log| {
        assert all[i] == more[i - |log|] && all[j] == more[j - |log|];
      }
    }
  }

  lemma FreshWindow(log: seq<Hash>, n: nat)
    requires Fresh(log) && n < |log|
    ensures log[n] !in Last(log[..n], MAX_RETAINED_TX_HASHES)
  {
    var window := Last(log[..n], MAX_RETAINED_TX_HASHES);
    forall k | 0 <= k < |window|
      ensures window[k] != log[n]
    {
      assert window[k] == log[n - |window| + k];
    }
  }

  lemma WindowIsDistinct(log: seq<Hash>)
    requires Fresh(log)
    ensures Distinct(Last(log, MAX_RETAINED_TX_HASHES))
  {
    var window := Last(log, MAX_RETAINED_TX_HASHES);
    assert forall k :: 0 <= k < |window| ==> window[k] == log[|log| - |window| + k];
  }

  lemma LastOfLast<T>(a: seq<T>, b: seq<T>, n: nat)
    ensures Last(Last(a, n) + b, n) == Last(a + b, n)
  {}

  // ---------------------------------------------------------------------------
  // The shape of a chain
  // ---------------------------------------------------------------------------

  const GENESIS := Checkpoint(0, [], [], "smt-default-root", 0, "zero")

  /** A run of consecutive sequence numbers, each linked to the one before it. */
  ghost predicate LinkedRun(run: seq<Checkpoint>, hashOf: Checkpoint -> Hash) {
    forall i :: 0 < i < |run| ==>
      run[i].sequence == run[i - 1].sequence + 1 && run[i].prevHash == hashOf(run[i - 1])
  }

  /** Genesis, then one linked run that starts at 1 unless older checkpoints were evicted. */
  ghost predicate WellFormed(cps: seq<Checkpoint>, hashOf: Checkpoint -> Hash) {
    && 1 <= |cps| <= MAX_RETAINED_BLOCKS
    && cps[0] == GENESIS
    && LinkedRun(cps[1..], hashOf)
    && (|cps| > 1 ==> cps[1].sequence >= 1)
    && (|cps| > 1 && cps[1].sequence == 1 ==> cps[1].prevHash == hashOf(GENESIS))
  }

  lemma {:induction false} RunIsContiguous(run: seq<Checkpoint>, hashOf: Checkpoint -> Hash, i: nat)
    requires LinkedRun(run, hashOf) && i < |run|
    ensures run[i].sequence == run[0].sequence + i
  {
    if i > 0 {
      RunIsContiguous(run, hashOf, i - 1);
    }
  }

  /** Sequence numbers identify retained checkpoints. */
  lemma SequencesDiffer(cps: seq<Checkpoint>, hashOf: Checkpoint -> Hash, p: nat, q: nat)
    requires WellFormed(cps, hashOf) && p < q < |cps|
    ensures cps[p].sequence < cps[q].sequence
  {
    RunIsContiguous(cps[1..], hashOf, q - 1);
    if p > 0 {
      RunIsContiguous(cps[1..], hashOf, p - 1);
    }
  }

  // ---------------------------------------------------------------------------
  // Looking a transaction up
  // ---------------------------------------------------------------------------

  /** The first position of the hash in the list, or the list's length. */
  function Position(txs: seq<Transaction>, h: Hash): (i: nat)
    ensures i <= |txs|
    ensures forall k :: 0 <= k < i ==> txs[k].hash != h
    ensures i < |txs| ==> txs[i].hash == h
  {
    if txs == [] then 0 else if txs[0].hash == h then 0 else 1 + Position(txs[1..], h)
  }

  function LocationAt(c: Checkpoint, i: nat): Location
    requires i < |c.transactions|
  {
    Location(c.transactions[i], c.sequence, c.stateRoot, if i < |c.effects| then Some(c.effects[i]) else None)
  }

  /** The reference lookup: scan the retained checkpoints newest first. */
  function NewestFirst(cps: seq<Checkpoint>, h: Hash): Option<Location> {
    if cps == [] then None
    else
      var c := cps[|cps| - 1];
      var i := Position(c.transactions, h);
      if i < |c.transactions| then Some(LocationAt(c, i)) else NewestFirst(cps[..|cps| - 1], h)
  }

  ghost predicate Absent(cps: seq<Checkpoint>, h: Hash) {
    forall p, i :: 0 <= p < |cps| && 0 <= i < |cps[p].transactions| ==> cps[p].transactions[i].hash != h
  }

  /** Transaction `i` of checkpoint `p` is the first with the hash there, and no later checkpoint has one. */
  ghost predicate NewestOccurrence(cps: seq<Checkpoint>, h: Hash, p: nat, i: nat) {
    && p < |cps| && i < |cps[p].transactions| && cps[p].transactions[i].hash == h
    && (forall j :: 0 <= j < i ==> cps[p].transactions[j].hash != h)
    && Absent(cps[p + 1..], h)
  }

  /** The location is that transaction, its checkpoint and the effect recorded at its own index, if any. */
  ghost predicate Describes(c: Checkpoint, i: nat, r: Location)
    requires i < |c.transactions|
  {
    && r.tx == c.transactions[i] && r.sequence == c.sequence && r.stateRoot == c.stateRoot
    && (r.effect.None? <==> i >= |c.effects|)
    && (i < |c.effects| ==> r.effect == Some(c.effects[i]))
  }

  ghost predicate FoundAt(cps: seq<Checkpoint>, h: Hash, p: nat, i: nat, r: Location) {
    NewestOccurrence(cps, h, p, i) && Describes(cps[p], i, r)
  }

  lemma FoundBefore(front: seq<Checkpoint>, c: Checkpoint, h: Hash, p: nat, i: nat, r: Location)
    requires FoundAt(front, h, p, i, r) && Position(c.transactions, h) == |c.transactions|
    ensures FoundAt(front + [c], h, p, i, r)
  {
    var cps := front + [c];
    var later := cps[p + 1..];
    assert cps[p] == front[p];
    forall q, j | 0 <= q < |later| && 0 <= j < |later[q].transactions|
      ensures later[q].transactions[j].hash != h
    {
      if q < |front| - p - 1 {
        assert later[q] == front[p + 1..][q];
      } else {
        assert later[q] == c;
      }
    }
  }

  /** The scan finds nothing exactly when no retained checkpoint has the hash, and else its newest occurrence. */
  lemma {:induction false} ScanTells(cps: seq<Checkpoint>, h: Hash)
    ensures NewestFirst(cps, h).None? <==> Absent(cps, h)
    ensures NewestFirst(cps, h).Some? ==> exists p: nat, i: nat :: FoundAt(cps, h, p, i, NewestFirst(cps, h).value)
  {
    if cps != [] {
      var n := |cps| - 1;
      var c, front := cps[n], cps[..n];
      var i := Position(c.transactions, h);
      if i < |c.transactions| {
        assert FoundAt(cps, h, n, i, NewestFirst(cps, h).value);
      } else {
        ScanTells(front, h);
        if NewestFirst(front, h).Some? {
          var p: nat, k: nat :| FoundAt(front, h, p, k, NewestFirst(front, h).value);
          FoundBefore(front, c, h, p, k, NewestFirst(front, h).value);
          assert cps == front + [c];
        }
      }
    }
  }

  predicate Holds(c: Checkpoint, h: Hash) {
    Position(c.transactions, h) < |c.transactions|
  }

  ghost predicate NewestAt(cps: seq<Checkpoint>, h: Hash, p: nat) {
    p < |cps| && Holds(cps[p], h) && forall r :: p < r < |cps| ==> !Holds(cps[r], h)
  }

  /** The entry names the newest retained occurrence of the hash. */
  ghost predicate EntryOk(cps: seq<Checkpoint>, h: Hash, entry: (nat, nat)) {
    exists p: nat :: NewestAt(cps, h, p) && entry == (cps[p].sequence, Position(cps[p].transactions, h))
  }

  ghost predicate IndexOk(index: map<Hash, (nat, nat)>, cps: seq<Checkpoint>) {
    forall h :: h in index ==> EntryOk(cps, h, index[h])
  }

  lemma EntryIn(cps: seq<Checkpoint>, h: Hash, entry: (nat, nat)) returns (p: nat)
    requires EntryOk(cps, h, entry)
    ensures NewestAt(cps, h, p) && entry == (cps[p].sequence, Position(cps[p].transactions, h))
  {
    p :| NewestAt(cps, h, p) && entry == (cps[p].sequence, Position(cps[p].transactions, h));
  }

  lemma {:induction false} NewestIsScanned(cps: seq<Checkpoint>, h: Hash, p: nat)
    requires NewestAt(cps, h, p)
    ensures NewestFirst(cps, h) == Some(LocationAt(cps[p], Position(cps[p].transactions, h)))
  {
    if p < |cps| - 1 {
      assert !Holds(cps[|cps| - 1], h);
      NewestIsScanned(cps[..|cps| - 1], h, p);
    }
  }

  function Prefix(c: Checkpoint, n: nat): Checkpoint
    requires n <= |c.transactions|
  {
    c.(transactions := c.transactions[..n])
  }

  lemma EntryBeforeCheckpoint(cps: seq<Checkpoint>, c: Checkpoint, h: Hash, entry: (nat, nat))
    requires EntryOk(cps, h, entry)
    ensures EntryOk(cps + [Prefix(c, 0)], h, entry)
  {
    var p := EntryIn(cps, h, entry);
    var more := cps + [Prefix(c, 0)];
    assert more[p] == cps[p];
    assert NewestAt(more, h, p);
  }

  lemma IndexBeforeCheckpoint(index: map<Hash, (nat, nat)>, cps: seq<Checkpoint>, c: Checkpoint)
    requires IndexOk(index, cps)
    ensures IndexOk(index, cps + [Prefix(c, 0)])
  {
    forall h | h in index
      ensures EntryOk(cps + [Prefix(c, 0)], h, index[h])
    {
      EntryBeforeCheckpoint(cps, c, h, index[h]);
    }
  }

  lemma EntryNext(cps: seq<Checkpoint>, c: Checkpoint, n: nat, h: Hash, entry: (nat, nat))
    requires n < |c.transactions| && Distinct(Hashes(c)) && h != c.transactions[n].hash
    requires EntryOk(cps + [Prefix(c, n)], h, entry)
    ensures EntryOk(cps + [Prefix(c, n + 1)], h, entry)
  {
    var before, after := cps + [Prefix(c, n)], cps + [Prefix(c, n + 1)];
    PositionInPrefix(c, n, h);
    var p := EntryIn(before, h, entry);
    assert p < |cps| ==> after[p] == before[p];
    forall r | p < r < |after|
      ensures !Holds(after[r], h)
    {
      assert !Holds(before[r], h);
      assert r < |cps| ==> after[r] == before[r];
    }
    assert NewestAt(after, h, p);
  }

  lemma EntryOfNext(cps: seq<Checkpoint>, c: Checkpoint, n: nat)
    requires n < |c.transactions| && Distinct(Hashes(c))
    ensures EntryOk(cps + [Prefix(c, n + 1)], c.transactions[n].hash, (c.sequence, n))
  {
    PositionInPrefix(c, n, c.transactions[n].hash);
    assert NewestAt(cps + [Prefix(c, n + 1)], c.transactions[n].hash, |cps|);
  }

  /** Indexing the next transaction of the newest checkpoint keeps the index exact. */
  lemma IndexNext(index: map<Hash, (nat, nat)>, cps: seq<Checkpoint>, c: Checkpoint, n: nat)
    requires n < |c.transactions| && Distinct(Hashes(c))
    requires IndexOk(index, cps + [Prefix(c, n)])
    ensures IndexOk(index[c.transactions[n].hash := (c.sequence, n)], cps + [Prefix(c, n + 1)])
  {
    var next := index[c.transactions[n].hash := (c.sequence, n)];
    forall h | h in next
      ensures EntryOk(cps + [Prefix(c, n + 1)], h, next[h])
    {
      if h == c.transactions[n].hash {
        EntryOfNext(cps, c, n);
      } else {
        EntryNext(cps, c, n, h, index[h]);
      }
    }
  }

  lemma PositionInPrefix(c: Checkpoint, n: nat, h: Hash)
    requires n < |c.transactions| && Distinct(Hashes(c))
    ensures h == c.transactions[n].hash ==> Position(c.transactions[..n + 1], h) == n
    ensures h != c.transactions[n].hash ==>
              Holds(Prefix(c, n + 1), h) == Holds(Prefix(c, n), h)
              && (Holds(Prefix(c, n), h) ==> Position(c.transactions[..n + 1], h) == Position(c.transactions[..n], h))
  {
    assert forall i :: 0 <= i < |c.transactions| ==> Hashes(c)[i] == c.transactions[i].hash;
    var shorter, longer := c.transactions[..n], c.transactions[..n + 1];
    var i := Position(longer, h);
    if h == c.transactions[n].hash {
      assert longer[n].hash == h;
      assert forall j :: 0 <= j < n ==> longer[j].hash == Hashes(c)[j] != Hashes(c)[n];
    } else {
      var k := Position(shorter, h);
      assert forall j :: 0 <= j < n ==> shorter[j] == longer[j];
      if i < |longer| {
        assert longer[n].hash != h;
      }
    }
  }

  lemma EntryEvicts(cps: seq<Checkpoint>, h: Hash, entry: (nat, nat))
    requires |cps| > 1 && EntryOk(cps, h, entry) && !Holds(cps[1], h)
    ensures EntryOk([cps[0]] + cps[2..], h, entry)
  {
    var kept := [cps[0]] + cps[2..];
    var p := EntryIn(cps, h, entry);
    var q: nat := if p == 0 then 0 else p - 1;
    assert kept[q] == cps[p];
    assert forall r :: q < r < |kept| ==> kept[r] == cps[r + 1];
    assert NewestAt(kept, h, q);
  }

  /** Evicting the oldest non-genesis checkpoint, together with its index entries. */
  lemma IndexEvicts(index: map<Hash, (nat, nat)>, cps: seq<Checkpoint>)
    requires IndexOk(index, cps) && |cps| > 1
    requires forall h :: h in index ==> !Holds(cps[1], h)
    ensures IndexOk(index, [cps[0]] + cps[2..])
  {
    forall h | h in index
      ensures EntryOk([cps[0]] + cps[2..], h, index[h])
    {
      EntryEvicts(cps, h, index[h]);
    }
  }

  lemma NotHeld(c: Checkpoint, index: map<Hash, (nat, nat)>)
    requires forall k :: 0 <= k < |c.transactions| ==> c.transactions[k].hash !in index
    ensures forall h :: h in index ==> !Holds(c, h)
  {}

  lemma {:induction false} IndexedIsLogged(cps: seq<Checkpoint>, h: Hash, p: nat)
    requires p < |cps| && Holds(cps[p], h)
    ensures h in LogOf(cps)
  {
    if p == |cps| - 1 {
      var i := Position(cps[p].transactions, h);
      assert Hashes(cps[p])[i] == h;
    } else {
      IndexedIsLogged(cps[..|cps| - 1], h, p);
    }
  }

  /** The index never holds more entries than the retained checkpoints hold transactions. */
  lemma IndexIsSmall(index: map<Hash, (nat, nat)>, cps: seq<Checkpoint>)
    requires IndexOk(index, cps)
    ensures |index| <= |LogOf(cps)|
  {
    forall h | h in index
      ensures h in LogOf(cps)
    {
      var p := EntryIn(cps, h, index[h]);
      IndexedIsLogged(cps, h, p);
    }
    ElementsAreFew(LogOf(cps), index.Keys);
  }

  // ---------------------------------------------------------------------------
  // The blockchain
  // ---------------------------------------------------------------------------

  lemma LinkedRunExtends(run: seq<Checkpoint>, c: Checkpoint, hashOf: Checkpoint -> Hash)
    requires LinkedRun(run, hashOf)
    requires run != [] ==> c.sequence == run[|run| - 1].sequence + 1 && c.prevHash == hashOf(run[|run| - 1])
    ensures LinkedRun(run + [c], hashOf)
  {
    assert forall i :: 0 <= i < |run| ==> (run + [c])[i] == run[i];
  }

  lemma LinkedRunSuffix(run: seq<Checkpoint>, k: nat, hashOf: Checkpoint -> Hash)
    requires LinkedRun(run, hashOf) && k <= |run|
    ensures LinkedRun(run[k..], hashOf)
  {
    assert forall i :: 0 <= i < |run| - k ==> run[k..][i] == run[k + i];
  }

  lemma WellFormedAppends(cps: seq<Checkpoint>, c: Checkpoint, hashOf: Checkpoint -> Hash)
    requires WellFormed(cps, hashOf)
    requires c.sequence == cps[|cps| - 1].sequence + 1 && c.prevHash == hashOf(cps[|cps| - 1])
    ensures |cps| < MAX_RETAINED_BLOCKS ==> WellFormed(cps + [c], hashOf)
  {
    LinkedRunExtends(cps[1..], c, hashOf);
    assert (cps + [c])[1..] == cps[1..] + [c];
  }

  lemma WellFormedEvicts(cps: seq<Checkpoint>, c: Checkpoint, hashOf: Checkpoint -> Hash)
    requires WellFormed(cps, hashOf) && |cps| == MAX_RETAINED_BLOCKS
    requires c.sequence == cps[|cps| - 1].sequence + 1 && c.prevHash == hashOf(cps[|cps| - 1])
    ensures WellFormed([GENESIS] + (cps + [c])[2..], hashOf)
  {
    LinkedRunExtends(cps[1..], c, hashOf);
    LinkedRunSuffix(cps[1..] + [c], 1, hashOf);
    var kept := [GENESIS] + (cps + [c])[2..];
    assert kept[1..] == (cps[1..] + [c])[1..];
    assert kept[1] == cps[2] == cps[1..][1];
  }

  /** The retained window after an append: the oldest non-genesis checkpoint gives way. */
  function Window(cps: seq<Checkpoint>): seq<Checkpoint> {
    if |cps| > MAX_RETAINED_BLOCKS then [cps[0]] + cps[2..] else cps
  }

  /** The window after the checkpoints `added` have been appended one by one. */
  ghost function WindowAfter(cps: seq<Checkpoint>, added: seq<Checkpoint>): seq<Checkpoint> {
    if added == [] then cps else Window(WindowAfter(cps, added[..|added| - 1]) + [added[|added| - 1]])
  }

  /** However many were appended, the first checkpoint and the most recent ones of the rest are retained. */
  lemma {:induction false} WindowIsRecent(first: Checkpoint, rest: seq<Checkpoint>, added: seq<Checkpoint>)
    requires |rest| < MAX_RETAINED_BLOCKS
    ensures WindowAfter([first] + rest, added) == [first] + Last(rest + added, MAX_RETAINED_BLOCKS - 1)
  {
    if added == [] {
      assert rest + added == rest;
    } else {
      var init, last := added[..|added| - 1], added[|added| - 1];
      WindowIsRecent(first, rest, init);
      AppendLast(rest, added);
      var kept := Last(rest + init, MAX_RETAINED_BLOCKS - 1);
      assert ([first] + kept) + [last] == [first] + (kept + [last]);
      assert ([first] + (kept + [last]))[2..] == (kept + [last])[1..];
    }
  }

  lemma SecondGone(first: Checkpoint, second: Checkpoint, rest: seq<Checkpoint>)
    requires Hashes(first) == []
    ensures SuffixOf(LogOf([first] + rest), LogOf([first] + ([second] + rest)))
  {
    LogOfOne(first);
    LogOfAppend([first], rest);
    LogOfAppend([first], [second] + rest);
    LogOfAppend([second], rest);
  }

  lemma WindowLog(cps: seq<Checkpoint>)
    requires cps != [] && cps[0] == GENESIS
    ensures SuffixOf(LogOf(Window(cps)), LogOf(cps))
  {
    if |cps| > MAX_RETAINED_BLOCKS {
      FirstTwo(cps);
      SecondGone(cps[0], cps[1], cps[2..]);
    } else {
      assert LogOf(cps)[0..] == LogOf(cps);
    }
  }

  lemma FirstTwo(cps: seq<Checkpoint>)
    requires |cps| >= 2
    ensures cps == [cps[0]] + ([cps[1]] + cps[2..])
  {
  }

  lemma SuffixTransitive(a: seq<Hash>, b: seq<Hash>, c: seq<Hash>)
    requires SuffixOf(a, b) && SuffixOf(b, c)
    ensures SuffixOf(a, c)
  {}

  lemma SuffixExtends(a: seq<Hash>, b: seq<Hash>, more: seq<Hash>)
    requires SuffixOf(a, b)
    ensures SuffixOf(a + more, b + more)
  {}

  /** The log after an accepted append: fresh, and ending in what is retained. */
  lemma LogAppends(cps: seq<Checkpoint>, c: Checkpoint, log: seq<Hash>)
    requires cps != [] && cps[0] == GENESIS
    requires Fresh(log) && SuffixOf(LogOf(cps), log) && Distinct(Hashes(c))
    requires forall i :: 0 <= i < |Hashes(c)| ==> Hashes(c)[i] !in Last(log, MAX_RETAINED_TX_HASHES)
    ensures Fresh(log + Hashes(c)) && SuffixOf(LogOf(Window(cps + [c])), log + Hashes(c))
    ensures Fresh(LogOf(Window(cps + [c])))
    ensures |LogOf(Window(cps + [c]))| <= |LogOf(cps)| + |c.transactions|
  {
    FreshExtends(log, Hashes(c));
    LogOfAppend(cps, [c]);
    LogOfOne(c);
    SuffixExtends(LogOf(cps), log, Hashes(c));
    WindowLog(cps + [c]);
    SuffixTransitive(LogOf(Window(cps + [c])), LogOf(cps + [c]), log + Hashes(c));
    FreshSuffix(LogOf(Window(cps + [c])), log + Hashes(c));
  }

  lemma FreshPrefix(a: seq<Hash>, b: seq<Hash>)
    requires Fresh(a + b)
    ensures Fresh(a)
  {
    assert forall i :: 0 <= i < |a| ==> (a + b)[i] == a[i];
  }

  lemma LogPrefix(cps: seq<Checkpoint>, p: nat)
    requires p < |cps|
    ensures LogOf(cps[..p + 1]) == LogOf(cps[..p]) + Hashes(cps[p])
  {
    assert cps[..p + 1] == cps[..p] + [cps[p]];
    LogOfAppend(cps[..p], [cps[p]]);
    LogOfOne(cps[p]);
  }

  lemma FreshLogPrefix(cps: seq<Checkpoint>, p: nat)
    requires p <= |cps| && Fresh(LogOf(cps))
    ensures Fresh(LogOf(cps[..p]))
  {
    assert cps[..p] + cps[p..] == cps;
    LogOfAppend(cps[..p], cps[p..]);
    FreshPrefix(LogOf(cps[..p]), LogOf(cps[p..]));
  }

  /** One tracked hash of a fresh log: not in the window, which then moves by one. */
  lemma WindowMoves(r: seq<Hash>, n: nat)
    requires Fresh(r) && n < |r|
    ensures r[..n + 1] == r[..n] + [r[n]]
    ensures r[n] !in Last(r[..n], MAX_RETAINED_TX_HASHES)
    ensures Distinct(Last(r[..n], MAX_RETAINED_TX_HASHES) + [r[n]])
    ensures Last(Last(r[..n], MAX_RETAINED_TX_HASHES) + [r[n]], MAX_RETAINED_TX_HASHES)
            == Last(r[..n + 1], MAX_RETAINED_TX_HASHES)
  {
    FreshWindow(r, n);
    assert Fresh(r[..n]);
    WindowIsDistinct(r[..n]);
    LastOfLast(r[..n], [r[n]], MAX_RETAINED_TX_HASHES);
  }

  ghost predicate AllDistinct(cps: seq<Checkpoint>) {
    forall p :: 0 <= p < |cps| ==> Distinct(Hashes(cps[p]))
  }

  lemma WindowAppends(cps: seq<Checkpoint>, c: Checkpoint, hashOf: Checkpoint -> Hash)
    requires WellFormed(cps, hashOf) && AllDistinct(cps) && Distinct(Hashes(c))
    requires c.sequence == cps[|cps| - 1].sequence + 1 && c.prevHash == hashOf(cps[|cps| - 1])
    ensures WellFormed(Window(cps + [c]), hashOf) && AllDistinct(Window(cps + [c]))
  {
    var more := cps + [c];
    assert forall p :: 0 <= p < |cps| ==> more[p] == cps[p];
    assert AllDistinct(more);
    WellFormedAppends(cps, c, hashOf);
    if |cps| == MAX_RETAINED_BLOCKS {
      WellFormedEvicts(cps, c, hashOf);
      var kept := [more[0]] + more[2..];
      assert forall p :: 1 <= p < |kept| ==> kept[p] == more[p + 1];
    }
  }

  /** What is persisted: the window and the counter. */
  ghost predicate PersistedOk(hashOf: Checkpoint -> Hash, cps: seq<Checkpoint>, total: nat, lifetime: nat) {
    && WellFormed(cps, hashOf)
    && AllDistinct(cps)
    && Fresh(LogOf(cps))
    && |LogOf(cps)| <= lifetime
    && total == lifetime
  }

  /** The queue is the end of a log of hashes that itself ends in what is retained. */
  ghost predicate TrackedOk(cps: seq<Checkpoint>, log: seq<Hash>, queue: seq<Hash>, executed: set<Hash>) {
    && Fresh(log) && SuffixOf(LogOf(cps), log)
    && queue == Last(log, MAX_RETAINED_TX_HASHES)
    && executed == (set h | h in queue)
  }

  /** A chain that holds nothing but genesis. */
  ghost predicate IsNew(cps: seq<Checkpoint>, log: seq<Hash>, queue: seq<Hash>, executed: set<Hash>,
                        index: map<Hash, (nat, nat)>)
  {
    cps == [GENESIS] && log == [] && queue == [] && executed == {} && index == map[]
  }

  lemma NewChain(hashOf: Checkpoint -> Hash, cps: seq<Checkpoint>, log: seq<Hash>, queue: seq<Hash>,
                 executed: set<Hash>, index: map<Hash, (nat, nat)>, total: nat, lifetime: nat)
    requires IsNew(cps, log, queue, executed, index) && total == lifetime == 0
    ensures PersistedOk(hashOf, cps, total, lifetime) && TrackedOk(cps, log, queue, executed) && IndexOk(index, cps)
  {
    LogOfOne(GENESIS);
    assert Hashes(GENESIS) == [];
    assert LogOf(cps) == [];
  }

  /** Everything but the index after an accepted append. */
  lemma AppendKeeps(hashOf: Checkpoint -> Hash, cps: seq<Checkpoint>, c: Checkpoint, log: seq<Hash>,
                    queue: seq<Hash>, executed: set<Hash>, total: nat)
    requires PersistedOk(hashOf, cps, total, total) && TrackedOk(cps, log, queue, executed)
    requires c.sequence == cps[|cps| - 1].sequence + 1 && c.prevHash == hashOf(cps[|cps| - 1])
    requires Distinct(Hashes(c)) && forall i :: 0 <= i < |Hashes(c)| ==> Hashes(c)[i] !in executed
    ensures var n := total + |c.transactions|; PersistedOk(hashOf, Window(cps + [c]), n, n)
    ensures var next := Last(log + Hashes(c), MAX_RETAINED_TX_HASHES);
            TrackedOk(Window(cps + [c]), log + Hashes(c), next, set h | h in next)
  {
    LogAppends(cps, c, log);
    WindowAppends(cps, c, hashOf);
  }

  class Blockchain {
    const hashOf: Checkpoint -> Hash
    var checkpoints: seq<Checkpoint>
    var executed: set<Hash>
    var queue: seq<Hash>
    var index: map<Hash, (nat, nat)>
    var total: nat
    ghost var log: seq<Hash>     // every hash tracked since creation or the last rebuild
    ghost var lifetime: nat      // transactions in all checkpoints ever accepted

    ghost predicate ChainValid()
      reads this
    {
      PersistedOk(hashOf, checkpoints, total, lifetime)
    }

    ghost predicate Valid()
      reads this
    {
      && ChainValid()
      && TrackedOk(checkpoints, log, queue, executed)
      && IndexOk(index, checkpoints)
    }

    constructor (hashOf: Checkpoint -> Hash)
      ensures Valid() && this.hashOf == hashOf
      ensures checkpoints == [GENESIS] && log == [] && lifetime == 0
    {
      this.hashOf := hashOf;
      checkpoints, executed, queue, index, total := [GENESIS], {}, [], map[], 0;
      log, lifetime := [], 0;
      new;
      NewChain(this.hashOf, checkpoints, log, queue, executed, index, total, lifetime);
    }

    function Height(): nat
      requires checkpoints != []
      reads this
    {
      checkpoints[|checkpoints| - 1].sequence
    }

    ghost predicate Acceptable(c: Checkpoint)
      requires checkpoints != []
      reads this
    {
      && c.sequence == Height() + 1
      && c.prevHash == hashOf(checkpoints[|checkpoints| - 1])
      && Distinct(Hashes(c))
      && forall i :: 0 <= i < |Hashes(c)| ==> Hashes(c)[i] !in executed
    }

    method Validate(c: Checkpoint) returns (ok: bool)
      requires checkpoints != []
      ensures ok <==> Acceptable(c)
    {
      if c.sequence != Height() + 1 || c.prevHash != hashOf(checkpoints[|checkpoints| - 1]) {
        return false;
      }
      var seen: set<Hash> := {};
      for i := 0 to |c.transactions|
        invariant forall h :: h in seen <==> h in Hashes(c)[..i]
        invariant Distinct(Hashes(c)[..i])
        invariant forall k :: 0 <= k < i ==> Hashes(c)[k] !in executed
      {
        var h := c.transactions[i].hash;
        assert Hashes(c)[i] == h && Hashes(c)[..i + 1] == Hashes(c)[..i] + [h];
        if h in seen {
          assert !Distinct(Hashes(c)) by {
            var k :| 0 <= k < i && Hashes(c)[..i][k] == h;
            assert Hashes(c)[k] == Hashes(c)[i];
          }
          return false;
        }
        if h in executed {
          return false;
        }
        seen := seen + {h};
      }
      assert Hashes(c)[..|c.transactions|] == Hashes(c);
      ok := true;
    }

    /** Drops the oldest tracked hashes beyond the retained number. */
    method TrimQueue()
      requires Distinct(queue) && executed == (set h | h in queue)
      modifies this`executed, this`queue, this`index
      ensures queue == Last(old(queue), MAX_RETAINED_TX_HASHES)
      ensures executed == (set h | h in queue)
      ensures forall cps :: IndexOk(old(index), cps) ==> IndexOk(index, cps)
    {
      while |queue| > MAX_RETAINED_TX_HASHES
        invariant |queue| <= |old(queue)| && queue == old(queue)[|old(queue)| - |queue|..]
        invariant |old(queue)| <= MAX_RETAINED_TX_HASHES ==> queue == old(queue)
        invariant |old(queue)| > MAX_RETAINED_TX_HASHES ==> |queue| >= MAX_RETAINED_TX_HASHES
        invariant Distinct(queue) && executed == (set h | h in queue)
        invariant forall cps :: IndexOk(old(index), cps) ==> IndexOk(index, cps)
      {
        var gone := queue[0];
        assert queue == [gone] + queue[1..];
        queue := queue[1..];
        executed := executed - {gone};
        index := index - {gone};
      }
    }

    /** Records one transaction of the newest checkpoint in the queue and the index. */
    method Record(c: Checkpoint, i: nat, ghost cps: seq<Checkpoint>)
      requires i < |c.transactions| && Distinct(Hashes(c))
      requires c.transactions[i].hash !in queue && executed == (set h | h in queue)
      requires IndexOk(index, cps + [Prefix(c, i)])
      modifies this`executed, this`queue, this`index, this`total
      ensures queue == old(queue) + [c.transactions[i].hash] && executed == (set h | h in queue)
      ensures total == old(total) + 1
      ensures IndexOk(index, cps + [Prefix(c, i + 1)])
    {
      var h := c.transactions[i].hash;
      if h !in executed {
        executed := executed + {h};
        queue := queue + [h];
        total := total + 1;
      }
      IndexNext(index, cps, c, i);
      index := index[h := (c.sequence, i)];
    }

    /** Tracks the transactions of an accepted checkpoint, then trims the queue. */
    method Track(c: Checkpoint)
      requires Valid() && Acceptable(c)
      modifies this`executed, this`queue, this`index, this`total
      ensures queue == Last(old(log) + Hashes(c), MAX_RETAINED_TX_HASHES)
      ensures executed == (set h | h in queue)
      ensures total == old(total) + |c.transactions|
      ensures IndexOk(index, checkpoints + [c])
    {
      IndexBeforeCheckpoint(index, checkpoints, c);
      WindowIsDistinct(log);
      for i := 0 to |c.transactions|
        invariant queue == old(queue) + Hashes(c)[..i]
        invariant executed == (set h | h in queue)
        invariant total == old(total) + i
        invariant IndexOk(index, checkpoints + [Prefix(c, i)])
      {
        ghost var h := c.transactions[i].hash;
        assert Hashes(c)[i] == h && Hashes(c)[..i + 1] == Hashes(c)[..i] + [h];
        Record(c, i, checkpoints);
      }
      assert Hashes(c)[..|c.transactions|] == Hashes(c);
      assert Prefix(c, |c.transactions|) == c;
      LastOfLast(log, Hashes(c), MAX_RETAINED_TX_HASHES);
      TrimQueue();
    }

    /** Tracks and pushes an accepted checkpoint, evicting the oldest one if the window is full. */
    method Push(c: Checkpoint)
      requires Valid() && Acceptable(c)
      modifies this`checkpoints, this`executed, this`queue, this`index, this`total
      ensures checkpoints == Window(old(checkpoints) + [c])
      ensures queue == Last(old(log) + Hashes(c), MAX_RETAINED_TX_HASHES) && executed == (set h | h in queue)
      ensures total == old(total) + |c.transactions|
      ensures IndexOk(index, checkpoints)
    {
      Track(c);
      checkpoints := checkpoints + [c];
      if |checkpoints| > MAX_RETAINED_BLOCKS {
        Evict();
      }
    }

    /**
     Appends a checkpoint with validation. It is accepted exactly when it is the
     next one, linked to the last one, and free of duplicate and retained hashes;
     a rejected one changes nothing.
     */
    method AddCheckpoint(c: Checkpoint) returns (ok: bool)
      requires Valid()
      modifies this
      ensures Valid()
      ensures ok <==> old(Acceptable(c))
      ensures !ok ==> unchanged(this)
      ensures ok ==> checkpoints == Window(old(checkpoints) + [c])
      ensures ok ==> log == old(log) + Hashes(c) && lifetime == old(lifetime) + |c.transactions|
    {
      ok := Validate(c);
      if !ok {
        return;
      }
      AppendKeeps(hashOf, checkpoints, c, log, queue, executed, total);
      Push(c);
      log, lifetime := log + Hashes(c), lifetime + |c.transactions|;
    }

    method Unindex(c: Checkpoint)
      modifies this`index
      ensures forall k :: 0 <= k < |c.transactions| ==> c.transactions[k].hash !in index
      ensures forall cps :: IndexOk(old(index), cps) ==> IndexOk(index, cps)
    {
      for i := 0 to |c.transactions|
        invariant forall k :: 0 <= k < i ==> c.transactions[k].hash !in index
        invariant forall cps :: IndexOk(old(index), cps) ==> IndexOk(index, cps)
      {
        index := index - {c.transactions[i].hash};
      }
    }

    /** Removes the oldest non-genesis checkpoint and its index entries. */
    method Evict()
      requires |checkpoints| > 1 && IndexOk(index, checkpoints)
      modifies this`checkpoints, this`index
      ensures checkpoints == [old(checkpoints)[0]] + old(checkpoints)[2..]
      ensures IndexOk(index, checkpoints)
    {
      var evicted := checkpoints[1];
      Unindex(evicted);
      NotHeld(evicted, index);
      IndexEvicts(index, checkpoints);
      checkpoints := [checkpoints[0]] + checkpoints[2..];
    }

    /** The hash queue, the executed set and the index agree with a log and the checkpoints behind it. */
    ghost predicate Synced(cps: seq<Checkpoint>, r: seq<Hash>)
      reads this
    {
      && queue == Last(r, MAX_RETAINED_TX_HASHES) && executed == (set h | h in queue)
      && IndexOk(index, cps)
    }

    method RecordAndTrim(c: Checkpoint, i: nat, ghost cps: seq<Checkpoint>, ghost r: seq<Hash>, ghost n: nat)
      requires i < |c.transactions| && Distinct(Hashes(c))
      requires Fresh(r) && n < |r| && r[n] == c.transactions[i].hash
      requires Synced(cps + [Prefix(c, i)], r[..n])
      modifies this`executed, this`queue, this`index, this`total
      ensures Synced(cps + [Prefix(c, i + 1)], r[..n + 1]) && total == old(total) + 1
    {
      WindowMoves(r, n);
      Record(c, i, cps);
      TrimQueue();
    }

    /** The first `i` transactions of a retained checkpoint have been indexed. */
    ghost predicate Loading(c: Checkpoint, i: nat, done: seq<Checkpoint>, before: seq<Hash>)
      reads this
    {
      && i <= |c.transactions| && Distinct(Hashes(c)) && Fresh(before + Hashes(c))
      && Synced(done + [Prefix(c, i)], (before + Hashes(c))[..|before| + i])
    }

    method ReindexNext(c: Checkpoint, i: nat, ghost done: seq<Checkpoint>, ghost before: seq<Hash>)
      requires i < |c.transactions| && Loading(c, i, done, before)
      modifies this`executed, this`queue, this`index, this`total
      ensures Loading(c, i + 1, done, before) && total == old(total) + 1
    {
      ghost var r := before + Hashes(c);
      assert r[|before| + i] == Hashes(c)[i];
      RecordAndTrim(c, i, done, r, |before| + i);
    }

    /** Indexes one retained checkpoint during a rebuild, trimming as it goes. */
    method Reindex(c: Checkpoint, ghost done: seq<Checkpoint>, ghost before: seq<Hash>)
      requires Distinct(Hashes(c)) && Fresh(before + Hashes(c)) && Synced(done, before)
      modifies this`executed, this`queue, this`index, this`total
      ensures Synced(done + [c], before + Hashes(c)) && total == old(total) + |c.transactions|
    {
      IndexBeforeCheckpoint(index, done, c);
      assert (before + Hashes(c))[..|before|] == before;
      for i := 0 to |c.transactions|
        invariant Loading(c, i, done, before) && total == old(total) + i
      {
        ReindexNext(c, i, done, before);
      }
      assert (before + Hashes(c))[..|before| + |c.transactions|] == before + Hashes(c);
      assert Prefix(c, |c.transactions|) == c;
    }

    method ReindexAll()
      requires Fresh(LogOf(checkpoints)) && AllDistinct(checkpoints)
      modifies this`executed, this`queue, this`index, this`total
      ensures queue == Last(LogOf(checkpoints), MAX_RETAINED_TX_HASHES) && executed == (set h | h in queue)
      ensures total == |LogOf(checkpoints)|
      ensures IndexOk(index, checkpoints)
    {
      executed, queue, index, total := {}, [], map[], 0;
      for p := 0 to |checkpoints|
        invariant Synced(checkpoints[..p], LogOf(checkpoints[..p]))
        invariant total == |LogOf(checkpoints[..p])|
      {
        LogPrefix(checkpoints, p);
        FreshLogPrefix(checkpoints, p + 1);
        assert checkpoints[..p + 1] == checkpoints[..p] + [checkpoints[p]];
        Reindex(checkpoints[p], checkpoints[..p], LogOf(checkpoints[..p]));
      }
      assert checkpoints[..|checkpoints|] == checkpoints;
    }

    /**
     Rebuilds every index from the retained checkpoints, whatever was in them: the
     state a restart reaches after reading back the window and the counter.
     */
    method Rebuild()
      requires ChainValid()
      modifies this
      ensures Valid()
      ensures checkpoints == old(checkpoints) && lifetime == old(lifetime) && total == old(total)
      ensures log == LogOf(checkpoints)
    {
      var persisted := total;
      ReindexAll();
      total := Max(total, persisted);
      log := LogOf(checkpoints);
    }

    function GetCheckpoint(sequence: nat): (r: Option<Checkpoint>)
      reads this
      ensures r.Some? ==> r.value in checkpoints && r.value.sequence == sequence
      ensures r.None? ==> forall p :: 0 <= p < |checkpoints| ==> checkpoints[p].sequence != sequence
    {
      FindSequence(checkpoints, sequence)
    }

    /**
     The indexed lookup returns what a newest-first scan of the window returns: nothing exactly
     when the hash is not retained, and else the newest transaction with it and its own effect.
     */
    method Locate(h: Hash) returns (r: Option<Location>)
      requires Valid()
      ensures r == NewestFirst(checkpoints, h)
      ensures r.None? <==> Absent(checkpoints, h)
      ensures r.Some? ==> exists p: nat, i: nat :: FoundAt(checkpoints, h, p, i, r.value)
    {
      ScanTells(checkpoints, h);
      if h in index {
        var (sequence, i) := index[h];
        var c := GetCheckpoint(sequence);
        ghost var p := EntryIn(checkpoints, h, index[h]);
        UniqueSequence(checkpoints, hashOf, p, sequence);
        NewestIsScanned(checkpoints, h, p);
        if c.Some? && i < |c.value.transactions| {
          return Some(LocationAt(c.value, i));
        }
      }
      r := NewestFirst(checkpoints, h);
    }

    method RetainedCount() returns (retained: nat)
      ensures retained == |LogOf(checkpoints)|
    {
      retained := 0;
      for p := 0 to |checkpoints|
        invariant retained == |LogOf(checkpoints[..p])|
      {
        LogOfNext(checkpoints, p);
        retained := retained + |checkpoints[p].transactions|;
      }
      assert checkpoints[..|checkpoints|] == checkpoints;
    }

    /** The reported count is the lifetime total, which bounds the index and the window. */
    method TransactionCount() returns (n: nat)
      requires Valid()
      ensures n == lifetime
      ensures n >= |index| && n >= |LogOf(checkpoints)|
    {
      IndexIsSmall(index, checkpoints);
      var retained := RetainedCount();
      n := Max(Max(total, |index|), retained);
    }

    /** The next checkpoint of the chain is accepted unless a hash repeats within it or in the recent log. */
    lemma AcceptableIff(c: Checkpoint)
      requires Valid()
      ensures Acceptable(c) <==>
              && c.sequence == checkpoints[|checkpoints| - 1].sequence + 1
              && c.prevHash == hashOf(checkpoints[|checkpoints| - 1])
              && (forall i, j :: 0 <= i < j < |c.transactions| ==> c.transactions[i].hash != c.transactions[j].hash)
              && forall i :: 0 <= i < |c.transactions| ==> c.transactions[i].hash !in Last(log, 2_000_000)
    {
      assert forall i :: 0 <= i < |c.transactions| ==> Hashes(c)[i] == c.transactions[i].hash;
      assert forall h :: h in executed <==> h in Last(log, MAX_RETAINED_TX_HASHES);
    }

    /** A retained hash is never accepted again, and every retained hash is distinct. */
    lemma RetainedHashesAreGuarded(c: Checkpoint, i: nat)
      requires Valid() && Acceptable(c) && i < |c.transactions|
      ensures Distinct(queue)
      ensures c.transactions[i].hash !in Last(log, MAX_RETAINED_TX_HASHES)
    {
      WindowIsDistinct(log);
      assert Hashes(c)[i] == c.transactions[i].hash;
    }

    /** Puts a lost genesis checkpoint back in front, within the bound. */
    method EnsureGenesis() returns (restored: bool)
      modifies this`checkpoints
      ensures restored <==> !(old(checkpoints) != [] && old(checkpoints)[0].sequence == 0)
      ensures !restored ==> checkpoints == old(checkpoints)
      ensures restored ==> checkpoints == [GENESIS] + Last(old(checkpoints), MAX_RETAINED_BLOCKS - 1)
      ensures restored && old(checkpoints) != [] ==>
                |checkpoints| <= MAX_RETAINED_BLOCKS && Height() == old(Height())
      ensures restored && old(checkpoints) != [] && LinkedRun(old(checkpoints), hashOf)
              && (old(checkpoints)[0].sequence == 1 ==> old(checkpoints)[0].prevHash == hashOf(GENESIS))
              ==> WellFormed(checkpoints, hashOf)
    {
      if checkpoints != [] && checkpoints[0].sequence == 0 {
        return false;
      }
      ghost var run := checkpoints;
      ghost var k := PutGenesisBack();
      RestoredWindow(run, k, checkpoints);
      if run != [] && LinkedRun(run, hashOf) && (run[0].sequence == 1 ==> run[0].prevHash == hashOf(GENESIS)) {
        RestoredIsWellFormed(run, k, hashOf);
      }
      restored := true;
    }

    method PutGenesisBack() returns (ghost k: nat)
      modifies this`checkpoints
      ensures Restoring(old(checkpoints), k, checkpoints) && |checkpoints| <= MAX_RETAINED_BLOCKS
    {
      ghost var run := checkpoints;
      checkpoints := [GENESIS] + checkpoints;
      k := 0;
      while |checkpoints| > MAX_RETAINED_BLOCKS
        invariant Restoring(run, k, checkpoints)
      {
        DropSecond(run, k);
        checkpoints := [checkpoints[0]] + checkpoints[2..];
        k := k + 1;
      }
    }
  }

  /** Genesis in front of a run whose oldest `k` checkpoints were dropped. */
  ghost predicate Restoring(run: seq<Checkpoint>, k: nat, cps: seq<Checkpoint>) {
    k <= |run| && cps == [GENESIS] + run[k..] && (k > 0 ==> |cps| >= MAX_RETAINED_BLOCKS)
  }

  lemma DropSecond(run: seq<Checkpoint>, k: nat)
    requires k < |run|
    ensures var cps := [GENESIS] + run[k..];
            [cps[0]] + cps[2..] == [GENESIS] + run[k + 1..]
  {
  }

  lemma RestoredWindow(run: seq<Checkpoint>, k: nat, cps: seq<Checkpoint>)
    requires Restoring(run, k, cps) && |cps| <= MAX_RETAINED_BLOCKS
    ensures cps == [GENESIS] + Last(run, MAX_RETAINED_BLOCKS - 1)
    ensures run != [] ==> cps[|cps| - 1] == run[|run| - 1]
  {
    assert run[k..] == Last(run, MAX_RETAINED_BLOCKS - 1);
  }

  function FindSequence(cps: seq<Checkpoint>, sequence: nat): (r: Option<Checkpoint>)
    ensures r.Some? ==> r.value in cps && r.value.sequence == sequence
    ensures r.None? ==> forall p :: 0 <= p < |cps| ==> cps[p].sequence != sequence
  {
    if cps == [] then None
    else if cps[0].sequence == sequence then Some(cps[0])
    else FindSequence(cps[1..], sequence)
  }

  lemma UniqueSequence(cps: seq<Checkpoint>, hashOf: Checkpoint -> Hash, p: nat, sequence: nat)
    requires WellFormed(cps, hashOf) && p < |cps| && cps[p].sequence == sequence
    ensures FindSequence(cps, sequence) == Some(cps[p])
  {
    var found := FindSequence(cps, sequence);
    assert found.Some?;
    var q :| 0 <= q < |cps| && cps[q] == found.value;
    if p < q {
      SequencesDiffer(cps, hashOf, p, q);
    } else if q < p {
      SequencesDiffer(cps, hashOf, q, p);
    }
  }

  lemma RestoredIsWellFormed(run: seq<Checkpoint>, k: nat, hashOf: Checkpoint -> Hash)
    requires LinkedRun(run, hashOf) && run != [] && run[0].sequence >= 1
    requires k <= |run| && |run| - k < MAX_RETAINED_BLOCKS && (k > 0 ==> |run| - k == MAX_RETAINED_BLOCKS - 1)
    requires run[0].sequence == 1 ==> run[0].prevHash == hashOf(GENESIS)
    ensures WellFormed([GENESIS] + run[k..], hashOf)
  {
    LinkedRunSuffix(run, k, hashOf);
    assert ([GENESIS] + run[k..])[1..] == run[k..];
    if k > 0 {
      RunIsContiguous(run, hashOf, k);
    }
  }
}
