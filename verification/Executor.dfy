/**
 Serial execution, which is the reference, and what the speculative executors are made of:
 the waves, the apply batches and the two conflict checks.

 The Move VM, the state manager's apply routine, the legacy supply repair and the supply
 figures are arbitrary functions (`Runtime`). What other writers do between a snapshot and
 the write lock is an arbitrary `Environment`.
 */
module Executor {
  import opened Prelude
  import opened ChangeSets
  import opened Ledger
  import opened Merging

  const MAX_SPECULATIVE_WAVE_SIZE: nat := 64

  datatype Transaction = Transaction(
    hash: string, sender: Address, conflictKeys: set<string>, publishesModule: bool)

  /** What the supply checks look at. `indexesAgree` compares every non-native token too. */
  datatype SupplyView = SupplyView(
    total: nat, persisted: Option<nat>, cached: nat, indexed: nat, locked: nat, indexesAgree: bool)

  datatype Runtime = Runtime(
    execute: (Transaction, State) -> Result<ChangeSet>,
    failure: (Transaction, State, string) -> Result<ChangeSet>,
    apply: (State, ChangeSet) -> Result<State>,
    trusts: (seq<Transaction>, seq<ChangeSet>) -> bool,
    applyTrusted: (State, seq<ChangeSet>) -> Result<State>,
    repair: State -> Result<State>,
    supply: State -> SupplyView)

  /** Interference: the state other writers leave behind, and what a speculative execution saw. */
  datatype Environment = Environment(
    writer: (nat, State) -> State,
    seen: (nat, State, nat) -> State)

  datatype Settings = Settings(batchScheduler: bool, batchCap: nat)

  datatype Effect = Effect(tx: Transaction, changeset: ChangeSet)

  datatype Tally = Tally(executed: nat, failed: nat, effects: seq<Effect>)

  const NO_TALLY := Tally(0, 0, [])

  /** The live state after a run, and what the run returned. */
  datatype Outcome = Outcome(state: State, result: Result<Tally>)

  // ---------------------------------------------------------------------------
  // Supply validation
  // ---------------------------------------------------------------------------

  predicate PersistedMatches(v: SupplyView) {
    v.persisted.Some? ==> v.persisted.value == v.total
  }

  /** Validation of a speculative candidate, from the canonical indexes. */
  predicate SupplyValid(v: SupplyView) {
    var visible := Max(v.cached, v.indexed);
    && PersistedMatches(v)
    && visible <= v.total
    && visible + v.locked <= v.total
    && v.indexed == visible
    && v.indexesAgree
  }

  /** Validation after each serially applied changeset, from the cache alone. */
  predicate CachedSupplyValid(v: SupplyView) {
    && PersistedMatches(v)
    && v.cached <= v.total
    && v.cached + v.locked <= v.total
  }

  // ---------------------------------------------------------------------------
  // Serial execution: the reference
  // ---------------------------------------------------------------------------

  /** Applies one changeset with supply validation; a rejected changeset changes nothing. */
  function ApplyValidated(rt: Runtime, s: State, cs: ChangeSet): Result<State> {
    if cs.treasuries == map[] && rt.supply(s).cached > rt.supply(s).total && !SupplyValid(rt.supply(s)) then
      Err("supply invariant violated before apply")
    else
      match rt.apply(s, cs)
      case Err(e) => Err(e)
      case Ok(applied) =>
        match rt.repair(applied)
        case Err(e) => Err(e)
        case Ok(repaired) =>
          if CachedSupplyValid(rt.supply(repaired)) then Ok(repaired)
          else Err("supply invariant violated after apply")
  }

  function Executed(t: Tally, tx: Transaction, cs: ChangeSet): Tally {
    Tally(t.executed + 1, t.failed, t.effects + [Effect(tx, cs)])
  }

  function Failed(t: Tally, tx: Transaction, cs: ChangeSet): Tally {
    Tally(t.executed, t.failed + 1, t.effects + [Effect(tx, cs)])
  }

  /** One transaction in canonical order: execute, or charge the failure, then apply. */
  function SerialStep(rt: Runtime, s: State, tx: Transaction, failHard: bool, t: Tally): Outcome {
    match rt.execute(tx, s)
    case Ok(cs) =>
      (match ApplyValidated(rt, s, cs)
       case Ok(next) => Outcome(next, Ok(Executed(t, tx, cs)))
       case Err(e) => Outcome(s, Err(e)))
    case Err(error) =>
      if failHard then Outcome(s, Err(error))
      else
        match rt.failure(tx, s, error)
        case Err(e) => Outcome(s, Err(e))
        case Ok(cs) =>
          match ApplyValidated(rt, s, cs)
          case Ok(next) => Outcome(next, Ok(Failed(t, tx, cs)))
          case Err(e) => Outcome(s, Err(e))
  }

  function SerialRun(rt: Runtime, s: State, txs: seq<Transaction>, failHard: bool, t: Tally): Outcome
    decreases |txs|
  {
    if txs == [] then Outcome(s, Ok(t))
    else
      var o := SerialStep(rt, s, txs[0], failHard, t);
      if o.result.Err? then o
      else SerialRun(rt, o.state, txs[1..], failHard, o.result.value)
  }

  /** Serial execution wave by wave, each wave after whatever other writers did before it. */
  function SerialWaves(rt: Runtime, env: Environment, i: nat, s: State,
                       waves: seq<seq<Transaction>>, failHard: bool, t: Tally): Outcome
    decreases waves
  {
    if waves == [] then Outcome(s, Ok(t))
    else
      var o := SerialRun(rt, env.writer(i, s), waves[0], failHard, t);
      if o.result.Err? then o
      else SerialWaves(rt, env, i + 1, o.state, waves[1..], failHard, o.result.value)
  }

  // ---------------------------------------------------------------------------
  // What the theorems assume
  // ---------------------------------------------------------------------------

  /** Every changeset an execution returns was settled by `ApplyGas`, paid by the sender. */
  ghost predicate Metered(rt: Runtime, collector: Address) {
    forall tx, s :: rt.execute(tx, s).Ok? ==> Settled(rt.execute(tx, s).value, tx.sender, collector)
  }

  ghost predicate Settled(cs: ChangeSet, sender: Address, collector: Address) {
    exists pre, cost, used ::
      PaidBySender(pre, sender) && ApplyGas(pre, sender, collector, cost, used) == Ok(cs)
  }

  /**
   An unchanged access epoch means an unchanged state, seen as it is by every
   speculative execution, and other writers leave a valid supply behind.
   */
  ghost predicate Honest(rt: Runtime, env: Environment) {
    && (forall i, s :: env.writer(i, s).epoch == s.epoch ==> env.writer(i, s) == s)
    && (forall i, s, j :: env.writer(i, s).epoch == s.epoch ==> env.seen(i, s, j) == s)
    && (forall i, s :: CachedSupplyValid(rt.supply(s)) ==> CachedSupplyValid(rt.supply(env.writer(i, s))))
  }

  ghost predicate Quiet(env: Environment) {
    forall i, s :: env.writer(i, s) == s
  }

  // ---------------------------------------------------------------------------
  // Facts about the reference
  // ---------------------------------------------------------------------------

  lemma FullValidationImpliesCached(v: SupplyView)
    requires SupplyValid(v)
    ensures CachedSupplyValid(v)
  {}

  /** The full validation is the cached one, and the indexes agree, hold the cached amount and fit the total. */
  lemma ValidationsCompare(v: SupplyView)
    ensures CachedSupplyValid(v) <==>
            (v.persisted.Some? ==> v.persisted.value == v.total) && v.cached + v.locked <= v.total
    ensures SupplyValid(v) <==>
            CachedSupplyValid(v) && v.cached <= v.indexed && v.indexed + v.locked <= v.total && v.indexesAgree
  {}

  /** A run never leaves the live state with an invalid cached supply, even when it aborts. */
  lemma {:induction false} SerialKeepsSupply(rt: Runtime, s: State, txs: seq<Transaction>, failHard: bool, t: Tally)
    requires CachedSupplyValid(rt.supply(s))
    ensures CachedSupplyValid(rt.supply(SerialRun(rt, s, txs, failHard, t).state))
    decreases txs
  {
    if txs != [] {
      var o := SerialStep(rt, s, txs[0], failHard, t);
      if o.result.Ok? {
        SerialKeepsSupply(rt, o.state, txs[1..], failHard, o.result.value);
      }
    }
  }

  /** A finished run reports one effect per transaction, in order. */
  lemma {:induction false} SerialReportsEach(rt: Runtime, s: State, txs: seq<Transaction>, failHard: bool, t: Tally)
    requires t.executed + t.failed == |t.effects|
    ensures var o := SerialRun(rt, s, txs, failHard, t);
            o.result.Ok? ==>
              && o.result.value.executed + o.result.value.failed == |o.result.value.effects|
              && |o.result.value.effects| == |t.effects| + |txs|
              && (forall k :: 0 <= k < |t.effects| ==> o.result.value.effects[k] == t.effects[k])
              && (forall k :: 0 <= k < |txs| ==> o.result.value.effects[|t.effects| + k].tx == txs[k])
    decreases txs
  {
    if txs != [] {
      var o := SerialStep(rt, s, txs[0], failHard, t);
      if o.result.Ok? {
        SerialReportsEach(rt, o.state, txs[1..], failHard, o.result.value);
        var r := SerialRun(rt, s, txs, failHard, t);
        if r.result.Ok? {
          forall k | 0 <= k < |txs|
            ensures r.result.value.effects[|t.effects| + k].tx == txs[k]
          {
            if k > 0 {
              assert txs[1..][k - 1] == txs[k];
              assert r.result.value.effects[|o.result.value.effects| + (k - 1)].tx == txs[1..][k - 1];
            }
          }
        }
      }
    }
  }

  lemma {:induction false} SerialAppend(rt: Runtime, s: State, a: seq<Transaction>, b: seq<Transaction>,
                                        failHard: bool, t: Tally)
    ensures var o := SerialRun(rt, s, a, failHard, t);
            SerialRun(rt, s, a + b, failHard, t)
            == if o.result.Err? then o else SerialRun(rt, o.state, b, failHard, o.result.value)
    decreases a
  {
    if a == [] {
      assert a + b == b;
    } else {
      assert (a + b)[0] == a[0] && (a + b)[1..] == a[1..] + b;
      var o := SerialStep(rt, s, a[0], failHard, t);
      if o.result.Ok? {
        SerialAppend(rt, o.state, a[1..], b, failHard, o.result.value);
      }
    }
  }

  /** With no other writer, cutting the run into waves changes nothing. */
  lemma {:induction false} QuietWavesAreSerial(rt: Runtime, env: Environment, i: nat, s: State,
                                               waves: seq<seq<Transaction>>, failHard: bool, t: Tally)
    requires Quiet(env)
    ensures SerialWaves(rt, env, i, s, waves, failHard, t) == SerialRun(rt, s, Flatten(waves), failHard, t)
    decreases waves
  {
    if waves != [] {
      SerialAppend(rt, s, waves[0], Flatten(waves[1..]), failHard, t);
      var o := SerialRun(rt, s, waves[0], failHard, t);
      if o.result.Ok? {
        QuietWavesAreSerial(rt, env, i + 1, o.state, waves[1..], failHard, o.result.value);
      }
    }
  }

  // ---------------------------------------------------------------------------
  // Waves and apply batches
  // ---------------------------------------------------------------------------

  ghost predicate IsWave(wave: seq<Transaction>) {
    0 < |wave| <= MAX_SPECULATIVE_WAVE_SIZE && KeysDisjoint(KeysIn, wave)
  }

  /** The wave was full, or holds a key of the transaction that starts the next one. */
  ghost predicate WaveEnds(wave: seq<Transaction>, next: Transaction) {
    || |wave| == MAX_SPECULATIVE_WAVE_SIZE
    || exists i :: 0 <= i < |wave| && !(wave[i].conflictKeys !! next.conflictKeys)
  }

  /** Every wave is one, and is as long as it can be. */
  ghost predicate Scheduled(waves: seq<seq<Transaction>>) {
    && (forall w :: 0 <= w < |waves| ==> IsWave(waves[w]))
    && forall w :: 0 < w < |waves| ==> WaveEnds(waves[w - 1], waves[w][0])
  }

  /** What the wave loop keeps: closed waves, and an open one whose keys are reserved. */
  ghost predicate Cutting(waves: seq<seq<Transaction>>, current: seq<Transaction>, reserved: set<string>,
                          done: seq<Transaction>)
  {
    && Flatten(waves) + current == done && Scheduled(waves)
    && |current| <= MAX_SPECULATIVE_WAVE_SIZE && KeysDisjoint(KeysIn, current) && reserved == KeysOf(current)
    && (waves != [] ==> current != [] && WaveEnds(waves[|waves| - 1], current[0]))
  }

  lemma LastWave(waves: seq<seq<Transaction>>, current: seq<Transaction>, reserved: set<string>,
                 done: seq<Transaction>)
    requires Cutting(waves, current, reserved, done) && current != []
    ensures Flatten(waves + [current]) == done && Scheduled(waves + [current])
  {
    FlattenSnoc(waves, current);
  }

  lemma NextWave(waves: seq<seq<Transaction>>, current: seq<Transaction>, reserved: set<string>,
                 done: seq<Transaction>, tx: Transaction)
    requires Cutting(waves, current, reserved, done) && current != []
    requires |current| >= MAX_SPECULATIVE_WAVE_SIZE || !(tx.conflictKeys !! reserved)
    ensures Cutting(waves + [current], [tx], tx.conflictKeys, done + [tx])
  {
    LastWave(waves, current, reserved, done);
    if !(tx.conflictKeys !! reserved) {
      var k :| k in tx.conflictKeys && k in KeysOf(current);
      var i :| 0 <= i < |current| && k in current[i].conflictKeys;
    }
    KeysOfOne(tx);
  }

  lemma ExtendWave(waves: seq<seq<Transaction>>, current: seq<Transaction>, reserved: set<string>,
                   done: seq<Transaction>, tx: Transaction)
    requires Cutting(waves, current, reserved, done)
    requires current == [] || (|current| < MAX_SPECULATIVE_WAVE_SIZE && tx.conflictKeys !! reserved)
    ensures Cutting(waves, current + [tx], reserved + tx.conflictKeys, done + [tx])
  {
    KeysDisjointSnoc(current, tx);
    assert Flatten(waves) + (current + [tx]) == (Flatten(waves) + current) + [tx];
  }

  lemma NothingCut()
    ensures Cutting([], [], {}, []) && Flatten<Transaction>([]) == [] && Scheduled([])
  {
  }

  lemma KeysOfOne(tx: Transaction)
    ensures KeysOf([tx]) == tx.conflictKeys
  {
    assert [tx][0] == tx;
  }

  /** Cuts the transactions into consecutive waves with disjoint conflict keys, each as long as it can be. */
  method ScheduleWaves(transactions: seq<Transaction>) returns (waves: seq<seq<Transaction>>)
    ensures Flatten(waves) == transactions
    ensures Scheduled(waves)
  {
    hide *;
    waves := [];
    NothingCut();
    var current: seq<Transaction> := [];
    var reserved: set<string> := {};
    for i := 0 to |transactions|
      invariant Cutting(waves, current, reserved, transactions[..i])
      invariant if i > 0 then current != [] else waves == []
    {
      var tx := transactions[i];
      assert transactions[..i + 1] == transactions[..i] + [tx];
      var clash := exists k :: k in tx.conflictKeys && k in reserved;
      if current != [] && (|current| >= MAX_SPECULATIVE_WAVE_SIZE || clash) {
        NextWave(waves, current, reserved, transactions[..i], tx);
        waves, current, reserved := waves + [current], [], {};
        assert {} + tx.conflictKeys == tx.conflictKeys && [] + [tx] == [tx];
      } else {
        ExtendWave(waves, current, reserved, transactions[..i], tx);
      }
      reserved := reserved + tx.conflictKeys;
      current := current + [tx];
    }
    assert transactions[..|transactions|] == transactions;
    if current != [] {
      LastWave(waves, current, reserved, transactions);
      waves := waves + [current];
    }
  }

  function KeysIn(tx: Transaction): set<string> {
    tx.conflictKeys
  }

  ghost function KeysOf(txs: seq<Transaction>): set<string> {
    set i, k | 0 <= i < |txs| && k in txs[i].conflictKeys :: k
  }

  lemma KeysDisjointSnoc(txs: seq<Transaction>, tx: Transaction)
    requires KeysDisjoint(KeysIn, txs) && tx.conflictKeys !! KeysOf(txs)
    ensures KeysDisjoint(KeysIn, txs + [tx]) && KeysOf(txs + [tx]) == KeysOf(txs) + tx.conflictKeys
  {
    var more := txs + [tx];
    assert more[|txs|] == tx;
    forall i | 0 <= i < |txs|
      ensures more[i].conflictKeys !! tx.conflictKeys
    {
      assert more[i] == txs[i] && forall k :: k in txs[i].conflictKeys ==> k in KeysOf(txs);
    }
    forall k | k in KeysOf(txs)
      ensures k in KeysOf(more)
    {
      var i :| 0 <= i < |txs| && k in txs[i].conflictKeys;
      assert more[i] == txs[i];
    }
  }

  function Range(n: nat): (r: seq<nat>)
    ensures |r| == n && forall i :: 0 <= i < n ==> r[i] == i
  {
    seq(n, i => i)
  }

  predicate Within(indices: seq<nat>, n: nat) {
    forall k :: 0 <= k < |indices| ==> indices[k] < n
  }

  function Select<T>(items: seq<T>, indices: seq<nat>): (r: seq<T>)
    requires Within(indices, |items|)
    ensures |r| == |indices| && forall k :: 0 <= k < |indices| ==> r[k] == items[indices[k]]
  {
    seq(|indices|, k requires 0 <= k < |indices| => items[indices[k]])
  }

  /**
   `batches` lists 0..n in order; each is non-empty, within the cap and free of
   conflicts; and each cut was forced by a full batch or by a dependency.
   */
  ghost predicate Batching(batches: seq<seq<nat>>, accesses: seq<AccessSet>, cap: nat) {
    && Flatten(batches) == Range(|accesses|)
    && (forall b :: 0 <= b < |batches| ==> IsBatch(batches[b], accesses, cap))
    && (forall b :: 0 < b < |batches| ==> CutForced(batches[b - 1], batches[b], accesses, cap))
  }

  ghost predicate IsBatch(batch: seq<nat>, accesses: seq<AccessSet>, cap: nat) {
    && 0 < |batch| <= cap
    && Within(batch, |accesses|)
    && ConflictFree(Select(accesses, batch))
  }

  ghost predicate CutForced(batch: seq<nat>, next: seq<nat>, accesses: seq<AccessSet>, cap: nat) {
    && next != [] && next[0] < |accesses| && Within(batch, |accesses|)
    && (|batch| == cap || ConflictsWithSome(next[0], batch, accesses))
  }

  ghost predicate ConflictsWithSome(i: nat, batch: seq<nat>, accesses: seq<AccessSet>)
    requires i < |accesses| && Within(batch, |accesses|)
  {
    exists k :: 0 <= k < |batch| && ConflictsWith(accesses[i], accesses[batch[k]])
  }

  /** What the batch loop keeps: closed batches, and one open batch ending at `index`. */
  ghost predicate Building(batches: seq<seq<nat>>, current: seq<nat>, accesses: seq<AccessSet>, cap: nat, index: nat) {
    && Flatten(batches) + current == Range(index)
    && (forall b :: 0 <= b < |batches| ==> IsBatch(batches[b], accesses, cap))
    && (forall b :: 0 < b < |batches| ==> CutForced(batches[b - 1], batches[b], accesses, cap))
    && IsBatch(current, accesses, cap)
    && (batches != [] ==> CutForced(batches[|batches| - 1], current, accesses, cap))
  }

  lemma OpenBatch(accesses: seq<AccessSet>, cap: nat)
    requires accesses != [] && cap > 0
    ensures Building([], [0], accesses, cap, 1)
  {
    assert Range(1) == [0];
  }

  lemma FinishBatch(batches: seq<seq<nat>>, current: seq<nat>, accesses: seq<AccessSet>, cap: nat)
    requires Building(batches, current, accesses, cap, |accesses|)
    ensures Batching(batches + [current], accesses, cap)
  {
    FlattenSnoc(batches, current);
  }

  lemma CloseBatch(batches: seq<seq<nat>>, current: seq<nat>, accesses: seq<AccessSet>, cap: nat, index: nat)
    requires Building(batches, current, accesses, cap, index) && index < |accesses|
    requires |current| >= cap || ConflictsWithSome(index, current, accesses)
    ensures Building(batches + [current], [index], accesses, cap, index + 1)
  {
    FlattenSnoc(batches, current);
    assert Range(index + 1) == Range(index) + [index];
    assert CutForced(current, [index], accesses, cap);
  }

  lemma ExtendBatch(batches: seq<seq<nat>>, current: seq<nat>, accesses: seq<AccessSet>, cap: nat, index: nat)
    requires Building(batches, current, accesses, cap, index) && index < |accesses|
    requires |current| < cap && !ConflictsWithSome(index, current, accesses)
    ensures Building(batches, current + [index], accesses, cap, index + 1)
  {
    var next := current + [index];
    assert Range(index + 1) == Range(index) + [index];
    assert Flatten(batches) + next == Flatten(batches) + current + [index];
    var selected := Select(accesses, next);
    assert forall k :: 0 <= k < |current| ==> selected[k] == accesses[current[k]];
    assert IsBatch(next, accesses, cap);
  }

  lemma AccumulatedIsSome(accesses: seq<AccessSet>, current: seq<nat>, index: nat)
    requires Within(current, |accesses|) && index < |accesses|
    ensures ConflictsWith(accesses[index], Accumulated(Select(accesses, current)))
            <==> ConflictsWithSome(index, current, accesses)
    ensures Accumulated(Select(accesses, current + [index]))
            == ExtendAccess(Accumulated(Select(accesses, current)), accesses[index])
  {
    AccumulatedConflict(accesses[index], Select(accesses, current));
    var selected := Select(accesses, current + [index]);
    assert selected[..|current|] == Select(accesses, current);
  }

  /** The state of the batch loop before `index`. */
  ghost predicate BatchLoop(batches: seq<seq<nat>>, current: seq<nat>, access: AccessSet,
                            accesses: seq<AccessSet>, cap: nat, index: nat)
  {
    && (if index == 0 then batches == [] && current == [] else Building(batches, current, accesses, cap, index))
    && Within(current, |accesses|) && access == Accumulated(Select(accesses, current))
  }

  predicate MustCut(current: seq<nat>, access: AccessSet, next: AccessSet, cap: nat) {
    current != [] && (|current| >= cap || ConflictsWith(next, access))
  }

  lemma CutStep(batches: seq<seq<nat>>, current: seq<nat>, access: AccessSet,
                accesses: seq<AccessSet>, cap: nat, index: nat)
    requires cap > 0 && index < |accesses| && BatchLoop(batches, current, access, accesses, cap, index)
    requires MustCut(current, access, accesses[index], cap)
    ensures BatchLoop(batches + [current], [index], ExtendAccess(NO_ACCESS, accesses[index]), accesses, cap, index + 1)
  {
    AccumulatedIsSome(accesses, current, index);
    CloseBatch(batches, current, accesses, cap, index);
    AccumulatedIsSome(accesses, [], index);
    assert [] + [index] == [index];
  }

  lemma KeepStep(batches: seq<seq<nat>>, current: seq<nat>, access: AccessSet,
                 accesses: seq<AccessSet>, cap: nat, index: nat)
    requires cap > 0 && index < |accesses| && BatchLoop(batches, current, access, accesses, cap, index)
    requires !MustCut(current, access, accesses[index], cap)
    ensures BatchLoop(batches, current + [index], ExtendAccess(access, accesses[index]), accesses, cap, index + 1)
  {
    AccumulatedIsSome(accesses, current, index);
    if index > 0 {
      ExtendBatch(batches, current, accesses, cap, index);
    } else {
      OpenBatch(accesses, cap);
      assert current + [index] == [0];
    }
  }

  method CutBatches(accesses: seq<AccessSet>, cap: nat) returns (batches: seq<seq<nat>>)
    requires accesses != [] && cap > 0
    ensures Batching(batches, accesses, cap)
  {
    batches := [];
    var current: seq<nat> := [];
    var currentAccess := NO_ACCESS;
    for index := 0 to |accesses|
      invariant BatchLoop(batches, current, currentAccess, accesses, cap, index)
    {
      var access := accesses[index];
      if MustCut(current, currentAccess, access, cap) {
        CutStep(batches, current, currentAccess, accesses, cap, index);
        batches, current, currentAccess := batches + [current], [], NO_ACCESS;
        assert current + [index] == [index];
      } else {
        KeepStep(batches, current, currentAccess, accesses, cap, index);
      }
      currentAccess := ExtendAccess(currentAccess, access);
      current := current + [index];
    }
    FinishBatch(batches, current, accesses, cap);
    batches := batches + [current];
  }

  /** The batches in which the changesets of a wave are applied to the candidate. */
  method ScheduleApplyBatches(css: seq<ChangeSet>, settings: Settings) returns (batches: seq<seq<nat>>)
    requires settings.batchCap > 0
    ensures settings.batchScheduler ==> Batching(batches, Manifests(css), settings.batchCap)
    ensures !settings.batchScheduler ==> batches == if css == [] then [] else [Range(|css|)]
  {
    if css == [] {
      return [];
    }
    if !settings.batchScheduler {
      return [Range(|css|)];
    }
    batches := CutBatches(Manifests(css), settings.batchCap);
  }

  function ApplyBatch(rt: Runtime, s: State, css: seq<ChangeSet>, batch: seq<nat>): Result<State>
    requires Within(batch, |css|)
  {
    if batch == [] then Ok(s) else rt.apply(s, Merged(Select(css, batch)))
  }

  function BatchedApply(rt: Runtime, s: State, css: seq<ChangeSet>, batches: seq<seq<nat>>): Result<State>
    requires forall b :: 0 <= b < |batches| ==> Within(batches[b], |css|)
    decreases |batches|
  {
    if batches == [] then Ok(s)
    else
      match ApplyBatch(rt, s, css, batches[0])
      case Err(e) => Err(e)
      case Ok(next) => BatchedApply(rt, next, css, batches[1..])
  }

  ghost predicate Schedules(batches: seq<seq<nat>>, css: seq<ChangeSet>, settings: Settings) {
    && (settings.batchScheduler ==> Batching(batches, Manifests(css), settings.batchCap))
    && (!settings.batchScheduler ==> batches == if css == [] then [] else [Range(|css|)])
  }

  lemma ScheduleIsWithin(batches: seq<seq<nat>>, css: seq<ChangeSet>, settings: Settings)
    requires Schedules(batches, css, settings)
    ensures forall b :: 0 <= b < |batches| ==> Within(batches[b], |css|)
  {}

  /** One changeset is applied on its own, whatever the scheduler setting. */
  lemma SingleSchedule(batches: seq<seq<nat>>, css: seq<ChangeSet>, settings: Settings)
    requires Schedules(batches, css, settings)
    ensures css == [] ==> batches == []
    ensures |css| == 1 ==> batches == [[0]]
  {
    assert |css| == 1 ==> Range(|css|) == [0];
    if settings.batchScheduler {
      assert forall b :: 0 <= b < |batches| ==> IsBatch(batches[b], Manifests(css), settings.batchCap);
      FlattenIsLonger(batches);
      if |batches| == 1 {
        assert batches == [batches[0]] && batches[1..] == [];
        assert Flatten(batches) == batches[0];
      }
    }
  }

  method ApplyBatches(rt: Runtime, s: State, css: seq<ChangeSet>, batches: seq<seq<nat>>) returns (r: Result<State>)
    requires forall b :: 0 <= b < |batches| ==> Within(batches[b], |css|)
    ensures r == BatchedApply(rt, s, css, batches)
  {
    var candidate := s;
    for b := 0 to |batches|
      invariant BatchedApply(rt, s, css, batches) == BatchedApply(rt, candidate, css, batches[b..])
    {
      assert batches[b..][1..] == batches[b + 1..];
      var next := ApplyBatch(rt, candidate, css, batches[b]);
      if next.Err? {
        return next;
      }
      candidate := next.value;
    }
    r := Ok(candidate);
  }

  /** Applies the changesets batch by batch, merging each batch of two or more. */
  method ApplyDependencyAware(rt: Runtime, s: State, css: seq<ChangeSet>, settings: Settings)
    returns (r: Result<State>, batches: seq<seq<nat>>)
    requires settings.batchCap > 0
    ensures Schedules(batches, css, settings)
    ensures forall b :: 0 <= b < |batches| ==> Within(batches[b], |css|)
    ensures r == BatchedApply(rt, s, css, batches)
  {
    batches := ScheduleApplyBatches(css, settings);
    ScheduleIsWithin(batches, css, settings);
    r := ApplyBatches(rt, s, css, batches);
  }

  // ---------------------------------------------------------------------------
  // The two conflict checks
  // ---------------------------------------------------------------------------

  function AccessOf(result: Result<ChangeSet>): Option<AccessSet> {
    if result.Ok? then Some(Manifest(result.value)) else None
  }

  ghost predicate SomeConflict(accesses: seq<Option<AccessSet>>) {
    exists i, j :: 0 <= i < j < |accesses| && accesses[i].Some? && accesses[j].Some?
      && ConflictsWith(accesses[j].value, accesses[i].value)
  }

  /** The wave check: every access set against every earlier one, failed executions skipped. */
  method AnyIntraWaveConflict(accesses: seq<Option<AccessSet>>) returns (conflict: bool)
    ensures conflict <==> SomeConflict(accesses)
  {
    for j := 0 to |accesses|
      invariant !SomeConflict(accesses[..j])
    {
      if accesses[j].Some? {
        for i := 0 to j
          invariant forall k :: 0 <= k < i && accesses[k].Some? ==> !ConflictsWith(accesses[j].value, accesses[k].value)
        {
          if accesses[i].Some? && ConflictsWith(accesses[j].value, accesses[i].value) {
            return true;
          }
        }
      }
    }
    assert accesses[..|accesses|] == accesses;
    conflict := false;
  }

  /** The one-pass check of the conflict-free executor, against reserved keys. */
  method AnyReservedConflict(accesses: seq<AccessSet>) returns (conflict: bool)
    ensures conflict <==> !ConflictFree(accesses)
  {
    var reservedReads: set<Key> := {};
    var reservedWrites: set<Key> := {};
    for j := 0 to |accesses|
      invariant AccessSet(reservedReads, reservedWrites) == Accumulated(accesses[..j])
      invariant ConflictFree(accesses[..j])
    {
      var access := accesses[j];
      assert accesses[..j + 1][..j] == accesses[..j];
      AccumulatedConflict(access, accesses[..j]);
      var clash :=
        || (exists k :: k in access.writeKeys && (k in reservedReads || k in reservedWrites))
        || (exists k :: k in access.readKeys && k in reservedWrites);
      assert clash == ConflictsWith(access, Accumulated(accesses[..j]));
      if clash {
        return true;
      }
      reservedReads := reservedReads + access.readKeys;
      reservedWrites := reservedWrites + access.writeKeys;
    }
    assert accesses[..|accesses|] == accesses;
    conflict := false;
  }
}
