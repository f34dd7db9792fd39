/**
 The speculative executors of the blockchain engine. A wave is executed against one
 snapshot and committed as a whole, or replayed serially; both executors are lifted here
 from single waves (`Waves`) to whole calls. Each lock section is one atomic step; what
 other writers do between a snapshot and the write lock is an arbitrary `Environment`.
 */
module Speculation {
  import opened Prelude
  import opened ChangeSets
  import opened Ledger
  import opened Executor
  import opened Execution
  import opened Batches
  import opened Waves
  import opened Replay

  // ---------------------------------------------------------------------------
  // Serial execution of alike states
  // ---------------------------------------------------------------------------

  /** Other writers do not look at the epoch either. */
  ghost predicate Oblivious(env: Environment) {
    forall i, s, t :: Alike(s, t) ==> Alike(env.writer(i, s), env.writer(i, t))
  }

  lemma ValidatedAlike(rt: Runtime, s: State, t: State, cs: ChangeSet)
    requires EpochBlind(rt) && Alike(s, t)
    ensures Matches(ApplyValidated(rt, s, cs), ApplyValidated(rt, t, cs))
  {
    assert TreatsAlike(rt, s, t);
    assert Matches(rt.apply(s, cs), rt.apply(t, cs));
    if rt.apply(s, cs).Ok? {
      var x, y := rt.apply(s, cs).value, rt.apply(t, cs).value;
      assert TreatsAlike(rt, x, y);
      if rt.repair(x).Ok? {
        assert TreatsAlike(rt, rt.repair(x).value, rt.repair(y).value);
      }
    }
  }

  lemma StepAlike(rt: Runtime, s: State, t: State, tx: Transaction, failHard: bool, tally: Tally)
    requires EpochBlind(rt) && Alike(s, t)
    ensures SameRun(SerialStep(rt, s, tx, failHard, tally), SerialStep(rt, t, tx, failHard, tally))
  {
    assert TreatsAlike(rt, s, t);
    var r := rt.execute(tx, s);
    assert r == rt.execute(tx, t);
    if r.Ok? {
      ValidatedAlike(rt, s, t, r.value);
    } else {
      var f := rt.failure(tx, s, r.error);
      assert f == rt.failure(tx, t, r.error);
      if f.Ok? {
        ValidatedAlike(rt, s, t, f.value);
      }
    }
  }

  lemma {:induction false} SerialAlike(rt: Runtime, s: State, t: State, txs: seq<Transaction>, failHard: bool,
                                       tally: Tally)
    requires EpochBlind(rt) && Alike(s, t)
    ensures SameRun(SerialRun(rt, s, txs, failHard, tally), SerialRun(rt, t, txs, failHard, tally))
    decreases |txs|
  {
    if txs != [] {
      StepAlike(rt, s, t, txs[0], failHard, tally);
      var x, y := SerialStep(rt, s, txs[0], failHard, tally), SerialStep(rt, t, txs[0], failHard, tally);
      if x.result.Ok? {
        SerialAlike(rt, x.state, y.state, txs[1..], failHard, x.result.value);
      }
    }
  }

  /** Serial execution of one wave more. */
  lemma {:induction false} SerialWavesSnoc(rt: Runtime, env: Environment, i: nat, s: State,
                                           waves: seq<seq<Transaction>>, wave: seq<Transaction>, failHard: bool,
                                           t: Tally)
    ensures var o := SerialWaves(rt, env, i, s, waves, failHard, t);
            SerialWaves(rt, env, i, s, waves + [wave], failHard, t)
            == if o.result.Err? then o
               else SerialRun(rt, env.writer(i + |waves|, o.state), wave, failHard, o.result.value)
    decreases |waves|
  {
    var all := waves + [wave];
    if waves == [] {
      assert all[0] == wave && all[1..] == [];
    } else {
      assert all[0] == waves[0] && all[1..] == waves[1..] + [wave];
      var o := SerialRun(rt, env.writer(i, s), waves[0], failHard, t);
      if o.result.Ok? {
        SerialWavesSnoc(rt, env, i + 1, o.state, waves[1..], wave, failHard, o.result.value);
      }
    }
  }

  /** An error ends serial execution: later waves do not matter. */
  lemma {:induction false} SerialWavesStop(rt: Runtime, env: Environment, s: State, waves: seq<seq<Transaction>>,
                                           k: nat, failHard: bool, t: Tally)
    requires k <= |waves| && SerialWaves(rt, env, 0, s, waves[..k], failHard, t).result.Err?
    ensures SerialWaves(rt, env, 0, s, waves, failHard, t) == SerialWaves(rt, env, 0, s, waves[..k], failHard, t)
    decreases |waves| - k
  {
    if k < |waves| {
      assert waves[..k + 1] == waves[..k] + [waves[k]];
      SerialWavesSnoc(rt, env, 0, s, waves[..k], waves[k], failHard, t);
      SerialWavesStop(rt, env, s, waves, k + 1, failHard, t);
    } else {
      assert waves[..k] == waves;
    }
  }

  lemma ExactSnoc(rt: Runtime, env: Environment, s: State, waves: seq<seq<Transaction>>, k: nat, failHard: bool,
                  state: State, tally: Tally)
    requires k < |waves| && SerialWaves(rt, env, 0, s, waves[..k], failHard, NO_TALLY) == Outcome(state, Ok(tally))
    ensures SerialWaves(rt, env, 0, s, waves[..k + 1], failHard, NO_TALLY)
            == SerialRun(rt, env.writer(k, state), waves[k], failHard, tally)
  {
    assert waves[..k + 1] == waves[..k] + [waves[k]];
    SerialWavesSnoc(rt, env, 0, s, waves[..k], waves[k], failHard, NO_TALLY);
  }

  /** A call that stops behind wave `k`, because of an error or at the end. */
  lemma SerialEnds(rt: Runtime, env: Environment, s: State, waves: seq<seq<Transaction>>, k: nat, failHard: bool)
    requires k <= |waves|
    requires k == |waves| || SerialWaves(rt, env, 0, s, waves[..k], failHard, NO_TALLY).result.Err?
    ensures SerialWaves(rt, env, 0, s, waves[..k], failHard, NO_TALLY)
            == SerialWaves(rt, env, 0, s, waves, failHard, NO_TALLY)
  {
    if k == |waves| {
      assert waves[..k] == waves;
    } else {
      SerialWavesStop(rt, env, s, waves, k, failHard, NO_TALLY);
    }
  }

  // ---------------------------------------------------------------------------
  // The log of a call
  // ---------------------------------------------------------------------------

  /** One wave: the state at its write lock, the changesets it committed if it did, and how it ended. */
  datatype WaveRecord = WaveRecord(
    before: State, committed: Option<seq<ChangeSet>>, batches: seq<seq<nat>>, after: Outcome)

  /** The changesets of a wave, each executed against what it saw of the snapshot. */
  ghost predicate SeenAs(rt: Runtime, env: Environment, i: nat, s: State, wave: seq<Transaction>, css: seq<ChangeSet>) {
    |css| == |wave| && forall j :: 0 <= j < |wave| ==> rt.execute(wave[j], env.seen(i, s, j)) == Ok(css[j])
  }

  /** How a commit came about: speculated on the snapshot, unchanged since, scheduled, applied, validated. */
  ghost predicate SwappedIn(rt: Runtime, env: Environment, settings: Settings, i: nat, s: State,
                            wave: seq<Transaction>, css: seq<ChangeSet>, batches: seq<seq<nat>>, after: State)
  {
    && env.writer(i, s).epoch == s.epoch
    && SeenAs(rt, env, i, s, wave, css) && ConflictFree(Manifests(css))
    && Schedules(batches, css, settings) && AllWithin(batches, |css|)
    && CandidateFrom(rt, env.writer(i, s), css, batches) == Ok(after)
  }

  ghost predicate Swapped(rt: Runtime, env: Environment, settings: Settings, i: nat, s: State, wave: seq<Transaction>,
                          rec: WaveRecord)
  {
    && rec.before == env.writer(i, s) && rec.committed.Some?
    && SwappedIn(rt, env, settings, i, s, wave, rec.committed.value, rec.batches, rec.after.state)
  }

  /** The candidate of a scheduled wave was refused. */
  ghost predicate Declined(rt: Runtime, settings: Settings, before: State, css: seq<ChangeSet>,
                           batches: seq<seq<nat>>)
  {
    Schedules(batches, css, settings) && AllWithin(batches, |css|) && CandidateFrom(rt, before, css, batches).Err?
  }

  /** Why a wave is not committed: a failed execution, a foreign write, a conflict, or a refused candidate. */
  ghost predicate GivesUp(rt: Runtime, env: Environment, settings: Settings, i: nat, s: State, wave: seq<Transaction>,
                          batches: seq<seq<nat>>)
  {
    || (exists j :: 0 <= j < |wave| && rt.execute(wave[j], env.seen(i, s, j)).Err?)
    || env.writer(i, s).epoch != s.epoch
    || exists css :: SeenAs(rt, env, i, s, wave, css)
         && (!ConflictFree(Manifests(css)) || Declined(rt, settings, env.writer(i, s), css, batches))
  }

  predicate AllOk(results: seq<Result<ChangeSet>>) {
    forall j :: 0 <= j < |results| ==> results[j].Ok?
  }

  lemma SeenGivesUp(rt: Runtime, env: Environment, settings: Settings, i: nat, s: State, wave: seq<Transaction>,
                    css: seq<ChangeSet>, batches: seq<seq<nat>>)
    requires SeenAs(rt, env, i, s, wave, css)
    requires !ConflictFree(Manifests(css)) || env.writer(i, s).epoch != s.epoch
             || Declined(rt, settings, env.writer(i, s), css, batches)
    ensures GivesUp(rt, env, settings, i, s, wave, batches)
  {
  }

  lemma FailedGivesUp(rt: Runtime, env: Environment, settings: Settings, i: nat, s: State, wave: seq<Transaction>,
                      results: seq<Result<ChangeSet>>, batches: seq<seq<nat>>)
    requires |results| == |wave| && forall j :: 0 <= j < |wave| ==> results[j] == rt.execute(wave[j], env.seen(i, s, j))
    requires !AllOk(results)
    ensures GivesUp(rt, env, settings, i, s, wave, batches)
  {
  }

  /** A wave that found `s` and the tally `t` was swapped in as executed, or gave up and was replayed. */
  ghost predicate Ran(rt: Runtime, env: Environment, settings: Settings, i: nat, s: State, wave: seq<Transaction>,
                      failHard: bool, t: Tally, rec: WaveRecord)
  {
    && rec.before == env.writer(i, s)
    && (rec.committed.Some? ==>
          && Swapped(rt, env, settings, i, s, wave, rec)
          && rec.after.result == Ok(ExecutedAll(t, wave, rec.committed.value)))
    && (rec.committed.None? ==>
          && GivesUp(rt, env, settings, i, s, wave, rec.batches)
          && rec.after == SerialRun(rt, rec.before, wave, failHard, t)
          && StoresEach(rt, rec.before, wave, failHard, t, rec.after))
  }

  /** What the waves of a log have reached. */
  ghost function Reached(s: State, log: seq<WaveRecord>): Outcome {
    if log == [] then Outcome(s, Ok(NO_TALLY)) else log[|log| - 1].after
  }

  ghost predicate Link(rt: Runtime, env: Environment, settings: Settings, s: State, waves: seq<seq<Transaction>>,
                       failHard: bool, log: seq<WaveRecord>, rec: WaveRecord)
  {
    && |log| < |waves| && Reached(s, log).result.Ok?
    && Ran(rt, env, settings, |log|, Reached(s, log).state, waves[|log|], failHard, Reached(s, log).result.value, rec)
  }

  /** The log is a run: each wave ran from what the one before it left. */
  ghost predicate Chained(rt: Runtime, env: Environment, settings: Settings, s: State, waves: seq<seq<Transaction>>,
                          failHard: bool, log: seq<WaveRecord>)
  {
    forall k :: 0 <= k < |log| ==> Link(rt, env, settings, s, waves, failHard, log[..k], log[k])
  }

  lemma ChainedSnoc(rt: Runtime, env: Environment, settings: Settings, s: State, waves: seq<seq<Transaction>>,
                    failHard: bool, log: seq<WaveRecord>, rec: WaveRecord)
    requires Chained(rt, env, settings, s, waves, failHard, log)
    requires Link(rt, env, settings, s, waves, failHard, log, rec)
    ensures Chained(rt, env, settings, s, waves, failHard, log + [rec]) && Reached(s, log + [rec]) == rec.after
  {
    var more := log + [rec];
    forall k | 0 <= k < |more| ensures Link(rt, env, settings, s, waves, failHard, more[..k], more[k]) {
      if k == |log| {
        assert more[..k] == log;
      } else {
        assert more[..k] == log[..k] && more[k] == log[k];
      }
    }
  }

  /** The log is a run over the waves, to the end or to the first error, and ended in `end`. */
  ghost predicate IsRun(rt: Runtime, env: Environment, settings: Settings, s: State, waves: seq<seq<Transaction>>,
                        failHard: bool, log: seq<WaveRecord>, end: Outcome)
  {
    && Chained(rt, env, settings, s, waves, failHard, log) && Reached(s, log) == end
    && (|log| == |waves| || (|log| < |waves| && end.result.Err?))
  }

  /** The waves hold the transactions in order, and the log is a run over them; no waves is a serial run. */
  ghost predicate IsCall(rt: Runtime, env: Environment, settings: Settings, s: State, txs: seq<Transaction>,
                         waves: seq<seq<Transaction>>, failHard: bool, log: seq<WaveRecord>, end: Outcome)
  {
    && (waves == [] ==>
          && end == SerialRun(rt, s, txs, failHard, NO_TALLY)
          && StoresEach(rt, s, txs, failHard, NO_TALLY, end))
    && (waves != [] ==>
          && Flatten(waves) == txs && Scheduled(waves)
          && IsRun(rt, env, settings, s, waves, failHard, log, end))
  }

  lemma ScheduledCall(rt: Runtime, env: Environment, settings: Settings, s: State, txs: seq<Transaction>,
                      waves: seq<seq<Transaction>>, failHard: bool, log: seq<WaveRecord>, end: Outcome)
    requires Flatten(waves) == txs && Scheduled(waves)
    requires IsRun(rt, env, settings, s, waves, failHard, log, end)
    ensures IsCall(rt, env, settings, s, txs, waves, failHard, log, end)
  {
    if waves == [] {
      SerialStoresEach(rt, s, txs, failHard, NO_TALLY, end);
    }
  }

  lemma ReplayedCall(rt: Runtime, env: Environment, settings: Settings, s: State, txs: seq<Transaction>,
                     failHard: bool, end: Outcome)
    requires end == SerialRun(rt, s, txs, failHard, NO_TALLY) && StoresEach(rt, s, txs, failHard, NO_TALLY, end)
    ensures IsCall(rt, env, settings, s, txs, [], failHard, [], end)
  {
  }

  lemma RunStart(rt: Runtime, env: Environment, settings: Settings, s: State, waves: seq<seq<Transaction>>,
                 failHard: bool)
    ensures RunSoFar(rt, env, settings, s, waves, failHard, 0, [], Outcome(s, Ok(NO_TALLY)))
  {
  }

  /** The log is a run over the first `k` waves. */
  ghost predicate RunSoFar(rt: Runtime, env: Environment, settings: Settings, s: State, waves: seq<seq<Transaction>>,
                           failHard: bool, k: nat, log: seq<WaveRecord>, now: Outcome)
  {
    |log| == k <= |waves| && Chained(rt, env, settings, s, waves, failHard, log) && Reached(s, log) == now
  }

  lemma RunSnoc(rt: Runtime, env: Environment, settings: Settings, s: State, waves: seq<seq<Transaction>>,
                failHard: bool, k: nat, log: seq<WaveRecord>, state: State, tally: Tally, rec: WaveRecord)
    requires RunSoFar(rt, env, settings, s, waves, failHard, k, log, Outcome(state, Ok(tally))) && k < |waves|
    requires Ran(rt, env, settings, k, state, waves[k], failHard, tally, rec)
    ensures RunSoFar(rt, env, settings, s, waves, failHard, k + 1, log + [rec], rec.after)
  {
    ChainedSnoc(rt, env, settings, s, waves, failHard, log, rec);
  }

  lemma RunEnds(rt: Runtime, env: Environment, settings: Settings, s: State, waves: seq<seq<Transaction>>,
                failHard: bool, k: nat, log: seq<WaveRecord>, end: Outcome)
    requires RunSoFar(rt, env, settings, s, waves, failHard, k, log, end) && (k == |waves| || end.result.Err?)
    ensures IsRun(rt, env, settings, s, waves, failHard, log, end)
  {
  }

  /** A wave that was replayed, or whose commit `Serializes`. */
  ghost predicate Harmless(rt: Runtime, books: Books, m: Machine, wave: seq<Transaction>, rec: WaveRecord) {
    rec.committed.Some? ==>
      && |rec.committed.value| == |wave| && AllWithin(rec.batches, |wave|)
      && Serializes(rt, books, m, rec.before, wave, rec.committed.value, rec.batches)
  }

  ghost predicate RecordUndisturbed(rt: Runtime, books: Books, rec: WaveRecord) {
    rec.committed.Some? ==>
      && AllWithin(rec.batches, |rec.committed.value|)
      && Undisturbed(rt, books, rec.before, rec.committed.value, rec.batches)
  }

  ghost predicate AllUndisturbed(rt: Runtime, books: Books, log: seq<WaveRecord>) {
    forall k :: 0 <= k < |log| ==> RecordUndisturbed(rt, books, log[k])
  }

  /** The index of the first wave that is not harmless, or the number of waves when there is none. */
  ghost function FirstHarmful(rt: Runtime, books: Books, m: Machine, waves: seq<seq<Transaction>>,
                              log: seq<WaveRecord>): (n: nat)
    requires |log| <= |waves|
    ensures n <= |log|
  {
    if log == [] then 0
    else
      var n := FirstHarmful(rt, books, m, waves, log[..|log| - 1]);
      if n == |log| - 1 && Harmless(rt, books, m, waves[n], log[n]) then |log| else n
  }

  lemma {:induction false} FirstHarmfulIs(rt: Runtime, books: Books, m: Machine, waves: seq<seq<Transaction>>,
                                          log: seq<WaveRecord>)
    requires |log| <= |waves|
    ensures var n := FirstHarmful(rt, books, m, waves, log);
            && (forall k :: 0 <= k < n ==> Harmless(rt, books, m, waves[k], log[k]))
            && (n < |log| ==> !Harmless(rt, books, m, waves[n], log[n]))
  {
    if log != [] {
      FirstHarmfulIs(rt, books, m, waves, log[..|log| - 1]);
    }
  }

  /**
   What the log tells about a call that ended in `end`: with no harmful wave it is serial
   execution, and the first harmful one ended differently from serial execution with it.
   */
  ghost predicate LogTells(rt: Runtime, env: Environment, books: Books, m: Machine, s: State,
                           waves: seq<seq<Transaction>>, failHard: bool, log: seq<WaveRecord>, end: Outcome)
  {
    && |log| <= |waves|
    && var n := FirstHarmful(rt, books, m, waves, log);
       if n == |log| then SameRun(SerialWaves(rt, env, 0, s, waves, failHard, NO_TALLY), end)
       else !SameRun(SerialWaves(rt, env, 0, s, waves[..n + 1], failHard, NO_TALLY), log[n].after)
  }

  /** The same of a call that is underway. */
  ghost predicate SoFar(rt: Runtime, env: Environment, books: Books, m: Machine, s: State,
                        waves: seq<seq<Transaction>>, failHard: bool, log: seq<WaveRecord>, end: Outcome)
  {
    && |log| <= |waves|
    && var n := FirstHarmful(rt, books, m, waves, log);
       if n == |log| then SameRun(SerialWaves(rt, env, 0, s, waves[..n], failHard, NO_TALLY), end)
       else !SameRun(SerialWaves(rt, env, 0, s, waves[..n + 1], failHard, NO_TALLY), log[n].after)
  }

  /** The wave ended as serial execution from its write lock ends exactly when it is harmless. */
  ghost predicate RecordTells(rt: Runtime, books: Books, m: Machine, wave: seq<Transaction>, failHard: bool, t: Tally,
                              rec: WaveRecord)
  {
    SameRun(SerialRun(rt, rec.before, wave, failHard, t), rec.after) <==> Harmless(rt, books, m, wave, rec)
  }

  lemma OneWaveMore(rt: Runtime, env: Environment, s: State, waves: seq<seq<Transaction>>, k: nat, failHard: bool,
                    state: State, tally: Tally, rec: WaveRecord)
    requires EpochBlind(rt) && Oblivious(env) && k < |waves| && rec.before == env.writer(k, state)
    requires SameRun(SerialWaves(rt, env, 0, s, waves[..k], failHard, NO_TALLY), Outcome(state, Ok(tally)))
    ensures SameRun(SerialWaves(rt, env, 0, s, waves[..k + 1], failHard, NO_TALLY), rec.after)
            <==> SameRun(SerialRun(rt, rec.before, waves[k], failHard, tally), rec.after)
  {
    var x := SerialWaves(rt, env, 0, s, waves[..k], failHard, NO_TALLY).state;
    ExactSnoc(rt, env, s, waves, k, failHard, x, tally);
    SerialAlike(rt, env.writer(k, x), rec.before, waves[k], failHard, tally);
    SameRunSwitches(SerialRun(rt, env.writer(k, x), waves[k], failHard, tally),
                    SerialRun(rt, rec.before, waves[k], failHard, tally), rec.after);
  }

  lemma SameRunSwitches(a: Outcome, b: Outcome, c: Outcome)
    requires SameRun(a, b)
    ensures SameRun(a, c) <==> SameRun(b, c)
  {
  }

  lemma HarmfulSnoc(rt: Runtime, books: Books, m: Machine, waves: seq<seq<Transaction>>, log: seq<WaveRecord>,
                    rec: WaveRecord)
    requires |log| < |waves|
    ensures var n := FirstHarmful(rt, books, m, waves, log);
            FirstHarmful(rt, books, m, waves, log + [rec])
            == if n == |log| && Harmless(rt, books, m, waves[n], rec) then |log| + 1 else n
  {
    assert (log + [rec])[..|log|] == log;
  }

  /** The loop over the waves keeps telling. */
  lemma LogSnoc(rt: Runtime, env: Environment, books: Books, m: Machine, s: State, waves: seq<seq<Transaction>>,
                failHard: bool, log: seq<WaveRecord>, state: State, tally: Tally, rec: WaveRecord)
    requires EpochBlind(rt) && Oblivious(env) && |log| < |waves| && rec.before == env.writer(|log|, state)
    requires SoFar(rt, env, books, m, s, waves, failHard, log, Outcome(state, Ok(tally)))
    requires RecordTells(rt, books, m, waves[|log|], failHard, tally, rec)
    ensures SoFar(rt, env, books, m, s, waves, failHard, log + [rec], rec.after)
  {
    HarmfulSnoc(rt, books, m, waves, log, rec);
    if FirstHarmful(rt, books, m, waves, log) == |log| {
      OneWaveMore(rt, env, s, waves, |log|, failHard, state, tally, rec);
    }
  }

  lemma LogEnds(rt: Runtime, env: Environment, books: Books, m: Machine, s: State, waves: seq<seq<Transaction>>,
                failHard: bool, log: seq<WaveRecord>, end: Outcome)
    requires SoFar(rt, env, books, m, s, waves, failHard, log, end)
    requires |log| == |waves| || end.result.Err?
    ensures LogTells(rt, env, books, m, s, waves, failHard, log, end)
  {
    if FirstHarmful(rt, books, m, waves, log) == |log| {
      SerialEnds(rt, env, s, waves, |log|, failHard);
    }
  }

  /** What one wave is to serial execution, in every case. */
  ghost predicate WaveRan(rt: Runtime, env: Environment, books: Books, m: Machine, collector: Address, i: nat, s: State,
                          wave: seq<Transaction>, failHard: bool, t: Tally, rec: WaveRecord)
  {
    var serial := SerialRun(rt, env.writer(i, s), wave, failHard, t);
    && rec.before == env.writer(i, s)
    && (rec.committed.None? ==> rec.after == serial)
    && (Steady(rt, env, s) && |wave| == 1 ==> rec.after == serial)
    && (Fenced(rt, env, collector, s, wave) ==> rec.after == serial)
    && (Modelled(rt, books, m, collector) && Steady(rt, env, s) && RecordUndisturbed(rt, books, rec) ==>
          RecordTells(rt, books, m, wave, failHard, t, rec))
    && (Steady(rt, env, s) ==> CachedSupplyValid(rt.supply(rec.after.state)))
  }

  ghost predicate ExactSoFar(rt: Runtime, env: Environment, collector: Address, s: State,
                             waves: seq<seq<Transaction>>, failHard: bool, k: nat, now: Outcome)
    requires k <= |waves|
  {
    AllFenced(rt, env, collector, s, waves) ==> SerialWaves(rt, env, 0, s, waves[..k], failHard, NO_TALLY) == now
  }

  ghost predicate TellingSoFar(rt: Runtime, env: Environment, books: Books, m: Machine, collector: Address, s: State,
                               waves: seq<seq<Transaction>>, failHard: bool, log: seq<WaveRecord>, now: Outcome)
  {
    Comparable(rt, env, books, m, collector, s) && AllUndisturbed(rt, books, log) ==>
      SoFar(rt, env, books, m, s, waves, failHard, log, now)
  }

  /** What the loop over the waves keeps. */
  ghost predicate Underway(rt: Runtime, env: Environment, books: Books, m: Machine, collector: Address, s: State,
                           waves: seq<seq<Transaction>>, failHard: bool, k: nat, log: seq<WaveRecord>, now: Outcome)
  {
    && |log| == k <= |waves|
    && (Steady(rt, env, s) ==> Steady(rt, env, now.state))
    && ExactSoFar(rt, env, collector, s, waves, failHard, k, now)
    && TellingSoFar(rt, env, books, m, collector, s, waves, failHard, log, now)
  }

  lemma ExactUnderway(rt: Runtime, env: Environment, books: Books, m: Machine, collector: Address, s: State,
                      waves: seq<seq<Transaction>>, failHard: bool, k: nat, state: State, tally: Tally, rec: WaveRecord)
    requires k < |waves| && ExactSoFar(rt, env, collector, s, waves, failHard, k, Outcome(state, Ok(tally)))
    requires Steady(rt, env, s) ==> Steady(rt, env, state)
    requires WaveRan(rt, env, books, m, collector, k, state, waves[k], failHard, tally, rec)
    ensures ExactSoFar(rt, env, collector, s, waves, failHard, k + 1, rec.after)
  {
    if AllFenced(rt, env, collector, s, waves) {
      ExactSnoc(rt, env, s, waves, k, failHard, state, tally);
      assert Fenced(rt, env, collector, state, waves[k]);
    }
  }

  lemma TellingUnderway(rt: Runtime, env: Environment, books: Books, m: Machine, collector: Address, s: State,
                        waves: seq<seq<Transaction>>, failHard: bool, log: seq<WaveRecord>, state: State,
                        tally: Tally, rec: WaveRecord)
    requires |log| < |waves| && (Steady(rt, env, s) ==> Steady(rt, env, state))
    requires TellingSoFar(rt, env, books, m, collector, s, waves, failHard, log, Outcome(state, Ok(tally)))
    requires WaveRan(rt, env, books, m, collector, |log|, state, waves[|log|], failHard, tally, rec)
    ensures TellingSoFar(rt, env, books, m, collector, s, waves, failHard, log + [rec], rec.after)
  {
    if Comparable(rt, env, books, m, collector, s) && AllUndisturbed(rt, books, log + [rec]) {
      UndisturbedSnoc(rt, books, log, rec);
      LogSnoc(rt, env, books, m, s, waves, failHard, log, state, tally, rec);
    }
  }

  lemma UnderwaySnoc(rt: Runtime, env: Environment, books: Books, m: Machine, collector: Address, s: State,
                     waves: seq<seq<Transaction>>, failHard: bool, k: nat, log: seq<WaveRecord>, state: State,
                     tally: Tally, rec: WaveRecord)
    requires Underway(rt, env, books, m, collector, s, waves, failHard, k, log, Outcome(state, Ok(tally)))
    requires k < |waves| && WaveRan(rt, env, books, m, collector, k, state, waves[k], failHard, tally, rec)
    ensures Underway(rt, env, books, m, collector, s, waves, failHard, k + 1, log + [rec], rec.after)
  {
    ExactUnderway(rt, env, books, m, collector, s, waves, failHard, k, state, tally, rec);
    TellingUnderway(rt, env, books, m, collector, s, waves, failHard, log, state, tally, rec);
  }

  /** How many transactions the first `k` waves hold. */
  function SizeOf(waves: seq<seq<Transaction>>, k: nat): nat
    requires k <= |waves|
  {
    if k == 0 then 0 else SizeOf(waves, k - 1) + |waves[k - 1]|
  }

  lemma {:induction false} SizeIsLength(waves: seq<seq<Transaction>>, k: nat)
    requires k <= |waves|
    ensures SizeOf(waves, k) == |Flatten(waves[..k])|
  {
    if k > 0 {
      SizeIsLength(waves, k - 1);
      FlattenLast(waves[..k]);
      assert waves[..k][..k - 1] == waves[..k - 1];
    }
  }

  lemma NothingCounted(waves: seq<seq<Transaction>>)
    ensures Counted(NO_TALLY, SizeOf(waves, 0))
  {
  }

  /** Some transaction publishes a module. */
  predicate Publishes(txs: seq<Transaction>) {
    exists k :: 0 <= k < |txs| && txs[k].publishesModule
  }

  lemma NoWaves(waves: seq<seq<Transaction>>)
    requires Scheduled(waves)
    ensures waves == [] <==> Flatten(waves) == []
  {
    if waves != [] {
      assert IsWave(waves[0]);
    }
  }

  lemma NoneIsEmpty(waves: seq<seq<Transaction>>)
    requires Scheduled(waves)
    ensures forall w :: 0 <= w < |waves| ==> waves[w] != []
  {
    assert forall w :: 0 <= w < |waves| ==> IsWave(waves[w]);
  }

  lemma SizeOfAll(waves: seq<seq<Transaction>>)
    ensures SizeOf(waves, |waves|) == |Flatten(waves)|
  {
    SizeIsLength(waves, |waves|);
    assert waves[..|waves|] == waves;
  }

  /** What a whole call over waves is to serial execution. */
  ghost predicate CallTells(rt: Runtime, env: Environment, books: Books, m: Machine, collector: Address, s: State,
                            waves: seq<seq<Transaction>>, failHard: bool, log: seq<WaveRecord>, end: Outcome)
  {
    && (AllFenced(rt, env, collector, s, waves) ==> end == SerialWaves(rt, env, 0, s, waves, failHard, NO_TALLY))
    && (Comparable(rt, env, books, m, collector, s) && AllUndisturbed(rt, books, log) ==>
          LogTells(rt, env, books, m, s, waves, failHard, log, end))
  }

  lemma CallEnds(rt: Runtime, env: Environment, books: Books, m: Machine, collector: Address, s: State,
                 waves: seq<seq<Transaction>>, failHard: bool, k: nat, log: seq<WaveRecord>, end: Outcome)
    requires Underway(rt, env, books, m, collector, s, waves, failHard, k, log, end)
    requires k == |waves| || end.result.Err?
    ensures CallTells(rt, env, books, m, collector, s, waves, failHard, log, end)
  {
    if AllFenced(rt, env, collector, s, waves) {
      SerialEnds(rt, env, s, waves, |log|, failHard);
    }
    if Comparable(rt, env, books, m, collector, s) && AllUndisturbed(rt, books, log) {
      LogEnds(rt, env, books, m, s, waves, failHard, log, end);
    }
  }

  // ---------------------------------------------------------------------------
  // The engine
  // ---------------------------------------------------------------------------

  /** What equality with serial execution rests on when the collector sends nothing: no footprint is assumed. */
  ghost predicate Fenced(rt: Runtime, env: Environment, collector: Address, s: State, txs: seq<Transaction>) {
    && Metered(rt, collector) && Steady(rt, env, s)
    && forall j :: 0 <= j < |txs| ==> txs[j].sender != collector
  }

  ghost predicate AllFenced(rt: Runtime, env: Environment, collector: Address, s: State,
                            waves: seq<seq<Transaction>>)
  {
    && Metered(rt, collector) && Steady(rt, env, s)
    && forall w, j :: 0 <= w < |waves| && 0 <= j < |waves[w]| ==> waves[w][j].sender != collector
  }

  lemma FencedWaves(rt: Runtime, env: Environment, collector: Address, s: State, waves: seq<seq<Transaction>>,
                    txs: seq<Transaction>)
    requires Fenced(rt, env, collector, s, txs) && Flatten(waves) == txs
    ensures AllFenced(rt, env, collector, s, waves)
  {
    forall w, j | 0 <= w < |waves| && 0 <= j < |waves[w]| ensures waves[w][j].sender != collector {
      FlattenContains(waves, w, j);
    }
  }

  /** What the comparison with serial execution rests on, whoever sends. */
  ghost predicate Comparable(rt: Runtime, env: Environment, books: Books, m: Machine, collector: Address, s: State) {
    Modelled(rt, books, m, collector) && Oblivious(env) && Steady(rt, env, s)
  }

  ghost predicate Steady(rt: Runtime, env: Environment, s: State) {
    Honest(rt, env) && CachedSupplyValid(rt.supply(s))
  }

  /** The reference for a whole call: waves in order, or one run when a module is published. */
  ghost predicate IsSerial(rt: Runtime, env: Environment, s: State, txs: seq<Transaction>,
                           waves: seq<seq<Transaction>>, failHard: bool, o: Outcome)
  {
    || o == SerialRun(rt, s, txs, failHard, NO_TALLY)
    || (Flatten(waves) == txs && o == SerialWaves(rt, env, 0, s, waves, failHard, NO_TALLY))
  }

  /**
   What a call is to serial execution: a call without waves is a serial run; waves hold the
   transactions in order, and the log tells; when the collector sends nothing, the call is serial.
   */
  ghost predicate ExecutionTells(rt: Runtime, env: Environment, books: Books, m: Machine, collector: Address, s: State,
                                 txs: seq<Transaction>, waves: seq<seq<Transaction>>, failHard: bool,
                                 log: seq<WaveRecord>, end: Outcome)
  {
    && (waves == [] ==> end == SerialRun(rt, s, txs, failHard, NO_TALLY))
    && (waves != [] ==> Flatten(waves) == txs && CallTells(rt, env, books, m, collector, s, waves, failHard, log, end))
    && (Fenced(rt, env, collector, s, txs) ==> IsSerial(rt, env, s, txs, waves, failHard, end))
    && (Fenced(rt, env, collector, s, txs) && Quiet(env) ==> end == SerialRun(rt, s, txs, failHard, NO_TALLY))
  }

  lemma FencedCall(rt: Runtime, env: Environment, collector: Address, s: State, txs: seq<Transaction>,
                   waves: seq<seq<Transaction>>, failHard: bool, end: Outcome)
    requires Flatten(waves) == txs && Fenced(rt, env, collector, s, txs)
    requires AllFenced(rt, env, collector, s, waves) ==>
             end == SerialWaves(rt, env, 0, s, waves, failHard, NO_TALLY)
    ensures IsSerial(rt, env, s, txs, waves, failHard, end)
    ensures Quiet(env) ==> end == SerialRun(rt, s, txs, failHard, NO_TALLY)
  {
    FencedWaves(rt, env, collector, s, waves, txs);
    if Quiet(env) {
      QuietWavesAreSerial(rt, env, 0, s, waves, failHard, NO_TALLY);
    }
  }

  lemma NothingToRun(rt: Runtime, s: State, waves: seq<seq<Transaction>>, txs: seq<Transaction>, failHard: bool)
    requires Flatten(waves) == txs && waves == []
    ensures SerialRun(rt, s, txs, failHard, NO_TALLY) == Outcome(s, Ok(NO_TALLY))
  {
  }

  lemma ScheduledTells(rt: Runtime, env: Environment, books: Books, m: Machine, collector: Address, s: State,
                       txs: seq<Transaction>, waves: seq<seq<Transaction>>, failHard: bool, log: seq<WaveRecord>,
                       end: Outcome)
    requires Flatten(waves) == txs && CallTells(rt, env, books, m, collector, s, waves, failHard, log, end)
    requires waves == [] ==> end == Outcome(s, Ok(NO_TALLY))
    ensures ExecutionTells(rt, env, books, m, collector, s, txs, waves, failHard, log, end)
  {
    if waves == [] {
      NothingToRun(rt, s, waves, txs, failHard);
    }
    if Fenced(rt, env, collector, s, txs) {
      FencedCall(rt, env, collector, s, txs, waves, failHard, end);
    }
  }

  lemma RanTells(rt: Runtime, env: Environment, books: Books, m: Machine, collector: Address, s: State,
                 txs: seq<Transaction>, waves: seq<seq<Transaction>>, failHard: bool, k: nat, log: seq<WaveRecord>,
                 end: Outcome)
    requires Underway(rt, env, books, m, collector, s, waves, failHard, k, log, end)
    requires Flatten(waves) == txs && (k == |waves| || end.result.Err?) && (k == 0 ==> end == Outcome(s, Ok(NO_TALLY)))
    ensures ExecutionTells(rt, env, books, m, collector, s, txs, waves, failHard, log, end)
  {
    CallEnds(rt, env, books, m, collector, s, waves, failHard, k, log, end);
    ScheduledTells(rt, env, books, m, collector, s, txs, waves, failHard, log, end);
  }

  lemma ReplayTells(rt: Runtime, env: Environment, books: Books, m: Machine, collector: Address, s: State,
                    txs: seq<Transaction>, failHard: bool, end: Outcome)
    requires end == SerialRun(rt, s, txs, failHard, NO_TALLY)
    ensures ExecutionTells(rt, env, books, m, collector, s, txs, [], failHard, [], end)
  {
  }

  lemma UnderwayStart(rt: Runtime, env: Environment, books: Books, m: Machine, collector: Address, s: State,
                      waves: seq<seq<Transaction>>, failHard: bool)
    ensures Underway(rt, env, books, m, collector, s, waves, failHard, 0, [], Outcome(s, Ok(NO_TALLY)))
  {
    assert waves[..0] == [];
  }

  /** The pairwise check and the reserved-key check accept the same lists of executed changesets. */
  lemma ChecksAgree(results: seq<Result<ChangeSet>>, css: seq<ChangeSet>)
    requires |css| == |results| && forall j :: 0 <= j < |results| ==> results[j] == Ok(css[j])
    ensures SomeConflict(seq(|results|, j requires 0 <= j < |results| => AccessOf(results[j])))
            <==> !ConflictFree(Manifests(css))
  {
    var accesses := seq(|results|, j requires 0 <= j < |results| => AccessOf(results[j]));
    assert forall j :: 0 <= j < |css| ==> accesses[j] == Some(Manifests(css)[j]);
  }

  lemma SwappedIsSpeculated(rt: Runtime, env: Environment, settings: Settings, i: nat, s: State, wave: seq<Transaction>,
                            rec: WaveRecord)
    requires Swapped(rt, env, settings, i, s, wave, rec) && Steady(rt, env, s)
    ensures rec.before == s && Speculated(rt, s, wave, rec.committed.value)
    ensures CachedSupplyValid(rt.supply(rec.after.state))
  {
    FullValidationImpliesCached(rt.supply(rec.after.state));
  }

  lemma CommittedTells(rt: Runtime, env: Environment, books: Books, m: Machine, collector: Address, settings: Settings,
                       i: nat, s: State, wave: seq<Transaction>, failHard: bool, t: Tally, rec: WaveRecord)
    requires Modelled(rt, books, m, collector) && Steady(rt, env, s) && RecordUndisturbed(rt, books, rec)
    requires Swapped(rt, env, settings, i, s, wave, rec)
    requires rec.after.result == Ok(ExecutedAll(t, wave, rec.committed.value))
    ensures RecordTells(rt, books, m, wave, failHard, t, rec)
  {
    SwappedIsSpeculated(rt, env, settings, i, s, wave, rec);
    CommittedWaveIff(rt, books, m, collector, settings, s, wave, rec.committed.value, rec.batches, failHard, t);
  }

  lemma CommittedExact(rt: Runtime, env: Environment, collector: Address, settings: Settings,
                       i: nat, s: State, wave: seq<Transaction>, failHard: bool, t: Tally, rec: WaveRecord)
    requires Steady(rt, env, s) && Swapped(rt, env, settings, i, s, wave, rec) && wave != []
    requires rec.after.result == Ok(ExecutedAll(t, wave, rec.committed.value))
    requires |wave| == 1 || Fenced(rt, env, collector, s, wave)
    ensures rec.after == SerialRun(rt, env.writer(i, s), wave, failHard, t)
  {
    SwappedIsSpeculated(rt, env, settings, i, s, wave, rec);
    if Fenced(rt, env, collector, s, wave) {
      FencedWaveIsSingle(rt, collector, s, wave, rec.committed.value);
    }
    SingleWaveIsSerial(rt, settings, s, wave, rec.committed.value, rec.batches, failHard, t);
  }

  lemma CommittedRan(rt: Runtime, env: Environment, books: Books, m: Machine, collector: Address, settings: Settings,
                     i: nat, s: State, wave: seq<Transaction>, failHard: bool, t: Tally, rec: WaveRecord)
    requires Swapped(rt, env, settings, i, s, wave, rec) && wave != []
    requires rec.after.result == Ok(ExecutedAll(t, wave, rec.committed.value))
    ensures WaveRan(rt, env, books, m, collector, i, s, wave, failHard, t, rec)
  {
    if Steady(rt, env, s) {
      SwappedIsSpeculated(rt, env, settings, i, s, wave, rec);
      if |wave| == 1 || Fenced(rt, env, collector, s, wave) {
        CommittedExact(rt, env, collector, settings, i, s, wave, failHard, t, rec);
      }
      if Modelled(rt, books, m, collector) && RecordUndisturbed(rt, books, rec) {
        CommittedTells(rt, env, books, m, collector, settings, i, s, wave, failHard, t, rec);
      }
    }
  }

  lemma ReplayedRan(rt: Runtime, env: Environment, books: Books, m: Machine, collector: Address,
                    i: nat, s: State, wave: seq<Transaction>, failHard: bool, t: Tally, rec: WaveRecord)
    requires rec.committed.None? && rec.before == env.writer(i, s)
    requires rec.after == SerialRun(rt, rec.before, wave, failHard, t)
    ensures WaveRan(rt, env, books, m, collector, i, s, wave, failHard, t, rec)
  {
    if Steady(rt, env, s) {
      SerialKeepsSupply(rt, rec.before, wave, failHard, t);
    }
  }

  /** A trusted commit: executed on the snapshot, trusted, unchanged since, applied by the trusted routine. */
  ghost predicate TrustedIn(rt: Runtime, env: Environment, s: State, txs: seq<Transaction>, css: seq<ChangeSet>,
                            after: State)
  {
    && env.writer(0, s).epoch == s.epoch && SeenAs(rt, env, 0, s, txs, css)
    && rt.trusts(txs, css) && rt.applyTrusted(env.writer(0, s), css) == Ok(after)
  }

  /** Why the fast attempt is given up: a failed execution, a foreign write, a conflict, or a refusal. */
  ghost predicate FastGivesUp(rt: Runtime, env: Environment, settings: Settings, s: State, txs: seq<Transaction>,
                              batches: seq<seq<nat>>)
  {
    || (exists j :: 0 <= j < |txs| && rt.execute(txs[j], env.seen(0, s, j)).Err?)
    || env.writer(0, s).epoch != s.epoch
    || exists css :: SeenAs(rt, env, 0, s, txs, css)
         && if rt.trusts(txs, css) then rt.applyTrusted(env.writer(0, s), css).Err?
            else !ConflictFree(Manifests(css)) || Declined(rt, settings, env.writer(0, s), css, batches)
  }

  lemma SeenGivesUpFast(rt: Runtime, env: Environment, settings: Settings, s: State, txs: seq<Transaction>,
                        css: seq<ChangeSet>, batches: seq<seq<nat>>)
    requires SeenAs(rt, env, 0, s, txs, css)
    requires if rt.trusts(txs, css) then rt.applyTrusted(env.writer(0, s), css).Err?
             else !ConflictFree(Manifests(css)) || Declined(rt, settings, env.writer(0, s), css, batches)
    ensures FastGivesUp(rt, env, settings, s, txs, batches)
  {
  }

  lemma FailedGivesUpFast(rt: Runtime, env: Environment, settings: Settings, s: State, txs: seq<Transaction>,
                          results: seq<Result<ChangeSet>>, batches: seq<seq<nat>>)
    requires |results| == |txs| && forall j :: 0 <= j < |txs| ==> results[j] == rt.execute(txs[j], env.seen(0, s, j))
    requires !AllOk(results)
    ensures FastGivesUp(rt, env, settings, s, txs, batches)
  {
  }

  /** The call was committed as a whole, off the trusted path: a run of one wave. */
  ghost predicate CommittedWhole(rt: Runtime, env: Environment, settings: Settings, s: State, txs: seq<Transaction>,
                                 waves: seq<seq<Transaction>>, log: seq<WaveRecord>, serial: Outcome,
                                 r: Result<Tally>)
  {
    && waves == [txs] && |log| == 1 && log[0].committed.Some? && serial == log[0].after
    && Ran(rt, env, settings, 0, s, txs, false, NO_TALLY, log[0])
    && r == Ok(Reported(txs, log[0].committed.value))
  }

  /** The fast attempt was given up and the call ran in waves, from what the other writers left. */
  ghost predicate FellBack(rt: Runtime, env: Environment, settings: Settings, s: State, txs: seq<Transaction>,
                           waves: seq<seq<Transaction>>, log: seq<WaveRecord>, serial: Outcome, r: Result<Tally>)
  {
    && (exists batches :: FastGivesUp(rt, env, settings, s, txs, batches))
    && (waves == [] <==> txs == [] || Publishes(txs))
    && IsCall(rt, env, settings, env.writer(0, s), txs, waves, false, log, serial) && r == serial.result
  }

  function Values(results: seq<Result<ChangeSet>>): (css: seq<ChangeSet>)
    requires AllOk(results)
    ensures |css| == |results| && forall j :: 0 <= j < |results| ==> results[j] == Ok(css[j])
  {
    seq(|results|, j requires 0 <= j < |results| => results[j].value)
  }

  /** A call off the trusted path: a commit of the whole or a fallback, and what either is to serial execution. */
  ghost predicate FastTells(rt: Runtime, env: Environment, books: Books, m: Machine, collector: Address,
                            settings: Settings, s: State, txs: seq<Transaction>, waves: seq<seq<Transaction>>,
                            log: seq<WaveRecord>, serial: Outcome, r: Result<Tally>)
  {
    || (&& CommittedWhole(rt, env, settings, s, txs, waves, log, serial, r)
        && CallTells(rt, env, books, m, collector, s, waves, false, log, serial))
    || (&& FellBack(rt, env, settings, s, txs, waves, log, serial, r)
        && ExecutionTells(rt, env, books, m, collector, env.writer(0, s), txs, waves, false, log, serial))
  }

  /** Without a collector-sent transaction it is serial. */
  ghost predicate FastIsSerial(rt: Runtime, env: Environment, collector: Address, s: State, txs: seq<Transaction>,
                               waves: seq<seq<Transaction>>, serial: Outcome)
  {
    Fenced(rt, env, collector, s, txs) ==>
      && IsSerial(rt, env, env.writer(0, s), txs, waves, false, serial)
      && (Quiet(env) ==> serial == SerialRun(rt, s, txs, false, NO_TALLY))
  }

  lemma CommittedFast(rt: Runtime, env: Environment, books: Books, m: Machine, collector: Address, settings: Settings,
                      s: State, txs: seq<Transaction>, rec: WaveRecord)
    requires Swapped(rt, env, settings, 0, s, txs, rec) && txs != []
    requires rec.after.result == Ok(ExecutedAll(NO_TALLY, txs, rec.committed.value))
    ensures FastTells(rt, env, books, m, collector, settings, s, txs, [txs], [rec], rec.after,
                      Ok(Reported(txs, rec.committed.value)))
    ensures FastIsSerial(rt, env, collector, s, txs, [txs], rec.after)
    ensures SameButCounts(rec.after, rec.after.state, Ok(Reported(txs, rec.committed.value)))
  {
    SingleLog(rt, env, books, m, collector, settings, s, txs, rec);
    ExecutedAllEffects(NO_TALLY, txs, rec.committed.value);
  }

  lemma FellBackFast(rt: Runtime, env: Environment, books: Books, m: Machine, collector: Address, settings: Settings,
                     s: State, txs: seq<Transaction>, batches: seq<seq<nat>>, waves: seq<seq<Transaction>>,
                     log: seq<WaveRecord>, end: Outcome)
    requires FastGivesUp(rt, env, settings, s, txs, batches) && (waves == [] <==> txs == [] || Publishes(txs))
    requires IsCall(rt, env, settings, env.writer(0, s), txs, waves, false, log, end)
    requires ExecutionTells(rt, env, books, m, collector, env.writer(0, s), txs, waves, false, log, end)
    ensures FastTells(rt, env, books, m, collector, settings, s, txs, waves, log, end, end.result)
    ensures FastIsSerial(rt, env, collector, s, txs, waves, end)
    ensures SameButCounts(end, end.state, end.result)
  {
  }

  /** Applies the changesets in batches to a copy, repairs it and validates its supply. */
  method BuildCandidate(rt: Runtime, s: State, css: seq<ChangeSet>, settings: Settings)
    returns (r: Result<State>, batches: seq<seq<nat>>)
    requires settings.batchCap > 0
    ensures Schedules(batches, css, settings) && AllWithin(batches, |css|)
    ensures r == CandidateFrom(rt, s, css, batches)
  {
    var applied;
    applied, batches := ApplyDependencyAware(rt, s, css, settings);
    if applied.Err? {
      return applied, batches;
    }
    r := rt.repair(applied.value);
    if r.Ok? && !SupplyValid(rt.supply(r.value)) {
      r := Err("supply rejected");
    }
  }

  class Engine {
    const rt: Runtime
    const env: Environment
    const settings: Settings
    const collector: Address   // the DAO account that receives every gas fee
    ghost const books: Books   // what the runtime is compared with: the ledger's books
    ghost const machine: Machine   // and what executes
    var state: State

    constructor (rt: Runtime, env: Environment, settings: Settings, collector: Address, state: State,
                 ghost books: Books, ghost machine: Machine)
      ensures this.rt == rt && this.env == env && this.settings == settings && this.collector == collector
      ensures this.state == state && this.books == books && this.machine == machine
    {
      this.rt, this.env, this.settings, this.collector, this.state := rt, env, settings, collector, state;
      this.books, this.machine := books, machine;
    }

    /**
     Replays transactions one by one in canonical order. Each leaves its changeset or its
     failure charge in the state, up to the end or to the first refusal, which leaves nothing.
     */
    method ReplaySerially(txs: seq<Transaction>, failHard: bool, start: Tally) returns (r: Result<Tally>)
      modifies this`state
      ensures StoresEach(rt, old(state), txs, failHard, start, Outcome(state, r))
      ensures Outcome(state, r) == SerialRun(rt, old(state), txs, failHard, start)
    {
      SerialStoresEach(rt, state, txs, failHard, start, SerialRun(rt, state, txs, failHard, start));
      var tally := start;
      for k := 0 to |txs|
        invariant SerialRun(rt, old(state), txs, failHard, start) == SerialRun(rt, state, txs[k..], failHard, tally)
      {
        assert txs[k..][1..] == txs[k + 1..];
        match rt.execute(txs[k], state) {
          case Ok(cs) =>
            match ApplyValidated(rt, state, cs) {
              case Ok(next) => state, tally := next, Executed(tally, txs[k], cs);
              case Err(e) => return Err(e);
            }
          case Err(error) =>
            if failHard {
              return Err(error);
            }
            match rt.failure(txs[k], state, error) {
              case Err(e) => return Err(e);
              case Ok(cs) =>
                match ApplyValidated(rt, state, cs) {
                  case Ok(next) => state, tally := next, Failed(tally, txs[k], cs);
                  case Err(e) => return Err(e);
                }
            }
        }
      }
      r := Ok(tally);
    }

    /**
     Executes a wave against one snapshot and swaps in a candidate state, or gives
     up. Giving up leaves exactly what the other writers left; the swap happens
     only when the epoch is the snapshot's, and it is a single assignment.
     */
    method SpeculateWave(i: nat, wave: seq<Transaction>)
      returns (committed: Option<seq<ChangeSet>>, ghost batches: seq<seq<nat>>)
      requires settings.batchCap > 0
      modifies this`state
      ensures committed.None? ==>
                state == env.writer(i, old(state)) && GivesUp(rt, env, settings, i, old(state), wave, batches)
      ensures committed.Some? ==>
                && |committed.value| == |wave|
                && SwappedIn(rt, env, settings, i, old(state), wave, committed.value, batches, state)
    {
      batches := [];
      var before := state;
      var results := seq(|wave|, j requires 0 <= j < |wave| => rt.execute(wave[j], env.seen(i, before, j)));
      state := env.writer(i, state);

      if !AllOk(results) {
        FailedGivesUp(rt, env, settings, i, before, wave, results, batches);
        return None, batches;
      }
      var css := Values(results);
      ChecksAgree(results, css);
      var conflict := AnyIntraWaveConflict(seq(|results|, j requires 0 <= j < |results| => AccessOf(results[j])));
      if conflict || state.epoch != before.epoch {
        SeenGivesUp(rt, env, settings, i, before, wave, css, batches);
        return None, batches;
      }
      var candidate, cuts := BuildCandidate(rt, state, css, settings);
      batches := cuts;
      if candidate.Err? {
        SeenGivesUp(rt, env, settings, i, before, wave, css, batches);
        return None, batches;
      }
      state := candidate.value;
      committed := Some(css);
    }

    /**
     One wave: the speculative commit, or the serial replay of the whole wave. A replayed
     wave and a committed wave of one transaction end exactly as serial execution does; any
     other ends so, contents and tally, if and only if its commit `Serializes`.
     */
    method RunWave(i: nat, wave: seq<Transaction>, failHard: bool, t: Tally)
      returns (r: Result<Tally>, ghost rec: WaveRecord)
      requires settings.batchCap > 0 && wave != [] && Counted(t, |t.effects|)
      modifies this`state
      ensures r.Ok? ==> Counted(r.value, |t.effects| + |wave|)
      ensures rec.after == Outcome(state, r)
      ensures Ran(rt, env, settings, i, old(state), wave, failHard, t, rec)
      ensures WaveRan(rt, env, books, machine, collector, i, old(state), wave, failHard, t, rec)
    {
      ghost var before := state;
      var committed, batches := SpeculateWave(i, wave);
      if committed.None? {
        SerialReportsEach(rt, state, wave, failHard, t);
        r := ReplaySerially(wave, failHard, t);
        rec := WaveRecord(env.writer(i, before), None, batches, Outcome(state, r));
        ReplayedRan(rt, env, books, machine, collector, i, before, wave, failHard, t, rec);
        return;
      }
      ExecutedAllCounts(t, wave, committed.value);
      r := Ok(ExecutedAll(t, wave, committed.value));
      rec := WaveRecord(env.writer(i, before), committed, batches, Outcome(state, r));
      CommittedRan(rt, env, books, machine, collector, settings, i, before, wave, failHard, t, rec);
    }

    /** Runs one more of the scheduled waves. */
    method RunNext(scheduled: seq<seq<Transaction>>, failHard: bool, i: nat, tally: Tally,
                   ghost start: State, ghost log: seq<WaveRecord>)
      returns (r: Result<Tally>, ghost more: seq<WaveRecord>)
      requires settings.batchCap > 0 && i < |scheduled| && scheduled[i] != [] && Counted(tally, SizeOf(scheduled, i))
      requires Underway(rt, env, books, machine, collector, start, scheduled, failHard, i, log,
                        Outcome(state, Ok(tally)))
      requires RunSoFar(rt, env, settings, start, scheduled, failHard, i, log, Outcome(state, Ok(tally)))
      modifies this`state
      ensures r.Ok? ==> Counted(r.value, SizeOf(scheduled, i + 1))
      ensures Underway(rt, env, books, machine, collector, start, scheduled, failHard, i + 1, more, Outcome(state, r))
      ensures RunSoFar(rt, env, settings, start, scheduled, failHard, i + 1, more, Outcome(state, r))
    {
      ghost var before := state;
      var ran, rec := RunWave(i, scheduled[i], failHard, tally);
      UnderwaySnoc(rt, env, books, machine, collector, start, scheduled, failHard, i, log, before, tally, rec);
      RunSnoc(rt, env, settings, start, scheduled, failHard, i, log, before, tally, rec);
      r, more := ran, log + [rec];
    }

    /** Runs the scheduled waves in order, up to the first error; `k` of them were run. */
    method RunWaves(scheduled: seq<seq<Transaction>>, failHard: bool)
      returns (r: Result<Tally>, ghost k: nat, ghost log: seq<WaveRecord>)
      requires settings.batchCap > 0 && forall w :: 0 <= w < |scheduled| ==> scheduled[w] != []
      modifies this`state
      ensures k <= |scheduled| && (k == |scheduled| || r.Err?)
      ensures r.Ok? ==> Counted(r.value, SizeOf(scheduled, k))
      ensures k == 0 ==> state == old(state) && r == Ok(NO_TALLY)
      ensures Underway(rt, env, books, machine, collector, old(state), scheduled, failHard, k, log, Outcome(state, r))
      ensures IsRun(rt, env, settings, old(state), scheduled, failHard, log, Outcome(state, r))
    {
      hide *;
      ghost var start := state;
      var i := 0;
      r, log := Ok(NO_TALLY), [];
      NothingCounted(scheduled);
      UnderwayStart(rt, env, books, machine, collector, start, scheduled, failHard);
      RunStart(rt, env, settings, start, scheduled, failHard);
      while i < |scheduled| && r.Ok?
        invariant i <= |scheduled| && (r.Ok? ==> Counted(r.value, SizeOf(scheduled, i)))
        invariant i == 0 ==> state == start && r == Ok(NO_TALLY)
        invariant Underway(rt, env, books, machine, collector, start, scheduled, failHard, i, log, Outcome(state, r))
        invariant RunSoFar(rt, env, settings, start, scheduled, failHard, i, log, Outcome(state, r))
      {
        r, log := RunNext(scheduled, failHard, i, r.value, start, log);
        i := i + 1;
      }
      RunEnds(rt, env, settings, start, scheduled, failHard, i, log, Outcome(state, r));
      k := i;
    }

    method ExecuteSerially(transactions: seq<Transaction>, failHard: bool) returns (r: Result<Tally>)
      modifies this`state
      ensures r.Ok? ==> Counted(r.value, |transactions|)
      ensures IsCall(rt, env, settings, old(state), transactions, [], failHard, [], Outcome(state, r))
      ensures ExecutionTells(rt, env, books, machine, collector, old(state), transactions, [], failHard, [],
                             Outcome(state, r))
    {
      ghost var start := state;
      SerialReportsEach(rt, state, transactions, failHard, NO_TALLY);
      r := ReplaySerially(transactions, failHard, NO_TALLY);
      ReplayTells(rt, env, books, machine, collector, start, transactions, failHard, Outcome(state, r));
      ReplayedCall(rt, env, settings, start, transactions, failHard, Outcome(state, r));
    }

    method ExecuteScheduled(transactions: seq<Transaction>, failHard: bool)
      returns (r: Result<Tally>, ghost waves: seq<seq<Transaction>>, ghost log: seq<WaveRecord>)
      requires settings.batchCap > 0
      modifies this`state
      ensures r.Ok? ==> Counted(r.value, |transactions|)
      ensures waves == [] <==> transactions == []
      ensures IsCall(rt, env, settings, old(state), transactions, waves, failHard, log, Outcome(state, r))
      ensures ExecutionTells(rt, env, books, machine, collector, old(state), transactions, waves, failHard, log,
                             Outcome(state, r))
    {
      hide *;
      ghost var start, k := state, 0;
      var scheduled := ScheduleWaves(transactions);
      waves := scheduled;
      NoneIsEmpty(scheduled);
      NoWaves(scheduled);
      r, k, log := RunWaves(scheduled, failHard);
      SizeOfAll(scheduled);
      RanTells(rt, env, books, machine, collector, start, transactions, scheduled, failHard, k, log, Outcome(state, r));
      ScheduledCall(rt, env, settings, start, transactions, scheduled, failHard, log, Outcome(state, r));
    }

    /**
     Executes the transactions in speculative waves. When the collector sends none of them,
     the state, the tally and the error are those of serial execution, for every pattern of
     execution errors, conflicts, foreign writes and rejections. Otherwise the log tells: as
     long as every wave is harmless the call is serial, and the first that is not deviates.
     */
    method ExecuteWaves(transactions: seq<Transaction>, serialExecution: bool, failHard: bool)
      returns (r: Result<Tally>, ghost waves: seq<seq<Transaction>>, ghost log: seq<WaveRecord>)
      requires settings.batchCap > 0
      modifies this`state
      ensures r.Ok? ==> Counted(r.value, |transactions|)
      ensures waves == [] <==> serialExecution || transactions == [] || Publishes(transactions)
      ensures IsCall(rt, env, settings, old(state), transactions, waves, failHard, log, Outcome(state, r))
      ensures ExecutionTells(rt, env, books, machine, collector, old(state), transactions, waves, failHard, log,
                             Outcome(state, r))
    {
      if serialExecution || Publishes(transactions) {
        r := ExecuteSerially(transactions, failHard);
        waves, log := [], [];
      } else {
        r, waves, log := ExecuteScheduled(transactions, failHard);
      }
    }

    /**
     The fast attempt on a batch selected to be conflict-free: one snapshot, one
     reserved-key check, one swap. It either commits all changesets or leaves what
     the other writers left.
     */
    method TryConflictFree(transactions: seq<Transaction>)
      returns (committed: Option<seq<ChangeSet>>, trusted: bool, ghost batches: seq<seq<nat>>)
      requires settings.batchCap > 0
      modifies this`state
      ensures committed.None? ==>
                state == env.writer(0, old(state)) && FastGivesUp(rt, env, settings, old(state), transactions, batches)
      ensures committed.Some? ==>
                |committed.value| == |transactions| && trusted == rt.trusts(transactions, committed.value)
      ensures committed.Some? && trusted ==>
                TrustedIn(rt, env, old(state), transactions, committed.value, state)
      ensures committed.Some? && !trusted ==>
                SwappedIn(rt, env, settings, 0, old(state), transactions, committed.value, batches, state)
    {
      batches, trusted := [], false;
      var before := state;
      var results := seq(|transactions|, j requires 0 <= j < |transactions| =>
        rt.execute(transactions[j], env.seen(0, before, j)));
      state := env.writer(0, state);
      if !AllOk(results) {
        FailedGivesUpFast(rt, env, settings, before, transactions, results, batches);
        return None, trusted, batches;
      }
      var css := Values(results);
      trusted := rt.trusts(transactions, css);
      if !trusted {
        var conflict := AnyReservedConflict(Manifests(css));
        if conflict {
          SeenGivesUpFast(rt, env, settings, before, transactions, css, batches);
          return None, trusted, batches;
        }
      }
      if state.epoch != before.epoch {
        return None, trusted, batches;
      }
      if trusted {
        var applied := rt.applyTrusted(state, css);
        if applied.Err? {
          SeenGivesUpFast(rt, env, settings, before, transactions, css, batches);
          return None, trusted, batches;
        }
        state := applied.value;
        return Some(css), trusted, batches;
      }
      var candidate, cuts := BuildCandidate(rt, state, css, settings);
      batches := cuts;
      if candidate.Err? {
        SeenGivesUpFast(rt, env, settings, before, transactions, css, batches);
        return None, trusted, batches;
      }
      state := candidate.value;
      committed := Some(css);
    }

    /**
     The conflict-free executor. Off the trusted path its state, effects and error are those
     of serial execution when the collector sends nothing, and otherwise exactly when the log
     is harmless: one record for a committed call, the records of the waves for a fallback.
     Each finished call reports one effect per transaction.
     */
    method ExecuteConflictFree(transactions: seq<Transaction>)
      returns (r: Result<Tally>, trusted: bool, ghost waves: seq<seq<Transaction>>, ghost log: seq<WaveRecord>,
               ghost serial: Outcome)
      requires settings.batchCap > 0
      modifies this`state
      ensures r.Ok? ==> Counted(r.value, |transactions|)
      ensures transactions == [] ==> !trusted && state == old(state) && r == Ok(NO_TALLY)
      ensures trusted ==> exists css :: TrustedIn(rt, env, old(state), transactions, css, state)
                                        && |css| == |transactions| && r == Ok(Reported(transactions, css))
      ensures !trusted && transactions != [] ==>
                && SameButCounts(serial, state, r)
                && FastIsSerial(rt, env, collector, old(state), transactions, waves, serial)
                && FastTells(rt, env, books, machine, collector, settings, old(state), transactions, waves, log, serial,
                             r)
    {
      waves, log, serial := [], [], Outcome(state, Ok(NO_TALLY));
      if transactions == [] {
        return Ok(NO_TALLY), false, waves, log, serial;
      }
      ghost var before := state;
      var committed, trust, batches := TryConflictFree(transactions);
      if committed.None? {
        r, waves, log := ExecuteWaves(transactions, false, false);
        trusted, serial := false, Outcome(state, r);
        FellBackFast(rt, env, books, machine, collector, settings, before, transactions, batches, waves, log, serial);
        return;
      }
      trusted := trust;
      r := Ok(Reported(transactions, committed.value));
      ReportedCounts(transactions, committed.value);
      if !trusted {
        serial := Outcome(state, Ok(ExecutedAll(NO_TALLY, transactions, committed.value)));
        waves, log := [transactions], [WaveRecord(env.writer(0, before), committed, batches, serial)];
        CommittedFast(rt, env, books, machine, collector, settings, before, transactions, log[0]);
      }
    }
  }

  /** A call committed as a whole is a call of one wave. */
  lemma SingleLog(rt: Runtime, env: Environment, books: Books, m: Machine, collector: Address, settings: Settings,
                  s: State, txs: seq<Transaction>, rec: WaveRecord)
    requires Swapped(rt, env, settings, 0, s, txs, rec) && txs != []
    requires rec.after.result == Ok(ExecutedAll(NO_TALLY, txs, rec.committed.value))
    ensures Fenced(rt, env, collector, s, txs) ==> rec.after == SerialRun(rt, env.writer(0, s), txs, false, NO_TALLY)
    ensures CallTells(rt, env, books, m, collector, s, [txs], false, [rec], rec.after)
  {
    CommittedRan(rt, env, books, m, collector, settings, 0, s, txs, false, NO_TALLY, rec);
    OneWave(rt, env, books, m, collector, s, [txs], rec, []);
    assert [] + [rec] == [rec];
  }

  lemma OneWave(rt: Runtime, env: Environment, books: Books, m: Machine, collector: Address, s: State,
                waves: seq<seq<Transaction>>, rec: WaveRecord, none: seq<WaveRecord>)
    requires |waves| == 1 && none == [] && WaveRan(rt, env, books, m, collector, 0, s, waves[0], false, NO_TALLY, rec)
    ensures CallTells(rt, env, books, m, collector, s, waves, false, none + [rec], rec.after)
  {
    UnderwayStart(rt, env, books, m, collector, s, waves, false);
    UnderwaySnoc(rt, env, books, m, collector, s, waves, false, 0, none, s, NO_TALLY, rec);
    CallEnds(rt, env, books, m, collector, s, waves, false, 1, none + [rec], rec.after);
  }

  /** Same state, same effects, same error; the executed and failed counters may differ. */
  ghost predicate SameButCounts(o: Outcome, s: State, r: Result<Tally>) {
    && o.state == s
    && (o.result.Err? ==> r == o.result)
    && (o.result.Ok? ==> r.Ok? && r.value.effects == o.result.value.effects)
  }

  lemma UndisturbedSnoc(rt: Runtime, books: Books, log: seq<WaveRecord>, rec: WaveRecord)
    requires AllUndisturbed(rt, books, log + [rec])
    ensures AllUndisturbed(rt, books, log) && RecordUndisturbed(rt, books, rec)
  {
    assert (log + [rec])[|log|] == rec;
    assert forall k :: 0 <= k < |log| ==> (log + [rec])[k] == log[k];
  }

  ghost predicate Counted(t: Tally, n: nat) {
    t.executed + t.failed == |t.effects| == n
  }

  lemma {:induction false} ExecutedAllCounts(t: Tally, wave: seq<Transaction>, css: seq<ChangeSet>)
    requires |css| == |wave|
    requires Counted(t, |t.effects|)
    ensures Counted(ExecutedAll(t, wave, css), |t.effects| + |wave|)
    decreases wave
  {
    if wave != [] {
      ExecutedAllCounts(Executed(t, wave[0], css[0]), wave[1..], css[1..]);
    }
  }

  // ---------------------------------------------------------------------------
  // What the conflict-free executor reports
  // ---------------------------------------------------------------------------

  function Successes(css: seq<ChangeSet>): (n: nat)
    ensures n <= |css|
  {
    if css == [] then 0 else (if css[0].success then 1 else 0) + Successes(css[1..])
  }

  function Effects(txs: seq<Transaction>, css: seq<ChangeSet>): seq<Effect>
    requires |txs| == |css|
  {
    seq(|txs|, j requires 0 <= j < |txs| => Effect(txs[j], css[j]))
  }

  /** What the conflict-free executor reports for a commit. */
  function Reported(txs: seq<Transaction>, css: seq<ChangeSet>): Tally
    requires |txs| == |css|
  {
    Tally(Successes(css), |css| - Successes(css), Effects(txs, css))
  }

  lemma ReportedCounts(txs: seq<Transaction>, css: seq<ChangeSet>)
    requires |txs| == |css|
    ensures Counted(Reported(txs, css), |txs|)
  {
  }

  lemma {:induction false} SuccessesSnoc(css: seq<ChangeSet>, cs: ChangeSet)
    ensures Successes(css + [cs]) == Successes(css) + if cs.success then 1 else 0
  {
    if css == [] {
      assert [cs][1..] == [];
    } else {
      SuccessesSnoc(css[1..], cs);
      assert (css + [cs])[1..] == css[1..] + [cs];
    }
  }

  ghost function SuccessfulAmong(css: seq<ChangeSet>, k: nat): set<nat>
    requires k <= |css|
  {
    set j: nat | j < k && css[j].success
  }

  /** The reported counter is the number of changesets that report success. */
  lemma {:induction false} SuccessesAre(css: seq<ChangeSet>, k: nat)
    requires k <= |css|
    ensures Successes(css[..k]) == |SuccessfulAmong(css, k)|
  {
    if k > 0 {
      SuccessesAre(css, k - 1);
      assert css[..k] == css[..k - 1] + [css[k - 1]];
      SuccessesSnoc(css[..k - 1], css[k - 1]);
      CountOne(SuccessfulAmong(css, k - 1), SuccessfulAmong(css, k), k - 1, css[k - 1].success);
    }
  }

  /** So a call committed as a whole counts as executed exactly what reports success, and the rest as failed. */
  lemma ReportedIs(txs: seq<Transaction>, css: seq<ChangeSet>)
    requires |txs| == |css|
    ensures Reported(txs, css).executed == |SuccessfulAmong(css, |css|)|
    ensures Reported(txs, css).failed == |css| - |SuccessfulAmong(css, |css|)|
    ensures |Reported(txs, css).effects| == |txs|
    ensures forall j :: 0 <= j < |txs| ==> Reported(txs, css).effects[j] == Effect(txs[j], css[j])
  {
    SuccessesAre(css, |css|);
    assert css[..|css|] == css;
  }

  lemma {:induction false} ExecutedAllEffects(t: Tally, wave: seq<Transaction>, css: seq<ChangeSet>)
    requires |css| == |wave|
    ensures ExecutedAll(t, wave, css).effects == t.effects + Effects(wave, css)
    ensures ExecutedAll(t, wave, css).executed == t.executed + |wave|
    decreases wave
  {
    if wave != [] {
      ExecutedAllEffects(Executed(t, wave[0], css[0]), wave[1..], css[1..]);
      assert Effects(wave, css) == [Effect(wave[0], css[0])] + Effects(wave[1..], css[1..]);
    }
  }

  /**
   The counters are the serial ones exactly when no committed changeset reports a
   failure: serial execution counts such a changeset as executed, the conflict-free
   executor as failed.
   */
  lemma {:induction false} CountersAgreeIff(wave: seq<Transaction>, css: seq<ChangeSet>)
    requires |css| == |wave|
    ensures Reported(wave, css).executed == ExecutedAll(NO_TALLY, wave, css).executed
            <==> forall j :: 0 <= j < |css| ==> css[j].success
  {
    ExecutedAllEffects(NO_TALLY, wave, css);
    SuccessesOfAll(css);
  }

  lemma {:induction false} SuccessesOfAll(css: seq<ChangeSet>)
    ensures Successes(css) == |css| <==> forall j :: 0 <= j < |css| ==> css[j].success
  {
    if css != [] {
      SuccessesOfAll(css[1..]);
      assert forall j :: 0 <= j < |css[1..]| ==> css[1..][j] == css[j + 1];
      if forall j :: 0 <= j < |css[1..]| ==> css[1..][j].success {
        assert forall j :: 1 <= j < |css| ==> css[j] == css[1..][j - 1];
      }
    }
  }
}
