/**
 A committed wave against serial execution. The engine executes a wave against one
 snapshot, checks the manifests, applies the changesets in merged batches and swaps the
 candidate in. For a wave of any length, whoever sends its transactions, what it leaves is
 what serial execution leaves if and only if every balance guard comes to the same at its
 turn, merging the batches is not seen and the supply is valid at every turn.
 */
module Waves {
  import opened Prelude
  import opened ChangeSets
  import opened Ledger
  import opened Merging
  import opened Footprints
  import opened Executor
  import opened Execution
  import opened Batches

  function CandidateFrom(rt: Runtime, s: State, css: seq<ChangeSet>, batches: seq<seq<nat>>): Result<State>
    requires forall b :: 0 <= b < |batches| ==> Within(batches[b], |css|)
  {
    match BatchedApply(rt, s, css, batches)
    case Err(e) => Err(e)
    case Ok(applied) =>
      match rt.repair(applied)
      case Err(e) => Err(e)
      case Ok(repaired) =>
        if SupplyValid(rt.supply(repaired)) then Ok(repaired) else Err("supply rejected")
  }

  /** `css` are the results of the wave executed against `s`, and no two of them conflict. */
  ghost predicate Speculated(rt: Runtime, s: State, wave: seq<Transaction>, css: seq<ChangeSet>) {
    && |css| == |wave|
    && (forall j :: 0 <= j < |wave| ==> rt.execute(wave[j], s) == Ok(css[j]))
    && ConflictFree(Manifests(css))
  }

  function ExecutedAll(t: Tally, wave: seq<Transaction>, css: seq<ChangeSet>): Tally
    requires |css| == |wave|
    decreases |wave|
  {
    if wave == [] then t
    else ExecutedAll(Executed(t, wave[0], css[0]), wave[1..], css[1..])
  }

  // ---------------------------------------------------------------------------
  // Waves of one
  // ---------------------------------------------------------------------------

  lemma SingleCandidate(rt: Runtime, s: State, cs: ChangeSet)
    requires CachedSupplyValid(rt.supply(s))
    ensures CandidateFrom(rt, s, [cs], [[0]]).Ok?
            ==> ApplyValidated(rt, s, cs) == CandidateFrom(rt, s, [cs], [[0]])
  {
    assert [[0 as nat]][1..] == [];
    assert Select([cs], [0]) == [cs];
    assert BatchedApply(rt, s, [cs], [[0]]) == ApplyBatch(rt, s, [cs], [0]) == rt.apply(s, cs);
  }

  /** A committed wave of one transaction is the serial step, for every runtime. */
  lemma SingleWaveIsSerial(rt: Runtime, settings: Settings, s: State, wave: seq<Transaction>, css: seq<ChangeSet>,
                           batches: seq<seq<nat>>, failHard: bool, t: Tally)
    requires CachedSupplyValid(rt.supply(s)) && Speculated(rt, s, wave, css) && |wave| == 1
    requires Schedules(batches, css, settings) && AllWithin(batches, |css|) && CandidateFrom(rt, s, css, batches).Ok?
    ensures SerialRun(rt, s, wave, failHard, t)
            == Outcome(CandidateFrom(rt, s, css, batches).value, Ok(ExecutedAll(t, wave, css)))
  {
    SingleSchedule(batches, css, settings);
    SingleCandidate(rt, s, css[0]);
    assert css == [css[0]] && wave == [wave[0]];
    assert SerialStep(rt, s, wave[0], failHard, t)
        == Outcome(CandidateFrom(rt, s, css, batches).value, Ok(Executed(t, wave[0], css[0])));
  }

  /**
   The gas fence at work: of two changesets not paid by the collector, both write
   the collector's owner key, so a wave of two or more never passes the check.
   */
  lemma FencedWaveIsSingle(rt: Runtime, collector: Address, s: State, wave: seq<Transaction>, css: seq<ChangeSet>)
    requires Metered(rt, collector)
    requires Speculated(rt, s, wave, css)
    requires forall j :: 0 <= j < |wave| ==> wave[j].sender != collector
    ensures |wave| <= 1
  {
    if |wave| > 1 {
      FenceWritten(rt, collector, s, wave[0]);
      FenceWritten(rt, collector, s, wave[1]);
      assert OwnerKey(collector) in Manifests(css)[0].writeKeys;
      assert OwnerKey(collector) in Manifests(css)[1].writeKeys;
      assert ConflictsWith(Manifests(css)[1], Manifests(css)[0]);
      assert false;
    }
  }

  lemma FenceWritten(rt: Runtime, collector: Address, s: State, tx: Transaction)
    requires Metered(rt, collector) && rt.execute(tx, s).Ok? && tx.sender != collector
    ensures OwnerKey(collector) in Manifest(rt.execute(tx, s).value).writeKeys
  {
    var cs := rt.execute(tx, s).value;
    assert Settled(cs, tx.sender, collector);
    var pre, cost, used :|
      PaidBySender(pre, tx.sender) && ApplyGas(pre, tx.sender, collector, cost, used) == Ok(cs);
    GasFence(pre, tx.sender, collector, cost, used);
  }

  // ---------------------------------------------------------------------------
  // What the theorems on longer waves rest on
  // ---------------------------------------------------------------------------

  ghost predicate Matches(a: Result<State>, b: Result<State>) {
    (a.Err? && a == b) || (a.Ok? && b.Ok? && Alike(a.value, b.value))
  }

  /** The same contents: executed, charged, applied, repaired and counted the same. */
  ghost predicate TreatsAlike(rt: Runtime, s: State, t: State) {
    && rt.supply(s) == rt.supply(t) && Matches(rt.repair(s), rt.repair(t))
    && (forall tx :: rt.execute(tx, s) == rt.execute(tx, t))
    && (forall tx, e :: rt.failure(tx, s, e) == rt.failure(tx, t, e))
    && (forall cs :: Matches(rt.apply(s, cs), rt.apply(t, cs)))
  }

  /** The epoch is not looked at. */
  ghost predicate EpochBlind(rt: Runtime) {
    forall s, t {:trigger TreatsAlike(rt, s, t)} :: Alike(s, t) ==> TreatsAlike(rt, s, t)
  }

  /** The runtime applies by the ledger and executes by the machine. */
  ghost predicate Modelled(rt: Runtime, books: Books, m: Machine, collector: Address) {
    && OnLedger(rt, books) && Runs(rt, m, collector)
    && PaysItself(m) && Declares(m, collector) && OwnWords(m) && EpochBlind(rt)
  }

  /** The legacy repair finds nothing to do. */
  ghost predicate Idle(rt: Runtime, s: State) {
    rt.repair(s).Ok? && Alike(rt.repair(s).value, s)
  }

  ghost predicate IdleThroughout(rt: Runtime, books: Books, s: State, css: seq<ChangeSet>) {
    forall k :: 0 < k <= |css| ==> Idle(rt, EffectedByAll(books, s, css[..k]))
  }

  ghost predicate SameRun(o: Outcome, p: Outcome) {
    Alike(o.state, p.state) && o.result == p.result
  }

  // ---------------------------------------------------------------------------
  // When serial execution returns exactly these changesets
  // ---------------------------------------------------------------------------

  /** `cs` is what the transaction executes to, and it is applied with a valid supply. */
  ghost predicate ReplaysAt(rt: Runtime, books: Books, s: State, tx: Transaction, cs: ChangeSet) {
    && rt.execute(tx, s) == Ok(cs) && Apply(books, s, cs).Ok?
    && CachedSupplyValid(rt.supply(Effected(books, s, cs)))
  }

  ghost predicate Replays(rt: Runtime, books: Books, s: State, wave: seq<Transaction>, css: seq<ChangeSet>)
    requires |css| == |wave|
  {
    forall j :: 0 <= j < |wave| ==> ReplaysAt(rt, books, EffectedByAll(books, s, css[..j]), wave[j], css[j])
  }

  lemma ValidatedIff(rt: Runtime, books: Books, x: State, s: State, cs: ChangeSet)
    requires OnLedger(rt, books) && EpochBlind(rt) && Alike(x, s)
    requires CachedSupplyValid(rt.supply(x)) && Idle(rt, Effected(books, s, cs))
    ensures ApplyValidated(rt, x, cs).Ok?
            <==> Apply(books, s, cs).Ok? && CachedSupplyValid(rt.supply(Effected(books, s, cs)))
    ensures ApplyValidated(rt, x, cs).Ok? ==> Alike(ApplyValidated(rt, x, cs).value, Effected(books, s, cs))
  {
    RuntimeApply(rt, books, x, s, cs);
    if rt.apply(x, cs).Ok? {
      var applied := rt.apply(x, cs).value;
      assert TreatsAlike(rt, applied, Effected(books, s, cs));
      assert TreatsAlike(rt, rt.repair(applied).value, Effected(books, s, cs));
    }
  }

  lemma StepIff(rt: Runtime, books: Books, x: State, s: State, tx: Transaction, cs: ChangeSet, failHard: bool, t: Tally)
    requires OnLedger(rt, books) && EpochBlind(rt) && Alike(x, s)
    requires CachedSupplyValid(rt.supply(x)) && Idle(rt, Effected(books, s, cs))
    ensures SerialStep(rt, x, tx, failHard, t).result == Ok(Executed(t, tx, cs)) <==> ReplaysAt(rt, books, s, tx, cs)
    ensures ReplaysAt(rt, books, s, tx, cs) ==>
            Alike(SerialStep(rt, x, tx, failHard, t).state, Effected(books, s, cs))
  {
    assert TreatsAlike(rt, x, s);
    assert rt.execute(tx, x) == rt.execute(tx, s);
    ValidatedIff(rt, books, x, s, cs);
    ExecutedTells(rt, x, tx, failHard, t, cs);
  }

  /** A step reports `cs` as executed exactly when it executed to it and applied it. */
  lemma ExecutedTells(rt: Runtime, x: State, tx: Transaction, failHard: bool, t: Tally, cs: ChangeSet)
    ensures SerialStep(rt, x, tx, failHard, t).result == Ok(Executed(t, tx, cs))
            <==> rt.execute(tx, x) == Ok(cs) && ApplyValidated(rt, x, cs).Ok?
    ensures SerialStep(rt, x, tx, failHard, t).result == Ok(Executed(t, tx, cs)) ==>
            SerialStep(rt, x, tx, failHard, t).state == ApplyValidated(rt, x, cs).value
  {
    if SerialStep(rt, x, tx, failHard, t).result == Ok(Executed(t, tx, cs)) {
      var effects := Executed(t, tx, cs).effects;
      assert effects[|t.effects|] == Effect(tx, cs);
      assert Executed(t, tx, cs).executed == t.executed + 1;
    }
  }

  lemma {:induction false} ExecutedAllSnoc(t: Tally, wave: seq<Transaction>, css: seq<ChangeSet>,
                                           tx: Transaction, cs: ChangeSet)
    requires |css| == |wave|
    ensures ExecutedAll(t, wave + [tx], css + [cs]) == Executed(ExecutedAll(t, wave, css), tx, cs)
    ensures ExecutedAll(t, wave, css).failed == t.failed
    decreases |wave|
  {
    if wave == [] {
      assert wave + [tx] == [tx] && css + [cs] == [cs] && [tx][1..] == [] && [cs][1..] == [];
    } else {
      ExecutedAllSnoc(Executed(t, wave[0], css[0]), wave[1..], css[1..], tx, cs);
      assert (wave + [tx])[1..] == wave[1..] + [tx] && (css + [cs])[1..] == css[1..] + [cs];
    }
  }

  lemma {:induction false} FailuresGrow(rt: Runtime, s: State, txs: seq<Transaction>, failHard: bool, t: Tally)
    requires SerialRun(rt, s, txs, failHard, t).result.Ok?
    ensures SerialRun(rt, s, txs, failHard, t).result.value.failed >= t.failed
    decreases |txs|
  {
    if txs != [] {
      var o := SerialStep(rt, s, txs[0], failHard, t);
      FailuresGrow(rt, o.state, txs[1..], failHard, o.result.value);
    }
  }

  lemma SerialSnoc(rt: Runtime, s: State, init: seq<Transaction>, tx: Transaction, failHard: bool, t: Tally)
    ensures var o := SerialRun(rt, s, init, failHard, t);
            SerialRun(rt, s, init + [tx], failHard, t)
            == if o.result.Err? then o else SerialStep(rt, o.state, tx, failHard, o.result.value)
  {
    SerialAppend(rt, s, init, [tx], failHard, t);
    assert [tx][1..] == [];
  }

  /** If the last step completes a tally of executed transactions only, it was executed itself. */
  lemma LastForced(rt: Runtime, x: State, tx: Transaction, failHard: bool, t: Tally, goal: Tally, cs: ChangeSet)
    requires t.failed >= goal.failed && SerialStep(rt, x, tx, failHard, t).result == Ok(Executed(goal, tx, cs))
    ensures t == goal
  {
    var r := SerialStep(rt, x, tx, failHard, t).result.value;
    assert r.effects[..|r.effects| - 1] == goal.effects;
    assert r.effects[..|r.effects| - 1] == t.effects;
  }

  lemma ReplaysSnoc(rt: Runtime, books: Books, s: State, init: seq<Transaction>, css: seq<ChangeSet>,
                    tx: Transaction, cs: ChangeSet)
    requires |css| == |init|
    ensures Replays(rt, books, s, init + [tx], css + [cs])
            <==> Replays(rt, books, s, init, css) && ReplaysAt(rt, books, EffectedByAll(books, s, css), tx, cs)
  {
    var wave, all := init + [tx], css + [cs];
    assert all[..|css|] == css && wave[|init|] == tx && all[|css|] == cs;
    assert forall j :: 0 <= j < |init| ==> all[..j] == css[..j] && wave[j] == init[j] && all[j] == css[j];
  }

  lemma IdleSnoc(rt: Runtime, books: Books, s: State, css: seq<ChangeSet>, cs: ChangeSet)
    requires IdleThroughout(rt, books, s, css + [cs])
    ensures IdleThroughout(rt, books, s, css) && Idle(rt, Effected(books, EffectedByAll(books, s, css), cs))
  {
    var all := css + [cs];
    assert forall k :: 0 <= k <= |css| ==> all[..k] == css[..k];
    assert all[..|all|] == all && all[..|css|] == css;
    assert Idle(rt, EffectedByAll(books, s, all[..|all|]));
  }

  /** Serial execution reports exactly these changesets exactly when they replay, and then leaves their effect. */
  ghost predicate SerialAgrees(rt: Runtime, books: Books, s: State, wave: seq<Transaction>, css: seq<ChangeSet>,
                               failHard: bool, t: Tally)
    requires |css| == |wave|
  {
    var o := SerialRun(rt, s, wave, failHard, t);
    && (o.result == Ok(ExecutedAll(t, wave, css)) <==> Replays(rt, books, s, wave, css))
    && (Replays(rt, books, s, wave, css) ==> Alike(o.state, EffectedByAll(books, s, css)))
  }

  lemma EffectSnoc(books: Books, s: State, css: seq<ChangeSet>, cs: ChangeSet)
    ensures EffectedByAll(books, s, css + [cs]) == Effected(books, EffectedByAll(books, s, css), cs)
  {
    assert (css + [cs])[..|css|] == css;
  }

  lemma LastStep(rt: Runtime, books: Books, s: State, init: seq<Transaction>, first: seq<ChangeSet>,
                 tx: Transaction, cs: ChangeSet, failHard: bool, t: Tally)
    requires OnLedger(rt, books) && EpochBlind(rt) && CachedSupplyValid(rt.supply(s)) && |first| == |init|
    requires Idle(rt, Effected(books, EffectedByAll(books, s, first), cs))
    requires SerialAgrees(rt, books, s, init, first, failHard, t)
    ensures var o := SerialRun(rt, s, init + [tx], failHard, t);
            var goal := Executed(ExecutedAll(t, init, first), tx, cs);
            var before := EffectedByAll(books, s, first);
            && (o.result == Ok(goal) <==> Replays(rt, books, s, init, first) && ReplaysAt(rt, books, before, tx, cs))
            && (o.result == Ok(goal) ==> Alike(o.state, Effected(books, before, cs)))
  {
    SerialSnoc(rt, s, init, tx, failHard, t);
    ExecutedAllSnoc(t, init, first, tx, cs);
    SerialKeepsSupply(rt, s, init, failHard, t);
    var o, goal := SerialRun(rt, s, init, failHard, t), ExecutedAll(t, init, first);
    if o.result.Ok? && SerialStep(rt, o.state, tx, failHard, o.result.value).result == Ok(Executed(goal, tx, cs)) {
      FailuresGrow(rt, s, init, failHard, t);
      LastForced(rt, o.state, tx, failHard, o.result.value, goal, cs);
    }
    if Replays(rt, books, s, init, first) {
      StepIff(rt, books, o.state, EffectedByAll(books, s, first), tx, cs, failHard, goal);
    }
  }

  lemma SerialAgreesSnoc(rt: Runtime, books: Books, s: State, init: seq<Transaction>, first: seq<ChangeSet>,
                         tx: Transaction, cs: ChangeSet, failHard: bool, t: Tally)
    requires OnLedger(rt, books) && EpochBlind(rt) && CachedSupplyValid(rt.supply(s)) && |first| == |init|
    requires Idle(rt, Effected(books, EffectedByAll(books, s, first), cs))
    requires SerialAgrees(rt, books, s, init, first, failHard, t)
    ensures SerialAgrees(rt, books, s, init + [tx], first + [cs], failHard, t)
  {
    LastStep(rt, books, s, init, first, tx, cs, failHard, t);
    ExecutedAllSnoc(t, init, first, tx, cs);
    ReplaysSnoc(rt, books, s, init, first, tx, cs);
    EffectSnoc(books, s, first, cs);
  }

  /**
   Serial execution reports exactly these changesets, all executed, if and only if each is
   what its transaction executes to at its turn and is applied with a valid supply.
   */
  lemma {:induction false} SerialIff(rt: Runtime, books: Books, s: State, wave: seq<Transaction>, css: seq<ChangeSet>,
                                     failHard: bool, t: Tally)
    requires OnLedger(rt, books) && EpochBlind(rt) && CachedSupplyValid(rt.supply(s))
    requires |css| == |wave| && IdleThroughout(rt, books, s, css)
    ensures SerialAgrees(rt, books, s, wave, css, failHard, t)
    decreases |wave|
  {
    if wave != [] {
      var init, first := wave[..|wave| - 1], css[..|css| - 1];
      AppendLast([], wave);
      AppendLast([], css);
      IdleSnoc(rt, books, s, first, css[|css| - 1]);
      SerialIff(rt, books, s, init, first, failHard, t);
      SerialAgreesSnoc(rt, books, s, init, first, wave[|wave| - 1], css[|css| - 1], failHard, t);
    }
  }

  // ---------------------------------------------------------------------------
  // When a committed wave is a serial wave
  // ---------------------------------------------------------------------------

  /** At its turn, the guard of each transaction comes to what it came to against the snapshot. */
  ghost predicate GuardsHold(books: Books, m: Machine, s: State, wave: seq<Transaction>, css: seq<ChangeSet>)
    requires |css| == |wave|
  {
    forall j :: 0 <= j < |wave| ==> GuardHolds(books, m, s, wave[j], css[..j])
  }

  ghost predicate GuardHolds(books: Books, m: Machine, s: State, tx: Transaction, before: seq<ChangeSet>) {
    GuardAlike(m.terms(tx), Means(BookOf(s, tx.sender)), Means(BookOf(EffectedByAll(books, s, before), tx.sender)))
  }

  ghost predicate SupplyThroughout(rt: Runtime, books: Books, s: State, css: seq<ChangeSet>) {
    forall k :: 0 < k <= |css| ==> CachedSupplyValid(rt.supply(EffectedByAll(books, s, css[..k])))
  }

  /** All three are decided by the snapshot, the transactions and their changesets. */
  ghost predicate Serializes(rt: Runtime, books: Books, m: Machine, s: State, wave: seq<Transaction>,
                             css: seq<ChangeSet>, batches: seq<seq<nat>>)
    requires |css| == |wave| && forall b :: 0 <= b < |batches| ==> Within(batches[b], |css|)
  {
    && GuardsHold(books, m, s, wave, css)
    && MergesUnseen(books, s, PartsOf(css, batches))
    && SupplyThroughout(rt, books, s, css)
  }

  /** In turn, a speculated transaction executes to its changeset exactly when its guard holds. */
  lemma ExecutesAgainIff(rt: Runtime, books: Books, m: Machine, collector: Address, s: State, wave: seq<Transaction>,
                         css: seq<ChangeSet>, j: nat)
    requires Modelled(rt, books, m, collector) && Speculated(rt, s, wave, css) && j < |wave|
    ensures rt.execute(wave[j], EffectedByAll(books, s, css[..j])) == Ok(css[j])
            <==> GuardHolds(books, m, s, wave[j], css[..j])
  {
    var t := EffectedByAll(books, s, css[..j]);
    DeclaredKeysStay(books, s, css, j);
    assert rt.execute(wave[j], s) == Execute(m, collector, wave[j], s) == Ok(css[j]);
    RecomputedIff(m, collector, wave[j], s, t);
    assert rt.execute(wave[j], t).Ok? <==> Execute(m, collector, wave[j], t).Ok?;
  }

  ghost predicate AppliesAt(books: Books, s: State, before: seq<ChangeSet>, cs: ChangeSet) {
    Apply(books, EffectedByAll(books, s, before), cs).Ok?
  }

  ghost predicate AppliesInTurn(books: Books, s: State, css: seq<ChangeSet>) {
    forall j :: 0 <= j < |css| ==> AppliesAt(books, s, css[..j], css[j])
  }

  lemma AppliesSnoc(books: Books, s: State, init: seq<ChangeSet>, cs: ChangeSet)
    ensures AppliesInTurn(books, s, init + [cs]) <==> AppliesInTurn(books, s, init) && AppliesAt(books, s, init, cs)
  {
    var all := init + [cs];
    assert all[|init|] == cs && all[..|init|] == init;
    assert forall j :: 0 <= j < |init| ==> all[..j] == init[..j] && all[j] == init[j];
  }

  lemma {:induction false} EachInTurn(books: Books, s: State, css: seq<ChangeSet>)
    ensures ApplyEach(books, s, css).Ok? <==> AppliesInTurn(books, s, css)
  {
    if css != [] {
      var init, last := css[..|css| - 1], css[|css| - 1];
      AppendLast([], css);
      EachInTurn(books, s, init);
      AppliesSnoc(books, s, init, last);
      if ApplyEach(books, s, init).Ok? {
        EachIsEffect(books, s, init);
      }
    }
  }

  ghost predicate ValidAfter(rt: Runtime, books: Books, s: State, before: seq<ChangeSet>, cs: ChangeSet) {
    CachedSupplyValid(rt.supply(Effected(books, EffectedByAll(books, s, before), cs)))
  }

  lemma OneMore(rt: Runtime, books: Books, s: State, css: seq<ChangeSet>, k: nat)
    requires 0 < k <= |css|
    ensures CachedSupplyValid(rt.supply(EffectedByAll(books, s, css[..k])))
            <==> ValidAfter(rt, books, s, css[..k - 1], css[k - 1])
  {
    assert css[..k][..k - 1] == css[..k - 1];
  }

  lemma SupplyInTurn(rt: Runtime, books: Books, s: State, css: seq<ChangeSet>)
    ensures SupplyThroughout(rt, books, s, css)
            <==> forall j :: 0 <= j < |css| ==> ValidAfter(rt, books, s, css[..j], css[j])
  {
    if SupplyThroughout(rt, books, s, css) {
      forall j | 0 <= j < |css| ensures ValidAfter(rt, books, s, css[..j], css[j]) {
        OneMore(rt, books, s, css, j + 1);
      }
    }
    if forall j :: 0 <= j < |css| ==> ValidAfter(rt, books, s, css[..j], css[j]) {
      forall k | 0 < k <= |css| ensures CachedSupplyValid(rt.supply(EffectedByAll(books, s, css[..k]))) {
        OneMore(rt, books, s, css, k);
      }
    }
  }

  lemma ReplaysIff(rt: Runtime, books: Books, m: Machine, collector: Address, s: State, wave: seq<Transaction>,
                   css: seq<ChangeSet>)
    requires Modelled(rt, books, m, collector) && Speculated(rt, s, wave, css)
    ensures Replays(rt, books, s, wave, css)
            <==> && GuardsHold(books, m, s, wave, css) && ApplyEach(books, s, css).Ok?
                 && SupplyThroughout(rt, books, s, css)
  {
    EachInTurn(books, s, css);
    SupplyInTurn(rt, books, s, css);
    forall j | 0 <= j < |wave|
      ensures ReplaysAt(rt, books, EffectedByAll(books, s, css[..j]), wave[j], css[j])
              <==> && GuardHolds(books, m, s, wave[j], css[..j]) && AppliesAt(books, s, css[..j], css[j])
                   && ValidAfter(rt, books, s, css[..j], css[j])
    {
      ExecutesAgainIff(rt, books, m, collector, s, wave, css, j);
    }
  }

  /** The candidate is what the batches leave, when there is nothing to repair. */
  lemma CandidateAlike(rt: Runtime, s: State, css: seq<ChangeSet>, batches: seq<seq<nat>>)
    requires AllWithin(batches, |css|) && CandidateFrom(rt, s, css, batches).Ok?
    requires Idle(rt, BatchedApply(rt, s, css, batches).value)
    ensures Alike(CandidateFrom(rt, s, css, batches).value, BatchedApply(rt, s, css, batches).value)
  {
  }

  /** The legacy repair stays idle on the way and on the candidate. */
  ghost predicate Undisturbed(rt: Runtime, books: Books, s: State, css: seq<ChangeSet>, batches: seq<seq<nat>>)
    requires forall b :: 0 <= b < |batches| ==> Within(batches[b], |css|)
  {
    && IdleThroughout(rt, books, s, css)
    && BatchedApply(rt, s, css, batches).Ok? && Idle(rt, BatchedApply(rt, s, css, batches).value)
  }

  /**
   A committed wave, of any length and whoever sends its transactions, leaves the contents and
   the tally of serial execution if and only if `Serializes`: every guard holds at its turn,
   merging the batches is not seen, and the supply is valid at every turn.
   */
  lemma CommittedWaveIff(rt: Runtime, books: Books, m: Machine, collector: Address, settings: Settings, s: State,
                         wave: seq<Transaction>, css: seq<ChangeSet>, batches: seq<seq<nat>>, failHard: bool, t: Tally)
    requires Modelled(rt, books, m, collector) && CachedSupplyValid(rt.supply(s)) && Speculated(rt, s, wave, css)
    requires Schedules(batches, css, settings) && AllWithin(batches, |css|)
    requires CandidateFrom(rt, s, css, batches).Ok? && Undisturbed(rt, books, s, css, batches)
    ensures SameRun(SerialRun(rt, s, wave, failHard, t),
                    Outcome(CandidateFrom(rt, s, css, batches).value, Ok(ExecutedAll(t, wave, css))))
            <==> Serializes(rt, books, m, s, wave, css, batches)
  {
    var candidate, each := CandidateFrom(rt, s, css, batches).value, ApplyEach(books, s, css);
    SerialIff(rt, books, s, wave, css, failHard, t);
    ReplaysIff(rt, books, m, collector, s, wave, css);
    CandidateAlike(rt, s, css, batches);
    ScheduleApplyEachIff(rt, books, s, css, batches, settings);
    if each.Ok? {
      EachIsEffect(books, s, css);
    }
  }
}
