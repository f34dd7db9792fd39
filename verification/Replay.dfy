/**
 What serial execution leaves behind, told without its recursion: the states it went
 through, the changeset stored at each of them, and the reason why an aborted run stopped.
 */
module Replay {
  import opened Prelude
  import opened ChangeSets
  import opened Ledger
  import opened Executor

  /** The effect of a transaction at `s` is its own changeset, or its failure charge, stored in `next`. */
  ghost predicate Settles(rt: Runtime, s: State, tx: Transaction, failHard: bool, effect: Effect, next: State) {
    && effect.tx == tx
    && ApplyValidated(rt, s, effect.changeset) == Ok(next)
    && match rt.execute(tx, s)
       case Ok(cs) => effect.changeset == cs
       case Err(error) => !failHard && rt.failure(tx, s, error) == Ok(effect.changeset)
  }

  /** A transaction nothing of which is stored: its execution, its failure charge or the apply was refused. */
  ghost predicate Stops(rt: Runtime, s: State, tx: Transaction, failHard: bool, reason: string) {
    match rt.execute(tx, s)
    case Ok(cs) => ApplyValidated(rt, s, cs) == Err(reason)
    case Err(error) =>
      if failHard then reason == error
      else
        || rt.failure(tx, s, error) == Err(reason)
        || exists cs :: rt.failure(tx, s, error) == Ok(cs) && ApplyValidated(rt, s, cs) == Err(reason)
  }

  /** The states a run went through, each left by storing one effect in the one before. */
  ghost predicate Path(rt: Runtime, s: State, txs: seq<Transaction>, failHard: bool, states: seq<State>,
                       effects: seq<Effect>)
  {
    && |states| == |effects| + 1 && |effects| <= |txs| && states[0] == s
    && forall k :: 0 <= k < |effects| ==> Settles(rt, states[k], txs[k], failHard, effects[k], states[k + 1])
  }

  /** The transactions before `k` whose execution succeeded where it took place. */
  ghost function Succeeded(rt: Runtime, txs: seq<Transaction>, states: seq<State>, k: nat): set<nat>
    requires k <= |states| && k <= |txs|
  {
    set j: nat | j < k && rt.execute(txs[j], states[j]).Ok?
  }

  /** The tally `t` after the first `k` effects: each is reported, and counted by how its execution went. */
  ghost function TallyAt(rt: Runtime, txs: seq<Transaction>, states: seq<State>, effects: seq<Effect>, t: Tally,
                         k: nat): Tally
    requires k <= |states| && k <= |txs| && k <= |effects|
  {
    var n := |Succeeded(rt, txs, states, k)|;
    SucceededBound(rt, txs, states, k);
    Tally(t.executed + n, t.failed + (k - n), t.effects + effects[..k])
  }

  lemma {:induction false} SucceededBound(rt: Runtime, txs: seq<Transaction>, states: seq<State>, k: nat)
    requires k <= |states| && k <= |txs|
    ensures |Succeeded(rt, txs, states, k)| <= k
  {
    if k > 0 {
      SucceededBound(rt, txs, states, k - 1);
      SucceededNext(rt, txs, states, k - 1);
    }
  }

  lemma CountOne(before: set<nat>, after: set<nat>, k: nat, more: bool)
    requires k !in before && forall j :: j in after <==> j in before || (more && j == k)
    ensures |after| == |before| + if more then 1 else 0
  {
    assert after == if more then before + {k} else before;
  }

  lemma SucceededNext(rt: Runtime, txs: seq<Transaction>, states: seq<State>, k: nat)
    requires k < |states| && k < |txs|
    ensures |Succeeded(rt, txs, states, k + 1)|
            == |Succeeded(rt, txs, states, k)| + if rt.execute(txs[k], states[k]).Ok? then 1 else 0
  {
    CountOne(Succeeded(rt, txs, states, k), Succeeded(rt, txs, states, k + 1), k, rt.execute(txs[k], states[k]).Ok?);
  }

  /** The run ended where its path ends: behind the last transaction, or at the one that stopped it. */
  ghost predicate EndsAs(rt: Runtime, txs: seq<Transaction>, failHard: bool, t: Tally, o: Outcome, states: seq<State>,
                         effects: seq<Effect>)
    requires |states| == |effects| + 1 && |effects| <= |txs|
  {
    var n := |effects|;
    && o.state == states[n]
    && match o.result
       case Ok(tally) => n == |txs| && tally == TallyAt(rt, txs, states, effects, t, n)
       case Err(reason) => n < |txs| && Stops(rt, states[n], txs[n], failHard, reason)
  }

  /** The outcome is that of storing one effect per transaction, to the end or to the first refusal. */
  ghost predicate StoresEach(rt: Runtime, s: State, txs: seq<Transaction>, failHard: bool, t: Tally, o: Outcome) {
    exists states, effects ::
      Path(rt, s, txs, failHard, states, effects) && EndsAs(rt, txs, failHard, t, o, states, effects)
  }

  /** Along a path, what is left to do is what serial execution does from there. */
  lemma {:induction false} PathIsSerial(rt: Runtime, s: State, txs: seq<Transaction>, failHard: bool, t: Tally,
                                        states: seq<State>, effects: seq<Effect>, k: nat)
    requires Path(rt, s, txs, failHard, states, effects) && k <= |effects|
    ensures SerialRun(rt, s, txs, failHard, t)
            == SerialRun(rt, states[k], txs[k..], failHard, TallyAt(rt, txs, states, effects, t, k))
  {
    if k == 0 {
      assert txs[0..] == txs && t.effects + effects[..0] == t.effects;
    } else {
      PathIsSerial(rt, s, txs, failHard, t, states, effects, k - 1);
      SettlingIsSerial(rt, txs, failHard, t, states, effects, k - 1);
    }
  }

  lemma SettlingIsSerial(rt: Runtime, txs: seq<Transaction>, failHard: bool, t: Tally, states: seq<State>,
                         effects: seq<Effect>, k: nat)
    requires k < |effects| < |states| && |effects| <= |txs|
    requires Settles(rt, states[k], txs[k], failHard, effects[k], states[k + 1])
    ensures SerialRun(rt, states[k], txs[k..], failHard, TallyAt(rt, txs, states, effects, t, k))
            == SerialRun(rt, states[k + 1], txs[k + 1..], failHard, TallyAt(rt, txs, states, effects, t, k + 1))
  {
    var now, next := TallyAt(rt, txs, states, effects, t, k), TallyAt(rt, txs, states, effects, t, k + 1);
    assert txs[k..][1..] == txs[k + 1..];
    SucceededNext(rt, txs, states, k);
    assert effects[k] == Effect(txs[k], effects[k].changeset);
    assert effects[..k + 1] == effects[..k] + [effects[k]];
    assert next.effects == now.effects + [effects[k]];
    assert SerialStep(rt, states[k], txs[k], failHard, now) == Outcome(states[k + 1], Ok(next));
  }

  /** Follows the path of serial execution to its end. */
  lemma {:induction false} PathToTheEnd(rt: Runtime, s: State, txs: seq<Transaction>, failHard: bool, t: Tally,
                                        states: seq<State>, effects: seq<Effect>)
    requires Path(rt, s, txs, failHard, states, effects)
    ensures StoresEach(rt, s, txs, failHard, t, SerialRun(rt, s, txs, failHard, t))
    decreases |txs| - |effects|
  {
    var n := |effects|;
    PathIsSerial(rt, s, txs, failHard, t, states, effects, n);
    var now := TallyAt(rt, txs, states, effects, t, n);
    if n == |txs| {
      assert EndsAs(rt, txs, failHard, t, Outcome(states[n], Ok(now)), states, effects);
    } else {
      var o := SerialStep(rt, states[n], txs[n], failHard, now);
      if o.result.Err? {
        assert EndsAs(rt, txs, failHard, t, o, states, effects);
      } else {
        var effect := o.result.value.effects[|now.effects|];
        assert Settles(rt, states[n], txs[n], failHard, effect, o.state);
        PathNext(rt, s, txs, failHard, states, effects, effect, o.state);
        PathToTheEnd(rt, s, txs, failHard, t, states + [o.state], effects + [effect]);
      }
    }
  }

  lemma PathNext(rt: Runtime, s: State, txs: seq<Transaction>, failHard: bool, states: seq<State>,
                 effects: seq<Effect>, effect: Effect, next: State)
    requires Path(rt, s, txs, failHard, states, effects) && |effects| < |txs|
    requires Settles(rt, states[|effects|], txs[|effects|], failHard, effect, next)
    ensures Path(rt, s, txs, failHard, states + [next], effects + [effect])
  {
  }

  lemma EndIsSerial(rt: Runtime, s: State, txs: seq<Transaction>, failHard: bool, t: Tally, o: Outcome,
                    states: seq<State>, effects: seq<Effect>)
    requires Path(rt, s, txs, failHard, states, effects) && EndsAs(rt, txs, failHard, t, o, states, effects)
    ensures o == SerialRun(rt, s, txs, failHard, t)
  {
    PathIsSerial(rt, s, txs, failHard, t, states, effects, |effects|);
  }

  lemma FromTheStart(rt: Runtime, s: State, txs: seq<Transaction>, failHard: bool, t: Tally)
    ensures StoresEach(rt, s, txs, failHard, t, SerialRun(rt, s, txs, failHard, t))
  {
    PathToTheEnd(rt, s, txs, failHard, t, [s], []);
  }

  /** Serial execution is exactly what leaves such a path: it has one, and no other outcome has. */
  lemma SerialStoresEach(rt: Runtime, s: State, txs: seq<Transaction>, failHard: bool, t: Tally, o: Outcome)
    ensures StoresEach(rt, s, txs, failHard, t, o) <==> o == SerialRun(rt, s, txs, failHard, t)
  {
    FromTheStart(rt, s, txs, failHard, t);
    if StoresEach(rt, s, txs, failHard, t, o) {
      var states, effects :|
        Path(rt, s, txs, failHard, states, effects) && EndsAs(rt, txs, failHard, t, o, states, effects);
      EndIsSerial(rt, s, txs, failHard, t, o, states, effects);
    }
  }

  // ---------------------------------------------------------------------------
  // The supply check in front of an apply
  // ---------------------------------------------------------------------------

  ghost predicate Overcounted(v: SupplyView) {
    v.cached > v.total
  }

  /** A changeset is stored exactly when it applies, leaves a valid supply, and mends a treasury if overcounted. */
  lemma ValidatedIff(rt: Runtime, s: State, cs: ChangeSet, next: State)
    ensures ApplyValidated(rt, s, cs) == Ok(next) <==>
            && (exists applied :: rt.apply(s, cs) == Ok(applied) && rt.repair(applied) == Ok(next))
            && CachedSupplyValid(rt.supply(next))
            && (Overcounted(rt.supply(s)) ==> cs.treasuries != map[])
  {
    if rt.apply(s, cs).Ok? {
      var applied := rt.apply(s, cs).value;
      assert rt.apply(s, cs) == Ok(applied);
    }
  }

  /** An overcounted state is left only through a treasury: any other transaction ends the run and leaves it. */
  lemma OvercountEndsTheRun(rt: Runtime, s: State, txs: seq<Transaction>, failHard: bool, t: Tally)
    requires Overcounted(rt.supply(s)) && txs != []
    requires rt.execute(txs[0], s).Ok? ==> rt.execute(txs[0], s).value.treasuries == map[]
    requires forall error ::
               rt.failure(txs[0], s, error).Ok? ==> rt.failure(txs[0], s, error).value.treasuries == map[]
    ensures var o := SerialRun(rt, s, txs, failHard, t); o.state == s && o.result.Err?
  {
    forall cs: ChangeSet | cs.treasuries == map[] ensures ApplyValidated(rt, s, cs).Err? {
      var r := ApplyValidated(rt, s, cs);
      if r.Ok? {
        ValidatedIff(rt, s, cs, r.value);
      }
    }
  }
}
