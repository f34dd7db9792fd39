/**
 The apply batches of a wave as parts of its changesets: what a schedule leaves, against
 what the same changesets leave one by one.
 */
module Batches {
  import opened Prelude
  import opened ChangeSets
  import opened Ledger
  import opened Merging
  import opened Footprints
  import opened Executor

  /** The state manager of the runtime follows the ledger. */
  ghost predicate OnLedger(rt: Runtime, books: Books) {
    forall s, cs :: SameOutcome(rt.apply(s, cs), Apply(books, s, cs))
  }

  ghost predicate AllWithin(batches: seq<seq<nat>>, n: nat) {
    forall b :: 0 <= b < |batches| ==> Within(batches[b], n)
  }

  function PartsOf(css: seq<ChangeSet>, batches: seq<seq<nat>>): (r: seq<seq<ChangeSet>>)
    requires forall b :: 0 <= b < |batches| ==> Within(batches[b], |css|)
    ensures |r| == |batches| && forall b :: 0 <= b < |batches| ==> r[b] == Select(css, batches[b])
  {
    seq(|batches|, b requires 0 <= b < |batches| => Select(css, batches[b]))
  }

  lemma {:induction false} FlattenParts(css: seq<ChangeSet>, batches: seq<seq<nat>>)
    requires AllWithin(batches, |css|)
    ensures Within(Flatten(batches), |css|)
    ensures Flatten(PartsOf(css, batches)) == Select(css, Flatten(batches))
    decreases |batches|
  {
    if batches != [] {
      FlattenParts(css, batches[1..]);
      assert PartsOf(css, batches)[1..] == PartsOf(css, batches[1..]);
      assert Select(css, batches[0] + Flatten(batches[1..]))
          == Select(css, batches[0]) + Select(css, Flatten(batches[1..]));
    }
  }

  /** A schedule lists every changeset once, in order, in batches that are not empty. */
  lemma ScheduleIsPartition(batches: seq<seq<nat>>, css: seq<ChangeSet>, settings: Settings)
    requires Schedules(batches, css, settings) && AllWithin(batches, |css|)
    ensures Flatten(PartsOf(css, batches)) == css
    ensures NoneEmpty(batches) && NoneEmpty(PartsOf(css, batches))
  {
    FlattenParts(css, batches);
    if settings.batchScheduler {
      assert forall b :: 0 <= b < |batches| ==> IsBatch(batches[b], Manifests(css), settings.batchCap);
    } else if css != [] {
      assert batches[1..] == [];
      assert Flatten(batches) == Range(|css|);
    }
    assert Select(css, Range(|css|)) == css;
  }

  // ---------------------------------------------------------------------------
  // Conflict-free changesets touch different objects
  // ---------------------------------------------------------------------------

  lemma ConflictFreeIsApart(css: seq<ChangeSet>)
    requires ConflictFree(Manifests(css))
    ensures Apart(css)
  {
    forall i, j | 0 <= i < j < |css| ensures Touched(css[i]) !! Touched(css[j]) {
      forall id | id in Touched(css[i]) && id in Touched(css[j]) ensures false {
        TouchedIsWritten(css[i], id);
        TouchedIsWritten(css[j], id);
        assert ConflictsWith(Manifests(css)[j], Manifests(css)[i]);
      }
    }
  }

  // ---------------------------------------------------------------------------
  // Batches as parts
  // ---------------------------------------------------------------------------

  lemma {:induction false} EachCons(books: Books, s: State, first: ChangeSet, rest: seq<ChangeSet>)
    ensures ApplyEach(books, s, [first] + rest)
            == match Apply(books, s, first) case Err(e) => Err(e) case Ok(next) => ApplyEach(books, next, rest)
  {
    var all := [first] + rest;
    if rest == [] {
      assert all[..0] == [];
    } else {
      EachCons(books, s, first, rest[..|rest| - 1]);
      ConsInit(first, rest);
    }
  }

  /** The runtime and the ledger take alike states to alike states. */
  lemma RuntimeApply(rt: Runtime, books: Books, s: State, t: State, cs: ChangeSet)
    requires OnLedger(rt, books) && Alike(s, t)
    ensures SameOutcome(rt.apply(s, cs), Apply(books, t, cs))
  {
    AlikeApply(books, s, t, cs);
    assert SameOutcome(rt.apply(s, cs), Apply(books, s, cs));
  }

  lemma FirstPart(css: seq<ChangeSet>, batches: seq<seq<nat>>)
    requires AllWithin(batches, |css|) && batches != []
    ensures MergedParts(PartsOf(css, batches))
            == [Merged(Select(css, batches[0]))] + MergedParts(PartsOf(css, batches[1..]))
  {
  }

  lemma {:induction false} BatchesApplyParts(rt: Runtime, books: Books, s: State, t: State, css: seq<ChangeSet>,
                                             batches: seq<seq<nat>>)
    requires OnLedger(rt, books) && Alike(s, t)
    requires AllWithin(batches, |css|) && NoneEmpty(batches)
    ensures SameOutcome(BatchedApply(rt, s, css, batches), ApplyEach(books, t, MergedParts(PartsOf(css, batches))))
    decreases |batches|
  {
    if batches != [] {
      var first, rest := Merged(Select(css, batches[0])), MergedParts(PartsOf(css, batches[1..]));
      FirstPart(css, batches);
      EachCons(books, t, first, rest);
      RuntimeApply(rt, books, s, t, first);
      if rt.apply(s, first).Ok? {
        BatchesApplyParts(rt, books, rt.apply(s, first).value, Apply(books, t, first).value, css, batches[1..]);
      }
    }
  }

  /**
   Applying the schedule of conflict-free changesets gives the outcome of applying them one by
   one if and only if, once one of the two succeeds, merging its batches is not seen.
   */
  lemma ScheduleApplyEachIff(rt: Runtime, books: Books, s: State, css: seq<ChangeSet>, batches: seq<seq<nat>>,
                             settings: Settings)
    requires OnLedger(rt, books) && ConflictFree(Manifests(css))
    requires Schedules(batches, css, settings) && AllWithin(batches, |css|)
    ensures var batched, each := BatchedApply(rt, s, css, batches), ApplyEach(books, s, css);
            SameOutcome(batched, each) <==> (batched.Ok? || each.Ok? ==> MergesUnseen(books, s, PartsOf(css, batches)))
  {
    ScheduleIsPartition(batches, css, settings);
    ConflictFreeIsApart(css);
    BatchesApplyParts(rt, books, s, s, css, batches);
    MergedIsEachIff(books, s, PartsOf(css, batches));
  }
}
