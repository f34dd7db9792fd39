/**
 A pool has one canonical batch only: being canonical leaves no choice, so it specifies the
 batch without sorting, picking or filling.
 */
module OneBatch {
  import opened Selection

  lemma Ordered(laneAware: bool, a: Transaction, b: Transaction)
    ensures a.hash != b.hash ==> Precedes(laneAware, a, b) || Precedes(laneAware, b, a)
    ensures !(Precedes(laneAware, a, b) && Precedes(laneAware, b, a))
  {
    BeforeIff(laneAware, a, b);
    BeforeIff(laneAware, b, a);
    BeforeIsTotal(laneAware, a, b);
  }

  lemma Chain(laneAware: bool, a: Transaction, b: Transaction, c: Transaction)
    requires Precedes(laneAware, a, b) && Precedes(laneAware, b, c)
    ensures Precedes(laneAware, a, c)
  {
    BeforeIff(laneAware, a, b);
    BeforeIff(laneAware, b, c);
    BeforeIff(laneAware, a, c);
    BeforeIsTransitive(laneAware, a, b, c);
  }

  /** The batches agree up to `k`. */
  ghost predicate AgreeTo(a: seq<Transaction>, b: seq<Transaction>, k: nat) {
    k <= |a| && k <= |b| && forall i :: 0 <= i < k ==> a[i] == b[i]
  }

  /** What comes before the `k`-th of a proper batch comes before all that follow it. */
  lemma NotBehind(policy: Policy, pool: seq<Transaction>, batch: seq<Transaction>, k: nat, x: Transaction, m: nat)
    requires ProperBatch(policy, pool, batch) && k <= m < |batch| && Precedes(policy.laneAware, x, batch[k])
    ensures Precedes(policy.laneAware, x, batch[m]) && !Precedes(policy.laneAware, batch[m], x)
  {
    if k < m {
      Chain(policy.laneAware, x, batch[k], batch[m]);
    }
    Ordered(policy.laneAware, x, batch[m]);
  }

  lemma NotAmong(policy: Policy, pool: seq<Transaction>, batch: seq<Transaction>, k: nat, x: Transaction)
    requires ProperBatch(policy, pool, batch) && k < |batch| && Precedes(policy.laneAware, x, batch[k])
    requires forall i :: 0 <= i < k ==> Precedes(policy.laneAware, batch[i], x)
    ensures x !in batch
  {
    forall m | 0 <= m < |batch| ensures batch[m] != x {
      Ordered(policy.laneAware, x, x);
      if k <= m {
        NotBehind(policy, pool, batch, k, x, m);
      }
    }
  }

  /** A transaction of the pool that could follow the first `k` does not come before the next one: it would be in. */
  lemma NothingSkipped(policy: Policy, pool: seq<Transaction>, batch: seq<Transaction>, k: nat, x: Transaction)
    requires Canonical(policy, pool, batch) && k < |batch| && x in pool
    requires forall i :: 0 <= i < k ==> Precedes(policy.laneAware, batch[i], x) && !Clashes(policy, batch[i], x)
    ensures !Precedes(policy.laneAware, x, batch[k])
  {
    if Precedes(policy.laneAware, x, batch[k]) {
      NotAmong(policy, pool, batch, k, x);
      if KeptOut(policy, batch, x) {
        var m :| 0 <= m < |batch| && Precedes(policy.laneAware, batch[m], x) && Clashes(policy, batch[m], x);
        NotBehind(policy, pool, batch, k, x, m);
      } else {
        var y :| NoMoreRoom(policy, pool, batch, y) && (y == x || Precedes(policy.laneAware, y, x));
        if y != x {
          Chain(policy.laneAware, batch[k], y, x);
        }
        Ordered(policy.laneAware, x, batch[k]);
      }
    }
  }

  lemma OneOfEachHash(pool: seq<Transaction>, x: Transaction, y: Transaction)
    requires DistinctHashes(pool) && x in pool && y in pool && x.hash == y.hash
    ensures x == y
  {
    var i :| 0 <= i < |pool| && pool[i] == x;
    var j :| 0 <= j < |pool| && pool[j] == y;
  }

  lemma SameNext(policy: Policy, pool: seq<Transaction>, a: seq<Transaction>, b: seq<Transaction>, k: nat)
    requires Canonical(policy, pool, a) && Canonical(policy, pool, b) && DistinctHashes(pool)
    requires AgreeTo(a, b, k) && k < |a| && k < |b|
    ensures a[k] == b[k]
  {
    NothingSkipped(policy, pool, a, k, b[k]);
    NothingSkipped(policy, pool, b, k, a[k]);
    Ordered(policy.laneAware, a[k], b[k]);
    OneOfEachHash(pool, a[k], b[k]);
  }

  lemma {:induction false} BytesOfFront(batch: seq<Transaction>, k: nat)
    requires k < |batch| && forall i :: 0 <= i < |batch| ==> batch[i].size.Some?
    ensures Bytes(batch[..k]) + batch[k].size.value <= Bytes(batch)
  {
    if k > 0 {
      var rest := batch[1..];
      BytesOfFront(rest, k - 1);
      assert batch[..k][1..] == rest[..k - 1];
    }
  }

  /** The next one of the longer batch is not kept out of the shorter one, so a cap ended that before it. */
  lemma NotYet(policy: Policy, pool: seq<Transaction>, a: seq<Transaction>, b: seq<Transaction>)
    requires Canonical(policy, pool, a) && ProperBatch(policy, pool, b)
    requires AgreeTo(a, b, |a|) && |a| < |b|
    ensures EndedBefore(policy, pool, a, b[|a|])
  {
    var x := b[|a|];
    Ordered(policy.laneAware, x, x);
    assert forall m :: 0 <= m < |a| ==> a[m] == b[m] && a[m] != x && !Clashes(policy, a[m], x);
  }

  /** Where the first batch ended, the next one of the second would have had room. */
  lemma RoomForNext(policy: Policy, pool: seq<Transaction>, a: seq<Transaction>, b: seq<Transaction>)
    requires ProperBatch(policy, pool, a) && ProperBatch(policy, pool, b) && AgreeTo(a, b, |a|) && |a| < |b|
    ensures |a| < MAX_DAG_VERTEX_TRANSACTIONS && Fits(b[|a|], Bytes(a))
  {
    assert a == b[..|a|];
    BytesOfFront(b, |a|);
  }

  /** What ended the first batch does not come before the next one of the second. */
  lemma EndIsNotBefore(policy: Policy, pool: seq<Transaction>, a: seq<Transaction>, b: seq<Transaction>, y: Transaction)
    requires ProperBatch(policy, pool, a) && Canonical(policy, pool, b) && AgreeTo(a, b, |a|) && |a| < |b|
    requires NoMoreRoom(policy, pool, a, y)
    ensures !Precedes(policy.laneAware, y, b[|a|])
  {
    assert forall i :: 0 <= i < |a| ==> b[i] == a[i];
    NothingSkipped(policy, pool, b, |a|, y);
  }

  /** Neither of two canonical batches goes on where the other ends. */
  lemma SameEnd(policy: Policy, pool: seq<Transaction>, a: seq<Transaction>, b: seq<Transaction>)
    requires Canonical(policy, pool, a) && Canonical(policy, pool, b) && AgreeTo(a, b, |a|)
    ensures |b| <= |a|
  {
    if |a| < |b| {
      var x := b[|a|];
      NotYet(policy, pool, a, b);
      var y :| NoMoreRoom(policy, pool, a, y) && (y == x || Precedes(policy.laneAware, y, x));
      EndIsNotBefore(policy, pool, a, b, y);
      RoomForNext(policy, pool, a, b);
    }
  }

  lemma AgreeStart(a: seq<Transaction>, b: seq<Transaction>)
    ensures AgreeTo(a, b, 0)
  {
  }

  lemma AgreeNext(a: seq<Transaction>, b: seq<Transaction>, k: nat)
    requires AgreeTo(a, b, k) && k < |a| && k < |b| && a[k] == b[k]
    ensures AgreeTo(a, b, k + 1)
  {
  }

  lemma {:induction false} AgreeAllTheWay(policy: Policy, pool: seq<Transaction>, a: seq<Transaction>,
                                          b: seq<Transaction>, k: nat)
    requires Canonical(policy, pool, a) && Canonical(policy, pool, b) && DistinctHashes(pool)
    requires k <= |a| && k <= |b|
    ensures AgreeTo(a, b, k)
  {
    hide *;
    if k == 0 {
      AgreeStart(a, b);
    } else {
      AgreeAllTheWay(policy, pool, a, b, k - 1);
      SameNext(policy, pool, a, b, k - 1);
      AgreeNext(a, b, k - 1);
    }
  }

  /** A pool without repeated hashes has exactly one canonical batch, the one the vertex gets. */
  lemma CanonicalIsUnique(policy: Policy, pool: seq<Transaction>, batch: seq<Transaction>)
    requires DistinctHashes(pool)
    ensures Canonical(policy, pool, batch) <==> batch == DagBatch(policy, pool)
  {
    var dag := DagBatch(policy, pool);
    DagBatchIsCanonical(policy, pool);
    if Canonical(policy, pool, batch) {
      AgreeAllTheWay(policy, pool, batch, dag, if |batch| < |dag| then |batch| else |dag|);
      if |batch| <= |dag| {
        SameEnd(policy, pool, batch, dag);
      } else {
        AgreeBack(batch, dag);
        SameEnd(policy, pool, dag, batch);
      }
      assert |batch| == |dag|;
    }
  }

  lemma AgreeBack(a: seq<Transaction>, b: seq<Transaction>)
    requires AgreeTo(a, b, |b|)
    ensures AgreeTo(b, a, |b|)
  {
  }
}
