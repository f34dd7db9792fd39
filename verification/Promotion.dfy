/**
 Restoring a backup file to disk: the vacancy checks, the staging folders and the two
 promotions of `import_validator_backup`. The disk is one tree of paths.
 */
module Promotion {
  import opened Prelude
  import opened Backup
  import opened Authenticity

  datatype Entry = Folder | Stored(data: Bytes)

  type Disk = map<Path, Entry>

  function Parent(p: Path): Path {
    if p == [] then [] else p[..|p| - 1]
  }

  function Prefixes(p: Path): set<Path> {
    set k | 0 < k <= |p| :: p[..k]
  }

  /** Makes the missing folders down to a path. */
  function WithFolders(disk: Disk, p: Path): Disk {
    map q | q in disk.Keys + Prefixes(p) :: if q in disk then disk[q] else Folder
  }

  /** No file is in the way of a folder at this path. */
  predicate Clear(disk: Disk, p: Path) {
    forall q :: q in disk && q <= p ==> disk[q].Folder?
  }

  predicate Occupied(paths: set<Path>, p: Path) {
    exists q :: q in paths && p < q
  }

  /** Missing, or an empty folder. */
  predicate Vacant(disk: Disk, p: Path) {
    !Occupied(disk.Keys, p) && (p in disk ==> disk[p].Folder?)
  }

  predicate HasFiles(tree: Tree) {
    exists p :: p in tree && p != []
  }

  /** The paths of a tree: its files and the folders they are in. */
  function PathsOf(tree: Tree): set<Path> {
    (set p | p in tree && p != []) + (set p, k | p in tree && 0 < k < |p| :: p[..k])
  }

  /** Puts a tree in the place of a vacant folder. */
  function Graft(disk: Disk, at: Path, tree: Tree): Disk {
    map q | q in disk.Keys + {at} + (set p | p in PathsOf(tree) :: at + p) ::
      if at < q && q[|at|..] in tree then Stored(tree[q[|at|..]]) else if q in disk then disk[q] else Folder
  }

  /** Two paths with a common extension are comparable. */
  lemma CommonExtension(p: Path, q: Path, x: Path)
    requires p <= x && q <= x
    ensures Comparable(p, q)
  {
    if |p| <= |q| {
      assert p == x[..|p|] && q == x[..|q|];
      assert q[..|p|] == p;
    } else {
      assert p[..|q|] == q;
    }
  }

  lemma FoldersOccupy(disk: Disk, p: Path, q: Path)
    ensures Occupied(WithFolders(disk, p).Keys, q) <==> Occupied(disk.Keys, q) || q < p
  {
    if Occupied(disk.Keys, q) {
      var x :| x in disk.Keys && q < x;
      assert x in WithFolders(disk, p).Keys;
    }
    if q < p {
      assert p == p[..|p|] && p in Prefixes(p);
      assert p in WithFolders(disk, p).Keys;
    }
    if x :| x in WithFolders(disk, p).Keys && q < x && x !in disk {
      assert x in Prefixes(p);
    }
  }

  lemma TreeHasFiles(tree: Tree, p: Path)
    requires p in PathsOf(tree)
    ensures p != [] && HasFiles(tree)
  {
  }

  /** What a grafted tree puts inside a path that is not inside the graft. */
  lemma GraftOccupies(disk: Disk, at: Path, tree: Tree, q: Path)
    requires !(at < q)
    ensures Occupied(Graft(disk, at, tree).Keys, q) <==>
            Occupied(disk.Keys, q) || q < at || (q == at && HasFiles(tree))
  {
    var keys := Graft(disk, at, tree).Keys;
    if Occupied(disk.Keys, q) {
      var x :| x in disk.Keys && q < x;
      assert x in keys;
    }
    if q < at {
      assert at in keys;
    }
    if q == at && HasFiles(tree) {
      var p :| p in tree && p != [];
      assert p in PathsOf(tree) && at + p in keys && at < at + p;
    }
    if x :| x in keys && q < x && x !in disk && x != at {
      var p :| p in PathsOf(tree) && x == at + p;
      TreeHasFiles(tree, p);
      CommonExtension(q, at, x);
    }
  }

  lemma StagingBelow(p: Path, name: string, q: Path)
    requires p != []
    ensures q < Parent(p) + [name] <==> q < p
  {
    var parent := Parent(p);
    assert p == parent + [p[|p| - 1]];
    if q < p {
      assert |q| <= |parent| && q == p[..|q|] && q == parent[..|q|];
    }
    if q < parent + [name] {
      assert q == (parent + [name])[..|q|] && q == parent[..|q|];
      assert q == p[..|q|];
    }
  }

  /** Both parents are made. */
  function Prepared(disk: Disk, data: Path, recovery: Path): Disk {
    WithFolders(WithFolders(disk, Parent(data)), Parent(recovery))
  }

  function StagingAt(target: Path, name: string): Path {
    Parent(target) + [name]
  }

  /** When the first promotion is made: the data folder is occupied exactly if recovery is inside it. */
  lemma DataOccupied(disk: Disk, data: Path, recovery: Path, t1: string, t2: string)
    requires data != [] && recovery != [] && !Occupied(disk.Keys, data)
    ensures Occupied(Prepared(disk, data, recovery).Keys + {StagingAt(data, t1), StagingAt(recovery, t2)}, data)
            <==> data < recovery
  {
    FoldersOccupy(disk, Parent(data), data);
    FoldersOccupy(WithFolders(disk, Parent(data)), Parent(recovery), data);
    StagingBelow(data, t1, data);
    StagingBelow(recovery, t2, data);
    var stagings := {StagingAt(data, t1), StagingAt(recovery, t2)};
    assert StagingAt(recovery, t2) in stagings;
    OccupiedUnion(Prepared(disk, data, recovery).Keys, stagings, data);
    ParentBelow(data, recovery);
  }

  lemma ParentBelow(q: Path, p: Path)
    requires p != []
    ensures q < Parent(p) ==> q < p
  {
    assert Parent(p) == p[..|p| - 1];
  }

  lemma OccupiedUnion(a: set<Path>, b: set<Path>, q: Path)
    ensures Occupied(a + b, q) <==> Occupied(a, q) || Occupied(b, q)
  {
    if Occupied(a, q) {
      var x :| x in a && q < x;
      assert x in a + b;
    }
    if Occupied(b, q) {
      var x :| x in b && q < x;
      assert x in a + b;
    }
  }

  /** When the second is made: the recovery folder holds the data folder, or is it. */
  lemma RecoveryOccupied(disk: Disk, data: Path, recovery: Path, tree: Tree, t2: string)
    requires data != [] && recovery != [] && !Occupied(disk.Keys, recovery) && !(data < recovery)
    ensures Occupied(Graft(Prepared(disk, data, recovery), data, tree).Keys + {StagingAt(recovery, t2)}, recovery)
            <==> recovery < data || (recovery == data && HasFiles(tree))
  {
    var base := Prepared(disk, data, recovery);
    FoldersOccupy(disk, Parent(data), recovery);
    FoldersOccupy(WithFolders(disk, Parent(data)), Parent(recovery), recovery);
    ParentBelow(recovery, data);
    GraftOccupies(base, data, tree, recovery);
    StagingBelow(recovery, t2, recovery);
    OccupiedUnion(Graft(base, data, tree).Keys, {StagingAt(recovery, t2)}, recovery);
  }

  /**
   What an import does, decided by the disk before, the two target paths and the file. `begun`
   is how far a file that is rejected was read: past its manifest, or not.
   */
  function ImportOutcome(before: Disk, restored: Option<Restored>, begun: bool, data: Path, recovery: Path)
    : (Disk, Option<Summary>)
  {
    if !Vacant(before, data) || !Vacant(before, recovery) || (restored.None? && !begun) then (before, None)
    else if !Clear(before, Parent(data)) then (before, None)
    else if !Clear(WithFolders(before, Parent(data)), Parent(recovery)) then
      (WithFolders(before, Parent(data)), None)
    else
      var base := Prepared(before, data, recovery);
      if restored.None? || data < recovery then (base, None)
      else
        var first := Graft(base, data, restored.value.data);
        if recovery < data || (recovery == data && HasFiles(restored.value.data)) then (first, None)
        else (Graft(first, recovery, restored.value.recovery), Some(restored.value.summary))
  }

  lemma StagingsDiffer(data: Path, recovery: Path, t1: string, t2: string)
    requires t1 != t2
    ensures StagingAt(data, t1) != StagingAt(recovery, t2)
  {
    assert StagingAt(data, t1)[|Parent(data)|] == t1 && StagingAt(recovery, t2)[|Parent(recovery)|] == t2;
  }

  /** A graft in a place with nothing inside it keeps what is there. */
  lemma GraftKeeps(disk: Disk, at: Path, tree: Tree, q: Path)
    requires q in disk && !(at < q)
    ensures q in Graft(disk, at, tree) && Graft(disk, at, tree)[q] == disk[q]
  {
  }

  lemma GraftPlaces(disk: Disk, at: Path, tree: Tree, p: Path)
    requires p in tree && p != []
    ensures at + p in Graft(disk, at, tree) && Graft(disk, at, tree)[at + p] == Stored(tree[p])
  {
    assert p in PathsOf(tree) && at < at + p && (at + p)[|at|..] == p;
  }

  ghost predicate Keeps(disk: Disk, after: Disk, q: Path) {
    q in disk ==> q in after && after[q] == disk[q]
  }

  lemma PreparedKeeps(disk: Disk, data: Path, recovery: Path, q: Path)
    ensures Keeps(disk, WithFolders(disk, Parent(data)), q) && Keeps(disk, Prepared(disk, data, recovery), q)
  {
  }

  lemma GraftsKeep(disk: Disk, data: Path, one: Tree, recovery: Path, two: Tree, q: Path)
    requires q in disk && !(data < q) && !(recovery < q)
    ensures Keeps(disk, Graft(disk, data, one), q) && Keeps(disk, Graft(Graft(disk, data, one), recovery, two), q)
  {
    GraftKeeps(disk, data, one, q);
    GraftKeeps(Graft(disk, data, one), recovery, two, q);
  }

  /** The disks an import can leave. */
  lemma OutcomeCases(before: Disk, restored: Option<Restored>, begun: bool, data: Path, recovery: Path)
    ensures var after := ImportOutcome(before, restored, begun, data, recovery).0;
            var base := Prepared(before, data, recovery);
            || after == before || after == WithFolders(before, Parent(data)) || after == base
            || (restored.Some? && Vacant(before, data) && Vacant(before, recovery)
                && (after == Graft(base, data, restored.value.data)
                    || after == Graft(Graft(base, data, restored.value.data), recovery, restored.value.recovery)))
  {
  }

  /** An import, whether it succeeds or fails, and where, loses nothing that was on disk. */
  lemma ImportLosesNothing(before: Disk, restored: Option<Restored>, begun: bool, data: Path, recovery: Path, q: Path)
    requires q in before
    ensures Keeps(before, ImportOutcome(before, restored, begun, data, recovery).0, q)
  {
    OutcomeCases(before, restored, begun, data, recovery);
    PreparedKeeps(before, data, recovery, q);
    var base := Prepared(before, data, recovery);
    if restored.Some? && !(data < q) && !(recovery < q) {
      GraftsKeep(base, data, restored.value.data, recovery, restored.value.recovery, q);
    }
    assert Vacant(before, data) ==> !(data < q);
    assert Vacant(before, recovery) ==> !(recovery < q);
  }

  /** A successful import has every restored file in its place under its target. */
  lemma ImportPlacesAll(before: Disk, restored: Option<Restored>, begun: bool, data: Path, recovery: Path, p: Path)
    requires ImportOutcome(before, restored, begun, data, recovery).1.Some? && p != []
    ensures var after := ImportOutcome(before, restored, begun, data, recovery).0;
            && (p in restored.value.data ==>
                  data + p in after && after[data + p] == Stored(restored.value.data[p]))
            && (p in restored.value.recovery ==>
                  recovery + p in after && after[recovery + p] == Stored(restored.value.recovery[p]))
  {
    var first := Graft(Prepared(before, data, recovery), data, restored.value.data);
    if p in restored.value.recovery {
      GraftPlaces(first, recovery, restored.value.recovery, p);
    }
    if p in restored.value.data {
      GraftPlaces(Prepared(before, data, recovery), data, restored.value.data, p);
      if recovery < data + p {
        CommonExtension(recovery, data, data + p);
        assert HasFiles(restored.value.data);
        assert false;
      }
      GraftKeeps(first, recovery, restored.value.recovery, data + p);
    }
  }

  /** The folder and everything above it is free of files. */
  lemma ClearBehind(disk: Disk, made: Path, p: Path)
    requires Clear(disk, made)
    ensures Clear(WithFolders(disk, made), p) <==> Clear(disk, p)
  {
    var more := WithFolders(disk, made);
    if Clear(more, p) {
      forall q | q in disk && q <= p ensures disk[q].Folder? {
        assert q in more && more[q] == disk[q];
      }
    }
  }

  /**
   An import of a sound file succeeds exactly when both targets are vacant, no file is in the
   way of their parents and neither target is inside the other; equal targets need a state
   without files.
   */
  lemma ImportSucceedsIff(before: Disk, restored: Option<Restored>, begun: bool, data: Path, recovery: Path)
    ensures ImportOutcome(before, restored, begun, data, recovery).1
            == if && restored.Some? && Vacant(before, data) && Vacant(before, recovery)
                  && Clear(before, Parent(data)) && Clear(before, Parent(recovery))
                  && !(data < recovery) && !(recovery < data) && (data == recovery ==> !HasFiles(restored.value.data))
               then Some(restored.value.summary) else None
  {
    if Clear(before, Parent(data)) {
      ClearBehind(before, Parent(data), Parent(recovery));
    }
  }

  /** Everything is as before, except for new folders. */
  ghost predicate AddsNoFile(before: Disk, after: Disk) {
    && (forall q :: q in before ==> q in after && after[q] == before[q])
    && (forall q :: q in after && q !in before ==> after[q].Folder?)
  }

  /** A file that is not restored leaves no file behind. */
  lemma RefusedAddsNoFile(before: Disk, begun: bool, data: Path, recovery: Path)
    ensures var (after, r) := ImportOutcome(before, None, begun, data, recovery);
            r.None? && AddsNoFile(before, after)
  {
    OutcomeCases(before, None, begun, data, recovery);
  }

  class Host {
    const env: Env
    var disk: Disk
    var staging: set<Path>   // staging folders that are there besides

    constructor (env: Env, disk: Disk)
      ensures this.env == env && this.disk == disk && staging == {}
    {
      this.env, this.disk, this.staging := env, disk, {};
    }

    /** Makes the folders above a target and a staging folder next to it. */
    method CreateStaging(target: Path, name: string) returns (ok: bool)
      modifies this`disk, this`staging
      ensures ok == Clear(old(disk), Parent(target))
      ensures disk == if ok then WithFolders(old(disk), Parent(target)) else old(disk)
      ensures staging == if ok then old(staging) + {StagingAt(target, name)} else old(staging)
    {
      ok := Clear(disk, Parent(target));
      if ok {
        disk, staging := WithFolders(disk, Parent(target)), staging + {StagingAt(target, name)};
      }
    }

    /** Moves a staging folder over its target, unless something is inside the target. */
    method Promote(target: Path, name: string, tree: Tree) returns (ok: bool)
      modifies this`disk, this`staging
      ensures ok == !Occupied(old(disk).Keys + old(staging), target)
      ensures disk == if ok then Graft(old(disk), target, tree) else old(disk)
      ensures staging == old(staging) - {StagingAt(target, name)}
    {
      ok := !Occupied(disk.Keys + staging, target);
      staging := staging - {StagingAt(target, name)};
      if ok {
        disk := Graft(disk, target, tree);
      }
    }

    /**
     Stages a backup file and promotes it. The targets are checked when the import starts and
     again when each is promoted; what comes of it is decided by where the two targets lie.
     */
    method StageAndPromote(file: Bytes, network: string, data: Path, recovery: Path, begun: bool, t1: string,
                           t2: string)
      returns (r: Option<Summary>)
      requires data != [] && recovery != [] && staging == {} && t1 != t2
      modifies this`disk, this`staging
      ensures (disk, r) == ImportOutcome(old(disk), Unseal(env, file, network), begun, data, recovery)
      ensures staging == {}
    {
      if !Vacant(disk, data) || !Vacant(disk, recovery) {
        return None;
      }
      var restored := Unseal(env, file, network);
      if restored.None? && !begun {
        return None;
      }
      DataOccupied(disk, data, recovery, t1, t2);
      if restored.Some? && !(data < recovery) {
        RecoveryOccupied(disk, data, recovery, restored.value.data, t2);
      }
      StagingsDiffer(data, recovery, t1, t2);
      var ok := CreateStaging(data, t1);
      if !ok {
        return None;
      }
      ok := CreateStaging(recovery, t2);
      if !ok || restored.None? {
        staging := {};
        return None;
      }
      assert staging == {StagingAt(data, t1), StagingAt(recovery, t2)};
      ok := Promote(data, t1, restored.value.data);
      if !ok {
        staging := {};
        return None;
      }
      assert staging == {StagingAt(recovery, t2)};
      ok := Promote(recovery, t2, restored.value.recovery);
      if !ok {
        staging := {};
        return None;
      }
      return Some(restored.value.summary);
    }

    /** Restores a backup file: it succeeds with an authentic file only, and any other leaves no file on disk. */
    method Import(file: Bytes, network: string, data: Path, recovery: Path, begun: bool, t1: string, t2: string)
      returns (r: Option<Summary>)
      requires data != [] && recovery != [] && staging == {} && t1 != t2
      modifies this`disk, this`staging
      ensures (disk, r) == ImportOutcome(old(disk), Unseal(env, file, network), begun, data, recovery)
      ensures r.Some? ==> exists restored :: Authentic(env, file, network, restored) && r.value == restored.summary
      ensures Unseal(env, file, network).None? || (forall restored :: !Authentic(env, file, network, restored)) ==>
                r.None? && AddsNoFile(old(disk), disk)
      ensures staging == {}
    {
      ImportIsAuthentic(env, file, network, disk, begun, data, recovery);
      r := StageAndPromote(file, network, data, recovery, begun, t1, t2);
    }
  }

  lemma OutcomeReports(before: Disk, restored: Restored, begun: bool, data: Path, recovery: Path)
    ensures var r := ImportOutcome(before, Some(restored), begun, data, recovery).1;
            r.Some? ==> r.value == restored.summary
  {
  }

  lemma ImportIsAuthentic(env: Env, file: Bytes, network: string, before: Disk, begun: bool, data: Path, recovery: Path)
    ensures var restored := Unseal(env, file, network);
            var (after, r) := ImportOutcome(before, restored, begun, data, recovery);
            if restored.Some? then
              Authentic(env, file, network, restored.value) && (r.Some? ==> r.value == restored.value.summary)
            else r.None? && AddsNoFile(before, after)
  {
    hide *;
    var restored := Unseal(env, file, network);
    if restored.Some? {
      AcceptedIsAuthentic(env, file, network);
      OutcomeReports(before, restored.value, begun, data, recovery);
    } else {
      RefusedAddsNoFile(before, begun, data, recovery);
    }
  }
}
