/**
 The streaming validator backup (format 2): the payload writer, the restoring parser
 with its staging trees, and the encrypted envelope.

 JSON, UTF-8, hashing, gzip, encryption and the state snapshot import are the functions
 of an `Env`. Every error is `None`: the source's errors differ only in their text.
 */
module Backup {
  import opened Prelude

  type Path = seq<string>
  type Tree = map<Path, Bytes>

  /** The contents of a file, whose length the source holds in 64 bits. */
  type Content = d: Bytes | |d| <= U64_MAX witness []

  const FORMAT_VERSION: nat := 2
  const U32_MAX: nat := 0xFFFF_FFFF
  const MAX_NAME: nat := 0xFFFF
  const MAX_JSON: nat := 1024 * 1024
  const MAX_COMPRESSED_BYTES: nat := 16 * 1024 * 1024 * 1024
  const MAX_ENTRY_BYTES: nat := 8 * 1024 * 1024 * 1024
  const MAX_RECORDS: nat := 100_000
  const SNAPSHOT_NAME := "state/state-snapshot.json"
  const SNAPSHOT_LEAF := "state-snapshot.json"
  const IDENTITY_NAME := "identity/p2p-identity.key"
  const IDENTITY_LEAF := "p2p-identity.key"
  const GENESIS_NAME := "network/genesis.json"
  const GENESIS_LEAF := "genesis.json"
  const DATA_STAGING := "data-files"
  const RECOVERY_STAGING := "recovery-files"

  datatype Manifest = Manifest(version: nat, network: string, created: nat, height: nat, root: string, included: nat)

  datatype Header = Header(version: nat, digest: string, crypto: Bytes)

  datatype Imported = Imported(height: nat, root: string, files: Tree)

  datatype Summary = Summary(height: nat, root: string, included: nat)

  datatype Restored = Restored(data: Tree, recovery: Tree, summary: Summary)

  datatype File = File(name: string, data: Content)

  datatype Env = Env(
    magic: Bytes,
    utf8: string -> Bytes,
    fromUtf8: Bytes -> Option<string>,
    json: Manifest -> Bytes,
    fromJson: Bytes -> Option<Manifest>,
    headerJson: Header -> Bytes,
    fromHeaderJson: Bytes -> Option<Header>,
    hash: Bytes -> Bytes,
    digest: Bytes -> string,
    gzip: Bytes -> Bytes,
    gunzip: Bytes -> Option<Bytes>,
    encrypt: Bytes -> (Bytes, Bytes),              // stream header and ciphertext
    decrypt: (Bytes, Bytes) -> Option<Bytes>,
    readSnapshot: Bytes -> Option<(nat, string)>,  // height and state root
    importState: (Bytes, string) -> Option<Imported>,
    overlapping: (Tree, Tree) -> Option<Tree>)     // staged files that use the staging directory's own name

  ghost predicate Faithful(env: Env) {
    && (forall s :: env.fromUtf8(env.utf8(s)) == Some(s) && |s| <= |env.utf8(s)| <= 4 * |s|)
    && (forall m :: env.fromJson(env.json(m)) == Some(m))
    && (forall h :: env.fromHeaderJson(env.headerJson(h)) == Some(h))
    && (forall d :: |env.hash(d)| == 32)
    && (forall d :: env.gunzip(env.gzip(d)) == Some(d))
    && (forall d :: env.decrypt(env.encrypt(d).0, env.encrypt(d).1) == Some(d))
  }

  // ---------------------------------------------------------------------------
  // Numbers and length prefixes
  // ---------------------------------------------------------------------------

  function BigEndian(n: nat, width: nat): (r: Bytes)
    ensures |r| == width
  {
    if width == 0 then [] else BigEndian(n / 256, width - 1) + [(n % 256) as byte]
  }

  function FromBigEndian(s: Bytes): nat {
    if s == [] then 0 else FromBigEndian(s[..|s| - 1]) * 256 + s[|s| - 1] as nat
  }

  lemma {:induction false} NumberRoundTrip(n: nat, width: nat)
    requires n < Capacity(width)
    ensures FromBigEndian(BigEndian(n, width)) == n
  {
    if width > 0 {
      NumberRoundTrip(n / 256, width - 1);
      var s := BigEndian(n, width);
      assert s[..|s| - 1] == BigEndian(n / 256, width - 1);
    }
  }

  function Prefixed(value: Bytes): Bytes {
    BigEndian(|value|, 4) + value
  }

  /** Reads a length-prefixed field: the field and what follows it. */
  function ReadPrefixed(input: Bytes, limit: nat): Option<(Bytes, Bytes)> {
    if |input| < 4 then None
    else
      var len := FromBigEndian(input[..4]);
      if len > limit || |input| < 4 + len then None
      else Some((input[4..4 + len], input[4 + len..]))
  }

  lemma PrefixRoundTrip(value: Bytes, limit: nat, rest: Bytes)
    requires |value| <= U32_MAX
    ensures ReadPrefixed(Prefixed(value) + rest, limit) == if |value| > limit then None else Some((value, rest))
  {
    WordCapacities();
    NumberRoundTrip(|value|, 4);
    var input := Prefixed(value) + rest;
    assert input[..4] == BigEndian(|value|, 4);
    assert input[4..4 + |value|] == value && input[4 + |value|..] == rest;
  }

  /** A reader does not look beyond what it takes. */
  lemma PrefixExtends(input: Bytes, limit: nat, more: Bytes)
    requires ReadPrefixed(input, limit).Some?
    ensures ReadPrefixed(input + more, limit)
            == Some((ReadPrefixed(input, limit).value.0, ReadPrefixed(input, limit).value.1 + more))
  {
    var len := FromBigEndian(input[..4]);
    assert (input + more)[..4] == input[..4];
    assert (input + more)[4..4 + len] == input[4..4 + len];
    assert (input + more)[4 + len..] == input[4 + len..] + more;
  }

  // ---------------------------------------------------------------------------
  // Names and places
  // ---------------------------------------------------------------------------

  function Split(name: string): (r: Path)
    ensures |r| > 0
  {
    if name == "" then [""]
    else if name[0] == '/' then [""] + Split(name[1..])
    else
      var rest := Split(name[1..]);
      [[name[0]] + rest[0]] + rest[1..]
  }

  predicate PlainSegment(segment: string) {
    segment != "" && segment != "." && segment != ".." && ':' !in segment
  }

  predicate PlainPath(p: Path) {
    forall i :: 0 <= i < |p| ==> PlainSegment(p[i])
  }

  predicate ValidName(env: Env, name: string) {
    && 0 < |env.utf8(name)| <= MAX_NAME
    && !("/" <= name) && !(name != "" && name[|name| - 1] == '/') && '\\' !in name && '\0' !in name
    && PlainPath(Split(name))
  }

  /** Whether a relative path could leave its base: absolute, or with a component that is not a plain name. */
  predicate Escapes(relative: string) {
    "/" <= relative || ".." in Split(relative) || Split(relative)[0] == "."
  }

  datatype Area = SnapshotArea | DataArea | RecoveryArea

  /** Where an entry is restored to, by its archive name. */
  function Route(name: string): Option<(Area, string)> {
    if name == SNAPSHOT_NAME then Some((SnapshotArea, SNAPSHOT_LEAF))
    else if "wal/" <= name then Some((DataArea, name[4..]))
    else if name == IDENTITY_NAME then Some((DataArea, IDENTITY_LEAF))
    else if "consensus/" <= name then Some((RecoveryArea, name[10..]))
    else if name == GENESIS_NAME then Some((RecoveryArea, GENESIS_LEAF))
    else None
  }

  lemma {:induction false} SplitAfter(head: string, rest: string)
    requires '/' !in head
    ensures Split(head + "/" + rest) == [head] + Split(rest)
  {
    var name := head + "/" + rest;
    if head == "" {
      assert name[1..] == rest;
    } else {
      SplitAfter(head[1..], rest);
      assert name[1..] == head[1..] + "/" + rest;
      assert [head[0]] + head[1..] == head;
    }
  }

  lemma {:induction false} SplitWhole(name: string)
    requires '/' !in name
    ensures Split(name) == [name]
  {
    if name != "" {
      SplitWhole(name[1..]);
      assert [name[0]] + name[1..] == name;
    }
  }

  lemma SuffixIsPlain(head: string, relative: string)
    requires '/' !in head && PlainPath(Split(head + "/" + relative))
    ensures PlainPath(Split(relative))
  {
    SplitAfter(head, relative);
    assert Split(head + "/" + relative)[1..] == Split(relative);
  }

  lemma WholeIsPlain(name: string)
    requires '/' !in name && PlainSegment(name)
    ensures PlainPath(Split(name))
  {
    SplitWhole(name);
  }

  lemma PlainIsInside(relative: string)
    requires PlainPath(Split(relative))
    ensures !Escapes(relative)
  {
    assert "/" <= relative ==> Split(relative)[0] == "";
  }

  lemma LeavesArePlain()
    ensures '/' !in SNAPSHOT_LEAF && PlainSegment(SNAPSHOT_LEAF)
    ensures '/' !in IDENTITY_LEAF && PlainSegment(IDENTITY_LEAF)
    ensures '/' !in GENESIS_LEAF && PlainSegment(GENESIS_LEAF)
  {
  }

  lemma HeadAndRest(head: string, name: string)
    requires head + "/" <= name
    ensures name == head + "/" + name[|head| + 1..]
  {
  }

  lemma WalShape(name: string)
    requires "wal/" <= name
    ensures name == "wal" + "/" + name[4..]
  {
    assert "wal" + "/" == "wal/";
    HeadAndRest("wal", name);
  }

  lemma ConsensusShape(name: string)
    requires "consensus/" <= name
    ensures name == "consensus" + "/" + name[10..]
  {
    assert "consensus" + "/" == "consensus/";
    HeadAndRest("consensus", name);
  }

  /** A validated entry is restored to a plain path inside its base. */
  lemma ValidatedIsSafe(env: Env, name: string)
    requires ValidName(env, name) && Route(name).Some?
    ensures PlainPath(Split(Route(name).value.1)) && !Escapes(Route(name).value.1)
  {
    var relative := Route(name).value.1;
    LeavesArePlain();
    if relative in {SNAPSHOT_LEAF, IDENTITY_LEAF, GENESIS_LEAF} {
      WholeIsPlain(relative);
    } else if "wal/" <= name {
      WalShape(name);
      SuffixIsPlain("wal", relative);
    } else {
      ConsensusShape(name);
      SuffixIsPlain("consensus", relative);
    }
    PlainIsInside(relative);
  }

  // ---------------------------------------------------------------------------
  // Staging
  // ---------------------------------------------------------------------------

  datatype Staging = Staging(snapshot: Option<Bytes>, data: Tree, recovery: Tree, entries: nat, records: nat)

  const NOTHING := Staging(None, map[], map[], 0, 0)

  /** A path is taken if something is there, if it is a directory, or if a file is where a parent should be. */
  predicate Blocked(tree: Tree, path: Path) {
    exists p :: p in tree && (p <= path || path <= p)
  }

  function Put(tree: Tree, relative: string, data: Bytes): Option<Tree> {
    if Escapes(relative) || Blocked(tree, Split(relative)) then None
    else Some(tree[Split(relative) := data])
  }

  /** Restores one entry to its place. */
  function Stage(st: Staging, name: string, data: Bytes): Option<Staging> {
    match Route(name)
    case None => None
    case Some((SnapshotArea, _)) => if st.snapshot.Some? then None else Some(st.(snapshot := Some(data)))
    case Some((DataArea, relative)) =>
      (match Put(st.data, relative, data)
       case None => None
       case Some(tree) => Some(st.(data := tree, entries := st.entries + 1)))
    case Some((RecoveryArea, relative)) =>
      (match Put(st.recovery, relative, data)
       case None => None
       case Some(tree) => Some(st.(recovery := tree, entries := st.entries + 1)))
  }

  // ---------------------------------------------------------------------------
  // Records
  // ---------------------------------------------------------------------------

  function WriteRecord(env: Env, f: File): Bytes {
    [1] + (Prefixed(env.utf8(f.name)) + (BigEndian(|f.data|, 8) + (env.hash(f.data) + f.data)))
  }

  function WriteRecords(env: Env, files: seq<File>): Bytes {
    if files == [] then [] else WriteRecord(env, files[0]) + WriteRecords(env, files[1..])
  }

  /** Reads a record's length, hash and data: the data and what follows it. */
  function ReadBody(env: Env, input: Bytes): Option<(Bytes, Bytes)> {
    if |input| < 40 then None
    else
      var len := FromBigEndian(input[..8]);
      if len > MAX_ENTRY_BYTES || |input| < 40 + len then None
      else
        var data := input[40..40 + len];
        if env.hash(data) != input[8..40] then None else Some((data, input[40 + len..]))
  }

  /** Reads a record after its tag: name, data and what follows. */
  function ReadRecord(env: Env, input: Bytes): Option<(string, Bytes, Bytes)> {
    match ReadPrefixed(input, MAX_NAME)
    case None => None
    case Some((nameBytes, rest)) =>
      match env.fromUtf8(nameBytes)
      case None => None
      case Some(name) =>
        if !ValidName(env, name) then None
        else
          match ReadBody(env, rest)
          case None => None
          case Some((data, after)) => Some((name, data, after))
  }

  /** One record after its tag: read, checked and staged. */
  function TakeRecord(env: Env, input: Bytes, st: Staging): (r: Option<(Staging, Bytes)>)
    ensures r.Some? ==> |r.value.1| < |input|
  {
    if st.records + 1 > MAX_RECORDS then None
    else
      match ReadRecord(env, input)
      case None => None
      case Some((name, data, rest)) =>
        match Stage(st.(records := st.records + 1), name, data)
        case None => None
        case Some(next) => Some((next, rest))
  }

  /** Restores records up to the terminator: the staging and what follows. */
  function Parse(env: Env, input: Bytes, st: Staging): Option<(Staging, Bytes)>
    decreases |input|
  {
    if input == [] then None
    else if input[0] == 0 then Some((st, input[1..]))
    else if input[0] != 1 then None
    else
      match TakeRecord(env, input[1..], st)
      case None => None
      case Some((next, rest)) => Parse(env, rest, next)
  }

  /** A body is taken exactly when it is within the limit and stands behind the hash of its data. */
  lemma BodyShape(env: Env, len: Bytes, hash: Bytes, data: Bytes, rest: Bytes)
    requires |len| == 8 && FromBigEndian(len) == |data| && |hash| == 32
    ensures ReadBody(env, (len + (hash + data)) + rest)
            == if |data| > MAX_ENTRY_BYTES || hash != env.hash(data) then None else Some((data, rest))
  {
    var input := (len + (hash + data)) + rest;
    assert input[..8] == len;
    assert input[8..40] == hash;
    assert input[40..40 + |data|] == data && input[40 + |data|..] == rest;
  }

  lemma BodyRoundTrip(env: Env, data: Content, rest: Bytes)
    requires Faithful(env)
    ensures ReadBody(env, (BigEndian(|data|, 8) + (env.hash(data) + data)) + rest)
            == if |data| > MAX_ENTRY_BYTES then None else Some((data, rest))
  {
    WordCapacities();
    NumberRoundTrip(|data|, 8);
    BodyShape(env, BigEndian(|data|, 8), env.hash(data), data, rest);
  }

  lemma AfterTag(prefixed: Bytes, body: Bytes, rest: Bytes)
    ensures var input := ([1] + (prefixed + body)) + rest;
            input[0] == 1 && input[1..] == prefixed + (body + rest)
  {
  }

  lemma RecordRoundTrip(env: Env, f: File, rest: Bytes)
    requires Faithful(env) && ValidName(env, f.name)
    ensures var input := WriteRecord(env, f) + rest;
            && input[0] == 1
            && ReadRecord(env, input[1..])
               == if |f.data| > MAX_ENTRY_BYTES then None else Some((f.name, f.data, rest))
  {
    var body := BigEndian(|f.data|, 8) + (env.hash(f.data) + f.data);
    AfterTag(Prefixed(env.utf8(f.name)), body, rest);
    PrefixRoundTrip(env.utf8(f.name), MAX_NAME, body + rest);
    BodyRoundTrip(env, f.data, rest);
  }

  // ---------------------------------------------------------------------------
  // Parsing what was written
  // ---------------------------------------------------------------------------

  /** Restoring files one after another, without any bytes in between. */
  function StageAll(st: Staging, files: seq<File>): Option<Staging>
    decreases |files|
  {
    if files == [] then Some(st)
    else
      match StageNext(st, files[0])
      case None => None
      case Some(next) => StageAll(next, files[1..])
  }

  function StageNext(st: Staging, f: File): Option<Staging> {
    if st.records + 1 > MAX_RECORDS || |f.data| > MAX_ENTRY_BYTES then None
    else Stage(st.(records := st.records + 1), f.name, f.data)
  }

  predicate ValidNames(env: Env, files: seq<File>) {
    forall i :: 0 <= i < |files| ==> ValidName(env, files[i].name)
  }

  lemma ParseRecord(env: Env, input: Bytes, f: File, rest: Bytes, st: Staging)
    requires input != [] && input[0] == 1
    requires ReadRecord(env, input[1..]) == if |f.data| > MAX_ENTRY_BYTES then None else Some((f.name, f.data, rest))
    ensures Parse(env, input, st) == match StageNext(st, f) case None => None case Some(next) => Parse(env, rest, next)
  {
    assert TakeRecord(env, input[1..], st)
        == match StageNext(st, f) case None => None case Some(next) => Some((next, rest));
  }

  lemma ParseOne(env: Env, f: File, rest: Bytes, st: Staging)
    requires Faithful(env) && ValidName(env, f.name)
    ensures Parse(env, WriteRecord(env, f) + rest, st)
            == match StageNext(st, f) case None => None case Some(next) => Parse(env, rest, next)
  {
    RecordRoundTrip(env, f, rest);
    ParseRecord(env, WriteRecord(env, f) + rest, f, rest, st);
  }

  lemma {:induction false} ParseWritten(env: Env, files: seq<File>, rest: Bytes, st: Staging)
    requires Faithful(env) && ValidNames(env, files)
    ensures Parse(env, WriteRecords(env, files) + ([0] + rest), st)
            == match StageAll(st, files) case None => None case Some(end) => Some((end, rest))
    decreases |files|
  {
    if files == [] {
      assert [] + ([0] + rest) == [0] + rest;
      assert ([0] + rest)[1..] == rest;
    } else {
      Associate(WriteRecord(env, files[0]), WriteRecords(env, files[1..]), [0] + rest);
      ParseOne(env, files[0], WriteRecords(env, files[1..]) + ([0] + rest), st);
      var next := StageNext(st, files[0]);
      if next.Some? {
        ParseWritten(env, files[1..], rest, next.value);
      }
    }
  }

  // ---------------------------------------------------------------------------
  // Which files can be restored, and to what
  // ---------------------------------------------------------------------------

  function Place(f: File): Option<(Area, Path)> {
    match Route(f.name)
    case None => None
    case Some((area, relative)) => Some((area, Split(relative)))
  }

  predicate Comparable(p: Path, q: Path) {
    p <= q || q <= p
  }

  predicate Clash(f: File, g: File) {
    && Place(f).Some? && Place(g).Some?
    && Place(f).value.0 == Place(g).value.0 && Comparable(Place(f).value.1, Place(g).value.1)
  }

  predicate ClashesAny(files: seq<File>, f: File) {
    exists i :: 0 <= i < |files| && Clash(files[i], f)
  }

  predicate Fits(f: File) {
    |f.data| <= MAX_ENTRY_BYTES && Place(f).Some? && Place(f).value.0 != SnapshotArea
  }

  /** What a list of files must satisfy for the reader to take it back. */
  predicate Restorable(files: seq<File>) {
    && |files| + 1 <= MAX_RECORDS
    && (forall i :: 0 <= i < |files| ==> Fits(files[i]))
    && forall i, j :: 0 <= i < j < |files| ==> !Clash(files[i], files[j])
  }

  function TreeOf(files: seq<File>, area: Area): Tree {
    if files == [] then map[]
    else
      var last := files[|files| - 1];
      var before := TreeOf(files[..|files| - 1], area);
      if Place(last).Some? && Place(last).value.0 == area then before[Place(last).value.1 := last.data] else before
  }

  function StagingOf(snapshot: Bytes, files: seq<File>): Staging {
    Staging(Some(snapshot), TreeOf(files, DataArea), TreeOf(files, RecoveryArea), |files|, |files| + 1)
  }

  ghost predicate PlacedAt(files: seq<File>, area: Area, path: Path) {
    exists i :: 0 <= i < |files| && Place(files[i]) == Some((area, path))
  }

  lemma {:induction false} TreePaths(files: seq<File>, area: Area, path: Path)
    ensures path in TreeOf(files, area) <==> PlacedAt(files, area, path)
  {
    if files != [] {
      var before := files[..|files| - 1];
      TreePaths(before, area, path);
      assert forall i :: 0 <= i < |before| ==> files[i] == before[i];
      if PlacedAt(files, area, path) && !PlacedAt(before, area, path) {
        var i :| 0 <= i < |files| && Place(files[i]) == Some((area, path));
        assert i == |files| - 1;
      }
      if PlacedAt(before, area, path) {
        var i :| 0 <= i < |before| && Place(before[i]) == Some((area, path));
        assert Place(files[i]) == Some((area, path));
      }
    }
  }

  lemma BlockedIff(files: seq<File>, f: File)
    requires Place(f).Some?
    ensures Blocked(TreeOf(files, Place(f).value.0), Place(f).value.1) <==> ClashesAny(files, f)
  {
    var area, path := Place(f).value.0, Place(f).value.1;
    var tree := TreeOf(files, area);
    if Blocked(tree, path) {
      var p :| p in tree && (p <= path || path <= p);
      TreePaths(files, area, p);
      var i :| 0 <= i < |files| && Place(files[i]) == Some((area, p));
      assert Clash(files[i], f);
    }
    if i :| 0 <= i < |files| && Clash(files[i], f) {
      TreePaths(files, area, Place(files[i]).value.1);
      assert Place(files[i]).value.1 in tree;
    }
  }

  lemma RestorableSnoc(done: seq<File>, f: File)
    requires Restorable(done)
    ensures Restorable(done + [f]) <==>
            |done| + 2 <= MAX_RECORDS && Fits(f) && !ClashesAny(done, f)
  {
    var all := done + [f];
    assert all[|done|] == f;
    assert forall i :: 0 <= i < |done| ==> all[i] == done[i];
  }

  lemma RestorablePrefix(files: seq<File>, n: nat)
    requires n <= |files| && Restorable(files)
    ensures Restorable(files[..n])
  {
  }

  lemma TreeSnoc(done: seq<File>, f: File, area: Area)
    ensures TreeOf(done + [f], area)
            == if Place(f).Some? && Place(f).value.0 == area then TreeOf(done, area)[Place(f).value.1 := f.data]
               else TreeOf(done, area)
  {
    assert (done + [f])[..|done|] == done;
  }

  lemma PutStep(env: Env, done: seq<File>, f: File)
    requires ValidName(env, f.name) && Route(f.name).Some?
    ensures var (area, relative) := Route(f.name).value;
            Put(TreeOf(done, area), relative, f.data)
            == if ClashesAny(done, f) then None else Some(TreeOf(done + [f], area))
  {
    BlockedIff(done, f);
    ValidatedIsSafe(env, f.name);
    TreeSnoc(done, f, Route(f.name).value.0);
  }

  /** The trees with one more file, given where the file goes. */
  lemma StagingSnoc(snapshot: Bytes, done: seq<File>, f: File)
    requires Place(f).Some? && Place(f).value.0 != SnapshotArea
    ensures var st := StagingOf(snapshot, done);
            StagingOf(snapshot, done + [f])
            == if Place(f).value.0 == DataArea
               then st.(data := TreeOf(done + [f], DataArea), entries := st.entries + 1, records := st.records + 1)
               else st.(recovery := TreeOf(done + [f], RecoveryArea), entries := st.entries + 1,
                        records := st.records + 1)
  {
    TreeSnoc(done, f, DataArea);
    TreeSnoc(done, f, RecoveryArea);
  }

  lemma StageElsewhere(st: Staging, f: File)
    requires st.snapshot.Some? && (Route(f.name).None? || Route(f.name).value.0 == SnapshotArea)
    ensures StageNext(st, f) == None && !Fits(f)
  {
  }

  lemma StageOutsideLimits(st: Staging, f: File)
    requires st.records + 1 > MAX_RECORDS || |f.data| > MAX_ENTRY_BYTES
    ensures StageNext(st, f) == None
  {
  }

  lemma StagePlaced(env: Env, snapshot: Bytes, done: seq<File>, f: File, area: Area, relative: string)
    requires ValidName(env, f.name) && Route(f.name) == Some((area, relative)) && area != SnapshotArea
    requires |done| + 2 <= MAX_RECORDS && |f.data| <= MAX_ENTRY_BYTES
    ensures Fits(f)
    ensures StageNext(StagingOf(snapshot, done), f)
            == if ClashesAny(done, f) then None else Some(StagingOf(snapshot, done + [f]))
  {
    StagingSnoc(snapshot, done, f);
    PutStep(env, done, f);
  }

  lemma StageStep(env: Env, snapshot: Bytes, done: seq<File>, f: File)
    requires Restorable(done) && ValidName(env, f.name)
    ensures StageNext(StagingOf(snapshot, done), f)
            == if Restorable(done + [f]) then Some(StagingOf(snapshot, done + [f])) else None
  {
    RestorableSnoc(done, f);
    if Route(f.name).None? || Route(f.name).value.0 == SnapshotArea {
      StageElsewhere(StagingOf(snapshot, done), f);
    } else if |done| + 2 > MAX_RECORDS || |f.data| > MAX_ENTRY_BYTES {
      StageOutsideLimits(StagingOf(snapshot, done), f);
    } else {
      StagePlaced(env, snapshot, done, f, Route(f.name).value.0, Route(f.name).value.1);
    }
  }

  /**
   Restoring a list of files succeeds exactly when the list is restorable, and then
   every file is at its place with its contents.
   */
  lemma {:induction false} StageAllIff(env: Env, snapshot: Bytes, done: seq<File>, todo: seq<File>)
    requires Restorable(done) && ValidNames(env, todo)
    ensures StageAll(StagingOf(snapshot, done), todo)
            == if Restorable(done + todo) then Some(StagingOf(snapshot, done + todo)) else None
    decreases |todo|
  {
    if todo == [] {
      assert done + todo == done;
    } else {
      StageStep(env, snapshot, done, todo[0]);
      assert (done + [todo[0]]) + todo[1..] == done + todo;
      assert (done + todo)[..|done| + 1] == done + [todo[0]];
      if Restorable(done + todo) {
        RestorablePrefix(done + todo, |done| + 1);
      }
      if Restorable(done + [todo[0]]) {
        StageAllIff(env, snapshot, done + [todo[0]], todo[1..]);
      }
    }
  }

  ghost predicate HoldsAt(tree: Tree, f: File) {
    Place(f).Some? && Place(f).value.1 in tree && tree[Place(f).value.1] == f.data
  }

  lemma StillHolds(done: seq<File>, f: File, g: File)
    requires Place(f).Some? && HoldsAt(TreeOf(done, Place(f).value.0), f) && !Clash(f, g)
    ensures HoldsAt(TreeOf(done + [g], Place(f).value.0), f)
  {
    TreeSnoc(done, g, Place(f).value.0);
  }

  lemma NowHolds(done: seq<File>, f: File)
    requires Place(f).Some?
    ensures HoldsAt(TreeOf(done + [f], Place(f).value.0), f)
  {
    TreeSnoc(done, f, Place(f).value.0);
  }

  /** A restored tree holds each file's contents at its place. */
  lemma {:induction false} FileIsAtItsPlace(files: seq<File>, i: nat)
    requires Restorable(files) && i < |files|
    ensures HoldsAt(TreeOf(files, Place(files[i]).value.0), files[i])
  {
    var n := |files| - 1;
    var before := files[..n];
    assert files == before + [files[n]] && Fits(files[i]);
    if i == n {
      NowHolds(before, files[n]);
    } else {
      RestorablePrefix(files, n);
      FileIsAtItsPlace(before, i);
      StillHolds(before, files[i], files[n]);
    }
  }

  /** A name the writer accepts and the reader does not know. */
  lemma WriterAcceptsMore(env: Env)
    requires Faithful(env)
    ensures ValidName(env, "x") && !Restorable([File("x", [])])
  {
    SplitWhole("x");
    assert Route("x").None?;
    assert !Fits([File("x", [])][0]);
  }

  // ---------------------------------------------------------------------------
  // The files a validator exports
  // ---------------------------------------------------------------------------

  const PRIVATE_KEY_LEAF := "private-key.key"
  const PUBLIC_KEYS_LEAF := "public-keys.json"

  datatype Leaf = Leaf(area: Area, name: string)

  function KeyFiles(identity: Content, privateKey: Content, publicKeys: Content, genesis: Content): seq<File> {
    [File(IDENTITY_NAME, identity), File("consensus/" + PRIVATE_KEY_LEAF, privateKey),
     File("consensus/" + PUBLIC_KEYS_LEAF, publicKeys), File(GENESIS_NAME, genesis)]
  }

  function KeyLeaves(): seq<Leaf> {
    [Leaf(DataArea, IDENTITY_LEAF), Leaf(RecoveryArea, PRIVATE_KEY_LEAF),
     Leaf(RecoveryArea, PUBLIC_KEYS_LEAF), Leaf(RecoveryArea, GENESIS_LEAF)]
  }

  function WalFiles(wals: seq<File>): seq<File> {
    seq(|wals|, i requires 0 <= i < |wals| => File("wal/" + wals[i].name, wals[i].data))
  }

  /** The write-ahead logs of a data directory: its entries of that name, each once. */
  ghost predicate WalEntries(wals: seq<File>) {
    && (forall i :: 0 <= i < |wals| ==> "mysticeti-" <= wals[i].name && '/' !in wals[i].name)
    && forall i, j :: 0 <= i < j < |wals| ==> wals[i].name != wals[j].name
  }

  ghost predicate AtLeaves(files: seq<File>, leaves: seq<Leaf>) {
    |files| == |leaves| && forall i :: 0 <= i < |files| ==> Place(files[i]) == Some((leaves[i].area, [leaves[i].name]))
  }

  lemma FixedRoutes()
    ensures Route(IDENTITY_NAME) == Some((DataArea, IDENTITY_LEAF))
    ensures Route(GENESIS_NAME) == Some((RecoveryArea, GENESIS_LEAF))
  {
    assert IDENTITY_NAME[0] == 'i' && GENESIS_NAME[0] == 'n';
  }

  lemma KeyLeavesAreWhole()
    ensures '/' !in PRIVATE_KEY_LEAF && '/' !in PUBLIC_KEYS_LEAF
  {
  }

  lemma PlaceOfLeaf(f: File, area: Area, leaf: string)
    requires Route(f.name) == Some((area, leaf)) && '/' !in leaf
    ensures Place(f) == Some((area, [leaf]))
  {
    SplitWhole(leaf);
  }

  lemma IdentityPlace(data: Content)
    ensures Place(File(IDENTITY_NAME, data)) == Some((DataArea, [IDENTITY_LEAF]))
  {
    LeavesArePlain();
    FixedRoutes();
    PlaceOfLeaf(File(IDENTITY_NAME, data), DataArea, IDENTITY_LEAF);
  }

  lemma GenesisPlace(data: Content)
    ensures Place(File(GENESIS_NAME, data)) == Some((RecoveryArea, [GENESIS_LEAF]))
  {
    LeavesArePlain();
    FixedRoutes();
    PlaceOfLeaf(File(GENESIS_NAME, data), RecoveryArea, GENESIS_LEAF);
  }

  lemma ConsensusPlace(leaf: string, data: Content)
    requires '/' !in leaf
    ensures Place(File("consensus/" + leaf, data)) == Some((RecoveryArea, [leaf]))
  {
    ConsensusRoute(leaf);
    PlaceOfLeaf(File("consensus/" + leaf, data), RecoveryArea, leaf);
  }

  lemma FourAtLeaves(a: File, b: File, c: File, d: File, leaves: seq<Leaf>)
    requires |leaves| == 4
    requires Place(a) == Some((leaves[0].area, [leaves[0].name]))
    requires Place(b) == Some((leaves[1].area, [leaves[1].name]))
    requires Place(c) == Some((leaves[2].area, [leaves[2].name]))
    requires Place(d) == Some((leaves[3].area, [leaves[3].name]))
    ensures AtLeaves([a, b, c, d], leaves)
  {
  }

  lemma KeyFilesAtLeaves(identity: Content, privateKey: Content, publicKeys: Content, genesis: Content)
    ensures AtLeaves(KeyFiles(identity, privateKey, publicKeys, genesis), KeyLeaves())
  {
    KeyLeavesAreWhole();
    IdentityPlace(identity);
    ConsensusPlace(PRIVATE_KEY_LEAF, privateKey);
    ConsensusPlace(PUBLIC_KEYS_LEAF, publicKeys);
    GenesisPlace(genesis);
    FourAtLeaves(File(IDENTITY_NAME, identity), File("consensus/" + PRIVATE_KEY_LEAF, privateKey),
                 File("consensus/" + PUBLIC_KEYS_LEAF, publicKeys), File(GENESIS_NAME, genesis), KeyLeaves());
  }

  lemma ConsensusRoute(leaf: string)
    ensures Route("consensus/" + leaf) == Some((RecoveryArea, leaf))
  {
    var name := "consensus/" + leaf;
    assert name[10..] == leaf && "consensus/" <= name && name[0] == 'c';
  }

  lemma WalRoute(leaf: string)
    ensures Route("wal/" + leaf) == Some((DataArea, leaf))
  {
    var name := "wal/" + leaf;
    assert name[4..] == leaf && "wal/" <= name && name[0] == 'w';
  }

  lemma LeavesRestore(files: seq<File>, leaves: seq<Leaf>)
    requires AtLeaves(files, leaves) && |files| + 1 <= MAX_RECORDS
    requires Elsewhere(leaves) && Small(files)
    requires AllDiffer(leaves)
    ensures Restorable(files)
  {
    forall i, j | 0 <= i < j < |files| ensures !Clash(files[i], files[j]) {
      assert leaves[i] != leaves[j];
      if Comparable([leaves[i].name], [leaves[j].name]) {
        assert [leaves[i].name][0] == [leaves[j].name][0];
      }
    }
  }

  lemma WalFilesAtLeaves(wals: seq<File>) returns (leaves: seq<Leaf>)
    requires WalEntries(wals)
    ensures AtLeaves(WalFiles(wals), leaves)
    ensures forall i :: 0 <= i < |leaves| ==> leaves[i] == Leaf(DataArea, wals[i].name)
  {
    leaves := seq(|wals|, i requires 0 <= i < |wals| => Leaf(DataArea, wals[i].name));
    forall i | 0 <= i < |wals| ensures Place(WalFiles(wals)[i]) == Some((DataArea, [wals[i].name])) {
      WalRoute(wals[i].name);
      SplitWhole(wals[i].name);
    }
  }

  lemma KeyLeavesDiffer(name: string)
    requires "mysticeti-" <= name
    ensures forall i, j :: 0 <= i < j < |KeyLeaves()| ==> KeyLeaves()[i] != KeyLeaves()[j]
    ensures forall i :: 0 <= i < |KeyLeaves()| ==> KeyLeaves()[i] != Leaf(DataArea, name)
  {
    assert name[0] == 'm' && IDENTITY_LEAF[0] == 'p';
    assert PRIVATE_KEY_LEAF[1] != PUBLIC_KEYS_LEAF[1] && PRIVATE_KEY_LEAF[0] != GENESIS_LEAF[0];
  }

  /** Whatever a validator exports can be restored, up to the limits on sizes and on the number of files. */
  lemma ExportedIsRestorable(identity: Content, privateKey: Content, publicKeys: Content, genesis: Content,
                             wals: seq<File>)
    requires WalEntries(wals) && |wals| + 5 <= MAX_RECORDS
    requires Small(KeyFiles(identity, privateKey, publicKeys, genesis)) && Small(wals)
    ensures Restorable(KeyFiles(identity, privateKey, publicKeys, genesis) + WalFiles(wals))
  {
    var keys := KeyFiles(identity, privateKey, publicKeys, genesis);
    KeyFilesAtLeaves(identity, privateKey, publicKeys, genesis);
    var walLeaves := WalFilesAtLeaves(wals);
    LeavesDiffer(KeyLeaves(), wals, walLeaves);
    JoinLeaves(keys, KeyLeaves(), wals, walLeaves);
  }

  lemma ConcatAtLeaves(a: seq<File>, la: seq<Leaf>, b: seq<File>, lb: seq<Leaf>)
    requires AtLeaves(a, la) && AtLeaves(b, lb)
    ensures AtLeaves(a + b, la + lb)
  {
  }

  lemma LeavesDiffer(keyLeaves: seq<Leaf>, wals: seq<File>, walLeaves: seq<Leaf>)
    requires keyLeaves == KeyLeaves() && WalEntries(wals) && |walLeaves| == |wals|
    requires forall i :: 0 <= i < |walLeaves| ==> walLeaves[i] == Leaf(DataArea, wals[i].name)
    ensures AllDiffer(keyLeaves + walLeaves) && Elsewhere(keyLeaves)
  {
    var leaves := keyLeaves + walLeaves;
    KeyLeavesDiffer("mysticeti-");
    forall i, j | 0 <= i < j < |leaves| ensures leaves[i] != leaves[j] {
      if j >= |keyLeaves| {
        KeyLeavesDiffer(wals[j - |keyLeaves|].name);
      }
    }
  }

  ghost predicate Small(files: seq<File>) {
    forall i :: 0 <= i < |files| ==> |files[i].data| <= MAX_ENTRY_BYTES
  }

  ghost predicate AllDiffer(leaves: seq<Leaf>) {
    forall i, j :: 0 <= i < j < |leaves| ==> leaves[i] != leaves[j]
  }

  ghost predicate Elsewhere(leaves: seq<Leaf>) {
    forall i :: 0 <= i < |leaves| ==> leaves[i].area != SnapshotArea
  }

  lemma JoinLeaves(keys: seq<File>, keyLeaves: seq<Leaf>, wals: seq<File>, walLeaves: seq<Leaf>)
    requires AtLeaves(keys, keyLeaves) && AtLeaves(WalFiles(wals), walLeaves)
    requires AllDiffer(keyLeaves + walLeaves) && Elsewhere(keyLeaves) && Elsewhere(walLeaves)
    requires |keys| + |wals| + 1 <= MAX_RECORDS && Small(keys) && Small(wals)
    ensures Restorable(keys + WalFiles(wals))
  {
    ConcatAtLeaves(keys, keyLeaves, WalFiles(wals), walLeaves);
    assert Small(WalFiles(wals));
    assert Small(keys + WalFiles(wals));
    assert Elsewhere(keyLeaves + walLeaves);
    LeavesRestore(keys + WalFiles(wals), keyLeaves + walLeaves);
  }

  // ---------------------------------------------------------------------------
  // The payload
  // ---------------------------------------------------------------------------

  function ManifestOf(network: string, created: nat, height: nat, root: string, files: seq<File>): Manifest {
    Manifest(FORMAT_VERSION, network, created, height, root, |files|)
  }

  function Records(snapshot: Content, files: seq<File>): seq<File> {
    [File(SNAPSHOT_NAME, snapshot)] + files
  }

  function WritePayload(env: Env, m: Manifest, snapshot: Content, files: seq<File>): Option<Bytes> {
    if |env.json(m)| > U32_MAX || !ValidNames(env, Records(snapshot, files)) then None
    else Some(env.magic + (Prefixed(env.json(m)) + (WriteRecords(env, Records(snapshot, files)) + [0])))
  }

  /** A staged file uses the name of the staging directory itself. */
  predicate Overlaps(staging: string, staged: Tree) {
    exists p :: p in staged && p != [] && p[0] == staging
  }

  /** A staged file would meet something that is already there. */
  predicate Meets(base: Tree, staged: Tree) {
    exists p :: p in staged && Blocked(base, p)
  }

  /** Moves staged files next to what is already there; nothing may be overwritten. */
  function Persist(env: Env, staging: string, base: Tree, staged: Tree): Option<Tree> {
    if Overlaps(staging, staged) then env.overlapping(base, staged)
    else if Meets(base, staged) then None
    else Some(base + staged)
  }

  /** After the records: the counts, the state import, and the moves into the staging roots. */
  function Settle(env: Env, network: string, m: Manifest, st: Staging): Option<Restored> {
    if st.snapshot.None? || st.entries != m.included then None
    else
      var read := env.readSnapshot(st.snapshot.value);
      var state := env.importState(st.snapshot.value, network);
      if read.None? || state.None? then None
      else
        var data := Persist(env, DATA_STAGING, state.value.files, st.data);
        var recovery := Persist(env, RECOVERY_STAGING, map[], st.recovery);
        if data.None? || recovery.None? then None
        else if (m.height, m.root) != (state.value.height, state.value.root) || read.value != (m.height, m.root) then
          None
        else Some(Restored(data.value, recovery.value, Summary(state.value.height, state.value.root, st.entries)))
  }

  predicate Accepts(m: Manifest, network: string) {
    m.version == FORMAT_VERSION && m.network == network && m.included <= MAX_RECORDS
  }

  /** Reads the magic and the manifest: the manifest and what follows. */
  function ReadManifest(env: Env, input: Bytes, network: string): Option<(Manifest, Bytes)> {
    if !(env.magic <= input) then None
    else
      match ReadPrefixed(input[|env.magic|..], MAX_JSON)
      case None => None
      case Some((json, rest)) =>
        match env.fromJson(json)
        case None => None
        case Some(m) => if Accepts(m, network) then Some((m, rest)) else None
  }

  /** The restored trees and what follows the terminator. */
  function Restore(env: Env, input: Bytes, network: string): Option<(Restored, Bytes)> {
    match ReadManifest(env, input, network)
    case None => None
    case Some((m, rest)) =>
      match Parse(env, rest, NOTHING)
      case None => None
      case Some((st, after)) =>
        match Settle(env, network, m, st)
        case None => None
        case Some(restored) => Some((restored, after))
  }

  lemma ManifestRoundTrip(env: Env, m: Manifest, rest: Bytes, network: string)
    requires Faithful(env) && |env.json(m)| <= U32_MAX
    ensures ReadManifest(env, env.magic + (Prefixed(env.json(m)) + rest), network)
            == if |env.json(m)| <= MAX_JSON && Accepts(m, network) then Some((m, rest)) else None
  {
    var input := env.magic + (Prefixed(env.json(m)) + rest);
    assert input[|env.magic|..] == Prefixed(env.json(m)) + rest;
    PrefixRoundTrip(env.json(m), MAX_JSON, rest);
  }

  lemma SnapshotFirst(snapshot: Content)
    ensures StageNext(NOTHING, File(SNAPSHOT_NAME, snapshot))
            == if |snapshot| > MAX_ENTRY_BYTES then None else Some(StagingOf(snapshot, []))
  {
  }

  lemma StageRecords(env: Env, first: File, files: seq<File>)
    requires ValidNames(env, [first] + files)
    requires StageNext(NOTHING, first)
             == if |first.data| > MAX_ENTRY_BYTES then None else Some(StagingOf(first.data, []))
    ensures StageAll(NOTHING, [first] + files)
            == if |first.data| <= MAX_ENTRY_BYTES && Restorable(files) then Some(StagingOf(first.data, files)) else None
  {
    var all := [first] + files;
    assert all[0] == first && all[1..] == files;
    assert forall i :: 0 <= i < |files| ==> files[i] == all[i + 1];
    StageAllIff(env, first.data, [], files);
    assert [] + files == files;
  }

  lemma RecordsRoundTrip(env: Env, snapshot: Content, files: seq<File>, rest: Bytes)
    requires Faithful(env) && ValidNames(env, Records(snapshot, files))
    ensures Parse(env, WriteRecords(env, Records(snapshot, files)) + ([0] + rest), NOTHING)
            == if |snapshot| <= MAX_ENTRY_BYTES && Restorable(files) then Some((StagingOf(snapshot, files), rest))
               else None
  {
    ParseWritten(env, Records(snapshot, files), rest, NOTHING);
    SnapshotFirst(snapshot);
    StageRecords(env, File(SNAPSHOT_NAME, snapshot), files);
  }

  /** Whether the reader gets past the records of a written payload. */
  predicate Readable(env: Env, m: Manifest, snapshot: Content, files: seq<File>, network: string) {
    && |env.json(m)| <= MAX_JSON && Accepts(m, network)
    && |snapshot| <= MAX_ENTRY_BYTES && Restorable(files)
  }

  /**
   Reading a written payload, whatever follows it: exactly when it is readable, the
   manifest and every file come back, each at its place.
   */
  lemma PayloadRoundTrip(env: Env, m: Manifest, snapshot: Content, files: seq<File>, rest: Bytes, network: string)
    requires Faithful(env) && WritePayload(env, m, snapshot, files).Some?
    ensures Restore(env, WritePayload(env, m, snapshot, files).value + rest, network)
            == if !Readable(env, m, snapshot, files, network) then None
               else match Settle(env, network, m, StagingOf(snapshot, files))
                    case None => None
                    case Some(restored) => Some((restored, rest))
  {
    var records := WriteRecords(env, Records(snapshot, files));
    PayloadShape(env.magic, Prefixed(env.json(m)), records, rest);
    ManifestRoundTrip(env, m, records + ([0] + rest), network);
    RecordsRoundTrip(env, snapshot, files, rest);
  }

  lemma PayloadShape(magic: Bytes, manifest: Bytes, records: Bytes, rest: Bytes)
    ensures (magic + (manifest + (records + [0]))) + rest == magic + (manifest + (records + ([0] + rest)))
  {
  }

  // ---------------------------------------------------------------------------
  // Truncation
  // ---------------------------------------------------------------------------

  lemma BodyExtends(env: Env, input: Bytes, more: Bytes)
    requires ReadBody(env, input).Some?
    ensures ReadBody(env, input + more) == Some((ReadBody(env, input).value.0, ReadBody(env, input).value.1 + more))
  {
    var len := FromBigEndian(input[..8]);
    assert (input + more)[..8] == input[..8] && (input + more)[8..40] == input[8..40];
    assert (input + more)[40..40 + len] == input[40..40 + len];
    assert (input + more)[40 + len..] == input[40 + len..] + more;
  }

  lemma RecordExtends(env: Env, input: Bytes, more: Bytes)
    requires ReadRecord(env, input).Some?
    ensures var r := ReadRecord(env, input).value;
            ReadRecord(env, input + more) == Some((r.0, r.1, r.2 + more))
  {
    PrefixExtends(input, MAX_NAME, more);
    BodyExtends(env, ReadPrefixed(input, MAX_NAME).value.1, more);
  }

  lemma TakeExtends(env: Env, input: Bytes, st: Staging, more: Bytes)
    requires TakeRecord(env, input, st).Some?
    ensures var r := TakeRecord(env, input, st).value;
            TakeRecord(env, input + more, st) == Some((r.0, r.1 + more))
  {
    RecordExtends(env, input, more);
  }

  lemma {:induction false} ParseExtends(env: Env, input: Bytes, st: Staging, more: Bytes)
    requires Parse(env, input, st).Some?
    ensures Parse(env, input + more, st)
            == Some((Parse(env, input, st).value.0, Parse(env, input, st).value.1 + more))
    decreases |input|
  {
    assert (input + more)[1..] == input[1..] + more;
    if input[0] == 1 {
      TakeExtends(env, input[1..], st, more);
      var r := TakeRecord(env, input[1..], st).value;
      ParseExtends(env, r.1, r.0, more);
    }
  }

  lemma ManifestExtends(env: Env, input: Bytes, network: string, more: Bytes)
    requires ReadManifest(env, input, network).Some?
    ensures var r := ReadManifest(env, input, network).value;
            ReadManifest(env, input + more, network) == Some((r.0, r.1 + more))
  {
    var body := input[|env.magic|..];
    assert (input + more)[|env.magic|..] == body + more;
    PrefixExtends(body, MAX_JSON, more);
  }

  lemma RestoreExtends(env: Env, input: Bytes, network: string, more: Bytes)
    requires Restore(env, input, network).Some?
    ensures Restore(env, input + more, network)
            == Some((Restore(env, input, network).value.0, Restore(env, input, network).value.1 + more))
  {
    ManifestExtends(env, input, network, more);
    ParseExtends(env, ReadManifest(env, input, network).value.1, NOTHING, more);
  }

  /** An input that is taken to its last byte has no proper prefix that is taken. */
  lemma NoShorterInput(env: Env, whole: Bytes, n: nat, network: string)
    requires Restore(env, whole, network).Some? ==> Restore(env, whole, network).value.1 == []
    requires n < |whole|
    ensures Restore(env, whole[..n], network) == None
  {
    var part, more := whole[..n], whole[n..];
    assert part + more == whole;
    if Restore(env, part, network).Some? {
      RestoreExtends(env, part, network, more);
      assert false;
    }
  }

  /** No proper prefix of a written payload is restored, whatever the payload. */
  lemma TruncatedIsRejected(env: Env, m: Manifest, snapshot: Content, files: seq<File>, n: nat, network: string)
    requires Faithful(env) && WritePayload(env, m, snapshot, files).Some?
    requires n < |WritePayload(env, m, snapshot, files).value|
    ensures Restore(env, WritePayload(env, m, snapshot, files).value[..n], network) == None
  {
    PayloadRoundTrip(env, m, snapshot, files, [], network);
    assert WritePayload(env, m, snapshot, files).value + [] == WritePayload(env, m, snapshot, files).value;
    NoShorterInput(env, WritePayload(env, m, snapshot, files).value, n, network);
  }

  // ---------------------------------------------------------------------------
  // The streaming writer and reader
  // ---------------------------------------------------------------------------

  lemma {:induction false} WriteRecordsSnoc(env: Env, files: seq<File>, f: File)
    ensures WriteRecords(env, files + [f]) == WriteRecords(env, files) + WriteRecord(env, f)
  {
    if files == [] {
      assert [f][1..] == [];
    } else {
      WriteRecordsSnoc(env, files[1..], f);
      assert (files + [f])[1..] == files[1..] + [f];
      Associate(WriteRecord(env, files[0]), WriteRecords(env, files[1..]), WriteRecord(env, f));
    }
  }

  /** Writes records until one has an unacceptable name. */
  method StreamRecords(env: Env, files: seq<File>) returns (r: Option<Bytes>)
    ensures r == if ValidNames(env, files) then Some(WriteRecords(env, files)) else None
  {
    var out: Bytes := [];
    for i := 0 to |files|
      invariant ValidNames(env, files[..i])
      invariant out == WriteRecords(env, files[..i])
    {
      if !ValidName(env, files[i].name) {
        return None;
      }
      WriteRecordsSnoc(env, files[..i], files[i]);
      assert files[..i] + [files[i]] == files[..i + 1];
      out := out + WriteRecord(env, files[i]);
    }
    assert files[..|files|] == files;
    return Some(out);
  }

  method StreamPayload(env: Env, m: Manifest, snapshot: Content, files: seq<File>) returns (r: Option<Bytes>)
    ensures r == WritePayload(env, m, snapshot, files)
  {
    if |env.json(m)| > U32_MAX {
      return None;
    }
    var records := StreamRecords(env, Records(snapshot, files));
    if records.None? {
      return None;
    }
    return Some(env.magic + (Prefixed(env.json(m)) + (records.value + [0])));
  }

  /** The record loop of the reader: each turn takes one record off the input. */
  method StreamRestore(env: Env, start: Bytes) returns (r: Option<(Staging, Bytes)>)
    ensures r == Parse(env, start, NOTHING)
  {
    var input, st := start, NOTHING;
    while input != [] && input[0] == 1
      invariant Parse(env, input, st) == Parse(env, start, NOTHING)
      decreases |input|
    {
      var taken := TakeRecord(env, input[1..], st);
      if taken.None? {
        return None;
      }
      st, input := taken.value.0, taken.value.1;
    }
    if input == [] || input[0] != 0 {
      return None;
    }
    return Some((st, input[1..]));
  }

  // ---------------------------------------------------------------------------
  // The envelope
  // ---------------------------------------------------------------------------

  function HeaderOf(env: Env, payload: Bytes): Header {
    var compressed := env.gzip(payload);
    Header(FORMAT_VERSION, env.digest(compressed), env.encrypt(compressed).0)
  }

  /** The backup file after its magic. */
  function Seal(env: Env, payload: Bytes): Option<Bytes> {
    var compressed := env.gzip(payload);
    var json := env.headerJson(HeaderOf(env, payload));
    if |compressed| > MAX_COMPRESSED_BYTES || |json| > U32_MAX then None
    else Some(Prefixed(json) + env.encrypt(compressed).1)
  }

  /** Opens a backup file and restores its payload; the whole-payload digest is checked last. */
  function Unseal(env: Env, file: Bytes, network: string): Option<Restored> {
    match ReadPrefixed(file, MAX_JSON)
    case None => None
    case Some((json, cipher)) =>
      match env.fromHeaderJson(json)
      case None => None
      case Some(header) =>
        if header.version != FORMAT_VERSION then None
        else
          match env.decrypt(header.crypto, cipher)
          case None => None
          case Some(compressed) =>
            if |compressed| > MAX_COMPRESSED_BYTES then None
            else
              match env.gunzip(compressed)
              case None => None
              case Some(payload) =>
                match Restore(env, payload, network)
                case None => None
                case Some((restored, _)) =>
                  if env.digest(compressed) != header.digest then None else Some(restored)
  }

  lemma EnvelopeRoundTrip(env: Env, payload: Bytes, network: string)
    requires Faithful(env) && Seal(env, payload).Some?
    ensures Unseal(env, Seal(env, payload).value, network)
            == if |env.headerJson(HeaderOf(env, payload))| > MAX_JSON then None
               else match Restore(env, payload, network) case None => None case Some((restored, _)) => Some(restored)
  {
    var compressed := env.gzip(payload);
    var header := HeaderOf(env, payload);
    PrefixRoundTrip(env.headerJson(header), MAX_JSON, env.encrypt(compressed).1);
    assert env.fromHeaderJson(env.headerJson(header)) == Some(header);
    assert env.decrypt(env.encrypt(compressed).0, env.encrypt(compressed).1) == Some(compressed);
    assert env.gunzip(env.gzip(payload)) == Some(payload);
  }

  /** No file of the list uses the name of a staging directory. */
  ghost predicate KeepsClear(files: seq<File>) {
    !Overlaps(DATA_STAGING, TreeOf(files, DataArea)) && !Overlaps(RECOVERY_STAGING, TreeOf(files, RecoveryArea))
  }

  lemma LeavesKeepClear(files: seq<File>, leaves: seq<Leaf>)
    requires AtLeaves(files, leaves)
    requires forall i :: 0 <= i < |leaves| ==> leaves[i].name != DATA_STAGING && leaves[i].name != RECOVERY_STAGING
    ensures KeepsClear(files)
  {
    forall area, p | p in TreeOf(files, area) && p != [] ensures p[0] != DATA_STAGING && p[0] != RECOVERY_STAGING {
      TreePaths(files, area, p);
    }
  }

  lemma KeyLeavesAreClear(name: string)
    requires "mysticeti-" <= name
    ensures forall i :: 0 <= i < |KeyLeaves()| ==>
              KeyLeaves()[i].name != DATA_STAGING && KeyLeaves()[i].name != RECOVERY_STAGING
    ensures name != DATA_STAGING && name != RECOVERY_STAGING
  {
    assert name[0] == 'm' && DATA_STAGING[0] == 'd' && RECOVERY_STAGING[0] == 'r';
    assert IDENTITY_LEAF[0] == 'p' && PRIVATE_KEY_LEAF[0] == 'p';
    assert PUBLIC_KEYS_LEAF[0] == 'p' && GENESIS_LEAF[0] == 'g';
  }

  /** Whatever a validator exports keeps clear of the staging names. */
  lemma ExportedKeepsClear(identity: Content, privateKey: Content, publicKeys: Content, genesis: Content,
                           wals: seq<File>)
    requires WalEntries(wals)
    ensures KeepsClear(KeyFiles(identity, privateKey, publicKeys, genesis) + WalFiles(wals))
  {
    var keys := KeyFiles(identity, privateKey, publicKeys, genesis);
    KeyFilesAtLeaves(identity, privateKey, publicKeys, genesis);
    var walLeaves := WalFilesAtLeaves(wals);
    ConcatAtLeaves(keys, KeyLeaves(), WalFiles(wals), walLeaves);
    KeyLeavesAreClear("mysticeti-");
    forall i | 0 <= i < |wals| ensures wals[i].name != DATA_STAGING && wals[i].name != RECOVERY_STAGING {
      KeyLeavesAreClear(wals[i].name);
    }
    LeavesKeepClear(keys + WalFiles(wals), KeyLeaves() + walLeaves);
  }

  /** The snapshot imports to the height and root of the manifest, and leaves room for the files. */
  predicate Imports(env: Env, m: Manifest, snapshot: Content, files: seq<File>, network: string) {
    && env.readSnapshot(snapshot) == Some((m.height, m.root))
    && env.importState(snapshot, network).Some?
    && var state := env.importState(snapshot, network).value;
       state.height == m.height && state.root == m.root && !Meets(state.files, TreeOf(files, DataArea))
  }

  /** What an import gives back: the state's own files and every file of the list. */
  function RestoredFrom(env: Env, m: Manifest, snapshot: Content, files: seq<File>, network: string): Restored
    requires env.importState(snapshot, network).Some?
  {
    var state := env.importState(snapshot, network).value;
    Restored(state.files + TreeOf(files, DataArea), TreeOf(files, RecoveryArea), Summary(m.height, m.root, |files|))
  }

  lemma SettleIff(env: Env, m: Manifest, snapshot: Content, files: seq<File>, network: string)
    requires m.included == |files| && KeepsClear(files)
    ensures Settle(env, network, m, StagingOf(snapshot, files))
            == if Imports(env, m, snapshot, files, network) then Some(RestoredFrom(env, m, snapshot, files, network))
               else None
  {
    var recovery := TreeOf(files, RecoveryArea);
    var none: Tree := map[];
    assert !Meets(none, recovery);
    assert none + recovery == recovery;
  }

  /** Every file of the list is back, in its own area. */
  ghost predicate HoldsAll(restored: Restored, files: seq<File>) {
    forall i :: 0 <= i < |files| ==>
      Place(files[i]).Some?
      && HoldsAt(if Place(files[i]).value.0 == DataArea then restored.data else restored.recovery, files[i])
  }

  lemma RestoredHoldsAll(env: Env, m: Manifest, snapshot: Content, files: seq<File>, network: string)
    requires Restorable(files) && env.importState(snapshot, network).Some?
    ensures HoldsAll(RestoredFrom(env, m, snapshot, files, network), files)
  {
    forall i | 0 <= i < |files|
      ensures Place(files[i]).Some? && HoldsAt(TreeOf(files, Place(files[i]).value.0), files[i])
      ensures Place(files[i]).value.0 != SnapshotArea
    {
      FileIsAtItsPlace(files, i);
      assert Fits(files[i]);
    }
  }

  /** Within the reader's limits, and with a snapshot that imports to what the manifest says. */
  ghost predicate ComesBack(env: Env, m: Manifest, snapshot: Content, files: seq<File>, network: string)
    requires WritePayload(env, m, snapshot, files).Some?
  {
    && |env.headerJson(HeaderOf(env, WritePayload(env, m, snapshot, files).value))| <= MAX_JSON
    && Readable(env, m, snapshot, files, network) && Imports(env, m, snapshot, files, network)
  }

  /**
   A written and sealed backup comes back, every file at its place next to the imported state,
   if and only if it is within the reader's limits, which the writer does not check, and its
   snapshot imports to the height and root that were written, with room for the files.
   */
  lemma BackupRoundTrip(env: Env, snapshot: Content, files: seq<File>, network: string, created: nat, height: nat,
                        root: string)
    requires Faithful(env) && KeepsClear(files)
    requires WritePayload(env, ManifestOf(network, created, height, root, files), snapshot, files).Some?
    requires Seal(env, WritePayload(env, ManifestOf(network, created, height, root, files), snapshot, files).value)
             .Some?
    ensures var m := ManifestOf(network, created, height, root, files);
            var back := Unseal(env, Seal(env, WritePayload(env, m, snapshot, files).value).value, network);
            && (back.Some? <==> ComesBack(env, m, snapshot, files, network))
            && (back.Some? ==>
                  back.value == RestoredFrom(env, m, snapshot, files, network) && HoldsAll(back.value, files))
  {
    var m := ManifestOf(network, created, height, root, files);
    SealedRoundTrip(env, m, snapshot, files, network);
    SettleIff(env, m, snapshot, files, network);
    if ComesBack(env, m, snapshot, files, network) {
      RestoredHoldsAll(env, m, snapshot, files, network);
    }
  }

  lemma SealedRoundTrip(env: Env, m: Manifest, snapshot: Content, files: seq<File>, network: string)
    requires Faithful(env) && WritePayload(env, m, snapshot, files).Some?
    requires Seal(env, WritePayload(env, m, snapshot, files).value).Some?
    ensures var payload := WritePayload(env, m, snapshot, files).value;
            Unseal(env, Seal(env, payload).value, network)
            == if |env.headerJson(HeaderOf(env, payload))| <= MAX_JSON && Readable(env, m, snapshot, files, network)
               then Settle(env, network, m, StagingOf(snapshot, files)) else None
  {
    var payload := WritePayload(env, m, snapshot, files).value;
    EnvelopeRoundTrip(env, payload, network);
    PayloadRoundTrip(env, m, snapshot, files, [], network);
    assert payload + [] == payload;
  }
}
