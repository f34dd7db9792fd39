/**
 Which backup files are taken, whoever wrote them: the header's digest, the hash behind
 every record and the manifest's count all agree with what they are about. Nothing is
 assumed of hashing, gzip, encryption or JSON.
 */
module Authenticity {
  import opened Prelude
  import opened Backup

  /** A record as it stands in a payload. */
  datatype Record = Record(name: Bytes, hash: Bytes, data: Content)

  ghost predicate Encodable(r: Record) {
    |r.name| <= U32_MAX && |r.hash| == 32
  }

  ghost predicate AllEncodable(records: seq<Record>) {
    forall i :: 0 <= i < |records| ==> Encodable(records[i])
  }

  ghost function BodyBytes(r: Record): Bytes {
    BigEndian(|r.data|, 8) + (r.hash + r.data)
  }

  ghost function RecordsBytes(records: seq<Record>): Bytes {
    if records == [] then []
    else ([1] + (Prefixed(records[0].name) + BodyBytes(records[0]))) + RecordsBytes(records[1..])
  }

  /** The record has an archive name, is within the limits, and carries the hash of its data. */
  ghost predicate Genuine(env: Env, r: Record) {
    && |r.name| <= 0xFFFF && |r.data| <= 8 * 1024 * 1024 * 1024
    && env.fromUtf8(r.name).Some? && ValidName(env, env.fromUtf8(r.name).value)
    && r.hash == env.hash(r.data)
  }

  ghost predicate AllGenuine(env: Env, records: seq<Record>) {
    forall i :: 0 <= i < |records| ==> Genuine(env, records[i])
  }

  ghost function FileOf(env: Env, r: Record): File
    requires Genuine(env, r)
  {
    File(env.fromUtf8(r.name).value, r.data)
  }

  ghost function FilesOf(env: Env, records: seq<Record>): (files: seq<File>)
    requires AllGenuine(env, records)
    ensures |files| == |records| && forall i :: 0 <= i < |files| ==> files[i] == FileOf(env, records[i])
  {
    seq(|records|, i requires 0 <= i < |records| => FileOf(env, records[i]))
  }

  // ---------------------------------------------------------------------------
  // Records
  // ---------------------------------------------------------------------------

  lemma ReadAny(env: Env, r: Record, rest: Bytes)
    requires Encodable(r)
    ensures ReadRecord(env, Prefixed(r.name) + (BodyBytes(r) + rest))
            == if Genuine(env, r) then Some((FileOf(env, r).name, FileOf(env, r).data, rest)) else None
  {
    PrefixRoundTrip(r.name, MAX_NAME, BodyBytes(r) + rest);
    WordCapacities();
    NumberRoundTrip(|r.data|, 8);
    BodyShape(env, BigEndian(|r.data|, 8), r.hash, r.data, rest);
  }

  lemma ParseAnyRecord(env: Env, r: Record, rest: Bytes, st: Staging)
    requires Encodable(r)
    ensures Parse(env, ([1] + (Prefixed(r.name) + BodyBytes(r))) + rest, st)
            == if !Genuine(env, r) then None
               else match StageNext(st, FileOf(env, r)) case None => None case Some(next) => Parse(env, rest, next)
  {
    var input := ([1] + (Prefixed(r.name) + BodyBytes(r))) + rest;
    AfterTag(Prefixed(r.name), BodyBytes(r), rest);
    ReadAny(env, r, rest);
    if Genuine(env, r) {
      ParseRecord(env, input, FileOf(env, r), rest, st);
    }
  }

  /** Records are restored exactly when every one of them is genuine and finds its place. */
  lemma {:induction false} ParseAny(env: Env, records: seq<Record>, rest: Bytes, st: Staging)
    requires AllEncodable(records)
    ensures Parse(env, RecordsBytes(records) + ([0] + rest), st)
            == if !AllGenuine(env, records) then None
               else match StageAll(st, FilesOf(env, records)) case None => None case Some(end) => Some((end, rest))
    decreases |records|
  {
    var tail := [0] + rest;
    if records == [] {
      assert [] + tail == tail && tail[1..] == rest;
    } else {
      var r, more := records[0], records[1..];
      Associate([1] + (Prefixed(r.name) + BodyBytes(r)), RecordsBytes(more), tail);
      ParseAnyRecord(env, r, RecordsBytes(more) + tail, st);
      GenuineCons(env, records);
      if Genuine(env, r) {
        var next := StageNext(st, FileOf(env, r));
        if next.Some? {
          ParseAny(env, more, rest, next.value);
        }
      }
    }
  }

  lemma GenuineCons(env: Env, records: seq<Record>)
    requires records != []
    ensures AllGenuine(env, records) <==> Genuine(env, records[0]) && AllGenuine(env, records[1..])
    ensures AllGenuine(env, records) ==>
              FilesOf(env, records)[0] == FileOf(env, records[0])
              && FilesOf(env, records)[1..] == FilesOf(env, records[1..])
  {
    var more := records[1..];
    assert forall i :: 0 <= i < |more| ==> more[i] == records[i + 1];
    assert forall i :: 1 <= i < |records| ==> records[i] == more[i - 1];
  }

  // ---------------------------------------------------------------------------
  // What was read stands in the input
  // ---------------------------------------------------------------------------

  lemma {:induction false} WrittenAgain(s: Bytes)
    ensures FromBigEndian(s) < Capacity(|s|)
    ensures BigEndian(FromBigEndian(s), |s|) == s
  {
    if s != [] {
      var init, last := s[..|s| - 1], s[|s| - 1];
      WrittenAgain(init);
      var n := FromBigEndian(s);
      assert n / 256 == FromBigEndian(init) && n % 256 == last as nat;
      assert s == init + [last];
    }
  }

  lemma PrefixedShape(input: Bytes, limit: nat)
    requires ReadPrefixed(input, limit).Some?
    ensures var (value, rest) := ReadPrefixed(input, limit).value;
            input == Prefixed(value) + rest && |value| <= limit && |value| <= U32_MAX
  {
    WrittenAgain(input[..4]);
    WordCapacities();
    var len := FromBigEndian(input[..4]);
    assert input == (input[..4] + input[4..4 + len]) + input[4 + len..];
  }

  lemma BodyTaken(env: Env, input: Bytes) returns (hash: Bytes)
    requires ReadBody(env, input).Some?
    ensures var (data, rest) := ReadBody(env, input).value;
            && |hash| == 32 && hash == env.hash(data) && |data| <= MAX_ENTRY_BYTES
            && input == (BigEndian(|data|, 8) + (hash + data)) + rest
  {
    hash := input[8..40];
    WrittenAgain(input[..8]);
    var len := FromBigEndian(input[..8]);
    assert input == (input[..8] + (hash + input[40..40 + len])) + input[40 + len..];
  }

  lemma RecordTaken(env: Env, input: Bytes) returns (r: Record)
    requires ReadRecord(env, input).Some?
    ensures Encodable(r) && Genuine(env, r)
    ensures input == Prefixed(r.name) + (BodyBytes(r) + ReadRecord(env, input).value.2)
  {
    PrefixedShape(input, MAX_NAME);
    var (name, after) := ReadPrefixed(input, MAX_NAME).value;
    var hash := BodyTaken(env, after);
    r := Record(name, hash, ReadBody(env, after).value.0);
  }

  /** The record in front of the input, with its tag, and what follows it. */
  lemma FirstTaken(env: Env, input: Bytes, st: Staging) returns (r: Record)
    requires input != [] && input[0] == 1 && TakeRecord(env, input[1..], st).Some?
    ensures Encodable(r) && Genuine(env, r)
    ensures input == ([1] + (Prefixed(r.name) + BodyBytes(r))) + TakeRecord(env, input[1..], st).value.1
  {
    r := RecordTaken(env, input[1..]);
    TagInFront(Prefixed(r.name), BodyBytes(r), ReadRecord(env, input[1..]).value.2);
    assert input == [1] + input[1..];
  }

  lemma TagInFront(prefixed: Bytes, body: Bytes, rest: Bytes)
    ensures [1] + (prefixed + (body + rest)) == ([1] + (prefixed + body)) + rest
  {
  }

  lemma GenuineFront(env: Env, r: Record, more: seq<Record>)
    requires Encodable(r) && Genuine(env, r) && AllEncodable(more) && AllGenuine(env, more)
    ensures AllEncodable([r] + more) && AllGenuine(env, [r] + more)
    ensures RecordsBytes([r] + more) == ([1] + (Prefixed(r.name) + BodyBytes(r))) + RecordsBytes(more)
  {
    assert ([r] + more)[1..] == more;
  }

  lemma {:induction false} RecordsTaken(env: Env, input: Bytes, st: Staging) returns (records: seq<Record>)
    requires Parse(env, input, st).Some?
    ensures AllEncodable(records) && AllGenuine(env, records)
    ensures input == RecordsBytes(records) + ([0] + Parse(env, input, st).value.1)
    decreases |input|
  {
    if input[0] == 0 {
      assert input == [] + ([0] + input[1..]);
      records := [];
    } else {
      var r := FirstTaken(env, input, st);
      var taken := TakeRecord(env, input[1..], st).value;
      var more := RecordsTaken(env, taken.1, taken.0);
      records := [r] + more;
      GenuineFront(env, r, more);
      Associate([1] + (Prefixed(r.name) + BodyBytes(r)), RecordsBytes(more), [0] + Parse(env, input, st).value.1);
    }
  }

  // ---------------------------------------------------------------------------
  // What is staged
  // ---------------------------------------------------------------------------

  /** The number of files besides the state snapshot. */
  ghost function Listed(files: seq<File>): nat {
    if files == [] then 0
    else (if files[0].name == "state/state-snapshot.json" then 0 else 1) + Listed(files[1..])
  }

  /** The staging has the file at its place. */
  ghost predicate StagedAt(st: Staging, f: File) {
    && Place(f).Some?
    && match Place(f).value.0
       case SnapshotArea => st.snapshot == Some(f.data)
       case DataArea => HoldsAt(st.data, f)
       case RecoveryArea => HoldsAt(st.recovery, f)
  }

  lemma StageTells(st: Staging, f: File, next: Staging)
    requires Stage(st, f.name, f.data) == Some(next)
    ensures StagedAt(next, f)
    ensures next.entries == st.entries + if f.name == SNAPSHOT_NAME then 0 else 1
    ensures next.snapshot == if f.name == SNAPSHOT_NAME then Some(f.data) else st.snapshot
  {
  }

  /** Nothing that was staged is replaced. */
  lemma StageKeeps(st: Staging, f: File, next: Staging, g: File)
    requires Stage(st, f.name, f.data) == Some(next) && StagedAt(st, g)
    ensures StagedAt(next, g)
  {
    var path := Place(g).value.1;
    assert path <= path;
  }

  lemma Renumbered(st: Staging, now: Staging, g: File)
    requires StagedAt(st, g) && now.snapshot == st.snapshot && now.data == st.data && now.recovery == st.recovery
    ensures StagedAt(now, g)
  {
  }

  lemma NextIsStaged(st: Staging, f: File, now: Staging)
    requires StageNext(st, f).Some? && now == st.(records := st.records + 1)
    ensures Stage(now, f.name, f.data) == StageNext(st, f)
  {
  }

  lemma NextKeeps(st: Staging, f: File, g: File)
    requires StageNext(st, f).Some? && StagedAt(st, g)
    ensures StagedAt(StageNext(st, f).value, g)
  {
    hide *;
    var now := st.(records := st.records + 1);
    Renumbered(st, now, g);
    NextIsStaged(st, f, now);
    StageKeeps(now, f, StageNext(st, f).value, g);
  }

  lemma {:induction false} StagedStays(st: Staging, files: seq<File>, g: File)
    requires StageAll(st, files).Some? && StagedAt(st, g)
    ensures StagedAt(StageAll(st, files).value, g)
    decreases |files|
  {
    if files != [] {
      NextKeeps(st, files[0], g);
      StagedStays(StageNext(st, files[0]).value, files[1..], g);
    }
  }

  /** Every file is at its place, and all but the snapshot are counted. */
  lemma {:induction false} StagedEach(st: Staging, files: seq<File>)
    requires StageAll(st, files).Some?
    ensures var end := StageAll(st, files).value;
            && end.entries == st.entries + Listed(files)
            && (forall i :: 0 <= i < |files| ==> StagedAt(end, files[i]))
            && (end.snapshot.Some? ==>
                  end.snapshot == st.snapshot
                  || exists i :: 0 <= i < |files| && files[i] == File(SNAPSHOT_NAME, files[i].data)
                                 && end.snapshot == Some(files[i].data))
    decreases |files|
  {
    if files != [] {
      var f, more := files[0], files[1..];
      var next := StageNext(st, f).value;
      StageTells(st.(records := st.records + 1), f, next);
      StagedEach(next, more);
      StagedStays(next, more, f);
      var end := StageAll(st, files).value;
      assert end == StageAll(next, more).value;
      forall i | 0 <= i < |files| ensures StagedAt(end, files[i]) {
        assert i > 0 ==> files[i] == more[i - 1];
      }
      if end.snapshot.Some? && end.snapshot != next.snapshot {
        var i :| 0 <= i < |more| && more[i] == File(SNAPSHOT_NAME, more[i].data) && end.snapshot == Some(more[i].data);
        assert files[i + 1] == more[i];
      }
    }
  }

  // ---------------------------------------------------------------------------
  // Whole files
  // ---------------------------------------------------------------------------

  /** What a backup file is made of. */
  datatype Parts = Parts(headerJson: Bytes, header: Header, cipher: Bytes, compressed: Bytes, manifestJson: Bytes,
                         manifest: Manifest, records: seq<Record>, rest: Bytes)

  ghost function PayloadOf(env: Env, p: Parts): Bytes {
    env.magic + (Prefixed(p.manifestJson) + (RecordsBytes(p.records) + ([0] + p.rest)))
  }

  /** The file decodes, decrypts and unpacks to these parts. */
  ghost predicate MadeOf(env: Env, file: Bytes, p: Parts) {
    && file == Prefixed(p.headerJson) + p.cipher && |p.headerJson| <= U32_MAX
    && env.fromHeaderJson(p.headerJson) == Some(p.header)
    && env.decrypt(p.header.crypto, p.cipher) == Some(p.compressed)
    && env.gunzip(p.compressed) == Some(PayloadOf(env, p))
    && |p.manifestJson| <= U32_MAX && env.fromJson(p.manifestJson) == Some(p.manifest)
    && AllEncodable(p.records)
  }

  /** Versions, network and limits are right, and the digest and every record's hash agree. */
  ghost predicate Checks(env: Env, p: Parts, network: string) {
    && |p.headerJson| <= 1024 * 1024 && p.header.version == 2
    && |p.compressed| <= 16 * 1024 * 1024 * 1024 && env.digest(p.compressed) == p.header.digest
    && |p.manifestJson| <= 1024 * 1024
    && p.manifest.version == 2 && p.manifest.network == network && p.manifest.included <= 100_000
    && AllGenuine(env, p.records)
  }

  lemma ManifestAny(env: Env, p: Parts, network: string)
    requires |p.manifestJson| <= U32_MAX && env.fromJson(p.manifestJson) == Some(p.manifest)
    ensures ReadManifest(env, PayloadOf(env, p), network)
            == if |p.manifestJson| <= MAX_JSON && Accepts(p.manifest, network)
               then Some((p.manifest, RecordsBytes(p.records) + ([0] + p.rest))) else None
  {
    var records := RecordsBytes(p.records) + ([0] + p.rest);
    assert PayloadOf(env, p)[|env.magic|..] == Prefixed(p.manifestJson) + records;
    PrefixRoundTrip(p.manifestJson, MAX_JSON, records);
  }

  lemma RestoreAny(env: Env, p: Parts, network: string)
    requires |p.manifestJson| <= U32_MAX && env.fromJson(p.manifestJson) == Some(p.manifest) && AllEncodable(p.records)
    ensures Restore(env, PayloadOf(env, p), network)
            == if |p.manifestJson| > MAX_JSON || !Accepts(p.manifest, network) || !AllGenuine(env, p.records)
               then None
               else match StageAll(NOTHING, FilesOf(env, p.records))
                    case None => None
                    case Some(st) => (match Settle(env, network, p.manifest, st)
                                      case None => None
                                      case Some(restored) => Some((restored, p.rest)))
  {
    ManifestAny(env, p, network);
    ParseAny(env, p.records, p.rest, NOTHING);
  }

  /** Opening any file: exactly what passes the checks is staged and settled. */
  lemma UnsealAny(env: Env, file: Bytes, p: Parts, network: string)
    requires MadeOf(env, file, p)
    ensures Unseal(env, file, network)
            == if !Checks(env, p, network) then None
               else match StageAll(NOTHING, FilesOf(env, p.records))
                    case None => None
                    case Some(st) => Settle(env, network, p.manifest, st)
  {
    PrefixRoundTrip(p.headerJson, MAX_JSON, p.cipher);
    RestoreAny(env, p, network);
  }

  /** A file whose header names another digest is refused, whatever is inside. */
  lemma WrongDigest(env: Env, json: Bytes, header: Header, cipher: Bytes, compressed: Bytes, network: string)
    requires |json| <= U32_MAX && env.fromHeaderJson(json) == Some(header)
    requires env.decrypt(header.crypto, cipher) == Some(compressed) && env.digest(compressed) != header.digest
    ensures Unseal(env, Prefixed(json) + cipher, network) == None
  {
    PrefixRoundTrip(json, MAX_JSON, cipher);
  }

  /** So is one with a record behind another hash than that of its data. */
  lemma WrongHash(env: Env, file: Bytes, p: Parts, network: string, i: nat)
    requires MadeOf(env, file, p) && i < |p.records| && p.records[i].hash != env.hash(p.records[i].data)
    ensures Unseal(env, file, network) == None
  {
    UnsealAny(env, file, p, network);
    assert !Genuine(env, p.records[i]);
  }

  /** And one whose manifest counts other than the files besides the snapshot. */
  lemma WrongCount(env: Env, file: Bytes, p: Parts, network: string)
    requires MadeOf(env, file, p)
    requires AllGenuine(env, p.records) ==> Listed(FilesOf(env, p.records)) != p.manifest.included
    ensures Unseal(env, file, network) == None
  {
    UnsealAny(env, file, p, network);
    if AllGenuine(env, p.records) && StageAll(NOTHING, FilesOf(env, p.records)).Some? {
      StagedEach(NOTHING, FilesOf(env, p.records));
    }
  }

  // ---------------------------------------------------------------------------
  // What is accepted
  // ---------------------------------------------------------------------------

  /** The files are the ones counted, with a snapshot of the height and root that are reported. */
  ghost predicate Accounts(env: Env, m: Manifest, files: seq<File>, network: string, restored: Restored) {
    && Listed(files) == m.included && restored.summary == Summary(m.height, m.root, m.included)
    && exists i :: 0 <= i < |files| && files[i].name == "state/state-snapshot.json"
         && env.readSnapshot(files[i].data) == Some((m.height, m.root))
         && env.importState(files[i].data, network).Some?
         && env.importState(files[i].data, network).value.height == m.height
         && env.importState(files[i].data, network).value.root == m.root
  }

  ghost predicate AuthenticAs(env: Env, file: Bytes, network: string, restored: Restored, p: Parts) {
    && MadeOf(env, file, p) && Checks(env, p, network)
    && Accounts(env, p.manifest, FilesOf(env, p.records), network, restored)
  }

  ghost predicate Authentic(env: Env, file: Bytes, network: string, restored: Restored) {
    exists p :: AuthenticAs(env, file, network, restored, p)
  }

  lemma SettledAccounts(env: Env, m: Manifest, files: seq<File>, network: string, restored: Restored)
    requires StageAll(NOTHING, files).Some? && Settle(env, network, m, StageAll(NOTHING, files).value) == Some(restored)
    ensures Accounts(env, m, files, network, restored)
  {
    StagedEach(NOTHING, files);
  }

  lemma PayloadParts(env: Env, payload: Bytes, network: string)
    returns (manifestJson: Bytes, records: seq<Record>, rest: Bytes)
    requires Restore(env, payload, network).Some?
    ensures payload == env.magic + (Prefixed(manifestJson) + (RecordsBytes(records) + ([0] + rest)))
    ensures |manifestJson| <= U32_MAX && env.fromJson(manifestJson).Some? && AllEncodable(records)
  {
    var body := payload[|env.magic|..];
    assert payload == env.magic + body;
    PrefixedShape(body, MAX_JSON);
    var read := ReadPrefixed(body, MAX_JSON).value;
    manifestJson := read.0;
    records := RecordsTaken(env, read.1, NOTHING);
    rest := Parse(env, read.1, NOTHING).value.1;
  }

  lemma PartsOf(env: Env, file: Bytes, network: string) returns (p: Parts)
    requires Unseal(env, file, network).Some?
    ensures MadeOf(env, file, p)
  {
    PrefixedShape(file, MAX_JSON);
    var (headerJson, cipher) := ReadPrefixed(file, MAX_JSON).value;
    var header := env.fromHeaderJson(headerJson).value;
    var compressed := env.decrypt(header.crypto, cipher).value;
    var manifestJson, records, rest := PayloadParts(env, env.gunzip(compressed).value, network);
    p := Parts(headerJson, header, cipher, compressed, manifestJson, env.fromJson(manifestJson).value, records, rest);
  }

  /** Whatever is restored comes from a file that is authentic in every part. */
  lemma AcceptedIsAuthentic(env: Env, file: Bytes, network: string)
    requires Unseal(env, file, network).Some?
    ensures Authentic(env, file, network, Unseal(env, file, network).value)
  {
    var p := PartsOf(env, file, network);
    UnsealAny(env, file, p, network);
    SettledAccounts(env, p.manifest, FilesOf(env, p.records), network, Unseal(env, file, network).value);
    assert AuthenticAs(env, file, network, Unseal(env, file, network).value, p);
  }
}
