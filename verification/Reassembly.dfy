/**
 Reassembling chunked P2P payloads: the bounds every run keeps, and the round trip
 of a transfer whose chunks arrive in any order, repeated and interleaved with
 other transfers.
 */
module Reassembly {
  import opened Prelude
  import opened P2P

  type TransferKey = (Peer, Bytes)

  datatype Assembly = Assembly(createdAt: nat, topic: Topic, slots: seq<Option<Bytes>>, received: nat, bytes: nat)

  type Assemblies = map<TransferKey, Assembly>

  datatype Limits = Limits(inflight: nat, perPeer: nat)

  // ---------------------------------------------------------------------------
  // Accepting a chunk
  // ---------------------------------------------------------------------------

  function Unexpired(all: Assemblies, now: nat): Assemblies {
    map k | k in all && now - all[k].createdAt <= CHUNK_TTL :: all[k]
  }

  predicate Malformed(c: Chunk) {
    || c.total == 0 || c.total > MAX_CHUNKS_PER_PAYLOAD
    || c.index >= c.total || |c.data| > P2P_CHUNK_SIZE
  }

  function OfPeer(all: Assemblies, source: Peer): set<TransferKey> {
    set k | k in all && k.0 == source
  }

  predicate NoRoom(limits: Limits, all: Assemblies, source: Peer) {
    |all| >= limits.inflight || |OfPeer(all, source)| >= limits.perPeer
  }

  function Opened(c: Chunk, now: nat): Assembly {
    Assembly(now, c.topic, seq(c.total, _ => None), 0, 0)
  }

  /** Puts the chunk in its slot if the slot is free and the byte limit allows it. */
  function Filled(a: Assembly, c: Chunk): Assembly
    requires c.index < |a.slots|
  {
    if a.slots[c.index].Some? then a
    else if a.bytes + |c.data| <= MAX_CHUNKED_PAYLOAD_SIZE then
      a.(slots := a.slots[c.index := Some(c.data)], received := a.received + 1, bytes := a.bytes + |c.data|)
    else a.(bytes := a.bytes + |c.data|)
  }

  function Join(slots: seq<Option<Bytes>>): Bytes {
    if slots == [] then []
    else (if slots[0].Some? then slots[0].value else []) + Join(slots[1..])
  }

  /** Checks and decodes a complete payload. */
  function Finish(codec: Codec, a: Assembly, id: Bytes): Option<Message> {
    var encoded := Join(a.slots);
    if codec.hash(encoded) != id then None
    else
      match codec.decode(encoded)
      case None => None
      case Some((m, consumed)) =>
        if consumed == |encoded| && !m.ChunkOf? && TopicKind(m) == a.topic then Some(m) else None
  }

  /** Puts a well-formed chunk into its existing assembly. */
  function Placed(codec: Codec, all: Assemblies, key: TransferKey, c: Chunk): (Assemblies, Option<Message>)
    requires key in all && !Malformed(c)
  {
    var a := all[key];
    if |a.slots| != c.total || a.topic != c.topic then (all - {key}, None)
    else
      var next := Filled(a, c);
      if next.bytes > MAX_CHUNKED_PAYLOAD_SIZE then (all - {key}, None)
      else if next.received == c.total then (all - {key}, Finish(codec, next, c.transferId))
      else (all[key := next], None)
  }

  /** The assemblies after a chunk arrived, and the message it completed, if any. */
  function Accept(codec: Codec, limits: Limits, all: Assemblies, now: nat, source: Peer, c: Chunk)
    : (Assemblies, Option<Message>)
  {
    var live := Unexpired(all, now);
    var key := (source, c.transferId);
    if Malformed(c) || (key !in live && NoRoom(limits, live, source)) then (live, None)
    else Placed(codec, if key in live then live else live[key := Opened(c, now)], key, c)
  }

  // ---------------------------------------------------------------------------
  // What every run keeps
  // ---------------------------------------------------------------------------

  function Present(slots: seq<Option<Bytes>>): (n: nat)
    ensures n <= |slots|
  {
    if slots == [] then 0 else (if slots[0].Some? then 1 else 0) + Present(slots[1..])
  }

  ghost predicate Consistent(a: Assembly) {
    && 0 < |a.slots| <= MAX_CHUNKS_PER_PAYLOAD
    && a.received == Present(a.slots) < |a.slots|
    && a.bytes == |Join(a.slots)|
    && forall i :: 0 <= i < |a.slots| && a.slots[i].Some? ==> |a.slots[i].value| <= P2P_CHUNK_SIZE
  }

  ghost predicate Within(limits: Limits, all: Assemblies) {
    && |all| <= limits.inflight
    && forall p :: |OfPeer(all, p)| <= limits.perPeer
  }

  ghost predicate Sound(limits: Limits, all: Assemblies) {
    Within(limits, all) && forall k :: k in all ==> Consistent(all[k])
  }

  lemma {:induction false} SlotsFill(slots: seq<Option<Bytes>>, i: nat, data: Bytes)
    requires i < |slots| && slots[i].None?
    ensures Present(slots[i := Some(data)]) == Present(slots) + 1
    ensures |Join(slots[i := Some(data)])| == |Join(slots)| + |data|
  {
    var next := slots[i := Some(data)];
    if i == 0 {
      assert next[1..] == slots[1..];
    } else {
      SlotsFill(slots[1..], i - 1, data);
      assert next[1..] == slots[1..][i - 1 := Some(data)];
    }
  }

  lemma {:induction false} JoinIsBounded(slots: seq<Option<Bytes>>)
    requires forall i :: 0 <= i < |slots| && slots[i].Some? ==> |slots[i].value| <= P2P_CHUNK_SIZE
    ensures |Join(slots)| <= Present(slots) * P2P_CHUNK_SIZE
  {
    if slots != [] {
      JoinIsBounded(slots[1..]);
    }
  }

  lemma {:induction false} EmptySlots(slots: seq<Option<Bytes>>)
    requires forall i :: 0 <= i < |slots| ==> slots[i].None?
    ensures Present(slots) == 0 && Join(slots) == []
  {
    if slots != [] {
      EmptySlots(slots[1..]);
    }
  }

  lemma BytesFit(present: nat, joined: nat, more: nat)
    requires present < MAX_CHUNKS_PER_PAYLOAD && joined <= present * P2P_CHUNK_SIZE && more <= P2P_CHUNK_SIZE
    ensures joined + more <= MAX_CHUNKED_PAYLOAD_SIZE
  {
  }

  /** A well-formed chunk never meets the byte limit: the chunk count limits the payload first. */
  lemma FilledFits(a: Assembly, c: Chunk)
    requires Consistent(a) && !Malformed(c) && |a.slots| == c.total
    ensures var next := Filled(a, c);
            && next.bytes <= MAX_CHUNKED_PAYLOAD_SIZE
            && next.received == Present(next.slots)
            && (next.received < c.total ==> Consistent(next))
            && next.slots == (if a.slots[c.index].Some? then a.slots else a.slots[c.index := Some(c.data)])
  {
    JoinIsBounded(a.slots);
    BytesFit(a.received, a.bytes, |c.data|);
    if a.slots[c.index].None? {
      SlotsFill(a.slots, c.index, c.data);
    }
  }

  lemma FewerOfPeer(all: Assemblies, fewer: Assemblies, p: Peer)
    requires fewer.Keys <= all.Keys
    ensures |OfPeer(fewer, p)| <= |OfPeer(all, p)|
  {
    SubsetIsSmaller(OfPeer(fewer, p), OfPeer(all, p));
  }

  lemma FewerIsSound(limits: Limits, all: Assemblies, fewer: Assemblies)
    requires Sound(limits, all) && fewer.Keys <= all.Keys
    requires forall k :: k in fewer ==> fewer[k] == all[k]
    ensures Sound(limits, fewer)
  {
    SubsetIsSmaller(fewer.Keys, all.Keys);
    forall p ensures |OfPeer(fewer, p)| <= limits.perPeer {
      FewerOfPeer(all, fewer, p);
    }
  }

  lemma PeersAfterUpdate(all: Assemblies, key: TransferKey, a: Assembly, p: Peer)
    ensures |OfPeer(all[key := a], p)| == |OfPeer(all, p)| + (if key.0 == p && key !in all then 1 else 0)
  {
    var before, after := OfPeer(all, p), OfPeer(all[key := a], p);
    if key.0 != p || key in all {
      assert after == before;
    } else {
      assert after == before + {key};
    }
  }

  lemma UpdateIsSound(limits: Limits, all: Assemblies, key: TransferKey, a: Assembly)
    requires Sound(limits, all) && Consistent(a)
    requires key in all || !NoRoom(limits, all, key.0)
    ensures Sound(limits, all[key := a])
  {
    var next := all[key := a];
    assert next.Keys == all.Keys + {key};
    forall p ensures |OfPeer(next, p)| <= limits.perPeer {
      PeersAfterUpdate(all, key, a, p);
    }
  }

  lemma PlacedIsSound(codec: Codec, limits: Limits, all: Assemblies, key: TransferKey, c: Chunk)
    requires Sound(limits, all) && key in all && !Malformed(c)
    ensures Sound(limits, Placed(codec, all, key, c).0)
  {
    FewerIsSound(limits, all, all - {key});
    if |all[key].slots| == c.total {
      FilledFits(all[key], c);
      var next := Filled(all[key], c);
      if next.received < c.total {
        UpdateIsSound(limits, all, key, next);
      }
    }
  }

  /**
   Whatever arrives, the in-flight limits hold and every assembly is incomplete, within
   the chunk-count limit, and accounts for exactly the bytes it holds.
   */
  lemma AcceptIsSound(codec: Codec, limits: Limits, all: Assemblies, now: nat, source: Peer, c: Chunk)
    requires Sound(limits, all)
    ensures Sound(limits, Accept(codec, limits, all, now, source, c).0)
  {
    var live := Unexpired(all, now);
    var key := (source, c.transferId);
    FewerIsSound(limits, all, live);
    if !Malformed(c) && (key in live || !NoRoom(limits, live, source)) {
      if key in live {
        PlacedIsSound(codec, limits, live, key, c);
      } else {
        EmptySlots(Opened(c, now).slots);
        UpdateIsSound(limits, live, key, Opened(c, now));
        PlacedIsSound(codec, limits, live[key := Opened(c, now)], key, c);
      }
    }
  }

  /** After an arrival no assembly is older than the time to live. */
  lemma AcceptForgetsExpired(codec: Codec, limits: Limits, all: Assemblies, now: nat, source: Peer, c: Chunk,
                             k: TransferKey)
    requires k in Accept(codec, limits, all, now, source, c).0
    ensures now - Accept(codec, limits, all, now, source, c).0[k].createdAt <= CHUNK_TTL
  {
    var live := Unexpired(all, now);
    assert k in live ==> live[k] == all[k];
  }

  /**
   Whatever the codec and whatever arrived before, a delivered message is decoded from
   bytes that hash to the transfer id, to the last byte, is no chunk and is on the topic.
   */
  lemma DeliveredIsAuthentic(codec: Codec, limits: Limits, all: Assemblies, now: nat, source: Peer, c: Chunk)
    returns (encoded: Bytes)
    requires Accept(codec, limits, all, now, source, c).1.Some?
    ensures var m := Accept(codec, limits, all, now, source, c).1.value;
            && codec.hash(encoded) == c.transferId && codec.decode(encoded) == Some((m, |encoded|))
            && !m.ChunkOf? && TopicKind(m) == c.topic
  {
    var key := (source, c.transferId);
    var live := Unexpired(all, now);
    var a := if key in live then live[key] else Opened(c, now);
    encoded := Join(Filled(a, c).slots);
  }

  // ---------------------------------------------------------------------------
  // Opening a transfer
  // ---------------------------------------------------------------------------

  /** The transfers that still have time at `now`. */
  ghost function Running(all: Assemblies, now: nat): set<TransferKey> {
    set k | k in all && now <= all[k].createdAt + 30_000_000_000
  }

  ghost predicate RoomFor(limits: Limits, all: Assemblies, now: nat, source: Peer) {
    && |Running(all, now)| < limits.inflight
    && |set k | k in Running(all, now) && k.0 == source| < limits.perPeer
  }

  lemma RunningIsLive(limits: Limits, all: Assemblies, now: nat, source: Peer)
    ensures Running(all, now) == Unexpired(all, now).Keys
    ensures RoomFor(limits, all, now, source) <==> !NoRoom(limits, Unexpired(all, now), source)
  {
    var live := Unexpired(all, now);
    assert Running(all, now) == live.Keys;
    assert (set k | k in Running(all, now) && k.0 == source) == OfPeer(live, source);
  }

  /** The slots of a transfer that has received one chunk only. */
  ghost predicate OnlyHolds(a: Assembly, now: nat, c: Chunk) {
    && a.createdAt == now && a.topic == c.topic && |a.slots| == c.total
    && forall i :: 0 <= i < c.total ==> a.slots[i] == if i == c.index then Some(c.data) else None
  }

  /**
   The first chunk of a transfer of several opens it exactly when both limits leave room, with
   that chunk alone; either way the other running transfers stay as they are.
   */
  lemma OpensIff(codec: Codec, limits: Limits, all: Assemblies, now: nat, source: Peer, c: Chunk)
    requires 1 < c.total <= 64 && c.index < c.total && |c.data| <= 512 * 1024
    requires (source, c.transferId) !in Running(all, now)
    ensures var key := (source, c.transferId);
            var (next, delivered) := Accept(codec, limits, all, now, source, c);
            && delivered.None?
            && (key in next <==> RoomFor(limits, all, now, source))
            && (key in next ==> OnlyHolds(next[key], now, c))
            && next.Keys - {key} == Running(all, now)
            && (forall k :: k in Running(all, now) ==> next[k] == all[k])
  {
    RunningIsLive(limits, all, now, source);
    if !NoRoom(limits, Unexpired(all, now), source) {
      FirstFills(Opened(c, now), c);
    }
  }

  /** A malformed chunk changes nothing; one that disagrees with its transfer ends that transfer and no other. */
  lemma Disagrees(codec: Codec, limits: Limits, all: Assemblies, now: nat, source: Peer, c: Chunk)
    requires (source, c.transferId) in Running(all, now)
    ensures var key := (source, c.transferId);
            var (next, delivered) := Accept(codec, limits, all, now, source, c);
            var malformed := c.total == 0 || c.total > 64 || c.index >= c.total || |c.data| > 512 * 1024;
            var differs := |all[key].slots| != c.total || all[key].topic != c.topic;
            && (malformed || differs ==> delivered.None?)
            && (malformed ==> next.Keys == Running(all, now) && next[key] == all[key])
            && (!malformed && differs ==> next.Keys == Running(all, now) - {key})
            && forall k :: k in Running(all, now) && k != key ==> k in next && next[k] == all[k]
  {
    RunningIsLive(limits, all, now, source);
  }

  lemma FirstFills(a: Assembly, c: Chunk)
    requires |c.data| <= P2P_CHUNK_SIZE && c.index < c.total && a.received == 0 && a.bytes == 0
    requires |a.slots| == c.total && forall i :: 0 <= i < c.total ==> a.slots[i].None?
    ensures var next := Filled(a, c);
            && next.bytes <= MAX_CHUNKED_PAYLOAD_SIZE && next.received == 1
            && next == a.(slots := next.slots, received := 1, bytes := next.bytes) && |next.slots| == c.total
            && forall i :: 0 <= i < c.total ==> next.slots[i] == if i == c.index then Some(c.data) else None
  {
  }

  // ---------------------------------------------------------------------------
  // A transfer survives reordering, repetition and interleaving
  // ---------------------------------------------------------------------------

  datatype Arrival = Arrival(now: nat, source: Peer, chunk: Chunk)

  function KeyOf(e: Arrival): TransferKey {
    (e.source, e.chunk.transferId)
  }

  function Step(codec: Codec, limits: Limits, all: Assemblies, e: Arrival): (Assemblies, Option<Message>) {
    Accept(codec, limits, all, e.now, e.source, e.chunk)
  }

  /** The assemblies after a run of arrivals. */
  function After(codec: Codec, limits: Limits, all: Assemblies, es: seq<Arrival>): Assemblies {
    if es == [] then all
    else Step(codec, limits, After(codec, limits, all, es[..|es| - 1]), es[|es| - 1]).0
  }

  /** What the last arrival of a run delivers. */
  function Delivered(codec: Codec, limits: Limits, all: Assemblies, es: seq<Arrival>): Option<Message>
    requires es != []
  {
    Step(codec, limits, After(codec, limits, all, es[..|es| - 1]), es[|es| - 1]).1
  }

  /** The chunk indices of one transfer that arrived in a run. */
  function Seen(es: seq<Arrival>, key: TransferKey): set<nat> {
    if es == [] then {}
    else Seen(es[..|es| - 1], key) + (if KeyOf(es[|es| - 1]) == key then {es[|es| - 1].chunk.index} else {})
  }

  ghost predicate Complete(seen: set<nat>, n: nat) {
    forall i: nat :: i < n ==> i in seen
  }

  /** The slots of a transfer when the pieces in `seen` have arrived. */
  function Partial(pieces: seq<Bytes>, seen: set<nat>): seq<Option<Bytes>> {
    seq(|pieces|, i requires 0 <= i < |pieces| => if i in seen then Some(pieces[i]) else None)
  }

  ghost predicate Own(codec: Codec, data: Bytes, topic: Topic, c: Chunk) {
    c.index < |Pieces(data)| && c == ChunkAt(codec, data, topic, c.index)
  }

  ghost predicate InProgress(all: Assemblies, key: TransferKey, since: nat, topic: Topic, data: Bytes, seen: set<nat>) {
    && key in all
    && all[key].createdAt == since && all[key].topic == topic && all[key].slots == Partial(Pieces(data), seen)
  }

  lemma {:induction false} AllPresent(slots: seq<Option<Bytes>>)
    ensures Present(slots) == |slots| <==> forall i :: 0 <= i < |slots| ==> slots[i].Some?
  {
    if slots != [] {
      AllPresent(slots[1..]);
      assert slots == [slots[0]] + slots[1..];
    }
  }

  lemma {:induction false} JoinOfAll(slots: seq<Option<Bytes>>, pieces: seq<Bytes>)
    requires |slots| == |pieces| && forall i :: 0 <= i < |slots| ==> slots[i] == Some(pieces[i])
    ensures Join(slots) == Flatten(pieces)
  {
    if slots != [] {
      JoinOfAll(slots[1..], pieces[1..]);
    }
  }

  lemma PartialIsComplete(pieces: seq<Bytes>, seen: set<nat>)
    ensures Present(Partial(pieces, seen)) == |pieces| <==> Complete(seen, |pieces|)
    ensures Complete(seen, |pieces|) ==> Join(Partial(pieces, seen)) == Flatten(pieces)
  {
    var slots := Partial(pieces, seen);
    AllPresent(slots);
    if Present(slots) == |pieces| {
      forall i: nat | i < |pieces| ensures i in seen {
        assert slots[i].Some?;
      }
      JoinOfAll(slots, pieces);
    }
  }

  /** A chunk of another transfer leaves this one alone. */
  lemma ForeignStep(codec: Codec, limits: Limits, all: Assemblies, e: Arrival,
                    key: TransferKey, since: nat, topic: Topic, data: Bytes, seen: set<nat>)
    requires InProgress(all, key, since, topic, data, seen)
    requires KeyOf(e) != key && e.now <= since + CHUNK_TTL
    ensures InProgress(Step(codec, limits, all, e).0, key, since, topic, data, seen)
  {
  }

  /** One of the transfer's own chunks, in any order and any number of times. */
  lemma OwnPlaced(codec: Codec, all: Assemblies, key: TransferKey, since: nat, m: Message, seen: set<nat>, c: Chunk)
    requires Inverse(codec) && !m.ChunkOf?
    requires var data := codec.encode(m);
             && InProgress(all, key, since, TopicKind(m), data, seen) && Consistent(all[key])
             && Own(codec, data, TopicKind(m), c) && key.1 == c.transferId && !Malformed(c)
    ensures var data := codec.encode(m);
            var r := Placed(codec, all, key, c);
            var now := seen + {c.index};
            if Complete(now, |Pieces(data)|) then r == (all - {key}, Some(m))
            else r.1 == None && InProgress(r.0, key, since, TopicKind(m), data, now)
  {
    var data := codec.encode(m);
    var pieces := Pieces(data);
    var a := all[key];
    var now := seen + {c.index};
    FilledFits(a, c);
    var next := Filled(a, c);
    assert next.slots == Partial(pieces, now);
    PartialIsComplete(pieces, now);
    PiecesJoin(data);
    if Complete(now, |pieces|) {
      assert codec.decode(data) == Some((m, |data|));
    }
  }

  /** The conditions under which a transfer is tracked from its first chunk on. */
  ghost predicate Transfer(codec: Codec, limits: Limits, all: Assemblies, es: seq<Arrival>, source: Peer, m: Message) {
    var data := codec.encode(m);
    var key := (source, codec.hash(data));
    && Inverse(codec) && !m.ChunkOf? && |Pieces(data)| <= MAX_CHUNKS_PER_PAYLOAD
    && Sound(limits, all)
    && es != [] && KeyOf(es[0]) == key
    && key !in Unexpired(all, es[0].now) && !NoRoom(limits, Unexpired(all, es[0].now), source)
    && forall i :: 0 <= i < |es| ==>
         && es[i].now <= es[0].now + CHUNK_TTL
         && (KeyOf(es[i]) == key ==> Own(codec, data, TopicKind(m), es[i].chunk))
  }

  lemma {:induction false} RunIsSound(codec: Codec, limits: Limits, all: Assemblies, es: seq<Arrival>)
    requires Sound(limits, all)
    ensures Sound(limits, After(codec, limits, all, es))
  {
    if es != [] {
      var e := es[|es| - 1];
      RunIsSound(codec, limits, all, es[..|es| - 1]);
      AcceptIsSound(codec, limits, After(codec, limits, all, es[..|es| - 1]), e.now, e.source, e.chunk);
    }
  }

  lemma OwnIsWellFormed(codec: Codec, data: Bytes, topic: Topic, c: Chunk)
    requires Own(codec, data, topic, c) && |Pieces(data)| <= MAX_CHUNKS_PER_PAYLOAD
    ensures !Malformed(c)
  {
  }

  /** The first chunk opens the transfer. */
  lemma FirstStep(codec: Codec, limits: Limits, all: Assemblies, e: Arrival, source: Peer, m: Message)
    requires Transfer(codec, limits, all, [e], source, m)
    ensures var data := codec.encode(m);
            var r := Step(codec, limits, all, e);
            if Complete({e.chunk.index}, |Pieces(data)|) then r.1 == Some(m)
            else r.1 == None && InProgress(r.0, KeyOf(e), e.now, TopicKind(m), data, {e.chunk.index})
  {
    var data := codec.encode(m);
    assert [e][0] == e;
    OwnIsWellFormed(codec, data, TopicKind(m), e.chunk);
    var start := Opened(e.chunk, e.now);
    EmptySlots(start.slots);
    assert start.slots == Partial(Pieces(data), {});
    var all' := Unexpired(all, e.now)[KeyOf(e) := start];
    OwnPlaced(codec, all', KeyOf(e), e.now, m, {}, e.chunk);
    assert {} + {e.chunk.index} == {e.chunk.index};
  }

  /** A later arrival, of this transfer or another. */
  lemma LaterStep(codec: Codec, limits: Limits, all: Assemblies, e: Arrival, key: TransferKey, since: nat,
                  m: Message, seen: set<nat>)
    requires Inverse(codec) && !m.ChunkOf? && Sound(limits, all)
    requires var data := codec.encode(m);
             && |Pieces(data)| <= MAX_CHUNKS_PER_PAYLOAD
             && InProgress(all, key, since, TopicKind(m), data, seen)
             && (KeyOf(e) == key ==> Own(codec, data, TopicKind(m), e.chunk))
    requires e.now <= since + CHUNK_TTL
    ensures var data := codec.encode(m);
            var r := Step(codec, limits, all, e);
            var now := seen + (if KeyOf(e) == key then {e.chunk.index} else {});
            if KeyOf(e) == key && Complete(now, |Pieces(data)|) then r.1 == Some(m)
            else (KeyOf(e) == key ==> r.1 == None) && InProgress(r.0, key, since, TopicKind(m), data, now)
  {
    var data := codec.encode(m);
    if KeyOf(e) == key {
      OwnIsWellFormed(codec, data, TopicKind(m), e.chunk);
      var live := Unexpired(all, e.now);
      assert live[key] == all[key];
      OwnPlaced(codec, live, key, since, m, seen, e.chunk);
    } else {
      ForeignStep(codec, limits, all, e, key, since, TopicKind(m), data, seen);
      assert seen + {} == seen;
    }
  }

  /**
   While chunks are missing the transfer is in progress, and each of its own chunks
   delivers nothing until the one that makes it complete, which delivers the message.
   */
  lemma {:induction false} TransferDelivers(codec: Codec, limits: Limits, all: Assemblies, es: seq<Arrival>,
                                            source: Peer, m: Message)
    requires Transfer(codec, limits, all, es, source, m)
    requires var data := codec.encode(m);
             !Complete(Seen(es[..|es| - 1], (source, codec.hash(data))), |Pieces(data)|)
    ensures var data := codec.encode(m);
            var key := (source, codec.hash(data));
            var done := Complete(Seen(es, key), |Pieces(data)|);
            && (KeyOf(es[|es| - 1]) == key ==>
                  Delivered(codec, limits, all, es) == if done then Some(m) else None)
            && (!done ==>
                  InProgress(After(codec, limits, all, es), key, es[0].now, TopicKind(m), data, Seen(es, key)))
  {
    var data := codec.encode(m);
    var key := (source, codec.hash(data));
    var before := es[..|es| - 1];
    var e := es[|es| - 1];
    if |es| == 1 {
      assert es == [e] && before == [];
      FirstStep(codec, limits, all, e, source, m);
    } else {
      assert Seen(before, key) == Seen(before[..|before| - 1], key)
               + (if KeyOf(before[|before| - 1]) == key then {before[|before| - 1].chunk.index} else {});
      TransferDelivers(codec, limits, all, before, source, m);
      RunIsSound(codec, limits, all, before);
      LaterStep(codec, limits, After(codec, limits, all, before), e, key, es[0].now, m, Seen(before, key));
    }
  }

  /**
   End to end: a published message that goes out in chunks is, when the last missing
   chunk arrives, delivered and processed to the message itself, unless its payload is
   beyond the decompression limit.
   */
  lemma PublishedArrives(codec: Codec, limits: Limits, all: Assemblies, es: seq<Arrival>, source: Peer, m: Message)
    requires Inverse(codec) && Plain(m)
    requires var sent := CompressLarge(codec, m);
             var data := codec.encode(sent);
             var key := (source, codec.hash(data));
             && MAX_GOSSIP_MESSAGE_SIZE < |data| <= MAX_CHUNKED_PAYLOAD_SIZE
             && Transfer(codec, limits, all, es, source, sent)
             && KeyOf(es[|es| - 1]) == key
             && !Complete(Seen(es[..|es| - 1], key), |Pieces(data)|)
             && Complete(Seen(es, key), |Pieces(data)|)
    ensures var lost := Compressible(m) && |m.data| > MAX_DECOMPRESSED_PAYLOAD_SIZE;
            var got := Delivered(codec, limits, all, es);
            && Wire(codec, m)
               == Ok(AllChunks(codec, codec.encode(CompressLarge(codec, m)), TopicKind(CompressLarge(codec, m))))
            && got.Some? && Process(codec, got.value) == if lost then None else Some(Arrives(m))
  {
    TransferDelivers(codec, limits, all, es, source, CompressLarge(codec, m));
    CompressionRoundTrip(codec, m);
  }

  // ---------------------------------------------------------------------------
  // The receiver
  // ---------------------------------------------------------------------------

  class Reassembler {
    const codec: Codec
    const limits: Limits
    var assemblies: Assemblies

    ghost predicate Valid() reads this {
      Sound(limits, assemblies)
    }

    constructor (codec: Codec, limits: Limits)
      ensures this.codec == codec && this.limits == limits && assemblies == map[] && Valid()
    {
      this.codec, this.limits, assemblies := codec, limits, map[];
      new;
      assert forall p :: OfPeer(assemblies, p) == {};
    }

    method AcceptChunk(now: nat, source: Peer, c: Chunk) returns (r: Option<Message>)
      requires Valid()
      modifies this
      ensures Valid()
      ensures (assemblies, r) == Accept(codec, limits, old(assemblies), now, source, c)
    {
      AcceptIsSound(codec, limits, assemblies, now, source, c);
      assemblies := Unexpired(assemblies, now);
      if c.total == 0 || c.total > MAX_CHUNKS_PER_PAYLOAD || c.index >= c.total || |c.data| > P2P_CHUNK_SIZE {
        return None;
      }
      var key := (source, c.transferId);
      if key !in assemblies && |assemblies| >= limits.inflight {
        return None;
      }
      if key !in assemblies && |OfPeer(assemblies, source)| >= limits.perPeer {
        return None;
      }
      if key !in assemblies {
        assemblies := assemblies[key := Opened(c, now)];
      }
      r := Place(key, c);
    }

    /** The second half of accepting: the chunk's assembly exists. */
    method Place(key: TransferKey, c: Chunk) returns (r: Option<Message>)
      requires key in assemblies && key.1 == c.transferId && !Malformed(c)
      modifies this
      ensures (assemblies, r) == Placed(codec, old(assemblies), key, c)
    {
      var assembly := assemblies[key];
      if |assembly.slots| != c.total || assembly.topic != c.topic {
        assemblies := assemblies - {key};
        return None;
      }
      if assembly.slots[c.index].None? {
        assembly := assembly.(bytes := assembly.bytes + |c.data|);
        if assembly.bytes <= MAX_CHUNKED_PAYLOAD_SIZE {
          assembly := assembly.(slots := assembly.slots[c.index := Some(c.data)], received := assembly.received + 1);
        }
      }
      if assembly.bytes > MAX_CHUNKED_PAYLOAD_SIZE {
        assemblies := assemblies - {key};
        return None;
      }
      if assembly.received != c.total {
        assemblies := assemblies[key := assembly];
        return None;
      }
      assemblies := assemblies - {key};
      r := Complete(codec, assembly, c.transferId);
    }

    static method Concatenate(slots: seq<Option<Bytes>>) returns (encoded: Bytes)
      ensures encoded == Join(slots)
    {
      encoded := [];
      for i := 0 to |slots|
        invariant Join(slots) == encoded + Join(slots[i..])
      {
        assert slots[i..][1..] == slots[i + 1..];
        if slots[i].Some? {
          encoded := encoded + slots[i].value;
        }
      }
      assert slots[|slots|..] == [];
    }

    static method Complete(codec: Codec, assembly: Assembly, id: Bytes) returns (r: Option<Message>)
      ensures r == Finish(codec, assembly, id)
    {
      var encoded := Concatenate(assembly.slots);
      if codec.hash(encoded) != id {
        return None;
      }
      var decoded := codec.decode(encoded);
      if decoded.Some? && decoded.value.1 == |encoded| && !decoded.value.0.ChunkOf?
         && TopicKind(decoded.value.0) == assembly.topic {
        return Some(decoded.value.0);
      }
      r := None;
    }
  }
}
