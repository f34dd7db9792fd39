/**
 Publishing P2P messages in chunks and reassembling them under reordering,
 duplication and interleaving.

 Serialization, hashing and gzip are the functions of a `Codec`; strings are their
 UTF-8 bytes; the clock is the `now` of each event.
 */
module P2P {
  import opened Prelude

  type Peer = string

  const LARGE_MESSAGE_COMPRESSION_THRESHOLD: nat := 100_000
  const MAX_DECOMPRESSED_PAYLOAD_SIZE: nat := 32 * 1024 * 1024
  const MAX_GOSSIP_MESSAGE_SIZE: nat := 4 * 1024 * 1024
  const P2P_CHUNK_SIZE: nat := 512 * 1024
  const MAX_CHUNKED_PAYLOAD_SIZE: nat := 32 * 1024 * 1024
  const MAX_CHUNKS_PER_PAYLOAD: nat := 64
  const CHUNK_TTL: nat := 30_000_000_000   // nanoseconds

  datatype Topic = CheckpointTopic | TransactionTopic | PeerTopic | DagVertexTopic

  datatype Chunk = Chunk(transferId: Bytes, topic: Topic, index: nat, total: nat, data: Bytes)

  datatype Target = Target(sequence: nat, timestamp: nat, requester: string, responder: string)

  datatype Message =
    | NewTransaction(data: Bytes)
    | NewCheckpoint(data: Bytes)
    | NewDagVertex(data: Bytes)
    | DagVertexRebroadcast(data: Bytes, nonce: nat, sender: string)
    | DagVertexRequest(requester: string, parentRound: nat, timestamp: nat, limit: nat)
    | DagVertexResponse(target: Target, vertices: seq<Bytes>)
    | CheckpointRequest(sequence: nat, timestamp: nat)
    | CheckpointResponse(data: Bytes)
    | TargetedCheckpointRequest(target: Target)
    | TargetedCheckpointResponse(target: Target, data: Bytes)
    | PeerInfo(info: string)
    | CompressedCheckpoint(packed: Bytes)
    | CompressedDagVertex(packed: Bytes)
    | CompressedCheckpointResponse(packed: Bytes)
    | CompressedTargetedCheckpointResponse(target: Target, packed: Bytes)
    | ChunkOf(chunk: Chunk)

  datatype Codec = Codec(
    encode: Message -> Bytes,
    decode: Bytes -> Option<(Message, nat)>,   // the message and the bytes it took
    hash: Bytes -> Bytes,
    gzip: Bytes -> Bytes,
    gunzip: Bytes -> Option<Bytes>)

  ghost predicate Inverse(codec: Codec) {
    && (forall m :: codec.decode(codec.encode(m)) == Some((m, |codec.encode(m)|)))
    && (forall d :: codec.gunzip(codec.gzip(d)) == Some(d))
  }

  // ---------------------------------------------------------------------------
  // Compression
  // ---------------------------------------------------------------------------

  function TopicKind(m: Message): Topic {
    match m
    case NewCheckpoint(_) => CheckpointTopic
    case CheckpointResponse(_) => CheckpointTopic
    case CheckpointRequest(_, _) => CheckpointTopic
    case TargetedCheckpointRequest(_) => CheckpointTopic
    case TargetedCheckpointResponse(_, _) => CheckpointTopic
    case CompressedCheckpoint(_) => CheckpointTopic
    case CompressedCheckpointResponse(_) => CheckpointTopic
    case CompressedTargetedCheckpointResponse(_, _) => CheckpointTopic
    case NewTransaction(_) => TransactionTopic
    case PeerInfo(_) => PeerTopic
    case NewDagVertex(_) => DagVertexTopic
    case DagVertexRebroadcast(_, _, _) => DagVertexTopic
    case DagVertexRequest(_, _, _, _) => DagVertexTopic
    case DagVertexResponse(_, _) => DagVertexTopic
    case CompressedDagVertex(_) => DagVertexTopic
    case ChunkOf(chunk) => chunk.topic
  }

  predicate Large(data: Bytes) {
    |data| > LARGE_MESSAGE_COMPRESSION_THRESHOLD
  }

  function CompressLarge(codec: Codec, m: Message): Message {
    match m
    case NewCheckpoint(data) => if Large(data) then CompressedCheckpoint(codec.gzip(data)) else m
    case NewDagVertex(data) => if Large(data) then CompressedDagVertex(codec.gzip(data)) else m
    case DagVertexRebroadcast(data, _, _) => if Large(data) then CompressedDagVertex(codec.gzip(data)) else m
    case CheckpointResponse(data) => if Large(data) then CompressedCheckpointResponse(codec.gzip(data)) else m
    case TargetedCheckpointResponse(target, data) =>
      if Large(data) then CompressedTargetedCheckpointResponse(target, codec.gzip(data)) else m
    case _ => m
  }

  function Decompress(codec: Codec, packed: Bytes): Option<Bytes> {
    match codec.gunzip(packed)
    case None => None
    case Some(data) => if |data| > MAX_DECOMPRESSED_PAYLOAD_SIZE then None else Some(data)
  }

  /** What the receiver forwards for a decoded message. */
  function Process(codec: Codec, m: Message): Option<Message> {
    match m
    case CompressedCheckpoint(p) => MapOption(Decompress(codec, p), d => NewCheckpoint(d))
    case CompressedDagVertex(p) => MapOption(Decompress(codec, p), d => NewDagVertex(d))
    case CompressedCheckpointResponse(p) => MapOption(Decompress(codec, p), d => CheckpointResponse(d))
    case CompressedTargetedCheckpointResponse(target, p) =>
      MapOption(Decompress(codec, p), d => TargetedCheckpointResponse(target, d))
    case ChunkOf(_) => None
    case _ => Some(m)
  }

  function MapOption<A, B>(o: Option<A>, f: A -> B): Option<B> {
    if o.Some? then Some(f(o.value)) else None
  }

  /** A message as the application sends it: neither a chunk nor already compressed. */
  predicate Plain(m: Message) {
    !(m.ChunkOf? || m.CompressedCheckpoint? || m.CompressedDagVertex? || m.CompressedCheckpointResponse?
      || m.CompressedTargetedCheckpointResponse?)
  }

  predicate Compressible(m: Message) {
    m.NewCheckpoint? || m.NewDagVertex? || m.DagVertexRebroadcast? || m.CheckpointResponse?
    || m.TargetedCheckpointResponse?
  }

  /** What arrives for a sent message: itself, except that a large rebroadcast becomes a new vertex. */
  function Arrives(m: Message): Message {
    if m.DagVertexRebroadcast? && Large(m.data) then NewDagVertex(m.data) else m
  }

  /**
   The receiver gets the message exactly when it was not compressed or its payload
   is within the decompression limit: a longer one is sent but dropped on arrival.
   */
  lemma CompressionRoundTrip(codec: Codec, m: Message)
    requires Inverse(codec) && Plain(m)
    ensures Process(codec, CompressLarge(codec, m))
            == if Compressible(m) && |m.data| > MAX_DECOMPRESSED_PAYLOAD_SIZE then None else Some(Arrives(m))
  {
    if Compressible(m) {
      assert codec.gunzip(codec.gzip(m.data)) == Some(m.data);
    }
  }

  /** Exactly the payloads above the threshold go out compressed, on the topic of the plain message. */
  lemma CompressedIff(codec: Codec, m: Message)
    requires Plain(m)
    ensures var sent := CompressLarge(codec, m);
            && TopicKind(sent) == TopicKind(m) && !sent.ChunkOf?
            && (Plain(sent) <==> !(Compressible(m) && |m.data| > 100_000))
            && (Plain(sent) ==> sent == m)
            && (!Plain(sent) ==> sent.packed == codec.gzip(m.data))
  {
  }

  // ---------------------------------------------------------------------------
  // Splitting
  // ---------------------------------------------------------------------------

  /** The payload in consecutive pieces of the chunk size, the last one possibly shorter. */
  function Pieces(data: Bytes): (r: seq<Bytes>)
    ensures forall i :: 0 <= i < |r| ==> 0 < |r[i]| <= P2P_CHUNK_SIZE
  {
    if data == [] then []
    else if |data| <= P2P_CHUNK_SIZE then [data]
    else [data[..P2P_CHUNK_SIZE]] + Pieces(data[P2P_CHUNK_SIZE..])
  }

  function CeilDiv(n: nat): nat {
    (n + P2P_CHUNK_SIZE - 1) / P2P_CHUNK_SIZE
  }

  lemma {:induction false} PiecesJoin(data: Bytes)
    ensures Flatten(Pieces(data)) == data
  {
    if data == [] {
    } else if |data| <= P2P_CHUNK_SIZE {
      assert Pieces(data)[1..] == [];
    } else {
      PiecesJoin(data[P2P_CHUNK_SIZE..]);
      assert data == data[..P2P_CHUNK_SIZE] + data[P2P_CHUNK_SIZE..];
    }
  }

  lemma {:induction false} PiecesCount(data: Bytes)
    ensures |Pieces(data)| == CeilDiv(|data|)
  {
    if |data| > P2P_CHUNK_SIZE {
      PiecesCount(data[P2P_CHUNK_SIZE..]);
    }
  }

  function ChunkAt(codec: Codec, data: Bytes, topic: Topic, i: nat): Chunk
    requires i < |Pieces(data)|
  {
    Chunk(codec.hash(data), topic, i, |Pieces(data)|, Pieces(data)[i])
  }

  function AllChunks(codec: Codec, data: Bytes, topic: Topic): (r: seq<Message>)
    ensures |r| == |Pieces(data)|
    ensures forall i :: 0 <= i < |r| ==> r[i] == ChunkOf(ChunkAt(codec, data, topic, i))
  {
    seq(|Pieces(data)|, i requires 0 <= i < |Pieces(data)| => ChunkOf(ChunkAt(codec, data, topic, i)))
  }

  /** What goes out on the wire for a message. */
  function Wire(codec: Codec, m: Message): Result<seq<Message>> {
    var final := CompressLarge(codec, m);
    var data := codec.encode(final);
    if |data| <= MAX_GOSSIP_MESSAGE_SIZE then Ok([final])
    else if |data| > MAX_CHUNKED_PAYLOAD_SIZE then Err("payload exceeds the chunked-message limit")
    else Ok(AllChunks(codec, data, TopicKind(final)))
  }

  method SplitIntoChunks(codec: Codec, data: Bytes, topic: Topic) returns (sent: seq<Message>)
    ensures sent == AllChunks(codec, data, topic)
  {
    sent := [];
    PiecesCount(data);
    var total := CeilDiv(|data|);
    var pieces := Pieces(data);
    for i := 0 to |pieces|
      invariant sent == AllChunks(codec, data, topic)[..i]
    {
      sent := sent + [ChunkOf(Chunk(codec.hash(data), topic, i, total, pieces[i]))];
    }
  }

  /** What was sent is the encoded message: alone while it is within the gossip limit, else cut into numbered chunks. */
  ghost predicate Carries(codec: Codec, sent: seq<Message>, data: Bytes) {
    if |data| <= MAX_GOSSIP_MESSAGE_SIZE then |sent| == 1 && codec.encode(sent[0]) == data
    else
      exists pieces: seq<Bytes> ::
        && Flatten(pieces) == data && |sent| == |pieces| && |pieces| == CeilDiv(|data|)
        && forall i :: 0 <= i < |sent| ==>
             && sent[i].ChunkOf? && sent[i].chunk.data == pieces[i] && 0 < |pieces[i]| <= P2P_CHUNK_SIZE
             && sent[i].chunk.index == i && sent[i].chunk.total == |pieces|
             && sent[i].chunk.transferId == codec.hash(data)
  }

  lemma ChunksCarry(codec: Codec, data: Bytes, topic: Topic)
    requires |data| > MAX_GOSSIP_MESSAGE_SIZE
    ensures Carries(codec, AllChunks(codec, data, topic), data)
  {
    PiecesJoin(data);
    PiecesCount(data);
    var pieces := Pieces(data);
    var sent := AllChunks(codec, data, topic);
    assert forall i :: 0 <= i < |sent| ==> sent[i].chunk == ChunkAt(codec, data, topic, i);
  }

  /** The single message of a plain one, and what its receiver makes of it. */
  ghost predicate SentWhole(codec: Codec, m: Message, sent: seq<Message>) {
    && |sent| == 1 && !sent[0].ChunkOf?
    && Process(codec, sent[0])
       == if Compressible(m) && |m.data| > MAX_DECOMPRESSED_PAYLOAD_SIZE then None else Some(Arrives(m))
  }

  lemma WholeArrives(codec: Codec, m: Message)
    ensures Inverse(codec) && Plain(m) ==> SentWhole(codec, m, [CompressLarge(codec, m)])
  {
    if Inverse(codec) && Plain(m) {
      CompressionRoundTrip(codec, m);
    }
  }

  /**
   Publishing fails exactly above the chunked-message limit; the chunk-count check never fails
   once the size check has passed. A plain message within the gossip limit goes out as one
   message that its receiver turns into what arrives, unless that is beyond the decompression limit.
   */
  method Publish(codec: Codec, m: Message) returns (r: Result<seq<Message>>)
    ensures r == Wire(codec, m)
    ensures var data := codec.encode(CompressLarge(codec, m));
            && (r.Err? <==> |data| > 32 * 1024 * 1024)
            && (r.Ok? ==> Carries(codec, r.value, data))
            && (Inverse(codec) && Plain(m) && |data| <= MAX_GOSSIP_MESSAGE_SIZE ==> SentWhole(codec, m, r.value))
  {
    var final := CompressLarge(codec, m);
    var data := codec.encode(final);
    if |data| <= MAX_GOSSIP_MESSAGE_SIZE {
      WholeArrives(codec, m);
      return Ok([final]);
    }
    if |data| > MAX_CHUNKED_PAYLOAD_SIZE {
      return Err("payload exceeds the chunked-message limit");
    }
    if CeilDiv(|data|) > MAX_CHUNKS_PER_PAYLOAD {
      return Err("payload requires too many chunks");
    }
    var sent := SplitIntoChunks(codec, data, TopicKind(final));
    ChunksCarry(codec, data, TopicKind(final));
    r := Ok(sent);
  }
}
