/**
 * Chunked storage of one text per (call, field): a metadata row with the chunk count and the
 * byte length, and the bytes cut into chunks of 256 KiB. The reader trusts no stored cell.
 */
module LlmPayloads {
  import opened Prelude

  type byte = b: int | 0 <= b < 256

  const CHUNK_BYTES := 262144

  const MAX_SAFE_INTEGER := 9007199254740991

  datatype Field = AgentId | Model | Request | ProviderRequestId | Response | Metrics | Failure

  /** A stored cell. `Num` is an integral number; every other number is `OtherNumber`. */
  datatype Cell = Null | Num(n: int) | OtherNumber | Text(s: string) | Blob(bytes: seq<byte>)

  datatype Meta = Meta(chunkCount: Cell, byteLength: Cell)

  datatype Chunk = Chunk(index: Cell, data: Cell)

  datatype ReadError = MissingMetadata | InvalidInteger | InvalidSize | MissingOrExtra | InvalidOrder | InvalidChunk | InvalidText

  /** JSON text in UTF-8, as a pair of functions that undo each other. */
  datatype Codec = Codec(encode: string -> seq<byte>, decode: seq<byte> -> Option<string>) {
    ghost predicate Lawful() {
      forall s: string :: encode(s) != [] && decode(encode(s)) == Some(s)
    }
  }

  /** `Math.ceil(length / CHUNK_BYTES)`. */
  function ChunkCount(length: nat): nat {
    (length + CHUNK_BYTES - 1) / CHUNK_BYTES
  }

  function Piece(bytes: seq<byte>, i: nat): seq<byte>
    requires i < ChunkCount(|bytes|)
  {
    bytes[i * CHUNK_BYTES..Min((i + 1) * CHUNK_BYTES, |bytes|)]
  }

  /** The 256 KiB split, in order. */
  function Split(bytes: seq<byte>): seq<Chunk> {
    seq(ChunkCount(|bytes|), i requires 0 <= i < ChunkCount(|bytes|) => Chunk(Num(i), Blob(Piece(bytes, i))))
  }

  function MetaOf(bytes: seq<byte>): Meta {
    Meta(Num(ChunkCount(|bytes|)), Num(|bytes|))
  }

  const ABSENT := Meta(Num(0), Null)

  function StoredInteger(cell: Cell): Option<nat> {
    if cell.Num? && 0 <= cell.n <= MAX_SAFE_INTEGER then Some(cell.n) else None
  }

  /** The tables hold exactly the recorded absence or the split of these bytes. */
  ghost predicate Records(meta: Option<Meta>, chunks: seq<Chunk>, value: Option<seq<byte>>) {
    match value
    case None => meta == Some(ABSENT) && chunks == []
    case Some(bytes) => 0 < |bytes| <= MAX_SAFE_INTEGER && meta == Some(MetaOf(bytes)) && chunks == Split(bytes)
  }

  predicate GoodChunk(chunk: Chunk, index: nat, length: nat) {
    && StoredInteger(chunk.index) == Some(index)
    && chunk.data.Blob?
    && |chunk.data.bytes| == Min(CHUNK_BYTES, length - index * CHUNK_BYTES)
  }

  lemma NotASplit(chunks: seq<Chunk>, length: nat)
    requires |chunks| == ChunkCount(length)
    requires exists i :: 0 <= i < |chunks| && !GoodChunk(chunks[i], i, length)
    ensures forall bytes | 0 < |bytes| == length <= MAX_SAFE_INTEGER :: Split(bytes) != chunks
  {
    var i :| 0 <= i < |chunks| && !GoodChunk(chunks[i], i, length);
    forall bytes | 0 < |bytes| == length <= MAX_SAFE_INTEGER ensures Split(bytes) != chunks {
      assert GoodChunk(Split(bytes)[i], i, length);
    }
  }

  /** Bytes are determined by their chunks. */
  lemma SplitUnique(bytes: seq<byte>, chunks: seq<Chunk>)
    requires |chunks| == ChunkCount(|bytes|)
    requires forall i | 0 <= i < |chunks| :: chunks[i] == Chunk(Num(i), Blob(Piece(bytes, i)))
    ensures chunks == Split(bytes)
    ensures forall other | |other| == |bytes| && Split(other) == chunks :: other == bytes
  {
    forall other | |other| == |bytes| && Split(other) == chunks ensures other == bytes {
      forall k | 0 <= k < |bytes| ensures other[k] == bytes[k] {
        var i := k / CHUNK_BYTES;
        assert Split(other)[i] == chunks[i];
        assert Piece(other, i)[k - i * CHUNK_BYTES] == Piece(bytes, i)[k - i * CHUNK_BYTES];
      }
    }
  }

  /** The first n chunks are in their places. */
  ghost predicate Filled(bytes: seq<byte>, chunks: seq<Chunk>, n: nat)
    requires n <= |chunks| == ChunkCount(|bytes|)
  {
    forall i | 0 <= i < n :: GoodChunk(chunks[i], i, |bytes|) && chunks[i].data.bytes == Piece(bytes, i)
  }

  /** One more chunk is copied behind the others. */
  lemma CopiedNext(was: seq<byte>, bytes: seq<byte>, chunks: seq<Chunk>, index: nat)
    requires |was| == |bytes| && index < |chunks| == ChunkCount(|bytes|) && Filled(was, chunks, index)
    requires GoodChunk(chunks[index], index, |bytes|) && chunks[index].data.bytes == Piece(bytes, index)
    requires forall j | 0 <= j < index * CHUNK_BYTES :: bytes[j] == was[j]
    ensures Filled(bytes, chunks, index + 1)
  {
    forall i | 0 <= i < index ensures Piece(bytes, i) == Piece(was, i) {
      assert (i + 1) * CHUNK_BYTES <= index * CHUNK_BYTES;
    }
  }

  /** The loop of `read`: check each chunk and copy it to its place. */
  method FillBytes(chunks: seq<Chunk>, length: nat) returns (r: Result<seq<byte>, ReadError>)
    requires |chunks| == ChunkCount(length)
    ensures r.Ok? <==> forall i | 0 <= i < |chunks| :: GoodChunk(chunks[i], i, length)
    ensures r.Ok? ==> |r.value| == length && forall i | 0 <= i < |chunks| :: chunks[i] == Chunk(Num(i), Blob(Piece(r.value, i)))
  {
    var bytes := new byte[length];
    var index := 0;
    while index < |chunks|
      invariant 0 <= index <= |chunks|
      invariant Filled(bytes[..], chunks, index)
    {
      if !GoodChunk(chunks[index], index, length) {
        return Err(if StoredInteger(chunks[index].index).None? then InvalidInteger
                   else if StoredInteger(chunks[index].index) != Some(index) then InvalidOrder
                   else InvalidChunk);
      }
      var data := chunks[index].data.bytes;
      ghost var was := bytes[..];
      forall j | 0 <= j < |data| {
        bytes[index * CHUNK_BYTES + j] := data[j];
      }
      assert Piece(bytes[..], index) == data;
      CopiedNext(was, bytes[..], chunks, index);
      index := index + 1;
    }
    return Ok(bytes[..]);
  }

  /**
   * The checks of `read`, over any metadata row and any chunk rows. They pass exactly when the
   * rows record some value, and then the result is that value.
   */
  method ReadBytes(meta: Option<Meta>, chunks: seq<Chunk>) returns (r: Result<Option<seq<byte>>, ReadError>)
    ensures forall value :: r == Ok(value) <==> Records(meta, chunks, value)
  {
    if meta.None? {
      return Err(MissingMetadata);
    }
    var count := StoredInteger(meta.value.chunkCount);
    if count.None? {
      return Err(InvalidInteger);
    }
    var length := StoredInteger(meta.value.byteLength);
    if meta.value.byteLength != Null && length.None? {
      return Err(InvalidInteger);
    }
    if count.value != (if length.None? then 0 else ChunkCount(length.value)) || length == Some(0) {
      return Err(InvalidSize);
    }
    if |chunks| != count.value {
      return Err(MissingOrExtra);
    }
    if length.None? {
      return Ok(None);
    }
    var filled := FillBytes(chunks, length.value);
    match filled {
      case Err(e) =>
        NotASplit(chunks, length.value);
        return Err(e);
      case Ok(bytes) =>
        SplitUnique(bytes, chunks);
        return Ok(Some(bytes));
    }
  }

  /** The rows of a key encode a text or its absence. */
  ghost predicate Encodes(codec: Codec, meta: Meta, chunks: seq<Chunk>, value: Option<string>) {
    match value
    case None => Records(Some(meta), chunks, None)
    case Some(text) => Records(Some(meta), chunks, Some(codec.encode(text)))
  }

  type Key = (int, Field)

  /** INSERT into rows kept in key order. */
  function InsertInOrder(rows: seq<Chunk>, index: nat, data: seq<byte>): seq<Chunk> {
    if rows == [] || !rows[|rows| - 1].index.Num? || rows[|rows| - 1].index.n <= index then rows + [Chunk(Num(index), Blob(data))]
    else InsertInOrder(rows[..|rows| - 1], index, data) + [rows[|rows| - 1]]
  }

  function RowsOf(chunks: map<Key, seq<Chunk>>, key: Key): seq<Chunk> {
    if key in chunks then chunks[key] else []
  }

  /** The loop of `write` inserts the next chunk behind the ones it inserted before. */
  lemma InsertNext(bytes: seq<byte>, index: nat)
    requires index < ChunkCount(|bytes|)
    ensures InsertInOrder(Split(bytes)[..index], index, Piece(bytes, index)) == Split(bytes)[..index + 1]
  {
  }

  class Payloads {
    const codec: Codec
    var metas: map<Key, Meta>
    /** The chunk rows of a key, in primary-key order; a key without rows is absent. */
    var chunks: map<Key, seq<Chunk>>
    /** What every key holds, as the callers see it. */
    ghost var content: map<Key, Option<string>>

    ghost predicate Valid()
      reads this
    {
      && codec.Lawful()
      && metas.Keys == content.Keys && chunks.Keys <= content.Keys
      && forall key | key in content :: Encodes(codec, metas[key], RowsOf(chunks, key), content[key])
    }

    constructor (codec: Codec)
      requires codec.Lawful()
      ensures Valid() && content == map[] && this.codec == codec
    {
      this.codec := codec;
      metas, chunks, content := map[], map[], map[];
    }

    /** Any length of text replaces any other; every other key keeps its rows. */
    method Write(rowid: int, field: Field, value: Option<string>)
      requires Valid()
      requires value.Some? ==> |codec.encode(value.value)| <= MAX_SAFE_INTEGER
      modifies this
      ensures Valid() && content == old(content)[(rowid, field) := value]
      ensures forall key: Key | key != (rowid, field) ::
        (key in metas <==> key in old(metas)) && (key in metas ==> metas[key] == old(metas[key])) && RowsOf(chunks, key) == RowsOf(old(chunks), key)
    {
      var key := (rowid, field);
      var bytes := match value case None => [] case Some(text) => codec.encode(text);
      var count := if value.None? then 0 else ChunkCount(|bytes|);
      chunks := chunks - {key};
      metas := metas[key := Meta(Num(count), if value.None? then Null else Num(|bytes|))];
      content := content[key := value];
      if value.None? {
        return;
      }
      WriteChunks(key, bytes);
    }

    /** The loop of `write`, over a key without rows. */
    method WriteChunks(key: Key, bytes: seq<byte>)
      requires key !in chunks && chunks.Keys <= content.Keys && key in content
      modifies this`chunks
      ensures chunks.Keys <= content.Keys && RowsOf(chunks, key) == Split(bytes)
      ensures forall other: Key | other != key :: RowsOf(chunks, other) == RowsOf(old(chunks), other)
    {
      var index := 0;
      while index < ChunkCount(|bytes|)
        invariant 0 <= index <= ChunkCount(|bytes|)
        invariant chunks.Keys <= content.Keys
        invariant RowsOf(chunks, key) == Split(bytes)[..index]
        invariant forall other: Key | other != key :: RowsOf(chunks, other) == RowsOf(old(chunks), other)
      {
        InsertNext(bytes, index);
        chunks := chunks[key := InsertInOrder(RowsOf(chunks, key), index, Piece(bytes, index))];
        index := index + 1;
      }
      assert Split(bytes)[..index] == Split(bytes);
    }

    method Read(rowid: int, field: Field) returns (r: Result<Option<string>, ReadError>)
      requires Valid()
      ensures (rowid, field) in content ==> r == Ok(content[(rowid, field)])
      ensures (rowid, field) !in content ==> r == Err(MissingMetadata)
    {
      var key := (rowid, field);
      if key !in metas {
        return Err(MissingMetadata);
      }
      var stored := ReadBytes(Some(metas[key]), RowsOf(chunks, key));
      assert stored == Ok(if content[key].None? then None else Some(codec.encode(content[key].value)));
      match stored {
        case Err(e) => return Err(e);
        case Ok(None) => return Ok(None);
        case Ok(Some(bytes)) =>
          var text := codec.decode(bytes);
          return if text.None? then Err(InvalidText) else Ok(text);
      }
    }

    /** The trigger that follows the deletion of a call. */
    method DeleteCall(rowid: int)
      requires Valid()
      modifies this
      ensures Valid()
      ensures content == map key | key in old(content) && key.0 != rowid :: old(content)[key]
    {
      chunks := map key | key in chunks && key.0 != rowid :: chunks[key];
      metas := map key | key in metas && key.0 != rowid :: metas[key];
      content := map key | key in content && key.0 != rowid :: content[key];
    }
  }

}
