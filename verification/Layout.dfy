/** Chunk arithmetic of one encrypted file. */
module Layout {
  import opened Common
  import opened Format

  /** One full ciphertext record: a chunk and its tag. */
  const RECORD_SIZE: nat := CHUNK_SIZE + TAG_SIZE

  // Products and quotients spell the two sizes out, so that they stay linear for the verifier.

  function ChunkStart(i: nat): nat {
    i * 4_194_304
  }

  function RecordStart(i: nat): nat {
    i * 4_194_320
  }

  /** Chunk that holds plaintext byte p. */
  function ChunkOf(p: nat): nat {
    p / 4_194_304
  }

  /** Record that holds ciphertext byte p. */
  function RecordOf(p: nat): nat {
    p / 4_194_320
  }

  /** Chunk count and ciphertext size of a file, or None on u64 overflow. */
  function EncryptedFileSize(size: u64): Option<(u64, u64)> {
    if size == 0 then Some((0, 0))
    else match CheckedAdd(size, CHUNK_SIZE - 1)
      case None => None
      case Some(padded) =>
        var chunks: u64 := ChunkOf(padded);
        match CheckedMul(chunks, TAG_SIZE)
        case None => None
        case Some(overhead) =>
          match CheckedAdd(size, overhead)
          case None => None
          case Some(encrypted) => Some((chunks, encrypted))
  }

  /** Number of chunks that hold at least one of `size` bytes. */
  ghost predicate ChunksFor(size: nat, count: nat) {
    && (forall i: nat :: i < count <==> ChunkStart(i) < size)
  }

  /** Plaintext length of chunk i. */
  function PlainLen(size: nat, i: nat): nat
    requires ChunkStart(i) <= size
  {
    Min(CHUNK_SIZE, size - ChunkStart(i))
  }

  /** The count is exact, the size is plaintext plus one tag a chunk, and only overflow is refused. */
  lemma EncryptedFileSizeExact(size: u64)
    ensures EncryptedFileSize(size).Some? ==>
              && ChunksFor(size, EncryptedFileSize(size).value.0)
              && EncryptedFileSize(size).value.1 == size + TAG_SIZE * EncryptedFileSize(size).value.0
    ensures EncryptedFileSize(size).Some? <==>
              && size + CHUNK_SIZE - 1 < U64_LIMIT
              && size + TAG_SIZE * (ChunkOf(size + CHUNK_SIZE - 1)) < U64_LIMIT
  {
  }

  /** A file entry whose chunk fields agree with its size. */
  predicate SizedFile(e: Entry) {
    e.kind == File && EncryptedFileSize(e.size) == Some((e.chunkCount, e.encryptedSize))
  }

  /** No subtraction underflows and no record leaves the file's extent. */
  lemma RecordInExtent(e: Entry, i: nat)
    requires SizedFile(e) && i < e.chunkCount
    ensures ChunkStart(i) < e.size
    ensures 0 < PlainLen(e.size, i) <= CHUNK_SIZE
    ensures RecordStart(i) + PlainLen(e.size, i) + TAG_SIZE <= e.encryptedSize
    ensures i + 1 < e.chunkCount ==> PlainLen(e.size, i) == CHUNK_SIZE
    ensures i + 1 == e.chunkCount ==> RecordStart(i) + PlainLen(e.size, i) + TAG_SIZE == e.encryptedSize
  {
    EncryptedFileSizeExact(e.size);
    if i + 1 < e.chunkCount { assert ChunkStart(i + 1) < e.size; }
    if i + 1 == e.chunkCount { assert !(ChunkStart(i + 1) < e.size); }
    assert ChunkStart(e.chunkCount - 1) < e.size;
  }

  /** Does ciphertext byte `p` of the file belong to record `i`? */
  predicate InRecord(e: Entry, i: nat, p: int)
    requires ChunkStart(i) <= e.size
  {
    RecordStart(i) <= p < RecordStart(i) + PlainLen(e.size, i) + TAG_SIZE
  }

  /** The records of a file tile its extent: each byte is in exactly the record `RecordOf(p)`. */
  lemma RecordsTileExtent(e: Entry, p: nat)
    requires SizedFile(e) && p < e.encryptedSize
    ensures RecordOf(p) < e.chunkCount && ChunkStart(RecordOf(p)) <= e.size && InRecord(e, RecordOf(p), p)
    ensures forall i: nat :: i < e.chunkCount && ChunkStart(i) <= e.size && InRecord(e, i, p) ==> i == RecordOf(p)
  {
    var i := RecordOf(p);
    assert RecordStart(i) <= p < RecordStart(i) + RECORD_SIZE;
    LastRecord(e);
    assert i < e.chunkCount;
    RecordInExtent(e, i);
    forall k: nat | k < e.chunkCount && ChunkStart(k) <= e.size && InRecord(e, k, p) ensures k == i {
      assert RecordStart(k) <= p < RecordStart(k) + RECORD_SIZE;
    }
  }

  lemma LastRecord(e: Entry)
    requires SizedFile(e)
    ensures e.encryptedSize <= RecordStart(e.chunkCount)
  {
    EncryptedFileSizeExact(e.size);
    assert !(ChunkStart(e.chunkCount) < e.size);
  }
}
