/** A range read of a mounted file is the same range of the file that an extraction writes. */
module ReadAgrees {
  import opened Common
  import opened Format
  import opened Layout
  import opened Container
  import opened FileOutput
  import opened ReadFs

  /** Chunks of the lengths that belong to a file of this size. */
  ghost predicate Sized(chunk: nat -> Bytes, size: nat, count: nat) {
    forall i: nat :: i < count ==> SizedChunk(chunk, size, i)
  }

  predicate SizedChunk(chunk: nat -> Bytes, size: nat, i: nat) {
    ChunkStart(i) < size && |chunk(i)| == PlainLen(size, i)
  }

  /** The first n chunks are the plaintext up to the start of chunk n. */
  lemma {:induction false} JoinedLength(chunk: nat -> Bytes, size: nat, count: nat, n: nat)
    requires Sized(chunk, size, count) && n <= count
    ensures |Joined(chunk, n)| == Min(ChunkStart(n), size)
  {
    if n > 0 {
      JoinedLength(chunk, size, count, n - 1);
      assert SizedChunk(chunk, size, n - 1);
    }
  }

  /** Byte by byte. */
  lemma {:induction false} JoinedByte(chunk: nat -> Bytes, size: nat, count: nat, n: nat, p: nat)
    requires Sized(chunk, size, count) && n <= count && p < |Joined(chunk, n)|
    ensures Joined(chunk, n)[p] == PlainByte(chunk, p)
  {
    JoinedLength(chunk, size, count, n - 1);
    assert SizedChunk(chunk, size, n - 1);
    if p < |Joined(chunk, n - 1)| {
      JoinedByte(chunk, size, count, n - 1, p);
    } else {
      InOneChunk(n - 1, |chunk(n - 1)|, p);
    }
  }

  lemma JoinedSlice(chunk: nat -> Bytes, size: nat, count: nat, from: nat, to: nat)
    requires Sized(chunk, size, count) && from <= to <= |Joined(chunk, count)|
    ensures PlainSlice(chunk, from, to) == Joined(chunk, count)[from..to]
  {
    forall k | 0 <= k < to - from ensures PlainByte(chunk, from + k) == Joined(chunk, count)[from..to][k] {
      JoinedByte(chunk, size, count, count, from + k);
    }
  }

  /** What `ReadOnlyV2Fs.Read` returns is a part of what `ExtractV2` writes. */
  lemma ReadsWhatIsExtracted(o: Opened, e: Entry, from: nat, to: nat)
    requires FitsFile(o, e) && FileOpens(o, e, e.chunkCount) && from <= to <= e.size
    ensures |FileContent(o, e, e.chunkCount)| == e.size
    ensures Slice(o, e, from, to) == FileContent(o, e, e.chunkCount)[from..to]
  {
    forall i: nat | i < e.chunkCount ensures SizedChunk(ChunkBytes(o, e), e.size, i) {
      OpenChunkSized(o, e, i);
    }
    JoinedLength(ChunkBytes(o, e), e.size, e.chunkCount, e.chunkCount);
    EncryptedFileSizeExact(e.size);
    assert !(ChunkStart(e.chunkCount) < e.size);
    JoinedSlice(ChunkBytes(o, e), e.size, e.chunkCount, from, to);
  }

  lemma OpenChunkSized(o: Opened, e: Entry, i: u64)
    requires FitsFile(o, e) && FileOpens(o, e, e.chunkCount) && i < e.chunkCount
    ensures SizedChunk(ChunkBytes(o, e), e.size, i)
  {
    DecryptChunkIff(o, e, i, DecryptChunk(o, e, i).value);
  }
}
