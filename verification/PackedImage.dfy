/** Reading a packed container back: it opens, every chunk opens, and files come out as they went in. */
module PackedImage {
  import opened Common
  import opened Sequences
  import opened Format
  import opened Layout
  import opened Index
  import opened IndexProperties
  import opened Scan
  import opened Binding
  import opened KeySlots
  import opened Container
  import opened Pack
  import opened FileOutput

  ghost predicate ByteAt(image: Bytes, at: nat, bytes: Bytes, k: int) {
    0 <= k < |bytes| && at + k < |image| && image[at + k] == bytes[k]
  }

  /** One byte of a job in the container. */
  lemma ImageByte(p: Plan, j: Job, image: Bytes, k: nat)
    requires PlanOk(p) && ImageOf(p, image) && JobOk(p, j) && k < |JobBytes(p, j)|
    ensures ByteAt(image, JobStart(p, j), JobBytes(p, j), k)
  {
    InsideJob(p, j, k);
    JobsDisjoint(p, j, j, JobStart(p, j) + k);
  }

  lemma InsideJob(p: Plan, j: Job, k: nat)
    requires JobOk(p, j) && k < |JobBytes(p, j)|
    ensures InJob(p, j, JobStart(p, j) + k) && JobByte(p, j, JobStart(p, j) + k) == JobBytes(p, j)[k]
  {
  }

  lemma SliceOf(image: Bytes, at: nat, bytes: Bytes)
    requires forall k :: 0 <= k < |bytes| ==> ByteAt(image, at, bytes, k)
    requires bytes != []
    ensures at + |bytes| <= |image| && image[at..at + |bytes|] == bytes
  {
    assert ByteAt(image, at, bytes, |bytes| - 1);
    forall k | 0 <= k < |bytes| ensures image[at..at + |bytes|][k] == bytes[k] {
      assert ByteAt(image, at, bytes, k);
    }
  }

  /** Every job's bytes are in the container at the job's place. */
  lemma ImageHasJob(p: Plan, j: Job, at: nat, bytes: Bytes)
    requires PlanOk(p) && JobOk(p, j) && at == JobStart(p, j) && bytes == JobBytes(p, j) && bytes != []
    ensures at + |bytes| <= |Image(p)| && Image(p)[at..at + |bytes|] == bytes
  {
    ImageIsImage(p);
    forall k | 0 <= k < |bytes| ensures ByteAt(Image(p), at, bytes, k) {
      ImageByte(p, j, Image(p), k);
    }
    SliceOf(Image(p), at, bytes);
  }

  /** The plan behind an openable container: a layout and a header that the password unlocks to the plan's key. */
  ghost predicate Packed(p: Plan, password: string) {
    && PlanOk(p) && Intact(p.header, p.dek) && Opens(p.header, password, p.dek)
  }

  lemma PackedHeader(p: Plan, password: string)
    requires Packed(p, password)
    ensures ReadHeaderOf(Image(p)) == Ok(p.header)
    ensures Unlock(p.header, password) == Ok(Unlocked(p.dek))
  {
    HeaderReadBack(p);
    UnlockIff(p.header, p.dek, password);
  }

  lemma HeaderReadBack(p: Plan)
    requires PlanOk(p) && Intact(p.header, p.dek)
    ensures ReadHeaderOf(Image(p)) == Ok(p.header)
  {
    ImageHasJob(p, HeaderJob, 0, EncodeHeader(p.header));
    ImageIsImage(p);
    HeaderReads(Image(p), p.header);
  }

  lemma PackedEntries(p: Plan)
    requires PlanOk(p)
    ensures HEADER_SIZE + p.header.indexSize <= |Image(p)|
    ensures ReadEntries(Image(p), p.header, p.dek) == Ok(p.entries)
  {
    ImageHasJob(p, IndexJob, HEADER_SIZE, SealedIndex(p));
    DecryptIff(IndexKey(p.dek, p.header.containerId), p.header.indexNonce, IndexAad(p.header), SealedIndex(p), EncodeIndex(p.entries, p.encodedLen));
    DecodeEncodeIndex(p.entries, p.encodedLen);
  }

  function OpenedPlan(p: Plan, image: Bytes): Opened
    requires DataStart(p) < U64_LIMIT
  {
    Opened(image, p.header, Validated(p.entries), p.dek, DataStart(p))
  }

  /** A packed container opens with its master password and shows exactly the packed entries. */
  lemma PackedOpens(p: Plan, password: string)
    requires Packed(p, password)
    ensures OpenSpec(Image(p), password) == Ok(OpenedPlan(p, Image(p)))
    ensures OpenedFrom(OpenedPlan(p, Image(p)), p.entries)
  {
    PackedHeader(p, password);
    PackedEntries(p);
  }

  /** The record of a chunk, where the reader looks for it. */
  lemma PackedRecord(p: Plan, e: Entry, i: u64)
    requires PlanOk(p) && e in p.entries && e.kind == File && i < e.chunkCount
    ensures JobOk(p, ChunkJob(e, i)) && |SealedRecord(p, e, i)| == PlainLen(e.size, i) + TAG_SIZE
    ensures var at := RecordPosition(DataStart(p), e, i); var record := SealedRecord(p, e, i);
      at + |record| <= |Image(p)| && Image(p)[at..at + |record|] == record
  {
    ListedJob(p, e, i);
    ImageHasJob(p, ChunkJob(e, i), RecordPosition(DataStart(p), e, i), SealedRecord(p, e, i));
  }

  lemma SealedAs(p: Plan, e: Entry, i: u64)
    requires JobOk(p, ChunkJob(e, i))
    ensures SealedRecord(p, e, i) ==
            Encrypt(FileKey(p.dek, p.header.containerId, e.fileId), ChunkNonce(i),
                    ChunkAad(p.header, e, i, PlainLen(e.size, i)), PlainChunk(p.contents[e.id], i))
  {
    assert |PlainChunk(p.contents[e.id], i)| == PlainLen(e.size, i);
  }

  /** Every chunk of every packed file decrypts to that chunk of the source. */
  lemma PackedChunk(p: Plan, e: Entry, i: u64)
    requires PlanOk(p) && OpenedFrom(OpenedPlan(p, Image(p)), p.entries)
    requires e in p.entries && e.kind == File && i < e.chunkCount
    ensures e.id in p.contents && |p.contents[e.id]| == e.size && ChunkStart(i) < e.size
    ensures DecryptChunk(OpenedPlan(p, Image(p)), e, i) == Ok(PlainChunk(p.contents[e.id], i))
  {
    PackedRecord(p, e, i);
    SealedAs(p, e, i);
    var o, plain := OpenedPlan(p, Image(p)), PlainChunk(p.contents[e.id], i);
    ListedFits(o, p.entries, e);
    DecryptChunkIff(o, e, i, plain);
  }

  /** Verification of a packed container succeeds. */
  lemma PackedVerifies(p: Plan)
    requires PlanOk(p) && OpenedFrom(OpenedPlan(p, Image(p)), p.entries)
    ensures AllChunksOpen(OpenedPlan(p, Image(p)))
  {
    var m := ById(p.entries);
    AcceptedIsTree(p.header.entryCount, p.header.dataSize, p.entries);
    forall id | id in m && m[id].kind == File ensures FileOpens(OpenedPlan(p, Image(p)), m[id], m[id].chunkCount) {
      forall i: u64 | i < m[id].chunkCount ensures DecryptChunk(OpenedPlan(p, Image(p)), m[id], i).Ok? {
        PackedChunk(p, m[id], i);
      }
    }
  }

  lemma LiftSlice(s: seq<byte>, a: nat, b: nat, c: nat)
    requires a <= b <= c <= |s|
    ensures Lift(s[a..b]) + Lift(s[b..c]) == Lift(s[a..c])
  {
  }

  /** The pieces of a source file, joined. */
  lemma {:induction false} JoinedPieces(chunk: nat -> Bytes, content: Content, count: nat, n: nat)
    requires n <= count
    requires forall i: nat :: i < count ==> ChunkStart(i) < |content| && chunk(i) == PlainChunk(content, i)
    ensures Joined(chunk, n) == Lift(content[..Min(ChunkStart(n), |content|)])
  {
    if n > 0 {
      JoinedPieces(chunk, content, count, n - 1);
      assert ChunkStart(n - 1) < |content| && chunk(n - 1) == PlainChunk(content, n - 1);
      LiftSlice(content, 0, ChunkStart(n - 1), Min(ChunkStart(n), |content|));
    }
  }

  /** Every file comes out of the container exactly as it went in. */
  lemma PackedContent(p: Plan, e: Entry)
    requires PlanOk(p) && OpenedFrom(OpenedPlan(p, Image(p)), p.entries) && e in p.entries && e.kind == File
    ensures e.id in p.contents
    ensures FileContent(OpenedPlan(p, Image(p)), e, e.chunkCount) == Lift(p.contents[e.id])
  {
    var o, content := OpenedPlan(p, Image(p)), p.contents[e.id];
    forall i: nat | i < e.chunkCount ensures ChunkStart(i) < |content| && ChunkBytes(o, e)(i) == PlainChunk(content, i) {
      PackedChunk(p, e, i);
    }
    JoinedPieces(ChunkBytes(o, e), content, e.chunkCount, e.chunkCount);
    ListedFits(o, p.entries, e);
    LastChunk(e);
    assert content[..|content|] == content;
  }

  lemma LastChunk(e: Entry)
    requires SizedFile(e)
    ensures e.size <= ChunkStart(e.chunkCount)
  {
    EncryptedFileSizeExact(e.size);
    assert !(ChunkStart(e.chunkCount) < e.size);
  }
}
