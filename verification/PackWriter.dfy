/** `encrypt_source_file` and the writing half of `pack_inner`. */
module PackWriter {
  import opened Common
  import opened Sequences
  import opened Format
  import opened Layout
  import opened Index
  import opened IndexProperties
  import opened Scan
  import opened Binding
  import opened PlatformIo
  import opened Pack
  import opened SourceFiles
  import opened Totals
  import opened EntryLists
  import opened Progress

  /** `data` is stored at `position`. */
  predicate HasAt(content: Bytes, position: nat, data: Bytes) {
    position + |data| <= |content| && content[position..position + |data|] == data
  }

  lemma SpliceHas(content: Bytes, position: nat, data: Bytes)
    requires position + |data| <= |content|
    ensures HasAt(Splice(content, position, data), position, data)
  {
    if data != [] {
      assert Splice(content, position, data)[position..position + |data|] == data;
    }
  }

  lemma SpliceKeeps(content: Bytes, position: nat, data: Bytes, other: nat, kept: Bytes)
    requires position + |data| <= |content| && HasAt(content, other, kept)
    requires other + |kept| <= position || position + |data| <= other
    ensures HasAt(Splice(content, position, data), other, kept)
  {
    assert Splice(content, position, data)[other..other + |kept|] == content[other..other + |kept|];
  }

  predicate InRange(q: int, lo: int, hi: int) {
    lo <= q < hi
  }

  /** Outside `[lo, hi)` both contents agree. */
  ghost predicate SameOutside(a: Bytes, b: Bytes, lo: int, hi: int) {
    |a| == |b| && forall q :: 0 <= q < |a| && !InRange(q, lo, hi) ==> a[q] == b[q]
  }

  lemma SpliceSameOutside(a: Bytes, b: Bytes, lo: int, hi: int, position: nat, data: Bytes)
    requires SameOutside(a, b, lo, hi) && lo <= position && position + |data| <= hi && position + |data| <= |b|
    ensures SameOutside(a, Splice(b, position, data), lo, hi)
  {
  }

  lemma SameOutsideKeeps(a: Bytes, b: Bytes, lo: int, hi: int, position: nat, data: Bytes)
    requires SameOutside(a, b, lo, hi) && HasAt(a, position, data)
    requires forall q :: InRange(q, position, position + |data|) ==> !InRange(q, lo, hi)
    ensures HasAt(b, position, data)
  {
    forall q | position <= q < position + |data| ensures b[q] == a[q] {
      assert InRange(q, position, position + |data|) && !InRange(q, lo, hi);
    }
    assert b[position..position + |data|] == a[position..position + |data|];
  }

  /** A file entry that the output has room for, with its plaintext. */
  ghost predicate Writable(dataStart: nat, e: Entry, content: Content, size: nat) {
    SizedFile(e) && |content| == e.size && dataStart + e.dataOffset + e.encryptedSize <= size < U64_LIMIT
  }

  function RecordOfChunk(h: Header, dek: Bytes, e: Entry, content: Content, i: u64): Bytes
    requires ChunkStart(i) < |content|
  {
    SealChunk(h, dek, e, i, PlainChunk(content, i))
  }

  /** The records of the given chunks are in place. */
  ghost predicate ChunksWritten(out: Bytes, h: Header, dek: Bytes, dataStart: nat, e: Entry, content: Content,
                                todo: set<nat>) {
    forall i: u64 {:trigger ChunkStart(i)} :: i < e.chunkCount && i !in todo && ChunkStart(i) < |content| ==>
      HasAt(out, RecordPosition(dataStart, e, i), RecordOfChunk(h, dek, e, content, i))
  }

  lemma ChunksKept(out: Bytes, h: Header, dek: Bytes, dataStart: nat, e: Entry, content: Content, todo: set<nat>,
                   i: u64)
    requires Writable(dataStart, e, content, |out|) && i < e.chunkCount && ChunkStart(i) < |content|
    requires ChunksWritten(out, h, dek, dataStart, e, content, todo)
    ensures ChunksWritten(Splice(out, RecordPosition(dataStart, e, i), RecordOfChunk(h, dek, e, content, i)),
                          h, dek, dataStart, e, content, todo - {i})
  {
    RecordInExtent(e, i);
    var position, record := RecordPosition(dataStart, e, i), RecordOfChunk(h, dek, e, content, i);
    SpliceHas(out, position, record);
    forall k: u64 | k < e.chunkCount && k !in todo - {i} && ChunkStart(k) < |content|
      ensures HasAt(Splice(out, position, record), RecordPosition(dataStart, e, k), RecordOfChunk(h, dek, e, content, k))
    {
      if k != i {
        SpliceKeeps(out, position, record, RecordPosition(dataStart, e, k), RecordOfChunk(h, dek, e, content, k));
      }
    }
  }

  function Indexes(n: nat): (r: set<nat>)
    ensures forall i: nat :: i in r <==> i < n
  {
    if n == 0 then {} else Indexes(n - 1) + {n - 1}
  }

  /** Seals a plaintext for chunk `i` and stores the record; only bytes of the file's extent change. */
  method StoreChunk(output: DiskFile, dataStart: u64, e: Entry, ghost content: Content, h: Header, dek: Bytes, i: u64,
                    plain: Bytes, ghost todo: set<nat>)
    returns (r: Result<()>)
    requires Writable(dataStart, e, content, |output.content|) && i < e.chunkCount
    requires ChunkStart(i) < e.size && |plain| == PlainLen(e.size, i)
    modifies output
    ensures SameOutside(old(output.content), output.content, dataStart + e.dataOffset, dataStart + e.dataOffset + e.encryptedSize)
    ensures (&& r.Ok? && plain == PlainChunk(content, i)
             && ChunksWritten(old(output.content), h, dek, dataStart, e, content, todo)) ==>
              ChunksWritten(output.content, h, dek, dataStart, e, content, todo - {i})
    ensures output.quiet ==> r.Ok?
  {
    RecordInExtent(e, i);
    var record := SealChunk(h, dek, e, i, plain);
    var position := RecordPosition(dataStart, e, i);
    ghost var before := output.content;
    if plain == PlainChunk(content, i) && ChunksWritten(before, h, dek, dataStart, e, content, todo) {
      ChunksKept(before, h, dek, dataStart, e, content, todo, i);
    }
    r := output.WriteAllAt(record, position);
    ghost var n :| StoredUpTo(before, position, record, n, output.content);
    SpliceSameOutside(before, before, dataStart + e.dataOffset, dataStart + e.dataOffset + e.encryptedSize, position, record[..n]);
  }

  /** As long as nobody wrote the source since the scan, the records of the finished chunks are those of the scan. */
  ghost predicate Stored(out: Bytes, source: SourceFile, h: Header, dek: Bytes, dataStart: nat, e: Entry, todo: set<nat>)
    reads source, source.file
  {
    source.Valid() && (source.changes == 0 ==> ChunksWritten(out, h, dek, dataStart, e, source.scanned, todo))
  }

  /** One chunk, from the source file into the output. */
  method EncryptChunk(output: DiskFile, source: SourceFile, dataStart: u64, e: Entry, h: Header, dek: Bytes, i: u64,
                      ghost todo: set<nat>)
    returns (r: Result<()>)
    requires output != source.file && Writable(dataStart, e, source.scanned, |output.content|) && i < e.chunkCount
    requires Stored(output.content, source, h, dek, dataStart, e, todo)
    modifies output, source, source.file
    ensures SameOutside(old(output.content), output.content, dataStart + e.dataOffset, dataStart + e.dataOffset + e.encryptedSize)
    ensures source.Valid() && source.changes >= old(source.changes)
    ensures r.Ok? ==> Stored(output.content, source, h, dek, dataStart, e, todo - {i})
    ensures output.quiet && source.file.quiet && old(source.changes) == 0 ==> r.Ok? && source.changes == 0
  {
    RecordInExtent(e, i);
    var cancelled := Disturbed(output.quiet);
    if cancelled {
      return Err(Cancelled);
    }
    source.Meanwhile();
    var plain := source.ReadChunk(i);
    if plain.Err? {
      return Err(plain.error);
    }
    r := StoreChunk(output, dataStart, e, source.scanned, h, dek, i, plain.value, todo);
  }

  /** The chunks of `todo` are outstanding. */
  ghost predicate Left(e: Entry, rest: seq<Task>, todo: set<nat>) {
    && (forall t :: t in rest ==> t.entry == e && t.chunkIndex < e.chunkCount)
    && (forall i: u64 :: i in todo ==> Task(e, i) in rest)
    && (forall i: nat :: i in todo ==> i < e.chunkCount)
  }

  lemma LeftFirst(e: Entry)
    requires e.kind == File
    ensures Left(e, FileTasks(e), Indexes(e.chunkCount))
  {
    ChunkTasksExact(e, e.chunkCount);
    forall i: u64 | i in Indexes(e.chunkCount) ensures Task(e, i) in FileTasks(e) {
      assert FileTasks(e)[i] == Task(e, i);
    }
  }

  lemma LeftNext(e: Entry, rest: seq<Task>, todo: set<nat>, k: nat)
    requires Left(e, rest, todo) && k < |rest|
    ensures Left(e, Without(rest, k), todo - {rest[k].chunkIndex})
  {
  }

  /** The invariant of the chunk loop. */
  ghost predicate Encrypting(output: DiskFile, source: SourceFile, tracker: ProgressTracker, h: Header, dek: Bytes,
                             dataStart: nat, e: Entry, rest: seq<Task>, todo: set<nat>, work: multiset<u64>)
    reads output, source, source.file, tracker
  {
    && Stored(output.content, source, h, dek, dataStart, e, todo)
    && Left(e, rest, todo) && Underway(tracker, rest, work)
  }

  /** Encrypts and reports one outstanding chunk. */
  method EncryptTask(output: DiskFile, source: SourceFile, tracker: ProgressTracker, dataStart: u64, e: Entry, h: Header,
                     dek: Bytes, rest: seq<Task>, k: nat, ghost todo: set<nat>, ghost work: multiset<u64>)
    returns (r: Result<()>)
    requires output != source.file && Writable(dataStart, e, source.scanned, |output.content|) && k < |rest|
    requires Encrypting(output, source, tracker, h, dek, dataStart, e, rest, todo, work)
    modifies output, source, source.file, tracker
    ensures SameOutside(old(output.content), output.content, dataStart + e.dataOffset, dataStart + e.dataOffset + e.encryptedSize)
    ensures r.Ok? ==>
      Encrypting(output, source, tracker, h, dek, dataStart, e, Without(rest, k), todo - {rest[k].chunkIndex}, work)
    ensures r.Err? ==> Underway(tracker, rest, work)
    ensures output.quiet && source.file.quiet && old(source.changes) == 0 ==> r.Ok? && source.changes == 0
  {
    var t := rest[k];
    assert t in rest;
    r := EncryptChunk(output, source, dataStart, e, h, dek, t.chunkIndex, todo);
    if r.Ok? {
      LeftNext(e, rest, todo, k);
      CompleteTask(tracker, rest, work, k, TaskAmount(t));
    }
  }

  lemma SameOutsideTwice(a: Bytes, b: Bytes, c: Bytes, lo: int, hi: int)
    requires SameOutside(a, b, lo, hi) && SameOutside(b, c, lo, hi)
    ensures SameOutside(a, c, lo, hi)
  {
  }

  /** The chunk loop of one opened source. */
  method EncryptChunks(output: DiskFile, source: SourceFile, tracker: ProgressTracker, dataStart: u64, e: Entry, h: Header,
                       dek: Bytes)
    returns (r: Result<()>)
    requires output != source.file && Writable(dataStart, e, source.scanned, |output.content|)
    requires source.Valid() && tracker.Valid()
    modifies output, source, source.file, tracker
    ensures SameOutside(old(output.content), output.content, dataStart + e.dataOffset, dataStart + e.dataOffset + e.encryptedSize)
    ensures r.Ok? ==> Stored(output.content, source, h, dek, dataStart, e, {})
    ensures Advanced(tracker, old(multiset(tracker.amounts)), e, r.Ok?)
    ensures output.quiet && source.file.quiet && old(source.changes) == 0 ==> r.Ok? && source.changes == 0
  {
    ghost var work := multiset(tracker.amounts) + multiset(Amounts(FileTasks(e)));
    ghost var todo := Indexes(e.chunkCount);
    LeftFirst(e);
    var rest := FileTasks(e);
    while rest != []
      invariant Encrypting(output, source, tracker, h, dek, dataStart, e, rest, todo, work)
      invariant SameOutside(old(output.content), output.content, dataStart + e.dataOffset, dataStart + e.dataOffset + e.encryptedSize)
      invariant output.quiet && source.file.quiet && old(source.changes) == 0 ==> source.changes == 0
      decreases |rest|
    {
      var n: int := *;
      var k := if 0 <= n < |rest| then n else 0;
      ghost var before := output.content;
      r := EncryptTask(output, source, tracker, dataStart, e, h, dek, rest, k, todo, work);
      SameOutsideTwice(old(output.content), before, output.content, dataStart + e.dataOffset, dataStart + e.dataOffset + e.encryptedSize);
      if r.Err? {
        return;
      }
      todo := todo - {rest[k].chunkIndex};
      rest := Without(rest, k);
    }
    assert todo == {};
    r := Ok(());
  }

  /** The tracker counted some chunks of the file, or all of them. */
  ghost predicate Advanced(tracker: ProgressTracker, before: multiset<u64>, e: Entry, all: bool)
    reads tracker
  {
    && tracker.Valid()
    && multiset(tracker.amounts) <= before + multiset(Amounts(FileTasks(e)))
    && (all ==> multiset(tracker.amounts) == before + multiset(Amounts(FileTasks(e))))
  }

  /**
   One call on its own: encrypts one file into its extent, chunks in an arbitrary order.  Other programs may write the source at any time: if
   the file still has its fingerprint at the end, every record holds the scanned bytes.  A cancellation or an I/O error
   may stop it, and no byte outside the extent changes either way.
   */
  method EncryptSourceFile(output: DiskFile, dataStart: u64, e: Entry, snapshot: Content, h: Header, dek: Bytes,
                           tracker: ProgressTracker)
    returns (r: Result<()>)
    requires Writable(dataStart, e, snapshot, |output.content|) && tracker.Valid()
    modifies output, tracker
    ensures SameOutside(old(output.content), output.content, dataStart + e.dataOffset, dataStart + e.dataOffset + e.encryptedSize)
    ensures r.Ok? ==> ChunksWritten(output.content, h, dek, dataStart, e, snapshot, {})
    ensures Advanced(tracker, old(multiset(tracker.amounts)), e, r.Ok?)
    ensures output.quiet ==> r.Ok?
  {
    var source := new SourceFile(snapshot, output.quiet);
    r := StartFile(source);
    if r.Err? {
      return;
    }
    r := EncryptChunks(output, source, tracker, dataStart, e, h, dek);
    if r.Err? {
      return;
    }
    r := FinishFile(source);
  }

  /** Opens a scanned file and compares its fingerprint. */
  method StartFile(source: SourceFile) returns (r: Result<()>)
    requires source.Valid()
    modifies source, source.file
    ensures source.Valid() && source.changes >= old(source.changes)
    ensures source.file.quiet && old(source.changes) == 0 ==> r.Ok? && source.changes == 0
  {
    source.Meanwhile();
    var fail := Disturbed(source.file.quiet);
    if fail {
      return Err(Io);
    }
    r := source.EnsureUnchanged();
  }

  /** Compares the fingerprint again after the last chunk. */
  method FinishFile(source: SourceFile) returns (r: Result<()>)
    requires source.Valid()
    modifies source, source.file
    ensures source.Valid() && source.changes >= old(source.changes)
    ensures r.Ok? ==> source.changes == 0
    ensures source.file.quiet && old(source.changes) == 0 ==> r.Ok? && source.changes == 0
  {
    source.Meanwhile();
    r := source.EnsureUnchanged();
  }
}
