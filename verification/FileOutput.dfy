/** The chunks of one file on their way out: ordered batches, written and counted one after the other. */
module FileOutput {
  import opened Common
  import opened Sequences
  import opened Format
  import opened Layout
  import opened Index
  import opened Container
  import opened PlatformIo
  import opened Progress
  import opened StagingFs
  import opened SafeFs
  import Verify

  // ---------- File contents ----------

  function Joined(chunk: nat -> Bytes, n: nat): Bytes {
    if n == 0 then [] else Joined(chunk, n - 1) + chunk(n - 1)
  }

  /** Plaintext of the first n chunks of a file. */
  function FileContent(o: Opened, e: Entry, n: nat): Bytes {
    Joined(ChunkBytes(o, e), n)
  }

  function Contents(o: Opened): u64 -> Bytes {
    id => if id in o.index.entries then FileContent(o, o.index.entries[id], o.index.entries[id].chunkCount) else []
  }

  /** The chunks from `start` on open, with these plaintexts. */
  ghost predicate Batch(o: Opened, e: Entry, start: u64, chunks: seq<Bytes>) {
    start + |chunks| <= e.chunkCount && forall k :: 0 <= k < |chunks| ==> ChunkIs(o, e, start + k, chunks[k])
  }

  ghost predicate ChunkIs(o: Opened, e: Entry, i: nat, plain: Bytes) {
    i < e.chunkCount && DecryptChunk(o, e, i) == Ok(plain)
  }

  /** Neither a missing parent nor a duplicate entry. */
  predicate NotAboutNames<T>(r: Result<T>) {
    r.Err? ==> r.error != ParentMissing && r.error != DuplicateEntry
  }

  lemma DecryptErrors(o: Opened, e: Entry, i: u64)
    ensures NotAboutNames(DecryptChunk(o, e, i))
  {
  }

  // ---------- Where the chunks come from, and the count of the finished ones ----------

  /** The container file, the progress of the phase, and the lengths of all its chunks in the order of the work. */
  datatype Supply = Supply(file: DiskFile, tracker: ProgressTracker, ghost all: seq<u64>)

  /** The first n chunks were counted, or at least some of the first ones. */
  ghost predicate Counting(s: Supply, o: Opened)
    reads s.file, s.tracker
  {
    s.file.content == o.file && |o.file| < U64_LIMIT && s.tracker.Valid() && s.tracker.amounts <= s.all
  }

  ghost predicate Counted(s: Supply, o: Opened, n: nat)
    reads s.file, s.tracker
  {
    Counting(s, o) && |s.tracker.amounts| == n
  }

  /** The chunks of the file are those from `at` on. */
  ghost predicate FileAt(all: seq<u64>, at: nat, e: Entry) {
    at + e.chunkCount <= |all| && forall i: u64 :: i < e.chunkCount ==> all[at + i] == TaskAmount(Task(e, i))
  }

  /** The pieces are counted from `n` on. */
  ghost predicate PiecesAt(all: seq<u64>, n: nat, pieces: seq<Bytes>) {
    n + |pieces| <= |all| && forall k :: 0 <= k < |pieces| ==> |pieces[k]| == all[n + k]
  }

  /** A chunk that opens has the length of its place. */
  lemma ChunkLength(o: Opened, e: Entry, i: u64)
    requires DecryptChunk(o, e, i).Ok?
    ensures |DecryptChunk(o, e, i).value| == TaskAmount(Task(e, i))
  {
  }

  lemma BatchPieces(o: Opened, e: Entry, start: u64, chunks: seq<Bytes>, all: seq<u64>, at: nat)
    requires Batch(o, e, start, chunks) && FileAt(all, at, e)
    ensures PiecesAt(all, at + start, chunks)
  {
    forall k | 0 <= k < |chunks| ensures |chunks[k]| == all[at + start + k] {
      assert ChunkIs(o, e, start + k, chunks[k]);
      ChunkLength(o, e, start + k);
    }
  }

  /** One more chunk is finished. */
  method CountPiece(s: Supply, ghost o: Opened, ghost n: nat, length: u64)
    requires Counted(s, o, n) && n < |s.all| && length == s.all[n]
    modifies s.tracker
    ensures Counted(s, o, n + 1)
  {
    ghost var before := s.tracker.amounts;
    assert before == s.all[..n] && s.all[..n + 1] == before + [length];
    var _ := s.tracker.Advance(length);
  }

  // ---------- Reading a batch ----------

  lemma BatchMore(o: Opened, e: Entry, start: u64, chunks: seq<Bytes>, chunk: Bytes)
    requires Batch(o, e, start, chunks) && start + |chunks| < e.chunkCount
    requires ChunkIs(o, e, start + |chunks|, chunk)
    ensures Batch(o, e, start, chunks + [chunk])
  {
    var more := chunks + [chunk];
    forall k | 0 <= k < |more| ensures ChunkIs(o, e, start + k, more[k]) {
      if k < |chunks| { assert ChunkIs(o, e, start + k, chunks[k]); }
    }
  }

  /** Decrypts one batch in parallel; the results come back in chunk order. */
  method ReadBatch(s: Supply, o: Opened, e: Entry, start: u64, end: u64) returns (r: Result<seq<Bytes>>)
    requires start <= end <= e.chunkCount && Counting(s, o)
    ensures r.Ok? ==> |r.value| == end - start && Batch(o, e, start, r.value)
    ensures r.Err? && FileOpens(o, e, e.chunkCount) ==> !s.file.quiet && (r == Err(Cancelled) || r == Err(Io))
    ensures NotAboutNames(r)
  {
    var chunks: seq<Bytes> := [];
    for i := start to end
      invariant |chunks| == i - start && Batch(o, e, start, chunks)
    {
      var cancel := Disturbed(s.file.quiet);
      if cancel {
        return Err(Cancelled);
      }
      var chunk := Verify.ReadChunk(s.file, o, e, i);
      if chunk.Err? {
        DecryptErrors(o, e, i);
        return Err(chunk.error);
      }
      BatchMore(o, e, start, chunks, chunk.value);
      chunks := chunks + [chunk.value];
    }
    r := Ok(chunks);
  }

  // ---------- Writing a batch ----------

  /** The private tree while one more file is being written. */
  ghost predicate Half(names: map<string, FsTree>, base: map<string, FsTree>, top: string, tree: FsTree, p: Path,
                       content: Bytes) {
    names == base[top := tree[p := FileNode("", content)]]
  }

  lemma HalfAppend(names: map<string, FsTree>, base: map<string, FsTree>, top: string, tree: FsTree, p: Path,
                   content: Bytes, data: Bytes)
    requires Half(names, base, top, tree, p, content)
    ensures top in names && p in names[top] && names[top][p].FileNode? && OnlyInside(base, names, top)
    ensures var f := names[top][p];
      Half(names[top := names[top][p := f.(content := f.content + data)]], base, top, tree, p, content + data)
  {
    assert tree[p := FileNode("", content)][p := FileNode("", content + data)] == tree[p := FileNode("", content + data)];
    assert base[top := names[top]][top := tree[p := FileNode("", content + data)]] == base[top := tree[p := FileNode("", content + data)]];
  }

  /** Writes one more piece of the file and counts it. */
  method WritePiece(s: Supply, pending: PendingFile, data: Bytes, ghost o: Opened, ghost n: nat,
                    ghost base: map<string, FsTree>, ghost tree: FsTree, ghost content: Bytes)
    returns (r: Result<()>)
    requires pending.parent.watched !in base && pending.parent.watched != pending.top && pending.writing
    requires Half(pending.parent.names, base, pending.top, tree, pending.TempPath(), content)
    requires Counted(s, o, n) && n < |s.all| && |data| == s.all[n]
    modifies pending.parent, s.tracker
    ensures r.Ok? ==> Half(pending.parent.names, base, pending.top, tree, pending.TempPath(), content + data)
    ensures OnlyInside(base, pending.parent.names, pending.top) && pending.parent.sightings == old(pending.parent.sightings)
    ensures Counting(s, o) && (r.Ok? ==> Counted(s, o, n + 1))
    ensures pending.parent.quiet ==> r.Ok?
    ensures r.Err? ==> r == Err(Io)
  {
    HalfAppend(pending.parent.names, base, pending.top, tree, pending.TempPath(), content, data);
    var written := pending.Write(data);
    OnlyInsideTwice(base, old(pending.parent.names), pending.parent.names, pending.top);
    if written.Err? {
      return Err(Io);
    }
    CountPiece(s, o, n, |data|);
    r := Ok(());
  }

  /** The file after each of the chunks. */
  ghost predicate Grows(contents: seq<Bytes>, chunks: seq<Bytes>) {
    |contents| == |chunks| + 1 && forall i :: 0 <= i < |chunks| ==> contents[i + 1] == contents[i] + chunks[i]
  }

  /** Writes the plaintexts of one batch in order. */
  method WriteBatch(s: Supply, pending: PendingFile, chunks: seq<Bytes>, ghost o: Opened, ghost n: nat,
                    ghost base: map<string, FsTree>, ghost tree: FsTree, ghost contents: seq<Bytes>)
    returns (r: Result<()>)
    requires Grows(contents, chunks) && Counted(s, o, n) && PiecesAt(s.all, n, chunks)
    requires pending.parent.watched !in base && pending.parent.watched != pending.top && pending.writing
    requires Half(pending.parent.names, base, pending.top, tree, pending.TempPath(), contents[0])
    modifies pending.parent, s.tracker
    ensures r.Ok? ==> Half(pending.parent.names, base, pending.top, tree, pending.TempPath(), contents[|chunks|])
    ensures OnlyInside(base, pending.parent.names, pending.top) && pending.parent.sightings == old(pending.parent.sightings)
    ensures Counting(s, o) && (r.Ok? ==> Counted(s, o, n + |chunks|))
    ensures pending.parent.quiet ==> r.Ok?
    ensures r.Err? ==> r == Err(Io)
  {
    HalfAppend(pending.parent.names, base, pending.top, tree, pending.TempPath(), contents[0], []);
    for i := 0 to |chunks|
      invariant Half(pending.parent.names, base, pending.top, tree, pending.TempPath(), contents[i])
      invariant OnlyInside(base, pending.parent.names, pending.top) && pending.parent.sightings == old(pending.parent.sightings)
      invariant Counted(s, o, n + i)
    {
      r := WritePiece(s, pending, chunks[i], o, n + i, base, tree, contents[i]);
      if r.Err? {
        return;
      }
    }
    r := Ok(());
  }

  lemma BatchContents(chunk: nat -> Bytes, start: nat, chunks: seq<Bytes>) returns (contents: seq<Bytes>)
    requires forall k :: 0 <= k < |chunks| ==> chunk(start + k) == chunks[k]
    ensures Grows(contents, chunks) && contents[0] == Joined(chunk, start) && contents[|chunks|] == Joined(chunk, start + |chunks|)
  {
    contents := seq(|chunks| + 1, k requires 0 <= k <= |chunks| => Joined(chunk, start + k));
    forall i | 0 <= i < |chunks| ensures contents[i + 1] == contents[i] + chunks[i] {
      assert Joined(chunk, start + i + 1) == Joined(chunk, start + i) + chunk(start + i);
    }
  }

  lemma BatchChunks(o: Opened, e: Entry, start: u64, chunks: seq<Bytes>)
    requires Batch(o, e, start, chunks)
    ensures forall k :: 0 <= k < |chunks| ==> ChunkAt(o, e, start + k) == chunks[k]
  {
    forall k | 0 <= k < |chunks| ensures ChunkAt(o, e, start + k) == chunks[k] {
      assert ChunkIs(o, e, start + k, chunks[k]);
    }
  }

  lemma BatchOpens(o: Opened, e: Entry, start: u64, chunks: seq<Bytes>)
    requires Batch(o, e, start, chunks) && FileOpens(o, e, start)
    ensures FileOpens(o, e, start + |chunks|)
  {
    forall i: u64 | start <= i < start + |chunks| ensures DecryptChunk(o, e, i).Ok? {
      assert ChunkIs(o, e, start + (i - start), chunks[i - start]);
    }
  }

  /** One batch extends the file by its chunks. */
  lemma BatchAdvances(o: Opened, e: Entry, start: u64, chunks: seq<Bytes>) returns (contents: seq<Bytes>)
    requires Batch(o, e, start, chunks) && FileOpens(o, e, start)
    ensures Grows(contents, chunks) && contents[0] == FileContent(o, e, start)
    ensures contents[|chunks|] == FileContent(o, e, start + |chunks|) && FileOpens(o, e, start + |chunks|)
  {
    BatchChunks(o, e, start, chunks);
    BatchOpens(o, e, start, chunks);
    contents := BatchContents(ChunkBytes(o, e), start, chunks);
  }

  /** The chunks of the next batch and what the file becomes with each of them. */
  method NextChunks(s: Supply, o: Opened, e: Entry, start: u64, end: u64, ghost at: nat)
    returns (r: Result<seq<Bytes>>, ghost contents: seq<Bytes>)
    requires start <= end <= e.chunkCount && FileOpens(o, e, start) && Counting(s, o) && FileAt(s.all, at, e)
    ensures r.Ok? ==> |r.value| == end - start && Grows(contents, r.value) && contents[0] == FileContent(o, e, start)
    ensures r.Ok? ==> contents[|r.value|] == FileContent(o, e, end) && FileOpens(o, e, end)
    ensures r.Ok? ==> PiecesAt(s.all, at + start, r.value)
    ensures r.Err? && FileOpens(o, e, e.chunkCount) ==> !s.file.quiet && (r == Err(Cancelled) || r == Err(Io))
    ensures NotAboutNames(r)
  {
    contents := [];
    r := ReadBatch(s, o, e, start, end);
    if r.Ok? {
      contents := BatchAdvances(o, e, start, r.value);
      BatchPieces(o, e, start, r.value, s.all, at);
    }
  }

  /** The file holds the first n chunks. */
  ghost predicate Written(pending: PendingFile, o: Opened, e: Entry, n: u64, base: map<string, FsTree>, tree: FsTree)
    reads pending, pending.parent
  {
    && pending.writing
    && Half(pending.parent.names, base, pending.top, tree, pending.TempPath(), FileContent(o, e, n))
  }

  /** Decrypts and writes one batch. */
  method WriteNext(s: Supply, pending: PendingFile, o: Opened, e: Entry, start: u64, end: u64, ghost at: nat,
                   ghost base: map<string, FsTree>, ghost tree: FsTree)
    returns (r: Result<()>)
    requires start <= end <= e.chunkCount && pending.parent.watched !in base && pending.parent.watched != pending.top
    requires Written(pending, o, e, start, base, tree) && FileOpens(o, e, start)
    requires Counted(s, o, at + start) && FileAt(s.all, at, e)
    modifies pending.parent, s.tracker
    ensures r.Ok? ==> Written(pending, o, e, end, base, tree) && FileOpens(o, e, end) && Counted(s, o, at + end)
    ensures OnlyInside(base, pending.parent.names, pending.top) && pending.parent.sightings == old(pending.parent.sightings)
    ensures Counting(s, o)
    ensures pending.parent.quiet && s.file.quiet && FileOpens(o, e, e.chunkCount) ==> r.Ok?
    ensures NotAboutNames(r)
  {
    HalfAppend(pending.parent.names, base, pending.top, tree, pending.TempPath(), FileContent(o, e, start), []);
    var cancel := Disturbed(pending.parent.quiet);
    if cancel {
      return Err(Cancelled);
    }
    var chunks, contents := NextChunks(s, o, e, start, end, at);
    if chunks.Err? {
      return Err(chunks.error);
    }
    r := WriteBatch(s, pending, chunks.value, o, at + start, base, tree, contents);
  }

  function BatchEnd(start: u64, size: u64, count: u64): (end: u64)
    requires size > 0 && start < count
    ensures start < end <= count
  {
    Min(count, start + size)
  }

  /** The file and the count before chunk n, and nothing else changed. */
  ghost predicate UpTo(s: Supply, pending: PendingFile, o: Opened, e: Entry, at: nat, n: u64, base: map<string, FsTree>,
                       tree: FsTree)
    reads pending, pending.parent, s.file, s.tracker
  {
    && Written(pending, o, e, n, base, tree) && FileOpens(o, e, n) && Counted(s, o, at + n)
    && OnlyInside(base, pending.parent.names, pending.top)
  }

  lemma FileStart(s: Supply, pending: PendingFile, o: Opened, e: Entry, at: nat, base: map<string, FsTree>, tree: FsTree)
    requires Written(pending, o, e, 0, base, tree) && Counted(s, o, at)
    ensures UpTo(s, pending, o, e, at, 0, base, tree)
  {
    HalfAppend(pending.parent.names, base, pending.top, tree, pending.TempPath(), FileContent(o, e, 0), []);
  }

  /** The batch loop of one file, for any batch size. */
  method WriteFile(s: Supply, pending: PendingFile, o: Opened, e: Entry, batchSize: u64, ghost at: nat,
                   ghost base: map<string, FsTree>, ghost tree: FsTree)
    returns (r: Result<()>)
    requires batchSize > 0 && pending.parent.watched !in base && pending.parent.watched != pending.top
    requires Written(pending, o, e, 0, base, tree) && Counted(s, o, at) && FileAt(s.all, at, e)
    modifies pending.parent, s.tracker
    ensures r.Ok? ==> Written(pending, o, e, e.chunkCount, base, tree) && FileOpens(o, e, e.chunkCount)
    ensures OnlyInside(base, pending.parent.names, pending.top) && pending.parent.sightings == old(pending.parent.sightings)
    ensures Counting(s, o) && (r.Ok? ==> Counted(s, o, at + e.chunkCount))
    ensures pending.parent.quiet && s.file.quiet && FileOpens(o, e, e.chunkCount) ==> r.Ok?
    ensures NotAboutNames(r)
  {
    FileStart(s, pending, o, e, at, base, tree);
    var batchStart: u64 := 0;
    while batchStart < e.chunkCount
      invariant batchStart <= e.chunkCount && UpTo(s, pending, o, e, at, batchStart, base, tree)
      invariant pending.parent.sightings == old(pending.parent.sightings)
      decreases e.chunkCount - batchStart
    {
      var batchEnd := BatchEnd(batchStart, batchSize, e.chunkCount);
      r := WriteNext(s, pending, o, e, batchStart, batchEnd, at, base, tree);
      if r.Err? {
        return;
      }
      batchStart := batchEnd;
    }
    r := Ok(());
  }
}
