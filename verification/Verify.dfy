/** `verify_all_with_control`: every chunk of every file, in any order, read from the file on disk. */
module Verify {
  import opened Common
  import opened Sequences
  import opened Format
  import opened Layout
  import opened Index
  import opened IndexProperties
  import opened Totals
  import opened PlatformIo
  import opened Container
  import opened EntryLists
  import opened Progress

  /** `decrypt_chunk` over a file that may read less than asked or fail. */
  method ReadChunk(file: DiskFile, o: Opened, e: Entry, i: u64) returns (r: Result<Bytes>)
    requires file.content == o.file && |o.file| < U64_LIMIT
    ensures r.Ok? ==> r == DecryptChunk(o, e, i)
    ensures r.Err? && DecryptChunk(o, e, i).Ok? ==> !file.quiet && r == Err(Io)
    ensures r.Err? ==> r == DecryptChunk(o, e, i) || r.error == Io || r.error == UnexpectedEof || r.error == Overflow
  {
    var request := ChunkRequest(o.dataStart, e, i);
    if request.Err? {
      return Err(request.error);
    }
    var position, plainLen := request.value.0, request.value.1;
    var encrypted := file.ReadExactAt(plainLen + TAG_SIZE, position);
    if encrypted.Err? {
      return Err(encrypted.error);
    }
    r := OpenRecord(o, e, i, plainLen, encrypted.value);
  }

  ghost predicate TaskOpens(o: Opened, t: Task) {
    DecryptChunk(o, t.entry, t.chunkIndex).Ok?
  }

  ghost predicate TasksOpen(o: Opened, tasks: seq<Task>) {
    forall t :: t in tasks ==> TaskOpens(o, t)
  }

  /** The chunks of the listed files are the chunks of the container. */
  lemma TasksAreChunks(o: Opened, files: seq<Entry>)
    requires forall e :: e in files <==> e.kind == File && e.id in o.index.entries && o.index.entries[e.id] == e
    requires forall id :: id in o.index.entries ==> o.index.entries[id].id == id
    ensures TasksOpen(o, Tasks(files)) <==> AllChunksOpen(o)
  {
    var m := o.index.entries;
    if TasksOpen(o, Tasks(files)) {
      forall id | id in m && m[id].kind == File ensures FileOpens(o, m[id], m[id].chunkCount) {
        forall i: u64 | i < m[id].chunkCount ensures DecryptChunk(o, m[id], i).Ok? {
          TaskListed(files, Task(m[id], i));
          assert TaskOpens(o, Task(m[id], i));
        }
      }
    }
    if AllChunksOpen(o) {
      forall t | t in Tasks(files) ensures TaskOpens(o, t) {
        TaskListed(files, t);
        assert FileOpens(o, m[t.entry.id], m[t.entry.id].chunkCount);
      }
    }
  }

  /** The files of the container in the order of their extents, and what they add up to. */
  method ListFiles(o: Opened, ghost entries: seq<Entry>) returns (files: seq<Entry>)
    requires OpenedFrom(o, entries)
    ensures forall e :: e in files <==> e.kind == File && e.id in o.index.entries && o.index.entries[e.id] == e
    ensures multiset(AllAmounts(files)) == multiset(AllAmounts(entries)) && SumBy(FileSize, files) == SumBy(FileSize, entries)
  {
    AcceptedIsTree(o.header.entryCount, o.header.dataSize, entries);
    var values := Values(o.index.entries);
    files := SortByKey(DataOffset, Files(values));
    SortByKeySorted(DataOffset, Files(values));
    SameFiles(o, entries, values, files);
  }

  function DataOffset(e: Entry): int { e.dataOffset }

  lemma SameFiles(o: Opened, entries: seq<Entry>, values: seq<Entry>, files: seq<Entry>)
    requires OpenedFrom(o, entries) && Lists(o.index.entries, values) && multiset(files) == multiset(Files(values))
    ensures forall e :: e in files <==> e.kind == File && e.id in o.index.entries && o.index.entries[e.id] == e
    ensures multiset(AllAmounts(files)) == multiset(AllAmounts(entries)) && SumBy(FileSize, files) == SumBy(FileSize, entries)
  {
    AcceptedLists(o.header.entryCount, o.header.dataSize, entries);
    ListsAgree(o.index.entries, values, entries);
    FilesPermuted(values, entries);
    FilesOnly(values);
    FilesOnly(entries);
    SumByPermutation(FileSize, files, Files(entries));
    TasksPermuted(files, Files(entries));
    TasksOfFiles(entries);
    forall e: Entry | true ensures e in files <==> e in Files(values) {
      assert e in files <==> e in multiset(files);
      assert e in Files(values) <==> e in multiset(Files(values));
    }
  }

  /** The total of a phase, with the overflow check. */
  method AddSizes(files: seq<Entry>) returns (r: Result<u64>)
    requires forall e :: e in files ==> e.kind == File
    ensures r.Ok? ==> r.value == SumBy(FileSize, files)
    ensures r.Ok? <==> SumBy(FileSize, files) < U64_LIMIT
  {
    var sum: u64 := 0;
    assert files[..0] == [];
    for k := 0 to |files|
      invariant sum == SumBy(FileSize, files[..k])
    {
      SumByPrefix(FileSize, files, k);
      if sum + files[k].size >= U64_LIMIT {
        return Err(Overflow);
      }
      sum := sum + files[k].size;
    }
    assert files[..|files|] == files;
    r := Ok(sum);
  }

  /** The chunks that are not outstanding any more open. */
  ghost predicate Outstanding(o: Opened, rest: seq<Task>, all: seq<Task>) {
    && (forall t :: t in rest ==> t in all)
    && (forall t :: t in all && t !in rest ==> TaskOpens(o, t))
  }

  lemma OneLess(o: Opened, rest: seq<Task>, all: seq<Task>, i: nat)
    requires Outstanding(o, rest, all) && i < |rest| && TaskOpens(o, rest[i])
    ensures Outstanding(o, Without(rest, i), all)
  {
  }

  /** Authenticates one outstanding chunk and reports it. */
  method VerifyTask(o: Opened, file: DiskFile, tracker: ProgressTracker, rest: seq<Task>, ghost all: seq<Task>, i: nat)
    returns (r: Result<seq<Task>>)
    requires file.content == o.file && |o.file| < U64_LIMIT && i < |rest|
    requires Underway(tracker, rest, multiset(Amounts(all))) && Outstanding(o, rest, all)
    modifies tracker
    ensures r.Ok? ==> |r.value| < |rest| && Underway(tracker, r.value, multiset(Amounts(all))) && Outstanding(o, r.value, all)
    ensures r.Err? ==> Underway(tracker, rest, multiset(Amounts(all)))
    ensures r.Err? && TasksOpen(o, all) ==> !file.quiet && (r == Err(Cancelled) || r == Err(Io))
  {
    var t := rest[i];
    assert t in rest;
    var stop := Disturbed(file.quiet);
    if stop {
      return Err(Cancelled);
    }
    var plaintext := ReadChunk(file, o, t.entry, t.chunkIndex);
    if plaintext.Err? {
      return Err(plaintext.error);
    }
    CompleteTask(tracker, rest, multiset(Amounts(all)), i, TaskAmount(t));
    OneLess(o, rest, all, i);
    r := Ok(Without(rest, i));
  }

  /** The parallel loop: chunks complete in any order, and the first failure or a cancellation ends it. */
  method VerifyTasks(o: Opened, file: DiskFile, tracker: ProgressTracker, all: seq<Task>) returns (r: Result<()>)
    requires file.content == o.file && |o.file| < U64_LIMIT && tracker.Valid() && tracker.amounts == []
    modifies tracker
    ensures r.Ok? ==> TasksOpen(o, all) && multiset(tracker.amounts) == multiset(Amounts(all))
    ensures tracker.Valid() && multiset(tracker.amounts) <= multiset(Amounts(all))
    ensures r.Err? && TasksOpen(o, all) ==> !file.quiet && (r == Err(Cancelled) || r == Err(Io))
  {
    var rest := all;
    while rest != []
      invariant Underway(tracker, rest, multiset(Amounts(all))) && Outstanding(o, rest, all)
      decreases |rest|
    {
      var i: int := *;
      var left := VerifyTask(o, file, tracker, rest, all, if 0 <= i < |rest| then i else 0);
      if left.Err? {
        return Err(left.error);
      }
      rest := left.value;
    }
    r := Ok(());
  }

  /**
   Success means that every chunk of every file opens and that each was counted once; a failure other than an I/O error
   or a cancellation means that some chunk does not open.  The counts never decrease and end at the total.
   */
  method VerifyAll(o: Opened, file: DiskFile, ghost entries: seq<Entry>)
    returns (r: Result<()>, ghost counts: seq<u64>)
    requires OpenedFrom(o, entries) && file.content == o.file
    ensures r.Ok? ==> AllChunksOpen(o) && PhaseDone(counts, entries)
    ensures Phase(counts, entries)
    ensures r.Err? && AllChunksOpen(o) ==> !file.quiet && (r == Err(Cancelled) || r == Err(Io))
  {
    TotalsFit(o.header.entryCount, o.header.dataSize, entries);
    AcceptedIsTree(o.header.entryCount, o.header.dataSize, entries);
    var files := ListFiles(o, entries);
    TasksAreChunks(o, files);
    var total := AddSizes(files);
    var tracker := new ProgressTracker(total.value);
    r := VerifyTasks(o, file, tracker, Tasks(files));
    counts := tracker.reports;
    PhaseIs(o.header.entryCount, o.header.dataSize, entries, tracker.amounts, total.value);
  }
}
