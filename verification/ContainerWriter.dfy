/** The writing half of `pack_inner`: all files at once, chunk by chunk, in any interleaving. */
module ContainerWriter {
  import opened Common
  import opened Sequences
  import opened Format
  import opened Layout
  import opened Index
  import opened IndexProperties
  import opened Scan
  import opened Binding
  import opened PlatformIo
  import opened Pack
  import opened SourceFiles
  import opened EntryLists
  import opened Progress
  import opened PackWriter

  // ---------- What is written ----------

  /** The snapshots taken by the scan are the files of the plan, in order and with their contents. */
  ghost predicate SourcesMatch(p: Plan, sources: seq<(u64, Content)>) {
    && (forall k :: 0 <= k < |sources| ==> sources[k].0 in p.contents && p.contents[sources[k].0] == sources[k].1)
    && |sources| == |Files(p.entries)|
    && (forall k :: 0 <= k < |sources| ==> sources[k].0 == Files(p.entries)[k].id)
  }

  ghost predicate HeadWritten(p: Plan, out: Bytes) {
    && |out| == ContainerSize(p)
    && HasAt(out, 0, EncodeHeader(p.header)) && HasAt(out, HEADER_SIZE, SealedIndex(p))
  }

  ghost predicate FileWritten(p: Plan, out: Bytes, e: Entry) {
    e.kind == File && e.id in p.contents ==> ChunksWritten(out, p.header, p.dek, DataStart(p), e, p.contents[e.id], {})
  }

  lemma EntryWritable(p: Plan, e: Entry)
    requires PlanOk(p) && e in p.entries && e.kind == File
    ensures e.id in p.contents && Writable(DataStart(p), e, p.contents[e.id], ContainerSize(p))
  {
    AcceptedIsTree(p.header.entryCount, p.header.dataSize, p.entries);
    ExtentInside(p.header.entryCount, p.header.dataSize, p.entries, e);
  }

  lemma OtherRecordKept(p: Plan, e: Entry, d: Entry, before: Bytes, after: Bytes, i: u64)
    requires PlanOk(p) && e in p.entries && e.kind == File && d in p.entries && d != e
    requires d.kind == File && SizedFile(d) && i < d.chunkCount && ChunkStart(i) < |p.contents[d.id]| == d.size
    requires d.id in p.contents
    requires SameOutside(before, after, DataStart(p) + e.dataOffset, DataStart(p) + e.dataOffset + e.encryptedSize)
    requires HasAt(before, RecordPosition(DataStart(p), d, i), RecordOfChunk(p.header, p.dek, d, p.contents[d.id], i))
    ensures HasAt(after, RecordPosition(DataStart(p), d, i), RecordOfChunk(p.header, p.dek, d, p.contents[d.id], i))
  {
    var position, record := RecordPosition(DataStart(p), d, i), RecordOfChunk(p.header, p.dek, d, p.contents[d.id], i);
    var lo, hi := DataStart(p) + e.dataOffset, DataStart(p) + e.dataOffset + e.encryptedSize;
    RecordInExtent(d, i);
    forall q | InRange(q, position, position + |record|) ensures !InRange(q, lo, hi) {
      if InRange(q, lo, hi) {
        ExtentsDisjoint(p.header.entryCount, p.header.dataSize, p.entries, d, e, q - DataStart(p));
      }
    }
    SameOutsideKeeps(before, after, lo, hi, position, record);
  }

  /** A job that was written, byte by byte. */
  lemma JobWritten(p: Plan, out: Bytes, j: Job)
    requires PlanOk(p) && HeadWritten(p, out) && JobOk(p, j)
    requires j.ChunkJob? ==> FileWritten(p, out, j.entry)
    ensures HasAt(out, JobStart(p, j), JobBytes(p, j))
  {
    if j.ChunkJob? {
      assert ChunkStart(j.chunkIndex) < j.entry.size;
    }
  }

  lemma ByteOf(out: Bytes, at: nat, bytes: Bytes, pos: nat)
    requires HasAt(out, at, bytes) && at <= pos < at + |bytes|
    ensures pos < |out| && out[pos] == bytes[pos - at]
  {
    assert out[pos] == out[at..at + |bytes|][pos - at];
  }

  /** Header, index and all records in place make the container of the plan. */
  lemma AllWrittenIsImage(p: Plan, out: Bytes)
    requires PlanOk(p) && HeadWritten(p, out)
    requires forall e :: e in p.entries ==> FileWritten(p, out, e)
    ensures out == Image(p)
  {
    forall j, pos | InJob(p, j, pos) && 0 <= pos < |out| ensures out[pos] == JobByte(p, j, pos) {
      JobWritten(p, out, j);
      ByteOf(out, JobStart(p, j), JobBytes(p, j), pos);
    }
    ImageIsImage(p);
    ImageUnique(p, out, Image(p));
  }

  lemma HeadKept(p: Plan, e: Entry, before: Bytes, after: Bytes)
    requires PlanOk(p) && e in p.entries && e.kind == File && HeadWritten(p, before)
    requires SameOutside(before, after, DataStart(p) + e.dataOffset, DataStart(p) + e.dataOffset + e.encryptedSize)
    ensures HeadWritten(p, after)
  {
    var lo, hi := DataStart(p) + e.dataOffset, DataStart(p) + e.dataOffset + e.encryptedSize;
    SameOutsideKeeps(before, after, lo, hi, 0, EncodeHeader(p.header));
    SameOutsideKeeps(before, after, lo, hi, HEADER_SIZE, SealedIndex(p));
  }

  // ---------- The work on one file ----------

  /** One file of the parallel loop: its outstanding chunks, and whether it was opened and found unchanged at the end. */
  datatype FileJob = FileJob(entry: Entry, begun: bool, rest: seq<Task>, done: bool)

  function Todo(rest: seq<Task>): set<nat> {
    set t | t in rest :: t.chunkIndex
  }

  /** Steps that are left. */
  function JobWork(job: FileJob): nat {
    (if job.begun then 0 else 1) + |job.rest| + (if job.done then 0 else 1)
  }

  ghost predicate JobFits(p: Plan, job: FileJob) {
    && job.entry in p.entries && job.entry.kind == File && job.entry.id in p.contents
    && (forall t :: t in job.rest ==> t.entry == job.entry && t.chunkIndex < job.entry.chunkCount)
    && (job.done ==> job.rest == [])
  }

  /** The records of the chunks that are not outstanding are in place. */
  ghost predicate JobStored(p: Plan, out: Bytes, job: FileJob)
    requires job.entry.id in p.contents
  {
    ChunksWritten(out, p.header, p.dek, DataStart(p), job.entry, p.contents[job.entry.id], Todo(job.rest))
  }

  lemma FewerOutstanding(p: Plan, out: Bytes, job: FileJob, k: nat, dataStart: nat, content: Content)
    requires job.entry.id in p.contents && k < |job.rest| && dataStart == DataStart(p) && content == p.contents[job.entry.id]
    requires ChunksWritten(out, p.header, p.dek, dataStart, job.entry, content, Todo(job.rest) - {job.rest[k].chunkIndex})
    ensures JobStored(p, out, job.(rest := Without(job.rest, k)))
  {
    assert Todo(job.rest) - {job.rest[k].chunkIndex} <= Todo(Without(job.rest, k));
  }

  /** The source of a job, as the chunk writer looks at it. */
  lemma StoredSource(p: Plan, out: Bytes, source: SourceFile, job: FileJob, dataStart: nat)
    requires job.entry.id in p.contents && dataStart == DataStart(p) && source.scanned == p.contents[job.entry.id]
    requires source.Valid() && (source.changes == 0 ==> JobStored(p, out, job))
    ensures Stored(out, source, p.header, p.dek, dataStart, job.entry, Todo(job.rest))
  {
  }

  /** Completed and outstanding chunks of the file before and after a step. */
  ghost predicate SameWork(before: multiset<u64>, rest: seq<Task>, after: multiset<u64>, left: seq<Task>) {
    after + multiset(Amounts(left)) == before + multiset(Amounts(rest))
  }

  lemma OneCounted(amounts: seq<u64>, rest: seq<Task>, k: nat)
    requires k < |rest|
    ensures SameWork(multiset(amounts), rest, multiset(amounts + [TaskAmount(rest[k])]), Without(rest, k))
  {
    TaskTaken(rest, k);
  }

  /** Encrypts one of the outstanding chunks of a file. */
  method EncryptRest(output: DiskFile, p: Plan, source: SourceFile, job: FileJob, k: nat, tracker: ProgressTracker)
    returns (r: Result<FileJob>)
    requires PlanOk(p) && JobFits(p, job) && k < |job.rest| && |output.content| == ContainerSize(p)
    requires output != source.file && source.Valid() && source.scanned == p.contents[job.entry.id] && tracker.Valid()
    requires source.changes == 0 ==> JobStored(p, output.content, job)
    modifies output, source, source.file, tracker
    ensures SameOutside(old(output.content), output.content, DataStart(p) + job.entry.dataOffset, DataStart(p) + job.entry.dataOffset + job.entry.encryptedSize)
    ensures source.Valid() && source.changes >= old(source.changes) && tracker.Valid()
    ensures r.Ok? ==> r.value == job.(rest := Without(job.rest, k))
    ensures r.Ok? && source.changes == 0 ==> JobStored(p, output.content, r.value)
    ensures r.Ok? ==> SameWork(old(multiset(tracker.amounts)), job.rest, multiset(tracker.amounts), r.value.rest)
    ensures r.Err? ==> tracker.amounts == old(tracker.amounts)
    ensures output.quiet && source.file.quiet && old(source.changes) == 0 ==> r.Ok? && source.changes == 0
  {
    EntryWritable(p, job.entry);
    var t := job.rest[k];
    assert t in job.rest;
    StoredSource(p, output.content, source, job, HEADER_SIZE + p.header.indexSize);
    var stored := EncryptChunk(output, source, HEADER_SIZE + p.header.indexSize, job.entry, p.header, p.dek, t.chunkIndex, Todo(job.rest));
    if stored.Err? {
      return Err(stored.error);
    }
    if source.changes == 0 {
      FewerOutstanding(p, output.content, job, k, HEADER_SIZE + p.header.indexSize, source.scanned);
    }
    OneCounted(tracker.amounts, job.rest, k);
    var _ := tracker.Advance(TaskAmount(t));
    r := Ok(job.(rest := Without(job.rest, k)));
  }

  /** One step of one file: it is opened, one of its chunks is encrypted, or its fingerprint is compared at the end. */
  method StepFile(output: DiskFile, p: Plan, source: SourceFile, job: FileJob, tracker: ProgressTracker)
    returns (r: Result<FileJob>)
    requires PlanOk(p) && JobFits(p, job) && !job.done && |output.content| == ContainerSize(p)
    requires output != source.file && source.Valid() && source.scanned == p.contents[job.entry.id] && tracker.Valid()
    requires source.changes == 0 ==> JobStored(p, output.content, job)
    modifies output, source, source.file, tracker
    ensures SameOutside(old(output.content), output.content, DataStart(p) + job.entry.dataOffset, DataStart(p) + job.entry.dataOffset + job.entry.encryptedSize)
    ensures source.Valid() && source.changes >= old(source.changes) && tracker.Valid()
    ensures r.Ok? ==> JobFits(p, r.value) && r.value.entry == job.entry && JobWork(r.value) < JobWork(job)
    ensures r.Ok? && source.changes == 0 ==> JobStored(p, output.content, r.value)
    ensures r.Ok? && r.value.done ==> source.changes == 0
    ensures r.Ok? ==> SameWork(old(multiset(tracker.amounts)), job.rest, multiset(tracker.amounts), r.value.rest)
    ensures r.Err? ==> tracker.amounts == old(tracker.amounts)
    ensures output.quiet && source.file.quiet && old(source.changes) == 0 ==> r.Ok? && source.changes == 0
  {
    if !job.begun {
      var cancelled := Disturbed(output.quiet);
      if cancelled {
        return Err(Cancelled);
      }
      var started := StartFile(source);
      r := if started.Ok? then Ok(job.(begun := true)) else Err(started.error);
    } else if job.rest != [] {
      var n: int := *;
      r := EncryptRest(output, p, source, job, if 0 <= n < |job.rest| then n else 0, tracker);
    } else {
      var finished := FinishFile(source);
      r := if finished.Ok? then Ok(job.(done := true)) else Err(finished.error);
    }
  }

  // ---------- All files ----------

  /** Records in place, file by file; `clean` marks the files that nobody had written when they were last looked at. */
  ghost predicate Progressing(p: Plan, out: Bytes, jobs: seq<FileJob>, clean: seq<bool>) {
    && HeadWritten(p, out) && |clean| == |jobs|
    && (forall k :: 0 <= k < |jobs| ==> JobFits(p, jobs[k]) && (clean[k] ==> JobStored(p, out, jobs[k])) && (jobs[k].done ==> clean[k]))
    && (forall i, k :: 0 <= i < k < |jobs| ==> jobs[i].entry != jobs[k].entry)
  }

  /** Writing into the extent of one file leaves the records of every other file alone. */
  lemma OtherJobKept(p: Plan, e: Entry, job: FileJob, before: Bytes, after: Bytes)
    requires PlanOk(p) && e in p.entries && e.kind == File && JobFits(p, job) && job.entry != e
    requires SameOutside(before, after, DataStart(p) + e.dataOffset, DataStart(p) + e.dataOffset + e.encryptedSize)
    requires JobStored(p, before, job)
    ensures JobStored(p, after, job)
  {
    var d := job.entry;
    EntryWritable(p, d);
    forall i: u64 | i < d.chunkCount && i !in Todo(job.rest) && ChunkStart(i) < |p.contents[d.id]|
      ensures HasAt(after, RecordPosition(DataStart(p), d, i), RecordOfChunk(p.header, p.dek, d, p.contents[d.id], i))
    {
      OtherRecordKept(p, e, d, before, after, i);
    }
  }

  /** After a step of file `k`. */
  lemma JobAdvanced(p: Plan, before: Bytes, after: Bytes, jobs: seq<FileJob>, clean: seq<bool>, k: nat, job: FileJob, now: bool)
    requires PlanOk(p) && Progressing(p, before, jobs, clean) && k < |jobs| && JobFits(p, job) && job.entry == jobs[k].entry
    requires SameOutside(before, after, DataStart(p) + job.entry.dataOffset, DataStart(p) + job.entry.dataOffset + job.entry.encryptedSize)
    requires (now ==> JobStored(p, after, job)) && (job.done ==> now)
    ensures Progressing(p, after, jobs[k := job], clean[k := now])
  {
    HeadKept(p, job.entry, before, after);
    forall i | 0 <= i < |jobs| && i != k && clean[i] ensures JobStored(p, after, jobs[i]) {
      OtherJobKept(p, job.entry, jobs[i], before, after);
    }
  }

  function JobEntries(jobs: seq<FileJob>): (r: seq<Entry>)
    ensures |r| == |jobs|
  {
    seq(|jobs|, k requires 0 <= k < |jobs| => jobs[k].entry)
  }

  /** Chunks that are outstanding in any file. */
  function Outstanding(jobs: seq<FileJob>): multiset<u64> {
    if jobs == [] then multiset{} else multiset(Amounts(jobs[0].rest)) + Outstanding(jobs[1..])
  }

  lemma BagShift(a: multiset<u64>, x: multiset<u64>, y: multiset<u64>, v: multiset<u64>, w: multiset<u64>)
    requires x + y == v + w
    ensures (a + x) + y == (a + v) + w
  {
    assert (a + x) + y == a + (x + y);
    assert (a + v) + w == a + (v + w);
  }

  /** Work that moves from the outstanding to the completed chunks stays the same in sum. */
  lemma BagBalance(done: multiset<u64>, open: multiset<u64>, done': multiset<u64>, open': multiset<u64>,
                   rest: multiset<u64>, left: multiset<u64>)
    requires done' + left == done + rest && open' + rest == open + left
    ensures done' + open' == done + open
  {
    forall x: u64 | true ensures (done' + open')[x] == (done + open)[x] {
      assert (done' + left)[x] == (done + rest)[x] && (open' + rest)[x] == (open + left)[x];
    }
  }

  lemma {:induction false} OutstandingUpdate(jobs: seq<FileJob>, k: nat, job: FileJob)
    requires k < |jobs|
    ensures Outstanding(jobs[k := job]) + multiset(Amounts(jobs[k].rest)) == Outstanding(jobs) + multiset(Amounts(job.rest))
    decreases |jobs|
  {
    var now := jobs[k := job];
    if k == 0 {
      assert now[1..] == jobs[1..];
    } else {
      assert now[1..] == jobs[1..][k - 1 := job] && now[0] == jobs[0];
      OutstandingUpdate(jobs[1..], k - 1, job);
      assert jobs[1..][k - 1] == jobs[k];
      BagShift(multiset(Amounts(jobs[0].rest)), Outstanding(now[1..]), multiset(Amounts(jobs[k].rest)), Outstanding(jobs[1..]), multiset(Amounts(job.rest)));
    }
  }

  lemma {:induction false} WorkUpdate(jobs: seq<FileJob>, k: nat, job: FileJob)
    requires k < |jobs|
    ensures SumBy(JobWork, jobs[k := job]) + JobWork(jobs[k]) == SumBy(JobWork, jobs) + JobWork(job)
    decreases |jobs|
  {
    if k == 0 {
      assert jobs[0 := job][1..] == jobs[1..];
    } else {
      assert jobs[k := job][1..] == jobs[1..][k - 1 := job];
      WorkUpdate(jobs[1..], k - 1, job);
    }
  }

  lemma {:induction false} NothingOutstanding(jobs: seq<FileJob>)
    requires forall k :: 0 <= k < |jobs| ==> jobs[k].rest == []
    ensures Outstanding(jobs) == multiset{}
  {
    if jobs != [] {
      NothingOutstanding(jobs[1..]);
      assert Amounts([]) == [];
    }
  }

  /** What a step of file `k` leaves to do. */
  lemma WorkAdvanced(jobs: seq<FileJob>, k: nat, job: FileJob, counted: multiset<u64>, counted': multiset<u64>)
    requires k < |jobs| && job.entry == jobs[k].entry && JobWork(job) < JobWork(jobs[k])
    requires SameWork(counted, jobs[k].rest, counted', job.rest)
    ensures counted' + Outstanding(jobs[k := job]) == counted + Outstanding(jobs)
    ensures JobEntries(jobs[k := job]) == JobEntries(jobs)
    ensures SumBy(JobWork, jobs[k := job]) < SumBy(JobWork, jobs)
  {
    OutstandingUpdate(jobs, k, job);
    BagBalance(counted, Outstanding(jobs), counted', Outstanding(jobs[k := job]),
               multiset(Amounts(jobs[k].rest)), multiset(Amounts(job.rest)));
    WorkUpdate(jobs, k, job);
  }

  /** The source files on disk: each its own, none of them the output. */
  ghost predicate Apart(output: DiskFile, disk: seq<SourceFile>) {
    && (forall k :: 0 <= k < |disk| ==> disk[k].file != output)
    && (forall i, k :: 0 <= i < |disk| && 0 <= k < |disk| && i != k ==> Separate(disk[i], disk[k]))
  }

  ghost predicate Separate(a: SourceFile, b: SourceFile) {
    a != b && a.file != b.file
  }

  /** A source file and what is known of it. */
  ghost predicate SourceOf(p: Plan, source: SourceFile, job: FileJob, clean: bool)
    reads source, source.file
  {
    && source.Valid() && job.entry.id in p.contents && source.scanned == p.contents[job.entry.id]
    && (source.changes == 0 ==> clean)
  }

  ghost predicate SourcesOnDisk(p: Plan, disk: seq<SourceFile>, jobs: seq<FileJob>, clean: seq<bool>, quiet: bool)
    reads disk, set k | 0 <= k < |disk| :: disk[k].file
  {
    && |disk| == |jobs| == |clean|
    && (forall k :: 0 <= k < |disk| ==> SourceOf(p, disk[k], jobs[k], clean[k]) && disk[k].file.quiet == quiet)
    && (quiet ==> forall k :: 0 <= k < |disk| ==> disk[k].changes == 0)
  }

  /** The invariant of the parallel loop. */
  ghost predicate Writing(output: DiskFile, p: Plan, disk: seq<SourceFile>, jobs: seq<FileJob>, clean: seq<bool>,
                          tracker: ProgressTracker, work: multiset<u64>)
    reads output, disk, set k | 0 <= k < |disk| :: disk[k].file, tracker
  {
    && Progressing(p, output.content, jobs, clean) && SourcesOnDisk(p, disk, jobs, clean, output.quiet)
    && tracker.Valid() && multiset(tracker.amounts) + Outstanding(jobs) == work
  }

  /** One step of one of the sources; the others stay as they are. */
  method StepSource(output: DiskFile, p: Plan, disk: seq<SourceFile>, jobs: seq<FileJob>, k: nat, tracker: ProgressTracker,
                    ghost clean: seq<bool>)
    returns (r: Result<FileJob>)
    requires PlanOk(p) && Apart(output, disk) && SourcesOnDisk(p, disk, jobs, clean, output.quiet) && k < |jobs|
    requires JobFits(p, jobs[k]) && (clean[k] ==> JobStored(p, output.content, jobs[k])) && !jobs[k].done
    requires |output.content| == ContainerSize(p) && tracker.Valid()
    modifies output, disk[k], disk[k].file, tracker
    ensures SameOutside(old(output.content), output.content, DataStart(p) + jobs[k].entry.dataOffset, DataStart(p) + jobs[k].entry.dataOffset + jobs[k].entry.encryptedSize)
    ensures tracker.Valid()
    ensures r.Ok? ==> JobFits(p, r.value) && r.value.entry == jobs[k].entry && JobWork(r.value) < JobWork(jobs[k])
    ensures r.Ok? && disk[k].changes == 0 ==> JobStored(p, output.content, r.value)
    ensures r.Ok? && r.value.done ==> disk[k].changes == 0
    ensures r.Ok? ==> SameWork(old(multiset(tracker.amounts)), jobs[k].rest, multiset(tracker.amounts), r.value.rest)
    ensures r.Err? ==> tracker.amounts == old(tracker.amounts)
    ensures r.Ok? ==> SourcesOnDisk(p, disk, jobs[k := r.value], clean[k := disk[k].changes == 0], output.quiet)
    ensures output.quiet ==> r.Ok?
  {
    assert SourceOf(p, disk[k], jobs[k], clean[k]);
    r := StepFile(output, p, disk[k], jobs[k], tracker);
    if r.Ok? {
      forall i | 0 <= i < |disk| && i != k ensures SourceOf(p, disk[i], jobs[i], clean[i]) && disk[i].changes == old(disk[i].changes) {
        assert Separate(disk[i], disk[k]);
        assert old(SourceOf(p, disk[i], jobs[i], clean[i]));
      }
    }
  }

  /** One step of any file that is not finished. */
  method StepAny(output: DiskFile, p: Plan, disk: seq<SourceFile>, jobs: seq<FileJob>, k: nat, tracker: ProgressTracker,
                 ghost clean: seq<bool>, ghost work: multiset<u64>)
    returns (r: Result<FileJob>, ghost now: seq<bool>)
    requires PlanOk(p) && Apart(output, disk) && k < |jobs| && !jobs[k].done
    requires Writing(output, p, disk, jobs, clean, tracker, work)
    modifies output, disk[k], disk[k].file, tracker
    ensures r.Ok? ==> Writing(output, p, disk, jobs[k := r.value], now, tracker, work)
    ensures r.Ok? ==> JobEntries(jobs[k := r.value]) == JobEntries(jobs)
    ensures r.Ok? ==> SumBy(JobWork, jobs[k := r.value]) < SumBy(JobWork, jobs)
    ensures tracker.Valid() && multiset(tracker.amounts) <= work
    ensures output.quiet ==> r.Ok?
  {
    now := clean;
    ghost var before, counted := output.content, multiset(tracker.amounts);
    r := StepSource(output, p, disk, jobs, k, tracker, clean);
    if r.Ok? {
      now := clean[k := disk[k].changes == 0];
      JobAdvanced(p, before, output.content, jobs, clean, k, r.value, now[k]);
      WorkAdvanced(jobs, k, r.value, counted, multiset(tracker.amounts));
    }
  }

  /** Sizes the new file and stores header and index. */
  method WriteHead(output: DiskFile, p: Plan) returns (r: Result<()>)
    requires PlanOk(p)
    modifies output
    ensures r.Ok? ==> HeadWritten(p, output.content)
    ensures output.quiet ==> r.Ok?
  {
    output.SetLen(HEADER_SIZE + p.header.indexSize + p.header.dataSize);
    SpliceHas(output.content, 0, EncodeHeader(p.header));
    r := output.WriteAllAt(EncodeHeader(p.header), 0);
    if r.Err? {
      return;
    }
    SpliceHas(output.content, HEADER_SIZE, SealedIndex(p));
    SpliceKeeps(output.content, HEADER_SIZE, SealedIndex(p), 0, EncodeHeader(p.header));
    r := output.WriteAllAt(SealedIndex(p), HEADER_SIZE);
  }

  lemma SourceFound(p: Plan, e: Entry)
    requires PlanOk(p) && e in p.entries
    ensures e.id in ById(p.entries) && ById(p.entries)[e.id] == e
  {
    AcceptedIsTree(p.header.entryCount, p.header.dataSize, p.entries);
  }

  /** The lookup of a source in the table of entries. */
  method FindEntry(entryById: EntryMap, id: u64) returns (e: Option<Entry>)
    ensures id in entryById && entryById[id].kind == File ==> e == Some(entryById[id])
  {
    e := if id !in entryById || entryById[id].kind != File then None else Some(entryById[id]);
  }

  /** The files of the sources, as they are on disk. */
  method FindSources(sources: seq<(u64, Content)>, output: DiskFile) returns (disk: seq<SourceFile>)
    ensures |disk| == |sources| && Apart(output, disk)
    ensures forall k :: 0 <= k < |disk| ==> fresh(disk[k]) && fresh(disk[k].file) && disk[k].Valid() && disk[k].scanned == sources[k].1
    ensures forall k :: 0 <= k < |disk| ==> disk[k].file.quiet == output.quiet && (output.quiet ==> disk[k].changes == 0)
  {
    disk := [];
    for i := 0 to |sources|
      invariant |disk| == i && Apart(output, disk)
      invariant forall k :: 0 <= k < |disk| ==> fresh(disk[k]) && fresh(disk[k].file) && disk[k].Valid() && disk[k].scanned == sources[k].1
      invariant forall k :: 0 <= k < |disk| ==> disk[k].file.quiet == output.quiet && (output.quiet ==> disk[k].changes == 0)
    {
      var source := new SourceFile(sources[i].1, output.quiet);
      disk := disk + [source];
    }
  }

  /** The jobs in front of the loop. */
  ghost predicate JobsOf(entries: seq<Entry>, jobs: seq<FileJob>) {
    |jobs| == |entries| && forall k :: 0 <= k < |jobs| ==> jobs[k] == NewJob(entries[k])
  }

  function NewJob(e: Entry): (job: FileJob)
    ensures job.entry == e && job.rest == FileTasks(e) && !job.done
  {
    FileJob(e, false, FileTasks(e), false)
  }

  /** The source belongs to this file entry. */
  predicate Finds(entryById: EntryMap, id: u64, e: Entry) {
    id in entryById && entryById[id] == e && e.kind == File
  }

  lemma SourcesFound(p: Plan, sources: seq<(u64, Content)>)
    requires PlanOk(p) && SourcesMatch(p, sources)
    ensures forall k :: 0 <= k < |sources| ==> Finds(ById(p.entries), sources[k].0, Files(p.entries)[k])
  {
    FilesOnly(p.entries);
    forall k | 0 <= k < |sources| ensures Finds(ById(p.entries), sources[k].0, Files(p.entries)[k]) {
      assert Files(p.entries)[k] in Files(p.entries);
      SourceFound(p, Files(p.entries)[k]);
    }
  }

  method MakeJobs(entryById: EntryMap, sources: seq<(u64, Content)>, ghost files: seq<Entry>) returns (r: Result<seq<FileJob>>)
    requires |files| == |sources| && forall k :: 0 <= k < |sources| ==> Finds(entryById, sources[k].0, files[k])
    ensures r.Ok? && JobsOf(files, r.value)
  {
    var jobs: seq<FileJob> := [];
    for k := 0 to |sources|
      invariant |jobs| == k && forall i :: 0 <= i < k ==> jobs[i] == NewJob(files[i])
    {
      assert Finds(entryById, sources[k].0, files[k]);
      var entry := FindEntry(entryById, sources[k].0);
      if entry.None? {
        return Err(InvalidRequest);
      }
      jobs := jobs + [NewJob(entry.value)];
    }
    r := Ok(jobs);
  }

  lemma {:induction false} OutstandingAtFirst(entries: seq<Entry>, jobs: seq<FileJob>)
    requires JobsOf(entries, jobs)
    ensures Outstanding(jobs) == multiset(AllAmounts(entries))
  {
    if entries == [] {
      assert Amounts([]) == [];
    } else {
      OutstandingAtFirst(entries[1..], jobs[1..]);
      AmountsAppend(FileTasks(entries[0]), Tasks(entries[1..]));
    }
  }

  /** The invariant in front of the loop. */
  lemma JobsStart(p: Plan, out: Bytes, jobs: seq<FileJob>, clean: seq<bool>)
    requires PlanOk(p) && HeadWritten(p, out) && JobsOf(Files(p.entries), jobs) && |clean| == |jobs|
    ensures Progressing(p, out, jobs, clean) && JobEntries(jobs) == Files(p.entries)
  {
    JobsDiffer(p, Files(p.entries), jobs);
    forall k | 0 <= k < |jobs| ensures JobFits(p, jobs[k]) && JobStored(p, out, jobs[k]) {
      NothingYet(p, out, jobs[k]);
    }
  }

  lemma WorkStart(p: Plan, jobs: seq<FileJob>)
    requires JobsOf(Files(p.entries), jobs)
    ensures Outstanding(jobs) == multiset(AllAmounts(p.entries))
  {
    OutstandingAtFirst(Files(p.entries), jobs);
    TasksOfFiles(p.entries);
  }

  lemma JobsDiffer(p: Plan, files: seq<Entry>, jobs: seq<FileJob>)
    requires PlanOk(p) && files == Files(p.entries) && JobsOf(files, jobs)
    ensures forall k :: 0 <= k < |jobs| ==> jobs[k].entry in p.entries && jobs[k].entry.kind == File
    ensures forall i, k :: 0 <= i < k < |jobs| ==> jobs[i].entry != jobs[k].entry
  {
    AcceptedLists(p.header.entryCount, p.header.dataSize, p.entries);
    FilesOnly(p.entries);
    FilesOnce(p.entries);
    forall k | 0 <= k < |jobs| ensures jobs[k].entry in p.entries && jobs[k].entry.kind == File {
      assert files[k] in files;
    }
    forall i, k | 0 <= i < k < |jobs| ensures jobs[i].entry != jobs[k].entry {
      assert Differ(files, i, k);
    }
  }

  lemma NothingYet(p: Plan, out: Bytes, job: FileJob)
    requires PlanOk(p) && job.entry in p.entries && job.entry.kind == File && job.rest == FileTasks(job.entry) && !job.done
    ensures JobFits(p, job) && JobStored(p, out, job)
  {
    var e := job.entry;
    EntryWritable(p, e);
    ChunkTasksExact(e, e.chunkCount);
    forall i: u64 | i < e.chunkCount ensures i in Todo(job.rest) {
      assert job.rest[i] == Task(e, i);
      assert Task(e, i) in job.rest;
    }
  }

  /** Once every file is finished all records are in place. */
  lemma AllClosed(p: Plan, out: Bytes, jobs: seq<FileJob>, clean: seq<bool>)
    requires Progressing(p, out, jobs, clean) && JobEntries(jobs) == Files(p.entries)
    requires forall k :: 0 <= k < |jobs| ==> jobs[k].done
    ensures forall e :: e in p.entries ==> FileWritten(p, out, e)
  {
    FilesOnly(p.entries);
    forall e | e in p.entries ensures FileWritten(p, out, e) {
      if e.kind == File {
        var k :| 0 <= k < |Files(p.entries)| && Files(p.entries)[k] == e;
        assert JobEntries(jobs)[k] == jobs[k].entry;
        DoneIsWritten(p, out, jobs[k]);
      }
    }
  }

  lemma DoneIsWritten(p: Plan, out: Bytes, job: FileJob)
    requires JobFits(p, job) && job.done && JobStored(p, out, job)
    ensures FileWritten(p, out, job.entry)
  {
    assert Todo(job.rest) == {};
  }

  /** Files that can take another step. */
  function Unfinished(jobs: seq<FileJob>): set<nat> {
    set k: nat | k < |jobs| && !jobs[k].done
  }

  /** The parallel loop over files and chunks. */
  method RunJobs(output: DiskFile, p: Plan, disk: seq<SourceFile>, first: seq<FileJob>, tracker: ProgressTracker,
                 ghost clean: seq<bool>, ghost work: multiset<u64>)
    returns (r: Result<()>)
    requires PlanOk(p) && Apart(output, disk) && Writing(output, p, disk, first, clean, tracker, work)
    requires JobEntries(first) == Files(p.entries)
    modifies output, disk, set k | 0 <= k < |disk| :: disk[k].file, tracker
    ensures r.Ok? ==> output.content == Image(p) && multiset(tracker.amounts) == work
    ensures tracker.Valid() && multiset(tracker.amounts) <= work
    ensures output.quiet ==> r.Ok?
  {
    var jobs := first;
    ghost var seen := clean;
    while Unfinished(jobs) != {}
      invariant JobEntries(jobs) == Files(p.entries)
      invariant Writing(output, p, disk, jobs, seen, tracker, work)
      decreases SumBy(JobWork, jobs)
    {
      var k :| k in Unfinished(jobs);
      var step;
      step, seen := StepAny(output, p, disk, jobs, k, tracker, seen, work);
      if step.Err? {
        return Err(step.error);
      }
      jobs := jobs[k := step.value];
    }
    JobsDone(p, output.content, jobs, seen, multiset(tracker.amounts));
    r := Ok(());
  }

  lemma JobsDone(p: Plan, out: Bytes, jobs: seq<FileJob>, clean: seq<bool>, counted: multiset<u64>)
    requires PlanOk(p) && Progressing(p, out, jobs, clean) && JobEntries(jobs) == Files(p.entries) && Unfinished(jobs) == {}
    ensures out == Image(p) && counted + Outstanding(jobs) == counted
  {
    forall k | 0 <= k < |jobs| ensures jobs[k].done {
      assert k !in Unfinished(jobs);
    }
    NothingOutstanding(jobs);
    AllClosed(p, out, jobs, clean);
    AllWrittenIsImage(p, out);
  }

  /**
   Stores header and index, then encrypts the sources: at every moment any file that is not finished takes its next step,
   so the chunks of different files interleave in any way.  Success leaves exactly the container of the plan, and every
   chunk was counted once.
   */
  method WriteContainer(output: DiskFile, p: Plan, sources: seq<(u64, Content)>, tracker: ProgressTracker)
    returns (r: Result<()>)
    requires PlanOk(p) && SourcesMatch(p, sources) && tracker.Valid() && tracker.amounts == []
    modifies output, tracker
    ensures r.Ok? ==> output.content == Image(p) && multiset(tracker.amounts) == multiset(AllAmounts(p.entries))
    ensures tracker.Valid() && multiset(tracker.amounts) <= multiset(AllAmounts(p.entries))
    ensures output.quiet ==> r.Ok?
  {
    r := WriteHead(output, p);
    if r.Err? {
      return;
    }
    SourcesFound(p, sources);
    var jobs := MakeJobs(ById(p.entries), sources, Files(p.entries));
    r := EncryptAll(output, p, sources, jobs.value, tracker);
  }

  /** The loop on the sources of the plan. */
  method EncryptAll(output: DiskFile, p: Plan, sources: seq<(u64, Content)>, jobs: seq<FileJob>, tracker: ProgressTracker)
    returns (r: Result<()>)
    requires PlanOk(p) && SourcesMatch(p, sources) && JobsOf(Files(p.entries), jobs) && HeadWritten(p, output.content)
    requires tracker.Valid() && tracker.amounts == []
    modifies output, tracker
    ensures r.Ok? ==> output.content == Image(p) && multiset(tracker.amounts) == multiset(AllAmounts(p.entries))
    ensures tracker.Valid() && multiset(tracker.amounts) <= multiset(AllAmounts(p.entries))
    ensures output.quiet ==> r.Ok?
  {
    var disk := FindSources(sources, output);
    ghost var clean := seq(|jobs|, i => true);
    JobsStart(p, output.content, jobs, clean);
    WorkStart(p, jobs);
    forall k | 0 <= k < |disk| ensures SourceOf(p, disk[k], jobs[k], clean[k]) {
      assert sources[k].0 == jobs[k].entry.id;
    }
    r := RunJobs(output, p, disk, jobs, tracker, clean, multiset(AllAmounts(p.entries)));
  }
}
