/** Byte counts reported by the parallel phases. */
module Progress {
  import opened Common
  import opened Sequences
  import opened Format
  import opened Layout
  import opened Index
  import opened IndexProperties
  import opened Totals
  import opened EntryLists

  function SaturatingAdd(a: u64, b: u64): u64 {
    if a + b < U64_LIMIT then a + b else U64_LIMIT - 1
  }

  /** The counts reported after the initial 0. */
  function Counts(total: u64, completed: u64, amounts: seq<u64>): seq<u64>
    decreases |amounts|
  {
    if amounts == [] then []
    else
      var now := Min(SaturatingAdd(completed, amounts[0]), total);
      [now] + Counts(total, now, amounts[1..])
  }

  /** All counts of a phase. */
  function Reports(total: u64, amounts: seq<u64>): seq<u64> {
    [0] + Counts(total, 0, amounts)
  }

  lemma {:induction false} CountsSnoc(total: u64, completed: u64, amounts: seq<u64>, amount: u64)
    ensures var before := [completed] + Counts(total, completed, amounts);
      Counts(total, completed, amounts + [amount]) ==
      Counts(total, completed, amounts) + [Min(SaturatingAdd(before[|before| - 1], amount), total)]
    decreases |amounts|
  {
    if amounts == [] {
      assert [amount][1..] == [];
    } else {
      var now := Min(SaturatingAdd(completed, amounts[0]), total);
      CountsSnoc(total, now, amounts[1..], amount);
      assert (amounts + [amount])[1..] == amounts[1..] + [amount];
      assert [completed] + Counts(total, completed, amounts) == [completed] + ([now] + Counts(total, now, amounts[1..]));
    }
  }

  /** The lock serializes the callers, so a parallel phase is a sequence of calls in some order. */
  class ProgressTracker {
    const total: u64
    var completed: u64
    ghost var reports: seq<u64>
    /** What the callers advanced by so far. */
    ghost var amounts: seq<u64>

    ghost predicate Valid()
      reads this
    {
      reports == Reports(total, amounts) && completed == reports[|reports| - 1]
    }

    constructor (total: u64)
      ensures this.total == total && Valid() && amounts == []
    {
      this.total := total;
      completed := 0;
      reports := [0];
      amounts := [];
    }

    method Advance(amount: u64) returns (now: u64)
      requires Valid()
      modifies this
      ensures Valid() && amounts == old(amounts) + [amount]
      ensures completed == now == Min(SaturatingAdd(old(completed), amount), total)
    {
      CountsSnoc(total, 0, amounts, amount);
      completed := Min(SaturatingAdd(completed, amount), total);
      reports := reports + [completed];
      amounts := amounts + [amount];
      now := completed;
    }
  }

  function Amount(n: u64): nat { n }

  ghost predicate NonDecreasing(s: seq<u64>) {
    forall i, j :: 0 <= i < j < |s| ==> s[i] <= s[j]
  }

  /** Whatever is reported, counts never decrease and never pass the total. */
  lemma {:induction false} CountsMonotone(total: u64, completed: u64, amounts: seq<u64>)
    requires completed <= total
    ensures var c := Counts(total, completed, amounts);
      && |c| == |amounts| && NonDecreasing([completed] + c)
      && forall i :: 0 <= i < |c| ==> completed <= c[i] <= total
    decreases |amounts|
  {
    if amounts != [] {
      var now := Min(SaturatingAdd(completed, amounts[0]), total);
      CountsMonotone(total, now, amounts[1..]);
      var later := [now] + Counts(total, now, amounts[1..]);
      assert Counts(total, completed, amounts) == later;
      forall i, j | 0 <= i < j < |later| + 1 ensures ([completed] + later)[i] <= ([completed] + later)[j] {
        if i > 0 { assert later[i - 1] <= later[j - 1]; }
      }
    }
  }

  /** As long as the chunks add up to no more than the total, nothing is clipped. */
  lemma {:induction false} CountsExact(total: u64, completed: u64, amounts: seq<u64>, i: nat)
    requires completed + SumBy(Amount, amounts) <= total && i < |amounts|
    ensures i < |Counts(total, completed, amounts)|
    ensures Counts(total, completed, amounts)[i] == completed + SumBy(Amount, amounts[..i + 1])
    decreases |amounts|
  {
    var now := completed + amounts[0];
    assert amounts[..i + 1][1..] == amounts[1..][..i];
    if i == 0 {
      assert amounts[1..][..0] == [];
    } else {
      CountsExact(total, now, amounts[1..], i - 1);
    }
  }

  // ---------- The chunks of a container ----------

  /** One unit of parallel work. */
  datatype Task = Task(entry: Entry, chunkIndex: u64)

  /** Plaintext length of the chunk. */
  function TaskAmount(t: Task): u64 {
    if ChunkStart(t.chunkIndex) <= t.entry.size then PlainLen(t.entry.size, t.chunkIndex) else 0
  }

  /** The first n chunks of a file. */
  function ChunkTasks(e: Entry, n: u64): seq<Task> {
    if n == 0 then [] else ChunkTasks(e, n - 1) + [Task(e, n - 1)]
  }

  /** All chunks of all files. */
  function Tasks(entries: seq<Entry>): seq<Task> {
    if entries == [] then [] else FileTasks(entries[0]) + Tasks(entries[1..])
  }

  function FileTasks(e: Entry): seq<Task> {
    if e.kind == File then ChunkTasks(e, e.chunkCount) else []
  }

  function Amounts(tasks: seq<Task>): (r: seq<u64>)
    ensures |r| == |tasks|
  {
    seq(|tasks|, i requires 0 <= i < |tasks| => TaskAmount(tasks[i]))
  }

  lemma AmountsAppend(s: seq<Task>, t: seq<Task>)
    ensures Amounts(s + t) == Amounts(s) + Amounts(t)
  {
  }

  /** Plaintext lengths of all chunks of all files. */
  function AllAmounts(entries: seq<Entry>): seq<u64> {
    Amounts(Tasks(entries))
  }

  lemma {:induction false} ChunkTasksExact(e: Entry, n: u64)
    ensures |ChunkTasks(e, n)| == n && forall i: u64 :: i < n ==> ChunkTasks(e, n)[i] == Task(e, i)
  {
    if n > 0 { ChunkTasksExact(e, n - 1); }
  }

  /** The work consists of exactly the chunks of the listed files. */
  lemma {:induction false} TaskListed(entries: seq<Entry>, t: Task)
    ensures t in Tasks(entries) <==> t.entry in entries && t.entry.kind == File && t.chunkIndex < t.entry.chunkCount
  {
    if entries != [] {
      var e := entries[0];
      TaskListed(entries[1..], t);
      ChunkTasksExact(e, e.chunkCount);
      if e == t.entry && e.kind == File && t.chunkIndex < e.chunkCount {
        assert ChunkTasks(e, e.chunkCount)[t.chunkIndex] == t;
      }
      assert t.entry in entries <==> t.entry == e || t.entry in entries[1..];
    }
  }

  lemma {:induction false} TasksAppend(s: seq<Entry>, t: seq<Entry>)
    ensures Tasks(s + t) == Tasks(s) + Tasks(t)
  {
    if s == [] {
      assert s + t == t;
    } else {
      TasksAppend(s[1..], t);
      assert (s + t)[1..] == s[1..] + t && (s + t)[0] == s[0];
      ConcatAssociative(FileTasks(s[0]), Tasks(s[1..]), Tasks(t));
    }
  }

  lemma TasksOne(e: Entry)
    ensures Tasks([e]) == FileTasks(e)
  {
    assert [e][1..] == [];
  }

  lemma TasksSplit(before: seq<Entry>, e: Entry, after: seq<Entry>)
    ensures Tasks(before + [e]) == Tasks(before) + FileTasks(e)
    ensures Tasks((before + [e]) + after) == (Tasks(before) + FileTasks(e)) + Tasks(after)
  {
    TasksOne(e);
    TasksAppend(before, [e]);
    TasksAppend(before + [e], after);
  }

  lemma TasksRemoved(s: seq<Entry>, i: nat)
    requires i < |s|
    ensures multiset(Tasks(s)) == multiset(FileTasks(s[i])) + multiset(Tasks(Without(s, i)))
  {
    SplitAround(s, i);
    TasksAppend(s[..i], [s[i]] + s[i + 1..]);
    TasksAppend([s[i]], s[i + 1..]);
    TasksAppend(s[..i], s[i + 1..]);
    assert [s[i]][1..] == [];
    assert Tasks([s[i]]) == FileTasks(s[i]);
  }

  /** The work does not depend on the order of the files. */
  lemma TasksPermuted(s: seq<Entry>, t: seq<Entry>)
    requires multiset(s) == multiset(t)
    ensures multiset(AllAmounts(s)) == multiset(AllAmounts(t))
  {
    TaskBagsAgree(s, t);
    AmountsBag(Tasks(s), Tasks(t));
  }

  lemma {:induction false} TaskBagsAgree(s: seq<Entry>, t: seq<Entry>)
    requires multiset(s) == multiset(t)
    ensures multiset(Tasks(s)) == multiset(Tasks(t))
    decreases |s|
  {
    assert |s| == |multiset(s)| == |multiset(t)| == |t|;
    if s != [] {
      RemoveFirst(s);
      assert s[0] in multiset(t);
      var i :| 0 <= i < |t| && t[i] == s[0];
      BagRemove(t, i);
      TaskBagsAgree(s[1..], Without(t, i));
      TasksRemoved(t, i);
    }
  }

  lemma {:induction false} AmountsBag(s: seq<Task>, t: seq<Task>)
    requires multiset(s) == multiset(t)
    ensures multiset(Amounts(s)) == multiset(Amounts(t))
    decreases |s|
  {
    assert |s| == |multiset(s)| == |multiset(t)| == |t|;
    if s != [] {
      RemoveFirst(s);
      assert s[0] in multiset(t);
      var i :| 0 <= i < |t| && t[i] == s[0];
      BagRemove(t, i);
      AmountsBag(s[1..], Without(t, i));
      TaskTaken(t, i);
      TaskTaken(s, 0);
      assert Without(s, 0) == s[1..];
    }
  }

  /** Directories add no work. */
  lemma {:induction false} TasksOfFiles(entries: seq<Entry>)
    ensures Tasks(Files(entries)) == Tasks(entries)
  {
    if entries != [] {
      TasksOfFiles(entries[1..]);
      var e := entries[0];
      if e.kind == File {
        assert ([e] + Files(entries[1..]))[1..] == Files(entries[1..]);
      } else {
        assert [] + Files(entries[1..]) == Files(entries[1..]);
      }
    }
  }

  lemma {:induction false} ChunkAmountsSum(e: Entry, n: u64)
    requires SizedFile(e) && n <= e.chunkCount
    ensures SumBy(Amount, Amounts(ChunkTasks(e, n))) == Min(ChunkStart(n), e.size)
  {
    if n > 0 {
      ChunkAmountsSum(e, n - 1);
      RecordInExtent(e, n - 1);
      var last: u64 := TaskAmount(Task(e, n - 1));
      assert Amounts([Task(e, n - 1)]) == [last];
      AmountsAppend(ChunkTasks(e, n - 1), [Task(e, n - 1)]);
      SumByAppend(Amount, Amounts(ChunkTasks(e, n - 1)), [last]);
      assert SumBy(Amount, [last]) == last + SumBy(Amount, [last][1..]);
    }
  }

  /** Chunk lengths add up to the file sizes. */
  lemma {:induction false} AllAmountsSum(entries: seq<Entry>)
    requires forall e :: e in entries && e.kind == File ==> SizedFile(e)
    ensures SumBy(Amount, AllAmounts(entries)) == SumBy(FileSize, entries)
  {
    if entries != [] {
      var e := entries[0];
      AllAmountsSum(entries[1..]);
      if e.kind == File {
        ChunkAmountsSum(e, e.chunkCount);
        EncryptedFileSizeExact(e.size);
        assert !(ChunkStart(e.chunkCount) < e.size);
        AmountsAppend(ChunkTasks(e, e.chunkCount), Tasks(entries[1..]));
        SumByAppend(Amount, Amounts(ChunkTasks(e, e.chunkCount)), AllAmounts(entries[1..]));
      } else {
        assert [] + Tasks(entries[1..]) == Tasks(entries[1..]);
      }
    }
  }

  // ---------- A parallel phase ----------

  /** Completed and outstanding work add up to `work`. */
  ghost predicate Underway(tracker: ProgressTracker, rest: seq<Task>, work: multiset<u64>)
    reads tracker
  {
    tracker.Valid() && multiset(tracker.amounts) + multiset(Amounts(rest)) == work
  }

  lemma TaskTaken(rest: seq<Task>, i: nat)
    requires i < |rest|
    ensures multiset(Amounts(rest)) == multiset(Amounts(Without(rest, i))) + multiset{TaskAmount(rest[i])}
  {
    var a := Amounts(rest);
    assert Amounts(Without(rest, i)) == Without(a, i);
    BagRemove(a, i);
    assert a[i] in multiset(a);
  }

  /** Reports the completion of one outstanding chunk. */
  method CompleteTask(tracker: ProgressTracker, ghost rest: seq<Task>, ghost work: multiset<u64>, ghost i: nat, amount: u64)
    requires Underway(tracker, rest, work) && i < |rest| && amount == TaskAmount(rest[i])
    modifies tracker
    ensures Underway(tracker, Without(rest, i), work)
  {
    TaskTaken(rest, i);
    var _ := tracker.Advance(amount);
  }

  lemma ReportsExact(total: u64, done: seq<u64>)
    requires SumBy(Amount, done) <= total
    ensures var reports := Reports(total, done);
      && |reports| == |done| + 1 && NonDecreasing(reports)
      && forall i :: 0 <= i <= |done| ==> reports[i] == SumBy(Amount, done[..i]) <= total
  {
    CountsMonotone(total, 0, done);
    forall i | 0 <= i <= |done| ensures Reports(total, done)[i] == SumBy(Amount, done[..i]) <= total {
      if i > 0 {
        CountsExact(total, 0, done, i - 1);
      } else {
        assert done[..0] == [];
      }
    }
  }

  /**
   Encryption, verification and extraction of a container: in whatever order some or all of the chunks complete, every
   count is the exact number of bytes done so far, and when all are done the last count is the total.
   */
  lemma PhaseCounts(entryCount: u64, dataSize: u64, entries: seq<Entry>, done: seq<u64>)
    requires Accepted(entryCount, dataSize, entries) && multiset(done) <= multiset(AllAmounts(entries))
    ensures SumBy(FileSize, entries) < U64_LIMIT
    ensures var total: u64 := SumBy(FileSize, entries); var reports := Reports(total, done);
      && |reports| == |done| + 1 && NonDecreasing(reports)
      && (forall i :: 0 <= i <= |done| ==> reports[i] == SumBy(Amount, done[..i]) <= total)
      && (multiset(done) == multiset(AllAmounts(entries)) ==> reports[|done|] == total)
  {
    TotalsFit(entryCount, dataSize, entries);
    AcceptedIsTree(entryCount, dataSize, entries);
    AllAmountsSum(entries);
    SumByPart(Amount, done, AllAmounts(entries));
    ReportsExact(SumBy(FileSize, entries), done);
    assert done[..|done|] == done;
  }

  /** What the reporter saw in a phase over all files of these entries: byte counts of some part of the chunks. */
  ghost predicate Phase(counts: seq<u64>, entries: seq<Entry>) {
    && SumBy(FileSize, entries) < U64_LIMIT
    && counts != [] && counts[0] == 0 && NonDecreasing(counts) && counts[|counts| - 1] <= SumBy(FileSize, entries)
  }

  /** The last count is the number of bytes in all files. */
  ghost predicate PhaseDone(counts: seq<u64>, entries: seq<Entry>) {
    Phase(counts, entries) && counts[|counts| - 1] == SumBy(FileSize, entries)
  }

  lemma PhaseIs(entryCount: u64, dataSize: u64, entries: seq<Entry>, done: seq<u64>, total: u64)
    requires Accepted(entryCount, dataSize, entries) && multiset(done) <= multiset(AllAmounts(entries))
    requires total == SumBy(FileSize, entries)
    ensures Phase(Reports(total, done), entries)
    ensures multiset(done) == multiset(AllAmounts(entries)) ==> PhaseDone(Reports(total, done), entries)
  {
    PhaseCounts(entryCount, dataSize, entries, done);
  }
}
