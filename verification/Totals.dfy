/** The plaintext totals that extraction, verification and the mount add up. */
module Totals {
  import opened Common
  import opened Sequences
  import opened Format
  import opened Layout
  import opened Index
  import opened IndexProperties

  function ExtentSize(x: Extent): nat { x.size }

  function FileSize(e: Entry): nat {
    if e.kind == File then e.size else 0
  }

  function StoredSize(e: Entry): nat {
    if e.kind == File then e.encryptedSize else 0
  }

  lemma {:induction false} ContiguousTotal(xs: seq<Extent>, start: u64, end: u64)
    requires Contiguous(xs, start, end)
    ensures start + SumBy(ExtentSize, xs) == end
  {
    if xs != [] { ContiguousTotal(xs[1..], start + xs[0].size, end); }
  }

  lemma {:induction false} FilesOfTotal(entries: seq<Entry>)
    ensures SumBy(ExtentSize, FilesOf(entries)) == SumBy(StoredSize, entries)
  {
    if entries != [] {
      var n := |entries| - 1;
      var rest, e := entries[..n], entries[n];
      FilesOfTotal(rest);
      assert entries == rest + [e];
      SumByAppend(StoredSize, rest, [e]);
      SumByAppend(ExtentSize, FilesOf(rest), [ExtentOf(e)]);
    }
  }

  lemma {:induction false} PlainBelowStored(entries: seq<Entry>)
    requires forall e :: e in entries && e.kind == File ==> SizedFile(e)
    ensures SumBy(FileSize, entries) <= SumBy(StoredSize, entries)
  {
    if entries != [] {
      PlainBelowStored(entries[1..]);
      if entries[0].kind == File { EncryptedFileSizeExact(entries[0].size); }
    }
  }

  /** The data area is the sum of the file extents, so no total of file sizes overflows u64. */
  lemma TotalsFit(entryCount: u64, dataSize: u64, entries: seq<Entry>)
    requires Accepted(entryCount, dataSize, entries)
    ensures SumBy(StoredSize, entries) == dataSize
    ensures SumBy(FileSize, entries) <= dataSize < U64_LIMIT
  {
    SortByKeySorted(Offset, FilesOf(entries));
    ContiguousTotal(SortByKey(Offset, FilesOf(entries)), 0, dataSize);
    SumByPermutation(ExtentSize, SortByKey(Offset, FilesOf(entries)), FilesOf(entries));
    FilesOfTotal(entries);
    AcceptedIsTree(entryCount, dataSize, entries);
    PlainBelowStored(entries);
  }
}
