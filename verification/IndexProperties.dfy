/** What acceptance of an index guarantees: a tree, exact child lists, and a partition of the data area. */
module IndexProperties {
  import opened Common
  import opened Sequences
  import opened Format
  import opened Layout
  import opened Index

  // ---------- The tree ----------

  /** The entry reached after k parent steps. */
  function Ancestor(m: EntryMap, id: u64, k: nat): u64
    decreases k
  {
    if k == 0 || id !in m then id else Ancestor(m, m[id].parentId, k - 1)
  }

  ghost predicate Tree(m: EntryMap) {
    && TreeOk(m)
    && m[1].depth == 0
    && (forall id :: id in m ==> m[id].id == id)
  }

  lemma AcceptedIsTree(entryCount: u64, dataSize: u64, entries: seq<Entry>)
    requires Accepted(entryCount, dataSize, entries)
    ensures Tree(ById(entries))
    ensures forall id :: id in ById(entries) ==> ById(entries)[id] in entries
    ensures forall e :: e in entries ==> e.id in ById(entries) && ById(entries)[e.id] == e && RowOk(e)
  {
    ByIdFacts(entries);
    assert RowOk(ById(entries)[1]);
  }

  /** The k-th ancestor lies k levels up, is not yet the root before level 0, and is a directory if k > 0. */
  ghost predicate AncestorOk(m: EntryMap, id: u64, k: nat)
    requires id in m
  {
    var a := Ancestor(m, id, k);
    && a in m && m[a].depth == m[id].depth - k
    && (a == 1 <==> k == m[id].depth)
    && (k > 0 ==> m[a].kind == Directory)
  }

  lemma {:induction false} AncestorStep(m: EntryMap, id: u64, k: nat)
    requires Tree(m) && id in m && k <= m[id].depth
    ensures AncestorOk(m, id, k)
    decreases k
  {
    assert id != 1 ==> ParentOk(m, m[id]);
    if k > 0 {
      var p := m[id].parentId;
      AncestorStep(m, p, k - 1);
      assert Ancestor(m, id, k) == Ancestor(m, p, k - 1);
      if k == 1 { assert Ancestor(m, p, 0) == p; }
    }
  }

  /** Every entry reaches the root in exactly `depth` parent steps, through directories only. */
  lemma ReachesRoot(m: EntryMap, id: u64)
    requires Tree(m) && id in m
    ensures Ancestor(m, id, m[id].depth) == 1
    ensures forall k: nat :: k <= m[id].depth ==> AncestorOk(m, id, k)
  {
    forall k: nat | k <= m[id].depth ensures AncestorOk(m, id, k) {
      AncestorStep(m, id, k);
    }
    AncestorStep(m, id, m[id].depth);
  }

  ghost predicate Listed(children: map<u64, seq<u64>>, p: u64, id: u64) {
    p in children && id in children[p]
  }

  ghost predicate NoRepeats<T>(s: seq<T>) {
    forall i, j :: 0 <= i < j < |s| ==> s[i] != s[j]
  }

  /** `children` is the exact inverse of `parentId`, without repeats or empty lists. */
  lemma {:induction false} ChildrenInverse(entries: seq<Entry>)
    requires DistinctIds(entries)
    ensures forall p, id :: Listed(ChildrenOf(entries), p, id) <==>
              id != 1 && id in ById(entries) && ById(entries)[id].parentId == p
    ensures forall p :: p in ChildrenOf(entries) ==> ChildrenOf(entries)[p] != [] && NoRepeats(ChildrenOf(entries)[p])
  {
    if entries != [] {
      var n := |entries| - 1;
      var rest, e := entries[..n], entries[n];
      ChildrenInverse(rest);
      ByIdKeys(rest);
      assert e.id !in IdSet(rest);
      var before, after := ChildrenOf(rest), ChildrenOf(entries);
      if e.id != 1 {
        assert after == Push(before, e.parentId, e.id);
        assert !Listed(before, e.parentId, e.id);
        forall p, id | true
          ensures Listed(after, p, id) <==> Listed(before, p, id) || (p == e.parentId && id == e.id)
        {
        }
      }
    }
  }

  // ---------- The data area ----------

  predicate InExtent(x: Extent, p: int) {
    x.offset <= p < x.offset + x.size
  }

  lemma {:induction false} ContiguousBounds(xs: seq<Extent>, start: u64, end: u64, i: nat)
    requires Contiguous(xs, start, end) && i < |xs|
    ensures start <= xs[i].offset && xs[i].offset + xs[i].size <= end
  {
    ContiguousOrder(xs[1..], start + xs[0].size, end);
    if i > 0 { ContiguousBounds(xs[1..], start + xs[0].size, end, i - 1); }
  }

  lemma {:induction false} ContiguousOrder(xs: seq<Extent>, start: u64, end: u64)
    requires Contiguous(xs, start, end)
    ensures start <= end
  {
    if xs != [] { ContiguousOrder(xs[1..], start + xs[0].size, end); }
  }

  lemma {:induction false} ContiguousDisjoint(xs: seq<Extent>, start: u64, end: u64, i: nat, j: nat)
    requires Contiguous(xs, start, end) && i < j < |xs|
    ensures xs[i].offset + xs[i].size <= xs[j].offset
  {
    if i == 0 {
      ContiguousBounds(xs[1..], start + xs[0].size, end, j - 1);
    } else {
      ContiguousDisjoint(xs[1..], start + xs[0].size, end, i - 1, j - 1);
    }
  }

  lemma {:induction false} ContiguousCovers(xs: seq<Extent>, start: u64, end: u64, p: nat) returns (i: nat)
    requires Contiguous(xs, start, end) && start <= p < end
    ensures i < |xs| && InExtent(xs[i], p)
  {
    if p < start + xs[0].size {
      i := 0;
    } else {
      var k := ContiguousCovers(xs[1..], start + xs[0].size, end, p);
      i := k + 1;
    }
  }

  function ExtentOf(e: Entry): Extent {
    Extent(e.dataOffset, e.encryptedSize, e.id)
  }

  lemma {:induction false} FilesOfExact(entries: seq<Entry>)
    ensures forall i :: 0 <= i < |entries| && entries[i].kind == File ==> ExtentOf(entries[i]) in FilesOf(entries)
    ensures forall x :: x in FilesOf(entries) ==> exists i :: 0 <= i < |entries| && entries[i].kind == File && ExtentOf(entries[i]) == x
  {
    if entries != [] {
      var n := |entries| - 1;
      FilesOfExact(entries[..n]);
      assert forall i :: 0 <= i < n ==> entries[..n][i] == entries[i];
    }
  }

  function SortedExtents(entries: seq<Entry>): seq<Extent> {
    SortByKey(Offset, FilesOf(entries))
  }

  lemma ExtentListed(entries: seq<Entry>, e: Entry) returns (i: nat)
    requires e in entries && e.kind == File
    ensures i < |SortedExtents(entries)| && SortedExtents(entries)[i] == ExtentOf(e)
  {
    SortByKeySorted(Offset, FilesOf(entries));
    FilesOfExact(entries);
    var xs := SortedExtents(entries);
    assert ExtentOf(e) in multiset(xs);
    i :| 0 <= i < |xs| && xs[i] == ExtentOf(e);
  }

  lemma SameId(entries: seq<Entry>, d: Entry, e: Entry)
    requires DistinctIds(entries) && d in entries && e in entries && d.id == e.id
    ensures d == e
  {
  }

  /** File extents stay inside the data area. */
  lemma ExtentInside(entryCount: u64, dataSize: u64, entries: seq<Entry>, e: Entry)
    requires Accepted(entryCount, dataSize, entries) && e in entries && e.kind == File
    ensures e.dataOffset + e.encryptedSize <= dataSize
  {
    var i := ExtentListed(entries, e);
    ContiguousBounds(SortedExtents(entries), 0, dataSize, i);
  }

  /** Extents of different files do not meet. */
  lemma ExtentsDisjoint(entryCount: u64, dataSize: u64, entries: seq<Entry>, d: Entry, e: Entry, p: int)
    requires Accepted(entryCount, dataSize, entries)
    requires d in entries && e in entries && d.kind == File && e.kind == File
    requires InExtent(ExtentOf(d), p) && InExtent(ExtentOf(e), p)
    ensures d == e
  {
    var i := ExtentListed(entries, d);
    var j := ExtentListed(entries, e);
    if i < j {
      ContiguousDisjoint(SortedExtents(entries), 0, dataSize, i, j);
    } else if j < i {
      ContiguousDisjoint(SortedExtents(entries), 0, dataSize, j, i);
    } else {
      SameId(entries, d, e);
    }
  }

  /** The non-empty file extents cover the data area exactly. */
  lemma ExtentsCover(entryCount: u64, dataSize: u64, entries: seq<Entry>, p: nat) returns (e: Entry)
    requires Accepted(entryCount, dataSize, entries) && p < dataSize
    ensures e in entries && e.kind == File && InExtent(ExtentOf(e), p)
  {
    var xs := SortedExtents(entries);
    SortByKeySorted(Offset, FilesOf(entries));
    var k := ContiguousCovers(xs, 0, dataSize, p);
    assert xs[k] in multiset(xs);
    assert xs[k] in FilesOf(entries);
    FilesOfExact(entries);
    var i :| 0 <= i < |entries| && entries[i].kind == File && ExtentOf(entries[i]) == xs[k];
    e := entries[i];
  }

  // ---------- Chunk records in the container ----------

  /** Position of record `i` of file `e`, as writer and reader both compute it. */
  function RecordPosition(dataStart: nat, e: Entry, i: nat): nat {
    dataStart + e.dataOffset + RecordStart(i)
  }

  /** Container byte `p` belongs to record `i` of file `e`. */
  predicate Owns(dataStart: nat, e: Entry, i: nat, p: int) {
    && e.kind == File && i < e.chunkCount && ChunkStart(i) <= e.size
    && RecordPosition(dataStart, e, i) <= p < RecordPosition(dataStart, e, i) + PlainLen(e.size, i) + TAG_SIZE
  }

  /** Every byte after the index belongs to a record. */
  lemma EveryByteOwned(entryCount: u64, dataSize: u64, entries: seq<Entry>, dataStart: nat, p: nat)
    returns (e: Entry, i: nat)
    requires Accepted(entryCount, dataSize, entries) && dataStart <= p < dataStart + dataSize
    ensures e in entries && Owns(dataStart, e, i, p)
  {
    e := ExtentsCover(entryCount, dataSize, entries, p - dataStart);
    assert SizedFile(e) by { AcceptedIsTree(entryCount, dataSize, entries); }
    var q := p - dataStart - e.dataOffset;
    i := RecordOf(q);
    RecordsTileExtent(e, q);
    assert InRecord(e, i, q);
  }

  /** No byte belongs to two records, and records stay inside the data area. */
  lemma OwnerUnique(entryCount: u64, dataSize: u64, entries: seq<Entry>, dataStart: nat, p: nat, d: Entry, i: nat,
                    e: Entry, j: nat)
    requires Accepted(entryCount, dataSize, entries)
    requires d in entries && e in entries && Owns(dataStart, d, i, p) && Owns(dataStart, e, j, p)
    ensures d == e && i == j && dataStart <= p < dataStart + dataSize
  {
    AcceptedIsTree(entryCount, dataSize, entries);
    RecordInExtent(d, i);
    RecordInExtent(e, j);
    ExtentInside(entryCount, dataSize, entries, d);
    ExtentsDisjoint(entryCount, dataSize, entries, d, e, p - dataStart);
    RecordsTileExtent(d, p - dataStart - d.dataOffset);
    assert InRecord(d, i, p - dataStart - d.dataOffset) && InRecord(d, j, p - dataStart - d.dataOffset);
  }

  /** With a container length that fits u64 no position computed for a record overflows. */
  lemma PositionsFit(entryCount: u64, dataSize: u64, entries: seq<Entry>, dataStart: nat, e: Entry, i: nat)
    requires Accepted(entryCount, dataSize, entries) && dataStart + dataSize < U64_LIMIT
    requires e in entries && e.kind == File && i < e.chunkCount
    ensures SizedFile(e) && ChunkStart(i) < e.size
    ensures RecordStart(i) < U64_LIMIT && dataStart + e.dataOffset < U64_LIMIT
    ensures RecordPosition(dataStart, e, i) + PlainLen(e.size, i) + TAG_SIZE <= dataStart + dataSize
  {
    AcceptedIsTree(entryCount, dataSize, entries);
    RecordInExtent(e, i);
    ExtentInside(entryCount, dataSize, entries, e);
  }
}
