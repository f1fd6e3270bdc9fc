/** `scan_source`: from a directory walk to a flat index. */
module Scan {
  import opened Common
  import opened Sequences
  import opened Format
  import opened Layout
  import opened Index
  import opened IndexProperties
  import Names

  /** File contents as the operating system can hold them. */
  type Content = c: seq<byte> | |c| < U64_LIMIT witness []

  datatype SourceKind = SourceDirectory | SourceFile(content: Content) | SourceLink | SourceSpecial

  /** What the directory walk yields after the source directory itself. */
  datatype WalkItem = WalkError | Item(path: seq<string>, utf8: bool, kind: SourceKind)

  datatype Scanned = Scanned(entries: seq<Entry>, sources: seq<(u64, Content)>, totalPlaintext: u64, dataSize: u64)

  /** The walk never yields one path twice, nor the source directory again. */
  ghost predicate ProperWalk(items: seq<WalkItem>) {
    && (forall k :: 0 <= k < |items| && items[k].Item? ==> items[k].path != [])
    && (forall j, k :: 0 <= j < k < |items| && items[j].Item? && items[k].Item? ==> items[j].path != items[k].path)
  }

  /** The ids on which the random-draw loop stops: non-zero and new each time. */
  ghost predicate FreshIds(ids: seq<Blob16>, n: nat) {
    && |ids| >= n
    && (forall k :: 0 <= k < n ==> ids[k] != ZERO_ID)
    && (forall j, k :: 0 <= j < k < n ==> ids[j] != ids[k])
  }

  function Parent(path: seq<string>): seq<string>
    requires path != []
  {
    path[..|path| - 1]
  }

  function FileName(path: seq<string>): string
    requires path != []
  {
    path[|path| - 1]
  }

  /** Ids of the directories seen so far, by relative path; item k gets id k + 2. */
  function DirectoryIds(items: seq<WalkItem>): map<seq<string>, nat> {
    if items == [] then map[[] := 1]
    else
      var rest, item := DirectoryIds(items[..|items| - 1]), items[|items| - 1];
      if item.Item? && item.kind == SourceDirectory then rest[item.path := |items| + 1] else rest
  }

  /** A path whose name and depth the scan accepts. */
  predicate PathOk(item: WalkItem) {
    item.Item? && item.utf8 && item.path != [] && |item.path| <= MAX_DEPTH && Names.ValidName(FileName(item.path))
  }

  predicate KindOk(kind: SourceKind) {
    kind == SourceDirectory || (kind.SourceFile? && EncryptedFileSize(|kind.content|).Some?)
  }

  /** An item that the scan accepts once its parent is known. */
  predicate ItemOk(item: WalkItem) {
    PathOk(item) && KindOk(item.kind)
  }

  /** Item k is acceptable and lies in a directory that the walk already produced. */
  predicate ItemFits(items: seq<WalkItem>, k: nat)
    requires k < |items|
  {
    ItemOk(items[k]) && Parent(items[k].path) in DirectoryIds(items[..k])
  }

  function PlainSize(item: WalkItem): nat {
    if item.Item? && item.kind.SourceFile? then |item.kind.content| else 0
  }

  function CipherSize(item: WalkItem): nat {
    if item.Item? && item.kind.SourceFile? && EncryptedFileSize(|item.kind.content|).Some?
    then EncryptedFileSize(|item.kind.content|).value.1
    else 0
  }

  function Total(size: WalkItem -> nat, items: seq<WalkItem>): nat {
    if items == [] then 0 else Total(size, items[..|items| - 1]) + size(items[|items| - 1])
  }

  lemma {:induction false} TotalMonotone(size: WalkItem -> nat, items: seq<WalkItem>, k: nat)
    requires k <= |items|
    ensures Total(size, items[..k]) <= Total(size, items)
    decreases |items|
  {
    if k < |items| {
      TotalMonotone(size, items[..|items| - 1], k);
      assert items[..|items| - 1][..k] == items[..k];
    } else {
      assert items[..k] == items;
    }
  }

  ghost predicate Scannable(items: seq<WalkItem>) {
    && |items| < MAX_ENTRIES
    && (forall k :: 0 <= k < |items| ==> ItemFits(items, k))
    && Total(PlainSize, items) < U64_LIMIT
    && Total(CipherSize, items) < U64_LIMIT
  }

  predicate DescribesData(kind: SourceKind, fileId: Blob16, e: Entry) {
    match kind
    case SourceDirectory =>
      e.kind == Directory && e.fileId == ZERO_ID && e.size == 0 && e.dataOffset == 0 && e.encryptedSize == 0 && e.chunkCount == 0
    case SourceFile(content) => e.kind == File && e.fileId == fileId && e.size == |content| && SizedFile(e)
    case SourceLink => false
    case SourceSpecial => false
  }

  /** The entry of an item: parent id, last component as name, component count as depth, sizes. */
  predicate Describes(item: WalkItem, id: nat, parentId: nat, fileId: Blob16, e: Entry) {
    && PathOk(item)
    && e.id == id && e.parentId == parentId && e.name == FileName(item.path) && e.depth == |item.path|
    && DescribesData(item.kind, fileId, e)
  }

  /** Entry k + 1 describes item k and points at the directory of its parent path. */
  predicate DescribesAt(items: seq<WalkItem>, ids: seq<Blob16>, entries: seq<Entry>, k: nat)
    requires k < |items| && k < |ids| && k + 1 < |entries|
  {
    ItemFits(items, k) && Describes(items[k], k + 2, DirectoryIds(items[..k])[Parent(items[k].path)], ids[k], entries[k + 1])
  }

  ghost predicate DescribesAll(items: seq<WalkItem>, ids: seq<Blob16>, entries: seq<Entry>) {
    && |ids| >= |items| && |entries| == |items| + 1
    && entries[0] == ROOT
    && (forall k :: 0 <= k < |items| ==> DescribesAt(items, ids, entries, k))
  }

  function SourcesOf(items: seq<WalkItem>): seq<(u64, Content)>
    requires |items| < MAX_ENTRIES
  {
    if items == [] then []
    else
      var n := |items| - 1;
      if items[n].Item? && items[n].kind.SourceFile?
      then SourcesOf(items[..n]) + [(n + 2, items[n].kind.content)]
      else SourcesOf(items[..n])
  }

  lemma {:induction false} ContiguousSnoc(xs: seq<Extent>, start: u64, end: u64, size: u64, id: u64)
    requires Contiguous(xs, start, end) && end + size < U64_LIMIT
    ensures Contiguous(xs + [Extent(end, size, id)], start, end + size)
  {
    if xs == [] {
    } else {
      ContiguousSnoc(xs[1..], start + xs[0].size, end, size, id);
      assert (xs + [Extent(end, size, id)])[1..] == xs[1..] + [Extent(end, size, id)];
    }
  }

  lemma ContiguousSorted(xs: seq<Extent>, end: u64)
    requires Contiguous(xs, 0, end)
    ensures SortByKey(Offset, xs) == xs
  {
    forall i, j | 0 <= i < j < |xs| ensures Offset(xs[i]) <= Offset(xs[j]) {
      ContiguousDisjoint(xs, 0, end, i, j);
    }
    SortByKeyIdentity(Offset, xs);
  }

  lemma {:induction false} DirectoryIdsExact(items: seq<WalkItem>, p: seq<string>)
    requires p in DirectoryIds(items)
    ensures || (p == [] && DirectoryIds(items)[p] == 1)
            || (2 <= DirectoryIds(items)[p] < |items| + 2
                && items[DirectoryIds(items)[p] - 2].Item?
                && items[DirectoryIds(items)[p] - 2].kind == SourceDirectory
                && items[DirectoryIds(items)[p] - 2].path == p)
  {
    if items != [] {
      var rest := items[..|items| - 1];
      if p in DirectoryIds(rest) { DirectoryIdsExact(rest, p); }
    }
  }

  /** The checks on an item's path, given the directories met before; returns its depth. */
  method CheckPath(item: WalkItem, pathIds: map<seq<string>, nat>) returns (r: Result<u32>)
    requires item.Item? ==> item.path != []
    requires forall p :: p in pathIds ==> |p| <= MAX_DEPTH
    ensures r.Ok? <==> PathOk(item) && Parent(item.path) in pathIds
    ensures r.Ok? ==> r.value == |item.path|
  {
    if item.WalkError? {
      return Err(Io);
    }
    var path := item.path;
    if Parent(path) !in pathIds {
      return Err(ParentMissing);
    }
    if !item.utf8 {
      return Err(InvalidName);
    }
    if !Names.ValidName(FileName(path)) {
      return Err(InvalidName);
    }
    var depth: u32 := |path| % 0x1_0000_0000;
    if depth > MAX_DEPTH {
      return Err(SourceTooLarge);
    }
    r := Ok(depth);
  }

  /** The entry for one item; links, special files and overflowing sizes are refused. */
  method MakeEntry(kind: SourceKind, id: u64, parentId: u64, name: string, depth: u32, fileId: Blob16, dataOffset: u64)
    returns (r: Result<Entry>)
    ensures r.Ok? <==> KindOk(kind)
    ensures r.Ok? ==> DescribesData(kind, fileId, r.value)
    ensures r.Ok? ==> r.value.id == id && r.value.parentId == parentId && r.value.name == name && r.value.depth == depth
    ensures r.Ok? && r.value.kind == File ==> r.value.dataOffset == dataOffset
  {
    match kind {
      case SourceLink => r := Err(UnsafeSource);
      case SourceSpecial => r := Err(UnsafeSource);
      case SourceDirectory =>
        r := Ok(Entry(id, parentId, name, depth, Directory, ZERO_ID, 0, 0, 0, 0));
      case SourceFile(content) =>
        var sizes := EncryptedFileSize(|content|);
        if sizes.None? {
          return Err(Overflow);
        }
        var (chunkCount, encryptedSize) := sizes.value;
        r := Ok(Entry(id, parentId, name, depth, File, fileId, |content|, dataOffset, encryptedSize, chunkCount));
    }
  }

  /** The entry of a file item is a file of the item's sizes. */
  lemma DescribesSizes(item: WalkItem, id: nat, parentId: nat, fileId: Blob16, e: Entry)
    requires Describes(item, id, parentId, fileId, e)
    ensures e.kind == File <==> item.kind.SourceFile?
    ensures e.kind == File ==> e.size == PlainSize(item) && e.encryptedSize == CipherSize(item)
    ensures e.kind == Directory ==> PlainSize(item) == 0 && CipherSize(item) == 0
  {
  }

  /** One turn of the loop up to the new entry. */
  method ScanItem(item: WalkItem, id: u64, fileId: Blob16, pathIds: map<seq<string>, nat>, dataOffset: u64)
    returns (r: Result<Entry>)
    requires item.Item? ==> item.path != []
    requires forall p :: p in pathIds ==> pathIds[p] < U64_LIMIT && |p| <= MAX_DEPTH
    ensures r.Ok? <==> ItemOk(item) && Parent(item.path) in pathIds
    ensures r.Ok? ==> Describes(item, id, pathIds[Parent(item.path)], fileId, r.value)
    ensures r.Ok? && r.value.kind == File ==> r.value.dataOffset == dataOffset
  {
    var depth := CheckPath(item, pathIds);
    if depth.Err? {
      return Err(depth.error);
    }
    r := MakeEntry(item.kind, id, pathIds[Parent(item.path)], FileName(item.path), depth.value, fileId, dataOffset);
  }

  /** The index of a walk: one entry an item, contiguous extents, the sources and both totals. */
  ghost predicate ScanResult(items: seq<WalkItem>, ids: seq<Blob16>, st: Scanned) {
    && |items| < MAX_ENTRIES
    && DescribesAll(items, ids, st.entries)
    && st.sources == SourcesOf(items)
    && st.totalPlaintext == Total(PlainSize, items)
    && st.dataSize == Total(CipherSize, items)
    && Contiguous(FilesOf(st.entries), 0, st.dataSize)
  }

  lemma DescribesMore(items: seq<WalkItem>, ids: seq<Blob16>, entries: seq<Entry>, k: nat, e: Entry)
    requires k < |items| <= |ids| && DescribesAll(items[..k], ids, entries)
    requires ItemFits(items, k)
    requires Describes(items[k], k + 2, DirectoryIds(items[..k])[Parent(items[k].path)], ids[k], e)
    ensures DescribesAll(items[..k + 1], ids, entries + [e])
  {
    var before, after := items[..k], items[..k + 1];
    forall j | 0 <= j < k + 1 ensures DescribesAt(after, ids, entries + [e], j) {
      assert after[..j] == items[..j];
      if j < k {
        assert DescribesAt(before, ids, entries, j);
        assert before[..j] == items[..j];
      }
    }
  }

  function Extend(st: Scanned, item: WalkItem, e: Entry): Scanned
    requires st.totalPlaintext + PlainSize(item) < U64_LIMIT && st.dataSize + CipherSize(item) < U64_LIMIT
  {
    Scanned(st.entries + [e],
            if item.Item? && item.kind.SourceFile? then st.sources + [(e.id, item.kind.content)] else st.sources,
            st.totalPlaintext + PlainSize(item), st.dataSize + CipherSize(item))
  }

  /** Appends an entry and its source and advances both running totals, unless one would overflow. */
  method PushEntry(st: Scanned, item: WalkItem, e: Entry) returns (r: Result<Scanned>)
    requires e.kind == File <==> item.Item? && item.kind.SourceFile?
    requires e.kind == File ==> e.size == PlainSize(item) && e.encryptedSize == CipherSize(item)
    ensures r.Ok? <==> st.totalPlaintext + PlainSize(item) < U64_LIMIT && st.dataSize + CipherSize(item) < U64_LIMIT
    ensures r.Ok? ==> r.value == Extend(st, item, e)
  {
    if e.kind == Directory {
      return Ok(st.(entries := st.entries + [e]));
    }
    var total := CheckedAdd(st.totalPlaintext, e.size);
    if total.None? {
      return Err(Overflow);
    }
    var offset := CheckedAdd(st.dataSize, e.encryptedSize);
    if offset.None? {
      return Err(Overflow);
    }
    r := Ok(Scanned(st.entries + [e], st.sources + [(e.id, item.kind.content)], total.value, offset.value));
  }

  lemma ScanStep(items: seq<WalkItem>, ids: seq<Blob16>, k: nat, st: Scanned, e: Entry)
    requires k < |items| <= |ids| && k + 1 < MAX_ENTRIES && ScanResult(items[..k], ids, st)
    requires ItemFits(items, k)
    requires Describes(items[k], k + 2, DirectoryIds(items[..k])[Parent(items[k].path)], ids[k], e)
    requires e.kind == File ==> e.dataOffset == st.dataSize
    requires st.totalPlaintext + PlainSize(items[k]) < U64_LIMIT && st.dataSize + CipherSize(items[k]) < U64_LIMIT
    ensures ScanResult(items[..k + 1], ids, Extend(st, items[k], e))
  {
    DescribesMore(items, ids, st.entries, k, e);
    DescribesSizes(items[k], k + 2, e.parentId, ids[k], e);
    var after := items[..k + 1];
    assert after[..k] == items[..k] && after[k] == items[k];
    assert (st.entries + [e])[..|st.entries|] == st.entries;
    if e.kind == File {
      ContiguousSnoc(FilesOf(st.entries), 0, st.dataSize, e.encryptedSize, e.id);
    }
  }

  lemma DirectoryIdsBounded(items: seq<WalkItem>, ids: seq<Blob16>, entries: seq<Entry>)
    requires |items| < MAX_ENTRIES && DescribesAll(items, ids, entries)
    ensures forall p :: p in DirectoryIds(items) ==> DirectoryIds(items)[p] < U64_LIMIT && |p| <= MAX_DEPTH
  {
    forall p | p in DirectoryIds(items) ensures DirectoryIds(items)[p] < U64_LIMIT && |p| <= MAX_DEPTH {
      DirectoryIdsExact(items, p);
      if p != [] { assert DescribesAt(items, ids, entries, DirectoryIds(items)[p] - 2); }
    }
  }

  lemma ScannedAll(items: seq<WalkItem>, ids: seq<Blob16>, st: Scanned)
    requires ScanResult(items, ids, st)
    ensures Scannable(items)
  {
    forall j | 0 <= j < |items| ensures ItemFits(items, j) {
      assert DescribesAt(items, ids, st.entries, j);
    }
  }

  lemma NotScannable(items: seq<WalkItem>, k: nat)
    requires k < |items|
    ensures !ItemFits(items, k) ==> !Scannable(items)
    ensures Total(PlainSize, items[..k]) + PlainSize(items[k]) >= U64_LIMIT ==> !Scannable(items)
    ensures Total(CipherSize, items[..k]) + CipherSize(items[k]) >= U64_LIMIT ==> !Scannable(items)
  {
    TotalMonotone(PlainSize, items, k + 1);
    TotalMonotone(CipherSize, items, k + 1);
    assert items[..k + 1][..k] == items[..k] && items[..k + 1][k] == items[k];
  }

  /** One turn of the loop: the new entry, its source and the running totals. */
  method ScanNext(items: seq<WalkItem>, ids: seq<Blob16>, k: nat, pathIds: map<seq<string>, nat>, st: Scanned)
    returns (r: Result<Scanned>)
    requires ProperWalk(items) && k < |items| <= |ids|
    requires ScanResult(items[..k], ids, st) && pathIds == DirectoryIds(items[..k])
    ensures r.Ok? ==> items[k].Item? && ScanResult(items[..k + 1], ids, r.value)
    ensures r.Err? ==> !Scannable(items)
  {
    NotScannable(items, k);
    if |st.entries| >= MAX_ENTRIES {
      return Err(SourceTooLarge);
    }
    var item := items[k];
    DirectoryIdsBounded(items[..k], ids, st.entries);
    var made := ScanItem(item, k + 2, ids[k], pathIds, st.dataSize);
    if made.Err? {
      return Err(made.error);
    }
    var e := made.value;
    DescribesSizes(item, k + 2, e.parentId, ids[k], e);
    r := PushEntry(st, item, e);
    if r.Ok? {
      ScanStep(items, ids, k, st, e);
    }
  }

  /**
   Scans exactly the acceptable walks.  `cancelAt` is the poll at which the token first reads cancelled.
   */
  method ScanSource(items: seq<WalkItem>, ids: seq<Blob16>, cancelAt: nat) returns (r: Result<Scanned>)
    requires ProperWalk(items) && FreshIds(ids, |items|)
    ensures r.Ok? <==> Scannable(items) && |items| <= cancelAt
    ensures r.Ok? ==> ScanResult(items, ids, r.value)
  {
    var st := Scanned([ROOT], [], 0, 0);
    assert st.entries[..0] == [];
    var pathIds: map<seq<string>, nat> := map[[] := 1];
    for k := 0 to |items|
      invariant k <= cancelAt
      invariant pathIds == DirectoryIds(items[..k])
      invariant ScanResult(items[..k], ids, st)
    {
      if k >= cancelAt {
        return Err(Cancelled);
      }
      var next := ScanNext(items, ids, k, pathIds, st);
      if next.Err? {
        return Err(next.error);
      }
      st := next.value;
      if items[k].kind == SourceDirectory {
        pathIds := pathIds[items[k].path := k + 2];
      }
      assert items[..k + 1][..k] == items[..k];
    }
    assert items[..|items|] == items;
    ScannedAll(items, ids, st);
    r := Ok(st);
  }

  // ---------- The result is an acceptable index ----------

  lemma EntryOfItem(items: seq<WalkItem>, ids: seq<Blob16>, entries: seq<Entry>, k: nat)
    requires FreshIds(ids, |items|) && DescribesAll(items, ids, entries) && k < |items|
    ensures RowOk(entries[k + 1]) && entries[k + 1].id == k + 2
    ensures entries[k + 1].kind == File ==> entries[k + 1].fileId == ids[k]
  {
    assert DescribesAt(items, ids, entries, k);
  }

  lemma ScannedRows(items: seq<WalkItem>, ids: seq<Blob16>, entries: seq<Entry>)
    requires FreshIds(ids, |items|) && DescribesAll(items, ids, entries)
    ensures RowsOk(entries)
    ensures forall i :: 0 <= i < |entries| ==> entries[i].id == i + 1
  {
    forall i | 0 <= i < |entries| ensures RowOk(entries[i]) && entries[i].id == i + 1 {
      if i > 0 { EntryOfItem(items, ids, entries, i - 1); }
    }
    forall i, j | 0 <= i < j < |entries| && entries[i].kind == File && entries[j].kind == File
      ensures entries[i].fileId != entries[j].fileId
    {
      EntryOfItem(items, ids, entries, i - 1);
      EntryOfItem(items, ids, entries, j - 1);
    }
  }

  /** Path of the item behind an entry id; the root is the source directory itself. */
  function PathOfId(items: seq<WalkItem>, id: nat): seq<string> {
    if 2 <= id < |items| + 2 && items[id - 2].Item? then items[id - 2].path else []
  }

  /** The parent entry of item k is the directory of its parent path. */
  lemma ParentEntry(items: seq<WalkItem>, ids: seq<Blob16>, entries: seq<Entry>, k: nat)
    requires DescribesAll(items, ids, entries) && k < |items|
    ensures ItemOk(items[k]) && entries[k + 1].name == FileName(items[k].path)
    ensures 1 <= entries[k + 1].parentId <= k + 1
    ensures entries[entries[k + 1].parentId - 1].kind == Directory
    ensures entries[entries[k + 1].parentId - 1].depth + 1 == entries[k + 1].depth
    ensures Parent(items[k].path) == PathOfId(items, entries[k + 1].parentId)
  {
    assert DescribesAt(items, ids, entries, k);
    var q, seen := entries[k + 1].parentId, items[..k];
    DirectoryIdsExact(seen, Parent(items[k].path));
    if q > 1 {
      assert seen[q - 2] == items[q - 2] && items[q - 2].path == Parent(items[k].path);
      assert DescribesAt(items, ids, entries, q - 2);
      assert entries[q - 1].depth == |items[q - 2].path|;
    }
  }

  lemma ScannedPlaces(items: seq<WalkItem>, ids: seq<Blob16>, entries: seq<Entry>, j: nat, k: nat)
    requires ProperWalk(items) && DescribesAll(items, ids, entries) && j < k < |items|
    ensures Place(entries[j + 1]) != Place(entries[k + 1])
  {
    ParentEntry(items, ids, entries, j);
    ParentEntry(items, ids, entries, k);
    var p, q := items[j].path, items[k].path;
    assert p == Parent(p) + [FileName(p)] && q == Parent(q) + [FileName(q)];
  }

  /** The id table of entries numbered from 1. */
  ghost predicate Numbered(m: EntryMap, entries: seq<Entry>) {
    forall id :: (id in m <==> 1 <= id <= |entries|) && (id in m ==> m[id] == entries[id - 1])
  }

  lemma {:induction false} NumberedById(entries: seq<Entry>)
    requires forall i :: 0 <= i < |entries| ==> entries[i].id == i + 1
    ensures Numbered(ById(entries), entries)
  {
    if entries != [] {
      var n := |entries| - 1;
      var rest := entries[..n];
      NumberedById(rest);
      assert entries[n].id == n + 1;
      assert ById(entries) == ById(rest)[entries[n].id := entries[n]];
    }
  }

  lemma ScannedParent(items: seq<WalkItem>, ids: seq<Blob16>, entries: seq<Entry>, m: EntryMap, id: u64)
    requires DescribesAll(items, ids, entries) && Numbered(m, entries) && id in m && id != 1
    ensures ParentOk(m, m[id])
  {
    ParentEntry(items, ids, entries, id - 2);
    assert m[id] == entries[id - 1];
    assert m[m[id].parentId] == entries[m[id].parentId - 1];
  }

  lemma ScannedSiblings(items: seq<WalkItem>, ids: seq<Blob16>, entries: seq<Entry>, m: EntryMap, x: u64, y: u64)
    requires ProperWalk(items) && DescribesAll(items, ids, entries) && Numbered(m, entries)
    requires x in m && y in m && x != 1 && y != 1 && x != y
    ensures Place(m[x]) != Place(m[y])
  {
    assert m[x] == entries[x - 1] && m[y] == entries[y - 1];
    if x < y {
      ScannedPlaces(items, ids, entries, x - 2, y - 2);
    } else {
      ScannedPlaces(items, ids, entries, y - 2, x - 2);
    }
  }

  lemma ScannedTreeOk(items: seq<WalkItem>, ids: seq<Blob16>, entries: seq<Entry>, m: EntryMap)
    requires ProperWalk(items) && DescribesAll(items, ids, entries) && Numbered(m, entries)
    ensures TreeOk(m)
  {
    forall id | id in m && id != 1 ensures ParentOk(m, m[id]) {
      ScannedParent(items, ids, entries, m, id);
    }
    forall x, y | x in m && y in m && x != 1 && y != 1 && x != y ensures Place(m[x]) != Place(m[y]) {
      ScannedSiblings(items, ids, entries, m, x, y);
    }
    assert m[1] == ROOT;
  }

  /** Whatever the scan returns is accepted by `validate_index` under the header that pack builds from it. */
  lemma ScannedIsAccepted(items: seq<WalkItem>, ids: seq<Blob16>, entries: seq<Entry>, dataSize: u64)
    requires ProperWalk(items) && FreshIds(ids, |items|) && DescribesAll(items, ids, entries)
    requires |items| < MAX_ENTRIES && Contiguous(FilesOf(entries), 0, dataSize)
    ensures Accepted(|entries|, dataSize, entries)
  {
    ScannedRows(items, ids, entries);
    NumberedById(entries);
    ScannedTreeOk(items, ids, entries, ById(entries));
    ContiguousSorted(FilesOf(entries), dataSize);
  }

  function Chunks(item: WalkItem): nat {
    if item.Item? && item.kind.SourceFile? && EncryptedFileSize(|item.kind.content|).Some?
    then EncryptedFileSize(|item.kind.content|).value.0
    else 0
  }

  /** The data area is the plaintext plus 16 bytes for each chunk. */
  lemma {:induction false} DataSizeIsPlaintextPlusTags(items: seq<WalkItem>)
    requires forall k :: 0 <= k < |items| ==> ItemOk(items[k])
    ensures Total(CipherSize, items) == Total(PlainSize, items) + TAG_SIZE * Total(Chunks, items)
  {
    if items != [] {
      var n := |items| - 1;
      DataSizeIsPlaintextPlusTags(items[..n]);
      assert ItemOk(items[n]);
      if items[n].kind.SourceFile? { EncryptedFileSizeExact(|items[n].kind.content|); }
    }
  }
}
