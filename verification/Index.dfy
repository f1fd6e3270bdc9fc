/** `validate_index`: the acceptance rule of an authenticated index and its implementation. */
module Index {
  import opened Common
  import opened Sequences
  import opened Format
  import opened Layout
  import Names

  type EntryMap = map<u64, Entry>

  datatype ValidatedIndex = ValidatedIndex(entries: EntryMap, children: map<u64, seq<u64>>)

  datatype Extent = Extent(offset: u64, size: u64, id: u64)

  // ---------- The acceptance rule ----------

  /** What one entry must satisfy on its own. */
  predicate RowOk(e: Entry) {
    && e.id != 0
    && e.depth <= MAX_DEPTH
    && (if e.id == 1 then e.parentId == 1 && e.depth == 0 && e.kind == Directory && e.name == ""
        else Names.ValidName(e.name))
    && (match e.kind
        case Directory => e.size == 0 && e.dataOffset == 0 && e.encryptedSize == 0 && e.chunkCount == 0 && e.fileId == ZERO_ID
        case File => e.fileId != ZERO_ID && SizedFile(e))
  }

  ghost predicate DistinctIds(entries: seq<Entry>) {
    forall i, j :: 0 <= i < j < |entries| ==> entries[i].id != entries[j].id
  }

  ghost predicate RowsOk(entries: seq<Entry>) {
    && (forall i :: 0 <= i < |entries| ==> RowOk(entries[i]))
    && DistinctIds(entries)
    && (forall i, j :: 0 <= i < j < |entries| && entries[i].kind == File && entries[j].kind == File ==>
          entries[i].fileId != entries[j].fileId)
  }

  predicate ParentOk(m: EntryMap, e: Entry) {
    && e.parentId in m
    && m[e.parentId].kind == Directory
    && m[e.parentId].depth + 1 == e.depth
  }

  function Place(e: Entry): (u64, string) {
    (e.parentId, e.name)
  }

  ghost predicate TreeOk(m: EntryMap) {
    && 1 in m && m[1].kind == Directory
    && (forall id {:trigger ParentOk(m, m[id])} :: id in m && id != 1 ==> ParentOk(m, m[id]))
    && (forall x, y {:trigger Place(m[x]), Place(m[y])} ::
          x in m && y in m && x != 1 && y != 1 && x != y ==> Place(m[x]) != Place(m[y]))
  }

  /** Consecutive extents from `start` that end at `end`, without u64 overflow on the way. */
  predicate Contiguous(extents: seq<Extent>, start: u64, end: u64) {
    if extents == [] then start == end
    else
      && extents[0].offset == start
      && start + extents[0].size < U64_LIMIT
      && Contiguous(extents[1..], start + extents[0].size, end)
  }

  function Offset(x: Extent): int { x.offset }

  function ById(entries: seq<Entry>): EntryMap {
    if entries == [] then map[]
    else ById(entries[..|entries| - 1])[entries[|entries| - 1].id := entries[|entries| - 1]]
  }

  function Push(children: map<u64, seq<u64>>, parent: u64, id: u64): map<u64, seq<u64>> {
    children[parent := (if parent in children then children[parent] else []) + [id]]
  }

  function ChildrenOf(entries: seq<Entry>): map<u64, seq<u64>> {
    if entries == [] then map[]
    else
      var rest, e := ChildrenOf(entries[..|entries| - 1]), entries[|entries| - 1];
      if e.id == 1 then rest else Push(rest, e.parentId, e.id)
  }

  function FilesOf(entries: seq<Entry>): seq<Extent> {
    if entries == [] then []
    else
      var rest, e := FilesOf(entries[..|entries| - 1]), entries[|entries| - 1];
      if e.kind == File then rest + [Extent(e.dataOffset, e.encryptedSize, e.id)] else rest
  }

  /** The whole rule; `entryCount` and `dataSize` come from the authenticated header. */
  ghost predicate Accepted(entryCount: u64, dataSize: u64, entries: seq<Entry>) {
    && |entries| == entryCount
    && |entries| <= MAX_ENTRIES
    && RowsOk(entries)
    && TreeOk(ById(entries))
    && Contiguous(SortByKey(Offset, FilesOf(entries)), 0, dataSize)
  }

  function Validated(entries: seq<Entry>): ValidatedIndex {
    ValidatedIndex(ById(entries), ChildrenOf(entries))
  }

  // ---------- Facts about the tables ----------

  function IdSet(entries: seq<Entry>): set<u64> {
    set i | 0 <= i < |entries| :: entries[i].id
  }

  lemma IdSetStep(entries: seq<Entry>)
    requires entries != []
    ensures IdSet(entries) == IdSet(entries[..|entries| - 1]) + {entries[|entries| - 1].id}
  {
    var n := |entries| - 1;
    assert forall i :: 0 <= i < n ==> entries[..n][i] == entries[i];
    assert IdSet(entries[..n]) <= IdSet(entries);
  }

  lemma {:induction false} ByIdKeys(entries: seq<Entry>)
    ensures ById(entries).Keys == IdSet(entries)
  {
    if entries != [] {
      IdSetStep(entries);
      ByIdKeys(entries[..|entries| - 1]);
    }
  }

  lemma {:induction false} ByIdValue(entries: seq<Entry>, i: nat)
    requires i < |entries| && DistinctIds(entries)
    ensures entries[i].id in ById(entries) && ById(entries)[entries[i].id] == entries[i]
  {
    var n := |entries| - 1;
    if i < n {
      ByIdValue(entries[..n], i);
    }
  }

  /** The id table holds exactly the listed entries, each under its own id. */
  lemma ByIdFacts(entries: seq<Entry>)
    requires DistinctIds(entries)
    ensures forall i :: 0 <= i < |entries| ==> entries[i].id in ById(entries) && ById(entries)[entries[i].id] == entries[i]
    ensures forall id :: id in ById(entries) ==> ById(entries)[id].id == id && ById(entries)[id] in entries
  {
    forall i | 0 <= i < |entries| ensures entries[i].id in ById(entries) && ById(entries)[entries[i].id] == entries[i] {
      ByIdValue(entries, i);
    }
    ByIdKeys(entries);
    forall id | id in ById(entries) ensures ById(entries)[id].id == id && ById(entries)[id] in entries {
      assert id in IdSet(entries);
    }
  }

  // ---------- The implementation ----------

  function FileIds(entries: seq<Entry>): set<Blob16> {
    if entries == [] then {}
    else
      var rest, e := FileIds(entries[..|entries| - 1]), entries[|entries| - 1];
      if e.kind == File then rest + {e.fileId} else rest
  }

  /** `RowsOk` as the first loop sees it: one more entry against the ids met so far. */
  predicate RowsInOrder(entries: seq<Entry>) {
    entries == [] ||
    var rest, e := entries[..|entries| - 1], entries[|entries| - 1];
    RowsInOrder(rest) && RowOk(e) && e.id !in ById(rest).Keys && (e.kind == File ==> e.fileId !in FileIds(rest))
  }

  lemma {:induction false} FileIdsExact(entries: seq<Entry>, f: Blob16)
    ensures f in FileIds(entries) <==> exists i :: 0 <= i < |entries| && entries[i].kind == File && entries[i].fileId == f
  {
    if entries != [] {
      var n := |entries| - 1;
      FileIdsExact(entries[..n], f);
      assert forall i :: 0 <= i < n ==> entries[..n][i] == entries[i];
    }
  }

  lemma RowsOkStep(entries: seq<Entry>)
    requires entries != []
    ensures var rest, e := entries[..|entries| - 1], entries[|entries| - 1];
      RowsOk(entries) <==>
        && RowsOk(rest) && RowOk(e)
        && (forall i :: 0 <= i < |rest| ==> rest[i].id != e.id)
        && (e.kind == File ==> forall i :: 0 <= i < |rest| && rest[i].kind == File ==> rest[i].fileId != e.fileId)
  {
    var n := |entries| - 1;
    var rest := entries[..n];
    assert forall i :: 0 <= i < n ==> rest[i] == entries[i];
  }

  lemma {:induction false} RowsInOrderIff(entries: seq<Entry>)
    ensures RowsInOrder(entries) <==> RowsOk(entries)
  {
    if entries != [] {
      var rest, e := entries[..|entries| - 1], entries[|entries| - 1];
      RowsInOrderIff(rest);
      RowsOkStep(entries);
      ByIdKeys(rest);
      FileIdsExact(rest, e.fileId);
      assert e.id in ById(rest) <==> exists i :: 0 <= i < |rest| && rest[i].id == e.id;
    }
  }

  lemma {:induction false} RowsInOrderPrefix(entries: seq<Entry>, i: nat)
    requires i <= |entries| && RowsInOrder(entries)
    ensures RowsInOrder(entries[..i])
    decreases |entries| - i
  {
    if i < |entries| {
      RowsInOrderPrefix(entries, i + 1);
      assert entries[..i + 1][..i] == entries[..i];
    } else {
      assert entries[..i] == entries;
    }
  }

  method ValidateRows(entries: seq<Entry>) returns (ok: bool, byId: EntryMap, children: map<u64, seq<u64>>,
                      files: seq<Extent>)
    ensures ok <==> RowsInOrder(entries)
    ensures ok ==> byId == ById(entries) && children == ChildrenOf(entries) && files == FilesOf(entries)
  {
    var fileIds: set<Blob16> := {};
    byId, children, files := map[], map[], [];
    for i := 0 to |entries|
      invariant RowsInOrder(entries[..i]) && fileIds == FileIds(entries[..i])
      invariant byId == ById(entries[..i]) && children == ChildrenOf(entries[..i]) && files == FilesOf(entries[..i])
    {
      var e := entries[i];
      ghost var before, after := entries[..i], entries[..i + 1];
      assert after[..|after| - 1] == before && after[|after| - 1] == e;
      var rowOk := CheckRow(e, byId.Keys, fileIds);
      if !rowOk {
        assert !RowsInOrder(after);
        if RowsInOrder(entries) { RowsInOrderPrefix(entries, i + 1); }
        return false, byId, children, files;
      }
      match e.kind {
        case Directory =>
        case File =>
          fileIds := fileIds + {e.fileId};
          files := files + [Extent(e.dataOffset, e.encryptedSize, e.id)];
      }
      if e.id != 1 {
        children := Push(children, e.parentId, e.id);
      }
      byId := byId[e.id := e];
    }
    assert entries[..|entries|] == entries;
    ok := true;
  }

  method CheckRow(e: Entry, ids: set<u64>, fileIds: set<Blob16>) returns (ok: bool)
    ensures ok <==> RowOk(e) && e.id !in ids && (e.kind == File ==> e.fileId !in fileIds)
  {
    if e.id == 0 || e.id in ids || e.depth > MAX_DEPTH {
      return false;
    }
    if e.id == 1 {
      if e.parentId != 1 || e.depth != 0 || e.kind != Directory || e.name != "" {
        return false;
      }
    } else if !Names.ValidName(e.name) {
      return false;
    }
    match e.kind {
      case Directory =>
        if e.size != 0 || e.dataOffset != 0 || e.encryptedSize != 0 || e.chunkCount != 0 || e.fileId != ZERO_ID {
          return false;
        }
      case File =>
        if e.fileId == ZERO_ID || e.fileId in fileIds {
          return false;
        }
        var sizes := EncryptedFileSize(e.size);
        if sizes.None? || sizes.value.0 != e.chunkCount || sizes.value.1 != e.encryptedSize {
          return false;
        }
    }
    ok := true;
  }

  /** `owner` names, for each place met so far, the one entry that took it. */
  ghost predicate Visited(m: EntryMap, todo: set<u64>, owner: map<(u64, string), u64>) {
    && (forall id :: id in m && id !in todo && id != 1 ==>
          ParentOk(m, m[id]) && Place(m[id]) in owner && owner[Place(m[id])] == id)
    && (forall p :: p in owner ==> owner[p] in m && owner[p] !in todo && owner[p] != 1 && Place(m[owner[p]]) == p)
  }

  lemma VisitedAll(m: EntryMap, owner: map<(u64, string), u64>)
    requires Visited(m, {}, owner) && 1 in m && m[1].kind == Directory
    ensures TreeOk(m)
  {
  }

  lemma VisitOne(m: EntryMap, todo: set<u64>, owner: map<(u64, string), u64>, id: u64)
    requires Visited(m, todo, owner) && id in todo && id in m && id != 1
    requires ParentOk(m, m[id]) && Place(m[id]) !in owner
    ensures Visited(m, todo - {id}, owner[Place(m[id]) := id])
  {
  }

  /** The HashMap is walked in an arbitrary order; `places` stands for the per-parent name sets. */
  method ValidateTree(m: EntryMap) returns (ok: bool)
    ensures ok <==> TreeOk(m)
  {
    if 1 !in m || m[1].kind != Directory {
      return false;
    }
    var todo := m.Keys;
    var places: set<(u64, string)> := {};
    ghost var owner: map<(u64, string), u64> := map[];
    while todo != {}
      invariant todo <= m.Keys && places == owner.Keys
      invariant Visited(m, todo, owner)
      decreases |todo|
    {
      var id :| id in todo;
      var e := m[id];
      if id != 1 {
        if !ParentOk(m, e) {
          return false;
        }
        if Place(e) in places {
          return false;
        }
        VisitOne(m, todo, owner, id);
        places := places + {Place(e)};
        owner := owner[Place(e) := id];
      }
      todo := todo - {id};
    }
    VisitedAll(m, owner);
    ok := true;
  }

  method ValidateExtents(files: seq<Extent>, dataSize: u64) returns (ok: bool)
    ensures ok <==> Contiguous(SortByKey(Offset, files), 0, dataSize)
  {
    var sorted := SortByKey(Offset, files);
    var expected: u64 := 0;
    for i := 0 to |sorted|
      invariant Contiguous(sorted, 0, dataSize) == Contiguous(sorted[i..], expected, dataSize)
    {
      if sorted[i].offset != expected {
        return false;
      }
      var next := CheckedAdd(expected, sorted[i].size);
      if next.None? {
        return false;
      }
      expected := next.value;
      assert sorted[i..][1..] == sorted[i + 1..];
    }
    ok := expected == dataSize;
  }

  /** Accepts exactly the indexes that satisfy the rule and returns their tables. */
  method ValidateIndex(entryCount: u64, dataSize: u64, entries: seq<Entry>) returns (r: Result<ValidatedIndex>)
    ensures r.Ok? <==> Accepted(entryCount, dataSize, entries)
    ensures r.Ok? ==> r.value == Validated(entries)
  {
    if |entries| != entryCount || |entries| > MAX_ENTRIES {
      return Err(InvalidIndex);
    }
    var ok, byId, children, files := ValidateRows(entries);
    RowsInOrderIff(entries);
    if !ok {
      return Err(InvalidIndex);
    }
    ByIdFacts(entries);
    ok := ValidateTree(byId);
    if !ok {
      return Err(InvalidIndex);
    }
    ok := ValidateExtents(files, dataSize);
    if !ok {
      return Err(InvalidIndex);
    }
    r := Ok(ValidatedIndex(byId, children));
  }
}
