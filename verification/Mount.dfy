/** The worklist of the Windows mount: every entry of the container, found from the root. */
module Mount {
  import opened Common
  import opened Sequences
  import opened Format
  import opened Layout
  import opened Index
  import opened IndexProperties
  import opened Totals

  /** The entries that the container index was validated from. */
  ghost predicate Backed(index: ValidatedIndex, entries: seq<Entry>, entryCount: u64, dataSize: u64) {
    Accepted(entryCount, dataSize, entries) && index == Validated(entries)
  }

  function ChildIds(index: ValidatedIndex, id: u64): seq<u64> {
    if id in index.children then index.children[id] else []
  }

  /** The children of a directory in any order; sorting by name picks one of them. */
  method ReadDir(index: ValidatedIndex, id: u64) returns (list: seq<u64>)
    ensures multiset(list) == multiset(ChildIds(index, id))
  {
    list := [];
    var rest := ChildIds(index, id);
    while rest != []
      invariant multiset(list) + multiset(rest) == multiset(ChildIds(index, id))
      decreases |rest|
    {
      var k :| 0 <= k < |rest|;
      list := list + [rest[k]];
      assert rest == rest[..k] + [rest[k]] + rest[k + 1..];
      rest := rest[..k] + rest[k + 1..];
    }
  }

  lemma {:induction false} NoRepeatsCount(s: seq<u64>, x: u64)
    requires NoRepeats(s)
    ensures multiset(s)[x] <= 1
  {
    if s != [] {
      NoRepeatsCount(s[1..], x);
      assert s == [s[0]] + s[1..];
      if s[0] == x { assert x !in s[1..]; }
    }
  }

  lemma CountNoRepeats(s: seq<u64>)
    requires forall x :: multiset(s)[x] <= 1
    ensures NoRepeats(s)
  {
    forall i, j | 0 <= i < j < |s| ensures s[i] != s[j] {
      assert s == s[..j] + [s[j]] + s[j + 1..];
      assert s[i] in s[..j];
      assert multiset(s)[s[j]] <= 1;
    }
  }

  /** A list without repeats, drawn from another, is a sub-bag of it; with the same members it is a rearrangement. */
  lemma DrawnFrom(s: seq<u64>, t: seq<u64>)
    requires NoRepeats(s) && forall x :: x in s ==> x in t
    ensures multiset(s) <= multiset(t)
    ensures NoRepeats(t) && (forall x :: x in t ==> x in s) ==> multiset(s) == multiset(t)
  {
    forall x: u64 | true ensures multiset(s)[x] <= multiset(t)[x] {
      NoRepeatsCount(s, x);
      assert x in multiset(s) ==> x in t;
    }
    if NoRepeats(t) && forall x :: x in t ==> x in s {
      forall x: u64 | true ensures multiset(s)[x] == multiset(t)[x] {
        NoRepeatsCount(t, x);
        assert x in multiset(t) ==> x in s;
      }
    }
  }

  lemma Rearranged(s: seq<u64>, t: seq<u64>)
    requires NoRepeats(s) && multiset(s) == multiset(t)
    ensures NoRepeats(t) && forall x :: x in s <==> x in t
  {
    forall x: u64 | true ensures multiset(t)[x] <= 1 && (x in s <==> x in t) {
      NoRepeatsCount(s, x);
      assert x in s <==> x in multiset(t);
    }
    CountNoRepeats(t);
  }

  lemma {:induction false} NoRepeatsSize(s: seq<u64>, all: set<u64>)
    requires NoRepeats(s) && forall x :: x in s ==> x in all
    ensures |s| <= |all|
  {
    if s != [] {
      assert s[0] !in s[1..];
      NoRepeatsSize(s[1..], all - {s[0]});
    }
  }

  /** What the worklist holds: distinct entries found through handled directories, and all children of those. */
  ghost predicate Found(m: EntryMap, nodes: seq<u64>, cursor: nat)
    requires cursor <= |nodes|
  {
    && NoRepeats(nodes) && |nodes| > 0 && nodes[0] == 1
    && (forall k :: 0 <= k < |nodes| ==> nodes[k] in m)
    && (forall k :: 1 <= k < |nodes| ==> nodes[k] != 1 && m[nodes[k]].parentId in nodes[..cursor])
    && (forall id :: id in m && id != 1 && m[id].parentId in nodes[..cursor] ==> id in nodes)
  }

  /** The children of the node at the cursor are new. */
  lemma ChildrenAreNew(m: EntryMap, nodes: seq<u64>, cursor: nat, id: u64)
    requires cursor < |nodes| && Found(m, nodes, cursor) && id in m && id != 1 && m[id].parentId == nodes[cursor]
    ensures id !in nodes
  {
    assert nodes[cursor] !in nodes[..cursor];
    forall k | 0 <= k < |nodes| ensures nodes[k] != id {
      assert k >= 1 ==> m[nodes[k]].parentId in nodes[..cursor];
    }
  }

  lemma AppendNew(s: seq<u64>, t: seq<u64>)
    requires NoRepeats(s) && NoRepeats(t) && forall x :: x in t ==> x !in s
    ensures NoRepeats(s + t)
  {
    var u := s + t;
    forall i, j | 0 <= i < j < |u| ensures u[i] != u[j] {
      if i < |s| <= j { assert u[j] in t; }
    }
  }

  /** One turn: the node at the cursor is handled and its children `list` are appended. */
  lemma FoundStep(m: EntryMap, nodes: seq<u64>, cursor: nat, list: seq<u64>)
    requires cursor < |nodes| && Found(m, nodes, cursor) && NoRepeats(list)
    requires forall id :: id in list <==> id in m && id != 1 && m[id].parentId == nodes[cursor]
    ensures Found(m, nodes + list, cursor + 1)
  {
    forall id | id in list ensures id !in nodes {
      ChildrenAreNew(m, nodes, cursor, id);
    }
    AppendNew(nodes, list);
    FoundParents(m, nodes, cursor, list);
    FoundAll(m, nodes, cursor, list);
  }

  lemma LookedAt(nodes: seq<u64>, cursor: nat, list: seq<u64>)
    requires cursor < |nodes|
    ensures forall id :: id in (nodes + list)[..cursor + 1] <==> id in nodes[..cursor] || id == nodes[cursor]
  {
    assert (nodes + list)[..cursor + 1] == nodes[..cursor] + [nodes[cursor]];
  }

  lemma FoundParents(m: EntryMap, nodes: seq<u64>, cursor: nat, list: seq<u64>)
    requires cursor < |nodes| && Found(m, nodes, cursor)
    requires forall id :: id in list <==> id in m && id != 1 && m[id].parentId == nodes[cursor]
    ensures var after := nodes + list;
      && (forall k :: 0 <= k < |after| ==> after[k] in m)
      && (forall k :: 1 <= k < |after| ==> after[k] != 1 && m[after[k]].parentId in after[..cursor + 1])
  {
    var after := nodes + list;
    LookedAt(nodes, cursor, list);
    forall k | 0 <= k < |after| ensures after[k] in m && (k >= 1 ==> after[k] != 1 && m[after[k]].parentId in after[..cursor + 1]) {
      if k < |nodes| {
        assert after[k] == nodes[k];
      } else {
        assert after[k] == list[k - |nodes|];
        assert after[k] in list;
      }
    }
  }

  lemma FoundAll(m: EntryMap, nodes: seq<u64>, cursor: nat, list: seq<u64>)
    requires cursor < |nodes| && Found(m, nodes, cursor)
    requires forall id :: id in list <==> id in m && id != 1 && m[id].parentId == nodes[cursor]
    ensures forall id :: id in m && id != 1 && m[id].parentId in (nodes + list)[..cursor + 1] ==> id in nodes + list
  {
    LookedAt(nodes, cursor, list);
  }


  /** When every found node is handled, every entry is found. */
  lemma {:induction false} AllFound(m: EntryMap, nodes: seq<u64>, id: u64)
    requires Tree(m) && Found(m, nodes, |nodes|) && id in m
    ensures id in nodes
    decreases m[id].depth
  {
    if id != 1 {
      assert ParentOk(m, m[id]);
      AllFound(m, nodes, m[id].parentId);
      assert nodes[..|nodes|] == nodes;
    }
  }

  function SizeOf(m: EntryMap): u64 -> nat {
    id => if id in m then FileSize(m[id]) else 0
  }

  function Ids(entries: seq<Entry>): seq<u64> {
    seq(|entries|, i requires 0 <= i < |entries| => entries[i].id)
  }

  lemma {:induction false} SizesByEntry(m: EntryMap, entries: seq<Entry>)
    requires forall e :: e in entries ==> e.id in m && m[e.id] == e
    ensures SumBy(SizeOf(m), Ids(entries)) == SumBy(FileSize, entries)
  {
    if entries != [] {
      SizesByEntry(m, entries[1..]);
      assert Ids(entries)[1..] == Ids(entries[1..]) && Ids(entries)[0] == entries[0].id;
    }
  }

  lemma IdsListed(m: EntryMap, entries: seq<Entry>)
    requires DistinctIds(entries)
    requires forall e :: e in entries ==> e.id in m && m[e.id] == e
    requires forall x :: x in m ==> m[x] in entries && m[x].id == x
    ensures NoRepeats(Ids(entries))
    ensures forall x :: x in m <==> x in Ids(entries)
  {
    forall x | x in m ensures x in Ids(entries) {
      var i :| 0 <= i < |entries| && entries[i] == m[x];
      assert Ids(entries)[i] == x;
    }
    forall x | x in Ids(entries) ensures x in m {
      var i :| 0 <= i < |entries| && Ids(entries)[i] == x;
      assert entries[i] in entries;
    }
  }

  lemma IdsExact(index: ValidatedIndex, entries: seq<Entry>, entryCount: u64, dataSize: u64)
    requires Backed(index, entries, entryCount, dataSize)
    ensures NoRepeats(Ids(entries))
    ensures forall x :: x in index.entries <==> x in Ids(entries)
    ensures SumBy(SizeOf(index.entries), Ids(entries)) == SumBy(FileSize, entries)
  {
    AcceptedIsTree(entryCount, dataSize, entries);
    IdsListed(index.entries, entries);
    SizesByEntry(index.entries, entries);
  }

  /** Distinct ids of listed entries never add up to more than the data area holds. */
  lemma MountTotalFits(index: ValidatedIndex, entries: seq<Entry>, entryCount: u64, dataSize: u64, ids: seq<u64>)
    requires Backed(index, entries, entryCount, dataSize)
    requires NoRepeats(ids) && forall x :: x in ids ==> x in index.entries
    ensures SumBy(SizeOf(index.entries), ids) < U64_LIMIT
    ensures (forall x :: x in index.entries ==> x in ids) ==>
              SumBy(SizeOf(index.entries), ids) == SumBy(FileSize, entries)
  {
    IdsExact(index, entries, entryCount, dataSize);
    DrawnFrom(ids, Ids(entries));
    SumByPart(SizeOf(index.entries), ids, Ids(entries));
    TotalsFit(entryCount, dataSize, entries);
  }

  /** The child list of a directory holds exactly the entries that name it as parent, each once. */
  ghost predicate ChildrenAt(index: ValidatedIndex, p: u64) {
    && NoRepeats(ChildIds(index, p))
    && (forall c :: c in ChildIds(index, p) <==> c in index.entries && c != 1 && index.entries[c].parentId == p)
  }

  lemma ChildrenKnown(index: ValidatedIndex, entries: seq<Entry>, entryCount: u64, dataSize: u64, p: u64)
    requires Backed(index, entries, entryCount, dataSize)
    ensures ChildrenAt(index, p)
  {
    ChildrenInverse(entries);
    forall c: u64 | true ensures c in ChildIds(index, p) <==> Listed(index.children, p, c) {
    }
  }

  lemma ChildListing(index: ValidatedIndex, p: u64, list: seq<u64>)
    requires ChildrenAt(index, p) && multiset(list) == multiset(ChildIds(index, p))
    ensures NoRepeats(list)
    ensures forall id :: id in list <==> id in index.entries && id != 1 && index.entries[id].parentId == p
  {
    Rearranged(ChildIds(index, p), list);
  }

  lemma NoChildrenOfFile(m: EntryMap, p: u64)
    requires Tree(m) && p in m && m[p].kind == File
    ensures forall id :: id in m && id != 1 ==> m[id].parentId != p
  {
    forall id | id in m && id != 1 ensures m[id].parentId != p {
      assert ParentOk(m, m[id]);
    }
  }

  /** One turn of the loop on node `id`: its children, and its contribution to the total. */
  method Handle(index: ValidatedIndex, id: u64, total: u64) returns (list: seq<u64>, total': Result<u64>)
    requires Tree(index.entries) && ChildrenAt(index, id) && id in index.entries
    ensures NoRepeats(list)
    ensures forall c :: c in list <==> c in index.entries && c != 1 && index.entries[c].parentId == id
    ensures total + SizeOf(index.entries)(id) < U64_LIMIT ==> total' == Ok(total + SizeOf(index.entries)(id))
  {
    if index.entries[id].kind == Directory {
      list := ReadDir(index, id);
      ChildListing(index, id, list);
      total' := Ok(total);
    } else {
      NoChildrenOfFile(index.entries, id);
      list := [];
      var next := CheckedAdd(total, index.entries[id].size);
      total' := if next.Some? then Ok(next.value) else Err(Overflow);
    }
  }

  /** The loop invariant: the worklist so far and the sizes of the handled nodes. */
  ghost predicate Worklist(m: EntryMap, nodes: seq<u64>, cursor: nat, total: nat) {
    cursor <= |nodes| && Found(m, nodes, cursor) && total == SumBy(SizeOf(m), nodes[..cursor])
  }

  lemma StartWorklist(m: EntryMap)
    requires 1 in m
    ensures Worklist(m, [1], 0, 0)
  {
    var start: seq<u64> := [1];
    assert start[..0] == [];
    assert NoRepeats(start);
  }

  /** What the turn at the cursor may rely on: the worklist is no longer than the container and the total fits. */
  lemma WorklistBounds(index: ValidatedIndex, entries: seq<Entry>, entryCount: u64, dataSize: u64,
                       nodes: seq<u64>, cursor: nat, total: nat)
    requires Backed(index, entries, entryCount, dataSize)
    requires Worklist(index.entries, nodes, cursor, total) && cursor < |nodes|
    ensures nodes[cursor] in index.entries && |nodes| <= |index.entries|
    ensures total + SizeOf(index.entries)(nodes[cursor]) < U64_LIMIT
  {
    NoRepeatsSize(nodes, index.entries.Keys);
    SumByPrefix(SizeOf(index.entries), nodes, cursor);
    MountTotalFits(index, entries, entryCount, dataSize, nodes[..cursor + 1]);
  }

  lemma WorklistStep(m: EntryMap, nodes: seq<u64>, cursor: nat, total: nat, list: seq<u64>)
    requires Worklist(m, nodes, cursor, total) && cursor < |nodes| && NoRepeats(list)
    requires forall id :: id in list <==> id in m && id != 1 && m[id].parentId == nodes[cursor]
    ensures Worklist(m, nodes + list, cursor + 1, total + SizeOf(m)(nodes[cursor]))
  {
    FoundStep(m, nodes, cursor, list);
    SumByPrefix(SizeOf(m), nodes, cursor);
    assert (nodes + list)[..cursor + 1] == nodes[..cursor + 1];
  }

  lemma WorklistDone(index: ValidatedIndex, entries: seq<Entry>, entryCount: u64, dataSize: u64,
                     nodes: seq<u64>, total: nat)
    requires Backed(index, entries, entryCount, dataSize) && Worklist(index.entries, nodes, |nodes|, total)
    ensures NoRepeats(nodes) && forall id :: id in nodes <==> id in index.entries
    ensures total == SumBy(FileSize, entries)
  {
    AcceptedIsTree(entryCount, dataSize, entries);
    forall id | id in index.entries ensures id in nodes {
      AllFound(index.entries, nodes, id);
    }
    assert nodes[..|nodes|] == nodes;
    MountTotalFits(index, entries, entryCount, dataSize, nodes);
  }

  /** One turn of the loop: the node at the cursor is handled, and its children join the worklist. */
  method HandleNext(index: ValidatedIndex, ghost entries: seq<Entry>, ghost entryCount: u64, ghost dataSize: u64,
                    nodes: seq<u64>, cursor: nat, total: u64) returns (total': Result<u64>, nodes': seq<u64>)
    requires Backed(index, entries, entryCount, dataSize)
    requires Worklist(index.entries, nodes, cursor, total) && cursor < |nodes|
    ensures total'.Ok? && Worklist(index.entries, nodes', cursor + 1, total'.value) && cursor < |index.entries|
  {
    assert Tree(index.entries) by { AcceptedIsTree(entryCount, dataSize, entries); }
    WorklistBounds(index, entries, entryCount, dataSize, nodes, cursor, total);
    ChildrenKnown(index, entries, entryCount, dataSize, nodes[cursor]);
    var list;
    list, total' := Handle(index, nodes[cursor], total);
    WorklistStep(index.entries, nodes, cursor, total, list);
    nodes' := nodes + list;
  }

  /**
   The loop of `WinFspCipherFs::open`: it ends, finds each entry of the container exactly once whatever order the
   directories are listed in, and the size total never overflows.
   */
  method OpenNodes(index: ValidatedIndex, ghost entries: seq<Entry>, ghost entryCount: u64, ghost dataSize: u64)
    returns (nodes: seq<u64>, totalSize: Result<u64>)
    requires Backed(index, entries, entryCount, dataSize)
    ensures NoRepeats(nodes) && forall id :: id in nodes <==> id in index.entries
    ensures totalSize == Ok(SumBy(FileSize, entries))
  {
    assert Tree(index.entries) by { AcceptedIsTree(entryCount, dataSize, entries); }
    StartWorklist(index.entries);
    nodes := [1];
    var cursor := 0;
    var total: u64 := 0;
    while cursor < |nodes|
      invariant Worklist(index.entries, nodes, cursor, total) && cursor <= |index.entries|
      decreases |index.entries| - cursor
    {
      var next, now := HandleNext(index, entries, entryCount, dataSize, nodes, cursor, total);
      nodes, cursor, total := now, cursor + 1, next.value;
    }
    WorklistDone(index, entries, entryCount, dataSize, nodes, total);
    totalSize := Ok(total);
  }
}
