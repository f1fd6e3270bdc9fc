/** The Windows view of an accepted container: mount, display names and paths together. */
module MountedTree {
  import opened Common
  import opened Sequences
  import opened Format
  import opened Index
  import opened IndexProperties
  import opened Totals
  import opened WindowsText
  import opened WindowsNames
  import opened WindowsNameMap
  import opened DisplayPaths
  import opened Mount
  import Names

  function NodeOf(e: Entry): Node {
    Node(e.id, e.parentId, e.name)
  }

  function NodesOf(m: EntryMap, ids: seq<u64>): (r: seq<Node>)
    requires forall k :: 0 <= k < |ids| ==> ids[k] in m
    ensures |r| == |ids|
  {
    seq(|ids|, k requires 0 <= k < |ids| => NodeOf(m[ids[k]]))
  }

  /** The ids list every entry of the index exactly once. */
  ghost predicate AllIds(m: EntryMap, ids: seq<u64>) {
    && NoRepeats(ids)
    && (forall k :: 0 <= k < |ids| ==> ids[k] in m)
    && (forall id :: id in m ==> id in ids)
  }

  function Depth(m: EntryMap): u64 -> nat {
    id => if id in m then m[id].depth else 0
  }

  function TableFor(m: EntryMap): map<u64, Node> {
    map id | id in m :: NodeOf(m[id])
  }

  lemma NodesDistinct(m: EntryMap, ids: seq<u64>)
    requires AllIds(m, ids) && forall id :: id in m ==> m[id].id == id
    ensures DistinctNodeIds(NodesOf(m, ids)) && IsTable(NodesOf(m, ids), TableFor(m))
  {
    var nodes := NodesOf(m, ids);
    forall id | id in m ensures NodeOf(m[id]) in nodes {
      var k :| 0 <= k < |ids| && ids[k] == id;
      assert nodes[k] == NodeOf(m[id]);
    }
  }

  /** Depth ranks the nodes of an accepted index, and node 1 is the only root. */
  lemma DepthRanks(m: EntryMap)
    requires Tree(m) && m[1].parentId == 1
    ensures NodeTree(TableFor(m), Depth(m))
  {
    var table := TableFor(m);
    forall id | id in table && id != 1
      ensures !IsRoot(table[id]) && table[id].parentId in table && Depth(m)(table[id].parentId) < Depth(m)(id)
    {
      assert ParentOk(m, m[id]);
    }
  }

  ghost predicate Viewed(entryCount: u64, dataSize: u64, entries: seq<Entry>, ids: seq<u64>) {
    Accepted(entryCount, dataSize, entries) && AllIds(ById(entries), ids)
  }

  lemma ViewFacts(entryCount: u64, dataSize: u64, entries: seq<Entry>, ids: seq<u64>)
    requires Viewed(entryCount, dataSize, entries, ids)
    ensures DistinctNodeIds(NodesOf(ById(entries), ids)) && |ids| <= |entries| <= MAX_ENTRIES
    ensures IsTable(NodesOf(ById(entries), ids), TableFor(ById(entries)))
    ensures NodeTree(TableFor(ById(entries)), Depth(ById(entries)))
  {
    var m := ById(entries);
    AcceptedIsTree(entryCount, dataSize, entries);
    assert RowOk(m[1]);
    NodesDistinct(m, ids);
    DepthRanks(m);
    assert DistinctIds(entries);
    ByIdKeys(entries);
    IdCount(entries);
    NoRepeatsSize(ids, m.Keys);
  }

  lemma {:induction false} IdCount(entries: seq<Entry>)
    ensures |IdSet(entries)| <= |entries|
  {
    if entries != [] {
      IdSetStep(entries);
      IdCount(entries[..|entries| - 1]);
    }
  }

  lemma NodesAreView(index: ValidatedIndex, entries: seq<Entry>, entryCount: u64, dataSize: u64, ids: seq<u64>)
    requires Backed(index, entries, entryCount, dataSize)
    requires NoRepeats(ids) && forall id :: id in ids <==> id in index.entries
    ensures index.entries == ById(entries) && Viewed(entryCount, dataSize, entries, ids)
  {
  }

  lemma TableUnique(nodes: seq<Node>, a: map<u64, Node>, b: map<u64, Node>)
    requires IsTable(nodes, a) && IsTable(nodes, b)
    ensures a == b
  {
    assert forall id :: id in a ==> a[id] in nodes && a[id].id == id;
    assert forall id :: id in b ==> b[id] in nodes && b[id].id == id;
  }

  // ---------- What the view says about the entries ----------

  /** Another entry of the same directory has a name that Windows takes for the same. */
  ghost predicate HasTwin(f: CharFold, entries: seq<Entry>, e: Entry) {
    exists t :: t in entries && t.id != 1 && t.id != e.id && t.parentId == e.parentId && Fold(f, t.name) == Fold(f, e.name)
  }

  /** A sibling is shown under a name that Windows takes for this one. */
  ghost predicate SiblingHas(f: CharFold, entries: seq<Entry>, names: map<u64, string>, e: Entry, display: string) {
    exists t :: t in entries && t.id != 1 && t.id != e.id && t.parentId == e.parentId
                && t.id in names && Fold(f, names[t.id]) == Fold(f, display)
  }

  /** The first of a bounded number of attempts that no sibling has. */
  ghost predicate EntryReplaced(f: CharFold, entries: seq<Entry>, names: map<u64, string>, e: Entry, display: string) {
    exists a: nat :: a <= 2 * |entries| && display == MappedName(e.name, e.id, a) && EarlierTaken(f, entries, names, e, a)
  }

  ghost predicate EarlierTaken(f: CharFold, entries: seq<Entry>, names: map<u64, string>, e: Entry, a: nat) {
    forall b: nat {:trigger MappedName(e.name, e.id, b)} :: b < a ==> SiblingHas(f, entries, names, e, MappedName(e.name, e.id, b))
  }

  /** A name that Windows can show and that no sibling shares is kept, any other is replaced. */
  ghost predicate EntryNamed(f: CharFold, entries: seq<Entry>, names: map<u64, string>, e: Entry) {
    && e.id in names
    && if !NeedsMapping(e.name) && !HasTwin(f, entries, e) then names[e.id] == e.name
       else EntryReplaced(f, entries, names, e, names[e.id])
  }

  /** Exactly the entries other than the root have display names. */
  ghost predicate EntriesNamed(f: CharFold, entries: seq<Entry>, names: map<u64, string>) {
    && (forall e :: e in entries && e.id != 1 ==> EntryNamed(f, entries, names, e))
    && (forall id :: id in names ==> exists e :: e in entries && e.id == id && id != 1)
  }

  /** The entries from below the root down to `id` spell `parts`, under their new names if they have any. */
  ghost predicate Spells(m: EntryMap, names: map<u64, string>, id: u64, parts: seq<string>)
    decreases |parts|
  {
    if parts == [] then id == 1
    else
      && id in m && id != 1
      && parts[|parts| - 1] == (if id in names then names[id] else m[id].name)
      && Spells(m, names, m[id].parentId, parts[..|parts| - 1])
  }

  ghost predicate PathOf(m: EntryMap, names: map<u64, string>, id: u64, path: string) {
    exists parts :: Spells(m, names, id, parts) && path == Names.Join('\\', parts)
  }

  /** The entry was renamed; the report holds its own path and a path under which Windows finds it. */
  ghost predicate Reported(f: CharFold, m: EntryMap, names: NameMap, id: u64, change: (string, string)) {
    && id in m && id in names.names && names.names[id] != m[id].name
    && PathOf(m, map[], id, change.0) && PathOf(m, names.names, id, change.1)
    && ResolveParts(f, names.lookup, 1, Components(change.1)) == Some(id)
  }

  /** The report lists every renamed entry once, in id order. */
  ghost predicate AllReported(f: CharFold, m: EntryMap, names: NameMap, renamed: seq<u64>, changes: seq<(string, string)>) {
    && |renamed| == |changes|
    && RisingIds(renamed)
    && (forall k :: 0 <= k < |renamed| ==> Reported(f, m, names, renamed[k], changes[k]))
    && (forall id :: id in m && id in names.names && names.names[id] != m[id].name ==> id in renamed)
  }

  lemma TwinIsCollision(f: CharFold, entryCount: u64, dataSize: u64, entries: seq<Entry>, ids: seq<u64>, e: Entry)
    requires Viewed(entryCount, dataSize, entries, ids) && e in entries && e.id != 1
    ensures var nodes := NodesOf(ById(entries), ids);
      && NodeOf(e) in nodes && !IsRoot(NodeOf(e))
      && (Keeps(f, Siblings(nodes, e.parentId), NodeOf(e)) <==> !NeedsMapping(e.name) && !HasTwin(f, entries, e))
  {
    var m, nodes := ById(entries), NodesOf(ById(entries), ids);
    AcceptedIsTree(entryCount, dataSize, entries);
    ViewFacts(entryCount, dataSize, entries, ids);
    SiblingsFacts(nodes, e.parentId);
    assert TableFor(m)[e.id] == NodeOf(e);
    var siblings := Siblings(nodes, e.parentId);
    if HasTwin(f, entries, e) {
      var t :| t in entries && t.id != 1 && t.id != e.id && t.parentId == e.parentId && Fold(f, t.name) == Fold(f, e.name);
      assert TableFor(m)[t.id] == NodeOf(t);
      assert NodeOf(t) in siblings;
    }
    if Collides(f, siblings, NodeOf(e)) {
      var i :| 0 <= i < |siblings| && siblings[i].id != e.id && Fold(f, siblings[i].name) == Fold(f, e.name);
      assert siblings[i] in siblings;
      assert TableFor(m)[siblings[i].id] == siblings[i];
    }
  }

  /** A node of the view is an entry. */
  lemma NodeIsEntry(entryCount: u64, dataSize: u64, entries: seq<Entry>, ids: seq<u64>, n: Node)
    requires Viewed(entryCount, dataSize, entries, ids) && n in NodesOf(ById(entries), ids)
    ensures n.id in ById(entries) && ById(entries)[n.id] in entries && NodeOf(ById(entries)[n.id]) == n && ById(entries)[n.id].id == n.id
    ensures !IsRoot(n) <==> n.id != 1
  {
    AcceptedIsTree(entryCount, dataSize, entries);
    ViewFacts(entryCount, dataSize, entries, ids);
    assert TableFor(ById(entries))[n.id] == n;
  }

  lemma SiblingEntry(f: CharFold, entryCount: u64, dataSize: u64, entries: seq<Entry>, ids: seq<u64>, names: map<u64, string>,
                     e: Entry, display: string)
    requires Viewed(entryCount, dataSize, entries, ids) && SiblingShown(f, NodesOf(ById(entries), ids), names, NodeOf(e), display)
    ensures SiblingHas(f, entries, names, e, display)
  {
    var s :| ChildOf(NodesOf(ById(entries), ids), e.parentId, s) && s.id != e.id && s.id in names && Fold(f, names[s.id]) == Fold(f, display);
    NodeIsEntry(entryCount, dataSize, entries, ids, s);
    assert ById(entries)[s.id].parentId == e.parentId;
  }

  lemma FirstOfEntries(f: CharFold, entryCount: u64, dataSize: u64, entries: seq<Entry>, ids: seq<u64>, names: map<u64, string>, e: Entry)
    requires Viewed(entryCount, dataSize, entries, ids) && |ids| <= |entries| && e.id in names
    requires FirstAttempt(f, NodesOf(ById(entries), ids), names, NodeOf(e), 2 * |ids|, names[e.id])
    ensures EntryReplaced(f, entries, names, e, names[e.id])
  {
    var nodes := NodesOf(ById(entries), ids);
    var a: nat :| a <= 2 * |ids| && names[e.id] == MappedName(e.name, e.id, a) && AllShown(f, nodes, names, NodeOf(e), a);
    forall b: nat | b < a ensures SiblingHas(f, entries, names, e, MappedName(e.name, e.id, b)) {
      SiblingEntry(f, entryCount, dataSize, entries, ids, names, e, MappedName(e.name, e.id, b));
    }
    assert EarlierTaken(f, entries, names, e, a);
  }

  lemma ViewNamesEntry(f: CharFold, entryCount: u64, dataSize: u64, entries: seq<Entry>, ids: seq<u64>, m: NameMap, e: Entry)
    requires GoodFold(f) && Viewed(entryCount, dataSize, entries, ids) && IsNameMap(f, NodesOf(ById(entries), ids), m)
    requires e in entries && e.id != 1
    ensures EntryNamed(f, entries, m.names, e)
  {
    ViewFacts(entryCount, dataSize, entries, ids);
    TwinIsCollision(f, entryCount, dataSize, entries, ids, e);
    NameOfNode(f, NodesOf(ById(entries), ids), m, NodeOf(e));
    if NeedsMapping(e.name) || HasTwin(f, entries, e) {
      FirstOfEntries(f, entryCount, dataSize, entries, ids, m.names, e);
    }
  }

  /** The display names of an accepted container in terms of its entries. */
  lemma ViewNamesEntries(f: CharFold, entryCount: u64, dataSize: u64, entries: seq<Entry>, ids: seq<u64>, m: NameMap)
    requires GoodFold(f) && Viewed(entryCount, dataSize, entries, ids) && IsNameMap(f, NodesOf(ById(entries), ids), m)
    ensures EntriesNamed(f, entries, m.names)
  {
    var nodes := NodesOf(ById(entries), ids);
    forall e | e in entries && e.id != 1 ensures EntryNamed(f, entries, m.names, e) {
      ViewNamesEntry(f, entryCount, dataSize, entries, ids, m, e);
    }
    forall id | id in m.names ensures exists e :: e in entries && e.id == id && id != 1 {
      var n :| Handled(nodes, Parents(nodes), n) && n.id == id;
      NodeIsEntry(entryCount, dataSize, entries, ids, n);
    }
  }

  lemma {:induction false} PathSpells(m: EntryMap, names: map<u64, string>, id: u64)
    requires Tree(m) && m[1].parentId == 1 && id in m
    ensures NodeTree(TableFor(m), Depth(m)) && Spells(m, names, id, PathParts(TableFor(m), Depth(m), names, id))
    decreases m[id].depth
  {
    DepthRanks(m);
    if id != 1 {
      assert ParentOk(m, m[id]);
      PathSpells(m, names, m[id].parentId);
      var above := PathParts(TableFor(m), Depth(m), names, m[id].parentId);
      var parts := PathParts(TableFor(m), Depth(m), names, id);
      assert parts == above + [DisplayName(names, TableFor(m)[id])];
      assert parts[..|parts| - 1] == above;
    }
  }

  /** One line of the report. */
  lemma ChangeReported(f: CharFold, entryCount: u64, dataSize: u64, entries: seq<Entry>, ids: seq<u64>, m: NameMap, n: Node)
    requires GoodFold(f) && Viewed(entryCount, dataSize, entries, ids) && IsNameMap(f, NodesOf(ById(entries), ids), m)
    requires n in NodesOf(ById(entries), ids) && Renamed(m.names, n)
    ensures NodeTree(TableFor(ById(entries)), Depth(ById(entries)))
    ensures Reported(f, ById(entries), m, n.id, Change(TableFor(ById(entries)), Depth(ById(entries)), m.names, n))
  {
    var t := ById(entries);
    AcceptedIsTree(entryCount, dataSize, entries);
    ViewFacts(entryCount, dataSize, entries, ids);
    assert TableFor(t)[n.id] == n;
    assert RowOk(t[1]);
    PathSpells(t, map[], n.id);
    PathSpells(t, m.names, n.id);
    EveryEntryResolves(f, entryCount, dataSize, entries, ids, m, t[n.id]);
  }

  function Ids(nodes: seq<Node>): (r: seq<u64>)
    ensures |r| == |nodes|
  {
    seq(|nodes|, k requires 0 <= k < |nodes| => nodes[k].id)
  }

  lemma IdListed(nodes: seq<Node>, n: Node)
    requires n in nodes
    ensures n.id in Ids(nodes)
  {
    var k :| 0 <= k < |nodes| && nodes[k] == n;
    assert Ids(nodes)[k] == n.id;
  }

  lemma IdsRise(nodes: seq<Node>)
    requires Rising(nodes)
    ensures RisingIds(Ids(nodes))
  {
  }

  ghost predicate RisingIds(ids: seq<u64>) {
    forall i, j :: 0 <= i < j < |ids| ==> ids[i] < ids[j]
  }

  /** The renamed entries of the report, in its order. */
  lemma RenamedIds(entryCount: u64, dataSize: u64, entries: seq<Entry>, ids: seq<u64>, names: map<u64, string>)
    requires Viewed(entryCount, dataSize, entries, ids)
    ensures var renamed := Ids(SortedRenamed(NodesOf(ById(entries), ids), names));
      && RisingIds(renamed)
      && forall id :: id in ById(entries) && id in names && names[id] != ById(entries)[id].name ==> id in renamed
  {
    var t, nodes := ById(entries), NodesOf(ById(entries), ids);
    ViewFacts(entryCount, dataSize, entries, ids);
    RenamedListed(nodes, names);
    IdsRise(SortedRenamed(nodes, names));
    forall id | id in t && id in names && names[id] != t[id].name ensures id in Ids(SortedRenamed(nodes, names)) {
      var n := TableFor(t)[id];
      assert n.id == id && n in nodes && Renamed(names, n);
      IdListed(SortedRenamed(nodes, names), n);
    }
  }

  lemma ViewReports(f: CharFold, entryCount: u64, dataSize: u64, entries: seq<Entry>, ids: seq<u64>, m: NameMap,
                    changes: seq<(string, string)>) returns (renamed: seq<u64>)
    requires GoodFold(f) && Viewed(entryCount, dataSize, entries, ids) && IsNameMap(f, NodesOf(ById(entries), ids), m)
    requires NodeTree(TableFor(ById(entries)), Depth(ById(entries)))
    requires changes == ChangesOf(TableFor(ById(entries)), Depth(ById(entries)), m.names, SortedRenamed(NodesOf(ById(entries), ids), m.names))
    ensures AllReported(f, ById(entries), m, renamed, changes)
  {
    renamed := Ids(SortedRenamed(NodesOf(ById(entries), ids), m.names));
    RenamedIds(entryCount, dataSize, entries, ids, m.names);
    forall k | 0 <= k < |renamed| ensures Reported(f, ById(entries), m, renamed[k], changes[k]) {
      ReportLine(f, entryCount, dataSize, entries, ids, m, k);
    }
  }

  lemma ReportLine(f: CharFold, entryCount: u64, dataSize: u64, entries: seq<Entry>, ids: seq<u64>, m: NameMap, k: nat)
    requires GoodFold(f) && Viewed(entryCount, dataSize, entries, ids) && IsNameMap(f, NodesOf(ById(entries), ids), m)
    requires k < |SortedRenamed(NodesOf(ById(entries), ids), m.names)|
    ensures NodeTree(TableFor(ById(entries)), Depth(ById(entries)))
    ensures var n := SortedRenamed(NodesOf(ById(entries), ids), m.names)[k];
      Reported(f, ById(entries), m, n.id, Change(TableFor(ById(entries)), Depth(ById(entries)), m.names, n))
  {
    var nodes := NodesOf(ById(entries), ids);
    ViewFacts(entryCount, dataSize, entries, ids);
    RenamedListed(nodes, m.names);
    assert SortedRenamed(nodes, m.names)[k] in SortedRenamed(nodes, m.names);
    ChangeReported(f, entryCount, dataSize, entries, ids, m, SortedRenamed(nodes, m.names)[k]);
  }

  // ---------- The mount ----------

  /** Names and changes for the nodes of a container. */
  method NameNodes(f: CharFold, m: EntryMap, ids: seq<u64>) returns (names: NameMap, changes: seq<(string, string)>)
    requires GoodFold(f) && AllIds(m, ids) && |ids| <= MAX_ENTRIES
    requires DistinctNodeIds(NodesOf(m, ids)) && IsTable(NodesOf(m, ids), TableFor(m)) && NodeTree(TableFor(m), Depth(m))
    ensures IsNameMap(f, NodesOf(m, ids), names)
    ensures changes == ChangesOf(TableFor(m), Depth(m), names.names, SortedRenamed(NodesOf(m, ids), names.names))
  {
    var nodes := NodesOf(m, ids);
    names := NewNameMap(f, nodes);
    var table := MakeTable(nodes);
    TableUnique(nodes, table, TableFor(m));
    changes := ListChanges(nodes, table, names.names, Depth(m));
  }

  /**
   `WinFspCipherFs::open` after authentication: all entries, their names and the changes to report.
   */
  method OpenMount(f: CharFold, index: ValidatedIndex, ghost entries: seq<Entry>, ghost entryCount: u64,
                   ghost dataSize: u64)
    returns (ids: seq<u64>, names: NameMap, changes: seq<(string, string)>, totalSize: Result<u64>, ghost renamed: seq<u64>)
    requires GoodFold(f) && Backed(index, entries, entryCount, dataSize)
    ensures Viewed(entryCount, dataSize, entries, ids) && AllIds(index.entries, ids)
    ensures IsNameMap(f, NodesOf(index.entries, ids), names)
    ensures EntriesNamed(f, entries, names.names)
    ensures AllReported(f, index.entries, names, renamed, changes)
    ensures totalSize == Ok(SumBy(FileSize, entries))
  {
    ids, totalSize := OpenNodes(index, entries, entryCount, dataSize);
    NodesAreView(index, entries, entryCount, dataSize, ids);
    ViewFacts(entryCount, dataSize, entries, ids);
    names, changes := NameNodes(f, index.entries, ids);
    ViewNamesEntries(f, entryCount, dataSize, entries, ids, names);
    renamed := ViewReports(f, entryCount, dataSize, entries, ids, names, changes);
  }

  /** Every entry of an accepted container is reached by its display path. */
  lemma EveryEntryResolves(f: CharFold, entryCount: u64, dataSize: u64, entries: seq<Entry>, ids: seq<u64>,
                           m: NameMap, e: Entry)
    requires GoodFold(f) && Viewed(entryCount, dataSize, entries, ids) && e in entries
    requires IsNameMap(f, NodesOf(ById(entries), ids), m)
    ensures NodeTree(TableFor(ById(entries)), Depth(ById(entries)))
    ensures var path := Names.Join('\\', PathParts(TableFor(ById(entries)), Depth(ById(entries)), m.names, e.id));
      && ResolveParts(f, m.lookup, 1, Components(path)) == Some(e.id)
      && ResolveParts(f, m.lookup, 1, Components(['\\'] + path)) == Some(e.id)
  {
    ViewFacts(entryCount, dataSize, entries, ids);
    AcceptedIsTree(entryCount, dataSize, entries);
    PathRoundTrip(f, NodesOf(ById(entries), ids), TableFor(ById(entries)), Depth(ById(entries)), m, e.id);
  }

  /** What a path resolves to always exists, and its display path agrees with the path for Windows. */
  lemma ResolvedExists(f: CharFold, entryCount: u64, dataSize: u64, entries: seq<Entry>, ids: seq<u64>, m: NameMap,
                       path: string)
    requires Viewed(entryCount, dataSize, entries, ids) && IsNameMap(f, NodesOf(ById(entries), ids), m)
    requires ResolveParts(f, m.lookup, 1, Components(path)).Some?
    ensures NodeTree(TableFor(ById(entries)), Depth(ById(entries)))
    ensures var id := ResolveParts(f, m.lookup, 1, Components(path)).value;
      && id in ById(entries)
      && SameFolds(f, Components(path), PathParts(TableFor(ById(entries)), Depth(ById(entries)), m.names, id))
  {
    ViewFacts(entryCount, dataSize, entries, ids);
    NameMapFinds(f, NodesOf(ById(entries), ids), TableFor(ById(entries)), Depth(ById(entries)), m);
    ResolveIff(f, TableFor(ById(entries)), Depth(ById(entries)), m, Components(path), ResolveParts(f, m.lookup, 1, Components(path)).value);
  }

  lemma SameBag(a: seq<Node>, b: seq<Node>)
    requires DistinctNodeIds(a) && DistinctNodeIds(b) && forall n :: n in a <==> n in b
    ensures multiset(a) == multiset(b)
  {
    forall n: Node | true ensures multiset(a)[n] == multiset(b)[n] {
      assert n in a <==> n in multiset(a);
      assert n in b <==> n in multiset(b);
      if n in a {
        var i :| 0 <= i < |a| && a[i] == n;
        var j :| 0 <= j < |b| && b[j] == n;
        OccursOnce(a, i);
        OccursOnce(b, j);
      }
    }
  }

  /**
   Extraction lists the entries of the index in hash order, the mount in worklist order:
   both get the same names, the same lookups and the same list of changes.
   */
  lemma ExtractAndMountAgree(f: CharFold, entryCount: u64, dataSize: u64, entries: seq<Entry>,
                             ids: seq<u64>, m: NameMap, ids': seq<u64>, m': NameMap)
    requires Viewed(entryCount, dataSize, entries, ids) && Viewed(entryCount, dataSize, entries, ids')
    requires IsNameMap(f, NodesOf(ById(entries), ids), m) && IsNameMap(f, NodesOf(ById(entries), ids'), m')
    ensures m == m'
    ensures SortedRenamed(NodesOf(ById(entries), ids), m.names) == SortedRenamed(NodesOf(ById(entries), ids'), m'.names)
  {
    ViewFacts(entryCount, dataSize, entries, ids);
    ViewFacts(entryCount, dataSize, entries, ids');
    var a, b := NodesOf(ById(entries), ids), NodesOf(ById(entries), ids');
    SameBag(a, b);
    MapOrderFree(f, a, m, b, m');
    ChangesOrderFree(a, b, m.names);
  }
}
