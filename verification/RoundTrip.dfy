/** Pack, open, verify, extract: the published tree is the source tree. */
module RoundTrip {
  import opened Common
  import opened Format
  import opened Index
  import opened IndexProperties
  import opened Scan
  import opened SafeFs
  import opened Container
  import opened Pack
  import opened PackedImage
  import opened PackFile
  import opened StagingFs
  import opened ExtractTree
  import opened OutputNames
  import opened UnixExtract
  import opened PlatformIo
  import Names
  import Extract
  import FileOutput
  import KeySlots
  import MountedTree
  import WindowsNameMap
  import WindowsText

  /** Names that an operating system hands out hold neither a separator nor a NUL. */
  ghost predicate OsNames(items: seq<WalkItem>) {
    forall k :: 0 <= k < |items| && items[k].Item? && items[k].path != [] ==>
      '/' !in FileName(items[k].path) && '\0' !in FileName(items[k].path)
  }

  /** How a source path is shown in the output, and which directory entry a shown name is. */
  datatype View = View(shown: seq<string> -> string, text: string -> seq<int>)

  const UNIX_VIEW: View := View(path => if path == [] then "" else FileName(path), Denoted)

  /** The place of a source path: component by component under its shown names. */
  function Slots(v: View, path: seq<string>): Path {
    if path == [] then [] else Slots(v, Parent(path)) + [Named(v.text(v.shown(path)))]
  }

  /** On Unix the place is the path itself. */
  lemma {:induction false} UnixSlots(path: seq<string>)
    ensures |Slots(UNIX_VIEW, path)| == |path|
    ensures forall i :: 0 <= i < |path| ==> Slots(UNIX_VIEW, path)[i] == Named(Denoted(path[i]))
  {
    if path != [] {
      UnixSlots(Parent(path));
    }
  }

  function SourceNode(v: View, item: WalkItem): FsNode
    requires item.Item?
  {
    if item.kind.SourceFile? then FileNode(v.shown(item.path), Lift(item.kind.content)) else DirNode(v.shown(item.path))
  }

  ghost predicate ItemIn(v: View, items: seq<WalkItem>, tree: FsTree, k: nat)
    requires k < |items|
  {
    && items[k].Item?
    && Slots(v, items[k].path) in tree && tree[Slots(v, items[k].path)] == SourceNode(v, items[k])
  }

  /** Exactly the walked directories and files, each at its own place, with their shown names and their bytes. */
  ghost predicate SourceTree(v: View, items: seq<WalkItem>, tree: FsTree) {
    && [] in tree && tree[[]] == DirNode("")
    && (forall k :: 0 <= k < |items| ==> ItemIn(v, items, tree, k))
    && (forall p :: p in tree ==> p == [] || exists k :: 0 <= k < |items| && items[k].Item? && Slots(v, items[k].path) == p)
    && (forall j, k :: 0 <= j < k < |items| && items[j].Item? && items[k].Item? ==> Slots(v, items[j].path) != Slots(v, items[k].path))
  }

  /** The naming of an extraction shows every entry as the view shows its walked item. */
  ghost predicate Shown(v: View, items: seq<WalkItem>, m: EntryMap, nm: Naming) {
    && nm.platform.text == v.text
    && (forall id :: id in m && id != 1 ==> nm.out(id) == v.shown(PathOfId(items, id)))
  }

  /** The place of an extracted entry is the place of the walked item. */
  lemma {:induction false} PlaceIsPath(v: View, items: seq<WalkItem>, ids: seq<Blob16>, entries: seq<Entry>, m: EntryMap,
                                       nm: Naming, id: u64)
    requires DescribesAll(items, ids, entries) && Numbered(m, entries) && Tree(m) && Shown(v, items, m, nm) && id in m
    ensures OutputPath(m, nm, id) == Slots(v, PathOfId(items, id))
    decreases m[id].depth
  {
    if id != 1 {
      assert ParentOk(m, m[id]);
      ParentEntry(items, ids, entries, id - 2);
      assert m[id] == entries[id - 1];
      PlaceIsPath(v, items, ids, entries, m, nm, m[id].parentId);
    }
  }

  /** The contents of an entry are those of the walked file. */
  ghost predicate ContentOfItem(items: seq<WalkItem>, contents: u64 -> Bytes, e: Entry) {
    && 2 <= e.id < |items| + 2 && items[e.id - 2].Item? && items[e.id - 2].kind.SourceFile?
    && contents(e.id) == Lift(items[e.id - 2].kind.content)
  }

  lemma ExtractedContent(items: seq<WalkItem>, c: Choices, options: Options, st: Scanned, p: Plan, e: Entry)
    requires PackedFrom(items, c, options, st, p) && FreshIds(c.ids, |items|) && e in st.entries && e.kind == File
    ensures PlanOk(p) && DataStart(p) < U64_LIMIT
    ensures ContentOfItem(items, FileOutput.Contents(OpenedPlan(p, Image(p))), e)
  {
    PackedOpens(p, options.password);
    AcceptedIsTree(p.header.entryCount, p.header.dataSize, p.entries);
    EntrySource(items, c.ids, st, e);
    PackedContent(p, e);
  }

  /** The contents of every file entry are those of the walked file. */
  ghost predicate ContentsOfItems(items: seq<WalkItem>, contents: u64 -> Bytes, entries: seq<Entry>) {
    forall e :: e in entries && e.kind == File ==> ContentOfItem(items, contents, e)
  }

  /** One extracted entry is the walked item. */
  lemma EntryIsItem(v: View, items: seq<WalkItem>, ids: seq<Blob16>, entries: seq<Entry>, contents: u64 -> Bytes, e: Entry,
                    name: string)
    requires DescribesAll(items, ids, entries) && ContentsOfItems(items, contents, entries) && e in entries && e != ROOT
    requires name == v.shown(PathOfId(items, e.id))
    ensures 2 <= e.id < |items| + 2 && items[e.id - 2].Item?
    ensures SourceNode(v, items[e.id - 2]) == if e.kind == Directory then DirNode(name) else FileNode(name, contents(e.id))
  {
    EntryItem(items, ids, entries, e);
    if e.kind == File {
      assert ContentOfItem(items, contents, e);
    }
  }

  /** What a finished pack provides to everyone who opens it. */
  lemma PackedIsReadable(items: seq<WalkItem>, c: Choices, options: Options, st: Scanned, p: Plan)
    requires PackedFrom(items, c, options, st, p)
    ensures PlanOk(p) && DataStart(p) < U64_LIMIT
    ensures OpenSpec(Image(p), options.password) == Ok(OpenedPlan(p, Image(p)))
    ensures AllChunksOpen(OpenedPlan(p, Image(p)))
    ensures Accepted(p.header.entryCount, p.header.dataSize, st.entries) && p.entries == st.entries
  {
    PackedOpens(p, options.password);
    PackedVerifies(p);
  }

  lemma ExtractedContents(items: seq<WalkItem>, c: Choices, options: Options, st: Scanned, p: Plan)
    requires PackedFrom(items, c, options, st, p) && FreshIds(c.ids, |items|)
    ensures PlanOk(p) && DataStart(p) < U64_LIMIT
    ensures ContentsOfItems(items, FileOutput.Contents(OpenedPlan(p, Image(p))), st.entries)
  {
    PackedIsReadable(items, c, options, st, p);
    forall e | e in st.entries && e.kind == File ensures ContentOfItem(items, FileOutput.Contents(OpenedPlan(p, Image(p))), e) {
      ExtractedContent(items, c, options, st, p, e);
    }
  }

  lemma ScanTables(items: seq<WalkItem>, ids: seq<Blob16>, entries: seq<Entry>)
    requires FreshIds(ids, |items|) && DescribesAll(items, ids, entries)
    ensures Numbered(ById(entries), entries)
  {
    ScannedRows(items, ids, entries);
    NumberedById(entries);
  }

  /** Names that came from the operating system can be extracted. */
  lemma ScannedClean(entryCount: u64, dataSize: u64, items: seq<WalkItem>, ids: seq<Blob16>, entries: seq<Entry>)
    requires Accepted(entryCount, dataSize, entries) && DescribesAll(items, ids, entries) && OsNames(items)
    ensures UnixClean(entries)
  {
    forall i | 0 <= i < |entries| ensures '/' !in entries[i].name && '\0' !in entries[i].name {
      if i > 0 { assert DescribesAt(items, ids, entries, i - 1); }
    }
    UnixPlain(entryCount, dataSize, entries);
    UnixApart(entryCount, dataSize, entries);
    PlainIsApart(ById(entries), UnixNaming(ById(entries)));
    StemsApart(entryCount, dataSize, entries);
  }

  /** One walked item in the tree of the packed index. */
  lemma ItemExtracted(v: View, items: seq<WalkItem>, ids: seq<Blob16>, entries: seq<Entry>, m: EntryMap, nm: Naming,
                      contents: u64 -> Bytes, tree: FsTree, k: nat)
    requires DescribesAll(items, ids, entries) && ContentsOfItems(items, contents, entries)
    requires Numbered(m, entries) && Tree(m) && Shown(v, items, m, nm) && k < |items|
    requires IndexTree(m, nm, contents, tree)
    ensures ItemIn(v, items, tree, k) && k + 2 in m && OutputPath(m, nm, k + 2) == Slots(v, items[k].path)
  {
    ItemEntry(items, ids, entries, m, k);
    var id: u64 := k + 2;
    PlaceIsPath(v, items, ids, entries, m, nm, id);
    var name := nm.out(id);
    EntryIsItem(v, items, ids, entries, contents, m[id], name);
    FoundInTree(m, nm, contents, tree, id, Slots(v, items[k].path), SourceNode(v, items[k]));
  }

  /** The entry of a walked item. */
  lemma ItemEntry(items: seq<WalkItem>, ids: seq<Blob16>, entries: seq<Entry>, m: EntryMap, k: nat)
    requires DescribesAll(items, ids, entries) && Numbered(m, entries) && k < |items|
    ensures k + 2 in m && m[k + 2] in entries && m[k + 2] != ROOT && m[k + 2].id == k + 2
    ensures items[k].Item? && PathOfId(items, k + 2) == items[k].path
  {
    assert DescribesAt(items, ids, entries, k);
    assert m[k + 2] == entries[k + 1];
  }

  lemma FoundInTree(m: EntryMap, nm: Naming, contents: u64 -> Bytes, tree: FsTree, id: u64, place: Path, node: FsNode)
    requires IndexTree(m, nm, contents, tree) && id in m && id != 1 && OutputPath(m, nm, id) == place
    requires node == if m[id].kind == Directory then DirNode(nm.out(id)) else FileNode(nm.out(id), contents(id))
    ensures place in tree && tree[place] == node
  {
    assert InTree(m, nm, contents, tree, id);
  }

  /** The tree of the packed index is the source tree. */
  lemma IndexTreeIsSource(v: View, items: seq<WalkItem>, ids: seq<Blob16>, entries: seq<Entry>, m: EntryMap, nm: Naming,
                          contents: u64 -> Bytes, tree: FsTree)
    requires DescribesAll(items, ids, entries) && ContentsOfItems(items, contents, entries)
    requires Numbered(m, entries) && Tree(m) && Shown(v, items, m, nm)
    requires IndexTree(m, nm, contents, tree)
    ensures SourceTree(v, items, tree)
  {
    forall k | 0 <= k < |items|
      ensures ItemIn(v, items, tree, k) && k + 2 in m && OutputPath(m, nm, k + 2) == Slots(v, items[k].path)
    {
      ItemExtracted(v, items, ids, entries, m, nm, contents, tree, k);
    }
    forall q | q in tree && q != [] ensures exists k :: 0 <= k < |items| && items[k].Item? && Slots(v, items[k].path) == q {
      var id :| id in m && id != 1 && OutputPath(m, nm, id) == q;
      PlaceIsPath(v, items, ids, entries, m, nm, id);
      assert items[id - 2].Item? by { EntryItem(items, ids, entries, m[id]); }
    }
  }

  // ---------- Unix ----------

  lemma UnixShown(items: seq<WalkItem>, ids: seq<Blob16>, entries: seq<Entry>, m: EntryMap)
    requires DescribesAll(items, ids, entries) && Numbered(m, entries)
    ensures Shown(UNIX_VIEW, items, m, UnixNaming(m))
  {
    forall id | id in m && id != 1 ensures m[id].name == UNIX_VIEW.shown(PathOfId(items, id)) {
      assert m[id] == entries[id - 1];
      assert DescribesAt(items, ids, entries, id - 2);
    }
  }

  /**
   The round trip on Unix.  For every source tree that pack accepts, and therefore for every order of its parallel writes:
   the container opens with the password, all chunks verify, the names can be extracted, and whatever tree an extraction
   publishes is exactly the source tree.
   */
  lemma PackThenExtract(items: seq<WalkItem>, c: Choices, options: Options, st: Scanned, p: Plan,
                        base: map<string, FsTree>)
    requires PackedFrom(items, c, options, st, p) && FreshIds(c.ids, |items|) && OsNames(items)
    ensures PlanOk(p) && OpenSpec(Image(p), options.password).Ok?
    ensures var o := OpenSpec(Image(p), options.password).value; var nm := UnixNaming(o.index.entries);
      && AllChunksOpen(o) && OpenedFrom(o, p.entries)
      && Extract.Sound(Extract.Session(o, nm, base)) && UnixClean(p.entries) && Extractable(o.index.entries, nm)
      && forall tree :: IndexTree(o.index.entries, nm, FileOutput.Contents(o), tree) ==> SourceTree(UNIX_VIEW, items, tree)
  {
    PackedIsReadable(items, c, options, st, p);
    UnixApart(p.header.entryCount, p.header.dataSize, st.entries);
    ScannedClean(p.header.entryCount, p.header.dataSize, items, c.ids, st.entries);
    UnixExtractable(p.header.entryCount, p.header.dataSize, st.entries);
    UnixTrees(items, c, options, st, p);
  }

  lemma UnixTrees(items: seq<WalkItem>, c: Choices, options: Options, st: Scanned, p: Plan)
    requires PackedFrom(items, c, options, st, p) && FreshIds(c.ids, |items|)
    ensures PlanOk(p) && DataStart(p) < U64_LIMIT
    ensures var o := OpenedPlan(p, Image(p)); var nm := UnixNaming(o.index.entries);
      forall tree :: IndexTree(o.index.entries, nm, FileOutput.Contents(o), tree) ==> SourceTree(UNIX_VIEW, items, tree)
  {
    PackedIsReadable(items, c, options, st, p);
    var m := ById(st.entries);
    AcceptedIsTree(p.header.entryCount, p.header.dataSize, st.entries);
    ScanTables(items, c.ids, st.entries);
    ExtractedContents(items, c, options, st, p);
    UnixShown(items, c.ids, st.entries, m);
    forall tree | IndexTree(m, UnixNaming(m), FileOutput.Contents(OpenedPlan(p, Image(p))), tree)
      ensures SourceTree(UNIX_VIEW, items, tree)
    {
      IndexTreeIsSource(UNIX_VIEW, items, c.ids, st.entries, m, UnixNaming(m), FileOutput.Contents(OpenedPlan(p, Image(p))), tree);
    }
  }

  /**
   Packs a directory, opens the container with the same password and extracts it.  A success leaves exactly the source tree
   at the target; in a quiet environment nothing but an unpackable source or a name already in use stands in its way.
   */
  method PackOpenExtract(dir: OutputDir, temporary: string, items: seq<WalkItem>, c: Choices, options: Options,
                         cancelAt: nat, parent: ParentDir, target: string, staging: string, batchSize: u64)
    returns (r: Result<()>)
    requires ProperWalk(items) && GoodChoices(c, items) && OsNames(items)
    requires temporary != dir.watched && temporary !in dir.files && parent.watched == target && batchSize > 0
    modifies dir, parent
    ensures r.Ok? ==> target in parent.names && parent.names == old(parent.names)[target := parent.names[target]]
    ensures r.Ok? ==> SourceTree(UNIX_VIEW, items, parent.names[target])
    ensures (&& dir.quiet && parent.quiet && dir.watched !in old(dir.files) && target !in old(parent.names)
             && staging !in old(parent.names) && staging != target) ==>
              (r.Ok? <==> Packable(items, c, options) && |items| <= cancelAt)
  {
    var packing, cleaned;
    ghost var st, p, counts;
    packing, cleaned, st, p, counts := PackSource(dir, temporary, items, c, options, cancelAt);
    if packing.Err? {
      return packing;
    }
    PackedIsReadable(items, c, options, st, p);
    r := OpenExtract(dir.files[dir.watched], items, c, options, st, p, parent, target, staging, batchSize);
  }

  /** Opens a packed container and extracts it. */
  method OpenExtract(image: Bytes, ghost items: seq<WalkItem>, ghost c: Choices, options: Options, ghost st: Scanned,
                     ghost p: Plan, parent: ParentDir, target: string, staging: string, batchSize: u64)
    returns (r: Result<()>)
    requires PackedFrom(items, c, options, st, p) && FreshIds(c.ids, |items|) && OsNames(items)
    requires DataStart(p) < U64_LIMIT && image == Image(p) && parent.watched == target && batchSize > 0
    modifies parent
    ensures r.Ok? ==> target in parent.names && parent.names == old(parent.names)[target := parent.names[target]]
    ensures r.Ok? ==> SourceTree(UNIX_VIEW, items, parent.names[target])
    ensures parent.quiet && target !in old(parent.names) && staging !in old(parent.names) && staging != target ==> r.Ok?
  {
    CleanPlan(items, c, options, st, p);
    var container := OpenPacked(image, options.password, p);
    var disk := new DiskFile(container.file, parent.quiet);
    ghost var fate, reports;
    r, fate, reports := ExtractOnUnix(parent, target, staging, container, disk, batchSize, p.entries);
    if r.Ok? {
      PublishedIsSource(items, c, options, st, p, parent.names[target]);
    }
  }

  /** `open` of a packed container. */
  method OpenPacked(image: Bytes, password: string, ghost p: Plan) returns (o: Opened)
    requires Packed(p, password) && DataStart(p) < U64_LIMIT && image == Image(p)
    ensures o == OpenedPlan(p, image) && OpenedFrom(o, p.entries)
  {
    PackedOpens(p, password);
    var file := new ContainerFile(image, true);
    ghost var reach;
    var opening;
    opening, reach := file.Open(password, KeySlots.Draws(KeySlots.ANY_DRAW, KeySlots.ANY_DRAW, KeySlots.ANY_DRAW, KeySlots.ANY_DRAW));
    o := opening.value;
  }

  lemma CleanPlan(items: seq<WalkItem>, c: Choices, options: Options, st: Scanned, p: Plan)
    requires PackedFrom(items, c, options, st, p) && OsNames(items)
    ensures DataStart(p) < U64_LIMIT && UnixClean(p.entries) && AllChunksOpen(OpenedPlan(p, Image(p)))
  {
    PackedIsReadable(items, c, options, st, p);
    ScannedClean(p.header.entryCount, p.header.dataSize, items, c.ids, st.entries);
  }

  lemma PublishedIsSource(items: seq<WalkItem>, c: Choices, options: Options, st: Scanned, p: Plan, tree: FsTree)
    requires PackedFrom(items, c, options, st, p) && FreshIds(c.ids, |items|) && DataStart(p) < U64_LIMIT
    requires IndexTree(ById(p.entries), UnixNaming(ById(p.entries)), FileOutput.Contents(OpenedPlan(p, Image(p))), tree)
    ensures SourceTree(UNIX_VIEW, items, tree)
  {
    UnixTrees(items, c, options, st, p);
  }

  // ---------- Windows ----------

  /** The entry id of a walked path. */
  function ItemId(items: seq<WalkItem>, path: seq<string>): nat {
    if items == [] then 0
    else
      var n := |items| - 1;
      if items[n].Item? && items[n].path == path then n + 2 else ItemId(items[..n], path)
  }

  lemma {:induction false} ItemIdExact(items: seq<WalkItem>, k: nat)
    requires ProperWalk(items) && k < |items| && items[k].Item?
    ensures ItemId(items, items[k].path) == k + 2
  {
    var n := |items| - 1;
    if k < n { ItemIdExact(items[..n], k); }
  }

  /** Every component of a path is shown under its display name, and names are compared as Windows does. */
  function WindowsView(f: WindowsText.CharFold, items: seq<WalkItem>, names: map<u64, string>): View {
    View(path => ShownName(items, names, path), Windows(f, s => true).text)
  }

  function ShownName(items: seq<WalkItem>, names: map<u64, string>, path: seq<string>): string {
    var id := ItemId(items, path);
    if id < U64_LIMIT && id in names then names[id] else ""
  }

  lemma ShownItem(items: seq<WalkItem>, ids: seq<Blob16>, entries: seq<Entry>, m: EntryMap, names: map<u64, string>, id: u64)
    requires ProperWalk(items) && DescribesAll(items, ids, entries) && Numbered(m, entries)
    requires id in m && id != 1 && id in names
    ensures ShownName(items, names, PathOfId(items, id)) == names[id]
  {
    ItemEntry(items, ids, entries, m, id - 2);
    ItemIdExact(items, id - 2);
  }

  lemma WindowsShown(f: WindowsText.CharFold, items: seq<WalkItem>, ids: seq<Blob16>, entries: seq<Entry>, m: EntryMap,
                     names: map<u64, string>, creatable: string -> bool)
    requires ProperWalk(items) && DescribesAll(items, ids, entries) && Numbered(m, entries)
    requires forall id :: id in m && id != 1 ==> id in names
    ensures Shown(WindowsView(f, items, names), items, m, WindowsNaming(f, m, names, creatable))
  {
    var v, nm := WindowsView(f, items, names), WindowsNaming(f, m, names, creatable);
    forall id | id in m && id != 1 ensures nm.out(id) == v.shown(PathOfId(items, id)) {
      ShownItem(items, ids, entries, m, names, id);
      assert v.shown(PathOfId(items, id)) == ShownName(items, names, PathOfId(items, id));
    }
  }

  /** Another walked item of the same directory has a name that Windows takes for the same. */
  ghost predicate ItemTwin(f: WindowsText.CharFold, items: seq<WalkItem>, k: nat)
    requires k < |items| && items[k].Item? && items[k].path != []
  {
    exists j :: 0 <= j < |items| && j != k && SiblingOf(items, k, j)
                && WindowsText.Fold(f, FileName(items[j].path)) == WindowsText.Fold(f, FileName(items[k].path))
  }

  predicate SiblingOf(items: seq<WalkItem>, k: nat, j: nat)
    requires j < |items| && k < |items| && items[k].Item? && items[k].path != []
  {
    items[j].Item? && items[j].path != [] && Parent(items[j].path) == Parent(items[k].path)
  }

  /** A sibling is shown under a name that Windows takes for this one. */
  ghost predicate SiblingItemHas(f: WindowsText.CharFold, items: seq<WalkItem>, names: map<u64, string>, k: nat, display: string)
    requires k < |items| && items[k].Item? && items[k].path != []
  {
    exists j :: 0 <= j < |items| && j != k && SiblingOf(items, k, j)
                && WindowsText.Fold(f, WindowsView(f, items, names).shown(items[j].path)) == WindowsText.Fold(f, display)
  }

  /** The first of a bounded number of attempts that no sibling has. */
  ghost predicate ItemReplaced(f: WindowsText.CharFold, items: seq<WalkItem>, names: map<u64, string>, k: nat, id: u64, display: string)
    requires k < |items| && items[k].Item? && items[k].path != []
  {
    exists a: nat :: a <= 2 * |items| + 2 && display == WindowsText.MappedName(FileName(items[k].path), id, a)
                     && ItemEarlierTaken(f, items, names, k, id, a)
  }

  ghost predicate ItemEarlierTaken(f: WindowsText.CharFold, items: seq<WalkItem>, names: map<u64, string>, k: nat, id: u64, a: nat)
    requires k < |items| && items[k].Item? && items[k].path != []
  {
    var name := FileName(items[k].path);
    forall b: nat {:trigger WindowsText.MappedName(name, id, b)} :: b < a ==> SiblingItemHas(f, items, names, k, WindowsText.MappedName(name, id, b))
  }

  /** A walked item is shown under its own name if Windows can show it and no sibling shares it, else under a replacement. */
  ghost predicate ItemShown(f: WindowsText.CharFold, items: seq<WalkItem>, names: map<u64, string>, k: nat)
    requires k < |items|
  {
    && items[k].Item? && items[k].path != [] && k + 2 < U64_LIMIT
    && var name, shown := FileName(items[k].path), WindowsView(f, items, names).shown(items[k].path);
       if !WindowsText.NeedsMapping(name) && !ItemTwin(f, items, k) then shown == name
       else ItemReplaced(f, items, names, k, k + 2, shown)
  }

  /** The parent id of an item is the id of its parent path. */
  lemma ParentIdOf(items: seq<WalkItem>, ids: seq<Blob16>, entries: seq<Entry>, k: nat)
    requires ProperWalk(items) && DescribesAll(items, ids, entries) && k < |items|
    ensures items[k].Item? && items[k].path != [] && entries[k + 1].id == k + 2 && entries[k + 1].name == FileName(items[k].path)
    ensures var top := Parent(items[k].path);
      Parent(items[k].path) == PathOfId(items, entries[k + 1].parentId)
      && entries[k + 1].parentId == if top == [] then 1 else ItemId(items, top)
  {
    assert DescribesAt(items, ids, entries, k);
    ParentEntry(items, ids, entries, k);
    var q := entries[k + 1].parentId;
    if q > 1 {
      assert DescribesAt(items, ids, entries, q - 2);
      ItemIdExact(items, q - 2);
    }
  }

  lemma SiblingItems(items: seq<WalkItem>, ids: seq<Blob16>, entries: seq<Entry>, j: nat, k: nat)
    requires ProperWalk(items) && DescribesAll(items, ids, entries) && j < |items| && k < |items|
    ensures items[k].Item? && items[k].path != [] && entries[k + 1].id == k + 2 && entries[k + 1].name == FileName(items[k].path)
    ensures SiblingOf(items, k, j) <==> entries[j + 1].parentId == entries[k + 1].parentId
  {
    ParentIdOf(items, ids, entries, j);
    ParentIdOf(items, ids, entries, k);
  }

  lemma TwinItems(f: WindowsText.CharFold, items: seq<WalkItem>, ids: seq<Blob16>, entries: seq<Entry>, k: nat)
    requires ProperWalk(items) && DescribesAll(items, ids, entries) && k < |items|
    ensures items[k].Item? && items[k].path != []
    ensures MountedTree.HasTwin(f, entries, entries[k + 1]) <==> ItemTwin(f, items, k)
  {
    SiblingItems(items, ids, entries, k, k);
    if MountedTree.HasTwin(f, entries, entries[k + 1]) {
      var e := entries[k + 1];
      var t :| t in entries && t.id != 1 && t.id != e.id && t.parentId == e.parentId
               && WindowsText.Fold(f, t.name) == WindowsText.Fold(f, e.name);
      var i :| 0 <= i < |entries| && entries[i] == t;
      SiblingItems(items, ids, entries, i - 1, k);
      SiblingItems(items, ids, entries, k, i - 1);
    }
    if ItemTwin(f, items, k) {
      var j :| 0 <= j < |items| && j != k && SiblingOf(items, k, j)
               && WindowsText.Fold(f, FileName(items[j].path)) == WindowsText.Fold(f, FileName(items[k].path));
      SiblingItems(items, ids, entries, j, k);
      SiblingItems(items, ids, entries, k, j);
      assert entries[j + 1] in entries;
    }
  }

  lemma ShownById(f: WindowsText.CharFold, items: seq<WalkItem>, names: map<u64, string>, k: nat)
    requires ProperWalk(items) && k < |items| && items[k].Item? && k + 2 < U64_LIMIT && k + 2 in names
    ensures WindowsView(f, items, names).shown(items[k].path) == names[k + 2]
  {
    ItemIdExact(items, k);
    assert WindowsView(f, items, names).shown(items[k].path) == ShownName(items, names, items[k].path);
  }

  lemma SiblingIsItem(f: WindowsText.CharFold, items: seq<WalkItem>, ids: seq<Blob16>, entries: seq<Entry>, names: map<u64, string>,
                      k: nat, display: string)
    requires ProperWalk(items) && DescribesAll(items, ids, entries) && k < |items|
    requires MountedTree.SiblingHas(f, entries, names, entries[k + 1], display)
    ensures items[k].Item? && items[k].path != [] && SiblingItemHas(f, items, names, k, display)
  {
    var e := entries[k + 1];
    var t :| t in entries && t.id != 1 && t.id != e.id && t.parentId == e.parentId
             && t.id in names && WindowsText.Fold(f, names[t.id]) == WindowsText.Fold(f, display);
    var i :| 0 <= i < |entries| && entries[i] == t;
    SiblingItems(items, ids, entries, i - 1, k);
    SiblingItems(items, ids, entries, k, i - 1);
    ShownById(f, items, names, i - 1);
  }

  lemma ReplacedItem(f: WindowsText.CharFold, items: seq<WalkItem>, ids: seq<Blob16>, entries: seq<Entry>, names: map<u64, string>,
                     k: nat, display: string)
    requires ProperWalk(items) && DescribesAll(items, ids, entries) && k < |items|
    requires MountedTree.EntryReplaced(f, entries, names, entries[k + 1], display)
    ensures items[k].Item? && items[k].path != [] && k + 2 < U64_LIMIT && ItemReplaced(f, items, names, k, k + 2, display)
  {
    SiblingItems(items, ids, entries, k, k);
    var e := entries[k + 1];
    var a: nat :| a <= 2 * |entries| && display == WindowsText.MappedName(e.name, e.id, a) && MountedTree.EarlierTaken(f, entries, names, e, a);
    forall b: nat | b < a ensures SiblingItemHas(f, items, names, k, WindowsText.MappedName(e.name, e.id, b)) {
      SiblingIsItem(f, items, ids, entries, names, k, WindowsText.MappedName(e.name, e.id, b));
    }
    assert ItemEarlierTaken(f, items, names, k, e.id, a);
  }

  lemma ItemsShown(f: WindowsText.CharFold, items: seq<WalkItem>, ids: seq<Blob16>, entries: seq<Entry>, names: map<u64, string>, k: nat)
    requires ProperWalk(items) && DescribesAll(items, ids, entries) && k < |items|
    requires MountedTree.EntriesNamed(f, entries, names)
    ensures ItemShown(f, items, names, k)
  {
    var e := entries[k + 1];
    TwinItems(f, items, ids, entries, k);
    SiblingItems(items, ids, entries, k, k);
    assert e in entries && MountedTree.EntryNamed(f, entries, names, e);
    ShownById(f, items, names, k);
    if WindowsText.NeedsMapping(e.name) || MountedTree.HasTwin(f, entries, e) {
      ReplacedItem(f, items, ids, entries, names, k, names[e.id]);
    }
  }

  /**
   The round trip on Windows: the same under the display names.  Nothing conflicts, every tree an extraction publishes is
   the source tree with each path component replaced by its display name, and it can be published exactly if the system
   takes every display name.
   */
  lemma PackThenExtractOnWindows(f: WindowsText.CharFold, items: seq<WalkItem>, c: Choices, options: Options,
                                 st: Scanned, p: Plan, base: map<string, FsTree>, listing: seq<u64>,
                                 shown: WindowsNameMap.NameMap, creatable: string -> bool)
    requires PackedFrom(items, c, options, st, p) && FreshIds(c.ids, |items|) && ProperWalk(items) && WindowsText.GoodFold(f)
    requires MountedTree.Viewed(p.header.entryCount, p.header.dataSize, st.entries, listing)
    requires WindowsNameMap.IsNameMap(f, MountedTree.NodesOf(ById(st.entries), listing), shown)
    ensures PlanOk(p) && OpenSpec(Image(p), options.password).Ok?
    ensures var o := OpenSpec(Image(p), options.password).value; var m := o.index.entries;
      var nm := WindowsNaming(f, m, shown.names, creatable);
      && AllChunksOpen(o) && Extract.Sound(Extract.Session(o, nm, base)) && TextsApart(m, nm)
      && (forall id :: id in m && id != 1 ==> id in shown.names)
      && (Extractable(m, nm) <==> forall id :: id in m && id != 1 ==> creatable(shown.names[id]))
      && forall tree :: IndexTree(m, nm, FileOutput.Contents(o), tree) ==> SourceTree(WindowsView(f, items, shown.names), items, tree)
    ensures forall k :: 0 <= k < |items| ==> ItemShown(f, items, shown.names, k)
  {
    forall k | 0 <= k < |items| ensures ItemShown(f, items, shown.names, k) {
      WindowsNamesEntries(f, items, c, options, st, p, listing, shown);
      ItemsShown(f, items, c.ids, st.entries, shown.names, k);
    }
    PackedIsReadable(items, c, options, st, p);
    WindowsNamesExtract(f, p.header.entryCount, p.header.dataSize, st.entries, listing, shown, creatable);
    WindowsTrees(f, items, c, options, st, p, shown.names, creatable);
  }

  lemma WindowsNamesEntries(f: WindowsText.CharFold, items: seq<WalkItem>, c: Choices, options: Options, st: Scanned, p: Plan,
                            listing: seq<u64>, shown: WindowsNameMap.NameMap)
    requires PackedFrom(items, c, options, st, p) && WindowsText.GoodFold(f)
    requires MountedTree.Viewed(p.header.entryCount, p.header.dataSize, st.entries, listing)
    requires WindowsNameMap.IsNameMap(f, MountedTree.NodesOf(ById(st.entries), listing), shown)
    ensures DescribesAll(items, c.ids, st.entries) && MountedTree.EntriesNamed(f, st.entries, shown.names)
  {
    MountedTree.ViewNamesEntries(f, p.header.entryCount, p.header.dataSize, st.entries, listing, shown);
  }

  lemma WindowsTrees(f: WindowsText.CharFold, items: seq<WalkItem>, c: Choices, options: Options, st: Scanned, p: Plan,
                     names: map<u64, string>, creatable: string -> bool)
    requires PackedFrom(items, c, options, st, p) && FreshIds(c.ids, |items|) && ProperWalk(items)
    requires forall id :: id in ById(st.entries) && id != 1 ==> id in names
    ensures PlanOk(p) && DataStart(p) < U64_LIMIT
    ensures var o := OpenedPlan(p, Image(p)); var nm := WindowsNaming(f, o.index.entries, names, creatable);
      forall tree :: IndexTree(o.index.entries, nm, FileOutput.Contents(o), tree) ==> SourceTree(WindowsView(f, items, names), items, tree)
  {
    PackedIsReadable(items, c, options, st, p);
    var m := ById(st.entries);
    var nm, v := WindowsNaming(f, m, names, creatable), WindowsView(f, items, names);
    AcceptedIsTree(p.header.entryCount, p.header.dataSize, st.entries);
    ScanTables(items, c.ids, st.entries);
    ExtractedContents(items, c, options, st, p);
    WindowsShown(f, items, c.ids, st.entries, m, names, creatable);
    forall tree | IndexTree(m, nm, FileOutput.Contents(OpenedPlan(p, Image(p))), tree) ensures SourceTree(v, items, tree) {
      IndexTreeIsSource(v, items, c.ids, st.entries, m, nm, FileOutput.Contents(OpenedPlan(p, Image(p))), tree);
    }
  }
}
