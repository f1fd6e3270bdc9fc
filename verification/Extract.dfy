/** `extract_v2_inner`: entries in (depth, id) order, ordered chunk batches, delayed renames and one publish point. */
module Extract {
  import opened Common
  import opened Sequences
  import opened Format
  import opened Index
  import opened IndexProperties
  import opened Container
  import opened EntryLists
  import opened StagingFs
  import opened SafeFs
  import opened ExtractTree
  import opened FileOutput
  import opened PlatformIo
  import opened Progress
  import opened Totals
  import Verify
  import Names

  // ---------- The order of the entries ----------

  /** Sort key (depth, id). */
  function Key(e: Entry): int {
    e.depth * 0x1_0000_0000_0000_0000 + e.id
  }

  /** The parent of an entry comes before the entry. */
  lemma ParentFirst(m: EntryMap, list: seq<Entry>, k: nat)
    requires Tree(m) && Lists(m, list) && Sorted(Key, list) && k < |list| && list[k].id != 1
    ensures ParentOk(m, list[k]) && m[list[k].parentId] in list[..k]
  {
    var e := list[k];
    assert ParentOk(m, m[e.id]);
    var p := m[e.parentId];
    var j :| 0 <= j < |list| && list[j] == p;
    forall i | k <= i < |list| ensures list[i] != p {
      if i > k { assert InOrder(Key, list, k, i); }
    }
    assert list[..k][j] == p;
  }

  // ---------- The state of a running extraction ----------

  datatype Session = Session(container: Opened, naming: Naming, base: map<string, FsTree>)

  function Entries(j: Session): EntryMap {
    j.container.index.entries
  }

  ghost predicate Sound(j: Session) {
    Tree(Entries(j)) && PlainApart(Entries(j), j.naming) && FilesPlain(j.naming)
  }

  /** Open directories by entry id. */
  ghost predicate Directories(j: Session, directories: map<u64, Path>, done: set<u64>) {
    && 1 in directories && directories[1] == []
    && (forall id :: id in done && id in Entries(j) && Entries(j)[id].kind == Directory ==>
          id in directories && directories[id] == OutputPath(Entries(j), j.naming, id))
  }

  ghost predicate StagedIn(j: Session, tree: FsTree, done: set<u64>, renamed: set<u64>) {
    Staged(Entries(j), j.naming, Contents(j.container), tree, done, renamed)
  }

  /** The private tree, the open directories and the rest of the parent directory. */
  ghost predicate Running(j: Session, staging: string, names: map<string, FsTree>, directories: map<u64, Path>,
                          done: set<u64>) {
    && OnlyInside(j.base, names, staging)
    && StagedIn(j, names[staging], done, {})
    && Directories(j, directories, done)
  }

  /** The entry is new, its directory is there, and of its level exactly the smaller ids were handled. */
  ghost predicate Ready(j: Session, e: Entry, done: set<u64>) {
    && e.id in Entries(j) && Entries(j)[e.id] == e && e.id != 1 && e.id !in done
    && ParentOk(Entries(j), e) && (e.parentId == 1 || e.parentId in done)
    && (forall y :: y in Entries(j) && y != 1 && Entries(j)[y].depth == e.depth ==> (y in done <==> y < e.id))
  }

  function OutName(j: Session, e: Entry): string {
    j.naming.out(e.id)
  }

  function OutSlot(j: Session, e: Entry): Slot {
    Named(j.naming.platform.text(OutName(j, e)))
  }

  /** A directory that the platform does not tell apart from a file handled after it. */
  ghost predicate Clash(j: Session, d: u64, f: u64) {
    Collide(Entries(j), j.naming, d, f) && d < f && Entries(j)[d].kind == Directory && Entries(j)[f].kind == File
  }

  ghost predicate ClashAt(j: Session, f: u64) {
    exists d :: Clash(j, d, f)
  }

  ghost predicate Clashes(j: Session) {
    exists f :: ClashAt(j, f)
  }

  /** All names are accepted, and no two directories collide. */
  ghost predicate Regular(j: Session) {
    && (forall id :: id in Entries(j) && id != 1 ==> Usable(Entries(j), j.naming, id))
    && (forall x, y :: Collide(Entries(j), j.naming, x, y) ==> Entries(j)[x].kind == File || Entries(j)[y].kind == File)
  }

  lemma ClashIsCollision(j: Session)
    ensures Clashes(j) ==> !TextsApart(Entries(j), j.naming)
  {
    if Clashes(j) {
      var f :| ClashAt(j, f);
      var d :| Clash(j, d, f);
      assert Collide(Entries(j), j.naming, d, f);
    }
  }

  lemma ExtractableIsRegular(j: Session)
    ensures Extractable(Entries(j), j.naming) ==> Regular(j) && !Clashes(j)
  {
    ClashIsCollision(j);
  }

  /** Siblings have one depth. */
  lemma SiblingDepth(j: Session, x: u64, y: u64)
    requires Sound(j) && Collide(Entries(j), j.naming, x, y)
    ensures ParentOk(Entries(j), Entries(j)[x]) && ParentOk(Entries(j), Entries(j)[y])
    ensures Entries(j)[x].depth == Entries(j)[y].depth
  {
  }

  /** What is in the way of a new entry is a directory that collides with it. */
  lemma InTheWay(j: Session, tree: FsTree, done: set<u64>, e: Entry)
    requires Sound(j) && StagedIn(j, tree, done, {}) && Ready(j, e, done)
    ensures OutputPath(Entries(j), j.naming, e.id) in tree && e.kind == Directory ==> !Regular(j)
    ensures e.kind == File ==> (OutputPath(Entries(j), j.naming, e.id) in tree <==> ClashAt(j, e.id))
  {
    var m, nm := Entries(j), j.naming;
    if OutputPath(m, nm, e.id) in tree {
      var y := TakenBy(m, nm, Contents(j.container), tree, done, {}, e.id);
      SiblingDepth(j, y, e.id);
      assert e.kind == File ==> Clash(j, y, e.id);
    }
    if e.kind == File && ClashAt(j, e.id) {
      var d :| Clash(j, d, e.id);
      SiblingDepth(j, d, e.id);
      CollidingPlaces(m, nm, d, e.id);
      assert Holds(m, nm, Contents(j.container), tree, {}, d);
    }
  }

  /** What the file system finds where a new entry should go. */
  lemma EntryPlaces(j: Session, staging: string, names: map<string, FsTree>, directories: map<u64, Path>, done: set<u64>,
                    e: Entry)
    requires Sound(j) && Running(j, staging, names, directories, done) && Ready(j, e, done)
    ensures e.parentId in directories && directories[e.parentId] == OutputPath(Entries(j), j.naming, e.parentId)
    ensures directories[e.parentId] + [Private(e.id)] !in names[staging]
    ensures directories[e.parentId] + [OutSlot(j, e)] in names[staging] && e.kind == Directory ==> !Regular(j)
    ensures e.kind == File ==> (directories[e.parentId] + [OutSlot(j, e)] in names[staging] <==> ClashAt(j, e.id))
  {
    assert OutputPath(Entries(j), j.naming, 1) == [];
    InTheWay(j, names[staging], done, e);
    TempPlaceFree(Entries(j), j.naming, Contents(j.container), names[staging], done, {}, e.id);
  }

  lemma HandleAdded(j: Session, directories: map<u64, Path>, done: set<u64>, e: Entry, path: Path)
    requires Directories(j, directories, done) && e.id != 1 && path == OutputPath(Entries(j), j.naming, e.id)
    ensures Directories(j, directories[e.id := path], done + {e.id})
  {
  }

  lemma DirectoryStaged(j: Session, tree: FsTree, done: set<u64>, e: Entry, path: Path)
    requires Sound(j) && StagedIn(j, tree, done, {}) && Ready(j, e, done) && e.kind == Directory
    requires path !in tree && path == OutputPath(Entries(j), j.naming, e.id) && Usable(Entries(j), j.naming, e.id)
    ensures StagedIn(j, tree[path := DirNode(OutName(j, e))], done + {e.id}, {})
  {
    StagedAdd(Entries(j), j.naming, Contents(j.container), tree, done, {}, e.id);
    assert NodeAt(Entries(j), j.naming, Contents(j.container), {}, e.id) == DirNode(OutName(j, e));
  }

  lemma FileStaged(j: Session, tree: FsTree, done: set<u64>, e: Entry, path: Path)
    requires Sound(j) && StagedIn(j, tree, done, {}) && Ready(j, e, done) && e.kind == File
    requires path !in tree && path == TempPlace(Entries(j), j.naming, e.id) && Usable(Entries(j), j.naming, e.id)
    ensures StagedIn(j, tree[path := FileNode("", FileContent(j.container, e, e.chunkCount))], done + {e.id}, {})
  {
    StagedAdd(Entries(j), j.naming, Contents(j.container), tree, done, {}, e.id);
    assert NodeAt(Entries(j), j.naming, Contents(j.container), {}, e.id) == FileNode("", FileContent(j.container, e, e.chunkCount));
  }

  /** One more written file. */
  lemma FileArrived(j: Session, staging: string, names: map<string, FsTree>, now: map<string, FsTree>,
                    directories: map<u64, Path>, done: set<u64>, e: Entry, path: Path)
    requires Sound(j) && Running(j, staging, names, directories, done) && Ready(j, e, done) && e.kind == File
    requires path !in names[staging] && path == TempPlace(Entries(j), j.naming, e.id) && Usable(Entries(j), j.naming, e.id)
    requires Half(now, j.base, staging, names[staging], path, FileContent(j.container, e, e.chunkCount))
    ensures Running(j, staging, now, directories, done + {e.id})
  {
    FileStaged(j, names[staging], done, e, path);
  }

  /** The invariant between two entries. */
  ghost predicate At(j: Session, root: SafeRoot, done: set<u64>)
    reads root, root.parent
  {
    root.Valid() && root.target != root.staging && root.target !in j.base
    && Running(j, root.staging, root.parent.names, root.directories, done)
  }

  /** What holds even after a failure: only the private tree differs and the destination was never there. */
  ghost predicate Contained(j: Session, root: SafeRoot)
    reads root, root.parent
  {
    root.Valid() && OnlyInside(j.base, root.parent.names, root.staging)
  }

  method ExtractDirectory(j: Session, root: SafeRoot, e: Entry, ghost done: set<u64>) returns (r: Result<()>)
    requires Sound(j) && At(j, root, done) && Ready(j, e, done) && e.kind == Directory
    modifies root`directories, root.parent
    ensures r.Ok? ==> At(j, root, done + {e.id})
    ensures Contained(j, root) && root.parent.sightings == old(root.parent.sightings)
    ensures NotAboutNames(r)
    ensures root.parent.quiet && Regular(j) ==> r.Ok?
  {
    ghost var names, directories := root.parent.names, root.directories;
    EntryPlaces(j, root.staging, names, directories, done, e);
    r := root.CreateDirectory(e.id, e.parentId, j.naming.out(e.id), j.naming.platform);
    OnlyInsideTwice(j.base, names, root.parent.names, root.staging);
    if r.Ok? {
      ghost var path := directories[e.parentId] + [OutSlot(j, e)];
      DirectoryStaged(j, names[root.staging], done, e, path);
      HandleAdded(j, directories, done, e, path);
    }
  }

  /** A pending file that belongs to an entry. */
  ghost predicate PendingFor(j: Session, root: SafeRoot, p: PendingFile, id: u64) {
    && id in Entries(j)
    && p.parent == root.parent && p.top == root.staging && p.id == id
    && p.dir == OutputPath(Entries(j), j.naming, Entries(j)[id].parentId) && p.finalName == j.naming.out(id)
  }

  /** How handling entries can end; `calm` tells that nothing outside the code goes wrong. */
  ghost predicate Handles(j: Session, calm: bool, r: Result<()>) {
    && r != Err(ParentMissing) && (r == Err(DuplicateEntry) ==> Clashes(j))
    && (calm && Regular(j) && AllChunksOpen(j.container) ==> r.Ok? || r == Err(DuplicateEntry))
  }

  /** How building the tree can end. */
  ghost predicate Builds(j: Session, calm: bool, r: Result<()>) {
    && r != Err(ParentMissing) && (r == Err(DuplicateEntry) ==> Clashes(j))
    && (calm && AllChunksOpen(j.container) && Extractable(Entries(j), j.naming) ==> r.Ok?)
    && (calm && AllChunksOpen(j.container) && Regular(j) && Clashes(j) ==> r == Err(DuplicateEntry))
  }

  lemma HandlesBuilds(j: Session, calm: bool, r: Result<()>)
    requires Handles(j, calm, r) && r.Err?
    ensures Builds(j, calm, r)
  {
    ExtractableIsRegular(j);
  }

  /** Nothing outside the code goes wrong from here on. */
  ghost predicate Undisturbed(root: SafeRoot, s: Supply) {
    root.parent.quiet && s.file.quiet
  }

  /** What holds whenever the loop stops. */
  ghost predicate Stopped(j: Session, root: SafeRoot, s: Supply)
    reads root, root.parent, s.file, s.tracker
  {
    Contained(j, root) && Counting(s, j.container)
  }

  /** Opens the temporary file of an entry. */
  method BeginEntry(j: Session, root: SafeRoot, e: Entry, ghost done: set<u64>) returns (r: Result<PendingFile>)
    requires Sound(j) && At(j, root, done) && Ready(j, e, done) && e.kind == File
    modifies root.parent
    ensures Contained(j, root) && root.parent.sightings == old(root.parent.sightings)
    ensures r.Ok? ==> fresh(r.value) && Filling(j, root, r.value, e, done, old(root.parent.names))
    ensures r != Err(ParentMissing) && (r == Err(DuplicateEntry) ==> ClashAt(j, e.id)) && (r.Ok? ==> !ClashAt(j, e.id))
    ensures root.parent.quiet && Regular(j) ==> r.Ok? || r == Err(DuplicateEntry)
  {
    ghost var names := root.parent.names;
    EntryPlaces(j, root.staging, names, root.directories, done, e);
    r := root.BeginFile(e.parentId, j.naming.out(e.id), e.id, j.naming.platform);
    OnlyInsideTwice(j.base, names, root.parent.names, root.staging);
  }

  /** Where a file is about to be written: the state in front of its entry, and its empty temporary file. */
  ghost predicate Filling(j: Session, root: SafeRoot, p: PendingFile, e: Entry, done: set<u64>, names: map<string, FsTree>)
    reads root, root.parent, p
  {
    && root.Valid() && root.target != root.staging && root.target !in j.base
    && Running(j, root.staging, names, root.directories, done)
    && PendingFor(j, root, p, e.id) && p.writing && !p.committed && Usable(Entries(j), j.naming, e.id)
    && p.TempPath() == TempPlace(Entries(j), j.naming, e.id) && p.TempPath() !in names[root.staging]
    && Half(root.parent.names, j.base, root.staging, names[root.staging], p.TempPath(), [])
  }

  /** One more entry is staged and its chunks are counted, or the loop has to stop. */
  ghost predicate EntryDone(j: Session, root: SafeRoot, s: Supply, e: Entry, at: nat, done: set<u64>,
                            r: Result<Option<PendingFile>>)
    reads root, root.parent, s.file, s.tracker
  {
    match r
    case Ok(file) =>
      && At(j, root, done + {e.id}) && Counted(s, j.container, at + ChunksIn(e)) && !ClashAt(j, e.id)
      && (file.Some? <==> e.kind == File)
      && (file.Some? ==> PendingFor(j, root, file.value, e.id) && FileOpens(j.container, e, e.chunkCount))
    case Err(_) => Stopped(j, root, s)
  }

  method ExtractFile(j: Session, root: SafeRoot, s: Supply, e: Entry, batchSize: u64, ghost at: nat, ghost done: set<u64>)
    returns (r: Result<Option<PendingFile>>)
    requires Sound(j) && At(j, root, done) && Ready(j, e, done) && e.kind == File && batchSize > 0
    requires Counted(s, j.container, at) && FileAt(s.all, at, e)
    modifies root.parent, s.tracker
    ensures EntryDone(j, root, s, e, at, done, r) && (r.Ok? ==> fresh(r.value.value))
    ensures root.parent.sightings == old(root.parent.sightings)
    ensures r != Err(ParentMissing) && (r == Err(DuplicateEntry) ==> ClashAt(j, e.id))
    ensures Undisturbed(root, s) && Regular(j) && FileOpens(j.container, e, e.chunkCount) ==>
              r.Ok? || r == Err(DuplicateEntry)
  {
    ghost var names := root.parent.names;
    var file := BeginEntry(j, root, e, done);
    if file.Err? {
      return Err(file.error);
    }
    r := FillEntry(j, root, s, file.value, e, batchSize, at, done, names);
  }

  /** Fills the temporary file of an entry. */
  method FillEntry(j: Session, root: SafeRoot, s: Supply, p: PendingFile, e: Entry, batchSize: u64, ghost at: nat,
                   ghost done: set<u64>, ghost names: map<string, FsTree>)
    returns (r: Result<Option<PendingFile>>)
    requires Sound(j) && Ready(j, e, done) && e.kind == File && batchSize > 0 && !ClashAt(j, e.id)
    requires Filling(j, root, p, e, done, names) && Counted(s, j.container, at) && FileAt(s.all, at, e)
    modifies p, root.parent, s.tracker
    ensures EntryDone(j, root, s, e, at, done, r) && (r.Ok? ==> r.value == Some(p))
    ensures root.parent.sightings == old(root.parent.sightings)
    ensures NotAboutNames(r)
    ensures Undisturbed(root, s) && FileOpens(j.container, e, e.chunkCount) ==> r.Ok?
  {
    var filled := FillFile(s, p, j, e, batchSize, at, names[root.staging]);
    if filled.Err? {
      return Err(filled.error);
    }
    FileIsDone(j, root, s, p, e, at, done, names);
    r := Ok(Some(p));
  }

  /** The state behind a written file. */
  lemma FileIsDone(j: Session, root: SafeRoot, s: Supply, p: PendingFile, e: Entry, at: nat, done: set<u64>,
                   names: map<string, FsTree>)
    requires Sound(j) && Ready(j, e, done) && e.kind == File && !ClashAt(j, e.id) && PendingFor(j, root, p, e.id)
    requires root.Valid() && root.target != root.staging && root.target !in j.base
    requires Running(j, root.staging, names, root.directories, done) && Usable(Entries(j), j.naming, e.id)
    requires p.TempPath() == TempPlace(Entries(j), j.naming, e.id) && p.TempPath() !in names[root.staging]
    requires Half(root.parent.names, j.base, root.staging, names[root.staging], p.TempPath(), FileContent(j.container, e, e.chunkCount))
    requires FileOpens(j.container, e, e.chunkCount) && Counted(s, j.container, at + e.chunkCount)
    ensures EntryDone(j, root, s, e, at, done, Ok(Some(p)))
  {
    FileArrived(j, root.staging, names, root.parent.names, root.directories, done, e, p.TempPath());
  }

  /** Writes, closes, and on failure drops one file. */
  method FillFile(s: Supply, pending: PendingFile, j: Session, e: Entry, batchSize: u64, ghost at: nat, ghost tree: FsTree)
    returns (r: Result<()>)
    requires batchSize > 0 && pending.writing && !pending.committed
    requires pending.parent.watched !in j.base && pending.parent.watched != pending.top
    requires Half(pending.parent.names, j.base, pending.top, tree, pending.TempPath(), [])
    requires Counted(s, j.container, at) && FileAt(s.all, at, e)
    modifies pending, pending.parent, s.tracker
    ensures r.Ok? ==> FileOpens(j.container, e, e.chunkCount) && Counted(s, j.container, at + e.chunkCount)
    ensures r.Ok? ==> Half(pending.parent.names, j.base, pending.top, tree, pending.TempPath(), FileContent(j.container, e, e.chunkCount))
    ensures OnlyInside(j.base, pending.parent.names, pending.top) && pending.parent.sightings == old(pending.parent.sightings)
    ensures Counting(s, j.container)
    ensures pending.parent.quiet && s.file.quiet && FileOpens(j.container, e, e.chunkCount) ==> r.Ok?
    ensures NotAboutNames(r)
  {
    r := WriteFile(s, pending, j.container, e, batchSize, at, j.base, tree);
    if r.Ok? {
      r := pending.FinishWriting();
    }
    if r.Err? {
      ghost var names := pending.parent.names;
      pending.Drop();
      OnlyInsideTwice(j.base, names, pending.parent.names, pending.top);
    }
  }

  // ---------- The loop over the entries ----------

  function DoneIds(list: seq<Entry>, k: nat): set<u64>
    requires k <= |list|
  {
    set i | 0 <= i < k && list[i].id != 1 :: list[i].id
  }

  lemma DoneStep(list: seq<Entry>, k: nat)
    requires k < |list|
    ensures DoneIds(list, k + 1) == if list[k].id == 1 then DoneIds(list, k) else DoneIds(list, k) + {list[k].id}
  {
  }

  ghost predicate Ordered(j: Session, list: seq<Entry>) {
    Lists(Entries(j), list) && Sorted(Key, list)
  }

  /** Of one level the smaller ids come first. */
  lemma LevelOrder(j: Session, list: seq<Entry>, k: nat, y: u64)
    requires Sound(j) && Ordered(j, list) && k < |list| && y in Entries(j) && y != 1
    requires Entries(j)[y].depth == list[k].depth
    ensures y in DoneIds(list, k) <==> y < list[k].id
  {
    var i :| 0 <= i < |list| && list[i] == Entries(j)[y];
    assert list[k] in list;
    if i < k { assert InOrder(Key, list, i, k) && Differ(list, i, k); }
    if k < i { assert InOrder(Key, list, k, i); }
    forall n | 0 <= n < k && list[n].id == y ensures n == i {
      assert list[n] in list;
      OnePlace(list, n, i);
    }
  }

  /** The (depth, id) order makes every entry ready when its turn comes. */
  lemma ReadyInTurn(j: Session, list: seq<Entry>, k: nat)
    requires Sound(j) && Ordered(j, list) && k < |list| && list[k].id != 1
    ensures Ready(j, list[k], DoneIds(list, k))
  {
    var m, e := Entries(j), list[k];
    ParentFirst(m, list, k);
    assert e in list;
    var i :| 0 <= i < k && list[i] == m[e.parentId];
    assert list[i].id == e.parentId;
    forall i | 0 <= i < k ensures list[i].id != e.id {
      assert list[i] in list && Differ(list, i, k);
    }
    forall y | y in m && y != 1 && m[y].depth == e.depth ensures y in DoneIds(list, k) <==> y < e.id {
      LevelOrder(j, list, k, y);
    }
  }

  /** The pending files are the files among the handled entries, each once. */
  ghost predicate PendingAll(j: Session, root: SafeRoot, pending: seq<PendingFile>, done: set<u64>) {
    && (forall i :: 0 <= i < |pending| ==> PendingFor(j, root, pending[i], pending[i].id)
                                           && pending[i].id in done && Entries(j)[pending[i].id].kind == File)
    && (forall i, k :: 0 <= i < k < |pending| ==> pending[i].id != pending[k].id)
    && (forall id :: id in done && id in Entries(j) && Entries(j)[id].kind == File ==> exists i :: 0 <= i < |pending| && pending[i].id == id)
  }

  lemma PendingDirectory(j: Session, root: SafeRoot, pending: seq<PendingFile>, done: set<u64>, e: Entry)
    requires PendingAll(j, root, pending, done) && Ready(j, e, done) && e.kind == Directory
    ensures PendingAll(j, root, pending, done + {e.id})
  {
  }

  lemma NewIdAdded(pending: seq<PendingFile>, p: PendingFile, done: set<u64>)
    requires forall i, k :: 0 <= i < k < |pending| ==> pending[i].id != pending[k].id
    requires p.id !in done && forall i :: 0 <= i < |pending| ==> pending[i].id in done
    ensures var after := pending + [p]; forall i, k :: 0 <= i < k < |after| ==> after[i].id != after[k].id
  {
  }

  lemma PendingFileAdded(j: Session, root: SafeRoot, pending: seq<PendingFile>, done: set<u64>, e: Entry,
                         p: PendingFile)
    requires PendingAll(j, root, pending, done) && Ready(j, e, done) && e.kind == File && PendingFor(j, root, p, e.id)
    ensures PendingAll(j, root, pending + [p], done + {e.id})
  {
    var after := pending + [p];
    NewIdAdded(pending, p, done);
    assert forall i :: 0 <= i < |pending| ==> after[i] == pending[i];
    assert after[|pending|] == p && p.id == e.id;
    forall i | 0 <= i < |after|
      ensures PendingFor(j, root, after[i], after[i].id) && after[i].id in done + {e.id} && Entries(j)[after[i].id].kind == File
    {
      if i < |pending| { assert after[i] == pending[i]; }
    }
    forall id | id in done + {e.id} && id in Entries(j) && Entries(j)[id].kind == File
      ensures exists i :: 0 <= i < |after| && after[i].id == id
    {
      if id != e.id {
        var i :| 0 <= i < |pending| && pending[i].id == id;
        assert after[i].id == id;
      }
    }
  }

  ghost predicate FilesOpen(j: Session, done: set<u64>) {
    forall id :: id in done && id in Entries(j) && Entries(j)[id].kind == File ==>
      FileOpens(j.container, Entries(j)[id], Entries(j)[id].chunkCount)
  }

  ghost predicate AllHere(root: SafeRoot, pending: seq<PendingFile>) {
    forall i :: 0 <= i < |pending| ==> pending[i].parent == root.parent && pending[i].top == root.staging
  }

  lemma PendingHere(j: Session, root: SafeRoot, pending: seq<PendingFile>, done: set<u64>)
    requires PendingAll(j, root, pending, done)
    ensures AllHere(root, pending)
  {
    assert forall i :: 0 <= i < |pending| ==> PendingFor(j, root, pending[i], pending[i].id);
  }

  /** None of the handled files clashes with a directory. */
  ghost predicate Unclashed(j: Session, done: set<u64>) {
    forall id :: id in done ==> !ClashAt(j, id)
  }

  lemma UnclashedAll(j: Session, list: seq<Entry>)
    requires Sound(j) && Ordered(j, list) && Unclashed(j, DoneIds(list, |list|))
    ensures !Clashes(j)
  {
    AllDone(j, list);
    forall f | true ensures !ClashAt(j, f) {
      assert f in Entries(j) && f != 1 ==> f in DoneIds(list, |list|);
    }
  }

  /** What is known of the handled entries, apart from the file system. */
  ghost predicate Handled(j: Session, root: SafeRoot, pending: seq<PendingFile>, done: set<u64>) {
    PendingAll(j, root, pending, done) && FilesOpen(j, done) && Unclashed(j, done)
  }

  lemma HandledDirectory(j: Session, root: SafeRoot, pending: seq<PendingFile>, done: set<u64>, e: Entry)
    requires Handled(j, root, pending, done) && Ready(j, e, done) && e.kind == Directory && !ClashAt(j, e.id)
    ensures Handled(j, root, pending, done + {e.id})
  {
    PendingDirectory(j, root, pending, done, e);
  }

  lemma HandledFile(j: Session, root: SafeRoot, pending: seq<PendingFile>, done: set<u64>, e: Entry, p: PendingFile,
                    now: seq<PendingFile>)
    requires |now| == |pending| + 1 && now[|pending|] == p && forall i :: 0 <= i < |pending| ==> now[i] == pending[i]
    requires Handled(j, root, pending, done) && Ready(j, e, done) && e.kind == File && !ClashAt(j, e.id)
    requires PendingFor(j, root, p, e.id) && FileOpens(j.container, e, e.chunkCount)
    ensures Handled(j, root, now, done + {e.id})
  {
    assert now == pending + [p];
    PendingFileAdded(j, root, pending, done, e, p);
  }

  /** `now` is `pending` with at most new objects behind it. */
  twostate predicate Grown(pending: seq<PendingFile>, new now: seq<PendingFile>) {
    && |pending| <= |now|
    && (forall i :: 0 <= i < |pending| ==> now[i] == pending[i])
    && (forall i :: |pending| <= i < |now| ==> fresh(now[i]))
  }

  method Push(pending: seq<PendingFile>, p: PendingFile) returns (now: seq<PendingFile>)
    ensures |now| == |pending| + 1 && now[|pending|] == p
    ensures forall i :: 0 <= i < |pending| ==> now[i] == pending[i]
  {
    now := pending + [p];
  }

  /** The directory, or the written file, of one entry. */
  method ExtractEntry(j: Session, root: SafeRoot, s: Supply, e: Entry, batchSize: u64, ghost at: nat, ghost done: set<u64>)
    returns (r: Result<Option<PendingFile>>)
    requires Sound(j) && At(j, root, done) && Ready(j, e, done) && batchSize > 0
    requires Counted(s, j.container, at) && (e.kind == File ==> FileAt(s.all, at, e))
    modifies root`directories, root.parent, s.tracker
    ensures EntryDone(j, root, s, e, at, done, r) && (r.Ok? && r.value.Some? ==> fresh(r.value.value))
    ensures root.parent.sightings == old(root.parent.sightings)
    ensures r != Err(ParentMissing) && (r == Err(DuplicateEntry) ==> ClashAt(j, e.id))
    ensures Undisturbed(root, s) && Regular(j) && AllChunksOpen(j.container) ==> r.Ok? || r == Err(DuplicateEntry)
  {
    match e.kind {
      case Directory =>
        var made := ExtractDirectory(j, root, e, done);
        DirectoryNeverClashes(j, e);
        r := if made.Ok? then Ok(None) else Err(made.error);
      case File =>
        r := ExtractFile(j, root, s, e, batchSize, at, done);
    }
  }

  /** The pending files after one more entry. */
  method AddPending(j: Session, root: SafeRoot, e: Entry, pending: seq<PendingFile>, file: Option<PendingFile>,
                    ghost done: set<u64>) returns (now: seq<PendingFile>)
    requires Handled(j, root, pending, done) && Ready(j, e, done) && (file.Some? <==> e.kind == File)
    requires e.kind == File ==> PendingFor(j, root, file.value, e.id) && FileOpens(j.container, e, e.chunkCount)
    requires !ClashAt(j, e.id)
    ensures Handled(j, root, now, done + {e.id})
    ensures |pending| <= |now| && forall i :: 0 <= i < |pending| ==> now[i] == pending[i]
    ensures forall i :: |pending| <= i < |now| ==> file == Some(now[i])
  {
    if file.None? {
      HandledDirectory(j, root, pending, done, e);
      return pending;
    }
    now := Push(pending, file.value);
    HandledFile(j, root, pending, done, e, file.value, now);
  }

  lemma DirectoryNeverClashes(j: Session, e: Entry)
    requires e.id in Entries(j) && Entries(j)[e.id] == e && e.kind == Directory
    ensures !ClashAt(j, e.id)
  {
  }

  function ChunksIn(e: Entry): nat {
    if e.kind == File then e.chunkCount else 0
  }

  /** How many chunks come before entry k. */
  function ChunksBefore(list: seq<Entry>, k: nat): nat
    requires k <= |list|
  {
    |Tasks(list[..k])|
  }

  /** The chunks of entry k follow those before it. */
  lemma ChunksOfNext(list: seq<Entry>, k: nat)
    requires k < |list|
    ensures ChunksBefore(list, k + 1) == ChunksBefore(list, k) + ChunksIn(list[k])
    ensures list[k].kind == File ==> FileAt(AllAmounts(list), ChunksBefore(list, k), list[k])
  {
    var e, before := list[k], Tasks(list[..k]);
    TasksAround(list, k);
    ChunkTasksExact(e, e.chunkCount);
    if e.kind == File {
      forall i: u64 | i < e.chunkCount ensures |before| + i < |Tasks(list)| && Tasks(list)[|before| + i] == Task(e, i) {
        assert (before + FileTasks(e))[|before| + i] == ChunkTasks(e, e.chunkCount)[i];
      }
    }
  }

  lemma TasksAround(list: seq<Entry>, k: nat)
    requires k < |list|
    ensures Tasks(list[..k + 1]) == Tasks(list[..k]) + FileTasks(list[k])
    ensures Tasks(list) == (Tasks(list[..k]) + FileTasks(list[k])) + Tasks(list[k + 1..])
  {
    PrefixMore(list, k);
    SplitAround(list, k);
    ConcatAssociative(list[..k], [list[k]], list[k + 1..]);
    TasksSplit(list[..k], list[k], list[k + 1..]);
  }

  lemma AllChunksBefore(list: seq<Entry>)
    ensures ChunksBefore(list, 0) == 0 && ChunksBefore(list, |list|) == |AllAmounts(list)|
  {
    assert list[..|list|] == list;
  }

  /** The state of the loop in front of entry k. */
  ghost predicate Before(j: Session, root: SafeRoot, s: Supply, list: seq<Entry>, k: nat, pending: seq<PendingFile>)
    requires k <= |list|
    reads root, root.parent, s.file, s.tracker
  {
    && At(j, root, DoneIds(list, k)) && Handled(j, root, pending, DoneIds(list, k))
    && Counted(s, j.container, ChunksBefore(list, k))
  }

  lemma StartsHere(j: Session, root: SafeRoot, s: Supply, list: seq<Entry>)
    requires At(j, root, {}) && Counted(s, j.container, 0)
    ensures Before(j, root, s, list, 0, [])
  {
    AllChunksBefore(list);
    assert DoneIds(list, 0) == {};
  }

  lemma StopsAnywhere(j: Session, root: SafeRoot, s: Supply, list: seq<Entry>, k: nat, pending: seq<PendingFile>)
    requires k <= |list| && Before(j, root, s, list, k, pending)
    ensures Stopped(j, root, s) && AllHere(root, pending)
  {
    PendingHere(j, root, pending, DoneIds(list, k));
  }

  /** One turn of the loop, for an entry other than the root. */
  method ExtractTurn(j: Session, root: SafeRoot, s: Supply, list: seq<Entry>, k: nat, batchSize: u64,
                     pending: seq<PendingFile>)
    returns (r: Result<()>, now: seq<PendingFile>)
    requires Sound(j) && Ordered(j, list) && k < |list| && batchSize > 0 && s.all == AllAmounts(list) && list[k].id != 1
    requires Before(j, root, s, list, k, pending)
    modifies root`directories, root.parent, s.tracker
    ensures r.Ok? ==> Before(j, root, s, list, k + 1, now)
    ensures r.Err? ==> Stopped(j, root, s) && AllHere(root, now)
    ensures Grown(pending, now) && (r.Err? ==> now == pending)
    ensures root.parent.sightings == old(root.parent.sightings)
    ensures Handles(j, Undisturbed(root, s), r)
  {
    PendingHere(j, root, pending, DoneIds(list, k));
    DoneStep(list, k);
    ChunksOfNext(list, k);
    ReadyInTurn(j, list, k);
    var file := ExtractEntry(j, root, s, list[k], batchSize, ChunksBefore(list, k), DoneIds(list, k));
    if file.Err? {
      return Err(file.error), pending;
    }
    now := AddPending(j, root, list[k], pending, file.value, DoneIds(list, k));
    r := Ok(());
  }

  lemma RootSkipped(j: Session, root: SafeRoot, s: Supply, list: seq<Entry>, k: nat, pending: seq<PendingFile>)
    requires Sound(j) && Ordered(j, list) && k < |list| && list[k].id == 1 && Before(j, root, s, list, k, pending)
    ensures Before(j, root, s, list, k + 1, pending)
  {
    DoneStep(list, k);
    ChunksOfNext(list, k);
    assert list[k] in list;
  }

  /** One turn of the loop. */
  method ExtractNext(j: Session, root: SafeRoot, s: Supply, list: seq<Entry>, k: nat, batchSize: u64,
                     pending: seq<PendingFile>)
    returns (r: Result<()>, now: seq<PendingFile>)
    requires Sound(j) && Ordered(j, list) && k < |list| && batchSize > 0 && s.all == AllAmounts(list)
    requires Before(j, root, s, list, k, pending)
    modifies root`directories, root.parent, s.tracker
    ensures r.Ok? ==> Before(j, root, s, list, k + 1, now)
    ensures r.Err? ==> Stopped(j, root, s) && AllHere(root, now)
    ensures Grown(pending, now) && (r.Err? ==> now == pending)
    ensures root.parent.sightings == old(root.parent.sightings)
    ensures Handles(j, Undisturbed(root, s), r)
  {
    StopsAnywhere(j, root, s, list, k, pending);
    var cancel := Disturbed(root.parent.quiet);
    if cancel {
      return Err(Cancelled), pending;
    }
    if list[k].id == 1 {
      RootSkipped(j, root, s, list, k, pending);
      return Ok(()), pending;
    }
    r, now := ExtractTurn(j, root, s, list, k, batchSize, pending);
  }

  /** The loop over the sorted entries. */
  method ExtractEntries(j: Session, root: SafeRoot, s: Supply, list: seq<Entry>, batchSize: u64)
    returns (r: Result<()>, pending: seq<PendingFile>)
    requires Sound(j) && Ordered(j, list) && batchSize > 0 && s.all == AllAmounts(list)
    requires Before(j, root, s, list, 0, [])
    modifies root`directories, root.parent, s.tracker
    ensures forall i :: 0 <= i < |pending| ==> fresh(pending[i])
    ensures r.Ok? ==> Before(j, root, s, list, |list|, pending)
    ensures r.Err? ==> Stopped(j, root, s) && AllHere(root, pending)
    ensures root.parent.sightings == old(root.parent.sightings)
    ensures Handles(j, Undisturbed(root, s), r)
  {
    r, pending := Ok(()), [];
    for k := 0 to |list|
      invariant r.Ok? && Before(j, root, s, list, k, pending)
      invariant forall i :: 0 <= i < |pending| ==> fresh(pending[i])
      invariant root.parent.sightings == old(root.parent.sightings)
    {
      var now;
      r, now := ExtractNext(j, root, s, list, k, batchSize, pending);
      if r.Err? {
        break;
      }
      forall i | 0 <= i < |now| ensures fresh(now[i]) {
        if i < |pending| { assert now[i] == pending[i]; }
      }
      pending := now;
    }
  }

  // ---------- The delayed renames ----------

  function IdsOf(pending: seq<PendingFile>, k: nat): set<u64>
    requires k <= |pending|
  {
    set i | 0 <= i < k :: pending[i].id
  }

  lemma IdsStep(pending: seq<PendingFile>, k: nat)
    requires k < |pending|
    ensures IdsOf(pending, k + 1) == IdsOf(pending, k) + {pending[k].id}
  {
  }

  ghost predicate Renaming(j: Session, staging: string, names: map<string, FsTree>, done: set<u64>, renamed: set<u64>) {
    OnlyInside(j.base, names, staging) && StagedIn(j, names[staging], done, renamed)
  }

  /** What a rename finds, and what it leaves. */
  lemma RenameOne(j: Session, tree: FsTree, done: set<u64>, renamed: set<u64>, id: u64)
    requires Sound(j) && StagedIn(j, tree, done, renamed)
    requires id in done && id in Entries(j) && Entries(j)[id].kind == File && id !in renamed
    ensures var from, to := TempPlace(Entries(j), j.naming, id), OutputPath(Entries(j), j.naming, id);
      && from in tree && tree[from].FileNode?
      && (Extractable(Entries(j), j.naming) ==> j.naming.platform.fileName(j.naming.out(id)) && to !in tree)
      && (j.naming.platform.fileName(j.naming.out(id)) && (to in tree ==> tree[to].FileNode?) ==>
            StagedIn(j, RenamedNode(tree, from, to, j.naming.out(id)), done, renamed + {id}))
  {
    var m, nm := Entries(j), j.naming;
    assert Holds(m, nm, Contents(j.container), tree, renamed, id);
    if Extractable(m, nm) {
      FinalPlaceFree(m, nm, Contents(j.container), tree, done, renamed, id);
    }
    if nm.platform.fileName(nm.out(id)) && (OutputPath(m, nm, id) in tree ==> tree[OutputPath(m, nm, id)].FileNode?) {
      RenameTargetFree(m, nm, Contents(j.container), tree, done, renamed, id);
      StagedRename(m, nm, Contents(j.container), tree, done, renamed, id);
    }
  }

  lemma PendingPaths(j: Session, root: SafeRoot, p: PendingFile, id: u64)
    requires Sound(j) && PendingFor(j, root, p, id) && id != 1
    ensures p.TempPath() == TempPlace(Entries(j), j.naming, id)
    ensures p.dir + [Named(j.naming.platform.text(p.finalName))] == OutputPath(Entries(j), j.naming, id)
  {
    assert ParentOk(Entries(j), Entries(j)[id]);
  }

  method CommitFile(j: Session, root: SafeRoot, p: PendingFile, ghost done: set<u64>, ghost renamed: set<u64>)
    returns (r: Result<()>)
    requires Sound(j) && root.Valid() && Renaming(j, root.staging, root.parent.names, done, renamed)
    requires PendingFor(j, root, p, p.id) && p.id in done && p.id != 1 && Entries(j)[p.id].kind == File && p.id !in renamed
    modifies p, root.parent
    ensures r.Ok? ==> Renaming(j, root.staging, root.parent.names, done, renamed + {p.id})
    ensures Contained(j, root) && root.parent.sightings == old(root.parent.sightings)
    ensures root.parent.quiet && Extractable(Entries(j), j.naming) ==> r.Ok?
    ensures r.Err? ==> r == Err(Io)
  {
    PendingPaths(j, root, p, p.id);
    RenameOne(j, root.parent.names[root.staging], done, renamed, p.id);
    ghost var names := root.parent.names;
    r := p.Commit(j.naming.platform);
    OnlyInsideTwice(j.base, names, root.parent.names, root.staging);
  }

  /** Dropping the files that were not renamed. */
  method DropAll(j: Session, root: SafeRoot, pending: seq<PendingFile>)
    requires Contained(j, root) && AllHere(root, pending)
    modifies pending, root.parent
    ensures Contained(j, root) && root.parent.sightings == old(root.parent.sightings)
  {
    for i := 0 to |pending|
      invariant Contained(j, root) && root.parent.sightings == old(root.parent.sightings)
    {
      ghost var names := root.parent.names;
      pending[i].Drop();
      OnlyInsideTwice(j.base, names, root.parent.names, root.staging);
    }
  }

  method CommitFiles(j: Session, root: SafeRoot, pending: seq<PendingFile>, ghost done: set<u64>)
    returns (r: Result<()>)
    requires Sound(j) && root.Valid() && Renaming(j, root.staging, root.parent.names, done, {})
    requires PendingAll(j, root, pending, done) && 1 !in done
    modifies pending, root.parent
    ensures r.Ok? ==> Renaming(j, root.staging, root.parent.names, done, IdsOf(pending, |pending|))
    ensures Contained(j, root) && root.parent.sightings == old(root.parent.sightings)
    ensures root.parent.quiet && Extractable(Entries(j), j.naming) ==> r.Ok?
    ensures r.Err? ==> r == Err(Io)
  {
    assert IdsOf(pending, 0) == {};
    for i := 0 to |pending|
      invariant root.Valid() && Renaming(j, root.staging, root.parent.names, done, IdsOf(pending, i))
      invariant root.parent.sightings == old(root.parent.sightings)
    {
      assert pending[i].id !in IdsOf(pending, i);
      r := CommitFile(j, root, pending[i], done, IdsOf(pending, i));
      if r.Err? {
        return;
      }
      IdsStep(pending, i);
    }
    r := Ok(());
  }

  // ---------- The whole extraction ----------

  lemma AllDone(j: Session, list: seq<Entry>)
    requires Sound(j) && Ordered(j, list)
    ensures 1 !in DoneIds(list, |list|)
    ensures forall id :: id in Entries(j) && id != 1 ==> id in DoneIds(list, |list|)
  {
    forall id | id in Entries(j) && id != 1 ensures id in DoneIds(list, |list|) {
      var i :| 0 <= i < |list| && list[i] == Entries(j)[id];
    }
  }

  /** What is staged once every entry is handled and every file renamed. */
  lemma StagedIsTree(j: Session, root: SafeRoot, pending: seq<PendingFile>, list: seq<Entry>, tree: FsTree)
    requires Sound(j) && Ordered(j, list) && PendingAll(j, root, pending, DoneIds(list, |list|))
    requires StagedIn(j, tree, DoneIds(list, |list|), IdsOf(pending, |pending|)) && FilesOpen(j, DoneIds(list, |list|))
    ensures IndexTree(Entries(j), j.naming, Contents(j.container), tree) && AllChunksOpen(j.container)
    ensures Extractable(Entries(j), j.naming)
  {
    AllDone(j, list);
    forall id | id in DoneIds(list, |list|) && Entries(j)[id].kind == File ensures id in IdsOf(pending, |pending|) {
      var i :| 0 <= i < |pending| && pending[i].id == id;
    }
    StagedAll(Entries(j), j.naming, Contents(j.container), tree, DoneIds(list, |list|), IdsOf(pending, |pending|));
    StagedAllUsable(Entries(j), j.naming, Contents(j.container), tree, DoneIds(list, |list|), IdsOf(pending, |pending|));
  }

  /** The private tree is complete. */
  ghost predicate Complete(j: Session, root: SafeRoot)
    reads root, root.parent
  {
    && Contained(j, root)
    && IndexTree(Entries(j), j.naming, Contents(j.container), root.parent.names[root.staging])
  }

  /** What the reporter saw: some of the chunks of these entries, or each of them once. */
  ghost predicate Reported(counts: seq<u64>, entries: seq<Entry>, all: bool) {
    Phase(counts, entries) && (all ==> PhaseDone(counts, entries))
  }

  /** A tracker for all chunks of the container, in front of its first one. */
  ghost predicate Fresh(o: Opened, file: DiskFile, tracker: ProgressTracker, entries: seq<Entry>)
    reads file, tracker
  {
    && OpenedFrom(o, entries) && file.content == o.file
    && tracker.Valid() && tracker.amounts == [] && tracker.total == SumBy(FileSize, entries)
  }

  /** The order of the work does not matter for the counts. */
  lemma ReportedInOrder(o: Opened, s: Supply, entries: seq<Entry>, list: seq<Entry>)
    requires OpenedFrom(o, entries) && s.tracker.total == SumBy(FileSize, entries)
    requires Lists(o.index.entries, list) && s.all == AllAmounts(list) && Counting(s, o)
    ensures Reported(s.tracker.reports, entries, |s.tracker.amounts| == |s.all|)
  {
    AcceptedLists(o.header.entryCount, o.header.dataSize, entries);
    ListsAgree(o.index.entries, entries, list);
    TasksPermuted(entries, list);
    assert s.all == s.tracker.amounts + s.all[|s.tracker.amounts|..];
    PhaseIs(o.header.entryCount, o.header.dataSize, entries, s.tracker.amounts, s.tracker.total);
  }

  lemma AllHandled(j: Session, root: SafeRoot, s: Supply, list: seq<Entry>, pending: seq<PendingFile>)
    requires Sound(j) && Ordered(j, list) && Before(j, root, s, list, |list|, pending) && s.all == AllAmounts(list)
    ensures !Clashes(j) && Counted(s, j.container, |s.all|) && AllHere(root, pending)
  {
    UnclashedAll(j, list);
    AllChunksBefore(list);
    PendingHere(j, root, pending, DoneIds(list, |list|));
  }

  /** The loop, and what was reported by its end. */
  method HandleAll(j: Session, root: SafeRoot, s: Supply, list: seq<Entry>, batchSize: u64, ghost entries: seq<Entry>)
    returns (r: Result<()>, pending: seq<PendingFile>, ghost counts: seq<u64>)
    requires Sound(j) && Ordered(j, list) && batchSize > 0 && s.all == AllAmounts(list)
    requires At(j, root, {}) && Fresh(j.container, s.file, s.tracker, entries)
    modifies root`directories, root.parent, s.tracker
    ensures forall i :: 0 <= i < |pending| ==> fresh(pending[i])
    ensures r.Ok? ==> Before(j, root, s, list, |list|, pending)
    ensures r.Err? ==> Stopped(j, root, s) && AllHere(root, pending)
    ensures Reported(counts, entries, r.Ok?)
    ensures root.parent.sightings == old(root.parent.sightings)
    ensures Handles(j, Undisturbed(root, s), r)
  {
    StartsHere(j, root, s, list);
    r, pending := ExtractEntries(j, root, s, list, batchSize);
    AllChunksBefore(list);
    ReportedInOrder(j.container, s, entries, list);
    counts := s.tracker.reports;
  }

  /** Renames the files of a handled list, or drops them. */
  method FinishStaging(j: Session, root: SafeRoot, s: Supply, ghost list: seq<Entry>, pending: seq<PendingFile>)
    returns (r: Result<()>)
    requires Sound(j) && Ordered(j, list) && Before(j, root, s, list, |list|, pending) && s.all == AllAmounts(list)
    modifies pending, root.parent
    ensures Built(j, root, r)
    ensures root.parent.sightings == old(root.parent.sightings)
    ensures Builds(j, Undisturbed(root, s), r)
  {
    AllHandled(j, root, s, list, pending);
    r := RenameAll(j, root, pending, list);
    if r.Err? {
      DropAll(j, root, pending);
    }
  }

  /** The complete private tree of an index that can be extracted, or at least nothing else changed. */
  ghost predicate Built(j: Session, root: SafeRoot, r: Result<()>)
    reads root, root.parent
  {
    match r
    case Ok(_) => Complete(j, root) && AllChunksOpen(j.container) && Extractable(Entries(j), j.naming)
    case Err(_) => Contained(j, root)
  }

  /** Handles the sorted entries and renames their files. */
  method StageList(j: Session, root: SafeRoot, s: Supply, list: seq<Entry>, batchSize: u64, ghost entries: seq<Entry>)
    returns (r: Result<()>, ghost counts: seq<u64>)
    requires Sound(j) && Ordered(j, list) && batchSize > 0 && s.all == AllAmounts(list)
    requires At(j, root, {}) && Fresh(j.container, s.file, s.tracker, entries)
    modifies root`directories, root.parent, s.tracker
    ensures Built(j, root, r) && root.parent.sightings == old(root.parent.sightings) && Reported(counts, entries, r.Ok?)
    ensures Builds(j, Undisturbed(root, s), r)
  {
    var pending;
    r, pending, counts := HandleAll(j, root, s, list, batchSize, entries);
    if r.Err? {
      HandlesBuilds(j, Undisturbed(root, s), r);
      DropAll(j, root, pending);
      return;
    }
    r := FinishStaging(j, root, s, list, pending);
  }

  /** Everything up to the publishing rename. */
  method StageAll(j: Session, root: SafeRoot, file: DiskFile, tracker: ProgressTracker, batchSize: u64,
                  ghost entries: seq<Entry>)
    returns (r: Result<()>, ghost counts: seq<u64>)
    requires Sound(j) && At(j, root, {}) && batchSize > 0 && Fresh(j.container, file, tracker, entries)
    modifies root`directories, root.parent, tracker
    ensures Built(j, root, r) && root.parent.sightings == old(root.parent.sightings) && Reported(counts, entries, r.Ok?)
    ensures Builds(j, root.parent.quiet && file.quiet, r)
  {
    var list := Values(Entries(j));
    SortedLists(Key, Entries(j), list);
    var sorted := SortByKey(Key, list);
    var s := Supply(file, tracker, AllAmounts(sorted));
    r, counts := StageList(j, root, s, sorted, batchSize, entries);
  }

  method RenameAll(j: Session, root: SafeRoot, pending: seq<PendingFile>, ghost list: seq<Entry>)
    returns (r: Result<()>)
    requires Sound(j) && Ordered(j, list) && At(j, root, DoneIds(list, |list|))
    requires PendingAll(j, root, pending, DoneIds(list, |list|)) && FilesOpen(j, DoneIds(list, |list|))
    modifies pending, root.parent
    ensures Built(j, root, r) && root.parent.sightings == old(root.parent.sightings)
    ensures NotAboutNames(r)
    ensures root.parent.quiet && Extractable(Entries(j), j.naming) ==> r.Ok?
  {
    AllDone(j, list);
    var cancel := Disturbed(root.parent.quiet);
    if cancel {
      return Err(Cancelled);
    }
    r := CommitFiles(j, root, pending, DoneIds(list, |list|));
    if r.Ok? {
      StagedIsTree(j, root, pending, list, root.parent.names[root.staging]);
    }
  }

  lemma InstalledNames(base: map<string, FsTree>, names: map<string, FsTree>, staging: string, target: string)
    requires OnlyInside(base, names, staging) && staging !in base && target != staging
    ensures (names - {staging})[target := names[staging]] == base[target := names[staging]]
    ensures names - {staging} == base
  {
  }

  /** Staging and the single publish point. */
  method ExtractInto(j: Session, root: SafeRoot, file: DiskFile, tracker: ProgressTracker, batchSize: u64,
                     ghost entries: seq<Entry>)
    returns (r: Result<()>, ghost counts: seq<u64>)
    requires Sound(j) && At(j, root, {}) && batchSize > 0 && root.staging !in j.base && Fresh(j.container, file, tracker, entries)
    modifies root, root.parent, tracker
    ensures Ended(j, root, r) && Reported(counts, entries, r.Ok?)
    ensures root.parent.sightings == old(root.parent.sightings) + if r.Ok? then 1 else 0
    ensures Builds(j, root.parent.quiet && file.quiet, r)
  {
    r, counts := StageAll(j, root, file, tracker, batchSize, entries);
    if r.Ok? {
      r := PublishTree(j, root);
    }
  }

  /** The tree of the index is at the target, or at least nothing but the private tree is new. */
  ghost predicate Ended(j: Session, root: SafeRoot, r: Result<()>)
    reads root, root.parent
  {
    match r
    case Ok(_) => AllChunksOpen(j.container) && Extractable(Entries(j), j.naming) && Installed(j, root.parent.names, root.target)
    case Err(_) => Contained(j, root)
  }

  ghost predicate Installed(j: Session, names: map<string, FsTree>, target: string) {
    && target in names && names == j.base[target := names[target]]
    && IndexTree(Entries(j), j.naming, Contents(j.container), names[target])
  }

  /** The last look at the cancellation token, and the publishing rename. */
  method PublishTree(j: Session, root: SafeRoot) returns (r: Result<()>)
    requires Built(j, root, Ok(())) && root.staging !in j.base && root.staging != root.target
    modifies root, root.parent
    ensures Ended(j, root, r)
    ensures root.parent.sightings == old(root.parent.sightings) + if r.Ok? then 1 else 0
    ensures NotAboutNames(r) && (root.parent.quiet ==> r.Ok?)
  {
    var cancel := Disturbed(root.parent.quiet);
    if cancel {
      return Err(Cancelled);
    }
    InstalledNames(j.base, root.parent.names, root.staging, root.target);
    r := root.Commit();
  }

  /** The total of the phase, with the overflow check. */
  method TotalSize(o: Opened, ghost entries: seq<Entry>) returns (total: Result<u64>)
    requires OpenedFrom(o, entries)
    ensures total.Ok? && total.value == SumBy(FileSize, entries)
  {
    AcceptedIsTree(o.header.entryCount, o.header.dataSize, entries);
    TotalsFit(o.header.entryCount, o.header.dataSize, entries);
    var values := Values(o.index.entries);
    FilesOnly(values);
    Verify.SameFiles(o, entries, values, Files(values));
    total := Verify.AddSizes(Files(values));
  }

  /** What became of the private directory: it was never made, made but never opened, removed or not by the drop, published. */
  datatype Fate = NeverMade | Abandoned | Dropped(removed: bool) | Published

  /** From the creation of the private directory to its publication or removal. */
  method ExtractStaged(j: Session, parent: ParentDir, target: string, staging: string, file: DiskFile,
                       tracker: ProgressTracker, batchSize: u64, ghost entries: seq<Entry>)
    returns (r: Result<()>, ghost fate: Fate, ghost counts: seq<u64>)
    requires Sound(j) && j.base == parent.names && parent.watched == target && batchSize > 0
    requires Fresh(j.container, file, tracker, entries)
    modifies parent, tracker
    ensures r.Ok? <==> fate == Published
    ensures fate == Published ==> AllChunksOpen(j.container) && Extractable(Entries(j), j.naming) && Installed(j, parent.names, target)
    ensures Left(j.base, parent.names, target, staging, fate)
    ensures parent.sightings == old(parent.sightings) + if r.Ok? then 1 else 0
    ensures Reported(counts, entries, r.Ok?)
    ensures fate == Abandoned ==> r == Err(Io)
    ensures target in j.base ==> r == Err(DestinationExists)
    ensures r != Err(ParentMissing) && (r == Err(DuplicateEntry) ==> Clashes(j))
    ensures target !in j.base && staging !in j.base && staging != target ==>
      && (parent.environment.NoHandles? ==> fate == Abandoned)
      && Builds(j, parent.quiet && file.quiet, r)
    ensures parent.quiet ==> fate != Abandoned && fate != Dropped(false)
  {
    counts := tracker.reports;
    NothingReported(j.container, file, tracker, entries);
    ghost var made;
    var opening;
    opening, made := SafeRoot.OpenNewAt(parent, target, staging);
    if opening.Err? {
      return Err(opening.error), if made then Abandoned else NeverMade, counts;
    }
    r, fate, counts := ExtractOpened(j, opening.value, file, tracker, batchSize, entries);
  }

  /** The root id is bound to the private directory. */
  method InstallRoot(j: Session, root: SafeRoot)
    requires root.Valid() && root.directories == map[1 := []]
    requires root.staging != root.target && root.target !in j.base
    requires root.parent.names == j.base[root.staging := EMPTY_TREE]
    modifies root
    ensures At(j, root, {})
  {
    var install := root.InstallRootId(1);
    assert install.Ok? && root.directories == map[1 := []];
    StagedEmpty(Entries(j), j.naming, Contents(j.container));
  }

  /** From the opened private directory on. */
  method ExtractOpened(j: Session, root: SafeRoot, file: DiskFile, tracker: ProgressTracker, batchSize: u64,
                       ghost entries: seq<Entry>)
    returns (r: Result<()>, ghost fate: Fate, ghost counts: seq<u64>)
    requires Sound(j) && root.Valid() && root.directories == map[1 := []] && batchSize > 0
    requires root.staging !in j.base && root.staging != root.target && root.target !in j.base
    requires root.parent.names == j.base[root.staging := EMPTY_TREE] && Fresh(j.container, file, tracker, entries)
    modifies root, root.parent, tracker
    ensures r.Ok? <==> fate == Published
    ensures fate == Published ==> AllChunksOpen(j.container) && Extractable(Entries(j), j.naming) && Installed(j, root.parent.names, root.target)
    ensures fate != Published ==> fate.Dropped?
    ensures Left(j.base, root.parent.names, root.target, root.staging, fate)
    ensures root.parent.sightings == old(root.parent.sightings) + if r.Ok? then 1 else 0
    ensures Reported(counts, entries, r.Ok?) && Builds(j, root.parent.quiet && file.quiet, r)
    ensures root.parent.quiet ==> fate != Dropped(false)
  {
    InstallRoot(j, root);
    r, counts := ExtractInto(j, root, file, tracker, batchSize, entries);
    if r.Ok? {
      return r, Published, counts;
    }
    fate := DropRoot(j, root);
  }

  lemma NothingReported(o: Opened, file: DiskFile, tracker: ProgressTracker, entries: seq<Entry>)
    requires Fresh(o, file, tracker, entries)
    ensures Reported(tracker.reports, entries, false)
  {
    PhaseIs(o.header.entryCount, o.header.dataSize, entries, [], tracker.total);
  }

  /** The drop of an unpublished root. */
  method DropRoot(j: Session, root: SafeRoot) returns (ghost fate: Fate)
    requires Contained(j, root) && root.staging !in j.base
    modifies root, root.parent
    ensures fate.Dropped? && Left(j.base, root.parent.names, root.target, root.staging, fate)
    ensures root.parent.sightings == old(root.parent.sightings) && (root.parent.quiet ==> fate == Dropped(true))
  {
    InstalledNames(j.base, root.parent.names, root.staging, root.target);
    ghost var names := root.parent.names;
    var cleaned := root.Drop();
    if !cleaned {
      OnlyInsideTwice(j.base, names, root.parent.names, root.staging);
    }
    fate := Dropped(cleaned);
  }

  /** What is left in the parent directory. */
  ghost predicate Left(base: map<string, FsTree>, names: map<string, FsTree>, target: string, staging: string, fate: Fate) {
    match fate
    case NeverMade => names == base
    case Abandoned => staging !in base && target !in names && names == base[staging := EMPTY_TREE]
    case Dropped(true) => names == base
    case Dropped(false) => staging !in base && target !in names && OnlyInside(base, names, staging)
    case Published => target !in base && target in names
  }

  /** After a failure the directory is as it was exactly if the private directory was never made, or removed by a drop. */
  lemma LeftAsItWas(base: map<string, FsTree>, names: map<string, FsTree>, target: string, staging: string, fate: Fate)
    requires Left(base, names, target, staging, fate)
    ensures names == base <==> fate == NeverMade || fate == Dropped(true)
  {
  }

  /**
   `extract_v2_inner` after opening the container.  On success the destination is exactly the tree of the index and it
   existed in no state before the last one, and every chunk was counted once.  On failure it never existed; the parent
   directory is as it was if and only if the private directory was never made, or was removed by the drop of its root.
   */
  method ExtractV2(parent: ParentDir, target: string, staging: string, container: Opened, file: DiskFile, naming: Naming,
                   batchSize: u64, ghost entries: seq<Entry>)
    returns (r: Result<()>, ghost fate: Fate, ghost counts: seq<u64>)
    requires Sound(Session(container, naming, parent.names)) && parent.watched == target && batchSize > 0
    requires OpenedFrom(container, entries) && file.content == container.file
    modifies parent
    ensures r.Ok? ==> AllChunksOpen(container) && target in parent.names && target !in old(parent.names)
    ensures r.Ok? ==> parent.names == old(parent.names)[target := parent.names[target]]
    ensures r.Ok? ==> IndexTree(container.index.entries, naming, Contents(container), parent.names[target])
    ensures parent.sightings == old(parent.sightings) + if r.Ok? then 1 else 0
    ensures r.Ok? <==> fate == Published
    ensures Left(old(parent.names), parent.names, target, staging, fate)
    ensures parent.names == old(parent.names) <==> fate == NeverMade || fate == Dropped(true)
    ensures fate == Abandoned ==> r == Err(Io)
    ensures parent.quiet ==> fate != Abandoned && fate != Dropped(false)
    ensures Phase(counts, entries) && (r.Ok? ==> PhaseDone(counts, entries))
    ensures target in old(parent.names) ==> r == Err(DestinationExists)
    ensures r != Err(ParentMissing)
    ensures r == Err(DuplicateEntry) ==> Clashes(Session(container, naming, old(parent.names)))
    ensures target !in old(parent.names) && staging !in old(parent.names) && staging != target ==>
      && (parent.environment.NoHandles? ==> fate == Abandoned)
      && (parent.quiet && file.quiet ==> (r.Ok? <==> AllChunksOpen(container) && Extractable(container.index.entries, naming)))
      && (parent.quiet && file.quiet && AllChunksOpen(container) && Regular(Session(container, naming, old(parent.names))) ==>
            (r == Err(DuplicateEntry) <==> Clashes(Session(container, naming, old(parent.names)))))
  {
    var total := TotalSize(container, entries);
    var tracker := new ProgressTracker(total.value);
    var j := Session(container, naming, parent.names);
    r, fate, counts := ExtractStaged(j, parent, target, staging, file, tracker, batchSize, entries);
    LeftAsItWas(old(parent.names), parent.names, target, staging, fate);
    ExtractableIsRegular(j);
  }

  /** Without a handle for the private directory, extraction fails and leaves that directory behind, empty. */
  method ExtractWithoutHandles(parent: ParentDir, target: string, staging: string, container: Opened, file: DiskFile,
                               naming: Naming, batchSize: u64, ghost entries: seq<Entry>)
    returns (r: Result<()>)
    requires Sound(Session(container, naming, parent.names)) && parent.watched == target && batchSize > 0
    requires OpenedFrom(container, entries) && file.content == container.file
    requires parent.environment.NoHandles? && target !in parent.names && staging !in parent.names && staging != target
    modifies parent
    ensures r == Err(Io) && parent.names == old(parent.names)[staging := EMPTY_TREE] && parent.names != old(parent.names)
  {
    ghost var fate, counts;
    r, fate, counts := ExtractV2(parent, target, staging, container, file, naming, batchSize, entries);
  }
}
