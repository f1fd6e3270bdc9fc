/** Extraction on Unix: the indexes that come out, and small ones that do not. */
module UnixExtract {
  import opened Common
  import opened Sequences
  import opened Format
  import opened Layout
  import opened Index
  import opened IndexProperties
  import opened Container
  import opened StagingFs
  import opened SafeFs
  import opened ExtractTree
  import opened FileOutput
  import opened PlatformIo
  import opened Progress
  import opened Extract
  import opened KeySlots
  import opened Pack
  import opened PackedImage
  import opened OutputNames
  import Names

  /** The container shows these entries. */
  ghost predicate Shows(container: Opened, entryCount: u64, dataSize: u64, entries: seq<Entry>) {
    Accepted(entryCount, dataSize, entries) && container.index.entries == ById(entries)
  }

  /**
   `extract_v2_inner` on Unix.  Without a failing system call or a cancellation it succeeds if and only if every chunk
   opens and the names meet `UnixClean`.
   */
  method ExtractOnUnix(parent: ParentDir, target: string, staging: string, container: Opened, file: DiskFile,
                       batchSize: u64, ghost entries: seq<Entry>)
    returns (r: Result<()>, ghost fate: Fate, ghost counts: seq<u64>)
    requires OpenedFrom(container, entries) && file.content == container.file && parent.watched == target && batchSize > 0
    modifies parent
    ensures r.Ok? ==> target in parent.names && parent.names == old(parent.names)[target := parent.names[target]]
    ensures r.Ok? ==> IndexTree(ById(entries), UnixNaming(ById(entries)), Contents(container), parent.names[target])
    ensures r.Err? ==> (parent.names == old(parent.names) <==> fate == NeverMade || fate == Dropped(true))
    ensures r.Err? && parent.quiet ==> parent.names == old(parent.names)
    ensures Phase(counts, entries) && (r.Ok? ==> PhaseDone(counts, entries))
    ensures parent.quiet && file.quiet && target !in old(parent.names) && staging !in old(parent.names) && staging != target ==>
      && (r.Ok? <==> AllChunksOpen(container) && UnixClean(entries))
      && (AllChunksOpen(container) && Regular(Session(container, UnixNaming(ById(entries)), old(parent.names))) ==>
            (r == Err(DuplicateEntry) <==> Clashes(Session(container, UnixNaming(ById(entries)), old(parent.names)))))
  {
    UnixApart(container.header.entryCount, container.header.dataSize, entries);
    UnixExtractable(container.header.entryCount, container.header.dataSize, entries);
    r, fate, counts := ExtractV2(parent, target, staging, container, file, UnixNaming(container.index.entries), batchSize, entries);
  }

  // ---------- A directory `a` beside a file `a/` ----------

  const SOME_ID: Blob16 := [1, 0, 0, 0, 0, 0, 0, 0, 0, 0, 0, 0, 0, 0, 0, 0]

  function Folder(id: u64, name: string): Entry {
    Entry(id, 1, name, 1, Directory, ZERO_ID, 0, 0, 0, 0)
  }

  const EMPTY_FILE: Entry := Entry(3, 1, "a/", 1, File, SOME_ID, 0, 0, 0, 0)

  /** Both names are valid and they differ. */
  const TWINS: seq<Entry> := [ROOT, Folder(2, "a"), EMPTY_FILE]

  const TWIN_MAP: EntryMap := map[1 := ROOT, 2 := Folder(2, "a"), 3 := EMPTY_FILE]

  lemma ShortName()
    ensures Names.ValidName("a") && Names.ValidName("a/") && "a" != "a/"
    ensures Denoted("a") == Denoted("a/")
  {
    Names.ValidNameIsNotAlwaysPlain();
    Names.ValidNameWithoutSeparator("a");
    assert Names.Utf8Len("a") == Names.Utf8Width('a') + Names.Utf8Len("a"[1..]);
    assert "a"[1..] == "";
    Names.SplitWithoutSeparator('/', "a");
    Names.SplitAtSeparator('/', "a", "");
    assert "a/" == "a" + ['/'] + "";
    DenotedStem("a", "a/");
  }

  lemma TwinRows()
    ensures RowsOk(TWINS) && |TWINS| == 3
  {
    FolderRow();
    EmptyFileRow();
    TwinIds();
    forall i | 0 <= i < |TWINS| ensures RowOk(TWINS[i]) {
      assert TWINS[i] == if i == 0 then ROOT else if i == 1 then Folder(2, "a") else EMPTY_FILE;
    }
  }

  lemma TwinIds()
    ensures |TWINS| == 3 && DistinctIds(TWINS)
    ensures forall i :: 0 <= i < 2 ==> TWINS[i].kind == Directory
  {
    assert TWINS[0] == ROOT && TWINS[1] == Folder(2, "a") && TWINS[2] == EMPTY_FILE;
  }

  lemma FolderRow()
    ensures RowOk(ROOT) && RowOk(Folder(2, "a"))
  {
    ShortName();
  }

  lemma EmptyFileRow()
    ensures RowOk(EMPTY_FILE)
  {
    ShortName();
    assert SOME_ID[0] != ZERO_ID[0];
    assert SizedFile(EMPTY_FILE);
  }

  lemma RootTables()
    ensures ById([ROOT]) == map[1 := ROOT] && FilesOf([ROOT]) == []
  {
    var one := [ROOT];
    assert one[..|one| - 1] == [] && one[|one| - 1] == ROOT;
    assert ById([]) == map[] && FilesOf([]) == [];
  }

  lemma TwinTables()
    ensures ById(TWINS) == TWIN_MAP
    ensures FilesOf(TWINS) == [Extent(0, 0, 3)]
  {
    RootTables();
    var s2 := TWINS[..2];
    assert s2[|s2| - 1] == Folder(2, "a") && s2[..|s2| - 1] == [ROOT];
    assert ById(s2) == map[1 := ROOT, 2 := Folder(2, "a")];
    assert FilesOf(s2) == [];
    assert TWINS[..|TWINS| - 1] == s2 && TWINS[|TWINS| - 1] == EMPTY_FILE;
  }

  lemma TwinExtents()
    ensures Contiguous(SortByKey(Offset, [Extent(0, 0, 3)]), 0, 0)
  {
    SortByKeyIdentity(Offset, [Extent(0, 0, 3)]);
  }

  lemma TwinsAccepted()
    ensures Accepted(3, 0, TWINS) && ById(TWINS) == TWIN_MAP
  {
    TwinRows();
    TwinTables();
    TwinExtents();
    ShortName();
    assert ParentOk(TWIN_MAP, TWIN_MAP[2]) && ParentOk(TWIN_MAP, TWIN_MAP[3]);
    assert TreeOk(TWIN_MAP);
  }

  /** A directory and a file with names `a` and `a/` in one directory take one place. */
  lemma TwinsCollide(j: Session)
    requires 2 in Entries(j) && 3 in Entries(j) && Entries(j)[2] == Folder(2, "a") && Entries(j)[3] == EMPTY_FILE
    requires j.naming == UnixNaming(Entries(j))
    ensures Usable(Entries(j), j.naming, 2) && Usable(Entries(j), j.naming, 3)
    ensures Collide(Entries(j), j.naming, 2, 3) && Clash(j, 2, 3) && Clashes(j)
  {
    ShortName();
    NameUsable("a");
    assert EndSlashes("a");
    assert Clash(j, 2, 3) && ClashAt(j, 3);
  }

  lemma TwinsRegular(j: Session)
    requires Entries(j).Keys == {1, 2, 3} && Entries(j)[3].kind == File
    requires Usable(Entries(j), j.naming, 2) && Usable(Entries(j), j.naming, 3)
    ensures Regular(j)
  {
  }

  lemma OneTable(container: Opened)
    requires container.index.entries == TWIN_MAP
    ensures container.index.entries.Keys == {1, 2, 3}
    ensures container.index.entries[2] == Folder(2, "a") && container.index.entries[3] == EMPTY_FILE
    ensures Shows(container, 3, 0, TWINS)
  {
    TwinsAccepted();
  }

  /** The two denote one directory entry: no tree of this accepted index exists, and the duplicate check fires. */
  lemma TwinsAcceptedButNoTree(container: Opened, base: map<string, FsTree>)
    requires container.index.entries == TWIN_MAP
    ensures Shows(container, 3, 0, TWINS) && !UnixClean(TWINS)
    ensures var j := Session(container, UnixNaming(ById(TWINS)), base);
      Regular(j) && Clashes(j) && forall tree :: !IndexTree(Entries(j), j.naming, Contents(container), tree)
  {
    OneTable(container);
    var j := Session(container, UnixNaming(ById(TWINS)), base);
    TwinsCollide(j);
    TwinsRegular(j);
    NoTreeOf(j, 3, 0, TWINS);
  }

  lemma NoTreeOf(j: Session, entryCount: u64, dataSize: u64, entries: seq<Entry>)
    requires Shows(j.container, entryCount, dataSize, entries) && j.naming == UnixNaming(Entries(j)) && Clashes(j)
    ensures !UnixClean(entries) && forall tree :: !IndexTree(Entries(j), j.naming, Contents(j.container), tree)
  {
    AcceptedIsTree(entryCount, dataSize, entries);
    UnixExtractable(entryCount, dataSize, entries);
    TreeExistsIff(Entries(j), j.naming, Contents(j.container));
    ClashIsCollision(j);
  }

  /** Without content every chunk opens. */
  lemma NothingToOpen(container: Opened)
    requires container.index.entries == TWIN_MAP
    ensures AllChunksOpen(container)
  {
  }

  /** Extraction of that index ends in the error its validation was meant to exclude. */
  method ExtractTwins(parent: ParentDir, target: string, staging: string, container: Opened, file: DiskFile,
                      batchSize: u64)
    returns (r: Result<()>)
    requires OpenedFrom(container, TWINS) && file.content == container.file && parent.watched == target && batchSize > 0
    requires parent.quiet && file.quiet && target !in parent.names && staging !in parent.names && staging != target
    modifies parent
    ensures r == Err(DuplicateEntry) && parent.names == old(parent.names)
  {
    TwinsAccepted();
    TwinsAcceptedButNoTree(container, parent.names);
    NothingToOpen(container);
    ghost var fate, counts;
    r, fate, counts := ExtractOnUnix(parent, target, staging, container, file, batchSize, TWINS);
  }

  function TwinBase(): Header {
    Header(MAGIC, VERSION, HEADER_SIZE, ZERO_ID, CHUNK_SIZE, 1 + TAG_SIZE, 0, 3, ANY_DRAW.nonce,
           DisabledSlot(ANY_DRAW), DisabledSlot(ANY_DRAW), DuressSlot(false, ZERO_ID, DEFAULT_PARAMS, ANY_DRAW.nonce, []))
  }

  lemma TwinHeader(password: string, dek: Bytes) returns (h: Header)
    requires |dek| == 32
    ensures Intact(h, dek) && Opens(h, password, dek)
    ensures h.entryCount == 3 && h.dataSize == 0 && h.indexSize == 1 + TAG_SIZE
  {
    PackHeaderIntact(TwinBase(), password, None, dek, DEFAULT_PARAMS, ANY_DRAW, ANY_DRAW, ANY_DRAW);
    h := PackHeader(TwinBase(), password, None, dek, DEFAULT_PARAMS, ANY_DRAW, ANY_DRAW, ANY_DRAW).value;
  }

  /** There is a container file that opens with the password and shows the twins. */
  lemma TwinContainer(password: string) returns (image: Bytes)
    ensures OpenSpec(image, password).Ok? && OpenedFrom(OpenSpec(image, password).value, TWINS)
  {
    var dek := Zeros(32);
    var header := TwinHeader(password, dek);
    var p := Plan(header, dek, TWINS, 1, map[3 := []]);
    TwinPlan(p);
    PackedOpens(p, password);
    image := Image(p);
  }

  lemma TwinPlan(p: Plan)
    requires p.header.entryCount == 3 && p.header.dataSize == 0 && p.header.indexSize == 1 + TAG_SIZE
    requires p.entries == TWINS && p.encodedLen == 1 && p.contents == map[3 := []]
    ensures PlanOk(p)
  {
    TwinsAccepted();
  }

  // ---------- A separator or a NUL in one name ----------

  lemma OneFolder(name: string)
    requires Names.ValidName(name)
    ensures Accepted(2, 0, [ROOT, Folder(2, name)])
  {
    RootTables();
    var entries := [ROOT, Folder(2, name)];
    assert entries[..|entries| - 1] == [ROOT] && entries[|entries| - 1] == Folder(2, name);
    assert ById(entries) == map[1 := ROOT, 2 := Folder(2, name)] && FilesOf(entries) == [];
    assert ParentOk(ById(entries), ById(entries)[2]);
  }

  /** A separator does not exclude an extraction: a single directory `a/` comes out as `a`. */
  lemma TrailingSeparatorComesOut()
    ensures Accepted(2, 0, [ROOT, Folder(2, "a/")]) && !NoSeparators([ROOT, Folder(2, "a/")])
    ensures UnixClean([ROOT, Folder(2, "a/")])
  {
    ShortName();
    OneFolder("a/");
    var entries := [ROOT, Folder(2, "a/")];
    assert '/' in entries[1].name by { assert "a/"[1] == '/'; }
  }

  /** And its absence does not grant one: a name that holds a NUL is valid, and no system call takes it. */
  lemma NulNeverComesOut()
    ensures Accepted(2, 0, [ROOT, Folder(2, "a\0")]) && NoSeparators([ROOT, Folder(2, "a\0")])
    ensures !UnixClean([ROOT, Folder(2, "a\0")])
  {
    assert Names.Utf8Len("a\0") == Names.Utf8Width('a') + Names.Utf8Len("a\0"[1..]);
    assert "a\0"[1..] == "\0" && Names.Utf8Len("\0") == Names.Utf8Width('\0') + Names.Utf8Len("\0"[1..]);
    assert "\0"[1..] == "";
    Names.ValidNameWithoutSeparator("a\0");
    OneFolder("a\0");
    var entries := [ROOT, Folder(2, "a\0")];
    assert '\0' in entries[1].name by { assert "a\0"[1] == '\0'; }
  }
}
