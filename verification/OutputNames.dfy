/** The names extraction uses on Unix and on Windows, and when they cannot collide. */
module OutputNames {
  import opened Common
  import opened Format
  import opened Index
  import opened IndexProperties
  import opened SafeFs
  import opened ExtractTree
  import opened WindowsText
  import opened WindowsNames
  import opened WindowsNameMap
  import opened MountedTree
  import DisplayPaths
  import Names

  // ---------- Unix: the names of the index ----------

  /** The first segment of a name is the directory entry it denotes. */
  function Denoted(name: string): seq<int> {
    var s := Names.Split('/', name)[0];
    seq(|s|, i requires 0 <= i < |s| => s[i] as int)
  }

  /** Names a directory can be created under: separators only at the end, where the system drops them. */
  predicate SystemDirName(name: string) {
    && '\0' !in name && Names.Plain(Names.Split('/', name)[0])
    && forall i :: 1 <= i < |Names.Split('/', name)| ==> Names.Split('/', name)[i] == ""
  }

  /** Names a file can be moved to. */
  predicate SystemFileName(name: string) {
    '\0' !in name && Names.Plain(name)
  }

  const UNIX: Platform := Platform(Denoted, Names.ValidName, SystemDirName, SystemFileName)

  function UnixNaming(m: EntryMap): Naming {
    Naming(id => if id in m then m[id].name else "", UNIX)
  }

  lemma DenotedInjective(a: string, b: string)
    requires Names.Plain(a) && Names.Plain(b) && Denoted(a) == Denoted(b)
    ensures a == b
  {
    Names.SplitWithoutSeparator('/', a);
    Names.SplitWithoutSeparator('/', b);
    assert |a| == |Denoted(a)| == |Denoted(b)| == |b|;
    forall i | 0 <= i < |a| ensures a[i] == b[i] {
      assert Denoted(a)[i] == a[i] as int && Denoted(b)[i] == b[i] as int;
    }
  }

  /** In an accepted index plain sibling names denote different directory entries. */
  lemma UnixApart(entryCount: u64, dataSize: u64, entries: seq<Entry>)
    requires Accepted(entryCount, dataSize, entries)
    ensures Tree(ById(entries)) && PlainApart(ById(entries), UnixNaming(ById(entries)))
    ensures FilesPlain(UnixNaming(ById(entries)))
  {
    AcceptedIsTree(entryCount, dataSize, entries);
    NamesApart(ById(entries));
  }

  lemma NamesApart(m: EntryMap)
    requires TreeOk(m)
    ensures PlainApart(m, UnixNaming(m))
  {
    var nm := UnixNaming(m);
    forall x, y | x in m && y in m && x != 1 && y != 1 && x != y && m[x].parentId == m[y].parentId
                  && Names.Plain(nm.out(x)) && Names.Plain(nm.out(y))
      ensures nm.platform.text(nm.out(x)) != nm.platform.text(nm.out(y))
    {
      assert Index.Place(m[x]) != Index.Place(m[y]);
      if Denoted(m[x].name) == Denoted(m[y].name) {
        DenotedInjective(m[x].name, m[y].name);
      }
    }
  }

  // ---------- Which indexes can be extracted on Unix ----------

  /** After a separator only separators. */
  predicate EndSlashes(name: string) {
    forall i, j :: 0 <= i < j < |name| && name[i] == '/' ==> name[j] == '/'
  }

  lemma {:induction false} AllSlashes(s: string)
    ensures (forall i :: 0 <= i < |Names.Split('/', s)| ==> Names.Split('/', s)[i] == "") <==> forall i :: 0 <= i < |s| ==> s[i] == '/'
  {
    if s != "" {
      AllSlashes(s[1..]);
      var segments := Names.Split('/', s);
      if s[0] == '/' {
        assert segments[1..] == Names.Split('/', s[1..]);
        assert forall i :: 1 <= i < |segments| ==> segments[i] == segments[1..][i - 1];
        assert forall i :: 1 <= i < |s| ==> s[i] == s[1..][i - 1];
      } else {
        assert segments[0] != "";
      }
    }
  }

  lemma {:induction false} SlashesAtEnd(s: string)
    ensures EndSlashes(s) <==> forall i :: 1 <= i < |Names.Split('/', s)| ==> Names.Split('/', s)[i] == ""
  {
    if s != "" {
      var segments, rest := Names.Split('/', s), Names.Split('/', s[1..]);
      assert forall i :: 1 <= i < |s| ==> s[i] == s[1..][i - 1];
      if s[0] == '/' {
        AllSlashes(s[1..]);
        assert segments[1..] == rest;
        assert forall i :: 1 <= i < |segments| ==> segments[i] == rest[i - 1];
      } else {
        SlashesAtEnd(s[1..]);
        assert forall i :: 1 <= i < |segments| ==> segments[i] == rest[i];
        assert EndSlashes(s) ==> EndSlashes(s[1..]);
      }
    }
  }

  /** What stands before the first separator differs for any two siblings. */
  predicate StemsDiffer(entries: seq<Entry>) {
    forall i, j :: 0 <= i < j < |entries| && entries[i].id != 1 && entries[j].id != 1 && entries[i].parentId == entries[j].parentId ==>
      Names.Split('/', entries[i].name)[0] != Names.Split('/', entries[j].name)[0]
  }

  /** What a caller can check of the entries before an extraction. */
  predicate UnixClean(entries: seq<Entry>) {
    && (forall i :: 0 <= i < |entries| ==> '\0' !in entries[i].name)
    && (forall i :: 0 <= i < |entries| && entries[i].kind == File ==> '/' !in entries[i].name)
    && (forall i :: 0 <= i < |entries| && entries[i].kind == Directory ==> EndSlashes(entries[i].name))
    && StemsDiffer(entries)
  }

  /** One accepted name. */
  lemma NameUsable(name: string)
    requires Names.ValidName(name)
    ensures UNIX.dirName(name) <==> '\0' !in name && EndSlashes(name)
    ensures UNIX.fileName(name) <==> '\0' !in name && '/' !in name
  {
    Names.ValidNameIff(name);
    SlashesAtEnd(name);
    if '/' !in name {
      Names.ValidNameWithoutSeparator(name);
    }
  }

  lemma DenotedStem(a: string, b: string)
    ensures Denoted(a) == Denoted(b) <==> Names.Split('/', a)[0] == Names.Split('/', b)[0]
  {
    var s, t := Names.Split('/', a)[0], Names.Split('/', b)[0];
    if Denoted(a) == Denoted(b) {
      assert |s| == |Denoted(a)| == |Denoted(b)| == |t|;
      forall i | 0 <= i < |s| ensures s[i] == t[i] {
        assert Denoted(a)[i] == s[i] as int && Denoted(b)[i] == t[i] as int;
      }
    }
  }

  /** Siblings collide exactly if their stems agree. */
  lemma StemsApart(entryCount: u64, dataSize: u64, entries: seq<Entry>)
    requires Accepted(entryCount, dataSize, entries)
    ensures TextsApart(ById(entries), UnixNaming(ById(entries))) <==> StemsDiffer(entries)
  {
    var m := ById(entries);
    AcceptedIsTree(entryCount, dataSize, entries);
    if StemsDiffer(entries) {
      forall x, y | true ensures !Collide(m, UnixNaming(m), x, y) {
        SiblingStems(entries, m, x, y);
      }
    } else {
      var i, j :| 0 <= i < j < |entries| && entries[i].id != 1 && entries[j].id != 1 && entries[i].parentId == entries[j].parentId
                  && Names.Split('/', entries[i].name)[0] == Names.Split('/', entries[j].name)[0];
      assert entries[i] in entries && entries[j] in entries;
      SameStem(m, entries[i], entries[j]);
    }
  }

  lemma SameStem(m: EntryMap, d: Entry, e: Entry)
    requires d.id in m && m[d.id] == d && e.id in m && m[e.id] == e && d.id != e.id && d.id != 1 && e.id != 1
    requires d.parentId == e.parentId && Names.Split('/', d.name)[0] == Names.Split('/', e.name)[0]
    ensures !TextsApart(m, UnixNaming(m))
  {
    DenotedStem(d.name, e.name);
    assert Collide(m, UnixNaming(m), d.id, e.id);
  }

  lemma SiblingStems(entries: seq<Entry>, m: EntryMap, x: u64, y: u64)
    requires forall id :: id in m ==> m[id].id == id && m[id] in entries
    requires StemsDiffer(entries)
    ensures !Collide(m, UnixNaming(m), x, y)
  {
    if x in m && y in m && x != y && x != 1 && y != 1 && m[x].parentId == m[y].parentId {
      var i :| 0 <= i < |entries| && entries[i] == m[x];
      var j :| 0 <= j < |entries| && entries[j] == m[y];
      DenotedStem(m[x].name, m[y].name);
    }
  }

  lemma EntryUsable(entryCount: u64, dataSize: u64, entries: seq<Entry>, e: Entry)
    requires Accepted(entryCount, dataSize, entries) && e in entries && e.id != 1
    ensures e.id in ById(entries) && ById(entries)[e.id] == e
    ensures var nm := UnixNaming(ById(entries));
      (Usable(ById(entries), nm, e.id) && (e.kind == File ==> nm.platform.fileName(nm.out(e.id)))) <==>
      ('\0' !in e.name && if e.kind == File then '/' !in e.name else EndSlashes(e.name))
  {
    AcceptedIsTree(entryCount, dataSize, entries);
    assert RowOk(e);
    NameUsable(e.name);
  }

  /**
   An accepted index can be extracted on Unix if and only if no name holds a NUL, file names hold no separator, directory
   names hold separators only at the end, and siblings differ before the first separator.
   */
  lemma UnixExtractable(entryCount: u64, dataSize: u64, entries: seq<Entry>)
    requires Accepted(entryCount, dataSize, entries)
    ensures Extractable(ById(entries), UnixNaming(ById(entries))) <==> UnixClean(entries)
  {
    var m, nm := ById(entries), UnixNaming(ById(entries));
    AcceptedIsTree(entryCount, dataSize, entries);
    StemsApart(entryCount, dataSize, entries);
    if UnixClean(entries) {
      forall id | id in m && id != 1
        ensures Usable(m, nm, id) && (m[id].kind == File ==> nm.platform.fileName(nm.out(id)))
      {
        var i :| 0 <= i < |entries| && entries[i] == m[id];
        EntryUsable(entryCount, dataSize, entries, m[id]);
      }
    } else if Extractable(m, nm) {
      forall e | e in entries
        ensures '\0' !in e.name && if e.kind == File then '/' !in e.name else EndSlashes(e.name)
      {
        if e.id == 1 { assert RowOk(e); } else { EntryUsable(entryCount, dataSize, entries, e); }
      }
    }
  }

  /** No name of the index holds a separator. */
  predicate NoSeparators(entries: seq<Entry>) {
    forall i :: 0 <= i < |entries| ==> '/' !in entries[i].name
  }

  /** Every output name is plain exactly if no name holds a separator; then no two siblings take one place. */
  lemma UnixPlain(entryCount: u64, dataSize: u64, entries: seq<Entry>)
    requires Accepted(entryCount, dataSize, entries)
    ensures AllPlain(ById(entries), UnixNaming(ById(entries))) <==> NoSeparators(entries)
  {
    var m := ById(entries);
    AcceptedIsTree(entryCount, dataSize, entries);
    if NoSeparators(entries) {
      forall id | id in m && id != 1 ensures Names.Plain(m[id].name) && Names.ValidName(m[id].name) {
        assert RowOk(m[id]);
        var i :| 0 <= i < |entries| && entries[i] == m[id];
        Names.ValidNameWithoutSeparator(m[id].name);
      }
    } else {
      var i :| 0 <= i < |entries| && '/' in entries[i].name;
      var e := entries[i];
      assert e in entries && RowOk(e);
      assert e.id != 1 && !Names.Plain(m[e.id].name);
    }
  }

  // ---------- Windows: display names ----------

  predicate WindowsLegal(name: string) {
    name != "" && name != "." && name != ".." && '/' !in name && '\\' !in name
  }

  /** The check accepts exactly the names that neither separator takes apart and that name no directory relative to another. */
  lemma WindowsLegalIff(name: string)
    ensures WindowsLegal(name) <==>
            name != "" && name != "." && name != ".." && Names.Split('/', name) == [name] && Names.Split('\\', name) == [name]
  {
    Names.SplitWhole('/', name);
    Names.SplitWhole('\\', name);
  }

  /** Names compared the way Windows does; `creatable` says which of them the system takes. */
  function Windows(f: CharFold, creatable: string -> bool): Platform {
    Platform(s => Fold(f, s), WindowsLegal, creatable, s => creatable(s) && Names.Plain(s))
  }

  /** `name_for`. */
  function WindowsNaming(f: CharFold, m: EntryMap, names: map<u64, string>, creatable: string -> bool): Naming {
    Naming(id => if id in names then names[id] else if id in m then m[id].name else "", Windows(f, creatable))
  }

  lemma DisplayLegal(s: string)
    requires s != "" && !HasForbidden(s) && !TrailingBad(s[|s| - 1])
    ensures WindowsLegal(s) && Names.Plain(s)
  {
    DisplayPaths.NoBackslash(s);
    forall i | 0 <= i < |s| ensures s[i] != '/' {
      assert !Forbidden(s[i]);
      assert Forbidden('/');
    }
  }

  /** The display name of one entry. */
  lemma DisplayNameOf(f: CharFold, nodes: seq<Node>, shown: NameMap, n: Node)
    requires GoodFold(f) && DistinctNodeIds(nodes) && |nodes| <= MAX_ENTRIES && IsNameMap(f, nodes, shown)
    requires n in nodes && !IsRoot(n)
    ensures n.id in shown.names && Names.Plain(shown.names[n.id]) && WindowsLegal(shown.names[n.id])
  {
    NodeNameShape(f, nodes, shown, n);
    DisplayLegal(shown.names[n.id]);
  }

  lemma Listed(entryCount: u64, dataSize: u64, entries: seq<Entry>, ids: seq<u64>, id: u64)
    requires Viewed(entryCount, dataSize, entries, ids) && id in ById(entries) && id != 1
    ensures var n := NodeOf(ById(entries)[id]);
      n.id == id && n in NodesOf(ById(entries), ids) && !IsRoot(n) && n.parentId == ById(entries)[id].parentId
  {
    ViewFacts(entryCount, dataSize, entries, ids);
    assert TableFor(ById(entries))[id] == NodeOf(ById(entries)[id]);
  }

  /**
   Display names are legal, plain and different for siblings, whatever the names in the index are; an extraction needs
   nothing but that the system takes each of them.
   */
  lemma WindowsNamesExtract(f: CharFold, entryCount: u64, dataSize: u64, entries: seq<Entry>, ids: seq<u64>,
                            shown: NameMap, creatable: string -> bool)
    requires GoodFold(f) && Viewed(entryCount, dataSize, entries, ids)
    requires IsNameMap(f, NodesOf(ById(entries), ids), shown)
    ensures var m := ById(entries); var nm := WindowsNaming(f, m, shown.names, creatable);
      && Tree(m) && PlainApart(m, nm) && FilesPlain(nm) && AllPlain(m, nm) && TextsApart(m, nm)
      && (forall id :: id in m && id != 1 ==> id in shown.names) && EntriesNamed(f, entries, shown.names)
      && (Extractable(m, nm) <==> forall id :: id in m && id != 1 ==> creatable(shown.names[id]))
  {
    ViewNamesEntries(f, entryCount, dataSize, entries, ids, shown);
    AcceptedIsTree(entryCount, dataSize, entries);
    WindowsPlain(f, entryCount, dataSize, entries, ids, shown, creatable);
    WindowsApart(f, entryCount, dataSize, entries, ids, shown, creatable);
    OnlyCreatable(f, ById(entries), shown.names, creatable);
  }

  lemma OnlyCreatable(f: CharFold, m: EntryMap, names: map<u64, string>, creatable: string -> bool)
    requires PlainApart(m, WindowsNaming(f, m, names, creatable)) && AllPlain(m, WindowsNaming(f, m, names, creatable))
    requires forall id :: id in m && id != 1 ==> id in names
    ensures TextsApart(m, WindowsNaming(f, m, names, creatable))
    ensures Extractable(m, WindowsNaming(f, m, names, creatable)) <==> forall id :: id in m && id != 1 ==> creatable(names[id])
  {
    var nm := WindowsNaming(f, m, names, creatable);
    PlainIsApart(m, nm);
    forall id | id in m && id != 1
      ensures (Usable(m, nm, id) && (m[id].kind == File ==> nm.platform.fileName(nm.out(id)))) <==> creatable(names[id])
    {
      assert Names.Plain(nm.out(id)) && nm.platform.legal(nm.out(id));
    }
  }

  lemma WindowsPlain(f: CharFold, entryCount: u64, dataSize: u64, entries: seq<Entry>, ids: seq<u64>, shown: NameMap,
                     creatable: string -> bool)
    requires GoodFold(f) && Viewed(entryCount, dataSize, entries, ids)
    requires IsNameMap(f, NodesOf(ById(entries), ids), shown)
    ensures AllPlain(ById(entries), WindowsNaming(f, ById(entries), shown.names, creatable))
    ensures forall id :: id in ById(entries) && id != 1 ==> id in shown.names
  {
    ViewFacts(entryCount, dataSize, entries, ids);
    forall id | id in ById(entries) && id != 1
      ensures id in shown.names && Names.Plain(shown.names[id]) && WindowsLegal(shown.names[id])
    {
      Listed(entryCount, dataSize, entries, ids, id);
      DisplayNameOf(f, NodesOf(ById(entries), ids), shown, NodeOf(ById(entries)[id]));
    }
  }

  lemma WindowsApart(f: CharFold, entryCount: u64, dataSize: u64, entries: seq<Entry>, ids: seq<u64>, shown: NameMap,
                     creatable: string -> bool)
    requires GoodFold(f) && Viewed(entryCount, dataSize, entries, ids)
    requires IsNameMap(f, NodesOf(ById(entries), ids), shown)
    ensures PlainApart(ById(entries), WindowsNaming(f, ById(entries), shown.names, creatable))
  {
    ViewFacts(entryCount, dataSize, entries, ids);
    var m := ById(entries);
    forall x, y | x in m && y in m && x != 1 && y != 1 && x != y && m[x].parentId == m[y].parentId
      ensures x in shown.names && y in shown.names && Fold(f, shown.names[x]) != Fold(f, shown.names[y])
    {
      Listed(entryCount, dataSize, entries, ids, x);
      Listed(entryCount, dataSize, entries, ids, y);
      NamesDiffer(f, NodesOf(m, ids), shown, NodeOf(m[x]), NodeOf(m[y]));
    }
  }
}
