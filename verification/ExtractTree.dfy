/** What the private extraction tree holds after some of the entries were handled. */
module ExtractTree {
  import opened Common
  import opened Format
  import opened Index
  import opened IndexProperties
  import opened StagingFs
  import opened SafeFs
  import Names

  /** Output names by entry id, and how the platform reads them. */
  datatype Naming = Naming(out: u64 -> string, platform: Platform)

  /** Siblings with plain output names are different entries for the platform. */
  ghost predicate PlainApart(m: EntryMap, nm: Naming) {
    forall x, y {:trigger nm.out(x), nm.out(y)} ::
      (x in m && y in m && x != 1 && y != 1 && x != y && m[x].parentId == m[y].parentId
       && Names.Plain(nm.out(x)) && Names.Plain(nm.out(y))) ==>
        nm.platform.text(nm.out(x)) != nm.platform.text(nm.out(y))
  }

  ghost predicate AllPlain(m: EntryMap, nm: Naming) {
    forall id :: id in m && id != 1 ==> Names.Plain(nm.out(id)) && nm.platform.legal(nm.out(id))
  }

  /** A file can only be moved to a plain name. */
  ghost predicate FilesPlain(nm: Naming) {
    forall s :: nm.platform.fileName(s) ==> Names.Plain(s)
  }

  /** Two siblings take one place. */
  ghost predicate Collide(m: EntryMap, nm: Naming, x: u64, y: u64) {
    && x in m && y in m && x != 1 && y != 1 && x != y && m[x].parentId == m[y].parentId
    && nm.platform.text(nm.out(x)) == nm.platform.text(nm.out(y))
  }

  ghost predicate TextsApart(m: EntryMap, nm: Naming) {
    forall x, y :: !Collide(m, nm, x, y)
  }

  /** Plain names keep siblings apart. */
  lemma PlainIsApart(m: EntryMap, nm: Naming)
    requires PlainApart(m, nm) && AllPlain(m, nm)
    ensures TextsApart(m, nm)
  {
    forall x, y | true ensures !Collide(m, nm, x, y) {
    }
  }

  /** Extraction accepts the name and, for a directory, the system creates it. */
  ghost predicate Usable(m: EntryMap, nm: Naming, id: u64)
    requires id in m
  {
    nm.platform.legal(nm.out(id)) && (m[id].kind == Directory ==> nm.platform.dirName(nm.out(id)))
  }

  /** What the names of an index must satisfy for it to be extracted. */
  ghost predicate Extractable(m: EntryMap, nm: Naming) {
    && TextsApart(m, nm)
    && (forall id :: id in m && id != 1 ==> Usable(m, nm, id))
    && (forall id :: id in m && id != 1 && m[id].kind == File ==> nm.platform.fileName(nm.out(id)))
  }

  /** Where an entry belongs in the published tree. */
  function OutputPath(m: EntryMap, nm: Naming, id: u64): Path
    decreases if id in m then m[id].depth else 0
  {
    if id !in m || id == 1 || !ParentOk(m, m[id]) then []
    else OutputPath(m, nm, m[id].parentId) + [Named(nm.platform.text(nm.out(id)))]
  }

  function TempPlace(m: EntryMap, nm: Naming, id: u64): Path
    requires id in m
  {
    OutputPath(m, nm, m[id].parentId) + [Private(id)]
  }

  /** Where it is now: a file has its temporary name until it is renamed. */
  function Location(m: EntryMap, nm: Naming, renamed: set<u64>, id: u64): Path
    requires id in m
  {
    if m[id].kind == File && id !in renamed then TempPlace(m, nm, id) else OutputPath(m, nm, id)
  }

  function NodeAt(m: EntryMap, nm: Naming, contents: u64 -> Bytes, renamed: set<u64>, id: u64): FsNode
    requires id in m
  {
    if m[id].kind == Directory then DirNode(nm.out(id))
    else FileNode(if id in renamed then nm.out(id) else "", contents(id))
  }

  /** The entries handled so far can be handled: their directories came first. */
  ghost predicate Closed(m: EntryMap, done: set<u64>) {
    && (forall id :: id in done ==> id in m && id != 1)
    && (forall id {:trigger ParentOk(m, m[id])} :: id in done ==> ParentOk(m, m[id]) && (m[id].parentId == 1 || m[id].parentId in done))
  }

  ghost predicate Holds(m: EntryMap, nm: Naming, contents: u64 -> Bytes, tree: FsTree, renamed: set<u64>, id: u64)
    requires id in m
  {
    Location(m, nm, renamed, id) in tree && tree[Location(m, nm, renamed, id)] == NodeAt(m, nm, contents, renamed, id)
  }

  ghost predicate Somewhere(m: EntryMap, nm: Naming, done: set<u64>, renamed: set<u64>, p: Path) {
    exists id :: id in done && id in m && Location(m, nm, renamed, id) == p
  }

  ghost predicate OwnPlaces(m: EntryMap, nm: Naming, done: set<u64>, renamed: set<u64>)
    requires Closed(m, done)
  {
    forall x, y {:trigger Location(m, nm, renamed, x), Location(m, nm, renamed, y)} ::
      x in done && y in done && x != y ==> Location(m, nm, renamed, x) != Location(m, nm, renamed, y)
  }

  /** Exactly the handled entries, each at a place of its own. */
  ghost predicate Staged(m: EntryMap, nm: Naming, contents: u64 -> Bytes, tree: FsTree, done: set<u64>,
                         renamed: set<u64>) {
    && Closed(m, done)
    && [] in tree && tree[[]] == DirNode("")
    && (forall id {:trigger Holds(m, nm, contents, tree, renamed, id)} :: id in done ==> Holds(m, nm, contents, tree, renamed, id))
    && (forall p :: p in tree ==> p == [] || Somewhere(m, nm, done, renamed, p))
    && OwnPlaces(m, nm, done, renamed)
    && (forall id :: id in done ==> Usable(m, nm, id))
    && (forall id :: id in renamed ==> id in done && m[id].kind == File && nm.platform.fileName(nm.out(id)))
  }

  lemma StagedEmpty(m: EntryMap, nm: Naming, contents: u64 -> Bytes)
    ensures Staged(m, nm, contents, EMPTY_TREE, {}, {})
  {
  }

  lemma PlaceShape(m: EntryMap, nm: Naming, id: u64)
    requires id in m && id != 1 && ParentOk(m, m[id])
    ensures OutputPath(m, nm, id) == OutputPath(m, nm, m[id].parentId) + [Named(nm.platform.text(nm.out(id)))]
    ensures OutputPath(m, nm, id) != []
  {
  }

  lemma LastDiffers(p: Path, a: Slot, q: Path, b: Slot)
    ensures p + [a] == q + [b] <==> p == q && a == b
  {
    if p + [a] == q + [b] {
      assert (p + [a])[..|p|] == p && (q + [b])[..|q|] == q;
      assert (p + [a])[|p|] == a && (q + [b])[|q|] == b;
    }
  }

  /** Private places are told apart by their entry. */
  lemma TempPlacesDiffer(m: EntryMap, nm: Naming, renamed: set<u64>, x: u64, y: u64)
    requires x in m && y in m && y != 1 && x != y && ParentOk(m, m[y])
    ensures TempPlace(m, nm, x) != Location(m, nm, renamed, y)
  {
    PlaceShape(m, nm, y);
    LastDiffers(OutputPath(m, nm, m[x].parentId), Private(x), OutputPath(m, nm, m[y].parentId), Private(y));
    LastDiffers(OutputPath(m, nm, m[x].parentId), Private(x), OutputPath(m, nm, m[y].parentId), Named(nm.platform.text(nm.out(y))));
  }

  /** The temporary place of an entry that was not handled yet is free. */
  lemma TempPlaceFree(m: EntryMap, nm: Naming, contents: u64 -> Bytes, tree: FsTree, done: set<u64>,
                      renamed: set<u64>, id: u64)
    requires Staged(m, nm, contents, tree, done, renamed) && id in m && id !in done
    ensures TempPlace(m, nm, id) !in tree
  {
    if TempPlace(m, nm, id) in tree {
      var y :| y in done && y in m && Location(m, nm, renamed, y) == TempPlace(m, nm, id);
      TempPlacesDiffer(m, nm, renamed, id, y);
    }
  }

  lemma ClosedAdd(m: EntryMap, done: set<u64>, id: u64)
    requires Closed(m, done) && id in m && id != 1 && ParentOk(m, m[id]) && (m[id].parentId == 1 || m[id].parentId in done)
    ensures Closed(m, done + {id})
  {
    forall x | x in done + {id} ensures ParentOk(m, m[x]) && (m[x].parentId == 1 || m[x].parentId in done + {id}) {
      assert x != id ==> ParentOk(m, m[x]);
    }
  }

  lemma OwnPlacesAdd(m: EntryMap, nm: Naming, done: set<u64>, renamed: set<u64>, id: u64)
    requires Closed(m, done) && Closed(m, done + {id}) && OwnPlaces(m, nm, done, renamed) && id in m
    requires forall x :: x in done ==> Location(m, nm, renamed, x) != Location(m, nm, renamed, id)
    ensures OwnPlaces(m, nm, done + {id}, renamed)
  {
  }

  /** One more entry at a place that was free. */
  lemma StagedAdd(m: EntryMap, nm: Naming, contents: u64 -> Bytes, tree: FsTree, done: set<u64>, renamed: set<u64>,
                  id: u64)
    requires Staged(m, nm, contents, tree, done, renamed)
    requires id in m && id != 1 && id !in done && ParentOk(m, m[id]) && (m[id].parentId == 1 || m[id].parentId in done)
    requires Location(m, nm, renamed, id) !in tree && Usable(m, nm, id)
    ensures Staged(m, nm, contents, tree[Location(m, nm, renamed, id) := NodeAt(m, nm, contents, renamed, id)], done + {id}, renamed)
  {
    var p := Location(m, nm, renamed, id);
    var after := tree[p := NodeAt(m, nm, contents, renamed, id)];
    assert p != [] by { PlaceShape(m, nm, id); }
    forall x | x in done + {id} ensures Holds(m, nm, contents, after, renamed, x) {
      if x != id { assert Holds(m, nm, contents, tree, renamed, x); }
    }
    forall q | q in after && q != [] ensures Somewhere(m, nm, done + {id}, renamed, q) {
      if q != p { assert Somewhere(m, nm, done, renamed, q); }
    }
    forall x | x in done ensures Location(m, nm, renamed, x) != p {
      assert Holds(m, nm, contents, tree, renamed, x);
    }
    ClosedAdd(m, done, id);
    OwnPlacesAdd(m, nm, done, renamed, id);
  }

  /** In a staged tree directories are known by their place. */
  lemma SameDirectory(m: EntryMap, nm: Naming, contents: u64 -> Bytes, tree: FsTree, done: set<u64>,
                      renamed: set<u64>, a: u64, b: u64)
    requires Staged(m, nm, contents, tree, done, renamed)
    requires (a == 1 || a in done) && (b == 1 || b in done)
    requires a in m && m[a].kind == Directory && b in m && m[b].kind == Directory
    requires OutputPath(m, nm, a) == OutputPath(m, nm, b)
    ensures a == b
  {
    if a != 1 { PlaceShape(m, nm, a); }
    if b != 1 { PlaceShape(m, nm, b); }
    if a != 1 && b != 1 {
      assert Location(m, nm, renamed, a) == OutputPath(m, nm, a) && Location(m, nm, renamed, b) == OutputPath(m, nm, b);
    }
  }

  /** Whatever is at the final place of an entry is a sibling that the platform does not tell apart from it. */
  lemma TakenBy(m: EntryMap, nm: Naming, contents: u64 -> Bytes, tree: FsTree, done: set<u64>, renamed: set<u64>, id: u64)
    returns (y: u64)
    requires Staged(m, nm, contents, tree, done, renamed)
    requires id in m && id != 1 && ParentOk(m, m[id]) && (m[id].parentId == 1 || m[id].parentId in done)
    requires OutputPath(m, nm, id) in tree
    ensures y in done && (m[y].kind == Directory || y in renamed) && Location(m, nm, renamed, y) == OutputPath(m, nm, id)
    ensures y == id || Collide(m, nm, y, id)
  {
    PlaceShape(m, nm, id);
    y :| y in done && y in m && Location(m, nm, renamed, y) == OutputPath(m, nm, id);
    PlaceShape(m, nm, y);
    var parent, slot := OutputPath(m, nm, m[id].parentId), Named(nm.platform.text(nm.out(id)));
    LastDiffers(parent, slot, OutputPath(m, nm, m[y].parentId), Private(y));
    LastDiffers(parent, slot, OutputPath(m, nm, m[y].parentId), Named(nm.platform.text(nm.out(y))));
    SameDirectory(m, nm, contents, tree, done, renamed, m[id].parentId, m[y].parentId);
  }

  /** Colliding siblings have one final place. */
  lemma CollidingPlaces(m: EntryMap, nm: Naming, x: u64, y: u64)
    requires Collide(m, nm, x, y) && ParentOk(m, m[x]) && ParentOk(m, m[y])
    ensures OutputPath(m, nm, x) == OutputPath(m, nm, y)
  {
    PlaceShape(m, nm, x);
    PlaceShape(m, nm, y);
  }

  /** Without colliding siblings the final place of an entry is free until the entry itself takes it. */
  lemma FinalPlaceFree(m: EntryMap, nm: Naming, contents: u64 -> Bytes, tree: FsTree, done: set<u64>, renamed: set<u64>,
                       id: u64)
    requires Staged(m, nm, contents, tree, done, renamed) && TextsApart(m, nm)
    requires id in m && id != 1 && ParentOk(m, m[id]) && (m[id].parentId == 1 || m[id].parentId in done)
    requires id !in done || (m[id].kind == File && id !in renamed)
    ensures OutputPath(m, nm, id) !in tree
  {
    if OutputPath(m, nm, id) in tree {
      var y := TakenBy(m, nm, contents, tree, done, renamed, id);
    }
  }

  /** A file at the final place of another one was itself renamed there. */
  lemma RenamedThere(m: EntryMap, nm: Naming, contents: u64 -> Bytes, tree: FsTree, done: set<u64>, renamed: set<u64>,
                     id: u64) returns (y: u64)
    requires Staged(m, nm, contents, tree, done, renamed)
    requires id in done && m[id].kind == File && id !in renamed
    requires OutputPath(m, nm, id) in tree && tree[OutputPath(m, nm, id)].FileNode?
    ensures y in renamed && y in done && nm.platform.fileName(nm.out(y)) && Collide(m, nm, y, id)
  {
    y := TakenBy(m, nm, contents, tree, done, renamed, id);
    assert Holds(m, nm, contents, tree, renamed, y);
  }

  /** A rename that the file system allows goes to a free place, whatever the names are. */
  lemma RenameTargetFree(m: EntryMap, nm: Naming, contents: u64 -> Bytes, tree: FsTree, done: set<u64>, renamed: set<u64>,
                         id: u64)
    requires Staged(m, nm, contents, tree, done, renamed) && PlainApart(m, nm) && FilesPlain(nm)
    requires id in done && m[id].kind == File && id !in renamed && nm.platform.fileName(nm.out(id))
    requires OutputPath(m, nm, id) in tree ==> tree[OutputPath(m, nm, id)].FileNode?
    ensures OutputPath(m, nm, id) !in tree
  {
    if OutputPath(m, nm, id) in tree {
      var y := RenamedThere(m, nm, contents, tree, done, renamed, id);
    }
  }

  /** Giving one file its final name. */
  lemma StagedRename(m: EntryMap, nm: Naming, contents: u64 -> Bytes, tree: FsTree, done: set<u64>, renamed: set<u64>,
                     id: u64)
    requires Staged(m, nm, contents, tree, done, renamed)
    requires id in done && m[id].kind == File && id !in renamed && nm.platform.fileName(nm.out(id))
    requires OutputPath(m, nm, id) !in tree
    ensures TempPlace(m, nm, id) in tree && tree[TempPlace(m, nm, id)].FileNode?
    ensures Staged(m, nm, contents, RenamedNode(tree, TempPlace(m, nm, id), OutputPath(m, nm, id), nm.out(id)), done, renamed + {id})
  {
    assert Holds(m, nm, contents, tree, renamed, id);
    var from, to := TempPlace(m, nm, id), OutputPath(m, nm, id);
    var after := RenamedNode(tree, from, to, nm.out(id));
    PlaceShape(m, nm, id);
    forall x | x in done && x != id
      ensures Location(m, nm, renamed + {id}, x) == Location(m, nm, renamed, x)
      ensures Location(m, nm, renamed, x) in tree && Location(m, nm, renamed, x) != from && Location(m, nm, renamed, x) != to
    {
      assert Holds(m, nm, contents, tree, renamed, x);
      assert Location(m, nm, renamed, id) == from;
    }
    forall x | x in done ensures Holds(m, nm, contents, after, renamed + {id}, x) {
      if x != id { assert Holds(m, nm, contents, tree, renamed, x); }
    }
    forall q | q in after && q != [] ensures Somewhere(m, nm, done, renamed + {id}, q) {
      if q == to {
        assert Location(m, nm, renamed + {id}, id) == to;
      } else {
        var x :| x in done && x in m && Location(m, nm, renamed, x) == q;
        assert x != id;
        assert Location(m, nm, renamed + {id}, x) == q;
      }
    }
  }

  // ---------- The published tree ----------

  ghost predicate InTree(m: EntryMap, nm: Naming, contents: u64 -> Bytes, tree: FsTree, id: u64)
    requires id in m
  {
    && OutputPath(m, nm, id) in tree
    && tree[OutputPath(m, nm, id)] == if m[id].kind == Directory then DirNode(nm.out(id)) else FileNode(nm.out(id), contents(id))
  }

  /** Exactly the tree of the index: every entry at its place with its name and bytes, no two at one place, and nothing else. */
  ghost predicate IndexTree(m: EntryMap, nm: Naming, contents: u64 -> Bytes, tree: FsTree) {
    && [] in tree && tree[[]] == DirNode("")
    && (forall id {:trigger InTree(m, nm, contents, tree, id)} :: id in m && id != 1 ==> InTree(m, nm, contents, tree, id))
    && (forall p :: p in tree ==> p == [] || exists id :: id in m && id != 1 && OutputPath(m, nm, id) == p)
    && (forall x, y {:trigger OutputPath(m, nm, x), OutputPath(m, nm, y)} ::
          x in m && y in m && x != 1 && y != 1 && x != y ==> OutputPath(m, nm, x) != OutputPath(m, nm, y))
  }

  /** No temporary name remains: every place of the published tree is made of final names. */
  lemma {:induction false} PlacesAreNamed(m: EntryMap, nm: Naming, id: u64)
    ensures forall k :: 0 <= k < |OutputPath(m, nm, id)| ==> OutputPath(m, nm, id)[k].Named?
    decreases if id in m then m[id].depth else 0
  {
    if id in m && id != 1 && ParentOk(m, m[id]) {
      PlacesAreNamed(m, nm, m[id].parentId);
    }
  }

  lemma NoTemporaryNames(m: EntryMap, nm: Naming, contents: u64 -> Bytes, tree: FsTree, p: Path, k: nat)
    requires IndexTree(m, nm, contents, tree) && p in tree && k < |p|
    ensures p[k].Named?
  {
    var id :| id in m && id != 1 && OutputPath(m, nm, id) == p;
    PlacesAreNamed(m, nm, id);
  }

  /** The index determines the tree. */
  lemma IndexTreeUnique(m: EntryMap, nm: Naming, contents: u64 -> Bytes, a: FsTree, b: FsTree)
    requires IndexTree(m, nm, contents, a) && IndexTree(m, nm, contents, b)
    ensures a == b
  {
    TreeIncluded(m, nm, contents, a, b);
    TreeIncluded(m, nm, contents, b, a);
    assert a.Keys == b.Keys;
  }

  lemma TreeIncluded(m: EntryMap, nm: Naming, contents: u64 -> Bytes, a: FsTree, b: FsTree)
    requires IndexTree(m, nm, contents, a) && IndexTree(m, nm, contents, b)
    ensures forall p :: p in a ==> p in b && b[p] == a[p]
  {
    forall p | p in a ensures p in b && b[p] == a[p] {
      if p != [] {
        var id :| id in m && id != 1 && OutputPath(m, nm, id) == p;
        assert InTree(m, nm, contents, a, id) && InTree(m, nm, contents, b, id);
      }
    }
  }

  lemma StagedAll(m: EntryMap, nm: Naming, contents: u64 -> Bytes, tree: FsTree, done: set<u64>, renamed: set<u64>)
    requires Staged(m, nm, contents, tree, done, renamed)
    requires forall id :: id in m && id != 1 ==> id in done
    requires forall id :: id in done && m[id].kind == File ==> id in renamed
    ensures IndexTree(m, nm, contents, tree)
  {
    forall id | id in m && id != 1 ensures InTree(m, nm, contents, tree, id) {
      assert Holds(m, nm, contents, tree, renamed, id);
    }
    forall p | p in tree && p != [] ensures exists id :: id in m && id != 1 && OutputPath(m, nm, id) == p {
      var id :| id in done && id in m && Location(m, nm, renamed, id) == p;
      assert OutputPath(m, nm, id) == p;
    }
    forall x, y | x in m && y in m && x != 1 && y != 1 && x != y ensures OutputPath(m, nm, x) != OutputPath(m, nm, y) {
      assert Location(m, nm, renamed, x) == OutputPath(m, nm, x) && Location(m, nm, renamed, y) == OutputPath(m, nm, y);
    }
  }

  /** Whoever handled all entries and renamed all files found every name in order. */
  lemma StagedAllUsable(m: EntryMap, nm: Naming, contents: u64 -> Bytes, tree: FsTree, done: set<u64>, renamed: set<u64>)
    requires Staged(m, nm, contents, tree, done, renamed) && Tree(m)
    requires forall id :: id in m && id != 1 ==> id in done
    requires forall id :: id in done && m[id].kind == File ==> id in renamed
    ensures Extractable(m, nm)
  {
    StagedAll(m, nm, contents, tree, done, renamed);
    TreeNeedsApart(m, nm, contents, tree);
  }

  // ---------- Which indexes have a tree ----------

  /** A tree of the index keeps all siblings apart. */
  lemma TreeNeedsApart(m: EntryMap, nm: Naming, contents: u64 -> Bytes, tree: FsTree)
    requires Tree(m) && IndexTree(m, nm, contents, tree)
    ensures TextsApart(m, nm)
  {
    forall x, y | Collide(m, nm, x, y) ensures false {
      assert ParentOk(m, m[x]) && ParentOk(m, m[y]);
      CollidingPlaces(m, nm, x, y);
    }
  }

  /** Without colliding siblings different entries have different paths. */
  lemma {:induction false} PathsApart(m: EntryMap, nm: Naming, x: u64, y: u64)
    requires Tree(m) && TextsApart(m, nm) && x in m && y in m && OutputPath(m, nm, x) == OutputPath(m, nm, y)
    ensures x == y
    decreases m[x].depth
  {
    if x != 1 { assert ParentOk(m, m[x]); PlaceShape(m, nm, x); }
    if y != 1 { assert ParentOk(m, m[y]); PlaceShape(m, nm, y); }
    if x != 1 && y != 1 {
      LastDiffers(OutputPath(m, nm, m[x].parentId), Named(nm.platform.text(nm.out(x))),
                  OutputPath(m, nm, m[y].parentId), Named(nm.platform.text(nm.out(y))));
      PathsApart(m, nm, m[x].parentId, m[y].parentId);
      assert !Collide(m, nm, x, y);
    }
  }

  function FinalNode(m: EntryMap, nm: Naming, contents: u64 -> Bytes, id: u64): FsNode
    requires id in m
  {
    if m[id].kind == Directory then DirNode(nm.out(id)) else FileNode(nm.out(id), contents(id))
  }

  ghost predicate PathsDiffer(m: EntryMap, nm: Naming) {
    forall x, y {:trigger OutputPath(m, nm, x), OutputPath(m, nm, y)} ::
      x in m && y in m && OutputPath(m, nm, x) == OutputPath(m, nm, y) ==> x == y
  }

  /** All entries but the root at their paths. */
  ghost function Below(m: EntryMap, nm: Naming, contents: u64 -> Bytes): (below: FsTree)
    requires PathsDiffer(m, nm)
    ensures forall id :: id in m && id != 1 ==>
              OutputPath(m, nm, id) in below && below[OutputPath(m, nm, id)] == FinalNode(m, nm, contents, id)
    ensures forall p :: p in below ==> exists id :: id in m && id != 1 && OutputPath(m, nm, id) == p
  {
    map id | id in m && id != 1 :: OutputPath(m, nm, id) := FinalNode(m, nm, contents, id)
  }

  lemma AllPathsApart(m: EntryMap, nm: Naming)
    requires Tree(m) && TextsApart(m, nm)
    ensures PathsDiffer(m, nm)
  {
    forall x, y | x in m && y in m && OutputPath(m, nm, x) == OutputPath(m, nm, y) ensures x == y {
      PathsApart(m, nm, x, y);
    }
  }

  lemma PathsBelowTop(m: EntryMap, nm: Naming)
    requires Tree(m)
    ensures forall id :: id in m && id != 1 ==> OutputPath(m, nm, id) != []
  {
    forall id | id in m && id != 1 ensures OutputPath(m, nm, id) != [] {
      assert ParentOk(m, m[id]);
      PlaceShape(m, nm, id);
    }
  }

  lemma TreeFromApart(m: EntryMap, nm: Naming, contents: u64 -> Bytes) returns (tree: FsTree)
    requires Tree(m) && TextsApart(m, nm)
    ensures IndexTree(m, nm, contents, tree)
  {
    AllPathsApart(m, nm);
    PathsBelowTop(m, nm);
    tree := Below(m, nm, contents)[[] := DirNode("")];
    BelowIsTree(m, nm, contents, tree);
  }

  lemma BelowIsTree(m: EntryMap, nm: Naming, contents: u64 -> Bytes, tree: FsTree)
    requires PathsDiffer(m, nm) && tree == Below(m, nm, contents)[[] := DirNode("")]
    requires forall id :: id in m && id != 1 ==> OutputPath(m, nm, id) != []
    ensures IndexTree(m, nm, contents, tree)
  {
    forall id | id in m && id != 1 ensures InTree(m, nm, contents, tree, id) {
      assert OutputPath(m, nm, id) in Below(m, nm, contents);
    }
  }

  /** An index has a published tree if and only if the platform tells all its siblings apart. */
  lemma TreeExistsIff(m: EntryMap, nm: Naming, contents: u64 -> Bytes)
    requires Tree(m)
    ensures (exists tree :: IndexTree(m, nm, contents, tree)) <==> TextsApart(m, nm)
  {
    if TextsApart(m, nm) {
      var tree := TreeFromApart(m, nm, contents);
    } else {
      forall tree | IndexTree(m, nm, contents, tree) ensures false {
        TreeNeedsApart(m, nm, contents, tree);
      }
    }
  }
}
