/** The directory walk of a whole source tree, and which trees the scan takes. */
module WalkedTree {
  import opened Common
  import opened Sequences
  import opened Format
  import opened Layout
  import opened Scan
  import Names

  /** What is in a directory, one entry after the other. */
  datatype Listing =
    | Nothing
    | AFile(name: string, content: Content, rest: Listing)
    | ADirectory(name: string, inside: Listing, rest: Listing)

  /** The walk names every directory before what is in it. */
  function Walk(path: seq<string>, t: Listing): seq<WalkItem>
    decreases t
  {
    match t
    case Nothing => []
    case AFile(name, content, rest) => [Item(path + [name], true, SourceFile(content))] + Walk(path, rest)
    case ADirectory(name, inside, rest) =>
      [Item(path + [name], true, SourceDirectory)] + Walk(path + [name], inside) + Walk(path, rest)
  }

  function NamesOf(t: Listing): set<string> {
    match t
    case Nothing => {}
    case AFile(name, _, rest) => {name} + NamesOf(rest)
    case ADirectory(name, _, rest) => {name} + NamesOf(rest)
  }

  /** What an operating system guarantees: no name twice in one directory, and no separator in a name. */
  predicate OnDisk(t: Listing) {
    match t
    case Nothing => true
    case AFile(name, _, rest) => '/' !in name && name !in NamesOf(rest) && OnDisk(rest)
    case ADirectory(name, inside, rest) => '/' !in name && name !in NamesOf(rest) && OnDisk(inside) && OnDisk(rest)
  }

  function Count(t: Listing): nat {
    match t
    case Nothing => 0
    case AFile(_, _, rest) => 1 + Count(rest)
    case ADirectory(_, inside, rest) => 1 + Count(inside) + Count(rest)
  }

  function PlainBytes(t: Listing): nat {
    match t
    case Nothing => 0
    case AFile(_, content, rest) => |content| + PlainBytes(rest)
    case ADirectory(_, inside, rest) => PlainBytes(inside) + PlainBytes(rest)
  }

  /** One tag for each started chunk of 4 MiB. */
  function Encrypted(size: nat): nat {
    size + 16 * ((size + 4_194_303) / 4_194_304)
  }

  function CipherBytes(t: Listing): nat {
    match t
    case Nothing => 0
    case AFile(_, content, rest) => Encrypted(|content|) + CipherBytes(rest)
    case ADirectory(_, inside, rest) => CipherBytes(inside) + CipherBytes(rest)
  }

  predicate GoodName(name: string) {
    name != "" && name != "." && name != ".." && Names.Utf8Len(name) <= 255
  }

  /** Names that denote an entry, no more than 1024 levels, and no file whose size overflows when it is rounded up. */
  predicate Packs(t: Listing, depth: nat) {
    match t
    case Nothing => true
    case AFile(name, content, rest) =>
      && GoodName(name) && depth < 1024
      && (|content| == 0 || (|content| + 4_194_303 < U64_LIMIT && Encrypted(|content|) < U64_LIMIT)) && Packs(rest, depth)
    case ADirectory(name, inside, rest) => GoodName(name) && depth < 1024 && Packs(inside, depth + 1) && Packs(rest, depth)
  }

  // ---------- Each item by itself ----------

  predicate AllOk(items: seq<WalkItem>) {
    forall k :: 0 <= k < |items| ==> ItemOk(items[k])
  }

  lemma AllOkAppend(a: seq<WalkItem>, b: seq<WalkItem>)
    ensures AllOk(a + b) <==> AllOk(a) && AllOk(b)
  {
    if AllOk(a + b) {
      forall k | 0 <= k < |a| ensures ItemOk(a[k]) { assert ItemOk((a + b)[k]); }
      forall k | 0 <= k < |b| ensures ItemOk(b[k]) { assert ItemOk((a + b)[|a| + k]); }
    }
  }

  lemma OneItemOk(path: seq<string>, name: string, kind: SourceKind)
    requires '/' !in name
    ensures AllOk([Item(path + [name], true, kind)]) <==> GoodName(name) && |path| < 1024 && KindOk(kind)
  {
    var item := Item(path + [name], true, kind);
    Names.ValidNameWithoutSeparator(name);
    assert FileName(item.path) == name;
    assert AllOk([item]) <==> ItemOk([item][0]);
  }

  lemma SizeOk(content: Content)
    ensures EncryptedFileSize(|content|).Some? <==>
            |content| == 0 || (|content| + 4_194_303 < U64_LIMIT && Encrypted(|content|) < U64_LIMIT)
    ensures EncryptedFileSize(|content|).Some? ==> EncryptedFileSize(|content|).value.1 == Encrypted(|content|)
  {
  }

  lemma {:induction false} ItemsOk(path: seq<string>, t: Listing)
    requires OnDisk(t)
    ensures AllOk(Walk(path, t)) <==> Packs(t, |path|)
    decreases t
  {
    match t
    case Nothing =>
    case AFile(name, content, rest) =>
      OneItemOk(path, name, SourceFile(content));
      SizeOk(content);
      ItemsOk(path, rest);
      AllOkAppend([Item(path + [name], true, SourceFile(content))], Walk(path, rest));
    case ADirectory(name, inside, rest) =>
      OneItemOk(path, name, SourceDirectory);
      ItemsOk(path + [name], inside);
      ItemsOk(path, rest);
      AllOkAppend([Item(path + [name], true, SourceDirectory)], Walk(path + [name], inside));
      AllOkAppend([Item(path + [name], true, SourceDirectory)] + Walk(path + [name], inside), Walk(path, rest));
  }

  // ---------- Parents come first ----------

  /** The parent of item k is `top`, or a directory that was walked before. */
  ghost predicate ParentWalked(items: seq<WalkItem>, top: seq<string>, k: nat)
    requires k < |items|
  {
    && items[k].Item? && items[k].path != []
    && (Parent(items[k].path) == top || exists j :: 0 <= j < k && IsFolder(items[j], Parent(items[k].path)))
  }

  predicate IsFolder(item: WalkItem, path: seq<string>) {
    item.Item? && item.kind == SourceDirectory && item.path == path
  }

  ghost predicate Rooted(items: seq<WalkItem>, top: seq<string>) {
    forall k :: 0 <= k < |items| ==> ParentWalked(items, top, k)
  }

  lemma RootedAppend(a: seq<WalkItem>, b: seq<WalkItem>, top: seq<string>)
    requires Rooted(a, top) && Rooted(b, top)
    ensures Rooted(a + b, top)
  {
    var all := a + b;
    forall k | 0 <= k < |all| ensures ParentWalked(all, top, k) {
      if k < |a| {
        assert ParentWalked(a, top, k) && all[..|a|] == a;
        assert forall j :: 0 <= j < |a| ==> all[j] == a[j];
      } else {
        assert ParentWalked(b, top, k - |a|);
        if Parent(all[k].path) != top {
          var j :| 0 <= j < k - |a| && IsFolder(b[j], Parent(b[k - |a|].path));
          assert all[|a| + j] == b[j];
        }
      }
    }
  }

  /** A directory and what is in it. */
  lemma RootedFolder(path: seq<string>, name: string, inside: seq<WalkItem>)
    requires Rooted(inside, path + [name])
    ensures Rooted([Item(path + [name], true, SourceDirectory)] + inside, path)
  {
    var folder := Item(path + [name], true, SourceDirectory);
    var all := [folder] + inside;
    forall k | 0 <= k < |all| ensures ParentWalked(all, path, k) {
      if k > 0 {
        assert ParentWalked(inside, path + [name], k - 1);
        if Parent(all[k].path) == path + [name] {
          assert IsFolder(all[0], Parent(all[k].path));
        } else {
          var j :| 0 <= j < k - 1 && IsFolder(inside[j], Parent(inside[k - 1].path));
          assert all[j + 1] == inside[j];
        }
      } else {
        assert Parent(all[0].path) == path;
      }
    }
  }

  lemma {:induction false} WalkRooted(path: seq<string>, t: Listing)
    ensures Rooted(Walk(path, t), path)
    decreases t
  {
    match t
    case Nothing =>
    case AFile(name, content, rest) =>
      WalkRooted(path, rest);
      var item := Item(path + [name], true, SourceFile(content));
      assert Parent(item.path) == path;
      RootedAppend([item], Walk(path, rest), path);
    case ADirectory(name, inside, rest) =>
      WalkRooted(path + [name], inside);
      WalkRooted(path, rest);
      RootedFolder(path, name, Walk(path + [name], inside));
      RootedAppend([Item(path + [name], true, SourceDirectory)] + Walk(path + [name], inside), Walk(path, rest), path);
  }

  lemma {:induction false} FolderHasId(items: seq<WalkItem>, j: nat, path: seq<string>)
    requires j < |items| && IsFolder(items[j], path)
    ensures path in DirectoryIds(items)
  {
    if j < |items| - 1 { FolderHasId(items[..|items| - 1], j, path); }
  }

  lemma {:induction false} TopHasId(items: seq<WalkItem>)
    ensures [] in DirectoryIds(items)
  {
    if items != [] { TopHasId(items[..|items| - 1]); }
  }

  lemma RootedFits(items: seq<WalkItem>)
    requires Rooted(items, [])
    ensures (forall k :: 0 <= k < |items| ==> ItemFits(items, k)) <==> AllOk(items)
  {
    if AllOk(items) {
      forall k | 0 <= k < |items| ensures ItemFits(items, k) {
        assert ItemOk(items[k]) && ParentWalked(items, [], k);
        TopHasId(items[..k]);
        if Parent(items[k].path) != [] {
          var j :| 0 <= j < k && IsFolder(items[j], Parent(items[k].path));
          FolderHasId(items[..k], j, Parent(items[k].path));
        }
      }
    } else {
      var k :| 0 <= k < |items| && !ItemOk(items[k]);
      assert !ItemFits(items, k);
    }
  }

  // ---------- Sizes ----------

  lemma {:induction false} TotalAppend(size: WalkItem -> nat, a: seq<WalkItem>, b: seq<WalkItem>)
    ensures Total(size, a + b) == Total(size, a) + Total(size, b)
  {
    if b == [] {
      assert a + b == a;
    } else {
      var n := |b| - 1;
      TotalAppend(size, a, b[..n]);
      assert (a + b)[..|a + b| - 1] == a + b[..n] && (a + b)[|a + b| - 1] == b[n];
    }
  }

  lemma OneTotal(size: WalkItem -> nat, item: WalkItem)
    ensures Total(size, [item]) == size(item)
  {
    assert [item][..0] == [];
  }

  lemma {:induction false} WalkTotals(path: seq<string>, t: Listing)
    ensures |Walk(path, t)| == Count(t) && Total(PlainSize, Walk(path, t)) == PlainBytes(t)
    ensures Packs(t, |path|) ==> Total(CipherSize, Walk(path, t)) == CipherBytes(t)
    decreases t
  {
    match t
    case Nothing =>
    case AFile(name, content, rest) =>
      var item := Item(path + [name], true, SourceFile(content));
      WalkTotals(path, rest);
      SizeOk(content);
      OneTotal(PlainSize, item);
      OneTotal(CipherSize, item);
      TotalAppend(PlainSize, [item], Walk(path, rest));
      TotalAppend(CipherSize, [item], Walk(path, rest));
    case ADirectory(name, inside, rest) =>
      var item := Item(path + [name], true, SourceDirectory);
      WalkTotals(path + [name], inside);
      WalkTotals(path, rest);
      OneTotal(PlainSize, item);
      OneTotal(CipherSize, item);
      TotalAppend(PlainSize, [item], Walk(path + [name], inside));
      TotalAppend(CipherSize, [item], Walk(path + [name], inside));
      TotalAppend(PlainSize, [item] + Walk(path + [name], inside), Walk(path, rest));
      TotalAppend(CipherSize, [item] + Walk(path + [name], inside), Walk(path, rest));
  }

  // ---------- No path twice ----------

  /** Every item lies below `path`, in an entry of that directory with one of the names. */
  ghost predicate AllBelow(items: seq<WalkItem>, path: seq<string>, names: set<string>) {
    forall k :: 0 <= k < |items| ==> items[k].Item? && |items[k].path| > |path| && items[k].path[..|path|] == path && items[k].path[|path|] in names
  }

  lemma BelowFolder(items: seq<WalkItem>, path: seq<string>, name: string, names: set<string>)
    requires AllBelow(items, path + [name], names)
    ensures AllBelow(items, path, {name})
  {
    forall k | 0 <= k < |items| ensures items[k].path[..|path|] == path && items[k].path[|path|] == name {
      assert items[k].path[..|path| + 1] == path + [name];
      assert items[k].path[..|path|] == items[k].path[..|path| + 1][..|path|];
    }
  }

  /** No path twice in a walk. */
  ghost predicate NoPathTwice(items: seq<WalkItem>) {
    forall j, k :: 0 <= j < k < |items| && items[j].Item? && items[k].Item? ==> items[j].path != items[k].path
  }

  lemma TwicePart(a: seq<WalkItem>, b: seq<WalkItem>, path: seq<string>, name: string, names: set<string>)
    requires NoPathTwice(a) && NoPathTwice(b) && AllBelow(a, path, {name}) && AllBelow(b, path, names) && name !in names
    ensures NoPathTwice(a + b) && AllBelow(a + b, path, {name} + names)
  {
    var all := a + b;
    forall j, k | 0 <= j < k < |all| ensures all[j].path != all[k].path {
      if j < |a| <= k {
        assert all[j].path[|path|] == name && all[k].path[|path|] in names;
      }
    }
  }

  lemma TwiceFolder(path: seq<string>, name: string, inside: seq<WalkItem>, names: set<string>)
    requires NoPathTwice(inside) && AllBelow(inside, path + [name], names)
    ensures NoPathTwice([Item(path + [name], true, SourceDirectory)] + inside)
    ensures AllBelow([Item(path + [name], true, SourceDirectory)] + inside, path, {name})
  {
    BelowFolder(inside, path, name, names);
  }

  lemma {:induction false} WalkProper(path: seq<string>, t: Listing)
    requires OnDisk(t)
    ensures NoPathTwice(Walk(path, t)) && AllBelow(Walk(path, t), path, NamesOf(t))
    decreases t
  {
    match t
    case Nothing =>
    case AFile(name, content, rest) =>
      WalkProper(path, rest);
      TwicePart([Item(path + [name], true, SourceFile(content))], Walk(path, rest), path, name, NamesOf(rest));
    case ADirectory(name, inside, rest) =>
      WalkProper(path + [name], inside);
      WalkProper(path, rest);
      TwiceFolder(path, name, Walk(path + [name], inside), NamesOf(inside));
      TwicePart([Item(path + [name], true, SourceDirectory)] + Walk(path + [name], inside), Walk(path, rest), path, name, NamesOf(rest));
  }

  /**
   The scan takes the walk of a directory tree, its entries in any order, if and only if every name denotes an entry and is
   short enough, the tree is not too deep and not too large, and no size overflows.
   */
  lemma WalkIsScanned(t: Listing)
    requires OnDisk(t)
    ensures ProperWalk(Walk([], t))
    ensures Scannable(Walk([], t)) <==>
            Packs(t, 0) && Count(t) < 5_000_000 && PlainBytes(t) < U64_LIMIT && CipherBytes(t) < U64_LIMIT
  {
    WalkProper([], t);
    WalkRooted([], t);
    RootedFits(Walk([], t));
    ItemsOk([], t);
    WalkTotals([], t);
  }
}
