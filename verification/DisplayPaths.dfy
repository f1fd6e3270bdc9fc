/** Printing a node's display path and resolving a path, as the Windows mount does. */
module DisplayPaths {
  import opened Common
  import opened Sequences
  import opened Format
  import opened WindowsText
  import opened WindowsNames
  import opened WindowsNameMap
  import opened Names

  /** `table` holds exactly the nodes, each under its id. */
  ghost predicate IsTable(nodes: seq<Node>, table: map<u64, Node>) {
    && (forall n :: n in nodes ==> n.id in table && table[n.id] == n)
    && (forall id :: id in table ==> table[id] in nodes && table[id].id == id)
  }

  method MakeTable(nodes: seq<Node>) returns (table: map<u64, Node>)
    requires DistinctNodeIds(nodes)
    ensures IsTable(nodes, table)
  {
    table := map[];
    for i := 0 to |nodes|
      invariant IsTable(nodes[..i], table)
    {
      assert nodes[..i + 1] == nodes[..i] + [nodes[i]];
      table := table[nodes[i].id := nodes[i]];
    }
    assert nodes[..|nodes|] == nodes;
  }

  /** Every node but node 1 has a parent of smaller rank. */
  ghost predicate NodeTree(table: map<u64, Node>, rank: u64 -> nat) {
    && 1 in table
    && (forall id :: id in table ==> table[id].id == id && (IsRoot(table[id]) <==> id == 1))
    && (forall id :: id in table && id != 1 ==> table[id].parentId in table && rank(table[id].parentId) < rank(id))
  }

  function DisplayName(names: map<u64, string>, n: Node): string {
    if n.id in names then names[n.id] else n.name
  }

  /** Display names from below the root down to the node. */
  ghost function PathParts(table: map<u64, Node>, rank: u64 -> nat, names: map<u64, string>, id: u64): seq<string>
    requires NodeTree(table, rank)
    decreases rank(id)
  {
    if id !in table || id == 1 then []
    else PathParts(table, rank, names, table[id].parentId) + [DisplayName(names, table[id])]
  }

  function Reversed<T>(s: seq<T>): seq<T> {
    if s == [] then [] else Reversed(s[1..]) + [s[0]]
  }

  lemma {:induction false} ReversedAppend<T>(s: seq<T>, x: T)
    ensures Reversed(s + [x]) == [x] + Reversed(s)
  {
    if s == [] {
      assert Reversed([x]) == Reversed([]) + [x];
    } else {
      ReversedAppend(s[1..], x);
      assert (s + [x])[1..] == s[1..] + [x];
    }
  }

  /** One step of the walk moves a name from the path above to the collected components. */
  lemma WalkStep(table: map<u64, Node>, rank: u64 -> nat, names: map<u64, string>, id: u64, components: seq<string>)
    requires NodeTree(table, rank) && id in table && id != 1
    ensures PathParts(table, rank, names, id) + Reversed(components) ==
            PathParts(table, rank, names, table[id].parentId) + Reversed(components + [DisplayName(names, table[id])])
  {
    ReversedAppend(components, DisplayName(names, table[id]));
  }

  /** The upward walk ends at the root; reversed, it lists the path from the top. */
  method NodePath(table: map<u64, Node>, names: map<u64, string>, id: u64, ghost rank: u64 -> nat)
    returns (path: string)
    requires NodeTree(table, rank)
    ensures path == Join('\\', PathParts(table, rank, names, id))
  {
    var components: seq<string> := [];
    var current := id;
    assert PathParts(table, rank, names, id) + Reversed(components) == PathParts(table, rank, names, id);
    while current in table && table[current].id != table[current].parentId
      invariant PathParts(table, rank, names, id) == PathParts(table, rank, names, current) + Reversed(components)
      decreases rank(current)
    {
      WalkStep(table, rank, names, current, components);
      components := components + [DisplayName(names, table[current])];
      current := table[current].parentId;
    }
    assert PathParts(table, rank, names, current) == [];
    assert Reversed(components) == PathParts(table, rank, names, id);
    path := Join('\\', Reversed(components));
  }

  // ---------- Resolving ----------

  function NonEmpty(parts: seq<string>): seq<string> {
    if parts == [] then [] else (if parts[0] == "" then [] else [parts[0]]) + NonEmpty(parts[1..])
  }

  lemma NonEmptyStep(pieces: seq<string>, i: nat)
    requires i < |pieces|
    ensures NonEmpty(pieces[i..]) ==
            if pieces[i] == "" then NonEmpty(pieces[i + 1..]) else [pieces[i]] + NonEmpty(pieces[i + 1..])
  {
    assert pieces[i..][1..] == pieces[i + 1..];
  }

  function ResolveParts(f: CharFold, lookup: map<(u64, seq<int>), u64>, id: u64, parts: seq<string>): Option<u64>
    decreases |parts|
  {
    if parts == [] then Some(id)
    else
      var key := (id, Fold(f, parts[0]));
      if key in lookup then ResolveParts(f, lookup, lookup[key], parts[1..]) else None
  }

  function Components(path: string): seq<string> {
    NonEmpty(Split('\\', path))
  }

  /** `WinFspCipherFs::resolve` up to the final metadata call. */
  method Resolve(f: CharFold, m: NameMap, path: string) returns (r: Result<u64>)
    ensures r == match ResolveParts(f, m.lookup, 1, Components(path))
                 case Some(id) => Ok(id)
                 case None => Err(NotFound)
  {
    var pieces := Split('\\', path);
    var id: u64 := 1;
    for i := 0 to |pieces|
      invariant ResolveParts(f, m.lookup, 1, Components(path)) == ResolveParts(f, m.lookup, id, NonEmpty(pieces[i..]))
    {
      NonEmptyStep(pieces, i);
      if pieces[i] != "" {
        assert NonEmpty(pieces[i..])[1..] == NonEmpty(pieces[i + 1..]);
        var key := (id, Fold(f, pieces[i]));
        if key !in m.lookup {
          return Err(NotFound);
        }
        id := m.lookup[key];
      }
    }
    r := Ok(id);
  }

  lemma {:induction false} ResolveAppend(f: CharFold, lookup: map<(u64, seq<int>), u64>, id: u64, parts: seq<string>,
                                         x: string)
    ensures ResolveParts(f, lookup, id, parts + [x]) ==
            match ResolveParts(f, lookup, id, parts)
            case None => None
            case Some(p) => if (p, Fold(f, x)) in lookup then Some(lookup[(p, Fold(f, x))]) else None
    decreases |parts|
  {
    if parts == [] {
      assert ([] + [x])[1..] == [];
    } else {
      assert (parts + [x])[1..] == parts[1..] + [x];
      if (id, Fold(f, parts[0])) in lookup {
        ResolveAppend(f, lookup, lookup[(id, Fold(f, parts[0]))], parts[1..], x);
      }
    }
  }

  /** A lookup finds exactly the nodes whose display name agrees with the given one. */
  ghost predicate Finds(f: CharFold, table: map<u64, Node>, m: NameMap) {
    forall p, x, id {:trigger Found(m.lookup, p, x, id)} ::
      Found(m.lookup, p, x, id) <==> id in table && id != 1 && table[id].parentId == p && Fold(f, DisplayName(m.names, table[id])) == x
  }

  predicate Found(lookup: map<(u64, seq<int>), u64>, p: u64, x: seq<int>, id: u64) {
    (p, x) in lookup && lookup[(p, x)] == id
  }

  lemma NameMapFinds(f: CharFold, nodes: seq<Node>, table: map<u64, Node>, rank: u64 -> nat, m: NameMap)
    requires IsTable(nodes, table) && NodeTree(table, rank) && IsNameMap(f, nodes, m)
    ensures Finds(f, table, m)
  {
    forall p, x, id | Found(m.lookup, p, x, id)
      ensures id in table && id != 1 && table[id].parentId == p && Fold(f, DisplayName(m.names, table[id])) == x
    {
      var n :| Handled(nodes, Parents(nodes), n) && LookupKey(f, m.names, n) == (p, x);
      NamedNode(f, nodes, m, n);
    }
    forall p, x, id | id in table && id != 1 && table[id].parentId == p && Fold(f, DisplayName(m.names, table[id])) == x
      ensures Found(m.lookup, p, x, id)
    {
      NamedNode(f, nodes, m, table[id]);
    }
  }

  lemma NamedNode(f: CharFold, nodes: seq<Node>, m: NameMap, n: Node)
    requires IsNameMap(f, nodes, m) && n in nodes && !IsRoot(n)
    ensures n.id in m.names && Found(m.lookup, n.parentId, Fold(f, m.names[n.id]), n.id)
    ensures LookupKey(f, m.names, n) == (n.parentId, Fold(f, m.names[n.id]))
  {
    LookupFindsName(f, nodes, m, n);
  }

  /** The two paths agree for Windows, component by component. */
  ghost predicate SameFolds(f: CharFold, a: seq<string>, b: seq<string>) {
    |a| == |b| && forall i :: 0 <= i < |a| ==> Fold(f, a[i]) == Fold(f, b[i])
  }

  lemma SameFoldsAppend(f: CharFold, a: seq<string>, x: string, b: seq<string>, y: string)
    ensures SameFolds(f, a + [x], b + [y]) <==> SameFolds(f, a, b) && Fold(f, x) == Fold(f, y)
  {
    var s, t := a + [x], b + [y];
    if SameFolds(f, s, t) {
      assert s[|a|] == x && t[|a|] == y;
      forall i | 0 <= i < |a| ensures Fold(f, a[i]) == Fold(f, b[i]) {
        assert s[i] == a[i] && t[i] == b[i];
      }
    }
  }

  /** The last component of a path leads from a directory to one of its nodes. */
  lemma LastComponent(f: CharFold, table: map<u64, Node>, rank: u64 -> nat, m: NameMap, init: seq<string>, x: string,
                      q: u64, id: u64)
    requires NodeTree(table, rank) && Finds(f, table, m)
    requires SameFolds(f, init, PathParts(table, rank, m.names, q))
    ensures Found(m.lookup, q, Fold(f, x), id) ==> id in table && SameFolds(f, init + [x], PathParts(table, rank, m.names, id))
    ensures id in table && id != 1 && q == table[id].parentId && SameFolds(f, init + [x], PathParts(table, rank, m.names, id)) ==>
              Found(m.lookup, q, Fold(f, x), id)
  {
    if id in table && id != 1 && q == table[id].parentId {
      SameFoldsAppend(f, init, x, PathParts(table, rank, m.names, q), DisplayName(m.names, table[id]));
    }
  }

  /** A path resolves to a node exactly when it agrees, component by component, with the node's display path. */
  lemma {:induction false} ResolveIff(f: CharFold, table: map<u64, Node>, rank: u64 -> nat, m: NameMap,
                                      parts: seq<string>, id: u64)
    requires NodeTree(table, rank) && Finds(f, table, m)
    ensures ResolveParts(f, m.lookup, 1, parts) == Some(id) <==>
            id in table && SameFolds(f, parts, PathParts(table, rank, m.names, id))
    decreases |parts|
  {
    if parts == [] {
    } else {
      var init, x := parts[..|parts| - 1], parts[|parts| - 1];
      assert parts == init + [x];
      ResolveAppend(f, m.lookup, 1, init, x);
      if ResolveParts(f, m.lookup, 1, parts) == Some(id) {
        var q := ResolveParts(f, m.lookup, 1, init).value;
        ResolveIff(f, table, rank, m, init, q);
        LastComponent(f, table, rank, m, init, x, q, id);
      }
      if id in table && SameFolds(f, parts, PathParts(table, rank, m.names, id)) {
        var q := table[id].parentId;
        SameFoldsAppend(f, init, x, PathParts(table, rank, m.names, q), DisplayName(m.names, table[id]));
        ResolveIff(f, table, rank, m, init, q);
        LastComponent(f, table, rank, m, init, x, q, id);
      }
    }
  }

  // ---------- The round trip ----------

  ghost predicate Printable(parts: seq<string>) {
    forall i :: 0 <= i < |parts| ==> parts[i] != "" && '\\' !in parts[i]
  }

  /** The names that a path is made of. */
  ghost predicate PrintableNames(table: map<u64, Node>, names: map<u64, string>) {
    forall id :: id in table && id != 1 ==> DisplayName(names, table[id]) != "" && '\\' !in DisplayName(names, table[id])
  }

  lemma DisplayNamesPrintable(f: CharFold, nodes: seq<Node>, table: map<u64, Node>, rank: u64 -> nat, m: NameMap)
    requires GoodFold(f) && DistinctNodeIds(nodes) && |nodes| <= MAX_ENTRIES
    requires IsTable(nodes, table) && NodeTree(table, rank) && IsNameMap(f, nodes, m)
    ensures PrintableNames(table, m.names)
  {
    forall id | id in table && id != 1
      ensures DisplayName(m.names, table[id]) != "" && '\\' !in DisplayName(m.names, table[id])
    {
      NameOfNode(f, nodes, m, table[id]);
      NoBackslash(m.names[id]);
    }
  }

  lemma {:induction false} PathPrintable(table: map<u64, Node>, rank: u64 -> nat, names: map<u64, string>, id: u64)
    requires NodeTree(table, rank) && PrintableNames(table, names)
    ensures Printable(PathParts(table, rank, names, id))
    decreases rank(id)
  {
    if id in table && id != 1 {
      PathPrintable(table, rank, names, table[id].parentId);
    }
  }

  lemma NoBackslash(s: string)
    requires !HasForbidden(s)
    ensures '\\' !in s
  {
    forall i | 0 <= i < |s| ensures s[i] != '\\' {
      assert !Forbidden(s[i]);
      assert Forbidden('\\');
    }
  }

  lemma {:induction false} NonEmptyKeeps(parts: seq<string>)
    requires Printable(parts)
    ensures NonEmpty(parts) == parts
  {
    if parts != [] { NonEmptyKeeps(parts[1..]); }
  }

  /** Splitting a printed path gives its parts back, with or without a leading separator. */
  lemma ComponentsOfPrinted(parts: seq<string>)
    requires Printable(parts)
    ensures Components(Join('\\', parts)) == parts
    ensures Components(['\\'] + Join('\\', parts)) == parts
  {
    var path := Join('\\', parts);
    if parts == [] {
      assert Split('\\', path) == [""];
      assert NonEmpty([""]) == NonEmpty([""][1..]) == [];
    } else {
      forall p | p in parts ensures '\\' !in p {
        var i :| 0 <= i < |parts| && parts[i] == p;
      }
      SplitJoin('\\', parts);
      NonEmptyKeeps(parts);
    }
    assert (['\\'] + path)[1..] == path;
    assert Split('\\', ['\\'] + path) == [""] + Split('\\', path);
    assert ([""] + Split('\\', path))[1..] == Split('\\', path);
  }

  /**
   The display path of every node, as it is printed or with the leading backslash Windows passes, resolves to that node.
   Display paths of different nodes therefore never agree for Windows.
   */
  lemma PathRoundTrip(f: CharFold, nodes: seq<Node>, table: map<u64, Node>, rank: u64 -> nat, m: NameMap, id: u64)
    requires GoodFold(f) && DistinctNodeIds(nodes) && |nodes| <= MAX_ENTRIES
    requires IsTable(nodes, table) && NodeTree(table, rank) && IsNameMap(f, nodes, m) && id in table
    ensures var path := Join('\\', PathParts(table, rank, m.names, id));
      && ResolveParts(f, m.lookup, 1, Components(path)) == Some(id)
      && ResolveParts(f, m.lookup, 1, Components(['\\'] + path)) == Some(id)
  {
    var parts := PathParts(table, rank, m.names, id);
    DisplayNamesPrintable(f, nodes, table, rank, m);
    PathPrintable(table, rank, m.names, id);
    ComponentsOfPrinted(parts);
    NameMapFinds(f, nodes, table, rank, m);
    ResolveIff(f, table, rank, m, parts, id);
  }

  // ---------- The list of renamed entries ----------

  predicate Renamed(names: map<u64, string>, n: Node) {
    n.id in names && names[n.id] != n.name
  }

  function RenamedNodes(nodes: seq<Node>, names: map<u64, string>): seq<Node> {
    if nodes == [] then []
    else
      var n := |nodes| - 1;
      RenamedNodes(nodes[..n], names) + (if Renamed(names, nodes[n]) then [nodes[n]] else [])
  }

  /** Original and display path of one node. */
  ghost function Change(table: map<u64, Node>, rank: u64 -> nat, names: map<u64, string>, n: Node): (string, string)
    requires NodeTree(table, rank)
  {
    (Join('\\', PathParts(table, rank, map[], n.id)), Join('\\', PathParts(table, rank, names, n.id)))
  }

  ghost function ChangesOf(table: map<u64, Node>, rank: u64 -> nat, names: map<u64, string>,
                           sorted: seq<Node>): seq<(string, string)>
    requires NodeTree(table, rank)
  {
    seq(|sorted|, i requires 0 <= i < |sorted| => Change(table, rank, names, sorted[i]))
  }

  function SortedRenamed(nodes: seq<Node>, names: map<u64, string>): seq<Node> {
    SortByKey(Id, RenamedNodes(nodes, names))
  }

  lemma ChangesStep(table: map<u64, Node>, rank: u64 -> nat, names: map<u64, string>, sorted: seq<Node>, i: nat)
    requires NodeTree(table, rank) && i < |sorted|
    ensures ChangesOf(table, rank, names, sorted[..i + 1]) ==
            ChangesOf(table, rank, names, sorted[..i]) + [Change(table, rank, names, sorted[i])]
  {
  }

  /** The changes that `WindowsNameMap::new` reports. */
  method ListChanges(nodes: seq<Node>, table: map<u64, Node>, names: map<u64, string>, ghost rank: u64 -> nat)
    returns (changes: seq<(string, string)>)
    requires NodeTree(table, rank)
    ensures changes == ChangesOf(table, rank, names, SortedRenamed(nodes, names))
  {
    var sorted := SortedRenamed(nodes, names);
    changes := [];
    for i := 0 to |sorted|
      invariant changes == ChangesOf(table, rank, names, sorted[..i])
    {
      var original := NodePath(table, map[], sorted[i].id, rank);
      var display := NodePath(table, names, sorted[i].id, rank);
      changes := changes + [(original, display)];
      ChangesStep(table, rank, names, sorted, i);
    }
    assert sorted[..|sorted|] == sorted;
  }

  lemma {:induction false} RenamedExact(nodes: seq<Node>, names: map<u64, string>, n: Node)
    ensures multiset(RenamedNodes(nodes, names))[n] == if Renamed(names, n) then multiset(nodes)[n] else 0
  {
    if nodes != [] {
      var k := |nodes| - 1;
      RenamedExact(nodes[..k], names, n);
      assert nodes == nodes[..k] + [nodes[k]];
    }
  }

  lemma SameIds(nodes: seq<Node>, nodes': seq<Node>, names: map<u64, string>)
    requires DistinctNodeIds(nodes) && multiset(nodes) == multiset(nodes')
    ensures multiset(RenamedNodes(nodes, names)) == multiset(RenamedNodes(nodes', names))
    ensures forall n :: n in RenamedNodes(nodes, names) ==> n in nodes
  {
    var a, b := RenamedNodes(nodes, names), RenamedNodes(nodes', names);
    forall n: Node | true ensures multiset(a)[n] == multiset(b)[n] && (n in a ==> n in nodes) {
      RenamedExact(nodes, names, n);
      RenamedExact(nodes', names, n);
      assert n in a <==> n in multiset(a);
      assert n in nodes <==> n in multiset(nodes);
    }
  }

  /** The nodes in strict id order. */
  ghost predicate Rising(nodes: seq<Node>) {
    forall i, j :: 0 <= i < j < |nodes| ==> nodes[i].id < nodes[j].id
  }

  /** The reported nodes: those whose name was replaced, each once, in id order. */
  lemma RenamedListed(nodes: seq<Node>, names: map<u64, string>)
    requires DistinctNodeIds(nodes)
    ensures Rising(SortedRenamed(nodes, names))
    ensures forall n :: n in SortedRenamed(nodes, names) <==> n in nodes && Renamed(names, n)
  {
    var renamed := RenamedNodes(nodes, names);
    SortByKeySorted(Id, renamed);
    RenamedDistinct(nodes, names);
    PermutedDistinct(renamed, SortedRenamed(nodes, names));
    SortedRises(SortedRenamed(nodes, names));
    forall n: Node ensures n in SortedRenamed(nodes, names) <==> n in nodes && Renamed(names, n) {
      RenamedExact(nodes, names, n);
      assert n in SortedRenamed(nodes, names) <==> n in multiset(renamed);
      assert n in nodes <==> n in multiset(nodes);
    }
  }

  lemma SortedRises(nodes: seq<Node>)
    requires Sorted(Id, nodes) && DistinctNodeIds(nodes)
    ensures Rising(nodes)
  {
    forall i, j | 0 <= i < j < |nodes| ensures nodes[i].id < nodes[j].id {
      assert InOrder(Id, nodes, i, j);
    }
  }

  lemma {:induction false} RenamedDistinct(nodes: seq<Node>, names: map<u64, string>)
    requires DistinctNodeIds(nodes)
    ensures DistinctNodeIds(RenamedNodes(nodes, names))
  {
    if nodes != [] {
      var k := |nodes| - 1;
      RenamedDistinct(nodes[..k], names);
      var before := RenamedNodes(nodes[..k], names);
      forall i | 0 <= i < |before| ensures before[i].id != nodes[k].id {
        RenamedExact(nodes[..k], names, before[i]);
        assert before[i] in multiset(before);
        assert before[i] in nodes[..k];
      }
    }
  }

  /** Every ordering of the same nodes reports the same changes, in the same order. */
  lemma ChangesOrderFree(nodes: seq<Node>, nodes': seq<Node>, names: map<u64, string>)
    requires DistinctNodeIds(nodes) && multiset(nodes) == multiset(nodes')
    ensures SortedRenamed(nodes, names) == SortedRenamed(nodes', names)
  {
    SameIds(nodes, nodes', names);
    var a, b := RenamedNodes(nodes, names), RenamedNodes(nodes', names);
    SortByKeySorted(Id, a);
    SortByKeySorted(Id, b);
    forall x, y | x in SortByKey(Id, a) && y in SortByKey(Id, a) && Id(x) == Id(y) ensures x == y {
      assert x in multiset(SortByKey(Id, a)) && y in multiset(SortByKey(Id, a));
      assert x in a && y in a;
      NodesById(nodes, x, y);
    }
    SortedUnique(Id, SortByKey(Id, a), SortByKey(Id, b));
  }
}
