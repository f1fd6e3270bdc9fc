/** Building the whole name map, and what depends on the order of the nodes (nothing). */
module WindowsNameMap {
  import opened Common
  import opened Sequences
  import opened Format
  import opened WindowsText
  import opened WindowsNames

  // ---------- One directory, as the loops build it ----------

  /** Ids of the children whose name folds to `x`, in order. */
  function Group(f: CharFold, children: seq<Node>, x: seq<int>): seq<u64> {
    if children == [] then []
    else
      var n := |children| - 1;
      if Fold(f, children[n].name) == x then Group(f, children[..n], x) + [children[n].id] else Group(f, children[..n], x)
  }

  lemma {:induction false} GroupExact(f: CharFold, children: seq<Node>, x: seq<int>, id: u64)
    ensures id in Group(f, children, x) <==> exists i :: 0 <= i < |children| && children[i].id == id && Fold(f, children[i].name) == x
  {
    if children != [] {
      var n := |children| - 1;
      GroupExact(f, children[..n], x, id);
      assert forall i :: 0 <= i < n ==> children[..n][i] == children[i];
    }
  }

  lemma {:induction false} GroupDistinct(f: CharFold, children: seq<Node>, x: seq<int>)
    requires DistinctNodeIds(children)
    ensures forall i, j :: 0 <= i < j < |Group(f, children, x)| ==> Group(f, children, x)[i] != Group(f, children, x)[j]
  {
    if children != [] {
      var n := |children| - 1;
      GroupDistinct(f, children[..n], x);
      if children[n].id in Group(f, children[..n], x) {
        GroupExact(f, children[..n], x, children[n].id);
      }
    }
  }

  /** A group of more than one child is a collision for each of its members. */
  lemma GroupIsCollision(f: CharFold, children: seq<Node>, c: Node)
    requires DistinctNodeIds(children) && c in children
    ensures |Group(f, children, Fold(f, c.name))| > 1 <==> Collides(f, children, c)
  {
    var g := Group(f, children, Fold(f, c.name));
    GroupDistinct(f, children, Fold(f, c.name));
    GroupExact(f, children, Fold(f, c.name), c.id);
    if Collides(f, children, c) {
      var i :| 0 <= i < |children| && children[i].id != c.id && Fold(f, children[i].name) == Fold(f, c.name);
      GroupExact(f, children, Fold(f, c.name), children[i].id);
    }
    if |g| > 1 {
      var other := if g[0] == c.id then g[1] else g[0];
      assert other in g && other != c.id;
      GroupExact(f, children, Fold(f, c.name), other);
    }
  }

  /** The ids of the children by folded name. */
  ghost predicate IsGrouping(f: CharFold, children: seq<Node>, groups: map<seq<int>, seq<u64>>) {
    && (forall x :: x in groups <==> Group(f, children, x) != [])
    && (forall x :: x in groups ==> groups[x] == Group(f, children, x))
  }

  lemma GroupStep(f: CharFold, children: seq<Node>, k: nat, groups: map<seq<int>, seq<u64>>, x: seq<int>)
    requires k < |children| && IsGrouping(f, children[..k], groups) && x == Fold(f, children[k].name)
    ensures IsGrouping(f, children[..k + 1], groups[x := (if x in groups then groups[x] else []) + [children[k].id]])
  {
    var after := children[..k + 1];
    assert after[..k] == children[..k] && after[k] == children[k];
    forall y: seq<int> | true
      ensures Group(f, after, y) == if y == x then Group(f, children[..k], y) + [children[k].id] else Group(f, children[..k], y)
    {
    }
  }

  method GroupNames(f: CharFold, children: seq<Node>) returns (groups: map<seq<int>, seq<u64>>)
    ensures IsGrouping(f, children, groups)
  {
    groups := map[];
    for k := 0 to |children|
      invariant IsGrouping(f, children[..k], groups)
    {
      var x := Fold(f, children[k].name);
      GroupStep(f, children, k, groups, x);
      groups := groups[x := (if x in groups then groups[x] else []) + [children[k].id]];
    }
    assert children[..|children|] == children;
  }

  lemma GroupedCollision(f: CharFold, children: seq<Node>, groups: map<seq<int>, seq<u64>>, c: Node)
    requires DistinctNodeIds(children) && IsGrouping(f, children, groups) && c in children
    ensures Fold(f, c.name) in groups && (|groups[Fold(f, c.name)]| > 1 <==> Collides(f, children, c))
  {
    GroupIsCollision(f, children, c);
    GroupExact(f, children, Fold(f, c.name), c.id);
  }

  ghost predicate Marked(f: CharFold, children: seq<Node>, collisions: set<u64>, i: nat)
    requires i < |children|
  {
    children[i].id in collisions <==> Collides(f, children, children[i])
  }

  /** Ids of children in a colliding group. */
  method FindCollisions(f: CharFold, children: seq<Node>) returns (collisions: set<u64>)
    requires DistinctNodeIds(children)
    ensures forall i :: 0 <= i < |children| ==> Marked(f, children, collisions, i)
  {
    var groups := GroupNames(f, children);
    collisions := {};
    for i := 0 to |children|
      invariant forall k :: 0 <= k < i ==> (children[k].id in collisions <==> Collides(f, children, children[k]))
      invariant forall k :: i <= k < |children| ==> children[k].id !in collisions
    {
      GroupedCollision(f, children, groups, children[i]);
      if |groups[Fold(f, children[i].name)]| > 1 {
        collisions := collisions + {children[i].id};
      }
    }
  }

  /** The retry loop of one child. */
  method FirstFreeName(f: CharFold, used: set<seq<int>>, c: Node) returns (display: string)
    requires GoodFold(f) && |used| < MAX_ATTEMPT
    ensures display == MappedName(c.name, c.id, FreeFrom(f, used, c.name, c.id, 0))
  {
    var attempt := 0;
    display := MakeMappedName(c.name, c.id, attempt);
    FreeFromIsFree(f, used, c.name, c.id, 0);
    while Fold(f, display) in used
      invariant attempt <= |used| && display == MappedName(c.name, c.id, attempt)
      invariant FreeFrom(f, used, c.name, c.id, 0) == FreeFrom(f, used, c.name, c.id, attempt)
      invariant Taken(f, used, c.name, c.id, attempt)
      decreases |used| + 1 - attempt
    {
      assert Taken(f, used, c.name, c.id, attempt + 1);
      TakenBound(f, used, c.name, c.id, attempt + 1);
      attempt := attempt + 1;
      display := MakeMappedName(c.name, c.id, attempt);
    }
  }

  lemma MarkedKeeps(f: CharFold, children: seq<Node>, collisions: set<u64>, k: nat)
    requires k < |children| && Marked(f, children, collisions, k)
    ensures var c := children[k]; var keep := !NeedsMapping(c.name) && c.id !in collisions;
      && KeptNames(f, children, k + 1) == (if keep then KeptNames(f, children, k)[c.id := c.name] else KeptNames(f, children, k))
      && KeptFolds(f, children, k + 1) == (if keep then KeptFolds(f, children, k) + {Fold(f, c.name)} else KeptFolds(f, children, k))
  {
  }

  /** The first pass: children that keep their names. */
  method KeepNames(f: CharFold, children: seq<Node>, collisions: set<u64>)
    returns (names: map<u64, string>, used: set<seq<int>>)
    requires forall i :: 0 <= i < |children| ==> Marked(f, children, collisions, i)
    ensures names == KeptNames(f, children, |children|) && used == KeptFolds(f, children, |children|)
  {
    names, used := map[], {};
    for k := 0 to |children|
      invariant names == KeptNames(f, children, k) && used == KeptFolds(f, children, k)
    {
      var c := children[k];
      MarkedKeeps(f, children, collisions, k);
      if !NeedsMapping(c.name) && c.id !in collisions {
        used := used + {Fold(f, c.name)};
        names := names[c.id := c.name];
      }
    }
  }

  lemma TailSplit<T>(s: seq<T>, k: nat)
    requires k < |s|
    ensures s[k..] == [s[k]] + s[k + 1..]
  {
  }

  /** One child of the second pass. */
  method NameChild(f: CharFold, c: Node, used: set<seq<int>>, names: map<u64, string>, ghost rest: seq<Node>)
    returns (used': set<seq<int>>, names': map<u64, string>)
    requires GoodFold(f) && GoodNames(f, used, names) && |names| < MAX_ATTEMPT
    ensures GoodNames(f, used', names') && |names'| <= |names| + 1
    ensures Assign(f, [c] + rest, used, names) == Assign(f, rest, used', names')
  {
    used', names' := used, names;
    if c.id !in names {
      AssignRoom(f, used, names, c);
      var display := FirstFreeName(f, used, c);
      used' := used + {Fold(f, display)};
      names' := names[c.id := display];
    }
    assert ([c] + rest)[1..] == rest;
  }

  /** The second pass: replacements for the others, in id order. */
  method AssignNames(f: CharFold, children: seq<Node>, used0: set<seq<int>>, names0: map<u64, string>)
    returns (names: map<u64, string>)
    requires GoodFold(f) && GoodNames(f, used0, names0) && |names0| + |children| <= MAX_ATTEMPT
    ensures names == Assign(f, children, used0, names0)
  {
    var used := used0;
    names := names0;
    for k := 0 to |children|
      invariant Assign(f, children[k..], used, names) == Assign(f, children, used0, names0)
      invariant GoodNames(f, used, names) && |names| <= |names0| + k
    {
      TailSplit(children, k);
      used, names := NameChild(f, children[k], used, names, children[k + 1..]);
    }
  }

  method NameDirectory(f: CharFold, children: seq<Node>) returns (names: map<u64, string>)
    requires GoodFold(f) && DistinctNodeIds(children) && |children| <= MAX_ENTRIES
    ensures names == DirNames(f, children)
  {
    var collisions := FindCollisions(f, children);
    var kept, used := KeepNames(f, children, collisions);
    KeptGood(f, children, |children|);
    names := AssignNames(f, children, used, kept);
  }

  // ---------- The whole map ----------

  /** `lookup` maps a directory id and a folded display name to an entry id. */
  datatype NameMap = NameMap(names: map<u64, string>, lookup: map<(u64, seq<int>), u64>)

  predicate IsRoot(n: Node) {
    n.id == n.parentId
  }

  function ChildrenAt(nodes: seq<Node>, parent: u64): seq<Node> {
    if nodes == [] then []
    else
      var n := |nodes| - 1;
      if !IsRoot(nodes[n]) && nodes[n].parentId == parent then ChildrenAt(nodes[..n], parent) + [nodes[n]]
      else ChildrenAt(nodes[..n], parent)
  }

  /** The children of a directory in id order. */
  function Siblings(nodes: seq<Node>, parent: u64): seq<Node> {
    SortByKey(Id, ChildrenAt(nodes, parent))
  }

  lemma {:induction false} ChildrenAtExact(nodes: seq<Node>, parent: u64, n: Node)
    ensures multiset(ChildrenAt(nodes, parent))[n] ==
            if !IsRoot(n) && n.parentId == parent then multiset(nodes)[n] else 0
    ensures |ChildrenAt(nodes, parent)| <= |nodes|
  {
    if nodes != [] {
      var k := |nodes| - 1;
      ChildrenAtExact(nodes[..k], parent, n);
      assert nodes == nodes[..k] + [nodes[k]];
    }
  }

  lemma {:induction false} ChildrenAtDistinct(nodes: seq<Node>, parent: u64)
    requires DistinctNodeIds(nodes)
    ensures DistinctNodeIds(ChildrenAt(nodes, parent))
  {
    if nodes != [] {
      var k := |nodes| - 1;
      ChildrenAtDistinct(nodes[..k], parent);
      var before := ChildrenAt(nodes[..k], parent);
      forall i | 0 <= i < |before| ensures before[i].id != nodes[k].id {
        ChildrenAtExact(nodes[..k], parent, before[i]);
        assert before[i] in multiset(before);
        assert before[i] in nodes[..k];
      }
    }
  }

  /** A permutation keeps ids distinct. */
  lemma {:induction false} PermutedDistinct(s: seq<Node>, t: seq<Node>)
    requires DistinctNodeIds(s) && multiset(s) == multiset(t)
    ensures DistinctNodeIds(t)
  {
    forall i, j | 0 <= i < j < |t| ensures t[i].id != t[j].id {
      assert t[i] in multiset(s) && t[j] in multiset(s);
      var a :| 0 <= a < |s| && s[a] == t[i];
      var b :| 0 <= b < |s| && s[b] == t[j];
      if a == b {
        OccursTwice(t, i, j);
        OccursOnce(s, a);
      }
    }
  }

  lemma OccursTwice(t: seq<Node>, i: nat, j: nat)
    requires i < j < |t| && t[i] == t[j]
    ensures multiset(t)[t[i]] >= 2
  {
    assert t == t[..j] + [t[j]] + t[j + 1..];
    assert t[i] in t[..j];
  }

  lemma OccursOnce(s: seq<Node>, a: nat)
    requires DistinctNodeIds(s) && a < |s|
    ensures multiset(s)[s[a]] == 1
  {
    assert s == s[..a] + [s[a]] + s[a + 1..];
    assert s[a] !in s[..a] && s[a] !in s[a + 1..];
  }

  lemma SiblingsFacts(nodes: seq<Node>, parent: u64)
    requires DistinctNodeIds(nodes)
    ensures DistinctNodeIds(Siblings(nodes, parent)) && |Siblings(nodes, parent)| <= |nodes|
    ensures forall n :: n in Siblings(nodes, parent) <==> n in nodes && !IsRoot(n) && n.parentId == parent
  {
    ChildrenAtDistinct(nodes, parent);
    SortByKeySorted(Id, ChildrenAt(nodes, parent));
    PermutedDistinct(ChildrenAt(nodes, parent), Siblings(nodes, parent));
    forall n | true ensures n in Siblings(nodes, parent) <==> n in nodes && !IsRoot(n) && n.parentId == parent {
      ChildrenAtExact(nodes, parent, n);
      assert n in Siblings(nodes, parent) <==> n in multiset(ChildrenAt(nodes, parent));
      assert n in nodes <==> n in multiset(nodes);
    }
    assert |multiset(Siblings(nodes, parent))| == |multiset(ChildrenAt(nodes, parent))|;
    ChildrenAtExact(nodes, parent, Node(0, 0, ""));
  }

  /** The children of a directory in id order are the same for every order of the nodes. */
  lemma SiblingsOrderFree(nodes: seq<Node>, nodes': seq<Node>, parent: u64)
    requires DistinctNodeIds(nodes) && multiset(nodes) == multiset(nodes')
    ensures Siblings(nodes, parent) == Siblings(nodes', parent)
  {
    var a, b := ChildrenAt(nodes, parent), ChildrenAt(nodes', parent);
    forall n: Node ensures multiset(a)[n] == multiset(b)[n] {
      ChildrenAtExact(nodes, parent, n);
      ChildrenAtExact(nodes', parent, n);
    }
    assert multiset(a) == multiset(b);
    SortByKeySorted(Id, a);
    SortByKeySorted(Id, b);
    SiblingsFacts(nodes, parent);
    SortedUnique(Id, Siblings(nodes, parent), Siblings(nodes', parent));
  }

  /** A non-root node whose directory has been handled. */
  predicate Handled(nodes: seq<Node>, done: set<u64>, n: Node) {
    n in nodes && !IsRoot(n) && n.parentId in done
  }

  /** Names by directory: each handled node has the name `dir` gives it there, and only handled nodes have names. */
  ghost predicate NamesFor(nodes: seq<Node>, done: set<u64>, names: map<u64, string>, dir: u64 -> map<u64, string>) {
    && (forall n {:trigger Handled(nodes, done, n)} :: Handled(nodes, done, n) ==>
          n.id in names && n.id in dir(n.parentId) && names[n.id] == dir(n.parentId)[n.id])
    && (forall id :: id in names ==> exists n :: Handled(nodes, done, n) && n.id == id)
  }

  function LookupKey(f: CharFold, names: map<u64, string>, n: Node): (u64, seq<int>) {
    (n.parentId, if n.id in names then Fold(f, names[n.id]) else [])
  }

  /** The table leads from directory and folded display name to the node, and holds nothing else. */
  ghost predicate LookupFor(f: CharFold, nodes: seq<Node>, done: set<u64>, m: NameMap) {
    && (forall n {:trigger Handled(nodes, done, n)} :: Handled(nodes, done, n) ==>
          LookupKey(f, m.names, n) in m.lookup && m.lookup[LookupKey(f, m.names, n)] == n.id)
    && (forall k :: k in m.lookup ==> exists n :: Handled(nodes, done, n) && LookupKey(f, m.names, n) == k)
  }

  function Parents(nodes: seq<Node>): set<u64> {
    set i | 0 <= i < |nodes| && !IsRoot(nodes[i]) :: nodes[i].parentId
  }

  ghost function Dir(f: CharFold, nodes: seq<Node>): u64 -> map<u64, string> {
    parent => DirNames(f, Siblings(nodes, parent))
  }

  /** The map of a node set: names directory by directory, and the lookup table they induce. */
  ghost predicate IsNameMap(f: CharFold, nodes: seq<Node>, m: NameMap) {
    NamesFor(nodes, Parents(nodes), m.names, Dir(f, nodes)) && LookupFor(f, nodes, Parents(nodes), m)
  }

  predicate ChildOf(nodes: seq<Node>, parent: u64, n: Node) {
    n in nodes && !IsRoot(n) && n.parentId == parent
  }

  /** Names for exactly the children of a directory, pairwise ordinally different. */
  ghost predicate DirOk(f: CharFold, nodes: seq<Node>, parent: u64, r: map<u64, string>) {
    && (forall n {:trigger ChildOf(nodes, parent, n)} :: ChildOf(nodes, parent, n) ==> n.id in r)
    && (forall id :: id in r ==> exists n :: ChildOf(nodes, parent, n) && n.id == id)
    && Distinct(f, r)
  }

  lemma DirNamesAreOk(f: CharFold, nodes: seq<Node>, parent: u64)
    requires GoodFold(f) && DistinctNodeIds(nodes) && |nodes| <= MAX_ENTRIES
    ensures DirOk(f, nodes, parent, Dir(f, nodes)(parent))
  {
    var children := Siblings(nodes, parent);
    var r := DirNames(f, children);
    SiblingsFacts(nodes, parent);
    DirNamesOk(f, children);
    forall id | id in r ensures exists n :: ChildOf(nodes, parent, n) && n.id == id {
      var i :| 0 <= i < |children| && children[i].id == id;
      assert children[i] in children;
      assert ChildOf(nodes, parent, children[i]);
    }
    forall n | ChildOf(nodes, parent, n) ensures n.id in r {
      assert n in children;
    }
  }

  /** Siblings get different lookup keys. */
  lemma KeysDiffer(f: CharFold, nodes: seq<Node>, names: map<u64, string>, r: map<u64, string>, a: Node, b: Node)
    requires Distinct(f, r) && a.id != b.id
    requires a.id in r && b.id in r && a.id in names && b.id in names && names[a.id] == r[a.id] && names[b.id] == r[b.id]
    ensures LookupKey(f, names, a) != LookupKey(f, names, b)
  {
    assert TellsApart(f, r, a.id, b.id);
  }

  lemma NodesById(nodes: seq<Node>, a: Node, b: Node)
    requires DistinctNodeIds(nodes) && a in nodes && b in nodes && a.id == b.id
    ensures a == b
  {
  }

  lemma MoreHandled(nodes: seq<Node>, done: set<u64>, parent: u64, n: Node)
    ensures Handled(nodes, done + {parent}, n) <==> Handled(nodes, done, n) || ChildOf(nodes, parent, n)
  {
  }

  lemma OthersKeepKeys(f: CharFold, nodes: seq<Node>, done: set<u64>, names: map<u64, string>, parent: u64, r: map<u64, string>)
    requires DistinctNodeIds(nodes) && DirOk(f, nodes, parent, r) && parent !in done
    requires forall n :: Handled(nodes, done, n) ==> n.id in names
    ensures forall n :: Handled(nodes, done, n) ==> n.id in names + r && LookupKey(f, names + r, n) == LookupKey(f, names, n)
  {
    forall n | Handled(nodes, done, n) ensures n.id in names + r && LookupKey(f, names + r, n) == LookupKey(f, names, n) {
      OtherDirectory(f, nodes, done, parent, r, n);
    }
  }

  lemma OtherDirectory(f: CharFold, nodes: seq<Node>, done: set<u64>, parent: u64, r: map<u64, string>, n: Node)
    requires DistinctNodeIds(nodes) && DirOk(f, nodes, parent, r) && parent !in done && Handled(nodes, done, n)
    ensures n.id !in r
  {
    if n.id in r {
      var c :| ChildOf(nodes, parent, c) && c.id == n.id;
      NodesById(nodes, n, c);
    }
  }

  /** Adding the names of one more directory. */
  lemma AddDirectoryNames(f: CharFold, nodes: seq<Node>, done: set<u64>, names: map<u64, string>,
                          dir: u64 -> map<u64, string>,
                          parent: u64, r: map<u64, string>)
    requires DistinctNodeIds(nodes) && NamesFor(nodes, done, names, dir) && parent !in done
    requires r == dir(parent) && DirOk(f, nodes, parent, r)
    ensures NamesFor(nodes, done + {parent}, names + r, dir)
  {
    forall id | id in names + r ensures exists n :: Handled(nodes, done + {parent}, n) && n.id == id {
      if id in r {
        var n :| ChildOf(nodes, parent, n) && n.id == id;
        MoreHandled(nodes, done, parent, n);
      } else {
        var n :| Handled(nodes, done, n) && n.id == id;
        MoreHandled(nodes, done, parent, n);
      }
    }
    forall n | Handled(nodes, done + {parent}, n)
      ensures n.id in names + r && n.id in dir(n.parentId) && (names + r)[n.id] == dir(n.parentId)[n.id]
    {
      MoreHandled(nodes, done, parent, n);
      if ChildOf(nodes, parent, n) {
      } else {
        OtherDirectory(f, nodes, done, parent, r, n);
      }
    }
  }

  ghost predicate InLookup(f: CharFold, names: map<u64, string>, lookup: map<(u64, seq<int>), u64>, n: Node) {
    LookupKey(f, names, n) in lookup && lookup[LookupKey(f, names, n)] == n.id
  }

  ghost predicate KeysApart(f: CharFold, names: map<u64, string>, a: Node, b: Node) {
    LookupKey(f, names, a) != LookupKey(f, names, b)
  }

  ghost predicate KeyOfOne(f: CharFold, names: map<u64, string>, children: seq<Node>, n: nat, k: (u64, seq<int>)) {
    exists i :: 0 <= i < n <= |children| && LookupKey(f, names, children[i]) == k
  }

  /** What the loop has done after `n` children. */
  ghost predicate LookupsAdded(f: CharFold, parent: u64, children: seq<Node>, names: map<u64, string>,
                               lookup0: map<(u64, seq<int>), u64>, n: nat, lookup: map<(u64, seq<int>), u64>)
  {
    && n <= |children|
    && (forall j :: 0 <= j < n ==> InLookup(f, names, lookup, children[j]))
    && (forall k :: k in lookup0 && k.0 != parent ==> k in lookup && lookup[k] == lookup0[k])
    && (forall k :: k in lookup ==> k in lookup0 || KeyOfOne(f, names, children, n, k))
  }

  lemma AddLookup(f: CharFold, parent: u64, children: seq<Node>, names: map<u64, string>,
                  lookup0: map<(u64, seq<int>), u64>, n: nat, lookup: map<(u64, seq<int>), u64>)
    requires n < |children| && LookupsAdded(f, parent, children, names, lookup0, n, lookup)
    requires children[n].id in names && children[n].parentId == parent
    requires forall i :: 0 <= i < n ==> KeysApart(f, names, children[i], children[n])
    ensures LookupsAdded(f, parent, children, names, lookup0, n + 1, lookup[(parent, Fold(f, names[children[n].id])) := children[n].id])
  {
    var key := (parent, Fold(f, names[children[n].id]));
    var after := lookup[key := children[n].id];
    assert LookupKey(f, names, children[n]) == key;
    forall j | 0 <= j < n + 1 ensures InLookup(f, names, after, children[j]) {
      if j < n {
        assert KeysApart(f, names, children[j], children[n]) && InLookup(f, names, lookup, children[j]);
      }
    }
    forall k | k in after ensures k in lookup0 || KeyOfOne(f, names, children, n + 1, k) {
      if k != key && k !in lookup0 {
        assert KeyOfOne(f, names, children, n, k);
      }
    }
  }

  /** The last loop over one directory: its lookup entries. */
  method AddLookups(f: CharFold, parent: u64, children: seq<Node>, names: map<u64, string>,
                    lookup0: map<(u64, seq<int>), u64>)
    returns (lookup: map<(u64, seq<int>), u64>)
    requires forall i :: 0 <= i < |children| ==> children[i].id in names && children[i].parentId == parent
    requires forall i, j :: 0 <= i < j < |children| ==> KeysApart(f, names, children[i], children[j])
    ensures LookupsAdded(f, parent, children, names, lookup0, |children|, lookup)
  {
    lookup := lookup0;
    for i := 0 to |children|
      invariant LookupsAdded(f, parent, children, names, lookup0, i, lookup)
    {
      AddLookup(f, parent, children, names, lookup0, i, lookup);
      lookup := lookup[(parent, Fold(f, names[children[i].id])) := children[i].id];
    }
  }

  lemma AddDirectoryLookups(f: CharFold, nodes: seq<Node>, done: set<u64>, m: NameMap, parent: u64,
                            names: map<u64, string>,
                            lookup: map<(u64, seq<int>), u64>)
    requires DistinctNodeIds(nodes) && parent !in done && LookupFor(f, nodes, done, m)
    requires forall n {:trigger Handled(nodes, done, n)} :: Handled(nodes, done, n) ==> LookupKey(f, names, n) == LookupKey(f, m.names, n)
    requires forall n {:trigger ChildOf(nodes, parent, n)} :: ChildOf(nodes, parent, n) ==> InLookup(f, names, lookup, n)
    requires forall k :: k in m.lookup && k.0 != parent ==> k in lookup && lookup[k] == m.lookup[k]
    requires forall k :: k in lookup ==> k in m.lookup || exists n :: ChildOf(nodes, parent, n) && LookupKey(f, names, n) == k
    ensures LookupFor(f, nodes, done + {parent}, NameMap(names, lookup))
  {
    forall n | Handled(nodes, done + {parent}, n) ensures LookupKey(f, names, n) in lookup && lookup[LookupKey(f, names, n)] == n.id {
      MoreHandled(nodes, done, parent, n);
      if ChildOf(nodes, parent, n) {
        assert InLookup(f, names, lookup, n);
      } else {
        assert Handled(nodes, done, n);
      }
    }
    forall k | k in lookup ensures exists n :: Handled(nodes, done + {parent}, n) && LookupKey(f, names, n) == k {
      if k in m.lookup {
        var n :| Handled(nodes, done, n) && LookupKey(f, m.names, n) == k;
        MoreHandled(nodes, done, parent, n);
      } else {
        var n :| ChildOf(nodes, parent, n) && LookupKey(f, names, n) == k;
        MoreHandled(nodes, done, parent, n);
      }
    }
  }

  /** Lookup entries of one directory, from its names. */
  method LookupsOf(f: CharFold, nodes: seq<Node>, parent: u64, names: map<u64, string>, r: map<u64, string>,
                   lookup0: map<(u64, seq<int>), u64>) returns (lookup: map<(u64, seq<int>), u64>)
    requires DistinctNodeIds(nodes) && DirOk(f, nodes, parent, r)
    requires forall id :: id in r ==> id in names && names[id] == r[id]
    ensures forall n {:trigger ChildOf(nodes, parent, n)} :: ChildOf(nodes, parent, n) ==> InLookup(f, names, lookup, n)
    ensures forall k :: k in lookup0 && k.0 != parent ==> k in lookup && lookup[k] == lookup0[k]
    ensures forall k :: k in lookup ==> k in lookup0 || exists n :: ChildOf(nodes, parent, n) && LookupKey(f, names, n) == k
  {
    var children := Siblings(nodes, parent);
    SiblingsFacts(nodes, parent);
    forall i | 0 <= i < |children| ensures ChildOf(nodes, parent, children[i]) {
      assert children[i] in children;
    }
    forall i, j | 0 <= i < j < |children| ensures KeysApart(f, names, children[i], children[j]) {
      KeysDiffer(f, nodes, names, r, children[i], children[j]);
    }
    lookup := AddLookups(f, parent, children, names, lookup0);
    forall n | ChildOf(nodes, parent, n) ensures InLookup(f, names, lookup, n) {
      assert n in children;
    }
    forall k | k in lookup && k !in lookup0 ensures exists n :: ChildOf(nodes, parent, n) && LookupKey(f, names, n) == k {
      var i :| 0 <= i < |children| && LookupKey(f, names, children[i]) == k;
    }
  }

  /** One directory of the outer loop. */
  method AddDirectory(f: CharFold, nodes: seq<Node>, ghost done: set<u64>, m: NameMap, parent: u64) returns (r: NameMap)
    requires GoodFold(f) && DistinctNodeIds(nodes) && |nodes| <= MAX_ENTRIES && parent !in done
    requires MapFor(f, nodes, done, m)
    ensures MapFor(f, nodes, done + {parent}, r)
  {
    SiblingsFacts(nodes, parent);
    var dirNames := NameDirectory(f, Siblings(nodes, parent));
    DirNamesAreOk(f, nodes, parent);
    r := MergeDirectory(f, nodes, done, m, parent, dirNames, Dir(f, nodes));
  }

  method MergeDirectory(f: CharFold, nodes: seq<Node>, ghost done: set<u64>, m: NameMap, parent: u64,
                        dirNames: map<u64, string>,
                        ghost dir: u64 -> map<u64, string>) returns (r: NameMap)
    requires DistinctNodeIds(nodes) && parent !in done && dirNames == dir(parent) && DirOk(f, nodes, parent, dirNames)
    requires NamesFor(nodes, done, m.names, dir) && LookupFor(f, nodes, done, m)
    ensures NamesFor(nodes, done + {parent}, r.names, dir) && LookupFor(f, nodes, done + {parent}, r)
  {
    AddDirectoryNames(f, nodes, done, m.names, dir, parent, dirNames);
    var names := m.names + dirNames;
    var lookup := LookupsOf(f, nodes, parent, names, dirNames, m.lookup);
    OthersKeepKeys(f, nodes, done, m.names, parent, dirNames);
    AddDirectoryLookups(f, nodes, done, m, parent, names, lookup);
    r := NameMap(names, lookup);
  }

  ghost predicate MapFor(f: CharFold, nodes: seq<Node>, done: set<u64>, m: NameMap) {
    NamesFor(nodes, done, m.names, Dir(f, nodes)) && LookupFor(f, nodes, done, m)
  }

  lemma EmptyMap(f: CharFold, nodes: seq<Node>)
    ensures MapFor(f, nodes, {}, NameMap(map[], map[]))
  {
  }

  /** `WindowsNameMap::new`: directories are taken in an arbitrary order. */
  method NewNameMap(f: CharFold, nodes: seq<Node>) returns (m: NameMap)
    requires GoodFold(f) && DistinctNodeIds(nodes) && |nodes| <= MAX_ENTRIES
    ensures IsNameMap(f, nodes, m)
  {
    m := NameMap(map[], map[]);
    EmptyMap(f, nodes);
    var todo := Parents(nodes);
    while todo != {}
      invariant todo <= Parents(nodes)
      invariant MapFor(f, nodes, Parents(nodes) - todo, m)
      decreases |todo|
    {
      var parent :| parent in todo;
      m := AddDirectory(f, nodes, Parents(nodes) - todo, m, parent);
      assert Parents(nodes) - todo + {parent} == Parents(nodes) - (todo - {parent});
      todo := todo - {parent};
    }
    assert Parents(nodes) - {} == Parents(nodes);
  }

  // ---------- Consequences ----------

  lemma HandledAll(nodes: seq<Node>, n: Node)
    requires n in nodes && !IsRoot(n)
    ensures Handled(nodes, Parents(nodes), n)
  {
  }

  /** Looking up a node's display name in its directory finds the node. */
  lemma LookupFindsName(f: CharFold, nodes: seq<Node>, m: NameMap, n: Node)
    requires IsNameMap(f, nodes, m) && n in nodes && !IsRoot(n)
    ensures n.id in m.names && (n.parentId, Fold(f, m.names[n.id])) in m.lookup
    ensures m.lookup[(n.parentId, Fold(f, m.names[n.id]))] == n.id
  {
    HandledAll(nodes, n);
    assert LookupKey(f, m.names, n) in m.lookup;
  }

  /** Whatever a lookup finds has an ordinally equal display name in that directory. */
  lemma LookupSound(f: CharFold, nodes: seq<Node>, m: NameMap, parent: u64, name: string)
    requires IsNameMap(f, nodes, m) && (parent, Fold(f, name)) in m.lookup
    ensures exists n :: n in nodes && n.id == m.lookup[(parent, Fold(f, name))] && !IsRoot(n) && n.parentId == parent
                        && n.id in m.names && Fold(f, m.names[n.id]) == Fold(f, name)
  {
    var n :| Handled(nodes, Parents(nodes), n) && LookupKey(f, m.names, n) == (parent, Fold(f, name));
  }

  /** Display names of one directory differ for Windows. */
  lemma NamesDiffer(f: CharFold, nodes: seq<Node>, m: NameMap, a: Node, b: Node)
    requires GoodFold(f) && DistinctNodeIds(nodes) && |nodes| <= MAX_ENTRIES && IsNameMap(f, nodes, m)
    requires a in nodes && b in nodes && !IsRoot(a) && !IsRoot(b) && a.parentId == b.parentId && a.id != b.id
    ensures a.id in m.names && b.id in m.names && Fold(f, m.names[a.id]) != Fold(f, m.names[b.id])
  {
    HandledAll(nodes, a);
    HandledAll(nodes, b);
    DirNamesAreOk(f, nodes, a.parentId);
    KeysDiffer(f, nodes, m.names, Dir(f, nodes)(a.parentId), a, b);
  }

  /** Another node of the same directory is shown under a name that Windows takes for this one. */
  ghost predicate SiblingShown(f: CharFold, nodes: seq<Node>, names: map<u64, string>, n: Node, display: string) {
    exists s :: ChildOf(nodes, n.parentId, s) && s.id != n.id && s.id in names && Fold(f, names[s.id]) == Fold(f, display)
  }

  /** The first attempt, among at most `limit`, that no sibling is shown under. */
  ghost predicate FirstAttempt(f: CharFold, nodes: seq<Node>, names: map<u64, string>, n: Node, limit: nat, display: string) {
    exists a: nat :: a <= limit && display == MappedName(n.name, n.id, a) && AllShown(f, nodes, names, n, a)
  }

  ghost predicate AllShown(f: CharFold, nodes: seq<Node>, names: map<u64, string>, n: Node, a: nat) {
    forall b: nat {:trigger MappedName(n.name, n.id, b)} :: b < a ==> SiblingShown(f, nodes, names, n, MappedName(n.name, n.id, b))
  }

  lemma ElsewhereIsSibling(f: CharFold, nodes: seq<Node>, m: NameMap, n: Node, display: string)
    requires DistinctNodeIds(nodes) && IsNameMap(f, nodes, m) && DirOk(f, nodes, n.parentId, Dir(f, nodes)(n.parentId))
    requires ShownElsewhere(f, Dir(f, nodes)(n.parentId), n.id, display)
    ensures SiblingShown(f, nodes, m.names, n, display)
  {
    var r := Dir(f, nodes)(n.parentId);
    var t :| t in r && t != n.id && Fold(f, r[t]) == Fold(f, display);
    var s :| ChildOf(nodes, n.parentId, s) && s.id == t;
    HandledAll(nodes, s);
  }

  lemma FirstOfSiblings(f: CharFold, nodes: seq<Node>, m: NameMap, n: Node, limit: nat)
    requires DistinctNodeIds(nodes) && IsNameMap(f, nodes, m) && DirOk(f, nodes, n.parentId, Dir(f, nodes)(n.parentId))
    requires n.id in m.names && Replacement(f, Dir(f, nodes)(n.parentId), n, limit, m.names[n.id])
    ensures FirstAttempt(f, nodes, m.names, n, limit, m.names[n.id])
  {
    var r := Dir(f, nodes)(n.parentId);
    var a: nat :| a <= limit && m.names[n.id] == MappedName(n.name, n.id, a) && Tried(f, r, n, a);
    forall b: nat | b < a ensures SiblingShown(f, nodes, m.names, n, MappedName(n.name, n.id, b)) {
      ElsewhereIsSibling(f, nodes, m, n, MappedName(n.name, n.id, b));
    }
    assert AllShown(f, nodes, m.names, n, a);
  }

  /**
   A valid name without a collision is kept, any other is replaced by the first attempt that no sibling has; every
   display name can be shown.
   */
  lemma NameOfNode(f: CharFold, nodes: seq<Node>, m: NameMap, n: Node)
    requires GoodFold(f) && DistinctNodeIds(nodes) && |nodes| <= MAX_ENTRIES && IsNameMap(f, nodes, m)
    requires n in nodes && !IsRoot(n)
    ensures n.id in m.names
    ensures Keeps(f, Siblings(nodes, n.parentId), n) ==> m.names[n.id] == n.name
    ensures !Keeps(f, Siblings(nodes, n.parentId), n) ==> FirstAttempt(f, nodes, m.names, n, 2 * |nodes|, m.names[n.id])
    ensures m.names[n.id] != "" && Utf16Fits(m.names[n.id]) && !HasForbidden(m.names[n.id])
    ensures !TrailingBad(m.names[n.id][|m.names[n.id]| - 1])
  {
    var children := Siblings(nodes, n.parentId);
    SiblingsFacts(nodes, n.parentId);
    DirNamesOk(f, children);
    DirNamesAreOk(f, nodes, n.parentId);
    HandledAll(nodes, n);
    assert n in children;
    DisplayShape(f, children, DirNames(f, children), n.id);
    if !Keeps(f, children, n) {
      ReplacementLimit(f, DirNames(f, children), n, 2 * |children|, 2 * |nodes|, m.names[n.id]);
      FirstOfSiblings(f, nodes, m, n, 2 * |nodes|);
    }
  }

  /** Every display name can be shown. */
  lemma NodeNameShape(f: CharFold, nodes: seq<Node>, m: NameMap, n: Node)
    requires GoodFold(f) && DistinctNodeIds(nodes) && |nodes| <= MAX_ENTRIES && IsNameMap(f, nodes, m)
    requires n in nodes && !IsRoot(n)
    ensures n.id in m.names && m.names[n.id] != "" && !HasForbidden(m.names[n.id]) && !TrailingBad(m.names[n.id][|m.names[n.id]| - 1])
  {
    NameOfNode(f, nodes, m, n);
  }

  lemma SameNodes(nodes: seq<Node>, nodes': seq<Node>, n: Node)
    requires multiset(nodes) == multiset(nodes') && Handled(nodes, Parents(nodes), n)
    ensures Handled(nodes', Parents(nodes'), n)
  {
    assert n in multiset(nodes');
    HandledAll(nodes', n);
  }

  lemma NamesIncluded(nodes: seq<Node>, names: map<u64, string>, nodes': seq<Node>, names': map<u64, string>,
                      dir: u64 -> map<u64, string>)
    requires multiset(nodes) == multiset(nodes')
    requires NamesFor(nodes, Parents(nodes), names, dir) && NamesFor(nodes', Parents(nodes'), names', dir)
    ensures forall id :: id in names ==> id in names' && names'[id] == names[id]
  {
    forall id | id in names ensures id in names' && names'[id] == names[id] {
      var n :| Handled(nodes, Parents(nodes), n) && n.id == id;
      SameNodes(nodes, nodes', n);
    }
  }

  lemma LookupsIncluded(f: CharFold, nodes: seq<Node>, m: NameMap, nodes': seq<Node>, m': NameMap)
    requires multiset(nodes) == multiset(nodes') && m.names == m'.names
    requires LookupFor(f, nodes, Parents(nodes), m) && LookupFor(f, nodes', Parents(nodes'), m')
    ensures forall k :: k in m.lookup ==> k in m'.lookup && m'.lookup[k] == m.lookup[k]
  {
    forall k | k in m.lookup ensures k in m'.lookup && m'.lookup[k] == m.lookup[k] {
      var n :| Handled(nodes, Parents(nodes), n) && LookupKey(f, m.names, n) == k;
      SameNodes(nodes, nodes', n);
    }
  }

  lemma DirOrderFree(f: CharFold, nodes: seq<Node>, nodes': seq<Node>, names': map<u64, string>)
    requires DistinctNodeIds(nodes) && multiset(nodes) == multiset(nodes')
    requires NamesFor(nodes', Parents(nodes'), names', Dir(f, nodes'))
    ensures NamesFor(nodes', Parents(nodes'), names', Dir(f, nodes))
  {
    forall n | Handled(nodes', Parents(nodes'), n) ensures Dir(f, nodes)(n.parentId) == Dir(f, nodes')(n.parentId) {
      SiblingsOrderFree(nodes, nodes', n.parentId);
    }
  }

  lemma MapsEqual<K, V>(a: map<K, V>, b: map<K, V>)
    requires forall k :: k in a ==> k in b && b[k] == a[k]
    requires forall k :: k in b ==> k in a
    ensures a == b
  {
  }

  lemma NamesEqual(nodes: seq<Node>, names: map<u64, string>, nodes': seq<Node>, names': map<u64, string>,
                   dir: u64 -> map<u64, string>)
    requires multiset(nodes) == multiset(nodes')
    requires NamesFor(nodes, Parents(nodes), names, dir) && NamesFor(nodes', Parents(nodes'), names', dir)
    ensures names == names'
  {
    NamesIncluded(nodes, names, nodes', names', dir);
    NamesIncluded(nodes', names', nodes, names, dir);
    MapsEqual(names, names');
  }

  lemma LookupsEqual(f: CharFold, nodes: seq<Node>, m: NameMap, nodes': seq<Node>, m': NameMap)
    requires multiset(nodes) == multiset(nodes') && m.names == m'.names
    requires LookupFor(f, nodes, Parents(nodes), m) && LookupFor(f, nodes', Parents(nodes'), m')
    ensures m.lookup == m'.lookup
  {
    LookupsIncluded(f, nodes, m, nodes', m');
    LookupsIncluded(f, nodes', m', nodes, m);
    MapsEqual(m.lookup, m'.lookup);
  }

  /** Every ordering of the same nodes gives the same names and the same lookups. */
  lemma MapOrderFree(f: CharFold, nodes: seq<Node>, m: NameMap, nodes': seq<Node>, m': NameMap)
    requires DistinctNodeIds(nodes) && multiset(nodes) == multiset(nodes')
    requires IsNameMap(f, nodes, m) && IsNameMap(f, nodes', m')
    ensures m == m'
  {
    DirOrderFree(f, nodes, nodes', m'.names);
    NamesEqual(nodes, m.names, nodes', m'.names, Dir(f, nodes));
    LookupsEqual(f, nodes, m, nodes', m');
  }
}
