/** `WindowsNameMap`: display names for every directory of a container. */
module WindowsNames {
  import opened Common
  import opened Sequences
  import opened Format
  import opened WindowsText
  import Names

  /** What the naming of a node depends on. */
  datatype Node = Node(id: u64, parentId: u64, name: string)

  function Id(n: Node): int { n.id }

  ghost predicate DistinctNodeIds(nodes: seq<Node>) {
    forall i, j :: 0 <= i < j < |nodes| ==> nodes[i].id != nodes[j].id
  }

  // ---------- One directory ----------

  /** Another child has an ordinally equal name. */
  ghost predicate Collides(f: CharFold, children: seq<Node>, c: Node) {
    exists i :: 0 <= i < |children| && children[i].id != c.id && Fold(f, children[i].name) == Fold(f, c.name)
  }

  /** The child keeps its own name. */
  ghost predicate Keeps(f: CharFold, children: seq<Node>, c: Node) {
    !NeedsMapping(c.name) && !Collides(f, children, c)
  }

  ghost function KeptNames(f: CharFold, children: seq<Node>, k: nat): map<u64, string>
    requires k <= |children|
  {
    if k == 0 then map[]
    else
      var c := children[k - 1];
      if Keeps(f, children, c) then KeptNames(f, children, k - 1)[c.id := c.name] else KeptNames(f, children, k - 1)
  }

  ghost function KeptFolds(f: CharFold, children: seq<Node>, k: nat): set<seq<int>>
    requires k <= |children|
  {
    if k == 0 then {}
    else
      var c := children[k - 1];
      if Keeps(f, children, c) then KeptFolds(f, children, k - 1) + {Fold(f, c.name)} else KeptFolds(f, children, k - 1)
  }

  /** First attempt from `a` on whose name is not used; no attempt beyond |used| is ever needed. */
  function FreeFrom(f: CharFold, used: set<seq<int>>, name: string, id: u64, a: nat): nat
    decreases |used| + 1 - a
  {
    if a > |used| || Fold(f, MappedName(name, id, a)) !in used then a else FreeFrom(f, used, name, id, a + 1)
  }

  /** The replacement for a child's name. */
  function Pick(f: CharFold, used: set<seq<int>>, c: Node): string {
    MappedName(c.name, c.id, FreeFrom(f, used, c.name, c.id, 0))
  }

  /** Names for the children that do not keep theirs, in order. */
  function Assign(f: CharFold, rest: seq<Node>, used: set<seq<int>>, names: map<u64, string>): map<u64, string> {
    if rest == [] then names
    else
      var c := rest[0];
      if c.id in names then Assign(f, rest[1..], used, names)
      else
        var display := Pick(f, used, c);
        Assign(f, rest[1..], used + {Fold(f, display)}, names[c.id := display])
  }

  /** Display names of one directory whose children come in id order. */
  ghost function DirNames(f: CharFold, children: seq<Node>): map<u64, string> {
    Assign(f, children, KeptFolds(f, children, |children|), KeptNames(f, children, |children|))
  }

  // ---------- The retry loop stops ----------

  lemma SubsetSize<T>(a: set<T>, b: set<T>)
    requires a <= b
    ensures |a| <= |b|
  {
    assert b == a + (b - a);
  }

  ghost function Range(g: nat -> seq<int>, n: nat): set<seq<int>> {
    if n == 0 then {} else Range(g, n - 1) + {g(n - 1)}
  }

  lemma {:induction false} RangeExact(g: nat -> seq<int>, n: nat, x: seq<int>)
    ensures x in Range(g, n) <==> exists a: nat :: a < n && x == g(a)
  {
    if n > 0 { RangeExact(g, n - 1, x); }
  }

  ghost predicate Apart(g: nat -> seq<int>, a: nat, b: nat) {
    g(a) != g(b)
  }

  /** n different values are n values. */
  lemma {:induction false} RangeSize(g: nat -> seq<int>, n: nat)
    requires forall a: nat, b: nat :: a < b < n ==> Apart(g, a, b)
    ensures |Range(g, n)| == n
  {
    if n > 0 {
      RangeSize(g, n - 1);
      RangeExact(g, n - 1, g(n - 1));
      forall a: nat | a < n - 1 ensures g(n - 1) != g(a) {
        assert Apart(g, a, n - 1);
      }
    }
  }

  /** n different values all lying in `used` need n places there. */
  lemma Pigeonhole(g: nat -> seq<int>, n: nat, used: set<seq<int>>)
    requires forall a: nat, b: nat :: a < b < n ==> Apart(g, a, b)
    requires forall a: nat :: a < n ==> g(a) in used
    ensures n <= |used|
  {
    RangeSize(g, n);
    forall x | x in Range(g, n) ensures x in used {
      RangeExact(g, n, x);
    }
    SubsetSize(Range(g, n), used);
  }

  ghost predicate Taken(f: CharFold, used: set<seq<int>>, name: string, id: u64, n: nat) {
    forall a: nat {:trigger MappedName(name, id, a)} :: a < n ==> Fold(f, MappedName(name, id, a)) in used
  }

  /** Taken attempts cannot outnumber the used names. */
  lemma TakenBound(f: CharFold, used: set<seq<int>>, name: string, id: u64, n: nat)
    requires GoodFold(f) && n <= MAX_ATTEMPT && Taken(f, used, name, id, n)
    ensures n <= |used|
  {
    var g := (a: nat) => Fold(f, MappedName(name, id, a));
    forall a: nat, b: nat | a < b < n ensures Apart(g, a, b) {
      AttemptsDiffer(f, name, id, a, b);
    }
    Pigeonhole(g, n, used);
  }

  /** The loop ends at an unused name within one more attempt than there are used names. */
  lemma {:induction false} FreeFromIsFree(f: CharFold, used: set<seq<int>>, name: string, id: u64, a: nat)
    requires GoodFold(f) && |used| < MAX_ATTEMPT && Taken(f, used, name, id, a) && a <= MAX_ATTEMPT
    ensures a <= FreeFrom(f, used, name, id, a) <= |used|
    ensures Fold(f, MappedName(name, id, FreeFrom(f, used, name, id, a))) !in used
    ensures Taken(f, used, name, id, FreeFrom(f, used, name, id, a))
    decreases |used| + 1 - a
  {
    TakenBound(f, used, name, id, a);
    if Fold(f, MappedName(name, id, a)) in used {
      assert Taken(f, used, name, id, a + 1);
      FreeFromIsFree(f, used, name, id, a + 1);
    }
  }

  // ---------- What the names of a directory satisfy ----------

  ghost predicate Distinct(f: CharFold, names: map<u64, string>) {
    forall x, y :: x in names && y in names && x != y ==> TellsApart(f, names, x, y)
  }

  ghost predicate TellsApart(f: CharFold, names: map<u64, string>, x: u64, y: u64)
    requires x in names && y in names
  {
    Fold(f, names[x]) != Fold(f, names[y])
  }

  ghost predicate FoldsIn(f: CharFold, used: set<seq<int>>, names: map<u64, string>) {
    forall id :: id in names ==> Fold(f, names[id]) in used
  }

  ghost predicate AllUsed(f: CharFold, used: set<seq<int>>, names: map<u64, string>) {
    forall x :: x in used ==> UsedIn(f, names, x)
  }

  /** Names in use are pairwise ordinally different, and `used` holds their folds. */
  ghost predicate GoodNames(f: CharFold, used: set<seq<int>>, names: map<u64, string>) {
    FoldsIn(f, used, names) && Distinct(f, names) && |used| <= |names| && AllUsed(f, used, names)
  }

  ghost predicate UsedIn(f: CharFold, names: map<u64, string>, x: seq<int>) {
    exists id :: id in names && Fold(f, names[id]) == x
  }

  lemma UsedStays(f: CharFold, used: set<seq<int>>, names: map<u64, string>, id: u64, display: string)
    requires id !in names && AllUsed(f, used, names)
    ensures AllUsed(f, used + {Fold(f, display)}, names[id := display])
  {
    var more := names[id := display];
    forall x | x in used + {Fold(f, display)} ensures UsedIn(f, more, x) {
      if x == Fold(f, display) {
        assert more[id] == display;
      } else {
        var t :| t in names && Fold(f, names[t]) == x;
        assert more[t] == names[t];
      }
    }
  }

  lemma AddDistinct(f: CharFold, names: map<u64, string>, id: u64, display: string)
    requires Distinct(f, names) && id !in names
    requires forall x :: x in names ==> Fold(f, names[x]) != Fold(f, display)
    ensures Distinct(f, names[id := display])
  {
    var more := names[id := display];
    forall x, y | x in more && y in more && x != y ensures TellsApart(f, more, x, y) {
      if x != id && y != id { assert TellsApart(f, names, x, y); }
    }
  }

  lemma AddFold(f: CharFold, used: set<seq<int>>, names: map<u64, string>, id: u64, display: string)
    requires FoldsIn(f, used, names)
    ensures FoldsIn(f, used + {Fold(f, display)}, names[id := display])
    ensures Fold(f, display) !in used ==> forall x :: x in names ==> Fold(f, names[x]) != Fold(f, display)
  {
  }

  lemma AddName(f: CharFold, used: set<seq<int>>, names: map<u64, string>, id: u64, display: string)
    requires GoodNames(f, used, names) && id !in names && Fold(f, display) !in used
    ensures GoodNames(f, used + {Fold(f, display)}, names[id := display])
  {
    AddFold(f, used, names, id, display);
    AddDistinct(f, names, id, display);
    AddSizes(used, names, id, display, Fold(f, display));
    UsedStays(f, used, names, id, display);
  }

  lemma AddSizes(used: set<seq<int>>, names: map<u64, string>, id: u64, display: string, x: seq<int>)
    requires id !in names && x !in used
    ensures |used + {x}| == |used| + 1 && |names[id := display]| == |names| + 1
  {
    assert names[id := display].Keys == names.Keys + {id};
  }

  /** The first attempt, among at most `limit`, that no other child of the directory is shown under. */
  ghost predicate Replacement(f: CharFold, names: map<u64, string>, c: Node, limit: nat, display: string) {
    exists a: nat :: a <= limit && display == MappedName(c.name, c.id, a) && Tried(f, names, c, a)
  }

  ghost predicate Tried(f: CharFold, names: map<u64, string>, c: Node, a: nat) {
    forall b: nat {:trigger MappedName(c.name, c.id, b)} :: b < a ==> ShownElsewhere(f, names, c.id, MappedName(c.name, c.id, b))
  }

  ghost predicate ShownElsewhere(f: CharFold, names: map<u64, string>, id: u64, display: string) {
    exists t :: t in names && t != id && Fold(f, names[t]) == Fold(f, display)
  }

  /** Names that were given stay. */
  lemma {:induction false} AssignKeeps(f: CharFold, rest: seq<Node>, used: set<seq<int>>, names: map<u64, string>,
                                       id: u64)
    requires id in names
    ensures id in Assign(f, rest, used, names) && Assign(f, rest, used, names)[id] == names[id]
    decreases |rest|
  {
    if rest != [] {
      var c := rest[0];
      if c.id in names {
        AssignKeeps(f, rest[1..], used, names, id);
      } else {
        var display := Pick(f, used, c);
        AssignKeeps(f, rest[1..], used + {Fold(f, display)}, names[c.id := display], id);
      }
    }
  }

  /** Only the listed children get names. */
  lemma {:induction false} AssignOnly(f: CharFold, rest: seq<Node>, used: set<seq<int>>, names: map<u64, string>,
                                      id: u64)
    requires id in Assign(f, rest, used, names)
    ensures id in names || exists i :: 0 <= i < |rest| && rest[i].id == id
    decreases |rest|
  {
    if rest != [] {
      var c := rest[0];
      if c.id in names {
        AssignOnly(f, rest[1..], used, names, id);
      } else {
        var display := Pick(f, used, c);
        AssignOnly(f, rest[1..], used + {Fold(f, display)}, names[c.id := display], id);
      }
      if id !in names && id != c.id {
        var i :| 0 <= i < |rest[1..]| && rest[1..][i].id == id;
        assert rest[i + 1].id == id;
      }
    }
  }

  lemma AssignRoom(f: CharFold, used: set<seq<int>>, names: map<u64, string>, c: Node)
    requires GoodFold(f) && GoodNames(f, used, names) && |names| < MAX_ATTEMPT && c.id !in names
    ensures var display := Pick(f, used, c);
      && GoodNames(f, used + {Fold(f, display)}, names[c.id := display])
      && |names[c.id := display]| == |names| + 1
      && FreeFrom(f, used, c.name, c.id, 0) <= |names|
      && Taken(f, used, c.name, c.id, FreeFrom(f, used, c.name, c.id, 0))
  {
    FreeFromIsFree(f, used, c.name, c.id, 0);
    AddName(f, used, names, c.id, Pick(f, used, c));
  }

  /** The finished names are pairwise ordinally different. */
  lemma {:induction false} AssignDistinct(f: CharFold, rest: seq<Node>, used: set<seq<int>>, names: map<u64, string>)
    requires GoodFold(f) && GoodNames(f, used, names) && |names| + |rest| <= MAX_ATTEMPT
    ensures Distinct(f, Assign(f, rest, used, names))
    decreases |rest|
  {
    if rest != [] {
      var c := rest[0];
      if c.id in names {
        AssignDistinct(f, rest[1..], used, names);
      } else {
        var display := Pick(f, used, c);
        AssignRoom(f, used, names, c);
        AssignDistinct(f, rest[1..], used + {Fold(f, display)}, names[c.id := display]);
      }
    }
  }

  lemma ReplacementLimit(f: CharFold, names: map<u64, string>, c: Node, limit: nat, more: nat, display: string)
    requires Replacement(f, names, c, limit, display) && limit <= more
    ensures Replacement(f, names, c, more, display)
  {
  }

  lemma TailIds(rest: seq<Node>)
    requires rest != [] && DistinctNodeIds(rest)
    ensures DistinctNodeIds(rest[1..]) && forall i :: 1 <= i < |rest| ==> rest[i].id != rest[0].id
  {
  }

  /** Who used a name before still does. */
  lemma UsedAtEnd(f: CharFold, rest: seq<Node>, used: set<seq<int>>, names: map<u64, string>, id: u64, display: string)
    requires GoodNames(f, used, names) && id !in names && Fold(f, display) in used
    ensures ShownElsewhere(f, Assign(f, rest, used, names), id, display)
  {
    assert UsedIn(f, names, Fold(f, display));
    var t :| t in names && Fold(f, names[t]) == Fold(f, display);
    AssignKeeps(f, rest, used, names, t);
  }

  /** The first child is named now. */
  lemma FirstReplaced(f: CharFold, rest: seq<Node>, used: set<seq<int>>, names: map<u64, string>)
    requires GoodFold(f) && GoodNames(f, used, names) && |names| < MAX_ATTEMPT && rest != [] && rest[0].id !in names
    ensures rest[0].id in Assign(f, rest, used, names)
    ensures Replacement(f, Assign(f, rest, used, names), rest[0], |names|, Assign(f, rest, used, names)[rest[0].id])
  {
    var c := rest[0];
    AssignRoom(f, used, names, c);
    AssignKeeps(f, rest[1..], used + {Fold(f, Pick(f, used, c))}, names[c.id := Pick(f, used, c)], c.id);
    var a := FreeFrom(f, used, c.name, c.id, 0);
    forall b: nat | b < a ensures ShownElsewhere(f, Assign(f, rest, used, names), c.id, MappedName(c.name, c.id, b)) {
      UsedAtEnd(f, rest, used, names, c.id, MappedName(c.name, c.id, b));
    }
    assert Tried(f, Assign(f, rest, used, names), c, a);
  }

  /** What the next child leaves to the others. */
  lemma AssignStep(f: CharFold, rest: seq<Node>, used: set<seq<int>>, names: map<u64, string>)
    returns (used': set<seq<int>>, names': map<u64, string>)
    requires GoodFold(f) && GoodNames(f, used, names) && |names| < MAX_ATTEMPT && rest != []
    ensures Assign(f, rest, used, names) == Assign(f, rest[1..], used', names') && GoodNames(f, used', names')
    ensures |names| <= |names'| <= |names| + 1 && (rest[0].id in names ==> |names'| == |names|)
    ensures forall id :: id in names' ==> id in names || id == rest[0].id
  {
    var c := rest[0];
    if c.id in names {
      return used, names;
    }
    AssignRoom(f, used, names, c);
    return used + {Fold(f, Pick(f, used, c))}, names[c.id := Pick(f, used, c)];
  }

  /** Every child without a name gets a replacement, after at most as many retries as there are names. */
  lemma {:induction false} AssignReplaces(f: CharFold, rest: seq<Node>, used: set<seq<int>>, names: map<u64, string>,
                                          i: nat)
    requires GoodFold(f) && GoodNames(f, used, names) && |names| + |rest| <= MAX_ATTEMPT
    requires DistinctNodeIds(rest) && i < |rest|
    ensures rest[i].id in Assign(f, rest, used, names)
    ensures rest[i].id !in names ==> Replacement(f, Assign(f, rest, used, names), rest[i], |names| + |rest|, Assign(f, rest, used, names)[rest[i].id])
    decreases |rest|
  {
    var c, all := rest[0], Assign(f, rest, used, names);
    TailIds(rest);
    if i == 0 && c.id in names {
      AssignKeeps(f, rest, used, names, c.id);
    } else if i == 0 {
      FirstReplaced(f, rest, used, names);
      ReplacementLimit(f, all, c, |names|, |names| + |rest|, all[c.id]);
    } else {
      var used', names' := AssignStep(f, rest, used, names);
      AssignReplaces(f, rest[1..], used', names', i - 1);
      assert rest[1..][i - 1] == rest[i];
      assert all == Assign(f, rest[1..], used', names');
      if rest[i].id !in names {
        ReplacementLimit(f, all, rest[i], |names'| + |rest| - 1, |names| + |rest|, all[rest[i].id]);
      }
    }
  }

  /** The kept names are exactly those of the first k children that keep theirs. */
  lemma {:induction false} KeptExact(f: CharFold, children: seq<Node>, k: nat, id: u64)
    requires DistinctNodeIds(children) && k <= |children|
    ensures id in KeptNames(f, children, k) <==> exists i :: 0 <= i < k && children[i].id == id && Keeps(f, children, children[i])
    ensures forall i :: 0 <= i < k && children[i].id == id && id in KeptNames(f, children, k) ==>
              KeptNames(f, children, k)[id] == children[i].name
  {
    if k > 0 {
      var c := children[k - 1];
      KeptExact(f, children, k - 1, id);
      if c.id == id {
        OnlyChild(children, k - 1);
        assert id !in KeptNames(f, children, k - 1);
      } else {
        assert id in KeptNames(f, children, k) <==> id in KeptNames(f, children, k - 1);
      }
    }
  }

  lemma OnlyChild(children: seq<Node>, n: nat)
    requires DistinctNodeIds(children) && n < |children|
    ensures forall i :: 0 <= i < |children| && i != n ==> children[i].id != children[n].id
  {
  }

  lemma {:induction false} KeptFoldsExact(f: CharFold, children: seq<Node>, k: nat, x: seq<int>)
    requires k <= |children|
    ensures x in KeptFolds(f, children, k) ==> exists i :: 0 <= i < k && Fold(f, children[i].name) == x
  {
    if k > 0 { KeptFoldsExact(f, children, k - 1, x); }
  }

  lemma KeepOneMore(f: CharFold, children: seq<Node>, n: nat)
    requires DistinctNodeIds(children) && n < |children|
    requires |KeptNames(f, children, n)| <= n && GoodNames(f, KeptFolds(f, children, n), KeptNames(f, children, n))
    ensures |KeptNames(f, children, n + 1)| <= n + 1
    ensures GoodNames(f, KeptFolds(f, children, n + 1), KeptNames(f, children, n + 1))
  {
    var c, names, used := children[n], KeptNames(f, children, n), KeptFolds(f, children, n);
    if Keeps(f, children, c) {
      NotYetKept(f, children, n);
      AddName(f, used, names, c.id, c.name);
      AddSizes(used, names, c.id, c.name, Fold(f, c.name));
    }
  }

  lemma NotYetKept(f: CharFold, children: seq<Node>, n: nat)
    requires DistinctNodeIds(children) && n < |children| && Keeps(f, children, children[n])
    ensures children[n].id !in KeptNames(f, children, n) && Fold(f, children[n].name) !in KeptFolds(f, children, n)
  {
    OnlyChild(children, n);
    KeptExact(f, children, n, children[n].id);
    KeptFoldsExact(f, children, n, Fold(f, children[n].name));
  }

  lemma {:induction false} KeptGood(f: CharFold, children: seq<Node>, k: nat)
    requires DistinctNodeIds(children) && k <= |children|
    ensures |KeptNames(f, children, k)| <= k && GoodNames(f, KeptFolds(f, children, k), KeptNames(f, children, k))
  {
    if k > 0 {
      KeptGood(f, children, k - 1);
      KeepOneMore(f, children, k - 1);
    }
  }

  /** The contract of one directory's display names. */
  ghost predicate DisplayOk(f: CharFold, children: seq<Node>, names: map<u64, string>) {
    && (forall i :: 0 <= i < |children| ==> children[i].id in names)
    && (forall id :: id in names ==> exists i :: 0 <= i < |children| && children[i].id == id)
    && Distinct(f, names)
    && (forall i :: 0 <= i < |children| && Keeps(f, children, children[i]) ==> names[children[i].id] == children[i].name)
    && (forall i :: 0 <= i < |children| && !Keeps(f, children, children[i]) ==>
          Replacement(f, names, children[i], 2 * |children|, names[children[i].id]))
  }

  /**
   In every directory the display names are pairwise different for Windows, a valid name without a collision
   is kept, and any other child gets a replacement after a bounded number of retries.
   */
  lemma DirNamesOk(f: CharFold, children: seq<Node>)
    requires GoodFold(f) && DistinctNodeIds(children) && |children| <= MAX_ENTRIES
    ensures DisplayOk(f, children, DirNames(f, children))
  {
    var names, used := KeptNames(f, children, |children|), KeptFolds(f, children, |children|);
    var r := DirNames(f, children);
    KeptGood(f, children, |children|);
    AssignDistinct(f, children, used, names);
    forall i | 0 <= i < |children|
      ensures children[i].id in r
      ensures Keeps(f, children, children[i]) ==> r[children[i].id] == children[i].name
      ensures !Keeps(f, children, children[i]) ==> Replacement(f, r, children[i], 2 * |children|, r[children[i].id])
    {
      AssignReplaces(f, children, used, names, i);
      KeptExact(f, children, |children|, children[i].id);
      if Keeps(f, children, children[i]) {
        AssignKeeps(f, children, used, names, children[i].id);
      }
    }
    forall id | id in r ensures exists i :: 0 <= i < |children| && children[i].id == id {
      AssignOnly(f, children, used, names, id);
      KeptExact(f, children, |children|, id);
    }
  }

  /** Every display name is non-empty, fits 255 UTF-16 units and has no forbidden character or bad ending. */
  lemma DisplayShape(f: CharFold, children: seq<Node>, names: map<u64, string>, id: u64)
    requires DisplayOk(f, children, names) && id in names && |children| <= MAX_ENTRIES
    ensures names[id] != "" && Utf16Fits(names[id]) && !HasForbidden(names[id]) && !TrailingBad(names[id][|names[id]| - 1])
  {
    var i :| 0 <= i < |children| && children[i].id == id;
    if !Keeps(f, children, children[i]) {
      assert Replacement(f, names, children[i], 2 * |children|, names[id]);
      var a: nat :| a <= 2 * |children| && names[id] == MappedName(children[i].name, children[i].id, a);
      MappedNameShape(children[i].name, children[i].id, a);
    }
  }

  predicate Utf16Fits(s: string) {
    Names.Utf16Len(s) <= 255
  }
}
