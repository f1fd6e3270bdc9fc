/** The entries of an index as a list: collecting, sorting and filtering them. */
module EntryLists {
  import opened Common
  import opened Sequences
  import opened Format
  import opened Index
  import opened IndexProperties
  import opened Totals

  ghost predicate Differ(list: seq<Entry>, i: nat, j: nat)
    requires i < |list| && j < |list|
  {
    list[i] != list[j]
  }

  /** No entry twice. */
  ghost predicate Once(list: seq<Entry>) {
    forall i, j :: 0 <= i < j < |list| ==> Differ(list, i, j)
  }

  ghost predicate Lists(m: EntryMap, list: seq<Entry>) {
    && Once(list)
    && (forall e :: e in list ==> e.id in m && m[e.id] == e)
    && (forall id :: id in m ==> m[id] in list)
  }

  lemma OnePlace(list: seq<Entry>, i: nat, k: nat)
    requires Once(list) && i < |list| && k < |list|
    ensures list[i] == list[k] ==> i == k
  {
    if i < k { assert Differ(list, i, k); }
    if k < i { assert Differ(list, k, i); }
  }

  lemma OnceCount(list: seq<Entry>, i: nat)
    requires Once(list) && i < |list|
    ensures multiset(list)[list[i]] == 1
  {
    assert list == list[..i] + [list[i]] + list[i + 1..];
    forall k | 0 <= k < |list| && k != i ensures list[k] != list[i] {
      assert if k < i then Differ(list, k, i) else Differ(list, i, k);
    }
    assert list[i] !in list[..i] && list[i] !in list[i + 1..];
  }

  lemma OncePermuted(s: seq<Entry>, t: seq<Entry>)
    requires Once(s) && multiset(s) == multiset(t)
    ensures Once(t) && forall e :: e in s <==> e in t
  {
    forall e: Entry | true ensures e in s <==> e in t {
      assert e in s <==> e in multiset(s);
      assert e in t <==> e in multiset(t);
    }
    forall i, j | 0 <= i < j < |t| ensures Differ(t, i, j) {
      assert t == t[..j] + [t[j]] + t[j + 1..];
      assert t[i] in t[..j];
      assert t[j] in s;
      var k :| 0 <= k < |s| && s[k] == t[j];
      OnceCount(s, k);
    }
  }

  /** Two lists of one index hold the same entries equally often. */
  lemma ListsAgree(m: EntryMap, s: seq<Entry>, t: seq<Entry>)
    requires Lists(m, s) && Lists(m, t)
    ensures multiset(s) == multiset(t)
  {
    forall e: Entry | true ensures multiset(s)[e] == multiset(t)[e] {
      CountOf(m, s, e);
      CountOf(m, t, e);
    }
  }

  lemma CountOf(m: EntryMap, list: seq<Entry>, e: Entry)
    requires Lists(m, list)
    ensures multiset(list)[e] == if e.id in m && m[e.id] == e then 1 else 0
  {
    if e in list {
      var i :| 0 <= i < |list| && list[i] == e;
      OnceCount(list, i);
    } else {
      assert e !in multiset(list);
    }
  }

  lemma SortedLists(key: Entry -> int, m: EntryMap, list: seq<Entry>)
    requires Lists(m, list)
    ensures Lists(m, SortByKey(key, list)) && Sorted(key, SortByKey(key, list))
  {
    SortByKeySorted(key, list);
    OncePermuted(list, SortByKey(key, list));
  }

  lemma OnceMore(list: seq<Entry>, e: Entry)
    requires Once(list) && e !in list
    ensures Once(list + [e])
  {
    forall i, j | 0 <= i < j < |list| + 1 ensures Differ(list + [e], i, j) {
      if j < |list| { assert Differ(list, i, j); }
    }
  }

  /** `values().collect()` of a hash map: every entry once, in any order. */
  method Values(m: EntryMap) returns (list: seq<Entry>)
    requires forall id :: id in m ==> m[id].id == id
    ensures Lists(m, list)
  {
    list := [];
    var todo := m.Keys;
    while todo != {}
      invariant todo <= m.Keys && Once(list)
      invariant forall e :: e in list ==> e.id in m && e.id !in todo && m[e.id] == e
      invariant forall id :: id in m && id !in todo ==> m[id] in list
      decreases |todo|
    {
      var id :| id in todo;
      todo := todo - {id};
      OnceMore(list, m[id]);
      list := list + [m[id]];
    }
  }

  /** The entries of an accepted index, as listed there. */
  lemma AcceptedLists(entryCount: u64, dataSize: u64, entries: seq<Entry>)
    requires Accepted(entryCount, dataSize, entries)
    ensures Lists(ById(entries), entries)
  {
    AcceptedIsTree(entryCount, dataSize, entries);
    forall i, j | 0 <= i < j < |entries| ensures Differ(entries, i, j) {
      assert entries[i].id != entries[j].id;
    }
  }

  /** `filter` for the file entries. */
  function Files(list: seq<Entry>): seq<Entry> {
    if list == [] then [] else IfFile(list[0]) + Files(list[1..])
  }

  function IfFile(e: Entry): seq<Entry> {
    if e.kind == File then [e] else []
  }

  lemma {:induction false} FilesOnly(list: seq<Entry>)
    ensures forall e :: e in Files(list) <==> e in list && e.kind == File
    ensures SumBy(FileSize, Files(list)) == SumBy(FileSize, list)
  {
    if list != [] {
      FilesOnly(list[1..]);
      if list[0].kind == File {
        SumByCons(FileSize, list[0], Files(list[1..]));
      } else {
        assert [] + Files(list[1..]) == Files(list[1..]);
      }
    }
  }

  lemma {:induction false} FilesOnce(list: seq<Entry>)
    requires Once(list)
    ensures Once(Files(list))
  {
    if list != [] {
      var rest := list[1..];
      forall i, k | 0 <= i < k < |rest| ensures Differ(rest, i, k) {
        assert Differ(list, i + 1, k + 1);
      }
      FilesOnce(rest);
      FilesOnly(rest);
      forall k | 0 <= k < |rest| ensures rest[k] != list[0] {
        assert Differ(list, 0, k + 1);
      }
      OnceFirst(list[0], Files(rest));
    }
  }

  lemma OnceFirst(e: Entry, list: seq<Entry>)
    requires Once(list) && e !in list
    ensures Once(IfFile(e) + list)
  {
    var more := IfFile(e) + list;
    forall i, k | 0 <= i < k < |more| ensures Differ(more, i, k) {
      var n := |IfFile(e)|;
      if i >= n { assert Differ(list, i - n, k - n); }
    }
  }

  lemma {:induction false} FilesAppend(s: seq<Entry>, t: seq<Entry>)
    ensures Files(s + t) == Files(s) + Files(t)
  {
    if s == [] {
      assert s + t == t;
    } else {
      FilesAppend(s[1..], t);
      assert (s + t)[1..] == s[1..] + t && (s + t)[0] == s[0];
      ConcatAssociative(IfFile(s[0]), Files(s[1..]), Files(t));
    }
  }

  /** Filtering a rearranged list gives a rearranged list. */
  lemma FilesPermuted(s: seq<Entry>, t: seq<Entry>)
    requires multiset(s) == multiset(t)
    ensures multiset(Files(s)) == multiset(Files(t))
  {
    FilesBag(s);
    FilesBag(t);
  }

  /** How often an entry stays in the filtered list. */
  lemma {:induction false} FilesBag(list: seq<Entry>)
    ensures forall e :: multiset(Files(list))[e] == if e.kind == File then multiset(list)[e] else 0
  {
    if list != [] {
      FilesBag(list[1..]);
      assert list == [list[0]] + list[1..];
    }
  }
}
