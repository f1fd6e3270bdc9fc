/** The bounded chunk cache: its two locked steps, what they keep under any interleaving, and plain LRU. */
module Cache {
  import opened Common
  import opened Format

  datatype CacheKey = CacheKey(fileId: Blob16, chunkIndex: u64)

  datatype State = State(maxBytes: nat, bytes: nat, values: map<CacheKey, Bytes>, order: seq<CacheKey>)

  const EMPTY_ORDER: seq<CacheKey> := []

  function Empty(maxBytes: nat): State {
    State(maxBytes, 0, map[], EMPTY_ORDER)
  }

  // ---------- The two locked steps ----------

  /** `VecDeque::remove` of the first position that holds the key. */
  function WithoutFirst(order: seq<CacheKey>, k: CacheKey): seq<CacheKey> {
    if order == [] then []
    else if order[0] == k then order[1..]
    else [order[0]] + WithoutFirst(order[1..], k)
  }

  /** The state after a lookup of `k`. */
  function Touch(s: State, k: CacheKey): State {
    if k in s.values then s.(order := WithoutFirst(s.order, k) + [k]) else s
  }

  /** Drops the oldest key; `saturating_sub` on the counter. */
  function PopOldest(s: State): State
    requires s.order != []
  {
    var oldest := s.order[0];
    var bytes := if oldest !in s.values then s.bytes
                 else if |s.values[oldest]| <= s.bytes then s.bytes - |s.values[oldest]| else 0;
    State(s.maxBytes, bytes, s.values - {oldest}, s.order[1..])
  }

  function Evict(s: State, len: nat): State
    decreases |s.order|
  {
    if s.bytes + len <= s.maxBytes || s.order == [] then s else Evict(PopOldest(s), len)
  }

  /** The state after a decrypted chunk is stored. */
  function Insert(s: State, k: CacheKey, v: Bytes): State {
    if s.maxBytes == 0 || |v| > s.maxBytes then s
    else
      var e := Evict(s, |v|);
      State(s.maxBytes, e.bytes + |v|, e.values[k := v], e.order + [k])
  }

  class ChunkCache {
    const maxBytes: nat
    var bytes: nat
    var values: map<CacheKey, Bytes>
    var order: seq<CacheKey>

    ghost function Abs(): State
      reads this
    {
      State(maxBytes, bytes, values, order)
    }

    constructor (maxBytes: nat)
      ensures Abs() == Empty(maxBytes)
    {
      this.maxBytes := maxBytes;
      bytes, values, order := 0, map[], [];
    }

    /** The first locked section of `load_chunk`. */
    method Lookup(k: CacheKey) returns (hit: Option<Bytes>)
      modifies this
      ensures Abs() == Touch(old(Abs()), k)
      ensures hit == if k in old(values) then Some(old(values)[k]) else None
    {
      if k !in values {
        return None;
      }
      var position := FindFirst(k);
      if position < |order| {
        order := order[..position] + order[position + 1..];
      }
      order := order + [k];
      hit := Some(values[k]);
    }

    method FindFirst(k: CacheKey) returns (position: nat)
      ensures position <= |order|
      ensures WithoutFirst(order, k) == if position < |order| then order[..position] + order[position + 1..] else order
    {
      position := 0;
      while position < |order| && order[position] != k
        invariant position <= |order|
        invariant WithoutFirst(order, k) == order[..position] + WithoutFirst(order[position..], k)
      {
        assert order[position..][1..] == order[position + 1..];
        position := position + 1;
      }
      assert position < |order| ==> order[position..][1..] == order[position + 1..];
    }

    /** The second locked section of `load_chunk`. */
    method Store(k: CacheKey, v: Bytes)
      modifies this
      ensures Abs() == Insert(old(Abs()), k, v)
    {
      if maxBytes == 0 || |v| > maxBytes {
        return;
      }
      while bytes + |v| > maxBytes && order != []
        invariant Evict(Abs(), |v|) == Evict(old(Abs()), |v|)
        decreases |order|
      {
        var oldest := order[0];
        order := order[1..];
        if oldest in values {
          bytes := if |values[oldest]| <= bytes then bytes - |values[oldest]| else 0;
          values := values - {oldest};
        } else {
          assert values - {oldest} == values;
        }
      }
      bytes := bytes + |v|;
      order := order + [k];
      values := values[k := v];
    }
  }

  // ---------- Held bytes and the over-count ----------

  /** Total length of the chunks actually held. */
  ghost function Held(m: map<CacheKey, Bytes>): nat
    decreases |m|
  {
    if m == map[] then 0 else
      var k :| k in m;
      assert m.Keys - {k} < m.Keys;
      |m[k]| + Held(m - {k})
  }

  lemma {:induction false} HeldRemove(m: map<CacheKey, Bytes>, k: CacheKey)
    requires k in m
    ensures Held(m) == |m[k]| + Held(m - {k})
    decreases |m|
  {
    var p :| p in m && Held(m) == |m[p]| + Held(m - {p});
    if p != k {
      HeldRemove(m - {p}, k);
      HeldRemove(m - {k}, p);
      assert m - {p} - {k} == m - {k} - {p};
    }
  }

  lemma HeldStore(m: map<CacheKey, Bytes>, k: CacheKey, v: Bytes)
    ensures Held(m[k := v]) == |v| + Held(m) - (if k in m then |m[k]| else 0)
  {
    HeldRemove(m[k := v], k);
    assert m[k := v] - {k} == m - {k};
    if k in m {
      HeldRemove(m, k);
    } else {
      assert m - {k} == m;
    }
  }

  /** How far the counter runs ahead of the held bytes. */
  ghost function Drift(s: State): int {
    s.bytes - Held(s.values)
  }

  /** What every interleaving keeps. */
  ghost predicate Bounded(s: State) {
    && (forall k :: k in s.values ==> k in s.order)
    && Held(s.values) <= s.maxBytes
    && 0 <= Drift(s) <= s.maxBytes
  }

  lemma PopKeepsDrift(s: State)
    requires s.order != [] && 0 <= Drift(s)
    ensures Drift(PopOldest(s)) == Drift(s)
    ensures Held(PopOldest(s).values) <= Held(s.values)
  {
    var k := s.order[0];
    if k in s.values {
      HeldRemove(s.values, k);
    } else {
      assert s.values - {k} == s.values;
    }
  }

  /** Eviction drops oldest keys until the new chunk fits or nothing is left; it never changes the over-count. */
  lemma {:induction false} EvictBounded(s: State, len: nat)
    requires Bounded(s)
    ensures var e := Evict(s, len);
      && Bounded(e) && Drift(e) == Drift(s) && e.maxBytes == s.maxBytes
      && (e.bytes + len <= s.maxBytes || (e.order == [] && e.values == map[]))
    decreases |s.order|
  {
    if s.bytes + len <= s.maxBytes {
    } else if s.order == [] {
      assert s.values == map[];
    } else {
      PopKeepsDrift(s);
      var p := PopOldest(s);
      forall k | k in p.values ensures k in p.order {
        assert k in s.order && k != s.order[0];
      }
      EvictBounded(p, len);
    }
  }

  lemma {:induction false} WithoutFirstElements(order: seq<CacheKey>, k: CacheKey)
    ensures forall x :: x != k ==> (x in order <==> x in WithoutFirst(order, k))
  {
    if order != [] && order[0] != k {
      WithoutFirstElements(order[1..], k);
      assert forall x :: x in order <==> x == order[0] || x in order[1..];
    } else if order != [] {
      assert forall x :: x in order <==> x == order[0] || x in order[1..];
    }
  }

  lemma TouchBounded(s: State, k: CacheKey)
    requires Bounded(s)
    ensures Bounded(Touch(s, k)) && Drift(Touch(s, k)) == Drift(s) && Touch(s, k).values == s.values
  {
    WithoutFirstElements(s.order, k);
  }

  /**
   Storing keeps the bounds whatever was stored since the lookup missed.  The over-count grows exactly by the
   chunk that is overwritten, so the counter stays exact unless a key is stored while it is still held.
   */
  lemma InsertBounded(s: State, k: CacheKey, v: Bytes)
    requires Bounded(s)
    ensures Bounded(Insert(s, k, v))
    ensures Drift(Insert(s, k, v)) == Drift(s) +
            (if s.maxBytes == 0 || |v| > s.maxBytes || k !in Evict(s, |v|).values then 0 else |Evict(s, |v|).values[k]|)
  {
    if s.maxBytes != 0 && |v| <= s.maxBytes {
      EvictBounded(s, |v|);
      HeldStore(Evict(s, |v|).values, k, v);
    }
  }

  // ---------- Threads ----------

  /** `pending` holds the threads that missed and are decrypting without the lock. */
  datatype System = System(cache: State, pending: map<nat, CacheKey>)

  datatype Step = LookUp(thread: nat, key: CacheKey) | Finish(thread: nat) | Fail(thread: nat)

  predicate Enabled(s: System, a: Step) {
    if a.LookUp? then a.thread !in s.pending else a.thread in s.pending
  }

  function Do(s: System, a: Step, content: CacheKey -> Bytes): System
    requires Enabled(s, a)
  {
    match a
    case LookUp(t, k) =>
      if k in s.cache.values then s.(cache := Touch(s.cache, k)) else s.(pending := s.pending[t := k])
    case Finish(t) => System(Insert(s.cache, s.pending[t], content(s.pending[t])), s.pending - {t})
    case Fail(t) => s.(pending := s.pending - {t})
  }

  /** The state after an interleaving of steps, or None if it takes a step that is not enabled. */
  function After(s: System, steps: seq<Step>, content: CacheKey -> Bytes): Option<System>
    decreases |steps|
  {
    if steps == [] then Some(s)
    else if Enabled(s, steps[0]) then After(Do(s, steps[0], content), steps[1..], content)
    else None
  }

  /** Every held chunk is the content of its key. */
  ghost predicate Coherent(s: State, content: CacheKey -> Bytes) {
    forall k :: k in s.values ==> s.values[k] == content(k)
  }

  lemma {:induction false} EvictCoherent(s: State, len: nat, content: CacheKey -> Bytes)
    requires Coherent(s, content)
    ensures Coherent(Evict(s, len), content)
    decreases |s.order|
  {
    if s.bytes + len <= s.maxBytes || s.order == [] {
    } else {
      EvictCoherent(PopOldest(s), len, content);
    }
  }

  lemma InsertCoherent(s: State, k: CacheKey, content: CacheKey -> Bytes)
    requires Coherent(s, content)
    ensures Coherent(Insert(s, k, content(k)), content)
  {
    EvictCoherent(s, |content(k)|, content);
  }

  ghost predicate Safe(s: State, content: CacheKey -> Bytes) {
    Bounded(s) && Coherent(s, content)
  }

  lemma StepSafe(s: System, a: Step, content: CacheKey -> Bytes)
    requires Safe(s.cache, content) && Enabled(s, a)
    ensures Safe(Do(s, a, content).cache, content) && Do(s, a, content).cache.maxBytes == s.cache.maxBytes
    ensures Drift(s.cache) <= Drift(Do(s, a, content).cache)
  {
    match a {
      case LookUp(_, k) => TouchBounded(s.cache, k);
      case Finish(t) =>
        InsertBounded(s.cache, s.pending[t], content(s.pending[t]));
        InsertCoherent(s.cache, s.pending[t], content);
      case Fail(_) =>
    }
  }

  lemma {:induction false} RunSafe(s: System, steps: seq<Step>, content: CacheKey -> Bytes)
    requires Safe(s.cache, content) && After(s, steps, content).Some?
    ensures var t := After(s, steps, content).value.cache;
      Safe(t, content) && t.maxBytes == s.cache.maxBytes && Drift(s.cache) <= Drift(t)
    decreases |steps|
  {
    if steps != [] {
      StepSafe(s, steps[0], content);
      RunSafe(Do(s, steps[0], content), steps[1..], content);
    }
  }

  /**
   In every concurrent run, racing misses included: the held bytes and the over-count each stay within
   `maxBytes`, every held key is in `order`, and the counter never runs below the held bytes.
   */
  lemma ConcurrentBounds(maxBytes: nat, steps: seq<Step>, content: CacheKey -> Bytes)
    requires After(System(Empty(maxBytes), map[]), steps, content).Some?
    ensures var t := After(System(Empty(maxBytes), map[]), steps, content).value.cache;
      && (forall k :: k in t.values ==> k in t.order && t.values[k] == content(k))
      && Held(t.values) <= maxBytes
      && Held(t.values) <= t.bytes <= Held(t.values) + maxBytes <= 2 * maxBytes
  {
    RunSafe(System(Empty(maxBytes), map[]), steps, content);
  }

  /** The step stores a non-empty chunk whose key is still held once room was made for it. */
  predicate Overwrites(s: System, a: Step, content: CacheKey -> Bytes)
    requires Enabled(s, a)
  {
    a.Finish? && var k := s.pending[a.thread];
      0 < |content(k)| <= s.cache.maxBytes && k in Evict(s.cache, |content(k)|).values
  }

  predicate EverOverwrites(s: System, steps: seq<Step>, content: CacheKey -> Bytes)
    requires After(s, steps, content).Some?
    decreases |steps|
  {
    steps != [] && (Overwrites(s, steps[0], content) || EverOverwrites(Do(s, steps[0], content), steps[1..], content))
  }

  /** The over-count grows in exactly the steps that overwrite. */
  lemma StepDrift(s: System, a: Step, content: CacheKey -> Bytes)
    requires Safe(s.cache, content) && Enabled(s, a)
    ensures Drift(Do(s, a, content).cache) == Drift(s.cache) <==> !Overwrites(s, a, content)
  {
    match a {
      case LookUp(_, k) => TouchBounded(s.cache, k);
      case Finish(t) =>
        InsertBounded(s.cache, s.pending[t], content(s.pending[t]));
        EvictCoherent(s.cache, |content(s.pending[t])|, content);
      case Fail(_) =>
    }
  }

  lemma {:induction false} RunDrift(s: System, steps: seq<Step>, content: CacheKey -> Bytes)
    requires Safe(s.cache, content) && After(s, steps, content).Some?
    ensures Drift(After(s, steps, content).value.cache) == Drift(s.cache) <==> !EverOverwrites(s, steps, content)
    decreases |steps|
  {
    if steps != [] {
      StepSafe(s, steps[0], content);
      StepDrift(s, steps[0], content);
      RunSafe(Do(s, steps[0], content), steps[1..], content);
      RunDrift(Do(s, steps[0], content), steps[1..], content);
    }
  }

  /** After a concurrent run the counter is exact if and only if no store of the run overwrote a held chunk. */
  lemma ExactUnlessOverwritten(maxBytes: nat, steps: seq<Step>, content: CacheKey -> Bytes)
    requires After(System(Empty(maxBytes), map[]), steps, content).Some?
    ensures var t := After(System(Empty(maxBytes), map[]), steps, content).value.cache;
      t.bytes == Held(t.values) <==> !EverOverwrites(System(Empty(maxBytes), map[]), steps, content)
  {
    RunDrift(System(Empty(maxBytes), map[]), steps, content);
  }

  /** Two threads that miss one key both store it: the counter then counts the chunk twice. */
  lemma RacingMissesOverCount(k: CacheKey, content: CacheKey -> Bytes, maxBytes: nat) returns (s: System)
    requires 0 < |content(k)| && 2 * |content(k)| <= maxBytes
    ensures After(System(Empty(maxBytes), map[]), [LookUp(0, k), LookUp(1, k), Finish(0), Finish(1)], content) == Some(s)
    ensures s.cache.bytes == 2 * |content(k)| && Held(s.cache.values) == |content(k)| && s.cache.order == [k, k]
  {
    var s0 := System(Empty(maxBytes), map[]);
    var s1 := Do(s0, LookUp(0, k), content);
    var s2 := Do(s1, LookUp(1, k), content);
    var s3 := Do(s2, Finish(0), content);
    s := Do(s3, Finish(1), content);
    assert After(s3, [Finish(1)], content) == After(s, [], content);
    assert After(s2, [Finish(0), Finish(1)], content) == After(s3, [Finish(1)], content);
    assert After(s1, [LookUp(1, k), Finish(0), Finish(1)], content) == After(s2, [Finish(0), Finish(1)], content);
    HeldStore(map[], k, content(k));
    assert s.cache.values == map[][k := content(k)];
  }

  // ---------- One thread: plain LRU ----------

  /** A lookup followed at once by the store of a miss. */
  function Load(s: State, k: CacheKey, v: Bytes): State {
    if k in s.values then Touch(s, k) else Insert(s, k, v)
  }

  type Lru = seq<(CacheKey, Bytes)>

  function Size(list: Lru): nat {
    if list == [] then 0 else |list[0].1| + Size(list[1..])
  }

  function Keys(list: Lru): seq<CacheKey> {
    seq(|list|, i requires 0 <= i < |list| => list[i].0)
  }

  /** The longest suffix that fits into `room`. */
  function KeepRecent(list: Lru, room: nat): Lru {
    if Size(list) <= room then list else KeepRecent(list[1..], room)
  }

  predicate Holds(list: Lru, k: CacheKey) {
    exists i :: 0 <= i < |list| && list[i].0 == k
  }

  function MoveToBack(list: Lru, k: CacheKey): Lru
    requires Holds(list, k)
  {
    if list[0].0 == k then list[1..] + [list[0]] else [list[0]] + MoveToBack(Tail(list, k), k)
  }

  function Tail(list: Lru, k: CacheKey): (r: Lru)
    requires Holds(list, k) && list[0].0 != k
    ensures r == list[1..] && Holds(r, k)
  {
    var i :| 0 <= i < |list| && list[i].0 == k;
    assert list[1..][i - 1].0 == k;
    list[1..]
  }

  /** Reference behaviour: most recently used chunk last, least recently used dropped first. */
  function LruLoad(list: Lru, maxBytes: nat, k: CacheKey, v: Bytes): Lru {
    if Holds(list, k) then MoveToBack(list, k)
    else if maxBytes == 0 || |v| > maxBytes then list
    else KeepRecent(list, maxBytes - |v|) + [(k, v)]
  }

  ghost predicate DistinctKeys(list: Lru) {
    forall i, j :: 0 <= i < j < |list| ==> list[i].0 != list[j].0
  }

  ghost predicate SameValues(values: map<CacheKey, Bytes>, list: Lru) {
    && (forall i :: 0 <= i < |list| ==> list[i].0 in values && values[list[i].0] == list[i].1)
    && (forall k :: k in values ==> Holds(list, k))
  }

  /** The cache holds exactly the chunks of the list, in its order, and counts them exactly. */
  ghost predicate Refines(s: State, list: Lru) {
    DistinctKeys(list) && s.order == Keys(list) && s.bytes == Size(list) && SameValues(s.values, list)
  }

  lemma {:induction false} SizeAppend(a: Lru, b: Lru)
    ensures Size(a + b) == Size(a) + Size(b)
  {
    if a == [] {
      assert a + b == b;
    } else {
      assert (a + b)[1..] == a[1..] + b;
      SizeAppend(a[1..], b);
    }
  }

  lemma PopRefines(s: State, list: Lru)
    requires Refines(s, list) && list != []
    ensures Refines(PopOldest(s), list[1..])
  {
    var p := PopOldest(s);
    assert s.order[0] == list[0].0;
    assert p.order == Keys(list[1..]);
    forall k | k in p.values ensures Holds(list[1..], k) {
      var i :| 0 <= i < |list| && list[i].0 == k;
      assert list[1..][i - 1].0 == k;
    }
  }

  lemma {:induction false} EvictRefines(s: State, list: Lru, len: nat)
    requires Refines(s, list) && len <= s.maxBytes
    ensures Refines(Evict(s, len), KeepRecent(list, s.maxBytes - len))
    decreases |list|
  {
    var room := s.maxBytes - len;
    if s.bytes > room {
      assert list != [] && s.order != [] by { assert Size(list) == s.bytes; }
      PopRefines(s, list);
      EvictRefines(PopOldest(s), list[1..], len);
      assert KeepRecent(list, room) == KeepRecent(list[1..], room) && Evict(s, len) == Evict(PopOldest(s), len);
    }
  }

  lemma {:induction false} MoveToBackElements(list: Lru, k: CacheKey)
    requires Holds(list, k)
    ensures multiset(MoveToBack(list, k)) == multiset(list)
    ensures Size(MoveToBack(list, k)) == Size(list)
  {
    assert list == [list[0]] + list[1..];
    if list[0].0 == k {
      SizeAppend(list[1..], [list[0]]);
    } else {
      MoveToBackElements(Tail(list, k), k);
      SizeAppend([list[0]], MoveToBack(Tail(list, k), k));
    }
  }

  lemma {:induction false} MoveToBackKeys(list: Lru, k: CacheKey)
    requires Holds(list, k)
    ensures Keys(MoveToBack(list, k)) == WithoutFirst(Keys(list), k) + [k]
  {
    assert Keys(list)[0] == list[0].0 && Keys(list)[1..] == Keys(list[1..]);
    if list[0].0 == k {
      assert Keys(list[1..] + [list[0]]) == Keys(list[1..]) + [k];
    } else {
      var moved := MoveToBack(Tail(list, k), k);
      MoveToBackKeys(Tail(list, k), k);
      assert Keys([list[0]] + moved) == [list[0].0] + Keys(moved);
    }
  }

  lemma DistinctTail(list: Lru)
    requires list != [] && DistinctKeys(list)
    ensures DistinctKeys(list[1..]) && !Holds(list[1..], list[0].0)
  {
  }

  lemma DistinctAround(x: (CacheKey, Bytes), list: Lru)
    requires DistinctKeys(list) && !Holds(list, x.0)
    ensures DistinctKeys([x] + list) && DistinctKeys(list + [x])
  {
  }

  lemma SameKeys(s: Lru, t: Lru, k: CacheKey)
    requires multiset(s) == multiset(t) && Holds(s, k)
    ensures Holds(t, k)
  {
    var i :| 0 <= i < |s| && s[i].0 == k;
    assert s[i] in multiset(t);
    var j :| 0 <= j < |t| && t[j] == s[i];
  }

  lemma {:induction false} MoveToBackDistinct(list: Lru, k: CacheKey)
    requires Holds(list, k) && DistinctKeys(list)
    ensures DistinctKeys(MoveToBack(list, k))
  {
    DistinctTail(list);
    if list[0].0 == k {
      DistinctAround(list[0], list[1..]);
    } else {
      var moved := MoveToBack(Tail(list, k), k);
      MoveToBackDistinct(Tail(list, k), k);
      MoveToBackElements(Tail(list, k), k);
      if Holds(moved, list[0].0) {
        SameKeys(moved, list[1..], list[0].0);
      }
      DistinctAround(list[0], moved);
    }
  }

  lemma TouchRefines(s: State, list: Lru, k: CacheKey)
    requires Refines(s, list) && Holds(list, k)
    ensures Refines(Touch(s, k), MoveToBack(list, k))
  {
    var moved := MoveToBack(list, k);
    MoveToBackElements(list, k);
    MoveToBackKeys(list, k);
    MoveToBackDistinct(list, k);
    forall i | 0 <= i < |moved| ensures moved[i].0 in s.values && s.values[moved[i].0] == moved[i].1 {
      assert moved[i] in multiset(list);
      assert moved[i] in list;
    }
    forall x | x in s.values ensures Holds(moved, x) {
      var i :| 0 <= i < |list| && list[i].0 == x;
      assert list[i] in multiset(moved);
      assert list[i] in moved;
    }
  }

  /** A new key goes to the back of any list that does not hold it. */
  lemma AppendRefines(e: State, kept: Lru, k: CacheKey, v: Bytes)
    requires Refines(e, kept) && !Holds(kept, k)
    ensures Refines(State(e.maxBytes, e.bytes + |v|, e.values[k := v], e.order + [k]), kept + [(k, v)])
  {
    var result := kept + [(k, v)];
    var values := e.values[k := v];
    SizeAppend(kept, [(k, v)]);
    assert Keys(result) == Keys(kept) + [k];
    assert result[|kept|].0 == k;
    DistinctAround((k, v), kept);
    forall x | x in values ensures Holds(result, x) {
      if x != k {
        var i :| 0 <= i < |kept| && kept[i].0 == x;
        assert result[i].0 == x;
      }
    }
  }

  lemma KeepRecentHolds(list: Lru, room: nat, k: CacheKey)
    requires !Holds(list, k)
    ensures !Holds(KeepRecent(list, room), k)
  {
    var kept := KeepRecent(list, room);
    KeepRecentIsSuffix(list, room);
    forall i | 0 <= i < |kept| ensures kept[i].0 != k {
      assert list[|list| - |kept| + i].0 == kept[i].0;
    }
  }

  lemma StoreRefines(s: State, list: Lru, k: CacheKey, v: Bytes)
    requires Refines(s, list) && !Holds(list, k) && |v| <= s.maxBytes && s.maxBytes > 0
    ensures Refines(Insert(s, k, v), KeepRecent(list, s.maxBytes - |v|) + [(k, v)])
  {
    EvictRefines(s, list, |v|);
    KeepRecentHolds(list, s.maxBytes - |v|, k);
    EvictMax(s, |v|);
    AppendRefines(Evict(s, |v|), KeepRecent(list, s.maxBytes - |v|), k, v);
  }

  lemma {:induction false} EvictMax(s: State, len: nat)
    ensures Evict(s, len).maxBytes == s.maxBytes
    decreases |s.order|
  {
    if s.bytes + len > s.maxBytes && s.order != [] { EvictMax(PopOldest(s), len); }
  }

  /** What is kept is the longest run of recently used chunks that leaves room for the new one. */
  lemma {:induction false} KeepRecentIsSuffix(list: Lru, room: nat)
    ensures |KeepRecent(list, room)| <= |list| && KeepRecent(list, room) == list[|list| - |KeepRecent(list, room)|..]
    ensures Size(KeepRecent(list, room)) <= room
    ensures |KeepRecent(list, room)| < |list| ==> Size(list[|list| - |KeepRecent(list, room)| - 1..]) > room
  {
    if Size(list) > room {
      var kept := KeepRecent(list[1..], room);
      KeepRecentIsSuffix(list[1..], room);
      assert list[1..][|list| - 1 - |kept|..] == list[|list| - |kept|..];
      if |kept| < |list| - 1 {
        assert list[1..][|list| - 1 - |kept| - 1..] == list[|list| - |kept| - 1..];
      } else {
        assert list[0..] == list;
      }
    }
  }

  /** Used by one thread the cache is a plain LRU list with an exact byte count. */
  lemma LoadRefinesLru(s: State, list: Lru, k: CacheKey, v: Bytes)
    requires Refines(s, list)
    ensures Refines(Load(s, k, v), LruLoad(list, s.maxBytes, k, v))
    ensures k in s.values <==> Holds(list, k)
  {
    if Holds(list, k) {
      var i :| 0 <= i < |list| && list[i].0 == k;
      TouchRefines(s, list, k);
    } else if s.maxBytes > 0 && |v| <= s.maxBytes {
      StoreRefines(s, list, k, v);
    }
  }

  // ---------- Whole runs of one thread ----------

  /** One request after the other; `None` stands for a chunk that does not decrypt. */
  type Requests = seq<(CacheKey, Option<Bytes>)>

  function LoadAll(s: State, requests: Requests): State
    decreases |requests|
  {
    if requests == [] then s
    else
      var before, last := LoadAll(s, requests[..|requests| - 1]), requests[|requests| - 1];
      if last.1.Some? then Load(before, last.0, last.1.value) else Touch(before, last.0)
  }

  function LruAll(maxBytes: nat, requests: Requests): Lru
    decreases |requests|
  {
    if requests == [] then []
    else
      var before, last := LruAll(maxBytes, requests[..|requests| - 1]), requests[|requests| - 1];
      if last.1.Some? then LruLoad(before, maxBytes, last.0, last.1.value)
      else if Holds(before, last.0) then MoveToBack(before, last.0)
      else before
  }

  /** The listed chunks are the held ones, each counted once. */
  lemma {:induction false} HeldIsSize(values: map<CacheKey, Bytes>, list: Lru)
    requires DistinctKeys(list) && SameValues(values, list)
    ensures Held(values) == Size(list)
    decreases |list|
  {
    if list == [] {
      assert values == map[] by {
        forall k | true ensures k !in values {
          assert !Holds(list, k);
        }
      }
    } else {
      var k := list[0].0;
      HeldRemove(values, k);
      forall x | x in values - {k} ensures Holds(list[1..], x) {
        var i :| 0 <= i < |list| && list[i].0 == x;
        assert list[1..][i - 1].0 == x;
      }
      HeldIsSize(values - {k}, list[1..]);
    }
  }

  lemma LruLoadFits(list: Lru, maxBytes: nat, k: CacheKey, v: Bytes)
    requires Size(list) <= maxBytes
    ensures Size(LruLoad(list, maxBytes, k, v)) <= maxBytes
  {
    if Holds(list, k) {
      MoveToBackElements(list, k);
    } else if maxBytes > 0 && |v| <= maxBytes {
      KeepRecentIsSuffix(list, maxBytes - |v|);
      SizeAppend(KeepRecent(list, maxBytes - |v|), [(k, v)]);
    }
  }

  /** One more request. */
  lemma RequestRefines(s: State, list: Lru, k: CacheKey, v: Option<Bytes>)
    requires Refines(s, list) && Size(list) <= s.maxBytes
    ensures var now := if v.Some? then Load(s, k, v.value) else Touch(s, k);
      var after := if v.Some? then LruLoad(list, s.maxBytes, k, v.value) else if Holds(list, k) then MoveToBack(list, k) else list;
      Refines(now, after) && Size(after) <= s.maxBytes && now.maxBytes == s.maxBytes
  {
    var bytes := if v.Some? then v.value else [];
    LoadRefinesLru(s, list, k, bytes);
    LruLoadFits(list, s.maxBytes, k, bytes);
    EvictMax(s, |bytes|);
  }

  /**
   In every run of one thread from the empty cache the cache is the reference list, its counter is exactly the number of
   held bytes, and that stays within the limit.
   */
  lemma {:induction false} OneThreadIsLru(maxBytes: nat, requests: Requests)
    ensures Refines(LoadAll(Empty(maxBytes), requests), LruAll(maxBytes, requests))
    ensures var s := LoadAll(Empty(maxBytes), requests);
      s.maxBytes == maxBytes && Drift(s) == 0 && s.bytes == Size(LruAll(maxBytes, requests)) <= maxBytes
    decreases |requests|
  {
    if requests == [] {
      assert Refines(Empty(maxBytes), []);
    } else {
      var n := |requests| - 1;
      OneThreadIsLru(maxBytes, requests[..n]);
      RequestRefines(LoadAll(Empty(maxBytes), requests[..n]), LruAll(maxBytes, requests[..n]), requests[n].0, requests[n].1);
    }
    HeldIsSize(LoadAll(Empty(maxBytes), requests).values, LruAll(maxBytes, requests));
  }

  /** A load is what the locked steps of one thread do when no other thread comes between them. */
  lemma LoadIsTwoSteps(s: State, thread: nat, k: CacheKey, content: CacheKey -> Bytes)
    ensures var steps := if k in s.values then [LookUp(thread, k)] else [LookUp(thread, k), Finish(thread)];
      After(System(s, map[]), steps, content) == Some(System(Load(s, k, content(k)), map[]))
  {
    var start := System(s, map[]);
    var looked := Do(start, LookUp(thread, k), content);
    if k in s.values {
      var one: seq<Step> := [LookUp(thread, k)];
      assert one[1..] == [];
    } else {
      var both: seq<Step> := [LookUp(thread, k), Finish(thread)];
      var one: seq<Step> := [Finish(thread)];
      assert both[1..] == one && one[1..] == [];
      assert looked.pending - {thread} == map[];
      assert After(looked, one, content) == Some(Do(looked, Finish(thread), content));
    }
  }
}
