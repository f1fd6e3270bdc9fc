/** The read-only file system over an opened container: metadata, listing, lookup and range reads. */
module ReadFs {
  import opened Common
  import opened Sequences
  import opened Format
  import opened Layout
  import opened Index
  import opened IndexProperties
  import opened Container
  import opened PlatformIo
  import Cache
  import Verify

  // ---------- What a read has to return ----------

  /** Chunks a request touches, first and last; None when the range arithmetic fails. */
  function ChunkRange(size: u64, offset: u64, len: nat): Option<(nat, nat)>
    requires offset < size
  {
    var readLen := Min(len, size - offset);
    if offset + readLen == 0 then None
    else Some((ChunkOf(offset), ChunkOf(offset + readLen - 1)))
  }

  ghost predicate ChunksOpen(o: Opened, e: Entry, first: nat, limit: nat) {
    forall i: u64 {:trigger DecryptChunk(o, e, i)} :: first <= i < limit ==> DecryptChunk(o, e, i).Ok?
  }

  /** Byte p of the plaintext that consists of these chunks. */
  function PlainByte(chunk: nat -> Bytes, p: nat): Cell {
    var i := ChunkOf(p);
    if p - ChunkStart(i) < |chunk(i)| then chunk(i)[p - ChunkStart(i)] else Raw(0)
  }

  /** Bytes [from, to). */
  function PlainSlice(chunk: nat -> Bytes, from: nat, to: nat): (r: Bytes)
    ensures |r| == if from <= to then to - from else 0
  {
    if from <= to then seq(to - from, i requires 0 <= i < to - from => PlainByte(chunk, from + i)) else []
  }

  /** Plaintext bytes [from, to) of the file. */
  function Slice(o: Opened, e: Entry, from: nat, to: nat): (r: Bytes)
    ensures |r| == if from <= to then to - from else 0
  {
    PlainSlice(ChunkBytes(o, e), from, to)
  }

  /** The contract of `read`. */
  ghost predicate ReadSpec(o: Opened, id: u64, offset: u64, len: u32, r: Result<Bytes>) {
    if id !in o.index.entries then r == Err(NotFound)
    else
      var e := o.index.entries[id];
      if e.kind != File then r == Err(IsDirectory)
      else if offset >= e.size then r == Ok([])
      else if len == 0 && offset == 0 then r == Err(Overflow)
      else
        var range := ChunkRange(e.size, offset, len).value;
        && (r.Ok? <==> ChunksOpen(o, e, range.0, range.1 + 1))
        && (r.Ok? ==> r.value == Slice(o, e, offset, Min(offset + len, e.size)))
  }

  // ---------- Plaintext geometry ----------

  /** A chunk of the file, read back. */
  ghost predicate IsChunk(o: Opened, e: Entry, i: nat, chunk: Bytes) {
    i < e.chunkCount && DecryptChunk(o, e, i) == Ok(chunk) && ChunkStart(i) < e.size && |chunk| == PlainLen(e.size, i)
  }

  lemma SliceExtend(chunk: nat -> Bytes, offset: nat, from: nat, part: Bytes)
    requires offset <= from
    requires forall k :: 0 <= k < |part| ==> PlainByte(chunk, from + k) == part[k]
    ensures PlainSlice(chunk, offset, from) + part == PlainSlice(chunk, offset, from + |part|)
  {
  }

  lemma InOneChunk(i: nat, len: nat, p: nat)
    requires ChunkStart(i) <= p < ChunkStart(i) + len && len <= CHUNK_SIZE
    ensures ChunkOf(p) == i
  {
  }

  /** Extending a slice by what one chunk contributes. */
  lemma SliceStep(chunk: nat -> Bytes, offset: nat, from: nat, i: nat, skip: nat, take: nat)
    requires |chunk(i)| <= CHUNK_SIZE && offset <= from && from == ChunkStart(i) + skip && skip + take <= |chunk(i)|
    ensures PlainSlice(chunk, offset, from) + chunk(i)[skip..skip + take] == PlainSlice(chunk, offset, from + take)
  {
    var part := chunk(i)[skip..skip + take];
    forall k | 0 <= k < |part| ensures PlainByte(chunk, from + k) == part[k] {
      InOneChunk(i, |chunk(i)|, from + k);
      assert part[k] == chunk(i)[skip + k];
    }
    SliceExtend(chunk, offset, from, part);
  }

  // ---------- The file system ----------

  /** Every cached chunk is what decrypting it would give, for the one file with that file id. */
  ghost predicate CacheMatches(o: Opened, values: map<Cache.CacheKey, Bytes>) {
    forall k :: k in values ==>
      forall id {:trigger o.index.entries[id]} ::
        (id in o.index.entries && o.index.entries[id].kind == File && o.index.entries[id].fileId == k.fileId) ==>
          DecryptChunk(o, o.index.entries[id], k.chunkIndex) == Ok(values[k])
  }

  lemma EntryListed(o: Opened, entries: seq<Entry>, id: u64)
    requires OpenedFrom(o, entries) && id in o.index.entries
    ensures o.index.entries[id] in entries
  {
    AcceptedIsTree(o.header.entryCount, o.header.dataSize, entries);
  }

  /** A cache key names one file. */
  lemma KeyNamesOneFile(o: Opened, entries: seq<Entry>, d: Entry, e: Entry)
    requires OpenedFrom(o, entries) && d in entries && e in entries && d.kind == File && e.kind == File && d.fileId == e.fileId
    ensures d == e
  {
  }

  /** Where chunk `i` of a file starts to lie in a range. */
  function Skip(offset: nat, i: nat): nat {
    if offset >= ChunkStart(i) then offset - ChunkStart(i) else 0
  }

  /** The part of chunk `i` that continues the slice lies inside the chunk. */
  lemma PartInChunk(size: u64, offset: u64, end: u64, i: u64, len: nat, done: nat)
    requires offset <= end <= size && ChunkOf(offset) <= i && ChunkStart(i) < end
    requires len == PlainLen(size, i) && done == ReadUpTo(offset, end, i) - offset
    ensures len <= CHUNK_SIZE && Skip(offset, i) <= len && offset + done == ChunkStart(i) + Skip(offset, i) <= end
    ensures offset + done + Min(len - Skip(offset, i), end - offset - done) == ReadUpTo(offset, end, i + 1)
  {
    TakeBounds(size, offset, end, i);
  }

  /** The bytes of a loaded chunk that are appended to the output. */
  method CopyOut(ghost chunks: nat -> Bytes, size: u64, offset: u64, end: u64, i: u64, chunk: Bytes, done: Bytes)
    returns (r: Result<Bytes>)
    requires offset <= end <= size && ChunkOf(offset) <= i && ChunkStart(i) < end
    requires chunk == chunks(i) && |chunk| == PlainLen(size, i)
    requires done == PlainSlice(chunks, offset, ReadUpTo(offset, end, i))
    ensures r == Ok(PlainSlice(chunks, offset, ReadUpTo(offset, end, i + 1)))
  {
    PartInChunk(size, offset, end, i, |chunk|, |done|);
    var skip := Skip(offset, i);
    if skip > |chunk| {
      return Err(LengthMismatch);
    }
    var take := Min(|chunk| - skip, end - offset - |done|);
    SliceStep(chunks, offset, offset + |done|, i, skip, take);
    r := Ok(done + chunk[skip..skip + take]);
  }

  class ReadOnlyV2Fs {
    const container: Opened
    /** The open container file. */
    const file: DiskFile
    const cache: Cache.ChunkCache
    /** No other thread uses this file system. */
    const alone: bool
    ghost const entries: seq<Entry>

    ghost predicate Valid()
      reads this, cache, file
    {
      OpenedFrom(container, entries) && file.content == container.file && CacheMatches(container, cache.values) && Cache.Bounded(cache.Abs())
    }

    constructor (container: Opened, file: DiskFile, ghost entries: seq<Entry>, maxBytes: nat, alone: bool)
      requires OpenedFrom(container, entries) && file.content == container.file
      ensures Valid() && this.container == container && this.file == file && this.alone == alone && fresh(cache)
    {
      this.alone := alone;
      this.file := file;
      this.container := container;
      this.entries := entries;
      this.cache := new Cache.ChunkCache(maxBytes);
    }

    method Metadata(id: u64) returns (r: Result<Entry>)
      ensures r == if id in container.index.entries then Ok(container.index.entries[id]) else Err(NotFound)
    {
      r := if id in container.index.entries then Ok(container.index.entries[id]) else Err(NotFound);
    }

    /** Finds the one child of `parent` with that name. */
    method Lookup(parent: u64, name: string) returns (r: Result<Entry>)
      requires Valid()
      ensures r.Ok? ==> r.value.id in container.index.entries && container.index.entries[r.value.id] == r.value
                        && r.value.id != 1 && Place(r.value) == (parent, name)
      ensures r.Err? ==> r.error == NotFound
                         && forall id :: id in container.index.entries && id != 1 ==> Place(container.index.entries[id]) != (parent, name)
    {
      AcceptedIsTree(container.header.entryCount, container.header.dataSize, entries);
      ChildrenInverse(entries);
      var m, children := container.index.entries, container.index.children;
      if parent in children {
        var list := children[parent];
        for i := 0 to |list|
          invariant forall k :: 0 <= k < i ==> list[k] in m && m[list[k]].name != name
        {
          assert Listed(children, parent, list[i]);
          if m[list[i]].name == name {
            return Ok(m[list[i]]);
          }
        }
      }
      forall id | id in m && id != 1 ensures Place(m[id]) != (parent, name) {
        assert m[id].parentId == parent ==> Listed(children, parent, id);
      }
      r := Err(NotFound);
    }

    /** Any number of atomic steps of other threads on the shared cache. */
    method OtherThreads()
      requires Valid()
      modifies cache
      ensures Valid() && (alone ==> cache.Abs() == old(cache.Abs()))
    {
      if alone {
        return;
      }
      var rounds: int := *;
      while rounds > 0
        invariant Valid()
        decreases rounds
      {
        rounds := rounds - 1;
        var ids := container.index.entries.Keys;
        var id: u64, i: u64, storing: bool := *, *, *;
        if id in ids && container.index.entries[id].kind == File {
          var e := container.index.entries[id];
          EntryListed(container, entries, id);
          if storing {
            var chunk := DecryptChunk(container, e, i);
            if chunk.Ok? {
              StoreChunk(e, i, chunk.value);
            }
          } else {
            var hit := LookupChunk(e, i);
          }
        }
      }
    }

    method LookupChunk(e: Entry, i: u64) returns (hit: Option<Bytes>)
      requires Valid() && e in entries && e.kind == File
      modifies cache
      ensures Valid() && cache.Abs() == Cache.Touch(old(cache.Abs()), Cache.CacheKey(e.fileId, i))
      ensures hit.Some? <==> Cache.CacheKey(e.fileId, i) in old(cache.values)
      ensures hit.Some? ==> DecryptChunk(container, e, i) == Ok(hit.value)
    {
      AcceptedIsTree(container.header.entryCount, container.header.dataSize, entries);
      Cache.TouchBounded(cache.Abs(), Cache.CacheKey(e.fileId, i));
      hit := cache.Lookup(Cache.CacheKey(e.fileId, i));
      assert container.index.entries[e.id] == e;
    }

    method StoreChunk(e: Entry, i: u64, chunk: Bytes)
      requires Valid() && e in entries && e.kind == File && DecryptChunk(container, e, i) == Ok(chunk)
      modifies cache
      ensures Valid() && cache.Abs() == Cache.Insert(old(cache.Abs()), Cache.CacheKey(e.fileId, i), chunk)
    {
      AcceptedIsTree(container.header.entryCount, container.header.dataSize, entries);
      var key := Cache.CacheKey(e.fileId, i);
      Cache.InsertBounded(cache.Abs(), key, chunk);
      InsertMatches(container, entries, cache.Abs(), e, i, chunk);
      cache.Store(key, chunk);
    }

    /** Lookup, read and decrypt without the lock, store; other threads run in between. */
    method LoadChunk(e: Entry, i: u64) returns (r: Result<Bytes>)
      requires Valid() && e in entries && e.kind == File
      modifies cache
      ensures Valid()
      ensures r.Ok? ==> r == DecryptChunk(container, e, i)
      ensures r.Err? && DecryptChunk(container, e, i).Ok? ==> !file.quiet && r == Err(Io)
      ensures alone && r.Ok? ==> cache.Abs() == Cache.Load(old(cache.Abs()), Cache.CacheKey(e.fileId, i), r.value)
      ensures alone && r.Err? ==> cache.Abs() == old(cache.Abs())
    {
      OtherThreads();
      var hit := LookupChunk(e, i);
      if hit.Some? {
        return Ok(hit.value);
      }
      OtherThreads();
      r := Verify.ReadChunk(file, container, e, i);
      if r.Ok? {
        OtherThreads();
        StoreChunk(e, i, r.value);
      }
    }

    /**
     Range read: the exact plaintext slice, or an error without any data.  Only a failing system read can keep it from
     what `ReadSpec` says.
     */
    method Read(id: u64, offset: u64, len: u32) returns (r: Result<Bytes>)
      requires Valid()
      modifies cache
      ensures Valid()
      ensures ReadSpec(container, id, offset, len, r) || (!file.quiet && r == Err(Io))
    {
      var meta := Metadata(id);
      if meta.Err? {
        return Err(meta.error);
      }
      var e := meta.value;
      EntryListed(container, entries, id);
      if e.kind != File {
        return Err(IsDirectory);
      }
      if offset >= e.size {
        return Ok([]);
      }
      ListedFits(container, entries, e);
      var readLen := Min(len, e.size - offset);
      if offset + readLen == 0 {
        return Err(Overflow);
      }
      r := ReadChunks(e, offset, offset + readLen);
    }

    /** One turn of the loop: the part of chunk `i` that lies in the requested range, after `done`. */
    method ReadChunk(e: Entry, offset: u64, end: u64, i: u64, done: Bytes) returns (r: Result<Bytes>)
      requires Valid() && e in entries && FitsFile(container, e) && offset < e.size && offset <= end <= e.size && end > 0
      requires ChunkOf(offset) <= i <= ChunkOf(end - 1) && ReadBefore(container, e, offset, end, i, done)
      modifies cache
      ensures Valid()
      ensures r.Ok? ==> ReadBefore(container, e, offset, end, i + 1, r.value)
      ensures r.Err? && ChunksOpen(container, e, ChunkOf(offset), ChunkOf(end - 1) + 1) ==> !file.quiet && r == Err(Io)
    {
      ChunkInFile(e, i, end);
      ChunksOpenStep(container, e, ChunkOf(offset), i, ChunkOf(end - 1) + 1);
      var chunk := LoadChunk(e, i);
      if chunk.Err? {
        return Err(chunk.error);
      }
      ChunkRead(container, e, i, chunk.value);
      r := CopyOut(ChunkBytes(container, e), e.size, offset, end, i, chunk.value, done);
    }

    /** The loop of `read` over the chunks of a range. */
    method ReadChunks(e: Entry, offset: u64, end: u64) returns (r: Result<Bytes>)
      requires Valid() && e in entries && FitsFile(container, e) && offset <= end <= e.size && offset < e.size && end > 0
      modifies cache
      ensures Valid()
      ensures r.Ok? ==> ChunksOpen(container, e, ChunkOf(offset), ChunkOf(end - 1) + 1)
      ensures r.Err? && ChunksOpen(container, e, ChunkOf(offset), ChunkOf(end - 1) + 1) ==> !file.quiet && r == Err(Io)
      ensures r.Ok? ==> r.value == Slice(container, e, offset, end)
    {
      var first, last := ChunkOf(offset), ChunkOf(end - 1);
      var output: Bytes := [];
      RangeStart(container, e, offset, end);
      var i := first;
      while i <= last
        invariant first <= i && (i <= last + 1 || i == first)
        invariant Valid() && ReadBefore(container, e, offset, end, i, output)
        decreases last + 1 - i
      {
        var next := ReadChunk(e, offset, end, i, output);
        if next.Err? {
          return Err(next.error);
        }
        output := next.value;
        i := i + 1;
      }
      RangeEnd(container, e, offset, end, i, output);
      if |output| != end - offset {
        return Err(LengthMismatch);
      }
      r := Ok(output);
    }
  }

  /** The chunks of a range before chunk `i` open, and `done` is the plaintext up to there. */
  ghost predicate ReadBefore(o: Opened, e: Entry, offset: nat, end: nat, i: nat, done: Bytes)
    requires offset <= end
  {
    ChunksOpen(o, e, ChunkOf(offset), i) && done == Slice(o, e, offset, ReadUpTo(offset, end, i))
  }

  lemma RangeStart(o: Opened, e: Entry, offset: nat, end: nat)
    requires offset <= end
    ensures ReadBefore(o, e, offset, end, ChunkOf(offset), [])
  {
  }

  lemma RangeEnd(o: Opened, e: Entry, offset: nat, end: nat, i: nat, done: Bytes)
    requires offset <= end && 0 < end && ReadBefore(o, e, offset, end, i, done)
    requires ChunkOf(offset) <= i && ChunkOf(end - 1) < i && (i <= ChunkOf(end - 1) + 1 || i == ChunkOf(offset))
    ensures done == Slice(o, e, offset, end) && ChunksOpen(o, e, ChunkOf(offset), ChunkOf(end - 1) + 1)
    ensures |done| == end - offset
  {
    ReadToEnd(offset, end, i);
  }

  /** The part of chunk `i` that lies in the range starts where reading stopped and never leaves the chunk. */
  lemma TakeBounds(size: nat, offset: nat, end: nat, i: nat)
    requires offset <= end <= size && ChunkOf(offset) <= i && ChunkStart(i) < end
    ensures var from, len, skip := ReadUpTo(offset, end, i), PlainLen(size, i), Skip(offset, i);
      && offset <= from <= end && skip <= len && from == ChunkStart(i) + skip
      && from + Min(len - skip, end - from) == ReadUpTo(offset, end, i + 1)
  {
  }

  lemma ChunksOpenStep(o: Opened, e: Entry, first: nat, i: nat, limit: nat)
    requires ChunksOpen(o, e, first, i) && first <= i < limit && i < U64_LIMIT
    ensures DecryptChunk(o, e, i).Ok? <==> ChunksOpen(o, e, first, i + 1)
    ensures DecryptChunk(o, e, i).Err? ==> !ChunksOpen(o, e, first, limit)
  {
  }

  lemma ReadToEnd(offset: nat, end: nat, i: nat)
    requires offset <= end && 0 < end && ChunkOf(offset) <= i && ChunkOf(end - 1) < i
    ensures ReadUpTo(offset, end, i) == end
  {
    assert end - 1 < ChunkStart(i);
  }

  /** How far the plaintext of the range [offset, end) is read before chunk `i`. */
  function ReadUpTo(offset: nat, end: nat, i: nat): nat
    requires offset <= end
  {
    if i <= ChunkOf(offset) then offset else Min(ChunkStart(i), end)
  }

  lemma ChunkInFile(e: Entry, i: nat, end: nat)
    requires SizedFile(e) && end <= e.size && 0 < end && i <= ChunkOf(end - 1)
    ensures i < e.chunkCount && ChunkStart(i) < end
  {
    EncryptedFileSizeExact(e.size);
    assert ChunkStart(i) < end;
  }

  lemma ChunkRead(o: Opened, e: Entry, i: u64, chunk: Bytes)
    requires FitsFile(o, e) && i < e.chunkCount && DecryptChunk(o, e, i) == Ok(chunk)
    ensures IsChunk(o, e, i, chunk) && ChunkBytes(o, e)(i) == chunk
  {
    DecryptChunkIff(o, e, i, chunk);
  }

  lemma InsertMatches(o: Opened, entries: seq<Entry>, s: Cache.State, e: Entry, i: u64, chunk: Bytes)
    requires OpenedFrom(o, entries) && CacheMatches(o, s.values)
    requires e in entries && e.kind == File && DecryptChunk(o, e, i) == Ok(chunk)
    ensures CacheMatches(o, Cache.Insert(s, Cache.CacheKey(e.fileId, i), chunk).values)
  {
    EvictSubset(s, |chunk|);
    AcceptedIsTree(o.header.entryCount, o.header.dataSize, entries);
    forall id | id in o.index.entries && o.index.entries[id].kind == File && o.index.entries[id].fileId == e.fileId
      ensures DecryptChunk(o, o.index.entries[id], i) == Ok(chunk)
    {
      KeyNamesOneFile(o, entries, o.index.entries[id], e);
    }
  }

  lemma {:induction false} EvictSubset(s: Cache.State, len: nat)
    ensures forall k :: k in Cache.Evict(s, len).values ==> k in s.values && Cache.Evict(s, len).values[k] == s.values[k]
    decreases |s.order|
  {
    if s.bytes + len <= s.maxBytes || s.order == [] {
    } else {
      EvictSubset(Cache.PopOldest(s), len);
    }
  }
}
