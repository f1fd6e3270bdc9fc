/** What a reader must refuse: every opened container satisfies the rules of the format, spelled out with their limits. */
module FormatRules {
  import opened Common
  import opened Format
  import opened Layout
  import opened Index
  import opened IndexProperties
  import opened KeySlots
  import opened Container
  import Names

  predicate CostInLimits(p: Argon2Params) {
    8_192 <= p.mCost <= 1_048_576 && 1 <= p.tCost <= 10 && 1 <= p.pCost <= 16
  }

  /** Magic bytes, version, sizes, and the cost of every slot in use. */
  predicate HeaderRules(h: Header, fileLen: nat) {
    && h.magic == [0x43, 0x46, 0x53, 0x02] && h.version == 2 && h.headerSize == 4096 && h.chunkSize == 4_194_304
    && 16 <= h.indexSize <= 536_870_912 && h.entryCount <= 5_000_000
    && fileLen == 4096 + h.indexSize + h.dataSize < 0x1_0000_0000_0000_0000
    && (h.slot0.generation > 0 ==> CostInLimits(h.slot0.params))
    && (h.slot1.generation > 0 ==> CostInLimits(h.slot1.params))
    && (h.duress.enabled ==> CostInLimits(h.duress.params))
  }

  /** One entry by itself. */
  predicate EntryRules(e: Entry) {
    && e.id > 0 && e.depth <= 1024
    && (e.id == 1 ==> e.parentId == 1 && e.depth == 0 && e.kind == Directory && e.name == "")
    && (e.id != 1 ==> 0 < Names.Utf8Len(e.name) <= 255 && Names.Plain(Names.Split('/', e.name)[0]))
    && (e.kind == Directory ==> e.size == 0 && e.dataOffset == 0 && e.encryptedSize == 0 && e.chunkCount == 0 && e.fileId == ZERO_ID)
    && (e.kind == File ==>
          && e.fileId != ZERO_ID
          && e.chunkCount == (e.size + 4_194_303) / 4_194_304 && e.encryptedSize == e.size + 16 * e.chunkCount)
  }

  /** An entry and its directory. */
  predicate ParentRules(m: EntryMap, e: Entry) {
    e.id != 1 ==> e.parentId in m && m[e.parentId].kind == Directory && m[e.parentId].depth == e.depth - 1
  }

  /** Two entries: siblings have different names, files different ids and separate places in the data area. */
  predicate PairRules(d: Entry, e: Entry) {
    && (d.id != 1 && e.id != 1 && d.parentId == e.parentId ==> d.name != e.name)
    && (d.kind == File && e.kind == File ==>
          && d.fileId != e.fileId
          && (d.size > 0 && e.size > 0 ==>
                d.dataOffset + d.encryptedSize <= e.dataOffset || e.dataOffset + e.encryptedSize <= d.dataOffset))
  }

  predicate IndexRules(m: EntryMap, dataSize: u64) {
    && 1 in m && |m| <= 5_000_000
    && (forall id :: id in m ==> m[id].id == id && EntryRules(m[id]) && ParentRules(m, m[id]))
    && (forall id :: id in m && m[id].kind == File ==> m[id].dataOffset + m[id].encryptedSize <= dataSize)
    && (forall x, y :: x in m && y in m && x != y ==> PairRules(m[x], m[y]))
  }

  lemma RowFollows(e: Entry)
    requires RowOk(e)
    ensures EntryRules(e)
  {
    if e.id != 1 {
      Names.ValidNameIff(e.name);
      NameNotEmpty(e.name);
    }
    if e.kind == File {
      EncryptedFileSizeExact(e.size);
    }
  }

  lemma NameNotEmpty(name: string)
    requires name != ""
    ensures Names.Utf8Len(name) > 0
  {
  }

  lemma PairFollows(entryCount: u64, dataSize: u64, entries: seq<Entry>, d: Entry, e: Entry)
    requires Accepted(entryCount, dataSize, entries) && d in entries && e in entries && d.id != e.id
    ensures PairRules(d, e)
  {
    AcceptedIsTree(entryCount, dataSize, entries);
    var m := ById(entries);
    if d.id != 1 && e.id != 1 {
      assert Place(m[d.id]) != Place(m[e.id]);
    }
    if d.kind == File && e.kind == File {
      FileIdsDiffer(entries, d, e);
      if d.size > 0 && e.size > 0 {
        ApartInData(entryCount, dataSize, entries, d, e);
      }
    }
  }

  lemma FileIdsDiffer(entries: seq<Entry>, d: Entry, e: Entry)
    requires RowsOk(entries) && d in entries && e in entries && d.id != e.id && d.kind == File && e.kind == File
    ensures d.fileId != e.fileId
  {
    var i :| 0 <= i < |entries| && entries[i] == d;
    var j :| 0 <= j < |entries| && entries[j] == e;
  }

  lemma ApartInData(entryCount: u64, dataSize: u64, entries: seq<Entry>, d: Entry, e: Entry)
    requires Accepted(entryCount, dataSize, entries) && d in entries && e in entries && d.id != e.id
    requires d.kind == File && e.kind == File && d.encryptedSize > 0 && e.encryptedSize > 0
    ensures d.dataOffset + d.encryptedSize <= e.dataOffset || e.dataOffset + e.encryptedSize <= d.dataOffset
  {
    if d.dataOffset + d.encryptedSize > e.dataOffset && e.dataOffset + e.encryptedSize > d.dataOffset {
      ExtentsDisjoint(entryCount, dataSize, entries, d, e, if d.dataOffset < e.dataOffset then e.dataOffset else d.dataOffset);
    }
  }

  lemma AcceptedFollows(entryCount: u64, dataSize: u64, entries: seq<Entry>)
    requires Accepted(entryCount, dataSize, entries)
    ensures IndexRules(ById(entries), dataSize)
  {
    var m := ById(entries);
    AcceptedIsTree(entryCount, dataSize, entries);
    forall id | id in m ensures m[id].id == id && EntryRules(m[id]) && ParentRules(m, m[id]) {
      RowFollows(m[id]);
      if id != 1 { assert ParentOk(m, m[id]); }
    }
    forall id | id in m && m[id].kind == File ensures m[id].dataOffset + m[id].encryptedSize <= dataSize {
      ExtentInside(entryCount, dataSize, entries, m[id]);
    }
    forall x, y | x in m && y in m && x != y ensures PairRules(m[x], m[y]) {
      PairFollows(entryCount, dataSize, entries, m[x], m[y]);
    }
    MapSize(entries);
  }

  lemma {:induction false} MapSize(entries: seq<Entry>)
    ensures |ById(entries)| <= |entries|
  {
    if entries != [] {
      MapSize(entries[..|entries| - 1]);
      var rest, e := ById(entries[..|entries| - 1]), entries[|entries| - 1];
      assert rest[e.id := e].Keys == rest.Keys + {e.id};
      assert |rest[e.id := e].Keys| <= |rest.Keys| + 1;
    }
  }

  lemma HeaderFollows(file: Bytes, h: Header)
    requires ReadHeaderOf(file) == Ok(h)
    ensures HeaderRules(h, |file|)
  {
  }

  /** Whatever opens, under whatever password, obeys the rules of the format. */
  lemma OpenedObeysFormat(file: Bytes, password: string)
    requires OpenSpec(file, password).Ok?
    ensures var o := OpenSpec(file, password).value;
      && HeaderRules(o.header, |file|) && IndexRules(o.index.entries, o.header.dataSize)
      && |o.index.entries| <= o.header.entryCount
  {
    var entries := OpenEstablishes(file, password);
    var o := OpenSpec(file, password).value;
    HeaderFollows(file, o.header);
    AcceptedFollows(o.header.entryCount, o.header.dataSize, entries);
    MapSize(entries);
  }
}
