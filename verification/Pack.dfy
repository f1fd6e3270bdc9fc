/** Sealing a container: what each parallel write stores, and that their order does not matter. */
module Pack {
  import opened Common
  import opened Sequences
  import opened Format
  import opened Layout
  import opened Index
  import opened IndexProperties
  import opened Scan
  import opened Binding
  import opened PlatformIo

  // ---------- The plan: what has to be written where ----------

  datatype Plan = Plan(header: Header, dek: Bytes, entries: seq<Entry>, encodedLen: nat, contents: map<u64, Content>)

  function DataStart(p: Plan): nat {
    HEADER_SIZE + p.header.indexSize
  }

  function ContainerSize(p: Plan): nat {
    DataStart(p) + p.header.dataSize
  }

  ghost predicate PlanOk(p: Plan) {
    && Accepted(p.header.entryCount, p.header.dataSize, p.entries)
    && 0 < p.encodedLen && p.encodedLen + TAG_SIZE == p.header.indexSize
    && ContainerSize(p) < U64_LIMIT
    && (forall e :: e in p.entries && e.kind == File ==> e.id in p.contents && |p.contents[e.id]| == e.size)
  }

  /** Plaintext of chunk i of a file's content. */
  function PlainChunk(content: Content, i: nat): Bytes
    requires ChunkStart(i) <= |content|
  {
    Lift(content[ChunkStart(i)..ChunkStart(i) + PlainLen(|content|, i)])
  }

  /** The independent stores that together make the container. */
  datatype Job = HeaderJob | IndexJob | ChunkJob(entry: Entry, chunkIndex: u64)

  ghost predicate JobOk(p: Plan, j: Job) {
    j.ChunkJob? ==>
      && j.entry in p.entries && j.entry.kind == File && j.chunkIndex < j.entry.chunkCount
      && SizedFile(j.entry) && ChunkStart(j.chunkIndex) < j.entry.size
      && j.entry.id in p.contents && |p.contents[j.entry.id]| == j.entry.size
  }

  function JobStart(p: Plan, j: Job): nat {
    match j
    case HeaderJob => 0
    case IndexJob => HEADER_SIZE
    case ChunkJob(e, i) => RecordPosition(DataStart(p), e, i)
  }

  function SealedIndex(p: Plan): Bytes {
    Encrypt(IndexKey(p.dek, p.header.containerId), p.header.indexNonce, IndexAad(p.header), EncodeIndex(p.entries, p.encodedLen))
  }

  function SealedRecord(p: Plan, e: Entry, i: u64): Bytes
    requires e.id in p.contents && ChunkStart(i) < |p.contents[e.id]|
  {
    SealChunk(p.header, p.dek, e, i, PlainChunk(p.contents[e.id], i))
  }

  ghost function JobBytes(p: Plan, j: Job): Bytes
    requires JobOk(p, j)
  {
    match j
    case HeaderJob => EncodeHeader(p.header)
    case IndexJob => SealedIndex(p)
    case ChunkJob(e, i) => SealedRecord(p, e, i)
  }

  ghost predicate InJob(p: Plan, j: Job, pos: int) {
    JobOk(p, j) && JobStart(p, j) <= pos < JobStart(p, j) + |JobBytes(p, j)|
  }

  lemma ChunkJobSpan(p: Plan, e: Entry, i: u64, pos: int)
    requires JobOk(p, ChunkJob(e, i))
    ensures InJob(p, ChunkJob(e, i), pos) <==> Owns(DataStart(p), e, i, pos)
  {
  }

  lemma ListedJob(p: Plan, e: Entry, i: u64)
    requires PlanOk(p) && e in p.entries && e.kind == File && i < e.chunkCount
    ensures JobOk(p, ChunkJob(e, i))
  {
    PositionsFit(p.header.entryCount, p.header.dataSize, p.entries, DataStart(p), e, i);
  }

  /** Every byte of the container belongs to some job. */
  lemma JobsCover(p: Plan, pos: nat) returns (j: Job)
    requires PlanOk(p) && pos < ContainerSize(p)
    ensures InJob(p, j, pos)
  {
    if pos < HEADER_SIZE {
      j := HeaderJob;
    } else if pos < DataStart(p) {
      j := IndexJob;
    } else {
      var e, i := EveryByteOwned(p.header.entryCount, p.header.dataSize, p.entries, DataStart(p), pos);
      ListedJob(p, e, i);
      ChunkJobSpan(p, e, i, pos);
      j := ChunkJob(e, i);
    }
  }

  lemma ChunkJobInside(p: Plan, j: Job, pos: int)
    requires PlanOk(p) && j.ChunkJob? && InJob(p, j, pos)
    ensures DataStart(p) <= pos < ContainerSize(p)
  {
    ChunkJobSpan(p, j.entry, j.chunkIndex, pos);
    OwnerUnique(p.header.entryCount, p.header.dataSize, p.entries, DataStart(p), pos, j.entry, j.chunkIndex, j.entry, j.chunkIndex);
  }

  /** No byte belongs to two jobs. */
  lemma JobsDisjoint(p: Plan, j: Job, k: Job, pos: int)
    requires PlanOk(p) && InJob(p, j, pos) && InJob(p, k, pos)
    ensures j == k && pos < ContainerSize(p)
  {
    if j.ChunkJob? { ChunkJobInside(p, j, pos); }
    if k.ChunkJob? { ChunkJobInside(p, k, pos); }
    if j.ChunkJob? && k.ChunkJob? {
      ChunkJobSpan(p, j.entry, j.chunkIndex, pos);
      ChunkJobSpan(p, k.entry, k.chunkIndex, pos);
      OwnerUnique(p.header.entryCount, p.header.dataSize, p.entries, DataStart(p), pos, j.entry, j.chunkIndex, k.entry, k.chunkIndex);
    }
  }

  /** The container of a plan: each job's bytes at the job's place, and nothing else. */
  ghost predicate ImageOf(p: Plan, image: Bytes) {
    && |image| == ContainerSize(p)
    && (forall j, pos :: InJob(p, j, pos) && 0 <= pos < |image| ==> image[pos] == JobByte(p, j, pos))
  }

  ghost function JobByte(p: Plan, j: Job, pos: nat): Cell
    requires InJob(p, j, pos)
  {
    JobBytes(p, j)[pos - JobStart(p, j)]
  }

  ghost function OwnerOf(p: Plan, pos: nat): (j: Job)
    requires PlanOk(p) && pos < ContainerSize(p)
    ensures InJob(p, j, pos)
  {
    assert exists j :: InJob(p, j, pos) by { var j := JobsCover(p, pos); }
    var j :| InJob(p, j, pos);
    j
  }

  ghost function Image(p: Plan): Bytes
    requires PlanOk(p)
  {
    seq(ContainerSize(p), pos requires 0 <= pos < ContainerSize(p) => JobByte(p, OwnerOf(p, pos), pos))
  }

  lemma ImageIsImage(p: Plan)
    requires PlanOk(p)
    ensures ImageOf(p, Image(p))
  {
    forall j, pos | InJob(p, j, pos) && 0 <= pos < |Image(p)| ensures Image(p)[pos] == JobByte(p, j, pos) {
      JobsDisjoint(p, j, OwnerOf(p, pos), pos);
    }
  }

  /** The plan determines every byte of the container. */
  lemma ImageUnique(p: Plan, a: Bytes, b: Bytes)
    requires PlanOk(p) && ImageOf(p, a) && ImageOf(p, b)
    ensures a == b
  {
    forall pos | 0 <= pos < |a| ensures a[pos] == b[pos] {
      var j := OwnerOf(p, pos);
      assert InJob(p, j, pos);
    }
  }

  // ---------- Interleaved writes ----------

  /** One system write; large stores may be split into several. */
  datatype Write = Write(offset: nat, data: Bytes)

  predicate Covers(w: Write, pos: int) {
    w.offset <= pos < w.offset + |w.data|
  }

  function ApplyAll(image: Bytes, ws: seq<Write>): Bytes {
    if ws == [] then image
    else Splice(ApplyAll(image, ws[..|ws| - 1]), ws[|ws| - 1].offset, ws[|ws| - 1].data)
  }

  /** The write stores what `target` holds there. */
  ghost predicate Agrees(w: Write, target: Bytes) {
    forall pos :: Covers(w, pos) ==> pos < |target| && w.data[pos - w.offset] == target[pos]
  }

  lemma SpliceAgrees(content: Bytes, w: Write, target: Bytes)
    requires |content| == |target| && Agrees(w, target)
    ensures |Splice(content, w.offset, w.data)| == |target|
    ensures forall pos :: 0 <= pos < |target| ==>
              Splice(content, w.offset, w.data)[pos] == if Covers(w, pos) then target[pos] else content[pos]
  {
    if w.data != [] {
      assert Covers(w, w.offset + |w.data| - 1);
    }
  }

  ghost predicate Covered(ws: seq<Write>, pos: int) {
    exists k :: 0 <= k < |ws| && Covers(ws[k], pos)
  }

  /** Writes that all agree with one target leave it at every byte they cover, in whatever order they come. */
  lemma {:induction false} AgreeingWrites(image: Bytes, ws: seq<Write>, target: Bytes)
    requires |image| == |target| && forall k :: 0 <= k < |ws| ==> Agrees(ws[k], target)
    ensures |ApplyAll(image, ws)| == |target|
    ensures forall pos :: 0 <= pos < |target| ==>
              ApplyAll(image, ws)[pos] == if Covered(ws, pos) then target[pos] else image[pos]
  {
    if ws != [] {
      var n := |ws| - 1;
      var rest := ws[..n];
      AgreeingWrites(image, rest, target);
      SpliceAgrees(ApplyAll(image, rest), ws[n], target);
      forall pos | 0 <= pos < |target| ensures Covered(ws, pos) <==> Covered(rest, pos) || Covers(ws[n], pos) {
        if Covered(rest, pos) {
          var k :| 0 <= k < n && Covers(rest[k], pos);
          assert Covers(ws[k], pos);
        }
      }
    }
  }

  /** The write stores a piece of the job at the place of that piece. */
  ghost predicate PieceOf(p: Plan, j: Job, w: Write) {
    && JobOk(p, j)
    && JobStart(p, j) <= w.offset && w.offset + |w.data| <= JobStart(p, j) + |JobBytes(p, j)|
    && w.data == JobBytes(p, j)[w.offset - JobStart(p, j)..w.offset - JobStart(p, j) + |w.data|]
  }

  /** Any interleaving of pieces of jobs that covers every byte of every job. */
  ghost predicate Schedule(p: Plan, ws: seq<Write>, jobs: seq<Job>) {
    && |jobs| == |ws|
    && (forall k :: 0 <= k < |ws| ==> PieceOf(p, jobs[k], ws[k]))
    && (forall j, pos {:trigger InJob(p, j, pos)} :: InJob(p, j, pos) ==> Covered(ws, pos))
  }

  lemma PieceByte(p: Plan, j: Job, w: Write, pos: int)
    requires PlanOk(p) && PieceOf(p, j, w) && Covers(w, pos)
    ensures 0 <= pos < |Image(p)| && w.data[pos - w.offset] == Image(p)[pos]
  {
    assert InJob(p, j, pos);
    JobsDisjoint(p, j, j, pos);
    JobsDisjoint(p, j, OwnerOf(p, pos), pos);
    assert w.data[pos - w.offset] == JobBytes(p, j)[pos - JobStart(p, j)];
  }

  lemma PieceAgrees(p: Plan, j: Job, w: Write)
    requires PlanOk(p) && PieceOf(p, j, w)
    ensures Agrees(w, Image(p))
  {
    forall pos | Covers(w, pos) ensures pos < |Image(p)| && w.data[pos - w.offset] == Image(p)[pos] {
      PieceByte(p, j, w, pos);
    }
  }

  /** Whatever the interleaving of the parallel writes, the zero-filled file becomes the container of the plan. */
  lemma AnyScheduleWritesImage(p: Plan, ws: seq<Write>, jobs: seq<Job>)
    requires PlanOk(p) && Schedule(p, ws, jobs)
    ensures ApplyAll(Zeros(ContainerSize(p)), ws) == Image(p)
  {
    forall k | 0 <= k < |ws| ensures Agrees(ws[k], Image(p)) {
      PieceAgrees(p, jobs[k], ws[k]);
    }
    AgreeingWrites(Zeros(ContainerSize(p)), ws, Image(p));
    forall pos | 0 <= pos < ContainerSize(p) ensures Covered(ws, pos) {
      assert InJob(p, OwnerOf(p, pos), pos);
    }
  }
}
