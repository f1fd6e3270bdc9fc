/**
 Entities of the v2 container format, the authenticated-data builders and the primitives.

 A byte of a file is a `Cell`.  Library primitives appear through their algebraic laws only:
 position `at` of a ciphertext, of a digest or of a MessagePack encoding is a cell of its own,
 so equal outputs come from equal inputs and lengths are those of the real primitives.
 */
module Format {
  import opened Common
  import opened Sequences

  const HEADER_SIZE := 4096
  const CHUNK_SIZE := 4_194_304
  const TAG_SIZE := 16
  const MAX_INDEX_SIZE := 536_870_912
  const MAX_ENTRIES := 5_000_000
  const MAX_DEPTH := 1024
  const VERSION: u16 := 2

  type Blob4 = b: seq<byte> | |b| == 4 witness [0, 0, 0, 0]
  type Blob12 = b: seq<byte> | |b| == 12 witness [0, 0, 0, 0, 0, 0, 0, 0, 0, 0, 0, 0]
  type Blob16 = b: seq<byte> | |b| == 16 witness ZERO_ID

  const ZERO_ID: seq<byte> := [0, 0, 0, 0, 0, 0, 0, 0, 0, 0, 0, 0, 0, 0, 0, 0]
  const MAGIC: Blob4 := [0x43, 0x46, 0x53, 0x02]

  datatype Cell =
    | Raw(value: byte)
    | Digest(of: seq<Cell>, at: nat)
    | HeaderCell(header: Header, at: nat)
    | IndexCell(entries: seq<Entry>, len: nat, at: nat)
    | Sealed(box: Box, at: nat)

  type Bytes = seq<Cell>

  datatype Box = Box(key: Key, nonce: Blob12, aad: Bytes, plain: Bytes)

  /** 256-bit keys, named by how they are derived. */
  datatype Key =
    | Argon2(password: string, salt: Blob16, params: Argon2Params)
    | Hkdf(dek: Bytes, salt: Blob16, info: seq<byte>)

  datatype Argon2Params = Argon2Params(mCost: u32, tCost: u32, pCost: u32)

  datatype KeySlot = KeySlot(generation: u64, salt: Blob16, params: Argon2Params, nonce: Blob12, encryptedDek: Bytes)

  datatype DuressSlot = DuressSlot(enabled: bool, salt: Blob16, params: Argon2Params, nonce: Blob12, encryptedMarker: Bytes)

  datatype Header = Header(
    magic: Blob4, version: u16, headerSize: u32, containerId: Blob16, chunkSize: u32,
    indexSize: u64, dataSize: u64, entryCount: u64, indexNonce: Blob12,
    slot0: KeySlot, slot1: KeySlot, duress: DuressSlot)

  datatype EntryKind = File | Directory

  datatype Entry = Entry(
    id: u64, parentId: u64, name: string, depth: u32, kind: EntryKind,
    fileId: Blob16, size: u64, dataOffset: u64, encryptedSize: u64, chunkCount: u64)

  const ROOT := Entry(1, 1, "", 0, Directory, ZERO_ID, 0, 0, 0, 0)

  // ---------- Raw byte strings ----------

  function Lift(s: seq<byte>): (r: Bytes)
    ensures |r| == |s|
  {
    seq(|s|, i requires 0 <= i < |s| => Raw(s[i]))
  }

  lemma LiftInjective(s: seq<byte>, t: seq<byte>)
    requires Lift(s) == Lift(t)
    ensures s == t
  {
    assert |s| == |Lift(s)| == |t|;
    forall i | 0 <= i < |s| ensures s[i] == t[i] {
      assert Lift(s)[i] == Raw(s[i]) && Lift(t)[i] == Raw(t[i]);
    }
  }

  /** `to_le_bytes` of an n-byte unsigned integer. */
  function Le(n: nat, x: nat): (r: seq<byte>)
    ensures |r| == n
  {
    if n == 0 then [] else [x % 256] + Le(n - 1, x / 256)
  }

  /** `from_le_bytes`. */
  function FromLe(s: seq<byte>): nat {
    if s == [] then 0 else s[0] + 256 * FromLe(s[1..])
  }

  function Pow256(n: nat): nat {
    if n == 0 then 1 else 256 * Pow256(n - 1)
  }

  lemma {:induction false} LeRoundTrip(n: nat, x: nat)
    requires x < Pow256(n)
    ensures FromLe(Le(n, x)) == x
  {
    if n > 0 {
      LeRoundTrip(n - 1, x / 256);
      assert Le(n, x)[1..] == Le(n - 1, x / 256);
    }
  }

  lemma WidthBounds()
    ensures Pow256(2) == 0x1_0000 && Pow256(4) == 0x1_0000_0000 && Pow256(8) == U64_LIMIT
  {
    assert Pow256(1) == 256 * Pow256(0) && Pow256(2) == 256 * Pow256(1) && Pow256(3) == 256 * Pow256(2);
    assert Pow256(4) == 256 * Pow256(3) && Pow256(5) == 256 * Pow256(4) && Pow256(6) == 256 * Pow256(5);
    assert Pow256(7) == 256 * Pow256(6) && Pow256(8) == 256 * Pow256(7);
  }

  lemma LeInjective(n: nat, x: nat, y: nat)
    requires x < Pow256(n) && y < Pow256(n)
    requires Le(n, x) == Le(n, y)
    ensures x == y
  {
    LeRoundTrip(n, x);
    LeRoundTrip(n, y);
  }

  function Ascii(s: string): (r: seq<byte>)
    ensures |r| == |s|
  {
    seq(|s|, i requires 0 <= i < |s| => s[i] as int % 256)
  }

  // ---------- Primitives ----------

  /** ChaCha20-Poly1305 sealing: the tag makes the ciphertext 16 bytes longer. */
  function Encrypt(key: Key, nonce: Blob12, aad: Bytes, data: Bytes): (c: Bytes)
    ensures |c| == |data| + TAG_SIZE
  {
    var box := Box(key, nonce, aad, data);
    seq(|data| + TAG_SIZE, i requires 0 <= i < |data| + TAG_SIZE => Sealed(box, i))
  }

  function Decrypt(key: Key, nonce: Blob12, aad: Bytes, data: Bytes): Option<Bytes> {
    if |data| > 0 && data[0].Sealed? && data == Encrypt(key, nonce, aad, data[0].box.plain)
    then Some(data[0].box.plain)
    else None
  }

  /** Opening succeeds exactly on what was sealed under the same key, nonce and associated data. */
  lemma DecryptIff(key: Key, nonce: Blob12, aad: Bytes, data: Bytes, plain: Bytes)
    ensures Decrypt(key, nonce, aad, data) == Some(plain) <==> data == Encrypt(key, nonce, aad, plain)
  {
    if data == Encrypt(key, nonce, aad, plain) {
      assert data[0] == Sealed(Box(key, nonce, aad, plain), 0);
    }
  }

  /** One ciphertext has one key, nonce, associated data and plaintext. */
  lemma EncryptInjective(k: Key, n: Blob12, a: Bytes, d: Bytes, k': Key, n': Blob12, a': Bytes, d': Bytes)
    requires Encrypt(k, n, a, d) == Encrypt(k', n', a', d')
    ensures k == k' && n == n' && a == a' && d == d'
  {
    assert Encrypt(k, n, a, d)[0] == Sealed(Box(k, n, a, d), 0);
    assert Encrypt(k', n', a', d')[0] == Sealed(Box(k', n', a', d'), 0);
  }

  /** BLAKE3 with its 32-byte output. */
  function Blake3(data: Bytes): (r: Bytes)
    ensures |r| == 32
  {
    seq(32, i => if i >= 0 then Digest(data, i) else Raw(0))
  }

  lemma Blake3Injective(a: Bytes, b: Bytes)
    requires Blake3(a) == Blake3(b)
    ensures a == b
  {
    assert Blake3(a)[0] == Digest(a, 0) && Blake3(b)[0] == Digest(b, 0);
  }

  /** MessagePack encoding of an index; its length `len` is whatever the codec needs. */
  function EncodeIndex(entries: seq<Entry>, len: nat): (r: Bytes)
    ensures |r| == len
  {
    seq(len, i requires 0 <= i < len => IndexCell(entries, len, i))
  }

  function DecodeIndex(data: Bytes): Option<seq<Entry>> {
    if |data| > 0 && data[0].IndexCell? && data == EncodeIndex(data[0].entries, |data|)
    then Some(data[0].entries)
    else None
  }

  lemma DecodeEncodeIndex(entries: seq<Entry>, len: nat)
    requires len > 0
    ensures DecodeIndex(EncodeIndex(entries, len)) == Some(entries)
  {
    assert EncodeIndex(entries, len)[0] == IndexCell(entries, len, 0);
  }

  /** The zero-padded fixed-size header record. */
  function EncodeHeader(header: Header): (r: Bytes)
    ensures |r| == HEADER_SIZE
  {
    seq(HEADER_SIZE, i requires 0 <= i < HEADER_SIZE => HeaderCell(header, i))
  }

  function DecodeHeader(data: Bytes): Option<Header> {
    if |data| > 0 && data[0].HeaderCell? && data == EncodeHeader(data[0].header)
    then Some(data[0].header)
    else None
  }

  lemma DecodeEncodeHeader(header: Header)
    ensures DecodeHeader(EncodeHeader(header)) == Some(header)
  {
    assert EncodeHeader(header)[0] == HeaderCell(header, 0);
  }

  // ---------- Keys, nonces and associated data ----------

  function IndexInfo(): seq<byte> {
    Ascii("cipherfs-v2/index-key")
  }

  function FileInfo(fileId: Blob16): seq<byte> {
    Ascii("cipherfs-v2/file-key") + fileId
  }

  function IndexKey(dek: Bytes, containerId: Blob16): Key {
    Hkdf(dek, containerId, IndexInfo())
  }

  function FileKey(dek: Bytes, containerId: Blob16, fileId: Blob16): Key {
    Hkdf(dek, containerId, FileInfo(fileId))
  }

  function ChunkNonce(chunkIndex: u64): Blob12 {
    Ascii("C2CH") + Le(8, chunkIndex)
  }

  function ArgonParts(p: Argon2Params): seq<Bytes> {
    [Lift(Le(4, p.mCost)), Lift(Le(4, p.tCost)), Lift(Le(4, p.pCost))]
  }

  function ImmutableParts(h: Header): seq<Bytes> {
    [Lift(h.magic), Lift(Le(2, h.version)), Lift(Le(4, h.headerSize)), Lift(h.containerId),
     Lift(Le(4, h.chunkSize)), Lift(Le(8, h.indexSize)), Lift(Le(8, h.dataSize)), Lift(Le(8, h.entryCount)),
     Lift(h.indexNonce), [Raw(if h.duress.enabled then 1 else 0)], Lift(h.duress.salt)]
    + ArgonParts(h.duress.params) + [Lift(h.duress.nonce), Blake3(h.duress.encryptedMarker)]
  }

  function ImmutableAad(h: Header): Bytes {
    Concat(ImmutableParts(h))
  }

  function IndexAad(h: Header): Bytes {
    ImmutableAad(h) + Lift(Ascii("/index"))
  }

  function SlotParts(h: Header, slot: KeySlot): seq<Bytes> {
    ImmutableParts(h) + [Lift(Ascii("/key-slot")), Lift(Le(8, slot.generation)), Lift(slot.salt)]
    + ArgonParts(slot.params) + [Lift(slot.nonce)]
  }

  function SlotAad(h: Header, slot: KeySlot): Bytes {
    Concat(SlotParts(h, slot))
  }

  function DuressParts(h: Header): seq<Bytes> {
    [Lift(h.magic), Lift(Le(2, h.version)), Lift(Le(4, h.headerSize)), Lift(h.containerId),
     Lift(Le(4, h.chunkSize)), Lift(Le(8, h.indexSize)), Lift(Le(8, h.dataSize)), Lift(Le(8, h.entryCount)),
     Lift(Ascii("/duress-slot")), Lift(h.duress.salt)]
    + ArgonParts(h.duress.params) + [Lift(h.duress.nonce)]
  }

  function DuressAad(h: Header): Bytes {
    Concat(DuressParts(h))
  }

  function ChunkParts(h: Header, e: Entry, chunkIndex: u64, plainLen: u64): seq<Bytes> {
    [Lift(h.magic), Lift(Le(2, h.version)), Lift(h.containerId), Lift(e.fileId),
     Lift(Le(8, e.id)), Lift(Le(8, e.size)), Lift(Le(8, chunkIndex)), Lift(Le(8, plainLen))]
  }

  function ChunkAad(h: Header, e: Entry, chunkIndex: u64, plainLen: u64): Bytes {
    Concat(ChunkParts(h, e, chunkIndex, plainLen))
  }

  /** Two headers that agree outside their key slots. */
  ghost predicate SameImmutable(a: Header, b: Header) {
    a.(slot0 := b.slot0, slot1 := b.slot1) == b
  }

  lemma SameImmutableAad(a: Header, b: Header, slot: KeySlot)
    requires SameImmutable(a, b)
    ensures ImmutableParts(a) == ImmutableParts(b)
    ensures ImmutableAad(a) == ImmutableAad(b) && IndexAad(a) == IndexAad(b) && SlotAad(a, slot) == SlotAad(b, slot)
    ensures DuressAad(a) == DuressAad(b)
  {
  }
}
