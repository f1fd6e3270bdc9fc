/** What the associated data, key derivation and nonces tie a ciphertext to. */
module Binding {
  import opened Common
  import opened Sequences
  import opened Format

  lemma LeFieldInjective(n: nat, x: nat, y: nat)
    requires x < Pow256(n) && y < Pow256(n)
    requires Lift(Le(n, x)) == Lift(Le(n, y))
    ensures x == y
  {
    LiftInjective(Le(n, x), Le(n, y));
    LeInjective(n, x, y);
  }

  /** The chunk AAD names its container, file, position and length without ambiguity. */
  lemma ChunkAadInjective(h: Header, e: Entry, i: u64, l: u64, h': Header, e': Entry, i': u64, l': u64)
    requires ChunkAad(h, e, i, l) == ChunkAad(h', e', i', l')
    ensures h.magic == h'.magic && h.version == h'.version && h.containerId == h'.containerId
    ensures e.fileId == e'.fileId && e.id == e'.id && e.size == e'.size && i == i' && l == l'
  {
    var p, q := ChunkParts(h, e, i, l), ChunkParts(h', e', i', l');
    ConcatInjective(p, q);
    WidthBounds();
    assert p[0] == q[0] && p[1] == q[1] && p[2] == q[2] && p[3] == q[3];
    assert p[4] == q[4] && p[5] == q[5] && p[6] == q[6] && p[7] == q[7];
    LiftInjective(h.magic, h'.magic);
    LeFieldInjective(2, h.version, h'.version);
    LiftInjective(h.containerId, h'.containerId);
    LiftInjective(e.fileId, e'.fileId);
    LeFieldInjective(8, e.id, e'.id);
    LeFieldInjective(8, e.size, e'.size);
    LeFieldInjective(8, i, i');
    LeFieldInjective(8, l, l');
  }

  lemma ArgonPartsInjective(p: Argon2Params, q: Argon2Params)
    requires ArgonParts(p) == ArgonParts(q)
    ensures p == q
  {
    WidthBounds();
    assert ArgonParts(p)[0] == ArgonParts(q)[0] && ArgonParts(p)[1] == ArgonParts(q)[1] && ArgonParts(p)[2] == ArgonParts(q)[2];
    LeFieldInjective(4, p.mCost, q.mCost);
    LeFieldInjective(4, p.tCost, q.tCost);
    LeFieldInjective(4, p.pCost, q.pCost);
  }

  lemma LayoutFieldsInjective(a: Header, b: Header)
    requires ImmutableParts(a)[..9] == ImmutableParts(b)[..9]
    ensures a.magic == b.magic && a.version == b.version && a.headerSize == b.headerSize && a.containerId == b.containerId
    ensures a.chunkSize == b.chunkSize && a.indexSize == b.indexSize && a.dataSize == b.dataSize
    ensures a.entryCount == b.entryCount && a.indexNonce == b.indexNonce
  {
    var p, q := ImmutableParts(a)[..9], ImmutableParts(b)[..9];
    WidthBounds();
    assert p[0] == q[0] && p[1] == q[1] && p[2] == q[2] && p[3] == q[3] && p[4] == q[4];
    assert p[5] == q[5] && p[6] == q[6] && p[7] == q[7] && p[8] == q[8];
    LiftInjective(a.magic, b.magic);
    LeFieldInjective(2, a.version, b.version);
    LeFieldInjective(4, a.headerSize, b.headerSize);
    LiftInjective(a.containerId, b.containerId);
    LeFieldInjective(4, a.chunkSize, b.chunkSize);
    LeFieldInjective(8, a.indexSize, b.indexSize);
    LeFieldInjective(8, a.dataSize, b.dataSize);
    LeFieldInjective(8, a.entryCount, b.entryCount);
    LiftInjective(a.indexNonce, b.indexNonce);
  }

  /** Equal part lists come from headers that agree outside their slots. */
  lemma ImmutablePartsInjective(a: Header, b: Header)
    requires ImmutableParts(a) == ImmutableParts(b)
    ensures SameImmutable(a, b)
  {
    var p, q := ImmutableParts(a), ImmutableParts(b);
    LayoutFieldsInjective(a, b);
    assert p[9] == q[9] && p[10] == q[10] && p[14] == q[14] && p[15] == q[15];
    assert p[11..14] == ArgonParts(a.duress.params) && q[11..14] == ArgonParts(b.duress.params);
    assert p[9][0] == q[9][0];
    LiftInjective(a.duress.salt, b.duress.salt);
    ArgonPartsInjective(a.duress.params, b.duress.params);
    LiftInjective(a.duress.nonce, b.duress.nonce);
    Blake3Injective(a.duress.encryptedMarker, b.duress.encryptedMarker);
  }

  lemma ImmutablePartWidths(a: Header, b: Header)
    ensures |ImmutableParts(a)| == |ImmutableParts(b)| == 16
    ensures forall i :: 0 <= i < 16 ==> |ImmutableParts(a)[i]| == |ImmutableParts(b)[i]|
  {
  }

  /** The immutable AAD authenticates every header field outside the two key slots. */
  lemma ImmutableAadInjective(a: Header, b: Header)
    requires ImmutableAad(a) == ImmutableAad(b)
    ensures SameImmutable(a, b)
  {
    ImmutablePartWidths(a, b);
    ConcatInjective(ImmutableParts(a), ImmutableParts(b));
    ImmutablePartsInjective(a, b);
  }

  /** A wrapped key authenticates the layout and its own generation, salt, parameters and nonce. */
  lemma SlotAadInjective(a: Header, s: KeySlot, b: Header, t: KeySlot)
    requires SlotAad(a, s) == SlotAad(b, t)
    ensures SameImmutable(a, b) && s.(encryptedDek := t.encryptedDek) == t
  {
    var p, q := SlotParts(a, s), SlotParts(b, t);
    ImmutablePartWidths(a, b);
    forall i | 0 <= i < |p| ensures |p[i]| == |q[i]| {
      if i < 16 { assert p[i] == ImmutableParts(a)[i] && q[i] == ImmutableParts(b)[i]; }
    }
    ConcatInjective(p, q);
    assert p[..16] == ImmutableParts(a) && q[..16] == ImmutableParts(b);
    ImmutablePartsInjective(a, b);
    WidthBounds();
    assert p[17] == q[17] && p[18] == q[18] && p[22] == q[22];
    assert p[19..22] == ArgonParts(s.params) && q[19..22] == ArgonParts(t.params);
    LeFieldInjective(8, s.generation, t.generation);
    LiftInjective(s.salt, t.salt);
    ArgonPartsInjective(s.params, t.params);
    LiftInjective(s.nonce, t.nonce);
  }

  lemma ChunkNonceInjective(i: u64, j: u64)
    requires ChunkNonce(i) == ChunkNonce(j)
    ensures i == j
  {
    assert ChunkNonce(i)[4..] == Le(8, i) && ChunkNonce(j)[4..] == Le(8, j);
    WidthBounds();
    LeInjective(8, i, j);
  }

  lemma FileKeyInjective(dek: Bytes, cid: Blob16, f: Blob16, g: Blob16)
    requires FileKey(dek, cid, f) == FileKey(dek, cid, g)
    ensures f == g
  {
    assert FileInfo(f)[20..] == f && FileInfo(g)[20..] == g;
  }

  lemma IndexKeySeparate(dek: Bytes, cid: Blob16, f: Blob16)
    ensures IndexKey(dek, cid) != FileKey(dek, cid, f)
  {
    assert |IndexInfo()| == 21 && |FileInfo(f)| == 36;
  }

  /** Everything one container encrypts under keys derived from its DEK. */
  datatype Sealing = IndexSealing | ChunkSealing(entry: Entry, chunkIndex: u64)

  function SealingKey(h: Header, dek: Bytes, s: Sealing): Key {
    match s
    case IndexSealing => IndexKey(dek, h.containerId)
    case ChunkSealing(e, _) => FileKey(dek, h.containerId, e.fileId)
  }

  function SealingNonce(h: Header, s: Sealing): Blob12 {
    match s
    case IndexSealing => h.indexNonce
    case ChunkSealing(_, i) => ChunkNonce(i)
  }

  /** RFC 8439 section 4: no two encryptions of one container share a key and a nonce. */
  lemma NoNonceReuse(h: Header, dek: Bytes, s: Sealing, t: Sealing)
    requires s.ChunkSealing? && t.ChunkSealing? && s.entry.fileId == t.entry.fileId ==> s.entry == t.entry
    requires SealingKey(h, dek, s) == SealingKey(h, dek, t) && SealingNonce(h, s) == SealingNonce(h, t)
    ensures s == t
  {
    if s.ChunkSealing? && t.ChunkSealing? {
      FileKeyInjective(dek, h.containerId, s.entry.fileId, t.entry.fileId);
      ChunkNonceInjective(s.chunkIndex, t.chunkIndex);
    } else if s.ChunkSealing? {
      IndexKeySeparate(dek, h.containerId, s.entry.fileId);
    } else if t.ChunkSealing? {
      IndexKeySeparate(dek, h.containerId, t.entry.fileId);
    }
  }

  function SealChunk(h: Header, dek: Bytes, e: Entry, chunkIndex: u64, plain: Bytes): Bytes
    requires |plain| < U64_LIMIT
  {
    Encrypt(FileKey(dek, h.containerId, e.fileId), ChunkNonce(chunkIndex), ChunkAad(h, e, chunkIndex, |plain|), plain)
  }

  /** A sealed chunk opens only for the container, file, position and length it was sealed for. */
  lemma ChunkOpensOnlyInPlace(h: Header, dek: Bytes, e: Entry, i: u64, plain: Bytes,
                              h': Header, dek': Bytes, e': Entry, i': u64, l': u64)
    requires |plain| < U64_LIMIT
    requires Decrypt(FileKey(dek', h'.containerId, e'.fileId), ChunkNonce(i'), ChunkAad(h', e', i', l'),
                     SealChunk(h, dek, e, i, plain)).Some?
    ensures dek == dek' && h.containerId == h'.containerId
    ensures e.fileId == e'.fileId && e.id == e'.id && e.size == e'.size && i == i' && l' == |plain|
  {
    var c := SealChunk(h, dek, e, i, plain);
    var k', n', a' := FileKey(dek', h'.containerId, e'.fileId), ChunkNonce(i'), ChunkAad(h', e', i', l');
    var p := Decrypt(k', n', a', c).value;
    EncryptInjective(FileKey(dek, h.containerId, e.fileId), ChunkNonce(i), ChunkAad(h, e, i, |plain|), plain, k', n', a', p);
    ChunkAadInjective(h, e, i, |plain|, h', e', i', l');
  }

  /** Every container has its own keys, and every file in it. */
  lemma KeysInjective(dek: Bytes, cid: Blob16, dek': Bytes, cid': Blob16, f: Blob16, f': Blob16)
    ensures IndexKey(dek, cid) == IndexKey(dek', cid') ==> dek == dek' && cid == cid'
    ensures FileKey(dek, cid, f) == FileKey(dek', cid', f') ==> dek == dek' && cid == cid' && f == f'
  {
    assert FileInfo(f)[20..] == f && FileInfo(f')[20..] == f';
  }

  /** A sealed index opens only under the header it was sealed for, up to the key slots. */
  lemma IndexOpensOnlyInPlace(h: Header, dek: Bytes, h': Header, dek': Bytes, plain: Bytes)
    requires Decrypt(IndexKey(dek', h'.containerId), h'.indexNonce, IndexAad(h'),
                     Encrypt(IndexKey(dek, h.containerId), h.indexNonce, IndexAad(h), plain)).Some?
    ensures dek == dek' && SameImmutable(h, h')
  {
    var c := Encrypt(IndexKey(dek, h.containerId), h.indexNonce, IndexAad(h), plain);
    var p := Decrypt(IndexKey(dek', h'.containerId), h'.indexNonce, IndexAad(h'), c).value;
    EncryptInjective(IndexKey(dek, h.containerId), h.indexNonce, IndexAad(h), plain,
                     IndexKey(dek', h'.containerId), h'.indexNonce, IndexAad(h'), p);
    var a, b, tail := ImmutableAad(h), ImmutableAad(h'), Lift(Ascii("/index"));
    assert a == (a + tail)[..|a + tail| - |tail|] && b == (b + tail)[..|b + tail| - |tail|];
    ImmutableAadInjective(h, h');
  }

  /** What the duress verifier authenticates. */
  ghost predicate SameDuress(a: Header, b: Header) {
    && a.magic == b.magic && a.version == b.version && a.headerSize == b.headerSize && a.containerId == b.containerId
    && a.chunkSize == b.chunkSize && a.indexSize == b.indexSize && a.dataSize == b.dataSize && a.entryCount == b.entryCount
    && a.duress.salt == b.duress.salt && a.duress.params == b.duress.params && a.duress.nonce == b.duress.nonce
  }

  lemma DuressAadInjective(a: Header, b: Header)
    requires DuressAad(a) == DuressAad(b)
    ensures SameDuress(a, b)
  {
    var p, q := DuressParts(a), DuressParts(b);
    ConcatInjective(p, q);
    WidthBounds();
    assert p[0] == q[0] && p[1] == q[1] && p[2] == q[2] && p[3] == q[3] && p[4] == q[4];
    assert p[5] == q[5] && p[6] == q[6] && p[7] == q[7] && p[9] == q[9] && p[13] == q[13];
    assert p[10..13] == ArgonParts(a.duress.params) && q[10..13] == ArgonParts(b.duress.params);
    DuressFieldsInjective(a, b);
    ArgonPartsInjective(a.duress.params, b.duress.params);
  }

  lemma DuressFieldsInjective(a: Header, b: Header)
    requires forall i :: 0 <= i < 10 ==> DuressParts(a)[i] == DuressParts(b)[i]
    requires DuressParts(a)[13] == DuressParts(b)[13]
    ensures SameDuress(a, b.(duress := b.duress.(params := a.duress.params)))
  {
    var p, q := DuressParts(a), DuressParts(b);
    WidthBounds();
    assert p[0] == q[0] && p[1] == q[1] && p[2] == q[2] && p[3] == q[3] && p[4] == q[4];
    assert p[5] == q[5] && p[6] == q[6] && p[7] == q[7] && p[9] == q[9] && p[13] == q[13];
    LiftInjective(a.magic, b.magic);
    LeFieldInjective(2, a.version, b.version);
    LeFieldInjective(4, a.headerSize, b.headerSize);
    LiftInjective(a.containerId, b.containerId);
    LeFieldInjective(4, a.chunkSize, b.chunkSize);
    LeFieldInjective(8, a.indexSize, b.indexSize);
    LeFieldInjective(8, a.dataSize, b.dataSize);
    LeFieldInjective(8, a.entryCount, b.entryCount);
    LiftInjective(a.duress.salt, b.duress.salt);
    LiftInjective(a.duress.nonce, b.duress.nonce);
  }

  // ---------- The bytes themselves ----------

  lemma LiftAppend(s: seq<byte>, t: seq<byte>)
    ensures Lift(s + t) == Lift(s) + Lift(t)
  {
  }

  /** Four bytes as a number, the lowest first. */
  function Four(a: int, b: int, c: int, d: int): int {
    a + 0x100 * b + 0x1_0000 * c + 0x100_0000 * d
  }

  lemma FromLeFour(s: seq<byte>)
    requires |s| >= 4
    ensures FromLe(s) == Four(s[0], s[1], s[2], s[3]) + 0x1_0000_0000 * FromLe(s[4..])
  {
    assert s[1..][1..] == s[2..] && s[2..][1..] == s[3..] && s[3..][1..] == s[4..];
    assert FromLe(s[1..]) == s[1] + 256 * FromLe(s[2..]);
    assert FromLe(s[2..]) == s[2] + 256 * FromLe(s[3..]);
    assert FromLe(s[3..]) == s[3] + 256 * FromLe(s[4..]);
  }

  /** A little-endian field: the lowest byte first. */
  lemma LeBytes(x: u64)
    ensures var s := Le(8, x);
      x == Four(s[0], s[1], s[2], s[3]) + 0x1_0000_0000 * Four(s[4], s[5], s[6], s[7])
  {
    var s := Le(8, x);
    WidthBounds();
    LeRoundTrip(8, x);
    FromLeFour(s);
    FromLeFour(s[4..]);
    assert s[4..][4..] == [];
  }

  /** A chunk nonce is `C2CH` and the little-endian index. */
  lemma ChunkNonceBytes(i: u64)
    ensures ChunkNonce(i) == [0x43, 0x32, 0x43, 0x48] + Le(8, i)
  {
  }

  /** The associated data of a chunk as one byte string of fixed layout. */
  lemma ChunkAadBytes(h: Header, e: Entry, i: u64, n: u64)
    ensures ChunkAad(h, e, i, n) == Lift(h.magic + Le(2, h.version) + h.containerId + e.fileId
                                         + Le(8, e.id) + Le(8, e.size) + Le(8, i) + Le(8, n))
  {
    var a := h.magic + Le(2, h.version);
    var b := a + h.containerId;
    var c := b + e.fileId;
    var d := c + Le(8, e.id);
    var f := d + Le(8, e.size);
    var g := f + Le(8, i);
    LiftAppend(h.magic, Le(2, h.version));
    LiftAppend(a, h.containerId);
    LiftAppend(b, e.fileId);
    LiftAppend(c, Le(8, e.id));
    LiftAppend(d, Le(8, e.size));
    LiftAppend(f, Le(8, i));
    LiftAppend(g, Le(8, n));
    ConcatEight(Lift(h.magic), Lift(Le(2, h.version)), Lift(h.containerId), Lift(e.fileId),
                Lift(Le(8, e.id)), Lift(Le(8, e.size)), Lift(Le(8, i)), Lift(Le(8, n)));
  }

  lemma ConcatEight(a: Bytes, b: Bytes, c: Bytes, d: Bytes, e: Bytes, f: Bytes, g: Bytes, h: Bytes)
    ensures Concat([a, b, c, d, e, f, g, h]) == a + b + c + d + e + f + g + h
  {
    ConcatFour(a, b, c, d, [e, f, g, h]);
    ConcatFour(e, f, g, h, []);
    assert [a, b, c, d] + [e, f, g, h] == [a, b, c, d, e, f, g, h] && [e, f, g, h] + [] == [e, f, g, h];
  }

  lemma ConcatFour(a: Bytes, b: Bytes, c: Bytes, d: Bytes, rest: seq<Bytes>)
    ensures Concat([a, b, c, d] + rest) == a + b + c + d + Concat(rest)
  {
    assert Concat([d] + rest) == d + Concat(rest) && ([c, d] + rest)[1..] == [d] + rest;
    assert Concat([c, d] + rest) == c + Concat([d] + rest) && ([b, c, d] + rest)[1..] == [c, d] + rest;
    assert Concat([b, c, d] + rest) == b + Concat([c, d] + rest) && ([a, b, c, d] + rest)[1..] == [b, c, d] + rest;
  }
}
