/** The container file: opening it, reading chunks back, verifying, and changing its password in place. */
module Container {
  import opened Common
  import opened Sequences
  import opened Format
  import opened Layout
  import opened Index
  import opened IndexProperties
  import opened KeySlots

  // ---------- Opening ----------

  function ReadHeaderOf(file: Bytes): Result<Header> {
    if |file| < HEADER_SIZE then Err(UnexpectedEof)
    else match DecodeHeader(file[..HEADER_SIZE])
      case None => Err(InvalidHeader)
      case Some(h) => if ValidHeaderFor(h, |file|) then Ok(h) else Err(InvalidHeader)
  }

  /** A header in front of a file that it fits is read back. */
  lemma HeaderReads(file: Bytes, h: Header)
    requires |file| >= HEADER_SIZE && file[..HEADER_SIZE] == EncodeHeader(h) && ValidHeaderFor(h, |file|)
    ensures ReadHeaderOf(file) == Ok(h)
  {
    DecodeEncodeHeader(h);
  }

  datatype Opened = Opened(file: Bytes, header: Header, index: ValidatedIndex, dek: Bytes, dataStart: u64)

  /** The authenticated entries behind a header that fits the file. */
  function ReadEntries(file: Bytes, h: Header, dek: Bytes): Result<seq<Entry>>
    requires HEADER_SIZE + h.indexSize <= |file|
  {
    match Decrypt(IndexKey(dek, h.containerId), h.indexNonce, IndexAad(h), file[HEADER_SIZE..HEADER_SIZE + h.indexSize])
    case None => Err(Authentication)
    case Some(serialized) =>
      match DecodeIndex(serialized)
      case None => Err(InvalidIndex)
      case Some(entries) => Ok(entries)
  }

  /** `open` on an unchanged file; entering the duress password fails here and wipes in `ContainerFile.Open`. */
  ghost function OpenSpec(file: Bytes, password: string): Result<Opened> {
    match ReadHeaderOf(file)
    case Err(e) => Err(e)
    case Ok(h) =>
      match Unlock(h, password)
      case Err(e) => Err(e)
      case Ok(Duress) => Err(WrongPassword)
      case Ok(Failed) => Err(WrongPassword)
      case Ok(Unlocked(dek)) =>
        match ReadEntries(file, h, dek)
        case Err(e) => Err(e)
        case Ok(entries) =>
          if Accepted(h.entryCount, h.dataSize, entries)
          then Ok(Opened(file, h, Validated(entries), dek, HEADER_SIZE + h.indexSize))
          else Err(InvalidIndex)
  }

  /** What a successful open establishes about the container. */
  ghost predicate OpenedFrom(o: Opened, entries: seq<Entry>) {
    && Accepted(o.header.entryCount, o.header.dataSize, entries)
    && o.index == Validated(entries)
    && o.dataStart == HEADER_SIZE + o.header.indexSize
    && |o.file| == o.dataStart + o.header.dataSize < U64_LIMIT
  }

  lemma OpenEstablishes(file: Bytes, password: string) returns (entries: seq<Entry>)
    requires OpenSpec(file, password).Ok?
    ensures OpenedFrom(OpenSpec(file, password).value, entries) && OpenSpec(file, password).value.file == file
  {
    var h := ReadHeaderOf(file).value;
    entries := ReadEntries(file, h, Unlock(h, password).value.dek).value;
  }

  // ---------- Chunks ----------

  /** `read_exact_at`. */
  function ReadAt(file: Bytes, position: nat, len: nat): Result<Bytes> {
    if position + len <= |file| then Ok(file[position..position + len]) else Err(UnexpectedEof)
  }

  /** File position and plaintext length of a chunk, with the checked arithmetic of the reader. */
  function ChunkRequest(dataStart: u64, e: Entry, chunkIndex: u64): Result<(u64, u64)> {
    if e.kind != File || chunkIndex >= e.chunkCount then Err(InvalidRequest)
    else if ChunkStart(chunkIndex) >= U64_LIMIT || ChunkStart(chunkIndex) > e.size then Err(Overflow)
    else
      var plainLen: u64 := Min(CHUNK_SIZE, e.size - ChunkStart(chunkIndex));
      if plainLen + TAG_SIZE >= U64_LIMIT || RecordStart(chunkIndex) >= U64_LIMIT
         || dataStart + e.dataOffset >= U64_LIMIT
         || dataStart + e.dataOffset + RecordStart(chunkIndex) >= U64_LIMIT then Err(Overflow)
      else Ok((dataStart + e.dataOffset + RecordStart(chunkIndex), plainLen))
  }

  function OpenRecord(o: Opened, e: Entry, chunkIndex: u64, plainLen: u64, encrypted: Bytes): Result<Bytes> {
    match Decrypt(FileKey(o.dek, o.header.containerId, e.fileId), ChunkNonce(chunkIndex),
                  ChunkAad(o.header, e, chunkIndex, plainLen), encrypted)
    case None => Err(Authentication)
    case Some(plaintext) => if |plaintext| == plainLen then Ok(plaintext) else Err(LengthMismatch)
  }

  function DecryptChunk(o: Opened, e: Entry, chunkIndex: u64): Result<Bytes> {
    match ChunkRequest(o.dataStart, e, chunkIndex)
    case Err(err) => Err(err)
    case Ok((position, plainLen)) =>
      match ReadAt(o.file, position, plainLen + TAG_SIZE)
      case Err(err) => Err(err)
      case Ok(encrypted) => OpenRecord(o, e, chunkIndex, plainLen, encrypted)
  }

  /** Plaintext of one chunk, empty if it does not open. */
  function ChunkAt(o: Opened, e: Entry, i: nat): Bytes {
    if i < e.chunkCount && DecryptChunk(o, e, i).Ok? then DecryptChunk(o, e, i).value else []
  }

  function ChunkBytes(o: Opened, e: Entry): nat -> Bytes {
    (i: nat) => ChunkAt(o, e, i)
  }

  /** The ciphertext record of a chunk. */
  function Record(o: Opened, e: Entry, i: nat): Bytes
    requires ChunkStart(i) <= e.size
    requires RecordPosition(o.dataStart, e, i) + PlainLen(e.size, i) + TAG_SIZE <= |o.file|
  {
    o.file[RecordPosition(o.dataStart, e, i)..RecordPosition(o.dataStart, e, i) + PlainLen(e.size, i) + TAG_SIZE]
  }

  /** A file entry whose whole extent lies inside the container file. */
  predicate FitsFile(o: Opened, e: Entry) {
    SizedFile(e) && o.dataStart + e.dataOffset + e.encryptedSize <= |o.file| < U64_LIMIT
  }

  lemma ListedFits(o: Opened, entries: seq<Entry>, e: Entry)
    requires OpenedFrom(o, entries) && e in entries && e.kind == File
    ensures FitsFile(o, e)
  {
    AcceptedIsTree(o.header.entryCount, o.header.dataSize, entries);
    ExtentInside(o.header.entryCount, o.header.dataSize, entries, e);
  }

  lemma RequestInFile(o: Opened, e: Entry, i: u64)
    requires FitsFile(o, e) && i < e.chunkCount
    ensures ChunkStart(i) < e.size
    ensures RecordPosition(o.dataStart, e, i) + PlainLen(e.size, i) + TAG_SIZE <= |o.file|
    ensures ChunkRequest(o.dataStart, e, i) == Ok((RecordPosition(o.dataStart, e, i), PlainLen(e.size, i)))
  {
    RecordInExtent(e, i);
  }

  lemma OpenRecordIff(o: Opened, e: Entry, i: u64, n: u64, encrypted: Bytes, plain: Bytes)
    requires |encrypted| == n + TAG_SIZE
    ensures OpenRecord(o, e, i, n, encrypted) == Ok(plain) <==>
            encrypted == Encrypt(FileKey(o.dek, o.header.containerId, e.fileId), ChunkNonce(i), ChunkAad(o.header, e, i, n), plain)
    ensures OpenRecord(o, e, i, n, encrypted).Err? ==> OpenRecord(o, e, i, n, encrypted) == Err(Authentication)
  {
    var key, nonce, aad := FileKey(o.dek, o.header.containerId, e.fileId), ChunkNonce(i), ChunkAad(o.header, e, i, n);
    DecryptIff(key, nonce, aad, encrypted, plain);
    var d := Decrypt(key, nonce, aad, encrypted);
    if d.Some? {
      DecryptIff(key, nonce, aad, encrypted, d.value);
    }
  }

  /**
   No chunk request of a file that fits overflows or leaves the file: it returns the plaintext
   exactly when the record there was sealed for this container, file and position.
   */
  lemma DecryptChunkIff(o: Opened, e: Entry, i: u64, plain: Bytes)
    requires FitsFile(o, e) && i < e.chunkCount
    ensures ChunkStart(i) < e.size
    ensures RecordPosition(o.dataStart, e, i) + PlainLen(e.size, i) + TAG_SIZE <= |o.file|
    ensures DecryptChunk(o, e, i) == Ok(plain) <==>
            Record(o, e, i) == Encrypt(FileKey(o.dek, o.header.containerId, e.fileId), ChunkNonce(i),
                                       ChunkAad(o.header, e, i, PlainLen(e.size, i)), plain)
    ensures DecryptChunk(o, e, i) == Ok(plain) ==> |plain| == PlainLen(e.size, i)
    ensures DecryptChunk(o, e, i).Err? ==> DecryptChunk(o, e, i) == Err(Authentication)
  {
    RequestInFile(o, e, i);
    OpenRecordIff(o, e, i, PlainLen(e.size, i), Record(o, e, i), plain);
  }

  ghost predicate AllChunksOpen(o: Opened) {
    forall id :: id in o.index.entries && o.index.entries[id].kind == File ==>
      FileOpens(o, o.index.entries[id], o.index.entries[id].chunkCount)
  }

  ghost predicate FileOpens(o: Opened, e: Entry, count: u64) {
    forall i: u64 :: i < count ==> DecryptChunk(o, e, i).Ok?
  }

  // ---------- The file on disk ----------

  /** The file with a new header; one header write is atomic. */
  function WithHeader(file: Bytes, h: Header): Bytes
    requires |file| >= HEADER_SIZE
  {
    EncodeHeader(h) + file[HEADER_SIZE..]
  }

  /** The part of `open` behind the unlocked key: the index is decrypted and validated. */
  method OpenUnlocked(file: Bytes, h: Header, dek: Bytes) returns (r: Result<Opened>)
    requires ReadHeaderOf(file) == Ok(h)
    ensures r.Ok? <==> ReadEntries(file, h, dek).Ok? && Accepted(h.entryCount, h.dataSize, ReadEntries(file, h, dek).value)
    ensures r.Ok? ==> r.value == Opened(file, h, Validated(ReadEntries(file, h, dek).value), dek, HEADER_SIZE + h.indexSize)
  {
    var entries := ReadEntries(file, h, dek);
    if entries.Err? {
      return Err(entries.error);
    }
    var index := ValidateIndex(h.entryCount, h.dataSize, entries.value);
    if index.Err? {
      return Err(index.error);
    }
    r := Ok(Opened(file, h, index.value, dek, HEADER_SIZE + h.indexSize));
  }

  /** The password opens the key slots of the container file, to this key. */
  ghost predicate Unlocks(file: Bytes, password: string, dek: Bytes) {
    ReadHeaderOf(file).Ok? && Unlock(ReadHeaderOf(file).value, password) == Ok(Unlocked(dek))
  }

  /** The duress password has it read back with both slots erased, so that no password unlocks; the rest is kept. */
  ghost predicate WipedOnDisk(before: Bytes, after: Bytes, draws: Draws) {
    && |after| == |before| >= HEADER_SIZE && after[HEADER_SIZE..] == before[HEADER_SIZE..]
    && ReadHeaderOf(after).Ok? && IsWiped(ReadHeaderOf(after).value)
    && Erased(ReadHeaderOf(after).value.slot0, draws.wipe0) && Erased(ReadHeaderOf(after).value.slot1, draws.wipe1)
    && forall password, dek :: !Unlocks(after, password, dek)
  }

  class ContainerFile {
    var content: Bytes
    /** No system call fails without a reason, nobody cancels and the process lives on. */
    const quiet: bool

    constructor (content: Bytes, quiet: bool)
      ensures this.content == content && this.quiet == quiet
    {
      this.content, this.quiet := content, quiet;
    }

    method WriteHeader(h: Header)
      requires |content| >= HEADER_SIZE
      modifies this
      ensures content == WithHeader(old(content), h)
    {
      content := EncodeHeader(h) + content[HEADER_SIZE..];
    }

    /** `wipe_for_duress`; the process may die or the write fail before the header is replaced. */
    method WipeForDuress(h: Header, draws: Draws) returns (r: Result<()>)
      requires ReadHeaderOf(content) == Ok(h)
      modifies this
      ensures content == if r.Ok? then WithHeader(old(content), Wiped(h, draws.wipe0, draws.wipe1)) else old(content)
      ensures if r.Ok? then WipedOnDisk(old(content), content, draws) else r == Err(Io)
      ensures quiet ==> r.Ok?
    {
      var fail := Disturbed(quiet);
      if fail {
        return Err(Io);
      }
      WipeReadsBack(content, h, draws);
      WriteHeader(Wiped(h, draws.wipe0, draws.wipe1));
      r := Ok(());
    }

    /**
     Opens, or erases both slots when the duress password was entered.  `WrongPassword` is reported for that password only
     after the wipe; the wipe is missing only if the process died or the write failed, which a quiet environment excludes.
     */
    method Open(password: string, draws: Draws) returns (r: Result<Opened>, ghost reach: Reach)
      modifies this
      ensures r.Ok? ==> content == old(content) && r == OpenSpec(content, password)
      ensures OpenSpec(old(content), password).Ok? <==> r.Ok?
      ensures reach != WipedOut ==> content == old(content)
      ensures reach == WipedOut ==> WipedOnDisk(old(content), content, draws)
      ensures var was := ReadHeaderOf(old(content));
        if was.Ok? && Unlock(was.value, password) == Ok(Duress)
        then r == Err(if reach == WipedOut then WrongPassword else Io) && (quiet ==> reach == WipedOut)
        else reach == Untouched
      ensures var was := ReadHeaderOf(old(content));
        was.Ok? ==> exists h' :: content == WithHeader(old(content), h') && Outcome(was.value, KeySlots.Op.Open(password, draws), h', reach)
    {
      reach := Untouched;
      var read := ReadHeaderOf(content);
      if read.Err? {
        return Err(read.error), reach;
      }
      var h := read.value;
      HeaderOnDisk(content);
      assert Outcome(h, KeySlots.Op.Open(password, draws), h, Untouched);
      var unlocked := Unlock(h, password);
      if unlocked.Err? {
        return Err(unlocked.error), reach;
      }
      match unlocked.value {
        case Duress =>
          var wipe := WipeForDuress(h, draws);
          reach := if wipe.Ok? then WipedOut else Untouched;
          r := Err(if wipe.Ok? then WrongPassword else wipe.error);
        case Failed =>
          r := Err(WrongPassword);
        case Unlocked(dek) =>
          r := OpenUnlocked(content, h, dek);
      }
    }

    /**
     `change_password_inner`; cancellation or a crash may stop it before either header write.  Unless it finished or wiped,
     the former master password still unlocks the file; once it finished, only the new password does.
     */
    method ChangePassword(oldPassword: string, newPassword: string, draws: Draws) returns (r: Result<()>, ghost reach: Reach)
      modifies this
      ensures ReadHeaderOf(old(content)).Err? ==> r.Err? && reach == Untouched
      ensures r.Ok? <==> reach == Finished
      ensures reach == Untouched ==> content == old(content)
      ensures reach == WipedOut ==> WipedOnDisk(old(content), content, draws)
      ensures var was := ReadHeaderOf(old(content));
        was.Ok? && Unlock(was.value, newPassword) != Ok(Duress) && Unlock(was.value, oldPassword) == Ok(Duress) ==>
          (r == Err(WrongPassword) <==> reach == WipedOut) && (quiet ==> reach == WipedOut)
      ensures var was := ReadHeaderOf(old(content));
        was.Ok? ==> exists h' :: content == WithHeader(old(content), h') && Outcome(was.value, Change(oldPassword, newPassword, draws), h', reach)
      ensures forall p, dek :: r.Err? && reach != WipedOut && MasterOf(old(content), p, dek) ==> Unlocks(content, p, dek)
      ensures forall p, dek, m :: r.Ok? && MasterOf(old(content), m, dek) ==> (Unlocks(content, p, dek) <==> p == newPassword)
      ensures var was := ReadHeaderOf(old(content)); quiet && was.Ok? ==>
        (r.Ok? <==>
          && Unlock(was.value, newPassword) != Ok(Duress)
          && Unlock(was.value, oldPassword).Ok? && Unlock(was.value, oldPassword).value.Unlocked?
          && was.value.slot0.generation < U64_LIMIT - 1 && was.value.slot1.generation < U64_LIMIT - 1)
    {
      reach := Untouched;
      var read := ReadHeaderOf(content);
      if read.Err? {
        return Err(read.error), reach;
      }
      var h := read.value;
      HeaderOnDisk(content);
      ghost var op := Change(oldPassword, newPassword, draws);
      assert Outcome(h, op, h, Untouched);
      ghost var before := content;
      ChangeOnDisk(before, h, op, h, Untouched);
      MayChangeIff(h, op);
      var probe := Unlock(h, newPassword);
      if probe.Err? || probe.value.Duress? {
        return Err(InvalidRequest), reach;
      }
      var stop := Disturbed(quiet);
      if stop {
        return Err(Cancelled), reach;
      }
      var unlocked := Unlock(h, oldPassword);
      if unlocked.Err? || unlocked.value.Failed? {
        return Err(WrongPassword), reach;
      }
      stop := Disturbed(quiet);
      if unlocked.value.Duress? {
        if stop {
          return Err(Cancelled), reach;
        }
        var wipe := WipeForDuress(h, draws);
        reach := if wipe.Ok? then WipedOut else Untouched;
        return Err(if wipe.Ok? then WrongPassword else wipe.error), reach;
      }
      var first := FirstWrite(h, newPassword, unlocked.value.dek, draws.made);
      if first.Err? {
        return Err(first.error), reach;
      }
      if stop {
        return Err(Cancelled), reach;
      }
      WriteHeader(first.value);
      reach := HalfWay;
      ChangeOnDisk(before, h, op, first.value, HalfWay);
      stop := Disturbed(quiet);
      if stop {
        return Err(Io), reach;
      }
      WriteHeader(SecondWrite(h, first.value, draws.disabled));
      reach := Finished;
      ChangeOnDisk(before, h, op, SecondWrite(h, first.value, draws.disabled), Finished);
      assert content == WithHeader(before, SecondWrite(h, first.value, draws.disabled));
      r := Ok(());
    }
  }

  /** `password` opens the newest slot of an intact container. */
  ghost predicate MasterOf(file: Bytes, password: string, dek: Bytes) {
    ReadHeaderOf(file).Ok? && Intact(ReadHeaderOf(file).value, dek) && Master(ReadHeaderOf(file).value, dek, password)
  }

  lemma WipeReadsBack(file: Bytes, h: Header, draws: Draws)
    requires ReadHeaderOf(file) == Ok(h)
    ensures WipedOnDisk(file, WithHeader(file, Wiped(h, draws.wipe0, draws.wipe1)), draws)
  {
    var h' := Wiped(h, draws.wipe0, draws.wipe1);
    var after := WithHeader(file, h');
    WipeErases(h, draws.wipe0, draws.wipe1);
    SiblingHeaderReads(file, h, h');
    assert after[HEADER_SIZE..] == file[HEADER_SIZE..];
    forall password, dek ensures !Unlocks(after, password, dek) {
      WipedUnlock(h', password);
    }
  }

  lemma ChangeReadsBack(file: Bytes, h: Header, op: Op, h': Header, reach: Reach, dek: Bytes)
    requires ReadHeaderOf(file) == Ok(h) && Intact(h, dek) && Outcome(h, op, h', reach) && reach != WipedOut
    ensures ReadHeaderOf(WithHeader(file, h')) == Ok(h')
  {
    OutcomeSafe(h, dek, op, h', reach);
    SiblingHeaderReads(file, h, h');
  }

  lemma FinishedOnDisk(file: Bytes, h: Header, op: Op, h': Header, p: string, dek: Bytes)
    requires ReadHeaderOf(file) == Ok(h) && Outcome(h, op, h', Finished) && Intact(h, dek)
    ensures Unlocks(WithHeader(file, h'), p, dek) <==> p == op.newPassword
  {
    ChangeReadsBack(file, h, op, h', Finished, dek);
    ChangeDone(h, dek, op, h');
  }

  lemma UnfinishedOnDisk(file: Bytes, h: Header, op: Op, h': Header, reach: Reach, p: string, dek: Bytes)
    requires ReadHeaderOf(file) == Ok(h) && Outcome(h, op, h', reach) && (reach == Untouched || reach == HalfWay)
    requires Intact(h, dek) && Master(h, dek, p)
    ensures Unlocks(WithHeader(file, h'), p, dek)
  {
    ChangeReadsBack(file, h, op, h', reach, dek);
    UnfinishedKeepsMaster(h, dek, op, h', reach, p);
  }

  /** What a change leaves of an intact container: every former master password, or the new one alone. */
  lemma ChangeOnDisk(file: Bytes, h: Header, op: Op, h': Header, reach: Reach)
    requires ReadHeaderOf(file) == Ok(h) && op.Change? && Outcome(h, op, h', reach) && reach != WipedOut
    ensures reach != Finished ==> forall p, dek :: MasterOf(file, p, dek) ==> Unlocks(WithHeader(file, h'), p, dek)
    ensures reach == Finished ==>
      forall p, dek, m :: MasterOf(file, m, dek) ==> (Unlocks(WithHeader(file, h'), p, dek) <==> p == op.newPassword)
  {
    if reach == Finished {
      forall p, dek, m | MasterOf(file, m, dek) ensures Unlocks(WithHeader(file, h'), p, dek) <==> p == op.newPassword {
        FinishedOnDisk(file, h, op, h', p, dek);
      }
    } else {
      forall p, dek | MasterOf(file, p, dek) ensures Unlocks(WithHeader(file, h'), p, dek) {
        UnfinishedOnDisk(file, h, op, h', reach, p, dek);
      }
    }
  }

  lemma HeaderOnDisk(file: Bytes)
    requires ReadHeaderOf(file).Ok?
    ensures file == WithHeader(file, ReadHeaderOf(file).value)
  {
    assert file == file[..HEADER_SIZE] + file[HEADER_SIZE..];
  }

  /** A header that agrees outside the slots and unlocks to the same DEK leaves index and chunks readable. */
  lemma SiblingHeaderOpens(file: Bytes, password: string, h': Header, password': string)
    requires OpenSpec(file, password).Ok?
    requires SameImmutable(OpenSpec(file, password).value.header, h') && ValidHeader(h')
    requires Unlock(h', password') == Ok(Unlocked(OpenSpec(file, password).value.dek))
    ensures var o, o' := OpenSpec(file, password).value, OpenSpec(WithHeader(file, h'), password');
      && o'.Ok? && o'.value.index == o.index && o'.value.dek == o.dek
      && forall e, i: u64 :: DecryptChunk(o, e, i).Ok? ==> DecryptChunk(o'.value, e, i) == DecryptChunk(o, e, i)
  {
    var o := OpenSpec(file, password).value;
    SiblingOpens(file, password, h', password');
    var o' := OpenSpec(WithHeader(file, h'), password').value;
    forall e, i: u64 | DecryptChunk(o, e, i).Ok? ensures DecryptChunk(o', e, i) == DecryptChunk(o, e, i) {
      SiblingChunk(o, o', e, i);
    }
  }

  lemma SiblingOpens(file: Bytes, password: string, h': Header, password': string)
    requires OpenSpec(file, password).Ok?
    requires SameImmutable(OpenSpec(file, password).value.header, h') && ValidHeader(h')
    requires Unlock(h', password') == Ok(Unlocked(OpenSpec(file, password).value.dek))
    ensures var o := OpenSpec(file, password).value;
      OpenSpec(WithHeader(file, h'), password') == Ok(Opened(WithHeader(file, h'), h', o.index, o.dek, o.dataStart))
  {
    var o := OpenSpec(file, password).value;
    var h := o.header;
    SiblingHeaderReads(file, h, h');
    SiblingIndex(file, h, h', o.dek);
  }

  lemma SiblingHeaderReads(file: Bytes, h: Header, h': Header)
    requires |file| >= HEADER_SIZE && ValidHeaderFor(h, |file|) && SameImmutable(h, h') && ValidHeader(h')
    ensures ReadHeaderOf(WithHeader(file, h')) == Ok(h')
  {
    var file' := WithHeader(file, h');
    assert file'[..HEADER_SIZE] == EncodeHeader(h');
    HeaderReads(file', h');
  }

  lemma SiblingChunk(o: Opened, o': Opened, e: Entry, i: u64)
    requires SameImmutable(o.header, o'.header) && o.dek == o'.dek && o.dataStart == o'.dataStart >= HEADER_SIZE
    requires |o.file| >= HEADER_SIZE && o'.file == WithHeader(o.file, o'.header)
    ensures DecryptChunk(o, e, i) == DecryptChunk(o', e, i)
  {
    var request := ChunkRequest(o.dataStart, e, i);
    if request.Ok? {
      var (position, n) := request.value;
      ReadBehindHeader(o.file, o'.header, position, n + TAG_SIZE);
    }
  }

  lemma ReadBehindHeader(file: Bytes, h: Header, position: nat, len: nat)
    requires |file| >= HEADER_SIZE && position >= HEADER_SIZE
    ensures ReadAt(WithHeader(file, h), position, len) == ReadAt(file, position, len)
  {
    if position + len <= |file| {
      assert file[position..position + len] == WithHeader(file, h)[position..position + len];
    }
  }

  lemma SiblingIndex(file: Bytes, h: Header, h': Header, dek: Bytes)
    requires SameImmutable(h, h') && HEADER_SIZE + h.indexSize <= |file|
    ensures ReadEntries(WithHeader(file, h'), h', dek) == ReadEntries(file, h, dek)
  {
    SameImmutableAad(h, h', h.slot0);
    ReadBehindHeader(file, h', HEADER_SIZE, h.indexSize);
  }

  /**
   Any run of password changes and opens, crashes included, that is not a wipe leaves the container openable
   with the same index and chunks.
   */
  lemma ContentsSurviveRuns(file: Bytes, password: string, hs: seq<Header>, ops: seq<Op>, reach: seq<Reach>,
                            k: nat, password': string)
    requires OpenSpec(file, password).Ok? && Run(hs, ops, reach) && k < |hs|
    requires hs[0] == OpenSpec(file, password).value.header && Intact(hs[0], OpenSpec(file, password).value.dek)
    requires Opens(hs[k], password', OpenSpec(file, password).value.dek)
    ensures var o, o' := OpenSpec(file, password).value, OpenSpec(WithHeader(file, hs[k]), password');
      && o'.Ok? && o'.value.index == o.index
      && forall e, i: u64 :: DecryptChunk(o, e, i).Ok? ==> DecryptChunk(o'.value, e, i) == DecryptChunk(o, e, i)
  {
    var dek := OpenSpec(file, password).value.dek;
    RunSafe(hs, ops, reach, dek, k);
    UnlockIff(hs[k], dek, password');
    SiblingHeaderOpens(file, password, hs[k], password');
  }
}
