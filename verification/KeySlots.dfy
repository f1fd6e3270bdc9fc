/** Password slots: unlocking, the two-write password change, and the duress wipe. */
module KeySlots {
  import opened Common
  import opened Sequences
  import opened Format
  import opened Binding

  // ---------- Header checks ----------

  const DEFAULT_PARAMS := Argon2Params(65_536, 3, 4)

  predicate ValidArgon2(p: Argon2Params) {
    8_192 <= p.mCost <= 1_048_576 && 1 <= p.tCost <= 10 && 1 <= p.pCost <= 16
  }

  predicate ValidHeader(h: Header) {
    && h.magic == MAGIC && h.version == VERSION && h.headerSize == HEADER_SIZE && h.chunkSize == CHUNK_SIZE
    && TAG_SIZE <= h.indexSize <= MAX_INDEX_SIZE
    && h.entryCount <= MAX_ENTRIES
    && (h.slot0.generation > 0 ==> ValidArgon2(h.slot0.params))
    && (h.slot1.generation > 0 ==> ValidArgon2(h.slot1.params))
    && (h.duress.enabled ==> ValidArgon2(h.duress.params))
  }

  /** `validate_header_basic` with the file length. */
  predicate ValidHeaderFor(h: Header, fileLen: nat) {
    ValidHeader(h) && HEADER_SIZE + h.indexSize + h.dataSize < U64_LIMIT && HEADER_SIZE + h.indexSize + h.dataSize == fileLen
  }

  // ---------- Slots ----------

  /** Random bytes drawn for one slot. */
  datatype Draw = Draw(salt: Blob16, nonce: Blob12, junk: seq<byte>)

  const ANY_DRAW: Draw := Draw(ZERO_ID, [0, 0, 0, 0, 0, 0, 0, 0, 0, 0, 0, 0], [])

  function DisabledSlot(d: Draw): KeySlot {
    KeySlot(0, d.salt, DEFAULT_PARAMS, d.nonce, Lift(d.junk))
  }

  function MakeKeySlot(h: Header, password: string, dek: Bytes, generation: u64, params: Argon2Params,
                       d: Draw): Result<KeySlot> {
    if !ValidArgon2(params) then Err(InvalidHeader)
    else
      var slot := DisabledSlot(d).(generation := generation, params := params);
      Ok(slot.(encryptedDek := Encrypt(Argon2(password, slot.salt, params), slot.nonce, SlotAad(h, slot), dek)))
  }

  datatype UnlockResult = Unlocked(dek: Bytes) | Duress | Failed

  function TrySlot(h: Header, slot: KeySlot, password: string): Option<Bytes> {
    if slot.generation == 0 then None
    else match Decrypt(Argon2(password, slot.salt, slot.params), slot.nonce, SlotAad(h, slot), slot.encryptedDek)
      case Some(dek) => if |dek| == 32 then Some(dek) else None
      case None => None
  }

  function DuressMarker(h: Header): Bytes {
    Blake3(Lift(Ascii("cipherfs-v2/duress-marker")) + Lift(h.containerId))
  }

  predicate DuressMatches(h: Header, password: string) {
    h.duress.enabled &&
    Decrypt(Argon2(password, h.duress.salt, h.duress.params), h.duress.nonce, DuressAad(h), h.duress.encryptedMarker)
    == Some(DuressMarker(h))
  }

  /** Tries the active slots from the newest generation down, then the duress verifier. */
  function Unlock(h: Header, password: string): Result<UnlockResult> {
    if !ValidHeader(h) then Err(InvalidHeader)
    else
      var newer, older := if h.slot1.generation > h.slot0.generation then h.slot1 else h.slot0,
                          if h.slot1.generation > h.slot0.generation then h.slot0 else h.slot1;
      match TrySlot(h, newer, password)
      case Some(dek) => Ok(Unlocked(dek))
      case None =>
        match TrySlot(h, older, password)
        case Some(dek) => Ok(Unlocked(dek))
        case None => if DuressMatches(h, password) then Ok(Duress) else Ok(Failed)
  }

  function ConfigureDuress(h: Header, password: Option<string>, params: Argon2Params, d: Draw): Result<Header> {
    var off := h.(duress := DuressSlot(false, d.salt, params, d.nonce, Lift(d.junk)));
    match password
    case None => Ok(off)
    case Some(pw) =>
      if !ValidArgon2(params) then Err(InvalidHeader)
      else
        var on := off.(duress := off.duress.(enabled := true));
        Ok(on.(duress := on.duress.(encryptedMarker :=
          Encrypt(Argon2(pw, d.salt, params), d.nonce, DuressAad(on), DuressMarker(on)))))
  }

  /** The slot wraps `dek` under `password` for this header. */
  ghost predicate Wraps(h: Header, slot: KeySlot, password: string, dek: Bytes) {
    slot.encryptedDek == Encrypt(Argon2(password, slot.salt, slot.params), slot.nonce, SlotAad(h, slot), dek)
  }

  lemma MadeSlotWraps(h: Header, password: string, dek: Bytes, generation: u64, params: Argon2Params, d: Draw)
    requires ValidArgon2(params)
    ensures MakeKeySlot(h, password, dek, generation, params, d).Ok?
    ensures var slot := MakeKeySlot(h, password, dek, generation, params, d).value;
      slot.generation == generation && slot.params == params && Wraps(h, slot, password, dek)
  {
  }

  /** A slot opens for exactly the password it was wrapped under, and yields exactly the wrapped key. */
  lemma TrySlotIff(h: Header, slot: KeySlot, password: string, dek: Bytes)
    ensures TrySlot(h, slot, password) == Some(dek) <==> slot.generation > 0 && |dek| == 32 && Wraps(h, slot, password, dek)
  {
    DecryptIff(Argon2(password, slot.salt, slot.params), slot.nonce, SlotAad(h, slot), slot.encryptedDek, dek);
  }

  lemma WrapsUnique(h: Header, slot: KeySlot, p: string, d: Bytes, q: string, e: Bytes)
    requires Wraps(h, slot, p, d) && Wraps(h, slot, q, e)
    ensures p == q && d == e
  {
    EncryptInjective(Argon2(p, slot.salt, slot.params), slot.nonce, SlotAad(h, slot), d,
                     Argon2(q, slot.salt, slot.params), slot.nonce, SlotAad(h, slot), e);
  }

  // ---------- The state that every operation keeps ----------

  predicate Active(slot: KeySlot) {
    slot.generation > 0
  }

  ghost predicate WrapsSome(h: Header, slot: KeySlot, dek: Bytes) {
    exists password :: Wraps(h, slot, password, dek)
  }

  /** Some slot is active, active generations differ, and every active slot wraps the one DEK. */
  ghost predicate Intact(h: Header, dek: Bytes) {
    && ValidHeader(h) && |dek| == 32
    && (Active(h.slot0) || Active(h.slot1))
    && (Active(h.slot0) && Active(h.slot1) ==> h.slot0.generation != h.slot1.generation)
    && (Active(h.slot0) ==> WrapsSome(h, h.slot0, dek))
    && (Active(h.slot1) ==> WrapsSome(h, h.slot1, dek))
  }

  ghost predicate IsWiped(h: Header) {
    ValidHeader(h) && !Active(h.slot0) && !Active(h.slot1)
  }

  /** `password` is the master password of some active slot. */
  ghost predicate Opens(h: Header, password: string, dek: Bytes) {
    || (Active(h.slot0) && Wraps(h, h.slot0, password, dek))
    || (Active(h.slot1) && Wraps(h, h.slot1, password, dek))
  }

  /** In an intact header a password unlocks if and only if an active slot was made for it, always to the same DEK. */
  lemma UnlockIff(h: Header, dek: Bytes, password: string)
    requires Intact(h, dek)
    ensures Unlock(h, password) == Ok(Unlocked(dek)) <==> Opens(h, password, dek)
    ensures Unlock(h, password).Ok? && (Unlock(h, password).value.Unlocked? ==> Unlock(h, password).value.dek == dek)
    ensures !Opens(h, password, dek) ==> Unlock(h, password) == Ok(if DuressMatches(h, password) then Duress else Failed)
  {
    SlotOpens(h, h.slot0, dek, password);
    SlotOpens(h, h.slot1, dek, password);
  }

  lemma SlotOpens(h: Header, slot: KeySlot, dek: Bytes, password: string)
    requires |dek| == 32 && (Active(slot) ==> WrapsSome(h, slot, dek))
    ensures TrySlot(h, slot, password) == (if Active(slot) && Wraps(h, slot, password, dek) then Some(dek) else None)
  {
    TrySlotIff(h, slot, password, dek);
    if TrySlot(h, slot, password).Some? {
      var d := TrySlot(h, slot, password).value;
      TrySlotIff(h, slot, password, d);
      var p :| Wraps(h, slot, p, dek);
      WrapsUnique(h, slot, p, dek, password, d);
    }
  }

  /** The newest slot that opens decides, slot 0 at equal generations; the duress verifier comes last. */
  lemma UnlockNewestFirst(h: Header, password: string)
    requires ValidHeader(h)
    ensures var a, b := TrySlot(h, h.slot0, password), TrySlot(h, h.slot1, password);
      && (a.Some? && (b.None? || h.slot0.generation >= h.slot1.generation) ==> Unlock(h, password) == Ok(Unlocked(a.value)))
      && (b.Some? && (a.None? || h.slot0.generation < h.slot1.generation) ==> Unlock(h, password) == Ok(Unlocked(b.value)))
      && (a.None? && b.None? ==> Unlock(h, password) == Ok(if DuressMatches(h, password) then Duress else Failed))
  {
  }

  lemma MarkerInjective(a: Header, b: Header)
    requires DuressMarker(a) == DuressMarker(b)
    ensures a.containerId == b.containerId
  {
    var context := Lift(Ascii("cipherfs-v2/duress-marker"));
    Blake3Injective(context + Lift(a.containerId), context + Lift(b.containerId));
    assert (context + Lift(a.containerId))[|context|..] == Lift(a.containerId);
    assert (context + Lift(b.containerId))[|context|..] == Lift(b.containerId);
    LiftInjective(a.containerId, b.containerId);
  }

  /** A duress verifier answers to its own password only, and only in the container it was made for. */
  lemma DuressOpensOnlyInPlace(base: Header, password: string, params: Argon2Params, d: Draw, h: Header, q: string)
    requires ValidArgon2(params)
    requires h.duress.encryptedMarker == ConfigureDuress(base, Some(password), params, d).value.duress.encryptedMarker
    requires DuressMatches(h, q)
    ensures q == password && SameDuress(ConfigureDuress(base, Some(password), params, d).value, h)
  {
    var made := ConfigureDuress(base, Some(password), params, d).value;
    DecryptIff(Argon2(q, h.duress.salt, h.duress.params), h.duress.nonce, DuressAad(h), h.duress.encryptedMarker, DuressMarker(h));
    EncryptInjective(Argon2(password, d.salt, params), d.nonce, DuressAad(made), DuressMarker(made),
                     Argon2(q, h.duress.salt, h.duress.params), h.duress.nonce, DuressAad(h), DuressMarker(h));
    DuressAadInjective(made, h);
  }

  lemma WrapsInSibling(a: Header, b: Header, slot: KeySlot, password: string, dek: Bytes)
    requires SameImmutable(a, b)
    ensures Wraps(a, slot, password, dek) <==> Wraps(b, slot, password, dek)
  {
    SameImmutableAad(a, b, slot);
  }

  lemma DuressInSibling(a: Header, b: Header, password: string)
    requires SameImmutable(a, b)
    ensures DuressMatches(a, password) <==> DuressMatches(b, password)
  {
    SameImmutableAad(a, b, a.slot0);
  }

  // ---------- Operations ----------

  function Wiped(h: Header, d0: Draw, d1: Draw): Header {
    h.(slot0 := KeySlot(0, d0.salt, h.slot0.params, d0.nonce, Lift(d0.junk)),
       slot1 := KeySlot(0, d1.salt, h.slot1.params, d1.nonce, Lift(d1.junk)))
  }

  function Highest(h: Header): u64 {
    if h.slot0.generation <= h.slot1.generation then h.slot1.generation else h.slot0.generation
  }

  /** The header of the first write: the older slot is replaced by one for the new password. */
  function FirstWrite(h: Header, password: string, dek: Bytes, d: Draw): Result<Header> {
    if Highest(h) + 1 >= U64_LIMIT then Err(Overflow)
    else if h.slot0.generation <= h.slot1.generation then
      match MakeKeySlot(h, password, dek, Highest(h) + 1, h.slot1.params, d)
      case Ok(slot) => Ok(h.(slot0 := slot))
      case Err(e) => Err(e)
    else
      match MakeKeySlot(h, password, dek, Highest(h) + 1, h.slot0.params, d)
      case Ok(slot) => Ok(h.(slot1 := slot))
      case Err(e) => Err(e)
  }

  /** The header of the second write: the slot that was newest before is disabled. */
  function SecondWrite(h: Header, first: Header, d: Draw): Header {
    if h.slot0.generation <= h.slot1.generation then first.(slot1 := DisabledSlot(d)) else first.(slot0 := DisabledSlot(d))
  }

  /** Random draws of one operation: the new slot, the disabled slot, and two for a wipe. */
  datatype Draws = Draws(made: Draw, disabled: Draw, wipe0: Draw, wipe1: Draw)

  datatype Op = Change(oldPassword: string, newPassword: string, draws: Draws) | Open(password: string, draws: Draws)

  /** How far an operation got: no header write, the wipe, the first write of a change, or both of its writes. */
  datatype Reach = Untouched | WipedOut | HalfWay | Finished

  /** The duress password was entered, and for a change the new password is another one. */
  ghost predicate AsksWipe(h: Header, op: Op) {
    match op
    case Change(oldPw, newPw, _) => Unlock(h, newPw).Ok? && Unlock(h, newPw) != Ok(Duress) && Unlock(h, oldPw) == Ok(Duress)
    case Open(pw, _) => Unlock(h, pw) == Ok(Duress)
  }

  /** A change that gets as far as its header writes. */
  ghost predicate MayChange(h: Header, op: Op) {
    && op.Change?
    && Unlock(h, op.newPassword).Ok? && Unlock(h, op.newPassword) != Ok(Duress)
    && Unlock(h, op.oldPassword).Ok? && Unlock(h, op.oldPassword).value.Unlocked?
    && FirstWrite(h, op.newPassword, Unlock(h, op.oldPassword).value.dek, op.draws.made).Ok?
  }

  /** The header on disk after `op`, which may be cancelled or cut off before any header write. */
  ghost predicate Outcome(h: Header, op: Op, h': Header, reach: Reach) {
    match reach
    case Untouched => h' == h
    case WipedOut => AsksWipe(h, op) && h' == Wiped(h, op.draws.wipe0, op.draws.wipe1)
    case HalfWay =>
      MayChange(h, op) && h' == FirstWrite(h, op.newPassword, Unlock(h, op.oldPassword).value.dek, op.draws.made).value
    case Finished =>
      && MayChange(h, op)
      && h' == SecondWrite(h, FirstWrite(h, op.newPassword, Unlock(h, op.oldPassword).value.dek, op.draws.made).value,
                           op.draws.disabled)
  }

  /** No generation in the header is higher. */
  predicate Newest(h: Header, slot: KeySlot) {
    slot.generation >= h.slot0.generation && slot.generation >= h.slot1.generation
  }

  /** `password` opens a slot of the highest generation. */
  ghost predicate Master(h: Header, dek: Bytes, password: string) {
    || (Newest(h, h.slot0) && TrySlot(h, h.slot0, password) == Some(dek))
    || (Newest(h, h.slot1) && TrySlot(h, h.slot1, password) == Some(dek))
  }

  /** An intact header has exactly one master password, and it unlocks. */
  lemma MasterUnique(h: Header, dek: Bytes, p: string, q: string)
    requires Intact(h, dek) && Master(h, dek, p)
    ensures Unlock(h, p) == Ok(Unlocked(dek))
    ensures Master(h, dek, q) ==> p == q
  {
    MasterWraps(h, dek, p);
    UnlockIff(h, dek, p);
    if Master(h, dek, q) {
      MasterWraps(h, dek, q);
      WrapsUnique(h, if Newest(h, h.slot0) then h.slot0 else h.slot1, p, dek, q, dek);
    }
  }

  lemma MasterWraps(h: Header, dek: Bytes, p: string)
    requires Intact(h, dek)
    ensures Master(h, dek, p) <==> Wraps(h, if Newest(h, h.slot0) then h.slot0 else h.slot1, p, dek)
  {
    TrySlotIff(h, h.slot0, p, dek);
    TrySlotIff(h, h.slot1, p, dek);
  }

  lemma MasterExists(h: Header, dek: Bytes) returns (p: string)
    requires Intact(h, dek)
    ensures Master(h, dek, p)
  {
    p :| Wraps(h, if Newest(h, h.slot0) then h.slot0 else h.slot1, p, dek);
    MasterWraps(h, dek, p);
  }

  /** The slot carries random bytes only, and nothing that was ever sealed. */
  ghost predicate Erased(slot: KeySlot, d: Draw) {
    && slot.generation == 0 && slot.salt == d.salt && slot.nonce == d.nonce
    && |slot.encryptedDek| == |d.junk| && forall i :: 0 <= i < |d.junk| ==> slot.encryptedDek[i] == Raw(d.junk[i])
  }

  lemma FirstWriteIntact(h: Header, dek: Bytes, password: string, d: Draw)
    requires Intact(h, dek) && FirstWrite(h, password, dek, d).Ok?
    ensures var first := FirstWrite(h, password, dek, d).value;
      && Intact(first, dek) && SameImmutable(h, first) && Master(first, dek, password)
      && (forall p :: Opens(first, p, dek) ==> p == password || Opens(h, p, dek))
      && (forall p :: Master(h, dek, p) ==> Opens(first, p, dek))
  {
    var first := FirstWrite(h, password, dek, d).value;
    var made := if h.slot0.generation <= h.slot1.generation then first.slot0 else first.slot1;
    var kept := if h.slot0.generation <= h.slot1.generation then h.slot1 else h.slot0;
    WrapsInSibling(h, first, made, password, dek);
    assert Wraps(first, made, password, dek);
    forall p: string ensures Wraps(first, kept, p, dek) <==> Wraps(h, kept, p, dek) {
      WrapsInSibling(h, first, kept, p, dek);
    }
    forall p | Wraps(first, made, p, dek) ensures p == password {
      WrapsUnique(first, made, p, dek, password, dek);
    }
    MasterWraps(first, dek, password);
    forall p | Master(h, dek, p) ensures Opens(first, p, dek) {
      MasterWraps(h, dek, p);
    }
  }

  lemma SecondWriteIntact(h: Header, dek: Bytes, password: string, r: Draws)
    requires Intact(h, dek) && FirstWrite(h, password, dek, r.made).Ok?
    ensures var second := SecondWrite(h, FirstWrite(h, password, dek, r.made).value, r.disabled);
      && Intact(second, dek) && SameImmutable(h, second) && Master(second, dek, password)
      && (Active(second.slot0) <==> !Active(second.slot1))
      && forall p :: Opens(second, p, dek) <==> p == password
  {
    var first := FirstWrite(h, password, dek, r.made).value;
    var second := SecondWrite(h, first, r.disabled);
    var made := if h.slot0.generation <= h.slot1.generation then first.slot0 else first.slot1;
    WrapsInSibling(h, second, made, password, dek);
    assert Wraps(second, made, password, dek);
    forall p | Wraps(second, made, p, dek) ensures p == password {
      WrapsUnique(second, made, p, dek, password, dek);
    }
    MasterWraps(second, dek, password);
  }

  /**
   The two headers of a password change from an intact container: the new password is the master from the first write on,
   nobody else gains access, and after the first write the former master password still unlocks.
   */
  lemma ChangeSafe(h: Header, dek: Bytes, op: Op, h': Header, reach: Reach, p: string)
    requires Intact(h, dek) && op.Change? && Outcome(h, op, h', reach) && (reach == HalfWay || reach == Finished)
    ensures SameImmutable(h, h') && Intact(h', dek)
    ensures Master(h', dek, op.newPassword) && Unlock(h', op.newPassword) == Ok(Unlocked(dek))
    ensures reach == HalfWay && Master(h, dek, p) ==> Unlock(h', p) == Ok(Unlocked(dek))
    ensures Unlock(h', p) == Ok(Unlocked(dek)) ==> p == op.newPassword || (reach == HalfWay && Unlock(h, p) == Ok(Unlocked(dek)))
  {
    UnlockIff(h, dek, op.oldPassword);
    FirstWriteIntact(h, dek, op.newPassword, op.draws.made);
    SecondWriteIntact(h, dek, op.newPassword, op.draws);
    UnlockIff(h', dek, op.newPassword);
    UnlockIff(h, dek, p);
    UnlockIff(h', dek, p);
    MasterUnique(h', dek, op.newPassword, p);
  }

  /** The duress password leaves no active slot and nothing of either wrapped key. */
  lemma WipeErases(h: Header, d0: Draw, d1: Draw)
    requires ValidHeader(h)
    ensures SameImmutable(h, Wiped(h, d0, d1)) && IsWiped(Wiped(h, d0, d1))
    ensures Erased(Wiped(h, d0, d1).slot0, d0) && Erased(Wiped(h, d0, d1).slot1, d1)
    ensures Wiped(h, d0, d1).slot0.params == h.slot0.params && Wiped(h, d0, d1).slot1.params == h.slot1.params
  {
  }

  /** An operation that did not finish leaves the master password in place. */
  lemma UnfinishedKeepsMaster(h: Header, dek: Bytes, op: Op, h': Header, reach: Reach, p: string)
    requires Intact(h, dek) && Outcome(h, op, h', reach) && (reach == Untouched || reach == HalfWay) && Master(h, dek, p)
    ensures Unlock(h', p) == Ok(Unlocked(dek))
  {
    MasterUnique(h, dek, p, p);
    if reach == HalfWay {
      ChangeSafe(h, dek, op, h', reach, p);
    }
  }

  /**
   Crash safety of one operation on an intact container: it stays intact, or the duress password was entered and both
   slots are erased.  Unless it finished or wiped, the master password still unlocks.
   */
  lemma OutcomeSafe(h: Header, dek: Bytes, op: Op, h': Header, reach: Reach)
    requires Intact(h, dek) && Outcome(h, op, h', reach)
    ensures SameImmutable(h, h')
    ensures reach != WipedOut ==> Intact(h', dek)
    ensures reach == WipedOut ==> IsWiped(h') && Erased(h'.slot0, op.draws.wipe0) && Erased(h'.slot1, op.draws.wipe1)
    ensures reach == WipedOut ==> Unlock(h, if op.Change? then op.oldPassword else op.password) == Ok(Duress)
    ensures reach == Untouched ==> h' == h
    ensures reach == Untouched || reach == HalfWay ==> forall p :: Master(h, dek, p) ==> Unlock(h', p) == Ok(Unlocked(dek))
    ensures reach == HalfWay || reach == Finished ==> op.Change? && Master(h', dek, op.newPassword)
  {
    if reach == WipedOut {
      WipeErases(h, op.draws.wipe0, op.draws.wipe1);
    }
    if reach == HalfWay || reach == Finished {
      ChangeSafe(h, dek, op, h', reach, "");
    }
    if reach == Untouched || reach == HalfWay {
      forall p | Master(h, dek, p) ensures Unlock(h', p) == Ok(Unlocked(dek)) {
        UnfinishedKeepsMaster(h, dek, op, h', reach, p);
      }
    }
  }

  /**
   A finished change leaves exactly one active slot, which only the new password opens: it was made from fresh salt and
   nonce with the key-derivation cost of the slot that was newest before, and the other slot is erased.
   */
  lemma ChangeDone(h: Header, dek: Bytes, op: Op, h': Header)
    requires Intact(h, dek) && Outcome(h, op, h', Finished)
    ensures Intact(h', dek) && (Active(h'.slot0) <==> !Active(h'.slot1))
    ensures forall p :: Unlock(h', p) == Ok(Unlocked(dek)) <==> p == op.newPassword
    ensures MadeFrom(h, if Active(h'.slot0) then h'.slot0 else h'.slot1, op.draws.made)
    ensures var other := if Active(h'.slot0) then h'.slot1 else h'.slot0;
      Erased(other, op.draws.disabled) && other.params == Argon2Params(65_536, 3, 4)
  {
    UnlockIff(h, dek, op.oldPassword);
    SecondWriteIntact(h, dek, op.newPassword, op.draws);
    forall p: string ensures Unlock(h', p) == Ok(Unlocked(dek)) <==> p == op.newPassword {
      UnlockIff(h', dek, p);
    }
  }

  /** A slot one generation above every slot of `h`, with the parameters of the newest one. */
  ghost predicate MadeFrom(h: Header, slot: KeySlot, d: Draw) {
    && slot.salt == d.salt && slot.nonce == d.nonce
    && slot.generation > h.slot0.generation && slot.generation > h.slot1.generation
    && (slot.generation == h.slot0.generation + 1 || slot.generation == h.slot1.generation + 1)
    && (h.slot0.generation > h.slot1.generation ==> slot.params == h.slot0.params)
    && (h.slot0.generation < h.slot1.generation ==> slot.params == h.slot1.params)
  }

  /**
   A change gets to its header writes if and only if the old password unlocks, the new one is not the duress password
   and both generations leave room for another one.
   */
  lemma MayChangeIff(h: Header, op: Op)
    requires ValidHeader(h) && op.Change?
    ensures MayChange(h, op) <==>
            && Unlock(h, op.newPassword) != Ok(Duress)
            && Unlock(h, op.oldPassword).Ok? && Unlock(h, op.oldPassword).value.Unlocked?
            && h.slot0.generation < U64_LIMIT - 1 && h.slot1.generation < U64_LIMIT - 1
  {
  }

  /** Once wiped, no password unlocks and no operation brings a slot back. */
  lemma WipedUnlock(h: Header, password: string)
    requires IsWiped(h)
    ensures Unlock(h, password) == Ok(if DuressMatches(h, password) then Duress else Failed)
  {
  }

  lemma WipedForever(h: Header, op: Op, h': Header, reach: Reach, password: string)
    requires IsWiped(h) && Outcome(h, op, h', reach)
    ensures Unlock(h, password) == Ok(if DuressMatches(h, password) then Duress else Failed)
    ensures IsWiped(h') && SameImmutable(h, h') && (reach == Untouched || reach == WipedOut)
  {
  }

  // ---------- Runs ----------

  /** `hs[k]` is the header on disk after the first `k` operations, each of which got as far as `reach` says. */
  ghost predicate Run(hs: seq<Header>, ops: seq<Op>, reach: seq<Reach>) {
    && |hs| == |ops| + 1 && |reach| == |ops|
    && (forall k :: 0 <= k < |ops| ==> Ran(hs, ops, reach, k))
  }

  ghost predicate Ran(hs: seq<Header>, ops: seq<Op>, reach: seq<Reach>, k: nat)
    requires k < |ops| == |reach| == |hs| - 1
  {
    Outcome(hs[k], ops[k], hs[k + 1], reach[k])
  }

  lemma SameImmutableTwice(a: Header, b: Header, c: Header)
    requires SameImmutable(a, b) && SameImmutable(b, c)
    ensures SameImmutable(a, c)
  {
  }

  /** One of the first `k` operations wiped the container. */
  predicate WipedBefore(reach: seq<Reach>, k: nat)
    requires k <= |reach|
  {
    exists j :: 0 <= j < k && reach[j] == WipedOut
  }

  /** What a run has made of the header: wiped, or intact with the same fields outside the slots. */
  ghost predicate SafeAt(h0: Header, h: Header, dek: Bytes, wiped: bool) {
    SameImmutable(h0, h) && if wiped then IsWiped(h) else Intact(h, dek)
  }

  lemma NextSafe(h0: Header, h: Header, op: Op, h': Header, reach: Reach, dek: Bytes, wiped: bool)
    requires Outcome(h, op, h', reach) && SafeAt(h0, h, dek, wiped)
    ensures SafeAt(h0, h', dek, wiped || reach == WipedOut)
  {
    if wiped {
      WipedForever(h, op, h', reach, "");
    } else {
      OutcomeSafe(h, dek, op, h', reach);
    }
    SameImmutableTwice(h0, h, h');
  }

  /** After any sequence of changes and opens with any crashes the container is intact, or was wiped for good. */
  lemma {:induction false} RunSafe(hs: seq<Header>, ops: seq<Op>, reach: seq<Reach>, dek: Bytes, k: nat)
    requires Run(hs, ops, reach) && Intact(hs[0], dek) && k < |hs|
    ensures SafeAt(hs[0], hs[k], dek, WipedBefore(reach, k))
  {
    if k > 0 {
      RunSafe(hs, ops, reach, dek, k - 1);
      assert Ran(hs, ops, reach, k - 1);
      NextSafe(hs[0], hs[k - 1], ops[k - 1], hs[k], reach[k - 1], dek, WipedBefore(reach, k - 1));
      assert WipedBefore(reach, k) <==> WipedBefore(reach, k - 1) || reach[k - 1] == WipedOut;
    }
  }

  /** The new password of the last of the first `k` operations that wrote a slot for one. */
  function MasterAfter(master: string, ops: seq<Op>, reach: seq<Reach>, k: nat): string
    requires k <= |ops| == |reach|
  {
    if k == 0 then master
    else if (reach[k - 1] == HalfWay || reach[k - 1] == Finished) && ops[k - 1].Change? then ops[k - 1].newPassword
    else MasterAfter(master, ops, reach, k - 1)
  }

  lemma NextKeepsMaster(h0: Header, h: Header, op: Op, h': Header, reach: Reach, dek: Bytes, p: string)
    requires Outcome(h, op, h', reach) && SafeAt(h0, h, dek, false) && Master(h, dek, p) && reach != WipedOut
    ensures reach != Finished ==> Unlock(h', p) == Ok(Unlocked(dek))
    ensures if reach == Untouched then Master(h', dek, p) else op.Change? && Master(h', dek, op.newPassword)
  {
    OutcomeSafe(h, dek, op, h', reach);
  }

  lemma MasterUnlocks(h0: Header, h: Header, dek: Bytes, p: string)
    requires SafeAt(h0, h, dek, false) && Master(h, dek, p)
    ensures Unlock(h, p) == Ok(Unlocked(dek))
  {
    MasterUnique(h, dek, p, p);
  }

  /**
   Nobody is ever locked out: over every run with any crashes that holds no wipe, the last password that reached a slot
   unlocks, and so does the one before it when the last operation was cut off half way.
   */
  lemma {:induction false} MasterAlwaysOpens(hs: seq<Header>, ops: seq<Op>, reach: seq<Reach>, dek: Bytes, master: string, k: nat)
    requires Run(hs, ops, reach) && Intact(hs[0], dek) && Master(hs[0], dek, master) && k < |hs| && !WipedBefore(reach, k)
    ensures Master(hs[k], dek, MasterAfter(master, ops, reach, k))
    ensures Unlock(hs[k], MasterAfter(master, ops, reach, k)) == Ok(Unlocked(dek))
    ensures k > 0 && reach[k - 1] != Finished ==> Unlock(hs[k], MasterAfter(master, ops, reach, k - 1)) == Ok(Unlocked(dek))
  {
    RunSafe(hs, ops, reach, dek, k);
    if k > 0 {
      assert !WipedBefore(reach, k - 1) && reach[k - 1] != WipedOut;
      RunSafe(hs, ops, reach, dek, k - 1);
      MasterAlwaysOpens(hs, ops, reach, dek, master, k - 1);
      assert Ran(hs, ops, reach, k - 1);
      NextKeepsMaster(hs[0], hs[k - 1], ops[k - 1], hs[k], reach[k - 1], dek, MasterAfter(master, ops, reach, k - 1));
    }
    MasterUnlocks(hs[0], hs[k], dek, MasterAfter(master, ops, reach, k));
  }

  /** The configured duress password, if any, belongs to no active slot. */
  ghost predicate DuressSeparate(h: Header, dek: Bytes, duress: string) {
    DuressMatches(h, duress) && !Opens(h, duress, dek)
  }

  lemma OutcomeKeepsDuress(h: Header, dek: Bytes, duress: string, op: Op, h': Header, reach: Reach)
    requires Intact(h, dek) && DuressSeparate(h, dek, duress) && Outcome(h, op, h', reach)
    ensures DuressSeparate(h', dek, duress)
  {
    OutcomeSafe(h, dek, op, h', reach);
    DuressInSibling(h, h', duress);
    UnlockIff(h, dek, duress);
    if reach == HalfWay || reach == Finished {
      ChangeSafe(h, dek, op, h', reach, duress);
      UnlockIff(h', dek, duress);
    }
  }

  lemma NextKeepsDuress(h0: Header, h: Header, op: Op, h': Header, reach: Reach, dek: Bytes, wiped: bool, duress: string)
    requires Outcome(h, op, h', reach) && SafeAt(h0, h, dek, wiped) && DuressSeparate(h, dek, duress)
    ensures DuressSeparate(h', dek, duress)
  {
    if wiped {
      WipedForever(h, op, h', reach, duress);
      DuressInSibling(h, h', duress);
    } else {
      OutcomeKeepsDuress(h, dek, duress, op, h', reach);
    }
  }

  lemma DuressUnlocks(h0: Header, h: Header, dek: Bytes, wiped: bool, duress: string)
    requires SafeAt(h0, h, dek, wiped) && DuressSeparate(h, dek, duress)
    ensures Unlock(h, duress) == Ok(Duress)
  {
    if wiped {
      WipedUnlock(h, duress);
    } else {
      UnlockIff(h, dek, duress);
    }
  }

  lemma DuressStep(hs: seq<Header>, ops: seq<Op>, reach: seq<Reach>, dek: Bytes, duress: string, k: nat)
    requires Run(hs, ops, reach) && Intact(hs[0], dek) && k < |ops| && DuressSeparate(hs[k], dek, duress)
    ensures DuressSeparate(hs[k + 1], dek, duress)
  {
    RunSafe(hs, ops, reach, dek, k);
    assert Ran(hs, ops, reach, k);
    NextKeepsDuress(hs[0], hs[k], ops[k], hs[k + 1], reach[k], dek, WipedBefore(reach, k), duress);
  }

  lemma {:induction false} DuressKept(hs: seq<Header>, ops: seq<Op>, reach: seq<Reach>, dek: Bytes, duress: string, k: nat)
    requires Run(hs, ops, reach) && Intact(hs[0], dek) && DuressSeparate(hs[0], dek, duress) && k < |hs|
    ensures DuressSeparate(hs[k], dek, duress)
  {
    if k > 0 {
      DuressKept(hs, ops, reach, dek, duress, k - 1);
      DuressStep(hs, ops, reach, dek, duress, k - 1);
    }
  }

  /** Over every run the duress password keeps triggering `Duress` and never unlocks. */
  lemma DuressAlwaysDetected(hs: seq<Header>, ops: seq<Op>, reach: seq<Reach>, dek: Bytes, duress: string, k: nat)
    requires Run(hs, ops, reach) && Intact(hs[0], dek) && DuressSeparate(hs[0], dek, duress) && k < |hs|
    ensures DuressSeparate(hs[k], dek, duress)
    ensures Unlock(hs[k], duress) == Ok(Duress)
  {
    DuressKept(hs, ops, reach, dek, duress, k);
    RunSafe(hs, ops, reach, dek, k);
    DuressUnlocks(hs[0], hs[k], dek, WipedBefore(reach, k), duress);
  }

  /** A wipe holds for the rest of the run: nothing unlocks at any later point. */
  lemma {:induction false} WipeIsFinal(hs: seq<Header>, ops: seq<Op>, reach: seq<Reach>, j: nat, k: nat, password: string)
    requires Run(hs, ops, reach) && j <= k < |hs| && IsWiped(hs[j])
    ensures IsWiped(hs[k])
    ensures Unlock(hs[k], password) == Ok(if DuressMatches(hs[k], password) then Duress else Failed)
  {
    if j < k {
      WipeIsFinal(hs, ops, reach, j, k - 1, password);
      assert Ran(hs, ops, reach, k - 1);
      WipedForever(hs[k - 1], ops[k - 1], hs[k], reach[k - 1], password);
    }
  }

  // ---------- The header that pack writes ----------

  /** Slot 0 for the master password at generation 1, slot 1 disabled, duress configured first. */
  function PackHeader(base: Header, password: string, duress: Option<string>, dek: Bytes, params: Argon2Params,
                      d: Draw, d0: Draw, d1: Draw): Result<Header> {
    match ConfigureDuress(base, duress, params, d)
    case Err(e) => Err(e)
    case Ok(h) =>
      match MakeKeySlot(h, password, dek, 1, params, d0)
      case Err(e) => Err(e)
      case Ok(slot) => Ok(h.(slot0 := slot, slot1 := DisabledSlot(d1)))
  }

  /** What the packed header is made from: the requested cost everywhere it counts, and each draw in its own place. */
  ghost predicate SealedFrom(h: Header, params: Argon2Params, duress: bool, d: Draw, d0: Draw, d1: Draw) {
    && h.slot0.generation == 1 && h.slot0.params == params && h.slot0.salt == d0.salt && h.slot0.nonce == d0.nonce
    && Erased(h.slot1, d1) && h.slot1.params == Argon2Params(65_536, 3, 4)
    && h.duress.enabled == duress && h.duress.params == params && h.duress.salt == d.salt && h.duress.nonce == d.nonce
  }

  /** A packed header is intact, opens for the master password only, and keeps duress separate. */
  lemma PackHeaderIntact(base: Header, password: string, duress: Option<string>, dek: Bytes, params: Argon2Params,
                         d: Draw, d0: Draw, d1: Draw)
    requires ValidArgon2(params) && |dek| == 32 && duress != Some(password)
    requires ValidHeader(base.(slot0 := DisabledSlot(d0), slot1 := DisabledSlot(d1), duress := base.duress.(enabled := false)))
    ensures PackHeader(base, password, duress, dek, params, d, d0, d1).Ok?
    ensures var h := PackHeader(base, password, duress, dek, params, d, d0, d1).value;
      && Intact(h, dek)
      && h.(slot0 := base.slot0, slot1 := base.slot1, duress := base.duress) == base
      && SealedFrom(h, params, duress.Some?, d, d0, d1)
      && (forall p :: Opens(h, p, dek) <==> p == password)
      && (duress.Some? ==> DuressSeparate(h, dek, duress.value))
      && (duress.None? ==> forall p :: !DuressMatches(h, p))
  {
    var c := ConfigureDuress(base, duress, params, d).value;
    var h := PackHeader(base, password, duress, dek, params, d, d0, d1).value;
    MadeSlotWraps(c, password, dek, 1, params, d0);
    WrapsInSibling(c, h, h.slot0, password, dek);
    forall p | Wraps(h, h.slot0, p, dek) ensures p == password {
      WrapsUnique(h, h.slot0, p, dek, password, dek);
    }
    if duress.Some? {
      DecryptIff(Argon2(duress.value, d.salt, params), d.nonce, DuressAad(h), h.duress.encryptedMarker, DuressMarker(h));
    }
  }
}
