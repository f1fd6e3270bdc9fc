/** `pack_inner`: scan, seal, write to a private file, verify, and publish by one rename. */
module PackFile {
  import opened Common
  import opened Sequences
  import opened Format
  import opened Layout
  import opened Index
  import opened IndexProperties
  import opened Scan
  import opened KeySlots
  import opened Container
  import opened PlatformIo
  import opened Pack
  import opened ContainerWriter
  import opened PackedImage
  import opened Totals
  import opened EntryLists
  import opened Progress
  import Verify

  // ---------- The plan of a scan ----------

  function ContentsOf(sources: seq<(u64, Content)>): map<u64, Content> {
    if sources == [] then map[]
    else ContentsOf(sources[..|sources| - 1])[sources[|sources| - 1].0 := sources[|sources| - 1].1]
  }

  /** The source is the file content of item `id - 2`. */
  ghost predicate IsSnapshot(items: seq<WalkItem>, source: (u64, Content)) {
    2 <= source.0 < |items| + 2 && items[source.0 - 2].Item? && items[source.0 - 2].kind == SourceFile(source.1)
  }

  lemma {:induction false} SourcesNamed(items: seq<WalkItem>, k: nat)
    requires |items| < MAX_ENTRIES && k < |SourcesOf(items)|
    ensures IsSnapshot(items, SourcesOf(items)[k])
  {
    var n := |items| - 1;
    if k < |SourcesOf(items[..n])| {
      SourcesNamed(items[..n], k);
    }
  }

  lemma {:induction false} SourcesRise(items: seq<WalkItem>, j: nat, k: nat)
    requires |items| < MAX_ENTRIES && j < k < |SourcesOf(items)|
    ensures SourcesOf(items)[j].0 < SourcesOf(items)[k].0
  {
    var n := |items| - 1;
    if k < |SourcesOf(items[..n])| {
      SourcesRise(items[..n], j, k);
    } else {
      SourcesNamed(items[..n], j);
    }
  }

  lemma {:induction false} SourceListed(items: seq<WalkItem>, i: nat) returns (k: nat)
    requires |items| < MAX_ENTRIES && i < |items| && items[i].Item? && items[i].kind.SourceFile?
    ensures k < |SourcesOf(items)| && SourcesOf(items)[k] == (i + 2, items[i].kind.content)
  {
    var n := |items| - 1;
    if i < n {
      k := SourceListed(items[..n], i);
    } else {
      k := |SourcesOf(items[..n])|;
    }
  }

  lemma {:induction false} ContentsOfExact(sources: seq<(u64, Content)>, k: nat)
    requires k < |sources| && forall i, j :: 0 <= i < j < |sources| ==> sources[i].0 < sources[j].0
    ensures sources[k].0 in ContentsOf(sources) && ContentsOf(sources)[sources[k].0] == sources[k].1
  {
    var n := |sources| - 1;
    if k < n { ContentsOfExact(sources[..n], k); }
  }

  function PlanOf(st: Scanned, header: Header, dek: Bytes, encodedLen: nat): Plan {
    Plan(header, dek, st.entries, encodedLen, ContentsOf(st.sources))
  }

  /** The header carries the layout of this scan. */
  ghost predicate LaidOut(st: Scanned, header: Header, encodedLen: nat) {
    && 0 < encodedLen && header.indexSize == encodedLen + TAG_SIZE
    && header.dataSize == st.dataSize && header.entryCount == |st.entries|
    && HEADER_SIZE + header.indexSize + header.dataSize < U64_LIMIT
  }

  /** The snapshots are exactly the contents of the plan. */
  lemma SnapshotsAreContents(items: seq<WalkItem>, s: seq<(u64, Content)>)
    requires |items| < MAX_ENTRIES && s == SourcesOf(items)
    ensures forall k :: 0 <= k < |s| ==> s[k].0 in ContentsOf(s) && ContentsOf(s)[s[k].0] == s[k].1
  {
    forall k | 0 <= k < |s| ensures s[k].0 in ContentsOf(s) && ContentsOf(s)[s[k].0] == s[k].1 {
      forall i, j | 0 <= i < j < |s| ensures s[i].0 < s[j].0 {
        SourcesRise(items, i, j);
      }
      ContentsOfExact(s, k);
    }
  }

  /** The item behind an entry of a scan. */
  lemma EntryItem(items: seq<WalkItem>, ids: seq<Blob16>, entries: seq<Entry>, e: Entry)
    requires DescribesAll(items, ids, entries) && e in entries && e != ROOT
    ensures 2 <= e.id < |items| + 2 && PathOk(items[e.id - 2])
    ensures e.name == FileName(items[e.id - 2].path) && e.depth == |items[e.id - 2].path|
    ensures DescribesData(items[e.id - 2].kind, ids[e.id - 2], e)
  {
    var i :| 0 <= i < |entries| && entries[i] == e;
    assert DescribesAt(items, ids, entries, i - 1);
  }

  /** The file behind an entry of a scan. */
  lemma EntrySource(items: seq<WalkItem>, ids: seq<Blob16>, st: Scanned, e: Entry)
    requires ScanResult(items, ids, st) && e in st.entries && e.kind == File
    ensures 2 <= e.id < |items| + 2 && items[e.id - 2].Item? && items[e.id - 2].kind.SourceFile?
    ensures e.size == |items[e.id - 2].kind.content|
    ensures e.id in ContentsOf(st.sources) && ContentsOf(st.sources)[e.id] == items[e.id - 2].kind.content
  {
    EntryItem(items, ids, st.entries, e);
    var k := SourceListed(items, e.id - 2);
    SnapshotsAreContents(items, st.sources);
  }

  lemma OneMoreFile(entries: seq<Entry>, n: nat)
    requires 0 < n < |entries|
    ensures Files(entries[..n + 1]) == Files(entries[..n]) + if entries[n].kind == File then [entries[n]] else []
    ensures SumBy(FileSize, entries[..n + 1]) == SumBy(FileSize, entries[..n]) + FileSize(entries[n])
  {
    assert entries[..n + 1] == entries[..n] + [entries[n]];
    FilesAppend(entries[..n], [entries[n]]);
    assert Files([entries[n]][1..]) == [];
    SumByPrefix(FileSize, entries, n);
  }

  /** The sources of a scan are its file entries, in order, and the reported plaintext total is the sum of their sizes. */
  lemma {:induction false} SourcesAreFiles(items: seq<WalkItem>, ids: seq<Blob16>, entries: seq<Entry>, n: nat)
    requires |items| < MAX_ENTRIES && DescribesAll(items, ids, entries) && n <= |items|
    ensures |SourcesOf(items[..n])| == |Files(entries[..n + 1])|
    ensures forall k :: 0 <= k < |SourcesOf(items[..n])| ==> SourcesOf(items[..n])[k].0 == Files(entries[..n + 1])[k].id
    ensures SumBy(FileSize, entries[..n + 1]) == Total(PlainSize, items[..n])
  {
    if n == 0 {
      assert entries[..1] == [ROOT] && [ROOT][1..] == [];
      assert Files([ROOT]) == [] + Files([]) && SumBy(FileSize, [ROOT]) == 0;
    } else {
      SourcesAreFiles(items, ids, entries, n - 1);
      OneMoreFile(entries, n);
      assert DescribesAt(items, ids, entries, n - 1);
      assert items[..n][..n - 1] == items[..n - 1] && items[..n][n - 1] == items[n - 1];
    }
  }

  /** A scan and a header for its layout make a plan, with the snapshots as sources. */
  lemma ScanIsPlan(items: seq<WalkItem>, ids: seq<Blob16>, st: Scanned, header: Header, dek: Bytes, encodedLen: nat)
    requires ProperWalk(items) && FreshIds(ids, |items|) && ScanResult(items, ids, st) && LaidOut(st, header, encodedLen)
    ensures PlanOk(PlanOf(st, header, dek, encodedLen)) && SourcesMatch(PlanOf(st, header, dek, encodedLen), st.sources)
    ensures st.totalPlaintext == SumBy(FileSize, st.entries)
  {
    var p := PlanOf(st, header, dek, encodedLen);
    ScannedIsAccepted(items, ids, st.entries, st.dataSize);
    SnapshotsAreContents(items, st.sources);
    SourcesAreFiles(items, ids, st.entries, |items|);
    assert items[..|items|] == items && st.entries[..|items| + 1] == st.entries;
    forall e | e in p.entries && e.kind == File ensures e.id in p.contents && |p.contents[e.id]| == e.size {
      EntrySource(items, ids, st, e);
    }
  }

  // ---------- The pack operation ----------

  /** Files of the output directory; the private name is removed again unless the file was published. */
  class OutputDir {
    var files: map<string, Bytes>
    /** The output name, and after how many steps it existed. */
    const watched: string
    ghost var sightings: nat
    /** No system call fails without a reason, nobody cancels and nobody writes the sources. */
    const quiet: bool

    constructor (files: map<string, Bytes>, watched: string, quiet: bool)
      ensures this.files == files && this.watched == watched && this.quiet == quiet && sightings == 0
    {
      this.files, this.watched, this.quiet, sightings := files, watched, quiet, 0;
    }

    method Become(now: map<string, Bytes>)
      modifies this
      ensures files == now && sightings == old(sightings) + if watched in now then 1 else 0
    {
      files := now;
      sightings := sightings + if watched in now then 1 else 0;
    }
  }

  /** Everything pack draws at random or takes from the codec. */
  datatype Choices = Choices(
    containerId: Blob16, indexNonce: Blob12, dek: Bytes, encodedLen: nat, ids: seq<Blob16>,
    blank: DuressSlot, duress: Draw, slot0: Draw, slot1: Draw)

  datatype Options = Options(password: string, duressPassword: Option<string>, params: Argon2Params, maxIndexSize: u64)

  ghost predicate GoodChoices(c: Choices, items: seq<WalkItem>) {
    |c.dek| == 32 && 0 < c.encodedLen && FreshIds(c.ids, |items|) && !c.blank.enabled
  }

  function BaseHeader(c: Choices, indexSize: u64, st: Scanned): Header
    requires |st.entries| < U64_LIMIT
  {
    Header(MAGIC, VERSION, HEADER_SIZE, c.containerId, CHUNK_SIZE, indexSize, st.dataSize, |st.entries|, c.indexNonce,
           DisabledSlot(c.slot0), DisabledSlot(c.slot1), c.blank)
  }

  /** The header comes from these choices, with the requested key-derivation cost in the master and the duress slot. */
  ghost predicate Sealed(c: Choices, options: Options, h: Header) {
    && h.containerId == c.containerId && h.indexNonce == c.indexNonce
    && SealedFrom(h, options.params, options.duressPassword.Some?, c.duress, c.slot0, c.slot1)
  }

  /** What a finished pack stands for. */
  ghost predicate PackedFrom(items: seq<WalkItem>, c: Choices, options: Options, st: Scanned, p: Plan) {
    && Scannable(items) && ScanResult(items, c.ids, st)
    && p == PlanOf(st, p.header, c.dek, c.encodedLen)
    && Packed(p, options.password) && Sealed(c, options, p.header)
    && (forall pw :: Opens(p.header, pw, p.dek) <==> pw == options.password)
    && (options.duressPassword.Some? ==> DuressSeparate(p.header, p.dek, options.duressPassword.value))
  }

  /** Header and key slots for a scanned source, with all size checks. */
  method SealHeader(c: Choices, options: Options, st: Scanned) returns (r: Result<Header>)
    requires |c.dek| == 32 && 0 < c.encodedLen && |st.entries| <= MAX_ENTRIES && !c.blank.enabled
    requires ValidArgon2(options.params) && options.duressPassword != Some(options.password)
    ensures r.Ok? ==> LaidOut(st, r.value, c.encodedLen) && Intact(r.value, c.dek) && Sealed(c, options, r.value)
    ensures r.Ok? ==> forall pw :: Opens(r.value, pw, c.dek) <==> pw == options.password
    ensures r.Ok? && options.duressPassword.Some? ==> DuressSeparate(r.value, c.dek, options.duressPassword.value)
    ensures r.Ok? <==>
              && c.encodedLen + TAG_SIZE <= Min(options.maxIndexSize, MAX_INDEX_SIZE)
              && HEADER_SIZE + c.encodedLen + TAG_SIZE + st.dataSize < U64_LIMIT
  {
    if c.encodedLen + TAG_SIZE >= U64_LIMIT || c.encodedLen + TAG_SIZE > Min(options.maxIndexSize, MAX_INDEX_SIZE) {
      return Err(InvalidIndex);
    }
    var base := BaseHeader(c, c.encodedLen + TAG_SIZE, st);
    PackHeaderIntact(base, options.password, options.duressPassword, c.dek, options.params, c.duress, c.slot0, c.slot1);
    var header := PackHeader(base, options.password, options.duressPassword, c.dek, options.params, c.duress, c.slot0, c.slot1).value;
    if HEADER_SIZE + header.indexSize + header.dataSize >= U64_LIMIT {
      return Err(Overflow);
    }
    r := Ok(header);
  }

  /** Opens the finished private file and authenticates every chunk; only an I/O error or a cancellation can stop it. */
  method SelfVerify(image: Bytes, password: string, quiet: bool, ghost p: Plan)
    returns (r: Result<()>, ghost counts: seq<u64>)
    requires Packed(p, password) && image == Image(p)
    ensures r.Ok? || (!quiet && (r == Err(Cancelled) || r == Err(Io)))
    ensures Phase(counts, p.entries) && (r.Ok? ==> PhaseDone(counts, p.entries))
  {
    var file := new ContainerFile(image, quiet);
    PackedOpens(p, password);
    PackedVerifies(p);
    ghost var reach;
    var opening;
    opening, reach := file.Open(password, Draws(ANY_DRAW, ANY_DRAW, ANY_DRAW, ANY_DRAW));
    var disk := new DiskFile(image, quiet);
    r, counts := Verify.VerifyAll(opening.value, disk, p.entries);
  }

  /** Writes the container of the plan and reports the bytes of the finished chunks. */
  method WritePhase(output: DiskFile, p: Plan, st: Scanned) returns (r: Result<()>, ghost counts: seq<u64>)
    requires PlanOk(p) && SourcesMatch(p, st.sources) && st.totalPlaintext == SumBy(FileSize, p.entries)
    requires st.totalPlaintext < U64_LIMIT
    modifies output
    ensures r.Ok? ==> output.content == Image(p)
    ensures Phase(counts, p.entries) && (r.Ok? ==> PhaseDone(counts, p.entries))
    ensures output.quiet ==> r.Ok?
  {
    var tracker := new ProgressTracker(st.totalPlaintext);
    r := WriteContainer(output, p, st.sources, tracker);
    counts := tracker.reports;
    PhaseIs(p.header.entryCount, p.header.dataSize, p.entries, tracker.amounts, st.totalPlaintext);
  }

  /** The part that runs once the private file was created. */
  method FillTemporary(p: Plan, st: Scanned, password: string, quiet: bool)
    returns (r: Result<Bytes>, left: Bytes, ghost written: seq<u64>, ghost verified: seq<u64>)
    requires Packed(p, password) && SourcesMatch(p, st.sources) && st.totalPlaintext == SumBy(FileSize, p.entries)
    ensures r.Ok? ==> r.value == Image(p) == left && PhaseDone(verified, p.entries) && PhaseDone(written, p.entries)
    ensures quiet ==> r.Ok?
  {
    TotalsFit(p.header.entryCount, p.header.dataSize, p.entries);
    var output := new DiskFile([], quiet);
    var writing;
    writing, written := WritePhase(output, p, st);
    verified := [];
    left := output.content;
    var stop := Disturbed(output.quiet);
    if writing.Err? || stop {
      return Err(if writing.Err? then writing.error else Cancelled), left, written, verified;
    }
    var verifying;
    verifying, verified := SelfVerify(left, password, quiet, p);
    stop := Disturbed(output.quiet);
    if verifying.Err? || stop {
      return Err(if verifying.Err? then verifying.error else Cancelled), left, written, verified;
    }
    r := Ok(left);
  }

  /** The source, the choices and the options make a container. */
  ghost predicate Packable(items: seq<WalkItem>, c: Choices, options: Options) {
    && options.duressPassword != Some(options.password) && ValidArgon2(options.params)
    && Scannable(items)
    && c.encodedLen + TAG_SIZE <= Min(options.maxIndexSize, MAX_INDEX_SIZE)
    && HEADER_SIZE + c.encodedLen + TAG_SIZE + Total(CipherSize, items) < U64_LIMIT
  }

  /** Scan and seal, before anything is written. */
  method Prepare(items: seq<WalkItem>, c: Choices, options: Options, cancelAt: nat) returns (r: Result<(Plan, Scanned)>)
    requires ProperWalk(items) && GoodChoices(c, items)
    ensures r.Ok? ==> PackedFrom(items, c, options, r.value.1, r.value.0) && SourcesMatch(r.value.0, r.value.1.sources)
    ensures r.Ok? ==> r.value.1.totalPlaintext == SumBy(FileSize, r.value.0.entries)
    ensures r.Ok? <==> Packable(items, c, options) && |items| <= cancelAt
  {
    if options.duressPassword == Some(options.password) || !ValidArgon2(options.params) {
      return Err(InvalidRequest);
    }
    var scan := ScanSource(items, c.ids, cancelAt);
    if scan.Err? {
      return Err(scan.error);
    }
    var plan := SealPlan(items, c, options, scan.value);
    r := if plan.Ok? then Ok((plan.value, scan.value)) else Err(plan.error);
  }

  /** The plan of a scan. */
  method SealPlan(ghost items: seq<WalkItem>, c: Choices, options: Options, st: Scanned) returns (r: Result<Plan>)
    requires ProperWalk(items) && GoodChoices(c, items) && Scannable(items) && ScanResult(items, c.ids, st)
    requires ValidArgon2(options.params) && options.duressPassword != Some(options.password)
    ensures r.Ok? ==> PackedFrom(items, c, options, st, r.value) && SourcesMatch(r.value, st.sources)
    ensures r.Ok? ==> st.totalPlaintext == SumBy(FileSize, r.value.entries)
    ensures r.Ok? <==> Packable(items, c, options)
  {
    var header := SealHeader(c, options, st);
    if header.Err? {
      return Err(header.error);
    }
    ScanIsPlan(items, c.ids, st, header.value, c.dek, c.encodedLen);
    r := Ok(PlanOf(st, header.value, c.dek, c.encodedLen));
  }

  /**
   `pack_inner`.  Success publishes exactly the container of the scanned source, at a name that was free and existed in
   no earlier state, and both progress phases ran to their total; every failure leaves the directory as it was once the
   private file is removed.  In a quiet environment it succeeds exactly if the source can be packed and the name is free.
   */
  method PackSource(dir: OutputDir, temporary: string, items: seq<WalkItem>, c: Choices, options: Options,
                    cancelAt: nat)
    returns (r: Result<()>, cleaned: bool, ghost st: Scanned, ghost p: Plan, ghost counts: (seq<u64>, seq<u64>))
    requires ProperWalk(items) && GoodChoices(c, items) && temporary != dir.watched && temporary !in dir.files
    modifies dir
    ensures r.Ok? ==> PackedFrom(items, c, options, st, p)
    ensures r.Ok? ==> PhaseDone(counts.0, p.entries) && PhaseDone(counts.1, p.entries)
    ensures r.Ok? ==> dir.watched !in old(dir.files) && dir.files == old(dir.files)[dir.watched := Image(p)]
    ensures r.Ok? ==> dir.sightings == old(dir.sightings) + 1
    ensures r.Err? && cleaned ==> dir.files == old(dir.files)
    ensures r.Err? ==> dir.files - {temporary} == old(dir.files)
    ensures r.Err? && dir.watched !in old(dir.files) ==> dir.sightings == old(dir.sightings)
    ensures r.Ok? ==> Packable(items, c, options) && |items| <= cancelAt
    ensures dir.quiet ==> cleaned && (r.Ok? <==> Packable(items, c, options) && |items| <= cancelAt && dir.watched !in old(dir.files))
  {
    cleaned, counts := true, ([], []);
    st, p := Scanned([], [], 0, 0), Plan(BaseHeader(c, 0, Scanned([], [], 0, 0)), [], [], 0, map[]);
    assert dir.files - {temporary} == dir.files;
    var prepared := Prepare(items, c, options, cancelAt);
    if prepared.Err? {
      return Err(prepared.error), cleaned, st, p, counts;
    }
    var stop := Disturbed(dir.quiet);
    if stop {
      return Err(Cancelled), cleaned, st, p, counts;
    }
    var plan, scanned := prepared.value.0, prepared.value.1;
    st, p := scanned, plan;
    r, cleaned, counts := PublishPlan(dir, temporary, plan, scanned, options.password);
  }

  /** From the creation of the private file to its publication or removal. */
  method PublishPlan(dir: OutputDir, temporary: string, p: Plan, st: Scanned, password: string)
    returns (r: Result<()>, cleaned: bool, ghost counts: (seq<u64>, seq<u64>))
    requires Packed(p, password) && SourcesMatch(p, st.sources) && st.totalPlaintext == SumBy(FileSize, p.entries)
    requires temporary != dir.watched && temporary !in dir.files
    modifies dir
    ensures r.Ok? ==> PhaseDone(counts.0, p.entries) && PhaseDone(counts.1, p.entries)
    ensures r.Ok? ==> dir.watched !in old(dir.files) && dir.files == old(dir.files)[dir.watched := Image(p)]
    ensures r.Ok? ==> dir.sightings == old(dir.sightings) + 1
    ensures r.Err? && cleaned ==> dir.files == old(dir.files)
    ensures r.Err? ==> dir.files - {temporary} == old(dir.files)
    ensures r.Err? && dir.watched !in old(dir.files) ==> dir.sightings == old(dir.sightings)
    ensures dir.quiet ==> cleaned && (r.Ok? <==> dir.watched !in old(dir.files))
  {
    ghost var before := dir.files;
    counts := ([], []);
    var fail := Disturbed(dir.quiet);
    if fail {
      assert dir.files - {temporary} == dir.files;
      return Err(Io), true, counts;
    }
    dir.Become(dir.files[temporary := []]);
    var filled, left;
    ghost var written, verified;
    filled, left, written, verified := FillTemporary(p, st, password, dir.quiet);
    counts := (written, verified);
    dir.Become(dir.files[temporary := left]);
    WithoutTemporary(before, dir.files, temporary, left, dir.watched);
    fail := Disturbed(dir.quiet);
    if filled.Ok? && !fail && dir.watched !in dir.files {
      dir.Become((dir.files - {temporary})[dir.watched := left]);
      return Ok(()), true, counts;
    }
    r := Err(if filled.Err? then filled.error else Io);
    fail := Disturbed(dir.quiet);
    cleaned := !fail;
    if cleaned {
      dir.Become(dir.files - {temporary});
    }
  }

  lemma WithoutTemporary(before: map<string, Bytes>, now: map<string, Bytes>, temporary: string, left: Bytes,
                         output: string)
    requires temporary !in before && now == before[temporary := []][temporary := left] && output != temporary
    ensures now - {temporary} == before && (output in now <==> output in before)
  {
    assert now == before[temporary := left];
  }
}
