/** A source file that is read for encryption while other programs may still write to it. */
module SourceFiles {
  import opened Common
  import opened Format
  import opened Layout
  import opened Scan
  import opened PlatformIo
  import opened Pack

  class SourceFile {
    /** The bytes at the time of the scan. */
    const scanned: Content
    const file: DiskFile
    /** Writes since the scan; the fingerprint is the scanned one exactly while there was none. */
    var changes: nat

    ghost predicate Valid()
      reads this, file
    {
      changes == 0 ==> file.content == Lift(scanned)
    }

    /** A scanned file; it may have been written already. */
    constructor (scanned: Content, quiet: bool)
      ensures this.scanned == scanned && file.quiet == quiet && fresh(file) && Valid()
      ensures quiet ==> changes == 0
    {
      var written: bool := *;
      var now: Bytes := *;
      this.scanned := scanned;
      file := new DiskFile(if written && !quiet then now else Lift(scanned), quiet);
      changes := if written && !quiet then 1 else 0;
    }

    /** Other programs. */
    method Meanwhile()
      requires Valid()
      modifies this, file
      ensures Valid() && changes >= old(changes)
      ensures file.quiet ==> changes == old(changes)
    {
      var write := Disturbed(file.quiet);
      if write {
        var now: Bytes := *;
        file.content := now;
        changes := changes + 1;
      }
    }

    /** `ensure_unchanged`. */
    method EnsureUnchanged() returns (r: Result<()>)
      ensures r.Ok? ==> changes == 0
      ensures file.quiet && changes == 0 ==> r.Ok?
    {
      var fail := Disturbed(file.quiet);
      r := if fail then Err(Io) else if changes == 0 then Ok(()) else Err(SourceChanged);
    }

    /** The plaintext of one chunk, as it is now. */
    method ReadChunk(i: u64) returns (r: Result<Bytes>)
      requires Valid() && ChunkStart(i) < |scanned|
      ensures r.Ok? ==> |r.value| == PlainLen(|scanned|, i) && (changes == 0 ==> r.value == PlainChunk(scanned, i))
      ensures file.quiet && changes == 0 ==> r.Ok?
    {
      var start: u64 := ChunkStart(i);
      r := file.ReadExactAt(PlainLen(|scanned|, i), start);
      if changes == 0 && r.Ok? {
        assert Lift(scanned)[start..start + PlainLen(|scanned|, i)] == PlainChunk(scanned, i);
      }
    }
  }
}
