/** Positioned file transfer over a file that may read or write less than asked. */
module PlatformIo {
  import opened Common
  import opened Format

  function Zeros(n: nat): (r: Bytes)
    ensures |r| == n
  {
    seq(n, i => Raw(0))
  }

  /** The file after `data` is stored at `offset`; a gap is zero-filled, an empty store does nothing. */
  function Splice(content: Bytes, offset: nat, data: Bytes): (r: Bytes)
    ensures |r| == if data == [] then |content| else if offset + |data| <= |content| then |content| else offset + |data|
  {
    if data == [] then content
    else if offset + |data| <= |content| then content[..offset] + data + content[offset + |data|..]
    else if offset <= |content| then content[..offset] + data
    else content + Zeros(offset - |content|) + data
  }

  /** Storing in two adjacent pieces is storing once. */
  lemma SpliceTwice(content: Bytes, offset: nat, a: Bytes, b: Bytes)
    ensures Splice(Splice(content, offset, a), offset + |a|, b) == Splice(content, offset, a + b)
  {
    var once, twice := Splice(content, offset, a + b), Splice(Splice(content, offset, a), offset + |a|, b);
    if a == [] {
      assert a + b == b;
    } else if b == [] {
      assert a + b == a;
    } else {
      forall i | 0 <= i < |once| ensures once[i] == twice[i] {
      }
    }
  }

  /** The next piece of a larger store. */
  lemma SpliceMore(content: Bytes, offset: nat, data: Bytes, n: nat, rest: Bytes, count: nat)
    requires n <= |data| && rest == data[n..] && count <= |rest|
    ensures Splice(Splice(content, offset, data[..n]), offset + n, rest[..count]) == Splice(content, offset, data[..n + count])
    ensures rest[count..] == data[n + count..]
  {
    SpliceTwice(content, offset, data[..n], rest[..count]);
    assert data[..n] + rest[..count] == data[..n + count];
  }

  /** `now` is the file after the first n cells of `data` were stored. */
  ghost predicate StoredUpTo(before: Bytes, offset: nat, data: Bytes, n: int, now: Bytes) {
    0 <= n <= |data| && now == Splice(before, offset, data[..n])
  }

  lemma NothingStored(before: Bytes, offset: nat, data: Bytes)
    ensures StoredUpTo(before, offset, data, 0, before) && data[0..] == data
  {
  }

  lemma AllStored(before: Bytes, offset: nat, data: Bytes, n: int, now: Bytes)
    requires StoredUpTo(before, offset, data, n, now) && data[n..] == []
    ensures now == Splice(before, offset, data)
  {
    assert data[..n] == data;
  }

  lemma StoredMore(before: Bytes, offset: nat, data: Bytes, n: int, rest: Bytes, now: Bytes, position: nat, count: nat,
                   next: Bytes)
    requires StoredUpTo(before, offset, data, n, now) && rest == data[n..] && count <= |rest|
    requires position == offset + n && next == Splice(now, position, rest[..count])
    ensures StoredUpTo(before, offset, data, n + count, next) && rest[count..] == data[n + count..]
  {
    SpliceMore(before, offset, data, n, rest, count);
  }

  class DiskFile {
    var content: Bytes
    /** No system call fails without a reason, and a write stores something. */
    const quiet: bool

    constructor (content: Bytes, quiet: bool)
      ensures this.content == content && this.quiet == quiet
    {
      this.content, this.quiet := content, quiet;
    }

    /** `set_len` on a new file. */
    method SetLen(len: nat)
      modifies this
      ensures content == Zeros(len)
    {
      content := Zeros(len);
    }

    /** One system read: any non-empty prefix of what is available, nothing at the end, or an error. */
    method ReadSome(len: nat, offset: nat) returns (r: Result<Bytes>)
      ensures r.Ok? ==> |r.value| <= len && (offset >= |content| || len == 0 ==> r.value == [])
      ensures r.Ok? && r.value != [] ==> offset + |r.value| <= |content| && r.value == content[offset..offset + |r.value|]
      ensures r.Ok? && offset < |content| && len > 0 ==> r.value != []
      ensures r.Err? ==> !quiet && r == Err(Io)
    {
      var fail := Disturbed(quiet);
      if fail {
        return Err(Io);
      }
      if offset >= |content| || len == 0 {
        return Ok([]);
      }
      var n: int := *;
      if n <= 0 || n > len || offset + n > |content| {
        n := 1;
      }
      r := Ok(content[offset..offset + n]);
    }

    /** One system write of a prefix, possibly empty, or an error with nothing stored. */
    method WriteSome(data: Bytes, offset: nat) returns (r: Result<nat>)
      modifies this
      ensures r.Ok? ==> r.value <= |data| && content == Splice(old(content), offset, data[..r.value])
      ensures r.Err? ==> content == old(content)
      ensures quiet ==> r.Ok? && (data != [] ==> r.value > 0)
    {
      var fail := Disturbed(quiet);
      if fail {
        return Err(Io);
      }
      var n: int := *;
      if n < 0 || n > |data| || (quiet && n == 0) {
        n := |data|;
      }
      content := Splice(content, offset, data[..n]);
      r := Ok(n);
    }

    /** Fills the whole buffer from `offset` or fails; end of file is an error. */
    method ReadExactAt(len: nat, offset: u64) returns (r: Result<Bytes>)
      ensures r.Ok? ==> (len == 0 && r.value == []) || (offset + len <= |content| && r.value == content[offset..offset + len])
      ensures len > 0 && offset + len > |content| ==> r.Err?
      ensures offset + len <= |content| < U64_LIMIT ==> r.Ok? || (!quiet && r == Err(Io))
      ensures r.Err? ==> r.error == Io || r.error == UnexpectedEof || r.error == Overflow
    {
      var buffer: Bytes := [];
      var position: u64 := offset;
      while |buffer| < len
        invariant |buffer| <= len && position == offset + |buffer|
        invariant buffer != [] ==> position <= |content| && buffer == content[offset..position]
        decreases len - |buffer|
      {
        var chunk := ReadSome(len - |buffer|, position);
        if chunk.Err? {
          return Err(chunk.error);
        }
        if chunk.value == [] {
          return Err(UnexpectedEof);
        }
        var next := if position + |chunk.value| < U64_LIMIT then Some(position + |chunk.value|) else None;
        if next.None? {
          return Err(Overflow);
        }
        buffer := buffer + chunk.value;
        position := next.value;
      }
      r := Ok(buffer);
    }

    /** Stores the whole buffer at `offset`, or fails having stored some prefix of it. */
    method WriteAllAt(data: Bytes, offset: u64) returns (r: Result<()>)
      modifies this
      ensures r.Ok? ==> content == Splice(old(content), offset, data)
      ensures exists n :: StoredUpTo(old(content), offset, data, n, content)
      ensures quiet && offset + |data| < U64_LIMIT ==> r.Ok?
    {
      ghost var n := 0;
      NothingStored(content, offset, data);
      var rest := data;
      var position: u64 := offset;
      while rest != []
        invariant StoredUpTo(old(content), offset, data, n, content) && rest == data[n..] && position == offset + n
        decreases |rest|
      {
        ghost var before := content;
        var count := WriteSome(rest, position);
        if count.Err? {
          return Err(count.error);
        }
        StoredMore(old(content), offset, data, n, rest, before, position, count.value, content);
        if count.value == 0 {
          return Err(Io);
        }
        n := n + count.value;
        if position + count.value >= U64_LIMIT {
          return Err(Overflow);
        }
        position := position + count.value;
        rest := rest[count.value..];
      }
      AllStored(old(content), offset, data, n, content);
      r := Ok(());
    }
  }
}
