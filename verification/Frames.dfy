/** The length-prefixed frames of the worker pipe. */
module Frames {
  import opened Common
  import opened Sequences
  import Format

  const MAX_FRAME_SIZE := 8_388_608

  // ---------- The pipe ends ----------

  datatype Transfer = Got(data: seq<byte>) | Interrupted | Broken

  /** The reading end.  Interruptions are finite in number; a reliable pipe never fails otherwise. */
  class ByteSource {
    var rest: seq<byte>
    var interruptions: nat
    const reliable: bool

    constructor (data: seq<byte>, interruptions: nat, reliable: bool)
      ensures rest == data && this.reliable == reliable
    {
      this.rest := data;
      this.interruptions := interruptions;
      this.reliable := reliable;
    }

    /** One system read: a non-empty prefix of what is there, nothing at the end, or a failure. */
    method Read(len: nat) returns (r: Transfer)
      requires len > 0
      modifies this
      ensures r.Got? ==> |r.data| <= len && old(rest) == r.data + rest && (r.data == [] <==> old(rest) == [])
      ensures !r.Interrupted? ==> interruptions == old(interruptions)
      ensures !r.Got? ==> rest == old(rest)
      ensures r.Interrupted? ==> interruptions < old(interruptions)
      ensures r.Broken? ==> !reliable
    {
      var interrupt: bool, fail: bool := *, *;
      if interrupt && interruptions > 0 {
        interruptions := interruptions - 1;
        return Interrupted;
      }
      if fail && !reliable {
        return Broken;
      }
      if rest == [] {
        return Got([]);
      }
      var n: int := *;
      if n <= 0 || n > len || n > |rest| {
        n := 1;
      }
      r := Got(rest[..n]);
      rest := rest[n..];
    }

    /** `read_exact`: retries interruptions, and an early end is an error. */
    method ReadExact(len: nat) returns (r: Result<seq<byte>>)
      modifies this
      ensures interruptions <= old(interruptions)
      ensures r.Ok? ==> len <= |old(rest)| && r.value == old(rest)[..len] && rest == old(rest)[len..]
      ensures reliable ==> (r.Ok? <==> len <= |old(rest)|)
    {
      var buffer: seq<byte> := [];
      while |buffer| < len
        invariant |buffer| <= len && old(rest) == buffer + rest
        invariant interruptions <= old(interruptions)
        decreases len - |buffer|, interruptions
      {
        var step := Read(len - |buffer|);
        match step {
          case Got(data) =>
            if data == [] {
              assert rest == [] && old(rest) == buffer;
              return Err(UnexpectedEof);
            }
            buffer := buffer + data;
          case Interrupted =>
          case Broken => return Err(Io);
        }
      }
      r := Ok(buffer);
    }
  }

  /** The writing end; a reliable one never fails. */
  class ByteSink {
    var written: seq<byte>
    const reliable: bool

    constructor (reliable: bool)
      ensures written == [] && this.reliable == reliable
    {
      this.written, this.reliable := [], reliable;
    }

    /** `write_all`: everything, or a failure after some prefix. */
    method WriteAll(data: seq<byte>) returns (ok: bool)
      modifies this
      ensures ok ==> written == old(written) + data
      ensures exists n :: 0 <= n <= |data| && written == old(written) + data[..n]
      ensures reliable ==> ok
    {
      var n: int := *;
      if 0 <= n < |data| && !reliable {
        written := written + data[..n];
        return false;
      }
      assert data[..|data|] == data;
      written := written + data;
      ok := true;
    }
  }

  // ---------- One frame ----------

  /** What the serializer must satisfy: decoding undoes encoding, and no value has an empty encoding. */
  ghost predicate GoodCodec<T(!new)>(encode: T -> seq<byte>, decode: seq<byte> -> Option<T>) {
    forall v :: decode(encode(v)) == Some(v) && encode(v) != []
  }

  function Frame(payload: seq<byte>): (r: seq<byte>)
    ensures |r| == 4 + |payload|
  {
    Format.Le(4, |payload|) + payload
  }

  /** A frame is the length of the payload in four bytes, the lowest first, and the payload. */
  lemma FrameBytes(payload: seq<byte>)
    requires |payload| <= MAX_FRAME_SIZE
    ensures Frame(payload) == [|payload| % 256, |payload| / 256 % 256, |payload| / 65536 % 256, 0] + payload
  {
    var n := |payload|;
    assert Format.Le(4, n) == [n % 256] + Format.Le(3, n / 256);
    assert Format.Le(3, n / 256) == [n / 256 % 256] + Format.Le(2, n / 256 / 256);
    assert Format.Le(2, n / 65536) == [n / 65536 % 256] + Format.Le(1, n / 65536 / 256);
    assert Format.Le(1, 0) == [0] + Format.Le(0, 0);
  }

  /**
   `write_frame`: the whole frame, or a failure that leaves some prefix of it; nothing at all when it is too large, and
   no other reason to fail if the pipe works.
   */
  method WriteFrame<T>(sink: ByteSink, encode: T -> seq<byte>, value: T) returns (ok: bool)
    modifies sink
    ensures ok ==> sink.written == old(sink.written) + Frame(encode(value)) && |encode(value)| <= MAX_FRAME_SIZE
    ensures exists n :: 0 <= n <= |Frame(encode(value))| && sink.written == old(sink.written) + Frame(encode(value))[..n]
    ensures |encode(value)| > MAX_FRAME_SIZE ==> sink.written == old(sink.written)
    ensures sink.reliable ==> (ok <==> |encode(value)| <= MAX_FRAME_SIZE)
  {
    var payload := encode(value);
    ghost var frame := Frame(payload);
    assert sink.written == old(sink.written) + frame[..0];
    if |payload| > MAX_FRAME_SIZE {
      return false;
    }
    var length := Format.Le(4, |payload|);
    ok := sink.WriteAll(length);
    ghost var n :| 0 <= n <= |length| && sink.written == old(sink.written) + length[..n];
    assert length[..n] == frame[..n];
    if !ok {
      return false;
    }
    assert frame[..4] == length;
    label Second:
    ok := sink.WriteAll(payload);
    ghost var k :| 0 <= k <= |payload| && sink.written == old@Second(sink.written) + payload[..k];
    assert length + payload[..k] == frame[..4 + k];
  }

  datatype Next<+T> = Value(value: T, rest: seq<byte>) | End | Bad

  /** The meaning of one `read_frame` on the bytes that are left. */
  function NextFrame<T>(decode: seq<byte> -> Option<T>, s: seq<byte>): Next<T> {
    if s == [] then End
    else if |s| < 4 then Bad
    else
      var n := Format.FromLe(s[..4]);
      if n > MAX_FRAME_SIZE || n == 0 || |s| < 4 + n then Bad
      else match decode(s[4..4 + n])
        case None => Bad
        case Some(v) => Value(v, s[4 + n..])
  }

  /** The first byte, after any number of interruptions. */
  method FirstByte(source: ByteSource) returns (r: Result<Option<byte>>)
    modifies source
    ensures source.interruptions <= old(source.interruptions)
    ensures r.Ok? && r.value.Some? ==> old(source.rest) == [r.value.value] + source.rest
    ensures r.Ok? && r.value.None? ==> old(source.rest) == [] && source.rest == []
    ensures source.reliable ==> r.Ok?
    decreases source.interruptions
  {
    var step := source.Read(1);
    match step {
      case Got(data) => r := if data == [] then Ok(None) else Ok(Some(data[0]));
      case Interrupted => r := FirstByte(source);
      case Broken => r := Err(Io);
    }
  }

  method ReadFrame<T>(source: ByteSource, decode: seq<byte> -> Option<T>) returns (r: Result<Option<T>>)
    modifies source
    ensures source.interruptions <= old(source.interruptions)
    ensures r.Ok? ==> match r.value
                      case Some(v) => NextFrame(decode, old(source.rest)) == Value(v, source.rest)
                      case None => NextFrame(decode, old(source.rest)) == End
    ensures source.reliable ==> (r.Err? <==> NextFrame(decode, old(source.rest)) == Bad)
  {
    ghost var s := source.rest;
    var first := FirstByte(source);
    if first.Err? {
      return Err(first.error);
    }
    if first.value.None? {
      return Ok(None);
    }
    var tail := source.ReadExact(3);
    if tail.Err? {
      return Err(tail.error);
    }
    assert [first.value.value] + tail.value == s[..4] && source.rest == s[4..];
    var length := Format.FromLe([first.value.value] + tail.value);
    if length > MAX_FRAME_SIZE || length == 0 {
      return Err(Io);
    }
    var payload := source.ReadExact(length);
    if payload.Err? {
      return Err(payload.error);
    }
    assert payload.value == s[4..4 + length] && source.rest == s[4 + length..];
    var decoded := decode(payload.value);
    r := if decoded.None? then Err(Io) else Ok(Some(decoded.value));
  }

  // ---------- A whole stream ----------

  datatype Drained<+T> = Drained(values: seq<T>, clean: bool)

  /** Reading until the end or the first error. */
  function Drain<T>(decode: seq<byte> -> Option<T>, s: seq<byte>): Drained<T>
    decreases |s|
  {
    match NextFrame(decode, s)
    case End => Drained([], true)
    case Bad => Drained([], false)
    case Value(v, rest) =>
      var later := Drain(decode, rest);
      Drained([v] + later.values, later.clean)
  }

  /** `later` is what is left of the stream after `heard`. */
  ghost predicate Ahead<T(!new)>(stream: Drained<T>, heard: seq<T>, later: Drained<T>) {
    stream.values == heard + later.values && stream.clean == later.clean
  }

  /** `heard` was read from the stream, up to its clean end if `clean`. */
  ghost predicate Heard<T(!new)>(stream: Drained<T>, heard: seq<T>, clean: bool) {
    heard <= stream.values && (clean ==> stream == Drained(heard, true))
  }

  /** The next value of the stream, of which `heard` was read before. */
  method Hear<T(!new)>(source: ByteSource, decode: seq<byte> -> Option<T>, ghost stream: Drained<T>, ghost heard: seq<T>)
    returns (next: Result<Option<T>>)
    requires Ahead(stream, heard, Drain(decode, source.rest))
    modifies source
    ensures Heard(stream, heard, false)
    ensures next.Ok? && next.value.Some? ==> |source.rest| < |old(source.rest)|
    ensures next.Ok? && next.value.Some? ==> var more := heard + [next.value.value];
      Ahead(stream, more, Drain(decode, source.rest)) && Heard(stream, more, false)
    ensures next.Ok? && next.value.None? ==> stream == Drained(heard, true)
    ensures next.Err? && source.reliable ==> stream == Drained(heard, false)
  {
    ghost var before := Drain(decode, source.rest);
    next := ReadFrame(source, decode);
    if next.Ok? && next.value.Some? {
      ghost var later := Drain(decode, source.rest);
      assert before == Drained([next.value.value] + later.values, later.clean);
      Regroup(heard, next.value.value, later.values);
    } else {
      assert next.Ok? || source.reliable ==> before.values == [];
      assert heard + [] == heard;
    }
  }

  lemma Regroup<T>(s: seq<T>, x: T, t: seq<T>)
    ensures s + ([x] + t) == (s + [x]) + t
  {
  }

  function FramesOf<T>(encode: T -> seq<byte>, values: seq<T>): seq<byte> {
    if values == [] then [] else Frame(encode(values[0])) + FramesOf(encode, values[1..])
  }

  /** How many of the frames lie wholly within the first k bytes. */
  function WholeFrames<T>(encode: T -> seq<byte>, values: seq<T>, k: nat): (j: nat)
    ensures j <= |values|
  {
    if values == [] || k < |Frame(encode(values[0]))| then 0
    else 1 + WholeFrames(encode, values[1..], k - |Frame(encode(values[0]))|)
  }

  /** The count is the largest j whose first j frames fit. */
  lemma {:induction false} WholeFramesExact<T>(encode: T -> seq<byte>, values: seq<T>, k: nat)
    ensures var j := WholeFrames(encode, values, k);
      && |FramesOf(encode, values[..j])| <= k
      && (j < |values| ==> k < |FramesOf(encode, values[..j + 1])|)
  {
    if values != [] {
      var first := Frame(encode(values[0]));
      var j := WholeFrames(encode, values, k);
      if k < |first| {
        assert values[..1][1..] == [];
      } else {
        WholeFramesExact(encode, values[1..], k - |first|);
        assert values[..j][1..] == values[1..][..j - 1];
        if j < |values| { assert values[..j + 1][1..] == values[1..][..j]; }
      }
    }
  }

  /** The first frame of a stream is read back, whatever follows it. */
  lemma ReadsBack<T(!new)>(encode: T -> seq<byte>, decode: seq<byte> -> Option<T>, value: T, rest: seq<byte>)
    requires GoodCodec(encode, decode) && |encode(value)| <= MAX_FRAME_SIZE
    ensures NextFrame(decode, Frame(encode(value)) + rest) == Value(value, rest)
  {
    var payload := encode(value);
    var s := Frame(payload) + rest;
    Format.WidthBounds();
    Format.LeRoundTrip(4, |payload|);
    assert s[..4] == Format.Le(4, |payload|);
    assert s[4..4 + |payload|] == payload;
    assert s[4 + |payload|..] == rest;
  }

  /** A proper, non-empty prefix of a frame is an error. */
  lemma TruncatedIsBad<T>(encode: T -> seq<byte>, decode: seq<byte> -> Option<T>, value: T, k: nat)
    requires |encode(value)| <= MAX_FRAME_SIZE && 0 < k < |Frame(encode(value))|
    ensures NextFrame(decode, Frame(encode(value))[..k]) == Bad
  {
    var payload := encode(value);
    var s := Frame(payload)[..k];
    if k >= 4 {
      Format.WidthBounds();
      Format.LeRoundTrip(4, |payload|);
      assert s[..4] == Format.Le(4, |payload|);
    }
  }

  /**
   However a stream of frames is cut off, the reader returns exactly the values whose frames arrived whole, in order,
   and then reports the end if and only if the cut falls between two frames.
   */
  lemma {:induction false} DrainPrefix<T(!new)>(encode: T -> seq<byte>, decode: seq<byte> -> Option<T>,
                                         values: seq<T>, k: nat)
    requires GoodCodec(encode, decode)
    requires forall i :: 0 <= i < |values| ==> |encode(values[i])| <= MAX_FRAME_SIZE
    requires k <= |FramesOf(encode, values)|
    ensures var j := WholeFrames(encode, values, k);
      Drain(decode, FramesOf(encode, values)[..k]) == Drained(values[..j], k == |FramesOf(encode, values[..j])|)
  {
    if values == [] {
    } else {
      var first, later := Frame(encode(values[0])), FramesOf(encode, values[1..]);
      if k < |first| {
        assert FramesOf(encode, values)[..k] == first[..k];
        if k > 0 { TruncatedIsBad(encode, decode, values[0], k); }
      } else {
        ReadsBack(encode, decode, values[0], later[..k - |first|]);
        DrainPrefix(encode, decode, values[1..], k - |first|);
        DrainStep(encode, decode, values, k);
      }
    }
  }

  lemma DrainStep<T(!new)>(encode: T -> seq<byte>, decode: seq<byte> -> Option<T>, values: seq<T>, k: nat)
    requires values != [] && |Frame(encode(values[0]))| <= k <= |FramesOf(encode, values)|
    requires var rest := FramesOf(encode, values[1..])[..k - |Frame(encode(values[0]))|];
      NextFrame(decode, Frame(encode(values[0])) + rest) == Value(values[0], rest)
    ensures var first := Frame(encode(values[0]));
      var later := Drain(decode, FramesOf(encode, values[1..])[..k - |first|]);
      var j := WholeFrames(encode, values[1..], k - |first|);
      && Drain(decode, FramesOf(encode, values)[..k]) == Drained([values[0]] + later.values, later.clean)
      && values[..j + 1] == [values[0]] + values[1..][..j]
      && FramesOf(encode, values[..j + 1]) == first + FramesOf(encode, values[1..][..j])
  {
    var first, later := Frame(encode(values[0])), FramesOf(encode, values[1..]);
    CutInside(first, later, k);
    DrainFirst(decode, first + later[..k - |first|], values[0], later[..k - |first|]);
    var j := WholeFrames(encode, values[1..], k - |first|);
    assert values[..j + 1] != [] && values[..j + 1][0] == values[0];
    assert values[..j + 1][1..] == values[1..][..j];
  }

  lemma DrainFirst<T(!new)>(decode: seq<byte> -> Option<T>, s: seq<byte>, value: T, rest: seq<byte>)
    requires NextFrame(decode, s) == Value(value, rest)
    ensures Drain(decode, s) == Drained([value] + Drain(decode, rest).values, Drain(decode, rest).clean)
  {
  }

  lemma CutInside<T>(first: seq<T>, later: seq<T>, k: nat)
    requires |first| <= k <= |first + later|
    ensures (first + later)[..k] == first + later[..k - |first|]
  {
  }

  /** Whole frames followed by a proper part of one more. */
  lemma {:induction false} DrainCut<T(!new)>(encode: T -> seq<byte>, decode: seq<byte> -> Option<T>, values: seq<T>,
                                      next: T, k: nat)
    requires GoodCodec(encode, decode) && |encode(next)| <= MAX_FRAME_SIZE && k < |Frame(encode(next))|
    requires forall i :: 0 <= i < |values| ==> |encode(values[i])| <= MAX_FRAME_SIZE
    ensures Drain(decode, FramesOf(encode, values) + Frame(encode(next))[..k]) == Drained(values, k == 0)
    decreases |values|
  {
    var tail := Frame(encode(next))[..k];
    if values == [] {
      assert FramesOf(encode, values) + tail == tail;
      if k > 0 { TruncatedIsBad(encode, decode, next, k); }
    } else {
      var first, later := Frame(encode(values[0])), FramesOf(encode, values[1..]);
      assert FramesOf(encode, values) + tail == first + (later + tail);
      ReadsBack(encode, decode, values[0], later + tail);
      DrainCut(encode, decode, values[1..], next, k);
      assert values == [values[0]] + values[1..];
    }
  }

  /**
   The two ends agree on a payload exactly when it is not empty: the writer accepts an empty one, the reader never does.
   */
  lemma EmptyPayloadDisagrees<T>(decode: seq<byte> -> Option<T>, payload: seq<byte>, rest: seq<byte>)
    requires |payload| <= MAX_FRAME_SIZE
    ensures NextFrame(decode, Frame(payload) + rest).Value? <==> payload != [] && decode(payload).Some?
  {
    var s := Frame(payload) + rest;
    Format.WidthBounds();
    Format.LeRoundTrip(4, |payload|);
    assert s[..4] == Format.Le(4, |payload|);
    assert s[4..4 + |payload|] == payload;
  }
}
