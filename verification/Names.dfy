/** Text measures, splitting and joining, and the entry-name rule. */
module Names {

  function Utf8Width(c: char): nat {
    if c as int < 0x80 then 1 else if c as int < 0x800 then 2 else if c as int < 0x1_0000 then 3 else 4
  }

  function Utf8Len(s: string): nat {
    if s == "" then 0 else Utf8Width(s[0]) + Utf8Len(s[1..])
  }

  function Utf16Width(c: char): nat {
    if c as int < 0x1_0000 then 1 else 2
  }

  function Utf16Len(s: string): nat {
    if s == "" then 0 else Utf16Width(s[0]) + Utf16Len(s[1..])
  }

  lemma {:induction false} Utf16LenAppend(s: string, t: string)
    ensures Utf16Len(s + t) == Utf16Len(s) + Utf16Len(t)
  {
    if s == "" {
      assert s + t == t;
    } else {
      assert (s + t)[1..] == s[1..] + t;
      Utf16LenAppend(s[1..], t);
    }
  }

  /** `str::split`: always at least one, possibly empty, piece. */
  function Split(sep: char, s: string): (r: seq<string>)
    ensures |r| > 0
  {
    if s == "" then [""]
    else
      var rest := Split(sep, s[1..]);
      if s[0] == sep then [""] + rest else [[s[0]] + rest[0]] + rest[1..]
  }

  function Join(sep: char, parts: seq<string>): string {
    if parts == [] then "" else if |parts| == 1 then parts[0] else parts[0] + [sep] + Join(sep, parts[1..])
  }

  lemma {:induction false} SplitWithoutSeparator(sep: char, s: string)
    requires sep !in s
    ensures Split(sep, s) == [s]
  {
    if s == "" {
    } else {
      SplitWithoutSeparator(sep, s[1..]);
      assert [s[0]] + s[1..] == s;
    }
  }

  lemma {:induction false} SplitAtSeparator(sep: char, s: string, t: string)
    requires sep !in s
    ensures Split(sep, s + [sep] + t) == [s] + Split(sep, t)
  {
    var whole := s + [sep] + t;
    if s == "" {
      assert whole[1..] == t;
    } else {
      assert whole[1..] == s[1..] + [sep] + t;
      SplitAtSeparator(sep, s[1..], t);
      assert [s[0]] + s[1..] == s;
    }
  }

  /** Splitting leaves exactly the strings without the separator whole. */
  lemma {:induction false} SplitWhole(sep: char, s: string)
    ensures Split(sep, s) == [s] <==> sep !in s
    ensures |Split(sep, s)| == 1 <==> sep !in s
  {
    if s != "" {
      SplitWhole(sep, s[1..]);
      assert s == [s[0]] + s[1..];
    }
  }

  /** Splitting undoes joining when no part contains the separator. */
  lemma {:induction false} SplitJoin(sep: char, parts: seq<string>)
    requires parts != []
    requires forall p :: p in parts ==> sep !in p
    ensures Split(sep, Join(sep, parts)) == parts
  {
    if |parts| == 1 {
      SplitWithoutSeparator(sep, parts[0]);
    } else {
      SplitJoin(sep, parts[1..]);
      SplitAtSeparator(sep, parts[0], Join(sep, parts[1..]));
    }
  }

  // ---------- std::path components on Unix ----------

  datatype Component = RootDir | CurDir | ParentDir | Normal(name: string)

  predicate Skipped(segment: string) {
    segment == "" || segment == "."
  }

  function SegmentComponents(segments: seq<string>): seq<Component> {
    if segments == [] then []
    else
      var rest := SegmentComponents(segments[1..]);
      if Skipped(segments[0]) then rest
      else if segments[0] == ".." then [ParentDir] + rest
      else [Normal(segments[0])] + rest
  }

  /** `Path::components`: repeated and trailing separators and inner dots are dropped. */
  function Components(path: string): seq<Component> {
    var segments := Split('/', path);
    if path != "" && path[0] == '/' then [RootDir] + SegmentComponents(segments)
    else if segments[0] == "." then [CurDir] + SegmentComponents(segments)
    else SegmentComponents(segments)
  }

  predicate ValidName(name: string) {
    && name != ""
    && Utf8Len(name) <= 255
    && |Components(name)| > 0
    && Components(name)[0].Normal?
    && |Components(name)| == 1
  }

  /** A name that denotes itself as a directory entry. */
  predicate Plain(name: string) {
    name != "" && name != "." && name != ".." && '/' !in name
  }

  lemma {:induction false} NoComponents(segments: seq<string>)
    ensures SegmentComponents(segments) == [] <==> forall i :: 0 <= i < |segments| ==> Skipped(segments[i])
  {
    if segments == [] {
    } else {
      NoComponents(segments[1..]);
      assert segments[0] in segments;
    }
  }

  lemma {:induction false} FirstSegment(s: string)
    ensures '/' !in Split('/', s)[0]
    ensures Split('/', s)[0] == "" <==> s == "" || s[0] == '/'
  {
    if s == "" || s[0] == '/' {
    } else {
      FirstSegment(s[1..]);
    }
  }

  /**
   The rule accepts exactly a short plain name followed by nothing but separators and dots.
   It is looser than "one filename component": `ValidNameIsNotAlwaysPlain` has an instance.
   */
  lemma ValidNameIff(name: string)
    ensures ValidName(name) <==>
            && Utf8Len(name) <= 255
            && Plain(Split('/', name)[0])
            && forall i :: 1 <= i < |Split('/', name)| ==> Split('/', name)[i] == "" || Split('/', name)[i] == "."
  {
    var segments := Split('/', name);
    FirstSegment(name);
    NoComponents(segments[1..]);
  }

  /** Without a separator the rule is plainness and the length bound. */
  lemma ValidNameWithoutSeparator(name: string)
    requires '/' !in name
    ensures ValidName(name) <==> Plain(name) && Utf8Len(name) <= 255
  {
    SplitWithoutSeparator('/', name);
    ValidNameIff(name);
  }

  /** `a/` passes although it holds a separator and denotes the same entry as `a`. */
  lemma ValidNameIsNotAlwaysPlain()
    ensures ValidName("a/") && !Plain("a/") && Components("a/") == Components("a")
  {
    SplitAtSeparator('/', "a", "");
    SplitWithoutSeparator('/', "a");
    assert "a/" == "a" + ['/'] + "";
    assert Split('/', "a/") == ["a", ""];
    assert SegmentComponents([""]) == [];
    assert ["a", ""][1..] == [""];
    assert SegmentComponents(["a"][1..]) == [];
    assert Utf8Len("a/") == 1 + Utf8Len("/") && Utf8Len("/") == 1 + Utf8Len("") by {
      assert "a/"[1..] == "/" && "/"[1..] == "";
    }
  }
}
