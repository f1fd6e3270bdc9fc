/** The naming rules of `WindowsText` said without its helper functions: which names are replaced, and by what text. */
module WindowsRules {
  import opened Common
  import opened WindowsText
  import Names

  // ---------- Which names are replaced ----------

  /** Characters that no Windows name may hold. */
  predicate CannotAppear(c: char) {
    || (c as int) < 32
    || c == '<' || c == '>' || c == ':' || c == '"' || c == '/' || c == '\\' || c == '|' || c == '?' || c == '*'
  }

  predicate BadEnd(c: char) {
    c == ' ' || c == '.'
  }

  const DEVICES: seq<string> :=
    ["CON", "PRN", "AUX", "NUL",
     "COM1", "COM2", "COM3", "COM4", "COM5", "COM6", "COM7", "COM8", "COM9", "COM\U{b9}", "COM\U{b2}", "COM\U{b3}",
     "LPT1", "LPT2", "LPT3", "LPT4", "LPT5", "LPT6", "LPT7", "LPT8", "LPT9", "LPT\U{b9}", "LPT\U{b2}", "LPT\U{b3}"]

  /** `t` in capitals, and `s` the same up to the case of ASCII letters. */
  predicate SameLetters(s: string, t: string) {
    |s| == |t| && forall i :: 0 <= i < |s| ==> s[i] == t[i] || ('A' <= t[i] <= 'Z' && s[i] as int == t[i] as int + 32)
  }

  predicate IsDevice(stem: string) {
    exists k :: 0 <= k < |DEVICES| && SameLetters(stem, DEVICES[k])
  }

  /** What stands before the first dot, if there is one. */
  predicate BeforeDot(name: string, stem: string) {
    stem <= name && '.' !in stem && (|stem| < |name| ==> name[|stem|] == '.')
  }

  lemma UpperIs(s: string, t: string)
    requires forall i :: 0 <= i < |t| ==> !('a' <= t[i] <= 'z')
    ensures AsciiUpper(s) == t <==> SameLetters(s, t)
  {
    if AsciiUpper(s) == t {
      forall i | 0 <= i < |s| ensures s[i] == t[i] || ('A' <= t[i] <= 'Z' && s[i] as int == t[i] as int + 32) {
        assert AsciiUpper(s)[i] == t[i];
      }
    }
    if SameLetters(s, t) {
      forall i | 0 <= i < |s| ensures AsciiUpper(s)[i] == t[i] {
      }
    }
  }

  predicate Port(c: char) {
    '1' <= c <= '9' || c as int == 0xb9 || c as int == 0xb2 || c as int == 0xb3
  }

  lemma PortDevices(first: nat, kind: string)
    requires (kind == "COM" && first == 4) || (kind == "LPT" && first == 16)
    ensures forall k :: first <= k < first + 12 ==> |DEVICES[k]| == 4 && DEVICES[k] == kind + [DEVICES[k][3]] && Port(DEVICES[k][3])
    ensures forall k :: first <= k < first + 9 ==> DEVICES[k][3] as int == 0x31 + k - first
    ensures DEVICES[first + 9][3] as int == 0xb9 && DEVICES[first + 10][3] as int == 0xb2 && DEVICES[first + 11][3] as int == 0xb3
  {
  }

  /** The twelve ports of one kind, from index `first` on. */
  lemma PortListed(upper: string, kind: string, first: nat)
    requires (kind == "COM" && first == 4) || (kind == "LPT" && first == 16)
    ensures (exists k :: first <= k < first + 12 && upper == DEVICES[k]) <==> |upper| == 4 && upper[..3] == kind && Port(upper[3])
  {
    PortDevices(first, kind);
    if |upper| == 4 && upper[..3] == kind && Port(upper[3]) {
      var k := first + if upper[3] as int == 0xb9 then 9 else if upper[3] as int == 0xb2 then 10
                       else if upper[3] as int == 0xb3 then 11 else upper[3] as int - 0x31;
      assert upper == kind + [upper[3]] && DEVICES[k][3] == upper[3];
    }
  }

  lemma DevicesListed(upper: string)
    ensures (exists k :: 0 <= k < |DEVICES| && upper == DEVICES[k]) <==>
            || upper == "CON" || upper == "PRN" || upper == "AUX" || upper == "NUL"
            || (exists k :: 4 <= k < 16 && upper == DEVICES[k]) || (exists k :: 16 <= k < 28 && upper == DEVICES[k])
  {
    assert DEVICES[0] == "CON" && DEVICES[1] == "PRN" && DEVICES[2] == "AUX" && DEVICES[3] == "NUL";
  }

  lemma DevicesUpper(k: nat)
    requires k < |DEVICES|
    ensures forall i :: 0 <= i < |DEVICES[k]| ==> !('a' <= DEVICES[k][i] <= 'z')
  {
  }

  lemma ReservedIff(stem: string)
    ensures Reserved(stem) <==> IsDevice(stem)
  {
    var upper := AsciiUpper(stem);
    DevicesListed(upper);
    PortListed(upper, "COM", 4);
    PortListed(upper, "LPT", 16);
    forall k | 0 <= k < |DEVICES| ensures upper == DEVICES[k] <==> SameLetters(stem, DEVICES[k]) {
      DevicesUpper(k);
      UpperIs(stem, DEVICES[k]);
    }
  }

  lemma StemIs(name: string, stem: string)
    requires BeforeDot(name, stem)
    ensures Stem(name) == stem
  {
    if |stem| == |name| {
      assert stem == name;
      SplitFirstWhole(name);
    } else {
      var rest := name[|stem|..];
      assert name == stem + rest && rest[0] == '.';
      SplitFirst(stem, rest);
    }
  }

  /**
   A name is replaced if and only if it is empty, ends in a space or dot, holds a character Windows forbids, is longer
   than 255 UTF-16 units, or is a device name up to its first dot and the case of its letters.
   */
  lemma NeedsMappingIff(name: string, stem: string)
    requires BeforeDot(name, stem)
    ensures NeedsMapping(name) <==>
            || name == "" || BadEnd(name[|name| - 1])
            || (exists i :: 0 <= i < |name| && CannotAppear(name[i]))
            || Names.Utf16Len(name) > 255
            || IsDevice(stem)
  {
    StemIs(name, stem);
    ReservedIff(stem);
    ForbiddenIff(name);
  }

  lemma ForbiddenIff(name: string)
    ensures HasForbidden(name) <==> exists i :: 0 <= i < |name| && CannotAppear(name[i])
  {
    forall i | 0 <= i < |name| ensures Forbidden(name[i]) <==> CannotAppear(name[i]) {
    }
  }

  // ---------- What replaces a name ----------

  /** The value of a lowercase hexadecimal digit. */
  function HexDigit(c: char): int {
    if '0' <= c <= '9' then (c - '0') as int else if 'a' <= c <= 'f' then 10 + (c - 'a') as int else -1
  }

  /** Reading digits from the left. */
  function Value(base: nat, s: string): int {
    if s == "" then 0 else base * Value(base, s[..|s| - 1]) + HexDigit(s[|s| - 1])
  }

  predicate Digits(base: nat, s: string) {
    forall i :: 0 <= i < |s| ==> 0 <= HexDigit(s[i]) < base
  }

  function Pow16(n: nat): nat {
    if n == 0 then 1 else 16 * Pow16(n - 1)
  }

  lemma Pow16Is()
    ensures Pow16(16) == U64_LIMIT
  {
    assert Pow16(4) == 0x1_0000;
    assert Pow16(8) == 0x1_0000_0000;
    assert Pow16(12) == 0x1_0000_0000_0000;
  }

  lemma {:induction false} HexReads(width: nat, n: nat)
    requires n < Pow16(width)
    ensures Digits(16, Hex(width, n)) && Value(16, Hex(width, n)) == n
  {
    if width > 0 {
      HexReads(width - 1, n / 16);
      var s := Hex(width, n);
      assert s[..|s| - 1] == Hex(width - 1, n / 16);
    }
  }

  lemma {:induction false} DecimalReads(n: nat)
    ensures Digits(10, Decimal(n)) && Value(10, Decimal(n)) == n && (n > 0 ==> Decimal(n)[0] != '0')
  {
    var s := Decimal(n);
    if n < 10 {
      assert s == [Digit(n)] && s[..|s| - 1] == "";
    } else {
      DecimalReads(n / 10);
      assert s[..|s| - 1] == Decimal(n / 10);
      assert s[0] == Decimal(n / 10)[0];
    }
  }

  /** The name with every forbidden character underlined and trailing spaces and dots dropped, or `entry`. */
  predicate CleanedTo(name: string, whole: string) {
    if forall i :: 0 <= i < |name| ==> BadEnd(name[i]) then whole == "entry"
    else
      && 0 < |whole| <= |name| && !BadEnd(whole[|whole| - 1])
      && (forall i :: 0 <= i < |whole| ==> whole[i] == if CannotAppear(name[i]) then '_' else name[i])
      && (forall i :: |whole| <= i < |name| ==> BadEnd(name[i]))
  }

  lemma {:induction false} TrimEndIs(s: string)
    ensures TrimEnd(s) != "" ==> !BadEnd(TrimEnd(s)[|TrimEnd(s)| - 1])
    ensures forall i :: |TrimEnd(s)| <= i < |s| ==> BadEnd(s[i])
  {
    if s != "" && TrailingBad(s[|s| - 1]) {
      TrimEndIs(s[..|s| - 1]);
      forall i | |TrimEnd(s)| <= i < |s| ensures BadEnd(s[i]) {
        if i < |s| - 1 { assert s[..|s| - 1][i] == s[i]; }
      }
    }
  }

  lemma CleanedIs(name: string)
    ensures CleanedTo(name, Cleaned(name))
  {
    var replaced := Replace(name);
    var trimmed := TrimEnd(replaced);
    TrimEndIs(replaced);
    forall i | 0 <= i < |name| ensures replaced[i] == (if CannotAppear(name[i]) then '_' else name[i]) && (BadEnd(replaced[i]) <==> BadEnd(name[i])) {
    }
    if trimmed != "" {
      var last := |trimmed| - 1;
      assert trimmed[last] == replaced[last];
      assert !BadEnd(name[last]);
    }
  }

  /** The longest beginning of `whole` that takes at most `room` UTF-16 units. */
  predicate Longest(whole: string, kept: string, room: nat) {
    kept <= whole && Names.Utf16Len(kept) <= room && (kept != whole ==> Names.Utf16Len(whole[..|kept| + 1]) > room)
  }

  lemma {:induction false} FitToIs(s: string, room: nat)
    ensures Longest(s, FitTo(s, room), room)
    decreases |s|
  {
    if Names.Utf16Len(s) > room {
      var shorter, r := s[..|s| - 1], FitTo(s, room);
      FitToIs(shorter, room);
      if r == shorter {
        assert s[..|r| + 1] == s;
      } else {
        assert s[..|r| + 1] == shorter[..|r| + 1];
      }
    }
  }

  /**
   The text of a replacement: the longest beginning of the cleaned name that leaves room, `~cfs-`, the id in sixteen
   hexadecimal digits, and from the second attempt on its number in decimal.
   */
  lemma MappedNameText(name: string, id: u64, attempt: nat) returns (whole: string, kept: string, hex: string, number: string)
    requires attempt <= MAX_ATTEMPT
    ensures CleanedTo(name, whole)
    ensures |hex| == 16 && Digits(16, hex) && Value(16, hex) == id
    ensures if attempt == 0 then number == "" else number != "" && Digits(10, number) && Value(10, number) == attempt && number[0] != '0'
    ensures var tail := "~cfs-" + hex + if attempt == 0 then "" else "-" + number;
      |tail| <= 255 && Longest(whole, kept, 255 - |tail|) && MappedName(name, id, attempt) == kept + tail
  {
    whole, kept, hex := Cleaned(name), Fitted(name, id, attempt), Hex(16, id);
    number := if attempt == 0 then "" else Decimal(attempt);
    CleanedIs(name);
    Pow16Is();
    HexReads(16, id);
    DecimalReads(attempt);
    SuffixShape(id, attempt);
    FitToIs(whole, 255 - |Suffix(id, attempt)|);
    TailIs(hex, number, attempt);
  }

  lemma TailIs(hex: string, number: string, attempt: nat)
    ensures ("~cfs-" + hex + if attempt == 0 then "" else "-" + number) == if attempt == 0 then "~cfs-" + hex else "~cfs-" + hex + "-" + number
  {
  }
}
