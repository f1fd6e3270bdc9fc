/** The two encodings whose lengths the name rules count. */
module Encodings {
  import Names

  /** The bytes of a character in UTF-8 (RFC 3629). */
  function Utf8(c: char): seq<nat> {
    var n := c as int;
    if n < 0x80 then [n]
    else if n < 0x800 then [0xc0 + n / 64, 0x80 + n % 64]
    else if n < 0x1_0000 then [0xe0 + n / 4096, 0x80 + n / 64 % 64, 0x80 + n % 64]
    else [0xf0 + n / 262_144, 0x80 + n / 4096 % 64, 0x80 + n / 64 % 64, 0x80 + n % 64]
  }

  /** The character that starts a byte string, and how many bytes it takes. */
  function FromUtf8(s: seq<nat>): (nat, nat)
    requires s != []
  {
    if s[0] < 0x80 then (s[0], 1)
    else if 0xc0 <= s[0] < 0xe0 && |s| >= 2 && s[1] >= 0x80 then ((s[0] - 0xc0) * 64 + (s[1] - 0x80), 2)
    else if 0xe0 <= s[0] < 0xf0 && |s| >= 3 && s[1] >= 0x80 && s[2] >= 0x80
      then ((s[0] - 0xe0) * 4096 + (s[1] - 0x80) * 64 + (s[2] - 0x80), 3)
    else if 0xf0 <= s[0] && |s| >= 4 && s[1] >= 0x80 && s[2] >= 0x80 && s[3] >= 0x80
      then ((s[0] - 0xf0) * 262_144 + (s[1] - 0x80) * 4096 + (s[2] - 0x80) * 64 + (s[3] - 0x80), 4)
    else (0, 0)
  }

  /** The units of a character in UTF-16 (RFC 2781): one, or a pair of surrogates. */
  function Utf16(c: char): seq<nat> {
    var n := c as int;
    if n < 0x1_0000 then [n] else [0xd800 + (n - 0x1_0000) / 1024, 0xdc00 + (n - 0x1_0000) % 1024]
  }

  function FromUtf16(s: seq<nat>): (nat, nat)
    requires s != []
  {
    if 0xd800 <= s[0] < 0xdc00 && |s| >= 2 && s[1] >= 0xdc00
    then (0x1_0000 + (s[0] - 0xd800) * 1024 + (s[1] - 0xdc00), 2)
    else (s[0], 1)
  }

  /** The encoding of a whole name. */
  function All(encode: char -> seq<nat>, name: string): seq<nat> {
    if name == "" then [] else encode(name[0]) + All(encode, name[1..])
  }

  lemma SixBits(n: nat)
    ensures n == n / 64 * 64 + n % 64 && n / 4096 == n / 64 / 64 && n / 262_144 == n / 4096 / 64
  {
  }

  /** Both encodings lose nothing, so their lengths are the ones the rules mean. */
  lemma Utf8ReadsBack(c: char, later: seq<nat>)
    ensures FromUtf8(Utf8(c) + later) == (c as int, |Utf8(c)|)
  {
    var n := c as int;
    SixBits(n);
    SixBits(n / 64);
    SixBits(n / 4096);
    var s := Utf8(c) + later;
    if n < 0x80 {
      assert s[0] == n;
    } else if n < 0x800 {
      assert s[0] == 0xc0 + n / 64 && s[1] == 0x80 + n % 64;
    } else if n < 0x1_0000 {
      assert s[0] == 0xe0 + n / 4096 && s[1] == 0x80 + n / 64 % 64 && s[2] == 0x80 + n % 64;
    } else {
      assert s[0] == 0xf0 + n / 262_144 && s[1] == 0x80 + n / 4096 % 64 && s[2] == 0x80 + n / 64 % 64 && s[3] == 0x80 + n % 64;
    }
  }

  lemma Utf16ReadsBack(c: char, later: seq<nat>)
    ensures FromUtf16(Utf16(c) + later) == (c as int, |Utf16(c)|)
  {
    var n := c as int;
    var s := Utf16(c) + later;
    if n < 0x1_0000 {
      assert s[0] == n;
    } else {
      assert s[0] == 0xd800 + (n - 0x1_0000) / 1024 && s[1] == 0xdc00 + (n - 0x1_0000) % 1024;
    }
  }

  /** The lengths that names are measured in are those of their encodings. */
  lemma {:induction false} NameLengths(name: string)
    ensures Names.Utf8Len(name) == |All(Utf8, name)| && Names.Utf16Len(name) == |All(Utf16, name)|
  {
    if name != "" {
      NameLengths(name[1..]);
    }
  }
}
