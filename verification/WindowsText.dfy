/** Ordinal folding, the rule for names that Windows cannot show, and the replacement name. */
module WindowsText {
  import opened Common
  import opened Names

  // ---------- Folding ----------

  /** Uppercasing and ordinal comparison act on one character at a time. */
  type CharFold = char -> seq<int>

  /** Two names are ordinally equal when their folds are equal. */
  function Fold(f: CharFold, s: string): seq<int> {
    if s == "" then [] else f(s[0]) + Fold(f, s[1..])
  }

  predicate SuffixChar(c: char) {
    c == '-' || '0' <= c <= '9' || 'a' <= c <= 'f'
  }

  /** Dash and lowercase hexadecimal digits fold to single, pairwise different units. */
  ghost predicate GoodFold(f: CharFold) {
    && (forall c :: SuffixChar(c) ==> |f(c)| == 1)
    && (forall c, d :: SuffixChar(c) && SuffixChar(d) && f(c) == f(d) ==> c == d)
  }

  lemma {:induction false} FoldAppend(f: CharFold, s: string, t: string)
    ensures Fold(f, s + t) == Fold(f, s) + Fold(f, t)
  {
    if s == "" {
      assert s + t == t;
    } else {
      assert (s + t)[1..] == s[1..] + t;
      FoldAppend(f, s[1..], t);
    }
  }

  ghost predicate OverSuffix(s: string) {
    forall i :: 0 <= i < |s| ==> SuffixChar(s[i])
  }

  /** On dashes and hexadecimal digits folding loses nothing. */
  lemma {:induction false} FoldExact(f: CharFold, s: string)
    requires GoodFold(f) && OverSuffix(s)
    ensures |Fold(f, s)| == |s|
    ensures forall i :: 0 <= i < |s| ==> Fold(f, s)[i] == f(s[i])[0]
  {
    if s != "" {
      assert SuffixChar(s[0]);
      FoldExact(f, s[1..]);
    }
  }

  lemma FoldInjective(f: CharFold, s: string, t: string)
    requires GoodFold(f) && OverSuffix(s) && OverSuffix(t) && Fold(f, s) == Fold(f, t)
    ensures s == t
  {
    FoldExact(f, s);
    FoldExact(f, t);
    forall i | 0 <= i < |s| ensures s[i] == t[i] {
      assert SuffixChar(s[i]) && SuffixChar(t[i]);
      assert f(s[i]) == f(t[i]);
    }
  }

  // ---------- Numbers ----------

  function Digit(n: nat): (c: char)
    requires n < 16
    ensures SuffixChar(c) && c != '-'
  {
    if n < 10 then '0' + n as char else 'a' + (n - 10) as char
  }

  lemma DigitInjective(m: nat, n: nat)
    requires m < 16 && n < 16 && Digit(m) == Digit(n)
    ensures m == n
  {
  }

  /** `{:0width$x}` of a number that fits. */
  function Hex(width: nat, n: nat): (s: string)
    ensures |s| == width && OverSuffix(s) && '-' !in s
  {
    if width == 0 then "" else Hex(width - 1, n / 16) + [Digit(n % 16)]
  }

  function Decimal(n: nat): (s: string)
    ensures s != "" && OverSuffix(s) && '-' !in s
  {
    if n < 10 then [Digit(n)] else Decimal(n / 10) + [Digit(n % 10)]
  }

  lemma {:induction false} DecimalInjective(m: nat, n: nat)
    requires Decimal(m) == Decimal(n)
    ensures m == n
  {
    var a, b := Decimal(m), Decimal(n);
    assert a[|a| - 1] == Digit(m % 10) && b[|b| - 1] == Digit(n % 10);
    DigitInjective(m % 10, n % 10);
    if m >= 10 && n >= 10 {
      assert a[..|a| - 1] == Decimal(m / 10) && b[..|b| - 1] == Decimal(n / 10);
      DecimalInjective(m / 10, n / 10);
    }
  }

  function Pow10(k: nat): nat {
    if k == 0 then 1 else 10 * Pow10(k - 1)
  }

  lemma {:induction false} DecimalLength(n: nat, k: nat)
    requires 0 < k && n < Pow10(k)
    ensures |Decimal(n)| <= k
  {
    if n >= 10 {
      assert Pow10(1) == 10 * Pow10(0);
      DecimalLength(n / 10, k - 1);
    }
  }

  // ---------- Which names are replaced ----------

  predicate Forbidden(c: char) {
    c as int <= 0x1f || c in "<>:\"/\\|?*"
  }

  predicate TrailingBad(c: char) {
    c == ' ' || c == '.'
  }

  predicate HasForbidden(s: string) {
    exists i :: 0 <= i < |s| && Forbidden(s[i])
  }

  function AsciiUpper(s: string): (r: string)
    ensures |r| == |s|
  {
    seq(|s|, i requires 0 <= i < |s| => if 'a' <= s[i] <= 'z' then s[i] - 32 as char else s[i])
  }

  /** Device names, alone or before the first dot. */
  predicate Reserved(stem: string) {
    var upper := AsciiUpper(stem);
    || upper == "CON" || upper == "PRN" || upper == "AUX" || upper == "NUL"
    || (|upper| == 4 && (upper[..3] == "COM" || upper[..3] == "LPT")
        && ('1' <= upper[3] <= '9' || upper[3] as int == 0xb9 || upper[3] as int == 0xb2 || upper[3] as int == 0xb3))
  }

  function Stem(name: string): string {
    Split('.', name)[0]
  }

  predicate NeedsMapping(name: string) {
    || name == ""
    || TrailingBad(name[|name| - 1])
    || HasForbidden(name)
    || Utf16Len(name) > 255
    || Reserved(Stem(name))
  }

  // ---------- The replacement name ----------

  function Suffix(id: u64, attempt: nat): string {
    if attempt == 0 then "~cfs-" + Hex(16, id) else "~cfs-" + Hex(16, id) + "-" + Decimal(attempt)
  }

  function Replace(name: string): (r: string)
    ensures |r| == |name|
  {
    seq(|name|, i requires 0 <= i < |name| => if Forbidden(name[i]) then '_' else name[i])
  }

  /** `trim_end_matches([' ', '.'])`. */
  function TrimEnd(s: string): (r: string)
    ensures r <= s
  {
    if s != "" && TrailingBad(s[|s| - 1]) then TrimEnd(s[..|s| - 1]) else s
  }

  function Cleaned(name: string): string {
    var trimmed := TrimEnd(Replace(name));
    if trimmed == "" then "entry" else trimmed
  }

  /** The longest prefix of at most `room` UTF-16 units. */
  function FitTo(s: string, room: nat): (r: string)
    ensures r <= s && Utf16Len(r) <= room
  {
    if Utf16Len(s) <= room then s
    else FitTo(s[..|s| - 1], room)
  }

  function Fitted(name: string, id: u64, attempt: nat): string {
    FitTo(Cleaned(name), if Utf16Len(Suffix(id, attempt)) <= 255 then 255 - Utf16Len(Suffix(id, attempt)) else 0)
  }

  function MappedName(name: string, id: u64, attempt: nat): string {
    Fitted(name, id, attempt) + Suffix(id, attempt)
  }

  /** Attempts that any directory can need; see `FirstFree`. */
  const MAX_ATTEMPT := 10_000_000

  lemma {:induction false} AsciiUtf16Len(s: string)
    requires forall i :: 0 <= i < |s| ==> s[i] as int < 0x1_0000
    ensures Utf16Len(s) == |s|
  {
    if s != "" { AsciiUtf16Len(s[1..]); }
  }

  lemma AttemptLength(attempt: nat)
    requires attempt <= MAX_ATTEMPT
    ensures |Decimal(attempt)| <= 15
  {
    assert Pow10(15) == 1_000_000_000_000_000 by {
      assert Pow10(5) == 100_000;
      assert Pow10(10) == 10_000_000_000;
    }
    DecimalLength(attempt, 15);
  }

  /** A character of a suffix. */
  predicate Harmless(c: char) {
    SuffixChar(c) || c == '~' || c == 'c' || c == 'f' || c == 's'
  }

  predicate AllHarmless(s: string) {
    forall i :: 0 <= i < |s| ==> Harmless(s[i])
  }

  lemma HarmlessChar(c: char)
    requires Harmless(c)
    ensures !Forbidden(c) && c != '.' && c as int < 0x1_0000
  {
  }

  lemma AllHarmlessAppend(s: string, t: string)
    requires AllHarmless(s) && AllHarmless(t)
    ensures AllHarmless(s + t)
  {
    forall i | 0 <= i < |s + t| ensures Harmless((s + t)[i]) {
      assert (s + t)[i] == if i < |s| then s[i] else t[i - |s|];
    }
  }

  lemma HarmlessText(s: string)
    requires AllHarmless(s)
    ensures Utf16Len(s) == |s| && !HasForbidden(s) && '.' !in s
  {
    forall i | 0 <= i < |s| ensures !Forbidden(s[i]) && s[i] != '.' && s[i] as int < 0x1_0000 {
      HarmlessChar(s[i]);
    }
    AsciiUtf16Len(s);
  }

  lemma SuffixHarmless(id: u64, attempt: nat)
    ensures AllHarmless(Suffix(id, attempt))
  {
    assert AllHarmless("~cfs-") && AllHarmless("-");
    assert AllHarmless(Hex(16, id)) && AllHarmless(Decimal(attempt));
    AllHarmlessAppend("~cfs-", Hex(16, id));
    AllHarmlessAppend("~cfs-" + Hex(16, id), "-");
    AllHarmlessAppend("~cfs-" + Hex(16, id) + "-", Decimal(attempt));
  }

  lemma SuffixShape(id: u64, attempt: nat)
    requires attempt <= MAX_ATTEMPT
    ensures 21 <= |Suffix(id, attempt)| <= 38 && Utf16Len(Suffix(id, attempt)) == |Suffix(id, attempt)|
    ensures !HasForbidden(Suffix(id, attempt)) && '.' !in Suffix(id, attempt)
    ensures SuffixChar(Suffix(id, attempt)[|Suffix(id, attempt)| - 1])
  {
    AttemptLength(attempt);
    SuffixHarmless(id, attempt);
    HarmlessText(Suffix(id, attempt));
    LastOfSuffix(id, attempt);
  }

  lemma LastOfSuffix(id: u64, attempt: nat)
    ensures |Suffix(id, attempt)| > 0 && SuffixChar(Suffix(id, attempt)[|Suffix(id, attempt)| - 1])
  {
    var last := if attempt == 0 then Hex(16, id) else Decimal(attempt);
    assert Suffix(id, attempt)[|Suffix(id, attempt)| - 1] == last[|last| - 1];
  }

  /** `mapped_name` with its shortening loop. */
  method MakeMappedName(name: string, id: u64, attempt: nat) returns (r: string)
    requires attempt <= MAX_ATTEMPT
    ensures r == MappedName(name, id, attempt)
  {
    var suffix := Suffix(id, attempt);
    SuffixShape(id, attempt);
    var cleaned := Cleaned(name);
    var room := 255 - Utf16Len(suffix);
    while Utf16Len(cleaned) + Utf16Len(suffix) > 255
      invariant FitTo(cleaned, room) == FitTo(Cleaned(name), room)
      decreases |cleaned|
    {
      cleaned := cleaned[..|cleaned| - 1];
    }
    r := cleaned + suffix;
  }

  lemma CleanedShape(name: string)
    ensures Cleaned(name) != "" && !HasForbidden(Cleaned(name))
  {
    var r := Replace(name);
    forall i | 0 <= i < |r| ensures !Forbidden(r[i]) {
      assert !Forbidden('_');
    }
    var t := TrimEnd(r);
    forall i | 0 <= i < |t| ensures !Forbidden(t[i]) {
      assert t[i] == r[i];
    }
  }

  /** A replacement is short enough, has no forbidden character, and does not end in a space or dot. */
  lemma MappedNameShape(name: string, id: u64, attempt: nat)
    requires attempt <= MAX_ATTEMPT
    ensures var m := MappedName(name, id, attempt);
      && m != "" && Utf16Len(m) <= 255 && !HasForbidden(m) && !TrailingBad(m[|m| - 1])
  {
    var fitted, suffix := Fitted(name, id, attempt), Suffix(id, attempt);
    SuffixShape(id, attempt);
    CleanedShape(name);
    Utf16LenAppend(fitted, suffix);
    NoForbiddenPrefix(Cleaned(name), fitted);
    NoForbiddenAppend(fitted, suffix);
    assert (fitted + suffix)[|fitted + suffix| - 1] == suffix[|suffix| - 1];
  }

  lemma NoForbiddenPrefix(s: string, p: string)
    requires !HasForbidden(s) && p <= s
    ensures !HasForbidden(p)
  {
    forall i | 0 <= i < |p| ensures !Forbidden(p[i]) {
      assert p[i] == s[i];
    }
  }

  lemma NoForbiddenAppend(s: string, t: string)
    requires !HasForbidden(s) && !HasForbidden(t)
    ensures !HasForbidden(s + t)
  {
    forall i | 0 <= i < |s + t| ensures !Forbidden((s + t)[i]) {
      assert (s + t)[i] == if i < |s| then s[i] else t[i - |s|];
    }
  }

  lemma {:induction false} SplitFirst(s: string, t: string)
    ensures Split('.', s + t)[0] == if '.' in s then Split('.', s)[0] else s + Split('.', t)[0]
  {
    if s == "" {
      assert s + t == t;
    } else {
      assert (s + t)[1..] == s[1..] + t;
      SplitFirst(s[1..], t);
      assert '.' in s <==> s[0] == '.' || '.' in s[1..];
    }
  }

  lemma {:induction false} SplitFirstWhole(s: string)
    requires '.' !in s
    ensures Split('.', s)[0] == s
  {
    SplitWithoutSeparator('.', s);
  }

  /**
   A replacement would be replaced again exactly when a device name stands before a dot of the shortened
   original, as in `CON.txt`; the other clauses of the rule never fire on it.
   */
  lemma MappedNameStillReserved(name: string, id: u64, attempt: nat)
    requires attempt <= MAX_ATTEMPT
    ensures NeedsMapping(MappedName(name, id, attempt)) <==>
            '.' in Fitted(name, id, attempt) && Reserved(Stem(Fitted(name, id, attempt)))
  {
    var fitted, suffix := Fitted(name, id, attempt), Suffix(id, attempt);
    MappedNameShape(name, id, attempt);
    SuffixShape(id, attempt);
    StemWithSuffix(fitted, suffix);
  }

  /** The stem of a name before a long suffix without dots. */
  lemma StemWithSuffix(fitted: string, suffix: string)
    requires '.' !in suffix && |suffix| >= 21
    ensures Reserved(Stem(fitted + suffix)) <==> '.' in fitted && Reserved(Stem(fitted))
  {
    SplitFirst(fitted, suffix);
    SplitFirstWhole(suffix);
    if '.' !in fitted {
      assert Stem(fitted + suffix) == fitted + suffix;
      assert |AsciiUpper(fitted + suffix)| >= 21;
    }
  }

  lemma ReplaceHarmless(s: string)
    requires forall i :: 0 <= i < |s| ==> 'A' <= s[i] <= 'Z' || 'a' <= s[i] <= 'z' || s[i] == '.'
    ensures !HasForbidden(s) && Replace(s) == s && Utf16Len(s) == |s|
  {
    forall i | 0 <= i < |s| ensures !Forbidden(s[i]) && s[i] as int < 0x1_0000 {
    }
    AsciiUtf16Len(s);
  }

  lemma ConStem()
    ensures Stem("CON.txt") == "CON" && Reserved("CON") && '.' in "CON.txt"
  {
    SplitAtSeparator('.', "CON", "txt");
    assert "CON.txt" == "CON" + ['.'] + "txt";
    assert AsciiUpper("CON") == "CON";
    assert "CON.txt"[3] == '.';
  }

  lemma HarmlessFitted(s: string, id: u64)
    requires s != "" && |s| <= 100 && 'A' <= s[|s| - 1] <= 'z'
    requires forall i :: 0 <= i < |s| ==> 'A' <= s[i] <= 'Z' || 'a' <= s[i] <= 'z' || s[i] == '.'
    ensures Fitted(s, id, 0) == s
  {
    ReplaceHarmless(s);
    assert Cleaned(s) == s;
    SuffixShape(id, 0);
  }

  /** `CON.txt` keeps the device stem. */
  lemma ConTxtStillReserved(id: u64)
    ensures NeedsMapping("CON.txt") && NeedsMapping(MappedName("CON.txt", id, 0))
  {
    ConStem();
    HarmlessFitted("CON.txt", id);
    MappedNameStillReserved("CON.txt", id, 0);
  }

  // ---------- Different attempts give different names ----------

  lemma {:induction false} LastSplit(u: seq<int>, v: seq<int>, u': seq<int>, v': seq<int>, d: int)
    requires u + [d] + v == u' + [d] + v' && d !in v && d !in v'
    ensures v == v'
  {
    var w := u + [d] + v;
    forall i | |u| < i < |w| ensures w[i] != d {
      assert w[i] == v[i - |u| - 1];
    }
    forall i | |u'| < i < |w| ensures w[i] != d {
      assert w[i] == v'[i - |u'| - 1];
    }
    assert w[|u|] == d && w[|u'|] == d;
    assert v == w[|u| + 1..] && v' == w[|u'| + 1..];
  }

  /** What follows the last dash: the hexadecimal id, or the attempt number. */
  function LastField(id: u64, attempt: nat): string {
    if attempt == 0 then Hex(16, id) else Decimal(attempt)
  }

  function BeforeLastDash(name: string, id: u64, attempt: nat): string {
    Fitted(name, id, attempt) + (if attempt == 0 then "~cfs" else "~cfs-" + Hex(16, id))
  }

  lemma Regroup(a: string, b: string, c: string, d: string)
    ensures a + (b + c + d) == (a + b) + c + d
  {
  }

  lemma DashPosition(name: string, id: u64, attempt: nat)
    ensures MappedName(name, id, attempt) == (BeforeLastDash(name, id, attempt) + "-") + LastField(id, attempt)
  {
    var fitted := Fitted(name, id, attempt);
    if attempt == 0 {
      assert "~cfs" + "-" == "~cfs-";
      Regroup(fitted, "~cfs", "-", Hex(16, id));
    } else {
      Regroup(fitted, "~cfs-" + Hex(16, id), "-", Decimal(attempt));
    }
  }

  lemma NoDashFold(f: CharFold, field: string)
    requires GoodFold(f) && OverSuffix(field) && '-' !in field
    ensures |f('-')| == 1 && f('-')[0] !in Fold(f, field)
  {
    assert SuffixChar('-');
    FoldExact(f, field);
    forall i | 0 <= i < |field| ensures Fold(f, field)[i] != f('-')[0] {
      assert SuffixChar(field[i]) && field[i] != '-';
      assert f(field[i]) == [f(field[i])[0]] && f('-') == [f('-')[0]];
    }
  }

  lemma DashFold(f: CharFold, name: string, id: u64, attempt: nat)
    requires GoodFold(f)
    ensures |f('-')| == 1
    ensures Fold(f, MappedName(name, id, attempt)) ==
            Fold(f, BeforeLastDash(name, id, attempt)) + [f('-')[0]] + Fold(f, LastField(id, attempt))
    ensures f('-')[0] !in Fold(f, LastField(id, attempt))
  {
    var head, field := BeforeLastDash(name, id, attempt), LastField(id, attempt);
    NoDashFold(f, field);
    DashPosition(name, id, attempt);
    FoldAppend(f, head + "-", field);
    FoldAppend(f, head, "-");
    assert Fold(f, "-") == f('-') + Fold(f, "");
    assert Fold(f, "-") == [f('-')[0]];
  }

  /** No two attempts for one entry are ordinally equal. */
  lemma AttemptsDiffer(f: CharFold, name: string, id: u64, a: nat, b: nat)
    requires GoodFold(f) && a < b <= MAX_ATTEMPT
    ensures Fold(f, MappedName(name, id, a)) != Fold(f, MappedName(name, id, b))
  {
    DashFold(f, name, id, a);
    DashFold(f, name, id, b);
    if Fold(f, MappedName(name, id, a)) == Fold(f, MappedName(name, id, b)) {
      LastSplit(Fold(f, BeforeLastDash(name, id, a)), Fold(f, LastField(id, a)),
                Fold(f, BeforeLastDash(name, id, b)), Fold(f, LastField(id, b)), f('-')[0]);
      FoldInjective(f, LastField(id, a), LastField(id, b));
      if a == 0 {
        assert Pow10(8) == 100_000_000;
        DecimalLength(b, 8);
      } else {
        DecimalInjective(a, b);
      }
    }
  }
}
