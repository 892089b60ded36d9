/**
 * The string operations of Rust's `str` that the modules rely on: case
 * folding, `find`/`contains`, `starts_with`, `split`, `splitn`, `replace`,
 * `trim`, `trim_matches`, integer `parse`, and decimal and hexadecimal
 * rendering.  Strings are sequences of Unicode scalar values.
 */
module Text {
  import opened Wrappers

  // ---------------------------------------------------------------------------
  // Case folding
  // ---------------------------------------------------------------------------

  /** ASCII lower-casing of one character; every other character is kept. */
  function LowerChar(c: char): char
  {
    if 'A' <= c <= 'Z' then (c as int + 32) as char else c
  }

  /** `to_lowercase`, restricted to ASCII letters (see README, "Left out"). */
  function ToLower(s: string): string
  {
    seq(|s|, i requires 0 <= i < |s| => LowerChar(s[i]))
  }

  /** `eq_ignore_ascii_case`. */
  predicate EqIgnoreAsciiCase(a: string, b: string)
  {
    ToLower(a) == ToLower(b)
  }

  /** `contains` after lower-casing both sides. */
  predicate ContainsIgnoreCase(s: string, p: string)
  {
    Contains(ToLower(s), ToLower(p))
  }

  // ---------------------------------------------------------------------------
  // Searching
  // ---------------------------------------------------------------------------

  predicate StartsWith(s: string, p: string)
  {
    |p| <= |s| && s[..|p|] == p
  }

  predicate EndsWith(s: string, p: string)
  {
    |p| <= |s| && s[|s| - |p|..] == p
  }

  /** `p` occurs in `s` starting at position `j`. */
  predicate OccursAt(s: string, p: string, j: nat)
  {
    j + |p| <= |s| && s[j..j + |p|] == p
  }

  lemma OccursShift(s: string, p: string, j: nat)
    requires |s| > 0
    ensures OccursAt(s, p, j + 1) <==> OccursAt(s[1..], p, j)
  {
    if j + 1 + |p| <= |s| {
      assert s[j + 1..j + 1 + |p|] == s[1..][j..j + |p|];
    }
  }

  /** `find`: the position of the first occurrence of `p` in `s`. */
  function IndexOf(s: string, p: string): (r: Option<nat>)
    ensures r.Some? ==> OccursAt(s, p, r.value)
    ensures r.Some? ==> forall j: nat :: j < r.value ==> !OccursAt(s, p, j)
    ensures r.None? ==> forall j: nat :: !OccursAt(s, p, j)
    decreases |s|
  {
    if |s| < |p| then None
    else if s[..|p|] == p then Some(0)
    else
      match IndexOf(s[1..], p)
      case None =>
        forall j: nat ensures !OccursAt(s, p, j) {
          if j > 0 { OccursShift(s, p, j - 1); }
        }
        None
      case Some(k) =>
        forall j: nat | j < k + 1 ensures !OccursAt(s, p, j) {
          if j > 0 { OccursShift(s, p, j - 1); }
        }
        OccursShift(s, p, k);
        Some(k + 1)
  }

  /** `contains`. */
  predicate Contains(s: string, p: string)
  {
    IndexOf(s, p).Some?
  }

  lemma ContainsAt(s: string, p: string, j: nat)
    requires OccursAt(s, p, j)
    ensures Contains(s, p)
  {
  }

  /** An occurrence inside a slice is an occurrence in the whole string. */
  lemma ContainsSlice(s: string, a: nat, b: nat, p: string)
    requires a <= b <= |s| && Contains(s[a..b], p)
    ensures Contains(s, p)
  {
    var j := IndexOf(s[a..b], p).value;
    assert OccursAt(s[a..b], p, j);
    assert j + |p| <= b - a;
    forall k | 0 <= k < |p|
      ensures s[a + j + k] == p[k]
    {
      assert s[a..b][j..j + |p|][k] == p[k];
    }
    assert s[a + j..a + j + |p|] == p;
    assert OccursAt(s, p, a + j);
  }

  // ---------------------------------------------------------------------------
  // Splitting, joining and replacing
  // ---------------------------------------------------------------------------

  /** `split(sep)` for a non-empty separator, collected into a vector. */
  function Split(s: string, sep: string): (parts: seq<string>)
    requires |sep| > 0
    ensures |parts| >= 1
    decreases |s|
  {
    match IndexOf(s, sep)
    case None => [s]
    case Some(i) => [s[..i]] + Split(s[i + |sep|..], sep)
  }

  /** `splitn(n, sep)`: at most `n` pieces, the last holding the remainder. */
  function SplitN(s: string, sep: string, n: nat): (parts: seq<string>)
    requires |sep| > 0 && n >= 1
    ensures 1 <= |parts| <= n
    decreases n
  {
    var found := IndexOf(s, sep);
    if n == 1 || found.None? then [s]
    else [s[..found.value]] + SplitN(s[found.value + |sep|..], sep, n - 1)
  }

  /** `join(sep)`: the pieces with `sep` between consecutive ones. */
  function Join(parts: seq<string>, sep: string): string
  {
    if |parts| == 0 then ""
    else if |parts| == 1 then parts[0]
    else parts[0] + sep + Join(parts[1..], sep)
  }

  /** Field `k` of a split, or the empty string when there are fewer fields (`parts.get(k).unwrap_or("")`). */
  function FieldOr(parts: seq<string>, k: nat, default: string): string
  {
    if k < |parts| then parts[k] else default
  }

  /** `replace(from, to)`: every non-overlapping occurrence, left to right, is replaced. */
  function Replace(s: string, from: string, to: string): string
    requires |from| > 0
  {
    Join(Split(s, from), to)
  }

  lemma JoinCons(a: string, rest: seq<string>, sep: string)
    requires |rest| >= 1
    ensures Join([a] + rest, sep) == a + sep + Join(rest, sep)
  {
    assert ([a] + rest)[1..] == rest;
  }

  /** Joining the pieces of a split with the same separator gives the string back. */
  lemma {:induction false} JoinSplit(s: string, sep: string)
    requires |sep| > 0
    ensures Join(Split(s, sep), sep) == s
    decreases |s|
  {
    var found := IndexOf(s, sep);
    if found.Some? {
      var i := found.value;
      var rest := s[i + |sep|..];
      var tail := Split(rest, sep);
      JoinSplit(rest, sep);
      assert Split(s, sep) == [s[..i]] + tail;
      JoinCons(s[..i], tail, sep);
      assert s[i..i + |sep|] == sep;
      assert s == s[..i] + sep + rest;
    }
  }

  /** A string is what precedes an occurrence, the occurrence, and what follows it. */
  lemma AroundOccurrence(s: string, p: string, i: nat)
    requires OccursAt(s, p, i)
    ensures s == s[..i] + p + s[i + |p|..]
  {
    assert s == s[..i] + s[i..i + |p|] + s[i + |p|..];
  }

  /** The same holds of `splitn`. */
  lemma {:induction false} JoinSplitN(s: string, sep: string, n: nat)
    requires |sep| > 0 && n >= 1
    ensures Join(SplitN(s, sep, n), sep) == s
    decreases n
  {
    if n > 1 {
      match IndexOf(s, sep)
      case None =>
        JoinOne(s, sep);
      case Some(i) =>
        JoinSplitN(s[i + |sep|..], sep, n - 1);
        JoinSplitNFound(s, sep, n, i);
    } else {
      JoinOne(s, sep);
    }
  }

  lemma JoinSplitNFound(s: string, sep: string, n: nat, i: nat)
    requires |sep| > 0 && n > 1 && IndexOf(s, sep) == Some(i)
    requires Join(SplitN(s[i + |sep|..], sep, n - 1), sep) == s[i + |sep|..]
    ensures Join(SplitN(s, sep, n), sep) == s
  {
    var rest := s[i + |sep|..];
    var tail := SplitN(rest, sep, n - 1);
    assert SplitN(s, sep, n) == [s[..i]] + tail;
    JoinCons(s[..i], tail, sep);
    AroundOccurrence(s, sep, i);
  }

  lemma JoinOne(s: string, sep: string)
    ensures Join([s], sep) == s
  {
  }

  /** No piece of a split contains the separator. */
  lemma {:induction false} SplitPiecesFree(s: string, sep: string)
    requires |sep| > 0
    ensures forall k :: 0 <= k < |Split(s, sep)| ==> !Contains(Split(s, sep)[k], sep)
    decreases |s|
  {
    match IndexOf(s, sep)
    case None =>
    case Some(i) =>
      var rest := s[i + |sep|..];
      SplitPiecesFree(rest, sep);
      var parts := Split(s, sep);
      assert parts == [s[..i]] + Split(rest, sep);
      if Contains(s[..i], sep) {
        var j := IndexOf(s[..i], sep).value;
        assert s[..i][j..j + |sep|] == s[j..j + |sep|];
        assert OccursAt(s, sep, j);
        assert false;
      }
      forall k | 0 <= k < |parts|
        ensures !Contains(parts[k], sep)
      {
        if k > 0 {
          assert parts[k] == Split(rest, sep)[k - 1];
        }
      }
  }

  /** A string without the separator splits into itself alone. */
  lemma SplitWithout(s: string, sep: string)
    requires |sep| > 0 && !Contains(s, sep)
    ensures Split(s, sep) == [s]
  {
  }

  /**
   * Splitting on a one-character separator undoes joining with it, when no
   * piece contains the separator.
   */
  lemma {:induction false} SplitJoin(parts: seq<string>, sep: string)
    requires |sep| == 1 && |parts| >= 1
    requires forall k :: 0 <= k < |parts| ==> !Contains(parts[k], sep)
    ensures Split(Join(parts, sep), sep) == parts
    decreases |parts|
  {
    if |parts| == 1 {
      SplitWithout(parts[0], sep);
    } else {
      var rest := parts[1..];
      SplitJoin(rest, sep);
      JoinCons(parts[0], rest, sep);
      SplitAfterFree(parts[0], sep, Join(rest, sep));
      assert parts == [parts[0]] + rest;
    }
  }

  /** The first piece of `p + sep + rest` is `p` when `p` holds no one-character `sep`. */
  lemma SplitAfterFree(p: string, sep: string, rest: string)
    requires |sep| == 1 && !Contains(p, sep)
    ensures Split(p + sep + rest, sep) == [p] + Split(rest, sep)
  {
    var s := p + sep + rest;
    assert s[|p|..|p| + 1] == sep;
    assert OccursAt(s, sep, |p|);
    forall j: nat | j < |p|
      ensures !OccursAt(s, sep, j)
    {
      if OccursAt(s, sep, j) {
        assert p[j..j + 1] == s[j..j + 1];
        ContainsAt(p, sep, j);
      }
    }
    assert IndexOf(s, sep) == Some(|p|);
    assert s[..|p|] == p && s[|p| + 1..] == rest;
  }

  /** A pattern whose first character is absent from `s` does not occur in it. */
  lemma AbsentFirstChar(s: string, p: string)
    requires p != [] && p[0] !in s
    ensures !Contains(s, p)
  {
  }

  /** The first occurrence of `sep` in `p + sep + rest` is the one after `p`, when `p` lacks its first character. */
  lemma IndexAfter(p: string, sep: string, rest: string)
    requires sep != [] && sep[0] !in p
    ensures IndexOf(p + sep + rest, sep) == Some(|p|)
    ensures (p + sep + rest)[..|p|] == p && (p + sep + rest)[|p| + |sep|..] == rest
  {
    var s := p + sep + rest;
    assert s[|p|..|p| + |sep|] == sep;
    assert OccursAt(s, sep, |p|);
    forall j: nat | j < |p|
      ensures !OccursAt(s, sep, j)
    {
      assert s[j] == p[j];
    }
  }

  /** A one-character pattern occurs exactly when its character does. */
  lemma ContainsChar(s: string, c: char)
    ensures Contains(s, [c]) <==> c in s
  {
    if Contains(s, [c]) {
      var j := IndexOf(s, [c]).value;
      assert s[j..j + 1] == [c];
      assert s[j] in s;
    }
    if c in s {
      var j :| 0 <= j < |s| && s[j] == c;
      assert s[j..j + 1] == [c];
      ContainsAt(s, [c], j);
    }
  }

  /** Fields without the separator character hold no occurrence of it. */
  lemma FieldsFree(fields: seq<string>, c: char)
    requires forall k :: 0 <= k < |fields| ==> c !in fields[k]
    ensures forall k :: 0 <= k < |fields| ==> !Contains(fields[k], [c])
  {
    forall k | 0 <= k < |fields|
      ensures !Contains(fields[k], [c])
    {
      ContainsChar(fields[k], c);
    }
  }

  /** The last piece of a join ends the joined string. */
  lemma {:induction false} JoinEndsWithLast(parts: seq<string>, sep: string)
    requires |parts| >= 1
    ensures EndsWith(Join(parts, sep), parts[|parts| - 1])
    decreases |parts|
  {
    if |parts| > 1 {
      var rest := parts[1..];
      JoinEndsWithLast(rest, sep);
      JoinCons(parts[0], rest, sep);
      assert parts == [parts[0]] + rest;
      var j := Join(rest, sep);
      var whole := parts[0] + sep + j;
      assert whole[|whole| - |j|..] == j;
    }
  }

  /** Replacing a pattern that does not occur changes nothing. */
  lemma ReplaceAbsent(s: string, from: string, to: string)
    requires |from| > 0 && !Contains(s, from)
    ensures Replace(s, from, to) == s
  {
    SplitWithout(s, from);
  }

  /** Replacing a pattern by itself changes nothing. */
  lemma ReplaceBySelf(s: string, p: string)
    requires |p| > 0
    ensures Replace(s, p, p) == s
  {
    JoinSplit(s, p);
  }

  // ---------------------------------------------------------------------------
  // Trimming
  // ---------------------------------------------------------------------------

  /** The Unicode White_Space property, which `trim` strips. */
  predicate IsWhitespace(c: char)
  {
    c == ' ' || ('\t' <= c <= '\r') || c == '\U{0085}' || c == '\U{00A0}' || c == '\U{1680}'
    || ('\U{2000}' <= c <= '\U{200A}') || c == '\U{2028}' || c == '\U{2029}' || c == '\U{202F}'
    || c == '\U{205F}' || c == '\U{3000}'
  }

  /** Drops the leading characters that satisfy `strip`. */
  function TrimStartBy(s: string, strip: char -> bool): (r: string)
    ensures |r| <= |s| && r == s[|s| - |r|..]
    ensures r == [] || !strip(r[0])
    ensures forall i :: 0 <= i < |s| - |r| ==> strip(s[i])
    decreases |s|
  {
    if |s| > 0 && strip(s[0]) then TrimStartBy(s[1..], strip) else s
  }

  /** Drops the trailing characters that satisfy `strip`. */
  function TrimEndBy(s: string, strip: char -> bool): (r: string)
    ensures |r| <= |s| && r == s[..|r|]
    ensures r == [] || !strip(r[|r| - 1])
    ensures forall i :: |r| <= i < |s| ==> strip(s[i])
    decreases |s|
  {
    if |s| > 0 && strip(s[|s| - 1]) then TrimEndBy(s[..|s| - 1], strip) else s
  }

  /** `trim`. */
  function Trim(s: string): string
  {
    TrimEndBy(TrimStartBy(s, IsWhitespace), IsWhitespace)
  }

  /** A string of digits has nothing for `trim` to remove. */
  lemma TrimDigits(s: string)
    requires AllDigits(s)
    ensures Trim(s) == s
  {
    if s == [] {
      assert TrimStartBy(s, IsWhitespace) == [];
      assert TrimEndBy([], IsWhitespace) == [];
    } else {
      assert IsDigit(s[0]) && IsDigit(s[|s| - 1]);
      TrimUnchanged(s);
    }
  }

  /** A string that starts and ends with non-whitespace is its own trim. */
  lemma TrimUnchanged(s: string)
    requires s != [] && !IsWhitespace(s[0]) && !IsWhitespace(s[|s| - 1])
    ensures Trim(s) == s
  {
    assert TrimStartBy(s, IsWhitespace) == s;
  }

  /** `trim_matches(c)`. */
  function TrimMatches(s: string, c: char): string
  {
    TrimEndBy(TrimStartBy(s, x => x == c), x => x == c)
  }

  /**
   * What `trim` returns: a slice `s[a..b]` with only whitespace outside it
   * and no whitespace at either end of it.
   */
  lemma TrimIsSlice(s: string)
    ensures exists a: nat, b: nat ::
      && a <= b <= |s| && Trim(s) == s[a..b]
      && (forall i :: 0 <= i < a ==> IsWhitespace(s[i]))
      && (forall i :: b <= i < |s| ==> IsWhitespace(s[i]))
    ensures Trim(s) == [] || (!IsWhitespace(Trim(s)[0]) && !IsWhitespace(Trim(s)[|Trim(s)| - 1]))
  {
    var t := TrimStartBy(s, IsWhitespace);
    var a := |s| - |t|;
    var r := TrimEndBy(t, IsWhitespace);
    assert r == s[a..a + |r|];
    forall i | a + |r| <= i < |s| ensures IsWhitespace(s[i]) {
      assert s[i] == t[i - a];
    }
  }

  // ---------------------------------------------------------------------------
  // Decimal numbers
  // ---------------------------------------------------------------------------

  const U32Max: nat := 4294967295
  const U64Max: nat := 18446744073709551615
  const I32Min: int := -2147483648
  const I32Max: int := 2147483647

  predicate IsDigit(c: char)
  {
    '0' <= c <= '9'
  }

  predicate AllDigits(s: string)
  {
    forall i :: 0 <= i < |s| ==> IsDigit(s[i])
  }

  function DigitChar(d: nat): char
    requires d < 10
  {
    ('0' as int + d) as char
  }

  /** The value of a string of decimal digits, most significant first. */
  function DigitsValue(s: string): nat
    requires AllDigits(s)
  {
    if s == [] then 0 else DigitsValue(s[..|s| - 1]) * 10 + (s[|s| - 1] as int - '0' as int)
  }

  /** `Display` of a non-negative integer: decimal, no sign, no leading zeros. */
  function NatToString(n: nat): (r: string)
    ensures |r| >= 1 && AllDigits(r)
    ensures n >= 10 ==> r[0] != '0'
  {
    if n < 10 then [DigitChar(n)] else NatToString(n / 10) + [DigitChar(n % 10)]
  }

  /** `Display` of a possibly negative integer. */
  function IntToString(n: int): string
  {
    if n < 0 then "-" + NatToString(-n) else NatToString(n)
  }

  /**
   * `FromStr` of an unsigned Rust integer whose largest value is `max`:
   * an optional '+', then at least one ASCII digit and nothing else.
   */
  function ParseUnsigned(s: string, max: nat): (r: Option<nat>)
    ensures r.Some? ==> r.value <= max
  {
    var digits := if |s| > 0 && s[0] == '+' then s[1..] else s;
    if |digits| > 0 && AllDigits(digits) && DigitsValue(digits) <= max
    then Some(DigitsValue(digits)) else None
  }

  /** `FromStr` of a signed Rust integer in `[min, max]`: an optional sign, then digits. */
  function ParseSigned(s: string, min: int, max: int): (r: Option<int>)
    ensures r.Some? ==> min <= r.value <= max
  {
    var negative := |s| > 0 && s[0] == '-';
    var digits := if |s| > 0 && (s[0] == '+' || s[0] == '-') then s[1..] else s;
    if |digits| == 0 || !AllDigits(digits) then None
    else
      var magnitude: int := DigitsValue(digits);
      var v: int := if negative then -magnitude else magnitude;
      if min <= v <= max then Some(v) else None
  }

  /** `parse::<u32>()`. */
  function ParseU32(s: string): (r: Option<nat>)
    ensures r.Some? ==> r.value <= U32Max
  {
    ParseUnsigned(s, U32Max)
  }

  /** `parse::<u64>()`. */
  function ParseU64(s: string): (r: Option<nat>)
    ensures r.Some? ==> r.value <= U64Max
  {
    ParseUnsigned(s, U64Max)
  }

  /** `parse::<u32>().unwrap_or(0)`. */
  function ParseU32Or0(s: string): nat
  {
    ParseU32(s).GetOr(0)
  }

  lemma {:induction false} DigitsValueOfNatToString(n: nat)
    ensures DigitsValue(NatToString(n)) == n
  {
    if n >= 10 {
      var r := NatToString(n);
      DigitsValueOfNatToString(n / 10);
      assert r[..|r| - 1] == NatToString(n / 10);
    }
  }

  /** Parsing what `Display` printed gives the number back. */
  lemma ParseUnsignedOfNatToString(n: nat, max: nat)
    requires n <= max
    ensures ParseUnsigned(NatToString(n), max) == Some(n)
  {
    DigitsValueOfNatToString(n);
  }

  /** Parsing what `Display` printed gives a signed number back. */
  lemma ParseSignedOfIntToString(n: int, min: int, max: int)
    requires min <= n <= max
    ensures ParseSigned(IntToString(n), min, max) == Some(n)
  {
    if n < 0 {
      assert IntToString(n)[1..] == NatToString(-n);
      DigitsValueOfNatToString(-n);
    } else {
      assert IsDigit(NatToString(n)[0]);
      DigitsValueOfNatToString(n);
    }
  }

  /** A printed number holds no `|`. */
  lemma NatFree(n: nat)
    ensures '|' !in NatToString(n)
  {
    var s := NatToString(n);
    assert forall i :: 0 <= i < |s| ==> IsDigit(s[i]);
  }

  lemma IntFree(n: int)
    ensures '|' !in IntToString(n)
  {
    var s := NatToString(if n < 0 then -n else n);
    assert forall i :: 0 <= i < |s| ==> IsDigit(s[i]);
  }

  /** `Display` of integers is injective, so distinct counts print differently. */
  lemma NatToStringInjective(m: nat, n: nat)
    requires NatToString(m) == NatToString(n)
    ensures m == n
  {
    DigitsValueOfNatToString(m);
    DigitsValueOfNatToString(n);
  }

  // ---------------------------------------------------------------------------
  // Hexadecimal numbers
  // ---------------------------------------------------------------------------

  function Pow16(k: nat): nat
  {
    if k == 0 then 1 else 16 * Pow16(k - 1)
  }

  /** Sixteen hex digits hold exactly the 64-bit values. */
  lemma Pow16Sixteen()
    ensures Pow16(16) == U64Max + 1
  {
    assert Pow16(4) == 65536 by {
      assert Pow16(1) == 16;
      assert Pow16(2) == 256;
      assert Pow16(3) == 4096;
    }
    assert Pow16(8) == 4294967296 by {
      assert Pow16(5) == 16 * 65536;
      assert Pow16(6) == 256 * 65536;
      assert Pow16(7) == 4096 * 65536;
    }
    assert Pow16(12) == 281474976710656 by {
      assert Pow16(9) == 16 * 4294967296;
      assert Pow16(10) == 256 * 4294967296;
      assert Pow16(11) == 4096 * 4294967296;
    }
    assert Pow16(13) == 16 * 281474976710656;
    assert Pow16(14) == 256 * 281474976710656;
    assert Pow16(15) == 4096 * 281474976710656;
  }

  predicate IsHexDigit(c: char)
  {
    ('0' <= c <= '9') || ('a' <= c <= 'f')
  }

  function HexChar(d: nat): char
    requires d < 16
  {
    if d < 10 then ('0' as int + d) as char else ('a' as int + d - 10) as char
  }

  function HexCharValue(c: char): nat
    requires IsHexDigit(c)
  {
    if '0' <= c <= '9' then c as int - '0' as int else c as int - 'a' as int + 10
  }

  /** The value of a string of lower-case hexadecimal digits. */
  function HexValue(s: string): nat
    requires forall i :: 0 <= i < |s| ==> IsHexDigit(s[i])
  {
    if s == [] then 0 else HexValue(s[..|s| - 1]) * 16 + HexCharValue(s[|s| - 1])
  }

  /** `format!("{:0width$x}", n)` for an `n` that fits in `width` digits. */
  function HexPadded(n: nat, width: nat): (r: string)
    ensures |r| == width
    ensures forall i :: 0 <= i < |r| ==> IsHexDigit(r[i])
  {
    if width == 0 then [] else HexPadded(n / 16, width - 1) + [HexChar(n % 16)]
  }

  lemma {:induction false} HexPaddedRoundTrip(n: nat, width: nat)
    requires n < Pow16(width)
    ensures HexValue(HexPadded(n, width)) == n
  {
    if width > 0 {
      var r := HexPadded(n, width);
      assert n / 16 < Pow16(width - 1);
      HexPaddedRoundTrip(n / 16, width - 1);
      assert r[..|r| - 1] == HexPadded(n / 16, width - 1);
      assert HexCharValue(HexChar(n % 16)) == n % 16;
    }
  }

  /** Padded hexadecimal rendering is injective on the numbers that fit. */
  lemma HexPaddedInjective(m: nat, n: nat, width: nat)
    requires m < Pow16(width) && n < Pow16(width)
    requires HexPadded(m, width) == HexPadded(n, width)
    ensures m == n
  {
    HexPaddedRoundTrip(m, width);
    HexPaddedRoundTrip(n, width);
  }
}
