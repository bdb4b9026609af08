/**
 String primitives of the Rust standard library that several components share:
 UTF-8 length, searching, trimming, splitting and ASCII case folding.
 */
module Text {
  import opened Results

  /** The number of bytes of a character in UTF-8. */
  function CharBytes(c: char): nat {
    if c < '\U{80}' then 1 else if c < '\U{800}' then 2 else if c < '\U{10000}' then 3 else 4
  }

  /** `str::len`: the length of the UTF-8 encoding. */
  function ByteLength(s: string): nat {
    if s == "" then 0 else CharBytes(s[0]) + ByteLength(s[1..])
  }

  lemma {:induction false} ByteLengthBound(s: string)
    ensures |s| <= ByteLength(s) <= 4 * |s|
  {
    if s != "" { ByteLengthBound(s[1..]); }
  }

  predicate IsAsciiLower(c: char) { 'a' <= c <= 'z' }

  predicate IsAsciiUpper(c: char) { 'A' <= c <= 'Z' }

  predicate IsAsciiAlphabetic(c: char) { IsAsciiLower(c) || IsAsciiUpper(c) }

  predicate IsAsciiDigit(c: char) { '0' <= c <= '9' }

  predicate IsAsciiAlphanumeric(c: char) { IsAsciiAlphabetic(c) || IsAsciiDigit(c) }

  /** `char::is_whitespace`: the Unicode White_Space property. */
  predicate IsWhitespace(c: char) {
    || '\t' <= c <= '\r'
    || c in {' ', '\U{85}', '\U{A0}', '\U{1680}', '\U{2028}', '\U{2029}', '\U{202F}', '\U{205F}', '\U{3000}'}
    || '\U{2000}' <= c <= '\U{200A}'
  }

  /** `char::is_ascii_whitespace`: every character it accepts is also Unicode white space. */
  predicate IsAsciiWhitespace(c: char) {
    c in {' ', '\t', '\n', '\U{0C}', '\r'}
  }

  predicate IsLowerHex(c: char) { IsAsciiDigit(c) || 'a' <= c <= 'f' }

  function LowerChar(c: char): char {
    if IsAsciiUpper(c) then ((c as int) + 32) as char else c
  }

  /** `str::to_ascii_lowercase`. */
  function ToAsciiLower(s: string): (r: string)
    ensures |r| == |s|
  {
    seq(|s|, i requires 0 <= i < |s| => LowerChar(s[i]))
  }

  function UpperChar(c: char): char {
    if IsAsciiLower(c) then ((c as int) - 32) as char else c
  }

  /** `str::to_ascii_uppercase`. */
  function ToAsciiUpper(s: string): (r: string)
    ensures |r| == |s|
  {
    seq(|s|, i requires 0 <= i < |s| => UpperChar(s[i]))
  }

  /** True when `needle` occurs in `s` at offset `i`. */
  predicate OccursAt(s: string, needle: string, i: nat) {
    i + |needle| <= |s| && s[i..i + |needle|] == needle
  }

  predicate Contains(s: string, needle: string) {
    exists i :: 0 <= i <= |s| && OccursAt(s, needle, i)
  }

  predicate ContainsAny(s: string, needles: seq<string>) {
    exists k :: 0 <= k < |needles| && Contains(s, needles[k])
  }

  /** `str::find`: the least offset at which `needle` occurs. */
  function Find(s: string, needle: string): (r: Option<nat>)
    ensures r.Some? <==> Contains(s, needle)
    ensures r.Some? ==> OccursAt(s, needle, r.value)
    ensures r.Some? ==> forall i :: 0 <= i < r.value ==> !OccursAt(s, needle, i)
  {
    FindFrom(s, needle, 0)
  }

  function FindFrom(s: string, needle: string, from: nat): (r: Option<nat>)
    ensures r.None? ==> forall i :: from <= i ==> !OccursAt(s, needle, i)
    ensures r.Some? ==> from <= r.value && OccursAt(s, needle, r.value)
    ensures r.Some? ==> forall i :: from <= i < r.value ==> !OccursAt(s, needle, i)
    decreases |s| - from
  {
    if from + |needle| > |s| then None
    else if OccursAt(s, needle, from) then Some(from)
    else FindFrom(s, needle, from + 1)
  }

  /** `str::rfind`: the greatest offset at which `needle` occurs. */
  function RFindBelow(s: string, needle: string, bound: nat): (r: Option<nat>)
    ensures r.None? ==> forall i :: 0 <= i < bound ==> !OccursAt(s, needle, i)
    ensures r.Some? ==> r.value < bound && OccursAt(s, needle, r.value)
    ensures r.Some? ==> forall i :: r.value < i < bound ==> !OccursAt(s, needle, i)
  {
    if bound == 0 then None
    else if OccursAt(s, needle, bound - 1) then Some(bound - 1)
    else RFindBelow(s, needle, bound - 1)
  }

  /** `str::rsplit_once`: the parts around the last occurrence of `needle`. */
  function RSplitOnce(s: string, needle: string): (r: Option<(string, string)>)
    ensures r.Some? ==> s == r.value.0 + needle + r.value.1
  {
    match RFindBelow(s, needle, |s| + 1)
    case None => None
    case Some(i) => Some((s[..i], s[i + |needle|..]))
  }

  predicate StartsWith(s: string, prefix: string) { prefix <= s }

  predicate EndsWith(s: string, suffix: string) {
    |suffix| <= |s| && s[|s| - |suffix|..] == suffix
  }

  /** `str::strip_prefix`. */
  function StripPrefix(s: string, prefix: string): (r: Option<string>)
    ensures r.Some? <==> prefix <= s
    ensures r.Some? ==> s == prefix + r.value
  {
    if prefix <= s then Some(s[|prefix|..]) else None
  }

  function TrimStart(s: string): string {
    if s != "" && IsWhitespace(s[0]) then TrimStart(s[1..]) else s
  }

  function TrimEnd(s: string): string {
    if s != "" && IsWhitespace(s[|s| - 1]) then TrimEnd(s[..|s| - 1]) else s
  }

  function Trim(s: string): string { TrimEnd(TrimStart(s)) }

  /** The text without ASCII white space. */
  function Compact(s: string): string {
    if s == "" then ""
    else if IsAsciiWhitespace(s[0]) then Compact(s[1..])
    else [s[0]] + Compact(s[1..])
  }

  /** `str::lines`. */
  function Lines(source: string): seq<string> {
    if source == "" then []
    else
      match Find(source, "\n")
      case None => [source]
      case Some(i) =>
        var line := source[..i];
        [if EndsWith(line, "\r") then line[..|line| - 1] else line] + Lines(source[i + 1..])
  }

  // ---------------------------------------------------------------- numbers

  const U16_MAX: nat := 0xFFFF
  const U64_MAX: nat := 0xFFFF_FFFF_FFFF_FFFF

  predicate AllDigits(s: string) { forall i :: 0 <= i < |s| ==> IsAsciiDigit(s[i]) }

  function DigitsValue(s: string): nat
    requires AllDigits(s)
  {
    if s == "" then 0 else DigitsValue(s[..|s| - 1]) * 10 + (s[|s| - 1] as int - '0' as int)
  }

  /** `parse` to an unsigned integer type with this maximum: a plus sign is allowed, overflow is an error. */
  function ParseUnsigned(s: string, max: nat): Option<nat> {
    var digits := if s != "" && s[0] == '+' then s[1..] else s;
    if digits == "" || !AllDigits(digits) || DigitsValue(digits) > max then None else Some(DigitsValue(digits))
  }

  /** Decimal notation. */
  function Decimals(n: nat): (r: string)
    ensures r != "" && forall c :: c in r ==> IsAsciiDigit(c)
  {
    if n < 10 then [('0' as int + n) as char] else Decimals(n / 10) + [('0' as int + n % 10) as char]
  }

  /** Decimal notation is unique. */
  lemma {:induction false} DecimalsInjective(m: nat, n: nat)
    requires Decimals(m) == Decimals(n)
    ensures m == n
  {
    var dm, dn := Decimals(m), Decimals(n);
    assert dm[|dm| - 1] == ('0' as int + m % 10) as char;
    assert dn[|dn| - 1] == ('0' as int + n % 10) as char;
    if m >= 10 && n >= 10 {
      assert dm[..|dm| - 1] == Decimals(m / 10) && dn[..|dn| - 1] == Decimals(n / 10);
      DecimalsInjective(m / 10, n / 10);
    }
  }

  /** Decimal notation is read back. */
  lemma {:induction false} DecimalsValue(n: nat)
    ensures AllDigits(Decimals(n)) && DigitsValue(Decimals(n)) == n
  {
    var d := Decimals(n);
    if n < 10 {
      assert d[..0] == "";
    } else {
      DecimalsValue(n / 10);
      assert d[..|d| - 1] == Decimals(n / 10);
    }
  }

  lemma PrintedParses(n: nat, max: nat)
    requires n <= max
    ensures ParseUnsigned(Decimals(n), max) == Some(n)
  {
    DecimalsValue(n);
    assert Decimals(n)[0] in Decimals(n);
  }

  /** What parses holds digits, and a plus sign at most. */
  lemma ParsedChars(s: string, max: nat, c: char)
    requires ParseUnsigned(s, max).Some? && c in s
    ensures IsAsciiDigit(c) || c == '+'
  {
    if s[0] == '+' && c != '+' {
      assert s == [s[0]] + s[1..] && c in s[1..];
    }
  }

  // ---------------------------------------------------------------- separators

  /** A separator that occurs in neither first part separates in one way only. */
  lemma SplitAtFirst(c: char, a: string, b: string, x: string, y: string)
    requires c !in a && c !in b
    requires a + [c] + x == b + [c] + y
    ensures a == b && x == y
  {
    var s, t := a + [c] + x, b + [c] + y;
    forall i | 0 <= i < |a| ensures s[i] != c { assert s[i] == a[i] && a[i] in a; }
    forall i | 0 <= i < |b| ensures t[i] != c { assert t[i] == b[i] && b[i] in b; }
    assert s[|a|] == c && t[|b|] == c;
    assert a == s[..|a|] && b == t[..|b|];
    assert x == s[|a| + 1..] && y == t[|b| + 1..];
  }

  /** A separator that occurs in neither last part separates in one way only. */
  lemma SplitAtLast(c: char, a: string, b: string, x: string, y: string)
    requires c !in x && c !in y
    requires a + [c] + x == b + [c] + y
    ensures a == b && x == y
  {
    var s, t := a + [c] + x, b + [c] + y;
    forall i | |a| < i < |s| ensures s[i] != c { assert s[i] == x[i - |a| - 1] && x[i - |a| - 1] in x; }
    forall i | |b| < i < |t| ensures t[i] != c { assert t[i] == y[i - |b| - 1] && y[i - |b| - 1] in y; }
    assert s[|a|] == c && t[|b|] == c;
    assert a == s[..|a|] && b == t[..|b|];
    assert x == s[|a| + 1..] && y == t[|b| + 1..];
  }

  /** A character that does not occur in the last part splits there. */
  lemma SplitAtLastIs(c: char, head: string, tail: string)
    requires c !in tail
    ensures RSplitOnce(head + [c] + tail, [c]) == Some((head, tail))
  {
    var s := head + [c] + tail;
    assert OccursAt(s, [c], |head|);
    forall i | |head| < i <= |s| ensures !OccursAt(s, [c], i) {
      if i < |s| {
        assert s[i] == tail[i - |head| - 1] && tail[i - |head| - 1] in tail;
        assert s[i..i + 1][0] == s[i];
      }
    }
    assert RFindBelow(s, [c], |s| + 1) == Some(|head|);
    assert s[..|head|] == head && s[|head| + 1..] == tail;
  }
}
