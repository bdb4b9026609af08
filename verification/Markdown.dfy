/** Escaping of text that is published on a check run. */
module Markdown {
  import opened Text

  /** The characters that Markdown or GitHub give a meaning to. */
  const SPECIAL: string := "\\`*_{}[]<>()#+-.!|:~@"

  predicate IsSpecial(c: char) { c in SPECIAL }

  /** Every special character preceded by a backslash. */
  function Escaped(s: string): string {
    if s == "" then ""
    else (if IsSpecial(s[0]) then ['\\', s[0]] else [s[0]]) + Escaped(s[1..])
  }

  lemma {:induction false} EscapedAppend(s: string, c: char)
    ensures Escaped(s + [c]) == Escaped(s) + (if IsSpecial(c) then ['\\', c] else [c])
  {
    if s == "" {
      assert s + [c] == [c];
      assert [c][1..] == "";
    } else {
      assert (s + [c])[1..] == s[1..] + [c];
      EscapedAppend(s[1..], c);
    }
  }

  method EscapePublicMarkdown(value: string) returns (escaped: string)
    ensures escaped == Escaped(value)
  {
    escaped := "";
    for i := 0 to |value|
      invariant escaped == Escaped(value[..i])
    {
      EscapedAppend(value[..i], value[i]);
      assert value[..i + 1] == value[..i] + [value[i]];
      if IsSpecial(value[i]) {
        escaped := escaped + ['\\'];
      }
      escaped := escaped + [value[i]];
    }
    assert value[..|value|] == value;
  }

  /** What a Markdown reader makes of escaped text: a backslash stands for the character after it. */
  function Unescaped(s: string): string {
    if s == "" then ""
    else if s[0] == '\\' && |s| > 1 then [s[1]] + Unescaped(s[2..])
    else [s[0]] + Unescaped(s[1..])
  }

  lemma {:induction false} UnescapeEscape(s: string)
    ensures Unescaped(Escaped(s)) == s
  {
    if s != "" {
      UnescapeEscape(s[1..]);
      var tail := Escaped(s[1..]);
      if IsSpecial(s[0]) {
        assert Escaped(s) == ['\\', s[0]] + tail;
        assert (['\\', s[0]] + tail)[2..] == tail;
      } else {
        assert Escaped(s) == [s[0]] + tail;
        assert ([s[0]] + tail)[1..] == tail;
      }
      assert s == [s[0]] + s[1..];
    }
  }

  /** In escaped text no special character stands unescaped: reading it left to right, each one follows a backslash. */
  predicate NothingActive(s: string) {
    s == ""
    || (s[0] == '\\' && |s| > 1 && NothingActive(s[2..]))
    || (!IsSpecial(s[0]) && NothingActive(s[1..]))
  }

  lemma {:induction false} EscapedIsInert(s: string)
    ensures NothingActive(Escaped(s))
    ensures ByteLength(Escaped(s)) <= 2 * ByteLength(s)
  {
    if s != "" {
      EscapedIsInert(s[1..]);
      var tail := Escaped(s[1..]);
      if IsSpecial(s[0]) {
        assert Escaped(s) == ['\\', s[0]] + tail;
        assert (['\\', s[0]] + tail)[2..] == tail;
        assert (['\\', s[0]] + tail)[1..] == [s[0]] + tail;
        assert ([s[0]] + tail)[1..] == tail;
      } else {
        assert Escaped(s) == [s[0]] + tail;
        assert ([s[0]] + tail)[1..] == tail;
      }
    }
  }
}
