/// Decoding of the escape sequences in string literals (`unescape`).
module Unescape {
  import opened Types

  const BACKSPACE: char := 8 as char
  const FORM_FEED: char := 12 as char

  /// The character a backslash followed by `c` stands for, when `\c` is one
  /// of the recognised escapes `\n \t \r \b \f \' \" \\`.
  function EscapeTarget(c: char): Option<char> {
    match c
    case 'n' => Some('\n')
    case 't' => Some('\t')
    case 'r' => Some('\r')
    case 'b' => Some(BACKSPACE)
    case 'f' => Some(FORM_FEED)
    case '\'' => Some('\'')
    case '"' => Some('"')
    case '\\' => Some('\\')
    case _ => None
  }

  /// Whether a recognised escape sequence starts at position `i`.
  predicate EscapeAt(s: string, i: nat) {
    i + 1 < |s| && s[i] == '\\' && EscapeTarget(s[i + 1]).Some?
  }

  /// The decoded text: escapes are replaced left to right, each match
  /// consuming two characters; every other character is kept.
  function Unescaped(s: string): string {
    if s == [] then []
    else if EscapeAt(s, 0) then [EscapeTarget(s[1]).value] + Unescaped(s[2..])
    else [s[0]] + Unescaped(s[1..])
  }

  /// `unescape`: scans for the next escape, copies the text since the last
  /// one, then the replacement character.
  method Unescape(input: string) returns (result: string)
    ensures result == Unescaped(input)
  {
    result := [];
    var lastPos := 0;
    var i := 0;
    while i < |input|
      invariant 0 <= lastPos <= i <= |input|
      invariant result + input[lastPos..i] + Unescaped(input[i..]) == Unescaped(input)
    {
      if EscapeAt(input, i) {
        EscapeStep(input, result, lastPos, i);
        result := result + input[lastPos..i] + [EscapeTarget(input[i + 1]).value];
        lastPos := i + 2;
        i := i + 2;
      } else {
        PlainStep(input, result, lastPos, i);
        i := i + 1;
      }
    }
    result := result + input[lastPos..];
  }

  /// One loop step over a recognised escape keeps the decoding invariant.
  lemma EscapeStep(input: string, result: string, lastPos: nat, i: nat)
    requires lastPos <= i && EscapeAt(input, i)
    requires result + input[lastPos..i] + Unescaped(input[i..]) == Unescaped(input)
    ensures var x := EscapeTarget(input[i + 1]).value;
      (result + input[lastPos..i] + [x]) + input[i + 2..i + 2] + Unescaped(input[i + 2..]) == Unescaped(input)
  {
    var x := EscapeTarget(input[i + 1]).value;
    EscapeUnfold(input, i);
    assert input[i + 2..i + 2] == [];
    Regroup(result + input[lastPos..i], [x], Unescaped(input[i + 2..]));
  }

  /// One loop step over any other character keeps the decoding invariant.
  lemma PlainStep(input: string, result: string, lastPos: nat, i: nat)
    requires lastPos <= i < |input| && !EscapeAt(input, i)
    requires result + input[lastPos..i] + Unescaped(input[i..]) == Unescaped(input)
    ensures result + input[lastPos..i + 1] + Unescaped(input[i + 1..]) == Unescaped(input)
  {
    PlainUnfold(input, i);
    assert input[lastPos..i + 1] == input[lastPos..i] + [input[i]];
    Regroup(result, input[lastPos..i], [input[i]]);
    Regroup(result + input[lastPos..i], [input[i]], Unescaped(input[i + 1..]));
  }

  lemma EscapeUnfold(s: string, i: nat)
    requires EscapeAt(s, i)
    ensures Unescaped(s[i..]) == [EscapeTarget(s[i + 1]).value] + Unescaped(s[i + 2..])
  {
    assert EscapeAt(s[i..], 0);
    assert s[i..][2..] == s[i + 2..];
  }

  lemma PlainUnfold(s: string, i: nat)
    requires i < |s| && !EscapeAt(s, i)
    ensures Unescaped(s[i..]) == [s[i]] + Unescaped(s[i + 1..])
  {
    assert !EscapeAt(s[i..], 0);
    assert s[i..][1..] == s[i + 1..];
  }

  lemma Regroup(a: string, b: string, c: string)
    ensures a + (b + c) == a + b + c
  {
  }

  /// Decoding never lengthens the text.
  lemma {:induction false} UnescapedNoLonger(s: string)
    ensures |Unescaped(s)| <= |s|
    decreases |s|
  {
    if s != [] {
      if EscapeAt(s, 0) {
        UnescapedNoLonger(s[2..]);
      } else {
        UnescapedNoLonger(s[1..]);
      }
    }
  }

  /// Text without a backslash is returned unchanged.
  lemma {:induction false} UnescapedPlain(s: string)
    requires '\\' !in s
    ensures Unescaped(s) == s
    decreases |s|
  {
    if s != [] {
      assert s[0] != '\\';
      assert '\\' !in s[1..] by {
        forall j | 0 <= j < |s[1..]| ensures s[1..][j] != '\\' {
          assert s[1..][j] == s[j + 1];
        }
      }
      UnescapedPlain(s[1..]);
    }
  }

  /// Each recognised escape on its own decodes to exactly one character.
  lemma EscapeDecodes(c: char)
    requires EscapeTarget(c).Some?
    ensures Unescaped(['\\', c]) == [EscapeTarget(c).value]
  {
    assert EscapeAt(['\\', c], 0);
    assert ['\\', c][2..] == [];
  }

  /// The escape letter that spells `c` in a literal, if `c` needs one.
  function EscapeCode(c: char): Option<char> {
    if c == '\n' then Some('n')
    else if c == '\t' then Some('t')
    else if c == '\r' then Some('r')
    else if c == BACKSPACE then Some('b')
    else if c == FORM_FEED then Some('f')
    else if c == '\\' then Some('\\')
    else None
  }

  /// A reference encoder: writes the escapable characters as escapes and
  /// every other character as itself.
  function Escaped(s: string): string {
    if s == [] then []
    else (match EscapeCode(s[0]) case Some(e) => ['\\', e] case None => [s[0]]) + Escaped(s[1..])
  }

  /// Decoding undoes the reference encoder.
  lemma {:induction false} UnescapeEscaped(s: string)
    ensures Unescaped(Escaped(s)) == s
    decreases |s|
  {
    if s != [] {
      var t := Escaped(s);
      UnescapeEscaped(s[1..]);
      match EscapeCode(s[0])
      case Some(e) =>
        assert t == ['\\', e] + Escaped(s[1..]);
        assert EscapeAt(t, 0);
        assert t[2..] == Escaped(s[1..]);
      case None =>
        assert t == [s[0]] + Escaped(s[1..]);
        assert !EscapeAt(t, 0);
        assert t[1..] == Escaped(s[1..]);
    }
  }
}
