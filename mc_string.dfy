/** `EscapeToAnsi`: Minecraft "§" formatting codes turned into ANSI terminal
    escapes. The text is a byte string: each `char` holds one byte, and "§"
    is the two UTF-8 bytes C2 A7. */
module MCString {

  const SECTION_LEAD: char := '\U{C2}'
  const SECTION_TRAIL: char := '\U{A7}'
  const RESET: string := "\U{1B}[0m"

  /** The colour codes and their escapes. */
  const COLORS: map<char, string> := map[
    '0' := "\U{1B}[30m", '1' := "\U{1B}[34m", '2' := "\U{1B}[32m", '3' := "\U{1B}[36m",
    '4' := "\U{1B}[31m", '5' := "\U{1B}[35m", '6' := "\U{1B}[33m", '7' := "\U{1B}[37m",
    '8' := "\U{1B}[90m", '9' := "\U{1B}[94m", 'a' := "\U{1B}[92m", 'b' := "\U{1B}[96m",
    'c' := "\U{1B}[91m", 'd' := "\U{1B}[95m", 'e' := "\U{1B}[93m", 'f' := "\U{1B}[97m",
    'r' := "\U{1B}[0m"]

  /** The style codes and their escapes; obfuscated ('k') has none. */
  const STYLES: map<char, string> := map[
    'l' := "\U{1B}[1m", 'n' := "\U{1B}[4m", 'o' := "\U{1B}[3m", 'm' := "\U{1B}[9m", 'k' := ""]

  /** A "§" starts at `i` and a code byte follows it. */
  predicate SectionAt(s: string, i: nat)
  {
    i + 2 < |s| && s[i] == SECTION_LEAD && s[i + 1] == SECTION_TRAIL
  }

  /** What a code byte turns into: its colour, else its style, else
      nothing. */
  function CodeEscape(code: char): string
  {
    if code in COLORS then COLORS[code]
    else if code in STYLES then STYLES[code]
    else ""
  }

  /** The translation of the text from `i` on, before the final reset. */
  function Escaped(s: string, i: nat): string
    requires i <= |s|
    decreases |s| - i
  {
    if i == |s| then ""
    else if SectionAt(s, i) then CodeEscape(s[i + 2]) + Escaped(s, i + 3)
    else [s[i]] + Escaped(s, i + 1)
  }

  /** `EscapeToAnsi`: walk the input, replacing each "§" and its code byte,
      copying every other byte, and end with a reset. */
  method EscapeToAnsi(input: string) returns (out: string)
    ensures out == Escaped(input, 0) + RESET
    ensures |out| >= |RESET| && out[|out| - |RESET|..] == RESET
  {
    out := "";
    var i := 0;
    while i < |input|
      invariant 0 <= i <= |input|
      invariant out + Escaped(input, i) == Escaped(input, 0)
      decreases |input| - i
    {
      ghost var before := out;
      ghost var at := i;
      var piece: string;
      if i + 2 < |input| && input[i] == SECTION_LEAD && input[i + 1] == SECTION_TRAIL {
        var code := input[i + 2];
        i := i + 2;
        piece := "";
        if code in COLORS {
          piece := COLORS[code];
        } else if code in STYLES {
          piece := STYLES[code];
        }
        assert piece == CodeEscape(code);
      } else {
        piece := [input[i]];
      }
      out := out + piece;
      i := i + 1;
      EscapedStep(input, at, before, piece, i);
    }
    out := out + RESET;
    assert out[|out| - |RESET|..] == RESET;
  }

  /** One turn of the loop: the text at `i` contributes `piece`, and the
      translation goes on from `next`. */
  lemma EscapedStep(s: string, i: nat, out: string, piece: string, next: nat)
    requires i < |s|
    requires SectionAt(s, i) ==> piece == CodeEscape(s[i + 2]) && next == i + 3
    requires !SectionAt(s, i) ==> piece == [s[i]] && next == i + 1
    ensures (out + piece) + Escaped(s, next) == out + Escaped(s, i)
  {
    assert Escaped(s, i) == piece + Escaped(s, next);
  }

  // ---------------------------------------------------------------------
  // Properties

  /** Text with no "§" followed by a code byte comes through unchanged. */
  lemma {:induction false} PlainTextCopied(s: string, i: nat)
    requires i <= |s|
    requires forall j :: i <= j < |s| ==> !SectionAt(s, j)
    ensures Escaped(s, i) == s[i..]
    decreases |s| - i
  {
    if i < |s| {
      PlainTextCopied(s, i + 1);
      assert s[i..] == [s[i]] + s[i + 1..];
    }
  }

  /** A "§" with a code byte after it is replaced by the code's escape, and
      the translation continues after the code byte. */
  lemma SectionReplaced(s: string, i: nat)
    requires SectionAt(s, i)
    ensures Escaped(s, i) == CodeEscape(s[i + 2]) + Escaped(s, i + 3)
  {
  }

  /** A colour code gives its colour; 'r' gives the reset. */
  lemma ColourCodes(code: char)
    requires code in "0123456789abcdefr"
    ensures code in COLORS && CodeEscape(code) == COLORS[code]
  {
  }

  /** The four style codes give their escapes, and 'k' gives nothing. */
  lemma StyleCodes(code: char)
    requires code in "lnomk"
    ensures CodeEscape(code) == STYLES[code]
    ensures code == 'k' ==> CodeEscape(code) == ""
  {
  }

  /** Any other code byte, upper-case letters included, drops the whole
      three-byte sequence. */
  lemma UnknownCodeDropped(s: string, i: nat)
    requires SectionAt(s, i) && s[i + 2] !in "0123456789abcdefrlnomk"
    ensures Escaped(s, i) == Escaped(s, i + 3)
  {
    assert s[i + 2] !in COLORS && s[i + 2] !in STYLES;
  }

  /** A "§" in the last two bytes has no code byte after it and is copied
      as it is. */
  lemma TrailingSectionCopied(s: string)
    requires |s| >= 2 && s[|s| - 2] == SECTION_LEAD && s[|s| - 1] == SECTION_TRAIL
    ensures Escaped(s, |s| - 2) == [SECTION_LEAD, SECTION_TRAIL]
  {
    assert !SectionAt(s, |s| - 1);
    assert Escaped(s, |s| - 1) == [s[|s| - 1]];
    assert !SectionAt(s, |s| - 2);
  }

  /** Translating a concatenation where the first part cannot start a "§"
      sequence reaching into the second: the parts are translated on their
      own. */
  lemma {:induction false} EscapedAppend(a: string, b: string, i: nat)
    requires i <= |a|
    requires forall j :: i <= j < |a| ==> !(a[j] == SECTION_LEAD)
    ensures Escaped(a + b, i) == a[i..] + Escaped(b, 0)
    decreases |a| - i
  {
    if i == |a| {
      EscapedShift(a, b, 0);
    } else {
      assert (a + b)[i] == a[i];
      PlainStep(a + b, i);
      EscapedAppend(a, b, i + 1);
      ConsSlice(a, i, Escaped(b, 0));
    }
  }

  /** A byte that does not start a "§" sequence is copied. */
  lemma PlainStep(s: string, i: nat)
    requires i < |s| && s[i] != SECTION_LEAD
    ensures Escaped(s, i) == [s[i]] + Escaped(s, i + 1)
  {
  }

  lemma ConsSlice(a: string, i: nat, rest: string)
    requires i < |a|
    ensures [a[i]] + (a[i + 1..] + rest) == a[i..] + rest
  {
    assert a[i..] == [a[i]] + a[i + 1..];
  }

  /** The translation of `a + b` from inside `b` is that of `b`. */
  lemma {:induction false} EscapedShift(a: string, b: string, k: nat)
    requires k <= |b|
    ensures Escaped(a + b, |a| + k) == Escaped(b, k)
    decreases |b| - k
  {
    if k < |b| {
      assert SectionAt(a + b, |a| + k) == SectionAt(b, k);
      if SectionAt(b, k) {
        EscapedShift(a, b, k + 3);
      } else {
        EscapedShift(a, b, k + 1);
      }
    }
  }
}
