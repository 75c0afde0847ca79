/** Line numbering of file content (agent/context.py, `render_numbered`). */
module Numbering {
  import opened Text

  /** `str(i)`. */
  function IntText(i: int): (s: string)
    ensures s != "" && '|' !in s && ' ' !in s && OneLine(s)
  {
    if i < 0 then "-" + Decimal(-i) else Decimal(i)
  }

  function Spaces(n: nat): (s: string)
    ensures |s| == n && forall k :: 0 <= k < n ==> s[k] == ' '
  {
    seq(n, _ => ' ')
  }

  /** `f"{i:>{width}}"`: padded on the left, never cut. */
  function RightAligned(i: int, width: nat): string {
    var s := IntText(i);
    if |s| < width then Spaces(width - |s|) + s else s
  }

  /** The widest number, as the source takes it: that of the last line. */
  function Width(count: nat, start: int): nat {
    |IntText(start + count - 1)|
  }

  function NumberLines(lines: seq<string>, start: int, width: nat): (ls: seq<string>)
    ensures |ls| == |lines|
    ensures forall i :: 0 <= i < |lines| ==> ls[i] == RightAligned(start + i, width) + (" | " + lines[i])
  {
    seq(|lines|, i requires 0 <= i < |lines| => RightAligned(start + i, width) + (" | " + lines[i]))
  }

  function RenderNumbered(content: string, start: int): string {
    var lines := Split(content);
    Join(NumberLines(lines, start, Width(|lines|, start)))
  }

  /* ---- reading it back ---- */

  /** What follows the first bar of a numbered line. */
  function AfterBar(s: string): string {
    if " | " <= s then s[3..] else if s == "" then "" else AfterBar(s[1..])
  }

  function AfterBars(lines: seq<string>): (ls: seq<string>)
    ensures |ls| == |lines| && forall i :: 0 <= i < |lines| ==> ls[i] == AfterBar(lines[i])
  {
    seq(|lines|, i requires 0 <= i < |lines| => AfterBar(lines[i]))
  }

  function Unnumber(rendered: string): string {
    Join(AfterBars(Split(rendered)))
  }

  /** The number a numbered line starts with, after the padding. */
  function ReadNumber(s: string): int {
    if s == "" then 0
    else if s[0] == ' ' then ReadNumber(s[1..])
    else if s[0] == '-' then -(Value(DigitPrefix(s[1..])) as int)
    else Value(DigitPrefix(s))
  }

  lemma {:induction false} AfterBarSkips(prefix: string, text: string)
    requires '|' !in prefix
    ensures AfterBar(prefix + (" | " + text)) == text
  {
    var s := prefix + (" | " + text);
    if prefix == "" {
      assert s == " | " + text;
    } else {
      assert s[1..] == prefix[1..] + (" | " + text);
      assert s[1] != '|' by {
        if |prefix| > 1 { assert prefix[1] in prefix; }
      }
      AfterBarSkips(prefix[1..], text);
    }
  }

  lemma RightAlignedShape(i: int, width: nat)
    ensures '|' !in RightAligned(i, width) && OneLine(RightAligned(i, width))
    ensures |RightAligned(i, width)| == if |IntText(i)| <= width then width else |IntText(i)|
  {
  }

  lemma {:induction false} ReadNumberSkipsSpaces(n: nat, s: string)
    ensures ReadNumber(Spaces(n) + s) == ReadNumber(s)
  {
    if n == 0 {
      assert Spaces(0) + s == s;
    } else {
      assert (Spaces(n) + s)[1..] == Spaces(n - 1) + s;
      ReadNumberSkipsSpaces(n - 1, s);
    }
  }

  lemma ReadNumberOfText(i: int, rest: string)
    requires rest == "" || !IsDigit(rest[0])
    ensures ReadNumber(IntText(i) + rest) == i
  {
    hide ReadNumber;
    var n: nat := if i < 0 then -i else i;
    ReadDigits(n, rest);
    if i < 0 {
      assert "-" + Decimal(n) + rest == "-" + (Decimal(n) + rest);
      ReadMinus(Decimal(n) + rest);
    }
  }

  lemma ReadMinus(digits: string)
    ensures ReadNumber("-" + digits) == -(Value(DigitPrefix(digits)) as int)
  {
    assert ("-" + digits)[1..] == digits;
  }

  lemma ReadDigits(n: nat, rest: string)
    requires rest == "" || !IsDigit(rest[0])
    ensures Value(DigitPrefix(Decimal(n) + rest)) == n && ReadNumber(Decimal(n) + rest) == n
  {
    DecimalRoundTrip(n);
    DigitPrefixStops(Decimal(n), rest);
    hide Decimal, DigitPrefix, Value;
    assert (Decimal(n) + rest)[0] == Decimal(n)[0];
  }

  lemma ReadNumberOfLine(i: int, width: nat, text: string)
    ensures ReadNumber(RightAligned(i, width) + (" | " + text)) == i
  {
    var s := IntText(i);
    var rest := " | " + text;
    ReadNumberOfText(i, rest);
    if |s| < width {
      ReadNumberSkipsSpaces(width - |s|, s + rest);
      Regroup(Spaces(width - |s|), s, rest);
    }
  }

  lemma NumberedAreLines(lines: seq<string>, start: int, width: nat)
    requires OneLineEach(lines)
    ensures OneLineEach(NumberLines(lines, start, width))
  {
    forall i | 0 <= i < |lines| ensures OneLine(NumberLines(lines, start, width)[i]) {
      RightAlignedShape(start + i, width);
    }
  }

  /** Spaces, the number, a bar between spaces, the line. */
  ghost predicate ShowsNumbered(shown: string, i: int, line: string) {
    exists pad: nat :: shown == Spaces(pad) + IntText(i) + " | " + line
  }

  lemma LineIsNumbered(i: int, width: nat, line: string)
    ensures ShowsNumbered(RightAligned(i, width) + (" | " + line), i, line)
  {
    var s := IntText(i);
    var pad: nat := if |s| < width then width - |s| else 0;
    assert Spaces(0) + s == s;
    assert RightAligned(i, width) + (" | " + line) == Spaces(pad) + s + " | " + line;
  }

  /**
   * Numbering is invertible: the rendered text has one line per line of the content, line
   * `i` starts with the number `start + i` and carries line `i`, and dropping what stands
   * before the first bar of each line gives the content back. For every `start`.
   */
  lemma NumberingRoundTrip(content: string, start: int)
    ensures |Split(RenderNumbered(content, start))| == |Split(content)|
    ensures forall i :: 0 <= i < |Split(content)| ==>
              && ReadNumber(Split(RenderNumbered(content, start))[i]) == start + i
              && AfterBar(Split(RenderNumbered(content, start))[i]) == Split(content)[i]
              && ShowsNumbered(Split(RenderNumbered(content, start))[i], start + i, Split(content)[i])
    ensures Unnumber(RenderNumbered(content, start)) == content
  {
    hide RightAligned, ReadNumber, AfterBar, Width, Split, Join;
    var lines := Split(content);
    var width := Width(|lines|, start);
    var numbered := NumberLines(lines, start, width);
    JoinSplit(content);
    NumberedAreLines(lines, start, width);
    SplitJoin(numbered);
    forall i | 0 <= i < |lines|
      ensures ReadNumber(numbered[i]) == start + i && AfterBar(numbered[i]) == lines[i]
      ensures ShowsNumbered(numbered[i], start + i, lines[i])
    {
      LineIsNumbered(start + i, width, lines[i]);
      RightAlignedShape(start + i, width);
      ReadNumberOfLine(start + i, width, lines[i]);
      AfterBarSkips(RightAligned(start + i, width), lines[i]);
    }
    assert AfterBars(numbered) == lines;
  }

  /** From a negative start it can fail: lines -9 to 0 are given one column, and -9 takes two. */
  lemma NegativeStartMisaligns()
    ensures Width(10, -9) == 1 && |RightAligned(-9, Width(10, -9))| == 2
  {
    assert IntText(0) == "0" && IntText(-9) == "-9" by {
      assert Decimal(0) == "0" && Decimal(9) == "9";
    }
  }

  /** The numbers are all as wide as the last exactly when the first is no wider than the last. */
  lemma NumbersAlign(count: nat, start: int)
    requires count > 0
    ensures (forall n :: start <= n < start + count ==> |RightAligned(n, Width(count, start))| == Width(count, start))
            <==> |IntText(start)| <= |IntText(start + count - 1)|
    ensures start >= 0 ==> |IntText(start)| <= |IntText(start + count - 1)|
  {
    var last := start + count - 1;
    forall n | start <= n <= last
      ensures |IntText(n)| <= |IntText(start)| || |IntText(n)| <= |IntText(last)|
    {
      if n < 0 {
        DecimalLonger(-n, -start);
      } else {
        DecimalLonger(n, last);
      }
    }
    if start >= 0 {
      DecimalLonger(start, last);
    }
    RightAlignedShape(start, Width(count, start));
  }
}
