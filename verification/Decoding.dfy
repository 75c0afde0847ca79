/**
 * What neutralising keeps: reading the three entities back gives the same text, line by
 * line, so a line shown to the reviewer is the original line of that number.
 */
module Decoding {
  import opened Text
  import opened Escaping

  /** An entity and the character it stands for. */
  function EntityAt(s: string): Option<(string, char)> {
    if "&lt;" <= s then Some(("&lt;", '<'))
    else if "&gt;" <= s then Some(("&gt;", '>'))
    else if "&#58;" <= s then Some(("&#58;", ':'))
    else None
  }

  /** Reads the entities back, left to right. */
  function Decode(s: string): string
    decreases |s|
  {
    if s == "" then ""
    else match EntityAt(s)
      case Some((e, c)) => [c] + Decode(s[|e|..])
      case None => [s[0]] + Decode(s[1..])
  }

  lemma EntityShape(s: string)
    requires EntityAt(s).Some?
    ensures var (e, c) := EntityAt(s).value;
      e <= s && |e| >= 4 && e[0] == '&' && OneLine(e) && c != '\n' && '<' !in e && '&' !in e[1..]
  {
  }

  lemma EntityNeedsAmpersand(s: string)
    requires s == "" || s[0] != '&'
    ensures EntityAt(s) == None
  {
  }

  lemma {:induction false} DecodePlain(p: string, rest: string)
    requires '&' !in p
    ensures Decode(p + rest) == p + Decode(rest)
  {
    if p == "" {
      assert p + rest == rest;
    } else {
      hide EntityAt;
      assert (p + rest)[0] == p[0] && (p + rest)[1..] == p[1..] + rest;
      EntityNeedsAmpersand(p + rest);
      DecodePlain(p[1..], rest);
    }
  }

  lemma DecodeEscapedChar(c: char, rest: string)
    requires c != '&'
    ensures Decode(EscapeChar(c) + rest) == [c] + Decode(rest)
  {
    var e := EscapeChar(c);
    var s := e + rest;
    assert s[|e|..] == rest;
    if |e| == 1 {
      EntityNeedsAmpersand(s);
    } else {
      assert e <= s && s[1] == e[1];
      assert EntityAt(s) == Some((e, c));
    }
  }

  /** An escaped pattern reads back as the pattern. */
  lemma {:induction false} DecodeEscaped(p: string, rest: string)
    requires '&' !in p
    ensures Decode(EscapeEach(p) + rest) == p + Decode(rest)
  {
    if p == "" {
      assert EscapeEach(p) + rest == rest;
    } else {
      hide Decode, EscapeChar;
      assert p[0] in p && '&' !in p[1..];
      var first, others := EscapeChar(p[0]), EscapeEach(p[1..]);
      assert EscapeEach(p) == first + others;
      Regroup(first, others, rest);
      DecodeEscapedChar(p[0], others + rest);
      DecodeEscaped(p[1..], rest);
      Regroup([p[0]], p[1..], Decode(rest));
      assert p == [p[0]] + p[1..];
    }
  }

  /** One step of `Replace`. */
  lemma ReplaceHead(s: string, p: string, r: string)
    requires p != "" && r != "" && s != ""
    ensures var out := Replace(s, p, r);
      if p <= s then out != "" && s[0] == p[0] && out[0] == r[0]
      else out != "" && out[0] == s[0] && out[1..] == Replace(s[1..], p, r)
  {
  }

  lemma PrefixByTail(e: string, s: string)
    requires e != "" && s != ""
    ensures e <= s <==> e[0] == s[0] && e[1..] <= s[1..]
    ensures e <= s ==> s[1..][|e[1..]|..] == s[|e|..]
  {
    PrefixByHead(e, s);
  }

  /** Text without the first characters of `p` and `r` passes through a replacement. */
  lemma {:induction false} PassesThrough(s: string, p: string, r: string, e: string)
    requires p != "" && r != "" && p[0] !in e && r[0] !in e
    ensures e <= Replace(s, p, r) <==> e <= s
    ensures e <= s ==> Replace(s, p, r)[|e|..] == Replace(s[|e|..], p, r)
    decreases |e|
  {
    if e != "" && s != "" {
      hide Replace;
      var out := Replace(s, p, r);
      ReplaceHead(s, p, r);
      PrefixByTail(e, s);
      PrefixByTail(e, out);
      assert e[0] in e;
      if !(p <= s) {
        PassesThrough(s[1..], p, r, e[1..]);
      }
    }
  }

  /** A replacement neither makes nor breaks an entity in the text it copies. */
  lemma EntityKept(s: string, p: string, r: string)
    requires PatternShape(p) && r != "" && (r[0] == '&' || r[0] == '\n')
    requires s != "" && !(p <= s)
    ensures EntityAt([s[0]] + Replace(s[1..], p, r)) == EntityAt(s)
    ensures EntityAt(s).Some? ==>
              [s[0]] + Replace(s[1..], p, r) ==
              EntityAt(s).value.0 + Replace(s[|EntityAt(s).value.0|..], p, r)
  {
    hide Replace, PatternShape;
    assert "&" + "lt;" == "&lt;" && "&" + "gt;" == "&gt;" && "&" + "#58;" == "&#58;";
    EntityByTail(s, p, r, "lt;");
    EntityByTail(s, p, r, "gt;");
    EntityByTail(s, p, r, "#58;");
  }

  lemma PrefixAndRest(e: string, s: string)
    requires e <= s
    ensures s == e + s[|e|..]
  {
  }

  lemma EntityByTail(s: string, p: string, r: string, tail: string)
    requires PatternShape(p) && r != "" && (r[0] == '&' || r[0] == '\n')
    requires s != "" && !(p <= s)
    requires '&' !in tail && '<' !in tail && '\n' !in tail
    ensures var out := [s[0]] + Replace(s[1..], p, r);
      && ("&" + tail <= out <==> "&" + tail <= s)
      && ("&" + tail <= s ==> out == "&" + tail + Replace(s[1 + |tail|..], p, r))
  {
    hide Replace;
    PassesThrough(s[1..], p, r, tail);
    var out := [s[0]] + Replace(s[1..], p, r);
    PrefixByHead("&" + tail, out);
    PrefixByHead("&" + tail, s);
    assert ("&" + tail)[1..] == tail;
    if "&" + tail <= s {
      assert s[1..][|tail|..] == s[1 + |tail|..];
      assert out[1..][|tail|..] == out[1 + |tail|..];
      PrefixAndRest("&" + tail, out);
    }
  }

  lemma {:induction false} DecodeReplaced(s: string, p: string)
    requires PatternShape(p)
    ensures EscapePattern(p) != "" && Decode(Replace(s, p, EscapePattern(p))) == Decode(s)
    decreases |s|
  {
    var r := EscapePattern(p);
    EscapeIsPerCharacter(p);
    EscapedText(p);
    assert r[0] == '&' || r[0] == '\n';
    if s == "" {
    } else if p <= s {
      var rest := s[|p|..];
      assert s == p + rest;
      DecodeReplaced(rest, p);
      DecodeEscaped(p, Replace(rest, p, r));
      DecodePlain(p, rest);
    } else {
      hide EntityAt, EscapePattern, EscapeEach;
      EntityKept(s, p, r);
      var out := [s[0]] + Replace(s[1..], p, r);
      assert Replace(s, p, r) == out;
      match EntityAt(s) {
        case Some((e, c)) =>
          EntityShape(s);
          DecodeReplaced(s[|e|..], p);
          assert out[|e|..] == Replace(s[|e|..], p, r);
        case None =>
          DecodeReplaced(s[1..], p);
          assert out[1..] == Replace(s[1..], p, r);
      }
    }
  }

  lemma {:induction false} DecodeNeutralisedUpTo(text: string, k: nat)
    requires k <= |DELIMITER_PATTERNS|
    ensures Decode(NeutraliseUpTo(text, k)) == Decode(text)
  {
    if k > 0 {
      PatternsHaveShape(k - 1);
      DecodeNeutralisedUpTo(text, k - 1);
      DecodeReplaced(NeutraliseUpTo(text, k - 1), DELIMITER_PATTERNS[k - 1]);
    }
  }

  function DecodeEach(lines: seq<string>): (ds: seq<string>)
    ensures |ds| == |lines| && forall i :: 0 <= i < |lines| ==> ds[i] == Decode(lines[i])
  {
    seq(|lines|, i requires 0 <= i < |lines| => Decode(lines[i]))
  }

  lemma {:induction false} SplitAfterOneLine(a: string, s: string)
    requires OneLine(a)
    ensures Split(a + s) == [a + Split(s)[0]] + Split(s)[1..]
  {
    if a == "" {
      assert a + s == s && a + Split(s)[0] == Split(s)[0];
    } else {
      assert a[0] in a && (a + s)[1..] == a[1..] + s;
      SplitAfterOneLine(a[1..], s);
      assert [a[0]] + (a[1..] + Split(s)[0]) == a + Split(s)[0];
    }
  }

  lemma {:induction false} FirstLineIsPrefix(s: string)
    ensures Split(s)[0] <= s
  {
    if s != "" {
      FirstLineIsPrefix(s[1..]);
      if s[0] != '\n' {
        PrefixByHead(Split(s)[0], s);
      }
    }
  }

  /** The head of a line decodes in the line as it does in the whole text. */
  lemma DecodeFirst(s: string, here: string, c: char, rest: string, line: string)
    requires s != "" && s == here + rest && line == Split(rest)[0]
    requires match EntityAt(s) case Some((e, d)) => here == e && c == d case None => here == [s[0]] && c == s[0]
    ensures Decode(here + line) == [c] + Decode(line)
  {
    FirstLineIsPrefix(rest);
    assert here + line <= s;
    assert (here + line)[|here|..] == line;
  }

  /** One step of `Decode`: `here` is the entity at the front, or the first character. */
  lemma DecodeStep(s: string) returns (here: string, c: char, rest: string)
    requires s != ""
    ensures s == here + rest && here != "" && Decode(s) == [c] + Decode(rest)
    ensures match EntityAt(s) case Some((e, d)) => here == e && c == d case None => here == [s[0]] && c == s[0]
    ensures if c == '\n' then here == "\n" else OneLine(here)
  {
    match EntityAt(s) {
      case Some((e, d)) =>
        EntityShape(s);
        here, c := e, d;
      case None =>
        here, c := [s[0]], s[0];
    }
    rest := s[|here|..];
  }

  lemma {:induction false} DecodeByLines(s: string)
    ensures Split(Decode(s)) == DecodeEach(Split(s))
    decreases |s|
  {
    if s != "" {
      var here, c, rest := DecodeStep(s);
      DecodeByLines(rest);
      hide Decode, EntityAt;
      if c == '\n' {
        assert s[1..] == rest;
        assert (['\n'] + Decode(rest))[1..] == Decode(rest);
        DecodeEmpty();
      } else {
        hide Split;
        SplitAfterOneLine(here, rest);
        SplitAfterOneLine([c], Decode(rest));
        DecodeFirst(s, here, c, rest, Split(rest)[0]);
      }
    }
  }

  lemma DecodeEmpty()
    ensures Decode("") == ""
  {
  }

  /**
   * Neutralising changes nothing but the escaping: the entities read back to the same
   * text, so a text without `&` comes back whole; and this holds line by line, so the
   * number of lines is kept and line `i` shown is line `i` of the original.
   */
  lemma NeutraliseOnlyEscapes(text: string)
    ensures Decode(Neutralised(text)) == Decode(text)
    ensures '&' !in text ==> Decode(Neutralised(text)) == text
    ensures |Split(Neutralised(text))| == |Split(text)|
    ensures forall i :: 0 <= i < |Split(text)| ==> Decode(Split(Neutralised(text))[i]) == Decode(Split(text)[i])
  {
    DecodeNeutralisedUpTo(text, |DELIMITER_PATTERNS|);
    DecodeByLines(text);
    DecodeByLines(Neutralised(text));
    if '&' !in text {
      DecodePlain(text, "");
      assert text + "" == text;
    }
    var ds := DecodeEach(Split(text));
    forall i | 0 <= i < |Split(text)| ensures Decode(Split(Neutralised(text))[i]) == Decode(Split(text)[i]) {
      assert ds[i] == Decode(Split(Neutralised(text))[i]);
    }
  }
}
