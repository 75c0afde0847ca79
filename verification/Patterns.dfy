/** The seven patterns and what becomes of them, spelled out. */
module Patterns {
  import opened Text
  import opened Escaping

  const LISTED: seq<string> := [
    "</repository_content>", "<repository_content", "</file>", "<system>", "<system-reminder>", "\nHuman:",
    "\nAssistant:"
  ]

  /** The same, made harmless. */
  const ESCAPED: seq<string> := [
    "&lt;/repository_content&gt;", "&lt;repository_content", "&lt;/file&gt;", "&lt;system&gt;",
    "&lt;system-reminder&gt;", "\nHuman&#58;", "\nAssistant&#58;"
  ]

  lemma SpelledOut()
    ensures LISTED == DELIMITER_PATTERNS && |LISTED| == 7
  {
  }

  /** At no place of a neutralised text can a listed pattern be read; a text is left alone exactly when none can. */
  lemma NoListedPattern(text: string)
    ensures forall p, j: nat :: p in LISTED ==> !OccursAt(Neutralised(text), p, j)
    ensures Neutralised(text) == text <==> forall p, j: nat :: p in LISTED ==> !OccursAt(text, p, j)
  {
    hide Neutralised, Contains, OccursAt;
    SpelledOut();
    NeutralisedIsClean(text);
    NeutralisedFixedPoints(text);
    forall p | p in LISTED ensures Contains(text, p) <==> exists j: nat :: OccursAt(text, p, j) {
      ContainsMeaning(text, p);
    }
  }

  lemma EscapeHead(c: char, rest: string)
    ensures EscapeEach("") == "" && EscapeEach([c] + rest) == EscapeChar(c) + EscapeEach(rest)
  {
    assert ([c] + rest)[1..] == rest;
  }

  lemma {:induction false} EscapeKeeps(m: string, rest: string)
    requires '<' !in m && '>' !in m && ':' !in m
    ensures EscapeEach(m + rest) == m + EscapeEach(rest)
  {
    if m == "" {
      assert m + rest == rest;
    } else {
      hide EscapeEach;
      assert m + rest == [m[0]] + (m[1..] + rest) && m == [m[0]] + m[1..];
      EscapeHead(m[0], m[1..] + rest);
      EscapeKeeps(m[1..], rest);
    }
  }

  /** A pattern that opens a tag, and one that does not. */
  lemma EscapeFenced(m: string, end: char)
    requires '<' !in m && '>' !in m && ':' !in m && (end == '>' || end == ':')
    ensures EscapeEach(['<'] + m + [end]) == "&lt;" + m + EscapeChar(end)
    ensures EscapeEach(m + [end]) == m + EscapeChar(end)
    ensures EscapeEach(['<'] + m) == "&lt;" + m
  {
    hide EscapeEach;
    EscapeHead(end, "");
    assert [end] + "" == [end] && m + "" == m && ['<'] + (m + [end]) == ['<'] + m + [end];
    EscapeKeeps(m, [end]);
    EscapeKeeps(m, "");
    EscapeHead('<', m);
    EscapeHead('<', m + [end]);
    assert "&lt;" + (m + EscapeChar(end)) == "&lt;" + m + EscapeChar(end);
  }

  lemma ClosingBlockText()
    ensures ['<'] + "/repository_content" + ['>'] == "</repository_content>"
  {
  }

  lemma ClosingBlockSafe()
    ensures "&lt;" + "/repository_content" + "&gt;" == "&lt;/repository_content&gt;"
  {
  }

  lemma ClosingBlockEscaped()
    ensures EscapeEach("</repository_content>") == "&lt;/repository_content&gt;"
  {
    hide EscapeEach;
    EscapeFenced("/repository_content", '>');
    ClosingBlockText();
    ClosingBlockSafe();
  }

  lemma OpeningBlockText()
    ensures ['<'] + "repository_content" == "<repository_content"
  {
  }

  lemma OpeningBlockSafe()
    ensures "&lt;" + "repository_content" == "&lt;repository_content"
  {
  }

  lemma OpeningBlockEscaped()
    ensures EscapeEach("<repository_content") == "&lt;repository_content"
  {
    hide EscapeEach;
    EscapeFenced("repository_content", '>');
    OpeningBlockText();
    OpeningBlockSafe();
  }

  lemma ClosingFileEscaped()
    ensures EscapeEach("</file>") == "&lt;/file&gt;"
  {
    hide EscapeEach;
    EscapeFenced("/file", '>');
    assert ['<'] + "/file" + ['>'] == "</file>";
    assert "&lt;" + "/file" + "&gt;" == "&lt;/file&gt;";
  }

  lemma SystemTagEscaped()
    ensures EscapeEach("<system>") == "&lt;system&gt;"
  {
    hide EscapeEach;
    EscapeFenced("system", '>');
    assert ['<'] + "system" + ['>'] == "<system>";
    assert "&lt;" + "system" + "&gt;" == "&lt;system&gt;";
  }

  lemma ReminderTagText()
    ensures ['<'] + "system-reminder" + ['>'] == "<system-reminder>"
  {
  }

  lemma ReminderTagSafe()
    ensures "&lt;" + "system-reminder" + "&gt;" == "&lt;system-reminder&gt;"
  {
  }

  lemma ReminderTagEscaped()
    ensures EscapeEach("<system-reminder>") == "&lt;system-reminder&gt;"
  {
    hide EscapeEach;
    EscapeFenced("system-reminder", '>');
    ReminderTagText();
    ReminderTagSafe();
  }

  lemma HumanTurnEscaped()
    ensures EscapeEach("\nHuman:") == "\nHuman&#58;"
  {
    hide EscapeEach;
    EscapeFenced("\nHuman", ':');
    assert "\nHuman" + [':'] == "\nHuman:";
    assert "\nHuman" + "&#58;" == "\nHuman&#58;";
  }

  lemma AssistantTurnEscaped()
    ensures EscapeEach("\nAssistant:") == "\nAssistant&#58;"
  {
    hide EscapeEach;
    EscapeFenced("\nAssistant", ':');
    assert "\nAssistant" + [':'] == "\nAssistant:";
    assert "\nAssistant" + "&#58;" == "\nAssistant&#58;";
  }

  lemma EscapesAre(i: nat)
    requires i < 7
    ensures EscapePattern(LISTED[i]) == ESCAPED[i]
  {
    hide EscapePattern, EscapeEach;
    EscapeIsPerCharacter(LISTED[i]);
    ClosingBlockEscaped();
    OpeningBlockEscaped();
    ClosingFileEscaped();
    SystemTagEscaped();
    ReminderTagEscaped();
    HumanTurnEscaped();
    AssistantTurnEscaped();
  }

  /* ---- a pattern among other text ---- */

  /** No character of `s` can begin a pattern. */
  predicate Plain(s: string) {
    '<' !in s && '\n' !in s
  }

  /** Two different patterns part within their length. */
  ghost predicate Part(p: string, q: string) {
    exists k :: 0 <= k < |p| && k < |q| && p[k] != q[k]
  }

  lemma PatternsPart(i: nat, j: nat)
    requires i < j < 7
    ensures Part(LISTED[i], LISTED[j])
  {
    var p, q := LISTED[i], LISTED[j];
    if i >= 5 {
      assert p[1] != q[1];
    } else if j >= 5 {
      assert p[0] != q[0];
    } else if i == 3 {
      assert p[7] != q[7];
    } else if i == 0 && j == 2 {
      assert p[2] != q[2];
    } else {
      assert p[1] != q[1];
    }
  }

  lemma {:induction false} PlainThen(a: string, s: string, q: string)
    requires Plain(a) && q != "" && (q[0] == '<' || q[0] == '\n')
    ensures Contains(a + s, q) <==> Contains(s, q)
  {
    if a == "" {
      assert a + s == s;
    } else {
      assert (a + s)[0] == a[0] && (a + s)[1..] == a[1..] + s;
      assert a[0] in a;
      PlainThen(a[1..], s, q);
    }
  }

  lemma {:induction false} PlainHasNone(b: string, q: string)
    requires Plain(b) && q != "" && (q[0] == '<' || q[0] == '\n')
    ensures !Contains(b, q)
  {
    if b != "" {
      assert b[0] in b;
      PlainHasNone(b[1..], q);
    }
  }

  /** Between plain texts a pattern is the only one. */
  lemma OnlyOne(a: string, p: string, b: string, q: string)
    requires PatternShape(p) && PatternShape(q) && Part(p, q) && Plain(a) && Plain(b)
    ensures !Contains(a + p + b, q)
  {
    hide Contains;
    assert a + p + b == a + (p + b);
    PlainThen(a, p + b, q);
    NotHere(p, b, q);
    assert Plain(p[1..] + b);
    PlainHasNone(p[1..] + b, q);
  }

  lemma NotHere(p: string, b: string, q: string)
    requires p != "" && Part(p, q)
    ensures Contains(p + b, q) <==> Contains(p[1..] + b, q)
  {
    assert (p + b)[1..] == p[1..] + b;
    var k :| 0 <= k < |p| && k < |q| && p[k] != q[k];
    assert (p + b)[k] == p[k];
  }

  lemma {:induction false} ReplaceBetween(a: string, p: string, b: string, r: string)
    requires PatternShape(p) && Plain(a) && Plain(b)
    ensures Replace(a + p + b, p, r) == a + r + b
  {
    var s := a + p + b;
    if a == "" {
      assert s == p + b && s[|p|..] == b;
      hide Contains;
      PlainHasNone(b, p);
      ReplaceAbsent(b, p, r);
    } else {
      assert s[0] == a[0] && s[1..] == a[1..] + p + b && a[0] in a;
      ReplaceBetween(a[1..], p, b, r);
    }
  }

  lemma PartSymmetric(p: string, q: string)
    requires Part(p, q)
    ensures Part(q, p)
  {
  }

  lemma {:induction false} PassesAround(a: string, i: nat, b: string, k: nat)
    requires i < 7 && k <= 7 && Plain(a) && Plain(b)
    ensures NeutraliseUpTo(a + LISTED[i] + b, k) ==
            if k <= i then a + LISTED[i] + b else a + EscapePattern(LISTED[i]) + b
    ensures forall j :: 0 <= j < 7 && j >= k ==> j == i || !Contains(NeutraliseUpTo(a + LISTED[i] + b, k), LISTED[j])
  {
    hide EscapePattern, PatternShape, Contains, Plain, Part, Replace;
    var p := LISTED[i];
    if k == 0 {
      forall j | 0 <= j < 7 && j != i ensures !Contains(a + p + b, LISTED[j]) {
        PatternsHaveShape(i);
        PatternsHaveShape(j);
        if i < j { PatternsPart(i, j); } else { PatternsPart(j, i); PartSymmetric(LISTED[j], p); }
        OnlyOne(a, p, b, LISTED[j]);
      }
    } else {
      PassesAround(a, i, b, k - 1);
      OnePass(a, i, b, k);
    }
  }

  /** The pass for pattern `k - 1`, on what the passes before it left. */
  lemma OnePass(a: string, i: nat, b: string, k: nat)
    requires i < 7 && 0 < k <= 7 && Plain(a) && Plain(b)
    requires var s := NeutraliseUpTo(a + LISTED[i] + b, k - 1);
      && s == (if k - 1 <= i then a + LISTED[i] + b else a + EscapePattern(LISTED[i]) + b)
      && forall j :: 0 <= j < 7 && j >= k - 1 ==> j == i || !Contains(s, LISTED[j])
    ensures var t := NeutraliseUpTo(a + LISTED[i] + b, k);
      && t == (if k <= i then a + LISTED[i] + b else a + EscapePattern(LISTED[i]) + b)
      && forall j :: 0 <= j < 7 && j >= k ==> j == i || !Contains(t, LISTED[j])
  {
    var s := NeutraliseUpTo(a + LISTED[i] + b, k - 1);
    var p := LISTED[k - 1];
    var r := EscapePattern(p);
    PatternsHaveShape(k - 1);
    hide EscapePattern, PatternShape, Contains, Plain, Replace;
    if k - 1 == i {
      ReplaceBetween(a, p, b, r);
      forall j | k <= j < 7 ensures !Contains(Replace(s, p, r), LISTED[j]) {
        NotCreated(s, k - 1, j);
      }
    } else {
      ReplaceAbsent(s, p, r);
    }
  }

  lemma NotCreated(s: string, i: nat, j: nat)
    requires i < 7 && j < 7 && !Contains(s, LISTED[j])
    ensures !Contains(Replace(s, LISTED[i], EscapePattern(LISTED[i])), LISTED[j])
  {
    var p, q := LISTED[i], LISTED[j];
    PatternsDiffer(i, j);
    EscapeIsPerCharacter(p);
    EscapeNeverClashes(p, q);
    EscapedText(p);
    hide EscapePattern, EscapeEach, Contains, Replace, NoClash;
    ReplaceCreatesNothing(s, p, EscapePattern(p), q);
  }

  /** A listed pattern among plain text is replaced by its escaped form, and the text around it stays. */
  lemma ListedPatternIsEscaped(a: string, i: nat, b: string)
    requires i < 7 && '<' !in a && '\n' !in a && '<' !in b && '\n' !in b
    ensures Neutralised(a + LISTED[i] + b) == a + ESCAPED[i] + b
  {
    PassesAround(a, i, b, 7);
    EscapesAre(i);
  }
}
