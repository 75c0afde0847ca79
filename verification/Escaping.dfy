/** Neutralising framing in repository text (agent/context.py, `neutralise`). */
module Escaping {
  import opened Text

  /** `s.replace(p, r)`: left to right, non-overlapping. */
  function Replace(s: string, p: string, r: string): string
    requires p != ""
  {
    if s == "" then ""
    else if p <= s then r + Replace(s[|p|..], p, r)
    else [s[0]] + Replace(s[1..], p, r)
  }

  const DELIMITER_PATTERNS: seq<string> := [
    "</repository_content>",
    "<repository_content",
    "</file>",
    "<system>",
    "<system-reminder>",
    "\nHuman:",
    "\nAssistant:"
  ]

  function EscapePattern(p: string): string {
    Replace(Replace(Replace(p, "<", "&lt;"), ">", "&gt;"), ":", "&#58;")
  }

  /** The text after the first `k` patterns have been dealt with. */
  function NeutraliseUpTo(text: string, k: nat): string
    requires k <= |DELIMITER_PATTERNS|
  {
    if k == 0 then text
    else
      var p := DELIMITER_PATTERNS[k - 1];
      Replace(NeutraliseUpTo(text, k - 1), p, EscapePattern(p))
  }

  function Neutralised(text: string): string {
    NeutraliseUpTo(text, |DELIMITER_PATTERNS|)
  }

  lemma {:induction false} ReplaceAbsent(s: string, p: string, r: string)
    requires p != "" && !Contains(s, p)
    ensures Replace(s, p, r) == s
  {
    if s != "" {
      ReplaceAbsent(s[1..], p, r);
      assert [s[0]] + s[1..] == s;
    }
  }

  method Neutralise(text: string) returns (cleaned: string)
    ensures cleaned == Neutralised(text)
  {
    cleaned := text;
    for k := 0 to |DELIMITER_PATTERNS|
      invariant cleaned == NeutraliseUpTo(text, k)
    {
      var pattern := DELIMITER_PATTERNS[k];
      if Contains(cleaned, pattern) {
        var escaped := EscapePattern(pattern);
        cleaned := Replace(cleaned, pattern, escaped);
      } else {
        ReplaceAbsent(cleaned, pattern, EscapePattern(pattern));
      }
    }
  }

  /* ---- the escape of a pattern, character by character ---- */

  function EscapeChar(c: char): string {
    if c == '<' then "&lt;" else if c == '>' then "&gt;" else if c == ':' then "&#58;" else [c]
  }

  function EscapeEach(p: string): string {
    if p == "" then "" else EscapeChar(p[0]) + EscapeEach(p[1..])
  }

  lemma ReplaceCharHead(s: string, c: char, r: string)
    requires s != ""
    ensures Replace(s, [c], r) == (if s[0] == c then r else [s[0]]) + Replace(s[1..], [c], r)
  {
    assert [c] <= s <==> s[0] == c;
  }

  lemma {:induction false} ReplaceCharConcat(a: string, b: string, c: char, r: string)
    ensures Replace(a + b, [c], r) == Replace(a, [c], r) + Replace(b, [c], r)
  {
    if a == "" {
      assert a + b == b;
    } else {
      hide Replace;
      assert (a + b)[1..] == a[1..] + b;
      ReplaceCharHead(a + b, c, r);
      ReplaceCharHead(a, c, r);
      ReplaceCharConcat(a[1..], b, c, r);
    }
  }

  lemma {:induction false} ReplaceCharAbsent(s: string, c: char, r: string)
    requires c !in s
    ensures Replace(s, [c], r) == s
  {
    if s != "" {
      ReplaceCharHead(s, c, r);
      ReplaceCharAbsent(s[1..], c, r);
    }
  }

  lemma ReplaceOneChar(c: char, d: char, r: string)
    ensures Replace([c], [d], r) == if c == d then r else [c]
  {
    ReplaceCharHead([c], d, r);
    assert [c][1..] == "";
  }

  lemma EscapeOneChar(c: char)
    ensures EscapePattern([c]) == EscapeChar(c)
  {
    hide Replace;
    ReplaceOneChar(c, '<', "&lt;");
    ReplaceOneChar(c, '>', "&gt;");
    ReplaceOneChar(c, ':', "&#58;");
    ReplaceCharAbsent("&lt;", '>', "&gt;");
    ReplaceCharAbsent("&lt;", ':', "&#58;");
    ReplaceCharAbsent("&gt;", ':', "&#58;");
  }

  lemma {:induction false} EscapeIsPerCharacter(p: string)
    ensures EscapePattern(p) == EscapeEach(p)
  {
    if p != "" {
      var a, b := [p[0]], p[1..];
      assert p == a + b;
      ReplaceCharConcat(a, b, '<', "&lt;");
      var a1, b1 := Replace(a, "<", "&lt;"), Replace(b, "<", "&lt;");
      ReplaceCharConcat(a1, b1, '>', "&gt;");
      var a2, b2 := Replace(a1, ">", "&gt;"), Replace(b1, ">", "&gt;");
      ReplaceCharConcat(a2, b2, ':', "&#58;");
      EscapeOneChar(p[0]);
      EscapeIsPerCharacter(b);
    }
  }

  /* ---- no replacement re-creates a pattern ---- */

  /** What the seven patterns have in common: a structural first character, found nowhere else in them. */
  predicate PatternShape(p: string) {
    && |p| >= 2 && (p[0] == '<' || (p[0] == '\n' && ':' in p && EscapeChar(p[1]) == [p[1]]))
    && '&' !in p && forall j :: 1 <= j < |p| ==> p[j] != '<' && p[j] != '\n'
  }

  /** Two conversation markers are equal or differ right after the newline. */
  predicate Distinguishable(p: string, q: string) {
    PatternShape(p) && PatternShape(q) && (p[0] == q[0] == '\n' ==> p == q || p[1] != q[1])
  }

  lemma PatternsHaveShape(i: nat)
    requires i < |DELIMITER_PATTERNS|
    ensures PatternShape(DELIMITER_PATTERNS[i])
  {
    if i >= 5 {
      assert "\nHuman:"[6] == ':' && "\nAssistant:"[10] == ':';
    }
  }

  lemma PatternsDiffer(i: nat, j: nat)
    requires i < |DELIMITER_PATTERNS| && j < |DELIMITER_PATTERNS|
    ensures Distinguishable(DELIMITER_PATTERNS[i], DELIMITER_PATTERNS[j])
  {
    PatternsHaveShape(i);
    PatternsHaveShape(j);
    hide PatternShape;
    assert i <= 4 || i == 5 || i == 6;
    assert j <= 4 || j == 5 || j == 6;
    assert i <= 4 ==> DELIMITER_PATTERNS[i][0] == '<';
    assert j <= 4 ==> DELIMITER_PATTERNS[j][0] == '<';
  }

  lemma {:induction false} EscapedText(p: string)
    requires '&' !in p
    ensures |EscapeEach(p)| >= |p|
    ensures '<' !in EscapeEach(p) && ':' !in EscapeEach(p)
    ensures '\n' !in p ==> '\n' !in EscapeEach(p)
    decreases p
  {
    if p != "" {
      EscapedText(p[1..]);
    }
  }

  /** `q` laid over `r`, `d` places to the right, disagrees with it somewhere. */
  ghost predicate Mismatch(q: string, r: string, d: int) {
    exists k :: 0 <= k < |q| && 0 <= k + d < |r| && q[k] != r[k + d]
  }

  /** Wherever `q` overlaps `r`, they disagree. */
  ghost predicate NoClash(q: string, r: string) {
    forall d :: -|q| < d < |r| ==> Mismatch(q, r, d)
  }

  lemma EscapeNeverClashes(p: string, q: string)
    requires Distinguishable(p, q)
    ensures NoClash(q, EscapeEach(p))
  {
    var r := EscapeEach(p);
    EscapedText(p);
    EscapedText(p[1..]);
    assert '\n' !in p[1..];
    assert p == [p[0]] + p[1..];
    forall d | -|q| < d < |r| ensures Mismatch(q, r, d) {
      if d < 0 {
        assert q[-d] == q[1..][-d - 1];
        assert r[0] == '&' || r[0] == '\n';
        assert q[-d] != r[-d + d];
      } else if d > 0 {
        assert r[d] in r;
        assert p[0] == '\n' ==> r[d] == EscapeEach(p[1..])[d - 1];
        assert q[0] != r[0 + d];
      } else if p[0] == '<' {
        assert q[0] in q && r[0] == '&';
        assert q[0] != r[0 + d];
      } else if q[0] == '<' {
        assert q[0] != r[0 + d];
      } else if p != q {
        assert r[1] == p[1];
        assert q[1] != r[1 + d];
      } else {
        var k :| 0 <= k < |p| && p[k] == ':';
        assert r[k] in r;
        assert q[k] != r[k + d];
      }
    }
  }

  lemma NotAtBlock(r: string, d: int, rest: string, q: string)
    requires NoClash(q, r) && q != "" && 0 <= d < |r|
    ensures !(q <= r[d..] + rest)
  {
    assert Mismatch(q, r, d);
    var k :| 0 <= k < |q| && 0 <= k + d < |r| && q[k] != r[k + d];
    assert (r[d..] + rest)[k] == r[k + d];
  }

  lemma {:induction false} AbsentAfterBlock(r: string, d: nat, rest: string, q: string)
    requires NoClash(q, r) && q != "" && d <= |r| && !Contains(rest, q)
    ensures !Contains(r[d..] + rest, q)
    decreases |r| - d
  {
    var s := r[d..] + rest;
    if d == |r| {
      assert s == rest;
    } else {
      NotAtBlock(r, d, rest, q);
      AbsentAfterBlock(r, d + 1, rest, q);
      assert s[1..] == r[d + 1..] + rest;
    }
  }

  lemma TailNotAtBlock(r: string, rest: string, q: string, a: int)
    requires NoClash(q, r) && r != "" && 1 <= a < |q|
    ensures !(q[a..] <= r + rest)
  {
    assert Mismatch(q, r, 0 - a);
    var k :| 0 <= k < |q| && 0 <= k - a < |r| && q[k] != r[k - a];
    assert (r + rest)[k - a] == r[k - a] && q[a..][k - a] == q[k];
  }

  lemma PrefixByHead(q: string, s: string)
    requires q != "" && s != ""
    ensures q <= s <==> q[0] == s[0] && q[1..] <= s[1..]
  {
    assert q == [q[0]] + q[1..] && s == [s[0]] + s[1..];
  }

  /** A tail of `q` read at the front of the output was at the front of the input. */
  lemma {:induction false} TailWasThere(s: string, p: string, r: string, q: string, a: int)
    requires p != "" && NoClash(q, r) && r != "" && 1 <= a <= |q| && q[a..] <= Replace(s, p, r)
    ensures q[a..] <= s
    decreases |q| - a
  {
    if a < |q| {
      if p <= s {
        TailNotAtBlock(r, Replace(s[|p|..], p, r), q, a);
      } else {
        assert q[a..][1..] == q[a + 1..];
        assert Replace(s, p, r)[1..] == Replace(s[1..], p, r);
        PrefixByHead(q[a..], Replace(s, p, r));
        TailWasThere(s[1..], p, r, q, a + 1);
        PrefixByHead(q[a..], s);
      }
    }
  }

  lemma ContainsInRest(s: string, at: nat, q: string)
    requires at <= |s| && Contains(s[at..], q)
    ensures Contains(s, q)
  {
    var j := FirstOccurrence(s[at..], q);
    assert s[at..][j..j + |q|] == s[at + j..at + j + |q|];
    ContainsAt(s, q, at + j);
  }

  /** Replacing `p` leaves no `p`, and no `q` that was not there. */
  lemma {:induction false} ReplaceCreatesNothing(s: string, p: string, r: string, q: string)
    requires p != "" && q != "" && r != "" && NoClash(q, r) && (q == p || !Contains(s, q))
    ensures !Contains(Replace(s, p, r), q)
    decreases |s|
  {
    if s != "" {
      if p <= s {
        if Contains(s[|p|..], q) {
          ContainsInRest(s, |p|, q);
        }
        ReplaceCreatesNothing(s[|p|..], p, r, q);
        AbsentAfterBlock(r, 0, Replace(s[|p|..], p, r), q);
        assert r[0..] == r;
      } else {
        var rest := Replace(s[1..], p, r);
        var out := Replace(s, p, r);
        assert out == [s[0]] + rest && out[1..] == rest;
        ReplaceCreatesNothing(s[1..], p, r, q);
        PrefixByHead(q, out);
        PrefixByHead(q, s);
        if q[1..] <= rest {
          TailWasThere(s[1..], p, r, q, 1);
        }
      }
    }
  }

  /** After `k` passes none of the first `k` patterns is left. */
  lemma {:induction false} NeutralisedUpToIsClean(text: string, k: nat, i: nat)
    requires i < k <= |DELIMITER_PATTERNS|
    ensures !Contains(NeutraliseUpTo(text, k), DELIMITER_PATTERNS[i])
  {
    var p, q := DELIMITER_PATTERNS[k - 1], DELIMITER_PATTERNS[i];
    PatternsDiffer(k - 1, i);
    EscapeIsPerCharacter(p);
    EscapeNeverClashes(p, q);
    EscapedText(p);
    if i < k - 1 {
      NeutralisedUpToIsClean(text, k - 1, i);
    }
    ReplaceCreatesNothing(NeutraliseUpTo(text, k - 1), p, EscapePattern(p), q);
  }

  ghost predicate Clean(text: string) {
    forall i :: 0 <= i < |DELIMITER_PATTERNS| ==> !Contains(text, DELIMITER_PATTERNS[i])
  }

  /** Escaping is complete: at no place of the output can one of the patterns be read. */
  lemma NeutralisedIsClean(text: string)
    ensures Clean(Neutralised(text))
    ensures forall i, j: nat :: 0 <= i < |DELIMITER_PATTERNS| ==> !OccursAt(Neutralised(text), DELIMITER_PATTERNS[i], j)
  {
    hide Neutralised, Contains;
    forall i | 0 <= i < |DELIMITER_PATTERNS| ensures !Contains(Neutralised(text), DELIMITER_PATTERNS[i]) {
      NeutralisedLacks(text, i);
    }
    forall i, j: nat | 0 <= i < |DELIMITER_PATTERNS| ensures !OccursAt(Neutralised(text), DELIMITER_PATTERNS[i], j) {
      ContainsMeaning(Neutralised(text), DELIMITER_PATTERNS[i]);
    }
  }

  lemma NeutralisedLacks(text: string, i: nat)
    requires i < |DELIMITER_PATTERNS|
    ensures !Contains(Neutralised(text), DELIMITER_PATTERNS[i])
  {
    NeutralisedUpToIsClean(text, |DELIMITER_PATTERNS|, i);
  }

  lemma {:induction false} CleanIsUntouched(text: string, k: nat)
    requires Clean(text) && k <= |DELIMITER_PATTERNS|
    ensures NeutraliseUpTo(text, k) == text
  {
    if k > 0 {
      hide Replace, Contains, EscapePattern, PatternShape;
      CleanIsUntouched(text, k - 1);
      ReplaceAbsent(text, DELIMITER_PATTERNS[k - 1], EscapePattern(DELIMITER_PATTERNS[k - 1]));
    }
  }

  /** It leaves a text alone exactly when no pattern occurs in it; so doing it twice is doing it once. */
  lemma NeutralisedFixedPoints(text: string)
    ensures Neutralised(text) == text <==> Clean(text)
    ensures Neutralised(Neutralised(text)) == Neutralised(text)
  {
    NeutralisedIsClean(text);
    CleanIsUntouched(Neutralised(text), |DELIMITER_PATTERNS|);
    if Clean(text) {
      CleanIsUntouched(text, |DELIMITER_PATTERNS|);
    }
  }
}
