/** The line map of one file's patch: new-file line number to diff position (github/diff.py). */
module DiffLines {
  import opened Text

  /* ---- hunk headers ---- */

  /** `(?:,\d+)?` */
  predicate CountPart(c: string) {
    c == "" || (c[0] == ',' && Numeral(c[1..]))
  }

  /** What the header pattern says: `@@ -\d+(?:,\d+)? \+(\d+)(?:,\d+)? @@`, then anything. */
  predicate HeaderShape(raw: string, oldStart: string, oldCount: string, newStart: string, newCount: string,
                        rest: string) {
    && raw == "@@ -" + (oldStart + (oldCount + (" +" + (newStart + (newCount + (" @@" + rest))))))
    && Numeral(oldStart) && CountPart(oldCount) && Numeral(newStart) && CountPart(newCount)
  }

  function SkipCount(s: string): string {
    if "," <= s && DigitPrefix(s[1..]) != "" then s[1..][|DigitPrefix(s[1..])|..] else s
  }

  /** Matches `sign`, a numeral and an optional count; yields the numeral and what follows. */
  function MatchRange(s: string, sign: string): Option<(string, string)> {
    if !(sign <= s) then None
    else
      var start := DigitPrefix(s[|sign|..]);
      if start == "" then None else Some((start, SkipCount(s[|sign|..][|start|..])))
  }

  /** The matcher: one pass, no backtracking; yields `int(new_start)`. */
  function MatchHeader(raw: string): Option<nat> {
    match MatchRange(raw, "@@ -")
    case None => None
    case Some((_, afterOld)) =>
      match MatchRange(afterOld, " +")
      case None => None
      case Some((start, afterNew)) =>
        if " @@" <= afterNew && AllDigits(start) then Some(Value(start)) else None
  }

  lemma SkipCountStops(c: string, t: string)
    requires CountPart(c) && " " <= t
    ensures SkipCount(c + t) == t
  {
    assert t[0] == ' ';
    if c == "" {
      assert c + t == t;
    } else {
      assert (c + t)[1..] == c[1..] + t;
      DigitPrefixStops(c[1..], t);
      assert (c[1..] + t)[|c[1..]|..] == t;
    }
  }

  lemma RangeComplete(sign: string, d: string, c: string, t: string)
    requires Numeral(d) && CountPart(c) && " " <= t
    ensures MatchRange(sign + (d + (c + t)), sign) == Some((d, t))
  {
    assert (sign + (d + (c + t)))[|sign|..] == d + (c + t);
    assert (d + (c + t))[|d|..] == c + t;
    assert !IsDigit((c + t)[0]);
    DigitPrefixStops(d, c + t);
    SkipCountStops(c, t);
  }

  lemma RangeSound(s: string, sign: string, d: string, t: string) returns (c: string)
    requires MatchRange(s, sign) == Some((d, t))
    ensures Numeral(d) && CountPart(c) && s == sign + (d + (c + t))
  {
    var body := s[|sign|..];
    var tail := body[|d|..];
    assert s == sign + body && body == d + tail;
    c := if "," <= tail && DigitPrefix(tail[1..]) != "" then "," + DigitPrefix(tail[1..]) else "";
    if c != "" {
      assert c[1..] == DigitPrefix(tail[1..]);
      assert tail == [tail[0]] + tail[1..] == c + SkipCount(tail);
    } else {
      assert tail == c + SkipCount(tail);
    }
  }

  lemma MatchComplete(raw: string, oldStart: string, oldCount: string, newStart: string, newCount: string, rest: string)
    requires HeaderShape(raw, oldStart, oldCount, newStart, newCount, rest)
    ensures MatchHeader(raw) == Some(Value(newStart))
  {
    var tail := " @@" + rest;
    RangeComplete("@@ -", oldStart, oldCount, " +" + (newStart + (newCount + tail)));
    RangeComplete(" +", newStart, newCount, tail);
  }

  lemma HeaderRanges(raw: string) returns (oldStart: string, afterOld: string, newStart: string, rest: string)
    requires MatchHeader(raw).Some?
    ensures MatchRange(raw, "@@ -") == Some((oldStart, afterOld))
    ensures MatchRange(afterOld, " +") == Some((newStart, " @@" + rest))
    ensures AllDigits(newStart) && MatchHeader(raw) == Some(Value(newStart))
  {
    oldStart, afterOld := MatchRange(raw, "@@ -").value.0, MatchRange(raw, "@@ -").value.1;
    newStart := MatchRange(afterOld, " +").value.0;
    var afterNew := MatchRange(afterOld, " +").value.1;
    rest := afterNew[3..];
    assert afterNew == " @@" + rest;
  }

  lemma MatchSound(raw: string) returns (oldStart: string, oldCount: string, newStart: string, newCount: string,
                                         rest: string)
    requires MatchHeader(raw).Some?
    ensures HeaderShape(raw, oldStart, oldCount, newStart, newCount, rest)
    ensures MatchHeader(raw) == Some(Value(newStart))
  {
    var afterOld;
    oldStart, afterOld, newStart, rest := HeaderRanges(raw);
    oldCount := RangeSound(raw, "@@ -", oldStart, afterOld);
    newCount := RangeSound(afterOld, " +", newStart, " @@" + rest);
  }

  /** The one-pass matcher accepts exactly the strings of the pattern, with that start number. */
  lemma HeaderMatchIsThePattern(raw: string, start: nat)
    ensures MatchHeader(raw) == Some(start) <==>
            exists o, oc, n, nc, rest :: HeaderShape(raw, o, oc, n, nc, rest) && Value(n) == start
  {
    if MatchHeader(raw) == Some(start) {
      var o, oc, n, nc, rest := MatchSound(raw);
    }
    if o, oc, n, nc, rest :| HeaderShape(raw, o, oc, n, nc, rest) && Value(n) == start {
      MatchComplete(raw, o, oc, n, nc, rest);
    }
  }

  /** What the loop tells apart. */
  datatype Kind = Header(start: nat) | Added | Removed | Marker | Context {
    /** The line exists in the new file. */
    predicate NewSide() {
      Added? || Context?
    }
  }

  function KindOf(raw: string): Kind {
    match MatchHeader(raw)
    case Some(start) => Header(start)
    case None =>
      if "+" <= raw then Added
      else if "-" <= raw then Removed
      else if "\\" <= raw then Marker
      else Context
  }

  function Kinds(lines: seq<string>): (ks: seq<Kind>)
    ensures |ks| == |lines| && forall i :: 0 <= i < |lines| ==> ks[i] == KindOf(lines[i])
  {
    seq(|lines|, i requires 0 <= i < |lines| => KindOf(lines[i]))
  }

  /** The lines the loop visits. */
  function PatchLines(patch: string): seq<string> {
    Split(StripNewlines(patch))
  }

  /* ---- what the map means, line by line ---- */

  /** Index of the first hunk header: position 0. */
  function FirstHeader(ks: seq<Kind>): (h: nat)
    ensures h <= |ks|
    ensures forall i :: 0 <= i < h ==> !ks[i].Header?
    ensures h < |ks| ==> ks[h].Header?
  {
    if ks == [] || ks[0].Header? then 0 else 1 + FirstHeader(ks[1..])
  }

  /** The number in the new file of the line at index `i`, counted from the header above it. */
  function NewLineAt(ks: seq<Kind>, i: nat): int
    requires i <= |ks|
  {
    if i <= FirstHeader(ks) then 0
    else match ks[i - 1]
      case Header(start) => start
      case k => NewLineAt(ks, i - 1) + if k.NewSide() then 1 else 0
  }

  /** Index `i` is inside the hunks and holds new-file line `n`. */
  predicate Holds(ks: seq<Kind>, n: int, i: int) {
    FirstHeader(ks) < i < |ks| && ks[i].NewSide() && NewLineAt(ks, i) == n
  }

  /**
   * What `(line_map, added)` says of the first `k` lines: a line number is mapped when
   * some line holds it, to the distance of its last holder from the first header; it is
   * added when some `+` line holds it.
   */
  ghost predicate Anchors(ks: seq<Kind>, k: nat, lineMap: map<int, int>, added: set<int>) {
    && (forall n, i :: Holds(ks, n, i) && i < k ==> n in lineMap && i <= FirstHeader(ks) + lineMap[n])
    && (forall n :: n in lineMap ==> Holds(ks, n, FirstHeader(ks) + lineMap[n]) && FirstHeader(ks) + lineMap[n] < k)
    && (forall n, i :: Holds(ks, n, i) && i < k && ks[i].Added? ==> n in added)
    && (forall n :: n in added ==> exists i :: Holds(ks, n, i) && i < k && ks[i].Added?)
  }

  /** That meaning leaves no choice: it fixes the map and the set. */
  lemma AnchorsAreUnique(ks: seq<Kind>, m1: map<int, int>, a1: set<int>, m2: map<int, int>, a2: set<int>)
    requires Anchors(ks, |ks|, m1, a1) && Anchors(ks, |ks|, m2, a2)
    ensures m1 == m2 && a1 == a2
  {
    var h := FirstHeader(ks);
    forall n ensures n in m1 <==> n in m2 {
      if n in m1 { assert Holds(ks, n, h + m1[n]); }
      if n in m2 { assert Holds(ks, n, h + m2[n]); }
    }
    assert m1.Keys == m2.Keys;
    forall n | n in m1 ensures m1[n] == m2[n] {
      assert Holds(ks, n, h + m1[n]) && Holds(ks, n, h + m2[n]);
    }
    assert forall n :: n in a1 <==> n in a2;
  }

  /**
   * For any text, malformed or overlapping hunks included: positions point inside the
   * hunks at new-side lines, two line numbers never share a position, and every added
   * line number is mapped.
   */
  lemma AnchorsOfAnyPatch(ks: seq<Kind>, lineMap: map<int, int>, added: set<int>, m: int, n: int)
    requires Anchors(ks, |ks|, lineMap, added)
    ensures n in lineMap ==> 0 < lineMap[n] < |ks| - FirstHeader(ks) && ks[FirstHeader(ks) + lineMap[n]].NewSide()
    ensures m in lineMap && n in lineMap && lineMap[m] == lineMap[n] ==> m == n
    ensures n in added ==> n in lineMap
  {
    hide FirstHeader, NewLineAt;
    var h := FirstHeader(ks);
    if n in lineMap {
      assert Holds(ks, n, h + lineMap[n]);
      if m in lineMap {
        assert Holds(ks, m, h + lineMap[m]);
      }
    }
  }

  /** Every later hunk starts at or after the line the hunk above it ended at. */
  predicate HunksAscend(ks: seq<Kind>) {
    forall i :: FirstHeader(ks) < i < |ks| ==> AscendsAt(ks, i)
  }

  predicate AscendsAt(ks: seq<Kind>, i: nat)
    requires i < |ks|
  {
    ks[i].Header? ==> NewLineAt(ks, i) <= ks[i].start
  }

  lemma {:induction false} NumbersAscend(ks: seq<Kind>, i: nat, j: nat)
    requires HunksAscend(ks) && FirstHeader(ks) < i <= j <= |ks|
    ensures NewLineAt(ks, i) <= NewLineAt(ks, j)
    decreases j
  {
    if i < j {
      NumbersAscend(ks, i, j - 1);
      assert AscendsAt(ks, j - 1);
    }
  }

  /** When hunks ascend no two lines hold the same number. */
  lemma HolderIsUnique(ks: seq<Kind>, n: int, i: nat, j: nat)
    requires HunksAscend(ks) && Holds(ks, n, i) && Holds(ks, n, j)
    ensures i == j
  {
    var lo, hi := if i < j then i else j, if i < j then j else i;
    NewLineNext(ks, lo);
    if lo < hi {
      NumbersAscend(ks, lo + 1, hi);
    }
  }

  /** When hunks ascend, the added numbers are exactly those mapped to a `+` line. */
  lemma AddedMeansPlusLine(ks: seq<Kind>, lineMap: map<int, int>, added: set<int>, n: int)
    requires Anchors(ks, |ks|, lineMap, added) && HunksAscend(ks)
    ensures n in added <==> n in lineMap && ks[FirstHeader(ks) + lineMap[n]].Added?
  {
    hide FirstHeader, NewLineAt, HunksAscend;
    var h := FirstHeader(ks);
    if n in lineMap {
      assert Holds(ks, n, h + lineMap[n]);
    }
    if n in added {
      var i :| Holds(ks, n, i) && i < |ks| && ks[i].Added?;
      HolderIsUnique(ks, n, i, h + lineMap[n]);
    }
  }

  lemma NewLineNext(ks: seq<Kind>, i: nat)
    requires FirstHeader(ks) < i < |ks| && ks[i].NewSide()
    ensures NewLineAt(ks, i + 1) == NewLineAt(ks, i) + 1
  {
  }

  /** Context line `j` holds the number of the `+` line `i` above it, and no `+` line below takes it back. */
  ghost predicate Shadowed(ks: seq<Kind>, n: int, i: nat, j: nat) {
    && i < j && Holds(ks, n, i) && ks[i].Added? && Holds(ks, n, j) && ks[j].Context?
    && forall k :: Holds(ks, n, k) && ks[k].Added? ==> k < j
  }

  lemma MisanchoredIsShadowed(ks: seq<Kind>, lineMap: map<int, int>, added: set<int>, n: int)
    requires Anchors(ks, |ks|, lineMap, added) && n in added && !ks[FirstHeader(ks) + lineMap[n]].Added?
    ensures exists i: nat, j: nat :: Shadowed(ks, n, i, j)
  {
    hide FirstHeader, NewLineAt;
    var i :| Holds(ks, n, i) && i < |ks| && ks[i].Added?;
    var last := FirstHeader(ks) + lineMap[n];
    assert Holds(ks, n, last);
    assert Shadowed(ks, n, i, last);
  }

  /**
   * Exactly when an added number is not anchored on a `+` line: when a later hunk shows it
   * again, as context, and no `+` line after that. Hunks may overlap without it.
   */
  lemma MisanchoredIffShadowed(ks: seq<Kind>, lineMap: map<int, int>, added: set<int>, n: int)
    requires Anchors(ks, |ks|, lineMap, added)
    ensures n in added && !ks[FirstHeader(ks) + lineMap[n]].Added? <==> exists i: nat, j: nat :: Shadowed(ks, n, i, j)
  {
    hide FirstHeader, NewLineAt;
    var h := FirstHeader(ks);
    if n in added && !ks[h + lineMap[n]].Added? {
      MisanchoredIsShadowed(ks, lineMap, added, n);
    }
    if i: nat, j: nat :| Shadowed(ks, n, i, j) {
      assert Holds(ks, n, i) && i < |ks| && Holds(ks, n, h + lineMap[n]);
      assert j <= h + lineMap[n];
    }
  }

  /** So the set names `+` lines only, and all of them, exactly when no line is shadowed. */
  lemma AddedMeansPlusLineIff(ks: seq<Kind>, lineMap: map<int, int>, added: set<int>)
    requires Anchors(ks, |ks|, lineMap, added)
    ensures (forall n :: n in added <==> n in lineMap && ks[FirstHeader(ks) + lineMap[n]].Added?)
            <==> !exists n, i: nat, j: nat :: Shadowed(ks, n, i, j)
  {
    hide FirstHeader, NewLineAt;
    forall n
      ensures n in added ==> n in lineMap
      ensures n in lineMap && ks[FirstHeader(ks) + lineMap[n]].Added? ==> n in added
      ensures n in added && !ks[FirstHeader(ks) + lineMap[n]].Added? <==> exists i: nat, j: nat :: Shadowed(ks, n, i, j)
    {
      AnchorsOfAnyPatch(ks, lineMap, added, n, n);
      MisanchoredIffShadowed(ks, lineMap, added, n);
      if n in lineMap {
        assert Holds(ks, n, FirstHeader(ks) + lineMap[n]);
      }
    }
    hide Shadowed, Anchors;
  }

  /* ---- the loop ---- */

  datatype Scan = Scan(lineMap: map<int, int>, added: set<int>, position: int, newLine: int, seenHunk: bool)

  const START := Scan(map[], {}, 0, 0, false)

  /** One turn of the loop. */
  function Step(s: Scan, k: Kind): Scan {
    if k.Header? then
      s.(newLine := k.start, position := if s.seenHunk then s.position + 1 else 0, seenHunk := true)
    else if !s.seenHunk then s
    else
      var t := s.(position := s.position + 1);
      if k.NewSide() then
        t.(lineMap := t.lineMap[t.newLine := t.position],
           added := if k.Added? then t.added + {t.newLine} else t.added,
           newLine := t.newLine + 1)
      else t
  }

  function ScanAll(ks: seq<Kind>): Scan {
    if ks == [] then START else Step(ScanAll(ks[..|ks| - 1]), ks[|ks| - 1])
  }

  lemma ScanNext(ks: seq<Kind>, k: nat)
    requires k < |ks|
    ensures ScanAll(ks[..k + 1]) == Step(ScanAll(ks[..k]), ks[k])
  {
    assert ks[..k + 1][..k] == ks[..k];
  }

  ghost predicate ScanMeans(ks: seq<Kind>, k: nat, s: Scan)
    requires k <= |ks|
  {
    && (s.seenHunk <==> FirstHeader(ks) < k)
    && (s.seenHunk ==> s.position == k - 1 - FirstHeader(ks))
    && s.newLine == NewLineAt(ks, k)
    && Anchors(ks, k, s.lineMap, s.added)
  }

  lemma StepKeepsMeaning(ks: seq<Kind>, k: nat, s: Scan)
    requires k < |ks| && ScanMeans(ks, k, s)
    ensures ScanMeans(ks, k + 1, Step(s, ks[k]))
  {
    var t := Step(s, ks[k]);
    if s.seenHunk && ks[k].NewSide() {
      assert Holds(ks, s.newLine, k);
    }
    forall n | n in t.added ensures exists i :: Holds(ks, n, i) && i < k + 1 && ks[i].Added? {
      if n in s.added {
        var i :| Holds(ks, n, i) && i < k && ks[i].Added?;
      }
    }
  }

  /** After `k` lines the scan's fields are what the declarative reading says of them. */
  lemma {:induction false} ScanMeaning(ks: seq<Kind>, k: nat)
    requires k <= |ks|
    ensures ScanMeans(ks, k, ScanAll(ks[..k]))
  {
    if k > 0 {
      ScanMeaning(ks, k - 1);
      ScanNext(ks, k - 1);
      StepKeepsMeaning(ks, k - 1, ScanAll(ks[..k - 1]));
    }
  }

  method BuildLineMap(patch: string) returns (lineMap: map<int, int>, added: set<int>)
    ensures var ks := Kinds(PatchLines(patch));
      && Anchors(ks, |ks|, lineMap, added)
      && lineMap == ScanAll(ks).lineMap && added == ScanAll(ks).added
  {
    hide Anchors, FirstHeader, NewLineAt, MatchHeader, StripNewlines, Split;
    lineMap, added := map[], {};
    var position, newLine, seenHunk := 0, 0, false;
    var lines := Split(StripNewlines(patch));
    ghost var ks := Kinds(lines);
    for k := 0 to |lines|
      invariant ScanAll(ks[..k]) == Scan(lineMap, added, position, newLine, seenHunk)
    {
      ScanNext(ks, k);
      var raw := lines[k];
      var header := MatchHeader(raw);
      if header.Some? {
        newLine := header.value;
        if seenHunk {
          position := position + 1;
        } else {
          seenHunk := true;
          position := 0;
        }
        continue;
      }
      if !seenHunk {
        continue;
      }
      position := position + 1;
      if "+" <= raw {
        lineMap := lineMap[newLine := position];
        added := added + {newLine};
        newLine := newLine + 1;
      } else if "-" <= raw {
      } else if "\\" <= raw {
      } else {
        lineMap := lineMap[newLine := position];
        newLine := newLine + 1;
      }
    }
    assert ks[..|lines|] == ks;
    ScanMeaning(ks, |ks|);
  }
}
