/**
 * Unified diffs as data: hunks, the text they print as, and what it means for a list of
 * hunks to turn one file into another. The line map of the printed text is proved against
 * that meaning.
 */
module Hunks {
  import opened Text
  import DiffLines

  /** A body line: in both files, only in the old one, only in the new one, or the end-of-file marker. */
  datatype BodyLine = Keep(text: string) | Drop(text: string) | Insert(text: string) | NoEol

  /** `oldCounted`/`newCounted`: whether the header spells out `,count`. */
  datatype Hunk = Hunk(oldStart: nat, oldCounted: bool, newStart: nat, newCounted: bool, section: string,
                       body: seq<BodyLine>)

  function OldLine(b: BodyLine): seq<string> {
    if b.Keep? || b.Drop? then [b.text] else []
  }

  function NewLine(b: BodyLine): seq<string> {
    if b.Keep? || b.Insert? then [b.text] else []
  }

  function OldSide(body: seq<BodyLine>): seq<string> {
    if body == [] then [] else OldLine(body[0]) + OldSide(body[1..])
  }

  function NewSide(body: seq<BodyLine>): seq<string> {
    if body == [] then [] else NewLine(body[0]) + NewSide(body[1..])
  }

  /* ---- printing ---- */

  function PrintLine(b: BodyLine): string {
    match b
    case Keep(t) => " " + t
    case Drop(t) => "-" + t
    case Insert(t) => "+" + t
    case NoEol => "\\ No newline at end of file"
  }

  function CountText(counted: bool, n: nat): string {
    if counted then "," + Decimal(n) else ""
  }

  function PrintHeader(h: Hunk): string {
    "@@ -" + (Decimal(h.oldStart) + (CountText(h.oldCounted, |OldSide(h.body)|) +
    (" +" + (Decimal(h.newStart) + (CountText(h.newCounted, |NewSide(h.body)|) + (" @@" + h.section))))))
  }

  function PrintBody(body: seq<BodyLine>): (lines: seq<string>)
    ensures |lines| == |body|
    ensures forall i :: 0 <= i < |body| ==> lines[i] == PrintLine(body[i])
  {
    if body == [] then [] else [PrintLine(body[0])] + PrintBody(body[1..])
  }

  function PrintHunks(hs: seq<Hunk>): seq<string> {
    if hs == [] then [] else [PrintHeader(hs[0])] + PrintBody(hs[0].body) + PrintHunks(hs[1..])
  }

  function Newlines(n: nat): string {
    seq(n, _ => '\n')
  }

  /** A patch: preamble lines, then the hunks, then any number of trailing newlines. */
  function PrintPatch(preamble: seq<string>, hs: seq<Hunk>, trailing: nat): string {
    Join(preamble + PrintHunks(hs)) + Newlines(trailing)
  }

  predicate LineText(b: BodyLine) {
    b.NoEol? || OneLine(b.text)
  }

  /** Nothing that is printed on one line holds a newline. */
  predicate Printable(hs: seq<Hunk>) {
    forall i :: 0 <= i < |hs| ==>
      OneLine(hs[i].section) && forall j :: 0 <= j < |hs[i].body| ==> LineText(hs[i].body[j])
  }

  predicate IsPreamble(lines: seq<string>) {
    OneLineEach(lines) && forall i :: 0 <= i < |lines| ==> !DiffLines.KindOf(lines[i]).Header?
  }

  /* ---- the printed text, read back ---- */

  function BodyKind(b: BodyLine): DiffLines.Kind {
    match b
    case Keep(_) => DiffLines.Context
    case Drop(_) => DiffLines.Removed
    case Insert(_) => DiffLines.Added
    case NoEol => DiffLines.Marker
  }

  function BodyKinds(body: seq<BodyLine>): (ks: seq<DiffLines.Kind>)
    ensures |ks| == |body|
  {
    if body == [] then [] else [BodyKind(body[0])] + BodyKinds(body[1..])
  }

  function HunkKinds(hs: seq<Hunk>): seq<DiffLines.Kind> {
    if hs == [] then [] else [DiffLines.Header(hs[0].newStart)] + BodyKinds(hs[0].body) + HunkKinds(hs[1..])
  }

  lemma NotAHeader(raw: string)
    requires raw == "" || raw[0] != '@'
    ensures DiffLines.MatchHeader(raw) == None
  {
  }

  /** A body line is never mistaken for a header, nor for another kind of body line. */
  lemma BodyLineReadsBack(b: BodyLine)
    ensures DiffLines.KindOf(PrintLine(b)) == BodyKind(b)
  {
    NotAHeader(PrintLine(b));
  }

  lemma CountTextIsCountPart(counted: bool, n: nat)
    ensures DiffLines.CountPart(CountText(counted, n))
  {
    if counted {
      assert CountText(counted, n)[1..] == Decimal(n);
    }
  }

  /** A printed header is recognised and its start number survives. */
  lemma HeaderReadsBack(h: Hunk)
    ensures DiffLines.KindOf(PrintHeader(h)) == DiffLines.Header(h.newStart)
  {
    var oc, nc := CountText(h.oldCounted, |OldSide(h.body)|), CountText(h.newCounted, |NewSide(h.body)|);
    CountTextIsCountPart(h.oldCounted, |OldSide(h.body)|);
    CountTextIsCountPart(h.newCounted, |NewSide(h.body)|);
    DiffLines.MatchComplete(PrintHeader(h), Decimal(h.oldStart), oc, Decimal(h.newStart), nc, h.section);
    DecimalRoundTrip(h.newStart);
  }

  lemma {:induction false} BodyReadsBack(body: seq<BodyLine>)
    ensures DiffLines.Kinds(PrintBody(body)) == BodyKinds(body)
  {
    if body != [] {
      BodyLineReadsBack(body[0]);
      BodyReadsBack(body[1..]);
      KindsConcat([PrintLine(body[0])], PrintBody(body[1..]));
      KindsOne(PrintLine(body[0]));
    }
  }

  lemma KindsConcat(a: seq<string>, b: seq<string>)
    ensures DiffLines.Kinds(a + b) == DiffLines.Kinds(a) + DiffLines.Kinds(b)
  {
  }

  lemma KindsOne(raw: string)
    ensures DiffLines.Kinds([raw]) == [DiffLines.KindOf(raw)]
  {
  }

  lemma {:induction false} HunksReadBack(hs: seq<Hunk>)
    ensures DiffLines.Kinds(PrintHunks(hs)) == HunkKinds(hs)
  {
    if hs != [] {
      HeaderReadsBack(hs[0]);
      BodyReadsBack(hs[0].body);
      HunksReadBack(hs[1..]);
      var header := [PrintHeader(hs[0])];
      KindsConcat(header + PrintBody(hs[0].body), PrintHunks(hs[1..]));
      KindsConcat(header, PrintBody(hs[0].body));
      KindsOne(PrintHeader(hs[0]));
    }
  }

  lemma DigitsAreOneLine(s: string)
    requires AllDigits(s)
    ensures OneLine(s)
  {
  }

  lemma HeaderIsOneLine(h: Hunk)
    requires OneLine(h.section)
    ensures OneLine(PrintHeader(h))
  {
    DigitsAreOneLine(Decimal(h.oldStart));
    DigitsAreOneLine(Decimal(h.newStart));
    DigitsAreOneLine(Decimal(|OldSide(h.body)|));
    DigitsAreOneLine(Decimal(|NewSide(h.body)|));
  }

  predicate PrintedOk(lines: seq<string>) {
    forall i :: 0 <= i < |lines| ==> OneLine(lines[i]) && lines[i] != ""
  }

  lemma PrintedLineIsLine(b: BodyLine)
    requires LineText(b)
    ensures OneLine(PrintLine(b)) && PrintLine(b) != ""
  {
  }

  lemma BodyIsLines(body: seq<BodyLine>)
    requires forall j :: 0 <= j < |body| ==> LineText(body[j])
    ensures PrintedOk(PrintBody(body))
  {
    hide PrintLine, LineText, OneLine;
    forall i | 0 <= i < |body| ensures OneLine(PrintLine(body[i])) && PrintLine(body[i]) != "" {
      PrintedLineIsLine(body[i]);
    }
  }

  lemma PrintedOkConcat(a: seq<string>, b: seq<string>)
    requires PrintedOk(a) && PrintedOk(b)
    ensures PrintedOk(a + b)
  {
  }

  lemma {:induction false} PrintedLinesAreLines(hs: seq<Hunk>)
    requires Printable(hs)
    ensures PrintedOk(PrintHunks(hs))
  {
    if hs != [] {
      var header := [PrintHeader(hs[0])];
      HeaderIsOneLine(hs[0]);
      BodyIsLines(hs[0].body);
      PrintedOkConcat(header, PrintBody(hs[0].body));
      PrintedLinesAreLines(hs[1..]);
      PrintedOkConcat(header + PrintBody(hs[0].body), PrintHunks(hs[1..]));
    }
  }

  lemma {:induction false} StripTrailing(s: string, n: nat)
    ensures StripNewlines(s + Newlines(n)) == StripNewlines(s)
  {
    if n == 0 {
      assert s + Newlines(0) == s;
    } else {
      var t := s + Newlines(n);
      assert t[|t| - 1] == '\n' && t[..|t| - 1] == s + Newlines(n - 1);
      StripTrailing(s, n - 1);
    }
  }

  /** The loop sees exactly the printed lines: no invented line, no lost one. */
  lemma PrintedPatchLines(preamble: seq<string>, hs: seq<Hunk>, trailing: nat)
    requires IsPreamble(preamble) && Printable(hs) && hs != []
    ensures DiffLines.PatchLines(PrintPatch(preamble, hs, trailing)) == preamble + PrintHunks(hs)
  {
    var lines := preamble + PrintHunks(hs);
    PrintedLinesAreLines(hs);
    StripTrailing(Join(lines), trailing);
    hide Join, StripNewlines, Split, OneLine, Printable;
    var m := StripDropsEmptyLines(lines);
    assert lines[|lines| - 1] == PrintHunks(hs)[|PrintHunks(hs)| - 1];
    assert lines[..|lines|] == lines;
  }

  /** A patch without hunks has no header, whatever is stripped from it. */
  lemma PreambleOnlyLines(preamble: seq<string>, trailing: nat)
    requires IsPreamble(preamble)
    ensures var ks := DiffLines.Kinds(DiffLines.PatchLines(PrintPatch(preamble, [], trailing)));
      forall i :: 0 <= i < |ks| ==> !ks[i].Header?
  {
    var lines := if preamble == [] then [""] else preamble;
    NotAHeader("");
    assert preamble + PrintHunks([]) == preamble;
    assert Join(preamble) == Join(lines);
    StripTrailing(Join(lines), trailing);
    var m := StripDropsEmptyLines(lines);
  }

  /* ---- where each new-side line of a hunk list stands ---- */

  /** New-side line `number`, at diff position `position`. */
  datatype Place = Place(number: nat, position: nat, added: bool, text: string)

  function LinePlace(b: BodyLine, number: nat, position: nat): (ps: seq<Place>) {
    match b
    case Keep(t) => [Place(number, position, false, t)]
    case Insert(t) => [Place(number, position, true, t)]
    case _ => []
  }

  function BodyPlaces(body: seq<BodyLine>, number: nat, position: nat): seq<Place> {
    if body == [] then []
    else
      var here := LinePlace(body[0], number, position);
      here + BodyPlaces(body[1..], number + |here|, position + 1)
  }

  /** `position` is that of the first hunk's header. */
  function Places(hs: seq<Hunk>, position: nat): seq<Place> {
    if hs == [] then []
    else BodyPlaces(hs[0].body, hs[0].newStart, position + 1) + Places(hs[1..], position + 1 + |hs[0].body|)
  }

  /** The map a list of places stands for; a later place wins. */
  function MapOf(ps: seq<Place>): map<int, int> {
    if ps == [] then map[] else MapOf(ps[..|ps| - 1])[ps[|ps| - 1].number := ps[|ps| - 1].position]
  }

  function AddedOf(ps: seq<Place>): set<int> {
    set i | 0 <= i < |ps| && ps[i].added :: ps[i].number
  }

  lemma NoPlaces()
    ensures MapOf([]) == map[] && AddedOf([]) == {}
  {
  }

  lemma PlacesSnoc(ps: seq<Place>, p: Place)
    ensures MapOf(ps + [p]) == MapOf(ps)[p.number := p.position]
    ensures AddedOf(ps + [p]) == if p.added then AddedOf(ps) + {p.number as int} else AddedOf(ps)
  {
    assert (ps + [p])[..|ps|] == ps;
    forall n ensures n in AddedOf(ps + [p]) <==> n in AddedOf(ps) || (p.added && n == p.number) {
      if n in AddedOf(ps) {
        var i :| 0 <= i < |ps| && ps[i].added && ps[i].number == n;
        assert (ps + [p])[i] == ps[i];
      }
      if p.added && n == p.number {
        assert (ps + [p])[|ps|] == p;
      }
    }
  }

  ghost predicate Stands(s: DiffLines.Scan, ps: seq<Place>) {
    s.seenHunk && s.lineMap == MapOf(ps) && s.added == AddedOf(ps)
  }

  lemma ScanSnoc(ks: seq<DiffLines.Kind>, k: DiffLines.Kind)
    ensures DiffLines.ScanAll(ks + [k]) == DiffLines.Step(DiffLines.ScanAll(ks), k)
  {
    assert (ks + [k])[..|ks|] == ks;
  }

  lemma ScanLine(before: seq<DiffLines.Kind>, ps: seq<Place>, b: BodyLine, number: nat, position: nat)
    requires var s := DiffLines.ScanAll(before); Stands(s, ps) && s.newLine == number && s.position + 1 == position
    ensures var t := DiffLines.ScanAll(before + [BodyKind(b)]);
      var here := LinePlace(b, number, position);
      Stands(t, ps + here) && t.newLine == number + |here| && t.position == position
  {
    ScanSnoc(before, BodyKind(b));
    var here := LinePlace(b, number, position);
    if here == [] {
      assert ps + here == ps;
    } else {
      PlacesSnoc(ps, here[0]);
    }
  }

  lemma {:induction false} ScanBody(before: seq<DiffLines.Kind>, ps: seq<Place>, body: seq<BodyLine>, number: nat,
                                    position: nat)
    requires var s := DiffLines.ScanAll(before); Stands(s, ps) && s.newLine == number && s.position + 1 == position
    ensures var t := DiffLines.ScanAll(before + BodyKinds(body));
      Stands(t, ps + BodyPlaces(body, number, position)) && t.position + 1 == position + |body|
    decreases body
  {
    hide Stands, DiffLines.ScanAll;
    if body == [] {
      assert before + BodyKinds(body) == before;
      assert ps + BodyPlaces(body, number, position) == ps;
    } else {
      var k := BodyKind(body[0]);
      var here := LinePlace(body[0], number, position);
      ScanLine(before, ps, body[0], number, position);
      ScanBody(before + [k], ps + here, body[1..], number + |here|, position + 1);
      Regroup(before, [k], BodyKinds(body[1..]));
      Regroup(ps, here, BodyPlaces(body[1..], number + |here|, position + 1));
    }
  }

  lemma ScanHeader(before: seq<DiffLines.Kind>, ps: seq<Place>, start: nat, position: nat)
    requires var s := DiffLines.ScanAll(before); ScanReady(s, ps, position)
    ensures var t := DiffLines.ScanAll(before + [DiffLines.Header(start)]);
      Stands(t, ps) && t.newLine == start && t.position == position
  {
    ScanSnoc(before, DiffLines.Header(start));
  }

  /** Either inside the hunks, one position short of the next header, or before any. */
  ghost predicate ScanReady(s: DiffLines.Scan, ps: seq<Place>, position: nat) {
    if s.seenHunk then Stands(s, ps) && s.position + 1 == position
    else s == DiffLines.START && ps == [] && position == 0
  }

  lemma {:induction false} ScanHunks(before: seq<DiffLines.Kind>, ps: seq<Place>, hs: seq<Hunk>, position: nat)
    requires ScanReady(DiffLines.ScanAll(before), ps, position)
    ensures var t := DiffLines.ScanAll(before + HunkKinds(hs));
      t.lineMap == MapOf(ps + Places(hs, position)) && t.added == AddedOf(ps + Places(hs, position))
    decreases hs
  {
    hide MapOf, AddedOf, DiffLines.ScanAll;
    if hs == [] {
      NoPlaces();
      assert before + HunkKinds(hs) == before;
      assert ps + Places(hs, position) == ps;
    } else {
      var h := hs[0];
      var header := [DiffLines.Header(h.newStart)];
      var here := BodyPlaces(h.body, h.newStart, position + 1);
      var next := position + 1 + |h.body|;
      ScanHeader(before, ps, h.newStart, position);
      ScanBody(before + header, ps, h.body, h.newStart, position + 1);
      ScanHunks(before + header + BodyKinds(h.body), ps + here, hs[1..], next);
      assert before + HunkKinds(hs) == before + header + BodyKinds(h.body) + HunkKinds(hs[1..]) by {
        Regroup(before, header + BodyKinds(h.body), HunkKinds(hs[1..]));
        Regroup(before, header, BodyKinds(h.body));
      }
      Regroup(ps, here, Places(hs[1..], next));
    }
  }

  lemma {:induction false} NothingBeforeAHeader(ks: seq<DiffLines.Kind>)
    requires forall i :: 0 <= i < |ks| ==> !ks[i].Header?
    ensures DiffLines.ScanAll(ks) == DiffLines.START
  {
    if ks != [] {
      NothingBeforeAHeader(ks[..|ks| - 1]);
    }
  }

  /**
   * Reading a printed patch gives the map and the set that the hunks stand for: any
   * preamble, any number of trailing newlines, counts spelled out or not, markers anywhere.
   */
  lemma ParserAgreesWithPrinter(preamble: seq<string>, hs: seq<Hunk>, trailing: nat)
    requires IsPreamble(preamble) && Printable(hs)
    ensures var s := DiffLines.ScanAll(DiffLines.Kinds(DiffLines.PatchLines(PrintPatch(preamble, hs, trailing))));
      s.lineMap == MapOf(Places(hs, 0)) && s.added == AddedOf(Places(hs, 0))
  {
    if hs == [] {
      PreambleOnlyLines(preamble, trailing);
      NothingBeforeAHeader(DiffLines.Kinds(DiffLines.PatchLines(PrintPatch(preamble, hs, trailing))));
    } else {
      PrintedPatchLines(preamble, hs, trailing);
      KindsConcat(preamble, PrintHunks(hs));
      HunksReadBack(hs);
      NothingBeforeAHeader(DiffLines.Kinds(preamble));
      ScanHunks(DiffLines.Kinds(preamble), [], hs, 0);
      assert [] + Places(hs, 0) == Places(hs, 0);
    }
  }

  /* ---- a patch for which an added line is misanchored ---- */

  /** Two hunks over new-file line 1: the first adds it, the second shows it as context. */
  const OVERLAPPING: seq<Hunk> := [Hunk(0, true, 1, false, "", [Insert("a")]),
                                   Hunk(1, false, 1, false, "", [Keep("b")])]

  lemma OneLineBody(b: BodyLine)
    ensures PrintBody([b]) == [PrintLine(b)] && BodyKinds([b]) == [BodyKind(b)]
    ensures OldSide([b]) == OldLine(b) && NewSide([b]) == NewLine(b)
  {
    assert [b][1..] == [];
    assert PrintBody([]) == [] && BodyKinds([]) == [] && OldSide([]) == [] && NewSide([]) == [];
  }

  lemma TwoHunks(a: Hunk, b: Hunk)
    ensures PrintHunks([a, b]) == [PrintHeader(a)] + PrintBody(a.body) + ([PrintHeader(b)] + PrintBody(b.body))
    ensures HunkKinds([a, b]) ==
            [DiffLines.Header(a.newStart)] + BodyKinds(a.body) + ([DiffLines.Header(b.newStart)] + BodyKinds(b.body))
  {
    assert [a, b][1..] == [b] && [b][1..] == [];
    assert PrintHunks([]) == [] && HunkKinds([]) == [];
    assert PrintHunks([b]) == [PrintHeader(b)] + PrintBody(b.body);
    assert HunkKinds([b]) == [DiffLines.Header(b.newStart)] + BodyKinds(b.body);
  }

  lemma OverlappingHeaders()
    ensures PrintHeader(OVERLAPPING[0]) == "@@ -0,0 +1 @@" && PrintHeader(OVERLAPPING[1]) == "@@ -1 +1 @@"
  {
    hide OldSide, NewSide;
    OneLineBody(Insert("a"));
    OneLineBody(Keep("b"));
    assert Decimal(0) == "0" && Decimal(1) == "1";
  }

  lemma OverlappingText()
    ensures PrintPatch([], OVERLAPPING, 0) == "@@ -0,0 +1 @@\n+a\n@@ -1 +1 @@\n b"
  {
    hide PrintHeader, PrintBody, PrintHunks, OldSide, NewSide;
    OverlappingHeaders();
    OneLineBody(Insert("a"));
    OneLineBody(Keep("b"));
    TwoHunks(OVERLAPPING[0], OVERLAPPING[1]);
    var lines := ["@@ -0,0 +1 @@", "+a", "@@ -1 +1 @@", " b"];
    assert "+" + "a" == "+a" && " " + "b" == " b";
    assert PrintBody(OVERLAPPING[0].body) == ["+a"] && PrintBody(OVERLAPPING[1].body) == [" b"];
    assert PrintHunks(OVERLAPPING) == ["@@ -0,0 +1 @@"] + ["+a"] + (["@@ -1 +1 @@"] + [" b"]);
    assert [] + PrintHunks(OVERLAPPING) == lines;
    assert lines[1..] == ["+a", "@@ -1 +1 @@", " b"] && lines[1..][1..] == ["@@ -1 +1 @@", " b"];
    assert lines[1..][1..][1..] == [" b"];
    assert Join(lines) + Newlines(0) == Join(lines);
  }

  lemma OverlappingKinds()
    ensures DiffLines.Kinds(DiffLines.PatchLines(PrintPatch([], OVERLAPPING, 0))) ==
            [DiffLines.Header(1), DiffLines.Added, DiffLines.Header(1), DiffLines.Context]
    ensures DiffLines.PatchLines(PrintPatch([], OVERLAPPING, 0))[3] == " b"
  {
    hide PrintPatch, PrintHunks, PrintBody, PrintHeader, BodyKinds, HunkKinds, DiffLines.PatchLines, DiffLines.KindOf;
    PrintedPatchLines([], OVERLAPPING, 0);
    HunksReadBack(OVERLAPPING);
    OneLineBody(Insert("a"));
    OneLineBody(Keep("b"));
    TwoHunks(OVERLAPPING[0], OVERLAPPING[1]);
    assert [] + PrintHunks(OVERLAPPING) == PrintHunks(OVERLAPPING);
  }

  /**
   * A text for which the set misleads, whatever returns what the loop returns: line 1
   * counts as added, and is anchored on the context line of the second hunk.
   */
  lemma OverlappingHunksMisanchor(patch: string, lineMap: map<int, int>, added: set<int>)
    requires patch == "@@ -0,0 +1 @@\n+a\n@@ -1 +1 @@\n b"
    requires var ks := DiffLines.Kinds(DiffLines.PatchLines(patch)); DiffLines.Anchors(ks, |ks|, lineMap, added)
    ensures added == {1} && lineMap == map[1 := 3] && DiffLines.PatchLines(patch)[3] == " b"
  {
    OverlappingText();
    OverlappingKinds();
    hide DiffLines.PatchLines, DiffLines.KindOf, DiffLines.Kinds;
    OverlappingScan();
    var ks := [DiffLines.Header(1), DiffLines.Added, DiffLines.Header(1), DiffLines.Context];
    DiffLines.ScanMeaning(ks, 4);
    assert ks[..4] == ks;
    hide DiffLines.Anchors;
    DiffLines.AnchorsAreUnique(ks, lineMap, added, DiffLines.ScanAll(ks).lineMap, DiffLines.ScanAll(ks).added);
  }

  lemma OverlappingScan()
    ensures var s := DiffLines.ScanAll([DiffLines.Header(1), DiffLines.Added, DiffLines.Header(1), DiffLines.Context]);
      s.lineMap == map[1 := 3] && s.added == {1}
  {
    var ks := [DiffLines.Header(1), DiffLines.Added, DiffLines.Header(1), DiffLines.Context];
    assert ks[..0] == [] && ks[..4] == ks;
    DiffLines.ScanNext(ks, 0);
    DiffLines.ScanNext(ks, 1);
    DiffLines.ScanNext(ks, 2);
    DiffLines.ScanNext(ks, 3);
  }
}
