/** What the diff block shows, and what repository text can and cannot forge in it. */
module DiffBlock {
  import opened Text
  import opened StableSort
  import opened ChangedFiles
  import opened Escaping
  import opened Context
  import opened ContextMeaning
  import opened ContextProperties
  import Decoding

  function HasPatch(f: FileDiff): bool {
    f.patch.Some? && f.patch.value != ""
  }

  /** The files the block shows, in its order. */
  function Patched(files: seq<FileDiff>): seq<FileDiff> {
    Sort(Filter(files, HasPatch), PathLeq)
  }

  const END: seq<string> := ["</diff>", "</pull_request>"]

  lemma {:induction false} OnlyPatches(sorted: seq<FileDiff>)
    ensures DiffLinesOf(sorted) == DiffLinesOf(Filter(sorted, HasPatch))
  {
    if sorted != [] {
      hide FileDiffLines, HasPatch;
      OnlyPatches(sorted[1..]);
      ThreeLines(sorted[0]);
      FilterHead(sorted, HasPatch);
    }
  }

  lemma ThreeLines(f: FileDiff)
    ensures |FileDiffLines(f)| == if HasPatch(f) then 3 else 0
  {
  }

  lemma {:induction false} InThrees(patched: seq<FileDiff>)
    requires forall f :: f in patched ==> HasPatch(f)
    ensures |DiffLinesOf(patched)| == 3 * |patched|
    ensures forall k :: 0 <= k < |patched| ==> DiffLinesOf(patched)[3 * k..3 * k + 3] == FileDiffLines(patched[k])
  {
    hide FileDiffLines, HasPatch;
    if patched != [] {
      var first, rest := FileDiffLines(patched[0]), DiffLinesOf(patched[1..]);
      assert patched[0] in patched && forall f :: f in patched[1..] ==> f in patched;
      ThreeLines(patched[0]);
      InThrees(patched[1..]);
      forall k | 0 <= k < |patched| ensures (first + rest)[3 * k..3 * k + 3] == FileDiffLines(patched[k]) {
        if k > 0 {
          assert (first + rest)[3 * k..3 * k + 3] == rest[3 * (k - 1)..3 * (k - 1) + 3];
        }
      }
    }
  }

  lemma BlockIsPatched(files: seq<FileDiff>)
    ensures DiffLinesOf(Sort(files, PathLeq)) == DiffLinesOf(Patched(files))
    ensures forall f :: f in Patched(files) <==> f in files && HasPatch(f)
    ensures multiset(Patched(files)) == multiset(Filter(files, HasPatch)) && Ordered(Patched(files), PathLeq)
  {
    hide HasPatch, PathLeq, DiffLinesOf, Ordered;
    PathOrderIsAPreorder(Elements(files));
    FilterSort(files, PathLeq, HasPatch, Elements(files));
    OnlyPatches(Sort(files, PathLeq));
    FilterElements(files, HasPatch);
    SameElements(Patched(files), Filter(files, HasPatch));
    PathOrderIsAPreorder(Elements(Filter(files, HasPatch)));
    SortOrdered(Filter(files, HasPatch), PathLeq, Elements(Filter(files, HasPatch)));
  }

  /** The lines of the block before the files and after them. */
  lemma FramingOfTheBlock(title: string, description: string)
    ensures DiffHeader(title, description) == [
        "<pull_request>",
        "<title>" + Neutralised(title) + "</title>",
        "<description>\n" + Neutralised(Cut(description, 4000)) + "\n</description>",
        "<diff>"
      ]
    ensures END == ["</diff>", "</pull_request>"]
  {
  }

  lemma LinesOfAFile(f: FileDiff)
    requires HasPatch(f)
    ensures FileDiffLines(f) == [FileTag(f), Neutralised(f.patch.value), "</file_diff>"]
  {
    hide Neutralised, FileTag;
  }

  lemma PatchedAscend(files: seq<FileDiff>)
    requires Ordered(files, PathLeq)
    ensures forall i, j :: 0 <= i < j < |files| ==> NotAfter(files[i].path, files[j].path)
  {
    forall i, j | 0 <= i < j < |files| ensures NotAfter(files[i].path, files[j].path) {
      PathLeqMeaning(files[i], files[j]);
    }
  }

  /** The three lines at place `3 * k` are those of `f`. */
  predicate ShowsAt(shown: seq<string>, k: nat, f: FileDiff) {
    && 3 * k + 3 <= |shown| && f.patch.Some?
    && shown[3 * k] == "<file_diff path=\"" + Neutralised(f.path) + "\" change=\"" + f.changeType + "\">"
    && shown[3 * k + 1] == Neutralised(f.patch.value)
    && shown[3 * k + 2] == "</file_diff>"
  }

  /**
   * Whatever the budget, the diff block is its header, three lines for each file that has a
   * patch and its closing tags: for each file an opening tag, the neutralised patch, a closing
   * tag. It shows every such file once, in path order, and nothing else.
   */
  lemma DiffBlockShowsEveryPatch(title: string, description: string, files: seq<FileDiff>,
                                 contents: map<string, string>, maxChars: int)
    returns (shown: seq<string>, patched: seq<FileDiff>)
    ensures ContextOf(title, description, files, contents, maxChars).diffBlock ==
            Join([
              "<pull_request>",
              "<title>" + Neutralised(title) + "</title>",
              "<description>\n" + Neutralised(Cut(description, 4000)) + "\n</description>",
              "<diff>"
            ] + shown + ["</diff>", "</pull_request>"])
    ensures multiset(patched) == multiset(Filter(files, HasPatch))
    ensures forall f :: f in patched <==> f in files && f.patch.Some? && f.patch.value != ""
    ensures forall i, j :: 0 <= i < j < |patched| ==> NotAfter(patched[i].path, patched[j].path)
    ensures |shown| == 3 * |patched| && forall k :: 0 <= k < |patched| ==> ShowsAt(shown, k, patched[k])
  {
    hide Sort, Pack, DiffHeader, Join, Neutralised, Filter, DiffLinesOf, Ordered, Patched, ShowsAt, NotAfter, Cut,
         FileDiffLines;
    patched := Patched(files);
    shown := DiffLinesOf(Sort(files, PathLeq));
    FramingOfTheBlock(title, description);
    BlockIsPatched(files);
    PatchedAscend(patched);
    InThrees(patched);
    forall k | 0 <= k < |patched| ensures ShowsAt(shown, k, patched[k]) {
      assert patched[k] in patched;
      ShownThere(shown, k, patched[k]);
    }
  }

  lemma ShownThere(shown: seq<string>, k: nat, f: FileDiff)
    requires 3 * k + 3 <= |shown| && HasPatch(f) && shown[3 * k..3 * k + 3] == FileDiffLines(f)
    ensures ShowsAt(shown, k, f)
  {
    hide Neutralised, FileDiffLines, FileTag;
    LinesOfAFile(f);
    FileTagText(f);
    ThreeAt(shown, k, FileTag(f), Neutralised(f.patch.value), "</file_diff>");
  }

  lemma FileTagText(f: FileDiff)
    ensures FileTag(f) == "<file_diff path=\"" + Neutralised(f.path) + "\" change=\"" + f.changeType + "\">"
  {
  }

  lemma ThreeAt(shown: seq<string>, k: nat, a: string, b: string, c: string)
    requires 3 * k + 3 <= |shown| && shown[3 * k..3 * k + 3] == [a, b, c]
    ensures shown[3 * k] == a && shown[3 * k + 1] == b && shown[3 * k + 2] == c
  {
    var three := shown[3 * k..3 * k + 3];
    assert shown[3 * k] == three[0] && shown[3 * k + 1] == three[1] && shown[3 * k + 2] == three[2];
  }

  /* ---- conversation markers ---- */

  lemma PrefixOfJoin(parts: seq<string>, e: string)
    requires parts != [] && '\n' !in e
    ensures e <= Join(parts) <==> e <= parts[0]
  {
    if |parts| > 1 {
      PrefixAcross(parts[0], '\n', Join(parts[1..]), e);
    }
  }

  lemma TurnShape(q: string)
    requires IsTurn(q)
    ensures |q| >= 2 && q[0] == '\n' && '\n' !in q[1..] && '"' !in q && q == ['\n'] + q[1..]
  {
  }

  lemma PrefixAtNewline(a: string, b: string, q: string)
    requires IsTurn(q)
    ensures a != "" ==> (q <= a + ['\n'] + b <==> q <= a)
    ensures q <= ['\n'] + b <==> q[1..] <= b
  {
    TurnShape(q);
    PrefixByHead(q, ['\n'] + b);
    assert (['\n'] + b)[1..] == b;
    var s := a + ['\n'] + b;
    if a != "" && |q| > |a| {
      assert s[|a|] == '\n' && q[|a|] == q[1..][|a| - 1];
    }
  }

  /** A joint of two lines makes a marker exactly when the second begins with the rest of it. */
  lemma {:induction false} CountAtNewline(a: string, b: string, q: string)
    requires IsTurn(q)
    ensures Count(a + ['\n'] + b, q) == Count(a, q) + (if q[1..] <= b then 1 else 0) + Count(b, q)
  {
    hide IsTurn;
    PrefixAtNewline(a, b, q);
    var s := a + ['\n'] + b;
    if a == "" {
      assert s == ['\n'] + b && s[1..] == b;
      TurnShape(q);
    } else {
      assert s[1..] == a[1..] + ['\n'] + b;
      CountAtNewline(a[1..], b, q);
    }
  }

  /** Markers in lines each of which follows a newline. */
  function Turns(parts: seq<string>, q: string): nat
    requires q != ""
  {
    if parts == [] then 0
    else (if q[1..] <= parts[0] then 1 else 0) + Count(parts[0], q) + Turns(parts[1..], q)
  }

  lemma {:induction false} TurnsConcat(a: seq<string>, b: seq<string>, q: string)
    requires q != ""
    ensures Turns(a + b, q) == Turns(a, q) + Turns(b, q)
  {
    hide Count;
    if a == [] {
      assert a + b == b;
    } else {
      assert (a + b)[1..] == a[1..] + b;
      TurnsConcat(a[1..], b, q);
    }
  }

  lemma {:induction false} CountTurnsOfJoin(parts: seq<string>, q: string)
    requires IsTurn(q) && parts != []
    ensures Count(Join(parts), q) + (if q[1..] <= parts[0] then 1 else 0) == Turns(parts, q)
  {
    hide IsTurn, Count;
    TurnShape(q);
    if |parts| > 1 {
      CountAtNewline(parts[0], Join(parts[1..]), q);
      PrefixOfJoin(parts[1..], q[1..]);
      CountTurnsOfJoin(parts[1..], q);
    }
  }

  /** The text that opens with `e` still does after neutralising, and no other does. */
  lemma {:induction false} OpeningIsKept(text: string, k: nat, e: string)
    requires k <= |DELIMITER_PATTERNS| && '<' !in e && '&' !in e && '\n' !in e
    ensures e <= NeutraliseUpTo(text, k) <==> e <= text
  {
    if k > 0 {
      hide Replace, EscapePattern, EscapeEach;
      var p := DELIMITER_PATTERNS[k - 1];
      OpeningIsKept(text, k - 1, e);
      PatternsHaveShape(k - 1);
      EscapeIsPerCharacter(p);
      EscapeOpens(p);
      Decoding.PassesThrough(NeutraliseUpTo(text, k - 1), p, EscapePattern(p), e);
    }
  }

  lemma EscapeOpens(p: string)
    requires PatternShape(p)
    ensures EscapeEach(p) != "" && (EscapeEach(p)[0] == '&' || EscapeEach(p)[0] == '\n')
  {
  }

  /** What the two conversation markers have in common. */
  predicate IsMarker(q: string) {
    IsTurn(q) && '<' !in q && '>' !in q && '&' !in q
  }

  lemma MarkerFacts(i: nat)
    requires 5 <= i < |DELIMITER_PATTERNS|
    ensures IsMarker(DELIMITER_PATTERNS[i])
  {
    TurnFacts(i);
  }

  /** `text`, put on a line of its own, completes the marker `q`. */
  predicate Completes(text: string, q: string)
    requires q != ""
  {
    q[1..] <= text
  }

  function TurnOf(text: string, q: string): nat
    requires q != ""
  {
    if Completes(text, q) then 1 else 0
  }

  /** Neutralised text holds no marker and completes one exactly when the text does. */
  ghost predicate Tame(text: string, q: string)
    requires q != ""
  {
    Count(Neutralised(text), q) == 0 && (q[1..] <= Neutralised(text) <==> Completes(text, q))
  }

  lemma NeutralisedIsTame(i: nat, text: string)
    requires 5 <= i < |DELIMITER_PATTERNS|
    ensures Tame(text, DELIMITER_PATTERNS[i])
  {
    MarkerFacts(i);
    NeutralisedHasNone(i, text);
    var q := DELIMITER_PATTERNS[i];
    TurnShape(q);
    hide IsTurn, Count;
    OpeningIsKept(text, |DELIMITER_PATTERNS|, q[1..]);
  }

  lemma OnePart(s: string, q: string)
    requires q != ""
    ensures Turns([s], q) == (if q[1..] <= s then 1 else 0) + Count(s, q)
  {
    assert [s][1..] == [];
  }

  lemma MarkerOpensWithCapital(q: string, s: string)
    requires IsMarker(q) && s != "" && s[0] == '<'
    ensures !(q[1..] <= s)
  {
    assert q[1] == q[1..][0];
  }

  /** A line of one tag. */
  lemma PlainLine(s: string, q: string)
    requires IsMarker(q) && s != "" && s[0] == '<' && '\n' !in s
    ensures Turns([s], q) == 0
  {
    hide Turns;
    OnePart(s, q);
    CountNoHead(s, q);
    MarkerOpensWithCapital(q, s);
  }

  /** Text fenced by two characters that the marker does not have, in a line of tags. */
  lemma FencedText(a: string, c: char, text: string, d: char, b: string, q: string)
    requires IsMarker(q) && c !in q && d !in q && '\n' !in a && '\n' !in b
    ensures Count(a + [c] + (text + [d] + b), q) == Count(text, q)
  {
    CountNoHead(a, q);
    CountNoHead(b, q);
    CountAcross(a, c, text + [d] + b, q);
    CountAcross(text, d, b, q);
  }

  lemma TitleTurns(title: string, q: string)
    requires IsMarker(q) && Tame(title, q)
    ensures Turns([TitleLine(title)], q) == 0
  {
    var t := Neutralised(title);
    var line := TitleLine(title);
    hide Neutralised, Count, Turns;
    OnePart(line, q);
    MarkerOpensWithCapital(q, line);
    hide IsMarker;
    assert line == "<title" + ['>'] + (t + ['<'] + "/title>");
    NoFence(q);
    FencedText("<title", '>', t, '<', "/title>", q);
  }

  lemma NoFence(q: string)
    requires IsMarker(q)
    ensures '<' !in q && '>' !in q && '"' !in q
  {
  }

  /** Text on a line of its own between two tags. */
  lemma TextBetween(open: string, text: string, close: string, q: string)
    requires IsMarker(q) && '\n' !in open && '\n' !in close && close != "" && close[0] == '<'
    ensures Count(open + ['\n'] + (text + ['\n'] + close), q) == Count(text, q) + if q[1..] <= text then 1 else 0
  {
    CountNoHead(open, q);
    CountNoHead(close, q);
    MarkerOpensWithCapital(q, close);
    TurnShape(q);
    hide IsMarker, Count;
    CountAtNewline(open, text + ['\n'] + close, q);
    CountAtNewline(text, close, q);
    PrefixAcross(text, '\n', close, q[1..]);
  }

  lemma DescriptionTurns(description: string, q: string)
    requires IsMarker(q) && Tame(description, q)
    ensures Turns([DescriptionLine(description)], q) == TurnOf(description, q)
  {
    var t := Neutralised(description);
    var line := DescriptionLine(description);
    hide Neutralised, Count, Turns;
    OnePart(line, q);
    MarkerOpensWithCapital(q, line);
    hide IsMarker;
    assert line == "<description>" + ['\n'] + (t + ['\n'] + "</description>");
    TextBetween("<description>", t, "</description>", q);
  }

  /** The opening tag of a file, cut at its quotes. */
  function AtQuotes(path: string, changeType: string): string {
    "<file_diff path=" + ['"'] + (path + ['"'] + (" change=" + ['"'] + (changeType + ['"'] + ">")))
  }

  lemma FileTagAtQuotes(f: FileDiff)
    ensures FileTag(f) == AtQuotes(Neutralised(f.path), f.changeType)
  {
    hide Neutralised;
  }

  lemma CountAtQuotes(path: string, changeType: string, q: string)
    requires q != "" && '"' !in q
    requires Count("<file_diff path=", q) == 0 && Count(" change=", q) == 0 && Count(">", q) == 0
    ensures Count(AtQuotes(path, changeType), q) == Count(path, q) + Count(changeType, q)
  {
    hide Count;
    var last := changeType + ['"'] + ">";
    CountAcross("<file_diff path=", '"', path + ['"'] + (" change=" + ['"'] + last), q);
    CountAcross(path, '"', " change=" + ['"'] + last, q);
    CountAcross(" change=", '"', last, q);
    CountAcross(changeType, '"', ">", q);
  }

  lemma FileTagTurns(f: FileDiff, q: string)
    requires IsMarker(q) && Tame(f.path, q)
    ensures Turns([FileTag(f)], q) == Count(f.changeType, q)
  {
    hide Neutralised, Turns, FileTag, AtQuotes;
    OnePart(FileTag(f), q);
    FileTagOpens(f);
    MarkerOpensWithCapital(q, FileTag(f));
    NoFence(q);
    CountNoHead("<file_diff path=", q);
    CountNoHead(" change=", q);
    CountNoHead(">", q);
    hide Count;
    FileTagAtQuotes(f);
    CountAtQuotes(Neutralised(f.path), f.changeType, q);
  }

  lemma FileTagOpens(f: FileDiff)
    ensures FileTag(f) != "" && FileTag(f)[0] == '<'
  {
    hide Neutralised;
  }

  /** What a file adds. */
  function FileTurns(f: FileDiff, q: string): nat
    requires q != ""
  {
    if HasPatch(f) then TurnOf(f.patch.value, q) + Count(f.changeType, q) else 0
  }

  lemma CloserTurns(q: string)
    requires IsMarker(q)
    ensures Turns(["</file_diff>"], q) == 0
  {
    PlainLine("</file_diff>", q);
  }

  lemma PatchTurns(text: string, q: string)
    requires IsMarker(q) && Tame(text, q)
    ensures Turns([Neutralised(text)], q) == TurnOf(text, q)
  {
    hide Neutralised, Count, Turns;
    OnePart(Neutralised(text), q);
  }

  lemma ThreeTurns(a: string, b: string, c: string, q: string)
    requires q != ""
    ensures Turns([a, b, c], q) == Turns([a], q) + Turns([b], q) + Turns([c], q)
  {
    hide Turns;
    TurnsConcat([a], [b, c], q);
    TurnsConcat([b], [c], q);
    assert [a, b, c] == [a] + [b, c] && [b, c] == [b] + [c];
  }

  lemma FourTurns(a: string, b: string, c: string, d: string, q: string)
    requires q != ""
    ensures Turns([a, b, c, d], q) == Turns([a], q) + Turns([b], q) + Turns([c], q) + Turns([d], q)
  {
    hide Turns;
    TurnsConcat([a], [b, c, d], q);
    ThreeTurns(b, c, d, q);
    assert [a, b, c, d] == [a] + [b, c, d];
  }

  lemma PatchedFileTurns(f: FileDiff, q: string)
    requires IsMarker(q) && Tame(f.path, q) && HasPatch(f) && Tame(f.patch.value, q)
    ensures Turns(FileDiffLines(f), q) == TurnOf(f.patch.value, q) + Count(f.changeType, q)
  {
    TurnShape(q);
    hide Neutralised, Count, IsMarker, Turns, Tame, TurnOf, FileTag;
    CloserTurns(q);
    FileTagTurns(f, q);
    PatchTurns(f.patch.value, q);
    ThreeTurns(FileTag(f), Neutralised(f.patch.value), "</file_diff>", q);
  }

  lemma FileTurnsAre(f: FileDiff, q: string)
    requires IsMarker(q) && Tame(f.path, q) && (HasPatch(f) ==> Tame(f.patch.value, q))
    ensures Turns(FileDiffLines(f), q) == FileTurns(f, q)
  {
    hide IsMarker, Tame, TurnOf, FileTag, Count, Completes;
    if HasPatch(f) {
      PatchedFileTurns(f, q);
    }
  }

  function AllFileTurns(files: seq<FileDiff>, q: string): nat
    requires q != ""
  {
    if files == [] then 0 else FileTurns(files[0], q) + AllFileTurns(files[1..], q)
  }

  lemma {:induction false} DiffLinesTurns(files: seq<FileDiff>, q: string)
    requires IsMarker(q) && forall text :: Tame(text, q)
    ensures Turns(DiffLinesOf(files), q) == AllFileTurns(files, q)
  {
    TurnShape(q);
    hide FileTurns, FileDiffLines, IsMarker, Tame;
    if files != [] {
      FileTurnsAre(files[0], q);
      DiffLinesTurns(files[1..], q);
      TurnsConcat(FileDiffLines(files[0]), DiffLinesOf(files[1..]), q);
    }
  }

  lemma OuterTurns(q: string)
    requires IsMarker(q)
    ensures Turns(["<pull_request>"], q) == 0 && Turns(["</pull_request>"], q) == 0 && !(q[1..] <= "<pull_request>")
  {
    hide Turns;
    PlainLine("<pull_request>", q);
    PlainLine("</pull_request>", q);
    MarkerOpensWithCapital(q, "<pull_request>");
  }

  lemma InnerTurns(q: string)
    requires IsMarker(q)
    ensures Turns(["<diff>"], q) == 0 && Turns(["</diff>"], q) == 0
  {
    hide Turns;
    PlainLine("<diff>", q);
    PlainLine("</diff>", q);
  }

  lemma FixedTurns(q: string)
    requires IsMarker(q)
    ensures Turns(["<pull_request>"], q) == 0 && Turns(["<diff>"], q) == 0 && Turns(END, q) == 0
    ensures !(q[1..] <= "<pull_request>")
  {
    hide Turns;
    OuterTurns(q);
    InnerTurns(q);
    TurnShape(q);
    hide IsMarker;
    assert END == ["</diff>"] + ["</pull_request>"];
    TurnsConcat(["</diff>"], ["</pull_request>"], q);
  }

  lemma HeaderTurns(title: string, description: string, q: string)
    requires IsMarker(q) && forall text :: Tame(text, q)
    ensures Turns(DiffHeader(title, description), q) == TurnOf(Cut(description, 4000), q)
    ensures !(q[1..] <= DiffHeader(title, description)[0])
  {
    TurnShape(q);
    hide Neutralised, IsMarker, Tame, Cut, Turns, TitleLine, DescriptionLine, DiffHeader;
    TitleTurns(title, q);
    DescriptionTurns(Cut(description, 4000), q);
    var first, last := HeaderLines(title, description, q);
    FourTurns(first, TitleLine(title), DescriptionLine(Cut(description, 4000)), last, q);
  }

  lemma HeaderLines(title: string, description: string, q: string) returns (first: string, last: string)
    requires IsMarker(q)
    ensures DiffHeader(title, description) == [first, TitleLine(title), DescriptionLine(Cut(description, 4000)), last]
    ensures Turns([first], q) == 0 && Turns([last], q) == 0 && !(q[1..] <= first)
  {
    FixedTurns(q);
    hide Turns, TitleLine, DescriptionLine, IsMarker, Cut;
    first, last := "<pull_request>", "<diff>";
  }

  /** The number of times a conversation marker can be read in the diff block. */
  lemma DiffBlockTurns(title: string, description: string, files: seq<FileDiff>, contents: map<string, string>,
                       maxChars: int, q: string)
    requires IsMarker(q) && forall text :: Tame(text, q)
    ensures Count(ContextOf(title, description, files, contents, maxChars).diffBlock, q) ==
            TurnOf(Cut(description, 4000), q) + AllFileTurns(Sort(files, PathLeq), q)
  {
    TurnShape(q);
    hide Sort, Pack, DiffHeader, DiffLinesOf, Join, Count, IsMarker, Tame, Turns, Cut;
    HeaderTurns(title, description, q);
    FixedTurns(q);
    var sorted := Sort(files, PathLeq);
    var header, shown := DiffHeader(title, description), DiffLinesOf(sorted);
    DiffLinesTurns(sorted, q);
    TurnsConcat(header + shown, END, q);
    TurnsConcat(header, shown, q);
    assert (header + shown + END)[0] == header[0];
    CountTurnsOfJoin(header + shown + END, q);
  }

  lemma {:induction false} NoFileTurns(files: seq<FileDiff>, q: string)
    requires q != ""
    ensures AllFileTurns(files, q) == 0 <==> forall f :: f in files ==> FileTurns(f, q) == 0
  {
    hide FileTurns;
    if files != [] {
      NoFileTurns(files[1..], q);
      assert files == [files[0]] + files[1..];
    }
  }

  lemma NoTurnIff(title: string, description: string, files: seq<FileDiff>, contents: map<string, string>,
                  maxChars: int, i: nat)
    requires 5 <= i < |DELIMITER_PATTERNS|
    ensures var q := DELIMITER_PATTERNS[i];
      Count(ContextOf(title, description, files, contents, maxChars).diffBlock, q) == 0 <==>
        && !Completes(Cut(description, 4000), q)
        && forall f :: f in files && HasPatch(f) ==> !Completes(f.patch.value, q) && Count(f.changeType, q) == 0
  {
    var q := DELIMITER_PATTERNS[i];
    MarkerFacts(i);
    TurnShape(q);
    hide ContextOf, Count, Sort, Completes, Cut, PathLeq, Tame, IsMarker;
    forall text ensures Tame(text, q) {
      NeutralisedIsTame(i, text);
    }
    DiffBlockTurns(title, description, files, contents, maxChars, q);
    NoFileTurns(Sort(files, PathLeq), q);
    SameElements(Sort(files, PathLeq), files);
  }

  /** `marker` can be read nowhere in `text`. */
  ghost predicate Lacks(text: string, marker: string) {
    forall j: nat :: !OccursAt(text, marker, j)
  }

  lemma LacksMeansNoCount(text: string, marker: string)
    requires marker != ""
    ensures Lacks(text, marker) <==> Count(text, marker) == 0
  {
    CountZero(text, marker);
    ContainsMeaning(text, marker);
  }

  lemma CompletesMarker(text: string, start: string, q: string)
    requires q == "\n" + start && |start| <= 4000
    ensures Completes(Cut(text, 4000), q) <==> start <= text
    ensures Completes(text, q) <==> start <= text
  {
    assert q[1..] == start;
  }

  /**
   * Neutralising does not keep conversation markers out of the diff block, because lines are
   * joined on afterwards. It holds none exactly when neither the description nor any shown
   * patch begins with what follows the marker's newline, and no change type carries a marker.
   */
  lemma DiffBlockHasNoTurnIff(title: string, description: string, files: seq<FileDiff>, contents: map<string, string>,
                              maxChars: int)
    ensures var block := ContextOf(title, description, files, contents, maxChars).diffBlock;
      Lacks(block, "\nHuman:") <==>
        && !("Human:" <= description)
        && forall f :: f in files && f.patch.Some? && f.patch.value != "" ==>
             !("Human:" <= f.patch.value) && Lacks(f.changeType, "\nHuman:")
    ensures var block := ContextOf(title, description, files, contents, maxChars).diffBlock;
      Lacks(block, "\nAssistant:") <==>
        && !("Assistant:" <= description)
        && forall f :: f in files && f.patch.Some? && f.patch.value != "" ==>
             !("Assistant:" <= f.patch.value) && Lacks(f.changeType, "\nAssistant:")
  {
    hide ContextOf, Lacks;
    NoTurnSpelledIff(title, description, files, contents, maxChars, 5, "Human:", "\nHuman:");
    NoTurnSpelledIff(title, description, files, contents, maxChars, 6, "Assistant:", "\nAssistant:");
  }

  lemma NoTurnSpelledIff(title: string, description: string, files: seq<FileDiff>, contents: map<string, string>,
                         maxChars: int, i: nat, start: string, q: string)
    requires 5 <= i < |DELIMITER_PATTERNS| && q == DELIMITER_PATTERNS[i] == "\n" + start && |start| <= 4000
    ensures Lacks(ContextOf(title, description, files, contents, maxChars).diffBlock, q) <==>
        && !(start <= description)
        && forall f :: f in files && f.patch.Some? && f.patch.value != "" ==>
             !(start <= f.patch.value) && Lacks(f.changeType, q)
  {
    hide ContextOf, Lacks, Count, Completes, Cut;
    NoTurnIff(title, description, files, contents, maxChars, i);
    LacksMeansNoCount(ContextOf(title, description, files, contents, maxChars).diffBlock, q);
    CompletesMarker(description, start, q);
    forall f | f in files && HasPatch(f)
      ensures Completes(f.patch.value, q) <==> start <= f.patch.value
      ensures Lacks(f.changeType, q) <==> Count(f.changeType, q) == 0
    {
      CompletesMarker(f.patch.value, start, q);
      LacksMeansNoCount(f.changeType, q);
    }
  }

  /** The repository block holds no conversation marker, across its line joints either. */
  lemma RepositoryBlockHasNoTurn(title: string, description: string, files: seq<FileDiff>,
                                 contents: map<string, string>, maxChars: int)
    ensures var block := ContextOf(title, description, files, contents, maxChars).repositoryBlock;
      Lacks(block, "\nHuman:") && Lacks(block, "\nAssistant:")
  {
    hide ContextOf, Lacks, Count;
    var block := ContextOf(title, description, files, contents, maxChars).repositoryBlock;
    RepositoryBlockHasNone(title, description, files, contents, maxChars, 5);
    RepositoryBlockHasNone(title, description, files, contents, maxChars, 6);
    LacksMeansNoCount(block, "\nHuman:");
    LacksMeansNoCount(block, "\nAssistant:");
  }

  /* ---- tags ---- */

  /** What the five patterns that are tags have in common. */
  predicate IsPatternTag(q: string) {
    && IsTag(q) && (q[1] == '/' || q[1] == 'r' || q[1] == 's')
    && (q[1] == '/' ==> |q| > 6 && (q[2] == 'r' || (q[2] == 'f' && q[6] == '>')))
  }

  lemma PatternTags(i: nat)
    requires i < 5
    ensures IsPatternTag(DELIMITER_PATTERNS[i])
  {
    TagFacts();
    hide IsTag;
    assert DELIMITER_PATTERNS[i][1] != 'f';
  }

  /** A tag of the diff block: it opens like none of the patterns, and is the only tag in its text. */
  predicate IsOwnTag(s: string) {
    && |s| > 6 && s[0] == '<' && '<' !in s[1..] && s[1] != 'r' && s[1] != 's'
    && (s[1] == '/' ==> s[2] != 'r' && (s[2] == 'f' ==> s[6] != '>'))
  }

  lemma {:induction false} CountAfter(a: string, b: string, q: string)
    requires q != "" && q[0] !in a
    ensures Count(a + b, q) == Count(b, q)
  {
    if a == "" {
      assert a + b == b;
    } else {
      assert (a + b)[1..] == a[1..] + b;
      CountAfter(a[1..], b, q);
    }
  }

  /** A tag of the diff block adds no pattern to what follows it. */
  lemma CountAfterTag(s: string, rest: string, q: string)
    requires IsPatternTag(q) && IsOwnTag(s)
    ensures Count(s + rest, q) == Count(rest, q)
  {
    assert (s + rest)[1..] == s[1..] + rest;
    CountAfter(s[1..], rest, q);
    assert !(q <= s + rest) by {
      assert (s + rest)[1] == s[1] && (s + rest)[2] == s[2] && (s + rest)[6] == s[6];
    }
  }

  lemma OwnTagIsNoPattern(s: string, q: string)
    requires IsPatternTag(q) && IsOwnTag(s)
    ensures Count(s, q) == 0
  {
    CountAfterTag(s, "", q);
    assert s + "" == s;
  }

  lemma {:induction false} CountBeforeTag(text: string, s: string, q: string)
    requires IsPatternTag(q) && IsOwnTag(s)
    ensures Count(text + s, q) == Count(text, q)
  {
    if text == "" {
      assert text + s == s;
      OwnTagIsNoPattern(s, q);
    } else {
      assert (text + s)[1..] == text[1..] + s;
      CountBeforeTag(text[1..], s, q);
      assert q <= text + s <==> q <= text by {
        if |q| > |text| {
          assert (text + s)[|text|] == '<' && q[|text|] != '<';
        }
      }
    }
  }

  lemma OwnTags()
    ensures IsOwnTag("<pull_request>") && IsOwnTag("<title>") && IsOwnTag("</title>")
    ensures IsOwnTag("<description>") && IsOwnTag("</description>") && IsOwnTag("<file_diff path=")
  {
  }

  lemma MoreOwnTags()
    ensures IsOwnTag("</file_diff>") && IsOwnTag("</pull_request>") && IsOwnTag("</diff>")
  {
  }

  lemma DiffIsNoPattern(q: string)
    requires IsPatternTag(q)
    ensures Count("<diff>", q) == 0
  {
    assert "<diff>"[0] == '<' && "<diff>"[1] == 'd';
    CountHead("<diff>", q);
  }

  lemma TagHasNoSeparator(q: string)
    requires IsPatternTag(q)
    ensures q != "" && '\n' !in q && '"' !in q
  {
  }

  lemma TitleTags(title: string, q: string)
    requires IsPatternTag(q) && Count(Neutralised(title), q) == 0
    ensures Count(TitleLine(title), q) == 0
  {
    hide Neutralised, Count, IsPatternTag, IsOwnTag;
    OwnTags();
    CountBeforeTag("<title>" + Neutralised(title), "</title>", q);
    CountAfterTag("<title>", Neutralised(title), q);
  }

  lemma DescriptionTags(description: string, q: string)
    requires IsPatternTag(q) && Count(Neutralised(description), q) == 0
    ensures Count(DescriptionLine(description), q) == 0
  {
    hide Neutralised, Count, IsPatternTag, IsOwnTag;
    OwnTags();
    TagHasNoSeparator(q);
    var t := Neutralised(description);
    OwnTagIsNoPattern("<description>", q);
    OwnTagIsNoPattern("</description>", q);
    assert DescriptionLine(description) == "<description>" + ['\n'] + (t + ['\n'] + "</description>");
    CountAcross("<description>", '\n', t + ['\n'] + "</description>", q);
    CountAcross(t, '\n', "</description>", q);
  }

  lemma FixedTextHasNoPattern(q: string)
    requires IsPatternTag(q)
    ensures Count("<file_diff path=", q) == 0 && Count(" change=", q) == 0 && Count(">", q) == 0
  {
    OwnTags();
    OwnTagIsNoPattern("<file_diff path=", q);
    CountNoHead(" change=", q);
    CountNoHead(">", q);
  }

  lemma FileTagTags(f: FileDiff, q: string)
    requires IsPatternTag(q) && Count(Neutralised(f.path), q) == 0
    ensures Count(FileTag(f), q) == Count(f.changeType, q)
  {
    hide Neutralised, Count, IsPatternTag, FileTag, AtQuotes;
    TagHasNoSeparator(q);
    FixedTextHasNoPattern(q);
    FileTagAtQuotes(f);
    CountAtQuotes(Neutralised(f.path), f.changeType, q);
  }

  /** The patterns in the change types of the files shown, which are the ones not neutralised. */
  function TypeTags(files: seq<FileDiff>, q: string): nat {
    if files == [] then 0
    else (if HasPatch(files[0]) then Count(files[0].changeType, q) else 0) + TypeTags(files[1..], q)
  }

  lemma TwoCounts(a: string, b: string, q: string)
    ensures Counts([a, b], q) == Count(a, q) + Count(b, q)
  {
    hide Count;
    CountsConcat([a], [b], q);
    assert [a, b] == [a] + [b] && [a][1..] == [] && [b][1..] == [];
  }

  lemma ThreeCounts(a: string, b: string, c: string, q: string)
    ensures Counts([a, b, c], q) == Count(a, q) + Count(b, q) + Count(c, q)
  {
    hide Count;
    CountsConcat([a], [b, c], q);
    TwoCounts(b, c, q);
    assert [a, b, c] == [a] + [b, c] && [a][1..] == [];
  }

  lemma FourCounts(a: string, b: string, c: string, d: string, q: string)
    ensures Counts([a, b, c, d], q) == Count(a, q) + Count(b, q) + Count(c, q) + Count(d, q)
  {
    hide Count;
    CountsConcat([a], [b, c, d], q);
    ThreeCounts(b, c, d, q);
    assert [a, b, c, d] == [a] + [b, c, d] && [a][1..] == [];
  }

  lemma FileTags(f: FileDiff, q: string)
    requires IsPatternTag(q) && forall text :: Count(Neutralised(text), q) == 0
    ensures Counts(FileDiffLines(f), q) == if HasPatch(f) then Count(f.changeType, q) else 0
  {
    hide Neutralised, Count, IsPatternTag, IsOwnTag, FileTag;
    if HasPatch(f) {
      assert Count(Neutralised(f.path), q) == 0 && Count(Neutralised(f.patch.value), q) == 0;
      FileTagTags(f, q);
      MoreOwnTags();
      OwnTagIsNoPattern("</file_diff>", q);
      ThreeCounts(FileTag(f), Neutralised(f.patch.value), "</file_diff>", q);
    }
  }

  lemma {:induction false} DiffLinesTags(files: seq<FileDiff>, q: string)
    requires IsPatternTag(q) && forall text :: Count(Neutralised(text), q) == 0
    ensures Counts(DiffLinesOf(files), q) == TypeTags(files, q)
  {
    hide Neutralised, Count, IsPatternTag, FileDiffLines, HasPatch;
    if files != [] {
      FileTags(files[0], q);
      DiffLinesTags(files[1..], q);
      CountsConcat(FileDiffLines(files[0]), DiffLinesOf(files[1..]), q);
    }
  }

  lemma HeaderTags(title: string, description: string, q: string)
    requires IsPatternTag(q) && forall text :: Count(Neutralised(text), q) == 0
    ensures Counts(DiffHeader(title, description), q) == 0 && Counts(END, q) == 0
  {
    hide Neutralised, Count, IsPatternTag, IsOwnTag, Cut, Counts;
    assert Count(Neutralised(title), q) == 0 && Count(Neutralised(Cut(description, 4000)), q) == 0;
    OwnTags();
    MoreOwnTags();
    OwnTagIsNoPattern("<pull_request>", q);
    OwnTagIsNoPattern("</pull_request>", q);
    OwnTagIsNoPattern("</diff>", q);
    DiffIsNoPattern(q);
    TitleTags(title, q);
    DescriptionTags(Cut(description, 4000), q);
    hide TitleLine, DescriptionLine;
    FourCounts("<pull_request>", TitleLine(title), DescriptionLine(Cut(description, 4000)), "<diff>", q);
    TwoCounts("</diff>", "</pull_request>", q);
  }

  /**
   * Of the five tags that neutralising removes, the diff block holds as many as the change
   * types of the files shown, which the source inserts as they come.
   */
  lemma DiffBlockTags(title: string, description: string, files: seq<FileDiff>, contents: map<string, string>,
                      maxChars: int, i: nat)
    requires i < 5
    ensures var q := DELIMITER_PATTERNS[i];
      Count(ContextOf(title, description, files, contents, maxChars).diffBlock, q) == TypeTags(Sort(files, PathLeq), q)
  {
    var q := DELIMITER_PATTERNS[i];
    PatternTags(i);
    TagHasNoSeparator(q);
    hide Sort, Pack, DiffHeader, DiffLinesOf, Join, Count, Neutralised, IsPatternTag;
    forall text ensures Count(Neutralised(text), q) == 0 {
      NeutralisedHasNone(i, text);
    }
    HeaderTags(title, description, q);
    var sorted := Sort(files, PathLeq);
    var header, shown := DiffHeader(title, description), DiffLinesOf(sorted);
    DiffLinesTags(sorted, q);
    CountsConcat(header + shown, END, q);
    CountsConcat(header, shown, q);
    CountJoin(header + shown + END, q);
  }
}
