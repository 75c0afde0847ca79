/** Budget accounting, framing, canonical rendering and citation stability of the assembled context. */
module ContextProperties {
  import opened Text
  import opened StableSort
  import opened ChangedFiles
  import opened Escaping
  import opened Numbering
  import opened Context
  import Decoding

  /* ---- budget ---- */

  function Paths(files: seq<FileDiff>): seq<string> {
    if files == [] then [] else [files[0].path] + Paths(files[1..])
  }

  function Size(parts: seq<string>): nat {
    if parts == [] then 0 else |parts[0]| + Size(parts[1..])
  }

  function IsEligible(contents: map<string, string>): FileDiff -> bool {
    f => Eligible(f, contents)
  }

  /** `path` was shown, or what it renders to is longer than what is left of the budget. */
  ghost predicate ShownOrTooLong(f: FileDiff, contents: map<string, string>, p: Packing) {
    f.path in p.included || |Rendering(f, contents)| > p.left
  }

  /** One step of `Pack`. */
  lemma PackHead(sorted: seq<FileDiff>, contents: map<string, string>, budget: int) returns (fits: bool)
    requires sorted != []
    ensures var f := sorted[0];
      var size := |Rendering(f, contents)|;
      && (fits <==> Eligible(f, contents) && size <= budget)
      && var (p, rest) := (Pack(sorted, contents, budget),
                           Pack(sorted[1..], contents, if fits then budget - size else budget));
         if fits then rest.(parts := [Rendering(f, contents)] + rest.parts, included := [f.path] + rest.included) == p
         else
           && rest.(skipped := [f.path] + rest.skipped, truncated := p.truncated) == p
           && p.truncated == (Eligible(f, contents) || rest.truncated)
  {
    hide Eligible, Rendering;
    fits := Eligible(sorted[0], contents) && |Rendering(sorted[0], contents)| <= budget;
  }

  lemma {:induction false} PackAccounts(sorted: seq<FileDiff>, contents: map<string, string>, budget: int)
    ensures var p := Pack(sorted, contents, budget);
      && |p.parts| == |p.included|
      && Size(p.parts) + p.left == budget && p.left <= budget
      && (budget >= 0 ==> p.left >= 0)
      && |p.included| <= |Filter(sorted, IsEligible(contents))|
      && (p.truncated <==> |p.included| < |Filter(sorted, IsEligible(contents))|)
  {
    hide Eligible, Rendering, Filter;
    if sorted == [] {
      FilterNone(IsEligible(contents));
    } else {
      var f := sorted[0];
      FilterHead(sorted, IsEligible(contents));
      var fits := PackHead(sorted, contents, budget);
      hide Pack;
      PackAccounts(sorted[1..], contents, if fits then budget - |Rendering(f, contents)| else budget);
    }
  }

  lemma {:induction false} PackSharesOut(sorted: seq<FileDiff>, contents: map<string, string>, budget: int)
    ensures var p := Pack(sorted, contents, budget);
      multiset(p.included) + multiset(p.skipped) == multiset(Paths(sorted))
  {
    hide Eligible, Rendering;
    if sorted != [] {
      var f := sorted[0];
      var fits := PackHead(sorted, contents, budget);
      hide Pack;
      var left := if fits then budget - |Rendering(f, contents)| else budget;
      PackSharesOut(sorted[1..], contents, left);
      assert Paths(sorted) == [f.path] + Paths(sorted[1..]);
      hide Paths;
      ShareOne(f.path, Pack(sorted[1..], contents, left).included, Pack(sorted[1..], contents, left).skipped);
    }
  }

  lemma ShareOne(path: string, included: seq<string>, skipped: seq<string>)
    ensures multiset([path] + included) + multiset(skipped) == multiset{path} + (multiset(included) + multiset(skipped))
    ensures multiset(included) + multiset([path] + skipped) == multiset{path} + (multiset(included) + multiset(skipped))
  {
  }

  lemma FilterNone(keep: FileDiff -> bool)
    ensures Filter([], keep) == []
  {
  }

  lemma {:induction false} PackShows(sorted: seq<FileDiff>, contents: map<string, string>, budget: int)
    ensures var p := Pack(sorted, contents, budget);
      && (forall i :: 0 <= i < |p.parts| && i < |p.included| ==>
            p.included[i] in contents && p.parts[i] == RenderFile(p.included[i], contents[p.included[i]]))
      && (forall f :: f in sorted && Eligible(f, contents) ==> ShownOrTooLong(f, contents, p))
  {
    hide RenderFile, LooksGenerated, Filter, Size;
    if sorted != [] {
      var f := sorted[0];
      var fits := PackHead(sorted, contents, budget);
      var left := if fits then budget - |Rendering(f, contents)| else budget;
      PackAccounts(sorted[1..], contents, left);
      PackShows(sorted[1..], contents, left);
      hide Pack;
      assert sorted == [f] + sorted[1..];
    }
  }

  lemma {:induction false} JoinSize(parts: seq<string>)
    requires parts != []
    ensures |Join(parts)| == Size(parts) + |parts| - 1
  {
    if |parts| > 1 {
      JoinSize(parts[1..]);
    }
  }

  lemma {:induction false} SizeConcat(a: seq<string>, b: seq<string>)
    ensures Size(a + b) == Size(a) + Size(b)
  {
    if a == [] {
      assert a + b == b;
    } else {
      assert (a + b)[1..] == a[1..] + b;
      SizeConcat(a[1..], b);
    }
  }

  /**
   * Budget accounting: included and skipped paths are the files' paths; the repository
   * block is the renderings of the included ones in order, the fixed framing and one
   * separator between parts; the renderings stay within a non-negative budget.
   */
  lemma BudgetIsAccounted(title: string, description: string, files: seq<FileDiff>, contents: map<string, string>,
                          maxChars: int)
    ensures var b := ContextOf(title, description, files, contents, maxChars);
      var p := Pack(Sort(files, PathLeq), contents, maxChars);
      && multiset(b.includedPaths) + multiset(b.skippedPaths) == multiset(Paths(Sort(files, PathLeq)))
      && |p.parts| == |b.includedPaths|
      && (forall i :: 0 <= i < |b.includedPaths| ==>
            && b.includedPaths[i] in contents
            && p.parts[i] == RenderFile(b.includedPaths[i], contents[b.includedPaths[i]]))
      && |b.repositoryBlock| == |OPEN| + |CLOSE| + Size(p.parts) + |b.includedPaths| + 1
      && Size(p.parts) == maxChars - p.left && (maxChars >= 0 ==> Size(p.parts) <= maxChars)
  {
    hide Sort, RenderFile, Eligible, Pack, ShownOrTooLong, Filter, Join, Size, DiffHeader, DiffLinesOf;
    var sorted := Sort(files, PathLeq);
    PackAccounts(sorted, contents, maxChars);
    PackSharesOut(sorted, contents, maxChars);
    PackShows(sorted, contents, maxChars);
    BlockSize(Pack(sorted, contents, maxChars).parts);
  }

  /**
   * The block is marked truncated exactly when fewer files are shown than are eligible,
   * and an eligible file that is not shown does not fit in what is left of the budget.
   */
  lemma TruncationIsExact(title: string, description: string, files: seq<FileDiff>, contents: map<string, string>,
                          maxChars: int)
    ensures var b := ContextOf(title, description, files, contents, maxChars);
      && |b.includedPaths| <= |Filter(files, IsEligible(contents))|
      && (b.truncated <==> |b.includedPaths| < |Filter(files, IsEligible(contents))|)
      && (forall f :: f in files && Eligible(f, contents) ==>
            ShownOrTooLong(f, contents, Pack(Sort(files, PathLeq), contents, maxChars)))
  {
    hide Sort, RenderFile, Eligible, Pack, ShownOrTooLong, Filter, Join, Size, DiffHeader, DiffLinesOf;
    var sorted := Sort(files, PathLeq);
    PackAccounts(sorted, contents, maxChars);
    PackShows(sorted, contents, maxChars);
    SameElements(sorted, files);
    SortKeepsFilterSize(files, IsEligible(contents));
  }

  lemma BlockSize(parts: seq<string>)
    ensures |Join([OPEN] + parts + [CLOSE])| == |OPEN| + |CLOSE| + Size(parts) + |parts| + 1
  {
    JoinSize([OPEN] + parts + [CLOSE]);
    SizeConcat([OPEN] + parts, [CLOSE]);
    SizeConcat([OPEN], parts);
  }

  lemma {:induction false} InsertKeepsFilterSize(f: FileDiff, s: seq<FileDiff>, keep: FileDiff -> bool)
    ensures |Filter(Insert(f, s, PathLeq), keep)| == |Filter(s, keep)| + if keep(f) then 1 else 0
  {
    hide PathLeq, Filter;
    FilterHead([f] + s, keep);
    assert ([f] + s)[1..] == s;
    if s == [] {
      assert Insert(f, s, PathLeq) == [f] + s;
    } else if PathLeq(f, s[0]) {
    } else {
      InsertKeepsFilterSize(f, s[1..], keep);
      FilterHead(s, keep);
      FilterHead(Insert(f, s, PathLeq), keep);
      assert Insert(f, s, PathLeq)[1..] == Insert(f, s[1..], PathLeq);
    }
  }

  lemma {:induction false} SortKeepsFilterSize(s: seq<FileDiff>, keep: FileDiff -> bool)
    ensures |Filter(Sort(s, PathLeq), keep)| == |Filter(s, keep)|
  {
    if s != [] {
      hide PathLeq, Insert, Filter;
      SortKeepsFilterSize(s[1..], keep);
      InsertKeepsFilterSize(s[0], Sort(s[1..], PathLeq), keep);
      FilterHead(s, keep);
    }
  }

  /* ---- canonical rendering ---- */

  lemma PathOrderIsAPreorder(dom: set<FileDiff>)
    ensures PreorderOn(dom, PathLeq)
  {
    forall a: FileDiff, b: FileDiff ensures PathLeq(a, b) || PathLeq(b, a) {
      LexTotal(a.path, b.path);
    }
    forall a: FileDiff, b: FileDiff, c: FileDiff | PathLeq(a, b) && PathLeq(b, c) ensures PathLeq(a, c) {
      LexTransitive(a.path, b.path, c.path);
    }
  }

  lemma DistinctPathsDoNotTie(files: seq<FileDiff>)
    requires DistinctPaths(files)
    ensures AntisymmetricOn(Elements(files), PathLeq)
  {
    forall a, b | a in Elements(files) && b in Elements(files) && PathLeq(a, b) && PathLeq(b, a) ensures a == b {
      LexAntisymmetric(a.path, b.path);
      var i :| 0 <= i < |files| && files[i] == a;
      var j :| 0 <= j < |files| && files[j] == b;
    }
  }

  /** The two maps give the same content, or none, to every one of the files. */
  predicate AgreeOn(files: seq<FileDiff>, c1: map<string, string>, c2: map<string, string>) {
    forall f :: f in files ==> (f.path in c1 <==> f.path in c2) && (f.path in c1 ==> c1[f.path] == c2[f.path])
  }

  lemma {:induction false} PackLooksOnlyAtFiles(sorted: seq<FileDiff>, c1: map<string, string>, c2: map<string, string>,
                                                budget: int)
    requires AgreeOn(sorted, c1, c2)
    ensures Pack(sorted, c1, budget) == Pack(sorted, c2, budget)
  {
    hide RenderFile, LooksGenerated;
    if sorted != [] {
      var f := sorted[0];
      assert f in sorted;
      PackLooksOnlyAtFiles(sorted[1..], c1, c2, budget);
      PackLooksOnlyAtFiles(sorted[1..], c1, c2, budget - |Rendering(f, c1)|);
    }
  }

  /**
   * Rendering is canonical: with distinct paths, any order of the files and any contents
   * that agree on their paths give the same blocks, the same lists and the same flag.
   */
  lemma RenderingIsCanonical(title: string, description: string, files: seq<FileDiff>, shuffled: seq<FileDiff>,
                             c1: map<string, string>, c2: map<string, string>, maxChars: int)
    requires DistinctPaths(files) && multiset(files) == multiset(shuffled) && AgreeOn(files, c1, c2)
    ensures ContextOf(title, description, files, c1, maxChars) == ContextOf(title, description, shuffled, c2, maxChars)
  {
    PathOrderIsAPreorder(Elements(files));
    DistinctPathsDoNotTie(files);
    SortForgetsOrder(files, shuffled, PathLeq, Elements(files));
    var sorted := Sort(files, PathLeq);
    SameElements(sorted, files);
    PackLooksOnlyAtFiles(sorted, c1, c2, maxChars);
  }

  /* ---- framing ---- */

  /** A tag: `<`, then none of the characters that separate the pieces of the block. */
  predicate IsTag(q: string) {
    && |q| >= 2 && q[0] == '<' && q[1] != 'f' && '\n' !in q && '"' !in q && '|' !in q
    && forall i :: 1 <= i < |q| ==> q[i] != '<'
  }

  lemma {:induction false} CountNoHead(s: string, q: string)
    requires q != "" && q[0] !in s
    ensures Count(s, q) == 0
  {
    if s != "" {
      CountNoHead(s[1..], q);
    }
  }

  lemma CountHead(s: string, q: string)
    requires q != "" && s != "" && q[0] !in s[1..]
    ensures Count(s, q) == if q <= s then 1 else 0
  {
    CountNoHead(s[1..], q);
  }

  function Counts(parts: seq<string>, q: string): nat {
    if parts == [] then 0 else Count(parts[0], q) + Counts(parts[1..], q)
  }

  lemma {:induction false} CountJoin(parts: seq<string>, q: string)
    requires q != "" && '\n' !in q
    ensures Count(Join(parts), q) == Counts(parts, q)
  {
    if |parts| > 1 {
      CountAcross(parts[0], '\n', Join(parts[1..]), q);
      CountJoin(parts[1..], q);
    }
  }

  lemma {:induction false} CountsConcat(a: seq<string>, b: seq<string>, q: string)
    ensures Counts(a + b, q) == Counts(a, q) + Counts(b, q)
  {
    if a == [] {
      assert a + b == b;
    } else {
      assert (a + b)[1..] == a[1..] + b;
      CountsConcat(a[1..], b, q);
    }
  }

  /** Numbering a line adds no tag. */
  lemma CountNumberedLine(i: int, width: nat, line: string, q: string)
    requires IsTag(q)
    ensures Count(RightAligned(i, width) + (" | " + line), q) == Count(line, q)
  {
    var prefix := RightAligned(i, width);
    assert prefix + (" | " + line) == (prefix + " ") + ['|'] + (" " + line);
    CountAcross(prefix + " ", '|', " " + line, q);
    NumberHasNoTag(i, width);
    CountNoHead(prefix + " ", q);
    assert (" " + line)[1..] == line;
  }

  lemma NumberHasNoTag(i: int, width: nat)
    ensures '<' !in RightAligned(i, width)
  {
  }

  lemma {:induction false} CountsNumbered(numbered: seq<string>, lines: seq<string>, start: int, width: nat, q: string)
    requires IsTag(q) && |numbered| == |lines|
    requires forall i :: 0 <= i < |lines| ==> numbered[i] == RightAligned(start + i, width) + (" | " + lines[i])
    ensures Counts(numbered, q) == Counts(lines, q)
    decreases lines
  {
    hide RightAligned, Count, IsTag;
    if lines != [] {
      CountNumberedLine(start, width, lines[0], q);
      forall i | 0 <= i < |lines[1..]|
        ensures numbered[1..][i] == RightAligned(start + 1 + i, width) + (" | " + lines[1..][i])
      {
        assert numbered[i + 1] == RightAligned(start + (i + 1), width) + (" | " + lines[i + 1]);
      }
      CountsNumbered(numbered[1..], lines[1..], start + 1, width, q);
    }
  }

  /** Numbered, neutralised content holds no pattern tag. */
  lemma CountRendered(content: string, q: string)
    requires IsTag(q)
    ensures Count(RenderNumbered(content, 1), q) == Count(content, q)
  {
    hide Count, RightAligned, IsTag, Width;
    var lines := Split(content);
    var width := Width(|lines|, 1);
    var numbered := NumberLines(lines, 1, width);
    CountsNumbered(numbered, lines, 1, width, q);
    TagsAreOneLine(q);
    CountJoin(numbered, q);
    CountJoin(lines, q);
    JoinSplit(content);
  }

  lemma TagsAreOneLine(q: string)
    requires IsTag(q)
    ensures q != "" && '\n' !in q && '"' !in q
  {
  }

  /** Of a tag that neutralising removes, a rendered file has only the one its closing line is. */
  lemma CountFile(path: string, content: string, q: string)
    requires IsTag(q) && Count(Neutralised(path), q) == 0 && Count(Neutralised(content), q) == 0
    ensures Count(RenderFile(path, content), q) == if q <= "</file>" then 1 else 0
  {
    hide Neutralised, RenderNumbered;
    var numbered := RenderNumbered(Neutralised(content), 1);
    var tail := numbered + "\n" + "</file>";
    var body := ">" + "\n" + tail;
    var rest := Neutralised(path) + "\"" + body;
    CountLiterals(q);
    CountRendered(Neutralised(content), q);
    hide Count, IsTag;
    TagsAreOneLine(q);
    CountAcross("<file path=", '"', rest, q);
    CountAcross(Neutralised(path), '"', body, q);
    CountAcross(">", '\n', tail, q);
    CountAcross(numbered, '\n', "</file>", q);
  }

  lemma CountLiterals(q: string)
    requires IsTag(q)
    ensures Count("<file path=", q) == 0 && Count(">", q) == 0
    ensures Count("</file>", q) == if q <= "</file>" then 1 else 0
  {
    CountHead("<file path=", q);
    CountNoHead(">", q);
    CountHead("</file>", q);
  }

  lemma CountOpen(q: string)
    requires IsTag(q)
    ensures Count(OPEN, q) == if q <= OPEN then 1 else 0
  {
    CountHead(OPEN, q);
  }

  lemma CountClose(q: string)
    requires IsTag(q)
    ensures Count(CLOSE, q) == if q <= CLOSE then 1 else 0
  {
    CountHead(CLOSE, q);
  }

  lemma {:induction false} CountFiles(parts: seq<string>, paths: seq<string>, contents: map<string, string>, q: string)
    requires IsTag(q) && |parts| == |paths|
    requires forall text :: Count(Neutralised(text), q) == 0
    requires forall i :: 0 <= i < |parts| ==>
               paths[i] in contents && parts[i] == RenderFile(paths[i], contents[paths[i]])
    ensures Counts(parts, q) == if q <= "</file>" then |parts| else 0
    decreases parts
  {
    hide Count, RenderFile, IsTag, Neutralised;
    if parts != [] {
      assert Count(Neutralised(paths[0]), q) == 0 && Count(Neutralised(contents[paths[0]]), q) == 0;
      CountFile(paths[0], contents[paths[0]], q);
      CountFiles(parts[1..], paths[1..], contents, q);
    }
  }

  lemma CountBlock(title: string, description: string, files: seq<FileDiff>, contents: map<string, string>,
                   maxChars: int, q: string)
    requires IsTag(q) && forall text :: Count(Neutralised(text), q) == 0
    ensures var b := ContextOf(title, description, files, contents, maxChars);
      Count(b.repositoryBlock, q) ==
        (if q <= OPEN then 1 else 0) + (if q <= "</file>" then |b.includedPaths| else 0) + (if q <= CLOSE then 1 else 0)
  {
    hide IsTag, Sort, RenderFile, LooksGenerated, Pack, Count, Neutralised, DiffHeader, DiffLinesOf, Join,
         ShownOrTooLong;
    var sorted := Sort(files, PathLeq);
    var p := Pack(sorted, contents, maxChars);
    PackAccounts(sorted, contents, maxChars);
    PackShows(sorted, contents, maxChars);
    CountFiles(p.parts, p.included, contents, q);
    CountOpen(q);
    CountClose(q);
    TagsAreOneLine(q);
    CountJoin([OPEN] + p.parts + [CLOSE], q);
    CountsConcat([OPEN] + p.parts, [CLOSE], q);
    CountsConcat([OPEN], p.parts, q);
  }

  lemma NeutralisedHasNone(i: nat, text: string)
    requires i < |DELIMITER_PATTERNS|
    ensures Count(Neutralised(text), DELIMITER_PATTERNS[i]) == 0
  {
    hide Neutralised, Contains;
    NeutralisedIsClean(text);
    PatternsHaveShape(i);
    CountZero(Neutralised(text), DELIMITER_PATTERNS[i]);
  }

  /**
   * Framing of the repository block, for all paths and contents: it opens and closes with
   * its own tags, each of which occurs in it once, `</file>` occurs once per included
   * file, and the two system tags never.
   */
  lemma RepositoryBlockIsFramed(title: string, description: string, files: seq<FileDiff>, contents: map<string, string>,
                                maxChars: int)
    ensures var b := ContextOf(title, description, files, contents, maxChars);
      && OPEN <= b.repositoryBlock && EndsWith(b.repositoryBlock, CLOSE)
      && Count(b.repositoryBlock, "</repository_content>") == 1
      && Count(b.repositoryBlock, "<repository_content") == 1
      && Count(b.repositoryBlock, "</file>") == |b.includedPaths|
      && Count(b.repositoryBlock, "<system>") == 0
      && Count(b.repositoryBlock, "<system-reminder>") == 0
  {
    hide ContextOf, Count;
    BlockEnds(title, description, files, contents, maxChars);
    PrefixFacts();
    CountPattern(title, description, files, contents, maxChars, 0);
    CountPattern(title, description, files, contents, maxChars, 1);
    CountPattern(title, description, files, contents, maxChars, 2);
    CountPattern(title, description, files, contents, maxChars, 3);
    CountPattern(title, description, files, contents, maxChars, 4);
  }

  lemma CountPattern(title: string, description: string, files: seq<FileDiff>, contents: map<string, string>,
                     maxChars: int, i: nat)
    requires i < 5
    ensures var b := ContextOf(title, description, files, contents, maxChars);
      var q := DELIMITER_PATTERNS[i];
      Count(b.repositoryBlock, q) ==
        (if q <= OPEN then 1 else 0) + (if q <= "</file>" then |b.includedPaths| else 0) + (if q <= CLOSE then 1 else 0)
  {
    hide ContextOf, Count, Neutralised, IsTag;
    TagFacts();
    forall text ensures Count(Neutralised(text), DELIMITER_PATTERNS[i]) == 0 {
      NeutralisedHasNone(i, text);
    }
    CountBlock(title, description, files, contents, maxChars, DELIMITER_PATTERNS[i]);
  }

  /** Which tags the fixed strings start with. */
  lemma PrefixFacts()
    ensures !("</repository_content>" <= OPEN) && !("</repository_content>" <= "</file>")
    ensures "<repository_content" <= OPEN && !("<repository_content" <= "</file>") && !("<repository_content" <= CLOSE)
    ensures !("</file>" <= OPEN) && !("</file>" <= CLOSE)
    ensures !("<system>" <= OPEN) && !("<system>" <= "</file>") && !("<system>" <= CLOSE)
    ensures !("<system-reminder>" <= OPEN) && !("<system-reminder>" <= "</file>") && !("<system-reminder>" <= CLOSE)
  {
    assert OPEN[1] == 'r' && CLOSE[1] == '/' && CLOSE[2] == 'r' && "</file>"[1] == '/' && "</file>"[2] == 'f';
    assert "</repository_content>"[1] == '/' && "</repository_content>"[2] == 'r' && "<repository_content"[1] == 'r';
    assert "<system>"[1] == 's' && "<system-reminder>"[1] == 's';
  }

  lemma TagFacts()
    ensures forall i :: 0 <= i < 5 ==> IsTag(DELIMITER_PATTERNS[i])
  {
    LongTags();
    ShortTags();
    hide IsTag;
  }

  lemma LongTags()
    ensures forall i :: 0 <= i < 2 ==> IsTag(DELIMITER_PATTERNS[i])
  {
  }

  lemma ShortTags()
    ensures forall i :: 2 <= i < 5 ==> IsTag(DELIMITER_PATTERNS[i])
  {
  }

  lemma BlockEnds(title: string, description: string, files: seq<FileDiff>, contents: map<string, string>,
                  maxChars: int)
    ensures var b := ContextOf(title, description, files, contents, maxChars);
      OPEN <= b.repositoryBlock && EndsWith(b.repositoryBlock, CLOSE)
  {
    hide Sort, Pack, DiffHeader, DiffLinesOf;
    var parts := Pack(Sort(files, PathLeq), contents, maxChars).parts;
    JoinSnoc([OPEN] + parts, CLOSE);
    var front := Join([OPEN] + parts) + "\n";
    assert (front + CLOSE)[|front|..] == CLOSE;
    assert ([OPEN] + parts + [CLOSE])[0] == OPEN;
  }

  /* ---- conversation markers ---- */

  /** A newline and a capital: `\nHuman:`, `\nAssistant:`. */
  predicate IsTurn(q: string) {
    |q| >= 2 && q[0] == '\n' && 'A' <= q[1] <= 'Z' && '"' !in q && forall i :: 1 <= i < |q| ==> q[i] != '\n'
  }

  predicate StartsTurn(s: string) {
    s != "" && 'A' <= s[0] <= 'Z'
  }

  lemma PrefixAcrossNewline(a: string, b: string, q: string)
    requires IsTurn(q) && !StartsTurn(b)
    ensures q <= a + ['\n'] + b <==> q <= a
  {
    var s := a + ['\n'] + b;
    if |q| > |a| {
      assert s[|a|] == '\n';
      assert a == "" && |s| >= 2 ==> s[1] == b[0];
    }
  }

  lemma {:induction false} CountAcrossNewline(a: string, b: string, q: string)
    requires IsTurn(q) && !StartsTurn(b)
    ensures Count(a + ['\n'] + b, q) == Count(a, q) + Count(b, q)
  {
    hide IsTurn, StartsTurn;
    PrefixAcrossNewline(a, b, q);
    var s := a + ['\n'] + b;
    if a == "" {
      assert s[1..] == b;
      TurnIsNotEmpty(q);
    } else {
      assert s[1..] == a[1..] + ['\n'] + b;
      CountAcrossNewline(a[1..], b, q);
    }
  }

  lemma TurnIsNotEmpty(q: string)
    requires IsTurn(q)
    ensures q != "" && '"' !in q && q[0] == '\n'
  {
  }

  lemma {:induction false} CountTurns(parts: seq<string>, q: string)
    requires IsTurn(q) && forall i :: 0 <= i < |parts| ==> !StartsTurn(parts[i]) && Count(parts[i], q) == 0
    ensures Count(Join(parts), q) == 0 && !StartsTurn(Join(parts))
  {
    hide IsTurn, Count;
    if parts == [] {
      TurnIsNotEmpty(q);
      CountNoHead("", q);
    } else if |parts| > 1 {
      CountTurns(parts[1..], q);
      CountAcrossNewline(parts[0], Join(parts[1..]), q);
    }
  }

  lemma NumberedLineStartsNoTurn(i: int, width: nat, line: string, q: string)
    requires IsTurn(q) && OneLine(line)
    ensures !StartsTurn(RightAligned(i, width) + (" | " + line))
            && Count(RightAligned(i, width) + (" | " + line), q) == 0
  {
    var s := RightAligned(i, width) + (" | " + line);
    RightAlignedShape(i, width);
    assert RightAligned(i, width) != "" ==> s[0] == RightAligned(i, width)[0];
    CountNoHead(s, q);
  }

  lemma RenderedHasNoTurn(content: string, q: string)
    requires IsTurn(q)
    ensures !StartsTurn(RenderNumbered(content, 1)) && Count(RenderNumbered(content, 1), q) == 0
  {
    hide IsTurn, StartsTurn, Count, RightAligned, Width;
    var lines := Split(content);
    var width := Width(|lines|, 1);
    JoinSplit(content);
    forall i | 0 <= i < |lines|
      ensures !StartsTurn(NumberLines(lines, 1, width)[i]) && Count(NumberLines(lines, 1, width)[i], q) == 0
    {
      NumberedLineStartsNoTurn(1 + i, width, lines[i], q);
    }
    CountTurns(NumberLines(lines, 1, width), q);
  }

  lemma FileHasNoTurn(path: string, content: string, q: string)
    requires IsTurn(q) && Count(Neutralised(path), q) == 0
    ensures Count(RenderFile(path, content), q) == 0 && !StartsTurn(RenderFile(path, content))
  {
    hide Neutralised, RenderNumbered;
    var numbered := RenderNumbered(Neutralised(content), 1);
    var tail := numbered + "\n" + "</file>";
    var body := ">" + "\n" + tail;
    RenderedHasNoTurn(Neutralised(content), q);
    TurnIsNotEmpty(q);
    CountNoHead("<file path=", q);
    CountNoHead(">", q);
    CountNoHead("</file>", q);
    assert numbered != "" ==> tail[0] == numbered[0];
    hide IsTurn, Count;
    CountAcross("<file path=", '"', Neutralised(path) + "\"" + body, q);
    CountAcross(Neutralised(path), '"', body, q);
    CountAcrossNewline(">", tail, q);
    CountAcrossNewline(numbered, "</file>", q);
  }

  lemma FramingHasNoTurn(q: string)
    requires IsTurn(q)
    ensures !StartsTurn(OPEN) && !StartsTurn(CLOSE) && Count(OPEN, q) == 0 && Count(CLOSE, q) == 0
  {
    hide Count;
    CountNoHead(OPEN, q);
    CountNoHead(CLOSE, q);
  }

  lemma TurnFacts(i: nat)
    requires 5 <= i < |DELIMITER_PATTERNS|
    ensures IsTurn(DELIMITER_PATTERNS[i])
  {
  }

  lemma PartsHaveNoTurn(parts: seq<string>, q: string)
    requires IsTurn(q) && forall j :: 0 <= j < |parts| ==> !StartsTurn(parts[j]) && Count(parts[j], q) == 0
    ensures Count(Join([OPEN] + parts + [CLOSE]), q) == 0
  {
    hide IsTurn, StartsTurn, Count, Join;
    FramingHasNoTurn(q);
    CountTurns([OPEN] + parts + [CLOSE], q);
  }

  /** The repository block holds no conversation marker, across its line joints either. */
  lemma RepositoryBlockHasNone(title: string, description: string, files: seq<FileDiff>,
                               contents: map<string, string>, maxChars: int, i: nat)
    requires 5 <= i < |DELIMITER_PATTERNS|
    ensures Count(ContextOf(title, description, files, contents, maxChars).repositoryBlock, DELIMITER_PATTERNS[i]) == 0
  {
    var q := DELIMITER_PATTERNS[i];
    TurnFacts(i);
    hide IsTurn, StartsTurn, Sort, RenderFile, LooksGenerated, Pack, Count, Neutralised, DiffHeader, DiffLinesOf, Join,
         ShownOrTooLong;
    var sorted := Sort(files, PathLeq);
    var p := Pack(sorted, contents, maxChars);
    PackAccounts(sorted, contents, maxChars);
    PackShows(sorted, contents, maxChars);
    forall j | 0 <= j < |p.parts| ensures !StartsTurn(p.parts[j]) && Count(p.parts[j], q) == 0 {
      NeutralisedHasNone(i, p.included[j]);
      FileHasNoTurn(p.included[j], contents[p.included[j]], q);
    }
    PartsHaveNoTurn(p.parts, q);
  }

  /* ---- citations ---- */

  /**
   * Citation stability: line `i` of the rendered content starts with the number `i + 1`,
   * and after the bar carries line `i` of the original, up to reading the entities back.
   */
  lemma CitationsAreStable(content: string)
    ensures var shown := Split(RenderNumbered(Neutralised(content), 1));
      && |shown| == |Split(content)|
      && forall i :: 0 <= i < |shown| ==>
           ReadNumber(shown[i]) == i + 1 && Decoding.Decode(AfterBar(shown[i])) == Decoding.Decode(Split(content)[i])
  {
    hide Neutralised, RenderNumbered, Split, ReadNumber, AfterBar;
    NumberingRoundTrip(Neutralised(content), 1);
    Decoding.NeutraliseOnlyEscapes(content);
  }
}
