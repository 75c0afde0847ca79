/**
 * What `build_context` sends, told without the functions that build it: which files count as
 * source and as generated, the text of the repository block, the order of its files, and
 * which of them fit.
 */
module ContextMeaning {
  import opened Text
  import opened StableSort
  import opened ChangedFiles
  import opened Escaping
  import opened Numbering
  import opened Context
  import opened ContextProperties

  /* ---- the two tests on files ---- */

  lemma IsSourceMeaning(path: string)
    ensures var extensions := [".py", ".pyi", ".js", ".jsx", ".ts", ".tsx", ".go", ".rb", ".java", ".kt", ".rs", ".php",
                               ".cs", ".swift", ".scala", ".sh", ".sql"];
      IsSource(path) <==> exists i, stem :: 0 <= i < |extensions| && path == stem + extensions[i]
  {
    var extensions := [".py", ".pyi", ".js", ".jsx", ".ts", ".tsx", ".go", ".rb", ".java", ".kt", ".rs", ".php",
                       ".cs", ".swift", ".scala", ".sh", ".sql"];
    hide EndsWith;
    EndsWithOne(path, extensions);
    assert forall ext :: ext in SOURCE_EXTENSIONS <==> ext in extensions;
  }

  lemma EndsWithOne(path: string, extensions: seq<string>)
    ensures (exists ext :: ext in extensions && EndsWith(path, ext)) <==>
            exists i, stem :: 0 <= i < |extensions| && path == stem + extensions[i]
  {
    if ext :| ext in extensions && EndsWith(path, ext) {
      var i :| 0 <= i < |extensions| && extensions[i] == ext;
      assert path == path[..|path| - |ext|] + extensions[i];
    }
    if i, stem :| 0 <= i < |extensions| && path == stem + extensions[i] {
      EndsAfter(stem, extensions[i]);
    }
  }

  lemma EndsAfter(stem: string, suffix: string)
    ensures EndsWith(stem + suffix, suffix)
  {
    assert (stem + suffix)[|stem|..] == suffix;
  }

  lemma OccursInFront(s: string, n: nat, q: string, j: nat)
    requires q != ""
    ensures OccursAt(Cut(s, n), q, j) <==> OccursAt(s, q, j) && j + |q| <= n
  {
    var c := Cut(s, n);
    if j + |q| <= |c| {
      assert c[j..j + |q|] == s[j..j + |q|];
    }
  }

  /** Generated content says so within its first 2000 characters. */
  lemma LooksGeneratedMeaning(content: string)
    ensures var markers := ["@generated", "Code generated by", "DO NOT EDIT", "autogenerated"];
      LooksGenerated(content) <==>
      exists m, j: nat :: m in markers && OccursAt(content, m, j) && j + |m| <= 2000
  {
    hide Contains, OccursAt, Cut;
    forall m | m in GENERATED_MARKERS
      ensures Contains(Cut(content, 2000), m) <==> exists j: nat :: OccursAt(content, m, j) && j + |m| <= 2000
    {
      ContainsMeaning(Cut(content, 2000), m);
      forall j: nat ensures OccursAt(Cut(content, 2000), m, j) <==> OccursAt(content, m, j) && j + |m| <= 2000 {
        OccursInFront(content, 2000, m, j);
      }
    }
  }

  /* ---- the order of the paths ---- */

  /** Not after: equal, a prefix, or smaller at the first place where they differ. */
  ghost predicate NotAfter(a: string, b: string) {
    a <= b || exists k: nat :: FirstDiffer(a, b, k)
  }

  ghost predicate Ascending(paths: seq<string>) {
    forall i, j :: 0 <= i < j < |paths| ==> NotAfter(paths[i], paths[j])
  }

  lemma PathLeqMeaning(f: FileDiff, g: FileDiff)
    ensures PathLeq(f, g) <==> NotAfter(f.path, g.path)
  {
    LexLeqMeaning(f.path, g.path);
  }

  lemma AscendingCons(path: string, paths: seq<string>)
    requires Ascending(paths) && forall p :: p in paths ==> NotAfter(path, p)
    ensures Ascending([path] + paths)
  {
    hide NotAfter;
    var all := [path] + paths;
    forall i, j | 0 <= i < j < |all| ensures NotAfter(all[i], all[j]) {
      assert all[j] == paths[j - 1];
      if i > 0 {
        assert all[i] == paths[i - 1];
      }
    }
  }

  /** Some file of the list has the path. */
  predicate HasFile(files: seq<FileDiff>, path: string) {
    exists f :: f in files && f.path == path
  }

  lemma HeadNotAfter(sorted: seq<FileDiff>, path: string)
    requires sorted != [] && Ordered(sorted, PathLeq) && HasFile(sorted[1..], path)
    ensures NotAfter(sorted[0].path, path)
  {
    hide PathLeq, Ordered;
    HeadBelow(sorted, PathLeq);
    var f :| f in sorted[1..] && f.path == path;
    PathLeqMeaning(sorted[0], f);
  }

  lemma {:induction false} PackAscends(sorted: seq<FileDiff>, contents: map<string, string>, budget: int)
    requires Ordered(sorted, PathLeq)
    ensures var p := Pack(sorted, contents, budget);
      && Ascending(p.included) && Ascending(p.skipped)
      && (forall path :: path in p.included ==> HasFile(sorted, path))
      && (forall path :: path in p.skipped ==> HasFile(sorted, path))
  {
    hide PathLeq, Ordered, Ascending, NotAfter, Eligible, Rendering;
    if sorted == [] {
      NothingAscends();
    } else {
      var f := sorted[0];
      var fits := PackHead(sorted, contents, budget);
      HeadBelow(sorted, PathLeq);
      var left := if fits then budget - |Rendering(f, contents)| else budget;
      PackAscends(sorted[1..], contents, left);
      var rest := Pack(sorted[1..], contents, left);
      hide Pack;
      assert sorted == [f] + sorted[1..];
      forall path | HasFile(sorted[1..], path) ensures NotAfter(f.path, path) && HasFile(sorted, path) {
        HeadNotAfter(sorted, path);
      }
      AscendingCons(f.path, if fits then rest.included else rest.skipped);
    }
  }

  lemma NothingAscends()
    ensures Ascending([])
  {
  }

  /* ---- which files fit ---- */

  /** A file whose content is known and does not look generated. */
  predicate CanBeShown(f: FileDiff, contents: map<string, string>) {
    f.path in contents && !LooksGenerated(contents[f.path])
  }

  /** The text of a file. */
  function FileText(path: string, content: string): string {
    "<file path=\"" + Neutralised(path) + "\">\n" + RenderNumbered(Neutralised(content), 1) + "\n</file>"
  }

  lemma RenderFileMeaning(path: string, content: string)
    ensures RenderFile(path, content) == FileText(path, content)
  {
    hide Neutralised, RenderNumbered;
    var p, n := Neutralised(path), RenderNumbered(Neutralised(content), 1);
    Respell(p, n);
  }

  lemma Respell(p: string, n: string)
    ensures "<file path=" + "\"" + (p + "\"" + (">" + "\n" + (n + "\n" + "</file>"))) ==
            "<file path=\"" + p + "\">\n" + n + "\n</file>"
  {
  }

  lemma PathsDiffer(sorted: seq<FileDiff>)
    requires sorted != [] && DistinctPaths(sorted)
    ensures DistinctPaths(sorted[1..]) && !HasFile(sorted[1..], sorted[0].path)
  {
  }

  /** The first `n` of the files shown are those before `f`, and `f` is shown exactly when it fits after them. */
  ghost predicate FitsAfter(f: FileDiff, n: nat, contents: map<string, string>, included: seq<string>,
                            parts: seq<string>, budget: int)
  {
    && n <= |included| == |parts|
    && (forall i :: 0 <= i < n ==> NotAfter(included[i], f.path) && included[i] != f.path)
    && (forall i :: n <= i < |included| ==> NotAfter(f.path, included[i]))
    && (f.path in included <==> CanBeShown(f, contents) && Size(parts[..n]) + |Rendering(f, contents)| <= budget)
  }

  lemma {:induction false} PackIsGreedy(sorted: seq<FileDiff>, contents: map<string, string>, budget: int, f: FileDiff)
    returns (n: nat)
    requires Ordered(sorted, PathLeq) && DistinctPaths(sorted) && f in sorted
    ensures var p := Pack(sorted, contents, budget); FitsAfter(f, n, contents, p.included, p.parts, budget)
  {
    hide PathLeq, Ordered, NotAfter, Ascending, Rendering, LooksGenerated, DistinctPaths, FitsAfter, HasFile;
    var head := sorted[0];
    PathsDiffer(sorted);
    var fits := PackHead(sorted, contents, budget);
    HeadBelow(sorted, PathLeq);
    var left := if fits then budget - |Rendering(head, contents)| else budget;
    var rest := Pack(sorted[1..], contents, left);
    PackAscends(sorted[1..], contents, left);
    PackAccounts(sorted[1..], contents, left);
    if head == f {
      n := 0;
      HeadFits(sorted, contents, rest.included, rest.parts, budget, fits);
    } else {
      assert sorted == [head] + sorted[1..];
      var m := PackIsGreedy(sorted[1..], contents, left, f);
      n := if fits then m + 1 else m;
      InRest(sorted, f);
      if fits {
        OneMoreBefore(f, m, contents, rest.included, rest.parts, left, head, |Rendering(head, contents)|,
                      Rendering(head, contents));
      }
    }
  }

  lemma InRest(sorted: seq<FileDiff>, f: FileDiff)
    requires sorted != [] && Ordered(sorted, PathLeq) && DistinctPaths(sorted) && f in sorted[1..]
    ensures NotAfter(sorted[0].path, f.path) && sorted[0].path != f.path
  {
    hide PathLeq, Ordered, NotAfter;
    assert HasFile(sorted[1..], f.path);
    HeadNotAfter(sorted, f.path);
  }

  lemma OneMoreBefore(f: FileDiff, m: nat, contents: map<string, string>, included: seq<string>, parts: seq<string>,
                      left: int, head: FileDiff, size: nat, part: string)
    requires FitsAfter(f, m, contents, included, parts, left) && |part| == size
    requires NotAfter(head.path, f.path) && head.path != f.path
    ensures FitsAfter(f, m + 1, contents, [head.path] + included, [part] + parts, left + size)
  {
    hide NotAfter, CanBeShown, Rendering;
    assert ([part] + parts)[..m + 1] == [part] + parts[..m];
    assert ([part] + parts[..m])[1..] == parts[..m];
  }

  lemma HeadFits(sorted: seq<FileDiff>, contents: map<string, string>, included: seq<string>, parts: seq<string>,
                 budget: int, fits: bool)
    requires sorted != [] && Ordered(sorted, PathLeq) && DistinctPaths(sorted) && |included| == |parts|
    requires forall path :: path in included ==> HasFile(sorted[1..], path)
    requires fits <==> CanBeShown(sorted[0], contents) && |Rendering(sorted[0], contents)| <= budget
    ensures var f := sorted[0];
      FitsAfter(f, 0, contents, if fits then [f.path] + included else included,
                if fits then [Rendering(f, contents)] + parts else parts, budget)
  {
    hide PathLeq, Ordered, CanBeShown, Rendering, DistinctPaths, NotAfter, HasFile;
    PathsDiffer(sorted);
    forall path | path in included ensures NotAfter(sorted[0].path, path) {
      HeadNotAfter(sorted, path);
    }
    NotAfterItself(sorted[0].path);
    assert parts[..0] == [] && ([Rendering(sorted[0], contents)] + parts)[..0] == [];
  }

  lemma NotAfterItself(path: string)
    ensures NotAfter(path, path)
  {
  }

  /* ---- the repository block ---- */

  /**
   * The repository block is its opening tag, the texts of the files shown and its closing tag,
   * a line each. The paths shown ascend, and so do those left out.
   */
  lemma RepositoryBlockMeaning(title: string, description: string, files: seq<FileDiff>, contents: map<string, string>,
                               maxChars: int) returns (parts: seq<string>)
    ensures var b := ContextOf(title, description, files, contents, maxChars);
      && b.repositoryBlock == Join(["<repository_content untrusted=\"true\">"] + parts + ["</repository_content>"])
      && |parts| == |b.includedPaths|
      && (forall i :: 0 <= i < |parts| ==>
            b.includedPaths[i] in contents && parts[i] == FileText(b.includedPaths[i], contents[b.includedPaths[i]]))
      && Ascending(b.includedPaths) && Ascending(b.skippedPaths)
      && multiset(b.includedPaths) + multiset(b.skippedPaths) == multiset(Paths(Sort(files, PathLeq)))
  {
    hide Sort, RenderFile, FileText, Pack, Join, DiffHeader, DiffLinesOf, Ascending, PathLeq, Ordered, Size, Filter,
         ShownOrTooLong;
    var sorted := Sort(files, PathLeq);
    parts := Pack(sorted, contents, maxChars).parts;
    BudgetIsAccounted(title, description, files, contents, maxChars);
    PathOrderIsAPreorder(Elements(files));
    SortOrdered(files, PathLeq, Elements(files));
    PackAscends(sorted, contents, maxChars);
    var included := Pack(sorted, contents, maxChars).included;
    forall i | 0 <= i < |parts| ensures parts[i] == FileText(included[i], contents[included[i]]) {
      RenderFileMeaning(included[i], contents[included[i]]);
    }
  }

  /**
   * Which files are shown: with distinct paths, going through them in path order, a file that
   * can be shown is shown exactly when its text fits in what the files shown before it left.
   */
  lemma FilesAreShownGreedily(title: string, description: string, files: seq<FileDiff>, contents: map<string, string>,
                              maxChars: int, f: FileDiff) returns (parts: seq<string>, n: nat)
    requires DistinctPaths(files) && f in files
    ensures var b := ContextOf(title, description, files, contents, maxChars);
      && b.repositoryBlock == Join(["<repository_content untrusted=\"true\">"] + parts + ["</repository_content>"])
      && n <= |parts| == |b.includedPaths|
      && (forall i :: 0 <= i < n ==> NotAfter(b.includedPaths[i], f.path) && b.includedPaths[i] != f.path)
      && (forall i :: n <= i < |parts| ==> NotAfter(f.path, b.includedPaths[i]))
      && (f.path in b.includedPaths <==>
            && f.path in contents && !LooksGenerated(contents[f.path])
            && Size(parts[..n]) + |FileText(f.path, contents[f.path])| <= maxChars)
  {
    hide Sort, RenderFile, FileText, Pack, Join, DiffHeader, DiffLinesOf, NotAfter, PathLeq, Ordered, Size,
         DistinctPaths, LooksGenerated;
    var sorted := Sort(files, PathLeq);
    parts := Pack(sorted, contents, maxChars).parts;
    PathOrderIsAPreorder(Elements(files));
    SortOrdered(files, PathLeq, Elements(files));
    SameElements(sorted, files);
    PartKeepsDistinct(sorted, files);
    n := PackIsGreedy(sorted, contents, maxChars, f);
    if f.path in contents {
      RenderFileMeaning(f.path, contents[f.path]);
    }
  }

  lemma PartKeepsDistinct(part: seq<FileDiff>, whole: seq<FileDiff>)
    requires DistinctPaths(whole) && multiset(part) <= multiset(whole)
    ensures DistinctPaths(part)
  {
    hide DistinctPaths;
    forall d | d in part ensures d in whole {
      assert d in multiset(part) && d in multiset(whole);
    }
    forall i, j | 0 <= i < j < |part| ensures part[i].path != part[j].path {
      TwiceIn(part, i, j);
      OnceIn(whole, part[i]);
      OneOfEachPath(whole, part[i], part[j]);
    }
    ByPlaces(part);
  }

  lemma ByPlaces(s: seq<FileDiff>)
    requires forall i, j :: 0 <= i < j < |s| ==> s[i].path != s[j].path
    ensures DistinctPaths(s)
  {
  }

  lemma OneOfEachPath(files: seq<FileDiff>, f: FileDiff, g: FileDiff)
    requires DistinctPaths(files) && f in files && g in files && f != g
    ensures f.path != g.path
  {
    var a :| 0 <= a < |files| && files[a] == f;
    var b :| 0 <= b < |files| && files[b] == g;
  }

  lemma TwiceIn(s: seq<FileDiff>, i: nat, j: nat)
    requires i < j < |s|
    ensures s[i] == s[j] ==> multiset(s)[s[i]] >= 2
  {
    assert s == s[..i] + [s[i]] + s[i + 1..j] + [s[j]] + s[j + 1..];
  }

  lemma {:induction false} OnceIn(s: seq<FileDiff>, x: FileDiff)
    requires DistinctPaths(s)
    ensures multiset(s)[x] <= 1
  {
    if s != [] {
      assert s == [s[0]] + s[1..];
      OnceIn(s[1..], x);
      if s[0] == x {
        assert x !in s[1..];
      }
    }
  }
}
