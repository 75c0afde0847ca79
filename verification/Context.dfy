/** Context assembly (agent/context.py). */
module Context {
  import opened Text
  import opened StableSort
  import opened ChangedFiles
  import opened Escaping
  import opened Numbering

  const SOURCE_EXTENSIONS: set<string> := {
    ".py", ".pyi", ".js", ".jsx", ".ts", ".tsx", ".go", ".rb", ".java", ".kt", ".rs", ".php", ".cs", ".swift",
    ".scala", ".sh", ".sql"
  }

  const GENERATED_MARKERS: seq<string> := ["@generated", "Code generated by", "DO NOT EDIT", "autogenerated"]

  predicate EndsWith(s: string, suffix: string) {
    |suffix| <= |s| && s[|s| - |suffix|..] == suffix
  }

  predicate IsSource(path: string) {
    exists ext :: ext in SOURCE_EXTENSIONS && EndsWith(path, ext)
  }

  predicate LooksGenerated(content: string) {
    exists marker :: marker in GENERATED_MARKERS && Contains(Cut(content, 2000), marker)
  }

  datatype ContextBundle = ContextBundle(repositoryBlock: string, diffBlock: string, includedPaths: seq<string>,
                                         skippedPaths: seq<string>, truncated: bool)

  predicate PathLeq(a: FileDiff, b: FileDiff) {
    LexLeq(a.path, b.path)
  }

  const OPEN := "<repository_content untrusted=\"true\">"
  const CLOSE := "</repository_content>"

  function RenderFile(path: string, content: string): string {
    "<file path=" + "\"" +
    (Neutralised(path) + "\"" + (">" + "\n" + (RenderNumbered(Neutralised(content), 1) + "\n" + "</file>")))
  }

  /** A file whose content is sent if it fits. */
  predicate Eligible(f: FileDiff, contents: map<string, string>) {
    f.path in contents && !LooksGenerated(contents[f.path])
  }

  function Rendering(f: FileDiff, contents: map<string, string>): string {
    if f.path in contents then RenderFile(f.path, contents[f.path]) else ""
  }

  datatype Packing = Packing(parts: seq<string>, included: seq<string>, skipped: seq<string>, truncated: bool,
                             left: int)

  /** The loop over sorted files, `budget` characters left. */
  function Pack(sorted: seq<FileDiff>, contents: map<string, string>, budget: int): Packing {
    if sorted == [] then Packing([], [], [], false, budget)
    else
      var f := sorted[0];
      if !Eligible(f, contents) then
        var rest := Pack(sorted[1..], contents, budget);
        rest.(skipped := [f.path] + rest.skipped)
      else if |Rendering(f, contents)| > budget then
        var rest := Pack(sorted[1..], contents, budget);
        rest.(skipped := [f.path] + rest.skipped, truncated := true)
      else
        var rest := Pack(sorted[1..], contents, budget - |Rendering(f, contents)|);
        rest.(parts := [Rendering(f, contents)] + rest.parts, included := [f.path] + rest.included)
  }

  function FileTag(f: FileDiff): string {
    "<file_diff path=\"" + Neutralised(f.path) + "\" change=\"" + f.changeType + "\">"
  }

  function FileDiffLines(f: FileDiff): seq<string> {
    if f.patch.None? || f.patch.value == "" then []
    else [
      FileTag(f),
      Neutralised(f.patch.value),
      "</file_diff>"
    ]
  }

  function DiffLinesOf(sorted: seq<FileDiff>): seq<string> {
    if sorted == [] then [] else FileDiffLines(sorted[0]) + DiffLinesOf(sorted[1..])
  }

  function TitleLine(title: string): string {
    "<title>" + Neutralised(title) + "</title>"
  }

  function DescriptionLine(description: string): string {
    "<description>\n" + Neutralised(description) + "\n</description>"
  }

  function DiffHeader(title: string, description: string): seq<string> {
    [
      "<pull_request>",
      TitleLine(title),
      DescriptionLine(Cut(description, 4000)),
      "<diff>"
    ]
  }

  function ContextOf(title: string, description: string, files: seq<FileDiff>, contents: map<string, string>,
                     maxChars: int): ContextBundle {
    var sorted := Sort(files, PathLeq);
    var packing := Pack(sorted, contents, maxChars);
    ContextBundle(
      Join([OPEN] + packing.parts + [CLOSE]),
      Join(DiffHeader(title, description) + DiffLinesOf(sorted) + ["</diff>", "</pull_request>"]),
      packing.included, packing.skipped, packing.truncated)
  }

  /** What the lists and the budget come to when the rest is packed after them. */
  function Onto(packed: Packing, rest: Packing): Packing {
    Packing(packed.parts + rest.parts, packed.included + rest.included, packed.skipped + rest.skipped,
            packed.truncated || rest.truncated, rest.left)
  }

  lemma PackNext(packed: Packing, sorted: seq<FileDiff>, i: nat, contents: map<string, string>)
    requires i < |sorted|
    ensures var f := sorted[i];
      var next :=
        if !Eligible(f, contents) then packed.(skipped := packed.skipped + [f.path])
        else if |Rendering(f, contents)| > packed.left
        then packed.(skipped := packed.skipped + [f.path], truncated := true)
        else packed.(parts := packed.parts + [Rendering(f, contents)], included := packed.included + [f.path],
                     left := packed.left - |Rendering(f, contents)|);
      Onto(packed, Pack(sorted[i..], contents, packed.left)) == Onto(next, Pack(sorted[i + 1..], contents, next.left))
  {
    hide Eligible, Rendering;
    assert sorted[i..][0] == sorted[i] && sorted[i..][1..] == sorted[i + 1..];
  }

  lemma PackDone(packed: Packing)
    ensures Onto(packed, Packing([], [], [], false, packed.left)) == packed
  {
  }

  /** The first loop: the repository block's parts, and which files they show. */
  method PackFiles(sorted: seq<FileDiff>, fileContents: map<string, string>, maxChars: int) returns (packed: Packing)
    ensures packed == Onto(Packing([OPEN], [], [], false, maxChars), Pack(sorted, fileContents, maxChars))
  {
    hide RenderFile, LooksGenerated, Onto;
    packed := Packing([OPEN], [], [], false, maxChars);
    assert sorted[0..] == sorted;
    ghost var whole := Onto(packed, Pack(sorted, fileContents, maxChars));
    for i := 0 to |sorted|
      invariant Onto(packed, Pack(sorted[i..], fileContents, packed.left)) == whole
    {
      var diff := sorted[i];
      PackNext(packed, sorted, i, fileContents);
      if diff.path !in fileContents {
        packed := packed.(skipped := packed.skipped + [diff.path]);
        continue;
      }
      var content := fileContents[diff.path];
      if LooksGenerated(content) {
        packed := packed.(skipped := packed.skipped + [diff.path]);
        continue;
      }
      var rendered := RenderFile(diff.path, content);
      if |rendered| > packed.left {
        packed := packed.(truncated := true, skipped := packed.skipped + [diff.path]);
        continue;
      }
      packed := packed.(parts := packed.parts + [rendered], left := packed.left - |rendered|,
                        included := packed.included + [diff.path]);
    }
    PackDone(packed);
  }

  /** The second loop: the diff block's parts. */
  method DiffParts(header: seq<string>, sorted: seq<FileDiff>) returns (parts: seq<string>)
    ensures parts == header + DiffLinesOf(sorted)
  {
    hide Neutralised;
    parts := header;
    for i := 0 to |sorted|
      invariant parts + DiffLinesOf(sorted[i..]) == header + DiffLinesOf(sorted)
    {
      var diff := sorted[i];
      assert sorted[i..][0] == diff && sorted[i..][1..] == sorted[i + 1..];
      if diff.patch.None? || diff.patch.value == "" {
        continue;
      }
      Regroup(parts, FileDiffLines(diff), DiffLinesOf(sorted[i + 1..]));
      ghost var before := parts;
      parts := parts + ["<file_diff path=\"" + Neutralised(diff.path) + "\" change=\"" + diff.changeType + "\">"];
      parts := parts + [Neutralised(diff.patch.value)];
      parts := parts + ["</file_diff>"];
      assert parts == before + FileDiffLines(diff);
    }
  }

  method BuildContext(title: string, description: string, files: seq<FileDiff>, fileContents: map<string, string>,
                      maxChars: int)
    returns (bundle: ContextBundle)
    ensures bundle == ContextOf(title, description, files, fileContents, maxChars)
  {
    hide Sort, Pack, DiffLinesOf, Neutralised;
    var sorted := Sort(files, PathLeq);
    var repository := PackFiles(sorted, fileContents, maxChars);
    var diffParts := DiffParts(DiffHeader(title, description), sorted);
    bundle := ContextBundle(Join(repository.parts + [CLOSE]), Join(diffParts + ["</diff>", "</pull_request>"]),
                            repository.included, repository.skipped, repository.truncated);
  }
}
