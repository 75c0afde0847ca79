/**
 * The deterministic middle of a review run (apps/worker/tasks.py, `_run_pipeline`): from the
 * files response to the validated findings, with the reviewer's answer as a parameter.
 */
module Pipeline {
  import opened Text
  import opened StableSort
  import opened ChangedFiles
  import opened Validation
  import Context
  import ContextProperties
  import Reviews
  import Trimming
  import Hunks
  import PatchMeaning

  /**
   * What the source reads from outside: globs, file contents at the head commit, the diff, the
   * limits, the reviewer.
   */
  datatype Surroundings = Surroundings(ignored: string -> bool, fetch: string -> Option<string>, rawDiff: string,
                                       maxChangedLines: int, maxContextChars: int, maxDiffStore: nat,
                                       reviewer: (string, string) -> seq<Finding>)

  datatype Result =
    /** The response could not be parsed; the type of the exception. */
    | Broke(kind: string)
    | NothingReviewable(counts: Reviews.Counts)
    /** `files`: those that were reviewed. */
    | Reviewed(counts: Reviews.Counts, files: seq<FileDiff>, diffTooLarge: bool, truncated: bool,
               lineMaps: LineMaps, added: AddedSets, report: seq<Finding>, verdict: Verdict)

  function Wanted(ignored: string -> bool): FileDiff -> bool {
    (d: FileDiff) => d.IsReviewable() && Context.IsSource(d.path) && !ignored(d.path)
  }

  function SelectReviewable(diffs: seq<FileDiff>, ignored: string -> bool): seq<FileDiff> {
    Filter(diffs, Wanted(ignored))
  }

  function Additions(diffs: seq<FileDiff>): int {
    if diffs == [] then 0 else diffs[0].additions + Additions(diffs[1..])
  }

  function Deletions(diffs: seq<FileDiff>): int {
    if diffs == [] then 0 else diffs[0].deletions + Deletions(diffs[1..])
  }

  function CountsOf(diffs: seq<FileDiff>, s: Surroundings): Reviews.Counts {
    Reviews.Counts(|diffs|, Additions(diffs), Deletions(diffs), Cut(s.rawDiff, s.maxDiffStore))
  }

  /** `{d.path: d.line_map for d in files}`: a later file of the same path wins. */
  function LineMapsOf(files: seq<FileDiff>): LineMaps {
    if files == [] then map[]
    else LineMapsOf(files[..|files| - 1])[files[|files| - 1].path := files[|files| - 1].lineMap]
  }

  function AddedSetsOf(files: seq<FileDiff>): AddedSets {
    if files == [] then map[]
    else AddedSetsOf(files[..|files| - 1])[files[|files| - 1].path := files[|files| - 1].addedLines]
  }

  function Contents(files: seq<FileDiff>, fetch: string -> Option<string>): map<string, string> {
    map d | d in files && fetch(d.path).Some? :: d.path := fetch(d.path).value
  }

  /** The files that are reviewed: the wanted ones, trimmed when they are over the line budget. */
  function Chosen(diffs: seq<FileDiff>, s: Surroundings): seq<FileDiff> {
    var wanted := SelectReviewable(diffs, s.ignored);
    if Trimming.Total(wanted) > s.maxChangedLines then Trimming.Trimmed(wanted, s.maxChangedLines) else wanted
  }

  function ResultOf(diffs: seq<FileDiff>, title: string, description: string, s: Surroundings): Result {
    var wanted := SelectReviewable(diffs, s.ignored);
    var chosen := Chosen(diffs, s);
    if chosen == [] then NothingReviewable(CountsOf(diffs, s))
    else
      var bundle := Context.ContextOf(title, description, chosen, Contents(wanted, s.fetch), s.maxContextChars);
      var report := s.reviewer(bundle.repositoryBlock, bundle.diffBlock);
      Reviewed(CountsOf(diffs, s), chosen, Trimming.Total(wanted) > s.maxChangedLines, bundle.truncated,
               LineMapsOf(chosen), AddedSetsOf(chosen), report,
               Validated(report, LineMapsOf(chosen), AddedSetsOf(chosen)))
  }

  method FetchContents(files: seq<FileDiff>, fetch: string -> Option<string>) returns (contents: map<string, string>)
    ensures contents == Contents(files, fetch)
  {
    contents := map[];
    for i := 0 to |files|
      invariant contents == Contents(files[..i], fetch)
    {
      assert files[..i + 1] == files[..i] + [files[i]];
      var content := fetch(files[i].path);
      if content.Some? {
        contents := contents[files[i].path := content.value];
      }
    }
    assert files[..|files|] == files;
  }

  method RunPipeline(payload: seq<FileEntry>, title: string, description: string, s: Surroundings) returns (r: Result)
    ensures FirstFailure(payload).Some? ==> r == Broke(FirstFailure(payload).value)
    ensures FirstFailure(payload) == None ==>
              exists diffs :: ParsedAll(payload, diffs) && r == ResultOf(diffs, title, description, s)
  {
    hide FirstFailure, ParsedFrom, Context.ContextOf, Validated, LineMapsOf, AddedSetsOf, Contents, Filter;
    var parsed := ParseFiles(payload);
    if parsed.Failed? {
      return Broke(parsed.kind);
    }
    var diffs := parsed.files;
    var reviewable := SelectReviewable(diffs, s.ignored);
    var fileContents := FetchContents(reviewable, s.fetch);
    var added, deleted := Additions(diffs), Deletions(diffs);
    var counts := Reviews.Counts(|diffs|, added, deleted, Cut(s.rawDiff, s.maxDiffStore));
    var changedLines := Trimming.Total(reviewable);
    var diffTooLarge := false;
    if changedLines > s.maxChangedLines {
      diffTooLarge := true;
      reviewable := Trimming.TrimToBudget(reviewable, s.maxChangedLines);
    }
    if reviewable == [] {
      r := NothingReviewable(counts);
    } else {
      var bundle := Context.BuildContext(title, description, reviewable, fileContents, s.maxContextChars);
      var findings := s.reviewer(bundle.repositoryBlock, bundle.diffBlock);
      var lineMaps, addedSets := LineMapsOf(reviewable), AddedSetsOf(reviewable);
      var kept, dropped := Validate(findings, lineMaps, addedSets);
      r := Reviewed(counts, reviewable, diffTooLarge, bundle.truncated, lineMaps, addedSets, findings,
                    Verdict(kept, dropped));
    }
    assert ParsedAll(payload, diffs) && r == ResultOf(diffs, title, description, s);
  }

  /* ---- end-to-end anchoring ---- */

  lemma {:induction false} MapsHoldFiles(files: seq<FileDiff>, path: string) returns (d: FileDiff)
    requires path in LineMapsOf(files)
    ensures d in files && d.path == path && LineMapsOf(files)[path] == d.lineMap
    ensures path in AddedSetsOf(files) && AddedSetsOf(files)[path] == d.addedLines
  {
    var last := files[|files| - 1];
    if path == last.path {
      d := last;
    } else {
      d := MapsHoldFiles(files[..|files| - 1], path);
    }
  }

  lemma ChosenAreWanted(diffs: seq<FileDiff>, s: Surroundings)
    ensures forall d :: d in Chosen(diffs, s) ==> d in diffs && Wanted(s.ignored)(d)
  {
    hide Context.IsSource;
    var wanted := SelectReviewable(diffs, s.ignored);
    FilterElements(diffs, Wanted(s.ignored));
    var sorted := Sort(wanted, Trimming.CheaperOrEqual);
    SameElements(sorted, wanted);
    GreedyIsAPart(sorted, s.maxChangedLines, 0);
  }

  lemma {:induction false} GreedyIsAPart(sorted: seq<FileDiff>, budget: int, spent: int)
    ensures forall d :: d in Trimming.Greedy(sorted, budget, spent) ==> d in sorted
  {
    if sorted != [] {
      GreedyIsAPart(sorted[1..], budget, spent);
      GreedyIsAPart(sorted[1..], budget, spent + sorted[0].Cost());
    }
  }

  /** The change a patch was made from: the two files and the hunks between them. */
  datatype Change = Change(before: seq<string>, after: seq<string>, preamble: seq<string>, hunks: seq<Hunks.Hunk>,
                           trailing: nat)

  ghost predicate PatchIsOf(d: FileDiff, c: Change) {
    d.patch.Some? && PatchMeaning.IsPatchOf(d.patch.value, c.before, c.after, c.preamble, c.hunks, c.trailing)
  }

  /** `k` stands on a `+` line of `d`'s patch that holds its line of the new file, a line the change added. */
  ghost predicate PointsAtAddedLine(k: Kept, d: FileDiff, c: Change)
    requires PatchIsOf(d, c)
  {
    var n := k.finding.line;
    && d.path == k.finding.file && 1 <= n <= |c.after|
    && PatchMeaning.LineAtPosition(d.patch.value, k.position) == Some("+" + c.after[n - 1])
    && |PatchMeaning.Origins(c.before, c.after, c.hunks, 0, 0)| == |c.after|
    && PatchMeaning.Origins(c.before, c.after, c.hunks, 0, 0)[n - 1].None?
  }

  /**
   * Every kept finding names a file that was selected and not trimmed away, and its
   * position is a `+` line of that file's patch holding exactly the cited line of the new
   * file. The only hypothesis is on the response: each reviewable patch is a unified diff
   * of some two files.
   */
  lemma KeptFindingsAreAnchored(payload: seq<FileEntry>, diffs: seq<FileDiff>, changes: seq<Change>, title: string,
                                description: string, s: Surroundings, k: Kept) returns (i: nat)
    requires ParsedAll(payload, diffs) && |changes| == |diffs|
    requires forall j :: 0 <= j < |diffs| && diffs[j].IsReviewable() ==> PatchIsOf(diffs[j], changes[j])
    requires var r := ResultOf(diffs, title, description, s); r.Reviewed? && k in r.verdict.kept
    ensures i < |diffs| && diffs[i] in ResultOf(diffs, title, description, s).files && PatchIsOf(diffs[i], changes[i])
            && PointsAtAddedLine(k, diffs[i], changes[i])
  {
    hide Chosen, LineMapsOf, AddedSetsOf, Sort, Context.ContextOf, Context.IsSource, Judge, PatchMeaning.IsPatchOf,
         PatchMeaning.IsLineMapOf, PatchMeaning.Origins, PatchMeaning.LineAtPosition, PatchMeaning.Covered,
         ChangedFiles.Upto;
    var chosen := Chosen(diffs, s);
    var bundle := Context.ContextOf(title, description, chosen, Contents(SelectReviewable(diffs, s.ignored), s.fetch),
                                    s.maxContextChars);
    var report := s.reviewer(bundle.repositoryBlock, bundle.diffBlock);
    JudgeIsFair(Sort(report, Outranks), LineMapsOf(chosen), AddedSetsOf(chosen), {});
    var d := MapsHoldFiles(chosen, k.finding.file);
    ChosenAreWanted(diffs, s);
    i :| 0 <= i < |diffs| && diffs[i] == d;
    AnchoredInFile(payload[i], d, changes[i], k);
  }

  lemma AnchoredInFile(entry: FileEntry, d: FileDiff, c: Change, k: Kept)
    requires ParsedFrom(entry, d) && d.IsReviewable() && PatchIsOf(d, c)
    requires k.finding.file == d.path && k.finding.line in d.lineMap && k.finding.line in d.addedLines
    requires k.position == d.lineMap[k.finding.line]
    ensures PointsAtAddedLine(k, d, c)
  {
    hide PatchMeaning.IsLineMapOf, PatchMeaning.Origins, PatchMeaning.LineAtPosition, PatchMeaning.Covered;
    PatchMeaning.Anchoring(d.patch.value, c.before, c.after, c.preamble, c.hunks, c.trailing, d.lineMap, d.addedLines,
                           k.finding.line);
  }

  /** With distinct paths, a file that was not chosen has no kept finding. */
  lemma NoFindingInATrimmedFile(diffs: seq<FileDiff>, title: string, description: string, s: Surroundings, d: FileDiff,
                                k: Kept)
    requires DistinctPaths(diffs) && d in diffs
    requires var r := ResultOf(diffs, title, description, s); r.Reviewed? && k in r.verdict.kept && d !in r.files
    ensures k.finding.file != d.path
  {
    hide Chosen, LineMapsOf, AddedSetsOf, Sort, Context.ContextOf, Context.IsSource, Judge;
    var chosen := Chosen(diffs, s);
    var bundle := Context.ContextOf(title, description, chosen, Contents(SelectReviewable(diffs, s.ignored), s.fetch),
                                    s.maxContextChars);
    var report := s.reviewer(bundle.repositoryBlock, bundle.diffBlock);
    JudgeIsFair(Sort(report, Outranks), LineMapsOf(chosen), AddedSetsOf(chosen), {});
    var e := MapsHoldFiles(chosen, k.finding.file);
    ChosenAreWanted(diffs, s);
    var i :| 0 <= i < |diffs| && diffs[i] == d;
    var j :| 0 <= j < |diffs| && diffs[j] == e;
  }

  /**
   * What `completed` means, from the response to the row: the wanted files were within
   * the line budget, so none was trimmed, and every one of them whose content could be
   * sent was sent. Otherwise the row is `partial`.
   */
  lemma CompletedMeansNothingCut(diffs: seq<FileDiff>, title: string, description: string, s: Surroundings,
                                 row: Reviews.Review, rr: Reviews.RunResult, now: Reviews.Time)
    requires var r := ResultOf(diffs, title, description, s);
      r.Reviewed? && rr.diffTooLarge == r.diffTooLarge && rr.truncated == r.truncated
    ensures var wanted := SelectReviewable(diffs, s.ignored);
      var contents := Contents(wanted, s.fetch);
      var files := ResultOf(diffs, title, description, s).files;
      var bundle := Context.ContextOf(title, description, files, contents, s.maxContextChars);
      && (Reviews.Reviewed(row, rr, now).status.Completed? <==>
            && Trimming.Total(wanted) <= s.maxChangedLines
            && |bundle.includedPaths| == |Filter(wanted, ContextProperties.IsEligible(contents))|)
      && (!Reviews.Reviewed(row, rr, now).status.Completed? ==> Reviews.Reviewed(row, rr, now).status.Partial?)
  {
    hide Context.ContextOf, Filter, Contents, Validated, LineMapsOf, AddedSetsOf, ContextProperties.ShownOrTooLong;
    var wanted := SelectReviewable(diffs, s.ignored);
    ContextProperties.TruncationIsExact(title, description, Chosen(diffs, s), Contents(wanted, s.fetch),
                                        s.maxContextChars);
  }
}
