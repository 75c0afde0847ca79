/**
 * What a review run comes to, told without the functions that build it: which files are
 * reviewed, what the reviewer is shown, which findings are kept, and what is counted.
 */
module PipelineMeaning {
  import opened Text
  import opened StableSort
  import opened ChangedFiles
  import opened Validation
  import opened Pipeline
  import Context
  import ContextMeaning
  import DiffLines
  import Trimming

  /* ---- which files ---- */

  /** A file the source selects: a patch, not removed, a source extension, no ignored path. */
  predicate IsWanted(d: FileDiff, s: Surroundings) {
    d.patch.Some? && d.patch.value != "" && d.changeType != "removed" && Context.IsSource(d.path) && !s.ignored(d.path)
  }

  /** `wanted` is what the source selects of `diffs`, in order. */
  ghost predicate Selects(diffs: seq<FileDiff>, s: Surroundings, wanted: seq<FileDiff>) {
    && (forall d :: multiset(wanted)[d] == if IsWanted(d, s) then multiset(diffs)[d] else 0)
    && InOrder(wanted, diffs)
  }

  /** `part` is left of `whole` when some of its elements are struck out. */
  predicate InOrder(part: seq<FileDiff>, whole: seq<FileDiff>) {
    || part == []
    || (whole != [] && part[0] == whole[0] && InOrder(part[1..], whole[1..]))
    || (whole != [] && InOrder(part, whole[1..]))
  }

  lemma {:induction false} FilterInOrder(s: seq<FileDiff>, keep: FileDiff -> bool)
    ensures InOrder(Filter(s, keep), s)
  {
    if s != [] {
      FilterInOrder(s[1..], keep);
      FilterHead(s, keep);
    }
  }

  lemma WantedMeans(d: FileDiff, s: Surroundings)
    ensures Wanted(s.ignored)(d) <==> IsWanted(d, s)
  {
    hide Context.IsSource;
  }

  lemma SelectionMeaning(diffs: seq<FileDiff>, s: Surroundings)
    ensures Selects(diffs, s, SelectReviewable(diffs, s.ignored))
  {
    hide InOrder, Context.IsSource, Filter;
    var wanted := SelectReviewable(diffs, s.ignored);
    FilterMultiset(diffs, Wanted(s.ignored));
    FilterInOrder(diffs, Wanted(s.ignored));
    forall d ensures multiset(wanted)[d] == if IsWanted(d, s) then multiset(diffs)[d] else 0 {
      WantedMeans(d, s);
    }
  }

  /** Some of the wanted files, within the limit. */
  ghost predicate IsChoice(choice: seq<FileDiff>, wanted: seq<FileDiff>, limit: int) {
    multiset(choice) <= multiset(wanted) && Trimming.Total(choice) <= limit
  }

  /** The files reviewed, none when there was nothing to review. */
  function FilesOf(r: Result): seq<FileDiff> {
    if r.Reviewed? then r.files else []
  }

  /**
   * The files reviewed are all the wanted ones when their changed lines are within the limit.
   * Otherwise they are wanted ones within the limit, as many as can be (with counts that are not
   * negative), and none left out would still fit. There is a review exactly when there are any.
   */
  lemma ReviewedFiles(diffs: seq<FileDiff>, title: string, description: string, s: Surroundings)
    returns (wanted: seq<FileDiff>)
    ensures Selects(diffs, s, wanted)
    ensures var r := ResultOf(diffs, title, description, s);
      var files := FilesOf(r);
      && (r.Reviewed? <==> files != []) && (r.NothingReviewable? <==> files == [])
      && (Trimming.Total(wanted) <= s.maxChangedLines ==> files == wanted)
      && (Trimming.Total(wanted) > s.maxChangedLines ==>
            && multiset(files) <= multiset(wanted)
            && (files == [] || Trimming.Total(files) <= s.maxChangedLines)
            && (Trimming.NonNegative(wanted) ==>
                  && (forall choice :: IsChoice(choice, wanted, s.maxChangedLines) ==> |choice| <= |files|)
                  && (forall d :: d in multiset(wanted) - multiset(files) ==>
                        Trimming.Total(files) + d.additions + d.deletions > s.maxChangedLines)))
      && (r.Reviewed? ==> (r.diffTooLarge <==> Trimming.Total(wanted) > s.maxChangedLines))
  {
    wanted := SelectReviewable(diffs, s.ignored);
    SelectionMeaning(diffs, s);
    hide SelectReviewable, Context.ContextOf, Selects, Validated, LineMapsOf, AddedSetsOf, Contents,
         Trimming.NonNegative;
    if Trimming.Total(wanted) > s.maxChangedLines {
      TrimmedFiles(wanted, s.maxChangedLines);
      hide Trimming.Trimmed;
    }
  }

  lemma TrimmedFiles(wanted: seq<FileDiff>, limit: int)
    ensures var files := Trimming.Trimmed(wanted, limit);
      && multiset(files) <= multiset(wanted)
      && (files == [] || Trimming.Total(files) <= limit)
      && (Trimming.NonNegative(wanted) ==>
            && (forall choice :: IsChoice(choice, wanted, limit) ==> |choice| <= |files|)
            && (forall d :: d in multiset(wanted) - multiset(files) ==>
                  Trimming.Total(files) + d.additions + d.deletions > limit))
  {
    var files := Trimming.Trimmed(wanted, limit);
    var sorted := Sort(wanted, Trimming.CheaperOrEqual);
    GreedyIsWithin(sorted, limit, 0);
    Trimming.GreedyFits(sorted, limit, 0);
    if Trimming.NonNegative(wanted) {
      Trimming.TrimKeepsAPrefix(wanted, limit);
      hide Trimming.Trimmed, Trimming.Total;
      forall choice | IsChoice(choice, wanted, limit) ensures |choice| <= |files| {
        Trimming.TrimIsOptimal(wanted, limit, choice);
      }
    }
  }

  lemma {:induction false} GreedyIsWithin(sorted: seq<FileDiff>, budget: int, spent: int)
    ensures multiset(Trimming.Greedy(sorted, budget, spent)) <= multiset(sorted)
  {
    if sorted != [] {
      assert sorted == [sorted[0]] + sorted[1..];
      GreedyIsWithin(sorted[1..], budget, spent);
      GreedyIsWithin(sorted[1..], budget, spent + sorted[0].Cost());
    }
  }

  /* ---- what the reviewer sees, and what is counted ---- */

  /** `contents` holds what could be fetched of the wanted files, by path. */
  ghost predicate Fetched(contents: map<string, string>, diffs: seq<FileDiff>, s: Surroundings) {
    && (forall d :: d in diffs && IsWanted(d, s) && s.fetch(d.path).Some? ==> d.path in contents)
    && (forall path :: path in contents ==>
          && s.fetch(path) == Some(contents[path])
          && exists d :: d in diffs && IsWanted(d, s) && d.path == path)
  }

  /**
   * The reviewer is shown the two blocks of the files reviewed, repository first, with what could
   * be fetched of the wanted files; and the verdict is on what it answers.
   */
  lemma ReviewerIsShown(diffs: seq<FileDiff>, title: string, description: string, s: Surroundings)
    returns (contents: map<string, string>)
    requires ResultOf(diffs, title, description, s).Reviewed?
    ensures Fetched(contents, diffs, s)
    ensures var r := ResultOf(diffs, title, description, s);
      var bundle := Context.ContextOf(title, description, r.files, contents, s.maxContextChars);
      && r.report == s.reviewer(bundle.repositoryBlock, bundle.diffBlock)
      && r.truncated == bundle.truncated
  {
    var wanted := SelectReviewable(diffs, s.ignored);
    contents := Contents(wanted, s.fetch);
    FilterElements(diffs, Wanted(s.ignored));
    hide Context.IsSource, Context.ContextOf, Filter, Validated, LineMapsOf, AddedSetsOf, Chosen;
  }

  /** Additions and deletions are sums over all files of the response, reviewed or not. */
  lemma SumsMeaning(d: FileDiff, rest: seq<FileDiff>)
    ensures Additions([]) == 0 && Additions([d] + rest) == d.additions + Additions(rest)
    ensures Deletions([]) == 0 && Deletions([d] + rest) == d.deletions + Deletions(rest)
  {
    assert ([d] + rest)[1..] == rest;
  }

  lemma CountsMeaning(diffs: seq<FileDiff>, title: string, description: string, s: Surroundings)
    ensures var r := ResultOf(diffs, title, description, s);
      && !r.Broke?
      && r.counts.changedFiles == |diffs| && r.counts.rawDiff == Cut(s.rawDiff, s.maxDiffStore)
      && r.counts.addedLines == Additions(diffs) && r.counts.deletedLines == Deletions(diffs)
  {
    hide Context.ContextOf, Validated, LineMapsOf, AddedSetsOf, Chosen, Cut;
  }

  /* ---- which findings ---- */

  /** `files[i]` is the last of the files with that path, the one whose line map counts. */
  predicate IsLast(files: seq<FileDiff>, i: nat, path: string) {
    i < |files| && files[i].path == path && forall j :: i < j < |files| ==> files[j].path != path
  }

  /** Some reviewed file has the finding's path and counts its line as added. */
  ghost predicate OnAddedLine(f: Finding, files: seq<FileDiff>) {
    exists i: nat :: IsLast(files, i, f.file) && f.line in files[i].addedLines
  }

  lemma {:induction false} MapsAreOfTheLast(files: seq<FileDiff>, i: nat, path: string)
    requires IsLast(files, i, path)
    ensures path in LineMapsOf(files) && LineMapsOf(files)[path] == files[i].lineMap
    ensures path in AddedSetsOf(files) && AddedSetsOf(files)[path] == files[i].addedLines
  {
    if i < |files| - 1 {
      MapsAreOfTheLast(files[..|files| - 1], i, path);
    }
  }

  lemma {:induction false} MapsHaveALast(files: seq<FileDiff>, path: string) returns (i: nat)
    requires path in LineMapsOf(files) || path in AddedSetsOf(files)
    ensures IsLast(files, i, path)
  {
    if files[|files| - 1].path == path {
      i := |files| - 1;
    } else {
      i := MapsHaveALast(files[..|files| - 1], path);
    }
  }

  /** Every file's line map holds its added lines, as every parsed one does. */
  predicate MapsHoldAdded(files: seq<FileDiff>) {
    forall d :: d in files ==> forall n :: n in d.addedLines ==> n in d.lineMap
  }

  lemma CanAnchorMeans(f: Finding, files: seq<FileDiff>)
    requires MapsHoldAdded(files)
    ensures CanAnchor(f, LineMapsOf(files), AddedSetsOf(files)) <==> OnAddedLine(f, files)
  {
    if CanAnchor(f, LineMapsOf(files), AddedSetsOf(files)) {
      var i := MapsHaveALast(files, f.file);
      MapsAreOfTheLast(files, i, f.file);
      assert IsLast(files, i, f.file) && f.line in files[i].addedLines;
    }
    if i: nat :| IsLast(files, i, f.file) && f.line in files[i].addedLines {
      MapsAreOfTheLast(files, i, f.file);
      assert files[i] in files;
    }
  }

  lemma ParsedMapsHoldAdded(payload: seq<FileEntry>, diffs: seq<FileDiff>)
    requires ParsedAll(payload, diffs)
    ensures MapsHoldAdded(diffs)
  {
    hide ParsedFrom;
    forall d, n | d in diffs && n in d.addedLines ensures n in d.lineMap {
      var i :| 0 <= i < |diffs| && diffs[i] == d;
      AddedIsMapped(payload[i], d, n);
    }
  }

  lemma AddedIsMapped(entry: FileEntry, d: FileDiff, n: int)
    requires ParsedFrom(entry, d) && n in d.addedLines
    ensures n in d.lineMap
  {
    hide DiffLines.Anchors;
    var ks := DiffLines.Kinds(DiffLines.PatchLines(d.patch.value));
    DiffLines.AnchorsOfAnyPatch(ks, d.lineMap, d.addedLines, n, n);
  }

  /**
   * Which reported findings are kept. Kept and dropped together are the report. A kept one, or
   * one dropped as a duplicate, is on an added line of a reviewed file of its path; one dropped
   * for another reason is not. A kept one carries the position that file's map gives its line.
   * Of those on added lines, one is kept per file, line and category.
   */
  lemma FindingsMeaning(payload: seq<FileEntry>, diffs: seq<FileDiff>, title: string, description: string,
                        s: Surroundings)
    requires ParsedAll(payload, diffs) && ResultOf(diffs, title, description, s).Reviewed?
    ensures var r := ResultOf(diffs, title, description, s);
      && multiset(KeptFindings(r.verdict.kept)) + multiset(DroppedFindings(r.verdict.dropped)) == multiset(r.report)
      && (forall k :: k in r.verdict.kept ==> k.finding in r.report && OnAddedLine(k.finding, r.files))
      && (forall d :: d in r.verdict.dropped ==> (d.reason == Duplicate <==> OnAddedLine(d.finding, r.files)))
      && (forall k :: k in r.verdict.kept ==> PlacedByTheLast(k, r.files))
      && (forall g :: g in r.report && OnAddedLine(g, r.files) ==>
            exists k :: k in r.verdict.kept && SameKey(k.finding, g) && !Beats(g, k.finding))
  {
    hide Context.ContextOf, Validated, LineMapsOf, AddedSetsOf, Chosen, Contents, ParsedAll, CanAnchor, OnAddedLine,
         Beats, SameKey, MapsHoldAdded, PlacedByTheLast;
    var r := ResultOf(diffs, title, description, s);
    ParsedMapsHoldAdded(payload, diffs);
    ChosenAreWanted(diffs, s);
    PartMapsHoldAdded(r.files, diffs);
    VerdictOnFiles(r.report, r.files);
  }

  lemma PartMapsHoldAdded(part: seq<FileDiff>, whole: seq<FileDiff>)
    requires MapsHoldAdded(whole) && forall d :: d in part ==> d in whole
    ensures MapsHoldAdded(part)
  {
  }

  lemma OnlyDuplicatesAnchor(d: Dropped, lineMaps: LineMaps, added: AddedSets)
    requires RightReason(d, lineMaps, added)
    ensures d.reason == Duplicate <==> CanAnchor(d.finding, lineMaps, added)
  {
  }

  lemma VerdictOnFiles(report: seq<Finding>, files: seq<FileDiff>)
    requires MapsHoldAdded(files)
    ensures var v := Validated(report, LineMapsOf(files), AddedSetsOf(files));
      && multiset(KeptFindings(v.kept)) + multiset(DroppedFindings(v.dropped)) == multiset(report)
      && (forall k :: k in v.kept ==> k.finding in report && OnAddedLine(k.finding, files))
      && (forall d :: d in v.dropped ==> (d.reason == Duplicate <==> OnAddedLine(d.finding, files)))
      && (forall k :: k in v.kept ==> PlacedByTheLast(k, files))
      && (forall g :: g in report && OnAddedLine(g, files) ==>
            exists k :: k in v.kept && SameKey(k.finding, g) && !Beats(g, k.finding))
  {
    hide LineMapsOf, AddedSetsOf, OnAddedLine, Beats, SameKey, MapsHoldAdded, IsLast, Judge, Sort, CanAnchor,
         RightReason, KeptFindings, DroppedFindings, PlacedByTheLast, AtItsPlace;
    var lineMaps, added := LineMapsOf(files), AddedSetsOf(files);
    VerdictIsAPartition(report, lineMaps, added);
    var v := Validated(report, lineMaps, added);
    VerdictAnchors(report, lineMaps, added);
    hide Validated;
    forall f: Finding ensures CanAnchor(f, lineMaps, added) <==> OnAddedLine(f, files) {
      CanAnchorMeans(f, files);
    }
    forall k | k in v.kept ensures PlacedByTheLast(k, files) {
      LastPlaces(k, files);
    }
  }

  /** The kept finding has the position its file's line map gives its line. */
  ghost predicate PlacedByTheLast(k: Kept, files: seq<FileDiff>) {
    forall i: nat :: IsLast(files, i, k.finding.file) ==>
      k.finding.line in files[i].lineMap && k.position == files[i].lineMap[k.finding.line]
  }

  lemma LastPlaces(k: Kept, files: seq<FileDiff>)
    requires AtItsPlace(k, LineMapsOf(files))
    ensures PlacedByTheLast(k, files)
  {
    hide LineMapsOf, AddedSetsOf, IsLast;
    forall i: nat | IsLast(files, i, k.finding.file)
      ensures i < |files| && k.finding.line in files[i].lineMap && k.position == files[i].lineMap[k.finding.line]
    {
      MapsAreOfTheLast(files, i, k.finding.file);
      LastIsAFile(files, i, k.finding.file);
    }
  }

  lemma LastIsAFile(files: seq<FileDiff>, i: nat, path: string)
    requires IsLast(files, i, path)
    ensures i < |files|
  {
  }

  lemma VerdictIsAPartition(report: seq<Finding>, lineMaps: LineMaps, added: AddedSets)
    ensures var v := Validated(report, lineMaps, added);
      multiset(KeptFindings(v.kept)) + multiset(DroppedFindings(v.dropped)) == multiset(report)
  {
    hide Judge, Sort;
    JudgeIsAPartition(Sort(report, Outranks), lineMaps, added, {});
  }

  /** The kept finding is at the place its file's map gives. */
  predicate AtItsPlace(k: Kept, lineMaps: LineMaps) {
    var f := k.finding;
    f.file in lineMaps && f.line in lineMaps[f.file] && k.position == lineMaps[f.file][f.line]
  }

  lemma VerdictAnchors(report: seq<Finding>, lineMaps: LineMaps, added: AddedSets)
    ensures var v := Validated(report, lineMaps, added);
      && (forall k :: k in v.kept ==>
            k.finding in report && CanAnchor(k.finding, lineMaps, added) && AtItsPlace(k, lineMaps))
      && (forall d :: d in v.dropped ==> (d.reason == Duplicate <==> CanAnchor(d.finding, lineMaps, added)))
      && (forall g :: g in report && CanAnchor(g, lineMaps, added) ==>
            exists k :: k in v.kept && SameKey(k.finding, g) && !Beats(g, k.finding))
  {
    ValidateInFields(report, lineMaps, added);
    hide Validated, Beats, SameKey, RightReason;
    var v := Validated(report, lineMaps, added);
    forall d | d in v.dropped ensures d.reason == Duplicate <==> CanAnchor(d.finding, lineMaps, added) {
      OnlyDuplicatesAnchor(d, lineMaps, added);
    }
  }

  /** With distinct paths every reviewed file is the one whose line map counts. */
  lemma DistinctFilesCount(diffs: seq<FileDiff>, title: string, description: string, s: Surroundings, f: Finding)
    requires DistinctPaths(diffs) && ResultOf(diffs, title, description, s).Reviewed?
    ensures var files := ResultOf(diffs, title, description, s).files;
      && DistinctPaths(files)
      && (OnAddedLine(f, files) <==> exists d :: d in files && d.path == f.file && f.line in d.addedLines)
  {
    hide Context.ContextOf, Context.IsSource, Validated, LineMapsOf, AddedSetsOf, Contents, DistinctPaths;
    var files := Chosen(diffs, s);
    var wanted := ReviewedFiles(diffs, title, description, s);
    hide Chosen;
    forall d ensures multiset(wanted)[d] <= multiset(diffs)[d] {
    }
    assert multiset(files) <= multiset(diffs);
    ContextMeaning.PartKeepsDistinct(files, diffs);
    OnlyOfItsPath(files, f);
  }

  lemma OnlyOfItsPath(files: seq<FileDiff>, f: Finding)
    requires DistinctPaths(files)
    ensures OnAddedLine(f, files) <==> exists d :: d in files && d.path == f.file && f.line in d.addedLines
  {
    if i: nat :| IsLast(files, i, f.file) && f.line in files[i].addedLines {
      assert files[i] in files;
    }
    if d :| d in files && d.path == f.file && f.line in d.addedLines {
      var i :| 0 <= i < |files| && files[i] == d;
      assert IsLast(files, i, f.file);
    }
  }
}
