/** From the protocol's runs to the lines of the files: what every row of the findings table points at. */
module EndToEnd {
  import opened Text
  import opened ChangedFiles
  import opened Validation
  import opened Reviews
  import opened Lifecycle
  import opened Pipeline
  import opened PipelineMeaning
  import LifecycleTheorems
  import Rows
  import Context
  import Trimming

  /** What a run was made from: the parsed response, the changes behind its patches, the pull request's texts. */
  datatype Origin = Origin(payload: seq<FileEntry>, diffs: seq<FileDiff>, changes: seq<Change>, title: string,
                           description: string, around: Surroundings)

  /** Every reviewable patch of the response is a unified diff of some two files. */
  ghost predicate IsOrigin(o: Origin) {
    && ParsedAll(o.payload, o.diffs) && |o.changes| == |o.diffs|
    && forall j :: 0 <= j < |o.diffs| && o.diffs[j].IsReviewable() ==> PatchIsOf(o.diffs[j], o.changes[j])
  }

  /** The run persists what the pipeline comes to on that origin. */
  predicate Persists(r: RunResult, o: Origin) {
    var result := ResultOf(o.diffs, o.title, o.description, o.around);
    && result.Reviewed? && r.report == result.report && r.lineMaps == result.lineMaps && r.added == result.added
    && r.counts == result.counts && r.title == o.title && r.description == o.description
    && r.diffTooLarge == result.diffTooLarge && r.truncated == result.truncated
  }

  /** The row stands on a `+` line of a reviewed file that holds the line of the new file it names, an added one. */
  ghost predicate StandsOnAddedLine(row: FindingRow, o: Origin, i: nat)
    requires i < |o.diffs| == |o.changes| && PatchIsOf(o.diffs[i], o.changes[i])
  {
    var after := o.changes[i].after;
    var c := o.changes[i];
    && o.diffs[i] in FilesOf(ResultOf(o.diffs, o.title, o.description, o.around)) && row.filePath == o.diffs[i].path
    && row.diffPosition.Some? && 1 <= row.line <= |after|
    && PatchMeaning.LineAtPosition(o.diffs[i].patch.value, row.diffPosition.value) == Some("+" + after[row.line - 1])
    && |PatchMeaning.Origins(c.before, after, c.hunks, 0, 0)| == |after|
    && PatchMeaning.Origins(c.before, after, c.hunks, 0, 0)[row.line - 1].None?
  }

  lemma {:induction false} RowOfSomeRun(runs: seq<PersistedRun>, row: FindingRow) returns (i: nat)
    requires row in AllRows(runs)
    ensures i < |runs| && row in RunRows(runs[i].id, runs[i].result)
  {
    hide RunRows;
    var front := runs[..|runs| - 1];
    if row in AllRows(front) {
      i := RowOfSomeRun(front, row);
    } else {
      i := |runs| - 1;
    }
  }

  lemma {:induction false} KeptRowOf(id: ReviewId, kept: seq<Kept>, row: FindingRow) returns (k: Kept)
    requires row in KeptRows(id, kept)
    ensures k in kept && row == KeptRow(id, k)
  {
    if row == KeptRow(id, kept[0]) {
      k := kept[0];
    } else {
      k := KeptRowOf(id, kept[1..], row);
    }
  }

  lemma {:induction false} DroppedRowsAreDropped(id: ReviewId, dropped: seq<Dropped>)
    ensures forall row :: row in DroppedRows(id, dropped) ==> row.dropped
  {
    if dropped != [] {
      DroppedRowsAreDropped(id, dropped[1..]);
    }
  }

  lemma RowOfKept(id: ReviewId, r: RunResult, row: FindingRow) returns (k: Kept)
    requires row in RunRows(id, r) && !row.dropped
    ensures k in Validated(r.report, r.lineMaps, r.added).kept && row == KeptRow(id, k)
  {
    hide Validated, KeptRow;
    var v := Validated(r.report, r.lineMaps, r.added);
    DroppedRowsAreDropped(id, v.dropped);
    k := KeptRowOf(id, v.kept, row);
  }

  lemma VerdictIsOnTheReport(o: Origin)
    ensures var result := ResultOf(o.diffs, o.title, o.description, o.around);
      result.Reviewed? ==> result.verdict == Validated(result.report, result.lineMaps, result.added)
  {
    hide Context.ContextOf, LineMapsOf, AddedSetsOf, Chosen, Contents, Validated;
  }

  lemma RunRowIsAnchored(id: ReviewId, r: RunResult, o: Origin, row: FindingRow) returns (i: nat)
    requires IsOrigin(o) && Persists(r, o) && row in RunRows(id, r) && !row.dropped
    ensures i < |o.diffs| == |o.changes| && PatchIsOf(o.diffs[i], o.changes[i])
    ensures row.reviewId == id && StandsOnAddedLine(row, o, i)
  {
    VerdictIsOnTheReport(o);
    hide RunRows, Validated, ResultOf, Chosen, PatchMeaning.IsPatchOf, PatchMeaning.Origins,
         PatchMeaning.LineAtPosition, ParsedAll;
    var k := RowOfKept(id, r, row);
    i := KeptFindingsAreAnchored(o.payload, o.diffs, o.changes, o.title, o.description, o.around, k);
  }

  /**
   * End to end, over every interleaving of handlers, deliveries and crashes: when each
   * persisted run wrote what the pipeline made of some response, every finding in the table
   * that is not dropped belongs to the review of such a run and stands on a `+` line of a file
   * reviewed in it that holds exactly the line of the new file it names.
   */
  lemma StoredFindingsAreAnchored(steps: seq<Step>, origins: seq<Origin>, row: FindingRow) returns (n: nat, i: nat)
    requires Possible(INITIAL, steps)
    requires var s := After(INITIAL, steps);
      && |origins| == |s.persisted| && row in s.db.findings && !row.dropped
      && forall m :: 0 <= m < |origins| ==> IsOrigin(origins[m]) && Persists(s.persisted[m].result, origins[m])
    ensures var s := After(INITIAL, steps);
      && n < |origins| == |s.persisted| && row.reviewId == s.persisted[n].id && row.reviewId in s.db.reviews
    ensures i < |origins[n].diffs| == |origins[n].changes| && PatchIsOf(origins[n].diffs[i], origins[n].changes[i])
    ensures StandsOnAddedLine(row, origins[n], i)
  {
    hide Possible, After, RunRows, IsOrigin, Persists, StandsOnAddedLine, KeyIsUnique, HandlersOk, OneEnqueue, RowsOk;
    LifecycleTheorems.ReachableIsFine(steps);
    var s := After(INITIAL, steps);
    n := RowOfSomeRun(s.persisted, row);
    i := RunRowIsAnchored(s.persisted[n].id, s.persisted[n].result, origins[n], row);
  }

  /**
   * From the response to the row: a persisted run writes the number of files of the response,
   * the sums of their additions and deletions, the cut title, description and diff, and is
   * partial exactly when the wanted files were over the line limit or the context was truncated.
   */
  lemma PersistedRowReads(db: Db, id: ReviewId, r: RunResult, o: Origin, now: Time) returns (wanted: seq<FileDiff>)
    requires id in db.reviews && IsOrigin(o) && Persists(r, o)
    ensures Selects(o.diffs, o.around, wanted)
    ensures var row := PersistTx(db, id, r, now).reviews[id];
      && row.changedFiles == |o.payload| && row.addedLines == Additions(o.diffs)
      && row.deletedLines == Deletions(o.diffs)
      && row.title == Cut(o.title, 1000) && row.description == Cut(o.description, 20000)
      && row.rawDiff == Some(Cut(o.around.rawDiff, o.around.maxDiffStore))
      && (row.isPartial <==> Trimming.Total(wanted) > o.around.maxChangedLines || r.truncated)
  {
    hide ResultOf, PersistTx, Selects, Additions, Deletions, ParsedFrom, PatchIsOf;
    wanted := ReviewedFiles(o.diffs, o.title, o.description, o.around);
    CountsMeaning(o.diffs, o.title, o.description, o.around);
    Rows.PersistedRow(db, id, r, now);
  }
}
