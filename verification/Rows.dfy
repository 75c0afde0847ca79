/** What every transaction writes, column by column. */
module Rows {
  import opened Text
  import opened Validation
  import opened Reviews

  /** The row a webhook inserts. */
  lemma InsertedRow(db: Db, newId: ReviewId, e: Event, delivery: Option<string>, now: Time)
    requires Commit(e.repositoryId, e.prNumber, e.headSha) !in db.index && newId !in db.reviews
    ensures var db2 := UpsertTx(db, newId, e, delivery, now).0;
      && db2.index == db.index[Commit(e.repositoryId, e.prNumber, e.headSha) := newId] && db2.findings == db.findings
      && db2.reviews.Keys == db.reviews.Keys + {newId}
      && (forall id :: id in db.reviews ==> db2.reviews[id] == db.reviews[id])
      && var row := db2.reviews[newId];
         && row.identity.commit.repositoryId == e.repositoryId && row.identity.commit.prNumber == e.prNumber
         && row.identity.commit.headSha == e.headSha && row.identity.baseSha == e.baseSha
         && row.identity.installationId == e.installationId
         && row.identity.repositoryFullName == e.repositoryFullName
         && row.identity.deliveryId == delivery && row.identity.eventAction == e.action && row.identity.createdAt == now
         && row.status == Queued && row.title == Cut(e.title, 1000) && row.description == Cut(e.body, 20000)
         && row.changedFiles == 0 && row.addedLines == 0 && row.deletedLines == 0
         && !row.isPartial && row.partialReason == None && row.rawDiff == None && row.error == None
         && row.usage == Usage(0, 0, 0, 0, 0.0)
         && row.startedAt == None && row.finishedAt == None && row.updatedAt == now
  {
    hide Cut;
  }

  /** The columns no run of the worker touches. */
  predicate SameOrigin(a: Review, b: Review) {
    a.identity == b.identity
  }

  /** The columns that describe the change. */
  predicate SameContent(a: Review, b: Review) {
    && a.title == b.title && a.description == b.description && a.rawDiff == b.rawDiff && a.usage == b.usage
    && a.changedFiles == b.changedFiles && a.addedLines == b.addedLines && a.deletedLines == b.deletedLines
  }

  /** Only the row changes, and what the worker never touches stays. */
  ghost predicate OnlyRow(db: Db, db2: Db, id: ReviewId) {
    && db2.index == db.index && id in db.reviews && db2.reviews.Keys == db.reviews.Keys
    && (forall other :: other in db.reviews && other != id ==> db2.reviews[other] == db.reviews[other])
    && SameOrigin(db2.reviews[id], db.reviews[id])
  }

  lemma BegunRow(db: Db, id: ReviewId, now: Time)
    requires id in db.reviews
    ensures var db2 := BeginTx(db, id, now);
      && OnlyRow(db, db2, id) && db2.findings == db.findings
      && var row, was := db2.reviews[id], db.reviews[id];
         && row.status == Running && row.startedAt == Some(now) && row.updatedAt == now
         && SameContent(row, was) && row.finishedAt == was.finishedAt && row.error == was.error
         && row.isPartial == was.isPartial && row.partialReason == was.partialReason
  {
  }

  lemma SkippedRow(db: Db, id: ReviewId, reason: PartialReason, counts: Option<Counts>, now: Time)
    requires id in db.reviews
    ensures var db2 := SkipTx(db, id, reason, counts, now);
      && OnlyRow(db, db2, id) && db2.findings == db.findings
      && var row, was := db2.reviews[id], db.reviews[id];
         && row.status == Skipped && row.partialReason == Some(reason) && row.finishedAt == Some(now)
         && row.updatedAt == now
         && row.title == was.title && row.description == was.description && row.usage == was.usage
         && row.isPartial == was.isPartial && row.error == was.error && row.startedAt == was.startedAt
         && (counts == None ==> SameContent(row, was))
         && (counts.Some? ==>
               && row.changedFiles == counts.value.changedFiles && row.addedLines == counts.value.addedLines
               && row.deletedLines == counts.value.deletedLines && row.rawDiff == Some(counts.value.rawDiff))
  {
  }

  lemma FailedRow(db: Db, id: ReviewId, kind: string, message: string, now: Time)
    requires id in db.reviews
    ensures var db2 := FailTx(db, id, kind, message, now);
      && OnlyRow(db, db2, id) && db2.findings == db.findings
      && var row, was := db2.reviews[id], db.reviews[id];
         && row.status == Failed && row.error == Some(Raised(kind, Cut(message, 2000)))
         && row.finishedAt == Some(now) && row.updatedAt == now && row.startedAt == was.startedAt
         && SameContent(row, was) && row.isPartial == was.isPartial && row.partialReason == was.partialReason
  {
    hide Cut;
  }

  /** Each column of the row that a run persists is the run's own value. */
  lemma PersistedRow(db: Db, id: ReviewId, r: RunResult, now: Time)
    requires id in db.reviews
    ensures var db2 := PersistTx(db, id, r, now);
      && OnlyRow(db, db2, id)
      && var row, was := db2.reviews[id], db.reviews[id];
         && row.title == Cut(r.title, 1000) && row.description == Cut(r.description, 20000)
         && row.changedFiles == r.counts.changedFiles && row.addedLines == r.counts.addedLines
         && row.deletedLines == r.counts.deletedLines && row.rawDiff == Some(r.counts.rawDiff)
         && row.usage.inputTokens == r.usage.inputTokens && row.usage.outputTokens == r.usage.outputTokens
         && row.usage.cacheReadTokens == r.usage.cacheReadTokens
         && row.usage.cacheCreationTokens == r.usage.cacheCreationTokens
         && row.usage.costUsd == Nearest(r.usage.costUsd * 1000000.0) as real / 1000000.0
         && (row.isPartial <==> r.diffTooLarge || r.truncated)
         && (row.status == Partial <==> r.diffTooLarge || r.truncated)
         && (row.status == Completed <==> !r.diffTooLarge && !r.truncated)
         && (r.diffTooLarge ==> row.partialReason == Some(DiffTooLarge))
         && (!r.diffTooLarge && r.truncated ==> row.partialReason == Some(ContextTruncated))
         && (!r.diffTooLarge && !r.truncated ==> row.partialReason == None)
         && row.error == (if r.refused then Some(Refusal) else was.error)
         && row.startedAt == was.startedAt && row.finishedAt == Some(now) && row.updatedAt == now
  {
    hide RunRows, Cut, Nearest;
  }

  /** A row of the findings table repeats its finding: title cut, confidence rounded. */
  predicate Repeats(row: FindingRow, id: ReviewId, f: Finding) {
    && row.reviewId == id && row.filePath == f.file && row.line == f.line
    && row.severity == f.severity && row.category == f.category
    && row.title == Cut(f.title, 200) && row.description == f.description
    && row.confidence == Nearest(f.confidence * 1000.0) as real / 1000.0
  }

  lemma {:induction false} KeptRowsAt(id: ReviewId, kept: seq<Kept>)
    ensures forall i :: 0 <= i < |kept| ==> KeptRows(id, kept)[i] == KeptRow(id, kept[i])
  {
    if kept != [] {
      KeptRowsAt(id, kept[1..]);
    }
  }

  lemma {:induction false} DroppedRowsAt(id: ReviewId, dropped: seq<Dropped>)
    ensures forall i :: 0 <= i < |dropped| ==> DroppedRows(id, dropped)[i] == DroppedRow(id, dropped[i])
  {
    if dropped != [] {
      DroppedRowsAt(id, dropped[1..]);
    }
  }

  /**
   * The rows a run appends: first one for each kept finding, with its position, then one for
   * each dropped one, with its reason.
   */
  lemma PersistedFindings(db: Db, id: ReviewId, r: RunResult, now: Time) returns (rows: seq<FindingRow>)
    requires id in db.reviews
    ensures PersistTx(db, id, r, now).findings == db.findings + rows
    ensures var v := Validated(r.report, r.lineMaps, r.added);
      && |rows| == |v.kept| + |v.dropped|
      && (forall i :: 0 <= i < |v.kept| ==>
            && Repeats(rows[i], id, v.kept[i].finding)
            && !rows[i].dropped && rows[i].diffPosition == Some(v.kept[i].position) && rows[i].dropReason == None)
      && (forall i :: 0 <= i < |v.dropped| ==>
            var row := rows[|v.kept| + i];
            && Repeats(row, id, v.dropped[i].finding)
            && row.dropped && row.diffPosition == None && row.dropReason == Some(v.dropped[i].reason))
  {
    hide Validated, Reviewed, Cut, Nearest;
    rows := RunRows(id, r);
    var v := Validated(r.report, r.lineMaps, r.added);
    KeptRowsAt(id, v.kept);
    DroppedRowsAt(id, v.dropped);
  }
}
