/** What holds of every run of the review protocol. */
module LifecycleTheorems {
  import opened Text
  import opened StableSort
  import opened Validation
  import opened Reviews
  import opened Lifecycle

  lemma ReachableIsFine(steps: seq<Step>)
    requires Possible(INITIAL, steps)
    ensures Inv(After(INITIAL, steps))
  {
    InitialIsFine();
    StepsKeepInv(INITIAL, steps);
  }

  /* ---- at most one enqueue ---- */

  /**
   * Over all interleavings, crashes included: each row's task has been sent once, or one
   * live handler is about to send it, or the one handler that would have has died; no
   * task is sent twice, and none without its row.
   */
  lemma AtMostOneEnqueue(steps: seq<Step>, id: ReviewId)
    requires Possible(INITIAL, steps)
    ensures var s := After(INITIAL, steps);
      && Sends(s, id) + |Live(s, id)| + |Lost(s, id)| == (if id in s.db.reviews then 1 else 0)
      && (id in s.sent ==> id in s.db.reviews)
  {
    hide Possible, After;
    ReachableIsFine(steps);
    var s := After(INITIAL, steps);
    assert OneEnqueue(s, id);
    if id in s.sent {
      SentAreRows(s, id);
    }
  }

  /** Handlers that got past the upsert for the same commit hold the same review, the only row with that commit. */
  lemma SameCommitSameReview(steps: seq<Step>, h1: HandlerId, h2: HandlerId)
    requires Possible(INITIAL, steps)
    requires var hs := After(INITIAL, steps).handlers;
      && h1 in hs && h2 in hs && (hs[h1].Committed? || hs[h1].Answered?) && (hs[h2].Committed? || hs[h2].Answered?)
    ensures var s := After(INITIAL, steps);
      var e1, e2 := s.handlers[h1].event, s.handlers[h2].event;
      && (s.handlers[h1].id == s.handlers[h2].id <==>
            e1.repositoryId == e2.repositoryId && e1.prNumber == e2.prNumber && e1.headSha == e2.headSha)
      && var commit := Commit(e1.repositoryId, e1.prNumber, e1.headSha);
         forall id :: id in s.db.reviews && s.db.reviews[id].identity.commit == commit ==> id == s.handlers[h1].id
  {
    hide Possible, After, OneEnqueue, RowsOk, WorkersOk, FindingsOk;
    ReachableIsFine(steps);
  }

  /** A delivery for a commit that has a row changes `updated_at` of that row and nothing else. */
  lemma RedeliveryOnlyTouches(db: Db, newId: ReviewId, e: Event, delivery: Option<string>, now: Time)
    requires KeyIsUnique(db)
    ensures var (db2, r) := UpsertTx(db, newId, e, delivery, now);
      match r
      case Returned(id, true) =>
        && id == newId && id !in db.reviews && db2.index == db.index[CommitOf(e) := id]
        && (forall other :: other in db.reviews ==> db.reviews[other].identity.commit != CommitOf(e))
        && db2.findings == db.findings && db2.reviews == db.reviews[id := NewReview(e, delivery, now)]
      case Returned(id, false) =>
        id in db.reviews && db.reviews[id].identity.commit == CommitOf(e)
        && db2 == db.(reviews := db.reviews[id := db.reviews[id].(updatedAt := now)])
      case Rejected => db2 == db && newId in db.reviews
  {
  }

  /** The `missing` branch of the worker is unreachable: every delivered task finds its row. */
  lemma TasksFindTheirRow(steps: seq<Step>, w: WorkerId)
    requires Possible(INITIAL, steps) && w in After(INITIAL, steps).workers
    ensures After(INITIAL, steps).workers[w] != Missing
    ensures After(INITIAL, steps).workers[w].id in After(INITIAL, steps).db.reviews
  {
    hide Possible, After, OneEnqueue, RowsOk, KeyIsUnique, FindingsOk;
    ReachableIsFine(steps);
  }

  /** A row is worked on only if its task was sent; a review whose handler died first stays queued. */
  lemma LostReviewStaysQueued(steps: seq<Step>, id: ReviewId, h: HandlerId)
    requires Possible(INITIAL, steps)
    requires var s := After(INITIAL, steps); h in s.handlers && s.handlers[h] == Dead(Some(id))
    ensures var s := After(INITIAL, steps); id in s.db.reviews && s.db.reviews[id].status == Queued && id !in s.sent
  {
    hide Possible, After, KeyIsUnique, FindingsOk, RowOk;
    ReachableIsFine(steps);
    var s := After(INITIAL, steps);
    assert OneEnqueue(s, id);
    assert h in Lost(s, id);
    assert Lost(s, id) != {};
    assert multiset(s.sent)[id] == 0;
  }

  /* ---- rows ---- */

  /** Every row of every reachable state, overlapping and repeated runs included. */
  lemma RowsAreCoherent(steps: seq<Step>, id: ReviewId)
    requires Possible(INITIAL, steps) && id in After(INITIAL, steps).db.reviews
    ensures var s := After(INITIAL, steps);
      var r := s.db.reviews[id];
      && (r.status.Queued? ==>
            r.startedAt == None && r.finishedAt == None && r.partialReason == None && r.error == None)
      && (!r.status.Queued? ==> r.startedAt.Some? && '/' in r.identity.repositoryFullName && id in s.sent)
      && (r.status.Completed? || r.status.Partial? || r.status.Skipped? || r.status.Failed? ==>
            r.finishedAt.Some? && r.finishedAt.value >= r.startedAt.value)
      && (r.status.Completed? || r.status.Partial? ==>
            (r.status.Completed? <==> !r.isPartial && r.partialReason == None))
      && (r.status.Partial? ==> r.partialReason == Some(DiffTooLarge) || r.partialReason == Some(ContextTruncated))
      && (r.status.Skipped? ==>
            r.partialReason in {Some(PrNotFound), Some(Superseded), Some(NothingReviewable)})
      && (r.status.Failed? ==> r.error.Some? && r.error.value.Raised?)
  {
    hide Possible, After, OneEnqueue, KeyIsUnique, FindingsOk, HandlersOk, WorkersOk;
    ReachableIsFine(steps);
    assert RowsOk(After(INITIAL, steps));
  }

  /** What no step takes back. */
  ghost predicate Grows(s: State, t: State) {
    && s.clock <= t.clock && s.sent <= t.sent && s.persisted <= t.persisted && s.db.findings <= t.db.findings
    && forall id :: id in s.db.reviews ==>
         && id in t.db.reviews && t.db.reviews[id].identity == s.db.reviews[id].identity
         && (t.db.reviews[id].status.Queued? ==> s.db.reviews[id].status.Queued?)
  }

  lemma GrowsTransitive(s: State, t: State, u: State)
    requires Grows(s, t) && Grows(t, u)
    ensures Grows(s, u)
  {
  }

  lemma StepGrows(s: State, step: Step)
    requires Inv(s) && Enabled(s, step)
    ensures Grows(s, Do(s, step))
  {
    hide RunRows, Reviewed, OneEnqueue, RowsOk, FindingsOk, KeyIsUnique, HandlersOk;
    if step.Skip? || step.Persist? || step.Fail? {
      WorkerStepRewrites(s, step);
    }
  }

  /**
   * Along every run rows are never deleted nor their insert-time columns changed, a
   * status never returns to queued, and messages and findings are only ever appended.
   */
  lemma {:induction false} RunsGrow(s: State, steps: seq<Step>)
    requires Inv(s) && Possible(s, steps)
    ensures Grows(s, After(s, steps))
    decreases |steps|
  {
    hide Inv, Do, Enabled, Grows;
    if steps == [] {
      GrowsReflexive(s);
    } else {
      StepGrows(s, steps[0]);
      StepKeepsInv(s, steps[0]);
      RunsGrow(Do(s, steps[0]), steps[1..]);
      GrowsTransitive(s, Do(s, steps[0]), After(s, steps));
    }
  }

  lemma GrowsReflexive(s: State)
    ensures Grows(s, s)
  {
  }

  /* ---- findings ---- */

  function OfReview(id: ReviewId): FindingRow -> bool {
    (row: FindingRow) => row.reviewId == id
  }

  function RunOf(id: ReviewId): PersistedRun -> bool {
    (run: PersistedRun) => run.id == id
  }

  lemma {:induction false} FilterAllOrNone<T(!new)>(s: seq<T>, keep: T -> bool)
    ensures (forall x :: x in s ==> keep(x)) ==> Filter(s, keep) == s
    ensures (forall x :: x in s ==> !keep(x)) ==> Filter(s, keep) == []
  {
    if s != [] {
      assert s == [s[0]] + s[1..];
      FilterAllOrNone(s[1..], keep);
    }
  }

  /** A row of the findings table is either kept, with a position, or dropped, with a reason. */
  predicate WellMarked(row: FindingRow) {
    if row.dropped then row.diffPosition == None && row.dropReason.Some?
    else row.diffPosition.Some? && row.dropReason == None
  }

  lemma {:induction false} KeptRowsShape(id: ReviewId, kept: seq<Kept>)
    ensures forall row :: row in KeptRows(id, kept) ==> row.reviewId == id && WellMarked(row)
  {
    if kept != [] {
      KeptRowsShape(id, kept[1..]);
    }
  }

  lemma {:induction false} DroppedRowsShape(id: ReviewId, dropped: seq<Dropped>)
    ensures forall row :: row in DroppedRows(id, dropped) ==> row.reviewId == id && WellMarked(row)
  {
    if dropped != [] {
      DroppedRowsShape(id, dropped[1..]);
    }
  }

  lemma RunRowsShape(id: ReviewId, r: RunResult)
    ensures forall row :: row in RunRows(id, r) ==> row.reviewId == id && WellMarked(row)
  {
    hide Validated, WellMarked;
    var v := Validated(r.report, r.lineMaps, r.added);
    KeptRowsShape(id, v.kept);
    DroppedRowsShape(id, v.dropped);
  }

  lemma {:induction false} RowsOfReview(runs: seq<PersistedRun>, id: ReviewId)
    ensures Filter(AllRows(runs), OfReview(id)) == AllRows(Filter(runs, RunOf(id)))
  {
    hide RunRows, Filter;
    if runs == [] {
      FilterAllOrNone(runs, RunOf(id));
      FilterAllOrNone<FindingRow>([], OfReview(id));
    } else {
      var front, last := runs[..|runs| - 1], runs[|runs| - 1];
      RowsOfReview(front, id);
      RunRowsShape(last.id, last.result);
      FilterAllOrNone(RunRows(last.id, last.result), OfReview(id));
      FilterConcat(AllRows(front), RunRows(last.id, last.result), OfReview(id));
      FilterAllOrNone([last], RunOf(id));
      FilterConcat(front, [last], RunOf(id));
      assert runs == front + [last];
      if last.id == id {
        AllRowsSnoc(Filter(front, RunOf(id)), last);
      } else {
        assert Filter(front, RunOf(id)) + [] == Filter(front, RunOf(id));
        assert AllRows(Filter(front, RunOf(id))) + [] == AllRows(Filter(front, RunOf(id)));
      }
    }
  }

  /** What the table records of a finding. */
  datatype Recorded = Recorded(file: string, line: int, severity: string, category: string, title: string,
                               description: string, confidence: real)

  function RecordOf(f: Finding): Recorded {
    Recorded(f.file, f.line, f.severity, f.category, Cut(f.title, 200), f.description, Round3(f.confidence))
  }

  function ContentOf(row: FindingRow): Recorded {
    Recorded(row.filePath, row.line, row.severity, row.category, row.title, row.description, row.confidence)
  }

  function Records(findings: seq<Finding>): multiset<Recorded> {
    if findings == [] then multiset{} else multiset{RecordOf(findings[0])} + Records(findings[1..])
  }

  function RowContents(rows: seq<FindingRow>): multiset<Recorded> {
    if rows == [] then multiset{} else multiset{ContentOf(rows[0])} + RowContents(rows[1..])
  }

  lemma {:induction false} RecordsConcat(a: seq<Finding>, b: seq<Finding>)
    ensures Records(a + b) == Records(a) + Records(b)
  {
    hide RecordOf;
    if a == [] {
      assert a + b == b;
    } else {
      assert (a + b)[1..] == a[1..] + b;
      RecordsConcat(a[1..], b);
    }
  }

  lemma {:induction false} RowContentsConcat(a: seq<FindingRow>, b: seq<FindingRow>)
    ensures RowContents(a + b) == RowContents(a) + RowContents(b)
  {
    hide ContentOf;
    if a == [] {
      assert a + b == b;
    } else {
      assert (a + b)[1..] == a[1..] + b;
      RowContentsConcat(a[1..], b);
    }
  }

  lemma RecordsCons(f: Finding, rest: seq<Finding>)
    ensures Records([f] + rest) == multiset{RecordOf(f)} + Records(rest)
  {
    assert ([f] + rest)[1..] == rest;
  }

  /** Records depend on which findings there are, not on their order. */
  lemma {:induction false} RecordsForgetOrder(a: seq<Finding>, b: seq<Finding>)
    requires multiset(a) == multiset(b)
    ensures Records(a) == Records(b)
  {
    hide RecordOf;
    if a == [] {
      assert |multiset(b)| == 0;
      assert b == [];
    } else {
      SameElements(a, b);
      assert a[0] in a && a[0] in b;
      var k :| 0 <= k < |b| && b[k] == a[0];
      var rest := b[..k] + b[k + 1..];
      assert a == [a[0]] + a[1..];
      assert b == b[..k] + ([a[0]] + b[k + 1..]);
      assert multiset(a[1..]) == multiset(a) - multiset{a[0]};
      assert multiset(rest) == multiset(b) - multiset{a[0]};
      RecordsForgetOrder(a[1..], rest);
      RecordsCons(a[0], a[1..]);
      RecordsCons(a[0], b[k + 1..]);
      hide Records;
      RecordsConcat(b[..k], b[k + 1..]);
      RecordsConcat(b[..k], [a[0]] + b[k + 1..]);
    }
  }

  lemma {:induction false} KeptContents(id: ReviewId, kept: seq<Kept>)
    ensures RowContents(KeptRows(id, kept)) == Records(KeptFindings(kept))
  {
    if kept != [] {
      KeptContents(id, kept[1..]);
      assert KeptRows(id, kept)[1..] == KeptRows(id, kept[1..]) && KeptFindings(kept)[1..] == KeptFindings(kept[1..]);
    }
  }

  lemma {:induction false} DroppedContents(id: ReviewId, dropped: seq<Dropped>)
    ensures RowContents(DroppedRows(id, dropped)) == Records(DroppedFindings(dropped))
  {
    if dropped != [] {
      DroppedContents(id, dropped[1..]);
      assert DroppedRows(id, dropped)[1..] == DroppedRows(id, dropped[1..]);
      assert DroppedFindings(dropped)[1..] == DroppedFindings(dropped[1..]);
    }
  }

  /** A persisted run records each reported finding once, kept or dropped. */
  lemma RunRecordsReport(id: ReviewId, r: RunResult)
    ensures RowContents(RunRows(id, r)) == Records(r.report)
  {
    hide Sort, Judge, KeptRows, DroppedRows, Records, RowContents;
    var v := Validated(r.report, r.lineMaps, r.added);
    JudgeIsAPartition(Sort(r.report, Outranks), r.lineMaps, r.added, {});
    KeptContents(id, v.kept);
    DroppedContents(id, v.dropped);
    RowContentsConcat(KeptRows(id, v.kept), DroppedRows(id, v.dropped));
    RecordsConcat(KeptFindings(v.kept), DroppedFindings(v.dropped));
    RecordsForgetOrder(KeptFindings(v.kept) + DroppedFindings(v.dropped), r.report);
  }

  /** The reports of the runs, one after the other. */
  function Reports(runs: seq<PersistedRun>): seq<Finding> {
    if runs == [] then [] else Reports(runs[..|runs| - 1]) + runs[|runs| - 1].result.report
  }

  lemma {:induction false} RunsRecordReports(runs: seq<PersistedRun>)
    ensures RowContents(AllRows(runs)) == Records(Reports(runs))
    ensures forall row :: row in AllRows(runs) ==> WellMarked(row)
  {
    hide RunRows, RowContents, Records, WellMarked;
    if runs == [] {
      NothingRecorded();
    } else {
      var front, last := runs[..|runs| - 1], runs[|runs| - 1];
      RunsRecordReports(front);
      RunRecordsReport(last.id, last.result);
      RunRowsShape(last.id, last.result);
      RowContentsConcat(AllRows(front), RunRows(last.id, last.result));
      RecordsConcat(Reports(front), last.result.report);
    }
  }

  lemma NothingRecorded()
    ensures RowContents([]) == multiset{} && Records([]) == multiset{}
  {
  }

  /**
   * Findings are conserved over every run of the system: the rows of a review are those
   * of its persisted runs, in the order they committed; they record each finding those
   * runs reported exactly once, kept with a position or dropped with a reason; and no
   * delivery persists twice. Skipped, failed and crashed deliveries add nothing, and a
   * queued review has none.
   */
  lemma FindingsAreConserved(steps: seq<Step>, id: ReviewId)
    requires Possible(INITIAL, steps)
    ensures var s := After(INITIAL, steps);
      var runs := Filter(s.persisted, RunOf(id));
      var rows := Filter(s.db.findings, OfReview(id));
      && rows == AllRows(runs)
      && RowContents(rows) == Records(Reports(runs))
      && (forall row :: row in rows ==> WellMarked(row))
      && (forall i, j :: 0 <= i < j < |s.persisted| ==> s.persisted[i].worker != s.persisted[j].worker)
      && (id in s.db.reviews && s.db.reviews[id].status.Queued? ==> rows == [])
  {
    hide Possible, After, OneEnqueue, KeyIsUnique, HandlersOk, RowsOk, RowContents, Records, WellMarked, RunRows;
    ReachableIsFine(steps);
    var s := After(INITIAL, steps);
    var runs := Filter(s.persisted, RunOf(id));
    RowsOfReview(s.persisted, id);
    RunsRecordReports(runs);
    if id in s.db.reviews && s.db.reviews[id].status.Queued? {
      NoRunOfAQueuedReview(s, id);
    }
  }

  lemma NoRunOfAQueuedReview(s: State, id: ReviewId)
    requires WorkersOk(s) && FindingsOk(s) && id in s.db.reviews && s.db.reviews[id].status.Queued?
    ensures Filter(s.persisted, RunOf(id)) == []
  {
    FilterAllOrNone(s.persisted, RunOf(id));
  }
}
