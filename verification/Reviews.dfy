/**
 * The reviews and findings tables, and the transactions that write them (apps/api/routes/webhooks.py,
 * apps/worker/tasks.py, db/models.py). Each transaction is a function on the tables; the
 * store's methods carry them out step by step.
 */
module Reviews {
  import opened Text
  import opened Validation

  type ReviewId = nat
  type Time = nat

  datatype Event = Event(installationId: int, repositoryId: int, repositoryFullName: string, prNumber: int,
                         headSha: string, baseSha: string, action: string, title: string, body: string)

  /** The idempotency key, `uq_review_repo_pr_sha`. */
  datatype Commit = Commit(repositoryId: int, prNumber: int, headSha: string)

  function CommitOf(e: Event): Commit {
    Commit(e.repositoryId, e.prNumber, e.headSha)
  }

  datatype Status = Queued | Running | Completed | Partial | Failed | Skipped {
    predicate Terminal() {
      !Queued? && !Running?
    }
  }

  datatype PartialReason = PrNotFound | Superseded | NothingReviewable | DiffTooLarge | ContextTruncated

  datatype ErrorInfo = Refusal | Raised(kind: string, message: string)

  /** Columns written once, by the insert. */
  datatype Identity = Identity(commit: Commit, installationId: int, repositoryFullName: string, baseSha: string,
                               deliveryId: Option<string>, eventAction: string, createdAt: Time)

  datatype Usage = Usage(inputTokens: int, outputTokens: int, cacheReadTokens: int, cacheCreationTokens: int,
                         costUsd: real)

  datatype Review = Review(identity: Identity, status: Status, title: string, description: string, changedFiles: int,
                           addedLines: int, deletedLines: int, isPartial: bool,
                           partialReason: Option<PartialReason>, rawDiff: Option<string>, usage: Usage,
                           error: Option<ErrorInfo>, startedAt: Option<Time>, finishedAt: Option<Time>, updatedAt: Time)

  datatype FindingRow = FindingRow(reviewId: ReviewId, filePath: string, line: int, diffPosition: Option<int>,
                                   severity: string, category: string, title: string, description: string,
                                   confidence: real, dropped: bool, dropReason: Option<Reason>)

  /** The tables; `index` is the unique index on the commit. */
  datatype Db = Db(reviews: map<ReviewId, Review>, index: map<Commit, ReviewId>, findings: seq<FindingRow>)

  const EMPTY := Db(map[], map[], [])

  /* ---- the webhook's transaction ---- */

  datatype Upserted = Returned(id: ReviewId, created: bool) | Rejected

  function NewReview(e: Event, delivery: Option<string>, now: Time): Review {
    Review(Identity(CommitOf(e), e.installationId, e.repositoryFullName, e.baseSha, delivery, e.action, now), Queued,
           Cut(e.title, 1000), Cut(e.body, 20000), 0, 0, 0, false, None, None, Usage(0, 0, 0, 0, 0.0),
           None, None, None, now)
  }

  /** Insert, or touch the row that has the commit; an id that is already taken is refused by the primary key. */
  function UpsertTx(db: Db, newId: ReviewId, e: Event, delivery: Option<string>, now: Time): (Db, Upserted) {
    var commit := CommitOf(e);
    if commit in db.index then
      var id := db.index[commit];
      if id in db.reviews
      then (db.(reviews := db.reviews[id := db.reviews[id].(updatedAt := now)]), Returned(id, false))
      else (db, Rejected)
    else if newId in db.reviews then (db, Rejected)
    else (db.(reviews := db.reviews[newId := NewReview(e, delivery, now)], index := db.index[commit := newId]),
          Returned(newId, true))
  }

  /* ---- the worker's transactions ---- */

  function Update(db: Db, id: ReviewId, row: Review): Db {
    db.(reviews := db.reviews[id := row])
  }

  /**
   * The worker splits the name into owner and repository; without a slash that raises, and the
   * transaction is rolled back.
   */
  predicate NamesRepository(r: Review) {
    '/' in r.identity.repositoryFullName
  }

  function BeginTx(db: Db, id: ReviewId, now: Time): Db
    requires id in db.reviews
  {
    Update(db, id, db.reviews[id].(status := Running, startedAt := Some(now), updatedAt := now))
  }

  datatype Counts = Counts(changedFiles: int, addedLines: int, deletedLines: int, rawDiff: string)

  /** `_finish`: every call site passes `skipped` and a reason; the counts when they are known. */
  function SkipTx(db: Db, id: ReviewId, reason: PartialReason, counts: Option<Counts>, now: Time): Db
    requires id in db.reviews
  {
    var row := db.reviews[id].(status := Skipped, partialReason := Some(reason), finishedAt := Some(now),
                               updatedAt := now);
    Update(db, id, match counts
      case None => row
      case Some(c) => row.(changedFiles := c.changedFiles, addedLines := c.addedLines, deletedLines := c.deletedLines,
                           rawDiff := Some(c.rawDiff)))
  }

  function FailTx(db: Db, id: ReviewId, kind: string, message: string, now: Time): Db
    requires id in db.reviews
  {
    Update(db, id, db.reviews[id].(status := Failed, finishedAt := Some(now),
                                   error := Some(Raised(kind, Cut(message, 2000))), updatedAt := now))
  }

  /** What a run brings to its persist transaction. */
  datatype RunResult = RunResult(title: string, description: string, counts: Counts, diffTooLarge: bool,
                                 truncated: bool, usage: Usage, refused: bool, report: seq<Finding>,
                                 lineMaps: LineMaps, added: AddedSets)

  /** The nearest integer, ties to even. */
  function Nearest(x: real): (n: int)
    ensures -0.5 <= x - n as real <= 0.5
    ensures x - n as real == 0.5 || x - n as real == -0.5 ==> n % 2 == 0
  {
    var low := x.Floor;
    var gap := x - low as real;
    if gap < 0.5 || (gap == 0.5 && low % 2 == 0) then low else low + 1
  }

  /** `round(x, 3)` */
  function Round3(x: real): real {
    Nearest(x * 1000.0) as real / 1000.0
  }

  /** `round(x, 6)` */
  function Round6(x: real): real {
    Nearest(x * 1000000.0) as real / 1000000.0
  }

  function KeptRow(id: ReviewId, k: Kept): FindingRow {
    var f := k.finding;
    FindingRow(id, f.file, f.line, Some(k.position), f.severity, f.category, Cut(f.title, 200), f.description,
               Round3(f.confidence), false, None)
  }

  function DroppedRow(id: ReviewId, d: Dropped): FindingRow {
    var f := d.finding;
    FindingRow(id, f.file, f.line, None, f.severity, f.category, Cut(f.title, 200), f.description, Round3(f.confidence),
               true, Some(d.reason))
  }

  function KeptRows(id: ReviewId, kept: seq<Kept>): (rows: seq<FindingRow>)
    ensures |rows| == |kept|
  {
    if kept == [] then [] else [KeptRow(id, kept[0])] + KeptRows(id, kept[1..])
  }

  function DroppedRows(id: ReviewId, dropped: seq<Dropped>): (rows: seq<FindingRow>)
    ensures |rows| == |dropped|
  {
    if dropped == [] then [] else [DroppedRow(id, dropped[0])] + DroppedRows(id, dropped[1..])
  }

  function RunRows(id: ReviewId, r: RunResult): seq<FindingRow> {
    var v := Validated(r.report, r.lineMaps, r.added);
    KeptRows(id, v.kept) + DroppedRows(id, v.dropped)
  }

  function Reviewed(row: Review, r: RunResult, now: Time): Review {
    var isPartial := r.diffTooLarge || r.truncated;
    row.(title := Cut(r.title, 1000), description := Cut(r.description, 20000),
         changedFiles := r.counts.changedFiles, addedLines := r.counts.addedLines,
         deletedLines := r.counts.deletedLines,
         isPartial := isPartial,
         partialReason :=
           if r.diffTooLarge then Some(DiffTooLarge) else if r.truncated then Some(ContextTruncated) else None,
         rawDiff := Some(r.counts.rawDiff),
         usage := r.usage.(costUsd := Round6(r.usage.costUsd)),
         status := if isPartial then Partial else Completed,
         finishedAt := Some(now), updatedAt := now,
         error := if r.refused then Some(Refusal) else row.error)
  }

  function PersistTx(db: Db, id: ReviewId, r: RunResult, now: Time): Db
    requires id in db.reviews
  {
    Update(db, id, Reviewed(db.reviews[id], r, now)).(findings := db.findings + RunRows(id, r))
  }

  /* ---- the store, updated in place ---- */

  /** What comes of a delivery's first transaction. */
  datatype Begun = NoRow | RolledBack | Started

  /** How the pipeline of one task ends. */
  datatype Ending =
    | NotFound
    | NewerCommit
    | NothingToReview(counts: Counts)
    | Reported(result: RunResult)
    | GitHubFailed(message: string)
    | Broke(kind: string, message: string)

  /** What the ending writes. */
  function EndTx(db: Db, id: ReviewId, end: Ending, now: Time): Db
    requires id in db.reviews
  {
    match end
    case NotFound => SkipTx(db, id, PrNotFound, None, now)
    case NewerCommit => SkipTx(db, id, Superseded, None, now)
    case NothingToReview(counts) => SkipTx(db, id, NothingReviewable, Some(counts), now)
    case Reported(result) => PersistTx(db, id, result, now)
    case GitHubFailed(message) => FailTx(db, id, "github_error", message, now)
    case Broke(kind, message) => FailTx(db, id, kind, message, now)
  }

  /** The tables after one delivery that began at `started` and ended at `ended`. */
  function DeliveryTx(db: Db, id: ReviewId, started: Time, end: Ending, ended: Time): Db {
    if id in db.reviews && NamesRepository(db.reviews[id]) then EndTx(BeginTx(db, id, started), id, end, ended) else db
  }

  class ReviewStore {
    var reviews: map<ReviewId, Review>
    var index: map<Commit, ReviewId>
    var findings: seq<FindingRow>
    /** Ids pushed to the `reviews` queue. */
    var queue: seq<ReviewId>

    ghost function Tables(): Db
      reads this
    {
      Db(reviews, index, findings)
    }

    constructor ()
      ensures Tables() == EMPTY && queue == []
    {
      reviews, index, findings, queue := map[], map[], [], [];
    }

    method UpsertReview(newId: ReviewId, e: Event, delivery: Option<string>, now: Time) returns (r: Upserted)
      modifies this`reviews, this`index
      ensures (Tables(), r) == UpsertTx(old(Tables()), newId, e, delivery, now)
    {
      var commit := CommitOf(e);
      if commit in index {
        var id := index[commit];
        if id !in reviews {
          return Rejected;
        }
        var row := reviews[id];
        reviews := reviews[id := row.(updatedAt := now)];
        return Returned(id, false);
      }
      if newId in reviews {
        return Rejected;
      }
      reviews := reviews[newId := NewReview(e, delivery, now)];
      index := index[commit := newId];
      return Returned(newId, true);
    }

    method Enqueue(id: ReviewId)
      modifies this`queue
      ensures queue == old(queue) + [id]
    {
      queue := queue + [id];
    }

    /** The handler from the upsert on: commit, then enqueue only what was created. */
    method GithubWebhook(newId: ReviewId, e: Event, delivery: Option<string>, now: Time) returns (r: Upserted)
      modifies this
      ensures (Tables(), r) == UpsertTx(old(Tables()), newId, e, delivery, now)
      ensures queue == old(queue) + if r.Returned? && r.created then [r.id] else []
    {
      r := UpsertReview(newId, e, delivery, now);
      if r.Returned? && r.created {
        Enqueue(r.id);
      }
    }

    method Begin(id: ReviewId, now: Time) returns (begun: Begun)
      modifies this`reviews
      ensures begun.NoRow? <==> id !in old(reviews)
      ensures begun.Started? <==> id in old(reviews) && NamesRepository(old(reviews)[id])
      ensures Tables() == if begun.Started? then BeginTx(old(Tables()), id, now) else old(Tables())
    {
      if id !in reviews {
        return NoRow;
      }
      var review := reviews[id];
      review := review.(status := Running);
      review := review.(startedAt := Some(now));
      if !NamesRepository(review) {
        return RolledBack;
      }
      reviews := reviews[id := review.(updatedAt := now)];
      return Started;
    }

    method Finish(id: ReviewId, reason: PartialReason, counts: Option<Counts>, now: Time)
      requires id in reviews
      modifies this`reviews
      ensures Tables() == SkipTx(old(Tables()), id, reason, counts, now)
    {
      var review := reviews[id];
      review := review.(status := Skipped);
      review := review.(partialReason := Some(reason));
      review := review.(finishedAt := Some(now));
      if counts.Some? {
        var c := counts.value;
        review := review.(changedFiles := c.changedFiles);
        review := review.(addedLines := c.addedLines);
        review := review.(deletedLines := c.deletedLines);
        review := review.(rawDiff := Some(c.rawDiff));
      }
      reviews := reviews[id := review.(updatedAt := now)];
    }

    method Fail(id: ReviewId, kind: string, message: string, now: Time)
      requires id in reviews
      modifies this`reviews
      ensures Tables() == FailTx(old(Tables()), id, kind, message, now)
    {
      var review := reviews[id];
      review := review.(status := Failed);
      review := review.(finishedAt := Some(now));
      review := review.(error := Some(Raised(kind, Cut(message, 2000))));
      reviews := reviews[id := review.(updatedAt := now)];
    }

    method Persist(id: ReviewId, r: RunResult, now: Time)
      requires id in reviews
      modifies this`reviews, this`findings
      ensures Tables() == PersistTx(old(Tables()), id, r, now)
    {
      hide KeptRow, DroppedRow, Validated;
      var kept, dropped := Validate(r.report, r.lineMaps, r.added);
      var review := reviews[id];
      review := review.(title := Cut(r.title, 1000));
      review := review.(description := Cut(r.description, 20000));
      review := review.(changedFiles := r.counts.changedFiles);
      review := review.(addedLines := r.counts.addedLines);
      review := review.(deletedLines := r.counts.deletedLines);
      review := review.(isPartial := r.diffTooLarge || r.truncated);
      var reason := if r.diffTooLarge then Some(DiffTooLarge) else None;
      if reason == None && r.truncated {
        reason := Some(ContextTruncated);
      }
      review := review.(partialReason := reason);
      review := review.(rawDiff := Some(r.counts.rawDiff));
      review := review.(usage := r.usage.(costUsd := Round6(r.usage.costUsd)));
      review := review.(status := if review.isPartial then Partial else Completed);
      review := review.(finishedAt := Some(now));
      if r.refused {
        review := review.(error := Some(Refusal));
      }
      reviews := reviews[id := review.(updatedAt := now)];

      ghost var before := findings;
      for i := 0 to |kept|
        invariant findings + KeptRows(id, kept[i..]) == before + KeptRows(id, kept)
        invariant reviews == old(reviews)[id := review.(updatedAt := now)] && index == old(index)
      {
        assert kept[i..][0] == kept[i] && kept[i..][1..] == kept[i + 1..];
        Regroup(findings, [KeptRow(id, kept[i])], KeptRows(id, kept[i + 1..]));
        findings := findings + [KeptRow(id, kept[i])];
      }
      ghost var between := findings;
      for i := 0 to |dropped|
        invariant findings + DroppedRows(id, dropped[i..]) == between + DroppedRows(id, dropped)
        invariant reviews == old(reviews)[id := review.(updatedAt := now)] && index == old(index)
      {
        assert dropped[i..][0] == dropped[i] && dropped[i..][1..] == dropped[i + 1..];
        Regroup(findings, [DroppedRow(id, dropped[i])], DroppedRows(id, dropped[i + 1..]));
        findings := findings + [DroppedRow(id, dropped[i])];
      }
      Regroup(before, KeptRows(id, kept), DroppedRows(id, dropped));
      assert between == before + KeptRows(id, kept) && findings == between + DroppedRows(id, dropped);
      assert Validated(r.report, r.lineMaps, r.added) == Verdict(kept, dropped);
      assert review.(updatedAt := now) == Reviewed(old(reviews)[id], r, now);
    }

    /** One delivery of a task that runs to its end undisturbed. */
    method ReviewPullRequest(id: ReviewId, started: Time, end: Ending, ended: Time) returns (begun: Begun)
      modifies this`reviews, this`findings
      ensures begun.NoRow? <==> id !in old(reviews)
      ensures begun.Started? <==> id in old(reviews) && NamesRepository(old(reviews)[id])
      ensures Tables() == DeliveryTx(old(Tables()), id, started, end, ended)
    {
      begun := Begin(id, started);
      if !begun.Started? {
        return;
      }
      match end {
        case NotFound => Finish(id, PrNotFound, None, ended);
        case NewerCommit => Finish(id, Superseded, None, ended);
        case NothingToReview(counts) => Finish(id, NothingReviewable, Some(counts), ended);
        case Reported(result) => Persist(id, result, ended);
        case GitHubFailed(message) => Fail(id, "github_error", message, ended);
        case Broke(kind, message) => Fail(id, kind, message, ended);
      }
    }
  }
}
