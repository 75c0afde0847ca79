/**
 * What handlers and deliveries do when nothing disturbs them, as runs of the protocol; and
 * what delivering a task again does to a review.
 */
module Redelivery {
  import opened Text
  import opened StableSort
  import opened Validation
  import opened Reviews
  import opened Lifecycle
  import opened LifecycleTheorems

  lemma PossibleCons(s: State, step: Step, rest: seq<Step>)
    requires Enabled(s, step) && Possible(Do(s, step), rest)
    ensures Possible(s, [step] + rest) && After(s, [step] + rest) == After(Do(s, step), rest)
  {
    assert ([step] + rest)[1..] == rest;
  }

  lemma PossibleOne(s: State, step: Step)
    requires Enabled(s, step)
    ensures Possible(s, [step]) && After(s, [step]) == Do(s, step)
  {
    hide Enabled, Do;
    PossibleCons(s, step, []);
    assert [step] + [] == [step];
  }

  lemma {:induction false} PossibleConcat(s: State, a: seq<Step>, b: seq<Step>)
    requires Possible(s, a) && Possible(After(s, a), b)
    ensures Possible(s, a + b) && After(s, a + b) == After(After(s, a), b)
    decreases |a|
  {
    hide Do, Enabled;
    if a == [] {
      assert a + b == b;
    } else {
      PossibleConcat(Do(s, a[0]), a[1..], b);
      assert (a + b)[0] == a[0] && (a + b)[1..] == a[1..] + b;
    }
  }

  /* ---- the handler as a run ---- */

  /** From the event to the answer. */
  function Handling(s: State, h: HandlerId, newId: ReviewId, e: Event, delivery: Option<string>): seq<Step> {
    [Arrive(h, e, newId, delivery)] + ([CommitUpsert(h)] +
    match UpsertTx(s.db, newId, e, delivery, s.clock).1
    case Returned(_, true) => [Send(h)]
    case Returned(_, false) => [ReportDuplicate(h)]
    case Rejected => [])
  }

  /** What a handler leaves behind is what `ReviewStore.GithubWebhook` promises of tables and queue. */
  lemma HandlingRuns(s: State, h: HandlerId, newId: ReviewId, e: Event, delivery: Option<string>)
    requires h !in s.handlers
    ensures Possible(s, Handling(s, h, newId, e, delivery))
    ensures var t := After(s, Handling(s, h, newId, e, delivery));
      var (db, r) := UpsertTx(s.db, newId, e, delivery, s.clock);
      && t.db == db && t.sent == s.sent + (if r.Returned? && r.created then [r.id] else [])
      && h in t.handlers
      && t.handlers[h] == (match r case Returned(id, created) => Answered(e, id, created) case Rejected => Refused)
      && t.workers == s.workers && t.persisted == s.persisted && t.clock == s.clock
  {
    hide UpsertTx, Possible, After;
    var s1 := Do(s, Arrive(h, e, newId, delivery));
    var s2 := Do(s1, CommitUpsert(h));
    var rest := match UpsertTx(s.db, newId, e, delivery, s.clock).1
      case Returned(_, true) => [Send(h)]
      case Returned(_, false) => [ReportDuplicate(h)]
      case Rejected => [];
    if rest == [] {
      NoSteps(s2);
    } else {
      PossibleOne(s2, rest[0]);
    }
    PossibleCons(s1, CommitUpsert(h), rest);
    PossibleCons(s, Arrive(h, e, newId, delivery), [CommitUpsert(h)] + rest);
  }

  lemma NoSteps(s: State)
    ensures Possible(s, []) && After(s, []) == s
  {
  }

  /**
   * A crash between the commit and the send loses the review: whatever state a handler finds
   * that creates its row, it can die with it, and nothing is sent.
   */
  lemma CrashLosesReview(s: State, h: HandlerId, newId: ReviewId, e: Event, delivery: Option<string>)
    requires h !in s.handlers && CommitOf(e) !in s.db.index && newId !in s.db.reviews
    ensures var steps := [Arrive(h, e, newId, delivery)] + ([CommitUpsert(h)] + [HandlerCrash(h)]);
      && Possible(s, steps)
      && var t := After(s, steps);
         t.handlers[h := Refused] == s.handlers[h := Refused] && h in t.handlers && t.handlers[h] == Dead(Some(newId))
         && newId in t.db.reviews && t.sent == s.sent
  {
    hide Possible, After;
    var s1 := Do(s, Arrive(h, e, newId, delivery));
    var s2 := Do(s1, CommitUpsert(h));
    PossibleOne(s2, HandlerCrash(h));
    PossibleCons(s1, CommitUpsert(h), [HandlerCrash(h)]);
    PossibleCons(s, Arrive(h, e, newId, delivery), [CommitUpsert(h)] + [HandlerCrash(h)]);
  }

  /* ---- a delivery as a run ---- */

  /** The step that commits an ending. */
  function EndStep(w: WorkerId, end: Ending): Step {
    match end
    case NotFound => Skip(w, PrNotFound, None)
    case NewerCommit => Skip(w, Superseded, None)
    case NothingToReview(counts) => Skip(w, NothingReviewable, Some(counts))
    case Reported(result) => Step.Persist(w, result)
    case GitHubFailed(message) => Step.Fail(w, "github_error", message)
    case Broke(kind, message) => Step.Fail(w, kind, message)
  }

  function Ticks(n: nat): seq<Step> {
    if n == 0 then [] else [Tick] + Ticks(n - 1)
  }

  /** One delivery for a review: it begins and, `later` ticks after, ends; or it cannot begin. */
  function Delivery(row: Review, w: WorkerId, id: ReviewId, later: nat, end: Ending): seq<Step> {
    [Deliver(w, id)] + if NamesRepository(row) then Ticks(later) + [EndStep(w, end)] else []
  }

  lemma {:induction false} TicksRun(s: State, n: nat)
    ensures Possible(s, Ticks(n)) && After(s, Ticks(n)) == s.(clock := s.clock + n)
    decreases n
  {
    if n > 0 {
      TicksRun(Do(s, Tick), n - 1);
      PossibleCons(s, Tick, Ticks(n - 1));
    }
  }

  lemma EndStepCommits(s: State, w: WorkerId, id: ReviewId, end: Ending)
    requires w in s.workers && s.workers[w] == Working(id) && id in s.db.reviews
    ensures Enabled(s, EndStep(w, end))
    ensures var t := Do(s, EndStep(w, end));
      && t.db == EndTx(s.db, id, end, s.clock) && t.sent == s.sent && t.handlers == s.handlers && t.clock == s.clock
      && t.workers.Keys == s.workers.Keys
      && t.persisted == s.persisted + if end.Reported? then [PersistedRun(w, id, end.result)] else []
  {
    hide SkipTx, PersistTx, FailTx;
  }

  lemma DeliverBegins(s: State, w: WorkerId, id: ReviewId)
    requires Enabled(s, Deliver(w, id)) && id in s.db.reviews
    ensures var t := Do(s, Deliver(w, id));
      var begins := NamesRepository(s.db.reviews[id]);
      && t.db == (if begins then BeginTx(s.db, id, s.clock) else s.db) && id in t.db.reviews
      && t.workers == s.workers[w := if begins then Working(id) else Unstarted(id)]
      && t.sent == s.sent && t.handlers == s.handlers && t.persisted == s.persisted && t.clock == s.clock
  {
  }

  /** What a delivery leaves behind is what `ReviewStore.ReviewPullRequest` promises of the tables. */
  lemma DeliveryRuns(s: State, w: WorkerId, id: ReviewId, later: nat, end: Ending)
    requires Enabled(s, Deliver(w, id)) && id in s.db.reviews
    ensures var row := s.db.reviews[id];
      Possible(s, Delivery(row, w, id, later, end))
    ensures var row := s.db.reviews[id];
      var t := After(s, Delivery(row, w, id, later, end));
      && t.db == DeliveryTx(s.db, id, s.clock, end, s.clock + later)
      && t.sent == s.sent && t.handlers == s.handlers && t.workers.Keys == s.workers.Keys + {w}
      && t.persisted ==
         s.persisted + if NamesRepository(row) && end.Reported? then [PersistedRun(w, id, end.result)] else []
  {
    DeliverBegins(s, w, id);
    hide EndTx, Possible, After, EndStep, Ticks, Do, Enabled, BeginTx;
    var row := s.db.reviews[id];
    var s1 := Do(s, Deliver(w, id));
    if NamesRepository(row) {
      TicksRun(s1, later);
      var s2 := After(s1, Ticks(later));
      EndStepCommits(s2, w, id, end);
      PossibleOne(s2, EndStep(w, end));
      PossibleConcat(s1, Ticks(later), [EndStep(w, end)]);
      PossibleCons(s, Deliver(w, id), Ticks(later) + [EndStep(w, end)]);
    } else {
      NoSteps(s1);
      PossibleCons(s, Deliver(w, id), []);
    }
  }

  /* ---- what a delivery changes ---- */

  /**
   * A delivery's first transaction changes nothing exactly when the repository name does not
   * split, or the review is already running since this very moment.
   */
  lemma DeliverChangesNothingIff(s: State, w: WorkerId, id: ReviewId)
    requires Enabled(s, Deliver(w, id)) && id in s.db.reviews
    ensures var row := s.db.reviews[id];
      Do(s, Deliver(w, id)).db == s.db <==>
        || !NamesRepository(row)
        || (row.status.Running? && row.startedAt == Some(s.clock) && row.updatedAt == s.clock)
  {
    var row := s.db.reviews[id];
    var db := BeginTx(s.db, id, s.clock);
    assert db == s.db ==> db.reviews[id] == row;
    if row.status.Running? && row.startedAt == Some(s.clock) && row.updatedAt == s.clock {
      assert s.db.reviews[id := row] == s.db.reviews;
    }
  }

  /**
   * A run may still fail after it persisted, since its commit is inside the `try`: its findings
   * stay, and the review ends failed.
   */
  lemma FailureAfterPersist(s: State, w: WorkerId, r: RunResult, kind: string, message: string)
    requires w in s.workers && s.workers[w].Working? && s.workers[w].id in s.db.reviews
    ensures var steps := [Step.Persist(w, r)] + [Step.Fail(w, kind, message)];
      && Possible(s, steps)
      && var id, t := s.workers[w].id, After(s, steps);
         && t.db.findings == s.db.findings + RunRows(id, r)
         && id in t.db.reviews && t.db.reviews[id].status == Failed
         && t.db.reviews[id].error == Some(Raised(kind, Cut(message, 2000)))
  {
    hide Possible, After, RunRows, Reviewed, Cut;
    var s1 := Do(s, Step.Persist(w, r));
    PossibleOne(s1, Step.Fail(w, kind, message));
    PossibleCons(s, Step.Persist(w, r), [Step.Fail(w, kind, message)]);
  }

  /** A delivery may also end before or after its last commit, by a crash or by returning, and changes nothing then. */
  lemma DeliveryMayJustEnd(s: State, w: WorkerId)
    requires w in s.workers && (s.workers[w].Working? || s.workers[w].Concluded?)
    ensures Possible(s, [Leave(w)])
    ensures var t := After(s, [Leave(w)]);
      && t.db == s.db && t.sent == s.sent && t.persisted == s.persisted && t.handlers == s.handlers
      && t.workers == s.workers[w := Ended(s.workers[w].id)]
  {
    hide Possible, After;
    PossibleOne(s, Leave(w));
  }

  /** The findings an ending reports. */
  function ReportOf(end: Ending): seq<Finding> {
    if end.Reported? then end.result.report else []
  }

  /** What a review says it came to. */
  predicate SameOutcome(a: Review, b: Review) {
    a.status == b.status && a.isPartial == b.isPartial && a.partialReason == b.partialReason && a.error == b.error
  }

  /** The row already says what the ending would write. */
  predicate Confirms(row: Review, end: Ending) {
    match end
    case NotFound => row.status.Skipped? && row.partialReason == Some(PrNotFound)
    case NewerCommit => row.status.Skipped? && row.partialReason == Some(Superseded)
    case NothingToReview(_) => row.status.Skipped? && row.partialReason == Some(NothingReviewable)
    case Reported(r) =>
      && (if r.diffTooLarge then row.status.Partial? && row.partialReason == Some(DiffTooLarge)
          else if r.truncated then row.status.Partial? && row.partialReason == Some(ContextTruncated)
          else row.status.Completed?)
      && (r.refused ==> row.error == Some(Refusal))
    case GitHubFailed(message) => row.status.Failed? && row.error == Some(Raised("github_error", Cut(message, 2000)))
    case Broke(kind, message) => row.status.Failed? && row.error == Some(Raised(kind, Cut(message, 2000)))
  }

  lemma EndTxAppends(db: Db, id: ReviewId, end: Ending, now: Time)
    requires id in db.reviews
    ensures var db2 := EndTx(db, id, end, now);
      db2.findings == db.findings + (if end.Reported? then RunRows(id, end.result) else [])
    ensures EndTx(db, id, end, now).findings == db.findings <==> ReportOf(end) == []
  {
    if end.Reported? {
      RunRowsSize(id, end.result);
    }
    hide RunRows, Reviewed;
    assert db.findings + [] == db.findings;
  }

  lemma EndTxOutcome(row: Review, clock: Time, db: Db, id: ReviewId, end: Ending, now: Time)
    requires RowOk(row, clock)
    requires id in db.reviews && db.reviews[id] == row.(status := Running, startedAt := Some(clock), updatedAt := clock)
    ensures var after := EndTx(db, id, end, now).reviews[id]; SameOutcome(row, after) <==> Confirms(row, end)
  {
    hide RunRows, Cut;
  }

  /**
   * What delivering the task of a review once more does, in any reachable state and however it
   * ends: the findings stay exactly when it reports none, the outcome stays exactly when the
   * row already says what it writes; and nothing of other reviews changes.
   */
  lemma WhatADeliveryChanges(steps: seq<Step>, w: WorkerId, id: ReviewId, later: nat, end: Ending)
    requires Possible(INITIAL, steps)
    requires var s := After(INITIAL, steps); id in s.sent && w !in s.workers
    ensures var s := After(INITIAL, steps);
      && id in s.db.reviews && Possible(s, Delivery(s.db.reviews[id], w, id, later, end))
      && var row := s.db.reviews[id];
         var t := After(s, Delivery(row, w, id, later, end));
         && t.db.reviews.Keys == s.db.reviews.Keys && t.db.index == s.db.index
         && (forall other :: other in s.db.reviews && other != id ==> t.db.reviews[other] == s.db.reviews[other])
         && (t.db.findings == s.db.findings <==> !NamesRepository(row) || ReportOf(end) == [])
         && (SameOutcome(row, t.db.reviews[id]) <==> !NamesRepository(row) || Confirms(row, end))
  {
    hide Possible, After, KeyIsUnique, HandlersOk, WorkersOk, FindingsOk, Delivery, Confirms, ReportOf, SameOutcome;
    ReachableIsFine(steps);
    var s := After(INITIAL, steps);
    assert OneEnqueue(s, id);
    SentAreRows(s, id);
    hide OneEnqueue, DeliveryTx, RowOk;
    DeliveryRuns(s, w, id, later, end);
    DeliveryTxChanges(s.db, id, s.clock, end, s.clock + later);
  }

  lemma DeliveryTxChanges(db: Db, id: ReviewId, started: Time, end: Ending, ended: Time)
    requires id in db.reviews && RowOk(db.reviews[id], started)
    ensures var row := db.reviews[id];
      var db2 := DeliveryTx(db, id, started, end, ended);
      && db2.reviews.Keys == db.reviews.Keys && db2.index == db.index
      && (forall other :: other in db.reviews && other != id ==> db2.reviews[other] == db.reviews[other])
      && (db2.findings == db.findings <==> !NamesRepository(row) || ReportOf(end) == [])
      && (SameOutcome(row, db2.reviews[id]) <==> !NamesRepository(row) || Confirms(row, end))
  {
    hide RowOk, Confirms, ReportOf, EndTx;
    if NamesRepository(db.reviews[id]) {
      var begun := BeginTx(db, id, started);
      EndTxAppends(begun, id, end, ended);
      EndTxOutcome(db.reviews[id], started, begun, id, end, ended);
      EndTxIsLocal(begun, id, end, ended);
    }
  }

  lemma EndTxIsLocal(db: Db, id: ReviewId, end: Ending, now: Time)
    requires id in db.reviews
    ensures var db2 := EndTx(db, id, end, now);
      && db2.index == db.index && db2.reviews.Keys == db.reviews.Keys
      && db2.reviews[id].identity == db.reviews[id].identity
      && forall other :: other in db.reviews && other != id ==> db2.reviews[other] == db.reviews[other]
  {
    hide RunRows, Cut;
  }

  /**
   * A finished review is never final: in every reachable state its task can be delivered
   * again, the review goes back to running, and a run that persists adds its findings to those
   * already there and finishes the review once more.
   */
  lemma RedeliveryRepeatsFindings(steps: seq<Step>, w: WorkerId, id: ReviewId, later: nat, r: RunResult)
    requires Possible(INITIAL, steps)
    requires var s := After(INITIAL, steps); id in s.db.reviews && s.db.reviews[id].status.Terminal() && w !in s.workers
    ensures var s := After(INITIAL, steps);
      var row := s.db.reviews[id];
      var delivery := Delivery(row, w, id, later, Reported(r));
      && Enabled(s, Deliver(w, id)) && Possible(s, delivery)
      && Do(s, Deliver(w, id)).db ==
         s.db.(reviews := s.db.reviews[id := row.(status := Running, startedAt := Some(s.clock), updatedAt := s.clock)])
      && After(s, delivery).db.findings == s.db.findings + RunRows(id, r)
      && id in After(s, delivery).db.reviews && After(s, delivery).db.reviews[id].status.Terminal()
  {
    hide Possible, After, KeyIsUnique, HandlersOk, WorkersOk, FindingsOk, OneEnqueue, Delivery, RunRows;
    ReachableIsFine(steps);
    var s := After(INITIAL, steps);
    DeliveryRuns(s, w, id, later, Reported(r));
    EndTxAppends(BeginTx(s.db, id, s.clock), id, Reported(r), s.clock + later);
  }

  /* ---- when repetition is harmless ---- */

  /** This delivery, ending so, leaves the findings table as it is. */
  ghost predicate LeavesFindings(s: State, w: WorkerId, id: ReviewId, later: nat, end: Ending)
    requires id in s.db.reviews
  {
    var delivery := Delivery(s.db.reviews[id], w, id, later, end);
    Possible(s, delivery) && After(s, delivery).db.findings == s.db.findings
  }

  /**
   * Before a delivery, all that promises that it will leave the findings as they are is a
   * repository name that does not split; and no finished review has one.
   */
  lemma RedeliveryIsHarmlessIff(steps: seq<Step>, w: WorkerId, id: ReviewId)
    requires Possible(INITIAL, steps)
    requires var s := After(INITIAL, steps); id in s.sent && w !in s.workers
    ensures var s := After(INITIAL, steps);
      && id in s.db.reviews
      && ((forall end, later: nat :: LeavesFindings(s, w, id, later, end)) <==> !NamesRepository(s.db.reviews[id]))
      && (s.db.reviews[id].status.Terminal() ==> NamesRepository(s.db.reviews[id]))
  {
    hide Possible, After, KeyIsUnique, HandlersOk, WorkersOk, FindingsOk, OneEnqueue, Delivery;
    var s := After(INITIAL, steps);
    ReachableIsFine(steps);
    var finding := Finding("", 0, "", "", "", "", 0.0);
    var end := Reported(RunResult("", "", Counts(0, 0, 0, ""), false, false, Usage(0, 0, 0, 0, 0.0), false, [finding],
                                  map[], map[]));
    WhatADeliveryChanges(steps, w, id, 0, end);
    assert !NamesRepository(s.db.reviews[id]) || !LeavesFindings(s, w, id, 0, end);
    if !NamesRepository(s.db.reviews[id]) {
      forall end, later: nat ensures LeavesFindings(s, w, id, later, end) {
        WhatADeliveryChanges(steps, w, id, later, end);
      }
    }
  }

  /** The tables are the same but for when things happened. */
  ghost predicate SameButTimes(a: Db, b: Db) {
    && a.index == b.index && a.findings == b.findings && a.reviews.Keys == b.reviews.Keys
    && forall id :: id in a.reviews ==> Timeless(a.reviews[id]) == Timeless(b.reviews[id])
  }

  function Timeless(r: Review): Review {
    r.(startedAt := None, finishedAt := None, updatedAt := 0)
  }

  lemma EndTxSettles(db: Db, id: ReviewId, t0: Time, t1: Time, t2: Time, t3: Time, end: Ending)
    requires id in db.reviews
    ensures var once := EndTx(BeginTx(db, id, t0), id, end, t1);
      Timeless(EndTx(BeginTx(once, id, t2), id, end, t3).reviews[id]) == Timeless(once.reviews[id])
  {
    hide RunRows, Cut, Round6;
  }

  /**
   * Two deliveries that end alike come to the same tables as one, times apart, exactly when the
   * task cannot begin or reports nothing: that is how far the task is idempotent.
   */
  lemma TaskIsIdempotentIff(s: State, w1: WorkerId, w2: WorkerId, id: ReviewId, later1: nat, later2: nat, end: Ending)
    requires Enabled(s, Deliver(w1, id)) && Enabled(s, Deliver(w2, id)) && w1 != w2 && id in s.db.reviews
    ensures var row := s.db.reviews[id];
      var first := Delivery(row, w1, id, later1, end);
      && Possible(s, first)
      && var once := After(s, first);
         && id in once.db.reviews
         && var second := Delivery(once.db.reviews[id], w2, id, later2, end);
            && Possible(once, second)
            && (SameButTimes(After(once, second).db, once.db) <==> !NamesRepository(row) || ReportOf(end) == [])
  {
    hide Possible, After, Delivery, DeliveryTx, ReportOf, SameButTimes;
    var row := s.db.reviews[id];
    DeliveryRuns(s, w1, id, later1, end);
    var once := After(s, Delivery(row, w1, id, later1, end));
    AgainIff(s.db, id, s.clock, s.clock + later1, once.clock, once.clock + later2, end);
    DeliveryRuns(once, w2, id, later2, end);
  }

  lemma AgainIff(db: Db, id: ReviewId, t0: Time, t1: Time, t2: Time, t3: Time, end: Ending)
    requires id in db.reviews
    ensures var once := DeliveryTx(db, id, t0, end, t1);
      && id in once.reviews
      && (SameButTimes(DeliveryTx(once, id, t2, end, t3), once)
          <==> !NamesRepository(db.reviews[id]) || ReportOf(end) == [])
  {
    hide EndTx, ReportOf, Timeless, RunRows;
    if NamesRepository(db.reviews[id]) {
      var begun := BeginTx(db, id, t0);
      var once := EndTx(begun, id, end, t1);
      EndTxIsLocal(begun, id, end, t1);
      EndTxIsLocal(BeginTx(once, id, t2), id, end, t3);
      EndTxAppends(BeginTx(once, id, t2), id, end, t3);
      EndTxSettles(db, id, t0, t1, t2, t3, end);
    }
  }

  /** There are finished reviews: any event for a repository that splits, however its one delivery ends. */
  lemma OneDeliveryFinishes(e: Event, id: ReviewId, end: Ending) returns (steps: seq<Step>)
    requires '/' in e.repositoryFullName
    ensures Possible(INITIAL, steps)
    ensures var s := After(INITIAL, steps); id in s.db.reviews && s.db.reviews[id].status.Terminal()
  {
    var handling := Handling(INITIAL, 0, id, e, None);
    HandlingRuns(INITIAL, 0, id, e, None);
    hide Possible, After, RunRows, Handling, Delivery;
    var s := After(INITIAL, handling);
    assert s.db.reviews == map[id := NewReview(e, None, 0)] && s.sent == [id];
    DeliveryRuns(s, 0, id, 0, end);
    steps := handling + Delivery(s.db.reviews[id], 0, id, 0, end);
    PossibleConcat(INITIAL, handling, Delivery(s.db.reviews[id], 0, id, 0, end));
  }

  /* ---- a run's rows are as many as its findings ---- */

  lemma RunRowsSize(id: ReviewId, r: RunResult)
    ensures |RunRows(id, r)| == |r.report|
  {
    hide Sort, Judge;
    var v := Validated(r.report, r.lineMaps, r.added);
    JudgeIsAPartition(Sort(r.report, Outranks), r.lineMaps, r.added, {});
    KeptSize(v.kept);
    DroppedSize(v.dropped);
    assert |multiset(r.report)| == |r.report|;
    assert |multiset(KeptFindings(v.kept)) + multiset(DroppedFindings(v.dropped))| ==
           |KeptFindings(v.kept)| + |DroppedFindings(v.dropped)|;
  }

  lemma {:induction false} KeptSize(kept: seq<Kept>)
    ensures |KeptFindings(kept)| == |kept|
  {
    if kept != [] {
      KeptSize(kept[1..]);
    }
  }

  lemma {:induction false} DroppedSize(dropped: seq<Dropped>)
    ensures |DroppedFindings(dropped)| == |dropped|
  {
    if dropped != [] {
      DroppedSize(dropped[1..]);
    }
  }
}
