/**
 * The review protocol as a transition system: any number of webhook handlers and of
 * deliveries of each task, every transaction one atomic step, crashes anywhere between.
 *
 * A task that was sent may be delivered any number of times, whether or not an earlier
 * delivery finished: late acknowledgement allows it, and nothing in the worker forbids it.
 */
module Lifecycle {
  import opened Text
  import opened Reviews

  datatype Handler =
    | Received(event: Event, newId: ReviewId, delivery: Option<string>)
    | Committed(event: Event, id: ReviewId, created: bool)
    | Answered(event: Event, id: ReviewId, created: bool)
    | Refused
    /** Died; `lost` is the review it had created and not yet enqueued. */
    | Dead(lost: Option<ReviewId>)

  /**
   * One delivery of a task. `Unstarted`: its first transaction was rolled back.
   * `Concluded`: its terminal transaction is committed, but it is still inside the `try`.
   */
  datatype Worker =
    | Missing
    | Unstarted(id: ReviewId)
    | Working(id: ReviewId)
    | Concluded(id: ReviewId)
    | Ended(id: ReviewId)

  type HandlerId = nat
  type WorkerId = nat

  /** A committed persist transaction. */
  datatype PersistedRun = PersistedRun(worker: WorkerId, id: ReviewId, result: RunResult)

  /** `sent` and `persisted` are histories. */
  datatype State = State(db: Db, sent: seq<ReviewId>, handlers: map<HandlerId, Handler>, workers: map<WorkerId, Worker>,
                         persisted: seq<PersistedRun>, clock: Time)

  const INITIAL := State(EMPTY, [], map[], map[], [], 0)

  datatype Step =
    | Arrive(h: HandlerId, event: Event, newId: ReviewId, delivery: Option<string>)
    | CommitUpsert(h: HandlerId)
    | Send(h: HandlerId)
    | ReportDuplicate(h: HandlerId)
    | HandlerCrash(h: HandlerId)
    | Deliver(w: WorkerId, id: ReviewId)
    | Skip(w: WorkerId, reason: PartialReason, counts: Option<Counts>)
    | Persist(w: WorkerId, result: RunResult)
    | Fail(w: WorkerId, kind: string, message: string)
    | Leave(w: WorkerId)
    | Tick

  predicate IsSkipReason(r: PartialReason) {
    r.PrNotFound? || r.Superseded? || r.NothingReviewable?
  }

  predicate Enabled(s: State, step: Step) {
    match step
    case Arrive(h, _, _, _) => h !in s.handlers
    case CommitUpsert(h) => h in s.handlers && s.handlers[h].Received?
    case Send(h) => h in s.handlers && s.handlers[h].Committed? && s.handlers[h].created
    case ReportDuplicate(h) => h in s.handlers && s.handlers[h].Committed? && !s.handlers[h].created
    case HandlerCrash(h) => h in s.handlers && (s.handlers[h].Received? || s.handlers[h].Committed?)
    case Deliver(w, id) => w !in s.workers && id in s.sent
    case Skip(w, reason, _) => w in s.workers && s.workers[w].Working? && s.workers[w].id in s.db.reviews
      && IsSkipReason(reason)
    case Persist(w, _) => w in s.workers && s.workers[w].Working? && s.workers[w].id in s.db.reviews
    case Fail(w, _, _) => w in s.workers && (s.workers[w].Working? || s.workers[w].Concluded?)
      && s.workers[w].id in s.db.reviews
    case Leave(w) => w in s.workers && (s.workers[w].Working? || s.workers[w].Concluded?)
    case Tick => true
  }

  function Do(s: State, step: Step): State
    requires Enabled(s, step)
  {
    match step
    case Arrive(h, event, newId, delivery) => s.(handlers := s.handlers[h := Received(event, newId, delivery)])
    case CommitUpsert(h) =>
      var hd := s.handlers[h];
      var (db, r) := UpsertTx(s.db, hd.newId, hd.event, hd.delivery, s.clock);
      var next := match r case Returned(id, created) => Committed(hd.event, id, created) case Rejected => Refused;
      s.(db := db, handlers := s.handlers[h := next])
    case Send(h) =>
      var hd := s.handlers[h];
      s.(sent := s.sent + [hd.id], handlers := s.handlers[h := Answered(hd.event, hd.id, true)])
    case ReportDuplicate(h) =>
      var hd := s.handlers[h];
      s.(handlers := s.handlers[h := Answered(hd.event, hd.id, false)])
    case HandlerCrash(h) =>
      var hd := s.handlers[h];
      s.(handlers := s.handlers[h := Dead(if hd.Committed? && hd.created then Some(hd.id) else None)])
    case Deliver(w, id) =>
      if id !in s.db.reviews then s.(workers := s.workers[w := Missing])
      else if !NamesRepository(s.db.reviews[id]) then s.(workers := s.workers[w := Unstarted(id)])
      else s.(db := BeginTx(s.db, id, s.clock), workers := s.workers[w := Working(id)])
    case Skip(w, reason, counts) =>
      var id := s.workers[w].id;
      s.(db := SkipTx(s.db, id, reason, counts, s.clock), workers := s.workers[w := Concluded(id)])
    case Persist(w, result) =>
      var id := s.workers[w].id;
      s.(db := PersistTx(s.db, id, result, s.clock), workers := s.workers[w := Concluded(id)],
         persisted := s.persisted + [PersistedRun(w, id, result)])
    case Fail(w, kind, message) =>
      var id := s.workers[w].id;
      s.(db := FailTx(s.db, id, kind, message, s.clock), workers := s.workers[w := Ended(id)])
    case Leave(w) => s.(workers := s.workers[w := Ended(s.workers[w].id)])
    case Tick => s.(clock := s.clock + 1)
  }

  /** The steps can be taken one after the other from `s`. */
  predicate Possible(s: State, steps: seq<Step>)
    decreases |steps|
  {
    steps == [] || (Enabled(s, steps[0]) && Possible(Do(s, steps[0]), steps[1..]))
  }

  function After(s: State, steps: seq<Step>): State
    requires Possible(s, steps)
    decreases |steps|
  {
    if steps == [] then s else After(Do(s, steps[0]), steps[1..])
  }

  /* ---- the unique key ---- */

  /** The index is the commits of the rows, so two rows never share a commit. */
  ghost predicate KeyIsUnique(db: Db) {
    && (forall c :: c in db.index ==> db.index[c] in db.reviews && db.reviews[db.index[c]].identity.commit == c)
    && (forall id :: id in db.reviews ==>
          db.reviews[id].identity.commit in db.index && db.index[db.reviews[id].identity.commit] == id)
  }

  /* ---- handlers and messages ---- */

  ghost predicate HandlersOk(s: State) {
    forall h :: h in s.handlers ==>
      match s.handlers[h]
      case Committed(e, id, _) => id in s.db.reviews && s.db.reviews[id].identity.commit == CommitOf(e)
      case Answered(e, id, _) => id in s.db.reviews && s.db.reviews[id].identity.commit == CommitOf(e)
      case Dead(Some(id)) => id in s.db.reviews
      case _ => true
  }

  function HoldsLive(id: ReviewId): Handler -> bool {
    (hd: Handler) => hd.Committed? && hd.created && hd.id == id
  }

  function HoldsDead(id: ReviewId): Handler -> bool {
    (hd: Handler) => hd == Dead(Some(id))
  }

  ghost function Those(handlers: map<HandlerId, Handler>, p: Handler -> bool): set<HandlerId> {
    set h | h in handlers && p(handlers[h])
  }

  /** Handlers that created `id` and have not enqueued it: still running, and dead. */
  ghost function Live(s: State, id: ReviewId): set<HandlerId> {
    Those(s.handlers, HoldsLive(id))
  }

  ghost function Lost(s: State, id: ReviewId): set<HandlerId> {
    Those(s.handlers, HoldsDead(id))
  }

  function Sends(s: State, id: ReviewId): nat {
    multiset(s.sent)[id]
  }

  /** A row's one message is sent, or one live handler is about to send it, or the handler that was died. */
  ghost predicate OneEnqueue(s: State, id: ReviewId) {
    Sends(s, id) + |Live(s, id)| + |Lost(s, id)| == if id in s.db.reviews then 1 else 0
  }

  /* ---- rows ---- */

  predicate RowOk(r: Review, clock: Time) {
    && (r.startedAt.Some? ==> r.startedAt.value <= clock)
    && (r.status.Queued? ==>
          && r.startedAt == None && r.finishedAt == None && !r.isPartial && r.partialReason == None
          && r.error == None)
    && (!r.status.Queued? ==> r.startedAt.Some? && NamesRepository(r))
    && (r.status.Terminal() ==> r.finishedAt.Some? && r.finishedAt.value >= r.startedAt.value)
    && (r.status.Completed? ==> !r.isPartial && r.partialReason == None)
    && (r.status.Partial? ==>
          r.isPartial && (r.partialReason == Some(DiffTooLarge) || r.partialReason == Some(ContextTruncated)))
    && (r.status.Skipped? ==> r.partialReason.Some? && IsSkipReason(r.partialReason.value))
    && (r.status.Failed? ==> r.error.Some? && r.error.value.Raised?)
  }

  ghost predicate RowsOk(s: State) {
    forall id :: id in s.db.reviews ==>
      && RowOk(s.db.reviews[id], s.clock)
      && (!s.db.reviews[id].status.Queued? ==> id in s.sent)
  }

  /* ---- workers and findings ---- */

  ghost predicate WorkersOk(s: State) {
    forall w :: w in s.workers ==>
      s.workers[w] != Missing && s.workers[w].id in s.db.reviews
      && (s.db.reviews[s.workers[w].id].status.Queued? ==> s.workers[w].Unstarted?)
  }

  function AllRows(runs: seq<PersistedRun>): seq<FindingRow> {
    if runs == [] then [] else AllRows(runs[..|runs| - 1]) + RunRows(runs[|runs| - 1].id, runs[|runs| - 1].result)
  }

  /** The findings table is the rows of the persisted runs, run after run; each delivery persists at most once. */
  ghost predicate FindingsOk(s: State) {
    && s.db.findings == AllRows(s.persisted)
    && (forall i :: 0 <= i < |s.persisted| ==>
          && s.persisted[i].worker in s.workers
          && (s.workers[s.persisted[i].worker] == Concluded(s.persisted[i].id)
              || s.workers[s.persisted[i].worker] == Ended(s.persisted[i].id)))
    && (forall i, j :: 0 <= i < j < |s.persisted| ==> s.persisted[i].worker != s.persisted[j].worker)
  }

  ghost predicate Inv(s: State) {
    && KeyIsUnique(s.db) && HandlersOk(s) && (forall id: ReviewId :: OneEnqueue(s, id))
    && RowsOk(s) && WorkersOk(s) && FindingsOk(s)
  }

  /* ---- every step keeps the invariant ---- */

  lemma SentAreRows(s: State, id: ReviewId)
    requires OneEnqueue(s, id) && id in s.sent
    ensures id in s.db.reviews
  {
    assert id in multiset(s.sent);
  }

  /** `db2` is `db` with row `id` rewritten: its insert-time columns, the other rows and the index stay. */
  ghost predicate Rewrites(db: Db, db2: Db, id: ReviewId) {
    && id in db.reviews && id in db2.reviews
    && db2.reviews == db.reviews[id := db2.reviews[id]] && db2.index == db.index
    && db2.reviews[id].identity == db.reviews[id].identity
  }

  lemma RewriteKeepsKey(db: Db, db2: Db, id: ReviewId)
    requires KeyIsUnique(db) && Rewrites(db, db2, id)
    ensures KeyIsUnique(db2)
  {
  }

  lemma UpsertKeepsKey(db: Db, newId: ReviewId, e: Event, delivery: Option<string>, now: Time)
    requires KeyIsUnique(db)
    ensures KeyIsUnique(UpsertTx(db, newId, e, delivery, now).0)
  {
  }

  lemma StepKeepsKey(s: State, step: Step)
    requires Inv(s) && Enabled(s, step)
    ensures KeyIsUnique(Do(s, step).db)
  {
    hide RunRows, KeyIsUnique, HandlersOk, OneEnqueue, RowsOk, WorkersOk, FindingsOk, Reviewed;
    var t := Do(s, step);
    match step {
      case CommitUpsert(h) =>
        UpsertKeepsKey(s.db, s.handlers[h].newId, s.handlers[h].event, s.handlers[h].delivery, s.clock);
      case Deliver(w, id) =>
        if id in s.db.reviews && NamesRepository(s.db.reviews[id]) {
          RewriteKeepsKey(s.db, t.db, id);
        }
      case Skip(w, _, _) => RewriteKeepsKey(s.db, t.db, s.workers[w].id);
      case Persist(w, result) =>
        ReviewedKeepsIdentity(s.db.reviews[s.workers[w].id], result, s.clock);
        RewriteKeepsKey(s.db, t.db, s.workers[w].id);
      case Fail(w, _, _) => RewriteKeepsKey(s.db, t.db, s.workers[w].id);
      case _ =>
    }
  }

  lemma ReviewedKeepsIdentity(row: Review, r: RunResult, now: Time)
    ensures Reviewed(row, r, now).identity == row.identity && Reviewed(row, r, now).startedAt == row.startedAt
    ensures !Reviewed(row, r, now).status.Queued?
  {
  }

  lemma StepKeepsHandlers(s: State, step: Step)
    requires Inv(s) && Enabled(s, step)
    ensures HandlersOk(Do(s, step))
  {
    hide RunRows, RowsOk, OneEnqueue, WorkersOk, FindingsOk, Reviewed;
    var t := Do(s, step);
    if step.CommitUpsert? {
      var hd := s.handlers[step.h];
      hide UpsertTx, KeyIsUnique;
      UpsertKeepsCommits(s.db, hd.newId, hd.event, hd.delivery, s.clock);
    } else {
      hide KeyIsUnique;
      StepKeepsCommits(s, step);
    }
  }

  /** Every row stays, with its commit. */
  ghost predicate CommitsStay(db: Db, db2: Db) {
    forall id :: id in db.reviews ==> id in db2.reviews && db2.reviews[id].identity == db.reviews[id].identity
  }

  lemma UpsertKeepsCommits(db: Db, newId: ReviewId, e: Event, delivery: Option<string>, now: Time)
    requires KeyIsUnique(db)
    ensures var (db2, r) := UpsertTx(db, newId, e, delivery, now);
      CommitsStay(db, db2) && (r.Returned? ==> r.id in db2.reviews && db2.reviews[r.id].identity.commit == CommitOf(e))
  {
  }

  lemma StepKeepsCommits(s: State, step: Step)
    requires Enabled(s, step) && !step.CommitUpsert?
    ensures CommitsStay(s.db, Do(s, step).db)
  {
    hide RunRows;
  }

  lemma TxKeepRowOk(db: Db, id: ReviewId, now: Time)
    requires id in db.reviews && RowOk(db.reviews[id], now)
    ensures NamesRepository(db.reviews[id]) ==> RowOk(BeginTx(db, id, now).reviews[id], now)
    ensures !db.reviews[id].status.Queued? ==>
      && (forall reason, counts :: IsSkipReason(reason) ==> RowOk(SkipTx(db, id, reason, counts, now).reviews[id], now))
      && (forall kind, message :: RowOk(FailTx(db, id, kind, message, now).reviews[id], now))
      && (forall r :: RowOk(Reviewed(db.reviews[id], r, now), now))
  {
  }

  /** A worker's step rewrites the row it works on, and no other. */
  lemma WorkerStepRewrites(s: State, step: Step)
    requires Enabled(s, step) && (step.Skip? || step.Persist? || step.Fail?)
    ensures var id := s.workers[step.w].id;
      Rewrites(s.db, Do(s, step).db, id) && !Do(s, step).db.reviews[id].status.Queued?
  {
    hide RunRows;
  }

  lemma StepKeepsRows(s: State, step: Step)
    requires Inv(s) && Enabled(s, step)
    ensures RowsOk(Do(s, step))
  {
    hide RunRows, OneEnqueue, RowOk, KeyIsUnique, HandlersOk, FindingsOk, Reviewed;
    var t := Do(s, step);
    if step.Skip? || step.Persist? || step.Fail? {
      var id := s.workers[step.w].id;
      WorkerStepRewrites(s, step);
      TxKeepRowOk(s.db, id, s.clock);
    } else if step.Deliver? && step.id in s.db.reviews {
      TxKeepRowOk(s.db, step.id, s.clock);
    } else if step.CommitUpsert? {
      UpsertKeepsRowOk(s.db, s.handlers[step.h].newId, s.handlers[step.h].event, s.handlers[step.h].delivery, s.clock);
    } else if step.Tick? {
      forall id | id in s.db.reviews ensures RowOk(s.db.reviews[id], t.clock) {
        LaterIsFine(s.db.reviews[id], s.clock);
      }
    }
  }

  lemma LaterIsFine(r: Review, clock: Time)
    requires RowOk(r, clock)
    ensures RowOk(r, clock + 1)
  {
  }

  lemma UpsertKeepsRowOk(db: Db, newId: ReviewId, e: Event, delivery: Option<string>, now: Time)
    requires forall id :: id in db.reviews ==> RowOk(db.reviews[id], now)
    ensures var db2 := UpsertTx(db, newId, e, delivery, now).0;
      forall id :: id in db2.reviews ==>
        && RowOk(db2.reviews[id], now)
        && (!db2.reviews[id].status.Queued? ==> id in db.reviews && !db.reviews[id].status.Queued?)
  {
  }

  lemma StepKeepsWorkers(s: State, step: Step)
    requires Inv(s) && Enabled(s, step)
    ensures WorkersOk(Do(s, step))
  {
    hide RunRows, OneEnqueue, RowsOk, KeyIsUnique, HandlersOk, FindingsOk, Reviewed;
    if step.Deliver? {
      SentAreRows(s, step.id);
    } else if step.CommitUpsert? {
      var hd := s.handlers[step.h];
      UpsertKeepsStarted(s.db, hd.newId, hd.event, hd.delivery, s.clock);
      hide UpsertTx;
    } else if step.Skip? || step.Persist? || step.Fail? {
      WorkerStepRewrites(s, step);
    }
  }

  lemma UpsertKeepsStarted(db: Db, newId: ReviewId, e: Event, delivery: Option<string>, now: Time)
    ensures var db2 := UpsertTx(db, newId, e, delivery, now).0;
      forall id :: id in db.reviews ==> id in db2.reviews && db2.reviews[id].status == db.reviews[id].status
  {
  }

  /* ---- one enqueue per row ---- */

  lemma SizeWithout(a: set<HandlerId>, h: HandlerId)
    ensures |a| == |a - {h}| + if h in a then 1 else 0
  {
    if h !in a {
      assert a - {h} == a;
    }
  }

  lemma OthersStay(before: map<HandlerId, Handler>, h: HandlerId, hd: Handler, p: Handler -> bool)
    ensures Those(before[h := hd], p) - {h} == Those(before, p) - {h}
  {
  }

  /** Rewriting one entry moves it in or out of those that satisfy `p`. */
  lemma HandlerMoves(before: map<HandlerId, Handler>, h: HandlerId, hd: Handler, p: Handler -> bool)
    ensures |Those(before[h := hd], p)| ==
            |Those(before, p)| - (if h in before && p(before[h]) then 1 else 0) + if p(hd) then 1 else 0
  {
    OthersStay(before, h, hd, p);
    SizeWithout(Those(before, p), h);
    SizeWithout(Those(before[h := hd], p), h);
  }

  /** A worker's step leaves handlers, messages and the set of rows alone. */
  lemma WorkersOnlyRewrite(s: State, step: Step)
    requires Enabled(s, step)
    requires step.Deliver? || step.Skip? || step.Persist? || step.Fail? || step.Leave? || step.Tick?
    ensures var t := Do(s, step); t.handlers == s.handlers && t.sent == s.sent && t.db.reviews.Keys == s.db.reviews.Keys
  {
    hide RunRows, Reviewed;
  }

  lemma StepKeepsOneEnqueue(s: State, step: Step, id: ReviewId)
    requires KeyIsUnique(s.db) && HandlersOk(s) && OneEnqueue(s, id) && Enabled(s, step)
    ensures OneEnqueue(Do(s, step), id)
  {
    hide RunRows, Reviewed, KeyIsUnique, Those;
    var t := Do(s, step);
    if step.Arrive? || step.CommitUpsert? || step.Send? || step.ReportDuplicate? || step.HandlerCrash? {
      var h := step.h;
      HandlerMoves(s.handlers, h, t.handlers[h], HoldsLive(id));
      HandlerMoves(s.handlers, h, t.handlers[h], HoldsDead(id));
      if step.CommitUpsert? {
        hide HandlersOk;
        UpsertShape(s.db, s.handlers[h].newId, s.handlers[h].event, s.handlers[h].delivery, s.clock);
      }
    } else {
      WorkersOnlyRewrite(s, step);
    }
  }

  /** Exactly a created row is new. */
  lemma UpsertShape(db: Db, newId: ReviewId, e: Event, delivery: Option<string>, now: Time)
    ensures var (db2, r) := UpsertTx(db, newId, e, delivery, now);
      if r.Returned? && r.created then r.id !in db.reviews && db2.reviews.Keys == db.reviews.Keys + {r.id}
      else db2.reviews.Keys == db.reviews.Keys
  {
  }

  /* ---- findings ---- */

  lemma AllRowsSnoc(runs: seq<PersistedRun>, run: PersistedRun)
    ensures AllRows(runs + [run]) == AllRows(runs) + RunRows(run.id, run.result)
  {
    assert (runs + [run])[..|runs|] == runs;
  }

  lemma StepKeepsFindings(s: State, step: Step)
    requires Inv(s) && Enabled(s, step)
    ensures FindingsOk(Do(s, step))
  {
    hide RunRows, OneEnqueue, RowsOk, KeyIsUnique, HandlersOk, Reviewed, AllRows;
    var t := Do(s, step);
    if step.Persist? {
      AllRowsSnoc(s.persisted, PersistedRun(step.w, s.workers[step.w].id, step.result));
    }
  }

  lemma StepKeepsInv(s: State, step: Step)
    requires Inv(s) && Enabled(s, step)
    ensures Inv(Do(s, step))
  {
    StepKeepsKey(s, step);
    StepKeepsHandlers(s, step);
    StepKeepsRows(s, step);
    StepKeepsWorkers(s, step);
    StepKeepsFindings(s, step);
    hide KeyIsUnique, HandlersOk, OneEnqueue, RowsOk, WorkersOk, FindingsOk;
    forall id: ReviewId ensures OneEnqueue(Do(s, step), id) {
      StepKeepsOneEnqueue(s, step, id);
    }
  }

  lemma InitialIsFine()
    ensures Inv(INITIAL)
  {
    assert forall id: ReviewId :: Live(INITIAL, id) == {} && Lost(INITIAL, id) == {};
  }

  lemma {:induction false} StepsKeepInv(s: State, steps: seq<Step>)
    requires Inv(s) && Possible(s, steps)
    ensures Inv(After(s, steps))
    decreases |steps|
  {
    hide Inv, Do, Enabled;
    if steps != [] {
      StepKeepsInv(s, steps[0]);
      StepsKeepInv(Do(s, steps[0]), steps[1..]);
    }
  }
}
