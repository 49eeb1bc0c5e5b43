/** The delivery worker over a whole life: rows are enqueued while it runs, a poll reads a batch,
    the rows of the batch are delivered one by one with time passing in between, and a drain can
    stop at any point, even between a POST and the UPDATE that records it. */
module WebhookWorker {
  import opened Rows
  import opened Store
  import opened Webhook

  /** A POST made at `at`, and whether its UPDATE went through, at `done`. */
  datatype Post = Post(id: nat, success: bool, recorded: bool, at: nat, done: nat)

  /** `batch` is what the current drain has yet to deliver; `drains` counts those completed. */
  datatype Worker = Worker(rows: seq<Delivery>, batch: seq<Due>, now: nat, log: seq<Post>, drains: nat)

  datatype Step =
    | Insert(chargeId: nat, url: string, event: string, payload: Payload)
    | Tick(elapsed: nat)
    | Poll(ids: seq<nat>)
    | Deliver(success: bool, took: nat)
    | Lose(success: bool)
    | Abandon

  function Start(): Worker { Worker([], [], 0, [], 0) }

  predicate Delivers(w: Worker, s: Step) { s.Deliver? && w.batch != [] && w.batch[0].id < |w.rows| }

  predicate Polls(w: Worker, s: Step) { s.Poll? && w.batch == [] && IsBatch(w.rows, w.now, s.ids) }

  function AfterDelivery(w: Worker, s: Step): Worker
    requires Delivers(w, s)
  {
    var d, done := w.batch[0], w.now + s.took;
    Worker(w.rows[d.id := AfterPost(w.rows[d.id], d, s.success, done)], w.batch[1..], done,
           w.log + [Post(d.id, s.success, true, w.now, done)], if |w.batch| == 1 then w.drains + 1 else w.drains)
  }

  function Next(w: Worker, s: Step): Worker {
    match s
    case Insert(c, url, event, payload) => w.(rows := w.rows + [NewDelivery(c, url, event, payload, w.now)])
    case Tick(elapsed) => w.(now := w.now + elapsed)
    case Poll(ids) =>
      if Polls(w, s)
      then w.(batch := DuesOf(w.rows, ids), drains := if ids == [] then w.drains + 1 else w.drains) else w
    case Deliver(_, _) => if Delivers(w, s) then AfterDelivery(w, s) else w
    case Lose(success) =>
      if w.batch == [] then w
      else w.(batch := [], log := w.log + [Post(w.batch[0].id, success, false, w.now, w.now)])
    case Abandon => w.(batch := [])
  }

  function RunFrom(w: Worker, run: seq<Step>): Worker {
    if run == [] then w else Next(RunFrom(w, run[..|run| - 1]), run[|run| - 1])
  }

  // ---- The drain, as the worker runs it ----

  /** A poll and the delivery of the first n rows it read, the j-th taking took(j). */
  function DrainSteps(ids: seq<nat>, answers: nat -> bool, took: nat -> nat, n: nat): seq<Step> {
    if n == 0 then [Poll(ids)] else DrainSteps(ids, answers, took, n - 1) + [Deliver(answers(n - 1), took(n - 1))]
  }

  /** When the j-th of them is recorded, the poll being at `now`. */
  function TimeAfter(now: nat, took: nat -> nat, j: nat): nat {
    if j == 0 then now else TimeAfter(now, took, j - 1) + took(j - 1)
  }

  function Clock(now: nat, took: nat -> nat): nat -> int { (j: nat) => TimeAfter(now, took, j + 1) }

  /** Where the worker stands after n deliveries of the batch it read in state w. */
  predicate Draining(w: Worker, ids: seq<nat>, answers: nat -> bool, took: nat -> nat, n: nat, u: Worker)
    requires n <= |ids| && InTable(w.rows, ids)
  {
    && u.rows == Drained(w.rows, ids, answers, Clock(w.now, took), n)
    && u.batch == DuesOf(w.rows, ids)[n..]
    && u.now == TimeAfter(w.now, took, n)
    && u.drains == (if n == |ids| then w.drains + 1 else w.drains)
  }

  lemma DrainOne(w: Worker, ids: seq<nat>, answers: nat -> bool, took: nat -> nat, n: nat, u: Worker)
    requires n < |ids| && InTable(w.rows, ids) && Draining(w, ids, answers, took, n, u)
    ensures Draining(w, ids, answers, took, n + 1, Next(u, Deliver(answers(n), took(n))))
  {
    var due := DuesOf(w.rows, ids);
    assert u.batch[0] == due[n] && due[n].id == ids[n];
    assert u.batch[1..] == due[n + 1..];
  }

  lemma DrainMore(w: Worker, ids: seq<nat>, answers: nat -> bool, took: nat -> nat, n: nat, front: seq<Step>)
    requires n < |ids| && InTable(w.rows, ids) && Draining(w, ids, answers, took, n, RunFrom(w, front))
    ensures Draining(w, ids, answers, took, n + 1, RunFrom(w, front + [Deliver(answers(n), took(n))]))
  {
    RunStep(w, front, Deliver(answers(n), took(n)));
    DrainOne(w, ids, answers, took, n, RunFrom(w, front));
  }

  lemma DrainBegins(w: Worker, ids: seq<nat>, answers: nat -> bool, took: nat -> nat)
    requires w.batch == [] && IsBatch(w.rows, w.now, ids)
    ensures Draining(w, ids, answers, took, 0, RunFrom(w, [Poll(ids)]))
  {
    RunStep(w, [], Poll(ids));
    assert [] + [Poll(ids)] == [Poll(ids)];
  }

  /** `DrainDue` is such a run: its loop and the worker leave the same table. */
  lemma {:induction false} DrainIsRun(w: Worker, ids: seq<nat>, answers: nat -> bool, took: nat -> nat, n: nat)
    requires w.batch == [] && IsBatch(w.rows, w.now, ids) && n <= |ids|
    ensures Draining(w, ids, answers, took, n, RunFrom(w, DrainSteps(ids, answers, took, n)))
  {
    if n == 0 {
      DrainBegins(w, ids, answers, took);
    } else {
      DrainIsRun(w, ids, answers, took, n - 1);
      DrainMore(w, ids, answers, took, n - 1, DrainSteps(ids, answers, took, n - 1));
    }
  }

  lemma RunStep(w: Worker, run: seq<Step>, s: Step)
    ensures RunFrom(w, run + [s]) == Next(RunFrom(w, run), s)
  {
    assert (run + [s])[..|run|] == run;
  }

  // ---- What is lost ----

  /** A drain that stops leaves the table as it is; if it stops after a POST, that POST was made and
      the table does not know of it. */
  lemma DrainStops(w: Worker, success: bool)
    ensures var u := Next(w, Abandon);
            u.rows == w.rows && u.log == w.log && u.batch == [] && u.drains == w.drains && u.now == w.now
    ensures var u := Next(w, Lose(success));
            && u.rows == w.rows && u.batch == [] && u.drains == w.drains && u.now == w.now
            && (w.batch != [] ==>
                  && |u.log| == |w.log| + 1 && u.log[..|w.log|] == w.log
                  && u.log[|w.log|].id == w.batch[0].id && u.log[|w.log|].success == success
                  && !u.log[|w.log|].recorded && u.log[|w.log|].at == w.now)
  {
  }

  // ---- The history of a row ----

  /** The recorded POSTs of one row. */
  function History(log: seq<Post>, id: nat): seq<Post> {
    if log == [] then [] else
      var last := log[|log| - 1];
      History(log[..|log| - 1], id) + if last.id == id && last.recorded then [last] else []
  }

  /** All the POSTs of one row. */
  function Sent(log: seq<Post>, id: nat): seq<Post> {
    if log == [] then [] else
      var last := log[|log| - 1];
      Sent(log[..|log| - 1], id) + if last.id == id then [last] else []
  }

  lemma HistoryAppend(log: seq<Post>, p: Post, id: nat)
    ensures History(log + [p], id) == History(log, id) + if p.id == id && p.recorded then [p] else []
  {
    assert (log + [p])[..|log|] == log;
  }

  predicate AllFailed(h: seq<Post>) { forall k :: 0 <= k < |h| ==> !h[k].success }

  /** What the columns of a row say about the POSTs made for it. */
  predicate LifeCycle(row: Delivery, h: seq<Post>) {
    && row.attempts == |h| && row.maxAttempts == 8
    && match row.status
       case Queued => row.attempts < row.maxAttempts && AllFailed(h)
       case Exhausted => row.attempts == row.maxAttempts && AllFailed(h)
       case Delivered =>
         1 <= row.attempts <= row.maxAttempts && h[|h| - 1].success && AllFailed(h[..|h| - 1])
  }

  predicate Spaced(h: seq<Post>) {
    && (forall k :: 0 <= k < |h| ==> h[k].at <= h[k].done)
    && forall k :: 1 <= k < |h| ==> h[k].at >= h[k - 1].done + 1000 * BackoffSeconds(k)
  }

  /** A pending row is due exactly its backoff after its last POST was recorded. */
  predicate Scheduled(row: Delivery, h: seq<Post>) {
    && Spaced(h)
    && (row.status == Queued && h != [] ==> row.nextAttemptAt == h[|h| - 1].done + 1000 * BackoffSeconds(|h|))
  }

  /** What the worker read is still what the table says: nobody else updates the queue. */
  predicate BatchOk(w: Worker) {
    && (forall i :: 0 <= i < |w.batch| ==>
          && w.batch[i].id < |w.rows| && w.batch[i] == DueOf(w.rows, w.batch[i].id)
          && IsDue(w.rows[w.batch[i].id], w.now))
    && forall i, j :: 0 <= i < j < |w.batch| ==> w.batch[i].id != w.batch[j].id
  }

  predicate RowOk(w: Worker, id: nat)
    requires id < |w.rows|
  {
    LifeCycle(w.rows[id], History(w.log, id)) && Scheduled(w.rows[id], History(w.log, id))
  }

  predicate RowsOk(w: Worker) {
    forall id :: 0 <= id < |w.rows| ==> RowOk(w, id)
  }

  predicate LogOk(w: Worker) { forall k :: 0 <= k < |w.log| ==> w.log[k].id < |w.rows| }

  predicate Ok(w: Worker) { BatchOk(w) && RowsOk(w) && LogOk(w) }

  lemma {:induction false} NoHistoryYet(log: seq<Post>, id: nat)
    requires forall k :: 0 <= k < |log| ==> log[k].id < id
    ensures History(log, id) == []
  {
    if log != [] {
      NoHistoryYet(log[..|log| - 1], id);
    }
  }

  /** One recorded POST takes a row to the next point of its life. */
  lemma RowLives(row: Delivery, id: nat, h: seq<Post>, p: Post)
    requires LifeCycle(row, h) && Scheduled(row, h) && IsDue(row, p.at) && p.at <= p.done
    ensures var after := AfterPost(row, Due(id, row.attempts, row.maxAttempts), p.success, p.done);
            LifeCycle(after, h + [p]) && Scheduled(after, h + [p])
  {
    var g := h + [p];
    assert g[..|g| - 1] == h;
  }

  lemma RowAfterPost(w: Worker, u: Worker, id: nat, p: Post)
    requires id < |w.rows| == |u.rows| && RowOk(w, id) && IsDue(w.rows[id], p.at)
    requires p.id == id && p.recorded && p.at <= p.done && u.log == w.log + [p]
    requires u.rows[id] == AfterPost(w.rows[id], DueOf(w.rows, id), p.success, p.done)
    ensures RowOk(u, id)
  {
    HistoryAppend(w.log, p, id);
    RowLives(w.rows[id], id, History(w.log, id), p);
  }

  lemma DeliverKeepsRow(w: Worker, s: Step, id: nat)
    requires Delivers(w, s) && id < |w.rows| && RowOk(w, id) && id == w.batch[0].id
    requires w.batch[0] == DueOf(w.rows, id) && IsDue(w.rows[id], w.now)
    ensures RowOk(Next(w, s), id)
  {
    RowAfterPost(w, Next(w, s), id, Post(id, s.success, true, w.now, w.now + s.took));
  }

  lemma DeliverSparesRow(w: Worker, s: Step, id: nat)
    requires Delivers(w, s) && id < |w.rows| && id != w.batch[0].id
    ensures Next(w, s).rows[id] == w.rows[id] && History(Next(w, s).log, id) == History(w.log, id)
  {
    HistoryAppend(w.log, Post(w.batch[0].id, s.success, true, w.now, w.now + s.took), id);
  }

  lemma DeliverKeepsRows(w: Worker, s: Step)
    requires BatchOk(w) && RowsOk(w) && Delivers(w, s)
    ensures RowsOk(Next(w, s))
  {
    forall id | 0 <= id < |Next(w, s).rows| ensures RowOk(Next(w, s), id) {
      assert RowOk(w, id);
      if id == w.batch[0].id { DeliverKeepsRow(w, s, id); } else { DeliverSparesRow(w, s, id); }
    }
  }

  lemma OthersKeepRow(w: Worker, s: Step, id: nat)
    requires !Delivers(w, s) && id < |w.rows| && RowOk(w, id)
    ensures id < |Next(w, s).rows| && RowOk(Next(w, s), id)
  {
    if s.Lose? && w.batch != [] {
      HistoryAppend(w.log, Post(w.batch[0].id, s.success, false, w.now, w.now), id);
      assert History(w.log, id) + [] == History(w.log, id);
    }
  }

  lemma NewRowOk(w: Worker, s: Step)
    requires LogOk(w) && s.Insert?
    ensures RowOk(Next(w, s), |w.rows|)
  {
    NoHistoryYet(w.log, |w.rows|);
  }

  lemma OthersKeepRows(w: Worker, s: Step)
    requires RowsOk(w) && LogOk(w) && !Delivers(w, s)
    ensures RowsOk(Next(w, s))
  {
    var u := Next(w, s);
    forall id | 0 <= id < |u.rows| ensures RowOk(u, id) {
      if id < |w.rows| {
        assert RowOk(w, id);
        OthersKeepRow(w, s, id);
      } else {
        NewRowOk(w, s);
      }
    }
  }

  lemma DeliverKeepsBatch(w: Worker, s: Step)
    requires BatchOk(w) && LogOk(w) && Delivers(w, s)
    ensures BatchOk(Next(w, s)) && LogOk(Next(w, s))
  {
    var u := Next(w, s);
    forall i | 0 <= i < |u.batch|
      ensures u.batch[i].id < |u.rows| && u.batch[i] == DueOf(u.rows, u.batch[i].id)
      ensures IsDue(u.rows[u.batch[i].id], u.now)
    {
      assert u.batch[i] == w.batch[i + 1] && w.batch[0].id != w.batch[i + 1].id;
      assert u.rows[u.batch[i].id] == w.rows[u.batch[i].id];
    }
  }

  lemma OthersKeepBatch(w: Worker, s: Step)
    requires BatchOk(w) && LogOk(w) && !Delivers(w, s)
    ensures BatchOk(Next(w, s)) && LogOk(Next(w, s))
  {
  }

  lemma {:induction false} Always(run: seq<Step>)
    ensures Ok(RunFrom(Start(), run))
  {
    if run != [] {
      Always(run[..|run| - 1]);
      OkKept(RunFrom(Start(), run[..|run| - 1]), run[|run| - 1]);
    }
  }

  lemma OkKept(w: Worker, s: Step)
    requires Ok(w)
    ensures Ok(Next(w, s))
  {
    if Delivers(w, s) {
      DeliverKeepsRows(w, s);
      DeliverKeepsBatch(w, s);
    } else {
      OthersKeepRows(w, s);
      OthersKeepBatch(w, s);
    }
  }

  predicate NothingLost(run: seq<Step>) { forall k :: 0 <= k < |run| ==> !run[k].Lose? }

  lemma {:induction false} NothingLostIsRecorded(run: seq<Step>, id: nat)
    requires NothingLost(run)
    ensures Sent(RunFrom(Start(), run).log, id) == History(RunFrom(Start(), run).log, id)
  {
    if run != [] {
      var w := RunFrom(Start(), run[..|run| - 1]);
      NothingLostIsRecorded(run[..|run| - 1], id);
      if Delivers(w, run[|run| - 1]) {
        assert Next(w, run[|run| - 1]).log[..|w.log|] == w.log;
      }
    }
  }

  /** The life of a delivery: pending means attempts are left and every POST failed; failed means
      exactly `max_attempts` POSTs, all failed; delivered means exactly one success, the last.
      If no POST went unrecorded these are all the POSTs there were. */
  lemma LifeOfDelivery(run: seq<Step>, id: nat)
    requires id < |RunFrom(Start(), run).rows|
    ensures var w := RunFrom(Start(), run);
            && LifeCycle(w.rows[id], History(w.log, id))
            && (NothingLost(run) ==> LifeCycle(w.rows[id], Sent(w.log, id)))
  {
    Always(run);
    assert RowOk(RunFrom(Start(), run), id);
    if NothingLost(run) { NothingLostIsRecorded(run, id); }
  }

  // ---- The retry schedule ----

  lemma {:induction false} SpacedSums(h: seq<Post>, m: nat)
    requires Spaced(h) && 1 <= m <= |h|
    ensures h[m - 1].at >= h[0].at + SECOND * ScheduleSum(m)
  {
    if m > 1 {
      SpacedSums(h, m - 1);
      assert h[m - 1].at >= h[m - 2].done + SECOND * BackoffSeconds(m - 1);
    }
  }

  /** The m-th recorded POST of a row comes at least the sum of the first m - 1 delays after the
      first, and a pending row is due at exactly the next. */
  lemma RetrySchedule(run: seq<Step>, id: nat, m: nat)
    requires id < |RunFrom(Start(), run).rows| && 1 <= m <= |History(RunFrom(Start(), run).log, id)|
    ensures var h := History(RunFrom(Start(), run).log, id);
            && m <= 8 && h[m - 1].at - h[0].at >= 1000 * (Pow2(m) - 2)
            && Scheduled(RunFrom(Start(), run).rows[id], h)
  {
    Always(run);
    assert RowOk(RunFrom(Start(), run), id);
    SpacedSums(History(RunFrom(Start(), run).log, id), m);
    ScheduleClosedForm(m);
  }

  // ---- Attempts only go up, and end ----

  lemma RowStep(w: Worker, s: Step, id: nat)
    requires Ok(w) && id < |w.rows|
    ensures id < |Next(w, s).rows|
    ensures Next(w, s).rows[id] == w.rows[id]
         || (w.rows[id].status == Queued && Next(w, s).rows[id].attempts == w.rows[id].attempts + 1)
  {
  }

  /** A row changes only by being attempted, and a delivered or failed row never changes. */
  lemma {:induction false} RowOverRun(v: Worker, run: seq<Step>, id: nat)
    requires Ok(v) && id < |v.rows|
    ensures var w := RunFrom(v, run);
            && Ok(w) && id < |w.rows|
            && (w.rows[id] == v.rows[id]
                || (v.rows[id].status == Queued && w.rows[id].attempts > v.rows[id].attempts))
  {
    if run != [] {
      RowOverRun(v, run[..|run| - 1], id);
      RowStep(RunFrom(v, run[..|run| - 1]), run[|run| - 1], id);
      OkKept(RunFrom(v, run[..|run| - 1]), run[|run| - 1]);
    }
  }

  /** The attempts a row may still get. */
  function Budget(d: Delivery): int { if d.status == Queued then d.maxAttempts - d.attempts else 0 }

  function RecordedOne(p: Post): int { if p.recorded then 1 else 0 }

  /** Each delivery uses up the budget, and only inserting a row adds to it. */
  lemma BudgetStep(w: Worker, s: Step)
    requires Ok(w)
    ensures Delivers(w, s) ==> Sum(Budget, Next(w, s).rows) < Sum(Budget, w.rows)
    ensures !Delivers(w, s) && !s.Insert? ==> Next(w, s).rows == w.rows
    ensures s.Insert? ==> Sum(Budget, Next(w, s).rows) == Sum(Budget, w.rows) + 8
  {
    if Delivers(w, s) {
      var d := w.batch[0];
      SumUpdate(Budget, w.rows, d.id, Next(w, s).rows[d.id]);
      assert RowOk(w, d.id);
    } else if s.Insert? {
      SumAppend(Budget, w.rows, NewDelivery(s.chargeId, s.url, s.event, s.payload, w.now));
    }
  }

  lemma RecordedStep(w: Worker, s: Step)
    ensures Sum(RecordedOne, Next(w, s).log) == Sum(RecordedOne, w.log) + if Delivers(w, s) then 1 else 0
  {
    if Delivers(w, s) {
      SumAppend(RecordedOne, w.log, Post(w.batch[0].id, s.success, true, w.now, w.now + s.took));
    } else if s.Lose? && w.batch != [] {
      SumAppend(RecordedOne, w.log, Post(w.batch[0].id, s.success, false, w.now, w.now));
    }
  }

  /** However the worker is scheduled, it records at most eight POSTs per row ever enqueued, less
      what the pending rows may still get. */
  lemma {:induction false} TotalWorkBounded(run: seq<Step>)
    ensures var w := RunFrom(Start(), run);
            Sum(RecordedOne, w.log) + Sum(Budget, w.rows) <= 8 * |w.rows|
  {
    if run != [] {
      var w, s := RunFrom(Start(), run[..|run| - 1]), run[|run| - 1];
      TotalWorkBounded(run[..|run| - 1]);
      Always(run[..|run| - 1]);
      BudgetStep(w, s);
      RecordedStep(w, s);
    }
  }

  // ---- No starvation ----

  /** The pending rows that were due by t. */
  function Overdue(rows: seq<Delivery>, t: int): set<nat> {
    set id: nat | id < |rows| && IsDue(rows[id], t)
  }

  function InBatch(batch: seq<Due>): set<nat> { set i | 0 <= i < |batch| :: batch[i].id }

  /** Those of them that the drain in progress has not taken. */
  function Waiting(w: Worker, t: int): set<nat> { Overdue(w.rows, t) - InBatch(w.batch) }

  lemma {:induction false} SmallerSet<T>(a: set<T>, b: set<T>)
    requires a <= b
    ensures |a| <= |b|
  {
    if a != {} {
      var x :| x in a;
      SmallerSet(a - {x}, b - {x});
    }
  }

  function Taken(ids: seq<nat>): set<nat> { set x | x in ids }

  lemma {:induction false} TakenSize(ids: seq<nat>)
    requires Distinct(ids)
    ensures |Taken(ids)| == |ids|
  {
    if ids != [] {
      var front, last := ids[..|ids| - 1], ids[|ids| - 1];
      TakenSize(front);
      assert ids == front + [last];
      assert last !in Taken(front);
      assert Taken(ids) == Taken(front) + {last};
    }
  }

  lemma TakenIsInBatch(rows: seq<Delivery>, ids: seq<nat>)
    requires InTable(rows, ids)
    ensures InBatch(DuesOf(rows, ids)) == Taken(ids)
  {
    var batch := DuesOf(rows, ids);
    forall x | x in ids ensures x in InBatch(batch) {
      var i :| 0 <= i < |ids| && ids[i] == x;
      assert batch[i].id == x;
    }
  }

  lemma HeadLeavesBatch(batch: seq<Due>)
    requires batch != []
    ensures InBatch(batch) <= InBatch(batch[1..]) + {batch[0].id}
  {
    forall x | x in InBatch(batch) ensures x in InBatch(batch[1..]) + {batch[0].id} {
      var i :| 0 <= i < |batch| && batch[i].id == x;
      assert i > 0 ==> batch[1..][i - 1].id == x;
    }
  }

  /** Once the clock has passed t, no row joins those overdue since t: new rows and rescheduled
      rows are due later. */
  lemma OverdueShrinks(w: Worker, s: Step, t: int)
    requires Ok(w) && t < w.now
    ensures Overdue(Next(w, s).rows, t) <= Overdue(w.rows, t)
    ensures Delivers(w, s) ==> w.batch[0].id !in Overdue(Next(w, s).rows, t)
    ensures t < Next(w, s).now
  {
    if Delivers(w, s) {
      assert RowOk(w, w.batch[0].id);
      BackoffIsCappedPower(w.batch[0].attempts + 1);
    }
  }

  /** A poll takes the overdue rows first: at least twenty of them, or all. */
  lemma BatchTakesOverdue(rows: seq<Delivery>, now: int, ids: seq<nat>, t: int)
    requires IsBatch(rows, now, ids) && t <= now
    ensures |ids| <= 20 && |Overdue(rows, t) - Taken(ids)| <= MaxZero(|Overdue(rows, t)| - 20)
  {
    var due, taken := Overdue(rows, t), Taken(ids);
    TakenSize(ids);
    if due <= taken {
      assert due - taken == {};
    } else {
      var k :| k in due && k !in taken;
      assert k !in ids && IsDue(rows[k], now);
      assert taken <= due by {
        forall x | x in taken ensures x in due {
          var i :| 0 <= i < |ids| && ids[i] == x;
          assert rows[ids[i]].nextAttemptAt <= rows[k].nextAttemptAt;
        }
      }
      assert taken + (due - taken) == due && taken !! (due - taken);
      assert |due| == |taken| + |due - taken|;
    }
  }

  function MaxZero(n: int): nat { if n < 0 then 0 else n }

  /** At most k - 20e of k rows. */
  function Left(k: nat, e: int): nat { MaxZero(k - BATCH_LIMIT * MaxZero(e)) }

  predicate Bounded(w: Worker, t: int, k: nat, e: int) {
    && |Overdue(w.rows, t)| <= Left(k, e)
    && (w.batch != [] && e >= 0 ==> |Waiting(w, t)| <= Left(k, e + 1))
  }

  lemma PollBounds(w: Worker, s: Step, t: int, k: nat, e: int)
    requires Ok(w) && t < w.now && Polls(w, s) && Bounded(w, t, k, e)
    ensures Bounded(Next(w, s), t, k, e + Next(w, s).drains - w.drains)
  {
    BatchTakesOverdue(w.rows, w.now, s.ids, t);
    var u := Next(w, s);
    TakenIsInBatch(w.rows, s.ids);
    if s.ids == [] {
      assert Taken(s.ids) == {};
      assert Waiting(u, t) == Overdue(w.rows, t);
    }
  }

  lemma DeliverBounds(w: Worker, s: Step, t: int, k: nat, e: int)
    requires Ok(w) && t < w.now && Delivers(w, s) && Bounded(w, t, k, e)
    ensures Bounded(Next(w, s), t, k, e + Next(w, s).drains - w.drains)
  {
    var u := Next(w, s);
    OverdueShrinks(w, s, t);
    SmallerSet(Overdue(u.rows, t), Overdue(w.rows, t));
    HeadLeavesBatch(w.batch);
    assert Waiting(u, t) <= Waiting(w, t);
    SmallerSet(Waiting(u, t), Waiting(w, t));
    if u.batch == [] {
      assert Waiting(u, t) == Overdue(u.rows, t);
    }
  }

  lemma BoundsKept(w: Worker, s: Step, t: int, k: nat, e: int)
    requires Ok(w) && t < w.now && Bounded(w, t, k, e)
    ensures Bounded(Next(w, s), t, k, e + Next(w, s).drains - w.drains)
  {
    if Polls(w, s) {
      PollBounds(w, s, t, k, e);
    } else if Delivers(w, s) {
      DeliverBounds(w, s, t, k, e);
    } else {
      var u := Next(w, s);
      OverdueShrinks(w, s, t);
      SmallerSet(Overdue(u.rows, t), Overdue(w.rows, t));
      SmallerSet(Overdue(u.rows, t) - InBatch(w.batch), Waiting(w, t));
    }
  }

  /** A drain already in progress when counting starts does not count. */
  function Head(v: Worker): int { if v.batch == [] then 0 else 1 }

  lemma {:induction false} OverdueOverRun(v: Worker, run: seq<Step>, t: int)
    requires Ok(v) && t < v.now
    ensures var w := RunFrom(v, run);
            && Ok(w) && t < w.now && Overdue(w.rows, t) <= Overdue(v.rows, t)
            && Bounded(w, t, |Overdue(v.rows, t)|, w.drains - v.drains - Head(v))
  {
    if run != [] {
      var w, s := RunFrom(v, run[..|run| - 1]), run[|run| - 1];
      OverdueOverRun(v, run[..|run| - 1], t);
      OverdueShrinks(w, s, t);
      BoundsKept(w, s, t, |Overdue(v.rows, t)|, w.drains - v.drains - Head(v));
      OkKept(w, s);
    }
  }

  /** No starvation. From any state whose clock has passed t with k rows overdue since t, and
      whatever is then enqueued, rescheduled, abandoned or lost: after c completed drains at most
      k - 20c of them are left, none ever joins them, and after k/20 drains, rounded up, every
      one has been attempted. */
  lemma NoStarvation(v: Worker, run: seq<Step>, t: int)
    requires Ok(v) && t < v.now
    ensures var w, k := RunFrom(v, run), |Overdue(v.rows, t)|;
            var c := w.drains - v.drains - Head(v);
            && Overdue(w.rows, t) <= Overdue(v.rows, t)
            && (c >= 0 ==> |Overdue(w.rows, t)| <= MaxZero(k - 20 * c))
            && (c >= 0 && 20 * c >= k ==>
                  forall id :: id in Overdue(v.rows, t) ==>
                    id < |w.rows| && w.rows[id].attempts > v.rows[id].attempts)
  {
    var w, k := RunFrom(v, run), |Overdue(v.rows, t)|;
    OverdueOverRun(v, run, t);
    var c := w.drains - v.drains - Head(v);
    if c >= 0 && BATCH_LIMIT * c >= k {
      forall id | id in Overdue(v.rows, t) ensures id < |w.rows| && w.rows[id].attempts > v.rows[id].attempts {
        RowOverRun(v, run, id);
        assert id !in Overdue(w.rows, t);
      }
    }
  }
}
