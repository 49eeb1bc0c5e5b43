/** Outbound webhooks: the durable queue and the delivery of one row. */
module Webhook {
  import opened Rows
  import opened Store
  import Float64

  const DEFAULT_MAX_ATTEMPTS: int := 8
  const BATCH_LIMIT: nat := 20

  /** Timestamps count milliseconds, as finely as the columns store them. */
  const SECOND: int := 1000

  /** The row an enqueue inserts: due at once, with the column defaults. */
  function NewDelivery(chargeId: nat, url: string, event: string, payload: Payload, now: nat): Delivery {
    Delivery(chargeId, url, payload, event, Queued, 0, DEFAULT_MAX_ATTEMPTS, now)
  }

  method Enqueue(db: Database, chargeId: nat, url: string, event: string, payload: Payload, now: nat)
    returns (id: nat)
    modifies db`deliveries
    ensures id == |old(db.deliveries)| && |db.deliveries| == id + 1 && db.deliveries[..id] == old(db.deliveries)
    ensures db.deliveries[id].status == Queued && db.deliveries[id].attempts == 0
    ensures db.deliveries[id].maxAttempts == 8 && db.deliveries[id].chargeId == chargeId
    ensures db.deliveries[id].url == url && db.deliveries[id].payload == payload && db.deliveries[id].event == event
    ensures forall t :: IsDue(db.deliveries[id], t) <==> now <= t
    ensures db.deliveries == old(db.deliveries) + [NewDelivery(chargeId, url, event, payload, now)]
  {
    id := |db.deliveries|;
    db.deliveries := db.deliveries + [NewDelivery(chargeId, url, event, payload, now)];
  }

  const U32: int := 4294967296

  function Pow2(n: nat): (p: nat)
    ensures p >= 1
  {
    if n == 0 then 1 else 2 * Pow2(n - 1)
  }

  lemma {:induction false} Pow2Monotone(a: nat, b: nat)
    requires a <= b
    ensures Pow2(a) <= Pow2(b)
  {
    if a < b {
      Pow2Monotone(a, b - 1);
    }
  }

  lemma Pow2Twelve()
    ensures Pow2(11) == 2048 && Pow2(12) == 4096
  {
    assert Pow2(4) == 16;
    assert Pow2(8) == 256;
  }

  function Min(a: int, b: int): int { if a <= b then a else b }

  /** `2i64.saturating_pow(e)`. */
  function SaturatingPow2(e: nat): int { if e < 63 then Pow2(e) else Float64.I64_MAX }

  /** `2i64.saturating_pow(attempts.min(20) as u32).min(3600)`, the cast wrapping. */
  function BackoffSeconds(attempts: int): int {
    Min(SaturatingPow2(Min(attempts, 20) % U32), 3600)
  }

  /** The clamp of the exponent and the saturation are invisible: it is min(2^a, 3600). */
  lemma BackoffIsCappedPower(a: nat)
    ensures BackoffSeconds(a) == Min(Pow2(a), 3600)
    ensures BackoffSeconds(a) <= BackoffSeconds(a + 1)
    ensures 1 <= BackoffSeconds(a) <= 3600
  {
    Pow2Twelve();
    var e := Min(a, 20);
    assert e % U32 == e && Min(a + 1, 20) % U32 == Min(a + 1, 20);
    if a >= 12 {
      Pow2Monotone(12, a);
      Pow2Monotone(12, e);
    } else {
      assert Pow2(a + 1) == 2 * Pow2(a);
    }
  }

  /** The sum of the delays after attempts 1 .. m - 1. */
  function ScheduleSum(m: nat): int {
    if m <= 1 then 0 else ScheduleSum(m - 1) + BackoffSeconds(m - 1)
  }

  /** Attempt m comes at least 2^m - 2 seconds after the first, and an hour more per attempt
      beyond the twelfth. */
  lemma {:induction false} ScheduleClosedForm(m: nat)
    requires m >= 1
    ensures m <= 12 ==> ScheduleSum(m) == Pow2(m) - 2
    ensures m >= 12 ==> ScheduleSum(m) == 4094 + 3600 * (m - 12)
  {
    Pow2Twelve();
    if m > 1 {
      ScheduleClosedForm(m - 1);
      BackoffIsCappedPower(m - 1);
      assert Pow2(m) == 2 * Pow2(m - 1);
      if m <= 12 {
        Pow2Monotone(m - 1, 11);
      } else {
        Pow2Monotone(12, m - 1);
      }
    }
  }

  /** A due row as the worker read it. */
  datatype Due = Due(id: nat, attempts: int, maxAttempts: int)

  /** The row after one POST of a delivery read as d, the UPDATE running at `now`. */
  function AfterPost(row: Delivery, d: Due, success: bool, now: int): Delivery {
    var attempts := d.attempts + 1;
    if success then row.(status := Delivered, attempts := attempts)
    else if attempts >= d.maxAttempts then row.(status := Exhausted, attempts := attempts)
    else row.(attempts := attempts, nextAttemptAt := now + SECOND * BackoffSeconds(attempts))
  }

  method DeliverOne(db: Database, d: Due, success: bool, now: int)
    modifies db`deliveries
    ensures d.id < |old(db.deliveries)| ==>
      db.deliveries == old(db.deliveries)[d.id := AfterPost(old(db.deliveries)[d.id], d, success, now)]
    ensures d.id >= |old(db.deliveries)| ==> db.deliveries == old(db.deliveries)
  {
    if d.id >= |db.deliveries| {
      return;
    }
    var row := db.deliveries[d.id];
    var attempts := d.attempts + 1;
    if success {
      db.deliveries := db.deliveries[d.id := row.(status := Delivered, attempts := attempts)];
      return;
    }
    if attempts >= d.maxAttempts {
      db.deliveries := db.deliveries[d.id := row.(status := Exhausted, attempts := attempts)];
    } else {
      var delay := BackoffSeconds(attempts);
      db.deliveries := db.deliveries[d.id := row.(attempts := attempts, nextAttemptAt := now + SECOND * delay)];
    }
  }

  // ---- The due rows ----

  predicate IsDue(d: Delivery, now: int) { d.status == Queued && d.nextAttemptAt <= now }

  predicate Distinct(ids: seq<nat>) { forall i, j :: 0 <= i < j < |ids| ==> ids[i] != ids[j] }

  predicate AllDue(rows: seq<Delivery>, now: int, ids: seq<nat>) {
    forall i :: 0 <= i < |ids| ==> ids[i] < |rows| && IsDue(rows[ids[i]], now)
  }

  predicate InTable(rows: seq<Delivery>, ids: seq<nat>) { forall i :: 0 <= i < |ids| ==> ids[i] < |rows| }

  /** ORDER BY next_attempt_at ASC. */
  predicate Ordered(rows: seq<Delivery>, ids: seq<nat>)
    requires InTable(rows, ids)
  {
    forall i, j :: 0 <= i < j < |ids| ==> rows[ids[i]].nextAttemptAt <= rows[ids[j]].nextAttemptAt
  }

  /** A possible answer of the due query: at most twenty due rows, the longest due first, none
      left out that is due for longer than one taken, and none left out below the limit. */
  predicate IsBatch(rows: seq<Delivery>, now: int, ids: seq<nat>) {
    && Distinct(ids) && AllDue(rows, now, ids) && Ordered(rows, ids) && |ids| <= BATCH_LIMIT
    && forall k :: 0 <= k < |rows| && IsDue(rows[k], now) && k !in ids ==>
         && |ids| == BATCH_LIMIT
         && forall i :: 0 <= i < |ids| ==> rows[ids[i]].nextAttemptAt <= rows[k].nextAttemptAt
  }

  /** A row enqueued at `now` is taken by the first poll from then on, unless that poll is full of
      rows due no later. */
  lemma EnqueuedIsTaken(rows: seq<Delivery>, row: Delivery, now: int, t: int, ids: seq<nat>)
    requires row.status == Queued && row.nextAttemptAt == now <= t
    requires IsBatch(rows + [row], t, ids)
    ensures |rows| in ids
         || (|ids| == BATCH_LIMIT && forall i :: 0 <= i < |ids| ==> (rows + [row])[ids[i]].nextAttemptAt <= now)
  {
    assert IsDue((rows + [row])[|rows|], t);
  }

  function Place(rows: seq<Delivery>, ids: seq<nat>, k: nat): seq<nat>
    requires k < |rows| && InTable(rows, ids)
  {
    if ids == [] || rows[ids[|ids| - 1]].nextAttemptAt <= rows[k].nextAttemptAt then ids + [k]
    else Place(rows, ids[..|ids| - 1], k) + [ids[|ids| - 1]]
  }

  lemma {:induction false} PlaceAdds(rows: seq<Delivery>, ids: seq<nat>, k: nat)
    requires k < |rows| && InTable(rows, ids)
    ensures InTable(rows, Place(rows, ids, k))
    ensures forall x :: x in Place(rows, ids, k) <==> x in ids || x == k
    ensures Distinct(ids) && k !in ids ==> Distinct(Place(rows, ids, k))
  {
    if ids != [] && rows[ids[|ids| - 1]].nextAttemptAt > rows[k].nextAttemptAt {
      var front, last := ids[..|ids| - 1], ids[|ids| - 1];
      assert ids == front + [last];
      PlaceAdds(rows, front, k);
      if Distinct(ids) && k !in ids {
        assert Distinct(front) && last !in Place(rows, front, k);
      }
    }
  }

  lemma {:induction false} PlaceSorts(rows: seq<Delivery>, ids: seq<nat>, k: nat)
    requires k < |rows| && InTable(rows, ids) && Ordered(rows, ids)
    ensures InTable(rows, Place(rows, ids, k)) && Ordered(rows, Place(rows, ids, k))
  {
    PlaceAdds(rows, ids, k);
    if ids != [] && rows[ids[|ids| - 1]].nextAttemptAt > rows[k].nextAttemptAt {
      var front, last := ids[..|ids| - 1], ids[|ids| - 1];
      PlaceSorts(rows, front, k);
      PlaceAdds(rows, front, k);
      var head := Place(rows, front, k);
      forall i | 0 <= i < |head| ensures rows[head[i]].nextAttemptAt <= rows[last].nextAttemptAt {
        assert head[i] in front || head[i] == k;
      }
    }
  }

  lemma PlaceDue(rows: seq<Delivery>, now: int, ids: seq<nat>, k: nat)
    requires k < |rows| && k !in ids && IsDue(rows[k], now)
    requires InTable(rows, ids) && Distinct(ids) && AllDue(rows, now, ids) && Ordered(rows, ids)
    ensures var r := Place(rows, ids, k);
            && InTable(rows, r) && Distinct(r) && AllDue(rows, now, r) && Ordered(rows, r)
            && forall x :: x in r <==> x in ids || x == k
  {
    PlaceAdds(rows, ids, k);
    PlaceSorts(rows, ids, k);
    var r := Place(rows, ids, k);
    assert forall i :: 0 <= i < |r| ==> r[i] in r;
  }

  /** Every due row, the longest due first. */
  function AllDueSorted(rows: seq<Delivery>, now: int, n: nat): (r: seq<nat>)
    requires n <= |rows|
    ensures Distinct(r) && AllDue(rows, now, r) && Ordered(rows, r)
    ensures forall k :: 0 <= k < |rows| ==> (k in r <==> k < n && IsDue(rows[k], now))
  {
    if n == 0 then [] else
      var rest := AllDueSorted(rows, now, n - 1);
      if IsDue(rows[n - 1], now) then
        PlaceDue(rows, now, rest, n - 1);
        Place(rows, rest, n - 1)
      else rest
  }

  function DueBatch(rows: seq<Delivery>, now: int): (r: seq<nat>)
    ensures InTable(rows, r)
  {
    var all := AllDueSorted(rows, now, |rows|);
    if |all| <= BATCH_LIMIT then all else all[..BATCH_LIMIT]
  }

  lemma LeftOutIsLater(rows: seq<Delivery>, all: seq<nat>, k: nat)
    requires InTable(rows, all) && Ordered(rows, all) && |all| > BATCH_LIMIT
    requires k in all && k !in all[..BATCH_LIMIT]
    ensures k < |rows|
    ensures forall i :: 0 <= i < BATCH_LIMIT ==> rows[all[i]].nextAttemptAt <= rows[k].nextAttemptAt
  {
    var rest := all[BATCH_LIMIT..];
    assert all == all[..BATCH_LIMIT] + rest;
    var j :| 0 <= j < |rest| && rest[j] == k;
    assert all[BATCH_LIMIT + j] == k;
  }

  /** Taking the first twenty of the sorted due rows answers the query. */
  lemma DueBatchIsBatch(rows: seq<Delivery>, now: int)
    ensures IsBatch(rows, now, DueBatch(rows, now))
  {
    var all, ids := AllDueSorted(rows, now, |rows|), DueBatch(rows, now);
    assert InTable(rows, all);
    forall k | 0 <= k < |rows| && IsDue(rows[k], now) && k !in ids
      ensures |ids| == BATCH_LIMIT
      ensures forall i :: 0 <= i < |ids| ==> rows[ids[i]].nextAttemptAt <= rows[k].nextAttemptAt
    {
      LeftOutIsLater(rows, all, k);
    }
  }

  function DueOf(rows: seq<Delivery>, id: nat): Due
    requires id < |rows|
  {
    Due(id, rows[id].attempts, rows[id].maxAttempts)
  }

  function DuesOf(rows: seq<Delivery>, ids: seq<nat>): seq<Due>
    requires InTable(rows, ids)
  {
    seq(|ids|, j requires 0 <= j < |ids| => DueOf(rows, ids[j]))
  }

  /** The table after delivering the first n rows of a batch. `answers` gives the outcome of
      each POST, and `clock` the time of each UPDATE. */
  function Drained(rows: seq<Delivery>, ids: seq<nat>, answers: nat -> bool, clock: nat -> int, n: nat)
    : (r: seq<Delivery>)
    requires n <= |ids| && InTable(rows, ids)
    ensures |r| == |rows|
  {
    if n == 0 then rows else
      var r, id := Drained(rows, ids, answers, clock, n - 1), ids[n - 1];
      r[id := AfterPost(r[id], DueOf(rows, id), answers(n - 1), clock(n - 1))]
  }

  lemma {:induction false} DrainSpares(rows: seq<Delivery>, ids: seq<nat>, answers: nat -> bool, clock: nat -> int,
                                       n: nat, i: nat)
    requires n <= |ids| && InTable(rows, ids) && i < |rows|
    requires forall j :: 0 <= j < n ==> ids[j] != i
    ensures Drained(rows, ids, answers, clock, n)[i] == rows[i]
  {
    if n > 0 {
      DrainSpares(rows, ids, answers, clock, n - 1, i);
    }
  }

  lemma {:induction false} DrainAttempts(rows: seq<Delivery>, ids: seq<nat>, answers: nat -> bool, clock: nat -> int,
                                         n: nat, j: nat)
    requires j < n <= |ids| && InTable(rows, ids) && Distinct(ids)
    ensures Drained(rows, ids, answers, clock, n)[ids[j]]
         == AfterPost(rows[ids[j]], DueOf(rows, ids[j]), answers(j), clock(j))
  {
    if j == n - 1 {
      DrainSpares(rows, ids, answers, clock, n - 1, ids[j]);
    } else {
      DrainAttempts(rows, ids, answers, clock, n - 1, j);
    }
  }

  /** Each row of the batch is attempted exactly once, and no other row changes. */
  lemma DrainedRows(rows: seq<Delivery>, now: int, answers: nat -> bool, clock: nat -> int, i: nat)
    requires i < |rows|
    ensures var ids := DueBatch(rows, now);
            var r := Drained(rows, ids, answers, clock, |ids|);
            && (i in ids ==>
                  exists j :: 0 <= j < |ids| && ids[j] == i
                    && r[i] == AfterPost(rows[i], DueOf(rows, i), answers(j), clock(j)))
            && (i !in ids ==> r[i] == rows[i])
  {
    var ids := DueBatch(rows, now);
    DueBatchIsBatch(rows, now);
    if i in ids {
      var j :| 0 <= j < |ids| && ids[j] == i;
      DrainAttempts(rows, ids, answers, clock, |ids|, j);
    } else {
      DrainSpares(rows, ids, answers, clock, |ids|, i);
    }
  }

  /** One poll. `fault` names the delivery whose UPDATE fails, if one does, which ends it. */
  method DrainDue(db: Database, now: int, answers: nat -> bool, clock: nat -> int, fault: Option<nat>)
    returns (done: nat)
    modifies db`deliveries
    ensures var batch := DueBatch(old(db.deliveries), now);
            && done == (if fault.Some? && fault.value < |batch| then fault.value else |batch|)
            && db.deliveries == Drained(old(db.deliveries), batch, answers, clock, done)
  {
    var before := db.deliveries;
    var batch := DueBatch(before, now);
    var due := DuesOf(before, batch);
    done := 0;
    while done < |due|
      invariant done <= |batch|
      invariant fault.Some? ==> done <= fault.value || fault.value >= |batch|
      invariant db.deliveries == Drained(before, batch, answers, clock, done)
    {
      if fault == Some(done) {
        return;
      }
      DeliverOne(db, due[done], answers(done), clock(done));
      done := done + 1;
    }
  }
}
