/** The outbox and delivery_log tables (internal/db/outbox.go) as values.

  A row's id is its index: rows are numbered in insertion order and never
  deleted. Times are nanoseconds; SQLite stores them in whole seconds. */
module Outbox {
  import opened Backoff

  datatype Status = Pending | Sent | Failed | Cancelled

  datatype Row = Row(messageId: nat, channel: string, status: Status, attempts: nat, scheduledAt: int)

  datatype LogRow = LogRow(outboxId: nat, attemptedAt: int, success: bool)

  datatype Tables = Tables(outbox: seq<Row>, log: seq<LogRow>)

  /** A failed row together with the time of its last logged attempt. */
  datatype RetryItem = RetryItem(id: nat, attempts: nat, lastAttemptAt: int)

  /** CURRENT_TIMESTAMP. */
  function Stamp(t: int): int {
    t - t % SECOND
  }

  // The statements, each one atomic. UPDATE ... WHERE id = ? is a no-op on a missing id.

  function Insert(t: Tables, messageId: nat, channel: string, now: int): Tables {
    t.(outbox := t.outbox + [Row(messageId, channel, Pending, 0, Stamp(now))])
  }

  function MarkSent(t: Tables, id: nat): Tables {
    if id < |t.outbox|
    then t.(outbox := t.outbox[id := t.outbox[id].(status := Sent, attempts := t.outbox[id].attempts + 1)])
    else t
  }

  function MarkFailed(t: Tables, id: nat): Tables {
    if id < |t.outbox|
    then t.(outbox := t.outbox[id := t.outbox[id].(status := Failed, attempts := t.outbox[id].attempts + 1)])
    else t
  }

  function ResetToPending(t: Tables, id: nat): Tables {
    if id < |t.outbox| then t.(outbox := t.outbox[id := t.outbox[id].(status := Pending)]) else t
  }

  function AppendLog(t: Tables, id: nat, success: bool, now: int): Tables {
    t.(log := t.log + [LogRow(id, Stamp(now), success)])
  }

  predicate Stale(r: Row, cutoff: int) {
    (r.status == Pending || r.status == Failed) && r.scheduledAt < cutoff
  }

  function CancelStale(t: Tables, cutoff: int): Tables {
    t.(outbox := seq(|t.outbox|, i requires 0 <= i < |t.outbox| =>
      if Stale(t.outbox[i], cutoff) then t.outbox[i].(status := Cancelled) else t.outbox[i]))
  }

  // The queries.

  /** GetPendingOutbox: every pending row once, oldest first; ties in any order. */
  ghost predicate IsPendingList(t: Tables, ids: seq<nat>) {
    && (forall k :: 0 <= k < |ids| ==> ids[k] < |t.outbox| && t.outbox[ids[k]].status == Pending)
    && (forall i :: 0 <= i < |t.outbox| && t.outbox[i].status == Pending ==> i in ids)
    && (forall j, k :: 0 <= j < k < |ids| ==> ids[j] != ids[k])
    && (forall j, k :: 0 <= j < k < |ids| ==> t.outbox[ids[j]].scheduledAt <= t.outbox[ids[k]].scheduledAt)
  }

  /** Number of delivery_log rows of an outbox row. */
  function CountLog(log: seq<LogRow>, id: nat): nat {
    if log == [] then 0
    else CountLog(log[..|log| - 1], id) + if log[|log| - 1].outboxId == id then 1 else 0
  }

  /** COALESCE((SELECT MAX(attempted_at) ...), scheduled_at) */
  function LastAttempt(log: seq<LogRow>, id: nat, scheduledAt: int): int {
    if log == [] then scheduledAt
    else
      var last := log[|log| - 1];
      var rest := log[..|log| - 1];
      if last.outboxId != id then LastAttempt(rest, id, scheduledAt)
      else if CountLog(rest, id) == 0 then last.attemptedAt
      else if last.attemptedAt > LastAttempt(rest, id, scheduledAt) then last.attemptedAt
      else LastAttempt(rest, id, scheduledAt)
  }

  /** The latest time logged for the row, or its creation when nothing is logged. */
  lemma {:induction false} LastAttemptIsLatest(log: seq<LogRow>, id: nat, scheduledAt: int)
    ensures CountLog(log, id) == 0 <==> forall e :: e in log ==> e.outboxId != id
    ensures CountLog(log, id) == 0 ==> LastAttempt(log, id, scheduledAt) == scheduledAt
    ensures CountLog(log, id) > 0 ==>
              || LogRow(id, LastAttempt(log, id, scheduledAt), true) in log
              || LogRow(id, LastAttempt(log, id, scheduledAt), false) in log
    ensures forall e :: e in log && e.outboxId == id ==> e.attemptedAt <= LastAttempt(log, id, scheduledAt)
  {
    if log != [] {
      var front, last := log[..|log| - 1], log[|log| - 1];
      LastAttemptIsLatest(front, id, scheduledAt);
      assert log == front + [last];
      assert last in {LogRow(last.outboxId, last.attemptedAt, true), LogRow(last.outboxId, last.attemptedAt, false)};
    }
  }

  predicate Retryable(r: Row, maxAttempts: int) {
    r.status == Failed && r.attempts < maxAttempts
  }

  /** GetFailedOutbox over the rows below n, in id order. */
  function FailedList(t: Tables, maxAttempts: int, n: nat): (items: seq<RetryItem>)
    requires n <= |t.outbox|
  {
    if n == 0 then []
    else
      var r := t.outbox[n - 1];
      FailedList(t, maxAttempts, n - 1) +
      if Retryable(r, maxAttempts)
      then [RetryItem(n - 1, r.attempts, LastAttempt(t.log, n - 1, r.scheduledAt))]
      else []
  }

  /** The item shows a retryable row as it is now. */
  ghost predicate Shows(t: Tables, maxAttempts: int, q: RetryItem) {
    && q.id < |t.outbox|
    && t.outbox[q.id].status == Failed && t.outbox[q.id].attempts < maxAttempts
    && q.attempts == t.outbox[q.id].attempts
    && q.lastAttemptAt == LastAttempt(t.log, q.id, t.outbox[q.id].scheduledAt)
  }

  /** The list holds exactly the retryable rows, each once, in id order. */
  lemma {:induction false} FailedListIsExact(t: Tables, maxAttempts: int, n: nat)
    requires n <= |t.outbox|
    ensures forall q :: q in FailedList(t, maxAttempts, n) ==> q.id < n && Shows(t, maxAttempts, q)
    ensures forall j, k :: 0 <= j < k < |FailedList(t, maxAttempts, n)| ==>
              FailedList(t, maxAttempts, n)[j].id < FailedList(t, maxAttempts, n)[k].id
    ensures forall i :: 0 <= i < n && t.outbox[i].status == Failed && t.outbox[i].attempts < maxAttempts ==>
              exists q :: q in FailedList(t, maxAttempts, n) && q.id == i
  {
    if n > 0 {
      FailedListIsExact(t, maxAttempts, n - 1);
      var prev := FailedList(t, maxAttempts, n - 1);
      var items := FailedList(t, maxAttempts, n);
      forall i | 0 <= i < n && Retryable(t.outbox[i], maxAttempts)
        ensures exists q :: q in items && q.id == i
      {
        if i == n - 1 {
          assert items[|items| - 1] in items;
        } else {
          var q :| q in prev && q.id == i;
          assert q in items;
        }
      }
    }
  }

  lemma AppendCounts(log: seq<LogRow>, r: LogRow, id: nat)
    ensures CountLog(log + [r], id) == CountLog(log, id) + if r.outboxId == id then 1 else 0
  {
    assert (log + [r])[..|log|] == log;
  }

  lemma AppendKeepsLast(log: seq<LogRow>, r: LogRow, id: nat, scheduledAt: int)
    requires r.outboxId != id
    ensures LastAttempt(log + [r], id, scheduledAt) == LastAttempt(log, id, scheduledAt)
  {
    assert (log + [r])[..|log|] == log;
  }
}
