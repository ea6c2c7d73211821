/** What the tables record of a run: every outbox row is the trace of one Enqueue step and every log row that of one
  Log step, each with the time of its step. */
module DeliveryRecord {
  import opened Backoff
  import opened Outbox
  import opened Delivery
  import opened DeliverySafety

  /** CURRENT_TIMESTAMP, read at `clock`: the last full second. */
  predicate StampOf(at: int, clock: int) {
    clock - 1_000_000_000 < at <= clock && at % 1_000_000_000 == 0
  }

  /** Enqueue steps among the first n. */
  function Enqueues(ls: seq<Label>, n: nat): nat
    requires n <= |ls|
  {
    if n == 0 then 0 else Enqueues(ls, n - 1) + One(ls[n - 1].Enqueue?)
  }

  /** Successful Log steps among the first n. */
  function Logs(ls: seq<Label>, n: nat): nat
    requires n <= |ls|
  {
    if n == 0 then 0 else Logs(ls, n - 1) + One(ls[n - 1] == Log(true))
  }

  /** Step g creates row i. */
  ghost predicate CreatedAt(ls: seq<Label>, g: nat, i: nat) {
    g < |ls| && ls[g].Enqueue? && Enqueues(ls, g) == i
  }

  /** Step g logs an attempt of row i. */
  ghost predicate LoggedAt(ss: seq<State>, ls: seq<Label>, g: nat, i: nat) {
    g < |ls| && g < |ss| && ls[g] == Log(true) && AtMarked(ss[g], i)
  }

  // ------------------------------------------------------------------ rows

  /** The row is what step l asked for at this time, apart from what deliveries change. */
  predicate RowOf(r: Row, l: Label, clock: int) {
    l.Enqueue? && r.messageId == l.messageId && r.channel == l.channel && StampOf(r.scheduledAt, clock)
  }

  predicate SameOrder(r: Row, q: Row) {
    r.messageId == q.messageId && r.channel == q.channel && r.scheduledAt == q.scheduledAt
  }

  lemma RowStep(c: Config, s: State, l: Label, t: State)
    requires Follows(c, s, l, t)
    ensures |t.tables.outbox| == |s.tables.outbox| + One(l.Enqueue?)
    ensures forall i :: 0 <= i < |s.tables.outbox| ==> SameOrder(t.tables.outbox[i], s.tables.outbox[i])
    ensures l.Enqueue? ==> RowOf(t.tables.outbox[|s.tables.outbox|], l, s.clock)
    ensures l.Enqueue? ==> t.tables.outbox[|s.tables.outbox|].(scheduledAt := 0)
                           == Row(l.messageId, l.channel, Pending, 0, 0)
  {
  }

  lemma {:induction false} RowsKept(c: Config, ss: seq<State>, ls: seq<Label>, m: nat, n: nat, i: nat)
    requires IsBoot(c, ss, ls) && m <= n <= |ls| && i < |ss[m].tables.outbox|
    ensures i < |ss[n].tables.outbox| && SameOrder(ss[n].tables.outbox[i], ss[m].tables.outbox[i])
    decreases n
  {
    if m < n {
      RowsKept(c, ss, ls, m, n - 1, i);
      assert StepAt(c, ss, ls, n - 1);
      RowStep(c, ss[n - 1], ls[n - 1], ss[n]);
    }
  }

  /** The table holds one row for each Enqueue step, in their order; row i keeps message, channel and time of the
      i-th one. */
  lemma {:induction false} RowIsItsEnqueue(c: Config, ss: seq<State>, ls: seq<Label>, n: nat, i: nat) returns (g: nat)
    requires IsBoot(c, ss, ls) && n <= |ls|
    ensures |ss[n].tables.outbox| == Enqueues(ls, n)
    ensures i < |ss[n].tables.outbox| ==>
              g < n && CreatedAt(ls, g, i) && RowOf(ss[n].tables.outbox[i], ls[g], ss[g].clock)
  {
    g := 0;
    if n > 0 {
      g := RowIsItsEnqueue(c, ss, ls, n - 1, i);
      assert StepAt(c, ss, ls, n - 1);
      RowStep(c, ss[n - 1], ls[n - 1], ss[n]);
      if i == |ss[n - 1].tables.outbox| {
        g := n - 1;
      }
    }
  }

  lemma {:induction false} EnqueuesGrow(ls: seq<Label>, m: nat, n: nat)
    requires m <= n <= |ls|
    ensures Enqueues(ls, m) <= Enqueues(ls, n)
    ensures m < n && ls[m].Enqueue? ==> Enqueues(ls, m) < Enqueues(ls, n)
    decreases n
  {
    if m < n {
      EnqueuesGrow(ls, m, n - 1);
    }
  }

  lemma CreatedOnce(ls: seq<Label>, g: nat, h: nat, i: nat)
    requires CreatedAt(ls, g, i) && CreatedAt(ls, h, i)
    ensures g == h
  {
    if g < h {
      EnqueuesGrow(ls, g, h);
    } else if h < g {
      EnqueuesGrow(ls, h, g);
    }
  }

  // ------------------------------------------------------------------ log rows

  /** The log row of the attempt in hand in state s. */
  predicate EntryOf(e: LogRow, s: State) {
    AtMarked(s, e.outboxId) && s.sweep.pc.ok == e.success && StampOf(e.attemptedAt, s.clock)
  }

  lemma LogStep(c: Config, s: State, l: Label, t: State)
    requires Follows(c, s, l, t)
    ensures s.tables.log <= t.tables.log && |t.tables.log| == |s.tables.log| + One(l == Log(true))
    ensures l == Log(true) ==> EntryOf(t.tables.log[|s.tables.log|], s)
  {
  }

  /** The log holds one row for each successful Log step, in their order, and row j says of the j-th one which row was
      tried, how the attempt ended, and when. */
  lemma {:induction false} EntryIsItsStep(c: Config, ss: seq<State>, ls: seq<Label>, n: nat, j: nat) returns (g: nat)
    requires IsBoot(c, ss, ls) && n <= |ls|
    ensures |ss[n].tables.log| == Logs(ls, n)
    ensures j < |ss[n].tables.log| ==>
              && g < n && ls[g] == Log(true) && Logs(ls, g) == j
              && EntryOf(ss[n].tables.log[j], ss[g]) && LoggedAt(ss, ls, g, ss[n].tables.log[j].outboxId)
  {
    g := 0;
    if n > 0 {
      g := EntryIsItsStep(c, ss, ls, n - 1, j);
      assert StepAt(c, ss, ls, n - 1);
      LogStep(c, ss[n - 1], ls[n - 1], ss[n]);
      if j == |ss[n - 1].tables.log| {
        g := n - 1;
      }
    }
  }

  /** Nothing is ever removed from the log. */
  lemma {:induction false} LogGrows(c: Config, ss: seq<State>, ls: seq<Label>, m: nat, n: nat)
    requires IsBoot(c, ss, ls) && m <= n <= |ls|
    ensures ss[m].tables.log <= ss[n].tables.log
    decreases n
  {
    if m < n {
      LogGrows(c, ss, ls, m, n - 1);
      assert StepAt(c, ss, ls, n - 1);
      LogStep(c, ss[n - 1], ls[n - 1], ss[n]);
    }
  }

  lemma StepHasEntry(c: Config, ss: seq<State>, ls: seq<Label>, g: nat, n: nat, i: nat) returns (e: LogRow)
    requires IsBoot(c, ss, ls) && g < n <= |ls| && LoggedAt(ss, ls, g, i)
    ensures e in ss[n].tables.log && e.outboxId == i && EntryOf(e, ss[g])
  {
    assert StepAt(c, ss, ls, g);
    LogStep(c, ss[g], ls[g], ss[g + 1]);
    LogGrows(c, ss, ls, g + 1, n);
    e := ss[n].tables.log[|ss[g].tables.log|];
  }

  // ------------------------------------------------------------------ the time a retry waits from

  /** The time of row i's last logged attempt, or of its creation. */
  function LastLogged(s: State, i: nat): int
    requires i < |s.tables.outbox|
  {
    LastAttempt(s.tables.log, i, s.tables.outbox[i].scheduledAt)
  }

  /** It is less than a second before any logged attempt, or later. */
  lemma NotBeforeLog(c: Config, ss: seq<State>, ls: seq<Label>, g: nat, n: nat, i: nat)
    requires IsBoot(c, ss, ls) && g < n <= |ls| && LoggedAt(ss, ls, g, i) && i < |ss[n].tables.outbox|
    ensures ss[g].clock - SECOND < LastLogged(ss[n], i)
  {
    var e := StepHasEntry(c, ss, ls, g, n, i);
    LastAttemptIsLatest(ss[n].tables.log, i, ss[n].tables.outbox[i].scheduledAt);
  }

  /** The same of the creation, while nothing is logged. */
  lemma NotBeforeCreation(c: Config, ss: seq<State>, ls: seq<Label>, g: nat, n: nat, i: nat)
    requires IsBoot(c, ss, ls) && n <= |ls| && CreatedAt(ls, g, i) && i < |ss[n].tables.outbox|
    requires forall h :: 0 <= h < n ==> !LoggedAt(ss, ls, h, i)
    ensures ss[g].clock - SECOND < LastLogged(ss[n], i)
  {
    var created := RowIsItsEnqueue(c, ss, ls, n, i);
    CreatedOnce(ls, g, created, i);
    var log := ss[n].tables.log;
    LastAttemptIsLatest(log, i, ss[n].tables.outbox[i].scheduledAt);
    forall e | e in log ensures e.outboxId != i {
      var j :| 0 <= j < |log| && log[j] == e;
      var h := EntryIsItsStep(c, ss, ls, n, j);
    }
  }

  /** And it is no later than some logged attempt, or than the creation. */
  lemma NotAfterAll(c: Config, ss: seq<State>, ls: seq<Label>, n: nat, i: nat) returns (g: nat)
    requires IsBoot(c, ss, ls) && n <= |ls| && i < |ss[n].tables.outbox|
    ensures g < n && (LoggedAt(ss, ls, g, i) || CreatedAt(ls, g, i)) && LastLogged(ss[n], i) <= ss[g].clock
  {
    var log, at := ss[n].tables.log, ss[n].tables.outbox[i].scheduledAt;
    LastAttemptIsLatest(log, i, at);
    if CountLog(log, i) == 0 {
      g := RowIsItsEnqueue(c, ss, ls, n, i);
    } else {
      var last := LastAttempt(log, i, at);
      var j :| 0 <= j < |log| && log[j] in {LogRow(i, last, true), LogRow(i, last, false)};
      g := EntryIsItsStep(c, ss, ls, n, j);
    }
  }

  // ------------------------------------------------------------------ successes

  /** Log rows of an outbox row that say success. */
  function Successes(log: seq<LogRow>, i: nat): nat {
    if log == [] then 0
    else
      var e := log[|log| - 1];
      Successes(log[..|log| - 1], i) + One(e.outboxId == i && e.success)
  }

  /** A success of row i is marked, or its mark was lost, and is about to be logged. */
  predicate OkAtLog(s: State, i: nat) {
    AtMarked(s, i) && s.sweep.pc.ok
  }

  /** In the first n steps, successes of row i whose log row was lost to a failed statement or a crash. */
  function OkUnlogged(ss: seq<State>, ls: seq<Label>, n: nat, i: nat): nat
    requires n <= |ls| && |ss| == |ls| + 1
  {
    if n == 0 then 0
    else OkUnlogged(ss, ls, n - 1, i)
         + One(OkAtLog(ss[n - 1], i) && (ls[n - 1] == Log(false) || ls[n - 1].Crash?))
  }

  lemma AppendSuccess(log: seq<LogRow>, e: LogRow, i: nat)
    ensures Successes(log + [e], i) == Successes(log, i) + One(e.outboxId == i && e.success)
  {
    assert (log + [e])[..|log|] == log;
  }

  lemma SuccessStep(c: Config, s: State, l: Label, t: State, i: nat)
    requires Follows(c, s, l, t)
    ensures Successes(t.tables.log, i) == Successes(s.tables.log, i) + One(l == Log(true) && OkAtLog(s, i))
  {
    if l == Log(true) {
      var e := t.tables.log[|s.tables.log|];
      assert t.tables.log == s.tables.log + [e];
      AppendSuccess(s.tables.log, e, i);
    }
  }

  lemma OkStep(c: Config, s: State, l: Label, t: State, i: nat)
    requires Follows(c, s, l, t)
    ensures One(AtSentOk(s, i)) + One(OkAtLog(s, i)) + One(Occurs(s, l, i, SendingOk))
            == One(AtSentOk(t, i)) + One(OkAtLog(t, i)) + One(Occurs(s, l, i, CrashAfterSend))
               + One(OkAtLog(s, i) && (l.Log? || l.Crash?))
  {
  }

  /** Every successful Send has its own success row in the log, is about to be logged, or a named fault lost the row. */
  lemma {:induction false} SuccessesLogged(c: Config, ss: seq<State>, ls: seq<Label>, n: nat, i: nat)
    requires IsBoot(c, ss, ls) && n <= |ls|
    ensures Count(ss, ls, n, i, SendingOk)
            == Successes(ss[n].tables.log, i) + One(AtSentOk(ss[n], i)) + One(OkAtLog(ss[n], i))
               + Count(ss, ls, n, i, CrashAfterSend) + OkUnlogged(ss, ls, n, i)
  {
    if n > 0 {
      SuccessesLogged(c, ss, ls, n - 1, i);
      assert StepAt(c, ss, ls, n - 1);
      SuccessStep(c, ss[n - 1], ls[n - 1], ss[n], i);
      OkStep(c, ss[n - 1], ls[n - 1], ss[n], i);
    }
  }

  lemma {:induction false} NothingUnlogged(ss: seq<State>, ls: seq<Label>, n: nat, i: nat)
    requires n <= |ls| && |ss| == |ls| + 1 && Faultless(ls)
    ensures OkUnlogged(ss, ls, n, i) == 0
  {
    if n > 0 {
      NothingUnlogged(ss, ls, n - 1, i);
    }
  }

  /** Without faults a row that is marked sent has one success in the log, unless it is just being logged; any other row
      has none. */
  lemma FaultlessSuccess(c: Config, ss: seq<State>, ls: seq<Label>, n: nat, i: nat)
    requires IsBoot(c, ss, ls) && Faultless(ls) && n <= |ls| && i < |ss[n].tables.outbox|
    ensures Successes(ss[n].tables.log, i) == One(ss[n].tables.outbox[i].status == Sent && !OkAtLog(ss[n], i))
    ensures OkAtLog(ss[n], i) ==> ss[n].tables.outbox[i].status == Sent
  {
    SuccessesLogged(c, ss, ls, n, i);
    NothingUnlogged(ss, ls, n, i);
    SuccessesAccounted(c, ss, ls, n, i);
    NoFaults(ss, ls, n, i, SentMarkLost);
  }
}
