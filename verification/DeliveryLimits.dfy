/** Runs that show where the promises of the code's comments end. */
module DeliveryLimits {
  import opened Backoff
  import opened Outbox
  import opened Delivery
  import opened DeliveryRecord
  import opened DeliverySafety
  import opened DeliveryTiming

  const MINUTE: int := 60 * SECOND
  const CONFIG := Config({"telegram"}, 5, MINUTE)

  lemma Extend(c: Config, ss: seq<State>, ls: seq<Label>, l: Label, t: State) returns (ss': seq<State>, ls': seq<Label>)
    requires IsBoot(c, ss, ls) && Follows(c, ss[|ls|], l, t)
    ensures IsBoot(c, ss', ls') && ss' == ss + [t] && ls' == ls + [l]
  {
    ss', ls' := ss + [t], ls + [l];
    forall k | 0 <= k < |ls'| ensures StepAt(c, ss', ls', k) {
      if k < |ls| {
        assert StepAt(c, ss, ls, k);
      }
    }
  }

  function TheRow(status: Status, attempts: nat): Row {
    Row(0, "telegram", status, attempts, 0)
  }

  function At(status: Status, attempts: nat, log: seq<LogRow>, sweep: Sweep, retry: RetryPc, waiting: set<nat>,
              clock: int, h: Hist): State
  {
    State(Tables([TheRow(status, attempts)], log), sweep, waiting, retry, true, clock, [h])
  }

  /** The only row is pending and caller p waits for the mutex: its sweep up to and including Send. */
  lemma SweepToSend(ss: seq<State>, ls: seq<Label>, p: nat, attempts: nat, log: seq<LogRow>, retry: RetryPc,
                    clock: int, h: Hist, ok: bool)
    returns (ss': seq<State>, ls': seq<Label>)
    requires IsBoot(CONFIG, ss, ls) && ss[|ls|] == At(Pending, attempts, log, Free, retry, {p}, clock, h)
    ensures IsBoot(CONFIG, ss', ls') && ss <= ss'
    ensures ls' == ls + [Acquire(p), FetchPending([0]), Begin, Load(true), Send(ok)]
    ensures ss'[|ls| + 4] == At(Pending, attempts, log, Held(p, Ready(0, [])), retry, {}, clock, h)
    ensures ss'[|ls'|] == At(Pending, attempts, log, Held(p, if ok then SentOk(0, []) else SendBad(0, [])), retry, {},
                             clock, h.(sends := h.sends + 1, okSends := h.okSends + One(ok)))
  {
    assert {p} - {p} == {} && [0][1..] == [];
    ss', ls' := Extend(CONFIG, ss, ls, Acquire(p), At(Pending, attempts, log, Held(p, Locked), retry, {}, clock, h));
    ss', ls' := Extend(CONFIG, ss', ls', FetchPending([0]),
                       At(Pending, attempts, log, Held(p, Sweeping([0])), retry, {}, clock, h));
    ss', ls' := Extend(CONFIG, ss', ls', Begin,
                       At(Pending, attempts, log, Held(p, Delivering(0, [])), retry, {}, clock, h));
    ss', ls' := Extend(CONFIG, ss', ls', Load(true),
                       At(Pending, attempts, log, Held(p, Ready(0, [])), retry, {}, clock, h));
    ss', ls' := Extend(CONFIG, ss', ls', Send(ok),
                       At(Pending, attempts, log, Held(p, if ok then SentOk(0, []) else SendBad(0, [])), retry, {},
                          clock, h.(sends := h.sends + 1, okSends := h.okSends + One(ok))));
  }

  /** A fresh process with one new item, and caller 1 waiting for the mutex. */
  lemma OneItem() returns (ss: seq<State>, ls: seq<Label>)
    ensures IsBoot(CONFIG, ss, ls) && ls == [Enqueue(0, "telegram"), Call(1)]
    ensures ss[2] == At(Pending, 0, [], Free, Resting, {1}, 0, NO_HIST)
  {
    var s0 := State(Tables([], []), Free, {}, Resting, true, 0, []);
    ss, ls := [s0], [];
    ss, ls := Extend(CONFIG, ss, ls, Enqueue(0, "telegram"), At(Pending, 0, [], Free, Resting, {}, 0, NO_HIST));
    ss, ls := Extend(CONFIG, ss, ls, Call(1), At(Pending, 0, [], Free, Resting, {1}, 0, NO_HIST));
  }

  /** Serialising the sweeps does not alone prevent a second delivery: one lost mark is enough. */
  lemma LostMarkDeliversTwice() returns (ss: seq<State>, ls: seq<Label>)
    ensures IsBoot(CONFIG, ss, ls)
    ensures Count(ss, ls, |ls|, 0, SendingOk) == 2
    ensures Count(ss, ls, |ls|, 0, SentMarkLost) == 1 && Count(ss, ls, |ls|, 0, CrashAfterSend) == 0
  {
    ss, ls := OneItem();
    ss, ls := SweepToSend(ss, ls, 1, 0, [], Resting, 0, NO_HIST, true);
    var h := NO_HIST.(sends := 1, okSends := 1, sentMarkFails := 1);
    var log := [LogRow(0, 0, true)];
    ss, ls := Extend(CONFIG, ss, ls, Mark(false), At(Pending, 0, [], Held(1, Marked(0, true, [])), Resting, {}, 0, h));
    ss, ls := Extend(CONFIG, ss, ls, Log(true), At(Pending, 0, log, Held(1, Sweeping([])), Resting, {}, 0, h));
    ss, ls := Extend(CONFIG, ss, ls, Leave, At(Pending, 0, log, Free, Resting, {}, 0, h));
    ss, ls := Extend(CONFIG, ss, ls, Call(1), At(Pending, 0, log, Free, Resting, {1}, 0, h));
    ss, ls := SweepToSend(ss, ls, 1, 0, log, Resting, 0, h, true);
    CountersCount(CONFIG, ss, ls, |ls|, 0, SendingOk);
    CountersCount(CONFIG, ss, ls, |ls|, 0, SentMarkLost);
    CountersCount(CONFIG, ss, ls, |ls|, 0, CrashAfterSend);
  }

  const ITEM := RetryItem(0, 1, 0)
  const FAILURE := LogRow(0, MINUTE, false)
  const TRIED := NO_HIST.(sends := 1)
  const READ := TRIED.(seen := Seen(1, 0, 0))

  /** The first attempt fails after a minute; the retry worker reads between its mark and its log row. */
  lemma ReadTooEarly() returns (ss: seq<State>, ls: seq<Label>)
    ensures IsBoot(CONFIG, ss, ls) && Faultless(ls)
    ensures ss[|ls|] == At(Failed, 1, [], Held(1, Marked(0, false, [])), Fetched([ITEM]), {}, MINUTE, READ)
  {
    ss, ls := OneItem();
    ss, ls := SweepToSend(ss, ls, 1, 0, [], Resting, 0, NO_HIST, false);
    ss, ls := Extend(CONFIG, ss, ls, Tick(MINUTE),
                     At(Pending, 0, [], Held(1, SendBad(0, [])), Resting, {}, MINUTE, TRIED));
    ss, ls := Extend(CONFIG, ss, ls, Mark(true),
                     At(Failed, 1, [], Held(1, Marked(0, false, [])), Resting, {}, MINUTE, TRIED));
    FetchShowsCreation();
    ss, ls := Extend(CONFIG, ss, ls, RetryFetch,
                     At(Failed, 1, [], Held(1, Marked(0, false, [])), Fetched([ITEM]), {}, MINUTE, READ));
  }

  lemma FetchShowsCreation()
    ensures var s := At(Failed, 1, [], Held(1, Marked(0, false, [])), Resting, {}, MINUTE, TRIED);
      Follows(CONFIG, s, RetryFetch, s.(retry := Fetched([ITEM]), hist := [READ]))
  {
    var s := At(Failed, 1, [], Held(1, Marked(0, false, [])), Resting, {}, MINUTE, TRIED);
    assert FailedList(s.tables, 5, 1) == FailedList(s.tables, 5, 0) + [ITEM] == [ITEM];
    assert Look(CONFIG, s.tables, 0, TRIED) == READ;
    assert Apply(CONFIG, s, RetryFetch).hist == [READ];
  }

  /** The failure is logged, then the retry worker reschedules at once: it counts from the row's creation. */
  lemma ResetTooEarly(ss: seq<State>, ls: seq<Label>) returns (ss': seq<State>, ls': seq<Label>)
    requires IsBoot(CONFIG, ss, ls) && Faultless(ls)
    requires ss[|ls|] == At(Failed, 1, [], Held(1, Marked(0, false, [])), Fetched([ITEM]), {}, MINUTE, READ)
    ensures IsBoot(CONFIG, ss', ls') && Faultless(ls') && ss <= ss' && ls + [Log(true)] <= ls'
    ensures ss'[|ls'|] == At(Pending, 1, [FAILURE], Free, Rescheduling([], MINUTE, 1), {}, MINUTE, READ)
  {
    assert [ITEM][1..] == [];
    ss', ls' := Extend(CONFIG, ss, ls, Log(true),
                       At(Failed, 1, [FAILURE], Held(1, Sweeping([])), Fetched([ITEM]), {}, MINUTE, READ));
    ss', ls' := Extend(CONFIG, ss', ls', Leave, At(Failed, 1, [FAILURE], Free, Fetched([ITEM]), {}, MINUTE, READ));
    ss', ls' := Extend(CONFIG, ss', ls', RetryClock,
                       At(Failed, 1, [FAILURE], Free, Rescheduling([ITEM], MINUTE, 0), {}, MINUTE, READ));
    ss', ls' := Extend(CONFIG, ss', ls', RetryReset(true),
                       At(Pending, 1, [FAILURE], Free, Rescheduling([], MINUTE, 1), {}, MINUTE, READ));
  }

  /** When the retry worker reads between the failure mark and its log row, the second attempt can start at the very
      time at which the first one is logged, although the backoff is a minute. */
  lemma LateLogRetriesEarly() returns (ss: seq<State>, ls: seq<Label>, g: nat, n: nat)
    ensures IsBoot(CONFIG, ss, ls) && Faultless(ls)
    ensures g < n < |ls| && LoggedAt(ss, ls, g, 0) && Occurs(ss[n], ls[n], 0, Sending)
    ensures ss[n].tables.outbox == [TheRow(Pending, 1)] && ss[n].clock == ss[g].clock && Delay(1, CONFIG.base) == MINUTE
  {
    ss, ls := ReadTooEarly();
    g := |ls|;
    ss, ls := ResetTooEarly(ss, ls);
    assert {} + {RETRY_CALLER} == {0};
    ss, ls := Extend(CONFIG, ss, ls, RetryDone, At(Pending, 1, [FAILURE], Free, Dispatching, {0}, MINUTE, READ));
    ss, ls := SweepToSend(ss, ls, 0, 1, [FAILURE], Dispatching, MINUTE, READ, true);
    n := |ls| - 1;
  }

  const LATE: int := HOUR + SECOND
  const SENT_ONCE := NO_HIST.(sends := 1, okSends := 1)

  /** Caller 1 goes on with its sweep beside the cancellation, or after it. */
  function Sweeping1(status: Status, attempts: nat, pc: Pc, booting: bool, h: Hist): State {
    At(status, attempts, [], Held(1, pc), Resting, {}, LATE, h).(booting := booting)
  }

  lemma CancelBesideSweep() returns (ss: seq<State>, ls: seq<Label>)
    ensures IsBoot(CONFIG, ss, ls) && Faultless(ls)
    ensures ss[|ls|] == Sweeping1(Cancelled, 0, Sweeping([0]), false, NO_HIST)
  {
    ss, ls := OneItem();
    ss, ls := Extend(CONFIG, ss, ls, Tick(LATE), At(Pending, 0, [], Free, Resting, {1}, LATE, NO_HIST));
    assert {1} - {1} == {};
    ss, ls := Extend(CONFIG, ss, ls, Acquire(1), Sweeping1(Pending, 0, Locked, true, NO_HIST));
    ss, ls := Extend(CONFIG, ss, ls, FetchPending([0]), Sweeping1(Pending, 0, Sweeping([0]), true, NO_HIST));
    CancelStep();
    ss, ls := Extend(CONFIG, ss, ls, Cancel(LATE), Sweeping1(Cancelled, 0, Sweeping([0]), false, NO_HIST));
  }

  lemma CancelStep()
    ensures Follows(CONFIG, Sweeping1(Pending, 0, Sweeping([0]), true, NO_HIST), Cancel(LATE),
                    Sweeping1(Cancelled, 0, Sweeping([0]), false, NO_HIST))
  {
    var t := Tables([TheRow(Pending, 0)], []);
    assert Stamp(LATE - HOUR) == SECOND && CancelStale(t, SECOND) == Tables([TheRow(Cancelled, 0)], []);
  }

  lemma FinishSweep(ss: seq<State>, ls: seq<Label>) returns (ss': seq<State>, ls': seq<Label>)
    requires IsBoot(CONFIG, ss, ls) && ss[|ls|] == Sweeping1(Cancelled, 0, Sweeping([0]), false, NO_HIST)
    ensures IsBoot(CONFIG, ss', ls') && ss <= ss' && ls' == ls + [Begin, Load(true), Send(true), Mark(true)]
    ensures ss'[|ls'|] == Sweeping1(Sent, 1, Marked(0, true, []), false, SENT_ONCE)
  {
    assert [0][1..] == [];
    ss', ls' := Extend(CONFIG, ss, ls, Begin, Sweeping1(Cancelled, 0, Delivering(0, []), false, NO_HIST));
    ss', ls' := Extend(CONFIG, ss', ls', Load(true), Sweeping1(Cancelled, 0, Ready(0, []), false, NO_HIST));
    ss', ls' := Extend(CONFIG, ss', ls', Send(true), Sweeping1(Cancelled, 0, SentOk(0, []), false, SENT_ONCE));
    ss', ls' := Extend(CONFIG, ss', ls', Mark(true), Sweeping1(Sent, 1, Marked(0, true, []), false, SENT_ONCE));
  }

  /** The startup cancellation, which runs beside the sweep, cancels a row that the sweep has read; the row is delivered
      and marked as sent nevertheless. */
  lemma CancelledIsDelivered() returns (ss: seq<State>, ls: seq<Label>, n: nat)
    ensures IsBoot(CONFIG, ss, ls) && Faultless(ls)
    ensures n < |ls| && CancelledRow(ss[n], 0) && Revivable(CONFIG, ss[n], 0)
    ensures Count(ss, ls, |ls|, 0, SendingOk) == 1 && ss[|ls|].tables.outbox == [TheRow(Sent, 1)]
  {
    var before, done := CancelBesideSweep();
    n := |done|;
    assert 0 in Claim(before[n]);
    ss, ls := FinishSweep(before, done);
    assert ss[n] == before[n];
    CountersCount(CONFIG, ss, ls, |ls|, 0, SendingOk);
  }
}
