/** A log row that is missing when the retry worker reads can always let the next attempt start too early.
  (internal/dispatcher/dispatcher.go, internal/dispatcher/retry.go) */
module EarlyRetry {
  import opened Backoff
  import opened Outbox
  import opened Delivery
  import opened DeliveryRecord
  import opened DeliverySafety
  import opened DeliveryTiming
  import DeliveryLimits
  import Dispatcher

  /** The run goes on, without a fault. */
  ghost predicate Continues(c: Config, ss: seq<State>, ls: seq<Label>, ss': seq<State>, ls': seq<Label>) {
    && IsBoot(c, ss', ls') && ss <= ss' && ls <= ls' && Faultless(ls'[|ls|..])
  }

  /** One more step that is no fault. */
  lemma Step(c: Config, ss: seq<State>, ls: seq<Label>, l: Label) returns (ss': seq<State>, ls': seq<Label>)
    requires IsBoot(c, ss, ls) && Enabled(c, ss[|ls|], l) && Faultless([l])
    ensures Continues(c, ss, ls, ss', ls') && Inv(c, ss'[|ls'|])
    ensures ls' == ls + [l] && ss'[|ls'|] == Apply(c, ss[|ls|], l)
  {
    ss', ls' := DeliveryLimits.Extend(c, ss, ls, l, Apply(c, ss[|ls|], l));
    assert ls'[|ls|..] == [l];
    Reachable(c, ss', ls', |ls'|);
  }

  lemma Further(c: Config, ss: seq<State>, ls: seq<Label>, ss1: seq<State>, ls1: seq<Label>,
                ss2: seq<State>, ls2: seq<Label>)
    requires Continues(c, ss, ls, ss1, ls1) && Continues(c, ss1, ls1, ss2, ls2)
    ensures Continues(c, ss, ls, ss2, ls2)
  {
    forall k | 0 <= k < |ls2| - |ls|
      ensures ls2[|ls|..][k] == if k < |ls1| - |ls| then ls1[|ls|..][k] else ls2[|ls1|..][k - (|ls1| - |ls|)]
    {
    }
  }

  /** Row i, with k attempts and a sender, at the time `at`. */
  ghost predicate StillAt(c: Config, s: State, i: nat, k: nat, at: int) {
    && i < |s.tables.outbox| && s.tables.outbox[i].attempts == k && s.tables.outbox[i].channel in c.senders
    && s.clock == at
  }

  lemma StaysAt(c: Config, s: State, l: Label, t: State, i: nat, k: nat, at: int)
    requires StillAt(c, s, i, k, at) && Follows(c, s, l, t)
    requires !l.Tick? && !l.Crash? && !(l.Mark? && Current(s, i))
    ensures StillAt(c, t, i, k, at)
    ensures !l.RetryReset? && !l.Cancel? ==> t.tables.outbox[i] == s.tables.outbox[i]
  {
  }

  // ------------------------------------------------------------------ the log row comes, then the clock is read

  /** The retry worker goes through its list at `at`, the mutex is free, and it will reset row i, or has done so. */
  ghost predicate Resetting(c: Config, s: State, i: nat, at: int) {
    && s.sweep.Free? && s.retry.Rescheduling? && s.retry.now == at && i < |s.tables.outbox|
    && (|| (s.tables.outbox[i].status == Pending && s.retry.rescheduled > 0)
        || exists j :: 0 <= j < |s.retry.items| && s.retry.items[j].id == i && Due(c, s.retry.items[j], at))
  }

  /** The log row is written only now, when the row that was read is due. */
  lemma LogLate(c: Config, ss: seq<State>, ls: seq<Label>, i: nat, due: int)
    returns (at: int, ss': seq<State>, ls': seq<Label>)
    requires IsBoot(c, ss, ls)
    requires var s := ss[|ls|];
      AtMarked(s, i) && i < |s.tables.outbox| && s.tables.outbox[i].channel in c.senders
    ensures Continues(c, ss, ls, ss', ls') && due <= at
    ensures |ls| + 1 < |ls'| && LoggedAt(ss', ls', |ls| + 1, i) && ss'[|ls| + 1].clock == at
    ensures var s, t := ss[|ls|], ss'[|ls'|];
      && StillAt(c, t, i, s.tables.outbox[i].attempts, at) && t.retry == s.retry
      && t.sweep == Held(s.sweep.caller, Sweeping(s.sweep.pc.todo))
  {
    var s := ss[|ls|];
    at := if due > s.clock then due else s.clock;
    var ss1, ls1 := Step(c, ss, ls, Tick(at));
    ss', ls' := LogNow(c, ss1, ls1, i);
    Further(c, ss, ls, ss1, ls1, ss', ls');
  }

  lemma LogNow(c: Config, ss: seq<State>, ls: seq<Label>, i: nat) returns (ss': seq<State>, ls': seq<Label>)
    requires IsBoot(c, ss, ls) && AtMarked(ss[|ls|], i) && i < |ss[|ls|].tables.outbox|
    ensures Continues(c, ss, ls, ss', ls') && ls' == ls + [Log(true)]
    ensures var s, t := ss[|ls|], ss'[|ls'|];
      && t.tables.outbox == s.tables.outbox && t.retry == s.retry && t.clock == s.clock
      && t.sweep == Held(s.sweep.caller, Sweeping(s.sweep.pc.todo))
  {
    Reachable(c, ss, ls, |ls|);
    ss', ls' := Step(c, ss, ls, Log(true));
  }

  lemma UnlockThenClock(c: Config, ss: seq<State>, ls: seq<Label>, i: nat, j: nat, k: nat, at: int)
    returns (ss': seq<State>, ls': seq<Label>)
    requires IsBoot(c, ss, ls) && StillAt(c, ss[|ls|], i, k, at)
    requires var s := ss[|ls|];
      && s.sweep.Held? && s.sweep.pc.Sweeping? && s.retry.Fetched?
      && j < |s.retry.items| && s.retry.items[j].id == i && Due(c, s.retry.items[j], at)
    ensures Continues(c, ss, ls, ss', ls')
    ensures Resetting(c, ss'[|ls'|], i, at) && StillAt(c, ss'[|ls'|], i, k, at)
  {
    Dispatcher.AlwaysAlone(c, ss, ls, |ls|);
    var ss1, ls1 := Step(c, ss, ls, Leave);
    ss', ls' := Step(c, ss1, ls1, RetryClock);
    Further(c, ss, ls, ss1, ls1, ss', ls');
    assert ss'[|ls'|].retry.items[j].id == i;
  }

  lemma LogThenClock(c: Config, ss: seq<State>, ls: seq<Label>, i: nat)
    returns (at: int, ss': seq<State>, ls': seq<Label>)
    requires IsBoot(c, ss, ls)
    requires var s := ss[|ls|];
      && s.retry.Fetched? && InRetry(s, i) && AtMarked(s, i)
      && i < |s.tables.outbox| && s.tables.outbox[i].channel in c.senders
    ensures Continues(c, ss, ls, ss', ls') && Resetting(c, ss'[|ls'|], i, at)
    ensures |ls| + 1 < |ls'| && LoggedAt(ss', ls', |ls| + 1, i) && ss'[|ls| + 1].clock == at
    ensures StillAt(c, ss'[|ls'|], i, ss[|ls|].tables.outbox[i].attempts, at)
  {
    var s := ss[|ls|];
    var j :| 0 <= j < |RetryClaim(s)| && RetryClaim(s)[j].id == i;
    var item := s.retry.items[j];
    var ss1, ls1;
    at, ss1, ls1 := LogLate(c, ss, ls, i, item.lastAttemptAt + Delay(item.attempts, c.base));
    ss', ls' := UnlockThenClock(c, ss1, ls1, i, j, s.tables.outbox[i].attempts, at);
    Further(c, ss, ls, ss1, ls1, ss', ls');
  }

  // ------------------------------------------------------------------ the list is worked off

  lemma ResetOne(c: Config, s: State, i: nat, at: int) returns (l: Label)
    requires Resetting(c, s, i, at) && s.retry.items != []
    ensures l in {RetryReset(true), RetrySkip} && Enabled(c, s, l)
    ensures Resetting(c, Apply(c, s, l), i, at) && Apply(c, s, l).retry.items == s.retry.items[1..]
  {
    var first := s.retry.items[0];
    l := if Due(c, first, at) then RetryReset(true) else RetrySkip;
    var t := Apply(c, s, l);
    if !(s.tables.outbox[i].status == Pending && s.retry.rescheduled > 0) {
      var j :| 0 <= j < |s.retry.items| && s.retry.items[j].id == i && Due(c, s.retry.items[j], at);
      assert j > 0 ==> t.retry.items[j - 1] == s.retry.items[j];
    }
  }

  lemma {:induction false} ListDone(c: Config, ss: seq<State>, ls: seq<Label>, i: nat, k: nat, at: int)
    returns (ss': seq<State>, ls': seq<Label>)
    requires IsBoot(c, ss, ls) && Resetting(c, ss[|ls|], i, at) && StillAt(c, ss[|ls|], i, k, at)
    ensures Continues(c, ss, ls, ss', ls') && Resetting(c, ss'[|ls'|], i, at) && StillAt(c, ss'[|ls'|], i, k, at)
    ensures ss'[|ls'|].retry.items == []
    decreases |ss[|ls|].retry.items|
  {
    if ss[|ls|].retry.items == [] {
      ss', ls' := ss, ls;
      assert ls'[|ls|..] == [];
    } else {
      var l := ResetOne(c, ss[|ls|], i, at);
      var ss1, ls1 := Step(c, ss, ls, l);
      StaysAt(c, ss[|ls|], l, ss1[|ls1|], i, k, at);
      ss', ls' := ListDone(c, ss1, ls1, i, k, at);
      Further(c, ss, ls, ss1, ls1, ss', ls');
    }
  }

  // ------------------------------------------------------------------ the retry worker's own sweep

  /** Behind the rows that are not newer. */
  function Place(rows: seq<Row>, ids: seq<nat>, i: nat): (k: nat)
    requires i < |rows| && forall j :: 0 <= j < |ids| ==> ids[j] < |rows|
    ensures k <= |ids| && (k > 0 ==> rows[ids[k - 1]].scheduledAt <= rows[i].scheduledAt)
    ensures forall j :: k <= j < |ids| ==> rows[i].scheduledAt < rows[ids[j]].scheduledAt
  {
    if ids == [] || rows[ids[|ids| - 1]].scheduledAt <= rows[i].scheduledAt then |ids|
    else Place(rows, ids[..|ids| - 1], i)
  }

  lemma {:induction false} SomeOrder(rows: seq<Row>, n: nat) returns (ids: seq<nat>)
    requires n <= |rows|
    ensures Dispatcher.PendingBelow(rows, n, ids)
  {
    if n == 0 {
      ids := [];
    } else {
      ids := SomeOrder(rows, n - 1);
      if rows[n - 1].status == Pending {
        var k := Place(rows, ids, n - 1);
        forall j | 0 <= j < k ensures Dispatcher.Before(rows, ids[j], n - 1) {
          assert j < k - 1 ==> Dispatcher.Before(rows, ids[j], ids[k - 1]);
        }
        Dispatcher.InsertKeepsOrder(rows, n - 1, ids, k);
        ids := Dispatcher.InsertAt(ids, k, n - 1);
      }
    }
  }

  lemma SomePendingList(t: Tables) returns (ids: seq<nat>)
    ensures IsPendingList(t, ids)
  {
    ids := SomeOrder(t.outbox, |t.outbox|);
    forall j, k | 0 <= j < k < |ids|
      ensures ids[j] != ids[k] && t.outbox[ids[j]].scheduledAt <= t.outbox[ids[k]].scheduledAt
    {
      assert Dispatcher.Before(t.outbox, ids[j], ids[k]);
    }
  }

  lemma OwnSweep(c: Config, ss: seq<State>, ls: seq<Label>, i: nat, k: nat, at: int)
    returns (ss': seq<State>, ls': seq<Label>)
    requires IsBoot(c, ss, ls) && Resetting(c, ss[|ls|], i, at) && StillAt(c, ss[|ls|], i, k, at)
    requires ss[|ls|].retry.items == []
    ensures Continues(c, ss, ls, ss', ls') && StillAt(c, ss'[|ls'|], i, k, at)
    ensures ss'[|ls'|].sweep.Held? && ss'[|ls'|].sweep.pc.Sweeping? && i in Claim(ss'[|ls'|])
  {
    var ss1, ls1 := Step(c, ss, ls, RetryDone);
    var ss2, ls2 := Step(c, ss1, ls1, Acquire(RETRY_CALLER));
    Further(c, ss, ls, ss1, ls1, ss2, ls2);
    var ids := SomePendingList(ss2[|ls2|].tables);
    ss', ls' := Step(c, ss2, ls2, FetchPending(ids));
    Further(c, ss, ls, ss2, ls2, ss', ls');
  }

  // ------------------------------------------------------------------ up to the next Send

  /** The row is next to be sent. */
  ghost predicate AtReady(s: State, i: nat) {
    s.sweep.Held? && s.sweep.pc.Ready? && s.sweep.pc.id == i && KnownRow(s, i)
  }

  ghost predicate Unsent(s: State, i: nat) {
    i in Claim(s) && !AtSentOk(s, i) && !AtSendBad(s, i)
  }

  lemma TowardReady(c: Config, s: State, i: nat, k: nat, at: int) returns (l: Label)
    requires Inv(c, s) && StillAt(c, s, i, k, at) && Unsent(s, i) && !AtReady(s, i)
    ensures Enabled(c, s, l) && Faultless([l])
    ensures var t := Apply(c, s, l);
      StillAt(c, t, i, k, at) && Unsent(t, i)
      && (|Claim(t)| < |Claim(s)| || (|Claim(t)| == |Claim(s)| && Stage(t.sweep.pc) < Stage(s.sweep.pc)))
  {
    l := Toward(c, s, i);
    TowardStep(c, s, i);
    StaysAt(c, s, l, Apply(c, s, l), i, k, at);
    assert Claimed(c, s, i);
  }

  lemma {:induction false} UpToSend(c: Config, ss: seq<State>, ls: seq<Label>, i: nat, k: nat, at: int)
    returns (ss': seq<State>, ls': seq<Label>)
    requires IsBoot(c, ss, ls) && StillAt(c, ss[|ls|], i, k, at) && Unsent(ss[|ls|], i)
    ensures Continues(c, ss, ls, ss', ls') && StillAt(c, ss'[|ls'|], i, k, at) && AtReady(ss'[|ls'|], i)
    decreases |Claim(ss[|ls|])|, Stage(ss[|ls|].sweep.pc)
  {
    Reachable(c, ss, ls, |ls|);
    if AtReady(ss[|ls|], i) {
      ss', ls' := ss, ls;
      assert ls'[|ls|..] == [];
    } else {
      var l := TowardReady(c, ss[|ls|], i, k, at);
      var ss1, ls1 := Step(c, ss, ls, l);
      ss', ls' := UpToSend(c, ss1, ls1, i, k, at);
      Further(c, ss, ls, ss1, ls1, ss', ls');
    }
  }

  /** Whenever the retry worker has read a row whose last attempt is not logged yet, the run can go on without a fault:
      step g logs that attempt, and the next one starts at the very same time, whatever the backoff. */
  lemma MissingLogCanRetryEarly(c: Config, ss: seq<State>, ls: seq<Label>, i: nat)
    returns (ss': seq<State>, ls': seq<Label>, g: nat)
    requires IsBoot(c, ss, ls)
    requires var s := ss[|ls|];
      && s.retry.Fetched? && InRetry(s, i) && AtMarked(s, i)
      && i < |s.tables.outbox| && s.tables.outbox[i].channel in c.senders
    ensures Continues(c, ss, ls, ss', ls')
    ensures |ls| <= g < |ls'| && LoggedAt(ss', ls', g, i)
    ensures var k, t := ss[|ls|].tables.outbox[i].attempts, ss'[|ls'|];
      && Enabled(c, t, Send(true)) && Current(t, i) && i < |t.tables.outbox| && t.tables.outbox[i].attempts == k
      && t.clock == ss'[g].clock
  {
    var k := ss[|ls|].tables.outbox[i].attempts;
    g := |ls| + 1;
    var at, ss1, ls1 := LogThenClock(c, ss, ls, i);
    var ss2, ls2 := ListDone(c, ss1, ls1, i, k, at);
    Further(c, ss, ls, ss1, ls1, ss2, ls2);
    var ss3, ls3 := OwnSweep(c, ss2, ls2, i, k, at);
    Further(c, ss, ls, ss2, ls2, ss3, ls3);
    ss', ls' := UpToSend(c, ss3, ls3, i, k, at);
    Further(c, ss, ls, ss3, ls3, ss', ls');
    assert ls'[g] == ls1[g] && ss'[g] == ss1[g];
  }
}
