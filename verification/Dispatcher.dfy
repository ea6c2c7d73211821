/** The dispatcher and the retry worker as the loops they are, over a database that other goroutines
  change at any time. Each method extends a run of the delivery protocol, so what is proved about
  every run of the protocol holds for these loops. (internal/dispatcher, internal/db/outbox.go) */
module Dispatcher {
  import opened Backoff
  import opened Outbox
  import opened Delivery
  import opened DeliveryRecord
  import opened DeliverySafety
  import opened Interleaving

  /** The caller that holds the mutex, and the retry worker at its list. */
  datatype Actor = TheSweep | TheRetry

  /** The actor's steps, and the crash that ends it; every other step may come in between. */
  predicate Of(a: Actor, l: Label) {
    || l.Crash?
    || match a
       case TheSweep =>
         || l.Acquire? || l.FetchPending? || l.FetchPendingFails? || l.Leave? || l.Begin? || l.NoSender? || l.Load?
         || l.Send? || l.Mark? || l.Log?
       case TheRetry =>
         || l.RetryFetch? || l.RetryFetchFails? || l.RetryClock? || l.RetrySkip? || l.RetryReset? || l.RetryDone?
  }

  /** The retry worker calls DispatchOnce only between its rounds, and no caller waits for a mutex that it holds. */
  ghost predicate Alone(s: State) {
    && (!s.retry.Dispatching? ==> RETRY_CALLER !in s.waiting && !(s.sweep.Held? && s.sweep.caller == RETRY_CALLER))
    && (s.sweep.Held? ==> s.sweep.caller !in s.waiting)
  }

  lemma StaysAlone(c: Config, s: State, l: Label, t: State)
    requires Alone(s) && Follows(c, s, l, t)
    ensures Alone(t)
  {
  }

  lemma {:induction false} AlwaysAlone(c: Config, ss: seq<State>, ls: seq<Label>, n: nat)
    requires IsBoot(c, ss, ls) && n <= |ls|
    ensures Alone(ss[n])
  {
    if n > 0 {
      AlwaysAlone(c, ss, ls, n - 1);
      assert StepAt(c, ss, ls, n - 1);
      StaysAlone(c, ss[n - 1], ls[n - 1], ss[n]);
    }
  }

  /** Foreign steps leave the holder of the mutex where it is. */
  lemma ForeignKeepsSweep(c: Config, s: State, l: Label)
    requires Enabled(c, s, l) && !Of(TheSweep, l)
    ensures Apply(c, s, l).sweep == s.sweep
  {
  }

  /** Foreign steps leave the retry worker where it is. */
  lemma ForeignKeepsRetry(c: Config, s: State, l: Label)
    requires Enabled(c, s, l) && !Of(TheRetry, l) && Alone(s) && !s.retry.Dispatching?
    ensures Apply(c, s, l).retry == s.retry
  {
  }

  /** So OthersRun promises no more than any number of such steps keeps. */
  lemma {:induction false} ForeignRunKeepsSweep(c: Config, ss: seq<State>, ls: seq<Label>, i: nat, j: nat)
    requires IsBoot(c, ss, ls) && i <= j <= |ls| && forall k :: i <= k < j ==> !Of(TheSweep, ls[k])
    ensures ss[j].sweep == ss[i].sweep
    decreases j
  {
    if i < j {
      ForeignRunKeepsSweep(c, ss, ls, i, j - 1);
      assert StepAt(c, ss, ls, j - 1);
      ForeignKeepsSweep(c, ss[j - 1], ls[j - 1]);
    }
  }

  /** And neither does OthersRunBesideRetry. */
  lemma {:induction false} ForeignRunKeepsRetry(c: Config, ss: seq<State>, ls: seq<Label>, i: nat, j: nat)
    requires IsBoot(c, ss, ls) && i <= j <= |ls| && forall k :: i <= k < j ==> !Of(TheRetry, ls[k])
    requires !ss[i].retry.Dispatching?
    ensures ss[j].retry == ss[i].retry
    decreases j
  {
    if i < j {
      ForeignRunKeepsRetry(c, ss, ls, i, j - 1);
      AlwaysAlone(c, ss, ls, j - 1);
      assert StepAt(c, ss, ls, j - 1);
      ForeignKeepsRetry(c, ss[j - 1], ls[j - 1]);
    }
  }

  /** The pending rows below n, oldest first. */
  ghost predicate PendingBelow(rows: seq<Row>, n: nat, ids: seq<nat>)
    requires n <= |rows|
  {
    && (forall k :: 0 <= k < |ids| ==> ids[k] < n && rows[ids[k]].status == Pending)
    && (forall i :: 0 <= i < n && rows[i].status == Pending ==> i in ids)
    && (forall j, k :: 0 <= j < k < |ids| ==> Before(rows, ids[j], ids[k]))
  }

  ghost predicate Before(rows: seq<Row>, a: nat, b: nat) {
    a < |rows| && b < |rows| && a != b && rows[a].scheduledAt <= rows[b].scheduledAt
  }

  /** i inserted at position k. */
  function InsertAt(ids: seq<nat>, k: nat, i: nat): (more: seq<nat>)
    requires k <= |ids|
    ensures |more| == |ids| + 1
    ensures forall j :: 0 <= j < |more| ==> more[j] == if j < k then ids[j] else if j == k then i else ids[j - 1]
  {
    ids[..k] + [i] + ids[k..]
  }

  lemma InsertKeepsMembers(ids: seq<nat>, k: nat, i: nat)
    requires k <= |ids|
    ensures i in InsertAt(ids, k, i)
    ensures forall r :: r in ids ==> r in InsertAt(ids, k, i)
  {
    var more := InsertAt(ids, k, i);
    assert more[k] == i;
    forall r | r in ids ensures r in more {
      var j :| 0 <= j < |ids| && ids[j] == r;
      assert more[if j < k then j else j + 1] == r;
    }
  }

  lemma InsertKeepsOrder(rows: seq<Row>, i: nat, ids: seq<nat>, k: nat)
    requires i < |rows| && rows[i].status == Pending && PendingBelow(rows, i, ids) && k <= |ids|
    requires forall j :: 0 <= j < k ==> Before(rows, ids[j], i)
    requires forall j :: k <= j < |ids| ==> Before(rows, i, ids[j])
    ensures PendingBelow(rows, i + 1, InsertAt(ids, k, i))
  {
    var more := InsertAt(ids, k, i);
    InsertedMembers(rows, i, ids, k);
    forall a, b | 0 <= a < b < |more| ensures Before(rows, more[a], more[b]) {
      InsertedPair(rows, i, ids, k, a, b);
    }
  }

  lemma InsertedMembers(rows: seq<Row>, i: nat, ids: seq<nat>, k: nat)
    requires i < |rows| && rows[i].status == Pending && PendingBelow(rows, i, ids) && k <= |ids|
    ensures var more := InsertAt(ids, k, i);
      && (forall j :: 0 <= j < |more| ==> more[j] < i + 1 && rows[more[j]].status == Pending)
      && (forall r :: 0 <= r < i + 1 && rows[r].status == Pending ==> r in more)
  {
    InsertKeepsMembers(ids, k, i);
  }

  lemma InsertedPair(rows: seq<Row>, i: nat, ids: seq<nat>, k: nat, a: nat, b: nat)
    requires k <= |ids| && a < b <= |ids|
    requires forall j, l :: 0 <= j < l < |ids| ==> Before(rows, ids[j], ids[l])
    requires forall j :: 0 <= j < k ==> Before(rows, ids[j], i)
    requires forall j :: k <= j < |ids| ==> Before(rows, i, ids[j])
    ensures Before(rows, InsertAt(ids, k, i)[a], InsertAt(ids, k, i)[b])
  {
    var more := InsertAt(ids, k, i);
    var from, to := if a < k then a else a - 1, if b < k then b else b - 1;
    if a == k {
      assert more[a] == i && more[b] == ids[to];
    } else if b == k {
      assert more[a] == ids[from] && more[b] == i;
    } else {
      assert more[a] == ids[from] && more[b] == ids[to];
    }
  }

  class Database {
    const cfg: Config
    var outbox: seq<Row>
    var log: seq<LogRow>
    var clock: int

    /** The run so far: what every goroutine did. */
    ghost var states: seq<State>
    ghost var labels: seq<Label>

    ghost predicate Valid()
      reads this
    {
      && 0 <= cfg.base < TWO_62
      && IsBoot(cfg, states, labels)
      && states[|labels|].tables == Contents() && states[|labels|].clock == clock
    }

    ghost function Now(): State
      reads this
      requires Valid()
    {
      states[|labels|]
    }

    /** The run has only been extended. */
    twostate predicate Extends()
      reads this
    {
      old(labels) <= labels && old(states) <= states
    }

    function Contents(): Tables
      reads this
    {
      Tables(outbox, log)
    }

    constructor (cfg: Config, clock: int)
      requires 0 <= cfg.base < TWO_62
      ensures Valid() && this.cfg == cfg && labels == [] && Contents() == Tables([], [])
    {
      this.cfg := cfg;
      this.outbox, this.log, this.clock := [], [], clock;
      this.states, this.labels := [State(Tables([], []), Free, {}, Resting, true, clock, [])], [];
    }

    /** Appends one step of the protocol to the run. */
    ghost method Take(l: Label)
      requires IsBoot(cfg, states, labels) && Enabled(cfg, states[|labels|], l)
      modifies this`states, this`labels
      ensures IsBoot(cfg, states, labels)
      ensures labels == old(labels) + [l] && states == old(states) + [Apply(cfg, old(states[|labels|]), l)]
    {
      var next := Apply(cfg, states[|labels|], l);
      var before, done := states, labels;
      states, labels := states + [next], labels + [l];
      forall k | 0 <= k < |labels| ensures StepAt(cfg, states, labels, k) {
        if k < |done| {
          assert StepAt(cfg, before, done, k);
        }
      }
    }

    /** Any number of steps of other goroutines while the mutex is held. The body takes none; callers
        know only the contract, so they are proved against every interference it allows. */
    method OthersRun()
      requires Valid()
      modifies this
      ensures Valid() && Extends() && Now().sweep == old(Now()).sweep
      ensures forall k :: |old(labels)| <= k < |labels| ==> !Of(TheSweep, labels[k])
    {
    }

    /** Any number of steps of other goroutines while the retry worker goes through its list. */
    method OthersRunBesideRetry()
      requires Valid() && !Now().retry.Dispatching?
      modifies this
      ensures Valid() && Extends() && Now().retry == old(Now()).retry
      ensures forall k :: |old(labels)| <= k < |labels| ==> !Of(TheRetry, labels[k])
    {
    }

    // The statements. `ok` says whether one succeeds; if not, it changes nothing.

    method Lock(ghost caller: nat)
      requires Valid() && Now().sweep.Free? && caller in Now().waiting
      modifies this
      ensures Valid() && Extends() && Contents() == old(Contents())
      ensures labels == old(labels) + [Acquire(caller)] && Now().sweep == Held(caller, Locked)
    {
      Take(Acquire(caller));
    }

    method Unlock()
      requires Valid() && Now().sweep.Held? && Now().sweep.pc.Sweeping?
      modifies this
      ensures Valid() && Extends() && Contents() == old(Contents())
      ensures labels == old(labels) + [Leave] && states == old(states) + [Now()] && Now().sweep.Free?
      ensures old(Now()).sweep.caller == RETRY_CALLER ==> Now().retry.Resting?
    {
      Take(Leave);
    }

    method GetPendingOutbox(ok: bool) returns (ids: seq<nat>)
      requires Valid() && Now().sweep.Held? && Now().sweep.pc.Locked?
      modifies this
      ensures Valid() && Extends() && Contents() == old(Contents())
      ensures ok ==> IsPendingList(Contents(), ids) && labels == old(labels) + [FetchPending(ids)]
      ensures ok ==> Now().sweep == Held(old(Now()).sweep.caller, Sweeping(ids))
      ensures !ok ==> labels == old(labels) + [FetchPendingFails] && Now().sweep.Free? && ids == []
      ensures !ok && old(Now()).sweep.caller == RETRY_CALLER ==> Now().retry.Resting?
    {
      ids := [];
      if !ok {
        Take(FetchPendingFails);
        return;
      }
      ids := SortedPending();
      Take(FetchPending(ids));
    }

    /** WHERE status = 'pending' ORDER BY scheduled_at: each row goes behind the rows that are not newer. */
    method SortedPending() returns (ids: seq<nat>)
      ensures IsPendingList(Contents(), ids)
    {
      ids := [];
      var i := 0;
      while i < |outbox|
        invariant 0 <= i <= |outbox|
        invariant PendingBelow(outbox, i, ids)
      {
        if outbox[i].status == Pending {
          var k := |ids|;
          while k > 0 && outbox[ids[k - 1]].scheduledAt > outbox[i].scheduledAt
            invariant 0 <= k <= |ids|
            invariant forall j :: k <= j < |ids| ==> Before(outbox, i, ids[j])
          {
            k := k - 1;
          }
          assert forall j :: 0 <= j < k ==> j == k - 1 || Before(outbox, ids[j], ids[k - 1]);
          InsertKeepsOrder(outbox, i, ids, k);
          ids := InsertAt(ids, k, i);
        }
        i := i + 1;
      }
    }

    method CreateOutboxEntry(messageId: nat, channel: string, ok: bool)
      requires Valid()
      modifies this
      ensures Valid() && Extends()
      ensures labels == old(labels) + if ok then [Enqueue(messageId, channel)] else []
      ensures Contents() == if ok then Insert(old(Contents()), messageId, channel, clock) else old(Contents())
    {
      if ok {
        Take(Enqueue(messageId, channel));
        outbox := outbox + [Row(messageId, channel, Pending, 0, Stamp(clock))];
      }
    }

    /** Called once per start; `at` is the clock reading that the cutoff is computed from. Afterwards no row that waits
        for a delivery is older than an hour; sent and younger rows are as they were, and of the others only the status
        has changed. */
    method CancelStaleOutbox(at: int, ok: bool)
      requires Valid() && Now().booting && at <= clock
      modifies this
      ensures Valid() && Extends() && log == old(log) && clock == old(clock) && |outbox| == |old(outbox)|
      ensures !ok ==> outbox == old(outbox) && labels == old(labels)
      ensures ok ==> labels == old(labels) + [Cancel(at)]
      ensures ok ==> forall i :: 0 <= i < |outbox| && outbox[i].status in {Pending, Failed} ==>
                outbox[i].scheduledAt >= Stamp(at - 3_600_000_000_000)
      ensures forall i :: 0 <= i < |outbox| && outbox[i] != old(outbox)[i] ==>
                && old(outbox)[i].status in {Pending, Failed}
                && old(outbox)[i].scheduledAt < Stamp(at - 3_600_000_000_000)
                && outbox[i] == old(outbox)[i].(status := Cancelled)
    {
      if ok {
        Take(Cancel(at));
        outbox := CancelStale(Contents(), Stamp(at - HOUR)).outbox;
      }
    }

    method GetMessageByID(found: bool)
      requires Valid() && Now().sweep.Held? && Now().sweep.pc.Delivering? && KnownRow(Now(), Now().sweep.pc.id)
      requires outbox[Now().sweep.pc.id].channel in cfg.senders
      modifies this
      ensures Valid() && Extends() && Contents() == old(Contents()) && labels == old(labels) + [Load(found)]
      ensures Now().sweep.Held? && Now().sweep.caller == old(Now()).sweep.caller
      ensures var pc := old(Now()).sweep.pc;
        Now().sweep.pc == if found then Ready(pc.id, pc.todo) else Sweeping(pc.todo)
    {
      Take(Load(found));
    }

    method Send(ok: bool)
      requires Valid() && Now().sweep.Held? && Now().sweep.pc.Ready? && KnownRow(Now(), Now().sweep.pc.id)
      modifies this
      ensures Valid() && Extends() && Contents() == old(Contents()) && labels == old(labels) + [Label.Send(ok)]
      ensures Now().sweep.Held? && Now().sweep.caller == old(Now()).sweep.caller
      ensures var pc := old(Now()).sweep.pc;
        Now().sweep.pc == if ok then SentOk(pc.id, pc.todo) else SendBad(pc.id, pc.todo)
    {
      Take(Label.Send(ok));
    }

    method MarkOutboxSent(id: nat, ok: bool)
      requires Valid() && AtSentOk(Now(), id) && KnownRow(Now(), id)
      modifies this
      ensures Valid() && Extends() && labels == old(labels) + [Mark(ok)]
      ensures Now().sweep == Held(old(Now()).sweep.caller, Marked(id, true, old(Now()).sweep.pc.todo))
      ensures Contents() == if ok then Outbox.MarkSent(old(Contents()), id) else old(Contents())
    {
      Take(Mark(ok));
      if ok {
        outbox := outbox[id := outbox[id].(status := Sent, attempts := outbox[id].attempts + 1)];
      }
    }

    method MarkOutboxFailed(id: nat, ok: bool)
      requires Valid() && AtSendBad(Now(), id) && KnownRow(Now(), id)
      modifies this
      ensures Valid() && Extends() && labels == old(labels) + [Mark(ok)]
      ensures Now().sweep == Held(old(Now()).sweep.caller, Marked(id, false, old(Now()).sweep.pc.todo))
      ensures Contents() == if ok then Outbox.MarkFailed(old(Contents()), id) else old(Contents())
    {
      Take(Mark(ok));
      if ok {
        outbox := outbox[id := outbox[id].(status := Failed, attempts := outbox[id].attempts + 1)];
      }
    }

    method AppendDeliveryLog(id: nat, success: bool, ok: bool)
      requires Valid() && AtMarked(Now(), id) && Now().sweep.pc.ok == success && KnownRow(Now(), id)
      modifies this
      ensures Valid() && Extends() && labels == old(labels) + [Log(ok)]
      ensures Now().sweep == Held(old(Now()).sweep.caller, Sweeping(old(Now()).sweep.pc.todo))
      ensures Contents() == if ok then AppendLog(old(Contents()), id, success, clock) else old(Contents())
    {
      Take(Log(ok));
      if ok {
        log := log + [LogRow(id, Stamp(clock), success)];
      }
    }

    method GetFailedOutbox(ok: bool) returns (items: seq<RetryItem>)
      requires Valid() && Now().retry.Resting?
      modifies this
      ensures Valid() && Extends() && Contents() == old(Contents())
      ensures ok ==> labels == old(labels) + [RetryFetch] && Now().retry == Fetched(items)
      ensures ok ==> items == FailedList(Contents(), cfg.maxAttempts, |outbox|)
      ensures !ok ==> labels == old(labels) + [RetryFetchFails] && Now().retry.Resting? && items == []
    {
      items := [];
      Reachable(cfg, states, labels, |labels|);
      if !ok {
        Take(RetryFetchFails);
        return;
      }
      Take(RetryFetch);
      items := FailedList(Contents(), cfg.maxAttempts, |outbox|);
    }

    method ReadClock() returns (now: int)
      requires Valid() && Now().retry.Fetched?
      modifies this
      ensures Valid() && Extends() && Contents() == old(Contents()) && labels == old(labels) + [RetryClock]
      ensures now == clock == old(clock) && Now().retry == Rescheduling(old(Now()).retry.items, now, 0)
    {
      now := clock;
      Take(RetryClock);
    }

    method ResetToPending(id: nat, ok: bool)
      requires Valid() && Now().retry.Rescheduling? && Now().retry.items != [] && Now().retry.items[0].id == id
      requires Due(cfg, Now().retry.items[0], Now().retry.now)
      modifies this
      ensures Valid() && Extends() && labels == old(labels) + [RetryReset(ok)]
      ensures var r := old(Now()).retry; Now().retry == Rescheduling(r.items[1..], r.now, r.rescheduled + One(ok))
      ensures Contents() == if ok then Outbox.ResetToPending(old(Contents()), id) else old(Contents())
    {
      Take(RetryReset(ok));
      if ok && id < |outbox| {
        outbox := outbox[id := outbox[id].(status := Pending)];
      }
    }
  }

  /** The rows that sweeps have taken up from step `from` to step n, in order. */
  ghost function Begun(ss: seq<State>, ls: seq<Label>, from: nat, n: nat): seq<nat>
    requires n <= |ls| && |ss| == |ls| + 1
    decreases n
  {
    if n <= from then []
    else Begun(ss, ls, from, n - 1) + if ls[n - 1].Begin? then FirstToDo(ss[n - 1]) else []
  }

  ghost function FirstToDo(s: State): seq<nat> {
    if s.sweep.Held? && s.sweep.pc.Sweeping? && s.sweep.pc.todo != [] then [s.sweep.pc.todo[0]] else []
  }

  /** Steps of a sweep between its query and its end. */
  predicate GoesOn(l: Label) {
    l.Begin? || l.NoSender? || l.Load? || l.Send? || l.Mark? || l.Log?
  }

  ghost predicate SweepingOn(ls: seq<Label>, from: nat) {
    forall k :: from <= k < |ls| ==> !Of(TheSweep, ls[k]) || GoesOn(ls[k])
  }

  lemma TakesFirst(c: Config, s: State, l: Label)
    requires Enabled(c, s, l) && (!Of(TheSweep, l) || GoesOn(l)) && s.sweep.Held? && !s.sweep.pc.Locked?
    ensures var t := Apply(c, s, l);
      && t.sweep.Held? && !t.sweep.pc.Locked?
      && (if l.Begin? then FirstToDo(s) else []) + t.sweep.pc.todo == s.sweep.pc.todo
  {
  }

  /** A sweep takes up the rows of its snapshot from the front. */
  lemma {:induction false} TakenInOrder(c: Config, ss: seq<State>, ls: seq<Label>, from: nat, n: nat, ids: seq<nat>)
    requires IsBoot(c, ss, ls) && from <= n <= |ls|
    requires forall k :: from <= k < n ==> !Of(TheSweep, ls[k]) || GoesOn(ls[k])
    requires ss[from].sweep.Held? && ss[from].sweep.pc == Sweeping(ids)
    ensures ss[n].sweep.Held? && !ss[n].sweep.pc.Locked?
    ensures Begun(ss, ls, from, n) + ss[n].sweep.pc.todo == ids
    decreases n
  {
    if from < n {
      TakenInOrder(c, ss, ls, from, n - 1, ids);
      assert StepAt(c, ss, ls, n - 1);
      TakesFirst(c, ss[n - 1], ls[n - 1]);
      Regroup(Begun(ss, ls, from, n - 1), if ls[n - 1].Begin? then FirstToDo(ss[n - 1]) else [],
              ss[n].sweep.pc.todo, ss[n - 1].sweep.pc.todo);
    }
  }

  lemma Regroup(a: seq<nat>, b: seq<nat>, c: seq<nat>, d: seq<nat>)
    requires b + c == d
    ensures (a + b) + c == a + d
  {
    assert (a + b) + c == a + (b + c);
  }

  /** How the statements for one item and its Send end, where they are reached. */
  datatype Answers = Answers(found: bool, sent: bool, marked: bool, logged: bool)

  /** The steps up to `before`, then those for an item that has been taken up, of a channel with or without a sender. */
  function ItemSteps(before: seq<Label>, known: bool, a: Answers): seq<Label> {
    if !known then before + [NoSender] + [Mark(a.marked)] + [Log(a.logged)]
    else if !a.found then before + [Load(false)]
    else before + [Load(true)] + [Label.Send(a.sent)] + [Mark(a.marked)] + [Log(a.logged)]
  }

  /** Without a sender the attempt fails; with one, the message is loaded and, if it is there, sent. Every attempt is
      marked, then logged. */
  lemma ItemStepsAre(before: seq<Label>, known: bool, a: Answers)
    ensures var outcome := [Mark(a.marked), Log(a.logged)];
      ItemSteps(before, known, a)
      == before + if !known then [NoSender] + outcome
                  else if !a.found then [Load(false)]
                  else [Load(true), Label.Send(a.sent)] + outcome
  {
  }

  predicate HasSender(senders: set<string>, rows: seq<Row>, id: nat) {
    id < |rows| && rows[id].channel in senders
  }

  /** The steps up to `before`, then those for the first n items. */
  function SweepSteps(before: seq<Label>, senders: set<string>, rows: seq<Row>, ids: seq<nat>, answers: nat -> Answers,
                      n: nat): seq<Label>
    requires n <= |ids|
  {
    if n == 0 then before
    else ItemSteps(SweepSteps(before, senders, rows, ids, answers, n - 1) + [Begin],
                   HasSender(senders, rows, ids[n - 1]), answers(n - 1))
  }

  lemma Ends<T>(items: seq<T>)
    ensures items[0..] == items && items[|items|..] == []
  {
  }

  lemma Rest<T>(items: seq<T>, i: nat)
    requires i < |items|
    ensures items[i..] != [] && items[i..][0] == items[i] && items[i..][1..] == items[i + 1..]
  {
  }

  ghost predicate Within(ids: seq<nat>, rows: seq<Row>) {
    forall k :: 0 <= k < |ids| ==> ids[k] < |rows|
  }

  /** Up to the cancellation. */
  function Reached(cancelledAfter: nat, n: nat): (r: nat)
    ensures r <= n
  {
    if cancelledAfter < n then cancelledAfter else n
  }

  class Sweeper {
    const db: Database

    constructor (db: Database)
      ensures this.db == db
    {
      this.db := db;
    }

    /** One call from the moment the mutex is granted to it. `read` says whether its query succeeds, `answers` how what
        it does for the k-th item ends; its context is found cancelled, if ever, when `cancelledAfter` items are done.

        Whatever the other goroutines do meanwhile, the whole is a run of the protocol that takes the mutex and gives it
        back; a call of the retry worker ends its round. Step `at` reads the pending rows; each of them, in their order
        and up to the cancellation, is taken up; and the steps of the call are just those that this takes. */
    method DispatchOnce(ghost caller: nat, read: bool, answers: nat -> Answers, cancelledAfter: nat)
      returns (ghost ids: seq<nat>, ghost at: nat)
      requires db.Valid() && db.Now().sweep.Free? && caller in db.Now().waiting
      modifies db
      ensures db.Valid() && db.Extends()
      ensures db.Now().sweep.Free? && caller !in db.Now().waiting
      ensures caller == RETRY_CALLER ==> db.Now().retry.Resting?
      ensures var from, n := |old(db.labels)|, if cancelledAfter < |ids| then cancelledAfter else |ids|;
        if read then
          && from <= at < |db.labels| && db.labels[at] == FetchPending(ids)
          && IsPendingList(db.states[at].tables, ids) && Begun(db.states, db.labels, at + 1, |db.labels|) == ids[..n]
          && Own(Of, TheSweep, db.labels, from)
             == SweepSteps([Acquire(caller), FetchPending(ids)], db.cfg.senders, db.states[at].tables.outbox, ids,
                           answers, n) + [Leave]
        else
          Own(Of, TheSweep, db.labels, from) == [Acquire(caller), FetchPendingFails]
    {
      var items := ReadPending(caller, read);
      ids, at := items, |db.labels| - 1;
      if read {
        SweepAndUnlock(items, answers, cancelledAfter, db.states[at].tables.outbox, at, |old(db.labels)|);
      }
    }

    /** Lock and query. */
    method ReadPending(ghost caller: nat, read: bool) returns (items: seq<nat>)
      requires db.Valid() && db.Now().sweep.Free? && caller in db.Now().waiting
      modifies db
      ensures db.Valid() && db.Extends() && caller !in db.Now().waiting && |db.labels| > |old(db.labels)|
      ensures Own(Of, TheSweep, db.labels, |old(db.labels)|)
              == [Acquire(caller), if read then FetchPending(items) else FetchPendingFails]
      ensures read ==> db.labels[|db.labels| - 1] == FetchPending(items)
      ensures read ==> IsPendingList(db.states[|db.labels| - 1].tables, items)
      ensures if read then db.Now().sweep == Held(caller, Sweeping(items)) else db.Now().sweep.Free?
      ensures !read && caller == RETRY_CALLER ==> db.Now().retry.Resting?
    {
      ghost var from := |old(db.labels)|;
      db.Lock(caller);
      OwnLast(Of, TheSweep, old(db.labels), Acquire(caller), from);
      Pause(from);
      AlwaysAlone(db.cfg, db.states, db.labels, |db.labels|);
      items := Query(read, from);
    }

    method Query(read: bool, ghost from: nat) returns (items: seq<nat>)
      requires db.Valid() && db.Now().sweep.Held? && db.Now().sweep.pc.Locked? && from <= |db.labels|
      modifies db
      ensures db.Valid() && db.Extends() && db.Now().waiting == old(db.Now()).waiting
      ensures db.labels == old(db.labels) + [if read then FetchPending(items) else FetchPendingFails]
      ensures Own(Of, TheSweep, db.labels, from)
              == Own(Of, TheSweep, old(db.labels), from) + [if read then FetchPending(items) else FetchPendingFails]
      ensures read ==> IsPendingList(db.states[|db.labels| - 1].tables, items)
      ensures if read then db.Now().sweep == Held(old(db.Now()).sweep.caller, Sweeping(items)) else db.Now().sweep.Free?
      ensures !read && old(db.Now()).sweep.caller == RETRY_CALLER ==> db.Now().retry.Resting?
    {
      items := db.GetPendingOutbox(read);
      OwnLast(Of, TheSweep, old(db.labels), db.labels[|old(db.labels)|], from);
      assert StepAt(db.cfg, db.states, db.labels, |old(db.labels)|);
    }

    /** Others act. None of their steps is one of the sweep's. */
    method Pause(ghost from: nat)
      requires db.Valid() && db.Now().sweep.Held? && from <= |db.labels|
      modifies db
      ensures db.Valid() && db.Extends() && db.Now().sweep == old(db.Now()).sweep
      ensures SweepingOn(db.labels, |old(db.labels)|)
      ensures Own(Of, TheSweep, db.labels, from) == Own(Of, TheSweep, old(db.labels), from)
    {
      db.OthersRun();
      OwnStays(Of, TheSweep, old(db.labels), db.labels, from);
    }

    /** Step `at` saw these rows. */
    ghost predicate Saw(at: nat, rows: seq<Row>)
      reads db
    {
      at < |db.states| && db.states[at].tables.outbox == rows
    }

    method SweepAndUnlock(items: seq<nat>, answers: nat -> Answers, cancelledAfter: nat, ghost rows: seq<Row>,
                          ghost at: nat, ghost from: nat)
      requires db.Valid() && from <= |db.labels| == at + 1 && Saw(at, rows) && Within(items, rows)
      requires db.Now().sweep.Held? && db.Now().sweep.pc == Sweeping(items)
      modifies db
      ensures db.Valid() && db.Extends() && Saw(at, rows)
      ensures db.Now().sweep.Free? && old(db.Now()).sweep.caller !in db.Now().waiting
      ensures old(db.Now()).sweep.caller == RETRY_CALLER ==> db.Now().retry.Resting?
      ensures Begun(db.states, db.labels, at + 1, |db.labels|) == items[..Reached(cancelledAfter, |items|)]
      ensures Own(Of, TheSweep, db.labels, from)
              == SweepSteps(Own(Of, TheSweep, old(db.labels), from), db.cfg.senders, rows, items, answers,
                            Reached(cancelledAfter, |items|)) + [Leave]
    {
      Sweep(items, answers, cancelledAfter, rows, at, from);
      Finish(items, Reached(cancelledAfter, |items|), at + 1, from);
    }

    /** The end of the critical section that has gone through n of its items since step `start`. */
    method Finish(ghost items: seq<nat>, ghost n: nat, ghost start: nat, ghost from: nat)
      requires db.Valid() && from <= |db.labels| && start <= |db.labels| && SweepingOn(db.labels, start) && n <= |items|
      requires db.Now().sweep.Held? && db.states[start].sweep == Held(db.Now().sweep.caller, Sweeping(items))
      requires db.Now().sweep.pc == Sweeping(items[n..])
      modifies db
      ensures db.Valid() && db.Extends()
      ensures db.Now().sweep.Free? && old(db.Now()).sweep.caller !in db.Now().waiting
      ensures old(db.Now()).sweep.caller == RETRY_CALLER ==> db.Now().retry.Resting?
      ensures Begun(db.states, db.labels, start, |db.labels|) == items[..n]
      ensures Own(Of, TheSweep, db.labels, from) == Own(Of, TheSweep, old(db.labels), from) + [Leave]
    {
      db.Unlock();
      AllTaken(items, n, start, old(db.Now()).sweep.caller);
      OwnLast(Of, TheSweep, old(db.labels), Leave, from);
    }

    /** The loop over the snapshot that step `at` has read. */
    method Sweep(items: seq<nat>, answers: nat -> Answers, cancelledAfter: nat, ghost rows: seq<Row>, ghost at: nat,
                 ghost from: nat)
      requires db.Valid() && from <= |db.labels| && Saw(at, rows) && Within(items, rows)
      requires db.Now().sweep.Held? && db.Now().sweep.pc == Sweeping(items)
      modifies db
      ensures db.Valid() && db.Extends() && SweepingOn(db.labels, |old(db.labels)|) && Saw(at, rows)
      ensures db.Now().sweep
              == Held(old(db.Now()).sweep.caller, Sweeping(items[Reached(cancelledAfter, |items|)..]))
      ensures Own(Of, TheSweep, db.labels, from)
              == SweepSteps(Own(Of, TheSweep, old(db.labels), from), db.cfg.senders, rows, items, answers,
                            Reached(cancelledAfter, |items|))
    {
      ghost var caller, before := db.Now().sweep.caller, Own(Of, TheSweep, db.labels, from);
      Ends(items);
      var i := 0;
      while i < |items|
        invariant 0 <= i <= |items| && i <= cancelledAfter && db.Valid() && db.Extends() && Saw(at, rows)
        invariant SweepingOn(db.labels, |old(db.labels)|)
        invariant db.Now().sweep == Held(caller, Sweeping(items[i..]))
        invariant Own(Of, TheSweep, db.labels, from) == SweepSteps(before, db.cfg.senders, rows, items, answers, i)
      {
        if i == cancelledAfter {   // the caller's context, before the item or during the pause between items
          return;
        }
        TakeNext(items, i, answers(i), rows, at, from);
        i := i + 1;
      }
    }

    method TakeNext(items: seq<nat>, i: nat, a: Answers, ghost rows: seq<Row>, ghost at: nat, ghost from: nat)
      requires db.Valid() && i < |items| && db.Now().sweep.Held? && db.Now().sweep.pc == Sweeping(items[i..])
      requires from <= |db.labels| && Saw(at, rows) && Within(items, rows)
      modifies db
      ensures db.Valid() && db.Extends() && SweepingOn(db.labels, |old(db.labels)|) && Saw(at, rows)
      ensures db.Now().sweep == Held(old(db.Now()).sweep.caller, Sweeping(items[i + 1..]))
      ensures Own(Of, TheSweep, db.labels, from)
              == ItemSteps(Own(Of, TheSweep, old(db.labels), from) + [Begin],
                           HasSender(db.cfg.senders, rows, items[i]), a)
    {
      Rest(items, i);
      TakeUp(items[i], a, rows, at, from);
    }

    /** The last step of the run was the end of the sweep that began at step `from`. */
    lemma AllTaken(items: seq<nat>, n: nat, from: nat, caller: nat)
      requires db.Valid() && from < |db.labels| && n <= |items|
      requires var end := |db.labels| - 1;
        && (forall k :: from <= k < end ==> !Of(TheSweep, db.labels[k]) || GoesOn(db.labels[k]))
        && db.states[from].sweep == Held(caller, Sweeping(items))
        && db.states[end].sweep == Held(caller, Sweeping(items[n..])) && db.labels[end] == Leave
      ensures Begun(db.states, db.labels, from, |db.labels|) == items[..n]
      ensures caller !in db.Now().waiting
    {
      var end := |db.labels| - 1;
      TakenInOrder(db.cfg, db.states, db.labels, from, end, items);
      assert Begun(db.states, db.labels, from, end) == (Begun(db.states, db.labels, from, end) + items[n..])[..n];
      AlwaysAlone(db.cfg, db.states, db.labels, end);
      assert StepAt(db.cfg, db.states, db.labels, end);
    }

    /** The loop body: the next item of the snapshot, delivered. */
    method TakeUp(id: nat, a: Answers, ghost rows: seq<Row>, ghost at: nat, ghost from: nat)
      requires db.Valid() && db.Now().sweep.Held? && db.Now().sweep.pc.Sweeping? && from <= |db.labels|
      requires db.Now().sweep.pc.todo != [] && db.Now().sweep.pc.todo[0] == id
      requires Saw(at, rows) && id < |rows|
      modifies db
      ensures db.Valid() && db.Extends() && SweepingOn(db.labels, |old(db.labels)|) && Saw(at, rows)
      ensures db.Now().sweep == Held(old(db.Now()).sweep.caller, Sweeping(old(db.Now()).sweep.pc.todo[1..]))
      ensures Own(Of, TheSweep, db.labels, from)
              == ItemSteps(Own(Of, TheSweep, old(db.labels), from) + [Begin],
                           HasSender(db.cfg.senders, rows, id), a)
    {
      Pause(from);
      ghost var labels := db.labels;
      db.Take(Begin);
      OwnLast(Of, TheSweep, labels, Begin, from);
      RowsKept(db.cfg, db.states, db.labels, at, |db.labels|, id);
      Deliver(id, a, from);
    }

    /** One item: no sender, or load and send; then the outcome is recorded. */
    method Deliver(id: nat, a: Answers, ghost from: nat)
      requires db.Valid() && db.Now().sweep.Held? && db.Now().sweep.pc.Delivering? && db.Now().sweep.pc.id == id
      requires from <= |db.labels|
      modifies db
      ensures db.Valid() && db.Extends() && SweepingOn(db.labels, |old(db.labels)|)
      ensures db.Now().sweep == Held(old(db.Now()).sweep.caller, Sweeping(old(db.Now()).sweep.pc.todo))
      ensures Own(Of, TheSweep, db.labels, from)
              == ItemSteps(Own(Of, TheSweep, old(db.labels), from), HasSender(db.cfg.senders, old(db.outbox), id), a)
    {
      Claims();
      if db.outbox[id].channel in db.cfg.senders {
        Forward(id, a, from);
      } else {
        ghost var labels := db.labels;
        db.Take(NoSender);
        OwnLast(Of, TheSweep, labels, NoSender, from);
        Record(id, false, a, from);
      }
    }

    /** Loads the message and sends it; a message that is gone is skipped. */
    method Forward(id: nat, a: Answers, ghost from: nat)
      requires db.Valid() && db.Now().sweep.Held? && db.Now().sweep.pc.Delivering? && db.Now().sweep.pc.id == id
      requires KnownRow(db.Now(), id) && db.outbox[id].channel in db.cfg.senders && from <= |db.labels|
      modifies db
      ensures db.Valid() && db.Extends() && SweepingOn(db.labels, |old(db.labels)|)
      ensures db.Now().sweep == Held(old(db.Now()).sweep.caller, Sweeping(old(db.Now()).sweep.pc.todo))
      ensures Own(Of, TheSweep, db.labels, from)
              == ItemSteps(Own(Of, TheSweep, old(db.labels), from), true, a)
    {
      db.GetMessageByID(a.found);
      OwnLast(Of, TheSweep, old(db.labels), Load(a.found), from);
      if !a.found {
        return;
      }
      Transmit(id, a.sent, from);
      Record(id, a.sent, a, from);
    }

    method Transmit(id: nat, sent: bool, ghost from: nat)
      requires db.Valid() && db.Now().sweep.Held? && db.Now().sweep.pc.Ready? && db.Now().sweep.pc.id == id
      requires from <= |db.labels|
      modifies db
      ensures db.Valid() && db.Extends() && SweepingOn(db.labels, |old(db.labels)|)
      ensures var sweep := old(db.Now()).sweep;
        db.Now().sweep == Held(sweep.caller, if sent then SentOk(id, sweep.pc.todo) else SendBad(id, sweep.pc.todo))
      ensures Own(Of, TheSweep, db.labels, from)
              == Own(Of, TheSweep, old(db.labels), from) + [Label.Send(sent)]
    {
      Pause(from);
      Claims();
      ghost var labels := db.labels;
      db.Send(sent);
      OwnLast(Of, TheSweep, labels, Label.Send(sent), from);
    }

    /** Marks the row and appends to the log; either write may fail, and others run in between. */
    method Record(id: nat, ok: bool, a: Answers, ghost from: nat)
      requires db.Valid() && (if ok then AtSentOk(db.Now(), id) else AtSendBad(db.Now(), id)) && from <= |db.labels|
      modifies db
      ensures db.Valid() && db.Extends() && SweepingOn(db.labels, |old(db.labels)|)
      ensures db.Now().sweep == Held(old(db.Now()).sweep.caller, Sweeping(old(db.Now()).sweep.pc.todo))
      ensures Own(Of, TheSweep, db.labels, from)
              == Own(Of, TheSweep, old(db.labels), from) + [Mark(a.marked)] + [Log(a.logged)]
    {
      MarkOutcome(id, ok, a.marked, from);
      Pause(from);
      Claims();
      ghost var labels := db.labels;
      db.AppendDeliveryLog(id, ok, a.logged);
      OwnLast(Of, TheSweep, labels, Log(a.logged), from);
    }

    method MarkOutcome(id: nat, ok: bool, marked: bool, ghost from: nat)
      requires db.Valid() && (if ok then AtSentOk(db.Now(), id) else AtSendBad(db.Now(), id)) && from <= |db.labels|
      modifies db
      ensures db.Valid() && db.Extends() && SweepingOn(db.labels, |old(db.labels)|)
      ensures db.Now().sweep == Held(old(db.Now()).sweep.caller, Marked(id, ok, old(db.Now()).sweep.pc.todo))
      ensures Own(Of, TheSweep, db.labels, from) == Own(Of, TheSweep, old(db.labels), from) + [Mark(marked)]
    {
      Pause(from);
      Claims();
      ghost var labels := db.labels;
      if ok {
        db.MarkOutboxSent(id, marked);
      } else {
        db.MarkOutboxFailed(id, marked);
      }
      OwnLast(Of, TheSweep, labels, Mark(marked), from);
    }

    /** The invariant of the run at the present moment: the row in hand exists. */
    lemma Claims()
      requires db.Valid()
      ensures db.Now().sweep.Held? && !db.Now().sweep.pc.Locked? && !db.Now().sweep.pc.Sweeping? ==>
                KnownRow(db.Now(), db.Now().sweep.pc.id) && db.Now().sweep.pc.id < |db.outbox|
    {
      Reachable(db.cfg, db.states, db.labels, |db.labels|);
      var s := db.Now();
      if s.sweep.Held? && !s.sweep.pc.Locked? && !s.sweep.pc.Sweeping? && !s.sweep.pc.Marked? {
        assert s.sweep.pc.id == Claim(s)[0] && Claimed(db.cfg, s, s.sweep.pc.id);
      }
    }
  }

  /** What becomes of one item of the retry list when the clock shows `now`; `ok` is the answer of the reset. */
  function RetryStep(c: Config, item: RetryItem, now: int, ok: bool): Label {
    if item.lastAttemptAt + Delay(item.attempts, c.base) <= now then RetryReset(ok) else RetrySkip
  }

  /** The steps up to `before`, then those for the first n items. */
  function RetrySteps(before: seq<Label>, c: Config, items: seq<RetryItem>, now: int, resets: nat -> bool, n: nat)
    : seq<Label>
    requires n <= |items|
  {
    if n == 0 then before
    else RetrySteps(before, c, items, now, resets, n - 1) + [RetryStep(c, items[n - 1], now, resets(n - 1))]
  }

  /** How many of them reset a row. */
  function ResetCount(c: Config, items: seq<RetryItem>, now: int, resets: nat -> bool, n: nat): nat
    requires n <= |items|
  {
    if n == 0 then 0
    else ResetCount(c, items, now, resets, n - 1)
         + One(RetryStep(c, items[n - 1], now, resets(n - 1)) == RetryReset(true))
  }

  class RetryWorker {
    const db: Database

    constructor (db: Database)
      ensures this.db == db
    {
      this.db := db;
    }

    /** One round up to the call of DispatchOnce. `read` says whether the query succeeds, `resets` whether the k-th item
        can be reset. The steps of the round are these: the query; then the one reading of the clock, at step `at`; of
        every item a reset if its wait is over by that reading, else none; and a sweep is asked for exactly if a row was
        reset. */
    method Work(read: bool, resets: nat -> bool) returns (rescheduled: nat, ghost items: seq<RetryItem>, ghost at: nat)
      requires db.Valid() && db.Now().retry.Resting?
      modifies db
      ensures db.Valid() && db.Extends()
      ensures if rescheduled > 0 then db.Now().retry.Dispatching? && RETRY_CALLER in db.Now().waiting
              else db.Now().retry.Resting?
      ensures items == if read then old(FailedList(db.Contents(), db.cfg.maxAttempts, |db.outbox|)) else []
      ensures var from := |old(db.labels)|;
        if read then
          && from <= at < |db.labels| && db.labels[at] == RetryClock
          && (var now := db.states[at].clock;
              && rescheduled == ResetCount(db.cfg, items, now, resets, |items|)
              && Own(Of, TheRetry, db.labels, from)
                 == RetrySteps([RetryFetch] + [RetryClock], db.cfg, items, now, resets, |items|) + [RetryDone])
        else
          rescheduled == 0 && Own(Of, TheRetry, db.labels, from) == [RetryFetchFails]
    {
      rescheduled, at := 0, 0;
      var list := ReadFailed(read);
      items := list;
      if read {
        rescheduled, at := Reschedule(list, resets, |old(db.labels)|);
        Finish(rescheduled, |old(db.labels)|);
      }
    }

    method ReadFailed(read: bool) returns (items: seq<RetryItem>)
      requires db.Valid() && db.Now().retry.Resting?
      modifies db
      ensures db.Valid() && db.Extends()
      ensures items == if read then old(FailedList(db.Contents(), db.cfg.maxAttempts, |db.outbox|)) else []
      ensures if read then db.Now().retry == Fetched(items) else db.Now().retry.Resting?
      ensures Own(Of, TheRetry, db.labels, |old(db.labels)|) == [if read then RetryFetch else RetryFetchFails]
    {
      items := db.GetFailedOutbox(read);
      OwnLast(Of, TheRetry, old(db.labels), db.labels[|old(db.labels)|], |old(db.labels)|);
    }

    /** The end of the list: a sweep is asked for if a row was reset. */
    method Finish(rescheduled: nat, ghost from: nat)
      requires db.Valid() && db.Now().retry.Rescheduling? && db.Now().retry.items == []
      requires db.Now().retry.rescheduled == rescheduled && from <= |db.labels|
      modifies db
      ensures db.Valid() && db.Extends()
      ensures Own(Of, TheRetry, db.labels, from) == Own(Of, TheRetry, old(db.labels), from) + [RetryDone]
      ensures if rescheduled > 0 then db.Now().retry.Dispatching? && RETRY_CALLER in db.Now().waiting
              else db.Now().retry.Resting?
    {
      db.Take(RetryDone);
      OwnLast(Of, TheRetry, old(db.labels), RetryDone, from);
    }

    /** Reads the clock once and goes through the list. */
    method Reschedule(items: seq<RetryItem>, resets: nat -> bool, ghost from: nat)
      returns (rescheduled: nat, ghost at: nat)
      requires db.Valid() && db.Now().retry == Fetched(items) && from <= |db.labels|
      modifies db
      ensures db.Valid() && db.Extends() && |old(db.labels)| <= at < |db.labels| && db.labels[at] == RetryClock
      ensures db.Now().retry.Rescheduling? && db.Now().retry.items == [] && db.Now().retry.rescheduled == rescheduled
      ensures var now := db.states[at].clock;
        && rescheduled == ResetCount(db.cfg, items, now, resets, |items|)
        && Own(Of, TheRetry, db.labels, from)
           == RetrySteps(Own(Of, TheRetry, old(db.labels), from) + [RetryClock], db.cfg, items, now, resets, |items|)
    {
      var now;
      now, at := LookAtClock(from);
      rescheduled := GoThrough(items, now, resets, from);
    }

    method GoThrough(items: seq<RetryItem>, now: int, resets: nat -> bool, ghost from: nat) returns (rescheduled: nat)
      requires db.Valid() && db.Now().retry == Rescheduling(items, now, 0) && from <= |db.labels|
      modifies db
      ensures db.Valid() && db.Extends() && db.Now().retry == Rescheduling([], now, rescheduled)
      ensures rescheduled == ResetCount(db.cfg, items, now, resets, |items|)
      ensures Own(Of, TheRetry, db.labels, from)
              == RetrySteps(Own(Of, TheRetry, old(db.labels), from), db.cfg, items, now, resets, |items|)
    {
      rescheduled := 0;
      ghost var before := Own(Of, TheRetry, db.labels, from);
      Ends(items);
      var i := 0;
      while i < |items|
        invariant 0 <= i <= |items| && db.Valid() && db.Extends()
        invariant db.Now().retry == Rescheduling(items[i..], now, rescheduled)
        invariant rescheduled == ResetCount(db.cfg, items, now, resets, i)
        invariant Own(Of, TheRetry, db.labels, from) == RetrySteps(before, db.cfg, items, now, resets, i)
      {
        rescheduled := VisitNext(items, i, now, resets(i), rescheduled, from);
        i := i + 1;
      }
    }

    method VisitNext(items: seq<RetryItem>, i: nat, now: int, ok: bool, rescheduled: nat, ghost from: nat)
      returns (total: nat)
      requires db.Valid() && i < |items| && db.Now().retry == Rescheduling(items[i..], now, rescheduled)
      requires from <= |db.labels|
      modifies db
      ensures db.Valid() && db.Extends() && db.Now().retry == Rescheduling(items[i + 1..], now, total)
      ensures total == rescheduled + One(RetryStep(db.cfg, items[i], now, ok) == RetryReset(true))
      ensures Own(Of, TheRetry, db.labels, from)
              == Own(Of, TheRetry, old(db.labels), from) + [RetryStep(db.cfg, items[i], now, ok)]
    {
      Rest(items, i);
      total := Visit(items[i], now, ok, rescheduled, from);
    }

    method LookAtClock(ghost from: nat) returns (now: int, ghost at: nat)
      requires db.Valid() && db.Now().retry.Fetched? && from <= |db.labels|
      modifies db
      ensures db.Valid() && db.Extends() && |old(db.labels)| <= at < |db.labels|
      ensures db.labels[at] == RetryClock && db.states[at].clock == now
      ensures db.Now().retry == Rescheduling(old(db.Now()).retry.items, now, 0)
      ensures Own(Of, TheRetry, db.labels, from) == Own(Of, TheRetry, old(db.labels), from) + [RetryClock]
    {
      Pause(from);
      at := |db.labels|;
      ghost var labels := db.labels;
      now := db.ReadClock();
      OwnLast(Of, TheRetry, labels, RetryClock, from);
    }

    /** Others act. None of their steps is one of the round's. */
    method Pause(ghost from: nat)
      requires db.Valid() && !db.Now().retry.Dispatching? && from <= |db.labels|
      modifies db
      ensures db.Valid() && db.Extends() && db.Now().retry == old(db.Now()).retry
      ensures Own(Of, TheRetry, db.labels, from) == Own(Of, TheRetry, old(db.labels), from)
    {
      db.OthersRunBesideRetry();
      OwnStays(Of, TheRetry, old(db.labels), db.labels, from);
    }

    /** The loop body: skip a row that is not due, reset and count one that is. */
    method Visit(item: RetryItem, now: int, ok: bool, rescheduled: nat, ghost from: nat) returns (total: nat)
      requires db.Valid() && db.Now().retry.Rescheduling? && from <= |db.labels|
      requires db.Now().retry.items != [] && db.Now().retry.items[0] == item
      requires db.Now().retry.now == now && db.Now().retry.rescheduled == rescheduled
      modifies db
      ensures db.Valid() && db.Extends()
      ensures db.Now().retry == Rescheduling(old(db.Now()).retry.items[1..], now, total)
      ensures var due := item.lastAttemptAt + Delay(item.attempts, db.cfg.base) <= now;
        && total == rescheduled + One(due && ok)
        && Own(Of, TheRetry, db.labels, from)
           == Own(Of, TheRetry, old(db.labels), from) + [if due then RetryReset(ok) else RetrySkip]
    {
      Pause(from);
      total := rescheduled;
      ghost var before := db.labels;
      var wait := Backoff.Backoff(item.attempts, db.cfg.base);
      if now < item.lastAttemptAt + wait {
        db.Take(RetrySkip);
      } else {
        db.ResetToPending(item.id, ok);
        if ok {
          total := total + 1;
        }
      }
      OwnLast(Of, TheRetry, before, RetryStep(db.cfg, item, now, ok), from);
    }
  }
}
