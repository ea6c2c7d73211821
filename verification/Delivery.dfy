/** The outbox delivery protocol as a state machine.

  Any number of DispatchOnce callers share the dispatcher's mutex; the retry
  worker and the startup cancellation take no lock. Every database statement,
  every Send and every clock reading is one atomic step, and the steps of
  different goroutines interleave freely. A crash may happen between any two
  steps. (internal/dispatcher/dispatcher.go, internal/dispatcher/retry.go,
  internal/db/outbox.go, cmd/abb/main.go) */
module Delivery {
  import opened Backoff
  import opened Outbox

  datatype Config = Config(senders: set<string>, maxAttempts: int, base: int)

  /** Where the caller that holds the mutex is. `todo` is the unread part of its snapshot. */
  datatype Pc =
    | Locked
    | Sweeping(todo: seq<nat>)
    | Delivering(id: nat, todo: seq<nat>)
    | Ready(id: nat, todo: seq<nat>)
    | SentOk(id: nat, todo: seq<nat>)
    | SendBad(id: nat, todo: seq<nat>)
    | Marked(id: nat, ok: bool, todo: seq<nat>)

  datatype Sweep = Free | Held(caller: nat, pc: Pc)

  datatype RetryPc =
    | Resting
    | Fetched(items: seq<RetryItem>)
    | Rescheduling(items: seq<RetryItem>, now: int, rescheduled: nat)
    | Dispatching

  /** What GetFailedOutbox last saw of a row. */
  datatype View = Unseen | Seen(attempts: nat, logs: nat, last: int)

  /** Per row, what really happened, faults included. */
  datatype Hist = Hist(
    sends: nat, okSends: nat, noSender: nat,
    sentMarkFails: nat, failMarkFails: nat, logFails: nat,
    sentCrashes: nat, failCrashes: nat, logCrashes: nat,
    seen: View)

  const NO_HIST := Hist(0, 0, 0, 0, 0, 0, 0, 0, 0, Unseen)

  /** Caller 0 is the retry worker's own goroutine. */
  const RETRY_CALLER: nat := 0

  datatype State = State(
    tables: Tables, sweep: Sweep, waiting: set<nat>, retry: RetryPc, booting: bool, clock: int, hist: seq<Hist>)

  datatype Label =
    | Enqueue(messageId: nat, channel: string)
    | Call(caller: nat)
    | Acquire(caller: nat)
    | FetchPending(ids: seq<nat>)
    | FetchPendingFails
    | Leave
    | Begin
    | NoSender
    | Load(found: bool)
    | Send(ok: bool)
    | Mark(dbOk: bool)
    | Log(dbOk: bool)
    | RetryFetch
    | RetryFetchFails
    | RetryClock
    | RetrySkip
    | RetryReset(dbOk: bool)
    | RetryDone
    | Cancel(at: int)
    | Tick(to: int)
    | Crash

  ghost predicate Init(s: State) {
    s.tables == Tables([], []) && s.sweep == Free && s.waiting == {} && s.retry == Resting && s.booting && s.hist == []
  }

  predicate Due(c: Config, item: RetryItem, now: int) {
    item.lastAttemptAt + Delay(item.attempts, c.base) <= now
  }

  predicate KnownRow(s: State, id: nat) {
    id < |s.tables.outbox| && id < |s.hist|
  }

  ghost predicate Enabled(c: Config, s: State, l: Label) {
    match l
    case Enqueue(_, _) => true
    case Call(p) => p != RETRY_CALLER && p !in s.waiting && !(s.sweep.Held? && s.sweep.caller == p)
    case Acquire(p) => s.sweep.Free? && p in s.waiting
    case FetchPending(ids) => s.sweep.Held? && s.sweep.pc.Locked? && IsPendingList(s.tables, ids)
    case FetchPendingFails => s.sweep.Held? && s.sweep.pc.Locked?
    case Leave => s.sweep.Held? && s.sweep.pc.Sweeping?   // list exhausted, or context cancelled
    case Begin => s.sweep.Held? && s.sweep.pc.Sweeping? && s.sweep.pc.todo != []
    case NoSender =>
      && s.sweep.Held? && s.sweep.pc.Delivering? && KnownRow(s, s.sweep.pc.id)
      && s.tables.outbox[s.sweep.pc.id].channel !in c.senders
    case Load(_) =>
      && s.sweep.Held? && s.sweep.pc.Delivering? && KnownRow(s, s.sweep.pc.id)
      && s.tables.outbox[s.sweep.pc.id].channel in c.senders
    case Send(_) => s.sweep.Held? && s.sweep.pc.Ready? && KnownRow(s, s.sweep.pc.id)
    case Mark(_) => s.sweep.Held? && (s.sweep.pc.SentOk? || s.sweep.pc.SendBad?) && KnownRow(s, s.sweep.pc.id)
    case Log(_) => s.sweep.Held? && s.sweep.pc.Marked? && KnownRow(s, s.sweep.pc.id)
    case RetryFetch => s.retry.Resting? && |s.hist| == |s.tables.outbox|
    case RetryFetchFails => s.retry.Resting?
    case RetryClock => s.retry.Fetched?
    case RetrySkip => s.retry.Rescheduling? && s.retry.items != [] && !Due(c, s.retry.items[0], s.retry.now)
    case RetryReset(_) => s.retry.Rescheduling? && s.retry.items != [] && Due(c, s.retry.items[0], s.retry.now)
    case RetryDone => s.retry.Rescheduling? && s.retry.items == []
    case Cancel(at) => s.booting && at <= s.clock
    case Tick(to) => s.clock <= to
    case Crash => true
  }

  function AddHist(s: State, id: nat, h: Hist): State
    requires id < |s.hist|
  {
    s.(hist := s.hist[id := h])
  }

  /** Unlocking the mutex; the retry worker's own call ends its round. */
  function Release(s: State): State {
    if s.sweep.Held? && s.sweep.caller == RETRY_CALLER then s.(sweep := Free, retry := Resting) else s.(sweep := Free)
  }

  function MoveTo(s: State, pc: Pc): State
    requires s.sweep.Held?
  {
    s.(sweep := Held(s.sweep.caller, pc))
  }

  /** What a crash interrupts. */
  function CrashHist(s: State): seq<Hist> {
    if !s.sweep.Held? then s.hist
    else match s.sweep.pc
      case SentOk(id, _) =>
        if id < |s.hist| then s.hist[id := s.hist[id].(sentCrashes := s.hist[id].sentCrashes + 1)] else s.hist
      case SendBad(id, _) =>
        if id < |s.hist| then s.hist[id := s.hist[id].(failCrashes := s.hist[id].failCrashes + 1)] else s.hist
      case Marked(id, _, _) =>
        if id < |s.hist| then s.hist[id := s.hist[id].(logCrashes := s.hist[id].logCrashes + 1)] else s.hist
      case _ => s.hist
  }

  function Look(c: Config, t: Tables, i: nat, h: Hist): Hist
    requires i < |t.outbox|
  {
    var r := t.outbox[i];
    if Retryable(r, c.maxAttempts)
    then h.(seen := Seen(r.attempts, CountLog(t.log, i), LastAttempt(t.log, i, r.scheduledAt)))
    else h
  }

  function DoMark(s: State, dbOk: bool): State
    requires s.sweep.Held? && (s.sweep.pc.SentOk? || s.sweep.pc.SendBad?) && KnownRow(s, s.sweep.pc.id)
  {
    var id := s.sweep.pc.id;
    var h := s.hist[id];
    var t := MoveTo(s, Marked(id, s.sweep.pc.SentOk?, s.sweep.pc.todo));
    if s.sweep.pc.SentOk? then
      if dbOk then t.(tables := MarkSent(s.tables, id))
      else AddHist(t, id, h.(sentMarkFails := h.sentMarkFails + 1))
    else
      if dbOk then t.(tables := MarkFailed(s.tables, id))
      else AddHist(t, id, h.(failMarkFails := h.failMarkFails + 1))
  }

  ghost function Apply(c: Config, s: State, l: Label): State
    requires Enabled(c, s, l)
  {
    match l
    case Enqueue(m, ch) =>
      s.(tables := Insert(s.tables, m, ch, s.clock), hist := s.hist + [NO_HIST])
    case Call(p) => s.(waiting := s.waiting + {p})
    case Acquire(p) => s.(waiting := s.waiting - {p}, sweep := Held(p, Locked))
    case FetchPending(ids) => MoveTo(s, Sweeping(ids))
    case FetchPendingFails => Release(s)
    case Leave => Release(s)
    case Begin => MoveTo(s, Delivering(s.sweep.pc.todo[0], s.sweep.pc.todo[1..]))
    case NoSender =>
      var id := s.sweep.pc.id;
      AddHist(MoveTo(s, SendBad(id, s.sweep.pc.todo)), id, s.hist[id].(noSender := s.hist[id].noSender + 1))
    case Load(found) =>
      MoveTo(s, if found then Ready(s.sweep.pc.id, s.sweep.pc.todo) else Sweeping(s.sweep.pc.todo))
    case Send(ok) =>
      var id := s.sweep.pc.id;
      var h := s.hist[id];
      AddHist(MoveTo(s, if ok then SentOk(id, s.sweep.pc.todo) else SendBad(id, s.sweep.pc.todo)), id,
              h.(sends := h.sends + 1, okSends := h.okSends + if ok then 1 else 0))
    case Mark(dbOk) => DoMark(s, dbOk)
    case Log(dbOk) =>
      var id := s.sweep.pc.id;
      var t := MoveTo(s, Sweeping(s.sweep.pc.todo));
      if dbOk then t.(tables := AppendLog(s.tables, id, s.sweep.pc.ok, s.clock))
      else AddHist(t, id, s.hist[id].(logFails := s.hist[id].logFails + 1))
    case RetryFetch =>
      s.(retry := Fetched(FailedList(s.tables, c.maxAttempts, |s.tables.outbox|)),
         hist := seq(|s.hist|, i requires 0 <= i < |s.hist| && |s.hist| == |s.tables.outbox| =>
                   Look(c, s.tables, i, s.hist[i])))
    case RetryFetchFails => s
    case RetryClock => s.(retry := Rescheduling(s.retry.items, s.clock, 0))
    case RetrySkip => s.(retry := s.retry.(items := s.retry.items[1..]))
    case RetryReset(dbOk) =>
      var id := s.retry.items[0].id;
      var t := s.(retry := s.retry.(items := s.retry.items[1..],
                                    rescheduled := s.retry.rescheduled + if dbOk then 1 else 0));
      if dbOk then t.(tables := ResetToPending(s.tables, id)) else t
    case RetryDone =>
      if s.retry.rescheduled > 0
      then s.(retry := Dispatching, waiting := s.waiting + {RETRY_CALLER})
      else s.(retry := Resting)
    case Cancel(at) =>
      s.(tables := CancelStale(s.tables, Stamp(at - HOUR)), booting := false)
    case Tick(to) => s.(clock := to)
    case Crash =>
      s.(sweep := Free, waiting := {}, retry := Resting, booting := true, hist := CrashHist(s))
  }

  // ------------------------------------------------------------------ invariant

  /** M = max(1, maxAttempts): a row is tried once even when retries are off. */
  function Limit(c: Config): nat {
    if c.maxAttempts < 1 then 1 else c.maxAttempts
  }

  /** Rows that the sweep may still update, current one first. */
  function Claim(s: State): seq<nat> {
    if !s.sweep.Held? then []
    else match s.sweep.pc
      case Locked => []
      case Sweeping(todo) => todo
      case Marked(_, _, todo) => todo
      case _ => [s.sweep.pc.id] + s.sweep.pc.todo
  }

  /** Rows that the retry worker may still reset. */
  function RetryClaim(s: State): seq<RetryItem> {
    if s.retry.Fetched? || s.retry.Rescheduling? then s.retry.items else []
  }

  ghost predicate InRetry(s: State, id: nat) {
    exists k :: 0 <= k < |RetryClaim(s)| && RetryClaim(s)[k].id == id
  }

  function One(b: bool): nat {
    if b then 1 else 0
  }

  predicate AtSentOk(s: State, i: nat) {
    s.sweep.Held? && s.sweep.pc.SentOk? && s.sweep.pc.id == i
  }

  predicate AtSendBad(s: State, i: nat) {
    s.sweep.Held? && s.sweep.pc.SendBad? && s.sweep.pc.id == i
  }

  predicate AtMarked(s: State, i: nat) {
    s.sweep.Held? && s.sweep.pc.Marked? && s.sweep.pc.id == i
  }

  /** Exact accounting of one row against what really happened to it. */
  ghost predicate Accounted(s: State, i: nat)
    requires KnownRow(s, i)
  {
    var r := s.tables.outbox[i];
    var h := s.hist[i];
    && h.okSends == One(r.status == Sent) + h.sentMarkFails + h.sentCrashes + One(AtSentOk(s, i))
    && r.attempts + h.sentMarkFails + h.failMarkFails
       == CountLog(s.tables.log, i) + h.logFails + h.logCrashes + One(AtMarked(s, i))
    && h.sends + h.noSender
       == r.attempts + h.sentMarkFails + h.failMarkFails + h.sentCrashes + h.failCrashes
          + One(AtSentOk(s, i) || AtSendBad(s, i))
    && (AtMarked(s, i) && s.sweep.pc.ok ==> r.status == Sent || h.sentMarkFails > 0)
  }

  ghost predicate LogSound(s: State) {
    forall k :: 0 <= k < |s.tables.log| ==>
      var e := s.tables.log[k];
      && KnownRow(s, e.outboxId)
      && (e.success ==> s.tables.outbox[e.outboxId].status == Sent || s.hist[e.outboxId].sentMarkFails > 0)
  }

  ghost predicate Bounded(c: Config, s: State, i: nat)
    requires i < |s.tables.outbox|
  {
    var r := s.tables.outbox[i];
    r.attempts <= Limit(c) && (r.status == Pending ==> r.attempts < Limit(c))
  }

  /** What GetFailedOutbox saw is never newer than the log, and a rescheduled row has waited. */
  ghost predicate Spaced(c: Config, s: State, i: nat)
    requires KnownRow(s, i)
  {
    var r := s.tables.outbox[i];
    var h := s.hist[i];
    && (h.seen.Seen? ==>
          && h.seen.logs <= CountLog(s.tables.log, i)
          && (h.seen.logs == CountLog(s.tables.log, i) ==>
                h.seen.last == LastAttempt(s.tables.log, i, r.scheduledAt)))
    && ((r.status == Pending || i in Claim(s)) && r.attempts >= 1 ==>
          && h.seen.Seen? && h.seen.attempts == r.attempts
          && h.seen.last + Delay(r.attempts, c.base) <= s.clock)
  }

  ghost predicate Distinct(ids: seq<nat>) {
    forall j, k :: 0 <= j < k < |ids| ==> ids[j] != ids[k]
  }

  /** A row that the sweep has not processed yet: pending or cancelled, with attempts to spare. */
  ghost predicate Claimed(c: Config, s: State, id: nat) {
    && KnownRow(s, id)
    && (s.tables.outbox[id].status == Pending || s.tables.outbox[id].status == Cancelled)
    && s.tables.outbox[id].attempts < Limit(c)
  }

  ghost predicate ClaimSound(c: Config, s: State) {
    && (forall id :: id in Claim(s) ==> Claimed(c, s, id))
    && Distinct(Claim(s))
    && (s.sweep.Held? && s.sweep.pc.Marked? ==> KnownRow(s, s.sweep.pc.id) && s.sweep.pc.id !in Claim(s))
  }

  /** A row that the retry worker has not processed yet: failed or cancelled, as it was read. */
  ghost predicate Retried(c: Config, s: State, q: RetryItem) {
    && KnownRow(s, q.id)
    && (s.tables.outbox[q.id].status == Failed || s.tables.outbox[q.id].status == Cancelled)
    && s.tables.outbox[q.id].attempts == q.attempts < Limit(c)
    && s.hist[q.id].seen.Seen?
    && s.hist[q.id].seen.attempts == q.attempts
    && s.hist[q.id].seen.last == q.lastAttemptAt
  }

  ghost predicate DistinctItems(q: seq<RetryItem>) {
    forall j, k :: 0 <= j < k < |q| ==> q[j].id != q[k].id
  }

  ghost predicate RetrySound(c: Config, s: State) {
    && (forall q :: q in RetryClaim(s) ==> Retried(c, s, q) && q.id !in Claim(s))
    && DistinctItems(RetryClaim(s))
    && (s.retry.Rescheduling? ==> s.retry.now <= s.clock)
  }

  ghost predicate RowInv(c: Config, s: State, i: nat) {
    && KnownRow(s, i)
    && Accounted(s, i) && Bounded(c, s, i) && Spaced(c, s, i)
  }

  ghost predicate Inv(c: Config, s: State) {
    && |s.hist| == |s.tables.outbox|
    && ClaimSound(c, s)
    && RetrySound(c, s)
    && LogSound(s)
    && (forall i :: 0 <= i < |s.hist| ==> RowInv(c, s, i))
  }
}
