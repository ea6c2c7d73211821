/** Safety of delivery over whole runs: what every interleaving keeps. */
module DeliverySafety {
  import opened Outbox
  import opened Delivery
  import opened DeliveryInvariant

  /** states[k] --labels[k]--> states[k+1] */
  ghost predicate Follows(c: Config, s: State, l: Label, t: State) {
    Enabled(c, s, l) && t == Apply(c, s, l)
  }

  ghost predicate StepAt(c: Config, ss: seq<State>, ls: seq<Label>, k: nat)
    requires |ss| == |ls| + 1 && k < |ls|
  {
    Follows(c, ss[k], ls[k], ss[k + 1])
  }

  ghost predicate IsRun(c: Config, ss: seq<State>, ls: seq<Label>) {
    && |ss| == |ls| + 1
    && forall k :: 0 <= k < |ls| ==> StepAt(c, ss, ls, k)
  }

  ghost predicate IsBoot(c: Config, ss: seq<State>, ls: seq<Label>) {
    IsRun(c, ss, ls) && Init(ss[0])
  }

  lemma {:induction false} Reachable(c: Config, ss: seq<State>, ls: seq<Label>, k: nat)
    requires IsBoot(c, ss, ls) && k < |ss|
    ensures Inv(c, ss[k])
  {
    if k == 0 {
      InitInv(c, ss[0]);
    } else {
      Reachable(c, ss, ls, k - 1);
      assert StepAt(c, ss, ls, k - 1);
      StepInv(c, ss[k - 1], ls[k - 1]);
    }
  }

  // ------------------------------------------------------------------ events of a run

  datatype Event =
    | Sending | SendingOk | Unsendable
    | SentMarkLost | FailMarkLost | LogLost
    | CrashAfterSend | CrashAfterFailure | CrashBeforeLog

  predicate Current(s: State, i: nat) {
    s.sweep.Held? && !s.sweep.pc.Locked? && !s.sweep.pc.Sweeping? && s.sweep.pc.id == i
  }

  predicate Occurs(s: State, l: Label, i: nat, e: Event) {
    && Current(s, i)
    && match e
       case Sending => l.Send?
       case SendingOk => l == Send(true)
       case Unsendable => l.NoSender?
       case SentMarkLost => l == Mark(false) && s.sweep.pc.SentOk?
       case FailMarkLost => l == Mark(false) && s.sweep.pc.SendBad?
       case LogLost => l == Log(false)
       case CrashAfterSend => l.Crash? && s.sweep.pc.SentOk?
       case CrashAfterFailure => l.Crash? && s.sweep.pc.SendBad?
       case CrashBeforeLog => l.Crash? && s.sweep.pc.Marked?
  }

  /** How often e happened to row i in the first n steps. */
  function Count(ss: seq<State>, ls: seq<Label>, n: nat, i: nat, e: Event): nat
    requires n <= |ls| && |ss| == |ls| + 1
  {
    if n == 0 then 0 else Count(ss, ls, n - 1, i, e) + One(Occurs(ss[n - 1], ls[n - 1], i, e))
  }

  function Counter(s: State, i: nat, e: Event): nat {
    if i >= |s.hist| then 0
    else match e
      case Sending => s.hist[i].sends
      case SendingOk => s.hist[i].okSends
      case Unsendable => s.hist[i].noSender
      case SentMarkLost => s.hist[i].sentMarkFails
      case FailMarkLost => s.hist[i].failMarkFails
      case LogLost => s.hist[i].logFails
      case CrashAfterSend => s.hist[i].sentCrashes
      case CrashAfterFailure => s.hist[i].failCrashes
      case CrashBeforeLog => s.hist[i].logCrashes
  }

  lemma CurrentKnown(c: Config, s: State, i: nat)
    requires ClaimSound(c, s)
    ensures Current(s, i) ==> KnownRow(s, i)
  {
    if Current(s, i) && !s.sweep.pc.Marked? {
      assert i == Claim(s)[0] && Claimed(c, s, i);
    }
  }

  lemma CrashCounter(c: Config, s: State, i: nat, e: Event)
    requires Current(s, i) ==> KnownRow(s, i)
    ensures Counter(Apply(c, s, Crash), i, e) == Counter(s, i, e) + One(Occurs(s, Crash, i, e))
  {
  }

  lemma CounterStep(c: Config, s: State, l: Label, i: nat, e: Event)
    requires Enabled(c, s, l) && !l.Crash?
    ensures Counter(Apply(c, s, l), i, e) == Counter(s, i, e) + One(Occurs(s, l, i, e))
  {
  }

  lemma CounterAt(c: Config, ss: seq<State>, ls: seq<Label>, n: nat, i: nat, e: Event)
    requires IsBoot(c, ss, ls) && n < |ls|
    ensures Counter(ss[n + 1], i, e) == Counter(ss[n], i, e) + One(Occurs(ss[n], ls[n], i, e))
  {
    Reachable(c, ss, ls, n);
    assert StepAt(c, ss, ls, n);
    if ls[n].Crash? {
      CurrentKnown(c, ss[n], i);
      CrashCounter(c, ss[n], i, e);
    } else {
      CounterStep(c, ss[n], ls[n], i, e);
    }
  }

  /** The history variables count the events of the run. */
  lemma {:induction false} CountersCount(c: Config, ss: seq<State>, ls: seq<Label>, n: nat, i: nat, e: Event)
    requires IsBoot(c, ss, ls) && n <= |ls|
    ensures Counter(ss[n], i, e) == Count(ss, ls, n, i, e)
  {
    if n > 0 {
      CountersCount(c, ss, ls, n - 1, i, e);
      CounterAt(c, ss, ls, n - 1, i, e);
    }
  }

  // ------------------------------------------------------------------ sent at most once, up to faults

  lemma SentStep(c: Config, s: State, l: Label, t: State, i: nat)
    requires Inv(c, s) && Follows(c, s, l, t) && i < |s.tables.outbox| && s.tables.outbox[i].status == Sent
    ensures i < |t.tables.outbox| && t.tables.outbox[i] == s.tables.outbox[i]
    ensures !Occurs(s, l, i, Sending)
  {
    assert i in Claim(s) ==> Claimed(c, s, i);
    if l.RetryReset? {
      assert s.retry.items[0] in RetryClaim(s) && Retried(c, s, s.retry.items[0]);
    }
    if l.Send? || l.Mark? {
      assert s.sweep.pc.id == Claim(s)[0];
    }
  }

  lemma SentAt(c: Config, ss: seq<State>, ls: seq<Label>, n: nat, i: nat)
    requires IsBoot(c, ss, ls) && n < |ls|
    requires i < |ss[n].tables.outbox| && ss[n].tables.outbox[i].status == Sent
    ensures i < |ss[n + 1].tables.outbox| && ss[n + 1].tables.outbox[i] == ss[n].tables.outbox[i]
    ensures Count(ss, ls, n + 1, i, Sending) == Count(ss, ls, n, i, Sending)
  {
    Reachable(c, ss, ls, n);
    assert StepAt(c, ss, ls, n);
    SentStep(c, ss[n], ls[n], ss[n + 1], i);
  }

  /** Status "sent" is never left, and a sent row is never offered to a sender again. */
  lemma {:induction false} SentIsFinal(c: Config, ss: seq<State>, ls: seq<Label>, i: nat, j: nat, k: nat)
    requires IsBoot(c, ss, ls) && j <= k < |ss|
    requires i < |ss[j].tables.outbox| && ss[j].tables.outbox[i].status == Sent
    ensures i < |ss[k].tables.outbox| && ss[k].tables.outbox[i] == ss[j].tables.outbox[i]
    ensures Count(ss, ls, k, i, Sending) == Count(ss, ls, j, i, Sending)
    decreases k
  {
    if j < k {
      SentIsFinal(c, ss, ls, i, j, k - 1);
      SentAt(c, ss, ls, k - 1, i);
    }
  }

  lemma MarkingIsClaimed(c: Config, s: State, i: nat)
    requires Inv(c, s) && (AtSentOk(s, i) || AtSendBad(s, i))
    ensures Claimed(c, s, i)
  {
    assert i == Claim(s)[0];
  }

  lemma StateAccounts(c: Config, s: State, i: nat)
    requires Inv(c, s) && i < |s.tables.outbox|
    ensures Counter(s, i, SendingOk)
            == One(s.tables.outbox[i].status == Sent) + One(AtSentOk(s, i))
               + Counter(s, i, SentMarkLost) + Counter(s, i, CrashAfterSend)
    ensures AtSentOk(s, i) ==> s.tables.outbox[i].status != Sent
    ensures s.tables.outbox[i].attempts + Counter(s, i, SentMarkLost) + Counter(s, i, FailMarkLost)
            == CountLog(s.tables.log, i) + Counter(s, i, LogLost) + Counter(s, i, CrashBeforeLog) + One(AtMarked(s, i))
    ensures Counter(s, i, Sending) + Counter(s, i, Unsendable)
            == s.tables.outbox[i].attempts + Counter(s, i, SentMarkLost) + Counter(s, i, FailMarkLost)
               + Counter(s, i, CrashAfterSend) + Counter(s, i, CrashAfterFailure)
               + One(AtSentOk(s, i) || AtSendBad(s, i))
    ensures s.tables.outbox[i].attempts + One(AtSentOk(s, i) || AtSendBad(s, i)) <= Limit(c)
    ensures s.tables.outbox[i].status == Pending ==> s.tables.outbox[i].attempts < Limit(c)
  {
    assert RowInv(c, s, i);
    if AtSentOk(s, i) || AtSendBad(s, i) {
      MarkingIsClaimed(c, s, i);
    }
  }

  /** Every successful Send is accounted for: the row is sent, is being marked, or its mark was lost. */
  lemma SuccessesAccounted(c: Config, ss: seq<State>, ls: seq<Label>, n: nat, i: nat)
    requires IsBoot(c, ss, ls) && n <= |ls| && i < |ss[n].tables.outbox|
    ensures Count(ss, ls, n, i, SendingOk)
            == One(ss[n].tables.outbox[i].status == Sent) + One(AtSentOk(ss[n], i))
               + Count(ss, ls, n, i, SentMarkLost) + Count(ss, ls, n, i, CrashAfterSend)
    ensures Count(ss, ls, n, i, SendingOk)
            <= 1 + Count(ss, ls, n, i, SentMarkLost) + Count(ss, ls, n, i, CrashAfterSend)
  {
    Reachable(c, ss, ls, n);
    StateAccounts(c, ss[n], i);
    CountersCount(c, ss, ls, n, i, SendingOk);
    CountersCount(c, ss, ls, n, i, SentMarkLost);
    CountersCount(c, ss, ls, n, i, CrashAfterSend);
  }

  /** Every attempt is logged, is about to be logged, or a named fault lost the record. */
  lemma AttemptsLogged(c: Config, ss: seq<State>, ls: seq<Label>, n: nat, i: nat)
    requires IsBoot(c, ss, ls) && n <= |ls| && i < |ss[n].tables.outbox|
    ensures ss[n].tables.outbox[i].attempts + Count(ss, ls, n, i, SentMarkLost) + Count(ss, ls, n, i, FailMarkLost)
            == CountLog(ss[n].tables.log, i) + Count(ss, ls, n, i, LogLost) + Count(ss, ls, n, i, CrashBeforeLog)
               + One(AtMarked(ss[n], i))
  {
    Reachable(c, ss, ls, n);
    StateAccounts(c, ss[n], i);
    CountersCount(c, ss, ls, n, i, SentMarkLost);
    CountersCount(c, ss, ls, n, i, FailMarkLost);
    CountersCount(c, ss, ls, n, i, LogLost);
    CountersCount(c, ss, ls, n, i, CrashBeforeLog);
  }

  /** Every decision to try a row is counted in `attempts`, is about to be, or a named fault lost the count. */
  lemma SendsCounted(c: Config, ss: seq<State>, ls: seq<Label>, n: nat, i: nat)
    requires IsBoot(c, ss, ls) && n <= |ls| && i < |ss[n].tables.outbox|
    ensures Count(ss, ls, n, i, Sending) + Count(ss, ls, n, i, Unsendable)
            == ss[n].tables.outbox[i].attempts + Count(ss, ls, n, i, SentMarkLost) + Count(ss, ls, n, i, FailMarkLost)
               + Count(ss, ls, n, i, CrashAfterSend) + Count(ss, ls, n, i, CrashAfterFailure)
               + One(AtSentOk(ss[n], i) || AtSendBad(ss[n], i))
  {
    Reachable(c, ss, ls, n);
    StateAccounts(c, ss[n], i);
    CountersCount(c, ss, ls, n, i, Sending);
    CountersCount(c, ss, ls, n, i, Unsendable);
    CountersCount(c, ss, ls, n, i, SentMarkLost);
    CountersCount(c, ss, ls, n, i, FailMarkLost);
    CountersCount(c, ss, ls, n, i, CrashAfterSend);
    CountersCount(c, ss, ls, n, i, CrashAfterFailure);
  }

  /** Faults or not, no row is tried more than M times, and a pending row has an attempt left. */
  lemma AttemptsBounded(c: Config, ss: seq<State>, ls: seq<Label>, n: nat, i: nat)
    requires IsBoot(c, ss, ls) && n <= |ls| && i < |ss[n].tables.outbox|
    ensures ss[n].tables.outbox[i].attempts <= Limit(c)
    ensures ss[n].tables.outbox[i].status == Pending ==> ss[n].tables.outbox[i].attempts < Limit(c)
  {
    Reachable(c, ss, ls, n);
    StateAccounts(c, ss[n], i);
  }

  // ------------------------------------------------------------------ runs without faults

  /** Every database write succeeds and the process does not crash. Sends and reads may still fail. */
  ghost predicate Faultless(ls: seq<Label>) {
    forall k :: 0 <= k < |ls| ==>
      ls[k] != Mark(false) && ls[k] != Log(false) && ls[k] != RetryReset(false) && !ls[k].Crash?
  }

  predicate IsFault(e: Event) {
    e.SentMarkLost? || e.FailMarkLost? || e.LogLost? || e.CrashAfterSend? || e.CrashAfterFailure? || e.CrashBeforeLog?
  }

  lemma {:induction false} NoFaults(ss: seq<State>, ls: seq<Label>, n: nat, i: nat, e: Event)
    requires n <= |ls| && |ss| == |ls| + 1 && Faultless(ls) && IsFault(e)
    ensures Count(ss, ls, n, i, e) == 0
  {
    if n > 0 {
      NoFaults(ss, ls, n - 1, i, e);
    }
  }

  /** Without faults an item is delivered at most once, `attempts` is the number of logged attempts, and
      a success is logged only for a row already marked sent. */
  lemma FaultlessAccounting(c: Config, ss: seq<State>, ls: seq<Label>, n: nat, i: nat)
    requires IsBoot(c, ss, ls) && Faultless(ls) && n <= |ls| && i < |ss[n].tables.outbox|
    ensures Count(ss, ls, n, i, SendingOk) <= 1
    ensures ss[n].tables.outbox[i].attempts == CountLog(ss[n].tables.log, i) + One(AtMarked(ss[n], i))
    ensures Count(ss, ls, n, i, Sending) + Count(ss, ls, n, i, Unsendable) <= Limit(c)
    ensures forall e :: e in ss[n].tables.log && e.outboxId == i && e.success ==> ss[n].tables.outbox[i].status == Sent
  {
    SuccessesAccounted(c, ss, ls, n, i);
    AttemptsLogged(c, ss, ls, n, i);
    SendsCounted(c, ss, ls, n, i);
    forall e | IsFault(e) ensures Count(ss, ls, n, i, e) == 0 {
      NoFaults(ss, ls, n, i, e);
    }
    Reachable(c, ss, ls, n);
    StateAccounts(c, ss[n], i);
    CountersCount(c, ss, ls, n, i, SentMarkLost);
  }
}
