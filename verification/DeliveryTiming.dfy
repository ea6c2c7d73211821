/** When a failed row may be tried again, and when a cancelled one stays cancelled. */
module DeliveryTiming {
  import opened Backoff
  import opened Outbox
  import opened Delivery
  import opened DeliveryInvariant
  import opened DeliveryRecord
  import opened DeliverySafety

  // ------------------------------------------------------------------ retry spacing

  /** At step f the retry worker's GetFailedOutbox read row i, failed after k attempts. */
  ghost predicate ReadAt(c: Config, ss: seq<State>, ls: seq<Label>, f: nat, i: nat, k: nat)
    requires |ss| == |ls| + 1
  {
    && f < |ls| && ls[f].RetryFetch?
    && i < |ss[f].tables.outbox| && Retryable(ss[f].tables.outbox[i], c.maxAttempts)
    && ss[f].tables.outbox[i].attempts == k
  }

  /** What that reading showed. */
  ghost predicate Showed(c: Config, ss: seq<State>, ls: seq<Label>, f: nat, i: nat, v: View)
    requires |ss| == |ls| + 1
  {
    && v.Seen? && ReadAt(c, ss, ls, f, i, v.attempts)
    && v.logs == CountLog(ss[f].tables.log, i) && v.last == LastLogged(ss[f], i)
  }

  lemma SeenStep(c: Config, s: State, l: Label, t: State, i: nat)
    requires Follows(c, s, l, t) && i < |t.hist|
    ensures i < |s.hist| && !l.RetryFetch? ==> t.hist[i].seen == s.hist[i].seen
    ensures i >= |s.hist| ==> t.hist[i].seen == Unseen
    ensures l.RetryFetch? ==> i < |s.hist| && t.hist[i] == Look(c, s.tables, i, s.hist[i])
  {
  }

  /** Between steps f and n no GetFailedOutbox read row i. */
  ghost predicate NotReadBetween(c: Config, ss: seq<State>, ls: seq<Label>, f: nat, n: nat, i: nat)
    requires |ss| == |ls| + 1
  {
    forall g: nat, k: nat :: f < g < n ==> !ReadAt(c, ss, ls, g, i, k)
  }

  /** The last reading of row i before step n, and it showed k attempts. */
  ghost predicate LastReading(c: Config, ss: seq<State>, ls: seq<Label>, f: nat, n: nat, i: nat, k: nat)
    requires |ss| == |ls| + 1
  {
    f < n && ReadAt(c, ss, ls, f, i, k) && NotReadBetween(c, ss, ls, f, n, i)
  }

  lemma LastReadingIsUnique(c: Config, ss: seq<State>, ls: seq<Label>, f: nat, g: nat, n: nat, i: nat, k: nat, m: nat)
    requires |ss| == |ls| + 1 && LastReading(c, ss, ls, f, n, i, k) && LastReading(c, ss, ls, g, n, i, m)
    ensures f == g && k == m
  {
  }

  lemma StillNotRead(c: Config, ss: seq<State>, ls: seq<Label>, f: nat, n: nat, i: nat)
    requires |ss| == |ls| + 1 && n < |ls| && NotReadBetween(c, ss, ls, f, n, i)
    requires i < |ss[n].tables.outbox| ==> !ls[n].RetryFetch? || !Retryable(ss[n].tables.outbox[i], c.maxAttempts)
    ensures NotReadBetween(c, ss, ls, f, n + 1, i)
  {
  }

  lemma ShowedNow(c: Config, ss: seq<State>, ls: seq<Label>, n: nat, i: nat)
    requires |ss| == |ls| + 1 && n < |ls| && Follows(c, ss[n], ls[n], ss[n + 1])
    requires ls[n].RetryFetch? && i < |ss[n].hist| && Retryable(ss[n].tables.outbox[i], c.maxAttempts)
    ensures i < |ss[n + 1].hist| && Showed(c, ss, ls, n, i, ss[n + 1].hist[i].seen)
    ensures NotReadBetween(c, ss, ls, n, n + 1, i)
  {
    SeenStep(c, ss[n], ls[n], ss[n + 1], i);
  }

  /** Whatever the retry worker knows about a row is what its last reading of the row showed. */
  lemma {:induction false} SeenWasRead(c: Config, ss: seq<State>, ls: seq<Label>, n: nat, i: nat) returns (f: nat)
    requires IsBoot(c, ss, ls) && n <= |ls| && i < |ss[n].hist| && ss[n].hist[i].seen.Seen?
    ensures f < n && Showed(c, ss, ls, f, i, ss[n].hist[i].seen) && NotReadBetween(c, ss, ls, f, n, i)
  {
    assert Init(ss[0]);
    Reachable(c, ss, ls, n - 1);
    assert StepAt(c, ss, ls, n - 1);
    SeenStep(c, ss[n - 1], ls[n - 1], ss[n], i);
    if ls[n - 1].RetryFetch? && Retryable(ss[n - 1].tables.outbox[i], c.maxAttempts) {
      f := n - 1;
      ShowedNow(c, ss, ls, n - 1, i);
    } else {
      f := SeenWasRead(c, ss, ls, n - 1, i);
      StillNotRead(c, ss, ls, f, n - 1, i);
    }
  }

  /** When row i is sent at step n, the backoff of k attempts has passed since step g, but for the part of a second that
      time stamps drop. */
  ghost predicate Waited(c: Config, ss: seq<State>, n: nat, g: nat, k: nat) {
    g < |ss| && n < |ss| && ss[g].clock - SECOND + Delay(k, c.base) < ss[n].clock
  }

  ghost predicate WaitedSinceLogs(c: Config, ss: seq<State>, ls: seq<Label>, n: nat, m: nat, i: nat, k: nat) {
    forall g: nat :: g < m && LoggedAt(ss, ls, g, i) ==> Waited(c, ss, n, g, k)
  }

  ghost predicate WaitedSinceCreation(c: Config, ss: seq<State>, ls: seq<Label>, n: nat, i: nat, k: nat) {
    forall g: nat :: CreatedAt(ls, g, i) ==> Waited(c, ss, n, g, k)
  }

  ghost predicate NotLogged(ss: seq<State>, ls: seq<Label>, m: nat, i: nat) {
    forall g: nat :: g < m ==> !LoggedAt(ss, ls, g, i)
  }

  lemma LastLoggedPassed(c: Config, ss: seq<State>, ls: seq<Label>, n: nat, f: nat, i: nat, k: nat)
    requires IsBoot(c, ss, ls) && f <= n < |ls| && i < |ss[f].tables.outbox|
    requires LastLogged(ss[f], i) + Delay(k, c.base) <= ss[n].clock
    ensures WaitedSinceLogs(c, ss, ls, n, f, i, k)
    ensures NotLogged(ss, ls, f, i) ==> WaitedSinceCreation(c, ss, ls, n, i, k)
  {
    forall g: nat | g < f && LoggedAt(ss, ls, g, i) ensures Waited(c, ss, n, g, k) {
      NotBeforeLog(c, ss, ls, g, f, i);
    }
    if NotLogged(ss, ls, f, i) {
      forall g: nat | CreatedAt(ls, g, i) ensures Waited(c, ss, n, g, k) {
        NotBeforeCreation(c, ss, ls, g, f, i);
      }
    }
  }

  /** When a row that was tried k >= 1 times is sent again, f is the last reading of it before: that reading showed the
      k attempts, and the backoff has passed since every attempt that was logged before it, or since the creation when
      none was. */
  lemma RetriesAreSpaced(c: Config, ss: seq<State>, ls: seq<Label>, n: nat, i: nat) returns (f: nat)
    requires IsBoot(c, ss, ls) && n < |ls| && Occurs(ss[n], ls[n], i, Sending)
    ensures i < |ss[n].tables.outbox|
    ensures var k := ss[n].tables.outbox[i].attempts;
      k >= 1 ==>
        && LastReading(c, ss, ls, f, n, i, k)
        && WaitedSinceLogs(c, ss, ls, n, f, i, k)
        && (NotLogged(ss, ls, f, i) ==> WaitedSinceCreation(c, ss, ls, n, i, k))
  {
    Reachable(c, ss, ls, n);
    var s := ss[n];
    assert StepAt(c, ss, ls, n);
    assert i == Claim(s)[0] && Claimed(c, s, i);
    assert RowInv(c, s, i);
    f := 0;
    if s.tables.outbox[i].attempts >= 1 {
      f := SeenWasRead(c, ss, ls, n, i);
      LastLoggedPassed(c, ss, ls, n, f, i, s.tables.outbox[i].attempts);
    }
  }

  /** Without faults: when attempt k+1 starts, attempt k and all before it are logged; and if none of them was logged
      only after the last reading of the row before it, f, the backoff has passed since each of them was logged. */
  lemma FaultlessSpacing(c: Config, ss: seq<State>, ls: seq<Label>, n: nat, i: nat) returns (f: nat)
    requires IsBoot(c, ss, ls) && Faultless(ls) && n < |ls| && Occurs(ss[n], ls[n], i, Sending)
    ensures i < |ss[n].tables.outbox|
    ensures var k := ss[n].tables.outbox[i].attempts;
      k >= 1 ==>
        && CountLog(ss[n].tables.log, i) == k
        && LastReading(c, ss, ls, f, n, i, k)
        && ((forall g: nat :: f <= g < n ==> !LoggedAt(ss, ls, g, i)) ==> WaitedSinceLogs(c, ss, ls, n, n, i, k))
  {
    f := RetriesAreSpaced(c, ss, ls, n, i);
    FaultlessAccounting(c, ss, ls, n, i);
    assert StepAt(c, ss, ls, n);
  }

  /** The retry worker leaves a row for later only if, at its clock reading, the backoff has not passed since some
      logged attempt of the row, or since its creation. */
  lemma SkippedIsEarly(c: Config, ss: seq<State>, ls: seq<Label>, n: nat, i: nat) returns (g: nat)
    requires IsBoot(c, ss, ls) && n < |ls| && ls[n].RetrySkip?
    requires ss[n].retry.Rescheduling? && ss[n].retry.items != [] && ss[n].retry.items[0].id == i
    ensures i < |ss[n].tables.outbox| && g < n && (LoggedAt(ss, ls, g, i) || CreatedAt(ls, g, i))
    ensures ss[n].retry.now < ss[g].clock + Delay(ss[n].tables.outbox[i].attempts, c.base)
  {
    Reachable(c, ss, ls, n);
    assert StepAt(c, ss, ls, n);
    var item := ss[n].retry.items[0];
    assert item in RetryClaim(ss[n]) && Retried(c, ss[n], item);
    var f := SeenWasRead(c, ss, ls, n, i);
    g := NotAfterAll(c, ss, ls, f, i);
  }

  // ------------------------------------------------------------------ cancelled rows

  /** A snapshot still holds the row: the sweep will deliver it, or the retry worker will reset it. */
  ghost predicate Revivable(c: Config, s: State, i: nat) {
    || i in Claim(s)
    || (s.retry.Fetched? && InRetry(s, i))
    || (s.retry.Rescheduling? && exists k :: 0 <= k < |s.retry.items| && s.retry.items[k].id == i
                                             && Due(c, s.retry.items[k], s.retry.now))
  }

  lemma CancelledUnclaimed(c: Config, s: State, l: Label, t: State, i: nat)
    requires Inv(c, s) && Follows(c, s, l, t)
    requires i < |s.tables.outbox| && s.tables.outbox[i].status == Cancelled && i !in Claim(s)
    ensures i < |t.tables.outbox| && i !in Claim(t)
    ensures t.tables.outbox[i] == s.tables.outbox[i]
            || (l == RetryReset(true) && s.retry.items[0].id == i && Due(c, s.retry.items[0], s.retry.now))
  {
    CancelledRowStays(c, s, l, t, i);
    ClaimGrowsByFetch(c, s, l, t);
  }

  lemma ClaimStep(c: Config, s: State, l: Label, t: State)
    requires Follows(c, s, l, t) && !l.FetchPending?
    ensures Claim(t) == Claim(s) || Claim(t) == [] || (Claim(s) != [] && Claim(t) == Claim(s)[1..])
  {
    if l.Begin? {
      assert Claim(t) == Claim(s);
    }
  }

  lemma ClaimGrowsByFetch(c: Config, s: State, l: Label, t: State)
    requires Follows(c, s, l, t)
    ensures forall j :: j in Claim(t) ==> j in Claim(s) || (l.FetchPending? && j in l.ids)
  {
    if !l.FetchPending? {
      ClaimStep(c, s, l, t);
    }
  }

  lemma CancelledRowStays(c: Config, s: State, l: Label, t: State, i: nat)
    requires Inv(c, s) && Follows(c, s, l, t)
    requires i < |s.tables.outbox| && s.tables.outbox[i].status == Cancelled && i !in Claim(s)
    ensures i < |t.tables.outbox|
    ensures t.tables.outbox[i] == s.tables.outbox[i]
            || (l == RetryReset(true) && s.retry.items[0].id == i && Due(c, s.retry.items[0], s.retry.now))
  {
    if l.Mark? {
      assert s.sweep.pc.id == Claim(s)[0];
    }
  }

  lemma FetchSkipsCancelled(c: Config, s: State, t: State, i: nat)
    requires Follows(c, s, RetryFetch, t) && i < |s.tables.outbox| && s.tables.outbox[i].status == Cancelled
    ensures !InRetry(t, i)
  {
    FailedListIsExact(s.tables, c.maxAttempts, |s.tables.outbox|);
    forall k | 0 <= k < |RetryClaim(t)| ensures RetryClaim(t)[k].id != i {
      assert RetryClaim(t)[k] in RetryClaim(t) && Shows(s.tables, c.maxAttempts, RetryClaim(t)[k]);
    }
  }

  lemma CancelledUnretried(c: Config, s: State, l: Label, t: State, i: nat)
    requires Follows(c, s, l, t)
    requires i < |s.tables.outbox| && s.tables.outbox[i].status == Cancelled && !Revivable(c, s, i)
    ensures i in Claim(t) || !Revivable(c, t, i)
  {
    if l.RetryFetch? {
      FetchSkipsCancelled(c, s, t, i);
    } else if l.RetrySkip? || l.RetryReset? {
      assert forall k :: 0 <= k < |t.retry.items| ==> t.retry.items[k] == s.retry.items[k + 1];
    } else {
      assert RetryClaim(t) == RetryClaim(s) || RetryClaim(t) == [];
      assert InRetry(t, i) ==> InRetry(s, i);
      if l.RetryClock? {
        assert forall k :: 0 <= k < |t.retry.items| ==> RetryClaim(s)[k].id == t.retry.items[k].id;
      }
    }
  }

  /** The steps ls can be taken one after the other from s. */
  ghost predicate Can(c: Config, s: State, ls: seq<Label>)
    decreases ls
  {
    ls == [] || (Enabled(c, s, ls[0]) && Can(c, Apply(c, s, ls[0]), ls[1..]))
  }

  ghost function After(c: Config, s: State, ls: seq<Label>): State
    requires Can(c, s, ls)
    decreases ls
  {
    if ls == [] then s else After(c, Apply(c, s, ls[0]), ls[1..])
  }

  ghost predicate CancelledRow(s: State, i: nat) {
    i < |s.tables.outbox| && s.tables.outbox[i].status == Cancelled
  }

  /** A cancelled row that no snapshot can revive is not changed by any steps, nor made revivable. */
  lemma {:induction false} CancelledStays(c: Config, s: State, ls: seq<Label>, i: nat)
    requires Inv(c, s) && CancelledRow(s, i) && !Revivable(c, s, i) && Can(c, s, ls)
    ensures var t := After(c, s, ls);
      CancelledRow(t, i) && t.tables.outbox[i] == s.tables.outbox[i] && !Revivable(c, t, i)
    decreases ls
  {
    if ls != [] {
      var t := Apply(c, s, ls[0]);
      assert Follows(c, s, ls[0], t);
      StepInv(c, s, ls[0]);
      CancelledUnclaimed(c, s, ls[0], t, i);
      CancelledUnretried(c, s, ls[0], t, i);
      CancelledStays(c, t, ls[1..], i);
    }
  }

  /** Steps left until the sweep has dealt with its current row. */
  function Stage(pc: Pc): nat {
    match pc
    case Marked(_, _, _) => 5
    case Sweeping(_) => 4
    case Delivering(_, _) => 3
    case Ready(_, _) => 2
    case _ => 1
  }

  /** The step that takes the sweep towards marking row i. */
  ghost function Toward(c: Config, s: State, i: nat): Label
    requires s.sweep.Held?
  {
    match s.sweep.pc
    case Locked => FetchPendingFails
    case Marked(_, _, _) => Log(true)
    case Sweeping(_) => Begin
    case Delivering(id, _) =>
      if id < |s.tables.outbox| && s.tables.outbox[id].channel !in c.senders then NoSender else Load(id == i)
    case Ready(_, _) => Send(true)
    case _ => Mark(true)
  }

  ghost predicate Closer(s: State, t: State, i: nat)
  {
    && s.sweep.Held? && t.sweep.Held? && i in Claim(t)
    && (|Claim(t)| < |Claim(s)| || (|Claim(t)| == |Claim(s)| && Stage(t.sweep.pc) < Stage(s.sweep.pc)))
  }

  /** Where that step leads, when it keeps the row. */
  lemma TowardMoves(c: Config, s: State, i: nat)
    requires i in Claim(s) && !s.sweep.pc.SentOk? && !s.sweep.pc.SendBad?
    requires Enabled(c, s, Toward(c, s, i)) && Toward(c, s, i) != Load(false)
    ensures var t := Apply(c, s, Toward(c, s, i));
      t.sweep.Held? && match s.sweep.pc
                       case Marked(_, _, todo) => t.sweep.pc == Sweeping(todo)
                       case Sweeping(todo) => todo != [] && t.sweep.pc == Delivering(todo[0], todo[1..])
                       case Delivering(id, todo) => t.sweep.pc in {SendBad(id, todo), Ready(id, todo)}
                       case Ready(id, todo) => t.sweep.pc == SentOk(id, todo)
                       case _ => false
  {
  }

  lemma TowardKeeps(c: Config, s: State, i: nat)
    requires i in Claim(s) && !s.sweep.pc.SentOk? && !s.sweep.pc.SendBad?
    requires Enabled(c, s, Toward(c, s, i)) && Toward(c, s, i) != Load(false)
    ensures Closer(s, Apply(c, s, Toward(c, s, i)), i)
  {
    TowardMoves(c, s, i);
    KeepsClaim(s, Apply(c, s, Toward(c, s, i)));
  }

  lemma KeepsClaim(s: State, t: State)
    requires s.sweep.Held? && t.sweep.Held?
    requires match s.sweep.pc
             case Marked(_, _, todo) => t.sweep.pc == Sweeping(todo)
             case Sweeping(todo) => todo != [] && t.sweep.pc == Delivering(todo[0], todo[1..])
             case Delivering(id, todo) => t.sweep.pc in {SendBad(id, todo), Ready(id, todo)}
             case Ready(id, todo) => t.sweep.pc == SentOk(id, todo)
             case _ => false
    ensures Claim(t) == Claim(s) && Stage(t.sweep.pc) < Stage(s.sweep.pc)
  {
  }

  lemma DropsHead(c: Config, s: State, l: Label)
    requires Enabled(c, s, l) && l in {Load(false), Mark(true)}
    ensures Claim(s) == [s.sweep.pc.id] + Claim(Apply(c, s, l))
  {
  }

  lemma TowardDrops(c: Config, s: State, i: nat)
    requires ClaimSound(c, s) && i in Claim(s) && !s.sweep.pc.Sweeping? && !s.sweep.pc.Marked? && s.sweep.pc.id != i
    requires Enabled(c, s, Toward(c, s, i)) && Toward(c, s, i) in {Load(false), Mark(true)}
    ensures Closer(s, Apply(c, s, Toward(c, s, i)), i)
  {
    DropsHead(c, s, Toward(c, s, i));
  }

  ghost predicate Delivered(s: State, i: nat) {
    i < |s.tables.outbox| && s.tables.outbox[i].status in {Sent, Failed}
  }

  lemma TowardStep(c: Config, s: State, i: nat)
    requires Inv(c, s) && i in Claim(s)
    ensures Enabled(c, s, Toward(c, s, i))
    ensures var t := Apply(c, s, Toward(c, s, i));
      Closer(s, t, i) || Delivered(t, i)
  {
    assert Claimed(c, s, Claim(s)[0]);
    var l := Toward(c, s, i);
    if l == Load(false) || (l.Mark? && s.sweep.pc.id != i) {
      TowardDrops(c, s, i);
    } else if !l.Mark? {
      TowardKeeps(c, s, i);
    }
  }

  /** Whatever its status, a row in the sweep's snapshot can still be delivered or fail. */
  lemma {:induction false} ClaimedCanBeDelivered(c: Config, s: State, i: nat) returns (ls: seq<Label>)
    requires Inv(c, s) && i in Claim(s)
    ensures Can(c, s, ls) && Delivered(After(c, s, ls), i)
    decreases |Claim(s)|, Stage(s.sweep.pc)
  {
    var l := Toward(c, s, i);
    TowardStep(c, s, i);
    StepInv(c, s, l);
    var t := Apply(c, s, l);
    if Delivered(t, i) {
      ls := [l];
      assert ls[1..] == [];
      assert Can(c, t, []) && After(c, t, []) == t;
    } else {
      var rest := ClaimedCanBeDelivered(c, t, i);
      ls := [l] + rest;
      assert ls[1..] == rest;
    }
  }

  lemma {:induction false} DueCanBeReset(c: Config, s: State, i: nat, k: nat) returns (ls: seq<Label>)
    requires Inv(c, s) && s.retry.Rescheduling? && k < |s.retry.items|
    requires s.retry.items[k].id == i && Due(c, s.retry.items[k], s.retry.now)
    ensures Can(c, s, ls) && !CancelledRow(After(c, s, ls), i)
    decreases k
  {
    var first := s.retry.items[0];
    assert first in RetryClaim(s) && Retried(c, s, first);
    var l := if Due(c, first, s.retry.now) then RetryReset(true) else RetrySkip;
    assert Enabled(c, s, l);
    StepInv(c, s, l);
    var t := Apply(c, s, l);
    if k == 0 {
      ls := [l];
      assert ls[1..] == [];
      assert Can(c, t, []) && After(c, t, []) == t;
    } else {
      assert t.retry.items[k - 1] == s.retry.items[k];
      var rest := DueCanBeReset(c, t, i, k - 1);
      ls := [l] + rest;
      assert ls[1..] == rest;
    }
  }

  lemma FetchedCanBeReset(c: Config, s: State, i: nat) returns (ls: seq<Label>)
    requires Inv(c, s) && s.retry.Fetched? && InRetry(s, i)
    ensures Can(c, s, ls) && !CancelledRow(After(c, s, ls), i)
  {
    var k :| 0 <= k < |RetryClaim(s)| && RetryClaim(s)[k].id == i;
    var item := s.retry.items[k];
    var due := item.lastAttemptAt + Delay(item.attempts, c.base);
    var tick := Tick(if due < s.clock then s.clock else due);
    var t := Apply(c, s, tick);
    StepInv(c, s, tick);
    StepInv(c, t, RetryClock);
    var u := Apply(c, t, RetryClock);
    var rest := DueCanBeReset(c, u, i, k);
    ls := [tick, RetryClock] + rest;
    assert ls[1..] == [RetryClock] + rest && ls[1..][1..] == rest;
    assert Can(c, t, ls[1..]);
  }

  /** "cancelled" is final for a row exactly when no snapshot still holds it. */
  lemma CancelledIsFinalIff(c: Config, s: State, i: nat)
    requires Inv(c, s) && CancelledRow(s, i)
    ensures (forall ls :: Can(c, s, ls) ==> CancelledRow(After(c, s, ls), i)) <==> !Revivable(c, s, i)
  {
    if !Revivable(c, s, i) {
      forall ls | Can(c, s, ls) ensures CancelledRow(After(c, s, ls), i) {
        CancelledStays(c, s, ls, i);
      }
    } else if i in Claim(s) {
      var ls := ClaimedCanBeDelivered(c, s, i);
      assert !CancelledRow(After(c, s, ls), i);
    } else if s.retry.Fetched? {
      var ls := FetchedCanBeReset(c, s, i);
    } else {
      var k :| 0 <= k < |s.retry.items| && s.retry.items[k].id == i && Due(c, s.retry.items[k], s.retry.now);
      var ls := DueCanBeReset(c, s, i, k);
    }
  }
}
