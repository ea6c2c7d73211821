/** Every step of the delivery protocol keeps its invariant. */
module DeliveryInvariant {
  import opened Outbox
  import opened Delivery

  lemma InitInv(c: Config, s: State)
    requires Init(s)
    ensures Inv(c, s)
  {
  }

  lemma StepInv(c: Config, s: State, l: Label)
    requires Inv(c, s) && Enabled(c, s, l)
    ensures Inv(c, Apply(c, s, l))
  {
    match l
    case Enqueue(_, _) => EnqueueInv(c, s, l);
    case Mark(_) => MarkInv(c, s, l);
    case Log(_) => LogInv(c, s, l);
    case RetryFetch => RetryFetchInv(c, s);
    case RetryReset(_) => RetryResetInv(c, s, l);
    case Cancel(_) => CancelInv(c, s, l);
    case Crash => CrashInv(c, s);
    case FetchPending(_) => SweepMoveInv(c, s, l);
    case FetchPendingFails => SweepMoveInv(c, s, l);
    case Leave => SweepMoveInv(c, s, l);
    case Begin => SweepMoveInv(c, s, l);
    case Load(_) => SweepMoveInv(c, s, l);
    case Send(_) => SendInv(c, s, l);
    case NoSender => SendInv(c, s, l);
    case _ => QuietInv(c, s, l);
  }

  /** A step that leaves row i alone keeps everything known about it. */
  lemma RowFrame(c: Config, s: State, t: State, i: nat)
    requires RowInv(c, s, i) && KnownRow(t, i)
    requires t.tables.outbox[i] == s.tables.outbox[i] && t.hist[i] == s.hist[i]
    requires CountLog(t.tables.log, i) == CountLog(s.tables.log, i)
    requires LastAttempt(t.tables.log, i, s.tables.outbox[i].scheduledAt)
             == LastAttempt(s.tables.log, i, s.tables.outbox[i].scheduledAt)
    requires AtSentOk(t, i) == AtSentOk(s, i) && AtSendBad(t, i) == AtSendBad(s, i) && AtMarked(t, i) == AtMarked(s, i)
    requires AtMarked(t, i) ==> t.sweep.pc.ok == s.sweep.pc.ok
    requires i in Claim(t) ==> i in Claim(s) || s.tables.outbox[i].status == Pending
    requires s.clock <= t.clock
    ensures RowInv(c, t, i)
  {
  }

  /** Steps of the sweep that only move through its snapshot. */
  ghost predicate SweepMove(l: Label) {
    l.FetchPending? || l.FetchPendingFails? || l.Leave? || l.Begin? || l.Load?
  }

  lemma SweepMoveClaim(c: Config, s: State, l: Label)
    requires Inv(c, s) && Enabled(c, s, l) && SweepMove(l)
    ensures ClaimSound(c, Apply(c, s, l))
    ensures forall id :: id in Claim(Apply(c, s, l)) ==>
              id in Claim(s) || (KnownRow(s, id) && s.tables.outbox[id].status == Pending)
  {
    if l.FetchPending? {
      FetchPendingClaim(c, s, l);
    } else {
      var t := Apply(c, s, l);
      ClaimShrinks(c, s, l);
      forall id | id in Claim(t) ensures Claimed(c, t, id) {
        assert Claimed(c, s, id);
      }
    }
  }

  lemma FetchPendingClaim(c: Config, s: State, l: Label)
    requires Inv(c, s) && Enabled(c, s, l) && l.FetchPending?
    ensures ClaimSound(c, Apply(c, s, l))
    ensures forall id :: id in Claim(Apply(c, s, l)) ==> KnownRow(s, id) && s.tables.outbox[id].status == Pending
  {
    var t := Apply(c, s, l);
    assert Claim(t) == l.ids;
    forall id | id in l.ids ensures Claimed(c, t, id) {
      assert RowInv(c, s, id);
    }
  }

  lemma ClaimShrinks(c: Config, s: State, l: Label)
    requires Enabled(c, s, l) && SweepMove(l) && !l.FetchPending?
    ensures forall id :: id in Claim(Apply(c, s, l)) ==> id in Claim(s)
    ensures Distinct(Claim(s)) ==> Distinct(Claim(Apply(c, s, l)))
  {
    var t := Apply(c, s, l);
    if l.Load? && !l.found {
      assert Claim(t) == Claim(s)[1..];
    } else if l.Begin? || l.Load? {
      assert Claim(t) == Claim(s);
    }
  }

  lemma SweepMoveInv(c: Config, s: State, l: Label)
    requires Inv(c, s) && Enabled(c, s, l) && SweepMove(l)
    ensures Inv(c, Apply(c, s, l))
  {
    var t := Apply(c, s, l);
    SweepMoveClaim(c, s, l);
    forall i | 0 <= i < |t.hist| ensures RowInv(c, t, i) {
      RowFrame(c, s, t, i);
    }
  }

  /** Steps that touch neither a row nor the sweep's snapshot. */
  ghost predicate Quiet(l: Label) {
    l.Call? || l.Acquire? || l.RetryFetchFails? || l.RetryClock? || l.RetrySkip? || l.RetryDone? || l.Tick?
  }

  /** The rows are as they were, and nothing has come into a snapshot. */
  ghost predicate SameRows(s: State, t: State) {
    && t.tables == s.tables && t.hist == s.hist && Claim(t) == Claim(s)
    && (t.sweep.Held? && t.sweep.pc.Marked? ==> t.sweep == s.sweep)
    && (RetryClaim(t) == RetryClaim(s) || RetryClaim(t) == []
        || (RetryClaim(s) != [] && RetryClaim(t) == RetryClaim(s)[1..]))
  }

  lemma QuietSame(c: Config, s: State, l: Label)
    requires Enabled(c, s, l) && Quiet(l)
    ensures SameRows(s, Apply(c, s, l))
    ensures var t := Apply(c, s, l);
      (s.retry.Rescheduling? ==> s.retry.now <= s.clock) ==> t.retry.Rescheduling? ==> t.retry.now <= t.clock
  {
  }

  lemma SameRowsSound(c: Config, s: State, t: State)
    requires ClaimSound(c, s) && RetrySound(c, s) && LogSound(s) && SameRows(s, t)
    requires t.retry.Rescheduling? ==> t.retry.now <= t.clock
    ensures ClaimSound(c, t) && RetrySound(c, t) && LogSound(t)
  {
    forall j | j in Claim(t) ensures Claimed(c, t, j) {
      assert Claimed(c, s, j);
    }
    forall p | p in RetryClaim(t) ensures Retried(c, t, p) && p.id !in Claim(t) {
      assert p in RetryClaim(s) && Retried(c, s, p);
    }
  }

  lemma QuietClaim(c: Config, s: State, l: Label)
    requires ClaimSound(c, s) && RetrySound(c, s) && LogSound(s) && Enabled(c, s, l) && Quiet(l)
    ensures var t := Apply(c, s, l); ClaimSound(c, t) && RetrySound(c, t) && LogSound(t)
    ensures Claim(Apply(c, s, l)) == Claim(s)
  {
    QuietSame(c, s, l);
    SameRowsSound(c, s, Apply(c, s, l));
  }

  lemma QuietInv(c: Config, s: State, l: Label)
    requires Inv(c, s) && Enabled(c, s, l) && Quiet(l)
    ensures Inv(c, Apply(c, s, l))
  {
    var t := Apply(c, s, l);
    QuietClaim(c, s, l);
    forall i | 0 <= i < |t.hist| ensures RowInv(c, t, i) {
      RowFrame(c, s, t, i);
    }
  }

  lemma EnqueueInv(c: Config, s: State, l: Label)
    requires Inv(c, s) && Enabled(c, s, l) && l.Enqueue?
    ensures Inv(c, Apply(c, s, l))
  {
    var t := Apply(c, s, l);
    assert Claim(t) == Claim(s);
    forall i | 0 <= i < |t.hist| ensures RowInv(c, t, i) {
      if i < |s.hist| {
        RowFrame(c, s, t, i);
      } else {
        UnknownHasNoLog(s, i);
        assert i in Claim(s) ==> Claimed(c, s, i);
        assert AtSentOk(s, i) || AtSendBad(s, i) ==> i in Claim(s);
      }
    }
  }

  lemma SendClaim(c: Config, s: State, l: Label)
    requires ClaimSound(c, s) && RetrySound(c, s) && LogSound(s) && Enabled(c, s, l) && (l.Send? || l.NoSender?)
    ensures var t := Apply(c, s, l); ClaimSound(c, t) && RetrySound(c, t) && LogSound(t)
    ensures Claim(Apply(c, s, l)) == Claim(s)
  {
    var t := Apply(c, s, l);
    assert Claim(t) == Claim(s);
    forall j | j in Claim(t) ensures Claimed(c, t, j) {
      assert Claimed(c, s, j);
    }
  }

  lemma SendInv(c: Config, s: State, l: Label)
    requires Inv(c, s) && Enabled(c, s, l) && (l.Send? || l.NoSender?)
    ensures Inv(c, Apply(c, s, l))
  {
    var t := Apply(c, s, l);
    SendClaim(c, s, l);
    forall i | 0 <= i < |t.hist| ensures RowInv(c, t, i) {
      assert RowInv(c, s, i);
      if i != s.sweep.pc.id {
        RowFrame(c, s, t, i);
      }
    }
  }

  lemma MarkClaim(c: Config, s: State, l: Label)
    requires ClaimSound(c, s) && Enabled(c, s, l) && l.Mark?
    ensures ClaimSound(c, Apply(c, s, l))
    ensures s.sweep.pc.id in Claim(s) && s.sweep.pc.id !in Claim(Apply(c, s, l))
    ensures forall i :: i in Claim(Apply(c, s, l)) ==> i in Claim(s)
  {
    var t := Apply(c, s, l);
    var id := s.sweep.pc.id;
    assert Claim(s) == [id] + Claim(t);
    assert forall k :: 0 <= k < |Claim(t)| ==> Claim(t)[k] == Claim(s)[k + 1];
    assert id == Claim(s)[0] && Claimed(c, s, id);
    forall j | j in Claim(t) ensures Claimed(c, t, j) {
      assert Claimed(c, s, j);
    }
  }

  lemma MarkOthers(c: Config, s: State, l: Label)
    requires ClaimSound(c, s) && RetrySound(c, s) && LogSound(s) && Enabled(c, s, l) && l.Mark?
    ensures RetrySound(c, Apply(c, s, l)) && LogSound(Apply(c, s, l))
  {
    var t := Apply(c, s, l);
    MarkClaim(c, s, l);
    assert RetryClaim(t) == RetryClaim(s);
    forall q | q in RetryClaim(t) ensures Retried(c, t, q) && q.id !in Claim(t) {
      assert Retried(c, s, q);
    }
  }

  lemma MarkedAccounted(c: Config, s: State, l: Label)
    requires Enabled(c, s, l) && l.Mark? && Accounted(s, s.sweep.pc.id) && Claimed(c, s, s.sweep.pc.id)
    ensures KnownRow(Apply(c, s, l), s.sweep.pc.id) && Accounted(Apply(c, s, l), s.sweep.pc.id)
  {
  }

  lemma MarkedRow(c: Config, s: State, l: Label)
    requires Enabled(c, s, l) && l.Mark? && RowInv(c, s, s.sweep.pc.id)
    requires Claimed(c, s, s.sweep.pc.id) && s.sweep.pc.id in Claim(s) && s.sweep.pc.id !in Claim(Apply(c, s, l))
    ensures RowInv(c, Apply(c, s, l), s.sweep.pc.id)
  {
    MarkedAccounted(c, s, l);
  }

  lemma MarkInv(c: Config, s: State, l: Label)
    requires Inv(c, s) && Enabled(c, s, l) && l.Mark?
    ensures Inv(c, Apply(c, s, l))
  {
    MarkClaim(c, s, l);
    MarkOthers(c, s, l);
    MarkedRow(c, s, l);
    forall i | 0 <= i < |s.hist| ensures RowInv(c, Apply(c, s, l), i) {
      if i != s.sweep.pc.id {
        RowFrame(c, s, Apply(c, s, l), i);
      }
    }
  }

  lemma LogClaim(c: Config, s: State, l: Label)
    requires ClaimSound(c, s) && RetrySound(c, s) && LogSound(s) && Enabled(c, s, l) && l.Log?
    requires RowInv(c, s, s.sweep.pc.id)
    ensures var t := Apply(c, s, l); ClaimSound(c, t) && RetrySound(c, t) && LogSound(t)
  {
    var t := Apply(c, s, l);
    assert Claim(t) == Claim(s);
    forall j | j in Claim(t) ensures Claimed(c, t, j) {
      assert Claimed(c, s, j);
    }
  }

  lemma LogInv(c: Config, s: State, l: Label)
    requires Inv(c, s) && Enabled(c, s, l) && l.Log?
    ensures Inv(c, Apply(c, s, l))
  {
    var t := Apply(c, s, l);
    LogClaim(c, s, l);
    forall i | 0 <= i < |t.hist| ensures RowInv(c, t, i) {
      LogRowInv(c, s, l, i);
    }
  }

  lemma LogRowInv(c: Config, s: State, l: Label, i: nat)
    requires Enabled(c, s, l) && l.Log? && RowInv(c, s, i)
    requires s.sweep.pc.id !in Claim(s)
    ensures RowInv(c, Apply(c, s, l), i)
  {
    if i == s.sweep.pc.id {
      LoggedRow(c, s, l);
    } else {
      UnloggedRow(c, s, l, i);
    }
  }

  lemma UnloggedRow(c: Config, s: State, l: Label, i: nat)
    requires Enabled(c, s, l) && l.Log? && RowInv(c, s, i) && i != s.sweep.pc.id
    ensures RowInv(c, Apply(c, s, l), i)
  {
    var t := Apply(c, s, l);
    assert Claim(t) == Claim(s);
    if l.dbOk {
      var e := LogRow(s.sweep.pc.id, Stamp(s.clock), s.sweep.pc.ok);
      AppendCounts(s.tables.log, e, i);
      AppendKeepsLast(s.tables.log, e, i, s.tables.outbox[i].scheduledAt);
    }
    RowFrame(c, s, t, i);
  }

  lemma LoggedRow(c: Config, s: State, l: Label)
    requires Enabled(c, s, l) && l.Log? && RowInv(c, s, s.sweep.pc.id) && s.sweep.pc.id !in Claim(s)
    ensures RowInv(c, Apply(c, s, l), s.sweep.pc.id)
  {
    var t := Apply(c, s, l);
    assert Claim(t) == Claim(s);
    if l.dbOk {
      AppendCounts(s.tables.log, LogRow(s.sweep.pc.id, Stamp(s.clock), s.sweep.pc.ok), s.sweep.pc.id);
    }
  }

  lemma RetryFetchInv(c: Config, s: State)
    requires Inv(c, s) && Enabled(c, s, RetryFetch)
    ensures Inv(c, Apply(c, s, RetryFetch))
  {
    var t := Apply(c, s, RetryFetch);
    assert Claim(t) == Claim(s);
    RetryFetchItems(c, s);
    forall i | 0 <= i < |t.hist| ensures RowInv(c, t, i) {
      assert RowInv(c, s, i);
      if !Retryable(s.tables.outbox[i], c.maxAttempts) {
        RowFrame(c, s, t, i);
      }
    }
  }

  lemma RetryFetchItems(c: Config, s: State)
    requires |s.hist| == |s.tables.outbox| && ClaimSound(c, s) && s.retry.Resting?
    ensures RetrySound(c, Apply(c, s, RetryFetch))
  {
    var t := Apply(c, s, RetryFetch);
    FailedListIsExact(s.tables, c.maxAttempts, |s.tables.outbox|);
    var items := FailedList(s.tables, c.maxAttempts, |s.tables.outbox|);
    assert RetryClaim(t) == items;
    forall q | q in items ensures Retried(c, t, q) && q.id !in Claim(t) {
      assert Shows(s.tables, c.maxAttempts, q);
      assert Claim(t) == Claim(s);
      assert q.id in Claim(s) ==> Claimed(c, s, q.id);
    }
  }

  lemma RetryResetClaim(c: Config, s: State, l: Label)
    requires ClaimSound(c, s) && RetrySound(c, s) && LogSound(s) && Enabled(c, s, l) && l.RetryReset?
    ensures var t := Apply(c, s, l); ClaimSound(c, t) && RetrySound(c, t) && LogSound(t)
    ensures Retried(c, s, s.retry.items[0]) && Claim(Apply(c, s, l)) == Claim(s)
  {
    var t := Apply(c, s, l);
    var q := s.retry.items[0];
    assert Claim(t) == Claim(s) && RetryClaim(t) == RetryClaim(s)[1..];
    assert q in RetryClaim(s);
    forall j | j in Claim(t) ensures Claimed(c, t, j) {
      assert Claimed(c, s, j);
    }
    forall p | p in RetryClaim(t) ensures Retried(c, t, p) && p.id !in Claim(t) {
      assert p in RetryClaim(s) && Retried(c, s, p);
    }
  }

  lemma RetryResetRow(c: Config, s: State, l: Label, i: nat)
    requires Enabled(c, s, l) && l.RetryReset? && RowInv(c, s, i)
    requires Retried(c, s, s.retry.items[0]) && s.retry.now <= s.clock
    ensures RowInv(c, Apply(c, s, l), i)
  {
    assert Claim(Apply(c, s, l)) == Claim(s);
    if i != s.retry.items[0].id {
      RowFrame(c, s, Apply(c, s, l), i);
    }
  }

  lemma RetryResetInv(c: Config, s: State, l: Label)
    requires Inv(c, s) && Enabled(c, s, l) && l.RetryReset?
    ensures Inv(c, Apply(c, s, l))
  {
    RetryResetClaim(c, s, l);
    forall i | 0 <= i < |s.hist| ensures RowInv(c, Apply(c, s, l), i) {
      RetryResetRow(c, s, l, i);
    }
  }

  lemma CancelledRowInv(c: Config, s: State, l: Label, i: nat)
    requires RowInv(c, s, i) && Enabled(c, s, l) && l.Cancel? && KnownRow(Apply(c, s, l), i)
    ensures RowInv(c, Apply(c, s, l), i)
  {
    var t := Apply(c, s, l);
    assert Claim(t) == Claim(s);
    assert t.tables.outbox[i] == s.tables.outbox[i] || t.tables.outbox[i] == s.tables.outbox[i].(status := Cancelled);
  }

  lemma CancelInv(c: Config, s: State, l: Label)
    requires Inv(c, s) && Enabled(c, s, l) && l.Cancel?
    ensures Inv(c, Apply(c, s, l))
  {
    var t := Apply(c, s, l);
    assert Claim(t) == Claim(s);
    forall i | 0 <= i < |t.hist| ensures RowInv(c, t, i) {
      CancelledRowInv(c, s, l, i);
    }
  }

  lemma CrashInv(c: Config, s: State)
    requires Inv(c, s)
    ensures Inv(c, Apply(c, s, Crash))
  {
    forall i | 0 <= i < |s.hist| ensures RowInv(c, Apply(c, s, Crash), i) {
      CrashRow(c, s, i);
    }
  }

  lemma CrashRow(c: Config, s: State, i: nat)
    requires RowInv(c, s, i)
    ensures RowInv(c, Apply(c, s, Crash), i)
  {
  }

  lemma UnknownHasNoLog(s: State, id: nat)
    requires LogSound(s) && id >= |s.tables.outbox|
    ensures CountLog(s.tables.log, id) == 0
  {
    NoLog(s.tables.log, id);
  }

  lemma {:induction false} NoLog(log: seq<LogRow>, id: nat)
    requires forall k :: 0 <= k < |log| ==> log[k].outboxId != id
    ensures CountLog(log, id) == 0
  {
    if log != [] {
      NoLog(log[..|log| - 1], id);
    }
  }
}
