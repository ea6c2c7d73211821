/** Delivery terminates: a measure over the outbox that no step raises and every finished
    attempt and every rescheduling lowers. */
module DeliveryProgress {
  import opened Outbox
  import opened Delivery
  import opened DeliverySafety

  /** Updates that a row can still go through. */
  ghost function Potential(c: Config, s: State, i: nat): int
    requires i < |s.tables.outbox|
  {
    var r := s.tables.outbox[i];
    match r.status
    case Sent => 0
    case Pending => 2 * (Limit(c) - r.attempts)
    case Failed => 2 * (Limit(c) - r.attempts) + 1
    case Cancelled => 2 * (Limit(c) - r.attempts) + One(InRetry(s, i))
  }

  ghost function TotalPotential(c: Config, s: State, n: nat): int
    requires n <= |s.tables.outbox|
  {
    if n == 0 then 0 else TotalPotential(c, s, n - 1) + Potential(c, s, n - 1)
  }

  /** A finished delivery attempt, or a rescheduling, of row i. */
  ghost predicate Advances(s: State, l: Label, i: nat) {
    || (l == Mark(true) && Current(s, i))
    || (l == RetryReset(true) && s.retry.Rescheduling? && s.retry.items != [] && s.retry.items[0].id == i)
  }

  lemma InRetryRow(c: Config, s: State, i: nat)
    requires Inv(c, s)
    ensures InRetry(s, i) ==>
              i < |s.tables.outbox| && s.tables.outbox[i].status in {Failed, Cancelled} && i !in Claim(s)
  {
    if InRetry(s, i) {
      var k :| 0 <= k < |RetryClaim(s)| && RetryClaim(s)[k].id == i;
      assert RetryClaim(s)[k] in RetryClaim(s) && Retried(c, s, RetryClaim(s)[k]);
    }
  }

  lemma RetryClaimStep(c: Config, s: State, l: Label, t: State)
    requires Follows(c, s, l, t) && !l.RetryFetch?
    ensures RetryClaim(t) == RetryClaim(s) || RetryClaim(t) == []
            || (RetryClaim(s) != [] && RetryClaim(t) == RetryClaim(s)[1..])
  {
  }

  lemma InRetryShrinks(s: State, t: State, i: nat)
    requires RetryClaim(t) == RetryClaim(s) || RetryClaim(t) == []
             || (RetryClaim(s) != [] && RetryClaim(t) == RetryClaim(s)[1..])
    requires InRetry(t, i)
    ensures InRetry(s, i)
  {
    var k :| 0 <= k < |RetryClaim(t)| && RetryClaim(t)[k].id == i;
    var j := if RetryClaim(t) == RetryClaim(s) then k else k + 1;
    assert RetryClaim(s)[j].id == i;
  }

  lemma ResetLeavesRetry(c: Config, s: State, l: Label, t: State, i: nat)
    requires Inv(c, s) && Follows(c, s, l, t) && l.RetryReset? && s.retry.items[0].id == i
    ensures InRetry(s, i) && !InRetry(t, i)
  {
    assert RetryClaim(t) == RetryClaim(s)[1..] && RetryClaim(s)[0].id == i;
  }

  lemma ListedRowFailed(t: Tables, maxAttempts: int, items: seq<RetryItem>, k: nat)
    requires items == FailedList(t, maxAttempts, |t.outbox|) && k < |items|
    ensures items[k].id < |t.outbox| && t.outbox[items[k].id].status == Failed
  {
    FailedListIsExact(t, maxAttempts, |t.outbox|);
    assert items[k] in items && Shows(t, maxAttempts, items[k]);
  }

  lemma FetchedRowsFailed(c: Config, s: State, t: State, i: nat)
    requires Follows(c, s, RetryFetch, t) && InRetry(t, i)
    ensures i < |s.tables.outbox| && s.tables.outbox[i].status == Failed
  {
    var k :| 0 <= k < |RetryClaim(t)| && RetryClaim(t)[k].id == i;
    ListedRowFailed(s.tables, c.maxAttempts, RetryClaim(t), k);
  }

  /** Row-level effect of a step that is not an insertion. */
  lemma RowStep(c: Config, s: State, l: Label, t: State, i: nat)
    requires Inv(c, s) && Follows(c, s, l, t) && i < |s.tables.outbox|
    ensures i < |t.tables.outbox|
    ensures
      var r, r' := s.tables.outbox[i], t.tables.outbox[i];
      if Advances(s, l, i) && l.Mark? then
        && r.status in {Pending, Cancelled} && i in Claim(s) && r.attempts < Limit(c)
        && r' == r.(status := if s.sweep.pc.SentOk? then Sent else Failed, attempts := r.attempts + 1)
      else if Advances(s, l, i) then r' == r.(status := Pending)
      else r' == r || (l.Cancel? && r.status in {Pending, Failed} && r' == r.(status := Cancelled))
  {
    if l.Mark? && Current(s, i) {
      assert i == Claim(s)[0] && Claimed(c, s, i);
    }
  }

  /** No step raises a row's potential; finishing an attempt or rescheduling lowers it. */
  lemma PotentialStep(c: Config, s: State, l: Label, t: State, i: nat)
    requires Inv(c, s) && Follows(c, s, l, t) && i < |s.tables.outbox|
    ensures i < |t.tables.outbox| && Potential(c, t, i) + One(Advances(s, l, i)) <= Potential(c, s, i)
  {
    RowStep(c, s, l, t, i);
    InRetryRow(c, s, i);
    assert RowInv(c, s, i);
    if l.RetryFetch? {
      if InRetry(t, i) {
        FetchedRowsFailed(c, s, t, i);
      }
    } else if InRetry(t, i) {
      RetryClaimStep(c, s, l, t);
      InRetryShrinks(s, t, i);
    }
    if Advances(s, l, i) && l.RetryReset? {
      ResetLeavesRetry(c, s, l, t, i);
    }
  }

  lemma RowsStay(c: Config, s: State, l: Label, t: State)
    requires Follows(c, s, l, t)
    ensures |s.tables.outbox| <= |t.tables.outbox|
  {
  }

  lemma TotalSnoc(c: Config, s: State, n: nat)
    requires n < |s.tables.outbox|
    ensures TotalPotential(c, s, n + 1) == TotalPotential(c, s, n) + Potential(c, s, n)
  {
  }

  lemma {:induction false} TotalStep(c: Config, s: State, l: Label, t: State, n: nat)
    requires Inv(c, s) && Follows(c, s, l, t) && n <= |s.tables.outbox|
    ensures n <= |t.tables.outbox|
    ensures TotalPotential(c, t, n) <= TotalPotential(c, s, n)
    ensures forall i :: 0 <= i < n && Advances(s, l, i) ==> TotalPotential(c, t, n) < TotalPotential(c, s, n)
  {
    RowsStay(c, s, l, t);
    if n > 0 {
      TotalStep(c, s, l, t, n - 1);
      PotentialStep(c, s, l, t, n - 1);
      TotalSnoc(c, s, n - 1);
      TotalSnoc(c, t, n - 1);
    }
  }

  /** Finished attempts and reschedulings in the first n steps. */
  ghost function Advanced(ls: seq<Label>, n: nat): nat
    requires n <= |ls|
  {
    if n == 0 then 0 else Advanced(ls, n - 1) + One(ls[n - 1] == Mark(true) || ls[n - 1] == RetryReset(true))
  }

  lemma AdvancesSome(c: Config, s: State, l: Label)
    requires Inv(c, s) && Enabled(c, s, l) && (l == Mark(true) || l == RetryReset(true))
    ensures exists i :: 0 <= i < |s.tables.outbox| && Advances(s, l, i)
  {
    if l.Mark? {
      assert Advances(s, l, s.sweep.pc.id);
    } else {
      assert s.retry.items[0] in RetryClaim(s) && Retried(c, s, s.retry.items[0]);
      assert Advances(s, l, s.retry.items[0].id);
    }
  }

  /** Potential left, less what the rows started with. */
  ghost function Spent(c: Config, s: State): int {
    TotalPotential(c, s, |s.tables.outbox|) - 2 * Limit(c) * |s.tables.outbox|
  }

  lemma OneMore(k: nat, n: nat)
    ensures k * (n + 1) == k * n + k
  {
  }

  lemma SpentStep(c: Config, s: State, l: Label, t: State)
    requires Inv(c, s) && Follows(c, s, l, t)
    ensures One(l == Mark(true) || l == RetryReset(true)) + Spent(c, t) <= Spent(c, s)
  {
    var n := |s.tables.outbox|;
    TotalStep(c, s, l, t, n);
    if l == Mark(true) || l == RetryReset(true) {
      AdvancesSome(c, s, l);
    }
    if l.Enqueue? {
      assert |t.tables.outbox| == n + 1;
      assert TotalPotential(c, t, n + 1) == TotalPotential(c, t, n) + 2 * Limit(c);
      OneMore(2 * Limit(c), n);
    } else {
      assert |t.tables.outbox| == n;
    }
  }

  lemma InitUnspent(c: Config, s: State)
    requires Init(s)
    ensures Spent(c, s) == 0
  {
  }

  lemma SpentAt(c: Config, ss: seq<State>, ls: seq<Label>, n: nat)
    requires IsBoot(c, ss, ls) && n < |ls|
    ensures One(ls[n] == Mark(true) || ls[n] == RetryReset(true)) + Spent(c, ss[n + 1]) <= Spent(c, ss[n])
  {
    Reachable(c, ss, ls, n);
    assert StepAt(c, ss, ls, n);
    SpentStep(c, ss[n], ls[n], ss[n + 1]);
  }

  lemma {:induction false} AdvancedIsSpent(c: Config, ss: seq<State>, ls: seq<Label>, n: nat)
    requires IsBoot(c, ss, ls) && n <= |ls|
    ensures Advanced(ls, n) + Spent(c, ss[n]) <= 0
  {
    if n == 0 {
      InitUnspent(c, ss[0]);
    } else {
      AdvancedIsSpent(c, ss, ls, n - 1);
      SpentAt(c, ss, ls, n - 1);
    }
  }

  lemma {:induction false} NonNegative(c: Config, s: State, n: nat)
    requires Inv(c, s) && n <= |s.tables.outbox|
    ensures TotalPotential(c, s, n) >= 0
  {
    if n > 0 {
      NonNegative(c, s, n - 1);
      assert RowInv(c, s, n - 1);
    }
  }

  /** In every run, faults and crashes included, n outbox rows see at most 2*M*n finished attempts
      and reschedulings: what was spent plus what is left never exceeds it. */
  lemma DeliveryTerminates(c: Config, ss: seq<State>, ls: seq<Label>, n: nat)
    requires IsBoot(c, ss, ls) && n <= |ls|
    ensures 0 <= TotalPotential(c, ss[n], |ss[n].tables.outbox|)
    ensures Advanced(ls, n) + TotalPotential(c, ss[n], |ss[n].tables.outbox|) <= 2 * Limit(c) * |ss[n].tables.outbox|
  {
    AdvancedIsSpent(c, ss, ls, n);
    Reachable(c, ss, ls, n);
    NonNegative(c, ss[n], |ss[n].tables.outbox|);
  }

  // ------------------------------------------------------------------ Send calls

  function SumAttempts(rows: seq<Row>): nat {
    if rows == [] then 0 else SumAttempts(rows[..|rows| - 1]) + rows[|rows| - 1].attempts
  }

  lemma {:induction false} SumSame(a: seq<Row>, b: seq<Row>)
    requires |a| == |b| && forall i :: 0 <= i < |a| ==> a[i].attempts == b[i].attempts
    ensures SumAttempts(a) == SumAttempts(b)
  {
    if a != [] {
      SumSame(a[..|a| - 1], b[..|b| - 1]);
    }
  }

  lemma {:induction false} SumUpdate(a: seq<Row>, b: seq<Row>, id: nat)
    requires |a| == |b| && id < |a| && b[id].attempts == a[id].attempts + 1
    requires forall i :: 0 <= i < |a| && i != id ==> a[i].attempts == b[i].attempts
    ensures SumAttempts(b) == SumAttempts(a) + 1
  {
    if id == |a| - 1 {
      SumSame(a[..|a| - 1], b[..|b| - 1]);
    } else {
      SumUpdate(a[..|a| - 1], b[..|b| - 1], id);
    }
  }

  /** The sum stays under the limit, strictly when some row has an attempt left. */
  lemma {:induction false} SumBound(rows: seq<Row>, limit: nat)
    requires forall i :: 0 <= i < |rows| ==> rows[i].attempts <= limit
    ensures SumAttempts(rows) <= limit * |rows|
    ensures (exists i :: 0 <= i < |rows| && rows[i].attempts < limit) ==> SumAttempts(rows) < limit * |rows|
  {
    if rows != [] {
      var front := rows[..|rows| - 1];
      SumBound(front, limit);
      assert limit * |rows| == limit * |front| + limit;
      if i :| 0 <= i < |rows| && rows[i].attempts < limit {
        assert i < |front| ==> front[i].attempts < limit;
      }
    }
  }

  predicate InFlight(s: State) {
    s.sweep.Held? && (s.sweep.pc.SentOk? || s.sweep.pc.SendBad?)
  }

  function SendCalls(ls: seq<Label>, n: nat): nat
    requires n <= |ls|
  {
    if n == 0 then 0 else SendCalls(ls, n - 1) + One(ls[n - 1].Send?)
  }

  function Decisions(ls: seq<Label>, n: nat): nat
    requires n <= |ls|
  {
    if n == 0 then 0 else Decisions(ls, n - 1) + One(ls[n - 1].Send? || ls[n - 1].NoSender?)
  }

  /** Attempts counted, plus the one whose outcome is not yet marked. */
  function Tried(s: State): nat {
    SumAttempts(s.tables.outbox) + One(InFlight(s))
  }

  lemma SumStep(c: Config, s: State, l: Label, t: State)
    requires Follows(c, s, l, t)
    requires l != Mark(false) && !l.Crash?
    ensures Tried(t) == Tried(s) + One(l.Send? || l.NoSender?)
  {
    if l.Enqueue? {
      assert t.tables.outbox[..|s.tables.outbox|] == s.tables.outbox;
    } else if l.Mark? {
      SumUpdate(s.tables.outbox, t.tables.outbox, s.sweep.pc.id);
    } else {
      SumSame(s.tables.outbox, t.tables.outbox);
    }
  }

  lemma TriedAt(c: Config, ss: seq<State>, ls: seq<Label>, n: nat)
    requires IsBoot(c, ss, ls) && Faultless(ls) && n < |ls|
    ensures Tried(ss[n + 1]) == Tried(ss[n]) + One(ls[n].Send? || ls[n].NoSender?)
  {
    Reachable(c, ss, ls, n);
    assert StepAt(c, ss, ls, n);
    SumStep(c, ss[n], ls[n], ss[n + 1]);
  }

  lemma {:induction false} DecisionsAreAttempts(c: Config, ss: seq<State>, ls: seq<Label>, n: nat)
    requires IsBoot(c, ss, ls) && Faultless(ls) && n <= |ls|
    ensures Decisions(ls, n) == Tried(ss[n])
    ensures SendCalls(ls, n) <= Decisions(ls, n)
  {
    if n > 0 {
      DecisionsAreAttempts(c, ss, ls, n - 1);
      TriedAt(c, ss, ls, n - 1);
    }
  }

  /** Without faults, n outbox rows cause at most n*M calls of Send, over any run. */
  lemma SendCallsBounded(c: Config, ss: seq<State>, ls: seq<Label>, n: nat)
    requires IsBoot(c, ss, ls) && Faultless(ls) && n <= |ls|
    ensures SendCalls(ls, n) <= Limit(c) * |ss[n].tables.outbox|
  {
    DecisionsAreAttempts(c, ss, ls, n);
    Reachable(c, ss, ls, n);
    var rows := ss[n].tables.outbox;
    forall i | 0 <= i < |rows| ensures rows[i].attempts <= Limit(c) {
      assert RowInv(c, ss[n], i);
    }
    if InFlight(ss[n]) {
      assert ss[n].sweep.pc.id == Claim(ss[n])[0];
      assert Claimed(c, ss[n], ss[n].sweep.pc.id);
    }
    SumBound(rows, Limit(c));
  }
}
