/** scan, runWorker and backoff as the code they are, over tables that other goroutines change between critical
  sections. The methods extend a run of Manager's machine, so what holds of every such run holds for them.
  (internal/modem/manager.go) */
module ManagerWork {
  import opened Interleaving
  import M = Manager

  datatype Actor = TheScan | TheWorker(w: nat)

  predicate Of(a: Actor, l: M.Label) {
    match a
    case TheScan => l.Discover? || l.Purge? || l.Visit? || l.Spawn? || l.EndScan?
    case TheWorker(w) => (l.InitEnds? || l.Clear? || l.Backoff? || l.RunEnds? || l.Leave?) && l.w == w
  }

  lemma OthersKeepScan(interval: int, s: M.State, l: M.Label)
    requires M.Enabled(s, l) && !Of(TheScan, l)
    ensures M.Apply(interval, s, l).scan == s.scan
  {
  }

  lemma OthersKeepWorker(interval: int, s: M.State, l: M.Label, w: nat)
    requires M.Inv(s) && w in s.workers && M.Enabled(s, l) && !Of(TheWorker(w), l)
    ensures var t := M.Apply(interval, s, l); w in t.workers && t.workers[w] == s.workers[w]
  {
  }

  /** So WorkersRun promises no more than any number of such steps keeps. */
  lemma {:induction false} OthersRunKeepsScan(interval: int, ss: seq<M.State>, ls: seq<M.Label>, i: nat, j: nat)
    requires M.IsRun(interval, ss, ls) && i <= j <= |ls| && forall k :: i <= k < j ==> !Of(TheScan, ls[k])
    ensures ss[j].scan == ss[i].scan
    decreases j
  {
    if i < j {
      OthersRunKeepsScan(interval, ss, ls, i, j - 1);
      assert M.StepAt(interval, ss, ls, j - 1);
      OthersKeepScan(interval, ss[j - 1], ls[j - 1]);
    }
  }

  /** And neither does OthersRun. */
  lemma {:induction false} OthersRunKeepsWorker(interval: int, ss: seq<M.State>, ls: seq<M.Label>, w: nat, i: nat,
                                                j: nat)
    requires M.IsRun(interval, ss, ls) && i <= j <= |ls| && w in ss[i].workers
    requires forall k :: i <= k < j ==> !Of(TheWorker(w), ls[k])
    ensures w in ss[j].workers && ss[j].workers[w] == ss[i].workers[w]
    decreases j
  {
    if i < j {
      OthersRunKeepsWorker(interval, ss, ls, w, i, j - 1);
      M.RunInv(interval, ss, ls, j - 1);
      assert M.StepAt(interval, ss, ls, j - 1);
      OthersKeepWorker(interval, ss[j - 1], ls[j - 1], w);
    }
  }

  /** The candidates that scans have visited since step `from`, in order. */
  ghost function Visited(ss: seq<M.State>, ls: seq<M.Label>, from: nat): seq<string>
    requires from <= |ls| && |ss| == |ls| + 1
    decreases |ls|
  {
    if |ls| == from then []
    else
      var n := |ls| - 1;
      Visited(ss[..n + 1], ls[..n], from) + if ls[n].Visit? then NextCandidate(ss[n]) else []
  }

  ghost function NextCandidate(s: M.State): seq<string> {
    if s.scan.Visiting? && s.scan.cands != [] then [s.scan.cands[0]] else []
  }

  lemma {:induction false} VisitedOthers(ss: seq<M.State>, ls: seq<M.Label>, ss': seq<M.State>, ls': seq<M.Label>,
                                         from: nat)
    requires |ss| == |ls| + 1 && |ss'| == |ls'| + 1
    requires from <= |ls| && ls <= ls' && ss <= ss' && forall k :: |ls| <= k < |ls'| ==> !ls'[k].Visit?
    ensures Visited(ss', ls', from) == Visited(ss, ls, from)
    decreases |ls'|
  {
    if |ls| < |ls'| {
      VisitedOthers(ss, ls, ss'[..|ss'| - 1], ls'[..|ls'| - 1], from);
    } else {
      assert ls == ls' && ss == ss';
    }
  }

  lemma VisitedOne(ss: seq<M.State>, ls: seq<M.Label>, t: M.State, from: nat)
    requires from <= |ls| && |ss| == |ls| + 1
    ensures Visited(ss + [t], ls + [M.Visit], from) == Visited(ss, ls, from) + NextCandidate(ss[|ls|])
  {
    assert (ls + [M.Visit])[..|ls|] == ls && (ss + [t])[..|ls| + 1] == ss;
  }

  class Manager {
    const interval: int
    var running: map<string, bool>   // paths that have a worker
    var fails: map<string, nat>      // failed inits in a row, by path
    var retryAt: map<string, int>    // when a path may be tried again
    var clock: int

    /** The run so far: what every goroutine did. */
    ghost var states: seq<M.State>
    ghost var labels: seq<M.Label>

    ghost predicate Valid()
      reads this
    {
      && M.IsRun(interval, states, labels) && Matches(states[|labels|])
      && forall p :: p in running ==> running[p]
    }

    ghost predicate Matches(s: M.State)
      reads this
    {
      s.running == running.Keys && s.fails == fails && s.retryAt == retryAt && s.clock == clock
    }

    /** Worker w of the path is at this stage. */
    ghost predicate At(w: nat, usb: string, stage: M.Stage)
      requires Valid()
      reads this
    {
      w in Now().workers && Now().workers[w] == M.Worker(usb, stage)
    }

    ghost function Now(): M.State
      requires Valid()
      reads this
    {
      states[|labels|]
    }

    /** The run has only been extended. */
    twostate predicate Extends()
      reads this
    {
      old(labels) <= labels && old(states) <= states
    }

    constructor (interval: int, clock: int)
      ensures Valid() && this.interval == interval && labels == []
    {
      this.interval, this.clock := interval, clock;
      running, fails, retryAt := map[], map[], map[];
      states, labels := [M.State({}, map[], map[], M.Resting, map[], 0, clock)], [];
    }

    ghost method Take(l: M.Label)
      requires M.IsRun(interval, states, labels) && M.Enabled(states[|labels|], l)
      modifies this`states, this`labels
      ensures M.IsRun(interval, states, labels)
      ensures labels == old(labels) + [l] && states == old(states) + [M.Apply(interval, old(states[|labels|]), l)]
    {
      var next := M.Apply(interval, states[|labels|], l);
      var before, done := states, labels;
      states, labels := states + [next], labels + [l];
      forall k | 0 <= k < |labels| ensures M.StepAt(interval, states, labels, k) {
        if k < |done| {
          assert M.StepAt(interval, before, done, k);
        }
      }
    }

    /** Any number of steps of workers and of the clock. The body takes none; callers know only the contract, so they
        are proved against every interference it allows. */
    method WorkersRun()
      requires Valid()
      modifies this
      ensures Valid() && Extends() && Now().scan == old(Now()).scan
      ensures forall k :: |old(labels)| <= k < |labels| ==> !Of(TheScan, labels[k])
    {
    }

    /** The same beside worker w: steps of the scan, of other workers and of the clock. */
    method OthersRun(ghost w: nat)
      requires Valid() && w in Now().workers
      modifies this
      ensures Valid() && Extends() && w in Now().workers && Now().workers[w] == old(Now()).workers[w]
      ensures forall k :: |old(labels)| <= k < |labels| ==> !Of(TheWorker(w), labels[k])
    {
    }

    /** The first critical section of scan. */
    method ForgetAbsent(cands: seq<string>)
      requires Valid() && Now().scan == M.Purging(cands)
      modifies this
      ensures Valid() && Extends() && Now().scan == M.Visiting(cands)
      ensures fails == M.Only(old(fails), cands) && labels == old(labels) + [M.Purge]
    {
      var left := fails.Keys;
      while left != {}
        invariant left <= old(fails).Keys
        invariant fails == map p | p in old(fails) && (p in left || p in cands) :: old(fails)[p]
        invariant retryAt == old(retryAt) - (old(fails).Keys - fails.Keys)
        invariant running == old(running) && clock == old(clock) && states == old(states) && labels == old(labels)
      {
        var usb :| usb in left;
        if usb !in cands {
          fails := fails - {usb};
          retryAt := retryAt - {usb};
        }
        left := left - {usb};
      }
      assert fails == M.Only(old(fails), cands);
      Take(M.Purge);
    }

    /** The critical section for one candidate; a worker's goroutine starts unless it is passed over. */
    method VisitCandidate(path: string, ghost rest: seq<string>, ghost from: nat)
      requires Valid() && Now().scan == M.Visiting([path] + rest) && from <= |labels|
      modifies this
      ensures Valid() && Extends() && Now().scan == M.Visiting(rest)
      ensures Visited(states, labels, from) == Visited(old(states), old(labels), from) + [path]
    {
      var skip := Mark(path, rest);
      VisitedOne(old(states), old(labels), states[|labels|], from);
      ghost var ss, ls := states, labels;
      if !skip {
        Start(path, rest);
      }
      VisitedOthers(ss, ls, states, labels, from);
    }

    /** The second critical section of scan: a candidate that is not passed over is marked as running. */
    method Mark(path: string, ghost rest: seq<string>) returns (skip: bool)
      requires Valid() && Now().scan == M.Visiting([path] + rest)
      modifies this
      ensures Valid() && labels == old(labels) + [M.Visit] && states == old(states) + [Now()]
      ensures skip <==> path in old(running) || (path in retryAt && clock < retryAt[path])
      ensures Now().scan == if skip then M.Visiting(rest) else M.Starting(path, rest)
    {
      skip := (path in running && running[path]) || (path in retryAt && clock < retryAt[path]);
      Take(M.Visit);
      if !skip {
        running := running[path := true];
      }
    }

    /** The worker's goroutine starts. */
    method Start(path: string, ghost rest: seq<string>)
      requires Valid() && Now().scan == M.Starting(path, rest)
      modifies this
      ensures Valid() && Extends() && Now().scan == M.Visiting(rest)
      ensures forall k :: |old(labels)| <= k < |labels| ==> !labels[k].Visit?
    {
      WorkersRun();
      Take(M.Spawn);
    }

    /** scan, for the candidates that Discover returned: a whole scan of the machine, which visits each of them, in
        order. With an error it does nothing. */
    method Scan(cands: seq<string>, ok: bool)
      requires Valid() && Now().scan.Resting?
      modifies this
      ensures Valid() && Extends() && Now().scan.Resting?
      ensures !ok ==> labels == old(labels)
      ensures ok ==> M.Discover(cands) in labels[|old(labels)|..] && Visited(states, labels, |old(labels)|) == cands
    {
      if !ok {
        return;
      }
      Begin(cands);
      VisitAll(cands, |old(labels)|);
      ghost var ss, ls := states, labels;
      Take(M.EndScan);
      VisitedOthers(ss, ls, states, labels, |old(labels)|);
      assert labels[|old(labels)|] == M.Discover(cands);
    }

    method Begin(cands: seq<string>)
      requires Valid() && Now().scan.Resting?
      modifies this
      ensures Valid() && Extends() && Now().scan == M.Visiting(cands) && Visited(states, labels, |old(labels)|) == []
      ensures |labels| > |old(labels)| && labels[|old(labels)|] == M.Discover(cands)
    {
      Take(M.Discover(cands));
      WorkersRun();
      ForgetAbsent(cands);
      VisitedOthers(old(states), old(labels), states, labels, |old(labels)|);
    }

    method VisitAll(cands: seq<string>, ghost from: nat)
      requires Valid() && Now().scan == M.Visiting(cands) && from <= |labels| && Visited(states, labels, from) == []
      modifies this
      ensures Valid() && Extends() && Now().scan == M.Visiting([]) && Visited(states, labels, from) == cands
    {
      var i := 0;
      while i < |cands|
        invariant 0 <= i <= |cands|
        invariant Valid() && Extends() && Now().scan == M.Visiting(cands[i..])
        invariant Visited(states, labels, from) == cands[..i]
      {
        ghost var ss, ls := states, labels;
        WorkersRun();
        VisitedOthers(ss, ls, states, labels, from);
        assert cands[i..] == [cands[i]] + cands[i + 1..] && cands[..i + 1] == cands[..i] + [cands[i]];
        VisitCandidate(cands[i], cands[i + 1..], from);
        i := i + 1;
      }
      assert cands[..i] == cands;
    }

    /** backoff: records the failure and returns the wait. */
    method RecordFailure(ghost w: nat, usb: string) returns (delay: int)
      requires Valid() && At(w, usb, M.Failing)
      modifies this
      ensures Valid() && Extends() && At(w, usb, M.Leaving) && labels == old(labels) + [M.Backoff(w)]
      ensures usb in fails && fails[usb] == (if usb in old(fails) then old(fails)[usb] else 0) + 1
      ensures delay == M.RetryDelay(interval, fails[usb])
      ensures retryAt == old(retryAt)[usb := clock + delay] && fails == old(fails)[usb := fails[usb]]
    {
      var n := (if usb in fails then fails[usb] else 0) + 1;
      fails := fails[usb := n];
      delay := M.DelayAfter(interval, n);
      retryAt := retryAt[usb := clock + delay];
      Take(M.Backoff(w));
    }

    method RecordSuccess(ghost w: nat, usb: string)
      requires Valid() && At(w, usb, M.Clearing)
      modifies this
      ensures Valid() && Extends() && At(w, usb, M.Running) && labels == old(labels) + [M.Clear(w)]
      ensures usb !in fails && usb !in retryAt
    {
      fails := fails - {usb};
      retryAt := retryAt - {usb};
      Take(M.Clear(w));
    }

    /** Others act. None of their steps is one of worker w's. */
    method Pause(ghost w: nat, ghost from: nat)
      requires Valid() && w in Now().workers && from <= |labels|
      modifies this
      ensures Valid() && Extends() && w in Now().workers && Now().workers[w] == old(Now()).workers[w]
      ensures Own(Of, TheWorker(w), labels, from) == Own(Of, TheWorker(w), old(labels), from)
    {
      OthersRun(w);
      OwnStays(Of, TheWorker(w), old(labels), labels, from);
    }

    /** One step of worker w's, beside the critical sections. */
    ghost method TakeOwn(w: nat, usb: string, l: M.Label, stage: M.Stage, from: nat)
      requires Valid() && M.Enabled(Now(), l) && from <= |labels| && Of(TheWorker(w), l)
      requires w in Now().workers && Now().workers[w].path == usb
      requires l == M.InitEnds(w, stage) || (l == M.RunEnds(w) && stage == M.Leaving)
      modifies this`states, this`labels
      ensures Valid() && Extends() && At(w, usb, stage)
      ensures Own(Of, TheWorker(w), labels, from) == Own(Of, TheWorker(w), old(labels), from) + [l]
    {
      Take(l);
      OwnLast(Of, TheWorker(w), old(labels), l, from);
    }

    /** What worker w does of its own: its Init ends; a failure is recorded unless the context was cancelled; a success
        is recorded, and then the worker runs until its port fails or the context is cancelled. */
    static function WorkerSteps(w: nat, initOk: bool, cancelled: bool): seq<M.Label> {
      if initOk then [M.InitEnds(w, M.Clearing), M.Clear(w), M.RunEnds(w)]
      else if cancelled then [M.InitEnds(w, M.Leaving)]
      else [M.InitEnds(w, M.Failing), M.Backoff(w)]
    }

    /** runWorker. Whether Init succeeds, and whether it fails because the context was cancelled, is up to the modem
        and the caller. */
    method RunWorker(ghost w: nat, usb: string, initOk: bool, cancelled: bool)
      requires Valid() && At(w, usb, M.Initing)
      modifies this
      ensures Valid() && Extends() && At(w, usb, M.Leaving)
      ensures Own(Of, TheWorker(w), labels, |old(labels)|) == WorkerSteps(w, initOk, cancelled)
    {
      ghost var from := |labels|;
      Pause(w, from);
      if !initOk {
        if cancelled {
          TakeOwn(w, usb, M.InitEnds(w, M.Leaving), M.Leaving, from);
        } else {
          Fail(w, usb, from);
        }
        return;
      }
      Succeed(w, usb, from);
      Pause(w, from);
      TakeOwn(w, usb, M.RunEnds(w), M.Leaving, from);
    }

    method Fail(ghost w: nat, usb: string, ghost from: nat)
      requires Valid() && At(w, usb, M.Initing) && from <= |labels|
      modifies this
      ensures Valid() && Extends() && At(w, usb, M.Leaving)
      ensures Own(Of, TheWorker(w), labels, from)
              == Own(Of, TheWorker(w), old(labels), from) + [M.InitEnds(w, M.Failing)] + [M.Backoff(w)]
    {
      TakeOwn(w, usb, M.InitEnds(w, M.Failing), M.Failing, from);
      Pause(w, from);
      ghost var before := labels;
      var delay := RecordFailure(w, usb);
      OwnLast(Of, TheWorker(w), before, M.Backoff(w), from);
    }

    method Succeed(ghost w: nat, usb: string, ghost from: nat)
      requires Valid() && At(w, usb, M.Initing) && from <= |labels|
      modifies this
      ensures Valid() && Extends() && At(w, usb, M.Running)
      ensures Own(Of, TheWorker(w), labels, from)
              == Own(Of, TheWorker(w), old(labels), from) + [M.InitEnds(w, M.Clearing)] + [M.Clear(w)]
    {
      TakeOwn(w, usb, M.InitEnds(w, M.Clearing), M.Clearing, from);
      Pause(w, from);
      ghost var before := labels;
      RecordSuccess(w, usb);
      OwnLast(Of, TheWorker(w), before, M.Clear(w), from);
    }

    /** The goroutine that scan starts: the worker, and then its path is unmarked. */
    method WorkerGoroutine(ghost w: nat, usb: string, initOk: bool, cancelled: bool)
      requires Valid() && At(w, usb, M.Initing)
      modifies this
      ensures Valid() && Extends() && w !in Now().workers && usb !in running
      ensures Own(Of, TheWorker(w), labels, |old(labels)|)
              == if initOk then [M.InitEnds(w, M.Clearing), M.Clear(w), M.RunEnds(w), M.Leave(w)]
                 else if cancelled then [M.InitEnds(w, M.Leaving), M.Leave(w)]
                 else [M.InitEnds(w, M.Failing), M.Backoff(w), M.Leave(w)]
    {
      RunWorker(w, usb, initOk, cancelled);
      Pause(w, |old(labels)|);
      ghost var before := labels;
      running := running - {usb};
      Take(M.Leave(w));
      OwnLast(Of, TheWorker(w), before, M.Leave(w), |old(labels)|);
    }
  }
}
