/** The modem manager as a state machine: one scan at a time, and a goroutine per worker, over tables that are touched
  only under the mutex. Each critical section is one atomic step. (internal/modem/manager.go) */
module Manager {
  import opened Backoff

  const MAX_RETRY_DELAY: int := 300 * SECOND

  /** The watch interval that counts: 10 seconds unless a positive one is set. */
  function Base(interval: int): int {
    if interval <= 0 then 10 * SECOND else interval
  }

  /** The documented wait after n failures in a row: the interval, doubled per failure, at most five minutes. */
  function RetryDelay(interval: int, n: nat): int
    requires n >= 1
  {
    Min(Base(interval) * Pow2(n - 1), MAX_RETRY_DELAY)
  }

  /** The loop in backoff. */
  method DelayAfter(interval: int, n: nat) returns (delay: int)
    requires n >= 1
    ensures delay == RetryDelay(interval, n)
  {
    delay := interval;
    if delay <= 0 {
      delay := 10 * SECOND;
    }
    var i := 1;
    while i < n && delay < MAX_RETRY_DELAY
      invariant 1 <= i <= n && delay == Doubled(Base(interval), i - 1)
    {
      delay := delay * 2;
      i := i + 1;
    }
    DoubledGrows(Base(interval), i - 1, n - 1);
    DoubledIsPower(Base(interval), n - 1);
    delay := if delay < MAX_RETRY_DELAY then delay else MAX_RETRY_DELAY;
  }

  // ------------------------------------------------------------------ the machine

  /** Starting: the path is marked as running and its goroutine is about to start. */
  datatype Scan =
    | Resting
    | Purging(cands: seq<string>)
    | Visiting(cands: seq<string>)
    | Starting(path: string, rest: seq<string>)

  /** Initing: in Init; Clearing and Failing: about to record its success or failure; Leaving: about to unmark. */
  datatype Stage = Initing | Clearing | Failing | Running | Leaving

  datatype Worker = Worker(path: string, stage: Stage)

  datatype State = State(
    running: set<string>, fails: map<string, nat>, retryAt: map<string, int>,
    scan: Scan, workers: map<nat, Worker>, next: nat, clock: int)

  datatype Label =
    | Discover(cands: seq<string>)
    | Purge
    | Visit
    | Spawn
    | EndScan
    | InitEnds(w: nat, stage: Stage)
    | Clear(w: nat)
    | Backoff(w: nat)
    | RunEnds(w: nat)
    | Leave(w: nat)
    | Tick(to: int)

  predicate In(s: State, w: nat, stage: Stage) {
    w in s.workers && s.workers[w].stage == stage
  }

  predicate Enabled(s: State, l: Label) {
    match l
    case Discover(_) => s.scan.Resting?
    case Purge => s.scan.Purging?
    case Visit => s.scan.Visiting? && s.scan.cands != []
    case Spawn => s.scan.Starting?
    case EndScan => s.scan.Visiting? && s.scan.cands == []
    case InitEnds(w, stage) => In(s, w, Initing) && stage in {Clearing, Failing, Leaving}   // Leaving: cancelled
    case Clear(w) => In(s, w, Clearing)
    case Backoff(w) => In(s, w, Failing)
    case RunEnds(w) => In(s, w, Running)
    case Leave(w) => In(s, w, Leaving)
    case Tick(to) => s.clock <= to
  }

  /** A candidate is passed over while its worker runs or its wait lasts. */
  predicate Skips(s: State, p: string) {
    p in s.running || (p in s.retryAt && s.clock < s.retryAt[p])
  }

  function Fails(s: State, p: string): nat {
    if p in s.fails then s.fails[p] else 0
  }

  function Stepped(s: State, w: nat, stage: Stage): State
    requires w in s.workers
  {
    s.(workers := s.workers[w := s.workers[w].(stage := stage)])
  }

  function Only<V>(m: map<string, V>, present: seq<string>): map<string, V> {
    map p | p in m && p in present :: m[p]
  }

  function Apply(interval: int, s: State, l: Label): State
    requires Enabled(s, l)
  {
    match l
    case Discover(cands) => s.(scan := Purging(cands))
    case Purge =>
      s.(fails := Only(s.fails, s.scan.cands), retryAt := s.retryAt - (s.fails.Keys - Only(s.fails, s.scan.cands).Keys),
         scan := Visiting(s.scan.cands))
    case Visit =>
      var p, rest := s.scan.cands[0], s.scan.cands[1..];
      if Skips(s, p) then s.(scan := Visiting(rest))
      else s.(running := s.running + {p}, scan := Starting(p, rest))
    case Spawn =>
      s.(workers := s.workers[s.next := Worker(s.scan.path, Initing)], next := s.next + 1,
         scan := Visiting(s.scan.rest))
    case EndScan => s.(scan := Resting)
    case InitEnds(w, stage) => Stepped(s, w, stage)
    case Clear(w) =>
      var p := s.workers[w].path;
      Stepped(s, w, Running).(fails := s.fails - {p}, retryAt := s.retryAt - {p})
    case Backoff(w) =>
      var p := s.workers[w].path;
      var n := Fails(s, p) + 1;
      Stepped(s, w, Leaving).(fails := s.fails[p := n], retryAt := s.retryAt[p := s.clock + RetryDelay(interval, n)])
    case RunEnds(w) => Stepped(s, w, Leaving)
    case Leave(w) => s.(running := s.running - {s.workers[w].path}, workers := s.workers - {w})
    case Tick(to) => s.(clock := to)
  }

  predicate Follows(interval: int, s: State, l: Label, t: State) {
    Enabled(s, l) && t == Apply(interval, s, l)
  }

  predicate StepAt(interval: int, ss: seq<State>, ls: seq<Label>, i: nat)
    requires |ss| == |ls| + 1 && i < |ls|
  {
    Follows(interval, ss[i], ls[i], ss[i + 1])
  }

  predicate Init(s: State) {
    s.running == {} && s.fails == map[] && s.retryAt == map[] && s.scan.Resting? && s.workers == map[] && s.next == 0
  }

  ghost predicate IsRun(interval: int, ss: seq<State>, ls: seq<Label>) {
    && |ss| == |ls| + 1 && Init(ss[0])
    && forall i :: 0 <= i < |ls| ==> StepAt(interval, ss, ls, i)
  }

  // ------------------------------------------------------------------ one worker per path

  ghost predicate HasWorker(s: State, p: string) {
    exists w :: w in s.workers && s.workers[w].path == p
  }

  predicate IsStarting(s: State, p: string) {
    s.scan.Starting? && s.scan.path == p
  }

  ghost predicate OneEach(s: State) {
    && (forall v, w :: v in s.workers && w in s.workers && s.workers[v].path == s.workers[w].path ==> v == w)
    && (forall w :: w in s.workers ==>
          w < s.next && s.workers[w].path in s.running && !IsStarting(s, s.workers[w].path))
    && (s.scan.Starting? ==> s.scan.path in s.running)
  }

  predicate TablesAgree(s: State) {
    && s.fails.Keys == s.retryAt.Keys
    && (forall p :: p in s.fails ==> s.fails[p] >= 1)
  }

  ghost predicate Inv(s: State) {
    && OneEach(s) && TablesAgree(s)
    && (forall p :: p in s.running ==> HasWorker(s, p) || IsStarting(s, p))
  }

  // The steps of the scan, those of the workers and the clock, and the end of a worker.

  lemma ScanKeepsOne(interval: int, s: State, l: Label, t: State)
    requires OneEach(s) && Follows(interval, s, l, t)
    requires l.Discover? || l.Purge? || l.Visit? || l.Spawn? || l.EndScan?
    ensures OneEach(t)
  {
  }

  lemma WorkKeepsOne(interval: int, s: State, l: Label, t: State)
    requires OneEach(s) && Follows(interval, s, l, t)
    requires l.InitEnds? || l.Clear? || l.Backoff? || l.RunEnds? || l.Tick?
    ensures OneEach(t)
  {
  }

  lemma LeaveKeepsOne(interval: int, s: State, l: Label, t: State)
    requires OneEach(s) && Follows(interval, s, l, t) && l.Leave?
    ensures OneEach(t)
  {
  }

  lemma StepKeepsOne(interval: int, s: State, l: Label, t: State)
    requires OneEach(s) && Follows(interval, s, l, t)
    ensures OneEach(t)
  {
    if l.Discover? || l.Purge? || l.Visit? || l.Spawn? || l.EndScan? {
      ScanKeepsOne(interval, s, l, t);
    } else if l.Leave? {
      LeaveKeepsOne(interval, s, l, t);
    } else {
      WorkKeepsOne(interval, s, l, t);
    }
  }

  lemma StepKeepsTables(interval: int, s: State, l: Label, t: State)
    requires TablesAgree(s) && Follows(interval, s, l, t)
    ensures TablesAgree(t)
  {
  }

  lemma StepKeepsMarks(interval: int, s: State, l: Label, t: State)
    requires Inv(s) && Follows(interval, s, l, t)
    ensures forall p :: p in t.running ==> HasWorker(t, p) || IsStarting(t, p)
  {
    forall p | p in t.running ensures HasWorker(t, p) || IsStarting(t, p) {
      if l.Spawn? && IsStarting(s, p) {
        assert s.next in t.workers && t.workers[s.next].path == p;
      } else if HasWorker(s, p) {
        var w :| w in s.workers && s.workers[w].path == p;
        assert w in t.workers && t.workers[w].path == p;
      }
    }
  }

  lemma StepInv(interval: int, s: State, l: Label, t: State)
    requires Inv(s) && Follows(interval, s, l, t)
    ensures Inv(t)
  {
    StepKeepsOne(interval, s, l, t);
    StepKeepsTables(interval, s, l, t);
    StepKeepsMarks(interval, s, l, t);
  }

  lemma {:induction false} RunInv(interval: int, ss: seq<State>, ls: seq<Label>, n: nat)
    requires IsRun(interval, ss, ls) && n <= |ls|
    ensures Inv(ss[n])
  {
    if n > 0 {
      RunInv(interval, ss, ls, n - 1);
      assert StepAt(interval, ss, ls, n - 1);
      StepInv(interval, ss[n - 1], ls[n - 1], ss[n]);
    }
  }

  /** At any time a path has at most one worker, and the marked paths are exactly those with a worker, or with one that
      the scan is about to start. Failure counts and waits are kept for the same paths. */
  lemma OneWorkerPerPath(interval: int, ss: seq<State>, ls: seq<Label>, n: nat)
    requires IsRun(interval, ss, ls) && n <= |ls|
    ensures forall v, w :: v in ss[n].workers && w in ss[n].workers && ss[n].workers[v].path == ss[n].workers[w].path
              ==> v == w
    ensures forall p :: p in ss[n].running <==> HasWorker(ss[n], p) || IsStarting(ss[n], p)
    ensures forall p :: !(HasWorker(ss[n], p) && IsStarting(ss[n], p))
    ensures ss[n].fails.Keys == ss[n].retryAt.Keys
  {
    RunInv(interval, ss, ls, n);
  }

  // ------------------------------------------------------------------ failures in a row

  /** The step starts a worker for p. */
  predicate Starts(s: State, l: Label, p: string) {
    l.Visit? && Enabled(s, l) && s.scan.cands[0] == p && !Skips(s, p)
  }

  /** The step is a failed init of p. */
  predicate FailsInit(s: State, l: Label, p: string) {
    l.Backoff? && l.w in s.workers && s.workers[l.w].path == p
  }

  /** The step forgets p's failures: an init that succeeded, or a scan that did not see p. */
  predicate Forgets(s: State, l: Label, p: string) {
    || (l.Clear? && l.w in s.workers && s.workers[l.w].path == p)
    || (l.Purge? && s.scan.Purging? && p !in s.scan.cands)
  }

  /** Failed inits of p in the first n steps since its failures were last forgotten. */
  function Streak(ss: seq<State>, ls: seq<Label>, n: nat, p: string): nat
    requires |ss| == |ls| + 1 && n <= |ls|
  {
    if n == 0 || Forgets(ss[n - 1], ls[n - 1], p) then 0
    else Streak(ss, ls, n - 1, p) + if FailsInit(ss[n - 1], ls[n - 1], p) then 1 else 0
  }

  /** The table counts them. */
  lemma {:induction false} FailsIsStreak(interval: int, ss: seq<State>, ls: seq<Label>, n: nat, p: string)
    requires IsRun(interval, ss, ls) && n <= |ls|
    ensures Fails(ss[n], p) == Streak(ss, ls, n, p)
  {
    if n > 0 {
      FailsIsStreak(interval, ss, ls, n - 1, p);
      assert StepAt(interval, ss, ls, n - 1);
    }
  }

  // ------------------------------------------------------------------ the wait

  /** p waits until `until`: no start is under way, and what is left of its last worker only unmarks it. */
  ghost predicate Waits(s: State, p: string, until: int) {
    && p in s.retryAt && s.retryAt[p] == until
    && !IsStarting(s, p)
    && forall w :: w in s.workers && s.workers[w].path == p ==> s.workers[w].stage == Leaving
  }

  lemma StillWaits(interval: int, s: State, l: Label, t: State, p: string, until: int)
    requires Inv(s) && Waits(s, p, until) && Follows(interval, s, l, t)
    requires !Forgets(s, l, p) && !Starts(s, l, p)
    ensures Waits(t, p, until)
  {
  }

  lemma {:induction false} WaitLasts(interval: int, ss: seq<State>, ls: seq<Label>, i: nat, j: nat, p: string)
    requires IsRun(interval, ss, ls) && i < j <= |ls| && FailsInit(ss[i], ls[i], p)
    requires forall k :: i < k < j ==> !Forgets(ss[k], ls[k], p) && !Starts(ss[k], ls[k], p)
    ensures Waits(ss[j], p, ss[i].clock + RetryDelay(interval, Streak(ss, ls, i, p) + 1))
    decreases j
  {
    var until := ss[i].clock + RetryDelay(interval, Streak(ss, ls, i, p) + 1);
    RunInv(interval, ss, ls, j - 1);
    assert StepAt(interval, ss, ls, j - 1);
    if i + 1 < j {
      WaitLasts(interval, ss, ls, i, j - 1, p);
      StillWaits(interval, ss[j - 1], ls[j - 1], ss[j], p, until);
    } else {
      FailsIsStreak(interval, ss, ls, i, p);
    }
  }

  /** The wait that the documentation gives: the watch interval, 10 s unless a positive one is set, doubled for each
      failure in a row after the first, and no more than five minutes. */
  function Promised(interval: int, n: nat): int
    requires n >= 1
  {
    var base := if interval <= 0 then 10_000_000_000 else interval;
    if base * Pow2(n - 1) < 300_000_000_000 then base * Pow2(n - 1) else 300_000_000_000
  }

  /** After the n-th failure in a row, p is not tried again before that wait has passed, unless a scan meanwhile finds p
      unplugged. */
  lemma NotTriedEarly(interval: int, ss: seq<State>, ls: seq<Label>, i: nat, j: nat, p: string)
    requires IsRun(interval, ss, ls) && i < j < |ls| && FailsInit(ss[i], ls[i], p) && Starts(ss[j], ls[j], p)
    requires forall k :: i < k < j ==> !Forgets(ss[k], ls[k], p) && !Starts(ss[k], ls[k], p)
    ensures var n := Streak(ss, ls, i + 1, p);
      n >= 1 && ss[j].clock >= ss[i].clock + Promised(interval, n)
  {
    WaitLasts(interval, ss, ls, i, j, p);
    assert StepAt(interval, ss, ls, j);
  }

  /** Step i is p's last failure before step n, and nothing has made the manager forget it. */
  ghost predicate LastFailure(ss: seq<State>, ls: seq<Label>, i: nat, n: nat, p: string)
    requires |ss| == |ls| + 1 && n <= |ls|
  {
    && i < n && FailsInit(ss[i], ls[i], p)
    && forall k :: i < k < n ==> !Forgets(ss[k], ls[k], p) && !FailsInit(ss[k], ls[k], p)
  }

  /** The wait in the table is that of the last failure. */
  lemma {:induction false} WaitIsLastFailure(interval: int, ss: seq<State>, ls: seq<Label>, n: nat, p: string)
    returns (i: nat)
    requires IsRun(interval, ss, ls) && n <= |ls| && Streak(ss, ls, n, p) > 0
    ensures LastFailure(ss, ls, i, n, p) && p in ss[n].retryAt
    ensures ss[n].retryAt[p] == ss[i].clock + Promised(interval, Streak(ss, ls, n, p))
  {
    assert StepAt(interval, ss, ls, n - 1);
    FailsIsStreak(interval, ss, ls, n - 1, p);
    if FailsInit(ss[n - 1], ls[n - 1], p) {
      i := n - 1;
    } else {
      i := WaitIsLastFailure(interval, ss, ls, n - 1, p);
    }
  }

  /** A scan that visits p starts a worker exactly when p has none and has not failed since its failures were forgotten,
      or the wait for the n-th failure in a row has passed since its last one. */
  lemma StartsIff(interval: int, ss: seq<State>, ls: seq<Label>, n: nat, p: string) returns (i: nat)
    requires IsRun(interval, ss, ls) && n < |ls| && ls[n].Visit?
    requires ss[n].scan.Visiting? && ss[n].scan.cands != [] && ss[n].scan.cands[0] == p
    ensures var streak := Streak(ss, ls, n, p);
      && (streak > 0 ==> LastFailure(ss, ls, i, n, p))
      && (Starts(ss[n], ls[n], p)
          <==> !HasWorker(ss[n], p) && (streak == 0 || ss[n].clock >= ss[i].clock + Promised(interval, streak)))
  {
    i := 0;
    RunInv(interval, ss, ls, n);
    FailsIsStreak(interval, ss, ls, n, p);
    if Streak(ss, ls, n, p) > 0 {
      i := WaitIsLastFailure(interval, ss, ls, n, p);
    }
  }
}
