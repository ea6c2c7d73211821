/** Taking messages in: SaveMessage and saveAndEnqueue, called by any number of goroutines at once for the ADB
  poller and the modems. Each statement is one atomic step and a crash may come between any two.
  (cmd/abb/main.go, internal/db/messages.go) */
module Intake {

  /** An outbox row's message id and channel. A message's id is its position among the saved messages. */
  datatype Entry = Entry(id: nat, channel: string)

  /** Where a call is: before the INSERT OR IGNORE, before the SELECT of a duplicate's id, or in the loop over
      the channels. */
  datatype Pc = Saving(key: string) | LookingUp(key: string) | Creating(id: nat, k: nat)

  datatype Answer = Answer(key: string, ok: bool)

  /** keys: android_id of each message; creator: the call that inserted it; progress: how many channels that call
      has gone through; failed: the CREATE statements that left no row; answers: what the finished calls returned. */
  datatype State = State(
    keys: seq<string>, outbox: seq<Entry>, calls: map<nat, Pc>, next: nat,
    creator: seq<nat>, progress: seq<nat>, failed: multiset<Entry>, answers: map<nat, Answer>)

  datatype Label =
    | Begin(key: string)
    | Insert(call: nat, ok: bool)
    | InsertLost(call: nat)          // the row is inserted, yet the statement reports an error
    | LookUp(call: nat, ok: bool)
    | Create(call: nat, ok: bool)      // ok: the row is inserted, whatever the statement reports
    | Done(call: nat)
    | Crash

  predicate At(s: State, c: nat) {
    c in s.calls
  }

  predicate Enabled(channels: seq<string>, s: State, l: Label) {
    match l
    case Begin(_) => true
    case Insert(c, _) => At(s, c) && s.calls[c].Saving?
    case InsertLost(c) => At(s, c) && s.calls[c].Saving? && s.calls[c].key !in s.keys
    case LookUp(c, _) => At(s, c) && s.calls[c].LookingUp?
    case Create(c, _) => At(s, c) && s.calls[c].Creating? && s.calls[c].k < |channels|
                         && s.calls[c].id < |s.progress|
    case Done(c) => At(s, c) && s.calls[c].Creating? && s.calls[c].k >= |channels| && s.calls[c].id < |s.keys|
    case Crash => true
  }

  function Without<V>(m: map<nat, V>, c: nat): map<nat, V> {
    map x | x in m && x != c :: m[x]
  }

  /** The call returns. */
  function Returned(s: State, c: nat, key: string, ok: bool): State {
    s.(calls := Without(s.calls, c), answers := s.answers[c := Answer(key, ok)])
  }

  function Added(s: State, c: nat, key: string): State {
    s.(keys := s.keys + [key], creator := s.creator + [c], progress := s.progress + [0])
  }

  function Apply(channels: seq<string>, s: State, l: Label): State
    requires Enabled(channels, s, l)
  {
    match l
    case Begin(key) => s.(calls := s.calls[s.next := Saving(key)], next := s.next + 1)
    case Insert(c, ok) =>
      var key := s.calls[c].key;
      if !ok then Returned(s, c, key, false)
      else if key in s.keys then s.(calls := s.calls[c := LookingUp(key)])
      else Added(s, c, key).(calls := s.calls[c := Creating(|s.keys|, 0)])
    case InsertLost(c) => Returned(Added(s, c, s.calls[c].key), c, s.calls[c].key, false)
    case LookUp(c, ok) => Returned(s, c, s.calls[c].key, ok)
    case Create(c, ok) =>
      var id, k := s.calls[c].id, s.calls[c].k;
      var e := Entry(id, channels[k]);
      var n := s.(calls := s.calls[c := Creating(id, k + 1)], progress := s.progress[id := k + 1]);
      if ok then n.(outbox := s.outbox + [e]) else n.(failed := s.failed + multiset{e})
    case Done(c) => Returned(s, c, s.keys[s.calls[c].id], true)
    case Crash => s.(calls := map[])
  }

  predicate Follows(channels: seq<string>, s: State, l: Label, t: State) {
    Enabled(channels, s, l) && t == Apply(channels, s, l)
  }

  const EMPTY := State([], [], map[], 0, [], [], multiset{}, map[])

  predicate StepAt(channels: seq<string>, ss: seq<State>, ls: seq<Label>, i: nat)
    requires |ss| == |ls| + 1 && i < |ls|
  {
    Follows(channels, ss[i], ls[i], ss[i + 1])
  }

  ghost predicate IsRun(channels: seq<string>, ss: seq<State>, ls: seq<Label>) {
    && |ss| == |ls| + 1 && ss[0] == EMPTY
    && forall i :: 0 <= i < |ls| ==> StepAt(channels, ss, ls, i)
  }

  // ------------------------------------------------------------------ the invariant

  /** How many outbox rows the message has for the channel. */
  function Rows(s: State, m: nat, ch: string): nat {
    multiset(s.outbox)[Entry(m, ch)]
  }

  function Fails(s: State, m: nat, ch: string): nat {
    s.failed[Entry(m, ch)]
  }

  /** How often the list names the channel. */
  function Named(channels: seq<string>, ch: string): nat {
    multiset(channels)[ch]
  }

  /** Every channel that the creating call has passed has its row, or a failed attempt at one. */
  ghost predicate Balanced(channels: seq<string>, s: State, m: nat) {
    && m < |s.progress| && s.progress[m] <= |channels|
    && forall ch :: Rows(s, m, ch) + Fails(s, m, ch) == Named(channels[..s.progress[m]], ch)
  }

  ghost predicate Unlike<T>(xs: seq<T>) {
    forall i, j :: 0 <= i < j < |xs| ==> xs[i] != xs[j]
  }

  ghost predicate CallOk(s: State, c: nat)
    requires c in s.calls
  {
    && c < s.next && c !in s.answers
    && match s.calls[c]
       case Saving(_) => true
       case LookingUp(key) => key in s.keys
       case Creating(id, k) =>
         id < |s.keys| && id < |s.creator| && id < |s.progress| && s.creator[id] == c && s.progress[id] == k
  }

  ghost predicate Inv(channels: seq<string>, s: State) {
    && |s.creator| == |s.progress| == |s.keys|
    && Unlike(s.keys)
    && (forall m :: 0 <= m < |s.keys| ==> Balanced(channels, s, m) && s.creator[m] < s.next)
    && (forall m, ch :: m >= |s.keys| ==> Rows(s, m, ch) == 0 && Fails(s, m, ch) == 0)
    && (forall c :: c in s.calls ==> CallOk(s, c))
    && (forall c :: c in s.answers ==> c < s.next && (s.answers[c].ok ==> s.answers[c].key in s.keys))
  }

  lemma SameBalance(channels: seq<string>, s: State, t: State, m: nat)
    requires Balanced(channels, s, m) && m < |t.progress|
    requires t.outbox == s.outbox && t.failed == s.failed && t.progress[m] == s.progress[m]
    ensures Balanced(channels, t, m)
  {
    assert forall ch :: Rows(t, m, ch) == Rows(s, m, ch) && Fails(t, m, ch) == Fails(s, m, ch);
  }

  lemma AddedInv(channels: seq<string>, s: State, c: nat, key: string)
    requires Inv(channels, s) && c < s.next && key !in s.keys
    ensures var t := Added(s, c, key);
      && Unlike(t.keys)
      && forall m :: 0 <= m < |t.keys| ==> Balanced(channels, t, m) && t.creator[m] < t.next
  {
    var t := Added(s, c, key);
    forall m | 0 <= m < |t.keys| ensures Balanced(channels, t, m) {
      if m < |s.keys| {
        SameBalance(channels, s, t, m);
      } else {
        assert channels[..0] == [];
        assert forall ch :: Rows(t, m, ch) == Rows(s, m, ch) && Fails(t, m, ch) == Fails(s, m, ch);
      }
    }
  }

  lemma InsertInv(channels: seq<string>, s: State, l: Label, t: State)
    requires Inv(channels, s) && Follows(channels, s, l, t) && (l.Insert? || l.InsertLost?)
    ensures Inv(channels, t)
  {
    var c := l.call;
    assert CallOk(s, c);
    var key := s.calls[c].key;
    if l.InsertLost? || (l.ok && key !in s.keys) {
      AddedInv(channels, s, c, key);
      forall m | 0 <= m < |t.keys| ensures Balanced(channels, t, m) {
        SameBalance(channels, Added(s, c, key), t, m);
      }
    } else {
      forall m | 0 <= m < |t.keys| ensures Balanced(channels, t, m) {
        SameBalance(channels, s, t, m);
      }
    }
    forall d | d in t.calls ensures CallOk(t, d) {
      assert d in s.calls && CallOk(s, d);
    }
    assert forall m, ch :: Rows(t, m, ch) == Rows(s, m, ch) && Fails(t, m, ch) == Fails(s, m, ch);
  }

  lemma CreateBalance(channels: seq<string>, s: State, c: nat, ok: bool, t: State, m: nat)
    requires Inv(channels, s) && Follows(channels, s, Create(c, ok), t) && m < |s.keys|
    ensures Balanced(channels, t, m)
  {
    assert CallOk(s, c) && Balanced(channels, s, m);
    var id, k := s.calls[c].id, s.calls[c].k;
    forall ch ensures Rows(t, m, ch) + Fails(t, m, ch) == Named(channels[..t.progress[m]], ch) {
      assert Rows(s, m, ch) + Fails(s, m, ch) == Named(channels[..s.progress[m]], ch);
      assert channels[..k + 1] == channels[..k] + [channels[k]];
    }
  }

  lemma CreateInv(channels: seq<string>, s: State, c: nat, ok: bool, t: State)
    requires Inv(channels, s) && Follows(channels, s, Create(c, ok), t)
    ensures Inv(channels, t)
  {
    assert CallOk(s, c);
    forall m | 0 <= m < |t.keys| ensures Balanced(channels, t, m) && t.creator[m] < t.next {
      CreateBalance(channels, s, c, ok, t, m);
    }
    forall m, ch | m >= |t.keys| ensures Rows(t, m, ch) == 0 && Fails(t, m, ch) == 0 {
      assert Rows(s, m, ch) == 0 && Fails(s, m, ch) == 0;
    }
    forall d | d in t.calls ensures CallOk(t, d) {
      assert d in s.calls && CallOk(s, d);
    }
  }

  lemma OtherInv(channels: seq<string>, s: State, l: Label, t: State)
    requires Inv(channels, s) && Follows(channels, s, l, t) && (l.Begin? || l.LookUp? || l.Done? || l.Crash?)
    ensures Inv(channels, t)
  {
    if l.LookUp? || l.Done? {
      assert CallOk(s, l.call);
    }
    forall d | d in t.calls ensures CallOk(t, d) {
      assert d in s.calls ==> CallOk(s, d);
    }
    forall m | 0 <= m < |t.keys| ensures Balanced(channels, t, m) {
      SameBalance(channels, s, t, m);
    }
    assert forall m, ch :: Rows(t, m, ch) == Rows(s, m, ch) && Fails(t, m, ch) == Fails(s, m, ch);
  }

  lemma StepInv(channels: seq<string>, s: State, l: Label, t: State)
    requires Inv(channels, s) && Follows(channels, s, l, t)
    ensures Inv(channels, t)
  {
    if l.Insert? || l.InsertLost? {
      InsertInv(channels, s, l, t);
    } else if l.Create? {
      CreateInv(channels, s, l.call, l.ok, t);
    } else {
      OtherInv(channels, s, l, t);
    }
  }

  lemma {:induction false} RunInv(channels: seq<string>, ss: seq<State>, ls: seq<Label>, n: nat)
    requires IsRun(channels, ss, ls) && n <= |ls|
    ensures Inv(channels, ss[n])
  {
    if n > 0 {
      RunInv(channels, ss, ls, n - 1);
      assert StepAt(channels, ss, ls, n - 1);
      StepInv(channels, ss[n - 1], ls[n - 1], ss[n]);
    }
  }

  // ------------------------------------------------------------------ every run

  /** However often and from wherever a message is presented, its key has one row, and a call that returned
      without error has left the key in the table. */
  lemma OneRowPerKey(channels: seq<string>, ss: seq<State>, ls: seq<Label>, n: nat)
    requires IsRun(channels, ss, ls) && n <= |ls|
    ensures Unlike(ss[n].keys)
    ensures forall c :: c in ss[n].answers && ss[n].answers[c].ok ==> ss[n].answers[c].key in ss[n].keys
  {
    RunInv(channels, ss, ls, n);
  }

  /** Messages are only added, at the end. */
  lemma {:induction false} KeysGrow(channels: seq<string>, ss: seq<State>, ls: seq<Label>, i: nat, j: nat)
    requires IsRun(channels, ss, ls) && i <= j <= |ls|
    ensures ss[i].keys <= ss[j].keys
    decreases j
  {
    if i < j {
      KeysGrow(channels, ss, ls, i, j - 1);
      assert StepAt(channels, ss, ls, j - 1);
    }
  }

  lemma {:induction false} NamedInPrefix(channels: seq<string>, k: nat, ch: string)
    requires k <= |channels|
    ensures Named(channels[..k], ch) <= Named(channels, ch)
    ensures k < |channels| ==> Named(channels[..k], channels[k]) < Named(channels, channels[k])
  {
    assert channels == channels[..k] + channels[k..];
    if k < |channels| {
      assert channels[k..][0] == channels[k];
    }
  }

  /** A message never has more rows for a channel than the configuration names it. */
  lemma NoExtraRows(channels: seq<string>, ss: seq<State>, ls: seq<Label>, n: nat, m: nat, ch: string)
    requires IsRun(channels, ss, ls) && n <= |ls|
    ensures Rows(ss[n], m, ch) <= Named(channels, ch)
  {
    RunInv(channels, ss, ls, n);
    if m < |ss[n].keys| {
      assert Balanced(channels, ss[n], m);
      assert Rows(ss[n], m, ch) + Fails(ss[n], m, ch) == Named(channels[..ss[n].progress[m]], ch);
      NamedInPrefix(channels, ss[n].progress[m], ch);
    }
  }

  /** It has exactly the configured rows when, and only when, the call that inserted it went through all channels
      and each statement of that loop inserted its row. */
  lemma AllRowsIff(channels: seq<string>, ss: seq<State>, ls: seq<Label>, n: nat, m: nat)
    requires IsRun(channels, ss, ls) && n <= |ls| && m < |ss[n].keys|
    ensures |ss[n].progress| == |ss[n].keys|
    ensures (forall ch :: Rows(ss[n], m, ch) == Named(channels, ch))
            <==> ss[n].progress[m] == |channels| && forall ch :: Fails(ss[n], m, ch) == 0
  {
    RunInv(channels, ss, ls, n);
    var s := ss[n];
    assert Balanced(channels, s, m);
    var k := s.progress[m];
    if k == |channels| {
      assert channels[..k] == channels;
      assert forall ch :: Rows(s, m, ch) + Fails(s, m, ch) == Named(channels, ch);
    } else {
      NamedInPrefix(channels, k, channels[k]);
      assert Rows(s, m, channels[k]) + Fails(s, m, channels[k]) < Named(channels, channels[k]);
    }
  }

  /** A row is created only by the call that inserted its message. */
  lemma OnlyTheInserterCreates(channels: seq<string>, ss: seq<State>, ls: seq<Label>, n: nat, m: nat, ch: string)
    requires IsRun(channels, ss, ls) && n < |ls| && Rows(ss[n + 1], m, ch) != Rows(ss[n], m, ch)
    ensures m < |ss[n].creator| && ls[n] == Create(ss[n].creator[m], true)
  {
    RunInv(channels, ss, ls, n);
    assert StepAt(channels, ss, ls, n);
    if ls[n].Create? {
      assert CallOk(ss[n], ls[n].call);
    }
  }

  /** Once the inserting call is over, by returning or by a crash, nothing adds to the message's rows. */
  lemma {:induction false} SettledStays(channels: seq<string>, ss: seq<State>, ls: seq<Label>, i: nat, j: nat, m: nat)
    requires IsRun(channels, ss, ls) && i <= j <= |ls| && m < |ss[i].keys|
    requires m < |ss[i].creator| && ss[i].creator[m] !in ss[i].calls
    ensures m < |ss[j].creator| && ss[j].creator[m] == ss[i].creator[m] && ss[j].creator[m] !in ss[j].calls
    ensures forall ch :: Rows(ss[j], m, ch) == Rows(ss[i], m, ch)
    decreases j
  {
    if i < j {
      SettledStays(channels, ss, ls, i, j - 1, m);
      RunInv(channels, ss, ls, j - 1);
      SettledStep(channels, ss, ls, j - 1, m);
    }
  }

  lemma SettledStep(channels: seq<string>, ss: seq<State>, ls: seq<Label>, i: nat, m: nat)
    requires IsRun(channels, ss, ls) && i < |ls| && Inv(channels, ss[i])
    requires m < |ss[i].creator| && ss[i].creator[m] !in ss[i].calls
    ensures m < |ss[i + 1].creator| && ss[i + 1].creator[m] == ss[i].creator[m]
    ensures ss[i + 1].creator[m] !in ss[i + 1].calls
    ensures forall ch :: Rows(ss[i + 1], m, ch) == Rows(ss[i], m, ch)
  {
    assert StepAt(channels, ss, ls, i);
    forall ch ensures Rows(ss[i + 1], m, ch) == Rows(ss[i], m, ch) {
      if Rows(ss[i + 1], m, ch) != Rows(ss[i], m, ch) {
        OnlyTheInserterCreates(channels, ss, ls, i, m, ch);
      }
    }
  }

  // ------------------------------------------------------------------ where it falls short

  /** A crash between SaveMessage and the first CreateOutboxEntry leaves a message without rows. When the modem
      presents it again, the call meets a duplicate and returns without error, so that the SMS is deleted and,
      by SettledStays, the message is never sent. */
  lemma CrashLosesRows(channels: seq<string>, key: string) returns (ss: seq<State>, ls: seq<Label>)
    requires channels != []
    ensures IsRun(channels, ss, ls)
    ensures var t := ss[|ls|];
      t.keys == [key] && t.outbox == [] && t.calls == map[] && t.answers == map[1 := Answer(key, true)]
  {
    var a := EMPTY.(calls := map[0 := Saving(key)], next := 1);
    var b := Added(a, 0, key).(calls := map[0 := Creating(0, 0)]);
    var c := b.(calls := map[]);
    var d := c.(calls := map[1 := Saving(key)], next := 2);
    var e := d.(calls := map[1 := LookingUp(key)]);
    var f := e.(calls := map[], answers := map[1 := Answer(key, true)]);
    ss := [EMPTY, a, b, c, d, e, f];
    ls := [Begin(key), Insert(0, true), Crash, Begin(key), Insert(1, true), LookUp(1, true)];
    forall i | 0 <= i < |ls| ensures StepAt(channels, ss, ls, i) {
      assert i == 0 || i == 1 || i == 2 || i == 3 || i == 4 || i == 5;
    }
  }
}
