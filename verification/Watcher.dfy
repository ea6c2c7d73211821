/** From the device watcher to the poller: connect and disconnect events, their queue, and the main loop that starts and
  cancels pollers. (internal/adb/watcher.go, cmd/abb/main.go) */
module Watcher {
  import opened Text

  datatype DeviceStatus = DeviceStatus(serial: string, online: bool)

  datatype Event = Connected(serial: string) | Disconnected

  const QUEUE_SIZE := 4

  predicate Matches(d: DeviceStatus, preferred: string) {
    d.online && (preferred == "" || preferred == d.serial)
  }

  /** The first online device that is wanted. */
  function Pick(statuses: seq<DeviceStatus>, preferred: string): Option<string> {
    if statuses == [] then None
    else if Matches(statuses[0], preferred) then Some(statuses[0].serial)
    else Pick(statuses[1..], preferred)
  }

  lemma {:induction false} PickExact(statuses: seq<DeviceStatus>, preferred: string)
    ensures Pick(statuses, preferred).Some? <==> exists d :: d in statuses && Matches(d, preferred)
    ensures Pick(statuses, preferred).Some? ==>
              exists k :: 0 <= k < |statuses| && Matches(statuses[k], preferred)
                          && Pick(statuses, preferred) == Some(statuses[k].serial)
                          && forall i :: 0 <= i < k ==> !Matches(statuses[i], preferred)
  {
    if statuses != [] && !Matches(statuses[0], preferred) {
      PickExact(statuses[1..], preferred);
      assert statuses == [statuses[0]] + statuses[1..];
      if Pick(statuses, preferred).Some? {
        var k :| 0 <= k < |statuses[1..]| && Matches(statuses[1..][k], preferred)
                 && Pick(statuses, preferred) == Some(statuses[1..][k].serial)
                 && forall i :: 0 <= i < k ==> !Matches(statuses[1..][i], preferred);
        assert statuses[k + 1] == statuses[1..][k];
        forall i | 0 <= i < k + 1 ensures !Matches(statuses[i], preferred) {
          assert i > 0 ==> statuses[i] == statuses[1..][i - 1];
        }
      }
    }
  }

  /** What a check of the device list (None: an error) reports, if anything. */
  function Report(connected: bool, statuses: Option<seq<DeviceStatus>>, preferred: string): Option<Event> {
    if statuses.None? then None
    else
      var found := Pick(statuses.value, preferred);
      if found.Some? && !connected then Some(Connected(found.value))
      else if found.None? && connected then Some(Disconnected)
      else None
  }

  class Watcher {
    const serial: string
    var connected: bool
    var events: seq<Event>   // all that was sent on Events

    constructor (serial: string)
      ensures this.serial == serial && !connected && events == []
    {
      this.serial, this.connected, this.events := serial, false, [];
    }

    method PickOnlineDevice(statuses: seq<DeviceStatus>) returns (found: bool, picked: string)
      ensures Pick(statuses, serial) == if found then Some(picked) else None
    {
      var i := 0;
      while i < |statuses|
        invariant 0 <= i <= |statuses|
        invariant Pick(statuses, serial) == Pick(statuses[i..], serial)
      {
        var s := statuses[i];
        assert statuses[i..][1..] == statuses[i + 1..];
        if s.online && (serial == "" || serial == s.serial) {
          return true, s.serial;
        }
        i := i + 1;
      }
      found, picked := false, "";
    }

    method Check(statuses: Option<seq<DeviceStatus>>)
      modifies this
      ensures var r := Report(old(connected), statuses, serial);
        && events == old(events) + (if r.Some? then [r.value] else [])
        && connected == (if r.Some? then r.value.Connected? else old(connected))
    {
      if statuses.None? {
        return;
      }
      var online, picked := PickOnlineDevice(statuses.value);
      if online && !connected {
        connected := true;
        events := events + [Connected(picked)];
      } else if !online && connected {
        connected := false;
        events := events + [Disconnected];
      }
    }
  }

  // ------------------------------------------------------------------ the main loop

  /** A poller's context. */
  datatype Context = Context(serial: string, cancelled: bool)

  /** pollerCancel: the context that the variable can cancel. */
  datatype Pollers = Pollers(contexts: seq<Context>, pollerCancel: Option<nat>)

  function Cancelled(cs: seq<Context>, k: nat): seq<Context> {
    if k < |cs| then cs[k := cs[k].(cancelled := true)] else cs
  }

  function Handle(p: Pollers, e: Event): Pollers {
    match e
    case Connected(serial) => Pollers(p.contexts + [Context(serial, false)], Some(|p.contexts|))
    case Disconnected =>
      if p.pollerCancel.Some? then Pollers(Cancelled(p.contexts, p.pollerCancel.value), None) else p
  }

  /** The k-th poller has not been cancelled. */
  ghost predicate Live(p: Pollers, k: nat) {
    k < |p.contexts| && !p.contexts[k].cancelled
  }

  /** The variable remembers the live poller, if there is one, and there is no other. */
  ghost predicate Orderly(p: Pollers) {
    forall k: nat :: Live(p, k) <==> p.pollerCancel == Some(k)
  }

  class MainLoop {
    var contexts: seq<Context>
    var pollerCancel: Option<nat>

    constructor ()
      ensures Memory() == Pollers([], None)
    {
      contexts, pollerCancel := [], None;
    }

    function Memory(): Pollers
      reads this
    {
      Pollers(contexts, pollerCancel)
    }

    /** A connect leaves all pollers as they are and adds one for its device; a disconnect ends just the poller that
        is remembered. So from an orderly state, a connect with no live poller leaves exactly one, and a disconnect
        none. */
    method OnEvent(e: Event)
      modifies this
      ensures Memory() == Handle(old(Memory()), e)
      ensures e.Connected? ==> contexts == old(contexts) + [Context(e.serial, false)]
      ensures e.Disconnected? ==> |contexts| == |old(contexts)|
      ensures e.Disconnected? ==>
                forall k: nat :: Live(Memory(), k) <==> Live(old(Memory()), k) && old(pollerCancel) != Some(k)
      ensures Orderly(old(Memory())) && (e.Connected? ==> forall k: nat :: !Live(old(Memory()), k)) ==>
                && Orderly(Memory())
                && forall k: nat :: Live(Memory(), k) <==> e.Connected? && k == |old(contexts)|
    {
      match e {
        case Connected(serial) =>
          pollerCancel := Some(|contexts|);
          contexts := contexts + [Context(serial, false)];
        case Disconnected =>
          if pollerCancel.Some? {
            if pollerCancel.value < |contexts| {
              contexts := contexts[pollerCancel.value := contexts[pollerCancel.value].(cancelled := true)];
            }
            pollerCancel := None;
          }
      }
    }
  }

  // ------------------------------------------------------------------ watcher, queue and main loop together

  /** sent: all events so far; held: the event that the watcher is blocked on while the queue is full; taken: the event
      that the main loop is working on; done: how many it has finished. */
  datatype State = State(
    connected: bool, sent: seq<Event>, held: Option<Event>, queue: seq<Event>, taken: Option<Event>, done: nat,
    pollers: Pollers)

  datatype Label = Check(statuses: Option<seq<DeviceStatus>>) | Push | Receive | Act

  const INIT := State(false, [], None, [], None, 0, Pollers([], None))

  predicate Enabled(s: State, l: Label) {
    match l
    case Check(_) => s.held.None?
    case Push => s.held.Some? && |s.queue| < QUEUE_SIZE
    case Receive => s.taken.None? && s.queue != []
    case Act => s.taken.Some?
  }

  function Apply(preferred: string, s: State, l: Label): State
    requires Enabled(s, l)
  {
    match l
    case Check(statuses) =>
      var r := Report(s.connected, statuses, preferred);
      if r.None? then s
      else s.(connected := r.value.Connected?, sent := s.sent + [r.value], held := r)
    case Push => s.(queue := s.queue + [s.held.value], held := None)
    case Receive => s.(taken := Some(s.queue[0]), queue := s.queue[1..])
    case Act => s.(pollers := Handle(s.pollers, s.taken.value), taken := None, done := s.done + 1)
  }

  predicate StepAt(preferred: string, ss: seq<State>, ls: seq<Label>, i: nat)
    requires |ss| == |ls| + 1 && i < |ls|
  {
    Enabled(ss[i], ls[i]) && ss[i + 1] == Apply(preferred, ss[i], ls[i])
  }

  ghost predicate IsRun(preferred: string, ss: seq<State>, ls: seq<Label>) {
    && |ss| == |ls| + 1 && ss[0] == INIT
    && forall i :: 0 <= i < |ls| ==> StepAt(preferred, ss, ls, i)
  }

  function Just(e: Option<Event>): seq<Event> {
    if e.Some? then [e.value] else []
  }

  /** Connected, Disconnected, Connected, ... */
  ghost predicate Alternate(events: seq<Event>) {
    forall i :: 0 <= i < |events| ==> (events[i].Connected? <==> i % 2 == 0)
  }

  /** The poller of the last finished event, if that was a connect, is the only one left. */
  ghost predicate OnlyLast(s: State) {
    && s.done <= |s.sent|
    && if s.done > 0 && s.sent[s.done - 1].Connected?
       then
         && s.pollers.contexts != [] && s.pollers.pollerCancel == Some(|s.pollers.contexts| - 1)
         && s.pollers.contexts[|s.pollers.contexts| - 1] == Context(s.sent[s.done - 1].serial, false)
         && forall k :: 0 <= k < |s.pollers.contexts| - 1 ==> s.pollers.contexts[k].cancelled
       else
         s.pollers.pollerCancel.None? && forall k :: 0 <= k < |s.pollers.contexts| ==> s.pollers.contexts[k].cancelled
  }

  ghost predicate Inv(s: State) {
    && Alternate(s.sent) && (s.connected <==> |s.sent| % 2 == 1)
    && s.done <= |s.sent| && s.sent[s.done..] == Just(s.taken) + s.queue + Just(s.held)
    && OnlyLast(s)
  }

  lemma CheckInv(preferred: string, s: State, l: Label, t: State)
    requires Inv(s) && l.Check? && Enabled(s, l) && t == Apply(preferred, s, l)
    ensures Inv(t)
  {
    if t != s {
      assert t.sent[s.done..] == s.sent[s.done..] + [t.sent[|s.sent|]];
    }
  }

  lemma NextEvent(s: State)
    requires Inv(s) && s.taken.Some?
    ensures s.done < |s.sent| && s.sent[s.done] == s.taken.value
    ensures s.sent[s.done + 1..] == [] + s.queue + Just(s.held)
  {
    assert s.sent[s.done] == s.sent[s.done..][0];
    assert s.sent[s.done + 1..] == s.sent[s.done..][1..];
  }

  lemma ActOnlyLast(s: State, t: State)
    requires OnlyLast(s) && Alternate(s.sent) && s.done < |s.sent|
    requires t.sent == s.sent && t.done == s.done + 1 && t.pollers == Handle(s.pollers, s.sent[s.done])
    ensures OnlyLast(t)
  {
    var cs, e := t.pollers.contexts, s.sent[s.done];
    forall k | 0 <= k < |cs| && !(e.Connected? && k == |cs| - 1) ensures cs[k].cancelled {
      assert s.done > 0 ==> (s.sent[s.done - 1].Connected? <==> e.Disconnected?);
    }
  }

  lemma ActInv(preferred: string, s: State, t: State)
    requires Inv(s) && Enabled(s, Act) && t == Apply(preferred, s, Act)
    ensures Inv(t)
  {
    NextEvent(s);
    ActOnlyLast(s, t);
  }

  lemma Pushed(a: seq<Event>, q: seq<Event>, e: Event)
    ensures a + q + [e] == a + (q + [e]) + []
  {
  }

  lemma Taken(q: seq<Event>, b: seq<Event>)
    requires q != []
    ensures [] + q + b == [q[0]] + q[1..] + b
  {
  }

  lemma QueueInv(preferred: string, s: State, l: Label, t: State)
    requires Inv(s) && (l.Push? || l.Receive?) && Enabled(s, l) && t == Apply(preferred, s, l)
    ensures Inv(t)
  {
    if l.Receive? {
      Taken(s.queue, Just(s.held));
    } else {
      Pushed(Just(s.taken), s.queue, s.held.value);
    }
  }

  lemma {:induction false} RunInv(preferred: string, ss: seq<State>, ls: seq<Label>, n: nat)
    requires IsRun(preferred, ss, ls) && n <= |ls|
    ensures Inv(ss[n])
  {
    if n > 0 {
      RunInv(preferred, ss, ls, n - 1);
      assert StepAt(preferred, ss, ls, n - 1);
      match ls[n - 1]
      case Check(_) => CheckInv(preferred, ss[n - 1], ls[n - 1], ss[n]);
      case Act => ActInv(preferred, ss[n - 1], ss[n]);
      case _ => QueueInv(preferred, ss[n - 1], ls[n - 1], ss[n]);
    }
  }

  /** The events alternate, starting with a connect, for every series of device lists and list errors. */
  lemma EventsAlternate(preferred: string, ss: seq<State>, ls: seq<Label>, n: nat)
    requires IsRun(preferred, ss, ls) && n <= |ls|
    ensures Alternate(ss[n].sent)
  {
    RunInv(preferred, ss, ls, n);
  }

  lemma LiveIff(s: State)
    requires Inv(s)
    ensures (exists k: nat :: Live(s.pollers, k)) <==> s.done > 0 && s.sent[s.done - 1].Connected?
  {
    if s.done > 0 && s.sent[s.done - 1].Connected? {
      assert Live(s.pollers, |s.pollers.contexts| - 1);
    }
  }

  /** Never more than one poller is left uncancelled, and there is one exactly when the last event that the main loop
      has finished is a connect; it polls that event's device. */
  lemma OnePoller(preferred: string, ss: seq<State>, ls: seq<Label>, n: nat)
    requires IsRun(preferred, ss, ls) && n <= |ls|
    ensures forall j: nat, k: nat :: Live(ss[n].pollers, j) && Live(ss[n].pollers, k) ==> j == k
    ensures ss[n].done <= |ss[n].sent|
    ensures (exists k: nat :: Live(ss[n].pollers, k)) <==> ss[n].done > 0 && ss[n].sent[ss[n].done - 1].Connected?
    ensures forall k: nat :: Live(ss[n].pollers, k) ==>
              ss[n].done > 0 && ss[n].sent[ss[n].done - 1] == Connected(ss[n].pollers.contexts[k].serial)
  {
    RunInv(preferred, ss, ls, n);
    LiveIff(ss[n]);
  }

  /** The last device list that could be read. */
  function LastList(ls: seq<Label>, n: nat): Option<seq<DeviceStatus>>
    requires n <= |ls|
  {
    if n == 0 then None
    else if ls[n - 1].Check? && ls[n - 1].statuses.Some? then ls[n - 1].statuses
    else LastList(ls, n - 1)
  }

  ghost predicate Wanted(list: Option<seq<DeviceStatus>>, preferred: string) {
    list.Some? && exists d :: d in list.value && Matches(d, preferred)
  }

  lemma {:induction false} StateIsLastList(preferred: string, ss: seq<State>, ls: seq<Label>, n: nat)
    requires IsRun(preferred, ss, ls) && n <= |ls|
    ensures ss[n].connected <==> Wanted(LastList(ls, n), preferred)
  {
    if n > 0 {
      StateIsLastList(preferred, ss, ls, n - 1);
      assert StepAt(preferred, ss, ls, n - 1);
      if ls[n - 1].Check? && ls[n - 1].statuses.Some? {
        PickExact(ls[n - 1].statuses.value, preferred);
      }
    }
  }

  lemma ConnectedIsLast(s: State)
    requires Inv(s) && s.done == |s.sent|
    ensures s.connected <==> s.done > 0 && s.sent[s.done - 1].Connected?
  {
  }

  /** When all events have been worked off, there is a poller exactly when the last readable list held a wanted device
      that was online. */
  lemma PollerFollowsDevice(preferred: string, ss: seq<State>, ls: seq<Label>, n: nat)
    requires IsRun(preferred, ss, ls) && n <= |ls| && ss[n].done == |ss[n].sent|
    ensures (exists k: nat :: Live(ss[n].pollers, k)) <==> Wanted(LastList(ls, n), preferred)
  {
    RunInv(preferred, ss, ls, n);
    LiveIff(ss[n]);
    ConnectedIsLast(ss[n]);
    StateIsLastList(preferred, ss, ls, n);
  }

  // ------------------------------------------------------------------ which device is polled

  /** The device found first since a wanted device was last missing, if one is there now. */
  function FirstFound(preferred: string, ls: seq<Label>, n: nat): Option<string>
    requires n <= |ls|
  {
    if n == 0 then None
    else
      var before := FirstFound(preferred, ls, n - 1);
      if !ls[n - 1].Check? || ls[n - 1].statuses.None? then before
      else if Pick(ls[n - 1].statuses.value, preferred).None? then None
      else if before.Some? then before
      else Pick(ls[n - 1].statuses.value, preferred)
  }

  /** While connected, the last event named that device. */
  ghost predicate Named(s: State, found: Option<string>) {
    && (s.connected <==> found.Some?)
    && (s.connected ==> s.sent != [] && s.sent[|s.sent| - 1] == Connected(found.value))
  }

  lemma {:induction false} NamesFirstFound(preferred: string, ss: seq<State>, ls: seq<Label>, n: nat)
    requires IsRun(preferred, ss, ls) && n <= |ls|
    ensures Named(ss[n], FirstFound(preferred, ls, n))
  {
    if n > 0 {
      NamesFirstFound(preferred, ss, ls, n - 1);
      assert StepAt(preferred, ss, ls, n - 1);
    }
  }

  ghost predicate OnlineIn(list: Option<seq<DeviceStatus>>, serial: string) {
    list.Some? && exists d :: d in list.value && d.online && d.serial == serial
  }

  /** A named device is found under its name. */
  lemma {:induction false} FoundIsPreferred(preferred: string, ls: seq<Label>, n: nat)
    requires n <= |ls| && preferred != ""
    ensures FirstFound(preferred, ls, n).Some? ==>
              FirstFound(preferred, ls, n) == Some(preferred) && OnlineIn(LastList(ls, n), preferred)
  {
    if n > 0 {
      FoundIsPreferred(preferred, ls, n - 1);
      if ls[n - 1].Check? && ls[n - 1].statuses.Some? {
        PickExact(ls[n - 1].statuses.value, preferred);
      }
    }
  }

  /** When all events have been worked off, the poller polls the device that was found first since none was there. It is
      missing from the last list exactly when no device was named and that one has gone while another was there. */
  lemma PollsFirstFound(preferred: string, ss: seq<State>, ls: seq<Label>, n: nat, k: nat)
    requires IsRun(preferred, ss, ls) && n <= |ls| && ss[n].done == |ss[n].sent| && Live(ss[n].pollers, k)
    ensures FirstFound(preferred, ls, n) == Some(ss[n].pollers.contexts[k].serial)
    ensures !OnlineIn(LastList(ls, n), ss[n].pollers.contexts[k].serial)
            <==> preferred == "" && !OnlineIn(LastList(ls, n), FirstFound(preferred, ls, n).value)
                 && Wanted(LastList(ls, n), preferred)
  {
    OnePoller(preferred, ss, ls, n);
    RunInv(preferred, ss, ls, n);
    ConnectedIsLast(ss[n]);
    NamesFirstFound(preferred, ss, ls, n);
    StateIsLastList(preferred, ss, ls, n);
    if preferred != "" {
      FoundIsPreferred(preferred, ls, n);
    }
  }

  lemma Extend(preferred: string, ss: seq<State>, ls: seq<Label>, l: Label) returns (ss': seq<State>, ls': seq<Label>)
    requires IsRun(preferred, ss, ls) && Enabled(ss[|ls|], l)
    ensures IsRun(preferred, ss', ls') && ls' == ls + [l] && ss'[|ls'|] == Apply(preferred, ss[|ls|], l)
  {
    ss', ls' := ss + [Apply(preferred, ss[|ls|], l)], ls + [l];
    forall i | 0 <= i < |ls'| ensures StepAt(preferred, ss', ls', i) {
      if i < |ls| {
        assert StepAt(preferred, ss, ls, i);
      }
    }
  }

  /** That happens: b comes online in place of a between two checks, and a is still polled. */
  lemma PollerOutlivesDevice(a: string, b: string) returns (ss: seq<State>, ls: seq<Label>)
    requires a != b
    ensures IsRun("", ss, ls) && ss[|ls|].done == |ss[|ls|].sent| && ss[|ls|].pollers.contexts == [Context(a, false)]
    ensures LastList(ls, |ls|) == Some([DeviceStatus(b, true)]) && !OnlineIn(LastList(ls, |ls|), a)
  {
    ss, ls := [INIT], [];
    ss, ls := Extend("", ss, ls, Check(Some([DeviceStatus(a, true)])));
    assert ss[|ls|] == INIT.(connected := true, sent := [] + [Connected(a)], held := Some(Connected(a)));
    ss, ls := Extend("", ss, ls, Push);
    ss, ls := Extend("", ss, ls, Receive);
    ss, ls := Extend("", ss, ls, Act);
    assert ss[|ls|].pollers.contexts == [] + [Context(a, false)];
    ss, ls := Extend("", ss, ls, Check(Some([DeviceStatus(b, true)])));
  }
}
