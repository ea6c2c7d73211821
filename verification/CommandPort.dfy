/** ATPort's goroutines as the code they are, over a port whose modem and other goroutines act at any time. The
  methods extend a run of AtPort's machine, so what holds of every such run holds for them. (internal/modem/at.go) */
module CommandPort {
  import opened Text
  import opened AtPort
  import opened Interleaving

  /** The command that holds the port, and the line reader. */
  datatype Actor = TheCommand | TheReader

  /** The actor's steps; those of the modem and of the URC consumer are neither's. */
  predicate Of(a: Actor, l: Label) {
    match a
    case TheCommand =>
      || l.Begin? || l.DrainOne? || l.DrainEnd? || l.SetWaiting? || l.Write? || l.WriteFails?
      || l.Receive? || l.Wait? || l.GiveUp? || l.Unset?
    case TheReader => l.Read? || l.Look? || l.PushResp? || l.DropResp? || l.PushUrc? || l.DropUrc?
  }

  /** The same place in Command; the reader may have dropped a line meanwhile. */
  predicate SamePlace(a: Pc, b: Pc) {
    if a.Awaiting? then b.Awaiting? && b == a.(dropped := b.dropped) else b == a
  }

  /** While no command waits, the response queue can still gain a line, once. */
  function Load(s: State): nat {
    |s.resp| + if ToResp(s.reader) then 1 else 0
  }

  lemma OthersKeepCommand(s: State, l: Label)
    requires Enabled(s, l) && !Of(TheCommand, l)
    ensures var t := Apply(s, l);
      && SamePlace(s.pc, t.pc) && t.waiting == s.waiting && s.resp <= t.resp && t.results == s.results
      && (!s.waiting ==> Load(t) <= Load(s))
  {
  }

  lemma OthersKeepReader(s: State, l: Label)
    requires Enabled(s, l) && !Of(TheReader, l)
    ensures var t := Apply(s, l); t.reader == s.reader && s.wire <= t.wire
  {
  }

  /** So OthersRun promises no more than any number of such steps keeps. */
  lemma {:induction false} OthersRunKeepsCommand(ss: seq<State>, ls: seq<Label>, i: nat, j: nat)
    requires IsRun(ss, ls) && i <= j <= |ls| && forall k :: i <= k < j ==> !Of(TheCommand, ls[k])
    ensures SamePlace(ss[i].pc, ss[j].pc) && ss[j].waiting == ss[i].waiting && ss[j].results == ss[i].results
    ensures !ss[j].waiting ==> Load(ss[j]) <= Load(ss[i])
    decreases j
  {
    if i < j {
      OthersRunKeepsCommand(ss, ls, i, j - 1);
      assert StepAt(ss, ls, j - 1);
      OthersKeepCommand(ss[j - 1], ls[j - 1]);
    }
  }

  /** And neither does OthersRunBesideReader. */
  lemma {:induction false} OthersRunKeepsReader(ss: seq<State>, ls: seq<Label>, i: nat, j: nat)
    requires IsRun(ss, ls) && i <= j <= |ls| && forall k :: i <= k < j ==> !Of(TheReader, ls[k])
    ensures ss[j].reader == ss[i].reader && ss[i].wire <= ss[j].wire
    decreases j
  {
    if i < j {
      OthersRunKeepsReader(ss, ls, i, j - 1);
      assert StepAt(ss, ls, j - 1);
      OthersKeepReader(ss[j - 1], ls[j - 1]);
    }
  }

  /** One more result: the command's, with this outcome. */
  predicate Added(before: seq<Result>, after: seq<Result>, cmd: string, reply: seq<string>, outcome: Outcome) {
    && |after| == |before| + 1 && after[..|before|] == before
    && after[|before|].cmd == cmd && after[|before|].reply == reply && after[|before|].outcome == outcome
  }

  /** The steps up to `before`, then n leftovers dropped. */
  function Dropping(before: seq<Label>, n: nat): seq<Label> {
    if n == 0 then before else Dropping(before, n - 1) + [DrainOne]
  }

  /** The steps of a command that drops n leftovers first, up to its write. */
  function Opening(cmd: string, n: nat): seq<Label> {
    Dropping([Begin(cmd)], n) + [DrainEnd] + [Label.SetWaiting]
  }

  /** Looks at the response queue: a line taken, or none there. */
  ghost predicate Looks(looks: seq<Label>) {
    forall l :: l in looks ==> l in {Receive, Wait}
  }

  predicate Puts(l: Label) {
    l in {PushResp, DropResp, PushUrc, DropUrc}
  }

  /** The reader's steps for n lines. */
  ghost predicate ThreeEach(own: seq<Label>, n: nat) {
    && |own| == 3 * n
    && forall k :: 0 <= k < n ==> own[3 * k] == Read && own[3 * k + 1] == Look && Puts(own[3 * k + 2])
  }

  class ATPort {
    var wire: seq<string>       // lines that have come in, not read
    var waiting: bool           // some Command call expects a reply
    var resp: seq<string>
    var urc: seq<string>

    /** The run so far: what every goroutine and the modem did. */
    ghost var states: seq<State>
    ghost var labels: seq<Label>

    ghost predicate Valid()
      reads this
    {
      && IsRun(states, labels)
      && var s := states[|labels|]; s.wire == wire && s.waiting == waiting && s.resp == resp && s.urc == urc
    }

    ghost function Now(): State
      requires Valid()
      reads this
    {
      states[|labels|]
    }

    /** The run has only been extended. */
    twostate predicate Extends()
      reads this
    {
      old(labels) <= labels && old(states) <= states
    }

    constructor ()
      ensures Valid() && labels == []
    {
      wire, waiting, resp, urc := [], false, [], [];
      states, labels := [INIT], [];
    }

    ghost method Take(l: Label)
      requires IsRun(states, labels) && Enabled(states[|labels|], l)
      modifies this`states, this`labels
      ensures IsRun(states, labels)
      ensures labels == old(labels) + [l] && states == old(states) + [Apply(old(states[|labels|]), l)]
    {
      var next := Apply(states[|labels|], l);
      var before, done := states, labels;
      states, labels := states + [next], labels + [l];
      forall k | 0 <= k < |labels| ensures StepAt(states, labels, k) {
        if k < |done| {
          assert StepAt(before, done, k);
        }
      }
    }

    /** Any number of steps of the others while a command runs. The body takes none; callers know only the contract,
        so they are proved against every interference it allows. */
    method OthersRun()
      requires Valid()
      modifies this
      ensures Valid() && Extends() && SamePlace(old(Now()).pc, Now().pc) && waiting == old(waiting)
      ensures Now().results == old(Now()).results && (!waiting ==> Load(Now()) <= Load(old(Now())))
      ensures forall k :: |old(labels)| <= k < |labels| ==> !Of(TheCommand, labels[k])
    {
    }

    /** The same for the line reader. */
    method OthersRunBesideReader()
      requires Valid()
      modifies this
      ensures Valid() && Extends() && Now().reader == old(Now()).reader && old(wire) <= wire
      ensures forall k :: |old(labels)| <= k < |labels| ==> !Of(TheReader, labels[k])
    {
    }

    /** Others act. None of their steps is one of the command's. */
    method Pause(ghost from: nat)
      requires Valid() && from <= |labels|
      modifies this
      ensures Valid() && Extends() && SamePlace(old(Now()).pc, Now().pc) && waiting == old(waiting)
      ensures Now().results == old(Now()).results && (!waiting ==> Load(Now()) <= Load(old(Now())))
      ensures Own(Of, TheCommand, labels, from) == Own(Of, TheCommand, old(labels), from)
    {
      OthersRun();
      OwnStays(Of, TheCommand, old(labels), labels, from);
    }

    method SetWaiting(v: bool, ghost from: nat)
      requires Valid() && (if v then Now().pc.Drained? else Now().pc.Closing?) && from <= |labels|
      modifies this
      ensures Valid() && Extends() && waiting == v && Now().results == old(Now()).results
      ensures Now().pc == if v then Ready(old(Now()).pc.cmd) else Idle
      ensures Own(Of, TheCommand, labels, from)
              == Own(Of, TheCommand, old(labels), from) + [if v then Label.SetWaiting else Unset]
    {
      Take(if v then Label.SetWaiting else Unset);
      OwnLast(Of, TheCommand, old(labels), if v then Label.SetWaiting else Unset, from);
      waiting := v;
    }

    /** io.WriteString; `reply` is what the modem answers. */
    method WriteCommand(cmd: string, ok: bool, ghost reply: seq<string>, ghost from: nat)
      requires Valid() && Now().pc == Ready(cmd) && from <= |labels|
      modifies this
      ensures Valid() && Extends() && Now().results == old(Now()).results
      ensures if ok then At(cmd, [], reply) else Now().pc.Closing?
      ensures Own(Of, TheCommand, labels, from)
              == Own(Of, TheCommand, old(labels), from) + [if ok then Write(reply) else WriteFails]
    {
      if ok {
        Take(Write(reply));
      } else {
        Take(WriteFails);
      }
      OwnLast(Of, TheCommand, old(labels), if ok then Write(reply) else WriteFails, from);
    }

    /** Command has collected these lines and waits for more of this reply. */
    ghost predicate At(cmd: string, lines: seq<string>, reply: seq<string>)
      requires Valid()
      reads this
    {
      Now().pc.Awaiting? && Now().pc.cmd == cmd && Now().pc.lines == lines && Now().pc.reply == reply
    }

    /** What is still queued from earlier commands is thrown away. */
    method Drain(ghost from: nat) returns (ghost n: nat)
      requires Valid() && Now().pc.Draining? && !waiting && from <= |labels|
      modifies this
      ensures Valid() && Extends() && Now().pc == Drained(old(Now()).pc.cmd) && Now().results == old(Now()).results
      ensures Own(Of, TheCommand, labels, from) == Dropping(Own(Of, TheCommand, old(labels), from), n) + [DrainEnd]
    {
      n := 0;
      while |resp| > 0
        invariant Valid() && Extends() && !waiting
        invariant Now().pc == old(Now()).pc && Now().results == old(Now()).results
        invariant Own(Of, TheCommand, labels, from) == Dropping(Own(Of, TheCommand, old(labels), from), n)
        decreases Load(Now())
      {
        DropOne(from);
        Pause(from);
        n := n + 1;
      }
      ghost var before := labels;
      Take(DrainEnd);
      OwnLast(Of, TheCommand, before, DrainEnd, from);
    }

    method DropOne(ghost from: nat)
      requires Valid() && Now().pc.Draining? && resp != [] && from <= |labels|
      modifies this
      ensures Valid() && Extends() && waiting == old(waiting)
      ensures Now().pc == old(Now()).pc && Now().results == old(Now()).results && Load(Now()) < Load(old(Now()))
      ensures Own(Of, TheCommand, labels, from) == Own(Of, TheCommand, old(labels), from) + [DrainOne]
    {
      Take(DrainOne);
      OwnLast(Of, TheCommand, old(labels), DrainOne, from);
      resp := resp[1..];
    }

    /** One line from the response queue. */
    method ReceiveLine(cmd: string, lines: seq<string>, ghost reply: seq<string>, ghost from: nat)
      returns (next: Outcome)
      requires Valid() && At(cmd, lines, reply) && resp != [] && from <= |labels|
      modifies this
      ensures Valid() && Extends()
      ensures next.More? ==> At(cmd, next.lines, reply) && Now().results == old(Now()).results
      ensures !next.More? ==> Now().pc.Closing? && Added(old(Now()).results, Now().results, cmd, reply, next)
      ensures Own(Of, TheCommand, labels, from) == Own(Of, TheCommand, old(labels), from) + [Receive]
    {
      var line := resp[0];
      Take(Receive);
      OwnLast(Of, TheCommand, old(labels), Receive, from);
      resp := resp[1..];
      if line == cmd {
        next := More(lines);   // the modem repeats the command
      } else if line == "OK" {
        next := Done(lines);
      } else if line == "ERROR" || StartsWith(line, "+CME ERROR") || StartsWith(line, "+CMS ERROR") {
        next := Failed(lines, line);
      } else {
        next := More(lines + [line]);
      }
    }

    /** One look at the response queue. */
    method LookOnce(cmd: string, lines: seq<string>, ghost reply: seq<string>, ghost from: nat)
      returns (next: Outcome, ghost l: Label)
      requires Valid() && At(cmd, lines, reply) && from <= |labels|
      modifies this
      ensures Valid() && Extends()
      ensures next.More? ==> At(cmd, next.lines, reply) && Now().results == old(Now()).results
      ensures !next.More? ==> Now().pc.Closing? && Added(old(Now()).results, Now().results, cmd, reply, next)
      ensures l in {Receive, Wait}
      ensures Own(Of, TheCommand, labels, from) == Own(Of, TheCommand, old(labels), from) + [l]
    {
      Pause(from);
      if resp != [] {
        next := ReceiveLine(cmd, lines, reply, from);
        l := Receive;
      } else {
        ghost var before := labels;
        Take(Wait);
        OwnLast(Of, TheCommand, before, Wait, from);
        next, l := More(lines), Wait;
      }
    }

    /** Collects the response, in at most `patience` looks at the queue. */
    method Await(cmd: string, patience: nat, ghost reply: seq<string>, ghost from: nat)
      returns (outcome: Outcome, ghost looks: seq<Label>)
      requires Valid() && At(cmd, [], reply) && from <= |labels|
      modifies this
      ensures Valid() && Extends() && Now().pc.Closing?
      ensures if outcome.More? then Now().results == old(Now()).results
              else Added(old(Now()).results, Now().results, cmd, reply, outcome)
      ensures Looks(looks) && if outcome.More? then |looks| == patience else |looks| <= patience
      ensures Own(Of, TheCommand, labels, from)
              == Own(Of, TheCommand, old(labels), from) + looks + if outcome.More? then [GiveUp] else []
    {
      ghost var own := Own(Of, TheCommand, labels, from);
      outcome, looks := LookAt(cmd, patience, reply, from);
      assert own + looks + [] == own + looks;
      if outcome.More? {
        ghost var before := labels;
        Take(GiveUp);
        OwnLast(Of, TheCommand, before, GiveUp, from);
      }
    }

    method LookAt(cmd: string, patience: nat, ghost reply: seq<string>, ghost from: nat)
      returns (outcome: Outcome, ghost looks: seq<Label>)
      requires Valid() && At(cmd, [], reply) && from <= |labels|
      modifies this
      ensures Valid() && Extends()
      ensures if outcome.More? then At(cmd, outcome.lines, reply) && Now().results == old(Now()).results
              else Now().pc.Closing? && Added(old(Now()).results, Now().results, cmd, reply, outcome)
      ensures Looks(looks) && if outcome.More? then |looks| == patience else |looks| <= patience
      ensures Own(Of, TheCommand, labels, from) == Own(Of, TheCommand, old(labels), from) + looks
    {
      outcome, looks := More([]), [];
      ghost var own := Own(Of, TheCommand, labels, from);
      assert own + looks == own;
      var n := patience;
      while n > 0 && outcome.More?
        invariant Valid() && Extends() && Looks(looks) && |looks| == patience - n
        invariant if outcome.More? then At(cmd, outcome.lines, reply) && Now().results == old(Now()).results
                  else Now().pc.Closing? && Added(old(Now()).results, Now().results, cmd, reply, outcome)
        invariant Own(Of, TheCommand, labels, from) == own + looks
      {
        ghost var l;
        outcome, l := LookOnce(cmd, outcome.lines, reply, from);
        assert (own + looks) + [l] == own + (looks + [l]);
        looks := looks + [l];
        n := n - 1;
      }
    }

    method Start(cmd: string)
      requires Valid() && Now().pc.Idle?
      modifies this
      ensures Valid() && Extends() && !waiting && Now().pc == Draining(cmd) && Now().results == old(Now()).results
      ensures Own(Of, TheCommand, labels, |old(labels)|) == [Begin(cmd)]
    {
      RunInv(states, labels, |labels|);
      Take(Begin(cmd));
      OwnLast(Of, TheCommand, old(labels), Begin(cmd), |old(labels)|);
    }

    /** Everything up to the point where the command can be written. */
    method Prepare(cmd: string) returns (ghost n: nat)
      requires Valid() && Now().pc.Idle?
      modifies this
      ensures Valid() && Extends() && Now().pc == Ready(cmd) && Now().results == old(Now()).results
      ensures Own(Of, TheCommand, labels, |old(labels)|) == Opening(cmd, n)
    {
      ghost var from := |labels|;
      Start(cmd);
      n := Drain(from);
      Pause(from);
      SetWaiting(true, from);
      Pause(from);
    }

    /** Command. `closed` says whether the port is found closed at once, `written` whether the command can be written,
        and `reply` what the modem answers. It gives up (More) on a closed port, on a write error, and on the timer or a
        cancelled context: after `patience` looks at the queue. Otherwise it has added what it returns to the results:
        unless the reader dropped a line, that is the answer that the first result code gives, among the late lines and
        then its own response. */
    method Command(cmd: string, patience: nat, closed: bool, written: bool, ghost reply: seq<string>)
      returns (outcome: Outcome, ghost n: nat, ghost looks: seq<Label>)
      requires Valid() && Now().pc.Idle?
      modifies this
      ensures Valid() && Extends() && Now().pc.Idle? && (waiting ==> closed)
      ensures if closed then labels == old(labels)
              else Own(Of, TheCommand, labels, |old(labels)|)
                   == (if !written then Opening(cmd, n) + [WriteFails]
                       else Opening(cmd, n) + [Write(reply)] + looks + if outcome.More? then [GiveUp] else []) + [Unset]
      ensures Looks(looks) && if outcome.More? && written && !closed then |looks| == patience else |looks| <= patience
      ensures outcome.More? ==> Now().results == old(Now()).results
      ensures !outcome.More? ==> written && !closed && Added(old(Now()).results, Now().results, cmd, reply, outcome)
      ensures !outcome.More? ==>
                var r := Now().results[|old(Now()).results|];
                var lines := r.late + Responses(reply);
                !r.dropped ==> exists k: nat :: CodeAt(cmd, lines, k) && outcome == Answer(cmd, lines, k)
    {
      if closed {
        outcome, n, looks := More([]), 0, [];
        return;
      }
      outcome, n, looks := Converse(cmd, patience, written, reply);
      if !outcome.More? && !Now().results[|old(Now()).results|].dropped {
        LastAnswered();
      }
    }

    /** Command on an open port. */
    method Converse(cmd: string, patience: nat, written: bool, ghost reply: seq<string>)
      returns (outcome: Outcome, ghost n: nat, ghost looks: seq<Label>)
      requires Valid() && Now().pc.Idle?
      modifies this
      ensures Valid() && Extends() && Now().pc.Idle? && !waiting
      ensures Own(Of, TheCommand, labels, |old(labels)|)
              == (if !written then Opening(cmd, n) + [WriteFails]
                  else Opening(cmd, n) + [Write(reply)] + looks + if outcome.More? then [GiveUp] else []) + [Unset]
      ensures Looks(looks) && if outcome.More? && written then |looks| == patience else |looks| <= patience
      ensures if outcome.More? then Now().results == old(Now()).results
              else written && Added(old(Now()).results, Now().results, cmd, reply, outcome)
    {
      n := Prepare(cmd);
      outcome, looks := WriteAndAwait(cmd, patience, written, reply, |old(labels)|);
      Pause(|old(labels)|);
      SetWaiting(false, |old(labels)|);
    }

    method WriteAndAwait(cmd: string, patience: nat, written: bool, ghost reply: seq<string>, ghost from: nat)
      returns (outcome: Outcome, ghost looks: seq<Label>)
      requires Valid() && Now().pc == Ready(cmd) && from <= |labels|
      modifies this
      ensures Valid() && Extends() && Now().pc.Closing?
      ensures if outcome.More? then Now().results == old(Now()).results
              else written && Added(old(Now()).results, Now().results, cmd, reply, outcome)
      ensures Looks(looks) && if outcome.More? && written then |looks| == patience else |looks| <= patience
      ensures var own := Own(Of, TheCommand, old(labels), from);
        Own(Of, TheCommand, labels, from)
        == if !written then own + [WriteFails]
           else own + [Write(reply)] + looks + if outcome.More? then [GiveUp] else []
    {
      WriteCommand(cmd, written, reply, from);
      if written {
        outcome, looks := Await(cmd, patience, reply, from);
      } else {
        outcome, looks := More([]), [];
      }
    }

    /** What the last result says. */
    lemma LastAnswered()
      requires Valid() && Now().results != [] && !Now().results[|Now().results| - 1].dropped
      ensures var r := Now().results[|Now().results| - 1];
        var lines := r.late + Responses(r.reply);
        exists k: nat :: CodeAt(r.cmd, lines, k) && r.outcome == Answer(r.cmd, lines, k)
    {
      var r := Now().results[|Now().results| - 1];
      var k := ReturnsWhatComes(states, labels, |labels|, r);
      assert CodeAt(r.cmd, r.late + Responses(r.reply), k);
    }

    /** dispatch: a line goes to the response queue exactly when a command was waiting as it was looked at, and it is
        no URC, and to the URC queue otherwise; either way it is dropped when that queue is full. `before` is the
        state when it is put there. */
    method Dispatch(line: string, ghost from: nat) returns (ghost before: State, ghost l: Label)
      requires Valid() && Now().reader == Have(line) && from <= |labels|
      modifies this
      ensures Valid() && Extends() && Now().reader.Free? && |labels| > |old(labels)| && before == states[|labels| - 1]
      ensures var isResponse := old(waiting) && !IsURC(line);
        && resp == before.resp + (if isResponse && |before.resp| < 256 then [line] else [])
        && urc == before.urc + (if !isResponse && |before.urc| < 32 then [line] else [])
      ensures Puts(l) && Own(Of, TheReader, labels, from) == Own(Of, TheReader, old(labels), from) + [Look] + [l]
      ensures |wire| >= |old(wire)|
    {
      var was := waiting;
      LookAtFlag(line, from);
      before := Now();
      ghost var looked := labels;
      if was && !IsURC(line) {
        PutResponse(line);
      } else {
        PutUrc(line);
      }
      l := labels[|looked|];
      OwnLast(Of, TheReader, looked, l, from);
    }

    method LookAtFlag(line: string, ghost from: nat)
      requires Valid() && Now().reader == Have(line) && from <= |labels|
      modifies this
      ensures Valid() && Extends() && Now().reader == Looked(line, old(waiting)) && |wire| >= |old(wire)|
      ensures |labels| > |old(labels)|
      ensures Own(Of, TheReader, labels, from) == Own(Of, TheReader, old(labels), from) + [Look]
    {
      Take(Look);
      OwnLast(Of, TheReader, old(labels), Look, from);
      PauseReader(from);
    }

    /** Others act. None of their steps is one of the reader's. */
    method PauseReader(ghost from: nat)
      requires Valid() && from <= |labels|
      modifies this
      ensures Valid() && Extends() && Now().reader == old(Now()).reader && |wire| >= |old(wire)|
      ensures Own(Of, TheReader, labels, from) == Own(Of, TheReader, old(labels), from)
    {
      OthersRunBesideReader();
      OwnStays(Of, TheReader, old(labels), labels, from);
    }

    method PutResponse(line: string)
      requires Valid() && Now().reader == Looked(line, true) && !IsURC(line)
      modifies this
      ensures Valid() && labels == old(labels) + [if |old(resp)| < RESP_SIZE then PushResp else DropResp]
      ensures old(states) <= states && Now().reader.Free? && urc == old(urc) && wire == old(wire)
      ensures resp == old(resp) + if |old(resp)| < RESP_SIZE then [line] else []
    {
      if |resp| < RESP_SIZE {
        Take(PushResp);
        resp := resp + [line];
      } else {
        Take(DropResp);
      }
    }

    method PutUrc(line: string)
      requires Valid() && Now().reader.Looked? && Now().reader.line == line && !ToResp(Now().reader)
      modifies this
      ensures Valid() && labels == old(labels) + [if |old(urc)| < URC_SIZE then PushUrc else DropUrc]
      ensures old(states) <= states && Now().reader.Free? && resp == old(resp) && wire == old(wire)
      ensures urc == old(urc) + if |old(urc)| < URC_SIZE then [line] else []
    {
      if |urc| < URC_SIZE {
        Take(PushUrc);
        urc := urc + [line];
      } else {
        Take(DropUrc);
      }
    }

    /** readLoop, for the lines that are there: each of them is read, looked at, and put into a queue or dropped. */
    method ReadLoop()
      requires Valid() && Now().reader.Free?
      modifies this
      ensures Valid() && Extends() && Now().reader.Free?
      ensures ThreeEach(Own(Of, TheReader, labels, |old(labels)|), |old(wire)|)
    {
      var n, i := |wire|, 0;
      while i < n
        invariant 0 <= i <= n && Valid() && Extends() && Now().reader.Free? && |wire| >= n - i
        invariant ThreeEach(Own(Of, TheReader, labels, |old(labels)|), i)
      {
        ReadLine(|old(labels)|);
        i := i + 1;
      }
    }

    method ReadLine(ghost from: nat)
      requires Valid() && Now().reader.Free? && wire != [] && from <= |labels|
      modifies this
      ensures Valid() && Extends() && Now().reader.Free? && |wire| >= |old(wire)| - 1
      ensures exists l :: Puts(l)
                && Own(Of, TheReader, labels, from) == Own(Of, TheReader, old(labels), from) + [Read] + [Look] + [l]
    {
      var line := wire[0];
      Take(Read);
      OwnLast(Of, TheReader, old(labels), Read, from);
      wire := wire[1..];
      PauseReader(from);
      ghost var before, l := Dispatch(line, from);
    }
  }
}
