/** The AT command channel as a state machine: the modem, the line reader and one command at a time, as goroutines
  that share the flag `waiting` and two queues. (internal/modem/at.go) */
module AtPort {
  import opened Text

  const URC_PREFIXES := [
    "+CMTI:", "+CDSI:", "+CMT:", "+CDS:", "RING", "+CLIP:", "+CGEV:",
    "SMS DONE", "PB DONE", "*ATREADY", "+CPIN: NOT READY", "NO CARRIER"]

  const RESP_SIZE := 256
  const URC_SIZE := 32

  predicate IsURC(line: string) {
    exists i :: 0 <= i < |URC_PREFIXES| && StartsWith(line, URC_PREFIXES[i])
  }

  /** A URC is a line that starts with one of these twelve texts. */
  lemma UrcIff(line: string)
    ensures IsURC(line) <==>
              || "+CMTI:" <= line || "+CDSI:" <= line || "+CMT:" <= line || "+CDS:" <= line || "RING" <= line
              || "+CLIP:" <= line || "+CGEV:" <= line || "SMS DONE" <= line || "PB DONE" <= line
              || "*ATREADY" <= line || "+CPIN: NOT READY" <= line || "NO CARRIER" <= line
  {
    forall i | 0 <= i < |URC_PREFIXES| ensures StartsWith(line, URC_PREFIXES[i]) <==> URC_PREFIXES[i] <= line {
    }
    assert URC_PREFIXES[0] == "+CMTI:" && URC_PREFIXES[1] == "+CDSI:" && URC_PREFIXES[2] == "+CMT:";
    assert URC_PREFIXES[3] == "+CDS:" && URC_PREFIXES[4] == "RING" && URC_PREFIXES[5] == "+CLIP:";
    assert URC_PREFIXES[6] == "+CGEV:" && URC_PREFIXES[7] == "SMS DONE" && URC_PREFIXES[8] == "PB DONE";
    assert URC_PREFIXES[9] == "*ATREADY" && URC_PREFIXES[10] == "+CPIN: NOT READY" && URC_PREFIXES[11] == "NO CARRIER";
  }

  // ------------------------------------------------------------------ what a command returns

  datatype Outcome = More(lines: seq<string>) | Done(lines: seq<string>) | Failed(lines: seq<string>, line: string)

  function Take(cmd: string, lines: seq<string>, line: string): Outcome {
    if line == cmd then More(lines)
    else if line == "OK" then Done(lines)
    else if line == "ERROR" || StartsWith(line, "+CME ERROR") || StartsWith(line, "+CMS ERROR") then Failed(lines, line)
    else More(lines + [line])
  }

  /** What Command makes of a response. */
  function Collect(cmd: string, response: seq<string>): Outcome {
    if response == [] then More([])
    else Then(cmd, Collect(cmd, response[..|response| - 1]), response[|response| - 1])
  }

  function Then(cmd: string, before: Outcome, line: string): Outcome {
    if before.More? then Take(cmd, before.lines, line) else before
  }

  lemma CollectSnoc(cmd: string, response: seq<string>, line: string)
    ensures Collect(cmd, response + [line]) == Then(cmd, Collect(cmd, response), line)
  {
    assert (response + [line])[..|response|] == response;
  }

  /** A final result code. */
  predicate IsFinal(line: string) {
    line == "OK" || line == "ERROR" || "+CME ERROR" <= line || "+CMS ERROR" <= line
  }

  /** The lines without the echo of the command. */
  function Body(cmd: string, lines: seq<string>): seq<string> {
    if lines == [] then []
    else
      var last := lines[|lines| - 1];
      Body(cmd, lines[..|lines| - 1]) + if last == cmd then [] else [last]
  }

  /** The k-th line is the first result code. */
  ghost predicate CodeAt(cmd: string, lines: seq<string>, k: nat) {
    && k < |lines| && lines[k] != cmd && IsFinal(lines[k])
    && forall i :: 0 <= i < k ==> lines[i] == cmd || !IsFinal(lines[i])
  }

  /** The answer when the k-th line is the first result code: what stands before it, as a success after OK and as an
      error after any other code. */
  function Answer(cmd: string, lines: seq<string>, k: nat): Outcome
    requires k < |lines|
  {
    if lines[k] == "OK" then Done(Body(cmd, lines[..k])) else Failed(Body(cmd, lines[..k]), lines[k])
  }

  /** Once a result code has been taken, what follows changes nothing. */
  lemma {:induction false} CollectStops(cmd: string, lines: seq<string>, rest: seq<string>)
    requires !Collect(cmd, lines).More?
    ensures Collect(cmd, lines + rest) == Collect(cmd, lines)
  {
    if rest == [] {
      assert lines + rest == lines;
    } else {
      var front, last := rest[..|rest| - 1], rest[|rest| - 1];
      CollectStops(cmd, lines, front);
      assert lines + rest == (lines + front) + [last];
      CollectSnoc(cmd, lines + front, last);
    }
  }

  lemma {:induction false} CollectsBody(cmd: string, lines: seq<string>)
    requires forall i :: 0 <= i < |lines| ==> lines[i] == cmd || !IsFinal(lines[i])
    ensures Collect(cmd, lines) == More(Body(cmd, lines))
  {
    if lines != [] {
      CollectsBody(cmd, lines[..|lines| - 1]);
    }
  }

  /** The first result code decides: OK makes the lines before it a success; ERROR, +CME ERROR and +CMS ERROR make them
      an error. */
  lemma CodeDecides(cmd: string, lines: seq<string>, k: nat)
    requires CodeAt(cmd, lines, k)
    ensures Collect(cmd, lines) == Answer(cmd, lines, k)
  {
    CollectsBody(cmd, lines[..k]);
    CollectSnoc(cmd, lines[..k], lines[k]);
    assert lines == (lines[..k] + [lines[k]]) + lines[k + 1..];
    CollectStops(cmd, lines[..k] + [lines[k]], lines[k + 1..]);
  }

  /** A command ends exactly when there is a result code. */
  lemma {:induction false} EndsIff(cmd: string, lines: seq<string>) returns (k: nat)
    ensures if Collect(cmd, lines).More? then forall i :: 0 <= i < |lines| ==> lines[i] == cmd || !IsFinal(lines[i])
            else CodeAt(cmd, lines, k)
  {
    k := 0;
    if lines != [] {
      k := EndsIff(cmd, lines[..|lines| - 1]);
      if Collect(cmd, lines[..|lines| - 1]).More? {
        k := |lines| - 1;
      }
    }
  }

  /** The response ends with a final result code and holds no other, and no URC is part of it. */
  ghost predicate WellFormed(cmd: string, reply: seq<string>) {
    && reply != [] && IsFinal(reply[|reply| - 1]) && reply[|reply| - 1] != cmd
    && (forall i :: 0 <= i < |reply| - 1 ==> reply[i] == cmd || !IsFinal(reply[i]))
    && (forall i :: 0 <= i < |reply| ==> !IsURC(reply[i]))
  }

  // ------------------------------------------------------------------ the machine

  /** Where Command is. reply: its own response; late: the lines of earlier responses that could still reach it when it
      was written; got: the lines it has taken from the response queue; dropped: the reader gave up on a line since. */
  datatype Pc =
    | Idle
    | Draining(cmd: string)
    | Drained(cmd: string)
    | Ready(cmd: string)
    | Awaiting(cmd: string, lines: seq<string>, reply: seq<string>, late: seq<string>, got: seq<string>, dropped: bool)
    | Closing

  datatype Reader = Free | Have(line: string) | Looked(line: string, waiting: bool)

  datatype Result = Result(cmd: string, reply: seq<string>, late: seq<string>, outcome: Outcome, dropped: bool)

  /** modem: response lines still to be sent; wire: lines sent and not read; results: what commands returned, apart
      from those that gave up; tainted: a command gave up, a line was dropped, or a reply was not well formed. */
  datatype State = State(
    modem: seq<string>, wire: seq<string>, reader: Reader, waiting: bool, resp: seq<string>, urc: seq<string>,
    pc: Pc, results: seq<Result>, tainted: bool)

  datatype Label =
    | Begin(cmd: string) | DrainOne | DrainEnd | SetWaiting | Write(reply: seq<string>) | WriteFails
    | Receive | Wait | GiveUp | Unset
    | ModemUrc(line: string) | ModemReply
    | Read | Look | PushResp | DropResp | PushUrc | DropUrc | TakeUrc

  predicate ToResp(r: Reader) {
    r.Looked? && r.waiting && !IsURC(r.line)
  }

  predicate Enabled(s: State, l: Label) {
    match l
    case Begin(_) => s.pc.Idle?
    case DrainOne => s.pc.Draining? && s.resp != []
    case DrainEnd => s.pc.Draining? && s.resp == []
    case SetWaiting => s.pc.Drained?
    case Write(_) => s.pc.Ready?
    case WriteFails => s.pc.Ready?
    case Receive => s.pc.Awaiting? && s.resp != []
    case Wait => s.pc.Awaiting? && s.resp == []
    case GiveUp => s.pc.Awaiting?                // timer, cancelled context, or closed port
    case Unset => s.pc.Closing?
    case ModemUrc(line) => IsURC(line)
    case ModemReply => s.modem != []
    case Read => s.reader.Free? && s.wire != []
    case Look => s.reader.Have?
    case PushResp => ToResp(s.reader) && |s.resp| < RESP_SIZE
    case DropResp => ToResp(s.reader) && |s.resp| >= RESP_SIZE
    case PushUrc => s.reader.Looked? && !ToResp(s.reader) && |s.urc| < URC_SIZE
    case DropUrc => s.reader.Looked? && !ToResp(s.reader) && |s.urc| >= URC_SIZE
    case TakeUrc => s.urc != []
  }

  function Received(s: State): State
    requires s.pc.Awaiting? && s.resp != []
  {
    var p, line := s.pc, s.resp[0];
    var n := s.(resp := s.resp[1..]);
    var outcome := Take(p.cmd, p.lines, line);
    if outcome.More? then n.(pc := p.(lines := outcome.lines, got := p.got + [line]))
    else n.(pc := Closing, results := s.results + [Result(p.cmd, p.reply, p.late, outcome, p.dropped)])
  }

  ghost function Apply(s: State, l: Label): State
    requires Enabled(s, l)
  {
    match l
    case Begin(cmd) => s.(pc := Draining(cmd))
    case DrainOne => s.(resp := s.resp[1..])
    case DrainEnd => s.(pc := Drained(s.pc.cmd))
    case SetWaiting => s.(pc := Ready(s.pc.cmd), waiting := true)
    case Write(reply) =>
      s.(pc := Awaiting(s.pc.cmd, [], reply, Reaching(s), [], false),
         modem := s.modem + reply, tainted := s.tainted || !WellFormed(s.pc.cmd, reply))
    case WriteFails => s.(pc := Closing)
    case Receive => Received(s)
    case Wait => s
    case GiveUp => s.(pc := Closing, tainted := true)
    case Unset => s.(pc := Idle, waiting := false)
    case ModemUrc(line) => s.(wire := s.wire + [line])
    case ModemReply => s.(wire := s.wire + [s.modem[0]], modem := s.modem[1..])
    case Read => s.(reader := Have(s.wire[0]), wire := s.wire[1..])
    case Look => s.(reader := Looked(s.reader.line, s.waiting))
    case PushResp => s.(resp := s.resp + [s.reader.line], reader := Free)
    case DropResp => s.(reader := Free, tainted := true, pc := if s.pc.Awaiting? then s.pc.(dropped := true) else s.pc)
    case PushUrc => s.(urc := s.urc + [s.reader.line], reader := Free)
    case DropUrc => s.(reader := Free)
    case TakeUrc => s.(urc := s.urc[1..])
  }

  ghost predicate Follows(s: State, l: Label, t: State) {
    Enabled(s, l) && t == Apply(s, l)
  }

  const INIT := State([], [], Free, false, [], [], Idle, [], false)

  ghost predicate StepAt(ss: seq<State>, ls: seq<Label>, i: nat)
    requires |ss| == |ls| + 1 && i < |ls|
  {
    Follows(ss[i], ls[i], ss[i + 1])
  }

  ghost predicate IsRun(ss: seq<State>, ls: seq<Label>) {
    && |ss| == |ls| + 1 && ss[0] == INIT
    && forall i :: 0 <= i < |ls| ==> StepAt(ss, ls, i)
  }

  // ------------------------------------------------------------------ the invariant

  function Responses(lines: seq<string>): seq<string> {
    if lines == [] then []
    else Responses(lines[..|lines| - 1]) + if IsURC(lines[|lines| - 1]) then [] else [lines[|lines| - 1]]
  }

  function InHand(r: Reader): seq<string> {
    if r.Free? || IsURC(r.line) then [] else [r.line]
  }

  /** A line that was looked at while no command waited goes to the URC queue. */
  predicate Diverted(r: Reader) {
    r.Looked? && !r.waiting && !IsURC(r.line)
  }

  /** The line that the reader holds for the command. */
  function Held(r: Reader): seq<string> {
    if Diverted(r) then [] else InHand(r)
  }

  function Coming(wire: seq<string>, modem: seq<string>): seq<string> {
    Responses(wire) + Responses(modem)
  }

  /** Response lines that can reach the command that is waiting, oldest first. */
  function Reaching(s: State): seq<string> {
    s.resp + (Held(s.reader) + Coming(s.wire, s.modem))
  }

  /** No response line is anywhere between the modem and the command. */
  ghost predicate Quiet(s: State) {
    Reaching(s) == [] && !Diverted(s.reader)
  }

  /** What was to come when the command was written has been taken or is still to come, in order. */
  ghost predicate Flows(s: State) {
    s.pc.Awaiting? && !s.pc.dropped ==>
      && s.pc.got + Reaching(s) == s.pc.late + Responses(s.pc.reply)
      && Collect(s.pc.cmd, s.pc.got) == More(s.pc.lines)
  }

  ghost predicate Right(r: Result) {
    !r.outcome.More? && (!r.dropped ==> r.outcome == Collect(r.cmd, r.late + Responses(r.reply)))
  }

  /** Written with nothing of an earlier response to come, and answered with a well formed response. */
  ghost predicate Plain(cmd: string, late: seq<string>, reply: seq<string>, dropped: bool) {
    late == [] && !dropped && WellFormed(cmd, reply)
  }

  /** Until a command gives up, nothing of an old response is ever under way. */
  ghost predicate Tidy(s: State) {
    !s.tainted ==>
      && (if s.pc.Awaiting?
          then Plain(s.pc.cmd, s.pc.late, s.pc.reply, s.pc.dropped) && !Diverted(s.reader)
          else Quiet(s))
      && (forall r :: r in s.results ==> Plain(r.cmd, r.late, r.reply, r.dropped))
      && forall line :: line in s.urc ==> IsURC(line)
  }

  ghost predicate Inv(s: State) {
    && Flows(s) && Tidy(s)
    && (s.pc.Ready? || s.pc.Awaiting? ==> s.waiting)
    && (s.pc.Idle? || s.pc.Draining? ==> !s.waiting)
    && forall r :: r in s.results ==> Right(r)
  }

  lemma {:induction false} ResponsesConcat(a: seq<string>, b: seq<string>)
    ensures Responses(a + b) == Responses(a) + Responses(b)
  {
    if b == [] {
      assert a + b == a;
    } else {
      ResponsesConcat(a, b[..|b| - 1]);
      assert (a + b)[..|a + b| - 1] == a + b[..|b| - 1];
    }
  }

  lemma {:induction false} FinalEnds(cmd: string, reply: seq<string>, k: nat)
    requires WellFormed(cmd, reply) && k < |reply|
    ensures Collect(cmd, reply[..k]).More?
  {
    if k > 0 {
      FinalEnds(cmd, reply, k - 1);
      assert reply[..k] == reply[..k - 1] + [reply[k - 1]];
      CollectSnoc(cmd, reply[..k - 1], reply[k - 1]);
    }
  }

  // What can reach the command changes as a queue does.

  lemma UrcMoves(s: State, line: string, t: State)
    requires Follows(s, ModemUrc(line), t)
    ensures Reaching(t) == Reaching(s)
  {
    ResponsesConcat(s.wire, [line]);
    assert Responses(t.wire) == Responses(s.wire);
  }

  lemma Reassociate(a: seq<string>, b: seq<string>, c: seq<string>)
    ensures a + (b + c) == (a + b) + c
  {
  }

  lemma ResponsesOfOne(line: string)
    ensures Responses([line]) == if IsURC(line) then [] else [line]
  {
  }

  lemma ReplyMoves(s: State, t: State)
    requires s.modem != [] && t.wire == s.wire + [s.modem[0]] && t.modem == s.modem[1..]
    requires t.resp == s.resp && t.reader == s.reader
    ensures Reaching(t) == Reaching(s)
  {
    var first := [s.modem[0]];
    assert s.modem == first + t.modem;
    ResponsesConcat(s.wire, first);
    ResponsesConcat(first, t.modem);
    Reassociate(Responses(s.wire), Responses(first), Responses(t.modem));
  }

  lemma ComingFirst(wire: seq<string>, modem: seq<string>)
    requires wire != []
    ensures Coming(wire, modem) == Responses([wire[0]]) + Coming(wire[1..], modem)
  {
    assert wire == [wire[0]] + wire[1..];
    ResponsesConcat([wire[0]], wire[1..]);
    Reassociate(Responses([wire[0]]), Responses(wire[1..]), Responses(modem));
  }

  lemma ReadMoves(s: State, t: State)
    requires s.reader.Free? && s.wire != [] && t.reader == Have(s.wire[0]) && t.wire == s.wire[1..]
    requires t.resp == s.resp && t.modem == s.modem
    ensures Reaching(t) == Reaching(s)
  {
    ComingFirst(s.wire, s.modem);
    ResponsesOfOne(s.wire[0]);
    assert Held(s.reader) + Coming(s.wire, s.modem) == Coming(s.wire, s.modem);
  }

  lemma WriteMoves(s: State, reply: seq<string>, t: State)
    requires t.resp == s.resp && t.reader == s.reader && t.wire == s.wire && t.modem == s.modem + reply
    ensures Reaching(t) == Reaching(s) + Responses(reply)
  {
    ResponsesConcat(s.modem, reply);
    assert Coming(t.wire, t.modem) == Coming(s.wire, s.modem) + Responses(reply);
  }

  lemma ReceiveMoves(s: State, t: State)
    requires s.resp != [] && t.resp == s.resp[1..] && t.reader == s.reader && t.wire == s.wire && t.modem == s.modem
    ensures Reaching(s) == [s.resp[0]] + Reaching(t)
  {
    assert s.resp == [s.resp[0]] + t.resp;
  }

  lemma {:induction false} AllResponses(lines: seq<string>)
    requires forall i :: 0 <= i < |lines| ==> !IsURC(lines[i])
    ensures Responses(lines) == lines
  {
    if lines != [] {
      AllResponses(lines[..|lines| - 1]);
      assert lines == lines[..|lines| - 1] + [lines[|lines| - 1]];
    }
  }

  lemma WriteInv(s: State, reply: seq<string>, t: State)
    requires Inv(s) && Follows(s, Write(reply), t)
    ensures Inv(t)
  {
    WriteMoves(s, reply, t);
    assert [] + Reaching(t) == Reaching(t);
  }

  /** The command takes the next line; if that ends it, the lines to come change nothing. */
  lemma NextLine(s: State, t: State)
    requires Flows(s) && Follows(s, Receive, t) && !s.pc.dropped
    ensures var p := s.pc;
      && p.got + [s.resp[0]] + Reaching(t) == p.late + Responses(p.reply)
      && Collect(p.cmd, p.got + [s.resp[0]]) == Take(p.cmd, p.lines, s.resp[0])
      && (!Take(p.cmd, p.lines, s.resp[0]).More? ==>
            Take(p.cmd, p.lines, s.resp[0]) == Collect(p.cmd, p.late + Responses(p.reply)))
  {
    ReceiveMoves(s, t);
    var p, line := s.pc, s.resp[0];
    CollectSnoc(p.cmd, p.got, line);
    Reassociate(p.got, [line], Reaching(t));
    if !Take(p.cmd, p.lines, line).More? {
      CollectStops(p.cmd, p.got + [line], Reaching(t));
    }
  }

  /** The final line of a well formed response leaves nothing behind. */
  lemma LastLine(cmd: string, reply: seq<string>, got: seq<string>, rest: seq<string>)
    requires WellFormed(cmd, reply) && got + rest == reply && !Collect(cmd, got).More?
    ensures rest == []
  {
    assert reply[..|got|] == got;
    if |got| < |reply| {
      FinalEnds(cmd, reply, |got|);
    }
  }

  lemma OwnOnly(cmd: string, late: seq<string>, reply: seq<string>)
    requires late == [] && WellFormed(cmd, reply)
    ensures late + Responses(reply) == reply
  {
    AllResponses(reply);
  }

  lemma Ends(s: State, t: State)
    requires Follows(s, Receive, t) && t.pc.Closing?
    ensures !Take(s.pc.cmd, s.pc.lines, s.resp[0]).More?
  {
  }

  lemma NothingBehind(s: State, t: State)
    requires Flows(s) && Follows(s, Receive, t) && t.pc.Closing?
    requires Plain(s.pc.cmd, s.pc.late, s.pc.reply, s.pc.dropped)
    ensures Reaching(t) == []
  {
    var got, rest := s.pc.got + [s.resp[0]], Reaching(t);
    NextLine(s, t);
    Ends(s, t);
    OwnOnly(s.pc.cmd, s.pc.late, s.pc.reply);
    LastLine(s.pc.cmd, s.pc.reply, got, rest);
  }

  lemma ReceiveTidy(s: State, t: State)
    requires Flows(s) && Tidy(s) && Follows(s, Receive, t)
    ensures Tidy(t)
  {
    if !s.tainted && t.pc.Closing? {
      NothingBehind(s, t);
    }
  }

  lemma ReceiveInv(s: State, t: State)
    requires Inv(s) && Follows(s, Receive, t)
    ensures Inv(t)
  {
    if !s.pc.dropped {
      NextLine(s, t);
    }
    ReceiveTidy(s, t);
  }

  /** Lines have only moved on, between the modem and the queues. */
  ghost predicate OnlyMoved(s: State, t: State) {
    && Reaching(t) == Reaching(s) && (Diverted(t.reader) ==> Diverted(s.reader))
    && t.pc == s.pc && t.results == s.results && t.tainted == s.tainted && t.waiting == s.waiting
  }

  lemma MovedInv(s: State, t: State)
    requires Inv(s) && OnlyMoved(s, t) && (!s.tainted ==> forall line :: line in t.urc ==> IsURC(line))
    ensures Inv(t)
  {
  }

  lemma LineMoves(s: State, l: Label, t: State)
    requires Follows(s, l, t) && (l.ModemUrc? || l.ModemReply? || l.Read? || l.PushResp? || l.TakeUrc?)
    ensures OnlyMoved(s, t) && forall line :: line in t.urc ==> line in s.urc
  {
    if l.ModemUrc? {
      UrcMoves(s, l.line, t);
    } else if l.ModemReply? {
      ReplyMoves(s, t);
    } else if l.Read? {
      ReadMoves(s, t);
    }
  }

  lemma LookInv(s: State, t: State)
    requires Inv(s) && Follows(s, Look, t)
    ensures Inv(t)
  {
    assert |Reaching(s)| >= |InHand(s.reader)|;
    if !Diverted(t.reader) {
      assert OnlyMoved(s, t);
      MovedInv(s, t);
    }
  }

  lemma UrcLineMoves(s: State, l: Label, t: State)
    requires Follows(s, l, t) && (l.PushUrc? || l.DropUrc?)
    ensures OnlyMoved(s, t) && forall line :: line in t.urc ==> line in s.urc || line == s.reader.line
    ensures IsURC(s.reader.line) || Diverted(s.reader)
  {
    assert Held(s.reader) == [] && Held(t.reader) == [];
  }

  /** What goes to the URC queue, or is lost there, could not reach a command. */
  lemma UrcInv(s: State, l: Label, t: State)
    requires Inv(s) && Follows(s, l, t) && (l.PushUrc? || l.DropUrc?)
    ensures Inv(t)
  {
    UrcLineMoves(s, l, t);
    MovedInv(s, t);
  }

  lemma DropInv(s: State, t: State)
    requires Inv(s) && Follows(s, DropResp, t)
    ensures Inv(t)
  {
  }

  lemma CommandInv(s: State, l: Label, t: State)
    requires Inv(s) && Follows(s, l, t)
    requires || l.Begin? || l.DrainOne? || l.DrainEnd? || l.SetWaiting? || l.WriteFails?
             || l.Wait? || l.GiveUp? || l.Unset?
    ensures Inv(t)
  {
  }

  lemma StepInv(s: State, l: Label, t: State)
    requires Inv(s) && Follows(s, l, t)
    ensures Inv(t)
  {
    match l
    case Write(reply) => WriteInv(s, reply, t);
    case Receive => ReceiveInv(s, t);
    case Begin(_) => CommandInv(s, l, t);
    case DrainOne => CommandInv(s, l, t);
    case DrainEnd => CommandInv(s, l, t);
    case SetWaiting => CommandInv(s, l, t);
    case WriteFails => CommandInv(s, l, t);
    case Wait => CommandInv(s, l, t);
    case GiveUp => CommandInv(s, l, t);
    case Unset => CommandInv(s, l, t);
    case PushUrc => UrcInv(s, l, t);
    case DropUrc => UrcInv(s, l, t);
    case DropResp => DropInv(s, t);
    case Look => LookInv(s, t);
    case _ =>
      LineMoves(s, l, t);
      MovedInv(s, t);
  }

  lemma {:induction false} RunInv(ss: seq<State>, ls: seq<Label>, n: nat)
    requires IsRun(ss, ls) && n <= |ls|
    ensures Inv(ss[n])
  {
    if n > 0 {
      RunInv(ss, ls, n - 1);
      assert StepAt(ss, ls, n - 1);
      StepInv(ss[n - 1], ls[n - 1], ss[n]);
    }
  }

  // ------------------------------------------------------------------ whole runs

  /** What a command returns, whatever URCs arrive meanwhile and whatever the response looks like, unless the reader
      dropped a line: the answer that the first result code gives, among the late lines and then its own response. */
  lemma ReturnsWhatComes(ss: seq<State>, ls: seq<Label>, n: nat, r: Result) returns (k: nat)
    requires IsRun(ss, ls) && n <= |ls| && r in ss[n].results && !r.dropped
    ensures var lines := r.late + Responses(r.reply);
      CodeAt(r.cmd, lines, k) && r.outcome == Collect(r.cmd, lines) == Answer(r.cmd, lines, k)
  {
    RunInv(ss, ls, n);
    k := EndsIff(r.cmd, r.late + Responses(r.reply));
    CodeDecides(r.cmd, r.late + Responses(r.reply), k);
  }

  /** Without late lines that is what its own response says. */
  lemma UrcTransparent(ss: seq<State>, ls: seq<Label>, n: nat, r: Result) returns (k: nat)
    requires IsRun(ss, ls) && n <= |ls| && r in ss[n].results && !r.dropped && r.late == []
    ensures CodeAt(r.cmd, Responses(r.reply), k) && r.outcome == Answer(r.cmd, Responses(r.reply), k)
  {
    k := ReturnsWhatComes(ss, ls, n, r);
    assert [] + Responses(r.reply) == Responses(r.reply);
  }

  ghost predicate Faultless(ss: seq<State>, ls: seq<Label>, n: nat)
    requires |ss| == |ls| + 1 && n <= |ls|
  {
    forall k :: 0 <= k < n ==>
      && !ls[k].GiveUp?
      && (ls[k].Write? ==> |ls[k].reply| <= 256 && ss[k].pc.Ready? && WellFormed(ss[k].pc.cmd, ls[k].reply))
  }

  ghost predicate ShortReply(s: State) {
    s.pc.Awaiting? ==> |s.pc.reply| <= 256
  }

  lemma ReachingSize(s: State)
    ensures |Reaching(s)| >= |s.resp| + |Held(s.reader)|
  {
  }

  lemma ToComeSize(s: State)
    requires Flows(s) && s.pc.Awaiting? && Plain(s.pc.cmd, s.pc.late, s.pc.reply, s.pc.dropped)
    ensures |Reaching(s)| <= |s.pc.reply|
  {
    OwnOnly(s.pc.cmd, s.pc.late, s.pc.reply);
    assert |s.pc.got + Reaching(s)| == |s.pc.reply|;
  }

  /** The response queue has room for a whole response of up to 256 lines. */
  lemma RoomForReply(s: State)
    requires Inv(s) && !s.tainted && ShortReply(s)
    ensures !Enabled(s, DropResp)
  {
    ReachingSize(s);
    if s.pc.Awaiting? {
      ToComeSize(s);
    }
  }

  lemma FaultlessStep(s: State, l: Label, t: State)
    requires Inv(s) && !s.tainted && ShortReply(s) && Follows(s, l, t) && !l.GiveUp?
    requires l.Write? ==> |l.reply| <= 256 && WellFormed(s.pc.cmd, l.reply)
    ensures !t.tainted && ShortReply(t)
  {
    RoomForReply(s);
  }

  lemma PlainIsRight(r: Result)
    requires Right(r) && Plain(r.cmd, r.late, r.reply, r.dropped)
    ensures WellFormed(r.cmd, r.reply) && r.outcome == Answer(r.cmd, r.reply, |r.reply| - 1)
  {
    AllResponses(r.reply);
    assert [] + r.reply == r.reply;
    CodeDecides(r.cmd, r.reply, |r.reply| - 1);
  }

  /** When no command gives up and responses are well formed and of at most 256 lines, nothing is ever dropped or
      mixed up: every command that returned has returned the lines of its response, as a success if that ends with
      OK and else as an error, and only URCs reach the URC queue. */
  lemma {:induction false} NothingMixes(ss: seq<State>, ls: seq<Label>, n: nat)
    requires IsRun(ss, ls) && n <= |ls| && Faultless(ss, ls, n)
    ensures !ss[n].tainted && ShortReply(ss[n])
    ensures forall r :: r in ss[n].results ==>
              WellFormed(r.cmd, r.reply) && r.outcome == Answer(r.cmd, r.reply, |r.reply| - 1)
    ensures forall line :: line in ss[n].urc ==> IsURC(line)
  {
    if n > 0 {
      NothingMixes(ss, ls, n - 1);
      RunInv(ss, ls, n - 1);
      assert StepAt(ss, ls, n - 1);
      FaultlessStep(ss[n - 1], ls[n - 1], ss[n]);
    }
    RunInv(ss, ls, n);
    forall r | r in ss[n].results
      ensures WellFormed(r.cmd, r.reply) && r.outcome == Answer(r.cmd, r.reply, |r.reply| - 1)
    {
      PlainIsRight(r);
    }
  }

  // ------------------------------------------------------------------ late lines

  /** No line but the echo is a result code. */
  ghost predicate NoCode(cmd: string, lines: seq<string>) {
    forall i :: 0 <= i < |lines| ==> lines[i] == cmd || !IsFinal(lines[i])
  }

  ghost predicate AllEcho(cmd: string, lines: seq<string>) {
    forall i :: 0 <= i < |lines| ==> lines[i] == cmd
  }

  lemma {:induction false} BodyEmptyIff(cmd: string, lines: seq<string>)
    ensures Body(cmd, lines) == [] <==> AllEcho(cmd, lines)
  {
    if lines != [] {
      BodyEmptyIff(cmd, lines[..|lines| - 1]);
      assert lines == lines[..|lines| - 1] + [lines[|lines| - 1]];
    }
  }

  lemma MoreIff(cmd: string, lines: seq<string>)
    ensures Collect(cmd, lines).More? <==> NoCode(cmd, lines)
    ensures Collect(cmd, lines).More? ==> (Collect(cmd, lines).lines == [] <==> AllEcho(cmd, lines))
  {
    var k := EndsIff(cmd, lines);
    if Collect(cmd, lines).More? {
      CollectsBody(cmd, lines);
      BodyEmptyIff(cmd, lines);
    }
  }

  /** The outcome with more lines at its front. */
  function InFront(first: seq<string>, o: Outcome): Outcome {
    match o
    case More(lines) => More(first + lines)
    case Done(lines) => Done(first + lines)
    case Failed(lines, line) => Failed(first + lines, line)
  }

  lemma TakeInFront(cmd: string, first: seq<string>, before: Outcome, line: string)
    ensures Then(cmd, InFront(first, before), line) == InFront(first, Then(cmd, before, line))
  {
    if before.More? {
      Reassociate(first, before.lines, [line]);
    }
  }

  lemma {:induction false} CollectInFront(cmd: string, late: seq<string>, own: seq<string>)
    requires Collect(cmd, late).More?
    ensures Collect(cmd, late + own) == InFront(Collect(cmd, late).lines, Collect(cmd, own))
  {
    if own == [] {
      assert late + own == late && Collect(cmd, late).lines + [] == Collect(cmd, late).lines;
    } else {
      var front, last := own[..|own| - 1], own[|own| - 1];
      CollectInFront(cmd, late, front);
      assert late + own == (late + front) + [last];
      CollectSnoc(cmd, late + front, last);
      TakeInFront(cmd, Collect(cmd, late).lines, Collect(cmd, front), last);
    }
  }

  lemma InFrontSame(first: seq<string>, o: Outcome)
    ensures InFront(first, o) == o <==> first == []
  {
    assert |first + o.lines| == |first| + |o.lines|;
    assert [] + o.lines == o.lines;
  }

  /** Late lines with a result code among them are the whole answer; the command's own response is not looked at. Late
      lines without one come in front of its own lines, and the answer is right exactly when all of them are echoes. */
  lemma LateLinesDecide(ss: seq<State>, ls: seq<Label>, n: nat, r: Result)
    requires IsRun(ss, ls) && n <= |ls| && r in ss[n].results && !r.dropped
    ensures !NoCode(r.cmd, r.late) ==> r.outcome == Collect(r.cmd, r.late)
    ensures NoCode(r.cmd, r.late) ==>
              && Collect(r.cmd, r.late).More?
              && r.outcome == InFront(Collect(r.cmd, r.late).lines, Collect(r.cmd, Responses(r.reply)))
    ensures NoCode(r.cmd, r.late) ==> (r.outcome == Collect(r.cmd, Responses(r.reply)) <==> AllEcho(r.cmd, r.late))
  {
    var _ := ReturnsWhatComes(ss, ls, n, r);
    MoreIff(r.cmd, r.late);
    if NoCode(r.cmd, r.late) {
      CollectInFront(r.cmd, r.late, Responses(r.reply));
      InFrontSame(Collect(r.cmd, r.late).lines, Collect(r.cmd, Responses(r.reply)));
    } else {
      CollectStops(r.cmd, r.late, Responses(r.reply));
    }
  }
}
