/** A listing read through the command channel, and what a timed-out command can do to the next one. */
module AtListing {
  import opened Text
  import opened AtPort
  import R = Reader
  import Reading

  const LIST_CMD := "AT+CMGL=4"

  predicate IsHexDigit(c: char) {
    '0' <= c <= '9' || 'A' <= c <= 'F' || 'a' <= c <= 'f'
  }

  predicate IsHex(line: string) {
    line != [] && forall i :: 0 <= i < |line| ==> IsHexDigit(line[i])
  }

  /** Part of a response, for what follows it: no URC, no result code, not the echo. */
  ghost predicate BodyLine(cmd: string, line: string) {
    !IsURC(line) && !IsFinal(line) && line != cmd
  }

  lemma HeadTells(line: string)
    requires line != [] && line[0] !in {'+', 'R', 'S', 'P', '*', 'N'}
    ensures !IsURC(line)
  {
    forall i | 0 <= i < |URC_PREFIXES| ensures !StartsWith(line, URC_PREFIXES[i]) {
      assert URC_PREFIXES[i][0] in {'+', 'R', 'S', 'P', '*', 'N'};
    }
  }

  lemma HexIsPlain(line: string)
    requires IsHex(line)
    ensures BodyLine(LIST_CMD, line)
  {
    HeadTells(line);
    assert IsHexDigit(line[0]) && (|line| > 1 ==> IsHexDigit(line[1]));
    assert "+CME ERROR"[0] == "+CMS ERROR"[0] == '+';
  }

  lemma DiffersSoon(line: string, p: string)
    requires |line| >= 4 && |p| >= 4 && (line[0] != p[0] || line[2] != p[2] || line[3] != p[3])
    ensures !StartsWith(line, p)
  {
    assert |p| <= |line| ==> line[..|p|][0] == line[0] && line[..|p|][2] == line[2] && line[..|p|][3] == line[3];
  }

  lemma HeaderIsPlain(line: string)
    requires StartsWith(line, "+CMGL:")
    ensures BodyLine(LIST_CMD, line)
  {
    assert line[..6] == "+CMGL:";
    assert line[0] == '+' && line[1] == 'C' && line[2] == 'M' && line[3] == 'G' && line[4] == 'L';
    forall i | 0 <= i < |URC_PREFIXES| ensures !StartsWith(line, URC_PREFIXES[i]) {
      var p := URC_PREFIXES[i];
      assert p[0] != '+' || p[2] != 'M' || p[3] != 'G';
      DiffersSoon(line, p);
    }
    assert "+CME ERROR"[3] == 'E' && "+CMS ERROR"[3] == 'S';
  }

  lemma {:induction false} BodyOfPlain(cmd: string, body: seq<string>, echo: bool)
    requires forall i :: 0 <= i < |body| ==> BodyLine(cmd, body[i])
    ensures Body(cmd, (if echo then [cmd] else []) + body) == body
  {
    var all := (if echo then [cmd] else []) + body;
    if body == [] {
      if echo {
        assert all == [cmd] && all[..0] == [];
      } else {
        assert all == [];
      }
    } else {
      var n := |body| - 1;
      BodyOfPlain(cmd, body[..n], echo);
      assert all[..|all| - 1] == (if echo then [cmd] else []) + body[..n] && all[|all| - 1] == body[n];
      assert BodyLine(cmd, body[n]);
    }
  }

  /** A response with or without echo. */
  function Reply(cmd: string, echo: bool, body: seq<string>, code: string): seq<string> {
    (if echo then [cmd] else []) + body + [code]
  }

  /** Plain lines and a result code: after OK the command returns just these lines; after ERROR, +CME ERROR or
      +CMS ERROR it returns them with the error. */
  lemma PlainReply(cmd: string, echo: bool, body: seq<string>, code: string)
    requires forall i :: 0 <= i < |body| ==> BodyLine(cmd, body[i])
    requires IsFinal(code) && code != cmd && !IsURC(cmd)
    ensures WellFormed(cmd, Reply(cmd, echo, body, code))
    ensures Collect(cmd, Reply(cmd, echo, body, code)) == if code == "OK" then Done(body) else Failed(body, code)
  {
    var front := (if echo then [cmd] else []) + body;
    var reply := Reply(cmd, echo, body, code);
    forall i | 0 <= i < |front| ensures (reply[i] == cmd || !IsFinal(reply[i])) && !IsURC(reply[i]) {
      if !(echo && i == 0) {
        assert BodyLine(cmd, body[if echo then i - 1 else i]);
      }
    }
    CodeIsNoUrc(code);
    BodyOfPlain(cmd, body, echo);
    assert reply[..|front|] == front;
    CodeDecides(cmd, reply, |front|);
  }

  lemma CodeIsNoUrc(code: string)
    requires IsFinal(code)
    ensures !IsURC(code)
  {
    if code == "OK" || code == "ERROR" {
      HeadTells(code);
    } else {
      assert code[0] == '+' && code[1] == 'C' && code[2] == 'M';
      UrcIff(code);
      assert "+CMTI:"[3] == 'T' && "+CMT:"[3] == 'T' && "+CDSI:"[2] == 'D' && "+CDS:"[2] == 'D';
      assert "+CLIP:"[2] == 'L' && "+CGEV:"[2] == 'G' && "+CPIN: NOT READY"[2] == 'P';
    }
  }

  lemma ListingIsPlain(slots: map<nat, string>, order: seq<nat>, lines: seq<string>, i: nat)
    requires R.Lists(slots, order, lines) && i < |lines| && forall j :: j in slots ==> IsHex(slots[j])
    ensures BodyLine(LIST_CMD, lines[i])
  {
    var j := i / 2;
    assert R.Heads(lines[2 * j], order[j]) && lines[2 * j + 1] == slots[order[j]];
    if i % 2 == 0 {
      assert lines[i][..6] == "+CMGL:";
      HeaderIsPlain(lines[i]);
    } else {
      HexIsPlain(lines[i]);
    }
  }

  lemma ListingReply(slots: map<nat, string>, order: seq<nat>, lines: seq<string>, echo: bool)
    requires R.Lists(slots, order, lines) && forall i :: i in slots ==> IsHex(slots[i])
    ensures Responses(Reply(LIST_CMD, echo, lines, "OK")) == Reply(LIST_CMD, echo, lines, "OK")
    ensures Collect(LIST_CMD, Reply(LIST_CMD, echo, lines, "OK")) == Done(lines)
  {
    forall i | 0 <= i < |lines| ensures BodyLine(LIST_CMD, lines[i]) {
      ListingIsPlain(slots, order, lines, i);
    }
    HeadTells(LIST_CMD);
    PlainReply(LIST_CMD, echo, lines, "OK");
    AllResponses(Reply(LIST_CMD, echo, lines, "OK"));
  }

  /** A listing comes through the channel intact, whatever URCs surround its lines, exactly when the late lines in front
      of it, if no result code is among them, are echoes; and the reader finds in it exactly what the modem stores. */
  lemma ListingSurvivesUrcs(ss: seq<State>, ls: seq<Label>, n: nat, r: Result,
                            cfg: R.Config, slots: map<nat, string>, order: seq<nat>, lines: seq<string>, echo: bool)
    requires IsRun(ss, ls) && n <= |ls| && r in ss[n].results && !r.dropped && NoCode(LIST_CMD, r.late)
    requires R.Lists(slots, order, lines) && forall i :: i in slots ==> IsHex(slots[i])
    requires r.cmd == LIST_CMD && r.reply == Reply(LIST_CMD, echo, lines, "OK")
    ensures r.outcome == Done(lines) <==> AllEcho(LIST_CMD, r.late)
    ensures forall e :: e in R.Segments(R.Scan(cfg, lines)) <==> Reading.Stored(cfg, slots, e)
    ensures forall i :: i in R.Orphans(R.Scan(cfg, lines)) <==> Reading.NotDeliver(cfg, slots, i)
  {
    ListingReply(slots, order, lines, echo);
    LateLinesDecide(ss, ls, n, r);
    Reading.ListingExact(cfg, slots, order, lines);
  }

  // ------------------------------------------------------------------ a command that gave up

  lemma Extend(ss: seq<State>, ls: seq<Label>, l: Label) returns (ss': seq<State>, ls': seq<Label>)
    requires IsRun(ss, ls) && Enabled(ss[|ls|], l)
    ensures IsRun(ss', ls') && ss'[|ls'|] == Apply(ss[|ls|], l)
  {
    ss', ls' := ss + [Apply(ss[|ls|], l)], ls + [l];
    forall i | 0 <= i < |ls'| ensures StepAt(ss', ls', i) {
      if i < |ls| {
        assert StepAt(ss, ls, i);
      }
    }
  }

  /** The next response line goes all the way to the response queue. */
  lemma Carry(ss: seq<State>, ls: seq<Label>) returns (ss': seq<State>, ls': seq<Label>)
    requires IsRun(ss, ls)
    requires var s := ss[|ls|];
      s.modem != [] && !IsURC(s.modem[0]) && s.wire == [] && s.reader.Free? && s.waiting && s.resp == []
    ensures IsRun(ss', ls')
    ensures var s := ss[|ls|]; ss'[|ls'|] == s.(resp := [s.modem[0]], modem := s.modem[1..])
  {
    ss', ls' := Extend(ss, ls, ModemReply);
    ss', ls' := Extend(ss', ls', Read);
    ss', ls' := Extend(ss', ls', Look);
    ss', ls' := Extend(ss', ls', PushResp);
  }

  /** A command is written, with the queues empty and an older response still with the modem. */
  lemma Issue(ss: seq<State>, ls: seq<Label>, cmd: string, reply: seq<string>)
    returns (ss': seq<State>, ls': seq<Label>)
    requires IsRun(ss, ls)
    requires var s := ss[|ls|]; s.pc.Idle? && s.resp == [] && s.wire == [] && s.reader.Free?
    ensures IsRun(ss', ls')
    ensures var s, t := ss[|ls|], ss'[|ls'|];
      && t.pc == Awaiting(cmd, [], reply, Responses(s.modem), [], false)
      && t.modem == s.modem + reply && t.waiting && t.results == s.results
      && t.resp == [] && t.wire == [] && t.reader == s.reader
  {
    ss', ls' := Extend(ss, ls, Begin(cmd));
    ss', ls' := Extend(ss', ls', DrainEnd);
    ss', ls' := Extend(ss', ls', SetWaiting);
    ghost var late := Reaching(ss'[|ls'|]);
    assert late == [] + ([] + ([] + Responses(ss[|ls|].modem))) == Responses(ss[|ls|].modem);
    ss', ls' := Extend(ss', ls', Write(reply));
  }

  /** A command that gave up, its response still with the modem. */
  lemma GivesUp(cmd: string, reply: seq<string>) returns (ss: seq<State>, ls: seq<Label>)
    ensures IsRun(ss, ls)
    ensures ss[|ls|].pc.Idle? && ss[|ls|].modem == reply && ss[|ls|].results == []
    ensures ss[|ls|].resp == [] && ss[|ls|].wire == [] && ss[|ls|].reader.Free?
  {
    ss, ls := [INIT], [];
    ss, ls := Issue(ss, ls, cmd, reply);
    assert [] + reply == reply;
    ss, ls := Extend(ss, ls, GiveUp);
    ss, ls := Extend(ss, ls, Unset);
  }

  /** The command waits, and all that is to come is still with the modem. */
  ghost predicate Attending(s: State, cmd: string, own: seq<string>, late: seq<string>) {
    && s.pc.Awaiting? && s.pc.cmd == cmd && s.pc.reply == own && s.pc.late == late && !s.pc.dropped
    && s.waiting && s.wire == [] && s.resp == [] && s.reader.Free? && s.results == []
  }

  /** The next line of the modem is taken by the command that waits. */
  lemma Takes(ss: seq<State>, ls: seq<Label>, cmd: string, own: seq<string>, late: seq<string>)
    returns (ss': seq<State>, ls': seq<Label>)
    requires IsRun(ss, ls) && Attending(ss[|ls|], cmd, own, late)
    requires ss[|ls|].modem != [] && !IsURC(ss[|ls|].modem[0])
    ensures IsRun(ss', ls') && ss'[|ls'|].modem == ss[|ls|].modem[1..]
    ensures if ss'[|ls'|].pc.Awaiting? then Attending(ss'[|ls'|], cmd, own, late)
            else |ss'[|ls'|].results| == 1 && Answers(ss'[|ls'|].results[0], cmd, own, late)
  {
    ss', ls' := Carry(ss, ls);
    ss', ls' := Extend(ss', ls', Receive);
  }

  ghost predicate Answers(r: Result, cmd: string, own: seq<string>, late: seq<string>) {
    r.cmd == cmd && r.reply == own && r.late == late && !r.dropped
  }

  /** A command that still waits has not seen a result code. */
  lemma NoCodeYet(ss: seq<State>, ls: seq<Label>, late: seq<string>, own: seq<string>, cmd: string)
    requires IsRun(ss, ls) && Attending(ss[|ls|], cmd, own, late) && ss[|ls|].modem == own
    ensures Collect(cmd, late).More?
  {
    RunInv(ss, ls, |ls|);
    var s := ss[|ls|];
    assert Reaching(s) == [] + ([] + ([] + Responses(own))) == Responses(own);
    SameFront(s.pc.got, late, Responses(own));
  }

  lemma SameFront(a: seq<string>, b: seq<string>, c: seq<string>)
    requires a + c == b + c
    ensures a == b
  {
    assert |a| == |b|;
    assert (a + c)[..|a|] == a && (b + c)[..|b|] == b;
  }

  /** With a result code among the late lines, the command ends while they are being taken. */
  lemma {:induction false} TakesLate(ss: seq<State>, ls: seq<Label>, cmd: string, own: seq<string>, late: seq<string>,
                                     left: seq<string>)
    returns (ss': seq<State>, ls': seq<Label>)
    requires IsRun(ss, ls) && Attending(ss[|ls|], cmd, own, late) && !Collect(cmd, late).More?
    requires ss[|ls|].modem == left + own && forall i :: 0 <= i < |left| ==> !IsURC(left[i])
    ensures IsRun(ss', ls') && |ss'[|ls'|].results| == 1 && Answers(ss'[|ls'|].results[0], cmd, own, late)
    decreases |left|
  {
    if left == [] {
      assert left + own == own;
      NoCodeYet(ss, ls, late, own, cmd);
    } else {
      assert (left + own)[0] == left[0] && (left + own)[1..] == left[1..] + own;
      ss', ls' := Takes(ss, ls, cmd, own, late);
      if ss'[|ls'|].pc.Awaiting? {
        ss', ls' := TakesLate(ss', ls', cmd, own, late, left[1..]);
      }
    }
  }

  /** Any response with a result code, to a command that gave up, can be returned whole as the answer to the next
      command, whatever that one's own response is. */
  lemma TimeoutAnswers(first: string, late: seq<string>, cmd: string, own: seq<string>)
    returns (ss: seq<State>, ls: seq<Label>)
    requires !NoCode(cmd, late) && forall i :: 0 <= i < |late| ==> !IsURC(late[i])
    ensures IsRun(ss, ls)
    ensures ss[|ls|].results == [Result(cmd, own, late, Collect(cmd, late), false)]
  {
    MoreIff(cmd, late);
    AllResponses(late);
    ss, ls := GivesUp(first, late);
    ss, ls := Issue(ss, ls, cmd, own);
    ss, ls := TakesLate(ss, ls, cmd, own, late, late);
    LateLinesDecide(ss, ls, |ls|, ss[|ls|].results[0]);
  }

  /** For example, the number asked for first is returned as the answer to the second question. */
  lemma TimeoutMixes(number: string) returns (ss: seq<State>, ls: seq<Label>)
    requires IsHex(number)
    ensures IsRun(ss, ls)
    ensures ss[|ls|].results == [Result("AT+CNUM", ["OK"], [number, "OK"], Done([number]), false)]
    ensures Collect("AT+CNUM", ["OK"]) == Done([])
  {
    HexIsPlain(number);
    HeadTells("OK");
    HeadTells("AT+CNUM");
    assert number != "AT+CNUM" by {
      assert !IsHexDigit("AT+CNUM"[1]);
    }
    PlainReply("AT+CNUM", false, [number], "OK");
    PlainReply("AT+CNUM", false, [], "OK");
    assert Reply("AT+CNUM", false, [number], "OK") == [number, "OK"] && Reply("AT+CNUM", false, [], "OK") == ["OK"];
    var late := [number, "OK"];
    assert late[1] == "OK";
    ss, ls := TimeoutAnswers("AT+CGSN", late, "AT+CNUM", ["OK"]);
  }
}
