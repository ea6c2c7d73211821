/** The ADB poller's cursor (Poller.poll in internal/adb/sms.go), over any series of inbox snapshots. */
module Poller {
  import opened Text
  import opened RowParser
  import opened SmsOutput
  import opened SmsRoundTrip

  /** Which query the device understands: with subscription_id, with sub_id, or without a SIM column. */
  datatype Query = Full | SubId | Compat

  datatype Config = Config(serial: string, deviceName: string, simInfo: map<string, string>)

  /** A message as it is put on the Messages channel. */
  datatype Emitted = Emitted(sms: Sms, deviceName: string, simName: string)

  datatype Mem = Mem(lastId: int, query: Query)

  /** What one poll meets: a cancelled context, the device list, the answer to the query, and after how many messages
      the context is found cancelled. */
  datatype Env = Env(cancelled: bool, devices: Option<seq<string>>, output: Option<string>, sent: nat)

  function Id(m: Sms): int {
    ParseInt64(m.androidId)
  }

  function Dress(cfg: Config, m: Sms): Emitted {
    Emitted(m, cfg.deviceName,
            if m.subscriptionId != "" && m.subscriptionId in cfg.simInfo then cfg.simInfo[m.subscriptionId] else "")
  }

  /** The messages above the cursor, in the order of the inbox. */
  function Fresh(cfg: Config, list: seq<Sms>, lastId: int): seq<Emitted> {
    if list == [] then []
    else
      var m := list[|list| - 1];
      Fresh(cfg, list[..|list| - 1], lastId) + if Id(m) > lastId then [Dress(cfg, m)] else []
  }

  function MaxId(list: seq<Sms>): int {
    if list == [] then 0
    else
      var rest, id := MaxId(list[..|list| - 1]), Id(list[|list| - 1]);
      if id > rest then id else rest
  }

  function NextQuery(q: Query): Query {
    match q
    case Full => SubId
    case SubId => Compat
    case Compat => Compat
  }

  datatype Result = Result(mem: Mem, emitted: seq<Emitted>, cut: bool, inbox: seq<Sms>, died: bool)

  /** The poll gets as far as parsing an answer. */
  predicate Parses(cfg: Config, env: Env) {
    !env.cancelled && env.devices.Some? && cfg.serial in env.devices.value && env.output.Some?
  }

  /** One poll. inbox: the snapshot that a completed poll has gone through; died: it panicked, and the process with
      it. */
  function Poll(cfg: Config, p: Mem, env: Env): Result {
    var nothing := Result(p, [], false, [], false);
    if !Parses(cfg, env) then nothing
    else match ParseOutput(env.output.value)
      case SqliteError => nothing.(mem := p.(query := NextQuery(p.query)))
      case RowError(_) => nothing
      case Panic => nothing.(died := true)
      case Messages(list) =>
        var news := Fresh(cfg, list, p.lastId);
        if env.sent < |news| then Result(p, news[..env.sent], true, [], false)
        else Result(p.(lastId := if MaxId(list) > p.lastId then MaxId(list) else p.lastId), news, false, list, false)
  }

  // ------------------------------------------------------------------ the loop

  lemma FreshSnoc(cfg: Config, list: seq<Sms>, k: nat, lastId: int)
    requires k < |list|
    ensures Fresh(cfg, list[..k + 1], lastId)
            == Fresh(cfg, list[..k], lastId) + (if Id(list[k]) > lastId then [Dress(cfg, list[k])] else [])
    ensures MaxId(list[..k + 1]) == if Id(list[k]) > MaxId(list[..k]) then Id(list[k]) else MaxId(list[..k])
  {
    assert list[..k + 1][..k] == list[..k];
  }

  lemma {:induction false} FreshGrows(cfg: Config, list: seq<Sms>, k: nat, lastId: int)
    requires k <= |list|
    ensures Fresh(cfg, list[..k], lastId) <= Fresh(cfg, list, lastId)
    decreases |list| - k
  {
    if k == |list| {
      assert list[..k] == list;
    } else {
      FreshSnoc(cfg, list, k, lastId);
      FreshGrows(cfg, list, k + 1, lastId);
    }
  }

  class Poller {
    const cfg: Config
    var lastID: int
    var query: Query
    var messages: seq<Emitted>   // what was put on the channel

    constructor (cfg: Config, initialLastID: int)
      ensures this.cfg == cfg && Memory() == Mem(initialLastID, Full) && messages == []
    {
      this.cfg, this.lastID, this.query, this.messages := cfg, initialLastID, Full, [];
    }

    function Memory(): Mem
      reads this
    {
      Mem(lastID, query)
    }

    method FindDevice(devices: seq<string>) returns (found: bool)
      ensures found <==> cfg.serial in devices
    {
      found := false;
      for i := 0 to |devices|
        invariant !found && cfg.serial !in devices[..i]
      {
        if devices[i] == cfg.serial {
          return true;
        }
      }
    }

    /** poll. `output` is the device's answer to the current query; a cancelled context is met, if ever, when `sent`
        messages have been put on the channel. */
    method PollOnce(cancelled: bool, devices: Option<seq<string>>, output: Option<string>, sent: nat)
      returns (died: bool)
      modifies this
      ensures var r := Poll(cfg, old(Memory()), Env(cancelled, devices, output, sent));
        Memory() == r.mem && messages == old(messages) + r.emitted && died == r.died
    {
      died := false;
      if cancelled || devices.None? {
        return;
      }
      var found := FindDevice(devices.value);
      if !found || output.None? {
        return;
      }
      var parsed := ParseSMSOutput(output.value);
      if parsed.SqliteError? {
        match query {
          case Full => query := SubId;
          case SubId => query := Compat;
          case Compat =>
        }
        return;
      }
      if parsed.RowError? {
        return;
      }
      if parsed.Panic? {
        return true;
      }
      Emit(parsed.list, sent);
    }

    /** The loop over a parsed snapshot, and the cursor. */
    method Emit(list: seq<Sms>, sent: nat)
      modifies this`messages, this`lastID
      ensures var news := Fresh(cfg, list, old(lastID));
        if sent < |news| then messages == old(messages) + news[..sent] && lastID == old(lastID)
        else
          messages == old(messages) + news
          && lastID == if MaxId(list) > old(lastID) then MaxId(list) else old(lastID)
    {
      var maxId, done, i := 0, 0, 0;
      while i < |list|
        invariant 0 <= i <= |list|
        invariant maxId == MaxId(list[..i])
        invariant lastID == old(lastID)
        invariant done == |Fresh(cfg, list[..i], lastID)| <= sent
        invariant messages == old(messages) + Fresh(cfg, list[..i], lastID)
      {
        FreshSnoc(cfg, list, i, lastID);
        var msg := list[i];
        var id := ParseInt64(msg.androidId);
        i := i + 1;
        if id > maxId {
          maxId := id;
        }
        if id <= lastID {
          continue;
        }
        FreshGrows(cfg, list, i, lastID);
        if done == sent {
          FreshGrows(cfg, list, i - 1, lastID);
          return;
        }
        var known := msg.subscriptionId != "" && msg.subscriptionId in cfg.simInfo;
        var name := if known then cfg.simInfo[msg.subscriptionId] else "";
        messages := messages + [Emitted(msg, cfg.deviceName, name)];
        done := done + 1;
      }
      assert list[..i] == list;
      if maxId > lastID {
        lastID := maxId;
      }
    }
  }

  // ------------------------------------------------------------------ runs of polls

  ghost predicate StepAt(cfg: Config, ms: seq<Mem>, es: seq<Env>, rs: seq<Result>, i: nat)
    requires |ms| == |es| + 1 == |rs| + 1 && i < |es|
  {
    rs[i] == Poll(cfg, ms[i], es[i]) && ms[i + 1] == rs[i].mem
  }

  /** Polls of one poller, and what each did. Its context stays cancelled; a poll that dies is the last. */
  ghost predicate IsRun(cfg: Config, ms: seq<Mem>, es: seq<Env>, rs: seq<Result>) {
    && |ms| == |es| + 1 == |rs| + 1 && ms[0].lastId >= 0
    && (forall i :: 0 <= i < |es| ==> StepAt(cfg, ms, es, rs, i))
    && (forall i, j :: 0 <= i < j < |es| && (es[i].cancelled || rs[i].cut) ==> es[j].cancelled)
    && forall i :: 0 <= i < |es| && rs[i].died ==> i == |es| - 1
  }

  ghost predicate InList(list: seq<Sms>, id: int) {
    exists m :: m in list && Id(m) == id
  }

  ghost predicate Emits(r: Result, id: int) {
    exists e :: e in r.emitted && Id(e.sms) == id
  }

  /** It bears the device's name, and its SIM's name where that is known. */
  ghost predicate Dressed(cfg: Config, e: Emitted) {
    var sim := e.sms.subscriptionId;
    && e.deviceName == cfg.deviceName
    && (sim != "" && sim in cfg.simInfo ==> e.simName == cfg.simInfo[sim])
    && (sim == "" || sim !in cfg.simInfo ==> e.simName == "")
  }

  lemma {:induction false} FreshExact(cfg: Config, list: seq<Sms>, lastId: int)
    ensures forall e :: e in Fresh(cfg, list, lastId) ==> e.sms in list && Id(e.sms) > lastId && Dressed(cfg, e)
    ensures forall m :: m in list && Id(m) > lastId ==> Dress(cfg, m) in Fresh(cfg, list, lastId)
  {
    if list != [] {
      var n := |list| - 1;
      FreshExact(cfg, list[..n], lastId);
      assert list == list[..n] + [list[n]];
    }
  }

  lemma {:induction false} MaxIdExact(list: seq<Sms>)
    ensures MaxId(list) >= 0 && forall m :: m in list ==> Id(m) <= MaxId(list)
    ensures MaxId(list) > 0 ==> InList(list, MaxId(list))
  {
    if list != [] {
      var n := |list| - 1;
      MaxIdExact(list[..n]);
      assert list == list[..n] + [list[n]];
      if MaxId(list[..n]) > 0 {
        var m :| m in list[..n] && Id(m) == MaxId(list[..n]);
        assert m in list;
      }
      assert list[n] in list;
    }
  }

  /** One poll: it emits ids above the cursor from its snapshot, all of them unless it is cut, and leaves the cursor at
      the larger of its old value and the snapshot's largest id. */
  lemma PollExact(cfg: Config, p: Mem, env: Env, id: int)
    requires p.lastId >= 0
    ensures var r := Poll(cfg, p, env);
      && r.mem.lastId >= p.lastId
      && (Emits(r, id) ==> id > p.lastId && !env.cancelled)
      && (forall e :: e in r.emitted ==> Dressed(cfg, e))
      && (!r.cut ==> (Emits(r, id) <==> InList(r.inbox, id) && id > p.lastId))
      && (r.cut || r.died ==> r.inbox == [] && r.mem == p)
      && (r.died ==> r.emitted == [])
      && (id > r.mem.lastId <==> id > p.lastId && forall m :: m in r.inbox ==> id > Id(m))
  {
    var r := Poll(cfg, p, env);
    MaxIdExact(r.inbox);
    FreshExact(cfg, r.inbox, p.lastId);
    if r.cut {
      var list := ParseOutput(env.output.value).list;
      FreshExact(cfg, list, p.lastId);
      assert forall e :: e in r.emitted ==> e in Fresh(cfg, list, p.lastId);
    } else if InList(r.inbox, id) && id > p.lastId {
      var m :| m in r.inbox && Id(m) == id;
      assert Dress(cfg, m) in r.emitted;
    }
  }

  // ------------------------------------------------------------------ from the phone to the channel

  /** The id as a 64-bit number. */
  function RowId(r: Row): int {
    if r.id <= 0x7fff_ffff_ffff_ffff then r.id else 0x7fff_ffff_ffff_ffff
  }

  /** The rows above the cursor, in the order of the inbox. */
  function Above(rows: seq<Row>, lastId: int): seq<Row> {
    if rows == [] then []
    else
      var last := rows[|rows| - 1];
      Above(rows[..|rows| - 1], lastId) + if RowId(last) > lastId then [last] else []
  }

  /** The message tells what the row holds. */
  ghost predicate TellsRow(cfg: Config, e: Emitted, r: Row) {
    && e.sms.androidId == Decimal(r.id) && e.sms.address == r.address && e.sms.body == r.body
    && e.sms.receivedAt == r.date && e.sms.subscriptionId == (if r.sim.Value? then DecimalInt(r.sim.id) else "")
    && Dressed(cfg, e)
  }

  ghost predicate TellsRows(cfg: Config, es: seq<Emitted>, rows: seq<Row>) {
    |es| == |rows| && forall k :: 0 <= k < |es| ==> TellsRow(cfg, es[k], rows[k])
  }

  lemma IdIsRowId(r: Row)
    ensures Id(Expected(r)) == RowId(r)
  {
    ValueOfDecimal(r.id);
  }

  lemma {:induction false} FreshTellsRows(cfg: Config, rows: seq<Row>, lastId: int)
    ensures TellsRows(cfg, Fresh(cfg, ExpectedAll(rows), lastId), Above(rows, lastId))
  {
    if rows != [] {
      var n := |rows| - 1;
      FreshTellsRows(cfg, rows[..n], lastId);
      assert ExpectedAll(rows)[..n] == ExpectedAll(rows[..n]);
      IdIsRowId(rows[n]);
    }
  }

  lemma PollOfList(cfg: Config, p: Mem, env: Env, list: seq<Sms>)
    requires Parses(cfg, env) && ParseOutput(env.output.value) == Messages(list)
    ensures var r, news := Poll(cfg, p, env), Fresh(cfg, list, p.lastId);
      if |news| <= env.sent then r.emitted == news && !r.cut && !r.died
      else r.emitted == news[..env.sent] && r.cut && r.mem == p
  {
  }

  /** A poll that gets no answer from its device does nothing. */
  lemma NoAnswer(cfg: Config, p: Mem, env: Env)
    requires env.cancelled || env.devices.None? || cfg.serial !in env.devices.value || env.output.None?
    ensures Poll(cfg, p, env) == Result(p, [], false, [], false)
  {
  }

  /** One that gets rows that can be read back emits those above the cursor, in the order of the inbox and with all that
      they hold, unless it is cancelled before the end. */
  lemma PollEmitsRows(cfg: Config, p: Mem, env: Env, rows: seq<Row>)
    requires !env.cancelled && env.devices.Some? && cfg.serial in env.devices.value
    requires env.output == Some(InboxText(rows)) && MarkerFree(rows)
    requires forall k :: 0 <= k < |rows| ==> Readable(rows[k]) && OneRow(rows[k].address) && OneRow(rows[k].body)
    ensures var r, news := Poll(cfg, p, env), Above(rows, p.lastId);
      if |news| <= env.sent then TellsRows(cfg, r.emitted, news) && !r.cut && !r.died
      else TellsRows(cfg, r.emitted, news[..env.sent]) && r.cut && r.mem == p
  {
    RoundTripIff(rows);
    PollOfList(cfg, p, env, ExpectedAll(rows));
    FreshTellsRows(cfg, rows, p.lastId);
  }

  /** The same of the i-th poll of a run. */
  lemma RunPoll(cfg: Config, ms: seq<Mem>, es: seq<Env>, rs: seq<Result>, i: nat, id: int)
    requires IsRun(cfg, ms, es, rs) && i < |es| && ms[i].lastId >= 0
    ensures ms[i + 1].lastId >= ms[i].lastId
    ensures Emits(rs[i], id) ==> id > ms[i].lastId && !es[i].cancelled
    ensures !rs[i].cut ==> (Emits(rs[i], id) <==> InList(rs[i].inbox, id) && id > ms[i].lastId)
    ensures rs[i].cut ==> rs[i].inbox == []
    ensures id > ms[i + 1].lastId <==> id > ms[i].lastId && forall m :: m in rs[i].inbox ==> id > Id(m)
  {
    PollExact(cfg, ms[i], es[i], id);
    assert StepAt(cfg, ms, es, rs, i);
  }

  lemma {:induction false} CursorClimbs(cfg: Config, ms: seq<Mem>, es: seq<Env>, rs: seq<Result>, i: nat, j: nat)
    requires IsRun(cfg, ms, es, rs) && i <= j <= |es|
    ensures 0 <= ms[i].lastId <= ms[j].lastId
    decreases i + j
  {
    if i < j {
      CursorClimbs(cfg, ms, es, rs, i, j - 1);
      RunPoll(cfg, ms, es, rs, j - 1, 0);
    } else if i > 0 {
      CursorClimbs(cfg, ms, es, rs, i - 1, i - 1);
      RunPoll(cfg, ms, es, rs, i - 1, 0);
    }
  }

  /** Nothing in the completed snapshots before the n-th poll reaches id. */
  ghost predicate AboveEarlier(rs: seq<Result>, n: nat, id: int)
    requires n <= |rs|
  {
    forall p, m :: 0 <= p < n && m in rs[p].inbox ==> id > Id(m)
  }

  /** The cursor is the largest id so far. */
  lemma {:induction false} CursorIs(cfg: Config, ms: seq<Mem>, es: seq<Env>, rs: seq<Result>, n: nat, id: int)
    requires IsRun(cfg, ms, es, rs) && n <= |es|
    ensures id > ms[n].lastId <==> id > ms[0].lastId && AboveEarlier(rs, n, id)
  {
    if n > 0 {
      CursorIs(cfg, ms, es, rs, n - 1, id);
      CursorClimbs(cfg, ms, es, rs, n - 1, n - 1);
      RunPoll(cfg, ms, es, rs, n - 1, id);
    }
  }

  /** A poll that was not cut emits an id exactly when its snapshot holds it, and the id exceeds the start cursor and
      every id in the snapshots of the completed polls before. The order of rows plays no part. */
  lemma EmittedIff(cfg: Config, ms: seq<Mem>, es: seq<Env>, rs: seq<Result>, i: nat, id: int)
    requires IsRun(cfg, ms, es, rs) && i < |es| && !rs[i].cut
    ensures Emits(rs[i], id)
            <==> InList(rs[i].inbox, id) && id > ms[0].lastId && AboveEarlier(rs, i, id)
  {
    CursorClimbs(cfg, ms, es, rs, i, i);
    RunPoll(cfg, ms, es, rs, i, id);
    CursorIs(cfg, ms, es, rs, i, id);
  }

  /** No two polls of a poller emit the same id: a cut poll moves no cursor, and is its last to emit. */
  lemma NeverTwice(cfg: Config, ms: seq<Mem>, es: seq<Env>, rs: seq<Result>, i: nat, j: nat, id: int)
    requires IsRun(cfg, ms, es, rs) && i < j < |es| && Emits(rs[i], id)
    ensures !Emits(rs[j], id)
  {
    CursorClimbs(cfg, ms, es, rs, i, i);
    CursorClimbs(cfg, ms, es, rs, i + 1, j);
    RunPoll(cfg, ms, es, rs, i, id);
    RunPoll(cfg, ms, es, rs, j, id);
  }

  ghost predicate DistinctIds(list: seq<Sms>) {
    forall i, j :: 0 <= i < j < |list| ==> Id(list[i]) != Id(list[j])
  }

  ghost predicate DistinctEmitted(list: seq<Emitted>) {
    forall i, j :: 0 <= i < j < |list| ==> Id(list[i].sms) != Id(list[j].sms)
  }

  /** Nor does one poll, when the ids of its snapshot differ. */
  lemma {:induction false} FreshDistinct(cfg: Config, list: seq<Sms>, lastId: int)
    requires DistinctIds(list)
    ensures DistinctEmitted(Fresh(cfg, list, lastId))
  {
    if list != [] {
      var n := |list| - 1;
      FreshDistinct(cfg, list[..n], lastId);
      FreshExact(cfg, list[..n], lastId);
      var front := Fresh(cfg, list[..n], lastId);
      forall i | 0 <= i < |front| ensures Id(front[i].sms) != Id(list[n]) {
        assert front[i] in front;
        var k :| 0 <= k < n && list[k] == front[i].sms;
      }
    }
  }

  /** New ids exceed all that were seen before. */
  ghost predicate NewIdsAreLarger(rs: seq<Result>) {
    forall i, id :: 0 <= i < |rs| && InList(rs[i].inbox, id) ==>
      SeenBefore(rs, i, id) || AboveEarlier(rs, i, id)
  }

  ghost predicate SeenBefore(rs: seq<Result>, n: nat, id: int)
    requires n <= |rs|
  {
    exists p :: 0 <= p < n && InList(rs[p].inbox, id)
  }

  /** Then every id above the start cursor in a completed snapshot is emitted, by exactly one poll, no later than the
      one that took this snapshot. */
  lemma {:induction false} EmittedOnce(cfg: Config, ms: seq<Mem>, es: seq<Env>, rs: seq<Result>, i: nat, id: int)
    returns (p: nat)
    requires IsRun(cfg, ms, es, rs) && NewIdsAreLarger(rs)
    requires i < |es| && InList(rs[i].inbox, id) && id > ms[0].lastId
    ensures p <= i && Emits(rs[p], id)
    ensures forall q :: 0 <= q < |es| && q != p ==> !Emits(rs[q], id)
  {
    if SeenBefore(rs, i, id) {
      var q :| 0 <= q < i && InList(rs[q].inbox, id);
      p := EmittedOnce(cfg, ms, es, rs, q, id);
    } else {
      p := i;
      CursorClimbs(cfg, ms, es, rs, i, i);
      RunPoll(cfg, ms, es, rs, i, id);
      EmittedIff(cfg, ms, es, rs, i, id);
      forall q | 0 <= q < |es| && q != p ensures !Emits(rs[q], id) {
        if Emits(rs[q], id) {
          if q < p {
            NeverTwice(cfg, ms, es, rs, q, p, id);
          } else {
            NeverTwice(cfg, ms, es, rs, p, q, id);
          }
        }
      }
    }
  }

  // ------------------------------------------------------------------ polls that die

  /** A poll of printed rows dies exactly when the first of the rows in it that cannot be read has its tags crossed,
      whatever the cursor and the query: so does the poll of every new process, while the inbox prints like this. */
  lemma DiesIff(cfg: Config, p: Mem, env: Env, rows: seq<Row>)
    requires Parses(cfg, env) && rows != [] && env.output == Some(Print(rows))
    ensures Poll(cfg, p, env).died
            <==> MarkerFree(rows)
                 && exists k :: 0 <= k < |Seen(rows)|
                      && ReadsUpTo(ParseRow, Seen(rows), k) && TagsCrossed(Seen(rows)[k])
    ensures Poll(cfg, p, env).died ==> Poll(cfg, p, env).emitted == [] && Poll(cfg, p, env).mem == p
  {
    PrintedOutcome(rows);
  }

  // ------------------------------------------------------------------ the query

  ghost predicate DatabaseError(cfg: Config, env: Env) {
    Parses(cfg, env) && ParseOutput(env.output.value).SqliteError?
  }

  ghost function Errors(cfg: Config, es: seq<Env>): nat {
    if es == [] then 0
    else Errors(cfg, es[..|es| - 1]) + if DatabaseError(cfg, es[|es| - 1]) then 1 else 0
  }

  /** How far the query has fallen back. */
  function Level(q: Query): nat {
    match q
    case Full => 0
    case SubId => 1
    case Compat => 2
  }

  /** The query in use tells how many database errors there have been, up to two: nothing else moves it, and it never
      comes back. */
  lemma {:induction false} QueryCountsErrors(cfg: Config, ms: seq<Mem>, es: seq<Env>, rs: seq<Result>, n: nat)
    requires IsRun(cfg, ms, es, rs) && n <= |es|
    ensures var level := Level(ms[0].query) + Errors(cfg, es[..n]);
      Level(ms[n].query) == if level > 2 then 2 else level
  {
    if n == 0 {
      assert es[..0] == [];
    } else {
      QueryCountsErrors(cfg, ms, es, rs, n - 1);
      assert es[..n][..n - 1] == es[..n - 1];
      assert StepAt(cfg, ms, es, rs, n - 1);
    }
  }
}
