/** Reading stored SMS from a modem (ReadAll, buildMessage and deleteSegments in internal/modem/worker.go).

  PDU decoding and text decoding belong to a library: they are parameters here, as is the hash of the dedup key. */
module Reader {
  import opened Text
  import opened Backoff
  import Keys

  const TIMEOUT: int := 600 * SECOND
  const MAX_INT: nat := 0x7fff_ffff_ffff_ffff

  datatype Concat = Concat(segs: nat, seqno: nat, mref: nat)

  datatype Tpdu = Tpdu(deliver: bool, sender: string, concat: Option<Concat>, time: Option<int>, payload: string)

  datatype Message = Message(
    androidId: string, address: string, body: string, deviceName: string, simName: string,
    source: string, recipient: string, receivedAt: int)

  datatype Config = Config(
    decode: string -> Option<Tpdu>, text: seq<Tpdu> -> Option<string>, hash: string -> string,
    imei: string, name: string, number: string, simName: string, deleteAfterRead: bool)

  /** storedPDU */
  datatype Entry = Entry(index: nat, tpdu: Tpdu)

  datatype Key = Single(index: nat) | Parts(sender: string, mref: nat, segs: nat)

  // ------------------------------------------------------------------ the listing

  /** strconv.Atoi with its error ignored: the largest integer on overflow. */
  function Atoi(digits: string): nat
    requires AllDigits(digits)
  {
    if NatValue(digits) > MAX_INT then MAX_INT else NatValue(digits)
  }

  /** ^\+CMGL:\s*(\d+), */
  function CmglIndex(line: string): Option<nat> {
    if !StartsWith(line, "+CMGL:") then None
    else
      var a := SkipSpace(line, 6);
      var b := SkipDigits(line, a);
      if a < b < |line| && line[b] == ',' then Some(Atoi(line[a..b])) else None
  }

  datatype Item = Bad(index: nat) | Orphan(index: nat) | Segment(entry: Entry)

  function Classify(cfg: Config, index: nat, pdu: string): Item {
    match cfg.decode(pdu)
    case None => Bad(index)
    case Some(t) => if t.deliver then Segment(Entry(index, t)) else Orphan(index)
  }

  /** What the listing lines hold: each +CMGL line with the line after it. */
  function Scan(cfg: Config, lines: seq<string>): seq<Item> {
    if |lines| < 2 then []
    else match CmglIndex(lines[0])
      case None => Scan(cfg, lines[1..])
      case Some(index) => [Classify(cfg, index, lines[1])] + Scan(cfg, lines[2..])
  }

  function Segments(items: seq<Item>): seq<Entry> {
    if items == [] then []
    else
      var last := items[|items| - 1];
      Segments(items[..|items| - 1]) + if last.Segment? then [last.entry] else []
  }

  function Orphans(items: seq<Item>): seq<nat> {
    if items == [] then []
    else
      var last := items[|items| - 1];
      Orphans(items[..|items| - 1]) + if last.Orphan? then [last.index] else []
  }

  function Bads(items: seq<Item>): set<nat> {
    if items == [] then {}
    else
      var last := items[|items| - 1];
      Bads(items[..|items| - 1]) + if last.Bad? then {last.index} else {}
  }

  // ------------------------------------------------------------------ groups

  predicate IsPart(t: Tpdu) {
    t.concat.Some? && t.concat.value.segs > 1
  }

  function PartKey(t: Tpdu): Key
    requires IsPart(t)
  {
    Parts(t.sender, t.concat.value.mref, t.concat.value.segs)
  }

  function KeyOf(e: Entry): Key {
    if IsPart(e.tpdu) then PartKey(e.tpdu) else Single(e.index)
  }

  /** How many segments complete a group. */
  function Total(k: Key): nat {
    if k.Single? then 1 else k.segs
  }

  function SeqNo(t: Tpdu): nat {
    if t.concat.Some? then t.concat.value.seqno else 0
  }

  /** Group keys in order of first appearance. */
  function Order(es: seq<Entry>): seq<Key> {
    if es == [] then []
    else
      var rest := Order(es[..|es| - 1]);
      var k := KeyOf(es[|es| - 1]);
      if k in rest then rest else rest + [k]
  }

  function Members(es: seq<Entry>, k: Key): seq<Entry> {
    if es == [] then []
    else Members(es[..|es| - 1], k) + if KeyOf(es[|es| - 1]) == k then [es[|es| - 1]] else []
  }

  function TpdusOf(es: seq<Entry>): (ts: seq<Tpdu>)
    ensures |ts| == |es| && forall i :: 0 <= i < |es| ==> ts[i] == es[i].tpdu
  {
    if es == [] then [] else TpdusOf(es[..|es| - 1]) + [es[|es| - 1].tpdu]
  }

  function Indices(es: seq<Entry>): set<nat> {
    set i | 0 <= i < |es| :: es[i].index
  }

  /** sort.Slice by sequence number: any order among equals. */
  ghost predicate IsSortOf(sorted: seq<Entry>, es: seq<Entry>) {
    && multiset(sorted) == multiset(es)
    && forall i, j :: 0 <= i < j < |sorted| ==> SeqNo(sorted[i].tpdu) <= SeqNo(sorted[j].tpdu)
  }

  // ------------------------------------------------------------------ one group

  const MARK := " […]"

  /** buildMessage on the sorted segments; `received` is the clock reading used when the PDU carries no time. */
  function Build(cfg: Config, ts: seq<Tpdu>, complete: bool, received: int): Option<Message>
    requires ts != []
  {
    match cfg.text(ts)
    case None => None
    case Some(text) =>
      var body := if complete then text else text + MARK;
      var sender := ts[0].sender;
      var at := if ts[0].time.Some? then ts[0].time.value else received;
      Some(Message(Keys.MessageKey(cfg.hash, cfg.imei, sender, at / SECOND, body),
                   sender, body, cfg.name, cfg.simName, "modem", cfg.number, at))
  }

  /** What the surroundings contribute while one group is handled: two clock readings, the order that the sort
      leaves, whether the handler stored the message, and which deletions took effect and were confirmed. */
  datatype Env = Env(now: int, received: int, sorted: seq<Entry>, stored: bool, removed: set<nat>, acked: set<nat>)

  datatype Outcome = Record | Wait | Undecodable | Offer(message: Message)

  function Decide(cfg: Config, firstSeen: map<Key, int>, k: Key, have: nat, env: Env): Outcome
    requires env.sorted != []
  {
    var complete := have >= Total(k);
    if !complete && k !in firstSeen then Record
    else if !complete && env.now - firstSeen[k] < TIMEOUT then Wait
    else match Build(cfg, TpdusOf(env.sorted), complete, env.received)
      case None => Undecodable
      case Some(m) => Offer(m)
  }

  /** The worker's memory and the modem's storage; the messages that the handler was called with, those that it has
      stored, and the indexes that the modem was asked to delete. */
  datatype Mem = Mem(firstSeen: map<Key, int>, badPdu: set<nat>, slots: map<nat, string>,
                     offered: seq<Message>, handed: seq<Message>, asked: seq<nat>)

  function IndexList(es: seq<Entry>): seq<nat> {
    if es == [] then [] else IndexList(es[..|es| - 1]) + [es[|es| - 1].index]
  }

  function Forget(m: map<Key, int>, k: Key): map<Key, int> {
    map x | x in m && x != k :: m[x]
  }

  function Visit(cfg: Config, m: Mem, k: Key, have: nat, env: Env): Mem
    requires env.sorted != []
  {
    match Decide(cfg, m.firstSeen, k, have, env)
    case Record => m.(firstSeen := m.firstSeen[k := env.now])
    case Offer(msg) =>
      var called := m.(offered := m.offered + [msg]);
      if !env.stored then called
      else
        var n := called.(handed := m.handed + [msg], firstSeen := Forget(m.firstSeen, k));
        if cfg.deleteAfterRead
        then n.(slots := m.slots - env.removed, badPdu := m.badPdu - env.acked,
                asked := m.asked + IndexList(env.sorted))
        else n
    case _ => m
  }

  ghost predicate EnvOk(es: seq<Entry>, k: Key, env: Env) {
    && IsSortOf(env.sorted, Members(es, k)) && env.sorted != []
    && env.acked <= env.removed <= Indices(env.sorted)
  }

  ghost predicate EnvsOk(es: seq<Entry>, keys: seq<Key>, envs: seq<Env>) {
    |envs| == |keys| && forall j :: 0 <= j < |keys| ==> EnvOk(es, keys[j], envs[j])
  }

  ghost function VisitAll(cfg: Config, m: Mem, es: seq<Entry>, keys: seq<Key>, envs: seq<Env>): Mem
    requires EnvsOk(es, keys, envs)
  {
    if keys == [] then m
    else
      var n := |keys| - 1;
      Visit(cfg, VisitAll(cfg, m, es, keys[..n], envs[..n]), keys[n], |Members(es, keys[n])|, envs[n])
  }

  /** One call of ReadAll on a listing; `dropped` are the non-DELIVER PDUs whose deletion took effect. */
  ghost function ReadSpec(cfg: Config, m: Mem, lines: seq<string>, envs: seq<Env>, dropped: set<nat>): Mem
    requires EnvsOk(Segments(Scan(cfg, lines)), Order(Segments(Scan(cfg, lines))), envs)
  {
    var es := Segments(Scan(cfg, lines));
    var seen := m.(badPdu := m.badPdu + Bads(Scan(cfg, lines)));
    var n := VisitAll(cfg, seen, es, Order(es), envs);
    if cfg.deleteAfterRead
    then n.(slots := n.slots - dropped, asked := n.asked + Orphans(Scan(cfg, lines)))
    else n
  }

  // ------------------------------------------------------------------ AT+CMGL=4

  ghost predicate Blank(space: string) {
    forall k :: 0 <= k < |space| ==> space[k] in {'\t', '\n', '\U{0c}', '\r', ' '}
  }

  /** +CMGL:, white space, digits, a comma, and anything behind it. */
  ghost predicate HeaderText(line: string, space: string, digits: string, rest: string) {
    Blank(space) && digits != [] && AllDigits(digits) && line == "+CMGL:" + space + digits + "," + rest
  }

  /** The line is the header of slot i: its digits read as i, or as a number beyond 64 bits that is cut to i. */
  ghost predicate Heads(line: string, i: nat) {
    exists space, digits, rest :: HeaderText(line, space, digits, rest)
                                  && i == Min(NatValue(digits), 0x7fff_ffff_ffff_ffff)
  }

  lemma {:induction false} SpaceEndsAt(s: string, i: nat, e: nat)
    requires i <= e < |s| && !IsRegexSpace(s[e]) && forall k :: i <= k < e ==> IsRegexSpace(s[k])
    ensures SkipSpace(s, i) == e
    decreases e - i
  {
    if i < e {
      SpaceEndsAt(s, i + 1, e);
    }
  }

  lemma HeaderRead(line: string, space: string, digits: string, rest: string)
    requires HeaderText(line, space, digits, rest)
    ensures CmglIndex(line) == Some(Atoi(digits))
  {
    var a := 6 + |space|;
    var b := a + |digits|;
    assert line[..6] == "+CMGL:" && line[a..b] == digits && line[b] == ',';
    assert forall k :: 6 <= k < a ==> line[k] == space[k - 6];
    assert line[a] == digits[0];
    SpaceEndsAt(line, 6, a);
    DigitsEndAt(line, a, b);
  }

  lemma ReadHeader(line: string) returns (space: string, digits: string, rest: string)
    requires CmglIndex(line).Some?
    ensures HeaderText(line, space, digits, rest) && CmglIndex(line) == Some(Atoi(digits))
  {
    var a := SkipSpace(line, 6);
    var b := SkipDigits(line, a);
    space, digits, rest := line[6..a], line[a..b], line[b + 1..];
    assert line == line[..6] + space + digits + [line[b]] + rest;
  }

  /** A line is taken for the header of slot i exactly when it is one. */
  lemma IndexIff(line: string, i: nat)
    ensures CmglIndex(line) == Some(i) <==> Heads(line, i)
  {
    if CmglIndex(line) == Some(i) {
      var space, digits, rest := ReadHeader(line);
    }
    if Heads(line, i) {
      var space, digits, rest :| HeaderText(line, space, digits, rest)
                                 && i == Min(NatValue(digits), 0x7fff_ffff_ffff_ffff);
      HeaderRead(line, space, digits, rest);
    }
  }

  /** The reply lists every stored PDU once, in some order, each under a header with its index. */
  ghost predicate Lists(slots: map<nat, string>, order: seq<nat>, lines: seq<string>) {
    && |lines| == 2 * |order|
    && (forall j, k :: 0 <= j < k < |order| ==> order[j] != order[k])
    && (forall i :: i in slots <==> i in order)
    && (forall j :: 0 <= j < |order| ==>
          order[j] in slots && Heads(lines[2 * j], order[j]) && lines[2 * j + 1] == slots[order[j]])
  }

  /** A header with these fields behind the index. */
  function Header(index: nat, fields: string): string {
    "+CMGL: " + Decimal(index) + "," + fields
  }

  lemma HeaderHeads(index: nat, fields: string)
    requires index <= MAX_INT
    ensures Heads(Header(index, fields), index)
  {
    ValueOfDecimal(index);
    assert Header(index, fields) == "+CMGL:" + " " + Decimal(index) + "," + fields;
    assert HeaderText(Header(index, fields), " ", Decimal(index), fields);
  }
}
