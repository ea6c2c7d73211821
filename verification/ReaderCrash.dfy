/** Store before delete: the modem, the reader and the messages table as one state machine. The process may crash
  and restart at any point, the handler may fail before or after its row is in the table, a deletion may fail
  with or without effect, and PDUs arrive in free slots all the time. */
module ReaderCrash {
  import opened Text
  import opened Backoff
  import opened Reader
  import opened Reading
  import Reassembly

  /** A message built from a group; each PDU is known by its stamp, its position among all arrivals. */
  datatype Built = Built(stamps: seq<nat>, complete: bool, received: int, message: Message)

  datatype Act = Choosing | Storing(parts: seq<Entry>, built: Built) | Deleting(left: seq<Entry>, cause: Built)

  /** Busy is one ReadAll: the slots when they were listed, the segments, the groups still to visit, and the PDUs
      of other types still to drop. */
  datatype Proc =
    | Down
    | Idle(seen: map<Key, int>)
    | Busy(seen: map<Key, int>, was: map<nat, nat>, es: seq<Entry>, keys: seq<Key>, act: Act, drop: seq<nat>)

  /** arrived: every PDU that was ever put on the modem; slots: the stamps on it now; rows: messages by
      android_id; built: every message that was ever built. */
  datatype State = State(
    arrived: seq<string>, slots: map<nat, nat>, rows: map<string, Message>, built: seq<Built>, proc: Proc)

  datatype Label =
    | Arrive(index: nat, pdu: string)
    | Start
    | Crash
    | List(order: seq<nat>, lines: seq<string>)
    | Choose(env: Env)
    | Commit
    | Return(ok: bool)
    | Delete(removed: bool)
    | Next
    | Drop(removed: bool)
    | Finish
    | OtherSave(row: Message)

  function Pdus(arrived: seq<string>, slots: map<nat, nat>): map<nat, string> {
    map i | i in slots && slots[i] < |arrived| :: arrived[slots[i]]
  }

  function StampsOf(was: map<nat, nat>, es: seq<Entry>): (stamps: seq<nat>)
    ensures |stamps| == |es|
    ensures forall i :: 0 <= i < |es| && es[i].index in was ==> stamps[i] == was[es[i].index]
  {
    seq(|es|, i requires 0 <= i < |es| => if es[i].index in was then was[es[i].index] else 0)
  }

  /** INSERT OR IGNORE INTO messages */
  function Save(rows: map<string, Message>, m: Message): map<string, Message> {
    if m.androidId in rows then rows else rows[m.androidId := m]
  }

  /** The key is that of the row's contents, or not one of a modem message. */
  ghost predicate Genuine(cfg: Config, m: Message) {
    || !StartsWith(m.androidId, "modem:")
    || exists imei :: AllDigits(imei)
                      && m.androidId == Keys.MessageKey(cfg.hash, imei, m.address, m.receivedAt / SECOND, m.body)
  }

  ghost predicate Enabled(cfg: Config, s: State, l: Label) {
    var p := s.proc;
    match l
    case Arrive(index, pdu) => index !in s.slots
    case Start => p.Down?
    case Crash => !p.Down?
    case List(order, lines) => p.Idle? && Lists(Pdus(s.arrived, s.slots), order, lines)
    case Choose(env) => p.Busy? && p.act.Choosing? && p.keys != []
                        && IsSortOf(env.sorted, Members(p.es, p.keys[0])) && env.sorted != []
    case Commit => p.Busy? && p.act.Storing?
    case Return(ok) => p.Busy? && p.act.Storing? && p.act.parts != []
                       && (ok ==> p.act.built.message.androidId in s.rows)
    case Delete(_) => p.Busy? && p.act.Deleting? && p.act.left != []
    case Next => p.Busy? && p.act.Deleting? && p.act.left == []
    case Drop(_) => p.Busy? && p.act.Choosing? && p.keys == [] && p.drop != [] && cfg.deleteAfterRead
    case Finish => p.Busy? && p.act.Choosing? && p.keys == [] && (p.drop == [] || !cfg.deleteAfterRead)
    case OtherSave(m) => Genuine(cfg, m)
  }

  function Chosen(cfg: Config, s: State, env: Env): State
    requires s.proc.Busy? && s.proc.keys != [] && env.sorted != []
  {
    var p := s.proc;
    var k, have := p.keys[0], |Members(p.es, p.keys[0])|;
    var on := p.(keys := p.keys[1..]);
    match Decide(cfg, p.seen, k, have, env)
    case Record => s.(proc := on.(seen := p.seen[k := env.now]))
    case Offer(m) =>
      var b := Built(StampsOf(p.was, env.sorted), have >= Total(k), env.received, m);
      s.(built := s.built + [b], proc := on.(act := Storing(env.sorted, b)))
    case _ => s.(proc := on)
  }

  ghost function Apply(cfg: Config, s: State, l: Label): State
    requires Enabled(cfg, s, l)
  {
    var p := s.proc;
    match l
    case Arrive(index, pdu) => s.(arrived := s.arrived + [pdu], slots := s.slots[index := |s.arrived|])
    case Start => s.(proc := Idle(map[]))
    case Crash => s.(proc := Down)
    case List(order, lines) =>
      var items := Scan(cfg, lines);
      s.(proc := Busy(p.seen, s.slots, Segments(items), Order(Segments(items)), Choosing, Orphans(items)))
    case Choose(env) => Chosen(cfg, s, env)
    case Commit => s.(rows := Save(s.rows, p.act.built.message))
    case Return(ok) =>
      if !ok then s.(proc := p.(act := Choosing))
      else s.(proc := p.(seen := Forget(p.seen, KeyOf(p.act.parts[0])),
                         act := if cfg.deleteAfterRead then Deleting(p.act.parts, p.act.built) else Choosing))
    case Delete(removed) =>
      s.(slots := if removed then s.slots - {p.act.left[0].index} else s.slots,
         proc := p.(act := p.act.(left := p.act.left[1..])))
    case Next => s.(proc := p.(act := Choosing))
    case Drop(removed) =>
      s.(slots := if removed then s.slots - {p.drop[0]} else s.slots, proc := p.(drop := p.drop[1..]))
    case Finish => s.(proc := Idle(p.seen))
    case OtherSave(m) => s.(rows := Save(s.rows, m))
  }

  ghost predicate Follows(cfg: Config, s: State, l: Label, t: State) {
    Enabled(cfg, s, l) && t == Apply(cfg, s, l)
  }

  /** Nothing has arrived yet; the table may hold rows from before. */
  ghost predicate Init(cfg: Config, s: State) {
    && s.arrived == [] && s.slots == map[] && s.built == [] && s.proc == Down
    && forall k :: k in s.rows ==> s.rows[k].androidId == k && Genuine(cfg, s.rows[k])
  }

  ghost predicate IsRun(cfg: Config, ss: seq<State>, ls: seq<Label>) {
    && |ss| == |ls| + 1 && Init(cfg, ss[0])
    && forall i :: 0 <= i < |ls| ==> StepAt(cfg, ss, ls, i)
  }

  ghost predicate StepAt(cfg: Config, ss: seq<State>, ls: seq<Label>, i: nat)
    requires |ss| == |ls| + 1 && i < |ls|
  {
    Follows(cfg, ss[i], ls[i], ss[i + 1])
  }

  // ------------------------------------------------------------------ the invariant

  ghost predicate OnModem(s: State, a: nat) {
    exists i :: i in s.slots && s.slots[i] == a
  }

  /** The PDU with this stamp is no message part, or a message built from it has its key in the table. */
  ghost predicate Accounted(cfg: Config, s: State, a: nat)
    requires a < |s.arrived|
  {
    && cfg.decode(s.arrived[a]).Some?
    && (cfg.decode(s.arrived[a]).value.deliver ==>
          exists b :: b in s.built && a in b.stamps && b.message.androidId in s.rows)
  }

  ghost predicate NothingLost(cfg: Config, s: State) {
    forall a :: 0 <= a < |s.arrived| ==> OnModem(s, a) || Accounted(cfg, s, a)
  }

  /** How many PDUs make up the SMS that t belongs to. */
  function PartsOf(t: Tpdu): nat {
    if IsPart(t) then t.concat.value.segs else 1
  }

  ghost predicate PartsOfOne(ts: seq<Tpdu>)
    requires ts != []
  {
    forall i :: 0 <= i < |ts| ==> IsPart(ts[i]) && IsPart(ts[0]) && PartKey(ts[i]) == PartKey(ts[0])
  }

  /** DELIVER PDUs of one SMS, in the order of their numbers: one PDU, or parts with the same sender, reference and
      total. */
  ghost predicate OneSms(ts: seq<Tpdu>) {
    && ts != [] && (forall i :: 0 <= i < |ts| ==> ts[i].deliver)
    && (forall i, j :: 0 <= i < j < |ts| ==> SeqNo(ts[i]) <= SeqNo(ts[j]))
    && (PartsOfOne(ts) || (|ts| == 1 && !IsPart(ts[0])))
  }

  /** The stamps are different PDUs that arrived and belong to one SMS; the message is what the reader makes of them in
      this order, and is marked as incomplete exactly when they are fewer than the SMS has. */
  ghost predicate Sound(cfg: Config, arrived: seq<string>, b: Built) {
    && b.stamps != [] && AllUnlike(b.stamps)
    && (forall i :: 0 <= i < |b.stamps| ==>
          b.stamps[i] < |arrived| && cfg.decode(arrived[b.stamps[i]]).Some?)
    && SoundOf(cfg, Decoded(cfg, arrived, b.stamps), b)
  }

  ghost predicate SoundOf(cfg: Config, ts: seq<Tpdu>, b: Built) {
    && OneSms(ts) && (b.complete <==> |ts| >= PartsOf(ts[0]))
    && Build(cfg, ts, b.complete, b.received) == Some(b.message)
  }

  /** No PDU is in two slots. */
  ghost predicate NoCopies(slots: map<nat, nat>) {
    forall i, j :: i in slots && j in slots && slots[i] == slots[j] ==> i == j
  }

  ghost function Decoded(cfg: Config, arrived: seq<string>, stamps: seq<nat>): (ts: seq<Tpdu>)
    requires forall i :: 0 <= i < |stamps| ==> stamps[i] < |arrived| && cfg.decode(arrived[stamps[i]]).Some?
    ensures |ts| == |stamps|
    ensures forall i :: 0 <= i < |ts| ==> cfg.decode(arrived[stamps[i]]) == Some(ts[i])
  {
    seq(|stamps|, i requires 0 <= i < |stamps| => cfg.decode(arrived[stamps[i]]).value)
  }

  ghost predicate TableOk(cfg: Config, s: State) {
    && (forall i :: i in s.slots ==> s.slots[i] < |s.arrived|) && NoCopies(s.slots)
    && (forall k :: k in s.rows ==> s.rows[k].androidId == k && Genuine(cfg, s.rows[k]))
    && (forall b :: b in s.built ==> Sound(cfg, s.arrived, b))
  }

  function Parts(act: Act): seq<Entry> {
    match act
    case Choosing => []
    case Storing(parts, _) => parts
    case Deleting(left, _) => left
  }

  /** What the reader listed. */
  ghost predicate ListingOk(cfg: Config, arrived: seq<string>, p: Proc)
    requires p.Busy?
  {
    && (forall i :: i in p.was ==> p.was[i] < |arrived|) && NoCopies(p.was)
    && (forall e :: e in p.es ==> Stored(cfg, Pdus(arrived, p.was), e))
    && (forall i :: i in p.drop ==> NotDeliver(cfg, Pdus(arrived, p.was), i))
    && DistinctIndices(p.es) && AllUnlike(p.keys) && AllUnlike(p.drop)
    && (forall e :: e in Parts(p.act) ==> e in p.es && KeyOf(e) !in p.keys)
    && AllUnlike(Parts(p.act))
  }

  ghost predicate ActOk(s: State, was: map<nat, nat>, act: Act) {
    match act
    case Choosing => true
    case Storing(parts, b) =>
      b in s.built && parts != [] && forall e :: e in parts ==> e.index in was && was[e.index] in b.stamps
    case Deleting(left, b) =>
      && b in s.built && b.message.androidId in s.rows
      && forall e :: e in left ==> e.index in was && was[e.index] in b.stamps
  }

  /** The reader has not yet tried to delete the segment. */
  predicate Ahead(p: Proc, e: Entry)
    requires p.Busy?
  {
    e in p.es && (KeyOf(e) in p.keys || e in Parts(p.act))
  }

  /** Slot i holds what it held at the listing. */
  predicate Holds(s: State, i: nat)
    requires s.proc.Busy?
  {
    i in s.slots && i in s.proc.was && s.slots[i] == s.proc.was[i]
  }

  /** What the reader has still to delete has not changed since the listing. */
  ghost predicate Unchanged(s: State)
    requires s.proc.Busy?
  {
    && (forall e :: Ahead(s.proc, e) ==> Holds(s, e.index))
    && (forall i :: i in s.proc.drop ==> Holds(s, i))
  }

  ghost predicate ProcOk(cfg: Config, s: State) {
    s.proc.Busy? ==> ListingOk(cfg, s.arrived, s.proc) && ActOk(s, s.proc.was, s.proc.act) && Unchanged(s)
  }

  ghost predicate Inv(cfg: Config, s: State) {
    TableOk(cfg, s) && ProcOk(cfg, s) && NothingLost(cfg, s)
  }

  // ------------------------------------------------------------------ its preservation

  lemma InitInv(cfg: Config, s: State)
    requires Init(cfg, s)
    ensures Inv(cfg, s)
  {
  }

  lemma PdusGrow(cfg: Config, arrived: seq<string>, pdu: string, was: map<nat, nat>)
    requires forall i :: i in was ==> was[i] < |arrived|
    ensures Pdus(arrived + [pdu], was) == Pdus(arrived, was)
  {
  }

  lemma SoundGrows(cfg: Config, arrived: seq<string>, pdu: string, b: Built)
    requires Sound(cfg, arrived, b)
    ensures Sound(cfg, arrived + [pdu], b)
  {
    assert Decoded(cfg, arrived + [pdu], b.stamps) == Decoded(cfg, arrived, b.stamps);
  }

  lemma ArriveInv(cfg: Config, s: State, index: nat, pdu: string, t: State)
    requires Inv(cfg, s) && Follows(cfg, s, Arrive(index, pdu), t)
    ensures Inv(cfg, t)
  {
    forall b | b in t.built ensures Sound(cfg, t.arrived, b) {
      SoundGrows(cfg, s.arrived, pdu, b);
    }
    if s.proc.Busy? {
      PdusGrow(cfg, s.arrived, pdu, s.proc.was);
      assert Unchanged(t) by {
        assert forall e :: Ahead(t.proc, e) <==> Ahead(s.proc, e);
        assert forall i :: Holds(s, i) ==> Holds(t, i);
      }
    }
    forall a | 0 <= a < |t.arrived| ensures OnModem(t, a) || Accounted(cfg, t, a) {
      if a == |s.arrived| {
        assert t.slots[index] == a;
      } else if i :| i in s.slots && s.slots[i] == a {
        assert t.slots[i] == a;
      } else {
        assert Accounted(cfg, s, a);
      }
    }
  }

  /** Steps that touch neither the modem nor what is known of it. */
  lemma StillNothingLost(cfg: Config, s: State, t: State)
    requires NothingLost(cfg, s) && t.arrived == s.arrived && t.slots == s.slots
    requires (forall k :: k in s.rows ==> k in t.rows) && (forall b :: b in s.built ==> b in t.built)
    ensures NothingLost(cfg, t)
  {
    forall a | 0 <= a < |t.arrived| ensures OnModem(t, a) || Accounted(cfg, t, a) {
      if i :| i in s.slots && s.slots[i] == a {
        assert t.slots[i] == a;
      } else {
        assert Accounted(cfg, s, a);
      }
    }
  }

  lemma ListInv(cfg: Config, s: State, order: seq<nat>, lines: seq<string>, t: State)
    requires Inv(cfg, s) && Follows(cfg, s, List(order, lines), t)
    ensures Inv(cfg, t)
  {
    var pdus := Pdus(s.arrived, s.slots);
    ListingExact(cfg, pdus, order, lines);
    OrderExact(t.proc.es);
    assert Parts(t.proc.act) == [];
    StillNothingLost(cfg, s, t);
  }

  lemma SortedParts(es: seq<Entry>, k: Key, sorted: seq<Entry>)
    requires DistinctIndices(es) && IsSortOf(sorted, Members(es, k))
    ensures AllUnlike(sorted) && forall e :: e in sorted <==> e in es && KeyOf(e) == k
  {
    MembersExact(es, k);
    assert forall e :: e in sorted <==> e in multiset(sorted);
    assert forall e :: e in Members(es, k) <==> e in multiset(Members(es, k));
    forall i, j | 0 <= i < j < |sorted| ensures sorted[i] != sorted[j] {
      if sorted[i] == sorted[j] {
        Reassembly.Twice(sorted, i, j);
        Reassembly.OncePerIndex(es, k, sorted[i]);
      }
    }
  }

  lemma PickedIndices(es: seq<Entry>, picked: seq<Entry>)
    requires DistinctIndices(es) && AllUnlike(picked) && forall e :: e in picked ==> e in es
    ensures DistinctIndices(picked)
  {
    forall i, j | 0 <= i < j < |picked| ensures picked[i].index != picked[j].index {
      assert picked[i] in picked && picked[j] in picked;
      var a :| 0 <= a < |es| && es[a] == picked[i];
      var b :| 0 <= b < |es| && es[b] == picked[j];
      assert a < b || b < a;
    }
  }

  lemma OneOfIndex(sorted: seq<Entry>, k: Key)
    requires k.Single? && sorted != [] && DistinctIndices(sorted)
    requires forall i :: 0 <= i < |sorted| ==> KeyOf(sorted[i]) == k
    ensures |sorted| == 1
  {
    assert sorted[0].index == sorted[|sorted| - 1].index;
  }

  /** PDUs with one key, in order. */
  ghost predicate Keyed(k: Key, sorted: seq<Entry>) {
    && sorted != [] && DistinctIndices(sorted)
    && (forall i :: 0 <= i < |sorted| ==> sorted[i].tpdu.deliver && KeyOf(sorted[i]) == k)
    && forall i, j :: 0 <= i < j < |sorted| ==> SeqNo(sorted[i].tpdu) <= SeqNo(sorted[j].tpdu)
  }

  lemma PartsAreOneSms(k: Key, sorted: seq<Entry>)
    requires Keyed(k, sorted) && k.Parts?
    ensures OneSms(TpdusOf(sorted)) && PartsOf(TpdusOf(sorted)[0]) == Total(k)
  {
    var ts := TpdusOf(sorted);
    forall i | 0 <= i < |ts| ensures IsPart(ts[i]) && PartKey(ts[i]) == k {
      assert KeyOf(sorted[i]) == k;
    }
  }

  lemma SingleIsOneSms(k: Key, sorted: seq<Entry>)
    requires Keyed(k, sorted) && k.Single?
    ensures OneSms(TpdusOf(sorted)) && PartsOf(TpdusOf(sorted)[0]) == Total(k)
  {
    OneOfIndex(sorted, k);
    assert KeyOf(sorted[0]) == k;
  }

  /** The segments of a group, sorted, are the PDUs of one SMS, as many as the group has. */
  lemma GroupIsOneSms(es: seq<Entry>, k: Key, sorted: seq<Entry>)
    requires DistinctIndices(es) && IsSortOf(sorted, Members(es, k)) && sorted != []
    requires forall e :: e in es ==> e.tpdu.deliver
    ensures var ts := TpdusOf(sorted); OneSms(ts) && |ts| == |Members(es, k)| && PartsOf(ts[0]) == Total(k)
  {
    SortedParts(es, k, sorted);
    Reassembly.SameElements(sorted, Members(es, k));
    PickedIndices(es, sorted);
    forall i | 0 <= i < |sorted| ensures sorted[i].tpdu.deliver && KeyOf(sorted[i]) == k {
      assert sorted[i] in sorted;
    }
    if k.Parts? {
      PartsAreOneSms(k, sorted);
    } else {
      SingleIsOneSms(k, sorted);
    }
  }

  lemma BuiltIsSound(cfg: Config, arrived: seq<string>, was: map<nat, nat>, sorted: seq<Entry>, b: Built)
    requires b.stamps == StampsOf(was, sorted) && SoundOf(cfg, TpdusOf(sorted), b)
    requires (forall i :: i in was ==> was[i] < |arrived|) && NoCopies(was)
    requires forall e :: e in sorted ==> Stored(cfg, Pdus(arrived, was), e)
    requires DistinctIndices(sorted)
    ensures Sound(cfg, arrived, b)
    ensures forall e :: e in sorted ==> e.index in was && was[e.index] in b.stamps
  {
    forall i | 0 <= i < |sorted|
      ensures b.stamps[i] < |arrived| && cfg.decode(arrived[b.stamps[i]]) == Some(sorted[i].tpdu)
      ensures sorted[i].index in was && was[sorted[i].index] == b.stamps[i]
    {
      assert sorted[i] in sorted;
      assert Stored(cfg, Pdus(arrived, was), sorted[i]);
    }
    assert Decoded(cfg, arrived, b.stamps) == TpdusOf(sorted);
  }

  /** Steps that leave the modem alone and put nothing more at risk. */
  lemma StillUnchanged(s: State, t: State)
    requires s.proc.Busy? && t.proc.Busy? && Unchanged(s)
    requires t.slots == s.slots && t.proc.was == s.proc.was && t.proc.drop == s.proc.drop
    requires forall e :: Ahead(t.proc, e) ==> Ahead(s.proc, e)
    ensures Unchanged(t)
  {
    forall e | Ahead(t.proc, e) ensures Holds(t, e.index) {
      assert Holds(s, e.index);
    }
    forall i | i in t.proc.drop ensures Holds(t, i) {
      assert Holds(s, i);
    }
  }

  /** The group stays: it was recorded, it waits, or its text does not decode. */
  lemma PassedInv(cfg: Config, s: State, env: Env, t: State)
    requires Inv(cfg, s) && Follows(cfg, s, Choose(env), t) && t.proc.act.Choosing?
    ensures Inv(cfg, t)
  {
    StillNothingLost(cfg, s, t);
    StillUnchanged(s, t);
  }

  /** t is s after the group at the head was offered as b. */
  ghost predicate Offered(cfg: Config, s: State, sorted: seq<Entry>, b: Built, t: State) {
    && s.proc.Busy? && s.proc.keys != [] && sorted != []
    && t == s.(built := s.built + [b], proc := s.proc.(keys := s.proc.keys[1..], act := Storing(sorted, b)))
    && b.stamps == StampsOf(s.proc.was, sorted)
    && (b.complete <==> |Members(s.proc.es, s.proc.keys[0])| >= Total(s.proc.keys[0]))
    && Build(cfg, TpdusOf(sorted), b.complete, b.received) == Some(b.message)
  }

  lemma ChosenIsOffered(cfg: Config, s: State, env: Env, t: State)
    requires s.proc.Busy? && s.proc.act.Choosing? && s.proc.keys != [] && env.sorted != []
    requires t == Chosen(cfg, s, env) && t.proc.act.Storing?
    ensures Offered(cfg, s, env.sorted, t.proc.act.built, t)
  {
  }

  lemma OfferedInv(cfg: Config, s: State, sorted: seq<Entry>, b: Built, t: State)
    requires Inv(cfg, s) && Offered(cfg, s, sorted, b, t)
    requires IsSortOf(sorted, Members(s.proc.es, s.proc.keys[0]))
    ensures Inv(cfg, t)
  {
    SortedParts(s.proc.es, s.proc.keys[0], sorted);
    OfferedIsSound(cfg, s, sorted, b, t);
    OfferedListing(cfg, s, sorted, b, t);
    StillNothingLost(cfg, s, t);
    StillUnchanged(s, t);
  }

  lemma OfferedIsSound(cfg: Config, s: State, sorted: seq<Entry>, b: Built, t: State)
    requires Offered(cfg, s, sorted, b, t) && TableOk(cfg, s) && ListingOk(cfg, s.arrived, s.proc)
    requires IsSortOf(sorted, Members(s.proc.es, s.proc.keys[0]))
    requires AllUnlike(sorted) && forall e :: e in sorted ==> e in s.proc.es
    ensures TableOk(cfg, t) && ActOk(t, t.proc.was, t.proc.act)
  {
    PickedIndices(s.proc.es, sorted);
    forall e | e in s.proc.es ensures e.tpdu.deliver {
      assert Stored(cfg, Pdus(s.arrived, s.proc.was), e);
    }
    GroupIsOneSms(s.proc.es, s.proc.keys[0], sorted);
    BuiltIsSound(cfg, s.arrived, s.proc.was, sorted, b);
  }

  lemma OfferedListing(cfg: Config, s: State, sorted: seq<Entry>, b: Built, t: State)
    requires Offered(cfg, s, sorted, b, t) && ListingOk(cfg, s.arrived, s.proc)
    requires AllUnlike(sorted) && forall e :: e in sorted <==> e in s.proc.es && KeyOf(e) == s.proc.keys[0]
    ensures ListingOk(cfg, t.arrived, t.proc)
  {
    assert Parts(t.proc.act) == sorted;
    assert s.proc.keys[0] !in s.proc.keys[1..];
  }

  lemma ChooseInv(cfg: Config, s: State, env: Env, t: State)
    requires Inv(cfg, s) && Follows(cfg, s, Choose(env), t)
    ensures Inv(cfg, t)
  {
    if t.proc.act.Storing? {
      ChosenIsOffered(cfg, s, env, t);
      OfferedInv(cfg, s, env.sorted, t.proc.act.built, t);
    } else {
      PassedInv(cfg, s, env, t);
    }
  }

  lemma ReturnInv(cfg: Config, s: State, ok: bool, t: State)
    requires Inv(cfg, s) && Follows(cfg, s, Return(ok), t)
    ensures Inv(cfg, t)
  {
    StillUnchanged(s, t);
    StillNothingLost(cfg, s, t);
  }

  /** A slot may be freed when what it holds is accounted for. */
  lemma FreedIsAccounted(cfg: Config, s: State, i: nat, t: State)
    requires NothingLost(cfg, s) && TableOk(cfg, s) && i in s.slots && Accounted(cfg, s, s.slots[i])
    requires t.arrived == s.arrived && t.rows == s.rows && t.built == s.built
    requires t.slots == s.slots - {i} || t.slots == s.slots
    ensures NothingLost(cfg, t)
  {
    forall a | 0 <= a < |t.arrived| ensures OnModem(t, a) || Accounted(cfg, t, a) {
      if OnModem(s, a) {
        var j :| j in s.slots && s.slots[j] == a;
        if j == i {
          assert Accounted(cfg, t, a);
        } else {
          assert j in t.slots && t.slots[j] == a;
        }
      } else {
        assert Accounted(cfg, s, a);
      }
    }
  }

  lemma DeleteInv(cfg: Config, s: State, removed: bool, t: State)
    requires Inv(cfg, s) && Follows(cfg, s, Delete(removed), t)
    ensures Inv(cfg, t)
  {
    var p := s.proc;
    var e := p.act.left[0];
    assert Ahead(p, e) && Holds(s, e.index) && Stored(cfg, Pdus(s.arrived, p.was), e);
    assert p.act.cause in s.built;
    FreedIsAccounted(cfg, s, e.index, t);
    assert e !in p.act.left[1..];
    forall d | Ahead(t.proc, d) ensures Holds(t, d.index) {
      assert Ahead(p, d) && d != e && d.index != e.index;
    }
    forall i | i in t.proc.drop ensures Holds(t, i) {
      assert NotDeliver(cfg, Pdus(s.arrived, p.was), i) && Holds(s, i);
    }
  }

  lemma DropInv(cfg: Config, s: State, removed: bool, t: State)
    requires Inv(cfg, s) && Follows(cfg, s, Drop(removed), t)
    ensures Inv(cfg, t)
  {
    var p := s.proc;
    var i := p.drop[0];
    assert Holds(s, i) && NotDeliver(cfg, Pdus(s.arrived, p.was), i);
    FreedIsAccounted(cfg, s, i, t);
    assert i !in p.drop[1..];
    forall j | j in t.proc.drop ensures Holds(t, j) {
      assert j in p.drop && Holds(s, j);
    }
    forall e | Ahead(t.proc, e) ensures Holds(t, e.index) {
      assert Ahead(p, e) && Stored(cfg, Pdus(s.arrived, p.was), e);
    }
  }

  lemma CommitInv(cfg: Config, s: State, t: State)
    requires AllDigits(cfg.imei) && Inv(cfg, s) && Follows(cfg, s, Commit, t)
    ensures Inv(cfg, t)
  {
    var b := s.proc.act.built;
    assert Sound(cfg, s.arrived, b);
    BuildIsGenuine(cfg, Decoded(cfg, s.arrived, b.stamps), b.complete, b.received);
    StillNothingLost(cfg, s, t);
    StillUnchanged(s, t);
  }

  lemma BuildIsGenuine(cfg: Config, ts: seq<Tpdu>, complete: bool, received: int)
    requires ts != [] && Build(cfg, ts, complete, received).Some?
    ensures AllDigits(cfg.imei) ==> Genuine(cfg, Build(cfg, ts, complete, received).value)
  {
  }

  lemma OtherInv(cfg: Config, s: State, l: Label, t: State)
    requires Inv(cfg, s) && Follows(cfg, s, l, t) && (l.Start? || l.Crash? || l.Next? || l.Finish? || l.OtherSave?)
    ensures Inv(cfg, t)
  {
    StillNothingLost(cfg, s, t);
    if t.proc.Busy? {
      assert forall e :: Ahead(t.proc, e) ==> Ahead(s.proc, e);
    }
  }

  lemma StepInv(cfg: Config, s: State, l: Label, t: State)
    requires AllDigits(cfg.imei) && Inv(cfg, s) && Follows(cfg, s, l, t)
    ensures Inv(cfg, t)
  {
    match l
    case Arrive(index, pdu) => ArriveInv(cfg, s, index, pdu, t);
    case List(order, lines) => ListInv(cfg, s, order, lines, t);
    case Choose(env) => ChooseInv(cfg, s, env, t);
    case Commit => CommitInv(cfg, s, t);
    case Return(ok) => ReturnInv(cfg, s, ok, t);
    case Delete(removed) => DeleteInv(cfg, s, removed, t);
    case Drop(removed) => DropInv(cfg, s, removed, t);
    case _ => OtherInv(cfg, s, l, t);
  }

  // ------------------------------------------------------------------ whole runs

  lemma {:induction false} RunInv(cfg: Config, ss: seq<State>, ls: seq<Label>, n: nat)
    requires AllDigits(cfg.imei) && IsRun(cfg, ss, ls) && n <= |ls|
    ensures Inv(cfg, ss[n])
  {
    if n == 0 {
      InitInv(cfg, ss[0]);
    } else {
      RunInv(cfg, ss, ls, n - 1);
      assert StepAt(cfg, ss, ls, n - 1);
      StepInv(cfg, ss[n - 1], ls[n - 1], ss[n]);
    }
  }

  /** A message made from the PDU and, if that is a part, other parts of the same SMS, was built as the reader builds
      messages, and the table holds its sender, time in seconds and body under its key. */
  ghost predicate InTable(cfg: Config, s: State, a: nat, b: Built) {
    && Sound(cfg, s.arrived, b) && a in b.stamps
    && b.message.androidId in s.rows
    && var row := s.rows[b.message.androidId];
       row.address == b.message.address && row.body == b.message.body
       && row.receivedAt / SECOND == b.message.receivedAt / SECOND
  }

  ghost predicate BarFree(cfg: Config, s: State) {
    && (forall k :: k in s.rows ==> NoChar(s.rows[k].address, '|'))
    && forall i :: 0 <= i < |s.arrived| && cfg.decode(s.arrived[i]).Some? ==>
         NoChar(cfg.decode(s.arrived[i]).value.sender, '|')
  }

  lemma RowIsMessage(cfg: Config, s: State, b: Built)
    requires Keys.Injective(cfg.hash) && AllDigits(cfg.imei) && BarFree(cfg, s) && TableOk(cfg, s)
    requires b in s.built && b.message.androidId in s.rows
    ensures var row := s.rows[b.message.androidId];
      row.address == b.message.address && row.body == b.message.body
      && row.receivedAt / SECOND == b.message.receivedAt / SECOND
  {
    var row, m := s.rows[b.message.androidId], b.message;
    assert Sound(cfg, s.arrived, b);
    assert StartsWith(m.androidId, "modem:");
    assert Genuine(cfg, row);
    var imei :| AllDigits(imei)
                && row.androidId == Keys.MessageKey(cfg.hash, imei, row.address, row.receivedAt / SECOND, row.body);
    Keys.MessageKeyInjective(cfg.hash, imei, row.address, row.receivedAt / SECOND, row.body,
                             cfg.imei, m.address, m.receivedAt / SECOND, m.body);
  }

  /** Store before delete, in every reachable state: a PDU that ever arrived is on the modem, or it was decoded,
      and if it is a message part, then a message built from it, alone or in order with other parts of the same SMS, is
      in the table. */
  lemma StoredBeforeDeleted(cfg: Config, ss: seq<State>, ls: seq<Label>, n: nat, a: nat)
    requires AllDigits(cfg.imei) && IsRun(cfg, ss, ls) && n <= |ls| && a < |ss[n].arrived|
    requires Keys.Injective(cfg.hash) && BarFree(cfg, ss[n])
    ensures OnModem(ss[n], a)
            || (cfg.decode(ss[n].arrived[a]).Some?
                && (cfg.decode(ss[n].arrived[a]).value.deliver ==> exists b :: InTable(cfg, ss[n], a, b)))
  {
    RunInv(cfg, ss, ls, n);
    if !OnModem(ss[n], a) && cfg.decode(ss[n].arrived[a]).Some? && cfg.decode(ss[n].arrived[a]).value.deliver {
      assert Accounted(cfg, ss[n], a);
      var b :| b in ss[n].built && a in b.stamps && b.message.androidId in ss[n].rows;
      RowIsMessage(cfg, ss[n], b);
      assert InTable(cfg, ss[n], a, b);
    }
  }

  /** What is in the table stays there unchanged. */
  lemma {:induction false} RowsStay(cfg: Config, ss: seq<State>, ls: seq<Label>, i: nat, j: nat, k: string)
    requires IsRun(cfg, ss, ls) && i <= j <= |ls| && k in ss[i].rows
    ensures k in ss[j].rows && ss[j].rows[k] == ss[i].rows[k]
    decreases j
  {
    if i < j {
      RowsStay(cfg, ss, ls, i, j - 1, k);
      assert StepAt(cfg, ss, ls, j - 1);
    }
  }

  /** Reading the same group again, after a crash say, makes the same key, so that the row is not inserted twice.
      For PDUs without a time that holds only within one second. */
  lemma RereadIsDuplicateIff(cfg: Config, ts: seq<Tpdu>, complete: bool, received: int, received': int)
    requires ts != [] && cfg.text(ts).Some? && Keys.Injective(cfg.hash)
    ensures Build(cfg, ts, complete, received).value.androidId == Build(cfg, ts, complete, received').value.androidId
            <==> ts[0].time.Some? || received / SECOND == received' / SECOND
  {
    var m, m' := Build(cfg, ts, complete, received).value, Build(cfg, ts, complete, received').value;
    if m.androidId == m'.androidId {
      Keys.SameSender(cfg.hash, cfg.imei, m.address, m.receivedAt / SECOND, m.body, m'.receivedAt / SECOND, m'.body);
    }
  }

  // ------------------------------------------------------------------ a run without faults

  lemma Extend(cfg: Config, ss: seq<State>, ls: seq<Label>, l: Label, t: State)
    returns (ss': seq<State>, ls': seq<Label>)
    requires IsRun(cfg, ss, ls) && Follows(cfg, ss[|ls|], l, t)
    ensures IsRun(cfg, ss', ls') && ss' == ss + [t] && ls' == ls + [l]
  {
    ss', ls' := ss + [t], ls + [l];
    forall k | 0 <= k < |ls'| ensures StepAt(cfg, ss', ls', k) {
      if k < |ls| {
        assert StepAt(cfg, ss, ls, k);
      }
    }
  }

  lemma ScansOne(cfg: Config, line: string, pdu: string, t: Tpdu)
    requires Heads(line, 1) && cfg.decode(pdu) == Some(t) && t.deliver
    ensures Scan(cfg, [line, pdu]) == [Segment(Entry(1, t))]
  {
    IndexIff(line, 1);
    assert [line, pdu][2..] == [] && Scan(cfg, []) == [];
  }

  lemma GroupsOne(e: Entry)
    requires !IsPart(e.tpdu)
    ensures Segments([Segment(e)]) == [e] && Orphans([Segment(e)]) == []
    ensures Order([e]) == [Single(e.index)] && Members([e], Single(e.index)) == [e] && TpdusOf([e]) == [e.tpdu]
  {
    assert [Segment(e)][..0] == [] && [e][..0] == [];
  }

  lemma ListsOne(slots: map<nat, string>, line: string, pdu: string)
    requires slots == map[1 := pdu] && Heads(line, 1)
    ensures Lists(slots, [1], [line, pdu])
  {
  }

  /** Where the reader is with its only PDU, in slot 1. */
  function Doing(pdu: string, t: Tpdu, slots: map<nat, nat>, rows: map<string, Message>, built: seq<Built>,
                 keys: seq<Key>, act: Act): State
  {
    State([pdu], slots, rows, built, Busy(map[], map[1 := 0], [Entry(1, t)], keys, act, []))
  }

  lemma ListStep(cfg: Config, pdu: string, t: Tpdu, line: string)
    requires cfg.decode(pdu) == Some(t) && t.deliver && !IsPart(t) && Heads(line, 1)
    ensures Follows(cfg, State([pdu], map[1 := 0], map[], [], Idle(map[])), List([1], [line, pdu]),
                    Doing(pdu, t, map[1 := 0], map[], [], [Single(1)], Choosing))
  {
    ScansOne(cfg, line, pdu, t);
    GroupsOne(Entry(1, t));
    assert Pdus([pdu], map[1 := 0]) == map[1 := pdu];
    ListsOne(Pdus([pdu], map[1 := 0]), line, pdu);
  }

  lemma ListsIt(cfg: Config, pdu: string, t: Tpdu) returns (ss: seq<State>, ls: seq<Label>)
    requires cfg.decode(pdu) == Some(t) && t.deliver && !IsPart(t)
    ensures IsRun(cfg, ss, ls) && ss[|ls|] == Doing(pdu, t, map[1 := 0], map[], [], [Single(1)], Choosing)
  {
    ss, ls := [State([], map[], map[], [], Down)], [];
    var s1 := State([pdu], map[1 := 0], map[], [], Down);
    assert [] + [pdu] == [pdu];
    ss, ls := Extend(cfg, ss, ls, Arrive(1, pdu), s1);
    ss, ls := Extend(cfg, ss, ls, Start, s1.(proc := Idle(map[])));
    HeaderHeads(1, "");
    ListStep(cfg, pdu, t, Header(1, ""));
    ss, ls := Extend(cfg, ss, ls, List([1], [Header(1, ""), pdu]),
                     Doing(pdu, t, map[1 := 0], map[], [], [Single(1)], Choosing));
  }

  lemma OffersOne(cfg: Config, e: Entry, env: Env, m: Message)
    requires env.sorted == [e] && TpdusOf([e]) == [e.tpdu] && Build(cfg, [e.tpdu], true, env.received) == Some(m)
    ensures Decide(cfg, map[], Single(e.index), 1, env) == Offer(m)
  {
  }

  lemma ChosenOne(cfg: Config, s: State, env: Env, b: Built)
    requires s.proc.Busy? && s.proc.keys == [Single(1)] && env.sorted != [] && s.built == []
    requires |Members(s.proc.es, Single(1))| == 1 && Decide(cfg, s.proc.seen, Single(1), 1, env) == Offer(b.message)
    requires StampsOf(s.proc.was, env.sorted) == b.stamps && b.complete && b.received == env.received
    ensures Chosen(cfg, s, env) == s.(built := [b], proc := s.proc.(keys := [], act := Storing(env.sorted, b)))
  {
    assert s.proc.keys[1..] == [] && s.built + [b] == [b];
  }

  lemma MayChoose(cfg: Config, s: State, env: Env)
    requires s.proc.Busy? && s.proc.act.Choosing? && s.proc.keys == [Single(1)] && env.sorted != []
    requires Members(s.proc.es, Single(1)) == env.sorted && |env.sorted| == 1
    ensures Enabled(cfg, s, Choose(env)) && Apply(cfg, s, Choose(env)) == Chosen(cfg, s, env)
  {
  }

  lemma ChooseStep(cfg: Config, pdu: string, t: Tpdu, env: Env, b: Built)
    requires !IsPart(t) && env.sorted == [Entry(1, t)] && b.stamps == [0] && b.complete && b.received == env.received
    requires Build(cfg, [t], true, env.received) == Some(b.message)
    ensures Follows(cfg, Doing(pdu, t, map[1 := 0], map[], [], [Single(1)], Choosing), Choose(env),
                    Doing(pdu, t, map[1 := 0], map[], [b], [], Storing([Entry(1, t)], b)))
  {
    var s := Doing(pdu, t, map[1 := 0], map[], [], [Single(1)], Choosing);
    GroupsOne(Entry(1, t));
    OffersOne(cfg, Entry(1, t), env, b.message);
    StampsOne(Entry(1, t));
    ChosenOne(cfg, s, env, b);
    MayChoose(cfg, s, env);
  }

  lemma StampsOne(e: Entry)
    requires e.index == 1
    ensures StampsOf(map[1 := 0], [e]) == [0]
  {
  }

  lemma StoresIt(cfg: Config, pdu: string, t: Tpdu, now: int) returns (ss: seq<State>, ls: seq<Label>, b: Built)
    requires cfg.decode(pdu) == Some(t) && t.deliver && !IsPart(t) && cfg.text([t]).Some?
    ensures IsRun(cfg, ss, ls) && Build(cfg, [t], true, now) == Some(b.message)
    ensures ss[|ls|] == Doing(pdu, t, map[1 := 0], map[b.message.androidId := b.message], [b], [],
                              Storing([Entry(1, t)], b))
  {
    ss, ls := ListsIt(cfg, pdu, t);
    var env := Env(now, now, [Entry(1, t)], true, {}, {});
    b := Built([0], true, now, Build(cfg, [t], true, now).value);
    var parts := [Entry(1, t)];
    ChooseStep(cfg, pdu, t, env, b);
    ss, ls := Extend(cfg, ss, ls, Choose(env), Doing(pdu, t, map[1 := 0], map[], [b], [], Storing(parts, b)));
    ss, ls := Extend(cfg, ss, ls, Commit, Doing(pdu, t, map[1 := 0], map[b.message.androidId := b.message], [b], [],
                                                Storing(parts, b)));
  }

  lemma ReturnStep(cfg: Config, pdu: string, t: Tpdu, rows: map<string, Message>, b: Built)
    requires cfg.deleteAfterRead && b.message.androidId in rows
    ensures Follows(cfg, Doing(pdu, t, map[1 := 0], rows, [b], [], Storing([Entry(1, t)], b)), Return(true),
                    Doing(pdu, t, map[1 := 0], rows, [b], [], Deleting([Entry(1, t)], b)))
  {
    assert Forget(map[], KeyOf(Entry(1, t))) == map[];
  }

  lemma DeleteStep(cfg: Config, pdu: string, t: Tpdu, rows: map<string, Message>, b: Built)
    ensures Follows(cfg, Doing(pdu, t, map[1 := 0], rows, [b], [], Deleting([Entry(1, t)], b)), Delete(true),
                    Doing(pdu, t, map[], rows, [b], [], Deleting([], b)))
  {
    assert map[1 := 0] - {1} == map[] && [Entry(1, t)][1..] == [];
  }

  /** For example: an SMS of one part that arrives is stored with its text, and then is no longer on the modem. */
  lemma TakesOneIn(cfg: Config, pdu: string, t: Tpdu, now: int) returns (ss: seq<State>, ls: seq<Label>, m: Message)
    requires cfg.decode(pdu) == Some(t) && t.deliver && !IsPart(t) && cfg.text([t]).Some? && cfg.deleteAfterRead
    ensures IsRun(cfg, ss, ls)
    ensures ss[|ls|].arrived == [pdu] && ss[|ls|].slots == map[] && ss[|ls|].proc.Idle?
    ensures ss[|ls|].rows == map[m.androidId := m] && m.body == cfg.text([t]).value && m.address == t.sender
  {
    var b;
    ss, ls, b := StoresIt(cfg, pdu, t, now);
    m := b.message;
    var rows, e := map[m.androidId := m], Entry(1, t);
    ReturnStep(cfg, pdu, t, rows, b);
    ss, ls := Extend(cfg, ss, ls, Return(true), Doing(pdu, t, map[1 := 0], rows, [b], [], Deleting([e], b)));
    DeleteStep(cfg, pdu, t, rows, b);
    ss, ls := Extend(cfg, ss, ls, Delete(true), Doing(pdu, t, map[], rows, [b], [], Deleting([], b)));
    ss, ls := Extend(cfg, ss, ls, Next, Doing(pdu, t, map[], rows, [b], [], Choosing));
    ss, ls := Extend(cfg, ss, ls, Finish, ss[|ls|].(proc := Idle(map[])));
  }
}
