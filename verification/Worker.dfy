/** The modem worker's reading loops, step by step (internal/modem/worker.go), refined against Reader.ReadSpec. */
module Worker {
  import opened Text
  import opened Backoff
  import opened Reader
  import Reading
  import Reassembly

  /** Readings of the clock never go back, within one call and within one group. */
  ghost predicate Clocked(envs: seq<Env>, from: int, to: int) {
    && (forall j :: 0 <= j < |envs| ==> from <= envs[j].now <= envs[j].received <= to)
    && (forall j, k :: 0 <= j < k < |envs| ==> envs[j].received <= envs[k].now)
  }

  class Worker {
    const cfg: Config
    var firstSeen: map<Key, int>   // when the worker first met an incomplete group
    var badPdu: set<nat>           // slots whose bad PDU has been logged
    var slots: map<nat, string>    // the modem's storage
    var offered: seq<Message>      // messages that the handler was called with
    var handed: seq<Message>       // messages that the handler has stored
    var asked: seq<nat>            // indexes that AT+CMGD was sent for
    var time: int

    constructor (cfg: Config, slots: map<nat, string>, time: int)
      requires forall i :: i in slots ==> i <= MAX_INT
      ensures this.cfg == cfg && Memory() == Mem(map[], {}, slots, [], [], []) && this.time == time
    {
      this.cfg, this.slots, this.time := cfg, slots, time;
      this.firstSeen, this.badPdu, this.offered, this.handed, this.asked := map[], {}, [], [], [];
    }

    function Memory(): Mem
      reads this
    {
      Mem(firstSeen, badPdu, slots, offered, handed, asked)
    }

    /** AT+CMGL=4: every stored PDU in an order of the modem's choosing, each with fields of the modem's choosing. */
    method ListStored(fields: nat -> string) returns (lines: seq<string>, ghost order: seq<nat>)
      requires forall i :: i in slots ==> i <= MAX_INT
      ensures Lists(slots, order, lines)
    {
      lines, order := [], [];
      var left := slots.Keys;
      while left != {}
        invariant left <= slots.Keys
        invariant Lists(map i | i in slots && i !in left :: slots[i], order, lines)
      {
        var i :| i in left;
        HeaderHeads(i, fields(i));
        lines := lines + [Header(i, fields(i)), slots[i]];
        order := order + [i];
        left := left - {i};
      }
      assert slots == map i | i in slots && i !in left :: slots[i];
      assert Lists(slots, order, lines);
    }

    /** AT+CMGD: a reply other than OK leaves it open whether the PDU is gone. */
    method DeleteStored(index: nat) returns (ok: bool, ghost removed: set<nat>)
      modifies this`slots, this`asked
      ensures removed <= {index} && slots == old(slots) - removed && (ok ==> removed == {index})
      ensures asked == old(asked) + [index]
    {
      asked := asked + [index];
      ok := *;
      removed := {};
      var done := *;
      if ok || done {
        slots := slots - {index};
        removed := {index};
      }
    }

    method Now() returns (t: int)
      modifies this`time
      ensures t == time && time >= old(time)
    {
      var passed: int := *;
      if passed > 0 {
        time := time + passed;
      }
      t := time;
    }

    /** The handler: stores the message, or fails. */
    method Handle(msg: Message) returns (ok: bool)
      modifies this`offered, this`handed
      ensures handed == if ok then old(handed) + [msg] else old(handed)
      ensures offered == old(offered) + [msg]
    {
      offered := offered + [msg];
      ok := *;
      if ok {
        handed := handed + [msg];
      }
    }

    /** The first loop of ReadAll: pairs the lines, drops what is not a DELIVER, and groups the segments. */
    method Collect(lines: seq<string>) returns (groups: map<Key, seq<Entry>>, order: seq<Key>, orphans: seq<nat>)
      modifies this`badPdu
      ensures Grouped(Scan(cfg, lines), groups, order, orphans)
      ensures badPdu == old(badPdu) + Bads(Scan(cfg, lines))
    {
      groups, order, orphans := map[], [], [];
      ghost var done: seq<Item> := [];
      var i := 0;
      while i < |lines|
        invariant 0 <= i <= |lines|
        invariant Scanned(cfg, lines, i, done)
        invariant Grouped(done, groups, order, orphans)
        invariant badPdu == old(badPdu) + Bads(done)
      {
        NextScanned(cfg, lines, i, done);
        var m := CmglIndex(lines[i]);
        if m.None? || i + 1 >= |lines| {
          i := i + 1;
          continue;
        }
        var idx := m.value;
        i := i + 1;
        ghost var item := Classify(cfg, idx, lines[i]);
        groups, order, orphans := ReadItem(idx, lines[i], groups, order, orphans, done);
        AddItem(done, item);
        done := done + [item];
        i := i + 1;
      }
      assert lines[i..] == [] && done + [] == done;
    }

    /** What one listed PDU adds. */
    method ReadItem(idx: nat, pdu: string, groups: map<Key, seq<Entry>>, order: seq<Key>, orphans: seq<nat>,
                    ghost done: seq<Item>)
      returns (groups': map<Key, seq<Entry>>, order': seq<Key>, orphans': seq<nat>)
      requires Grouped(done, groups, order, orphans)
      modifies this`badPdu
      ensures Grouped(done + [Classify(cfg, idx, pdu)], groups', order', orphans')
      ensures badPdu == old(badPdu) + if Classify(cfg, idx, pdu).Bad? then {idx} else {}
    {
      groups', order', orphans' := groups, order, orphans;
      var item := Classify(cfg, idx, pdu);
      match item
      case Bad(_) =>
        AddOther(done, item, groups, order, orphans);
        if idx !in badPdu {
          badPdu := badPdu + {idx};
        }
      case Orphan(_) =>
        AddOther(done, item, groups, order, orphans);
        orphans' := orphans' + [idx];
      case Segment(e) =>
        groups', order' := Place(e, groups, order, done, orphans);
    }

    /** One segment added to its group, a new one if it is the first. */
    static method Place(e: Entry, groups: map<Key, seq<Entry>>, order: seq<Key>, ghost items: seq<Item>,
                        orphans: seq<nat>)
      returns (groups': map<Key, seq<Entry>>, order': seq<Key>)
      requires Grouped(items, groups, order, orphans)
      ensures Grouped(items + [Segment(e)], groups', order', orphans)
    {
      AddItem(items, Segment(e));
      groups', order' := groups, order;
      var key := KeyOf(e);
      if key !in groups' {
        groups' := groups'[key := []];
        order' := order' + [key];
      }
      groups' := groups'[key := groups'[key] + [e]];
    }

    /** Behind the last segment whose number is not larger. */
    method PlaceOf(sorted: seq<Entry>, e: Entry) returns (k: nat)
      ensures k <= |sorted| && (k > 0 ==> SeqNo(sorted[k - 1].tpdu) <= SeqNo(e.tpdu))
      ensures forall j :: k <= j < |sorted| ==> SeqNo(e.tpdu) < SeqNo(sorted[j].tpdu)
    {
      k := |sorted|;
      while k > 0 && SeqNo(sorted[k - 1].tpdu) > SeqNo(e.tpdu)
        invariant 0 <= k <= |sorted|
        invariant forall j :: k <= j < |sorted| ==> SeqNo(e.tpdu) < SeqNo(sorted[j].tpdu)
      {
        k := k - 1;
      }
    }

    /** The segments in sequence order; the order of equal numbers is left open by the caller's contract. */
    method SortSegments(es: seq<Entry>) returns (sorted: seq<Entry>)
      ensures IsSortOf(sorted, es)
    {
      sorted := [];
      var i := 0;
      while i < |es|
        invariant 0 <= i <= |es|
        invariant IsSortOf(sorted, es[..i])
      {
        var k := PlaceOf(sorted, es[i]);
        InsertSorted(sorted, es[..i], es[i], k);
        assert es[..i + 1] == es[..i] + [es[i]];
        sorted := sorted[..k] + [es[i]] + sorted[k..];
        i := i + 1;
      }
      assert es[..i] == es;
    }

    /** buildMessage: the clock is read only when the first segment carries no time. */
    method BuildMessage(es: seq<Entry>, complete: bool)
      returns (msg: Option<Message>, sorted: seq<Entry>, ghost received: int)
      requires es != []
      modifies this`time
      ensures IsSortOf(sorted, es) && sorted != []
      ensures msg == Build(cfg, TpdusOf(sorted), complete, received)
      ensures old(time) <= received == time
    {
      sorted := SortSegments(es);
      assert |multiset(sorted)| == |sorted| && |multiset(es)| == |es|;
      received := time;
      var ts := TpdusOf(sorted);
      var text := cfg.text(ts);
      if text.None? {
        return None, sorted, received;
      }
      var body := if complete then text.value else text.value + MARK;
      var first := ts[0];
      var at := time;
      if first.time.Some? {
        at := first.time.value;
      } else {
        at := Now();
        received := at;
      }
      msg := Some(Message(Keys.MessageKey(cfg.hash, cfg.imei, first.sender, at / SECOND, body), first.sender, body,
                          cfg.name, cfg.simName, "modem", cfg.number, at));
    }

    method DeleteSegments(segs: seq<Entry>) returns (ghost removed: set<nat>, ghost acked: set<nat>)
      modifies this`slots, this`badPdu, this`asked
      ensures acked <= removed <= Indices(segs)
      ensures asked == if cfg.deleteAfterRead then old(asked) + IndexList(segs) else old(asked)
      ensures slots == if cfg.deleteAfterRead then old(slots) - removed else old(slots)
      ensures badPdu == if cfg.deleteAfterRead then old(badPdu) - acked else old(badPdu)
    {
      removed, acked := {}, {};
      if !cfg.deleteAfterRead {
        return;
      }
      var i := 0;
      while i < |segs|
        invariant 0 <= i <= |segs|
        invariant acked <= removed <= Indices(segs[..i])
        invariant slots == old(slots) - removed && badPdu == old(badPdu) - acked
        invariant asked == old(asked) + IndexList(segs[..i])
      {
        var ok, gone := DeleteStored(segs[i].index);
        removed := removed + gone;
        if ok {
          badPdu := badPdu - {segs[i].index};
          acked := acked + {segs[i].index};
        }
        assert segs[..i + 1][i] == segs[i] && segs[..i + 1][..i] == segs[..i];
        assert forall j :: 0 <= j < i ==> segs[..i + 1][j] == segs[..i][j];
        i := i + 1;
      }
      assert segs[..i] == segs;
    }

    /** The end of an iteration of ReadAll's second loop, for a group that is complete or whose time is up. */
    method HandOver(k: Key, members: seq<Entry>, complete: bool, ghost now: int) returns (ghost env: Env)
      requires members != [] && now <= time && complete == (|members| >= Total(k))
      requires complete || (k in firstSeen && now - firstSeen[k] >= TIMEOUT)
      modifies this
      ensures IsSortOf(env.sorted, members) && env.sorted != [] && env.acked <= env.removed <= Indices(env.sorted)
      ensures Memory() == Visit(cfg, old(Memory()), k, |members|, env)
      ensures env.now == now <= env.received <= time && old(time) <= time
    {
      var msg, sorted, received := BuildMessage(members, complete);
      SortIsNonEmpty(sorted, members);
      env := Env(now, received, sorted, false, {}, {});
      if msg.None? {
        return;
      }
      var ok := Handle(msg.value);
      if !ok {
        return;
      }
      firstSeen := Forget(firstSeen, k);
      var removed, acked := DeleteSegments(sorted);
      env := env.(stored := true, removed := removed, acked := acked);
    }

    /** One iteration of ReadAll's second loop. */
    method HandleGroup(k: Key, members: seq<Entry>, ghost es: seq<Entry>) returns (ghost env: Env)
      requires members == Members(es, k) && members != []
      modifies this
      ensures EnvOk(es, k, env)
      ensures Memory() == Visit(cfg, old(Memory()), k, |members|, env)
      ensures old(time) <= env.now <= env.received <= time
    {
      var complete := |members| >= Total(k);
      var now := time;
      if !complete {
        ghost var unsorted := Reassembly.AnySort(members);
        SortIsNonEmpty(unsorted, members);
        now := Now();
        env := Env(now, now, unsorted, false, {}, {});
        if k !in firstSeen {
          firstSeen := firstSeen[k := now];
          return;
        }
        if now - firstSeen[k] < TIMEOUT {
          return;
        }
      }
      env := HandOver(k, members, complete, now);
    }

    /** ReadAll, with `ok` for the outcome of the listing. When it fails nothing changes; otherwise the effect is that
        of ReadSpec, for some behaviour of the modem, the handler and the clock. */
    method ReadAll(ok: bool, fields: nat -> string)
      returns (lines: seq<string>, ghost listed: seq<nat>, ghost envs: seq<Env>, ghost dropped: set<nat>)
      requires forall i :: i in slots ==> i <= MAX_INT
      modifies this
      ensures !ok ==> Memory() == old(Memory()) && time == old(time)
      ensures ok ==> Lists(old(slots), listed, lines)
      ensures ok ==>
        var es := Segments(Scan(cfg, lines));
        && EnvsOk(es, Order(es), envs) && Clocked(envs, old(time), time)
        && (forall i :: i in dropped ==> i in Orphans(Scan(cfg, lines)))
        && Memory() == ReadSpec(cfg, old(Memory()), lines, envs, dropped)
    {
      lines, listed, envs, dropped := [], [], [], {};
      if ok {
        lines, listed := ListStored(fields);
        envs, dropped := WorkOff(lines);
      }
    }

    /** ReadAll, from the listing on. */
    method WorkOff(lines: seq<string>) returns (ghost envs: seq<Env>, ghost dropped: set<nat>)
      modifies this
      ensures var es := Segments(Scan(cfg, lines));
        && EnvsOk(es, Order(es), envs) && Clocked(envs, old(time), time)
        && (forall i :: i in dropped ==> i in Orphans(Scan(cfg, lines)))
        && Memory() == ReadSpec(cfg, old(Memory()), lines, envs, dropped)
    {
      dropped := {};
      ghost var es := Segments(Scan(cfg, lines));
      var groups, order, orphans := Collect(lines);
      ghost var seen := Memory();
      envs := HandleAll(groups, order, es);
      ghost var visited := Memory();
      if cfg.deleteAfterRead {
        dropped := DropOrphans(orphans);
      }
      InTotal(cfg, old(Memory()), lines, envs, dropped, seen, visited, Memory());
    }

    /** ReadAll's second loop. */
    method HandleAll(groups: map<Key, seq<Entry>>, order: seq<Key>, ghost es: seq<Entry>) returns (ghost envs: seq<Env>)
      requires order == Order(es)
      requires forall k :: k in order ==> k in groups && groups[k] == Members(es, k)
      modifies this
      ensures EnvsOk(es, order, envs) && Clocked(envs, old(time), time)
      ensures Memory() == VisitAll(cfg, old(Memory()), es, order, envs)
    {
      envs := [];
      var i := 0;
      OrderHasMembers(es);
      while i < |order|
        invariant 0 <= i <= |order|
        invariant Visited(cfg, old(Memory()), es, order[..i], envs, Memory())
        invariant Clocked(envs, old(time), time) && old(time) <= time
      {
        assert order[i] in order;
        ghost var before, asked := Memory(), time;
        ghost var env := HandleGroup(order[i], groups[order[i]], es);
        VisitNext(cfg, old(Memory()), es, order, envs, i, env, before);
        ClockedNext(envs, env, old(time), asked, time);
        envs := envs + [env];
        i := i + 1;
      }
      assert order[..i] == order;
    }

    method DropOrphans(orphans: seq<nat>) returns (ghost dropped: set<nat>)
      modifies this`slots, this`asked
      ensures forall i :: i in dropped ==> i in orphans
      ensures slots == old(slots) - dropped && asked == old(asked) + orphans
    {
      dropped := {};
      for i := 0 to |orphans|
        invariant forall x :: x in dropped ==> x in orphans
        invariant slots == old(slots) - dropped && asked == old(asked) + orphans[..i]
      {
        var ok, gone := DeleteStored(orphans[i]);
        dropped := dropped + gone;
        assert orphans[..i + 1] == orphans[..i] + [orphans[i]];
      }
      assert orphans[..|orphans|] == orphans;
    }
  }

  /** Visiting the groups turns memory m into n. */
  ghost predicate Visited(cfg: Config, m: Mem, es: seq<Entry>, keys: seq<Key>, envs: seq<Env>, n: Mem) {
    EnvsOk(es, keys, envs) && n == VisitAll(cfg, m, es, keys, envs)
  }

  lemma ClockedNext(envs: seq<Env>, env: Env, from: int, mid: int, to: int)
    requires Clocked(envs, from, mid) && from <= mid <= env.now <= env.received <= to
    ensures Clocked(envs + [env], from, to)
  {
  }

  lemma VisitNext(cfg: Config, m: Mem, es: seq<Entry>, order: seq<Key>, envs: seq<Env>, i: nat, env: Env, n: Mem)
    requires i < |order| && Visited(cfg, m, es, order[..i], envs, n) && EnvOk(es, order[i], env)
    ensures Visited(cfg, m, es, order[..i + 1], envs + [env], Visit(cfg, n, order[i], |Members(es, order[i])|, env))
  {
    var keys, all := order[..i + 1], envs + [env];
    assert keys[..i] == order[..i] && all[..i] == envs && keys[i] == order[i];
    EnvsNext(es, order, envs, i, env);
    Reading.VisitAllSnoc(cfg, m, es, keys, all);
  }

  lemma EnvsNext(es: seq<Entry>, order: seq<Key>, envs: seq<Env>, i: nat, env: Env)
    requires i < |order| && EnvsOk(es, order[..i], envs) && EnvOk(es, order[i], env)
    ensures EnvsOk(es, order[..i + 1], envs + [env])
  {
    forall j | 0 <= j < i + 1 ensures EnvOk(es, order[..i + 1][j], (envs + [env])[j]) {
      assert j < i ==> EnvOk(es, order[..i][j], envs[j]);
    }
  }

  lemma SortIsNonEmpty(sorted: seq<Entry>, es: seq<Entry>)
    requires multiset(sorted) == multiset(es) && es != []
    ensures sorted != []
  {
    assert |multiset(sorted)| == |sorted| && |multiset(es)| == |es|;
  }

  lemma {:induction false} OrderHasMembers(es: seq<Entry>)
    ensures forall k :: k in Order(es) <==> Members(es, k) != []
  {
    if es != [] {
      OrderHasMembers(es[..|es| - 1]);
    }
  }

  lemma InsertSorted(sorted: seq<Entry>, es: seq<Entry>, e: Entry, k: nat)
    requires IsSortOf(sorted, es) && k <= |sorted|
    requires k > 0 ==> SeqNo(sorted[k - 1].tpdu) <= SeqNo(e.tpdu)
    requires forall j :: k <= j < |sorted| ==> SeqNo(e.tpdu) < SeqNo(sorted[j].tpdu)
    ensures IsSortOf(sorted[..k] + [e] + sorted[k..], es + [e])
  {
    var more := sorted[..k] + [e] + sorted[k..];
    assert sorted == sorted[..k] + sorted[k..];
    assert multiset(more) == multiset(sorted) + multiset{e};
    InsertedInOrder(sorted, e, k);
  }

  lemma InsertedInOrder(sorted: seq<Entry>, e: Entry, k: nat)
    requires k <= |sorted|
    requires forall i, j :: 0 <= i < j < |sorted| ==> SeqNo(sorted[i].tpdu) <= SeqNo(sorted[j].tpdu)
    requires k > 0 ==> SeqNo(sorted[k - 1].tpdu) <= SeqNo(e.tpdu)
    requires forall j :: k <= j < |sorted| ==> SeqNo(e.tpdu) < SeqNo(sorted[j].tpdu)
    ensures var more := sorted[..k] + [e] + sorted[k..];
      forall i, j :: 0 <= i < j < |more| ==> SeqNo(more[i].tpdu) <= SeqNo(more[j].tpdu)
  {
    var more := sorted[..k] + [e] + sorted[k..];
    forall i, j | 0 <= i < j < |more| ensures SeqNo(more[i].tpdu) <= SeqNo(more[j].tpdu) {
      var a := if i < k then sorted[i] else if i == k then e else sorted[i - 1];
      var b := if j < k then sorted[j] else if j == k then e else sorted[j - 1];
      assert more[i] == a && more[j] == b;
      assert j == k && i < k ==> SeqNo(sorted[i].tpdu) <= SeqNo(sorted[k - 1].tpdu);
    }
  }

  /** groups, order and orphans hold what the items say. */
  ghost predicate Grouped(items: seq<Item>, groups: map<Key, seq<Entry>>, order: seq<Key>, orphans: seq<nat>) {
    && order == Order(Segments(items)) && orphans == Orphans(items)
    && (forall k :: k in groups <==> k in order)
    && (forall k :: k in groups ==> groups[k] == Members(Segments(items), k))
    && (forall k :: k !in order ==> Members(Segments(items), k) == [])
  }

  lemma ScanStep(cfg: Config, lines: seq<string>, i: nat)
    requires i < |lines|
    ensures Scan(cfg, lines[i..]) ==
      if CmglIndex(lines[i]).None? || i + 1 >= |lines| then Scan(cfg, lines[i + 1..])
      else [Classify(cfg, CmglIndex(lines[i]).value, lines[i + 1])] + Scan(cfg, lines[i + 2..])
  {
    var rest := lines[i..];
    assert rest[1..] == lines[i + 1..];
    assert |rest| >= 2 ==> rest[2..] == lines[i + 2..] && rest[1] == lines[i + 1];
  }

  /** The items before line i, which starts no pair, are these. */
  ghost predicate Scanned(cfg: Config, lines: seq<string>, i: nat, done: seq<Item>)
    requires i <= |lines|
  {
    Scan(cfg, lines) == done + Scan(cfg, lines[i..])
  }

  lemma NextScanned(cfg: Config, lines: seq<string>, i: nat, done: seq<Item>)
    requires i < |lines| && Scanned(cfg, lines, i, done)
    ensures CmglIndex(lines[i]).None? || i + 1 >= |lines| ==> Scanned(cfg, lines, i + 1, done)
    ensures CmglIndex(lines[i]).Some? && i + 1 < |lines| ==>
              Scanned(cfg, lines, i + 2, done + [Classify(cfg, CmglIndex(lines[i]).value, lines[i + 1])])
  {
    ScanStep(cfg, lines, i);
    if CmglIndex(lines[i]).Some? && i + 1 < |lines| {
      var item := Classify(cfg, CmglIndex(lines[i]).value, lines[i + 1]);
      assert (done + [item]) + Scan(cfg, lines[i + 2..]) == done + ([item] + Scan(cfg, lines[i + 2..]));
    }
  }

  /** The parts of a call make the whole. */
  lemma InTotal(cfg: Config, m: Mem, lines: seq<string>, envs: seq<Env>, dropped: set<nat>, seen: Mem, visited: Mem,
                after: Mem)
    requires var es := Segments(Scan(cfg, lines));
      && EnvsOk(es, Order(es), envs)
      && seen == m.(badPdu := m.badPdu + Bads(Scan(cfg, lines)))
      && visited == VisitAll(cfg, seen, es, Order(es), envs)
      && after == if cfg.deleteAfterRead
                  then visited.(slots := visited.slots - dropped, asked := visited.asked + Orphans(Scan(cfg, lines)))
                  else visited
    ensures after == ReadSpec(cfg, m, lines, envs, dropped)
  {
  }

  lemma AddOther(items: seq<Item>, item: Item, groups: map<Key, seq<Entry>>, order: seq<Key>, orphans: seq<nat>)
    requires Grouped(items, groups, order, orphans) && !item.Segment?
    ensures Grouped(items + [item], groups, order, if item.Orphan? then orphans + [item.index] else orphans)
  {
    AddItem(items, item);
    assert Segments(items + [item]) == Segments(items);
  }

  lemma AddItem(items: seq<Item>, item: Item)
    ensures Orphans(items + [item]) == Orphans(items) + if item.Orphan? then [item.index] else []
    ensures Bads(items + [item]) == Bads(items) + if item.Bad? then {item.index} else {}
    ensures Segments(items + [item]) == Segments(items) + if item.Segment? then [item.entry] else []
    ensures item.Segment? ==>
      var es, more, k := Segments(items), Segments(items + [item]), KeyOf(item.entry);
      && Order(more) == (if k in Order(es) then Order(es) else Order(es) + [k])
      && forall x :: Members(more, x) == Members(es, x) + if x == k then [item.entry] else []
  {
    var all := items + [item];
    assert all[..|items|] == items && all[|items|] == item;
    if item.Segment? {
      assert (Segments(items) + [item.entry])[..|Segments(items)|] == Segments(items);
    }
  }
}
