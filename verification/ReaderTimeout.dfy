/** Over a worker's calls of ReadAll: when a message with missing parts is handed over. */
module ReaderTimeout {
  import opened Text
  import opened Reader
  import opened Reading

  /** One call: the listing, how the surroundings behaved, and the dropped PDUs of other types. */
  datatype Call = Call(lines: seq<string>, envs: seq<Env>, dropped: set<nat>)

  function Listed(cfg: Config, c: Call): seq<Entry> {
    Segments(Scan(cfg, c.lines))
  }

  function Groups(cfg: Config, c: Call): seq<Key> {
    Order(Listed(cfg, c))
  }

  ghost predicate CallOk(cfg: Config, c: Call) {
    EnvsOk(Listed(cfg, c), Groups(cfg, c), c.envs) && Shaped(Groups(cfg, c), c.envs)
  }

  /** Call i starts from memory ms[i]. Between calls the modem may receive PDUs, while only the worker's calls
      change its table of first sightings. */
  ghost predicate CallAt(cfg: Config, ms: seq<Mem>, cs: seq<Call>, i: nat)
    requires |ms| == |cs| + 1 && i < |cs|
  {
    && CallOk(cfg, cs[i])
    && ms[i + 1].firstSeen == ReadSpec(cfg, ms[i], cs[i].lines, cs[i].envs, cs[i].dropped).firstSeen
  }

  ghost predicate IsRun(cfg: Config, ms: seq<Mem>, cs: seq<Call>) {
    && |ms| == |cs| + 1
    && ms[0].firstSeen == map[]
    && forall i :: 0 <= i < |cs| ==> CallAt(cfg, ms, cs, i)
  }

  // ------------------------------------------------------------------ one call's effect on the sightings

  /** The call records the group at time t. */
  ghost predicate Records(cfg: Config, m: Mem, c: Call, k: Key, t: int)
    requires CallOk(cfg, c)
  {
    exists j :: 0 <= j < |c.envs| && Groups(cfg, c)[j] == k && c.envs[j].now == t
                && OutcomeOf(cfg, m, Listed(cfg, c), k, c.envs[j]).Record?
  }

  /** The call hands the group over, and the handler stores the message. */
  ghost predicate Stores(cfg: Config, m: Mem, c: Call, k: Key)
    requires CallOk(cfg, c)
  {
    exists j :: 0 <= j < |c.envs| && Groups(cfg, c)[j] == k
                && Gives(cfg, m, Listed(cfg, c), k, c.envs[j]) != []
  }

  /** What the table says of k after its own group was visited. */
  ghost predicate SeenAfter(cfg: Config, m: Mem, n: Mem, es: seq<Entry>, k: Key, env: Env)
    requires env.sorted != []
  {
    if OutcomeOf(cfg, m, es, k, env).Record? then k in n.firstSeen && n.firstSeen[k] == env.now
    else if Gives(cfg, m, es, k, env) != [] then k !in n.firstSeen
    else SameFor(m, n, k)
  }

  lemma SeenAfterVisit(cfg: Config, m: Mem, before: Mem, es: seq<Entry>, k: Key, env: Env)
    requires env.sorted != [] && SameFor(m, before, k)
    ensures SeenAfter(cfg, m, Visit(cfg, before, k, |Members(es, k)|, env), es, k, env)
  {
  }

  lemma SeenAfterMore(cfg: Config, m: Mem, n: Mem, n': Mem, es: seq<Entry>, k: Key, env: Env)
    requires env.sorted != [] && SeenAfter(cfg, m, n, es, k, env) && SameFor(n, n', k)
    ensures SeenAfter(cfg, m, n', es, k, env)
  {
  }

  lemma {:induction false} VisitAllSeen(cfg: Config, m: Mem, es: seq<Entry>, keys: seq<Key>, envs: seq<Env>, j: nat)
    requires EnvsOk(es, keys, envs) && AllUnlike(keys) && Shaped(keys, envs) && j < |keys|
    ensures SeenAfter(cfg, m, VisitAll(cfg, m, es, keys, envs), es, keys[j], envs[j])
  {
    var n := |keys| - 1;
    VisitAllSnoc(cfg, m, es, keys, envs);
    var before := VisitAll(cfg, m, es, keys[..n], envs[..n]);
    if j == n {
      VisitAllEffect(cfg, m, es, keys[..n], envs[..n]);
      assert keys[n] !in keys[..n];
      SeenAfterVisit(cfg, m, before, es, keys[n], envs[n]);
    } else {
      VisitAllSeen(cfg, m, es, keys[..n], envs[..n], j);
      VisitEffect(cfg, before, before, es, keys[n], envs[n]);
      SeenAfterMore(cfg, m, before, VisitAll(cfg, m, es, keys, envs), es, keys[j], envs[j]);
    }
  }

  ghost function After(cfg: Config, m: Mem, c: Call): Mem
    requires CallOk(cfg, c)
  {
    ReadSpec(cfg, m, c.lines, c.envs, c.dropped)
  }

  ghost predicate Seen(m: Mem, k: Key, t: int) {
    k in m.firstSeen && m.firstSeen[k] == t
  }

  /** A call's whole effect on the table: it gains what the call records and loses what the call stores. */
  lemma SeenAfterCall(cfg: Config, m: Mem, c: Call, k: Key, t: int)
    requires CallOk(cfg, c)
    ensures Seen(After(cfg, m, c), k, t) <==> Records(cfg, m, c, k, t) || (Seen(m, k, t) && !Stores(cfg, m, c, k))
  {
    var es, keys := Listed(cfg, c), Groups(cfg, c);
    var seen := m.(badPdu := m.badPdu + Bads(Scan(cfg, c.lines)));
    OrderExact(es);
    if j :| 0 <= j < |keys| && keys[j] == k {
      VisitAllSeen(cfg, seen, es, keys, c.envs, j);
      OneGroupSeen(cfg, m, c, j, t);
    } else {
      VisitAllEffect(cfg, seen, es, keys, c.envs);
      assert k !in keys;
    }
  }

  lemma OnlyAt(keys: seq<Key>, i: nat, j: nat)
    requires AllUnlike(keys) && i < |keys| && j < |keys| && keys[i] == keys[j]
    ensures i == j
  {
  }

  lemma OneGroupSeen(cfg: Config, m: Mem, c: Call, j: nat, t: int)
    requires CallOk(cfg, c) && AllUnlike(Groups(cfg, c)) && j < |c.envs|
    ensures var es, k := Listed(cfg, c), Groups(cfg, c)[j];
      && (Records(cfg, m, c, k, t) <==> OutcomeOf(cfg, m, es, k, c.envs[j]).Record? && c.envs[j].now == t)
      && (Stores(cfg, m, c, k) <==> Gives(cfg, m, es, k, c.envs[j]) != [])
  {
    var es, keys := Listed(cfg, c), Groups(cfg, c);
    if Records(cfg, m, c, keys[j], t) {
      var i :| 0 <= i < |c.envs| && keys[i] == keys[j] && c.envs[i].now == t
               && OutcomeOf(cfg, m, es, keys[j], c.envs[i]).Record?;
      OnlyAt(keys, i, j);
    }
    if Stores(cfg, m, c, keys[j]) {
      var i :| 0 <= i < |c.envs| && keys[i] == keys[j] && Gives(cfg, m, es, keys[j], c.envs[i]) != [];
      OnlyAt(keys, i, j);
    }
  }

  // ------------------------------------------------------------------ runs

  ghost predicate AllOk(cfg: Config, cs: seq<Call>) {
    forall i :: 0 <= i < |cs| ==> CallOk(cfg, cs[i])
  }

  /** Before step i something was set, and it has not been cleared since. */
  predicate SetSince(sets: seq<bool>, clears: seq<bool>, i: nat)
    requires i <= |sets| == |clears|
  {
    i > 0 && (sets[i - 1] || (SetSince(sets, clears, i - 1) && !clears[i - 1]))
  }

  predicate Untouched(clears: seq<bool>, p: nat, i: nat)
    requires i <= |clears|
  {
    forall r :: p < r < i ==> !clears[r]
  }

  lemma {:induction false} SetSinceIff(sets: seq<bool>, clears: seq<bool>, i: nat)
    requires i <= |sets| == |clears|
    ensures SetSince(sets, clears, i) <==> exists p :: 0 <= p < i && sets[p] && Untouched(clears, p, i)
  {
    if i > 0 {
      SetSinceIff(sets, clears, i - 1);
      if sets[i - 1] {
        assert Untouched(clears, i - 1, i);
      } else if SetSince(sets, clears, i) {
        var p :| 0 <= p < i - 1 && sets[p] && Untouched(clears, p, i - 1);
        assert Untouched(clears, p, i);
      } else if p :| 0 <= p < i && sets[p] && Untouched(clears, p, i) {
        assert Untouched(clears, p, i - 1);
      }
    }
  }

  /** Which calls record k at time t, and which hand it over. */
  ghost function Recordings(cfg: Config, ms: seq<Mem>, cs: seq<Call>, k: Key, t: int): (r: seq<bool>)
    requires |ms| == |cs| + 1 && AllOk(cfg, cs)
    ensures |r| == |cs| && forall p :: 0 <= p < |cs| ==> r[p] == Records(cfg, ms[p], cs[p], k, t)
  {
    seq(|cs|, p requires 0 <= p < |cs| => Records(cfg, ms[p], cs[p], k, t))
  }

  ghost function Handovers(cfg: Config, ms: seq<Mem>, cs: seq<Call>, k: Key): (r: seq<bool>)
    requires |ms| == |cs| + 1 && AllOk(cfg, cs)
    ensures |r| == |cs| && forall p :: 0 <= p < |cs| ==> r[p] == Stores(cfg, ms[p], cs[p], k)
  {
    seq(|cs|, p requires 0 <= p < |cs| => Stores(cfg, ms[p], cs[p], k))
  }

  /** A call before the i-th recorded k at time t, and no call since has handed k over. */
  ghost predicate RecordedSince(cfg: Config, ms: seq<Mem>, cs: seq<Call>, i: nat, k: Key, t: int)
    requires |ms| == |cs| + 1 && i <= |cs| && AllOk(cfg, cs)
  {
    SetSince(Recordings(cfg, ms, cs, k, t), Handovers(cfg, ms, cs, k), i)
  }

  lemma CallsOk(cfg: Config, ms: seq<Mem>, cs: seq<Call>)
    requires IsRun(cfg, ms, cs)
    ensures AllOk(cfg, cs)
  {
    forall i | 0 <= i < |cs| ensures CallOk(cfg, cs[i]) {
      assert CallAt(cfg, ms, cs, i);
    }
  }

  /** The table holds exactly the sightings recorded since the group was last handed over. */
  lemma {:induction false} TableIsHistory(cfg: Config, ms: seq<Mem>, cs: seq<Call>, i: nat, k: Key, t: int)
    requires IsRun(cfg, ms, cs) && i <= |cs|
    requires AllOk(cfg, cs)
    ensures Seen(ms[i], k, t) <==> RecordedSince(cfg, ms, cs, i, k, t)
  {
    if i > 0 {
      TableIsHistory(cfg, ms, cs, i - 1, k, t);
      assert CallAt(cfg, ms, cs, i - 1);
      SeenAfterCall(cfg, ms[i - 1], cs[i - 1], k, t);
    }
  }

  /** Long enough ago: recorded, not handed over since, and ten minutes have passed. */
  ghost predicate Expired(cfg: Config, ms: seq<Mem>, cs: seq<Call>, i: nat, k: Key, now: int)
    requires |ms| == |cs| + 1 && i <= |cs| && AllOk(cfg, cs)
  {
    exists t :: RecordedSince(cfg, ms, cs, i, k, t) && now - t >= 600_000_000_000
  }

  /** What the message says besides its body: where it comes from, when it was received, by the first segment or else by
      the clock, and its key. */
  ghost predicate Tells(cfg: Config, first: Tpdu, received: int, msg: Message) {
    && msg.address == first.sender && msg.receivedAt == (if first.time.Some? then first.time.value else received)
    && msg.source == "modem" && msg.deviceName == cfg.name && msg.simName == cfg.simName && msg.recipient == cfg.number
    && msg.androidId == "modem:" + cfg.imei + ":"
       + cfg.hash(msg.address + "|" + DecimalInt(msg.receivedAt / 1_000_000_000) + "|" + msg.body)
  }

  /** As many segments as the parts say there are. */
  predicate Whole(es: seq<Entry>, k: Key) {
    |Members(es, k)| >= if k.Single? then 1 else k.segs
  }

  /** The i-th call offers the j-th group of its listing exactly when its text decodes and either all parts are
      there, and then the body is the text alone, or the group expired, and then the body is the text and the
      marker. */
  lemma OfferedIff(cfg: Config, ms: seq<Mem>, cs: seq<Call>, i: nat, j: nat)
    requires IsRun(cfg, ms, cs) && i < |cs| && j < |cs[i].envs|
    ensures AllOk(cfg, cs)
    ensures var es, k, env := Listed(cfg, cs[i]), Groups(cfg, cs[i])[j], cs[i].envs[j];
      var text := cfg.text(TpdusOf(env.sorted));
      var outcome := OutcomeOf(cfg, ms[i], es, k, env);
      && (outcome.Offer? <==> text.Some? && (Whole(es, k) || Expired(cfg, ms, cs, i, k, env.now)))
      && (outcome.Offer? ==>
            && outcome.message.body == (if Whole(es, k) then text.value else text.value + " […]")
            && Tells(cfg, env.sorted[0].tpdu, env.received, outcome.message))
  {
    CallsOk(cfg, ms, cs);
    var es, k, env := Listed(cfg, cs[i]), Groups(cfg, cs[i])[j], cs[i].envs[j];
    OfferIff(cfg, ms[i], es, k, env);
    if k in ms[i].firstSeen {
      TableIsHistory(cfg, ms, cs, i, k, ms[i].firstSeen[k]);
    }
    if t :| RecordedSince(cfg, ms, cs, i, k, t) && env.now - t >= 600_000_000_000 {
      TableIsHistory(cfg, ms, cs, i, k, t);
    }
  }

  /** The messages that the i-th call adds to the stored ones are the offers of its groups, so each is either
      whole or recorded by an earlier call at least ten minutes before. */
  lemma HandedIsWholeOrExpired(cfg: Config, ms: seq<Mem>, cs: seq<Call>, i: nat)
    returns (given: seq<Message>)
    requires IsRun(cfg, ms, cs) && i < |cs|
    ensures AllOk(cfg, cs)
    ensures After(cfg, ms[i], cs[i]).handed == ms[i].handed + given
    ensures forall msg :: msg in given ==> exists j :: 0 <= j < |cs[i].envs| && FromGroup(cfg, ms, cs, i, j, msg)
  {
    CallsOk(cfg, ms, cs);
    var es, keys, envs := Listed(cfg, cs[i]), Groups(cfg, cs[i]), cs[i].envs;
    var seen := ms[i].(badPdu := ms[i].badPdu + Bads(Scan(cfg, cs[i].lines)));
    OrderExact(es);
    VisitAllEffect(cfg, seen, es, keys, envs);
    assert AllGiven(cfg, seen, es, keys, envs) == AllGiven(cfg, ms[i], es, keys, envs);
    var parts := AllGiven(cfg, ms[i], es, keys, envs);
    given := Flatten(parts);
    forall msg | msg in given ensures exists j :: 0 <= j < |envs| && FromGroup(cfg, ms, cs, i, j, msg) {
      InFlatten(parts, msg);
      var j :| 0 <= j < |parts| && msg in parts[j];
      GivenIsFromGroup(cfg, ms, cs, i, j, msg);
    }
  }

  lemma GivenIsFromGroup(cfg: Config, ms: seq<Mem>, cs: seq<Call>, i: nat, j: nat, msg: Message)
    requires IsRun(cfg, ms, cs) && i < |cs| && AllOk(cfg, cs) && j < |cs[i].envs|
    requires msg in Gives(cfg, ms[i], Listed(cfg, cs[i]), Groups(cfg, cs[i])[j], cs[i].envs[j])
    ensures FromGroup(cfg, ms, cs, i, j, msg)
  {
    OfferedIff(cfg, ms, cs, i, j);
  }

  ghost predicate FromGroup(cfg: Config, ms: seq<Mem>, cs: seq<Call>, i: nat, j: nat, msg: Message)
    requires |ms| == |cs| + 1 && i < |cs| && AllOk(cfg, cs) && j < |cs[i].envs|
  {
    var es, k, env := Listed(cfg, cs[i]), Groups(cfg, cs[i])[j], cs[i].envs[j];
    var text := cfg.text(TpdusOf(env.sorted));
    && text.Some? && Tells(cfg, env.sorted[0].tpdu, env.received, msg)
    && if Whole(es, k) then msg.body == text.value
       else msg.body == text.value + " […]" && Expired(cfg, ms, cs, i, k, env.now)
  }
}
