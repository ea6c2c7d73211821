/** What one call of ReadAll hands over and leaves on the modem, said without its loops. */
module Reading {
  import opened Text
  import opened Reader

  // ------------------------------------------------------------------ groups

  ghost predicate DistinctIndices(es: seq<Entry>) {
    forall i, j :: 0 <= i < j < |es| ==> es[i].index != es[j].index
  }

  ghost predicate AllUnlike<T>(xs: seq<T>) {
    forall i, j :: 0 <= i < j < |xs| ==> xs[i] != xs[j]
  }

  /** Two listed PDUs go into one group exactly when they sit in one slot, or are parts of one SMS: sent by the same
      sender, with the same reference and number of parts. */
  lemma SameGroupIff(a: Entry, b: Entry)
    ensures var x, y := a.tpdu.concat, b.tpdu.concat;
      KeyOf(a) == KeyOf(b) <==>
        if (x.Some? && x.value.segs > 1) || (y.Some? && y.value.segs > 1)
        then x.Some? && y.Some? && a.tpdu.sender == b.tpdu.sender && x.value.mref == y.value.mref
             && x.value.segs == y.value.segs
        else a.index == b.index
  {
    assert !(IsPart(a.tpdu) || IsPart(b.tpdu)) ==> KeyOf(a) == Single(a.index) && KeyOf(b) == Single(b.index);
  }

  lemma {:induction false} MembersExact(es: seq<Entry>, k: Key)
    ensures forall e :: e in Members(es, k) <==> e in es && KeyOf(e) == k
  {
    if es != [] {
      MembersExact(es[..|es| - 1], k);
      assert es == es[..|es| - 1] + [es[|es| - 1]];
    }
  }

  lemma {:induction false} OrderExact(es: seq<Entry>)
    ensures forall e :: e in es ==> KeyOf(e) in Order(es)
    ensures forall k :: k in Order(es) ==> exists e :: e in es && KeyOf(e) == k
    ensures AllUnlike(Order(es))
  {
    if es != [] {
      var front, last := es[..|es| - 1], es[|es| - 1];
      OrderExact(front);
      assert es == front + [last];
      forall k | k in Order(es) ensures exists e :: e in es && KeyOf(e) == k {
        if k in Order(front) {
          var e :| e in front && KeyOf(e) == k;
          assert e in es;
        } else {
          assert last in es && KeyOf(last) == k;
        }
      }
    }
  }

  // ------------------------------------------------------------------ what the listing shows

  ghost predicate Stored(cfg: Config, slots: map<nat, string>, e: Entry) {
    e.index in slots && cfg.decode(slots[e.index]) == Some(e.tpdu) && e.tpdu.deliver
  }

  ghost predicate NotDeliver(cfg: Config, slots: map<nat, string>, i: nat) {
    i in slots && cfg.decode(slots[i]).Some? && !cfg.decode(slots[i]).value.deliver
  }

  function ItemsOf(cfg: Config, slots: map<nat, string>, order: seq<nat>): seq<Item>
    requires forall j :: 0 <= j < |order| ==> order[j] in slots
  {
    if order == [] then []
    else [Classify(cfg, order[0], slots[order[0]])] + ItemsOf(cfg, slots, order[1..])
  }

  lemma {:induction false} ScanOfListing(cfg: Config, slots: map<nat, string>, order: seq<nat>, lines: seq<string>)
    requires |lines| == 2 * |order|
    requires forall j :: 0 <= j < |order| ==>
      order[j] in slots && Heads(lines[2 * j], order[j]) && lines[2 * j + 1] == slots[order[j]]
    ensures Scan(cfg, lines) == ItemsOf(cfg, slots, order)
  {
    if order != [] {
      var rest, more := lines[2..], order[1..];
      assert Heads(lines[2 * 0], order[0]);
      IndexIff(lines[0], order[0]);
      forall j | 0 <= j < |more|
        ensures more[j] in slots && Heads(rest[2 * j], more[j]) && rest[2 * j + 1] == slots[more[j]]
      {
        assert rest[2 * j] == lines[2 * (j + 1)] && more[j] == order[j + 1];
      }
      ScanOfListing(cfg, slots, more, rest);
    }
  }

  lemma ItemsSnoc(items: seq<Item>, item: Item)
    ensures Segments(items + [item]) == Segments(items) + if item.Segment? then [item.entry] else []
    ensures Orphans(items + [item]) == Orphans(items) + if item.Orphan? then [item.index] else []
  {
    assert (items + [item])[..|items|] == items;
  }

  lemma {:induction false} ItemsOfSnoc(cfg: Config, slots: map<nat, string>, order: seq<nat>, i: nat)
    requires i in slots && forall j :: 0 <= j < |order| ==> order[j] in slots
    ensures ItemsOf(cfg, slots, order + [i]) == ItemsOf(cfg, slots, order) + [Classify(cfg, i, slots[i])]
  {
    var all := order + [i];
    if order == [] {
      assert all[1..] == [];
    } else {
      assert all[1..] == order[1..] + [i];
      ItemsOfSnoc(cfg, slots, order[1..], i);
    }
  }

  lemma UnlikeSnoc<T>(xs: seq<T>, x: T)
    requires AllUnlike(xs) && x !in xs
    ensures AllUnlike(xs + [x])
  {
  }

  lemma {:induction false} ItemsExact(cfg: Config, slots: map<nat, string>, order: seq<nat>)
    requires forall j :: 0 <= j < |order| ==> order[j] in slots
    requires forall j, k :: 0 <= j < k < |order| ==> order[j] != order[k]
    ensures var items := ItemsOf(cfg, slots, order);
      && (forall e :: e in Segments(items) <==> e.index in order && Stored(cfg, slots, e))
      && (forall i :: i in Orphans(items) <==> i in order && NotDeliver(cfg, slots, i))
      && DistinctIndices(Segments(items)) && AllUnlike(Orphans(items))
  {
    if order != [] {
      var front, i := order[..|order| - 1], order[|order| - 1];
      assert order == front + [i];
      ItemsExact(cfg, slots, front);
      ItemsOfSnoc(cfg, slots, front, i);
      ItemsSnoc(ItemsOf(cfg, slots, front), Classify(cfg, i, slots[i]));
      UnlikeSnoc(Orphans(ItemsOf(cfg, slots, front)), i);
    }
  }

  /** The listing shows exactly the stored PDUs: DELIVER segments, and PDUs of other types. */
  lemma ListingExact(cfg: Config, slots: map<nat, string>, order: seq<nat>, lines: seq<string>)
    requires Lists(slots, order, lines)
    ensures forall e :: e in Segments(Scan(cfg, lines)) <==> Stored(cfg, slots, e)
    ensures forall i :: i in Orphans(Scan(cfg, lines)) <==> NotDeliver(cfg, slots, i)
    ensures DistinctIndices(Segments(Scan(cfg, lines))) && AllUnlike(Orphans(Scan(cfg, lines)))
  {
    ScanOfListing(cfg, slots, order, lines);
    ItemsExact(cfg, slots, order);
  }

  // ------------------------------------------------------------------ the effect of a call

  function Flatten<T>(parts: seq<seq<T>>): seq<T> {
    if parts == [] then [] else Flatten(parts[..|parts| - 1]) + parts[|parts| - 1]
  }

  function Union(parts: seq<set<nat>>): set<nat> {
    if parts == [] then {} else Union(parts[..|parts| - 1]) + parts[|parts| - 1]
  }

  lemma {:induction false} InFlatten<T>(parts: seq<seq<T>>, x: T)
    ensures x in Flatten(parts) <==> exists j :: 0 <= j < |parts| && x in parts[j]
  {
    if parts != [] {
      InFlatten(parts[..|parts| - 1], x);
    }
  }

  lemma {:induction false} InUnion(parts: seq<set<nat>>, x: nat)
    ensures x in Union(parts) <==> exists j :: 0 <= j < |parts| && x in parts[j]
  {
    if parts != [] {
      InUnion(parts[..|parts| - 1], x);
    }
  }

  ghost predicate Shaped(keys: seq<Key>, envs: seq<Env>) {
    |envs| == |keys| && forall j :: 0 <= j < |envs| ==> envs[j].sorted != []
  }

  /** The outcome of a group, judged by what the worker remembered before the call. */
  ghost function OutcomeOf(cfg: Config, m: Mem, es: seq<Entry>, k: Key, env: Env): Outcome
    requires env.sorted != []
  {
    Decide(cfg, m.firstSeen, k, |Members(es, k)|, env)
  }

  /** The message that a group hands over, if any. */
  ghost function Gives(cfg: Config, m: Mem, es: seq<Entry>, k: Key, env: Env): seq<Message>
    requires env.sorted != []
  {
    if OutcomeOf(cfg, m, es, k, env).Offer? && env.stored then [OutcomeOf(cfg, m, es, k, env).message] else []
  }

  /** The slots that it frees. */
  ghost function Frees(cfg: Config, m: Mem, es: seq<Entry>, k: Key, env: Env): set<nat>
    requires env.sorted != []
  {
    if OutcomeOf(cfg, m, es, k, env).Offer? && env.stored then env.removed else {}
  }

  ghost function AllGiven(cfg: Config, m: Mem, es: seq<Entry>, keys: seq<Key>,
                          envs: seq<Env>): (parts: seq<seq<Message>>)
    requires Shaped(keys, envs)
    ensures |parts| == |keys| && forall j :: 0 <= j < |keys| ==> parts[j] == Gives(cfg, m, es, keys[j], envs[j])
  {
    seq(|keys|, j requires 0 <= j < |keys| => Gives(cfg, m, es, keys[j], envs[j]))
  }

  ghost function AllFreed(cfg: Config, m: Mem, es: seq<Entry>, keys: seq<Key>, envs: seq<Env>): (parts: seq<set<nat>>)
    requires Shaped(keys, envs)
    ensures |parts| == |keys| && forall j :: 0 <= j < |keys| ==> parts[j] == Frees(cfg, m, es, keys[j], envs[j])
  {
    seq(|keys|, j requires 0 <= j < |keys| => Frees(cfg, m, es, keys[j], envs[j]))
  }

  lemma SplitEnvs(es: seq<Entry>, keys: seq<Key>, envs: seq<Env>)
    requires EnvsOk(es, keys, envs) && keys != []
    ensures EnvsOk(es, keys[..|keys| - 1], envs[..|keys| - 1]) && EnvOk(es, keys[|keys| - 1], envs[|keys| - 1])
  {
  }

  lemma EnvsShaped(es: seq<Entry>, keys: seq<Key>, envs: seq<Env>)
    requires EnvsOk(es, keys, envs)
    ensures Shaped(keys, envs)
  {
    forall j | 0 <= j < |envs| ensures envs[j].sorted != [] {
      assert EnvOk(es, keys[j], envs[j]);
    }
  }

  /** The two memories agree on the group. */
  ghost predicate SameFor(m: Mem, m': Mem, k: Key) {
    (k in m.firstSeen <==> k in m'.firstSeen) && (k in m.firstSeen ==> m.firstSeen[k] == m'.firstSeen[k])
  }

  /** n is m after some messages were handed over and some slots freed, touching only the given groups. */
  ghost predicate Became(cfg: Config, m: Mem, n: Mem, keys: seq<Key>, given: seq<Message>, freed: set<nat>) {
    && n.handed == m.handed + given
    && n.slots == (if cfg.deleteAfterRead then m.slots - freed else m.slots)
    && forall k :: k !in keys ==> SameFor(m, n, k)
  }

  lemma BecameTwice(cfg: Config, m: Mem, b: Mem, n: Mem, keys: seq<Key>, k: Key,
                    g: seq<Message>, f: set<nat>, g': seq<Message>, f': set<nat>)
    requires Became(cfg, m, b, keys, g, f) && Became(cfg, b, n, [k], g', f')
    ensures Became(cfg, m, n, keys + [k], g + g', f + f')
  {
    forall x | x !in keys + [k] ensures SameFor(m, n, x) {
      assert SameFor(m, b, x) && SameFor(b, n, x);
    }
  }

  lemma SameDecision(cfg: Config, m: Mem, before: Mem, k: Key, have: nat, env: Env)
    requires env.sorted != [] && SameFor(m, before, k)
    ensures Decide(cfg, before.firstSeen, k, have, env) == Decide(cfg, m.firstSeen, k, have, env)
  {
  }

  lemma OfferEffect(cfg: Config, m: Mem, k: Key, have: nat, env: Env, msg: Message)
    requires env.sorted != [] && Decide(cfg, m.firstSeen, k, have, env) == Offer(msg)
    ensures Became(cfg, m, Visit(cfg, m, k, have, env), [k],
                   if env.stored then [msg] else [], if env.stored then env.removed else {})
  {
  }

  lemma NoOfferEffect(cfg: Config, m: Mem, k: Key, have: nat, env: Env)
    requires env.sorted != [] && !Decide(cfg, m.firstSeen, k, have, env).Offer?
    ensures Became(cfg, m, Visit(cfg, m, k, have, env), [k], [], {})
  {
  }

  lemma VisitEffect(cfg: Config, m: Mem, before: Mem, es: seq<Entry>, k: Key, env: Env)
    requires env.sorted != [] && SameFor(m, before, k)
    ensures Became(cfg, before, Visit(cfg, before, k, |Members(es, k)|, env), [k],
                   Gives(cfg, m, es, k, env), Frees(cfg, m, es, k, env))
  {
    SameDecision(cfg, m, before, k, |Members(es, k)|, env);
    var o := OutcomeOf(cfg, m, es, k, env);
    if o.Offer? {
      OfferEffect(cfg, before, k, |Members(es, k)|, env, o.message);
    } else {
      NoOfferEffect(cfg, before, k, |Members(es, k)|, env);
    }
  }

  lemma SnocGiven(cfg: Config, m: Mem, es: seq<Entry>, keys: seq<Key>, envs: seq<Env>)
    requires Shaped(keys, envs) && keys != []
    ensures var n := |keys| - 1;
      && Shaped(keys[..n], envs[..n])
      && Flatten(AllGiven(cfg, m, es, keys, envs))
         == Flatten(AllGiven(cfg, m, es, keys[..n], envs[..n])) + Gives(cfg, m, es, keys[n], envs[n])
      && Union(AllFreed(cfg, m, es, keys, envs))
         == Union(AllFreed(cfg, m, es, keys[..n], envs[..n])) + Frees(cfg, m, es, keys[n], envs[n])
  {
    var n := |keys| - 1;
    assert AllGiven(cfg, m, es, keys, envs)[..n] == AllGiven(cfg, m, es, keys[..n], envs[..n]);
    assert AllFreed(cfg, m, es, keys, envs)[..n] == AllFreed(cfg, m, es, keys[..n], envs[..n]);
  }

  /** Groups do not disturb each other: each one's effect is that on the memory before the call. */
  lemma {:induction false} VisitAllEffect(cfg: Config, m: Mem, es: seq<Entry>, keys: seq<Key>, envs: seq<Env>)
    requires EnvsOk(es, keys, envs) && AllUnlike(keys) && Shaped(keys, envs)
    ensures Became(cfg, m, VisitAll(cfg, m, es, keys, envs), keys,
                   Flatten(AllGiven(cfg, m, es, keys, envs)), Union(AllFreed(cfg, m, es, keys, envs)))
  {
    if keys != [] {
      var n := |keys| - 1;
      SplitEnvs(es, keys, envs);
      VisitAllEffect(cfg, m, es, keys[..n], envs[..n]);
      assert keys[n] !in keys[..n];
      NextEffect(cfg, m, es, keys, envs);
      assert keys == keys[..n] + [keys[n]];
    }
  }

  lemma NextEffect(cfg: Config, m: Mem, es: seq<Entry>, keys: seq<Key>, envs: seq<Env>)
    requires EnvsOk(es, keys, envs) && Shaped(keys, envs) && keys != []
    requires var n := |keys| - 1;
      && EnvsOk(es, keys[..n], envs[..n]) && Shaped(keys[..n], envs[..n]) && keys[n] !in keys[..n]
      && Became(cfg, m, VisitAll(cfg, m, es, keys[..n], envs[..n]), keys[..n],
                Flatten(AllGiven(cfg, m, es, keys[..n], envs[..n])), Union(AllFreed(cfg, m, es, keys[..n], envs[..n])))
    ensures var n := |keys| - 1;
      Became(cfg, m, VisitAll(cfg, m, es, keys, envs), keys[..n] + [keys[n]],
             Flatten(AllGiven(cfg, m, es, keys, envs)), Union(AllFreed(cfg, m, es, keys, envs)))
  {
    var n := |keys| - 1;
    var before := VisitAll(cfg, m, es, keys[..n], envs[..n]);
    VisitEffect(cfg, m, before, es, keys[n], envs[n]);
    SnocGiven(cfg, m, es, keys, envs);
    VisitAllSnoc(cfg, m, es, keys, envs);
    BecameTwice(cfg, m, before, VisitAll(cfg, m, es, keys, envs), keys[..n], keys[n],
                Flatten(AllGiven(cfg, m, es, keys[..n], envs[..n])), Union(AllFreed(cfg, m, es, keys[..n], envs[..n])),
                Gives(cfg, m, es, keys[n], envs[n]), Frees(cfg, m, es, keys[n], envs[n]));
  }

  lemma VisitAllSnoc(cfg: Config, m: Mem, es: seq<Entry>, keys: seq<Key>, envs: seq<Env>)
    requires EnvsOk(es, keys, envs) && keys != []
    ensures var n := |keys| - 1;
      && EnvsOk(es, keys[..n], envs[..n]) && envs[n].sorted != []
      && VisitAll(cfg, m, es, keys, envs)
         == Visit(cfg, VisitAll(cfg, m, es, keys[..n], envs[..n]), keys[n], |Members(es, keys[n])|, envs[n])
  {
    SplitEnvs(es, keys, envs);
  }

  // ------------------------------------------------------------------ no failures

  /** The handler stores everything and every deletion takes effect. */
  ghost predicate NoFailures(envs: seq<Env>) {
    forall j :: 0 <= j < |envs| ==> envs[j].stored && envs[j].removed == Indices(envs[j].sorted)
  }

  /** Complete, or recorded long enough ago. */
  ghost predicate Ready(m: Mem, es: seq<Entry>, k: Key, env: Env) {
    || |Members(es, k)| >= Total(k)
    || (k in m.firstSeen && env.now - m.firstSeen[k] >= TIMEOUT)
  }

  ghost predicate Decodes(cfg: Config, env: Env)
    requires env.sorted != []
  {
    cfg.text(TpdusOf(env.sorted)).Some?
  }

  ghost predicate HandsOver(cfg: Config, m: Mem, es: seq<Entry>, k: Key, env: Env)
    requires env.sorted != []
  {
    Ready(m, es, k, env) && Decodes(cfg, env)
  }

  lemma OfferIff(cfg: Config, m: Mem, es: seq<Entry>, k: Key, env: Env)
    requires env.sorted != []
    ensures OutcomeOf(cfg, m, es, k, env).Offer? <==> Ready(m, es, k, env) && Decodes(cfg, env)
    ensures OutcomeOf(cfg, m, es, k, env).Offer? ==>
              Build(cfg, TpdusOf(env.sorted), |Members(es, k)| >= Total(k), env.received)
              == Some(OutcomeOf(cfg, m, es, k, env).message)
  {
  }

  lemma SortedIndices(sorted: seq<Entry>, es: seq<Entry>, i: nat)
    requires multiset(sorted) == multiset(es)
    ensures i in Indices(sorted) <==> exists e :: e in es && e.index == i
  {
    if i in Indices(sorted) {
      var j :| 0 <= j < |sorted| && sorted[j].index == i;
      assert sorted[j] in multiset(sorted);
    }
    if e :| e in es && e.index == i {
      assert e in multiset(es) && e in sorted;
      var j :| 0 <= j < |sorted| && sorted[j] == e;
    }
  }

  /** The segment's group was not handed over: it is not ready, or its text does not decode. */
  ghost predicate HeldBack(cfg: Config, m: Mem, es: seq<Entry>, envs: seq<Env>, e: Entry)
    requires Shaped(Order(es), envs)
  {
    exists j :: 0 <= j < |envs| && Order(es)[j] == KeyOf(e) && !HandsOver(cfg, m, es, Order(es)[j], envs[j])
  }

  /** In its own group, and only there, a segment is freed exactly when the group is handed over. */
  lemma GroupFrees(cfg: Config, m: Mem, es: seq<Entry>, k: Key, env: Env, e: Entry)
    requires EnvOk(es, k, env) && env.stored && env.removed == Indices(env.sorted)
    requires DistinctIndices(es) && e in es
    ensures e.index in Frees(cfg, m, es, k, env) <==> k == KeyOf(e) && Ready(m, es, k, env) && Decodes(cfg, env)
  {
    OfferIff(cfg, m, es, k, env);
    SortedIndices(env.sorted, Members(es, k), e.index);
    MembersExact(es, k);
    assert forall d :: d in es && d.index == e.index ==> d == e;
  }

  lemma FreesAt(cfg: Config, m: Mem, es: seq<Entry>, envs: seq<Env>, e: Entry, p: nat, j: nat)
    requires EnvsOk(es, Order(es), envs) && Shaped(Order(es), envs) && NoFailures(envs)
    requires DistinctIndices(es) && e in es && AllUnlike(Order(es))
    requires p < |envs| && Order(es)[p] == KeyOf(e) && j < |envs|
    ensures e.index in Frees(cfg, m, es, Order(es)[j], envs[j])
            <==> j == p && HandsOver(cfg, m, es, KeyOf(e), envs[p])
  {
    assert EnvOk(es, Order(es)[j], envs[j]);
    GroupFrees(cfg, m, es, Order(es)[j], envs[j], e);
    assert Order(es)[j] == Order(es)[p] <==> j == p;
  }

  lemma FreedIffHandedOver(cfg: Config, m: Mem, es: seq<Entry>, envs: seq<Env>, e: Entry)
    requires EnvsOk(es, Order(es), envs) && Shaped(Order(es), envs) && NoFailures(envs)
    requires DistinctIndices(es) && e in es
    ensures e.index in Union(AllFreed(cfg, m, es, Order(es), envs)) <==> !HeldBack(cfg, m, es, envs, e)
  {
    OrderExact(es);
    var p :| 0 <= p < |Order(es)| && Order(es)[p] == KeyOf(e);
    var parts := AllFreed(cfg, m, es, Order(es), envs);
    InUnion(parts, e.index);
    forall j | 0 <= j < |parts| ensures e.index in parts[j] <==> j == p && HandsOver(cfg, m, es, KeyOf(e), envs[p]) {
      FreesAt(cfg, m, es, envs, e, p, j);
    }
    HeldBackIff(cfg, m, es, envs, e, p);
  }

  lemma HeldBackIff(cfg: Config, m: Mem, es: seq<Entry>, envs: seq<Env>, e: Entry, p: nat)
    requires Shaped(Order(es), envs) && AllUnlike(Order(es)) && p < |envs| && Order(es)[p] == KeyOf(e)
    ensures HeldBack(cfg, m, es, envs, e) <==> !HandsOver(cfg, m, es, KeyOf(e), envs[p])
  {
    assert forall j :: 0 <= j < |envs| && Order(es)[j] == KeyOf(e) ==> j == p;
  }

  lemma UnlistedStays(cfg: Config, m: Mem, es: seq<Entry>, envs: seq<Env>, i: nat)
    requires EnvsOk(es, Order(es), envs) && Shaped(Order(es), envs)
    requires forall e :: e in es ==> e.index != i
    ensures i !in Union(AllFreed(cfg, m, es, Order(es), envs))
  {
    InUnion(AllFreed(cfg, m, es, Order(es), envs), i);
    forall j | 0 <= j < |envs| ensures i !in AllFreed(cfg, m, es, Order(es), envs)[j] {
      assert EnvOk(es, Order(es)[j], envs[j]);
      SortedIndices(envs[j].sorted, Members(es, Order(es)[j]), i);
      MembersExact(es, Order(es)[j]);
    }
  }

  /** What stays at slot i of the modem: an undecodable PDU, or a DELIVER segment of a group held back. */
  ghost predicate Stays(cfg: Config, m: Mem, es: seq<Entry>, envs: seq<Env>, i: nat)
    requires i in m.slots && Shaped(Order(es), envs)
  {
    match cfg.decode(m.slots[i])
    case None => true
    case Some(t) => t.deliver && HeldBack(cfg, m, es, envs, Entry(i, t))
  }

  lemma SlotFate(cfg: Config, m: Mem, es: seq<Entry>, envs: seq<Env>, i: nat)
    requires i in m.slots && EnvsOk(es, Order(es), envs) && Shaped(Order(es), envs)
    requires NoFailures(envs) && DistinctIndices(es)
    requires forall e :: e in es <==> Stored(cfg, m.slots, e)
    ensures Stays(cfg, m, es, envs, i)
            <==> i !in Union(AllFreed(cfg, m, es, Order(es), envs)) && !NotDeliver(cfg, m.slots, i)
  {
    if cfg.decode(m.slots[i]).Some? && cfg.decode(m.slots[i]).value.deliver {
      var e := Entry(i, cfg.decode(m.slots[i]).value);
      assert Stored(cfg, m.slots, e);
      FreedIffHandedOver(cfg, m, es, envs, e);
    } else {
      forall e | e in es ensures e.index != i {
        assert Stored(cfg, m.slots, e);
      }
      UnlistedStays(cfg, m, es, envs, i);
    }
  }

  /** ReadAll with deletion on and no failures, as a specification. It hands over one message for every group
      that is ready and decodes, in listing order, and leaves on the modem exactly the undecodable PDUs and the
      segments of the other groups. */
  lemma ReadAllIsExact(cfg: Config, m: Mem, order: seq<nat>, lines: seq<string>, envs: seq<Env>, dropped: set<nat>)
    requires Lists(m.slots, order, lines) && cfg.deleteAfterRead
    requires EnvsOk(Segments(Scan(cfg, lines)), Order(Segments(Scan(cfg, lines))), envs) && NoFailures(envs)
    requires forall i :: i in dropped <==> i in Orphans(Scan(cfg, lines))
    ensures var es := Segments(Scan(cfg, lines));
      var n := ReadSpec(cfg, m, lines, envs, dropped);
      && Shaped(Order(es), envs)
      && n.handed == m.handed + Flatten(AllGiven(cfg, m, es, Order(es), envs))
      && (forall i :: i in n.slots <==> i in m.slots && Stays(cfg, m, es, envs, i))
      && (forall i :: i in n.slots ==> n.slots[i] == m.slots[i])
  {
    var es := Segments(Scan(cfg, lines));
    var keys := Order(es);
    var seen := m.(badPdu := m.badPdu + Bads(Scan(cfg, lines)));
    ListingExact(cfg, m.slots, order, lines);
    OrderExact(es);
    EnvsShaped(es, keys, envs);
    VisitAllEffect(cfg, seen, es, keys, envs);
    assert AllGiven(cfg, seen, es, keys, envs) == AllGiven(cfg, m, es, keys, envs);
    assert AllFreed(cfg, seen, es, keys, envs) == AllFreed(cfg, m, es, keys, envs);
    forall i | i in m.slots
      ensures Stays(cfg, m, es, envs, i) <==> i !in Union(AllFreed(cfg, m, es, keys, envs)) && i !in dropped
    {
      SlotFate(cfg, m, es, envs, i);
    }
  }

  /** The group is ready and makes this message. */
  ghost predicate Makes(cfg: Config, m: Mem, es: seq<Entry>, k: Key, env: Env, msg: Message)
    requires env.sorted != []
  {
    && Ready(m, es, k, env)
    && Build(cfg, TpdusOf(env.sorted), |Members(es, k)| >= Total(k), env.received) == Some(msg)
  }

  /** Positions of the non-empty parts, ascending. */
  ghost predicate Filled<T(!new)>(parts: seq<seq<T>>, at: seq<nat>) {
    && (forall t, u :: 0 <= t < u < |at| ==> at[t] < at[u])
    && (forall j :: j in at <==> 0 <= j < |parts| && parts[j] != [])
  }

  /** Each x is all of its part. */
  ghost predicate OneEach<T(!new)>(parts: seq<seq<T>>, at: seq<nat>, xs: seq<T>) {
    |xs| == |at| && forall t :: 0 <= t < |at| ==> at[t] < |parts| && parts[at[t]] == [xs[t]]
  }

  lemma FilledMore<T(!new)>(parts: seq<seq<T>>, at: seq<nat>, xs: seq<T>, x: T)
    requires Filled(parts, at) && OneEach(parts, at, xs)
    ensures Filled(parts + [[x]], at + [|parts|]) && OneEach(parts + [[x]], at + [|parts|], xs + [x])
  {
    var n, more := |parts|, at + [|parts|];
    forall t | 0 <= t < |at| ensures at[t] < n {
      assert at[t] in at;
    }
    forall j ensures j in more <==> 0 <= j < n + 1 && (parts + [[x]])[j] != [] {
      assert j in more <==> j in at || j == n;
    }
  }

  lemma FilledSame<T(!new)>(parts: seq<seq<T>>, at: seq<nat>, xs: seq<T>)
    requires Filled(parts, at) && OneEach(parts, at, xs)
    ensures Filled(parts + [[]], at) && OneEach(parts + [[]], at, xs + [])
  {
    assert xs + [] == xs;
    forall j ensures j in at <==> 0 <= j < |parts| + 1 && (parts + [[]])[j] != [] {
      assert j in at <==> 0 <= j < |parts| && parts[j] != [];
    }
  }

  lemma {:induction false} FlattenOnce<T(!new)>(parts: seq<seq<T>>) returns (at: seq<nat>)
    requires forall j :: 0 <= j < |parts| ==> |parts[j]| <= 1
    ensures Filled(parts, at) && OneEach(parts, at, Flatten(parts))
  {
    if parts == [] {
      at := [];
    } else {
      var front, last := parts[..|parts| - 1], parts[|parts| - 1];
      assert parts == front + [last];
      at := FlattenOnce(front);
      if last == [] {
        FilledSame(front, at, Flatten(front));
      } else {
        assert last == [last[0]];
        FilledMore(front, at, Flatten(front), last[0]);
        at := at + [|front|];
      }
    }
  }

  /** The messages handed over are those of the ready groups that decode: one for each, in listing order, and no
      others. */
  lemma HandedInOrder(cfg: Config, m: Mem, es: seq<Entry>, keys: seq<Key>, envs: seq<Env>) returns (giving: seq<nat>)
    requires Shaped(keys, envs) && NoFailures(envs)
    ensures forall t, u :: 0 <= t < u < |giving| ==> giving[t] < giving[u]
    ensures forall j :: j in giving <==> 0 <= j < |keys| && HandsOver(cfg, m, es, keys[j], envs[j])
    ensures var given := Flatten(AllGiven(cfg, m, es, keys, envs));
      && |given| == |giving|
      && forall t :: 0 <= t < |giving| ==>
           giving[t] < |keys| && Makes(cfg, m, es, keys[giving[t]], envs[giving[t]], given[t])
  {
    var parts := AllGiven(cfg, m, es, keys, envs);
    forall j | 0 <= j < |parts|
      ensures |parts[j]| <= 1 && (parts[j] != [] <==> HandsOver(cfg, m, es, keys[j], envs[j]))
      ensures forall msg :: parts[j] == [msg] ==> Makes(cfg, m, es, keys[j], envs[j], msg)
    {
      OfferIff(cfg, m, es, keys[j], envs[j]);
    }
    giving := FlattenOnce(parts);
  }
}
