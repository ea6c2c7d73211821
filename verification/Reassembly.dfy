/** Reassembly of concatenated SMS: it does not depend on the storage order, a complete body is the parts in
  sequence order, and what the completeness test really tells. */
module Reassembly {
  import opened Text
  import opened Reader
  import opened Reading

  // ------------------------------------------------------------------ storage order

  /** No two segments of one concatenated SMS carry the same number. */
  ghost predicate DistinctParts(es: seq<Entry>) {
    forall d, e :: d in es && e in es && d != e && IsPart(d.tpdu) && KeyOf(d) == KeyOf(e)
      ==> SeqNo(d.tpdu) != SeqNo(e.tpdu)
  }

  /** What the clock shows while a group is handled. */
  datatype Readings = Readings(now: int, received: int)

  /** The worker may offer this message for this listing, when `at` gives the readings of the clock for a group, by the
      first of its PDUs. */
  ghost predicate CanOffer(cfg: Config, m: Mem, es: seq<Entry>, at: Tpdu -> Readings, msg: Message) {
    exists k, sorted :: Offers(cfg, m, es, at, msg, k, sorted)
  }

  function EnvAt(at: Tpdu -> Readings, sorted: seq<Entry>): Env
    requires sorted != []
  {
    Env(at(sorted[0].tpdu).now, at(sorted[0].tpdu).received, sorted, true, {}, {})
  }

  ghost predicate Offers(cfg: Config, m: Mem, es: seq<Entry>, at: Tpdu -> Readings, msg: Message, k: Key,
                         sorted: seq<Entry>)
  {
    && k in Order(es) && IsSortOf(sorted, Members(es, k)) && sorted != []
    && OutcomeOf(cfg, m, es, k, EnvAt(at, sorted)) == Offer(msg)
  }

  ghost predicate Increasing(ts: seq<Tpdu>) {
    forall i, j :: 0 <= i < j < |ts| ==> SeqNo(ts[i]) < SeqNo(ts[j])
  }

  /** A set of differently numbered PDUs has one sorted order. */
  lemma {:induction false} SortIsUnique(ts: seq<Tpdu>, us: seq<Tpdu>)
    requires (forall t :: t in ts <==> t in us) && Increasing(ts) && Increasing(us)
    ensures ts == us
  {
    assert ts != [] ==> ts[0] in us;
    assert us != [] ==> us[0] in ts;
    if ts != [] {
      forall t ensures t in ts[1..] <==> t in us[1..] {
        assert t in ts[1..] <==> t in ts && t != ts[0];
        assert t in us[1..] <==> t in us && t != us[0];
      }
      SortIsUnique(ts[1..], us[1..]);
    }
  }

  lemma Twice(s: seq<Entry>, i: nat, j: nat)
    requires i < j < |s| && s[i] == s[j]
    ensures multiset(s)[s[i]] >= 2
  {
    assert s == s[..j] + s[j..];
    assert s[..j][i] == s[i] && s[j..][0] == s[j];
  }

  lemma {:induction false} OncePerIndex(es: seq<Entry>, k: Key, e: Entry)
    requires DistinctIndices(es)
    ensures multiset(Members(es, k))[e] <= 1
    ensures e !in es ==> multiset(Members(es, k))[e] == 0
  {
    if es != [] {
      var front, last := es[..|es| - 1], es[|es| - 1];
      assert es == front + [last];
      OncePerIndex(front, k, e);
      assert last !in front;
    }
  }

  lemma TwoInOrder(sorted: seq<Entry>, es: seq<Entry>, k: Key, i: nat, j: nat)
    requires DistinctIndices(es) && DistinctParts(es) && k.Parts? && multiset(sorted) == multiset(Members(es, k))
    requires i < j < |sorted| && SeqNo(sorted[i].tpdu) <= SeqNo(sorted[j].tpdu)
    ensures SeqNo(sorted[i].tpdu) < SeqNo(sorted[j].tpdu)
  {
    var d, e := sorted[i], sorted[j];
    assert d in multiset(Members(es, k)) && e in multiset(Members(es, k));
    MembersExact(es, k);
    if d == e {
      Twice(sorted, i, j);
      OncePerIndex(es, k, d);
    }
  }

  /** Sorting differently numbered parts leaves them strictly increasing. */
  lemma SortedIncreasing(sorted: seq<Entry>, es: seq<Entry>, k: Key)
    requires DistinctIndices(es) && DistinctParts(es) && k.Parts? && IsSortOf(sorted, Members(es, k))
    ensures Increasing(TpdusOf(sorted))
  {
    forall i, j | 0 <= i < j < |sorted| ensures SeqNo(sorted[i].tpdu) < SeqNo(sorted[j].tpdu) {
      TwoInOrder(sorted, es, k, i, j);
    }
  }

  lemma InTpdus(es: seq<Entry>, t: Tpdu)
    ensures t in TpdusOf(es) <==> exists e :: e in es && e.tpdu == t
  {
    if t in TpdusOf(es) {
      var i :| 0 <= i < |es| && TpdusOf(es)[i] == t;
      assert es[i] in es;
    }
    if e :| e in es && e.tpdu == t {
      var i :| 0 <= i < |es| && es[i] == e;
      assert TpdusOf(es)[i] == t;
    }
  }

  lemma SameElements(a: seq<Entry>, b: seq<Entry>)
    requires multiset(a) == multiset(b)
    ensures |a| == |b| && forall e :: e in a <==> e in b
  {
    assert |multiset(a)| == |a| && |multiset(b)| == |b|;
    assert forall e :: e in a <==> e in multiset(a);
    assert forall e :: e in b <==> e in multiset(b);
  }

  /** The PDUs of a group are those of the listing with its key. */
  lemma SortedTpdus(sorted: seq<Entry>, es: seq<Entry>, k: Key)
    requires k.Parts? && multiset(sorted) == multiset(Members(es, k))
    ensures forall t :: t in TpdusOf(sorted) <==> t in TpdusOf(es) && IsPart(t) && PartKey(t) == k
  {
    MembersExact(es, k);
    SameElements(sorted, Members(es, k));
    forall t ensures t in TpdusOf(sorted) <==> t in TpdusOf(es) && IsPart(t) && PartKey(t) == k {
      InTpdus(sorted, t);
      InTpdus(es, t);
    }
  }

  /** A single SMS is a group of its own. */
  lemma {:induction false} SingleMembers(es: seq<Entry>, e: Entry)
    requires DistinctIndices(es) && !IsPart(e.tpdu)
    ensures e in es ==> Members(es, KeyOf(e)) == [e]
    ensures (forall d :: d in es ==> d.index != e.index) ==> Members(es, KeyOf(e)) == []
  {
    if es != [] {
      var front, last := es[..|es| - 1], es[|es| - 1];
      assert es == front + [last];
      SingleMembers(front, e);
      if last == e {
        assert forall d :: d in front ==> d.index != e.index;
      }
    }
  }

  lemma SortsOfOne(sorted: seq<Entry>, e: Entry)
    requires multiset(sorted) == multiset([e])
    ensures sorted == [e]
  {
    assert |multiset(sorted)| == |sorted| && |multiset([e])| == 1;
    assert sorted[0] in multiset([e]);
  }

  lemma PartOfferMoves(cfg: Config, m: Mem, es: seq<Entry>, es': seq<Entry>, at: Tpdu -> Readings, msg: Message, k: Key,
                       sorted: seq<Entry>)
    requires DistinctIndices(es) && DistinctParts(es) && DistinctIndices(es') && DistinctParts(es')
    requires forall t :: t in TpdusOf(es) <==> t in TpdusOf(es')
    requires k.Parts? && Offers(cfg, m, es, at, msg, k, sorted)
    ensures CanOffer(cfg, m, es', at, msg)
  {
    var sorted' := AnySort(Members(es', k));
    SortedTpdus(sorted, es, k);
    SortedTpdus(sorted', es', k);
    SortedIncreasing(sorted, es, k);
    SortedIncreasing(sorted', es', k);
    SortIsUnique(TpdusOf(sorted), TpdusOf(sorted'));
    SameElements(sorted, Members(es, k));
    SameElements(sorted', Members(es', k));
    InOrder(es', sorted'[0], k);
    assert Offers(cfg, m, es', at, msg, k, sorted');
  }

  lemma InOrder(es: seq<Entry>, e: Entry, k: Key)
    requires e in Members(es, k)
    ensures k in Order(es)
  {
    MembersExact(es, k);
    OrderExact(es);
  }

  lemma SingleOutcome(cfg: Config, m: Mem, es: seq<Entry>, e: Entry, at: Tpdu -> Readings)
    requires !IsPart(e.tpdu) && Members(es, KeyOf(e)) == [e]
    ensures OutcomeOf(cfg, m, es, KeyOf(e), EnvAt(at, [e]))
            == match Build(cfg, [e.tpdu], true, at(e.tpdu).received)
               case None => Undecodable
               case Some(msg) => Offer(msg)
  {
    assert TpdusOf([e]) == [e.tpdu];
  }

  lemma SingleOfferMoves(cfg: Config, m: Mem, es: seq<Entry>, es': seq<Entry>, at: Tpdu -> Readings, msg: Message,
                         k: Key, sorted: seq<Entry>)
    requires DistinctIndices(es) && DistinctIndices(es')
    requires forall t :: t in TpdusOf(es) <==> t in TpdusOf(es')
    requires k.Single? && Offers(cfg, m, es, at, msg, k, sorted)
    ensures CanOffer(cfg, m, es', at, msg)
  {
    var e := SingleOffer(cfg, m, es, at, msg, k, sorted);
    InTpdus(es, e.tpdu);
    InTpdus(es', e.tpdu);
    var d :| d in es' && d.tpdu == e.tpdu;
    OfferSingle(cfg, m, es', at, msg, d);
  }

  /** An offered single SMS is what its one PDU makes. */
  lemma SingleOffer(cfg: Config, m: Mem, es: seq<Entry>, at: Tpdu -> Readings, msg: Message, k: Key, sorted: seq<Entry>)
    returns (e: Entry)
    requires DistinctIndices(es) && k.Single? && Offers(cfg, m, es, at, msg, k, sorted)
    ensures e in es && !IsPart(e.tpdu) && Build(cfg, [e.tpdu], true, at(e.tpdu).received) == Some(msg)
  {
    OrderExact(es);
    e :| e in es && KeyOf(e) == k;
    SingleMembers(es, e);
    SortsOfOne(sorted, e);
    SingleOutcome(cfg, m, es, e, at);
  }

  lemma OfferSingle(cfg: Config, m: Mem, es: seq<Entry>, at: Tpdu -> Readings, msg: Message, d: Entry)
    requires DistinctIndices(es) && d in es && !IsPart(d.tpdu)
    requires Build(cfg, [d.tpdu], true, at(d.tpdu).received) == Some(msg)
    ensures CanOffer(cfg, m, es, at, msg)
  {
    SingleMembers(es, d);
    SingleOutcome(cfg, m, es, d, at);
    InOrder(es, d, KeyOf(d));
    assert Offers(cfg, m, es, at, msg, KeyOf(d), [d]);
  }

  /** Some sorted order exists: insertion. */
  function InsertBy(sorted: seq<Entry>, e: Entry): (r: seq<Entry>)
    ensures multiset(r) == multiset(sorted) + multiset{e}
  {
    if sorted == [] || SeqNo(e.tpdu) <= SeqNo(sorted[0].tpdu) then [e] + sorted
    else
      assert sorted == [sorted[0]] + sorted[1..];
      [sorted[0]] + InsertBy(sorted[1..], e)
  }

  ghost predicate InSequence(s: seq<Entry>) {
    forall i, j :: 0 <= i < j < |s| ==> SeqNo(s[i].tpdu) <= SeqNo(s[j].tpdu)
  }

  lemma {:induction false} InsertedIn(sorted: seq<Entry>, e: Entry, x: Entry)
    requires x in InsertBy(sorted, e)
    ensures x in sorted || x == e
  {
    if sorted != [] && SeqNo(e.tpdu) > SeqNo(sorted[0].tpdu) && x != sorted[0] {
      InsertedIn(sorted[1..], e, x);
    }
  }

  lemma {:induction false} InsertKeepsSequence(sorted: seq<Entry>, e: Entry)
    requires InSequence(sorted)
    ensures InSequence(InsertBy(sorted, e))
  {
    if sorted != [] && SeqNo(e.tpdu) > SeqNo(sorted[0].tpdu) {
      var rest := InsertBy(sorted[1..], e);
      InsertKeepsSequence(sorted[1..], e);
      forall i | 0 <= i < |rest| ensures SeqNo(sorted[0].tpdu) <= SeqNo(rest[i].tpdu) {
        InsertedIn(sorted[1..], e, rest[i]);
      }
    }
  }

  function AnySort(es: seq<Entry>): (r: seq<Entry>)
    ensures IsSortOf(r, es)
  {
    if es == [] then []
    else
      assert es == es[..|es| - 1] + [es[|es| - 1]];
      InsertKeepsSequence(AnySort(es[..|es| - 1]), es[|es| - 1]);
      InsertBy(AnySort(es[..|es| - 1]), es[|es| - 1])
  }

  /** Two listings that hold the same PDUs, in whatever slots and order, offer the same messages. */
  lemma SameOffers(cfg: Config, m: Mem, es: seq<Entry>, es': seq<Entry>, at: Tpdu -> Readings)
    requires DistinctIndices(es) && DistinctParts(es) && DistinctIndices(es') && DistinctParts(es')
    requires forall t :: t in TpdusOf(es) <==> t in TpdusOf(es')
    ensures forall msg :: CanOffer(cfg, m, es, at, msg) <==> CanOffer(cfg, m, es', at, msg)
  {
    forall msg ensures CanOffer(cfg, m, es, at, msg) <==> CanOffer(cfg, m, es', at, msg) {
      if k, sorted :| Offers(cfg, m, es, at, msg, k, sorted) {
        if k.Parts? {
          PartOfferMoves(cfg, m, es, es', at, msg, k, sorted);
        } else {
          SingleOfferMoves(cfg, m, es, es', at, msg, k, sorted);
        }
      }
      if k, sorted :| Offers(cfg, m, es', at, msg, k, sorted) {
        if k.Parts? {
          PartOfferMoves(cfg, m, es', es, at, msg, k, sorted);
        } else {
          SingleOfferMoves(cfg, m, es', es, at, msg, k, sorted);
        }
      }
    }
  }

  lemma SortsAgree(es: seq<Entry>, k: Key, a: seq<Entry>, b: seq<Entry>)
    requires DistinctIndices(es) && DistinctParts(es) && k in Order(es)
    requires IsSortOf(a, Members(es, k)) && IsSortOf(b, Members(es, k))
    ensures TpdusOf(a) == TpdusOf(b)
  {
    if k.Parts? {
      SortedTpdus(a, es, k);
      SortedTpdus(b, es, k);
      SortedIncreasing(a, es, k);
      SortedIncreasing(b, es, k);
      SortIsUnique(TpdusOf(a), TpdusOf(b));
    } else {
      OrderExact(es);
      var e :| e in es && KeyOf(e) == k;
      SingleMembers(es, e);
      SortsOfOne(a, e);
      SortsOfOne(b, e);
    }
  }

  /** To the worker the clock might as well have shown `at`: the group has waited long enough by both or by neither, and
      the PDU that gives the message its time has one of its own or was received at the same reading. */
  ghost predicate ReadsLike(m: Mem, k: Key, env: Env, at: Tpdu -> Readings)
    requires env.sorted != []
  {
    var first := env.sorted[0].tpdu;
    && (k in m.firstSeen ==>
          (env.now - m.firstSeen[k] < TIMEOUT <==> at(first).now - m.firstSeen[k] < TIMEOUT))
    && (first.time.None? ==> env.received == at(first).received)
  }

  ghost predicate AllReadLike(m: Mem, es: seq<Entry>, envs: seq<Env>, at: Tpdu -> Readings)
    requires Shaped(Order(es), envs)
  {
    forall j :: 0 <= j < |envs| ==> ReadsLike(m, Order(es)[j], envs[j], at)
  }

  ghost predicate AllStored(envs: seq<Env>) {
    forall j :: 0 <= j < |envs| ==> envs[j].stored
  }

  lemma SameOutcome(cfg: Config, m: Mem, es: seq<Entry>, k: Key, env: Env, sorted: seq<Entry>, at: Tpdu -> Readings)
    requires env.sorted != [] && sorted != [] && TpdusOf(sorted) == TpdusOf(env.sorted) && ReadsLike(m, k, env, at)
    ensures OutcomeOf(cfg, m, es, k, env) == OutcomeOf(cfg, m, es, k, EnvAt(at, sorted))
  {
    assert sorted[0].tpdu == TpdusOf(sorted)[0] && env.sorted[0].tpdu == TpdusOf(env.sorted)[0];
  }

  lemma GivenIsOffer(cfg: Config, m: Mem, es: seq<Entry>, envs: seq<Env>, at: Tpdu -> Readings, msg: Message, j: nat)
    requires EnvsOk(es, Order(es), envs) && Shaped(Order(es), envs) && AllReadLike(m, es, envs, at)
    requires j < |envs| && msg in Gives(cfg, m, es, Order(es)[j], envs[j])
    ensures CanOffer(cfg, m, es, at, msg)
  {
    var k := Order(es)[j];
    assert EnvOk(es, k, envs[j]);
    SameOutcome(cfg, m, es, k, envs[j], envs[j].sorted, at);
    assert Offers(cfg, m, es, at, msg, k, envs[j].sorted);
  }

  lemma OfferIsGiven(cfg: Config, m: Mem, es: seq<Entry>, envs: seq<Env>, at: Tpdu -> Readings, msg: Message, j: nat,
                     sorted: seq<Entry>)
    requires DistinctIndices(es) && DistinctParts(es)
    requires EnvsOk(es, Order(es), envs) && Shaped(Order(es), envs) && AllStored(envs) && AllReadLike(m, es, envs, at)
    requires j < |envs| && Offers(cfg, m, es, at, msg, Order(es)[j], sorted)
    ensures msg in Gives(cfg, m, es, Order(es)[j], envs[j])
  {
    var k := Order(es)[j];
    assert EnvOk(es, k, envs[j]);
    SortsAgree(es, k, sorted, envs[j].sorted);
    SameOutcome(cfg, m, es, k, envs[j], sorted, at);
  }

  /** Without failures a call hands over exactly the messages that it may offer. */
  lemma GivenAreOffers(cfg: Config, m: Mem, es: seq<Entry>, envs: seq<Env>, at: Tpdu -> Readings, msg: Message)
    requires DistinctIndices(es) && DistinctParts(es)
    requires EnvsOk(es, Order(es), envs) && Shaped(Order(es), envs) && AllStored(envs) && AllReadLike(m, es, envs, at)
    ensures msg in Flatten(AllGiven(cfg, m, es, Order(es), envs)) <==> CanOffer(cfg, m, es, at, msg)
  {
    var parts := AllGiven(cfg, m, es, Order(es), envs);
    InFlatten(parts, msg);
    if j :| 0 <= j < |parts| && msg in parts[j] {
      GivenIsOffer(cfg, m, es, envs, at, msg, j);
    }
    if CanOffer(cfg, m, es, at, msg) {
      var k, sorted :| Offers(cfg, m, es, at, msg, k, sorted);
      var j :| 0 <= j < |Order(es)| && Order(es)[j] == k;
      OfferIsGiven(cfg, m, es, envs, at, msg, j, sorted);
      assert msg in parts[j];
    }
  }

  function Listed(cfg: Config, lines: seq<string>): seq<Entry> {
    Segments(Scan(cfg, lines))
  }

  /** A call whose handler stores every message, that might as well have read the clock as `at` says, on a listing in
      which part numbers differ within each SMS. */
  ghost predicate Smooth(cfg: Config, m: Mem, lines: seq<string>, envs: seq<Env>, at: Tpdu -> Readings) {
    && DistinctParts(Listed(cfg, lines))
    && EnvsOk(Listed(cfg, lines), Order(Listed(cfg, lines)), envs) && Shaped(Order(Listed(cfg, lines)), envs)
    && AllStored(envs) && AllReadLike(m, Listed(cfg, lines), envs, at)
  }

  /** The messages that the call adds to the stored ones. */
  ghost predicate HandsOut(cfg: Config, m: Mem, lines: seq<string>, envs: seq<Env>, dropped: set<nat>,
                           given: seq<Message>)
    requires EnvsOk(Listed(cfg, lines), Order(Listed(cfg, lines)), envs)
  {
    ReadSpec(cfg, m, lines, envs, dropped).handed == m.handed + given
  }

  /** What a call hands out, group by group. */
  lemma HandsOutGiven(cfg: Config, m: Mem, lines: seq<string>, envs: seq<Env>, dropped: set<nat>)
    requires EnvsOk(Listed(cfg, lines), Order(Listed(cfg, lines)), envs)
    ensures Shaped(Order(Listed(cfg, lines)), envs)
    ensures HandsOut(cfg, m, lines, envs, dropped,
                     Flatten(AllGiven(cfg, m, Listed(cfg, lines), Order(Listed(cfg, lines)), envs)))
  {
    var es := Listed(cfg, lines);
    var seen := m.(badPdu := m.badPdu + Bads(Scan(cfg, lines)));
    OrderExact(es);
    EnvsShaped(es, Order(es), envs);
    VisitAllEffect(cfg, seen, es, Order(es), envs);
    assert AllGiven(cfg, seen, es, Order(es), envs) == AllGiven(cfg, m, es, Order(es), envs);
  }

  lemma HandedAreOffers(cfg: Config, m: Mem, order: seq<nat>, lines: seq<string>, envs: seq<Env>, dropped: set<nat>,
                        at: Tpdu -> Readings, given: seq<Message>)
    requires Lists(m.slots, order, lines) && Smooth(cfg, m, lines, envs, at)
    requires HandsOut(cfg, m, lines, envs, dropped, given)
    ensures forall msg :: msg in given <==> CanOffer(cfg, m, Listed(cfg, lines), at, msg)
  {
    var es := Listed(cfg, lines);
    ListingExact(cfg, m.slots, order, lines);
    HandsOutGiven(cfg, m, lines, envs, dropped);
    SameTail(m.handed, given, Flatten(AllGiven(cfg, m, es, Order(es), envs)));
    forall msg ensures msg in given <==> CanOffer(cfg, m, es, at, msg) {
      GivenAreOffers(cfg, m, es, envs, at, msg);
    }
  }

  lemma SameTail<T>(a: seq<T>, b: seq<T>, c: seq<T>)
    requires a + b == a + c
    ensures b == c
  {
    assert b == (a + b)[|a|..] && c == (a + c)[|a|..];
  }

  ghost predicate HoldsPdu(slots: map<nat, string>, pdu: string) {
    exists i :: i in slots && slots[i] == pdu
  }

  /** The two storages hold the same PDUs, in whatever slots. */
  ghost predicate SamePdus(slots: map<nat, string>, slots': map<nat, string>) {
    forall pdu :: HoldsPdu(slots, pdu) <==> HoldsPdu(slots', pdu)
  }

  lemma ListedTpdu(cfg: Config, slots: map<nat, string>, slots': map<nat, string>, es: seq<Entry>, es': seq<Entry>,
                   t: Tpdu)
    requires SamePdus(slots, slots') && t in TpdusOf(es)
    requires (forall e :: e in es <==> Stored(cfg, slots, e)) && forall e :: e in es' <==> Stored(cfg, slots', e)
    ensures t in TpdusOf(es')
  {
    InTpdus(es, t);
    var e :| e in es && e.tpdu == t;
    assert Stored(cfg, slots, e) && HoldsPdu(slots, slots[e.index]);
    var i :| i in slots' && slots'[i] == slots[e.index];
    assert Stored(cfg, slots', Entry(i, t));
    InTpdus(es', t);
  }

  lemma SameTpdus(cfg: Config, slots: map<nat, string>, slots': map<nat, string>, order: seq<nat>, order': seq<nat>,
                  lines: seq<string>, lines': seq<string>)
    requires SamePdus(slots, slots') && Lists(slots, order, lines) && Lists(slots', order', lines')
    ensures DistinctIndices(Listed(cfg, lines)) && DistinctIndices(Listed(cfg, lines'))
    ensures forall t :: t in TpdusOf(Listed(cfg, lines)) <==> t in TpdusOf(Listed(cfg, lines'))
  {
    var es, es' := Listed(cfg, lines), Listed(cfg, lines');
    ListingExact(cfg, slots, order, lines);
    ListingExact(cfg, slots', order', lines');
    forall t ensures t in TpdusOf(es) <==> t in TpdusOf(es') {
      if t in TpdusOf(es) {
        ListedTpdu(cfg, slots, slots', es, es', t);
      }
      if t in TpdusOf(es') {
        ListedTpdu(cfg, slots', slots, es', es, t);
      }
    }
  }

  lemma SameMemoryOffers(cfg: Config, m: Mem, m': Mem, es: seq<Entry>, at: Tpdu -> Readings, msg: Message)
    requires m'.firstSeen == m.firstSeen && CanOffer(cfg, m, es, at, msg)
    ensures CanOffer(cfg, m', es, at, msg)
  {
    var k, sorted :| Offers(cfg, m, es, at, msg, k, sorted);
    assert Offers(cfg, m', es, at, msg, k, sorted);
  }

  /** ReadAll does not depend on how the PDUs are stored: two calls that start from the same sightings, on modems that
      hold the same PDUs in whatever slots and list them in whatever order, hand over the same messages, whatever
      becomes of the deletions, provided that part numbers differ within each SMS, the handlers store what they are
      given, and the readings of the clock tell the same of each group. */
  lemma StorageOrderIrrelevant(cfg: Config, m: Mem, m': Mem, order: seq<nat>, order': seq<nat>,
                               lines: seq<string>, lines': seq<string>, envs: seq<Env>, envs': seq<Env>,
                               dropped: set<nat>, dropped': set<nat>, at: Tpdu -> Readings,
                               given: seq<Message>, given': seq<Message>)
    requires m'.firstSeen == m.firstSeen && SamePdus(m.slots, m'.slots)
    requires Lists(m.slots, order, lines) && Smooth(cfg, m, lines, envs, at)
    requires Lists(m'.slots, order', lines') && Smooth(cfg, m', lines', envs', at)
    requires HandsOut(cfg, m, lines, envs, dropped, given) && HandsOut(cfg, m', lines', envs', dropped', given')
    ensures forall msg :: msg in given <==> msg in given'
  {
    var es, es' := Listed(cfg, lines), Listed(cfg, lines');
    HandedAreOffers(cfg, m, order, lines, envs, dropped, at, given);
    HandedAreOffers(cfg, m', order', lines', envs', dropped', at, given');
    SameTpdus(cfg, m.slots, m'.slots, order, order', lines, lines');
    SameOffers(cfg, m, es, es', at);
    forall msg ensures msg in given <==> msg in given' {
      if msg in given {
        SameMemoryOffers(cfg, m, m', es', at, msg);
      }
      if msg in given' {
        SameMemoryOffers(cfg, m', m, es', at, msg);
      }
    }
  }

  // ------------------------------------------------------------------ complete bodies

  /** Text decoding joins the texts of the parts, in the order given; it fails when a part has none. */
  function Join(part: Tpdu -> Option<string>, ts: seq<Tpdu>): Option<string> {
    if ts == [] then Some("")
    else match (Join(part, ts[..|ts| - 1]), part(ts[|ts| - 1]))
      case (Some(a), Some(b)) => Some(a + b)
      case _ => None
  }

  /** Parts numbered 1..n without repetition sort into 1, 2, ..., n. */
  lemma {:induction false} NumberedInOrder(ts: seq<Tpdu>, n: nat)
    requires Increasing(ts) && |ts| == n && forall i :: 0 <= i < n ==> 1 <= SeqNo(ts[i]) <= n
    ensures forall i :: 0 <= i < n ==> SeqNo(ts[i]) == i + 1
  {
    forall i | 0 <= i < n ensures SeqNo(ts[i]) == i + 1 {
      ClimbsFrom(ts, i);
      ClimbsTo(ts, i);
    }
  }

  lemma {:induction false} ClimbsFrom(ts: seq<Tpdu>, i: nat)
    requires Increasing(ts) && i < |ts| && 1 <= SeqNo(ts[0])
    ensures SeqNo(ts[i]) >= i + 1
  {
    if i > 0 {
      ClimbsFrom(ts, i - 1);
    }
  }

  lemma {:induction false} ClimbsTo(ts: seq<Tpdu>, i: nat)
    requires Increasing(ts) && i < |ts| && SeqNo(ts[|ts| - 1]) <= |ts|
    ensures SeqNo(ts[i]) <= i + 1
    decreases |ts| - i
  {
    if i + 1 < |ts| {
      ClimbsTo(ts, i + 1);
    }
  }

  /** A complete group of differently numbered parts is handed over without the marker, and its body is the
      text of part 1, then part 2, and so on. */
  lemma CompleteBody(cfg: Config, part: Tpdu -> Option<string>, m: Mem, es: seq<Entry>, k: Key, env: Env)
    requires forall ts :: cfg.text(ts) == Join(part, ts)
    requires DistinctIndices(es) && DistinctParts(es) && k.Parts? && IsSortOf(env.sorted, Members(es, k))
    requires env.sorted != []
    requires |Members(es, k)| == k.segs && forall e :: e in Members(es, k) ==> 1 <= SeqNo(e.tpdu) <= k.segs
    requires OutcomeOf(cfg, m, es, k, env).Offer?
    ensures var ts := TpdusOf(env.sorted);
      && |ts| == k.segs && (forall i :: 0 <= i < k.segs ==> SeqNo(ts[i]) == i + 1)
      && Some(OutcomeOf(cfg, m, es, k, env).message.body) == Join(part, ts)
  {
    SortedIncreasing(env.sorted, es, k);
    assert |multiset(env.sorted)| == |env.sorted| && |multiset(Members(es, k))| == |Members(es, k)|;
    var ts := TpdusOf(env.sorted);
    forall i | 0 <= i < |ts| ensures 1 <= SeqNo(ts[i]) <= k.segs {
      assert env.sorted[i] in multiset(Members(es, k));
    }
    NumberedInOrder(ts, k.segs);
  }

  /** The numbers present among the segments. */
  function Numbers(es: seq<Entry>): set<nat> {
    if es == [] then {} else Numbers(es[..|es| - 1]) + {SeqNo(es[|es| - 1].tpdu)}
  }

  lemma {:induction false} InNumbers(es: seq<Entry>, n: nat)
    ensures n in Numbers(es) <==> exists e :: e in es && SeqNo(e.tpdu) == n
  {
    if es != [] {
      InNumbers(es[..|es| - 1], n);
      assert es == es[..|es| - 1] + [es[|es| - 1]];
    }
  }

  ghost predicate AllDifferent(es: seq<Entry>) {
    forall i, j :: 0 <= i < j < |es| ==> SeqNo(es[i].tpdu) != SeqNo(es[j].tpdu)
  }

  function UpTo(n: nat): (s: set<nat>)
    ensures forall i :: i in s <==> 1 <= i <= n
    ensures |s| == n
  {
    if n == 0 then {} else UpTo(n - 1) + {n}
  }

  lemma DifferentSnoc(front: seq<Entry>, last: Entry)
    ensures AllDifferent(front + [last]) <==> AllDifferent(front) && SeqNo(last.tpdu) !in Numbers(front)
  {
    var es := front + [last];
    InNumbers(front, SeqNo(last.tpdu));
    if e :| e in front && SeqNo(e.tpdu) == SeqNo(last.tpdu) {
      var i :| 0 <= i < |front| && front[i] == e;
      assert es[i] == e && es[|front|] == last;
    }
    if AllDifferent(es) {
      assert forall i :: 0 <= i < |front| ==> es[i] == front[i];
    }
  }

  lemma SubsetSize(a: set<nat>, b: set<nat>)
    requires a <= b
    ensures |a| <= |b| && (|a| == |b| <==> a == b)
  {
    assert b == a + (b - a);
  }

  ghost predicate InRange(es: seq<Entry>, total: nat) {
    forall i :: 0 <= i < |es| ==> 1 <= SeqNo(es[i].tpdu) <= total
  }

  /** Segments whose number is out of range, or was there before. */
  function Surplus(es: seq<Entry>, total: nat): nat {
    if es == [] then 0
    else
      var front, n := es[..|es| - 1], SeqNo(es[|es| - 1].tpdu);
      Surplus(front, total) + if 1 <= n <= total && n !in Numbers(front) then 0 else 1
  }

  lemma {:induction false} SurplusCounts(es: seq<Entry>, total: nat)
    ensures |Numbers(es) * UpTo(total)| + Surplus(es, total) == |es|
  {
    if es != [] {
      var front, n := es[..|es| - 1], SeqNo(es[|es| - 1].tpdu);
      SurplusCounts(front, total);
      var before := Numbers(front) * UpTo(total);
      if n in UpTo(total) && n !in Numbers(front) {
        assert Numbers(es) * UpTo(total) == before + {n};
      } else {
        assert Numbers(es) * UpTo(total) == before;
      }
    }
  }

  lemma InRangeSnoc(front: seq<Entry>, last: Entry, total: nat)
    ensures InRange(front + [last], total) <==> InRange(front, total) && 1 <= SeqNo(last.tpdu) <= total
  {
    var es := front + [last];
    assert es[|front|] == last && forall i :: 0 <= i < |front| ==> es[i] == front[i];
  }

  lemma SurplusSnoc(front: seq<Entry>, last: Entry, total: nat)
    ensures var n := SeqNo(last.tpdu);
      Surplus(front + [last], total)
      == Surplus(front, total) + if 1 <= n <= total && n !in Numbers(front) then 0 else 1
  {
    assert (front + [last])[..|front|] == front;
  }

  lemma {:induction false} NoSurplusIff(es: seq<Entry>, total: nat)
    ensures Surplus(es, total) == 0 <==> AllDifferent(es) && InRange(es, total)
  {
    if es != [] {
      var front, last := es[..|es| - 1], es[|es| - 1];
      NoSurplusIff(front, total);
      assert es == front + [last];
      SurplusSnoc(front, last, total);
      DifferentSnoc(front, last);
      InRangeSnoc(front, last, total);
    }
  }

  /** The completeness test counts segments. A group that passes it holds every part 1..total precisely when its
      surplus, the segments out of range or of a number that is there already, is no more than what it has over
      `total`; with exactly `total` segments, when each is in the range and none is repeated. */
  lemma CountedIsWholeIff(es: seq<Entry>, total: nat)
    requires |es| >= total
    ensures UpTo(total) <= Numbers(es) <==> Surplus(es, total) == |es| - total
    ensures |es| == total ==> (UpTo(total) <= Numbers(es) <==> AllDifferent(es) && InRange(es, total))
  {
    SurplusCounts(es, total);
    NoSurplusIff(es, total);
    SubsetSize(Numbers(es) * UpTo(total), UpTo(total));
    assert UpTo(total) <= Numbers(es) <==> Numbers(es) * UpTo(total) == UpTo(total);
  }

  lemma ScanPair(cfg: Config, lines: seq<string>, i: nat, j: nat)
    requires |lines| == 4 && Heads(lines[0], i) && Heads(lines[2], j)
    ensures Scan(cfg, lines) == [Classify(cfg, i, lines[1]), Classify(cfg, j, lines[3])]
  {
    var rest := lines[2..];
    IndexIff(lines[0], i);
    IndexIff(lines[2], j);
    assert rest[0] == lines[2] && rest[1] == lines[3] && |rest[2..]| == 0;
    assert Scan(cfg, rest) == [Classify(cfg, j, lines[3])] + Scan(cfg, rest[2..]);
  }

  lemma SegmentPair(a: Entry, b: Entry)
    ensures Segments([Segment(a), Segment(b)]) == [a, b]
  {
    ItemsSnoc([], Segment(a));
    ItemsSnoc([Segment(a)], Segment(b));
    assert [] + [Segment(a)] == [Segment(a)] && [Segment(a)] + [Segment(b)] == [Segment(a), Segment(b)];
  }

  lemma ListsPair(slots: map<nat, string>, pdu: string, lines: seq<string>)
    requires slots == map[1 := pdu, 2 := pdu] && |lines| == 4 && lines[1] == pdu && lines[3] == pdu
    requires Heads(lines[0], 1) && Heads(lines[2], 2)
    ensures Lists(slots, [1, 2], lines)
  {
    var order := [1, 2];
    forall j | 0 <= j < 2
      ensures order[j] in slots && Heads(lines[2 * j], order[j]) && lines[2 * j + 1] == slots[order[j]]
    {
      assert j == 0 || j == 1;
    }
  }

  lemma PairOf(a: Entry, b: Entry, k: Key)
    requires KeyOf(a) == KeyOf(b) == k
    ensures Members([a, b], k) == [a, b] && TpdusOf([a, b]) == [a.tpdu, b.tpdu]
    ensures Numbers([a, b]) == {SeqNo(a.tpdu), SeqNo(b.tpdu)}
  {
    var one, both := [a], [a, b];
    assert one[..0] == [] && both[..1] == one;
    assert Members(one, k) == [] + [a] && Members(both, k) == Members(one, k) + [b];
    assert Numbers(one) == {} + {SeqNo(a.tpdu)} && Numbers(both) == Numbers(one) + {SeqNo(b.tpdu)};
  }

  lemma PrintedTwice(cfg: Config, pdu: string, t: Tpdu) returns (lines: seq<string>)
    requires cfg.decode(pdu) == Some(t) && t.deliver
    ensures Lists(map[1 := pdu, 2 := pdu], [1, 2], lines) && Listed(cfg, lines) == [Entry(1, t), Entry(2, t)]
  {
    lines := [Header(1, ""), pdu, Header(2, ""), pdu];
    HeaderHeads(1, "");
    HeaderHeads(2, "");
    ListsPair(map[1 := pdu, 2 := pdu], pdu, lines);
    ScanPair(cfg, lines, 1, 2);
    SegmentPair(Entry(1, t), Entry(2, t));
  }

  /** A part of a two-part SMS that the modem holds twice passes as the whole SMS: it is offered without the marker
      although part 2 is missing. */
  lemma ResentPartPassesAsWhole(cfg: Config, m: Mem, pdu: string, t: Tpdu, mref: nat, now: int)
    returns (lines: seq<string>)
    requires cfg.decode(pdu) == Some(t) && t.deliver && t.concat == Some(Concat(2, 1, mref)) && cfg.text([t, t]).Some?
    ensures Lists(map[1 := pdu, 2 := pdu], [1, 2], lines)
    ensures var es := Listed(cfg, lines);
      && Members(es, PartKey(t)) == es && Total(PartKey(t)) == 2 && 2 !in Numbers(es)
      && IsSortOf(es, es) && es != []
      && OutcomeOf(cfg, m, es, PartKey(t), Env(now, now, es, true, {}, {})).Offer?
      && OutcomeOf(cfg, m, es, PartKey(t), Env(now, now, es, true, {}, {})).message.body == cfg.text([t, t]).value
  {
    lines := PrintedTwice(cfg, pdu, t);
    PairOf(Entry(1, t), Entry(2, t), PartKey(t));
  }
}
