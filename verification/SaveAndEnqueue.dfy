/** saveAndEnqueue and SaveMessage as the code they are, over tables that other calls change at any time. The
  methods extend a run of Intake's machine, so what holds of every such run holds for them.
  (cmd/abb/main.go, internal/db/messages.go) */
module SaveAndEnqueue {
  import opened Intake
  import opened Interleaving

  /** Steps of call c, from its insert on, and the crash that ends it. */
  predicate Of(c: nat, l: Label) {
    match l
    case Begin(_) => false
    case Crash => true
    case _ => l.call == c
  }

  lemma ForeignKeepsCall(channels: seq<string>, s: State, c: nat, l: Label)
    requires Inv(channels, s) && c in s.calls && Enabled(channels, s, l) && !Of(c, l)
    ensures var t := Apply(channels, s, l); c in t.calls && t.calls[c] == s.calls[c]
  {
    assert CallOk(s, c);
  }

  /** So OthersRun promises no more than any number of such steps keeps. */
  lemma {:induction false} ForeignRunKeepsCall(channels: seq<string>, ss: seq<State>, ls: seq<Label>, c: nat, i: nat,
                                               j: nat)
    requires IsRun(channels, ss, ls) && i <= j <= |ls| && c in ss[i].calls
    requires forall k :: i <= k < j ==> !Of(c, ls[k])
    ensures c in ss[j].calls && ss[j].calls[c] == ss[i].calls[c]
    decreases j
  {
    if i < j {
      ForeignRunKeepsCall(channels, ss, ls, c, i, j - 1);
      RunInv(channels, ss, ls, j - 1);
      assert StepAt(channels, ss, ls, j - 1);
      ForeignKeepsCall(channels, ss[j - 1], c, ls[j - 1]);
    }
  }

  /** How INSERT OR IGNORE ends. Lost: it reports an error, although a new row is in the table. */
  datatype Insertion = Fine | Failed | Lost

  /** The steps of SaveMessage, when the key is in the table before it or not. */
  function SaveSteps(c: nat, known: bool, insertion: Insertion, found: bool): seq<Label> {
    match insertion
    case Failed => [Insert(c, false)]
    case Lost => [if known then Insert(c, false) else InsertLost(c)]
    case Fine => if known then [Insert(c, true), LookUp(c, found)] else [Insert(c, true)]
  }

  /** The steps up to `before`, then those for the first n channels. */
  function CreateSteps(before: seq<Label>, c: nat, created: nat -> bool, n: nat): seq<Label> {
    if n == 0 then before else CreateSteps(before, c, created, n - 1) + [Create(c, created(n - 1))]
  }

  class Store {
    const channels: seq<string>
    var keys: seq<string>
    var outbox: seq<Entry>

    /** The run so far: what every call did. */
    ghost var states: seq<State>
    ghost var labels: seq<Label>

    ghost predicate Valid()
      reads this
    {
      IsRun(channels, states, labels) && states[|labels|].keys == keys && states[|labels|].outbox == outbox
    }

    ghost function Now(): State
      requires Valid()
      reads this
    {
      states[|labels|]
    }

    /** The run has only been extended. */
    twostate predicate Extends()
      reads this
    {
      old(labels) <= labels && old(states) <= states
    }

    ghost predicate InCall(c: nat, pc: Pc)
      requires Valid()
      reads this
    {
      c in Now().calls && Now().calls[c] == pc
    }

    ghost predicate Answered(c: nat, key: string, ok: bool)
      requires Valid()
      reads this
    {
      c in Now().answers && Now().answers[c] == Answer(key, ok)
    }

    constructor (channels: seq<string>)
      ensures Valid() && this.channels == channels && labels == [] && keys == [] && outbox == []
    {
      this.channels, this.keys, this.outbox := channels, [], [];
      this.states, this.labels := [EMPTY], [];
    }

    ghost method Take(l: Label)
      requires IsRun(channels, states, labels) && Enabled(channels, states[|labels|], l)
      modifies this`states, this`labels
      ensures IsRun(channels, states, labels)
      ensures labels == old(labels) + [l] && states == old(states) + [Apply(channels, old(states[|labels|]), l)]
    {
      var next := Apply(channels, states[|labels|], l);
      var before, done := states, labels;
      states, labels := states + [next], labels + [l];
      forall k | 0 <= k < |labels| ensures StepAt(channels, states, labels, k) {
        if k < |done| {
          assert StepAt(channels, before, done, k);
        }
      }
    }

    /** Any number of steps of other calls. The body takes none; callers know only the contract, so they are
        proved against every interference it allows. */
    method OthersRun(ghost c: nat)
      requires Valid() && c in Now().calls
      modifies this
      ensures Valid() && Extends() && InCall(c, old(Now()).calls[c])
      ensures forall k :: |old(labels)| <= k < |labels| ==> !Of(c, labels[k])
    {
    }

    /** INSERT OR IGNORE, and for a duplicate the look-up of its id, which may fail. */
    method SaveMessage(ghost c: nat, key: string, insertion: Insertion, found: bool, ghost from: nat)
      returns (id: nat, isNew: bool, ok: bool)
      requires Valid() && InCall(c, Saving(key)) && from <= |labels|
      modifies this
      ensures Valid() && Extends() && |labels| > |old(labels)|
      ensures labels[|old(labels)|] == SaveSteps(c, key in old(keys), insertion, found)[0]
      ensures if isNew then InCall(c, Creating(id, 0)) else Answered(c, key, ok)
      ensures ok ==> id < |keys| && keys[id] == key
      ensures isNew <==> insertion.Fine? && key !in old(keys)
      ensures ok <==> insertion.Fine? && (key !in old(keys) || found)
      ensures var own, known := Own(Of, c, old(labels), from), key in old(keys);
        Own(Of, c, labels, from)
        == own + match insertion
                 case Fine => if known then [Insert(c, true), LookUp(c, found)] else [Insert(c, true)]
                 case Failed => [Insert(c, false)]
                 case Lost => if known then [Insert(c, false)] else [InsertLost(c)]
    {
      id, isNew, ok := 0, false, false;
      if !insertion.Fine? {
        InsertFails(c, key, insertion, from);
      } else if key !in keys {
        Take(Insert(c, true));
        OwnLast(Of, c, old(labels), Insert(c, true), from);
        id, isNew, ok := |keys|, true, true;
        keys := keys + [key];
      } else {
        id := FindDuplicate(c, key, found, from);
        ok := found;
      }
    }

    method InsertFails(ghost c: nat, key: string, insertion: Insertion, ghost from: nat)
      requires Valid() && InCall(c, Saving(key)) && !insertion.Fine? && from <= |labels|
      modifies this
      ensures Valid() && Extends() && |labels| > |old(labels)| && Answered(c, key, false)
      ensures labels[|old(labels)|] == SaveSteps(c, key in old(keys), insertion, false)[0]
      ensures Own(Of, c, labels, from)
              == Own(Of, c, old(labels), from) + SaveSteps(c, key in old(keys), insertion, false)
    {
      if insertion.Lost? && key !in keys {
        Take(InsertLost(c));
        keys := keys + [key];
      } else {
        Take(Insert(c, false));
      }
      OwnLast(Of, c, old(labels), labels[|old(labels)|], from);
    }

    method FindDuplicate(ghost c: nat, key: string, found: bool, ghost from: nat) returns (id: nat)
      requires Valid() && InCall(c, Saving(key)) && key in keys && from <= |labels|
      modifies this
      ensures Valid() && Extends() && |labels| > |old(labels)| && Answered(c, key, found)
      ensures labels[|old(labels)|] == Insert(c, true)
      ensures id < |keys| && keys[id] == key
      ensures Own(Of, c, labels, from) == Own(Of, c, old(labels), from) + [Insert(c, true), LookUp(c, found)]
    {
      Take(Insert(c, true));
      OwnLast(Of, c, old(labels), Insert(c, true), from);
      ghost var inserted := labels;
      OthersRun(c);
      OwnStays(Of, c, inserted, labels, from);
      RunInv(channels, states, labels, |labels|);
      assert CallOk(Now(), c);
      inserted := labels;
      Take(LookUp(c, found));
      OwnLast(Of, c, inserted, LookUp(c, found), from);
      var row: nat :| row < |keys| && keys[row] == key;
      id := row;
    }

    /** An error is only logged by the caller, so all that counts is whether the row is inserted. */
    method CreateOutboxEntry(ghost c: nat, id: nat, ghost k: nat, channel: string, created: bool, ghost from: nat)
      requires Valid() && k < |channels| && channel == channels[k] && InCall(c, Creating(id, k)) && from <= |labels|
      modifies this
      ensures Valid() && Extends() && InCall(c, Creating(id, k + 1))
      ensures keys == old(keys) && outbox == old(outbox) + if created then [Entry(id, channel)] else []
      ensures Own(Of, c, labels, from) == Own(Of, c, old(labels), from) + [Create(c, created)]
    {
      RunInv(channels, states, labels, |labels|);
      assert CallOk(Now(), c);
      Take(Create(c, created));
      OwnLast(Of, c, old(labels), Create(c, created), from);
      if created {
        outbox := outbox + [Entry(id, channel)];
      }
    }

    /** One call, beside any others, that inserts at step `at`. It is new exactly if its insert succeeds and finds its
        key not in the table, and then it goes through all channels, so that AllRowsIff tells which rows there are. It
        returns without error exactly if it is new, or its insert succeeds and the duplicate's row is found. */
    method SaveAndEnqueue(key: string, insertion: Insertion, found: bool, created: nat -> bool)
      returns (ok: bool, isNew: bool, id: nat, ghost c: nat, ghost at: nat)
      requires Valid()
      modifies this
      ensures Valid() && Extends() && c == old(Now()).next && Answered(c, key, ok)
      ensures |old(labels)| < at < |labels| && labels[|old(labels)|] == Begin(key)
      ensures var known := key in states[at].keys;
        && (isNew <==> insertion.Fine? && !known) && (ok <==> insertion.Fine? && (!known || found))
        && labels[at] == SaveSteps(c, known, insertion, found)[0]
        && Own(Of, c, labels, |old(labels)|)
           == if isNew then CreateSteps([Insert(c, true)], c, created, |channels|) + [Done(c)]
              else SaveSteps(c, known, insertion, found)
      ensures ok ==> id < |keys| && keys[id] == key
      ensures isNew ==> id < |Now().creator| == |Now().progress|
                        && Now().creator[id] == c && Now().progress[id] == |channels|
    {
      c := Enter(key);
      at := |labels|;
      ghost var before := states;
      ok, isNew, id := SaveAndCreate(c, key, insertion, found, created, |old(labels)|);
      assert states[at] == before[at];
    }

    method SaveAndCreate(ghost c: nat, key: string, insertion: Insertion, found: bool, created: nat -> bool,
                         ghost from: nat)
      returns (ok: bool, isNew: bool, id: nat)
      requires Valid() && InCall(c, Saving(key)) && from <= |labels| && Own(Of, c, labels, from) == []
      modifies this
      ensures Valid() && Extends() && Answered(c, key, ok)
      ensures var known := key in old(keys);
        && (isNew <==> insertion.Fine? && !known) && (ok <==> insertion.Fine? && (!known || found))
        && |labels| > |old(labels)| && labels[|old(labels)|] == SaveSteps(c, known, insertion, found)[0]
        && Own(Of, c, labels, from)
           == if isNew then CreateSteps([Insert(c, true)], c, created, |channels|) + [Done(c)]
              else SaveSteps(c, known, insertion, found)
      ensures ok ==> id < |keys| && keys[id] == key
      ensures isNew ==> id < |Now().creator| == |Now().progress|
                        && Now().creator[id] == c && Now().progress[id] == |channels|
    {
      id, isNew, ok := SaveMessage(c, key, insertion, found, from);
      assert Own(Of, c, labels, from) == SaveSteps(c, key in old(keys), insertion, found);
      if isNew {
        EnqueueAll(c, key, id, created, from);
      }
    }

    /** The call begins, and others act. */
    method Enter(key: string) returns (ghost c: nat)
      requires Valid()
      modifies this
      ensures Valid() && Extends() && c == old(Now()).next && InCall(c, Saving(key))
      ensures |labels| > |old(labels)| && labels[|old(labels)|] == Begin(key)
      ensures Own(Of, c, labels, |old(labels)|) == []
    {
      c := Now().next;
      Take(Begin(key));
      OwnLast(Of, c, old(labels), Begin(key), |old(labels)|);
      ghost var begun := labels;
      OthersRun(c);
      OwnStays(Of, c, begun, labels, |old(labels)|);
    }

    method EnqueueAll(ghost c: nat, ghost key: string, id: nat, created: nat -> bool, ghost from: nat)
      requires Valid() && InCall(c, Creating(id, 0)) && id < |keys| && keys[id] == key && from <= |labels|
      modifies this
      ensures Valid() && Extends() && Answered(c, key, true) && id < |keys| && keys[id] == key
      ensures id < |Now().creator| == |Now().progress|
              && Now().creator[id] == c && Now().progress[id] == |channels|
      ensures Own(Of, c, labels, from)
              == CreateSteps(Own(Of, c, old(labels), from), c, created, |channels|) + [Done(c)]
    {
      ghost var own := Own(Of, c, labels, from);
      var k := 0;
      while k < |channels|
        invariant 0 <= k <= |channels|
        invariant Valid() && Extends() && InCall(c, Creating(id, k))
        invariant id < |keys| && keys[id] == key
        invariant Own(Of, c, labels, from) == CreateSteps(own, c, created, k)
      {
        EnqueueNext(c, key, id, k, created(k), from);
        k := k + 1;
      }
      Return(c, key, id, from);
    }

    /** The loop body: the next channel. */
    method EnqueueNext(ghost c: nat, ghost key: string, id: nat, k: nat, created: bool, ghost from: nat)
      requires Valid() && k < |channels| && InCall(c, Creating(id, k)) && id < |keys| && keys[id] == key
      requires from <= |labels|
      modifies this
      ensures Valid() && Extends() && InCall(c, Creating(id, k + 1)) && id < |keys| && keys[id] == key
      ensures Own(Of, c, labels, from) == Own(Of, c, old(labels), from) + [Create(c, created)]
    {
      Pause(c, id, key, from);
      CreateOutboxEntry(c, id, k, channels[k], created, from);
    }

    /** The end of a call that has gone through all channels. */
    method Return(ghost c: nat, ghost key: string, ghost id: nat, ghost from: nat)
      requires Valid() && InCall(c, Creating(id, |channels|)) && id < |keys| && keys[id] == key && from <= |labels|
      modifies this
      ensures Valid() && Extends() && Answered(c, key, true) && keys == old(keys)
      ensures id < |Now().creator| == |Now().progress|
              && Now().creator[id] == c && Now().progress[id] == |channels|
      ensures Own(Of, c, labels, from) == Own(Of, c, old(labels), from) + [Done(c)]
    {
      RunInv(channels, states, labels, |labels|);
      assert CallOk(Now(), c);
      Take(Done(c));
      OwnLast(Of, c, old(labels), Done(c), from);
    }

    /** Others act. They leave the message where it is. */
    method Pause(ghost c: nat, ghost id: nat, ghost key: string, ghost from: nat)
      requires Valid() && c in Now().calls && id < |keys| && keys[id] == key && from <= |labels|
      modifies this
      ensures Valid() && Extends() && InCall(c, old(Now()).calls[c]) && id < |keys| && keys[id] == key
      ensures Own(Of, c, labels, from) == Own(Of, c, old(labels), from)
    {
      ghost var n, before := |labels|, states;
      OthersRun(c);
      OwnStays(Of, c, old(labels), labels, from);
      KeysGrow(channels, states, labels, n, |labels|);
      assert states[n] == before[n];
    }
  }
}
