/** Runs of answered calls, one RPC at a time: the building blocks of runs that show what goes wrong. */
module Walks {
  import opened Names
  import opened Ontap
  import opened Rpc
  import opened Interleaving

  /** A call that is carried out and answered; as a listing it is empty. */
  const PLAIN_ANSWER: Fate := Answered([], [], "")

  predicate OnlyCalls(events: seq<Event>) {
    forall i | 0 <= i < |events| :: events[i].action.Call?
  }

  /** All that happens is that this slot's RPC begins and makes its calls. */
  predicate About(events: seq<Event>, slot: Slot) {
    forall i | 0 <= i < |events| ::
      match events[i].action
      case Begin(rpc, number) => SlotOf(rpc, number) == slot
      case Call(at, _) => at == slot
      case _ => false
  }

  lemma RunTwo(s: System, e: Event, e': Event, now: Tick)
    ensures Run(s, [e, e']) == Step(Step(s, e), e')
    ensures Timely(now, [e, e']) <==> now <= e.tick < e'.tick
  {
    assert [e, e'] == [e] + [e'];
    RunConcat(s, now, [e], [e']);
    RunOne(s, now, e);
    RunOne(Step(s, e), e.tick + 1, e');
  }

  /** Two walks, one after the other. */
  lemma WalkOn(s: System, now: Tick, xs: seq<Event>, ys: seq<Event>)
    requires Timely(now, xs) && Timely(Clock(now, xs), ys)
    ensures Run(s, xs + ys) == Run(Run(s, xs), ys) && Timely(now, xs + ys)
    ensures Clock(now, xs + ys) == Clock(Clock(now, xs), ys)
    ensures OnlyCalls(xs) && OnlyCalls(ys) ==> OnlyCalls(xs + ys)
    ensures forall slot :: About(xs, slot) && About(ys, slot) ==> About(xs + ys, slot)
  {
    RunConcat(s, now, xs, ys);
  }

  lemma CallsAreInScope(events: seq<Event>, accounts: set<string>, buckets: set<string>)
    requires OnlyCalls(events)
    ensures InScope(events, accounts, buckets)
  {
  }

  lemma ScopeOn(xs: seq<Event>, ys: seq<Event>, accounts: set<string>, buckets: set<string>)
    requires InScope(xs, accounts, buckets) && InScope(ys, accounts, buckets)
    ensures InScope(xs + ys, accounts, buckets)
  {
    var zs := xs + ys;
    forall i | 0 <= i < |zs| && zs[i].action.Begin?
      ensures InSlot(SlotOf(zs[i].action.rpc, zs[i].action.number), zs[i].action.rpc, accounts, buckets)
    {
      assert zs[i] == if i < |xs| then xs[i] else ys[i - |xs|];
    }
  }

  /** The bucket of this name is stored, and there is only one. */
  predicate Held(st: State, name: string, uuid: Tick) {
    && uuid in st.buckets && st.buckets[uuid].name == name
    && forall u | u in st.buckets && st.buckets[u].name == name :: u == uuid
  }

  lemma HeldOn(st: State, st': State, name: string, uuid: Tick)
    requires Held(st, name, uuid) && st'.buckets == st.buckets
    ensures Held(st', name, uuid)
  {
  }

  lemma Probe(s: System, slot: Slot, uuid: Tick, now: Tick) returns (events: seq<Event>)
    requires s.Busy(slot) && s.processes[slot].stage.Probing?
    requires Held(s.st, s.processes[slot].rpc.buckets[s.processes[slot].stage.i], uuid)
    ensures OnlyCalls(events) && Timely(now, events)
    ensures var p := s.processes[slot];
            Run(s, events) == System(s.st, s.processes[slot := p.(stage := PostingPolicy(p.stage.i))])
  {
    var p := s.processes[slot];
    var b := p.rpc.buckets[p.stage.i];
    var e := Event(now, Call(slot, Answered([BucketRecord(uuid, b, s.st.buckets[uuid].size)], [], "")));
    events := [e];
    RunOne(s, now, e);
  }

  lemma PutPolicy(s: System, slot: Slot, now: Tick) returns (events: seq<Event>)
    requires s.Busy(slot) && s.processes[slot].stage.PostingPolicy?
    ensures OnlyCalls(events) && Timely(now, events)
    ensures var p := s.processes[slot];
            var b := p.rpc.buckets[p.stage.i];
            Run(s, events) == System(s.st.(policies := s.st.policies[PolicyName(b, p.rpc.account) := PolicyFor(b)]),
                                     s.processes[slot := p.(stage := PostingUser(p.stage.i))])
  {
    var p := s.processes[slot];
    var e, e' := Event(now, Call(slot, PLAIN_ANSWER)), Event(now + 1, Call(slot, PLAIN_ANSWER));
    if PolicyName(p.rpc.buckets[p.stage.i], p.rpc.account) !in s.st.policies {
      events := [e];
      RunOne(s, now, e);
    } else {
      events := [e, e'];
      RunTwo(s, e, e', now);
      assert Step(s, e) == System(s.st, s.processes[slot := p.(stage := PatchingPolicy(p.stage.i))]);
    }
  }

  lemma PutUser(s: System, slot: Slot, now: Tick) returns (events: seq<Event>, keys: KeyPair)
    requires s.Busy(slot) && s.processes[slot].stage.PostingUser?
    ensures OnlyCalls(events) && Timely(now, events)
    ensures var p := s.processes[slot];
            Run(s, events) == System(s.st.(users := s.st.users[p.rpc.account := keys]),
                                     s.processes[slot := p.(stage := PostingGroup(p.stage.i, keys))])
  {
    var p := s.processes[slot];
    var e, e' := Event(now, Call(slot, PLAIN_ANSWER)), Event(now + 1, Call(slot, PLAIN_ANSWER));
    if p.rpc.account !in s.st.users {
      events, keys := [e], KeysAt(now);
      RunOne(s, now, e);
    } else {
      events, keys := [e, e'], KeysAt(now + 1);
      RunTwo(s, e, e', now);
      assert Step(s, e) == System(s.st, s.processes[slot := p.(stage := PatchingUser(p.stage.i))]);
    }
  }

  /** The groups after one has been asked for. */
  function WithGroup(st: State, group: Group, id: Tick): map<Tick, Group> {
    if GroupNamed(st, group.name) then st.groups else st.groups[id := group]
  }

  lemma PutGroup(s: System, slot: Slot, now: Tick) returns (events: seq<Event>)
    requires s.Busy(slot) && s.processes[slot].stage.PostingGroup?
    ensures OnlyCalls(events) && Timely(now, events)
    ensures var p := s.processes[slot];
            Run(s, events) == System(
              s.st.(groups := WithGroup(s.st, GroupFor(p.rpc.buckets[p.stage.i], p.rpc.account), now)),
              s.processes[slot := p.(stage := AfterBucket(p.rpc, p.stage.i, p.stage.keys))])
  {
    var e := Event(now, Call(slot, PLAIN_ANSWER));
    events := [e];
    RunOne(s, now, e);
  }

  /** What all of a Grant's calls for one bucket leave. */
  function Bind(st: State, b: string, a: string, keys: KeyPair, id: Tick): State {
    st.(policies := st.policies[PolicyName(b, a) := PolicyFor(b)],
        users := st.users[a := keys],
        groups := WithGroup(st, GroupFor(b, a), id))
  }

  /** The first three of them. */
  lemma BindUser(s: System, slot: Slot, uuid: Tick, now: Tick) returns (events: seq<Event>, keys: KeyPair)
    requires s.Busy(slot) && s.processes[slot].stage.Probing?
    requires Held(s.st, s.processes[slot].rpc.buckets[s.processes[slot].stage.i], uuid)
    ensures OnlyCalls(events) && Timely(now, events)
    ensures var p := s.processes[slot];
            var b, a := p.rpc.buckets[p.stage.i], p.rpc.account;
            Run(s, events) == System(
              s.st.(policies := s.st.policies[PolicyName(b, a) := PolicyFor(b)], users := s.st.users[a := keys]),
              s.processes[slot := p.(stage := PostingGroup(p.stage.i, keys))])
  {
    var probing := Probe(s, slot, uuid, now);
    var s1, t1 := Run(s, probing), Clock(now, probing);
    var putting := PutPolicy(s1, slot, t1);
    var s2, t2 := Run(s1, putting), Clock(t1, putting);
    var minting;
    minting, keys := PutUser(s2, slot, t2);
    WalkOn(s1, t1, putting, minting);
    WalkOn(s, now, probing, putting + minting);
    events := probing + (putting + minting);
  }

  lemma BindBucket(s: System, slot: Slot, uuid: Tick, now: Tick)
    returns (events: seq<Event>, keys: KeyPair, id: Tick)
    requires s.Busy(slot) && s.processes[slot].stage.Probing?
    requires Held(s.st, s.processes[slot].rpc.buckets[s.processes[slot].stage.i], uuid)
    ensures OnlyCalls(events) && Timely(now, events)
    ensures var p := s.processes[slot];
            Run(s, events) == System(Bind(s.st, p.rpc.buckets[p.stage.i], p.rpc.account, keys, id),
                                     s.processes[slot := p.(stage := AfterBucket(p.rpc, p.stage.i, keys))])
  {
    var binding;
    binding, keys := BindUser(s, slot, uuid, now);
    var s1 := Run(s, binding);
    id := Clock(now, binding);
    var grouping := PutGroup(s1, slot, id);
    WalkOn(s, now, binding, grouping);
    events := binding + grouping;
    GroupNamedAlike(s.st, s1.st, GroupFor(s.processes[slot].rpc.buckets[s.processes[slot].stage.i],
                                          s.processes[slot].rpc.account), id);
  }

  lemma GroupNamedAlike(st: State, st': State, group: Group, id: Tick)
    requires st.groups == st'.groups
    ensures WithGroup(st, group, id) == WithGroup(st', group, id)
  {
  }

  /** An RPC begins in a slot that is free. */
  lemma Start(s: System, rpc: Rpc, now: Tick) returns (events: seq<Event>)
    requires !s.Busy(SlotOf(rpc, 0))
    ensures About(events, SlotOf(rpc, 0))
    ensures Timely(now, events) && Run(s, events) == s.(processes := s.processes[SlotOf(rpc, 0) := Launch(rpc)])
    ensures forall accounts, buckets :: InSlot(SlotOf(rpc, 0), rpc, accounts, buckets) ==>
              InScope(events, accounts, buckets)
  {
    var e := Event(now, Begin(rpc, 0));
    events := [e];
    RunOne(s, now, e);
  }

  /** A Grant of one bucket, uninterrupted. */
  lemma GrantOne(s: System, a: string, b: string, uuid: Tick, now: Tick)
    returns (events: seq<Event>, keys: KeyPair, id: Tick)
    requires !s.Busy(Accessing(a)) && Held(s.st, b, uuid)
    ensures Timely(now, events)
    ensures forall accounts, buckets :: a in accounts && b in buckets ==> InScope(events, accounts, buckets)
    ensures Run(s, events) == System(Bind(s.st, b, a, keys, id),
                                     s.processes[Accessing(a) := Process(Grant(a, [b]), Done(Granted(a, [b], keys)))])
  {
    var rpc := Grant(a, [b]);
    var starting := Start(s, rpc, now);
    var s1, t1 := Run(s, starting), Clock(now, starting);
    var binding;
    binding, keys, id := BindBucket(s1, Accessing(a), uuid, t1);
    WalkOn(s, now, starting, binding);
    events := starting + binding;
    forall accounts, buckets | a in accounts && b in buckets ensures InScope(events, accounts, buckets) {
      assert InSlot(SlotOf(rpc, 0), rpc, accounts, buckets);
      CallsAreInScope(binding, accounts, buckets);
      ScopeOn(starting, binding, accounts, buckets);
    }
  }

  /** A Grant of two buckets, uninterrupted. */
  lemma GrantTwo(s: System, a: string, b: string, b': string, uuid: Tick, uuid': Tick, now: Tick)
    returns (events: seq<Event>, keys: KeyPair, id: Tick, keys': KeyPair, id': Tick)
    requires !s.Busy(Accessing(a)) && Held(s.st, b, uuid) && Held(s.st, b', uuid')
    ensures Timely(now, events)
    ensures forall accounts, buckets :: a in accounts && b in buckets && b' in buckets ==>
              InScope(events, accounts, buckets)
    ensures Run(s, events)
            == System(Bind(Bind(s.st, b, a, keys, id), b', a, keys', id'),
                      s.processes[Accessing(a) := Process(Grant(a, [b, b']), Done(Granted(a, [b, b'], keys')))])
  {
    var rpc, slot := Grant(a, [b, b']), Accessing(a);
    var starting := Start(s, rpc, now);
    var s1, t1 := Run(s, starting), Clock(now, starting);
    var binding;
    binding, keys, id, keys', id' := BindBoth(s1, slot, b, b', uuid, uuid', t1);
    WalkOn(s, now, starting, binding);
    events := starting + binding;
    forall accounts, buckets | a in accounts && b in buckets && b' in buckets
      ensures InScope(events, accounts, buckets)
    {
      assert InSlot(SlotOf(rpc, 0), rpc, accounts, buckets);
      CallsAreInScope(binding, accounts, buckets);
      ScopeOn(starting, binding, accounts, buckets);
    }
  }

  lemma BindBoth(s: System, slot: Slot, b: string, b': string, uuid: Tick, uuid': Tick, now: Tick)
    returns (events: seq<Event>, keys: KeyPair, id: Tick, keys': KeyPair, id': Tick)
    requires slot in s.processes && s.processes[slot].rpc.Grant? && s.processes[slot].rpc.buckets == [b, b']
    requires s.processes[slot].stage == Probing(0) && Held(s.st, b, uuid) && Held(s.st, b', uuid')
    ensures OnlyCalls(events) && Timely(now, events)
    ensures var p := s.processes[slot];
            Run(s, events) == System(Bind(Bind(s.st, b, p.rpc.account, keys, id), b', p.rpc.account, keys', id'),
                                     s.processes[slot := p.(stage := AfterBucket(p.rpc, 1, keys'))])
  {
    var first, second;
    first, keys, id := BindBucket(s, slot, uuid, now);
    var s1, t1 := Run(s, first), Clock(now, first);
    HeldOn(s.st, s1.st, b', uuid');
    second, keys', id' := BindBucket(s1, slot, uuid', t1);
    WalkOn(s, now, first, second);
    events := first + second;
  }

  /** The calls of a Revoke for a bucket the service holds no group for: first the listing, then the deletions. */
  lemma ListNone(s: System, slot: Slot, now: Tick) returns (events: seq<Event>)
    requires s.Busy(slot) && s.processes[slot].stage == ListingGroups(0)
    requires !GroupNamed(s.st, GroupName(s.processes[slot].rpc.buckets[0], s.processes[slot].rpc.account))
    ensures OnlyCalls(events) && About(events, slot) && Timely(now, events)
    ensures Run(s, events) == System(s.st, s.processes[slot := s.processes[slot].(stage := DeletingPolicy(0))])
  {
    var e := Event(now, Call(slot, PLAIN_ANSWER));
    events := [e];
    assert Honest(s.st, NextRequest(s.processes[slot]), PLAIN_ANSWER);
    RunOne(s, now, e);
  }

  lemma DeleteBoth(s: System, slot: Slot, now: Tick) returns (events: seq<Event>)
    requires s.Busy(slot) && s.processes[slot].stage == DeletingPolicy(0) && |s.processes[slot].rpc.buckets| == 1
    ensures OnlyCalls(events) && About(events, slot) && Timely(now, events)
    ensures var p := s.processes[slot];
            Run(s, events) == System(
              s.st.(policies := s.st.policies - {PolicyName(p.rpc.buckets[0], p.rpc.account)},
                    users := s.st.users - {p.rpc.account}),
              s.processes[slot := p.(stage := Done(Revoked))])
  {
    var p := s.processes[slot];
    var e, e' := Event(now, Call(slot, PLAIN_ANSWER)), Event(now + 1, Call(slot, PLAIN_ANSWER));
    events := [e, e'];
    RunTwo(s, e, e', now);
    assert Step(s, e) == System(s.st.(policies := s.st.policies - {PolicyName(p.rpc.buckets[0], p.rpc.account)}),
                                s.processes[slot := p.(stage := DeletingUser(0))]);
  }

  /** A Revoke of such a bucket, uninterrupted. */
  lemma RevokeOne(s: System, a: string, b: string, now: Tick) returns (events: seq<Event>)
    requires !s.Busy(Accessing(a)) && !GroupNamed(s.st, GroupName(b, a))
    ensures About(events, Accessing(a)) && Timely(now, events)
    ensures forall accounts, buckets :: a in accounts && b in buckets ==> InScope(events, accounts, buckets)
    ensures Run(s, events) == System(
              s.st.(policies := s.st.policies - {PolicyName(b, a)}, users := s.st.users - {a}),
              s.processes[Accessing(a) := Process(Revoke(a, [b]), Done(Revoked))])
  {
    var rpc, slot := Revoke(a, [b]), Accessing(a);
    var starting := Start(s, rpc, now);
    var s1, t1 := Run(s, starting), Clock(now, starting);
    var listing := ListNone(s1, slot, t1);
    var s2, t2 := Run(s1, listing), Clock(t1, listing);
    var deleting := DeleteBoth(s2, slot, t2);
    WalkOn(s1, t1, listing, deleting);
    WalkOn(s, now, starting, listing + deleting);
    events := starting + (listing + deleting);
    forall accounts, buckets | a in accounts && b in buckets ensures InScope(events, accounts, buckets) {
      assert InSlot(SlotOf(rpc, 0), rpc, accounts, buckets);
      CallsAreInScope(listing + deleting, accounts, buckets);
      ScopeOn(starting, listing + deleting, accounts, buckets);
    }
  }
}
