/**
 Derived group names that collide: runs in which a Grant succeeds and does not stand, and exactly when there are any.
 */
module Collisions {
  import opened Results
  import opened Errors
  import opened Names
  import opened Ontap
  import opened Rpc
  import opened Slices
  import opened Interleaving
  import opened Walks

  /** An idle driver and a service without COSI groups. */
  ghost predicate Fresh(s: System, now: Tick) {
    s.processes == map[] && forall id | id in s.st.groups :: id < now && !("cosi-" <= s.st.groups[id].name)
  }

  /** A finished Grant keeps its promise: its keys are stored and each of its buckets is bound. */
  ghost predicate Stands(st: State, p: Process) {
    p.rpc.Grant? && p.stage.Done? && p.stage.outcome.Granted? ==>
      && At(st.users, p.rpc.account) == Some(p.stage.outcome.credentials)
      && forall b | b in p.rpc.buckets :: Bound(st, b, p.rpc.account)
  }

  ghost predicate GrantsStand(s: System) {
    forall slot | slot in s.processes :: Stands(s.st, s.processes[slot])
  }

  /** In every run for these accounts and buckets that starts fresh. */
  ghost predicate AlwaysStands(accounts: set<string>, buckets: set<string>) {
    forall s, events, now | Fresh(s, now) && Timely(now, events) && InScope(events, accounts, buckets) ::
      GrantsStand(Run(s, events))
  }

  /** A service that holds one or two buckets and nothing else. */
  function Stocked(b: string, b': string): System {
    System(State(map[0 := Bucket(b, 0, "", false)] + if b == b' then map[] else map[1 := Bucket(b', 0, "", false)],
                 map[], map[], map[], map[]), map[])
  }

  lemma StockedHolds(b: string, b': string)
    ensures Fresh(Stocked(b, b'), 2)
    ensures Held(Stocked(b, b').st, b, 0) && Held(Stocked(b, b').st, b', if b == b' then 0 else 1)
  {
  }

  lemma OneGroupStored(st: State, b: string, a: string, b': string, a': string, keys: KeyPair, keys': KeyPair,
                       id: Tick, id': Tick)
    requires st.groups == map[] && GroupName(b, a) == GroupName(b', a')
    ensures Bind(Bind(st, b, a, keys, id), b', a', keys', id').groups == map[id := GroupFor(b, a)]
  {
    var st1 := Bind(st, b, a, keys, id);
    assert st1.groups == map[id := GroupFor(b, a)];
    assert st1.groups[id].name == GroupName(b', a');
    assert GroupNamed(st1, GroupName(b', a'));
  }

  /** A group that is not the derived one stands in the way of the binding. */
  lemma OtherContentIsUnbound(st: State, b: string, a: string, id: Tick)
    requires id in st.groups && st.groups[id].name == GroupName(b, a) && st.groups[id] != GroupFor(b, a)
    ensures !Bound(st, b, a)
  {
    assert id in Named(st, GroupName(b, a));
  }

  /**
   Two accounts whose group names collide, granted one after the other, every call answered: the second Grant meets the
   conflict, ignores it and succeeds and returns the keys now stored, and its account is in no group at all.
   */
  lemma SecondGrantUnbound(b: string, a: string, b': string, a': string) returns (events: seq<Event>, keys: KeyPair)
    requires a != a' && GroupName(b, a) == GroupName(b', a')
    ensures Timely(2, events)
    ensures forall accounts, buckets :: {a, a'} <= accounts && {b, b'} <= buckets ==> InScope(events, accounts, buckets)
    ensures var t := Run(Stocked(b, b'), events);
            && Accessing(a') in t.processes
            && t.processes[Accessing(a')] == Process(Grant(a', [b']), Done(Granted(a', [b'], keys)))
            && At(t.st.users, a') == Some(keys)
            && !Bound(t.st, b', a')
            && forall id | id in t.st.groups :: a' !in t.st.groups[id].users
  {
    var s := Stocked(b, b');
    StockedHolds(b, b');
    var first, keys0, id := GrantOne(s, a, b, 0, 2);
    var s1, t1 := Run(s, first), Clock(2, first);
    HeldOn(s.st, s1.st, b', if b == b' then 0 else 1);
    var second, id';
    second, keys, id' := GrantOne(s1, a', b', if b == b' then 0 else 1, t1);
    WalkOn(s, 2, first, second);
    events := first + second;
    OneGroupStored(s.st, b, a, b', a', keys0, keys, id, id');
    OtherContentIsUnbound(Run(s, events).st, b', a', id);
    forall accounts, buckets | {a, a'} <= accounts && {b, b'} <= buckets ensures InScope(events, accounts, buckets) {
      assert a in accounts && a' in accounts && b in buckets && b' in buckets;
      ScopeOn(first, second, accounts, buckets);
    }
  }

  /** Two accounts of one bucket, with names of 39 characters that agree in their first 19. */
  lemma UuidGrantUnbound(b: string, a: string, a': string) returns (events: seq<Event>, keys: KeyPair)
    requires |b| == 39 && |a| == 39 && |a'| == 39 && a != a' && Normalize(a)[..19] == Normalize(a')[..19]
    ensures Timely(2, events) && InScope(events, {a, a'}, {b})
    ensures var t := Run(Stocked(b, b), events);
            && Accessing(a') in t.processes
            && t.processes[Accessing(a')] == Process(Grant(a', [b]), Done(Granted(a', [b], keys)))
            && At(t.st.users, a') == Some(keys)
            && !Bound(t.st, b, a')
            && forall id | id in t.st.groups :: a' !in t.st.groups[id].users
  {
    UuidGroupNamesCollideExactly(b, a, a');
    events, keys := SecondGrantUnbound(b, a, b, a');
    assert {b, b} <= {b};
  }

  lemma PoliciesDiffer(b: string, b': string)
    requires b != b'
    ensures PolicyFor(b) != PolicyFor(b')
  {
    assert PolicyFor(b).resources[0] != PolicyFor(b').resources[0];
  }

  /** One of two buckets whose group names collide for an account stays unbound, or is bound and then unbound again. */
  lemma OneBucketUnbound(st: State, b: string, b': string, a: string, keys: KeyPair, keys': KeyPair, id: Tick,
                         id': Tick)
    requires st.groups == map[] && b != b' && GroupName(b, a) == GroupName(b', a)
    ensures var st' := Bind(Bind(st, b, a, keys, id), b', a, keys', id');
            !Bound(st', b, a) || !Bound(st', b', a)
  {
    var st' := Bind(Bind(st, b, a, keys, id), b', a, keys', id');
    OneGroupStored(st, b, a, b', a, keys, keys', id, id');
    PoliciesDiffer(b, b');
    if PolicyName(b, a) != PolicyName(b', a) {
      assert GroupFor(b, a).policies[0] != GroupFor(b', a).policies[0];
      OtherContentIsUnbound(st', b', a, id);
    }
  }

  /** A Grant of two such buckets, every call answered, succeeds and does not stand. */
  lemma TwoBucketsUnbound(b: string, b': string, a: string) returns (events: seq<Event>)
    requires b != b' && GroupName(b, a) == GroupName(b', a)
    ensures Timely(2, events)
    ensures forall accounts, buckets :: a in accounts && {b, b'} <= buckets ==> InScope(events, accounts, buckets)
    ensures !GrantsStand(Run(Stocked(b, b'), events))
  {
    var s := Stocked(b, b');
    StockedHolds(b, b');
    var keys, id, keys', id';
    events, keys, id, keys', id' := GrantTwo(s, a, b, b', 0, 1, 2);
    OneBucketUnbound(s.st, b, b', a, keys, keys', id, id');
    var t := Run(s, events);
    assert [b, b'][0] == b && [b, b'][1] == b' && b in [b, b'] && b' in [b, b'];
    assert !Stands(t.st, t.processes[Accessing(a)]);
    forall accounts, buckets | a in accounts && {b, b'} <= buckets ensures InScope(events, accounts, buckets) {
      assert b in buckets && b' in buckets;
    }
  }

  lemma ApartStands(s: System, events: seq<Event>, accounts: set<string>, buckets: set<string>, now: Tick)
    requires PairsApart(accounts, buckets) && Fresh(s, now) && Timely(now, events) && InScope(events, accounts, buckets)
    ensures GrantsStand(Run(s, events))
  {
    PairsApartNames(accounts, buckets);
    FreshIsSafe(s, accounts, buckets, now);
    RunKeepsSafe(s, events, accounts, buckets, now);
    var t := Run(s, events);
    forall slot | slot in t.processes ensures Stands(t.st, t.processes[slot]) {
      assert t.processes[slot].rpc.Grant? ==> GrantHolds(t.st, t.processes[slot]);
    }
  }

  /**
   Every finished Grant stands in every run, interleaved, failing and cut short as it may be, exactly when no two of the
   (account, bucket) pairs share a group name.
   */
  lemma StandsExactly(accounts: set<string>, buckets: set<string>)
    ensures AlwaysStands(accounts, buckets) <==> PairsApart(accounts, buckets)
  {
    if PairsApart(accounts, buckets) {
      forall s, events, now | Fresh(s, now) && Timely(now, events) && InScope(events, accounts, buckets)
        ensures GrantsStand(Run(s, events))
      {
        ApartStands(s, events, accounts, buckets, now);
      }
    } else {
      var a, a', b, b' :| a in accounts && a' in accounts && b in buckets && b' in buckets
                          && GroupName(b, a) == GroupName(b', a') && !(a == a' && b == b');
      CollisionFails(b, a, b', a', accounts, buckets);
    }
  }

  lemma CollisionFails(b: string, a: string, b': string, a': string, accounts: set<string>, buckets: set<string>)
    requires a in accounts && a' in accounts && b in buckets && b' in buckets
    requires GroupName(b, a) == GroupName(b', a') && (a != a' || b != b')
    ensures !AlwaysStands(accounts, buckets)
  {
    var s := Stocked(b, b');
    StockedHolds(b, b');
    assert {a, a'} <= accounts && {b, b'} <= buckets;
    if a != a' {
      var events, keys := SecondGrantUnbound(b, a, b', a');
      assert !Stands(Run(s, events).st, Run(s, events).processes[Accessing(a')]);
      assert !GrantsStand(Run(s, events));
    } else {
      var events := TwoBucketsUnbound(b, b', a);
      assert !GrantsStand(Run(s, events));
    }
  }

  /** No two accounts share a group name over these buckets; an account's own names may collide. */
  ghost predicate GroupsApart(accounts: set<string>, buckets: set<string>) {
    forall a, a', b, b' | a in accounts && a' in accounts && b in buckets && b' in buckets ::
      GroupName(b, a) == GroupName(b', a') ==> a == a'
  }

  /** A finished Revoke keeps its promise: of its buckets nothing is left to the account, and its user is gone. */
  ghost predicate Cleared(st: State, p: Process) {
    p.rpc.Revoke? && p.stage.Done? && p.stage.outcome.Revoked? ==>
      At(st.users, p.rpc.account) == None && forall b | b in p.rpc.buckets :: Gone(st, b, p.rpc.account)
  }

  ghost predicate RevokesStand(s: System) {
    forall slot | slot in s.processes :: Cleared(s.st, s.processes[slot])
  }

  ghost predicate AlwaysCleared(accounts: set<string>, buckets: set<string>) {
    forall s, events, now | Fresh(s, now) && Timely(now, events) && InScope(events, accounts, buckets) ::
      RevokesStand(Run(s, events))
  }

  lemma GroupsApartNames(accounts: set<string>, buckets: set<string>)
    requires GroupsApart(accounts, buckets)
    ensures AccountsApart(accounts, buckets)
  {
    forall a, a', b, b' | a in accounts && a' in accounts && a != a' && b in buckets && b' in buckets
      ensures PolicyName(b, a) != PolicyName(b', a')
    {
      PolicyNamesFollow(b, a, b', a');
    }
  }

  lemma GroupsApartClears(s: System, events: seq<Event>, accounts: set<string>, buckets: set<string>, now: Tick)
    requires GroupsApart(accounts, buckets)
    requires Fresh(s, now) && Timely(now, events) && InScope(events, accounts, buckets)
    ensures RevokesStand(Run(s, events))
  {
    GroupsApartNames(accounts, buckets);
    RunKeepsTidy(s, events, accounts, buckets, now);
    var t := Run(s, events);
    forall slot | slot in t.processes ensures Cleared(t.st, t.processes[slot]) {
      assert t.processes[slot].rpc.Revoke? ==> RevokeHolds(t.st, t.processes[slot], Clock(now, events));
    }
  }

  /**
   Two accounts whose group names collide, the one revoked and then the other granted: the group the Revoke was to leave
   nothing of is there again.
   */
  lemma RevokeUndone(b: string, a: string, b': string, a': string) returns (events: seq<Event>)
    requires a != a' && GroupName(b, a) == GroupName(b', a')
    ensures Timely(2, events)
    ensures forall accounts, buckets :: {a, a'} <= accounts && {b, b'} <= buckets ==> InScope(events, accounts, buckets)
    ensures var t := Run(Stocked(b, b'), events);
            && Accessing(a) in t.processes
            && t.processes[Accessing(a)] == Process(Revoke(a, [b]), Done(Revoked))
            && !Gone(t.st, b, a)
  {
    var s := Stocked(b, b');
    StockedHolds(b, b');
    var revoking := RevokeOne(s, a, b, 2);
    var s1, t1 := Run(s, revoking), Clock(2, revoking);
    HeldOn(s.st, s1.st, b', if b == b' then 0 else 1);
    var granting, keys, id := GrantOne(s1, a', b', if b == b' then 0 else 1, t1);
    WalkOn(s, 2, revoking, granting);
    events := revoking + granting;
    assert !GroupNamed(s1.st, GroupName(b', a'));
    assert id in Named(Run(s, events).st, GroupName(b, a));
    forall accounts, buckets | {a, a'} <= accounts && {b, b'} <= buckets ensures InScope(events, accounts, buckets) {
      assert a in accounts && a' in accounts && b in buckets && b' in buckets;
      ScopeOn(revoking, granting, accounts, buckets);
    }
  }

  /**
   Every finished Revoke leaves nothing in every run, interleaved, failing and cut short as it may be, exactly when no
   two accounts share a group name. An account's own names may collide.
   */
  lemma ClearedExactly(accounts: set<string>, buckets: set<string>)
    ensures AlwaysCleared(accounts, buckets) <==> GroupsApart(accounts, buckets)
  {
    if GroupsApart(accounts, buckets) {
      forall s, events, now | Fresh(s, now) && Timely(now, events) && InScope(events, accounts, buckets)
        ensures RevokesStand(Run(s, events))
      {
        GroupsApartClears(s, events, accounts, buckets, now);
      }
    } else {
      var a, a', b, b' :| a in accounts && a' in accounts && b in buckets && b' in buckets
                          && GroupName(b, a) == GroupName(b', a') && a != a';
      var s := Stocked(b, b');
      var events := RevokeUndone(b, a, b', a');
      StockedHolds(b, b');
      assert {a, a'} <= accounts && {b, b'} <= buckets;
      assert [b][0] == b && b in [b];
      assert !Cleared(Run(s, events).st, Run(s, events).processes[Accessing(a)]);
    }
  }

  /** A Grant whose last answer is lost fails, and yet the bucket is bound: such are the states retries start from. */
  lemma FailedButBound(b: string, a: string) returns (events: seq<Event>)
    ensures Timely(2, events)
    ensures forall accounts, buckets :: a in accounts && b in buckets ==> InScope(events, accounts, buckets)
    ensures var t := Run(Stocked(b, b), events);
            && Accessing(a) in t.processes && t.processes[Accessing(a)].rpc == Grant(a, [b])
            && t.processes[Accessing(a)].stage.Done? && t.processes[Accessing(a)].stage.outcome.Failed?
            && Bound(t.st, b, a) && a in t.st.users
  {
    var s, rpc, slot := Stocked(b, b), Grant(a, [b]), Accessing(a);
    StockedHolds(b, b);
    var starting := Start(s, rpc, 2);
    var s1, t1 := Run(s, starting), Clock(2, starting);
    var binding, keys := BindUser(s1, slot, 0, t1);
    var s2, t2 := Run(s1, binding), Clock(t1, binding);
    var losing := LoseGroupAnswer(s2, slot, t2);
    WalkOn(s1, t1, binding, losing);
    WalkOn(s, 2, starting, binding + losing);
    events := starting + (binding + losing);
    GroupIsThere(Run(s, events).st, b, a, t2);
    forall accounts, buckets | a in accounts && b in buckets ensures InScope(events, accounts, buckets) {
      assert InSlot(SlotOf(rpc, 0), rpc, accounts, buckets);
      CallsAreInScope(binding + losing, accounts, buckets);
      ScopeOn(starting, binding + losing, accounts, buckets);
    }
  }

  /** The group is added, and nobody hears of it. */
  lemma LoseGroupAnswer(s: System, slot: Slot, now: Tick) returns (events: seq<Event>)
    requires s.Busy(slot) && s.processes[slot].stage.PostingGroup? && s.st.groups == map[]
    ensures OnlyCalls(events) && Timely(now, events)
    ensures var p, t := s.processes[slot], Run(s, events);
            && t.st == s.st.(groups := map[now := GroupFor(p.rpc.buckets[p.stage.i], p.rpc.account)])
            && slot in t.processes && t.processes[slot].rpc == p.rpc
            && t.processes[slot].stage.Done? && t.processes[slot].stage.outcome.Failed?
  {
    var e := Event(now, Call(slot, Unheard(Plain(""))));
    events := [e];
    assert !GroupNamed(s.st, GroupFor(s.processes[slot].rpc.buckets[s.processes[slot].stage.i],
                                      s.processes[slot].rpc.account).name);
    RunOne(s, now, e);
  }

  lemma GroupIsThere(st: State, b: string, a: string, id: Tick)
    requires st.groups == map[id := GroupFor(b, a)] && At(st.policies, PolicyName(b, a)) == Some(PolicyFor(b))
    ensures Bound(st, b, a)
  {
    assert id in Named(st, GroupName(b, a));
  }
}
