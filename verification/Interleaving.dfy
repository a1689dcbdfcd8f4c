/**
 Grant and Revoke RPCs interleaved REST call by REST call: what every step keeps, and what therefore holds
 of every finished RPC, whatever the other RPCs do.
 */
module Interleaving {
  import opened Results
  import opened Names
  import opened Ontap
  import opened Rpc
  import opened Slices

  /** The bucket holds its policy and its group for the account, with exactly the granted content. */
  ghost predicate Bound(st: State, bucket: string, account: string) {
    && At(st.policies, PolicyName(bucket, account)) == Some(PolicyFor(bucket))
    && Named(st, GroupName(bucket, account)) != map[]
    && forall id | id in Named(st, GroupName(bucket, account)) :: st.groups[id] == GroupFor(bucket, account)
  }

  /** Neither policy nor group is left of the account's access to the bucket. */
  ghost predicate Gone(st: State, bucket: string, account: string) {
    && At(st.policies, PolicyName(bucket, account)) == None
    && Named(st, GroupName(bucket, account)) == map[]
  }

  /** Whatever group has a derived name has the derived content: a conflicting group is never patched. */
  ghost predicate WellShaped(st: State, account: string, buckets: set<string>) {
    forall b, id | b in buckets && id in Named(st, GroupName(b, account)) :: st.groups[id] == GroupFor(b, account)
  }

  ghost predicate GoneUpTo(st: State, p: Process, n: nat)
    requires p.rpc.Revoke? && n <= |p.rpc.buckets|
  {
    forall k | 0 <= k < n :: Gone(st, p.rpc.buckets[k], p.rpc.account)
  }

  ghost predicate BoundUpTo(st: State, p: Process, n: nat)
    requires p.rpc.Grant? && n <= |p.rpc.buckets|
  {
    forall k | 0 <= k < n :: Bound(st, p.rpc.buckets[k], p.rpc.account)
  }

  /** What a Revoke has achieved at each of its stages. */
  ghost predicate RevokeHolds(st: State, p: Process, now: Tick)
    requires p.rpc.Revoke?
  {
    var a, bs := p.rpc.account, p.rpc.buckets;
    match p.stage
    case ListingGroups(i) => i < |bs| ==> GoneUpTo(st, p, i)
    case DeletingGroups(i, ids) => i < |bs| ==>
      && GoneUpTo(st, p, i)
      && (forall id | id in Named(st, GroupName(bs[i], a)) :: id in ids)
      && (forall id | id in ids :: id < now && (id in st.groups ==> st.groups[id].name == GroupName(bs[i], a)))
    case DeletingPolicy(i) => i < |bs| ==> GoneUpTo(st, p, i) && Named(st, GroupName(bs[i], a)) == map[]
    case DeletingUser(i) => i < |bs| ==> GoneUpTo(st, p, i + 1)
    case Done(outcome) => outcome.Revoked? ==> GoneUpTo(st, p, |bs|) && At(st.users, a) == None
    case _ => true
  }

  /** What a Grant has achieved at each of its stages. */
  ghost predicate GrantHolds(st: State, p: Process)
    requires p.rpc.Grant?
  {
    var a, bs := p.rpc.account, p.rpc.buckets;
    match p.stage
    case Probing(i) => i < |bs| ==> BoundUpTo(st, p, i)
    case PostingPolicy(i) => i < |bs| ==> BoundUpTo(st, p, i)
    case PatchingPolicy(i) => i < |bs| ==> BoundUpTo(st, p, i) && At(st.policies, PolicyName(bs[i], a)).Some?
    case PostingUser(i) => i < |bs| ==>
      BoundUpTo(st, p, i) && At(st.policies, PolicyName(bs[i], a)) == Some(PolicyFor(bs[i]))
    case PatchingUser(i) => i < |bs| ==>
      BoundUpTo(st, p, i) && At(st.policies, PolicyName(bs[i], a)) == Some(PolicyFor(bs[i])) && At(st.users, a).Some?
    case PostingGroup(i, keys) => i < |bs| ==>
      BoundUpTo(st, p, i) && At(st.policies, PolicyName(bs[i], a)) == Some(PolicyFor(bs[i]))
      && At(st.users, a) == Some(keys)
    case Done(outcome) => outcome.Granted? ==>
      && outcome.accountId == a && outcome.bucketInfos == bs
      && BoundUpTo(st, p, |bs|) && At(st.users, a) == Some(outcome.credentials)
    case _ => true
  }

  /** The slot's RPC is one of this account's, over buckets of the run. */
  ghost predicate AccessOf(rpc: Rpc, account: string, buckets: set<string>) {
    && (rpc.Grant? || rpc.Revoke?)
    && rpc.account == account
    && forall k | 0 <= k < |rpc.buckets| :: rpc.buckets[k] in buckets
  }

  /** A process and the slot it may stand in. */
  ghost predicate InSlot(slot: Slot, rpc: Rpc, accounts: set<string>, buckets: set<string>) {
    match slot
    case Bucketing(_) => rpc.Create? || rpc.Delete?
    case Accessing(a) => a in accounts && AccessOf(rpc, a, buckets)
  }

  /** Every RPC that begins is for the accounts and buckets of the run. */
  ghost predicate InScope(events: seq<Event>, accounts: set<string>, buckets: set<string>) {
    forall i | 0 <= i < |events| && events[i].action.Begin? ::
      var rpc := events[i].action.rpc;
      InSlot(SlotOf(rpc, events[i].action.number), rpc, accounts, buckets)
  }

  /** The invariant of every run: it needs accounts apart from each other, and nothing about an account's own names. */
  ghost predicate Tidy(s: System, accounts: set<string>, buckets: set<string>, now: Tick) {
    && AccountsApart(accounts, buckets)
    && (forall id | id in s.st.groups :: id < now)
    && forall slot | slot in s.processes ::
         && InSlot(slot, s.processes[slot].rpc, accounts, buckets)
         && (s.processes[slot].rpc.Revoke? ==> RevokeHolds(s.st, s.processes[slot], now))
  }

  /** The invariant of runs whose derived names never collide. */
  ghost predicate Safe(s: System, accounts: set<string>, buckets: set<string>, now: Tick) {
    && Tidy(s, accounts, buckets, now)
    && (forall a | a in accounts :: BucketsApart(a, buckets) && WellShaped(s.st, a, buckets))
    && forall slot | slot in s.processes ::
         s.processes[slot].rpc.Grant? ==> GrantHolds(s.st, s.processes[slot])
  }

  /** Where such runs start: an idle driver, a service without COSI groups, and names apart. */
  lemma FreshIsSafe(s: System, accounts: set<string>, buckets: set<string>, now: Tick)
    requires s.processes == map[] && AccountsApart(accounts, buckets)
    requires forall a | a in accounts :: BucketsApart(a, buckets)
    requires forall id | id in s.st.groups :: id < now && !("cosi-" <= s.st.groups[id].name)
    ensures Safe(s, accounts, buckets, now)
  {
    forall a, b | a in accounts && b in buckets
      ensures forall id | id in s.st.groups :: s.st.groups[id].name != GroupName(b, a)
    {
      NamesArePrefixed(b, a);
    }
  }

  /** For a single account, an idle driver is enough. */
  lemma IdleIsTidy(s: System, a: string, buckets: set<string>, now: Tick)
    requires s.processes == map[] && forall id | id in s.st.groups :: id < now
    ensures Tidy(s, {a}, buckets, now)
  {
  }

  /** A running access process asks only for its own account's objects. */
  lemma AsksForItsOwn(st: State, p: Process, a: string, buckets: set<string>, now: Tick)
    requires p.Running() && AccessOf(p.rpc, a, buckets)
    requires p.rpc.Revoke? ==> RevokeHolds(st, p, now)
    ensures Owns(st, NextRequest(p), a, buckets)
  {
    match p.stage
    case DeletingGroups(i, ids) =>
      assert ids[0] in ids;
      assert p.rpc.buckets[i] in buckets;
    case _ =>
  }

  /** What a process has achieved depends on its account's slice alone. */
  lemma RevokeHoldsInSameSlice(st: State, st': State, p: Process, a: string, buckets: set<string>, now: Tick,
                               now': Tick)
    requires AccessOf(p.rpc, a, buckets) && p.rpc.Revoke? && SameSlice(st, st', a, buckets) && now <= now'
    requires forall id | id in st'.groups && id < now :: id in st.groups
    requires RevokeHolds(st, p, now)
    ensures RevokeHolds(st', p, now')
  {
    match p.stage
    case DeletingGroups(i, ids) =>
      if i < |p.rpc.buckets| {
        var name := GroupName(p.rpc.buckets[i], a);
        assert Named(st, name) == Named(st', name);
        forall id | id in ids && id in st'.groups ensures st'.groups[id].name == name {
          assert id in Named(st, name);
        }
      }
    case _ =>
  }

  lemma GrantHoldsInSameSlice(st: State, st': State, p: Process, a: string, buckets: set<string>)
    requires AccessOf(p.rpc, a, buckets) && p.rpc.Grant? && SameSlice(st, st', a, buckets)
    requires GrantHolds(st, p)
    ensures GrantHolds(st', p)
  {
    forall b | b in buckets && Bound(st, b, a) ensures Bound(st', b, a) {
      assert Named(st, GroupName(b, a)) == Named(st', GroupName(b, a));
      forall id | id in Named(st', GroupName(b, a)) ensures st'.groups[id] == GroupFor(b, a) {
        assert Named(st', GroupName(b, a))[id] == Named(st, GroupName(b, a))[id];
      }
    }
  }

  lemma {:induction false} ExactGroupsExactly(records: seq<GroupRecord>, name: string, id: Tick)
    ensures id in ExactGroups(records, name) <==> GroupRecord(id, name) in records
  {
    if records != [] {
      ExactGroupsExactly(records[1..], name, id);
      assert records == [records[0]] + records[1..];
    }
  }

  /** An honest listing gives exactly the stored groups of the name. */
  lemma HonestListing(st: State, name: string, fate: Fate)
    requires fate.Answered? && Honest(st, ListGroups(name), fate)
    ensures forall id :: id in ExactGroups(fate.groups, name) <==> id in Named(st, name)
  {
    forall id ensures id in ExactGroups(fate.groups, name) <==> id in Named(st, name) {
      ExactGroupsExactly(fate.groups, name, id);
    }
  }

  /** A request that adds no policy and no group leaves gone what is gone. */
  lemma GoneKept(st: State, req: Request, tick: Tick, p: Process, n: nat)
    requires p.rpc.Revoke? && n <= |p.rpc.buckets| && GoneUpTo(st, p, n)
    requires tick !in st.groups
    requires req.ListGroups? || req.DeleteGroup? || req.DeletePolicy? || req.DeleteUser?
    ensures GoneUpTo(Apply(st, req, tick), p, n)
  {
    forall k | 0 <= k < n ensures Gone(Apply(st, req, tick), p.rpc.buckets[k], p.rpc.account) {
      assert Gone(st, p.rpc.buckets[k], p.rpc.account);
      NamedAfter(st, req, tick, GroupName(p.rpc.buckets[k], p.rpc.account));
    }
  }

  lemma ListedGroupsHold(st: State, p: Process, i: nat, fate: Fate, now: Tick, tick: Tick)
    requires p.Running() && p.stage == ListingGroups(i) && RevokeHolds(st, p, now) && now <= tick
    requires forall id | id in st.groups :: id < now
    ensures var (st', r) := Serve(st, NextRequest(p), fate, tick);
            RevokeHolds(st', Resume(p, r), tick + 1)
  {
    var (st', r) := Serve(st, NextRequest(p), fate, tick);
    var name := GroupName(p.rpc.buckets[i], p.rpc.account);
    assert st' == st;
    if !r.Fault? {
      HonestListing(st, name, fate);
      var ids := ExactGroups(fate.groups, name);
      if ids == [] {
        assert forall id :: id !in Named(st, name);
      } else {
        assert forall id | id in ids :: id in Named(st, name);
      }
    }
  }

  lemma DeletedGroupsHold(st: State, p: Process, i: nat, ids: seq<Tick>, fate: Fate, now: Tick, tick: Tick)
    requires p.Running() && p.stage == DeletingGroups(i, ids) && RevokeHolds(st, p, now) && now <= tick
    requires forall id | id in st.groups :: id < now
    ensures var (st', r) := Serve(st, NextRequest(p), fate, tick);
            RevokeHolds(st', Resume(p, r), tick + 1)
  {
    var (st', r) := Serve(st, NextRequest(p), fate, tick);
    var name := GroupName(p.rpc.buckets[i], p.rpc.account);
    if !Resume(p, r).stage.Done? {
      assert st' == st.(groups := st.groups - {ids[0]});
      NamedAfterRemoving(st, ids[0], name);
      GoneKept(st, NextRequest(p), tick, p, i);
      assert ids == [ids[0]] + ids[1..];
      assert forall id | id in ids[1..] :: id in ids;
      assert forall id | id in Named(st', name) :: id in Named(st, name) && id != ids[0];
      if ids[1..] == [] {
        assert forall id :: id !in Named(st', name);
      }
    }
  }

  lemma DeletedPolicyHolds(st: State, p: Process, i: nat, fate: Fate, now: Tick, tick: Tick)
    requires p.Running() && p.stage == DeletingPolicy(i) && RevokeHolds(st, p, now) && now <= tick
    requires forall id | id in st.groups :: id < now
    ensures var (st', r) := Serve(st, NextRequest(p), fate, tick);
            RevokeHolds(st', Resume(p, r), tick + 1)
  {
    var (st', r) := Serve(st, NextRequest(p), fate, tick);
    if !Resume(p, r).stage.Done? {
      var b, a := p.rpc.buckets[i], p.rpc.account;
      assert st' == st.(policies := st.policies - {PolicyName(b, a)});
      GoneKept(st, NextRequest(p), tick, p, i);
      NamedAfter(st, NextRequest(p), tick, GroupName(b, a));
      assert Gone(st', b, a);
    }
  }

  lemma DeletedUserHolds(st: State, p: Process, i: nat, fate: Fate, now: Tick, tick: Tick)
    requires p.Running() && p.stage == DeletingUser(i) && RevokeHolds(st, p, now) && now <= tick
    requires forall id | id in st.groups :: id < now
    ensures var (st', r) := Serve(st, NextRequest(p), fate, tick);
            RevokeHolds(st', Resume(p, r), tick + 1)
  {
    var (st', r) := Serve(st, NextRequest(p), fate, tick);
    if !Resume(p, r).stage.Done? || Resume(p, r).stage.outcome.Revoked? {
      assert st' == st.(users := st.users - {p.rpc.account});
      GoneKept(st, NextRequest(p), tick, p, i + 1);
    }
  }

  /** Every call of a Revoke, whatever becomes of it, takes it to what its next stage promises. */
  lemma RevokeStepHolds(st: State, p: Process, fate: Fate, now: Tick, tick: Tick)
    requires p.Running() && p.rpc.Revoke? && RevokeHolds(st, p, now) && now <= tick
    requires forall id | id in st.groups :: id < now
    ensures var (st', r) := Serve(st, NextRequest(p), fate, tick);
            RevokeHolds(st', Resume(p, r), tick + 1)
  {
    match p.stage
    case ListingGroups(i) => ListedGroupsHold(st, p, i, fate, now, tick);
    case DeletingGroups(i, ids) => DeletedGroupsHold(st, p, i, ids, fate, now, tick);
    case DeletingPolicy(i) => DeletedPolicyHolds(st, p, i, fate, now, tick);
    case DeletingUser(i) => DeletedUserHolds(st, p, i, fate, now, tick);
  }

  /** The requests of a Grant for a bucket. */
  ghost predicate Grants(req: Request, bucket: string, account: string) {
    match req
    case ListBuckets(_) => true
    case PostPolicy(name, policy) => name == PolicyName(bucket, account) && policy == PolicyFor(bucket)
    case PatchPolicy(name, policy) => name == PolicyName(bucket, account) && policy == PolicyFor(bucket)
    case PostUser(name) => name == account
    case PatchUser(name) => name == account
    case PostGroup(group) => group == GroupFor(bucket, account)
    case _ => false
  }

  /** Granting one bucket leaves the account's other bindings, and the shape of its groups, as they are. */
  lemma BoundKept(st: State, req: Request, tick: Tick, bucket: string, other: string, a: string, buckets: set<string>)
    requires BucketsApart(a, buckets) && bucket in buckets && other in buckets
    requires Grants(req, bucket, a) && tick !in st.groups
    ensures Bound(st, other, a) ==> Bound(Apply(st, req, tick), other, a)
  {
    NamedAfter(st, req, tick, GroupName(other, a));
  }

  lemma ShapeKept(st: State, req: Request, tick: Tick, bucket: string, a: string, buckets: set<string>)
    requires BucketsApart(a, buckets) && bucket in buckets && WellShaped(st, a, buckets)
    requires Grants(req, bucket, a) && tick !in st.groups
    ensures WellShaped(Apply(st, req, tick), a, buckets)
  {
    forall b, id | b in buckets && id in Named(Apply(st, req, tick), GroupName(b, a))
      ensures Apply(st, req, tick).groups[id] == GroupFor(b, a)
    {
      NamedAfter(st, req, tick, GroupName(b, a));
      if id in st.groups {
        assert id in Named(st, GroupName(b, a));
      }
    }
  }

  lemma BoundUpToKept(st: State, req: Request, tick: Tick, p: Process, n: nat, bucket: string, a: string,
                      buckets: set<string>)
    requires p.rpc.Grant? && AccessOf(p.rpc, a, buckets) && n <= |p.rpc.buckets| && BoundUpTo(st, p, n)
    requires BucketsApart(a, buckets) && bucket in buckets && Grants(req, bucket, a) && tick !in st.groups
    ensures BoundUpTo(Apply(st, req, tick), p, n)
  {
    forall k | 0 <= k < n ensures Bound(Apply(st, req, tick), p.rpc.buckets[k], a) {
      assert Bound(st, p.rpc.buckets[k], p.rpc.account);
      BoundKept(st, req, tick, bucket, p.rpc.buckets[k], a, buckets);
    }
  }

  lemma PolicyPutHolds(st: State, p: Process, i: nat, fate: Fate, tick: Tick, a: string, buckets: set<string>)
    requires p.Running() && (p.stage == PostingPolicy(i) || p.stage == PatchingPolicy(i)) && GrantHolds(st, p)
    requires AccessOf(p.rpc, a, buckets) && BucketsApart(a, buckets) && tick !in st.groups
    ensures var (st', r) := Serve(st, NextRequest(p), fate, tick);
            GrantHolds(st', Resume(p, r))
  {
    var (st', r) := Serve(st, NextRequest(p), fate, tick);
    if !Resume(p, r).stage.Done? {
      assert st' == Apply(st, NextRequest(p), tick);
      BoundUpToKept(st, NextRequest(p), tick, p, i, p.rpc.buckets[i], a, buckets);
    }
  }

  lemma UserPutHolds(st: State, p: Process, i: nat, fate: Fate, tick: Tick, a: string, buckets: set<string>)
    requires p.Running() && (p.stage == PostingUser(i) || p.stage == PatchingUser(i)) && GrantHolds(st, p)
    requires AccessOf(p.rpc, a, buckets) && BucketsApart(a, buckets) && tick !in st.groups
    ensures var (st', r) := Serve(st, NextRequest(p), fate, tick);
            GrantHolds(st', Resume(p, r))
  {
    var (st', r) := Serve(st, NextRequest(p), fate, tick);
    if !Resume(p, r).stage.Done? {
      assert st' == Apply(st, NextRequest(p), tick);
      BoundUpToKept(st, NextRequest(p), tick, p, i, p.rpc.buckets[i], a, buckets);
    }
  }

  /** Once the group is asked for, the bucket is bound: by the new group, or by the one in conflict. */
  lemma GroupBinds(st: State, tick: Tick, b: string, a: string, buckets: set<string>)
    requires b in buckets && WellShaped(st, a, buckets) && tick !in st.groups
    requires At(st.policies, PolicyName(b, a)) == Some(PolicyFor(b))
    ensures Bound(Apply(st, PostGroup(GroupFor(b, a)), tick), b, a)
  {
    var st' := Apply(st, PostGroup(GroupFor(b, a)), tick);
    NamedAfter(st, PostGroup(GroupFor(b, a)), tick, GroupName(b, a));
    if Named(st, GroupName(b, a)) == map[] {
      assert tick in Named(st', GroupName(b, a));
    } else {
      NamedIsGroupNamed(st, GroupName(b, a));
      assert st' == st;
    }
  }

  lemma GroupCallBinds(st: State, tick: Tick, p: Process, i: nat, a: string, buckets: set<string>)
    requires p.rpc.Grant? && AccessOf(p.rpc, a, buckets) && i < |p.rpc.buckets| && BoundUpTo(st, p, i)
    requires BucketsApart(a, buckets) && WellShaped(st, a, buckets) && tick !in st.groups
    requires At(st.policies, PolicyName(p.rpc.buckets[i], a)) == Some(PolicyFor(p.rpc.buckets[i]))
    ensures var st' := Apply(st, PostGroup(GroupFor(p.rpc.buckets[i], a)), tick);
            BoundUpTo(st', p, i + 1) && st'.users == st.users
  {
    var b := p.rpc.buckets[i];
    BoundUpToKept(st, PostGroup(GroupFor(b, a)), tick, p, i, b, a, buckets);
    GroupBinds(st, tick, b, a, buckets);
  }

  lemma GroupPutHolds(st: State, p: Process, i: nat, keys: KeyPair, fate: Fate, tick: Tick, a: string,
                      buckets: set<string>)
    requires p.Running() && p.stage == PostingGroup(i, keys) && GrantHolds(st, p)
    requires AccessOf(p.rpc, a, buckets) && BucketsApart(a, buckets) && WellShaped(st, a, buckets) && tick !in st.groups
    ensures var (st', r) := Serve(st, NextRequest(p), fate, tick);
            GrantHolds(st', Resume(p, r))
  {
    var (st', r) := Serve(st, NextRequest(p), fate, tick);
    var q := Resume(p, r);
    if !q.stage.Done? || q.stage.outcome.Granted? {
      assert st' == Apply(st, NextRequest(p), tick);
      GroupCallBinds(st, tick, p, i, a, buckets);
    }
  }

  /** Each call of a Grant is for one of its buckets. */
  lemma GrantsItsBucket(p: Process, a: string, buckets: set<string>) returns (b: string)
    requires p.Running() && p.rpc.Grant? && AccessOf(p.rpc, a, buckets)
    ensures b in buckets && Grants(NextRequest(p), b, a)
  {
    b := p.rpc.buckets[p.stage.i];
  }

  lemma GrantKeepsShape(st: State, p: Process, fate: Fate, tick: Tick, a: string, buckets: set<string>)
    requires p.Running() && p.rpc.Grant?
    requires AccessOf(p.rpc, a, buckets) && BucketsApart(a, buckets) && WellShaped(st, a, buckets) && tick !in st.groups
    ensures WellShaped(Serve(st, NextRequest(p), fate, tick).0, a, buckets)
  {
    var b := GrantsItsBucket(p, a, buckets);
    ShapeKept(st, NextRequest(p), tick, b, a, buckets);
  }

  /** Every call of a Grant, whatever becomes of it, takes it to what its next stage promises. */
  lemma GrantStepHolds(st: State, p: Process, fate: Fate, tick: Tick, a: string, buckets: set<string>)
    requires p.Running() && p.rpc.Grant? && GrantHolds(st, p)
    requires AccessOf(p.rpc, a, buckets) && BucketsApart(a, buckets) && WellShaped(st, a, buckets) && tick !in st.groups
    ensures var (st', r) := Serve(st, NextRequest(p), fate, tick);
            GrantHolds(st', Resume(p, r))
  {
    match p.stage
    case Probing(i) =>
    case PostingPolicy(i) => PolicyPutHolds(st, p, i, fate, tick, a, buckets);
    case PatchingPolicy(i) => PolicyPutHolds(st, p, i, fate, tick, a, buckets);
    case PostingUser(i) => UserPutHolds(st, p, i, fate, tick, a, buckets);
    case PatchingUser(i) => UserPutHolds(st, p, i, fate, tick, a, buckets);
    case PostingGroup(i, keys) => GroupPutHolds(st, p, i, keys, fate, tick, a, buckets);
  }

  /** The event begins an RPC in scope, if it begins one. */
  ghost predicate Scoped(e: Event, accounts: set<string>, buckets: set<string>) {
    e.action.Begin? ==> InSlot(SlotOf(e.action.rpc, e.action.number), e.action.rpc, accounts, buckets)
  }

  /** A call by one slot's process leaves every other account's slice as it is. */
  lemma CallKeepsOthers(s: System, slot: Slot, fate: Fate, tick: Tick, other: string,
                        accounts: set<string>, buckets: set<string>, now: Tick)
    requires Tidy(s, accounts, buckets, now) && now <= tick && s.Busy(slot)
    requires other in accounts && slot != Accessing(other)
    ensures SameSlice(s.st, Serve(s.st, NextRequest(s.processes[slot]), fate, tick).0, other, buckets)
  {
    var p := s.processes[slot];
    match slot
    case Bucketing(_) =>
      BucketRequestKeepsSlices(s.st, NextRequest(p), fate, tick);
    case Accessing(a) =>
      AsksForItsOwn(s.st, p, a, buckets, now);
      OthersSliceKept(s.st, NextRequest(p), fate, tick, a, other, accounts, buckets);
  }

  /** Group ids stay below the clock, and no old id comes back. */
  lemma ServeKeepsIds(st: State, req: Request, fate: Fate, now: Tick, tick: Tick)
    requires now <= tick && forall id | id in st.groups :: id < now
    ensures forall id | id in Serve(st, req, fate, tick).0.groups :: id < tick + 1 && (id < now ==> id in st.groups)
  {
  }

  lemma CallKeepsTidy(s: System, slot: Slot, fate: Fate, tick: Tick, accounts: set<string>, buckets: set<string>,
                      now: Tick)
    requires Tidy(s, accounts, buckets, now) && now <= tick && s.Busy(slot)
    ensures Tidy(Step(s, Event(tick, Call(slot, fate))), accounts, buckets, tick + 1)
  {
    var p := s.processes[slot];
    var (st', r) := Serve(s.st, NextRequest(p), fate, tick);
    var q := Resume(p, r);
    ServeKeepsIds(s.st, NextRequest(p), fate, now, tick);
    if p.rpc.Revoke? {
      RevokeStepHolds(s.st, p, fate, now, tick);
    }
    forall other | other in s.processes && other != slot && s.processes[other].rpc.Revoke?
      ensures RevokeHolds(st', s.processes[other], tick + 1)
    {
      var a := s.processes[other].rpc.account;
      CallKeepsOthers(s, slot, fate, tick, a, accounts, buckets, now);
      RevokeHoldsInSameSlice(s.st, st', s.processes[other], a, buckets, now, tick + 1);
    }
  }

  lemma RevokeHoldsElsewhere(st: State, st': State, p: Process, now: Tick, now': Tick)
    requires p.rpc.Revoke? && RevokeHolds(st, p, now) && now <= now'
    requires st'.policies == st.policies && st'.users == st.users && st'.groups == st.groups
    ensures RevokeHolds(st', p, now')
  {
    forall name ensures Named(st', name) == Named(st, name) {
    }
  }

  /** Events other than a running process's call change no policy, user or group, and no running process. */
  lemma OtherEventsChangeLittle(s: System, e: Event)
    requires e.action.Call? ==> !s.Busy(e.action.slot)
    ensures var s' := Step(s, e);
            && s'.st.policies == s.st.policies && s'.st.users == s.st.users && s'.st.groups == s.st.groups
            && forall slot | slot in s'.processes ::
                 || (slot in s.processes && s'.processes[slot] == s.processes[slot])
                 || (e.action.Begin? && slot == SlotOf(e.action.rpc, e.action.number)
                     && s'.processes[slot] == Launch(e.action.rpc))
  {
  }

  /** Every event keeps a tidy system tidy. */
  lemma StepKeepsTidy(s: System, e: Event, accounts: set<string>, buckets: set<string>, now: Tick)
    requires Tidy(s, accounts, buckets, now) && now <= e.tick && Scoped(e, accounts, buckets)
    ensures Tidy(Step(s, e), accounts, buckets, e.tick + 1)
  {
    if e.action.Call? && s.Busy(e.action.slot) {
      CallKeepsTidy(s, e.action.slot, e.action.fate, e.tick, accounts, buckets, now);
    } else {
      OtherEventKeepsTidy(s, Step(s, e), e, accounts, buckets, now);
    }
  }

  lemma OtherEventKeepsTidy(s: System, s': System, e: Event, accounts: set<string>, buckets: set<string>, now: Tick)
    requires Tidy(s, accounts, buckets, now) && now <= e.tick && Scoped(e, accounts, buckets)
    requires s' == Step(s, e) && (e.action.Call? ==> !s.Busy(e.action.slot))
    ensures Tidy(s', accounts, buckets, e.tick + 1)
  {
    OtherEventsChangeLittle(s, e);
    forall slot | slot in s'.processes && s'.processes[slot].rpc.Revoke?
      ensures RevokeHolds(s'.st, s'.processes[slot], e.tick + 1)
    {
      if slot in s.processes && s'.processes[slot] == s.processes[slot] {
        RevokeHoldsElsewhere(s.st, s'.st, s.processes[slot], now, e.tick + 1);
      } else {
        LaunchedRevokeHolds(s'.st, e.action.rpc, e.tick + 1);
      }
    }
  }

  lemma LaunchedRevokeHolds(st: State, rpc: Rpc, now: Tick)
    requires rpc.Revoke?
    ensures RevokeHolds(st, Launch(rpc), now)
  {
  }

  lemma CallKeepsSafe(s: System, slot: Slot, fate: Fate, tick: Tick, accounts: set<string>, buckets: set<string>,
                      now: Tick)
    requires Safe(s, accounts, buckets, now) && now <= tick && s.Busy(slot)
    ensures Safe(Step(s, Event(tick, Call(slot, fate))), accounts, buckets, tick + 1)
  {
    var p := s.processes[slot];
    var (st', r) := Serve(s.st, NextRequest(p), fate, tick);
    CallKeepsTidy(s, slot, fate, tick, accounts, buckets, now);
    forall a | a in accounts
      ensures WellShaped(st', a, buckets)
    {
      if slot == Accessing(a) {
        OwnShapeKept(s, a, fate, tick, accounts, buckets, now);
      } else {
        CallKeepsOthers(s, slot, fate, tick, a, accounts, buckets, now);
        ShapeInSameSlice(s.st, st', a, buckets);
      }
    }
    if p.rpc.Grant? {
      GrantStepHolds(s.st, p, fate, tick, p.rpc.account, buckets);
    }
    forall other | other in s.processes && other != slot && s.processes[other].rpc.Grant?
      ensures GrantHolds(st', s.processes[other])
    {
      var a := s.processes[other].rpc.account;
      CallKeepsOthers(s, slot, fate, tick, a, accounts, buckets, now);
      GrantHoldsInSameSlice(s.st, st', s.processes[other], a, buckets);
    }
  }

  lemma ShapeInSameSlice(st: State, st': State, a: string, buckets: set<string>)
    requires WellShaped(st, a, buckets) && SameSlice(st, st', a, buckets)
    ensures WellShaped(st', a, buckets)
  {
    forall b, id | b in buckets && id in Named(st', GroupName(b, a)) ensures st'.groups[id] == GroupFor(b, a) {
      assert Named(st', GroupName(b, a)) == Named(st, GroupName(b, a));
      assert Named(st', GroupName(b, a))[id] == Named(st, GroupName(b, a))[id];
    }
  }

  lemma OwnShapeKept(s: System, a: string, fate: Fate, tick: Tick, accounts: set<string>, buckets: set<string>,
                     now: Tick)
    requires Safe(s, accounts, buckets, now) && now <= tick && s.Busy(Accessing(a)) && a in accounts
    ensures WellShaped(Serve(s.st, NextRequest(s.processes[Accessing(a)]), fate, tick).0, a, buckets)
  {
    var p := s.processes[Accessing(a)];
    if p.rpc.Grant? {
      GrantKeepsShape(s.st, p, fate, tick, a, buckets);
    } else {
      RevokingKeepsShape(s.st, NextRequest(p), fate, tick, a, buckets);
    }
  }

  lemma RevokingKeepsShape(st: State, req: Request, fate: Fate, tick: Tick, a: string, buckets: set<string>)
    requires WellShaped(st, a, buckets)
    requires req.ListGroups? || req.DeleteGroup? || req.DeletePolicy? || req.DeleteUser?
    ensures WellShaped(Serve(st, req, fate, tick).0, a, buckets)
  {
    var st' := Serve(st, req, fate, tick).0;
    forall b, id | b in buckets && id in Named(st', GroupName(b, a)) ensures st'.groups[id] == GroupFor(b, a) {
      assert id in Named(st, GroupName(b, a));
    }
  }

  lemma GrantHoldsElsewhere(st: State, st': State, p: Process)
    requires p.rpc.Grant? && GrantHolds(st, p)
    requires st'.policies == st.policies && st'.users == st.users && st'.groups == st.groups
    ensures GrantHolds(st', p)
  {
    forall name ensures Named(st', name) == Named(st, name) {
    }
  }

  lemma ShapeElsewhere(st: State, st': State, a: string, buckets: set<string>)
    requires WellShaped(st, a, buckets) && st'.groups == st.groups
    ensures WellShaped(st', a, buckets)
  {
    forall b, id | b in buckets && id in Named(st', GroupName(b, a)) ensures st'.groups[id] == GroupFor(b, a) {
      assert id in Named(st, GroupName(b, a));
    }
  }

  /** Every event keeps a safe system safe. */
  lemma StepKeepsSafe(s: System, e: Event, accounts: set<string>, buckets: set<string>, now: Tick)
    requires Safe(s, accounts, buckets, now) && now <= e.tick && Scoped(e, accounts, buckets)
    ensures Safe(Step(s, e), accounts, buckets, e.tick + 1)
  {
    if e.action.Call? && s.Busy(e.action.slot) {
      CallKeepsSafe(s, e.action.slot, e.action.fate, e.tick, accounts, buckets, now);
    } else {
      OtherEventKeepsSafe(s, Step(s, e), e, accounts, buckets, now);
    }
  }

  lemma OtherEventKeepsSafe(s: System, s': System, e: Event, accounts: set<string>, buckets: set<string>, now: Tick)
    requires Safe(s, accounts, buckets, now) && now <= e.tick && Scoped(e, accounts, buckets)
    requires s' == Step(s, e) && (e.action.Call? ==> !s.Busy(e.action.slot))
    ensures Safe(s', accounts, buckets, e.tick + 1)
  {
    OtherEventsChangeLittle(s, e);
    StepKeepsTidy(s, e, accounts, buckets, now);
    forall a | a in accounts ensures WellShaped(s'.st, a, buckets) {
      ShapeElsewhere(s.st, s'.st, a, buckets);
    }
    forall slot | slot in s'.processes && s'.processes[slot].rpc.Grant? ensures GrantHolds(s'.st, s'.processes[slot]) {
      if slot in s.processes && s'.processes[slot] == s.processes[slot] {
        GrantHoldsElsewhere(s.st, s'.st, s.processes[slot]);
      } else {
        LaunchedGrantHolds(s'.st, e.action.rpc);
      }
    }
  }

  lemma LaunchedGrantHolds(st: State, rpc: Rpc)
    requires rpc.Grant?
    ensures GrantHolds(st, Launch(rpc))
  {
  }

  /** So does every run. */
  lemma {:induction false} RunKeepsTidy(s: System, events: seq<Event>, accounts: set<string>, buckets: set<string>,
                                        now: Tick)
    requires Tidy(s, accounts, buckets, now) && Timely(now, events) && InScope(events, accounts, buckets)
    ensures Tidy(Run(s, events), accounts, buckets, Clock(now, events))
    decreases |events|
  {
    if events != [] {
      assert Scoped(events[0], accounts, buckets);
      StepKeepsTidy(s, events[0], accounts, buckets, now);
      RunKeepsTidy(Step(s, events[0]), events[1..], accounts, buckets, events[0].tick + 1);
    }
  }

  lemma {:induction false} RunKeepsSafe(s: System, events: seq<Event>, accounts: set<string>, buckets: set<string>,
                                        now: Tick)
    requires Safe(s, accounts, buckets, now) && Timely(now, events) && InScope(events, accounts, buckets)
    ensures Safe(Run(s, events), accounts, buckets, Clock(now, events))
    decreases |events|
  {
    if events != [] {
      assert Scoped(events[0], accounts, buckets);
      StepKeepsSafe(s, events[0], accounts, buckets, now);
      RunKeepsSafe(Step(s, events[0]), events[1..], accounts, buckets, events[0].tick + 1);
    }
  }

  /**
   However the calls of any number of RPCs are interleaved, delayed, lost or cut short: an account's finished Grant
   stands with exactly its content for each requested bucket, its response lists those buckets in order and carries the
   keys now stored, and after a finished Revoke nothing of them is left.
   */
  lemma InterleavingSafety(s: System, events: seq<Event>, accounts: set<string>, buckets: set<string>, now: Tick,
                           a: string)
    requires Safe(s, accounts, buckets, now) && Timely(now, events) && InScope(events, accounts, buckets)
    requires Accessing(a) in Run(s, events).processes
    requires Run(s, events).processes[Accessing(a)].stage.Done?
    ensures var st := Run(s, events).st;
            var Process(rpc, Done(outcome)) := Run(s, events).processes[Accessing(a)];
            && (rpc.Grant? && outcome.Granted? ==>
                  && outcome.accountId == a && outcome.bucketInfos == rpc.buckets
                  && a in st.users && st.users[a] == outcome.credentials
                  && forall b | b in rpc.buckets :: Bound(st, b, a))
            && (rpc.Revoke? && outcome.Revoked? ==>
                  a !in st.users && forall b | b in rpc.buckets :: Gone(st, b, a))
  {
    RunKeepsSafe(s, events, accounts, buckets, now);
    var t := Run(s, events);
    var p := t.processes[Accessing(a)];
    assert p.rpc.Grant? ==> GrantHolds(t.st, p);
    assert p.rpc.Revoke? ==> RevokeHolds(t.st, p, Clock(now, events));
  }
}
