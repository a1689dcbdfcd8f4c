/**
 Referential integrity when access RPCs interleave: which accounts may be served side by side without a COSI group ever
 naming a policy that is missing, and a run that shows it for any two that may not.
 */
module Linkage {
  import opened Names
  import opened Ontap
  import opened Rpc
  import opened Slices
  import opened Interleaving
  import opened Integrity
  import opened Walks
  import opened Collisions

  /** No two accounts share a policy name over these buckets; an account's own names may collide. */
  ghost predicate PoliciesApart(accounts: set<string>, buckets: set<string>) {
    forall a, a', b, b' | a in accounts && a' in accounts && b in buckets && b' in buckets ::
      PolicyName(b, a) == PolicyName(b', a') ==> a == a'
  }

  /** A COSI group that names this policy. */
  ghost predicate Refers(st: State, id: Tick, policy: string) {
    id in st.groups && Made(st.groups[id]) && st.groups[id].policies[0] == policy
  }

  /** A Revoke still has to delete every group that names the policy it is about to delete. */
  ghost predicate Clears(st: State, p: Process)
    requires p.Running() && p.rpc.Revoke?
  {
    match p.stage
    case DeletingGroups(i, ids) =>
      forall id | Refers(st, id, PolicyName(p.rpc.buckets[i], p.rpc.account)) :: id in ids
    case DeletingPolicy(i) => forall id :: !Refers(st, id, PolicyName(p.rpc.buckets[i], p.rpc.account))
    case _ => true
  }

  ghost predicate Ready(st: State, p: Process)
    requires p.Running()
  {
    (p.rpc.Grant? ==> PolicyThere(st, p)) && (p.rpc.Revoke? ==> Clears(st, p))
  }

  /** The invariant of every run whose accounts share no policy name. */
  ghost predicate Interlocked(s: System, accounts: set<string>, buckets: set<string>) {
    && Linked(s.st)
    && forall slot | slot in s.processes ::
         && InSlot(slot, s.processes[slot].rpc, accounts, buckets)
         && (s.processes[slot].Running() ==> Ready(s.st, s.processes[slot]))
  }

  /** A made group that names the policy has the name the Revoke looks for. */
  lemma ReferringIsNamed(st: State, id: Tick, b: string, a: string)
    requires Refers(st, id, PolicyName(b, a))
    ensures id in Named(st, GroupName(b, a))
  {
    var b', a' :| st.groups[id] == GroupFor(b', a');
    EqualPoliciesEqualGroups(b', a', b, a);
  }

  lemma ListedClears(st: State, p: Process, i: nat, fate: Fate, tick: Tick)
    requires p.Running() && p.rpc.Revoke? && p.stage == ListingGroups(i)
    ensures var (st', r) := Serve(st, NextRequest(p), fate, tick);
            st' == st && (Resume(p, r).Running() ==> Clears(st', Resume(p, r)))
  {
    var (st', r) := Serve(st, NextRequest(p), fate, tick);
    var b, a := p.rpc.buckets[i], p.rpc.account;
    if !r.Fault? {
      HonestListing(st, GroupName(b, a), fate);
      forall id | Refers(st, id, PolicyName(b, a)) ensures id in ExactGroups(fate.groups, GroupName(b, a)) {
        ReferringIsNamed(st, id, b, a);
      }
    }
  }

  lemma DeletedClears(st: State, p: Process, i: nat, ids: seq<Tick>, fate: Fate, tick: Tick)
    requires p.Running() && p.rpc.Revoke? && p.stage == DeletingGroups(i, ids) && Clears(st, p)
    ensures var (st', r) := Serve(st, NextRequest(p), fate, tick);
            Resume(p, r).Running() ==> Clears(st', Resume(p, r))
  {
    var (st', r) := Serve(st, NextRequest(p), fate, tick);
    if Resume(p, r).Running() {
      assert st'.groups == st.groups - {ids[0]};
      assert ids == [ids[0]] + ids[1..];
      forall id | Refers(st', id, PolicyName(p.rpc.buckets[i], p.rpc.account)) ensures id in ids[1..] {
        assert Refers(st, id, PolicyName(p.rpc.buckets[i], p.rpc.account));
      }
    }
  }

  lemma OwnRevokeClears(st: State, p: Process, fate: Fate, tick: Tick)
    requires p.Running() && p.rpc.Revoke? && Clears(st, p)
    ensures var (st', r) := Serve(st, NextRequest(p), fate, tick);
            Resume(p, r).Running() ==> Clears(st', Resume(p, r))
  {
    match p.stage
    case ListingGroups(i) => ListedClears(st, p, i, fate, tick);
    case DeletingGroups(i, ids) => DeletedClears(st, p, i, ids, fate, tick);
    case _ =>
  }

  lemma RevokeAsks(p: Process)
    requires p.Running() && p.rpc.Revoke?
    ensures var req := NextRequest(p);
            && (req.ListGroups? || req.DeleteGroup? || req.DeletePolicy? || req.DeleteUser?)
            && (req.DeletePolicy? ==>
                  p.stage.DeletingPolicy? && req.name == PolicyName(p.rpc.buckets[p.stage.i], p.rpc.account))
  {
  }

  /** A deletion adds nothing, and takes away the policy it names at most. */
  lemma OnlyDeleted(st: State, req: Request, fate: Fate, tick: Tick)
    requires req.ListGroups? || req.DeleteGroup? || req.DeletePolicy? || req.DeleteUser?
    ensures var st' := Serve(st, req, fate, tick).0;
            && (forall id | id in st'.groups :: id in st.groups && st'.groups[id] == st.groups[id])
            && (forall n | n in st.policies :: n in st'.policies || (req.DeletePolicy? && req.name == n))
  {
  }

  lemma OwnRevokeKeepsLinked(st: State, p: Process, fate: Fate, tick: Tick)
    requires Linked(st) && p.Running() && p.rpc.Revoke? && Clears(st, p)
    ensures Linked(Serve(st, NextRequest(p), fate, tick).0)
  {
    RevokeAsks(p);
    OnlyDeleted(st, NextRequest(p), fate, tick);
    var st' := Serve(st, NextRequest(p), fate, tick).0;
    forall id | id in st'.groups && Cosi(st'.groups[id].name)
      ensures Made(st'.groups[id]) && st'.groups[id].policies[0] in st'.policies
    {
      assert Refers(st, id, st.groups[id].policies[0]);
    }
  }

  lemma OwnCallIsReady(st: State, p: Process, fate: Fate, tick: Tick)
    requires Linked(st) && p.Running() && (p.rpc.Grant? || p.rpc.Revoke?) && Ready(st, p)
    ensures var (st', r) := Serve(st, NextRequest(p), fate, tick);
            Linked(st') && (Resume(p, r).Running() ==> Ready(st', Resume(p, r)))
  {
    if p.rpc.Grant? {
      GrantCallKeepsLinked(st, p, fate, tick);
      GrantCallFindsPolicy(st, p, fate, tick);
    } else {
      OwnRevokeKeepsLinked(st, p, fate, tick);
      OwnRevokeClears(st, p, fate, tick);
    }
  }

  /**
   What another account's call may do: policies go only under its own names, groups come only naming its own policies.
   */
  ghost predicate Aside(st: State, st': State, a: string, buckets: set<string>) {
    && (forall n | n in st.policies && !OwnPolicyName(n, a, buckets) :: n in st'.policies)
    && (forall id, n | Refers(st', id, n) && !OwnPolicyName(n, a, buckets) :: Refers(st, id, n))
  }

  lemma CallIsAside(st: State, p: Process, a: string, buckets: set<string>, fate: Fate, tick: Tick)
    requires p.Running() && AccessOf(p.rpc, a, buckets)
    ensures Aside(st, Serve(st, NextRequest(p), fate, tick).0, a, buckets)
  {
    var st' := Serve(st, NextRequest(p), fate, tick).0;
    if p.rpc.Grant? {
      GrantAsks(p);
      NothingDeleted(st, NextRequest(p), fate, tick);
      GrantIsAside(st, st', p, a, buckets, tick);
    } else {
      RevokeAsks(p);
      OnlyDeleted(st, NextRequest(p), fate, tick);
      if p.stage.DeletingPolicy? {
        assert OwnPolicyName(PolicyName(p.rpc.buckets[p.stage.i], a), a, buckets);
      }
    }
  }

  lemma GrantIsAside(st: State, st': State, p: Process, a: string, buckets: set<string>, tick: Tick)
    requires p.Running() && p.rpc.Grant? && AccessOf(p.rpc, a, buckets)
    requires forall n | n in st.policies :: n in st'.policies
    requires st'.groups == st.groups
             || (p.stage.PostingGroup?
                 && st'.groups == st.groups[tick := GroupFor(p.rpc.buckets[p.stage.i], p.rpc.account)])
    ensures Aside(st, st', a, buckets)
  {
    forall id, n | Refers(st', id, n) && !OwnPolicyName(n, a, buckets) ensures Refers(st, id, n) {
      if p.stage.PostingGroup? {
        assert OwnPolicyName(PolicyName(p.rpc.buckets[p.stage.i], a), a, buckets);
      }
    }
  }

  lemma NotOwned(a: string, b': string, a': string, accounts: set<string>, buckets: set<string>)
    requires PoliciesApart(accounts, buckets) && a in accounts && a' in accounts && a != a' && b' in buckets
    ensures !OwnPolicyName(PolicyName(b', a'), a, buckets)
  {
  }

  /** So another account's RPC stays ready. */
  lemma OthersReady(st: State, st': State, q: Process, a: string, a': string, accounts: set<string>,
                    buckets: set<string>)
    requires PoliciesApart(accounts, buckets) && a in accounts && a' in accounts && a != a'
    requires Aside(st, st', a, buckets) && q.Running() && AccessOf(q.rpc, a', buckets) && Ready(st, q)
    ensures Ready(st', q)
  {
    match q.stage
    case PostingUser(i) => NotOwned(a, q.rpc.buckets[i], a', accounts, buckets);
    case PatchingUser(i) => NotOwned(a, q.rpc.buckets[i], a', accounts, buckets);
    case PostingGroup(i, _) => NotOwned(a, q.rpc.buckets[i], a', accounts, buckets);
    case DeletingGroups(i, _) => NotOwned(a, q.rpc.buckets[i], a', accounts, buckets);
    case DeletingPolicy(i) => NotOwned(a, q.rpc.buckets[i], a', accounts, buckets);
    case _ =>
  }

  lemma SameObjectsReady(st: State, st': State, q: Process)
    requires st'.policies == st.policies && st'.groups == st.groups && q.Running() && Ready(st, q)
    ensures Ready(st', q)
  {
    assert forall id, n :: Refers(st', id, n) <==> Refers(st, id, n);
  }

  lemma AccessCallInterlocks(s: System, a: string, fate: Fate, tick: Tick, accounts: set<string>, buckets: set<string>)
    requires PoliciesApart(accounts, buckets) && Interlocked(s, accounts, buckets) && s.Busy(Accessing(a))
    ensures Interlocked(Step(s, Event(tick, Call(Accessing(a), fate))), accounts, buckets)
  {
    var p := s.processes[Accessing(a)];
    var (st', r) := Serve(s.st, NextRequest(p), fate, tick);
    OwnCallIsReady(s.st, p, fate, tick);
    CallIsAside(s.st, p, a, buckets, fate, tick);
    LockGoesOn(s, Accessing(a), st', Resume(p, r), accounts, buckets);
  }

  lemma LockGoesOn(s: System, slot: Slot, st': State, q: Process, accounts: set<string>, buckets: set<string>)
    requires PoliciesApart(accounts, buckets) && Interlocked(s, accounts, buckets) && slot in s.processes
    requires slot.Accessing? && Aside(s.st, st', slot.account, buckets) && q.rpc == s.processes[slot].rpc
    requires Linked(st') && (q.Running() ==> Ready(st', q))
    ensures Interlocked(System(st', s.processes[slot := q]), accounts, buckets)
  {
    forall other | other in s.processes && other != slot && s.processes[other].Running()
      ensures Ready(st', s.processes[other])
    {
      if other.Accessing? {
        OthersReady(s.st, st', s.processes[other], slot.account, other.account, accounts, buckets);
      }
    }
  }

  lemma SameObjectsInterlock(s: System, s': System, accounts: set<string>, buckets: set<string>)
    requires Interlocked(s, accounts, buckets) && s'.st.policies == s.st.policies && s'.st.groups == s.st.groups
    requires forall slot | slot in s'.processes :: InSlot(slot, s'.processes[slot].rpc, accounts, buckets)
    requires forall slot | slot in s'.processes && slot.Accessing? ::
               (slot in s.processes && s'.processes[slot] == s.processes[slot])
               || s'.processes[slot] == Launch(s'.processes[slot].rpc)
    ensures Interlocked(s', accounts, buckets)
  {
    forall slot | slot in s'.processes && s'.processes[slot].Running() ensures Ready(s'.st, s'.processes[slot]) {
      if slot in s.processes && s'.processes[slot] == s.processes[slot] {
        SameObjectsReady(s.st, s'.st, s.processes[slot]);
      }
    }
  }

  lemma StepInterlocks(s: System, e: Event, accounts: set<string>, buckets: set<string>)
    requires PoliciesApart(accounts, buckets) && Interlocked(s, accounts, buckets) && Scoped(e, accounts, buckets)
    ensures Interlocked(Step(s, e), accounts, buckets)
  {
    if e.action.Call? && s.Busy(e.action.slot) {
      var slot := e.action.slot;
      match slot
      case Accessing(a) => AccessCallInterlocks(s, a, e.action.fate, e.tick, accounts, buckets);
      case Bucketing(_) =>
        BucketRequestKeepsSlices(s.st, NextRequest(s.processes[slot]), e.action.fate, e.tick);
        SameObjectsInterlock(s, Step(s, e), accounts, buckets);
    } else {
      OtherEventsChangeLittle(s, e);
      SameObjectsInterlock(s, Step(s, e), accounts, buckets);
    }
  }

  lemma {:induction false} RunInterlocks(s: System, events: seq<Event>, accounts: set<string>, buckets: set<string>)
    requires PoliciesApart(accounts, buckets) && Interlocked(s, accounts, buckets) && InScope(events, accounts, buckets)
    ensures Interlocked(Run(s, events), accounts, buckets)
    decreases |events|
  {
    if events != [] {
      assert Scoped(events[0], accounts, buckets);
      StepInterlocks(s, events[0], accounts, buckets);
      RunInterlocks(Step(s, events[0]), events[1..], accounts, buckets);
    }
  }

  /** In every run for these accounts and buckets that starts fresh, every COSI group's policy exists. */
  ghost predicate AlwaysLinked(accounts: set<string>, buckets: set<string>) {
    forall s, events, now | Fresh(s, now) && Timely(now, events) && InScope(events, accounts, buckets) ::
      Linked(Run(s, events).st)
  }

  /**
   Two accounts that share a policy name, a Revoke of the one between the calls of a Grant of the other: the Grant adds
   a group whose policy the Revoke has deleted.
   */
  lemma RevokeBetween(b: string, a: string, b': string, a': string) returns (events: seq<Event>)
    requires a != a' && PolicyName(b, a) == PolicyName(b', a')
    ensures Timely(2, events)
    ensures forall accounts, buckets :: {a, a'} <= accounts && {b, b'} <= buckets ==> InScope(events, accounts, buckets)
    ensures !Linked(Run(Stocked(b, b'), events).st)
  {
    var s, rpc, slot := Stocked(b, b'), Grant(a, [b]), Accessing(a);
    StockedHolds(b, b');
    EqualPoliciesEqualGroups(b, a, b', a');
    var starting := Start(s, rpc, 2);
    var s1, t1 := Run(s, starting), Clock(2, starting);
    var binding, keys := BindUser(s1, slot, 0, t1);
    var s2, t2 := Run(s1, binding), Clock(t1, binding);
    assert !GroupNamed(s2.st, GroupName(b', a'));
    var revoking := RevokeOne(s2, a', b', t2);
    var s3, t3 := Run(s2, revoking), Clock(t2, revoking);
    var grouping := PutGroup(s3, slot, t3);
    WalkOn(s2, t2, revoking, grouping);
    WalkOn(s1, t1, binding, revoking + grouping);
    WalkOn(s, 2, starting, binding + (revoking + grouping));
    events := starting + (binding + (revoking + grouping));
    GroupWithoutPolicy(s3.st, Run(s, events).st, b, a, t3);
    forall accounts, buckets | {a, a'} <= accounts && {b, b'} <= buckets ensures InScope(events, accounts, buckets) {
      assert a in accounts && a' in accounts && b in buckets && b' in buckets;
      assert InSlot(SlotOf(rpc, 0), rpc, accounts, buckets);
      CallsAreInScope(binding, accounts, buckets);
      CallsAreInScope(grouping, accounts, buckets);
      ScopeOn(revoking, grouping, accounts, buckets);
      ScopeOn(binding, revoking + grouping, accounts, buckets);
      ScopeOn(starting, binding + (revoking + grouping), accounts, buckets);
    }
  }

  lemma GroupWithoutPolicy(st: State, st': State, b: string, a: string, id: Tick)
    requires st.groups == map[] && PolicyName(b, a) !in st.policies
    requires st'.policies == st.policies && st'.groups == WithGroup(st, GroupFor(b, a), id)
    ensures !Linked(st')
  {
    assert id in st'.groups && st'.groups[id] == GroupFor(b, a);
    NamesArePrefixed(b, a);
  }

  /** Accounts may be served side by side without losing a policy exactly when no two of them share a policy name. */
  lemma LinkedExactly(accounts: set<string>, buckets: set<string>)
    ensures AlwaysLinked(accounts, buckets) <==> PoliciesApart(accounts, buckets)
  {
    if PoliciesApart(accounts, buckets) {
      forall s, events, now | Fresh(s, now) && Timely(now, events) && InScope(events, accounts, buckets)
        ensures Linked(Run(s, events).st)
      {
        assert Linked(s.st);
        RunInterlocks(s, events, accounts, buckets);
      }
    } else {
      var a, a', b, b' :| a in accounts && a' in accounts && b in buckets && b' in buckets
                          && PolicyName(b, a) == PolicyName(b', a') && a != a';
      var events := RevokeBetween(b, a, b', a');
      StockedHolds(b, b');
      assert {a, a'} <= accounts && {b, b'} <= buckets;
    }
  }
}
