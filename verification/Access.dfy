/**
 What an account may do: the resources its stored policies allow it through the groups it is in. A finished Grant opens
 its buckets and nothing else, and a finished Revoke closes everything.
 */
module Access {
  import opened Results
  import opened Names
  import opened Ontap
  import opened Rpc
  import opened Slices
  import opened Interleaving
  import opened Integrity
  import opened Linkage

  /** A resource pattern: a final '*' stands for whatever follows, any other character for itself. */
  predicate Matches(pattern: string, resource: string) {
    if pattern != "" && pattern[|pattern| - 1] == '*' then pattern[..|pattern| - 1] <= resource
    else pattern == resource
  }

  predicate Allows(policy: Policy, resource: string) {
    exists pattern | pattern in policy.resources :: Matches(pattern, resource)
  }

  /** The bucket itself, or an object in it. */
  predicate Within(bucket: string, resource: string) {
    resource == bucket || bucket + "/" <= resource
  }

  /** The account is in a group with a policy that allows the resource. */
  predicate MayReach(st: State, account: string, resource: string) {
    && account in st.users
    && exists id, name |
         id in st.groups && name in st.groups[id].policies && name in st.policies && account in st.groups[id].users ::
         Allows(st.policies[name], resource)
  }

  /** A bucket name that is not itself read as a pattern. */
  predicate Literal(bucket: string) {
    bucket == "" || bucket[|bucket| - 1] != '*'
  }

  /** The policy of a bucket allows the bucket and its objects, and nothing else. */
  lemma PolicyAllowsExactly(bucket: string, resource: string)
    ensures Within(bucket, resource) ==> Allows(PolicyFor(bucket), resource)
    ensures Literal(bucket) ==> (Allows(PolicyFor(bucket), resource) <==> Within(bucket, resource))
  {
    var objects := bucket + "/*";
    assert PolicyFor(bucket).resources[0] in PolicyFor(bucket).resources;
    assert PolicyFor(bucket).resources[1] in PolicyFor(bucket).resources;
    assert objects[..|objects| - 1] == bucket + "/";
    assert Matches(objects, resource) <==> bucket + "/" <= resource;
  }

  /** A name without '/' is within no other such bucket, and neither are its objects. */
  lemma WithinOneBucket(bucket: string, other: string, key: string)
    requires '/' !in bucket && '/' !in other
    requires Within(bucket, other) || Within(bucket, other + "/" + key)
    ensures bucket == other
  {
    var resource := other + "/" + key;
    assert resource[|other|] == '/' && forall i | 0 <= i < |other| :: resource[i] == other[i] != '/';
    assert bucket + "/" <= resource ==> resource[|bucket|] == '/' && resource[..|bucket|] == bucket;
  }

  /** In particular it allows neither another bucket nor its objects. */
  lemma OtherBucketsStayShut(bucket: string, other: string, key: string)
    requires Literal(bucket) && '/' !in bucket && '/' !in other && bucket != other
    ensures !Allows(PolicyFor(bucket), other) && !Allows(PolicyFor(bucket), other + "/" + key)
  {
    PolicyAllowsExactly(bucket, other);
    PolicyAllowsExactly(bucket, other + "/" + key);
    if Within(bucket, other) || Within(bucket, other + "/" + key) {
      WithinOneBucket(bucket, other, key);
    }
  }

  /** A name that does end in '*' opens more than its bucket. */
  lemma StarOpensMore(prefix: string)
    ensures !Within(prefix + "*", prefix + "x") && Allows(PolicyFor(prefix + "*"), prefix + "x")
  {
    var bucket := prefix + "*";
    assert bucket[..|bucket| - 1] == prefix;
    assert PolicyFor(bucket).resources[0] in PolicyFor(bucket).resources;
    assert bucket[|prefix|] == '*' && (prefix + "x")[|prefix|] == 'x';
  }

  /** The groups the account is in are its own over these buckets. */
  ghost predicate OwnGroups(st: State, a: string, buckets: set<string>) {
    forall id | id in st.groups && a in st.groups[id].users ::
      exists b | b in buckets :: st.groups[id] == GroupFor(b, a)
  }

  /** And so are the policies they name. */
  ghost predicate OwnPolicies(st: State, a: string, buckets: set<string>) {
    forall b | b in buckets && Named(st, GroupName(b, a)) != map[] && PolicyName(b, a) in st.policies ::
      st.policies[PolicyName(b, a)] == PolicyFor(b)
  }

  ghost predicate Confined(st: State, a: string, buckets: set<string>) {
    OwnGroups(st, a, buckets) && OwnPolicies(st, a, buckets)
  }

  /** Where such runs may start. */
  lemma FreshIsConfined(st: State, a: string, buckets: set<string>)
    requires forall id | id in st.groups :: !("cosi-" <= st.groups[id].name) && a !in st.groups[id].users
    ensures Confined(st, a, buckets)
  {
    forall b | b in buckets ensures Named(st, GroupName(b, a)) == map[] {
      NamesArePrefixed(b, a);
    }
  }

  lemma PolicyPutConfined(st: State, st': State, b: string, a: string, buckets: set<string>)
    requires Confined(st, a, buckets) && BucketsApart(a, buckets) && b in buckets && st'.groups == st.groups
    requires st'.policies == st.policies || st'.policies == st.policies[PolicyName(b, a) := PolicyFor(b)]
    ensures Confined(st', a, buckets)
  {
    forall c | c in buckets ensures Named(st', GroupName(c, a)) == Named(st, GroupName(c, a)) {
    }
  }

  lemma GroupPutOwnPolicies(st: State, st': State, b: string, a: string, buckets: set<string>, id: Tick)
    requires OwnPolicies(st, a, buckets) && BucketsApart(a, buckets) && b in buckets && st'.policies == st.policies
    requires At(st.policies, PolicyName(b, a)) == Some(PolicyFor(b)) && id !in st.groups
    requires st'.groups == st.groups[id := GroupFor(b, a)]
    ensures OwnPolicies(st', a, buckets)
  {
    forall c | c in buckets && c != b ensures Named(st', GroupName(c, a)) == Named(st, GroupName(c, a)) {
      NamedAfterAdding(st, id, GroupFor(b, a), GroupName(c, a));
      SameGroupsNamedAlike(st', st.(groups := st'.groups), GroupName(c, a));
    }
  }

  lemma SameGroupsNamedAlike(st: State, st': State, name: string)
    requires st'.groups == st.groups
    ensures Named(st', name) == Named(st, name)
  {
  }

  lemma GroupPutConfined(st: State, st': State, b: string, a: string, buckets: set<string>, id: Tick)
    requires Confined(st, a, buckets) && BucketsApart(a, buckets) && b in buckets && st'.policies == st.policies
    requires At(st.policies, PolicyName(b, a)) == Some(PolicyFor(b)) && id !in st.groups
    requires st'.groups == st.groups || st'.groups == st.groups[id := GroupFor(b, a)]
    ensures Confined(st', a, buckets)
  {
    if st'.groups == st.groups {
      SameObjectsConfined(st, st', a, buckets);
    } else {
      GroupPutOwnPolicies(st, st', b, a, buckets, id);
    }
  }

  lemma SameObjectsConfined(st: State, st': State, a: string, buckets: set<string>)
    requires Confined(st, a, buckets) && st'.groups == st.groups && st'.policies == st.policies
    ensures Confined(st', a, buckets)
  {
    forall c | c in buckets ensures Named(st', GroupName(c, a)) == Named(st, GroupName(c, a)) {
      SameGroupsNamedAlike(st, st', GroupName(c, a));
    }
  }

  lemma PoliciesAfter(st: State, req: Request, fate: Fate, tick: Tick)
    requires !req.DeletePolicy?
    ensures var st' := Serve(st, req, fate, tick).0;
            || st'.policies == st.policies
            || ((req.PostPolicy? || req.PatchPolicy?) && st'.policies == st.policies[req.name := req.policy])
  {
  }

  lemma GrantPuts(p: Process)
    requires p.Running() && p.rpc.Grant?
    ensures var req, b, a := NextRequest(p), p.rpc.buckets[p.stage.i], p.rpc.account;
            && (req.PostPolicy? || req.PatchPolicy? ==>
                  !p.stage.PostingGroup? && req.name == PolicyName(b, a) && req.policy == PolicyFor(b))
            && (req.PostGroup? ==> p.stage.PostingGroup? && req.group == GroupFor(b, a))
            && !req.DeletePolicy? && !req.DeleteGroup?
  {
  }

  lemma GrantCallChanges(st: State, p: Process, fate: Fate, tick: Tick)
    requires p.Running() && p.rpc.Grant?
    ensures var st' := Serve(st, NextRequest(p), fate, tick).0;
            var b, a := p.rpc.buckets[p.stage.i], p.rpc.account;
            if p.stage.PostingGroup? then
              && st'.policies == st.policies
              && (st'.groups == st.groups || st'.groups == st.groups[tick := GroupFor(b, a)])
            else
              && st'.groups == st.groups
              && (st'.policies == st.policies || st'.policies == st.policies[PolicyName(b, a) := PolicyFor(b)])
  {
    GrantPuts(p);
    PoliciesAfter(st, NextRequest(p), fate, tick);
    NothingDeleted(st, NextRequest(p), fate, tick);
  }

  /** A Grant binds a bucket only once its policy is the bucket's. */
  lemma GrantCallConfined(st: State, p: Process, fate: Fate, tick: Tick, a: string, buckets: set<string>)
    requires p.Running() && p.rpc.Grant? && AccessOf(p.rpc, a, buckets) && GrantHolds(st, p)
    requires Confined(st, a, buckets) && BucketsApart(a, buckets) && tick !in st.groups
    ensures Confined(Serve(st, NextRequest(p), fate, tick).0, a, buckets)
  {
    var st', b := Serve(st, NextRequest(p), fate, tick).0, p.rpc.buckets[p.stage.i];
    GrantCallChanges(st, p, fate, tick);
    if p.stage.PostingGroup? {
      GroupPutConfined(st, st', b, a, buckets, tick);
    } else {
      PolicyPutConfined(st, st', b, a, buckets);
    }
  }

  lemma DeletionConfined(st: State, req: Request, fate: Fate, tick: Tick, a: string, buckets: set<string>)
    requires req.ListGroups? || req.DeleteGroup? || req.DeletePolicy? || req.DeleteUser?
    requires Confined(st, a, buckets)
    ensures Confined(Serve(st, req, fate, tick).0, a, buckets)
  {
    OnlyDeleted(st, req, fate, tick);
    var st' := Serve(st, req, fate, tick).0;
    PoliciesOnlyGo(st, req, fate, tick);
    forall b | b in buckets && Named(st', GroupName(b, a)) != map[] ensures Named(st, GroupName(b, a)) != map[] {
      var id :| id in Named(st', GroupName(b, a));
      assert id in Named(st, GroupName(b, a));
    }
  }

  lemma PoliciesOnlyGo(st: State, req: Request, fate: Fate, tick: Tick)
    requires req.ListGroups? || req.DeleteGroup? || req.DeletePolicy? || req.DeleteUser?
    ensures var st' := Serve(st, req, fate, tick).0;
            forall n | n in st'.policies :: n in st.policies && st'.policies[n] == st.policies[n]
  {
  }

  /** Another account's RPC puts nobody else into a group. */
  lemma OthersAddNoMember(st: State, p: Process, fate: Fate, tick: Tick, a: string)
    requires p.Running() && ((p.rpc.Grant? || p.rpc.Revoke?) ==> p.rpc.account != a)
    ensures var st' := Serve(st, NextRequest(p), fate, tick).0;
            forall id | id in st'.groups && a in st'.groups[id].users ::
              id in st.groups && st.groups[id] == st'.groups[id]
  {
    if p.rpc.Grant? {
      GrantCallChanges(st, p, fate, tick);
    } else if p.rpc.Revoke? {
      RevokeAsks(p);
      OnlyDeleted(st, NextRequest(p), fate, tick);
    } else {
      BucketRequestKeepsSlices(st, NextRequest(p), fate, tick);
    }
  }

  lemma OtherCallConfined(s: System, slot: Slot, fate: Fate, tick: Tick, a: string, accounts: set<string>,
                          buckets: set<string>, now: Tick)
    requires Tidy(s, accounts, buckets, now) && now <= tick && s.Busy(slot)
    requires a in accounts && slot != Accessing(a) && Confined(s.st, a, buckets)
    ensures Confined(Serve(s.st, NextRequest(s.processes[slot]), fate, tick).0, a, buckets)
  {
    CallKeepsOthers(s, slot, fate, tick, a, accounts, buckets, now);
    assert InSlot(slot, s.processes[slot].rpc, accounts, buckets);
    OthersAddNoMember(s.st, s.processes[slot], fate, tick, a);
    var st' := Serve(s.st, NextRequest(s.processes[slot]), fate, tick).0;
    forall b | b in buckets && PolicyName(b, a) in st'.policies
      ensures PolicyName(b, a) in s.st.policies
              && st'.policies[PolicyName(b, a)] == s.st.policies[PolicyName(b, a)]
    {
      assert At(st'.policies, PolicyName(b, a)) == At(s.st.policies, PolicyName(b, a));
    }
  }

  lemma CallConfined(s: System, slot: Slot, fate: Fate, tick: Tick, a: string, accounts: set<string>,
                     buckets: set<string>, now: Tick)
    requires Safe(s, accounts, buckets, now) && now <= tick && s.Busy(slot)
    requires a in accounts && Confined(s.st, a, buckets)
    ensures Confined(Serve(s.st, NextRequest(s.processes[slot]), fate, tick).0, a, buckets)
  {
    var p := s.processes[slot];
    if slot != Accessing(a) {
      OtherCallConfined(s, slot, fate, tick, a, accounts, buckets, now);
    } else if p.rpc.Grant? {
      GrantCallConfined(s.st, p, fate, tick, a, buckets);
    } else {
      RevokeAsks(p);
      DeletionConfined(s.st, NextRequest(p), fate, tick, a, buckets);
    }
  }

  lemma StepConfined(s: System, e: Event, a: string, accounts: set<string>, buckets: set<string>, now: Tick)
    requires Safe(s, accounts, buckets, now) && now <= e.tick && a in accounts && Confined(s.st, a, buckets)
    ensures Confined(Step(s, e).st, a, buckets)
  {
    if e.action.Call? && s.Busy(e.action.slot) {
      CallConfined(s, e.action.slot, e.action.fate, e.tick, a, accounts, buckets, now);
    } else {
      OtherEventsChangeLittle(s, e);
      SameObjectsConfined(s.st, Step(s, e).st, a, buckets);
    }
  }

  /** The invariant of every run with names apart. */
  lemma {:induction false} RunConfined(s: System, events: seq<Event>, a: string, accounts: set<string>,
                                       buckets: set<string>, now: Tick)
    requires Safe(s, accounts, buckets, now) && Timely(now, events) && InScope(events, accounts, buckets)
    requires a in accounts && Confined(s.st, a, buckets)
    ensures Confined(Run(s, events).st, a, buckets)
    decreases |events|
  {
    if events != [] {
      assert Scoped(events[0], accounts, buckets);
      StepConfined(s, events[0], a, accounts, buckets, now);
      StepKeepsSafe(s, events[0], accounts, buckets, now);
      RunConfined(Step(s, events[0]), events[1..], a, accounts, buckets, events[0].tick + 1);
    }
  }

  /** Whatever the account may do is within a bucket it is bound to. */
  lemma ConfinedReach(st: State, a: string, buckets: set<string>, resource: string) returns (b: string)
    requires Confined(st, a, buckets) && MayReach(st, a, resource)
    requires forall c | c in buckets :: Literal(c)
    ensures b in buckets && Within(b, resource) && Named(st, GroupName(b, a)) != map[]
  {
    var id, name :| id in st.groups && name in st.groups[id].policies && name in st.policies
                    && a in st.groups[id].users && Allows(st.policies[name], resource);
    b :| b in buckets && st.groups[id] == GroupFor(b, a);
    assert id in Named(st, GroupName(b, a));
    assert name == PolicyName(b, a);
    PolicyAllowsExactly(b, resource);
  }

  lemma BoundReaches(st: State, b: string, a: string, resource: string)
    requires Bound(st, b, a) && a in st.users && Within(b, resource)
    ensures MayReach(st, a, resource)
  {
    var id :| id in Named(st, GroupName(b, a));
    assert st.groups[id] == GroupFor(b, a);
    var name := PolicyName(b, a);
    assert a in st.groups[id].users && name in st.groups[id].policies;
    PolicyAllowsExactly(b, resource);
  }

  /**
   In every run with names apart, however it is interleaved and cut short: what an account may do is confined to the
   buckets of the run; after a finished Grant it may do what its buckets hold, and if the run is about no other buckets,
   exactly that; and after a finished Revoke it may do nothing.
   */
  lemma AccessIsGrantedExactly(s: System, events: seq<Event>, a: string, accounts: set<string>, buckets: set<string>,
                               now: Tick, resource: string)
    requires Safe(s, accounts, buckets, now) && Timely(now, events) && InScope(events, accounts, buckets)
    requires a in accounts && Confined(s.st, a, buckets) && forall b | b in buckets :: Literal(b)
    ensures MayReach(Run(s, events).st, a, resource) ==> exists b | b in buckets :: Within(b, resource)
    ensures var t := Run(s, events);
            Accessing(a) in t.processes && t.processes[Accessing(a)].stage.Done? ==>
              var Process(rpc, Done(outcome)) := t.processes[Accessing(a)];
              && (rpc.Grant? && outcome.Granted? ==>
                    && ((exists b | b in rpc.buckets :: Within(b, resource)) ==> MayReach(t.st, a, resource))
                    && ((forall b | b in buckets :: b in rpc.buckets) && MayReach(t.st, a, resource) ==>
                          exists b | b in rpc.buckets :: Within(b, resource)))
              && (rpc.Revoke? && outcome.Revoked? ==> !MayReach(t.st, a, resource))
  {
    RunConfined(s, events, a, accounts, buckets, now);
    var t := Run(s, events);
    if MayReach(t.st, a, resource) {
      var b := ConfinedReach(t.st, a, buckets, resource);
    }
    if Accessing(a) in t.processes && t.processes[Accessing(a)].stage.Done? {
      InterleavingSafety(s, events, accounts, buckets, now, a);
      var rpc := t.processes[Accessing(a)].rpc;
      if rpc.Grant? && t.processes[Accessing(a)].stage.outcome.Granted? {
        if b :| b in rpc.buckets && Within(b, resource) {
          BoundReaches(t.st, b, a, resource);
        }
      }
    }
  }
}
