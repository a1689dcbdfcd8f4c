/** Where whole runs of attempts end up: no leaks after crashes, and retries that converge. */
module Convergence {
  import opened Results
  import opened Names
  import opened Ontap
  import opened Rpc
  import opened Slices
  import opened Interleaving

  /** The policies no account of the run derives a name for. */
  ghost function StrangePolicies(st: State, accounts: set<string>, buckets: set<string>): map<string, Policy> {
    map n | n in st.policies && (forall a | a in accounts :: !OwnPolicyName(n, a, buckets)) :: st.policies[n]
  }

  ghost function StrangeGroups(st: State, accounts: set<string>, buckets: set<string>): map<Tick, Group> {
    map id | id in st.groups && (forall a | a in accounts :: !OwnGroupName(st.groups[id].name, a, buckets)) ::
      st.groups[id]
  }

  ghost function StrangeUsers(st: State, accounts: set<string>): map<string, KeyPair> {
    st.users - accounts
  }

  /** What a service stores for access: everything but buckets and jobs. */
  datatype Access = Access(policies: map<string, Policy>, groups: map<Tick, Group>, users: map<string, KeyPair>)

  function AccessIn(st: State): Access {
    Access(st.policies, st.groups, st.users)
  }

  /** Access without the accounts' slices. */
  ghost function StrangeAccess(st: State, accounts: set<string>, buckets: set<string>): Access {
    Access(StrangePolicies(st, accounts, buckets), StrangeGroups(st, accounts, buckets), StrangeUsers(st, accounts))
  }

  /** The states hold the same objects outside the accounts' slices. */
  ghost predicate SameStrangers(st: State, st': State, accounts: set<string>, buckets: set<string>) {
    && StrangePolicies(st, accounts, buckets) == StrangePolicies(st', accounts, buckets)
    && StrangeGroups(st, accounts, buckets) == StrangeGroups(st', accounts, buckets)
    && StrangeUsers(st, accounts) == StrangeUsers(st', accounts)
  }

  lemma OwnRequestKeepsStrangePolicies(st: State, req: Request, tick: Tick, a: string, accounts: set<string>,
                                       buckets: set<string>)
    requires a in accounts && Owns(st, req, a, buckets)
    ensures StrangePolicies(st, accounts, buckets) == StrangePolicies(Apply(st, req, tick), accounts, buckets)
  {
    if req.PostPolicy? || req.PatchPolicy? || req.DeletePolicy? {
      assert OwnPolicyName(req.name, a, buckets);
    }
  }

  lemma OwnRequestKeepsStrangeGroups(st: State, req: Request, tick: Tick, a: string, accounts: set<string>,
                                     buckets: set<string>)
    requires a in accounts && Owns(st, req, a, buckets) && tick !in st.groups
    ensures StrangeGroups(st, accounts, buckets) == StrangeGroups(Apply(st, req, tick), accounts, buckets)
  {
    if req.PostGroup? {
      assert OwnGroupName(req.group.name, a, buckets);
    } else if req.DeleteGroup? && req.id in st.groups {
      assert OwnGroupName(st.groups[req.id].name, a, buckets);
    }
  }

  lemma OwnRequestKeepsStrangers(st: State, req: Request, fate: Fate, tick: Tick, a: string,
                                 accounts: set<string>, buckets: set<string>)
    requires a in accounts && Owns(st, req, a, buckets) && tick !in st.groups
    ensures SameStrangers(st, Serve(st, req, fate, tick).0, accounts, buckets)
  {
    OwnRequestKeepsStrangePolicies(st, req, tick, a, accounts, buckets);
    OwnRequestKeepsStrangeGroups(st, req, tick, a, accounts, buckets);
    assert StrangeUsers(st, accounts) == StrangeUsers(Apply(st, req, tick), accounts);
  }

  lemma SameObjectsSameStrangers(st: State, st': State, accounts: set<string>, buckets: set<string>)
    requires st'.policies == st.policies && st'.users == st.users && st'.groups == st.groups
    ensures SameStrangers(st, st', accounts, buckets)
  {
  }

  lemma StepKeepsStrangers(s: System, e: Event, accounts: set<string>, buckets: set<string>, now: Tick)
    requires Tidy(s, accounts, buckets, now) && now <= e.tick && Scoped(e, accounts, buckets)
    ensures SameStrangers(s.st, Step(s, e).st, accounts, buckets)
  {
    match e.action
    case Call(slot, fate) =>
      if s.Busy(slot) {
        var p := s.processes[slot];
        match slot
        case Bucketing(_) =>
          BucketRequestKeepsSlices(s.st, NextRequest(p), fate, e.tick);
          SameObjectsSameStrangers(s.st, Step(s, e).st, accounts, buckets);
        case Accessing(a) =>
          AsksForItsOwn(s.st, p, a, buckets, now);
          OwnRequestKeepsStrangers(s.st, NextRequest(p), fate, e.tick, a, accounts, buckets);
      }
    case _ => SameObjectsSameStrangers(s.st, Step(s, e).st, accounts, buckets);
  }

  /** No run touches a policy, group or user that is not one of its accounts' own. */
  lemma {:induction false} RunKeepsStrangers(s: System, events: seq<Event>, accounts: set<string>,
                                             buckets: set<string>, now: Tick)
    requires Tidy(s, accounts, buckets, now) && Timely(now, events) && InScope(events, accounts, buckets)
    ensures SameStrangers(s.st, Run(s, events).st, accounts, buckets)
    decreases |events|
  {
    if events != [] {
      assert Scoped(events[0], accounts, buckets);
      StepKeepsStrangers(s, events[0], accounts, buckets, now);
      StepKeepsTidy(s, events[0], accounts, buckets, now);
      RunKeepsStrangers(Step(s, events[0]), events[1..], accounts, buckets, events[0].tick + 1);
    }
  }

  ghost function BucketSet(buckets: seq<string>): set<string> {
    set b | b in buckets
  }

  /** The run ends with this account's last RPC, over exactly the buckets of the run, done. */
  ghost predicate EndsRevoked(s: System, account: string, buckets: set<string>) {
    && Accessing(account) in s.processes
    && var p := s.processes[Accessing(account)];
       p.rpc.Revoke? && BucketSet(p.rpc.buckets) == buckets && p.stage == Done(Revoked)
  }

  ghost predicate EndsGranted(s: System, account: string, buckets: set<string>) {
    && Accessing(account) in s.processes
    && var p := s.processes[Accessing(account)];
       p.rpc.Grant? && BucketSet(p.rpc.buckets) == buckets && p.stage.Done? && p.stage.outcome.Granted?
  }

  lemma GoneIsStrange(st: State, a: string, buckets: set<string>)
    requires At(st.users, a) == None && forall b | b in buckets :: Gone(st, b, a)
    ensures StrangePolicies(st, {a}, buckets) == st.policies
    ensures StrangeGroups(st, {a}, buckets) == st.groups
    ensures StrangeUsers(st, {a}) == st.users
  {
    forall b | b in buckets
      ensures PolicyName(b, a) !in st.policies && forall id | id in st.groups :: st.groups[id].name != GroupName(b, a)
    {
      assert Gone(st, b, a);
      assert forall id | id in st.groups :: id !in Named(st, GroupName(b, a));
    }
  }

  /**
   However the account's Grants and Revokes over these buckets were cut short, failed or lost their answers: once a
   Revoke of the buckets succeeds, the policies, users and groups are the starting ones without the account's slice.
   Nothing is assumed of the derived names.
   */
  lemma NoLeakAfterCrash(s: System, events: seq<Event>, a: string, buckets: set<string>, now: Tick)
    requires Tidy(s, {a}, buckets, now) && Timely(now, events) && InScope(events, {a}, buckets)
    requires EndsRevoked(Run(s, events), a, buckets)
    ensures AccessIn(Run(s, events).st) == StrangeAccess(s.st, {a}, buckets)
  {
    RunKeepsStrangers(s, events, {a}, buckets, now);
    RunKeepsTidy(s, events, {a}, buckets, now);
    var t := Run(s, events);
    var p := t.processes[Accessing(a)];
    assert RevokeHolds(t.st, p, Clock(now, events));
    forall b | b in buckets ensures Gone(t.st, b, a) {
      var k :| 0 <= k < |p.rpc.buckets| && p.rpc.buckets[k] == b;
    }
    GoneIsStrange(t.st, a, buckets);
  }

  /** From an idle driver, whatever the service holds. */
  lemma NoLeakFromIdle(s: System, events: seq<Event>, a: string, buckets: set<string>, now: Tick)
    requires s.processes == map[] && forall id | id in s.st.groups :: id < now
    requires Timely(now, events) && InScope(events, {a}, buckets)
    requires EndsRevoked(Run(s, events), a, buckets)
    ensures AccessIn(Run(s, events).st) == StrangeAccess(s.st, {a}, buckets)
  {
    IdleIsTidy(s, a, buckets, now);
    NoLeakAfterCrash(s, events, a, buckets, now);
  }

  /** The same among other accounts' RPCs: nothing of the account is left, and nobody else's objects are touched. */
  lemma NoLeakAmongOthers(s: System, events: seq<Event>, a: string, accounts: set<string>, buckets: set<string>,
                          now: Tick)
    requires Tidy(s, accounts, buckets, now) && a in accounts
    requires Timely(now, events) && InScope(events, accounts, buckets)
    requires EndsRevoked(Run(s, events), a, buckets)
    ensures At(Run(s, events).st.users, a) == None
    ensures forall b | b in buckets :: Gone(Run(s, events).st, b, a)
    ensures SameStrangers(s.st, Run(s, events).st, accounts, buckets)
  {
    RunKeepsStrangers(s, events, accounts, buckets, now);
    RunKeepsTidy(s, events, accounts, buckets, now);
    var t := Run(s, events);
    var p := t.processes[Accessing(a)];
    assert RevokeHolds(t.st, p, Clock(now, events));
    forall b | b in buckets ensures Gone(t.st, b, a) {
      var k :| 0 <= k < |p.rpc.buckets| && p.rpc.buckets[k] == b;
    }
  }

  /** Successful Revokes of the same buckets, in any order and multiplicity and after any attempts, end alike. */
  lemma RevokesConverge(s: System, events: seq<Event>, events': seq<Event>, a: string, buckets: set<string>, now: Tick)
    requires Tidy(s, {a}, buckets, now)
    requires Timely(now, events) && InScope(events, {a}, buckets) && EndsRevoked(Run(s, events), a, buckets)
    requires Timely(now, events') && InScope(events', {a}, buckets) && EndsRevoked(Run(s, events'), a, buckets)
    ensures AccessIn(Run(s, events).st) == AccessIn(Run(s, events').st)
  {
    NoLeakAfterCrash(s, events, a, buckets, now);
    NoLeakAfterCrash(s, events', a, buckets, now);
  }

  /** The contents of the stored groups, ids aside. */
  ghost function GroupContents(st: State): set<Group> {
    set id | id in st.groups :: st.groups[id]
  }

  /** What is stored besides an account's bindings, together with the bound buckets, determines policies and groups. */
  lemma BindingsDeterminePolicies(st: State, st': State, a: string, buckets: set<string>)
    requires StrangePolicies(st, {a}, buckets) == StrangePolicies(st', {a}, buckets)
    requires forall b | b in buckets :: Bound(st, b, a) && Bound(st', b, a)
    ensures st.policies == st'.policies
  {
    forall n ensures At(st.policies, n) == At(st'.policies, n) {
      if OwnPolicyName(n, a, buckets) {
        var b :| b in buckets && n == PolicyName(b, a);
        assert Bound(st, b, a) && Bound(st', b, a);
      } else {
        assert At(StrangePolicies(st, {a}, buckets), n) == At(st.policies, n);
        assert At(StrangePolicies(st', {a}, buckets), n) == At(st'.policies, n);
      }
    }
    assert forall n :: n in st.policies <==> At(st.policies, n).Some?;
    assert forall n :: n in st'.policies <==> At(st'.policies, n).Some?;
  }

  lemma BoundContents(st: State, st': State, a: string, buckets: set<string>)
    requires StrangeGroups(st, {a}, buckets) == StrangeGroups(st', {a}, buckets)
    requires forall b | b in buckets :: Bound(st, b, a) && Bound(st', b, a)
    ensures GroupContents(st) <= GroupContents(st')
  {
    forall id | id in st.groups ensures st.groups[id] in GroupContents(st') {
      if OwnGroupName(st.groups[id].name, a, buckets) {
        var b :| b in buckets && st.groups[id].name == GroupName(b, a);
        assert Bound(st, b, a) && Bound(st', b, a) && id in Named(st, GroupName(b, a));
        var id' :| id' in Named(st', GroupName(b, a));
        assert id' in st'.groups && st'.groups[id'] == GroupFor(b, a);
      } else {
        assert id in StrangeGroups(st, {a}, buckets);
        assert StrangeGroups(st', {a}, buckets)[id] == st.groups[id];
        assert id in st'.groups && st'.groups[id] == st.groups[id];
      }
    }
  }

  /** At most one group has this name; the service never adds a second one. */
  ghost predicate OneGroup(st: State, name: string) {
    forall id, id' | id in Named(st, name) && id' in Named(st, name) :: id == id'
  }

  lemma AddingKeepsOneGroup(st: State, group: Group, tick: Tick, name: string)
    requires OneGroup(st, name) && !GroupNamed(st, group.name)
    ensures OneGroup(st.(groups := st.groups[tick := group]), name)
  {
    var st' := st.(groups := st.groups[tick := group]);
    forall id, id' | id in Named(st', name) && id' in Named(st', name) ensures id == id' {
      assert id != tick ==> id in Named(st, name);
      assert id' != tick ==> id' in Named(st, name);
    }
  }

  lemma ServeKeepsOneGroup(st: State, req: Request, fate: Fate, tick: Tick, name: string)
    requires OneGroup(st, name)
    ensures OneGroup(Serve(st, req, fate, tick).0, name)
  {
    var st' := Serve(st, req, fate, tick).0;
    if req.PostGroup? {
      if !GroupNamed(st, req.group.name) {
        AddingKeepsOneGroup(st, req.group, tick, name);
      }
    } else {
      assert forall id | id in Named(st', name) :: id in Named(st, name);
    }
  }

  lemma StepKeepsOneGroup(s: System, e: Event, name: string)
    requires OneGroup(s.st, name)
    ensures OneGroup(Step(s, e).st, name)
  {
    if e.action.Call? && s.Busy(e.action.slot) {
      ServeKeepsOneGroup(s.st, NextRequest(s.processes[e.action.slot]), e.action.fate, e.tick, name);
    } else {
      OtherEventsChangeLittle(s, e);
      assert Named(Step(s, e).st, name) == Named(s.st, name);
    }
  }

  lemma {:induction false} RunKeepsOneGroup(s: System, events: seq<Event>, name: string)
    requires OneGroup(s.st, name)
    ensures OneGroup(Run(s, events).st, name)
    decreases |events|
  {
    if events != [] {
      StepKeepsOneGroup(s, events[0], name);
      RunKeepsOneGroup(Step(s, events[0]), events[1..], name);
    }
  }

  lemma OneIsOne(st: State, name: string)
    requires OneGroup(st, name) && Named(st, name) != map[]
    ensures |Named(st, name)| == 1
  {
    var id :| id in Named(st, name);
    assert Named(st, name) == map[id := st.groups[id]];
  }

  /** As many groups of each name, ids aside. */
  lemma BoundCounts(st: State, st': State, a: string, buckets: set<string>, name: string)
    requires StrangeGroups(st, {a}, buckets) == StrangeGroups(st', {a}, buckets)
    requires forall b | b in buckets :: Bound(st, b, a) && Bound(st', b, a)
    requires OwnGroupName(name, a, buckets) ==> OneGroup(st, name) && OneGroup(st', name)
    ensures |Named(st, name)| == |Named(st', name)|
  {
    if OwnGroupName(name, a, buckets) {
      var b :| b in buckets && name == GroupName(b, a);
      assert Bound(st, b, a) && Bound(st', b, a);
      OneIsOne(st, name);
      OneIsOne(st', name);
    } else {
      forall id ensures id in Named(st, name) <==> id in Named(st', name) {
        assert id in Named(st, name) ==> id in StrangeGroups(st, {a}, buckets);
        assert id in Named(st', name) ==> id in StrangeGroups(st', {a}, buckets);
      }
      assert Named(st, name).Keys == Named(st', name).Keys;
      assert |Named(st, name)| == |Named(st, name).Keys| && |Named(st', name)| == |Named(st', name).Keys|;
    }
  }

  /** The same groups, ids aside: the same contents, and as many groups of each name. */
  ghost predicate SameGroups(st: State, st': State) {
    GroupContents(st) == GroupContents(st') && forall name :: |Named(st, name)| == |Named(st', name)|
  }

  /** What is stored besides an account's bindings, together with the bound buckets, determines the groups. */
  lemma BindingsDetermineGroups(st: State, st': State, a: string, buckets: set<string>)
    requires StrangeGroups(st, {a}, buckets) == StrangeGroups(st', {a}, buckets)
    requires forall b | b in buckets :: Bound(st, b, a) && Bound(st', b, a)
    ensures GroupContents(st) == GroupContents(st')
    ensures (forall b | b in buckets :: OneGroup(st, GroupName(b, a)) && OneGroup(st', GroupName(b, a))) ==>
              SameGroups(st, st')
  {
    BoundContents(st, st', a, buckets);
    BoundContents(st', st, a, buckets);
    if forall b | b in buckets :: OneGroup(st, GroupName(b, a)) && OneGroup(st', GroupName(b, a)) {
      forall name ensures |Named(st, name)| == |Named(st', name)| {
        BoundCounts(st, st', a, buckets, name);
      }
    }
  }

  /**
   Any attempts, Grants or Revokes, that end in a successful Grant of the buckets leave every other object as it was,
   every bucket bound, and the user with the keys of the response.
   */
  lemma GrantReaches(s: System, events: seq<Event>, a: string, buckets: set<string>, now: Tick)
    requires Safe(s, {a}, buckets, now) && Timely(now, events) && InScope(events, {a}, buckets)
    requires EndsGranted(Run(s, events), a, buckets)
    ensures SameStrangers(s.st, Run(s, events).st, {a}, buckets)
    ensures forall b | b in buckets :: Bound(Run(s, events).st, b, a)
    ensures At(Run(s, events).st.users, a) == Some(Run(s, events).processes[Accessing(a)].stage.outcome.credentials)
  {
    RunKeepsStrangers(s, events, {a}, buckets, now);
    RunKeepsSafe(s, events, {a}, buckets, now);
    var t := Run(s, events);
    var p := t.processes[Accessing(a)];
    assert GrantHolds(t.st, p);
    forall b | b in buckets ensures Bound(t.st, b, a) {
      var k :| 0 <= k < |p.rpc.buckets| && p.rpc.buckets[k] == b;
    }
  }

  /**
   A retried Grant and an uninterrupted one, in any bucket order, differ in key values and group ids only. That there
   are as many groups of each name takes a service that did not start with two groups of one derived name.
   */
  lemma GrantsConverge(s: System, events: seq<Event>, events': seq<Event>, a: string, buckets: set<string>, now: Tick)
    requires Safe(s, {a}, buckets, now)
    requires Timely(now, events) && InScope(events, {a}, buckets) && EndsGranted(Run(s, events), a, buckets)
    requires Timely(now, events') && InScope(events', {a}, buckets) && EndsGranted(Run(s, events'), a, buckets)
    ensures Run(s, events).st.policies == Run(s, events').st.policies
    ensures GroupContents(Run(s, events).st) == GroupContents(Run(s, events').st)
    ensures (forall b | b in buckets :: OneGroup(s.st, GroupName(b, a))) ==>
              SameGroups(Run(s, events).st, Run(s, events').st)
    ensures Run(s, events).st.users.Keys == Run(s, events').st.users.Keys
    ensures Run(s, events).st.users - {a} == Run(s, events').st.users - {a}
  {
    GrantReaches(s, events, a, buckets, now);
    GrantReaches(s, events', a, buckets, now);
    var st, st' := Run(s, events).st, Run(s, events').st;
    BindingsDeterminePolicies(st, st', a, buckets);
    BindingsDetermineGroups(st, st', a, buckets);
    forall b | b in buckets && OneGroup(s.st, GroupName(b, a))
      ensures OneGroup(st, GroupName(b, a)) && OneGroup(st', GroupName(b, a))
    {
      RunKeepsOneGroup(s, events, GroupName(b, a));
      RunKeepsOneGroup(s, events', GroupName(b, a));
    }
    UsersAgree(st, st', a);
  }

  lemma UsersAgree(st: State, st': State, a: string)
    requires StrangeUsers(st, {a}) == StrangeUsers(st', {a}) && At(st.users, a).Some? && At(st'.users, a).Some?
    ensures st.users.Keys == st'.users.Keys && st.users - {a} == st'.users - {a}
  {
    assert st.users.Keys == (st.users - {a}).Keys + {a};
    assert st'.users.Keys == (st'.users - {a}).Keys + {a};
  }
}
