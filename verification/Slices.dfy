/** What one account's access consists of, and which REST calls leave it alone. */
module Slices {
  import opened Results
  import opened Names
  import opened Ontap

  function At<V>(m: map<string, V>, key: string): Option<V> {
    if key in m then Some(m[key]) else None
  }

  /** The stored groups with this name. */
  function Named(st: State, name: string): map<Tick, Group> {
    map id | id in st.groups && st.groups[id].name == name :: st.groups[id]
  }

  lemma NamedIsGroupNamed(st: State, name: string)
    ensures GroupNamed(st, name) <==> Named(st, name) != map[]
  {
    if Named(st, name) == map[] {
      forall id | id in st.groups ensures st.groups[id].name != name {
        assert id !in Named(st, name);
      }
    } else {
      var id :| id in Named(st, name);
    }
  }

  /** No two accounts of `accounts` share a policy or group name over `buckets`. */
  ghost predicate AccountsApart(accounts: set<string>, buckets: set<string>) {
    forall a, a', b, b' | a in accounts && a' in accounts && a != a' && b in buckets && b' in buckets ::
      PolicyName(b, a) != PolicyName(b', a') && GroupName(b, a) != GroupName(b', a')
  }

  /** No two buckets of `buckets` share a policy or group name for this account. */
  ghost predicate BucketsApart(account: string, buckets: set<string>) {
    forall b, b' | b in buckets && b' in buckets && b != b' ::
      PolicyName(b, account) != PolicyName(b', account) && GroupName(b, account) != GroupName(b', account)
  }

  /** Stands for "this account and this bucket" where a trigger is needed. */
  ghost predicate Pair(account: string, bucket: string) {
    true
  }

  /** Normal-form names of accounts and buckets, the buckets of one length, whose derived group names fit uncut. */
  ghost predicate Fitting(accounts: set<string>, buckets: set<string>) {
    forall a, b, b' {:trigger Pair(a, b), Pair(a, b')} | a in accounts && b in buckets && b' in buckets ::
      Pair(a, b) && NormalForm(a) && NormalForm(b) && |b| == |b'| && |b| + |a| + 12 <= GROUP_NAME_MAX
  }

  /** Of two such pairs, the names coincide only if the pairs do. */
  lemma FittingPair(b: string, a: string, b': string, a': string, accounts: set<string>, buckets: set<string>)
    requires Fitting(accounts, buckets)
    requires a in accounts && a' in accounts && b in buckets && b' in buckets
    ensures GroupName(b, a) == GroupName(b', a') ==> a == a' && b == b'
  {
    assert Pair(a, b) && Pair(a, b') && Pair(a', b) && Pair(a', b');
    NamesInjective(b, a, b', a');
  }

  /** No two of these pairs share a group name. */
  ghost predicate PairsApart(accounts: set<string>, buckets: set<string>) {
    forall a, a', b, b' | a in accounts && a' in accounts && b in buckets && b' in buckets ::
      GroupName(b, a) == GroupName(b', a') ==> a == a' && b == b'
  }

  lemma PolicyNamesFollow(b: string, a: string, b': string, a': string)
    ensures PolicyName(b, a) == PolicyName(b', a') ==> GroupName(b, a) == GroupName(b', a')
  {
    if PolicyName(b, a) == PolicyName(b', a') {
      EqualPoliciesEqualGroups(b, a, b', a');
    }
  }

  /** Then they share no policy name either. */
  lemma PairsApartNames(accounts: set<string>, buckets: set<string>)
    requires PairsApart(accounts, buckets)
    ensures AccountsApart(accounts, buckets)
    ensures forall a | a in accounts :: BucketsApart(a, buckets)
  {
    forall a, a', b, b' | a in accounts && a' in accounts && b in buckets && b' in buckets
      ensures PolicyName(b, a) == PolicyName(b', a') ==> GroupName(b, a) == GroupName(b', a')
    {
      PolicyNamesFollow(b, a, b', a');
    }
  }

  /** Fitting names never collide. */
  lemma FittingNamesAreApart(accounts: set<string>, buckets: set<string>)
    requires Fitting(accounts, buckets)
    ensures PairsApart(accounts, buckets)
  {
    forall a, a', b, b' | a in accounts && a' in accounts && b in buckets && b' in buckets
      ensures GroupName(b, a) == GroupName(b', a') ==> a == a' && b == b'
    {
      FittingPair(b, a, b', a', accounts, buckets);
    }
  }

  /** Names of a three-letter prefix and a UUID that differ, for accounts within the first 19 characters. */
  ghost predicate UuidNames(accounts: set<string>, buckets: set<string>) {
    forall a, b, a', b' {:trigger Pair(a, b), Pair(a', b')} |
      a in accounts && a' in accounts && b in buckets && b' in buckets ::
      && Pair(a, b) && |a| == |a'| == |b| == |b'| == 39
      && (a != a' ==> Normalize(a)[..19] != Normalize(a')[..19])
      && (b != b' ==> Normalize(b) != Normalize(b'))
  }

  /** Of two such pairs, the group names coincide only if the pairs do. */
  lemma UuidPair(b: string, a: string, b': string, a': string, accounts: set<string>, buckets: set<string>)
    requires UuidNames(accounts, buckets)
    requires a in accounts && a' in accounts && b in buckets && b' in buckets
    ensures GroupName(b, a) == GroupName(b', a') ==> a == a' && b == b'
  {
    assert Pair(a, b) && Pair(a', b');
    if GroupName(b, a) == GroupName(b', a') {
      CutGroupNamesCollideExactly(b, a, b', a');
      assert VisibleAccount(b, a) == Normalize(a)[..19];
      assert VisibleAccount(b', a') == Normalize(a')[..19];
    }
  }

  /** Nor do they, though their group names are cut. */
  lemma UuidNamesAreApart(accounts: set<string>, buckets: set<string>)
    requires UuidNames(accounts, buckets)
    ensures PairsApart(accounts, buckets)
  {
    forall a, a', b, b' | a in accounts && a' in accounts && b in buckets && b' in buckets
      ensures GroupName(b, a) == GroupName(b', a') ==> a == a' && b == b'
    {
      UuidPair(b, a, b', a', accounts, buckets);
    }
  }

  /** Two states hold the same policies, groups and user for an account over some buckets. */
  ghost predicate SameSlice(st: State, st': State, account: string, buckets: set<string>) {
    && At(st.users, account) == At(st'.users, account)
    && forall b | b in buckets ::
         && At(st.policies, PolicyName(b, account)) == At(st'.policies, PolicyName(b, account))
         && Named(st, GroupName(b, account)) == Named(st', GroupName(b, account))
  }

  ghost predicate OwnPolicyName(name: string, account: string, buckets: set<string>) {
    exists b :: b in buckets && name == PolicyName(b, account)
  }

  ghost predicate OwnGroupName(name: string, account: string, buckets: set<string>) {
    exists b :: b in buckets && name == GroupName(b, account)
  }

  /** A request that only writes an account's own objects. */
  ghost predicate Owns(st: State, req: Request, account: string, buckets: set<string>) {
    match req
    case PostPolicy(name, _) => OwnPolicyName(name, account, buckets)
    case PatchPolicy(name, _) => OwnPolicyName(name, account, buckets)
    case DeletePolicy(name) => OwnPolicyName(name, account, buckets)
    case PostUser(name) => name == account
    case PatchUser(name) => name == account
    case DeleteUser(name) => name == account
    case PostGroup(group) => OwnGroupName(group.name, account, buckets)
    case ListGroups(name) => OwnGroupName(name, account, buckets)
    case DeleteGroup(id) => id in st.groups ==> OwnGroupName(st.groups[id].name, account, buckets)
    case ListBuckets(_) => true
    case _ => false
  }

  predicate BucketRequest(req: Request) {
    req.ListBuckets? || req.PostBucket? || req.DeleteBucket? || req.GetJob?
  }

  lemma NamedAfterAdding(st: State, tick: Tick, group: Group, name: string)
    requires tick !in st.groups
    ensures var st' := st.(groups := st.groups[tick := group]);
            Named(st', name) == if group.name == name then Named(st, name)[tick := group] else Named(st, name)
  {
  }

  lemma NamedAfterRemoving(st: State, id: Tick, name: string)
    ensures Named(st.(groups := st.groups - {id}), name) == Named(st, name) - {id}
    ensures id in st.groups && st.groups[id].name != name ==> Named(st, name) - {id} == Named(st, name)
    ensures id !in st.groups ==> Named(st, name) - {id} == Named(st, name)
  {
  }

  /** The groups of a name after a request that was carried out. */
  lemma NamedAfter(st: State, req: Request, tick: Tick, name: string)
    requires tick !in st.groups
    ensures Named(Apply(st, req, tick), name) ==
              match req
              case PostGroup(group) =>
                if group.name == name && Named(st, name) == map[] then map[tick := group] else Named(st, name)
              case DeleteGroup(id) => Named(st, name) - {id}
              case _ => Named(st, name)
  {
    match req
    case PostGroup(group) =>
      NamedIsGroupNamed(st, group.name);
      NamedAfterAdding(st, tick, group, name);
    case DeleteGroup(id) => NamedAfterRemoving(st, id, name);
    case _ =>
  }

  /** An account's own requests change no other account's slice. */
  lemma OthersSliceKept(st: State, req: Request, fate: Fate, tick: Tick, a: string, other: string,
                        accounts: set<string>, buckets: set<string>)
    requires AccountsApart(accounts, buckets) && a in accounts && other in accounts && a != other
    requires Owns(st, req, a, buckets) && tick !in st.groups
    ensures SameSlice(st, Serve(st, req, fate, tick).0, other, buckets)
  {
    var st' := Apply(st, req, tick);
    forall b | b in buckets
      ensures At(st.policies, PolicyName(b, other)) == At(st'.policies, PolicyName(b, other))
      ensures Named(st, GroupName(b, other)) == Named(st', GroupName(b, other))
    {
      NamedAfter(st, req, tick, GroupName(b, other));
      if req.DeleteGroup? {
        NamedAfterRemoving(st, req.id, GroupName(b, other));
      }
    }
  }

  /** Bucket requests change nobody's slice. */
  lemma BucketRequestKeepsSlices(st: State, req: Request, fate: Fate, tick: Tick)
    requires BucketRequest(req)
    ensures var st' := Serve(st, req, fate, tick).0;
            st'.policies == st.policies && st'.users == st.users && st'.groups == st.groups
  {
  }

  /** States that agree on an account's slice and on the buckets answer its requests alike. */
  lemma TwinsReplyAlike(st1: State, st2: State, req: Request, fate: Fate, tick: Tick, a: string, buckets: set<string>)
    requires SameSlice(st1, st2, a, buckets) && st1.buckets == st2.buckets && st1.jobs == st2.jobs
    requires Owns(st1, req, a, buckets) && Owns(st2, req, a, buckets)
    ensures Serve(st1, req, fate, tick).1 == Serve(st2, req, fate, tick).1
  {
    match req
    case PostGroup(group) =>
      NamedIsGroupNamed(st1, group.name);
      NamedIsGroupNamed(st2, group.name);
    case ListGroups(name) =>
      assert Named(st1, name) == Named(st2, name);
      TwinsListAlike(st1, st2, name);
    case DeleteGroup(id) =>
      assert id in st1.groups ==> id in Named(st1, st1.groups[id].name);
      assert id in st2.groups ==> id in Named(st2, st2.groups[id].name);
    case _ =>
  }

  lemma TwinsListAlike(st1: State, st2: State, name: string)
    requires Named(st1, name) == Named(st2, name)
    ensures forall fate: Fate | fate.Answered? ::
              Honest(st1, ListGroups(name), fate) <==> Honest(st2, ListGroups(name), fate)
  {
    assert forall id :: id in st1.groups && st1.groups[id].name == name <==> id in Named(st1, name);
    assert forall id :: id in st2.groups && st2.groups[id].name == name <==> id in Named(st2, name);
  }

  lemma PoliciesAlike(st1: State, st2: State, req: Request, tick: Tick, name: string)
    requires At(st1.policies, name) == At(st2.policies, name)
    ensures At(Apply(st1, req, tick).policies, name) == At(Apply(st2, req, tick).policies, name)
  {
  }

  lemma UsersAlike(st1: State, st2: State, req: Request, tick: Tick, name: string)
    requires At(st1.users, name) == At(st2.users, name)
    ensures At(Apply(st1, req, tick).users, name) == At(Apply(st2, req, tick).users, name)
  {
  }

  lemma GroupsAlike(st1: State, st2: State, req: Request, tick: Tick, name: string)
    requires Named(st1, name) == Named(st2, name) && tick !in st1.groups && tick !in st2.groups
    ensures Named(Apply(st1, req, tick), name) == Named(Apply(st2, req, tick), name)
  {
    NamedAfter(st1, req, tick, name);
    NamedAfter(st2, req, tick, name);
  }

  lemma TwinsApplyAlike(st1: State, st2: State, req: Request, tick: Tick, a: string, buckets: set<string>)
    requires SameSlice(st1, st2, a, buckets) && tick !in st1.groups && tick !in st2.groups
    ensures SameSlice(Apply(st1, req, tick), Apply(st2, req, tick), a, buckets)
  {
    UsersAlike(st1, st2, req, tick, a);
    forall b | b in buckets
      ensures At(Apply(st1, req, tick).policies, PolicyName(b, a))
              == At(Apply(st2, req, tick).policies, PolicyName(b, a))
      ensures Named(Apply(st1, req, tick), GroupName(b, a)) == Named(Apply(st2, req, tick), GroupName(b, a))
    {
      PoliciesAlike(st1, st2, req, tick, PolicyName(b, a));
      GroupsAlike(st1, st2, req, tick, GroupName(b, a));
    }
  }

  lemma OwnRequestKeepsBuckets(st: State, req: Request, fate: Fate, tick: Tick, a: string, buckets: set<string>)
    requires Owns(st, req, a, buckets)
    ensures var st' := Serve(st, req, fate, tick).0; st'.buckets == st.buckets && st'.jobs == st.jobs
  {
  }

  /** And they still agree afterwards. */
  lemma TwinsServeAlike(st1: State, st2: State, req: Request, fate: Fate, tick: Tick, a: string, buckets: set<string>)
    requires SameSlice(st1, st2, a, buckets) && st1.buckets == st2.buckets && st1.jobs == st2.jobs
    requires Owns(st1, req, a, buckets) && Owns(st2, req, a, buckets)
    requires tick !in st1.groups && tick !in st2.groups
    ensures var (st1', r1) := Serve(st1, req, fate, tick);
            var (st2', r2) := Serve(st2, req, fate, tick);
            r1 == r2 && SameSlice(st1', st2', a, buckets) && st1'.buckets == st2'.buckets && st1'.jobs == st2'.jobs
  {
    TwinsReplyAlike(st1, st2, req, fate, tick, a, buckets);
    TwinsApplyAlike(st1, st2, req, tick, a, buckets);
    OwnRequestKeepsBuckets(st1, req, fate, tick, a, buckets);
    OwnRequestKeepsBuckets(st2, req, fate, tick, a, buckets);
    if fate.Answered? && req.ListGroups? {
      TwinsListAlike(st1, st2, req.name);
    }
  }
}
