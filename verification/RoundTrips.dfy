/** Grant and Revoke of one request, one after the other, under a bucket ID override. */
module RoundTrips {
  import opened Results
  import opened Names
  import opened Ontap
  import opened Rpc
  import opened Slices
  import opened Interleaving
  import opened Convergence
  import opened Driver
  import opened Walks
  import opened Collisions

  /** A service that holds nothing of the account over these buckets. */
  ghost predicate Untouched(st: State, account: string, buckets: set<string>) {
    At(st.users, account) == None && forall b | b in buckets :: Gone(st, b, account)
  }

  lemma TargetSet(config: Config, buckets: seq<string>)
    requires buckets != []
    ensures BucketSet(config.RevokeTargets(buckets))
            == if config.bucketID == "" then BucketSet(buckets) else {config.bucketID}
  {
    var targets := config.RevokeTargets(buckets);
    assert forall k | 0 <= k < |buckets| :: targets[k] in targets && buckets[k] in buckets;
    assert targets[0] in targets;
    if config.bucketID == "" {
      assert targets == buckets;
    }
  }

  /** The Revoke's buckets are the granted ones exactly when the override makes no difference. */
  lemma TargetsAreGrantedExactly(config: Config, buckets: seq<string>)
    requires buckets != []
    ensures var targets, granted := BucketSet(config.RevokeTargets(buckets)), BucketSet(buckets);
            && (targets == granted <==> config.bucketID == "" || forall b | b in buckets :: b == config.bucketID)
            && (targets != granted ==> exists b :: b in granted && b !in targets)
  {
    TargetSet(config, buckets);
    assert buckets[0] in BucketSet(buckets);
    if config.bucketID != "" {
      if b :| b in buckets && b != config.bucketID {
        assert b in BucketSet(buckets) && b !in {config.bucketID};
      } else {
        assert BucketSet(buckets) == {config.bucketID};
      }
    }
  }

  /** Revoking other buckets than the granted ones leaves a granted policy behind. */
  lemma LeftBehind(before: State, after: State, a: string, granted: set<string>, targets: set<string>)
    requires BucketsApart(a, granted + targets) && Untouched(before, a, granted + targets)
    requires forall b | b in granted :: Bound(after, b, a)
    requires exists b :: b in granted && b !in targets
    ensures StrangePolicies(after, {a}, targets) != before.policies
  {
    var b :| b in granted && b !in targets;
    assert Bound(after, b, a) && Gone(before, b, a);
    assert PolicyName(b, a) in StrangePolicies(after, {a}, targets);
  }

  /** From an idle driver, whatever a Revoke of other buckets does, it ends in the state its buckets determine. */
  lemma IdleRevoke(s: System, granting: seq<Event>, revoking: seq<Event>, a: string,
                   targets: set<string>, granted: set<string>, now: Tick)
    requires Safe(s, {a}, granted, now) && Timely(now, granting) && InScope(granting, {a}, granted)
    requires Timely(Clock(now, granting), revoking) && InScope(revoking, {a}, targets)
    requires EndsRevoked(Run(System(Run(s, granting).st, map[]), revoking), a, targets)
    ensures AccessIn(Run(System(Run(s, granting).st, map[]), revoking).st)
            == StrangeAccess(Run(s, granting).st, {a}, targets)
  {
    RunKeepsSafe(s, granting, {a}, granted, now);
    NoLeakAfterCrash(System(Run(s, granting).st, map[]), revoking, a, targets, Clock(now, granting));
  }

  /**
   Grant, then Revoke of the same request, brings policies, groups and users back to what they were exactly when no
   override is configured or every granted bucket is the override: Revoke works on the override, Grant does not.
   */
  lemma RoundTripExactly(s: System, granting: seq<Event>, revoking: seq<Event>, config: Config,
                         a: string, buckets: seq<string>, targets: set<string>, granted: set<string>, now: Tick)
    requires buckets != [] && targets == BucketSet(config.RevokeTargets(buckets)) && granted == BucketSet(buckets)
    requires Safe(s, {a}, granted, now) && Untouched(s.st, a, granted + targets) && BucketsApart(a, granted + targets)
    requires Timely(now, granting) && InScope(granting, {a}, granted) && EndsGranted(Run(s, granting), a, granted)
    requires Timely(Clock(now, granting), revoking) && InScope(revoking, {a}, targets)
    requires EndsRevoked(Run(System(Run(s, granting).st, map[]), revoking), a, targets)
    ensures AccessIn(Run(System(Run(s, granting).st, map[]), revoking).st) == AccessIn(s.st)
            <==> config.bucketID == "" || forall b | b in buckets :: b == config.bucketID
  {
    var after := Run(s, granting).st;
    GrantReaches(s, granting, a, granted, now);
    IdleRevoke(s, granting, revoking, a, targets, granted, now);
    TargetsAreGrantedExactly(config, buckets);
    if targets == granted {
      GoneIsStrange(s.st, a, granted);
    } else {
      LeftBehind(s.st, after, a, granted, targets);
    }
  }

  /**
   A run for every override and every bucket that is another one, with names apart: every call of the Grant and of the
   Revoke is answered, both succeed, and the granted policy is still there.
   */
  lemma RoundTripFails(config: Config, a: string, b: string) returns (granting: seq<Event>, revoking: seq<Event>)
    requires config.bucketID != "" && b != config.bucketID && BucketsApart(a, {b, config.bucketID})
    ensures Timely(2, granting) && InScope(granting, {a}, {b}) && EndsGranted(Run(Stocked(b, b), granting), a, {b})
    ensures Timely(Clock(2, granting), revoking) && InScope(revoking, {a}, {config.bucketID})
    ensures var s := System(Run(Stocked(b, b), granting).st, map[]);
            && Accessing(a) in Run(s, revoking).processes
            && Run(s, revoking).processes[Accessing(a)] == Process(Revoke(a, config.RevokeTargets([b])), Done(Revoked))
            && AccessIn(Run(s, revoking).st) != AccessIn(Stocked(b, b).st)
  {
    var o := config.bucketID;
    StockedHolds(b, b);
    var keys, id;
    granting, keys, id := GrantOne(Stocked(b, b), a, b, 0, 2);
    var s := System(Run(Stocked(b, b), granting).st, map[]);
    assert b in {b} && o in {o} && b in {b, o} && o in {b, o};
    assert s.st.groups == map[id := GroupFor(b, a)];
    assert !GroupNamed(s.st, GroupName(o, a));
    revoking := RevokeOne(s, a, o, Clock(2, granting));
    assert config.RevokeTargets([b]) == [o];
    assert BucketSet([b]) == {b};
    assert PolicyName(b, a) in Run(s, revoking).st.policies;
  }

  /** For one, under the override "o" the account "a" keeps its policy for the bucket "b". */
  lemma RoundTripFailsForOne() returns (granting: seq<Event>, revoking: seq<Event>)
    ensures Timely(2, granting) && EndsGranted(Run(Stocked("b", "b"), granting), "a", {"b"})
    ensures var config := Config("o", None, None, None, None);
            var s := System(Run(Stocked("b", "b"), granting).st, map[]);
            && Accessing("a") in Run(s, revoking).processes
            && Run(s, revoking).processes[Accessing("a")]
               == Process(Revoke("a", config.RevokeTargets(["b"])), Done(Revoked))
            && AccessIn(Run(s, revoking).st) != AccessIn(Stocked("b", "b").st)
  {
    var config := Config("o", None, None, None, None);
    assert NormalForm("a") && NormalForm("b") && NormalForm("o");
    NamesInjective("b", "a", "o", "a");
    assert BucketsApart("a", {"b", config.bucketID});
    granting, revoking := RoundTripFails(config, "a", "b");
  }
}
