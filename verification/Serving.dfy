/**
 RPCs for any tenants, served one after the other: what each service goes through is the sub-run of the RPCs that
 resolve to it, and nothing else.
 */
module Serving {
  import opened Results
  import opened Errors
  import opened Rpc
  import opened Service
  import opened PollTimer
  import opened Tenant
  import opened Tenancy
  import opened Driver

  datatype Ask =
    | AskCreate(name: string)
    | AskDelete(id: string)
    | AskGrant(account: string, buckets: seq<string>)
    | AskRevoke(account: string, buckets: seq<string>)

  /** An RPC as it comes in, with the Secrets as they are at that moment. */
  datatype Incoming = Incoming(ask: Ask, number: nat, params: Params, secrets: Secrets, order: seq<Key>,
                               clock: PollClock)

  /** The RPC the driver makes of what it is asked for. */
  function Made(config: Config, ask: Ask, params: Params): Rpc {
    match ask
    case AskCreate(name) => Create(config.GetName(name).0, params, config.GetName(name).1)
    case AskDelete(id) => Delete(config.GetBucketID(id))
    case AskGrant(account, buckets) => Grant(account, buckets)
    case AskRevoke(account, buckets) => Revoke(account, config.RevokeTargets(buckets))
  }

  function Meant(config: Config, inc: Incoming): Rpc {
    Made(config, inc.ask, inc.params)
  }

  function ErrorFor(config: Config, inc: Incoming): Option<Error> {
    match inc.ask
    case AskCreate(_) => config.createError
    case AskDelete(_) => config.deleteError
    case AskGrant(_, buckets) => InjectedError(config.grantError, buckets)
    case AskRevoke(_, buckets) => InjectedError(config.revokeError, buckets)
  }

  function SlotFor(config: Config, inc: Incoming): Slot {
    SlotOf(Meant(config, inc), inc.number)
  }

  /** Every service is where a run of the machine has got to. */
  ghost predicate Ready(server: Provisioner)
    reads server.services.Values
  {
    forall key | key in server.services :: server.services[key].Valid()
  }

  /** The service the RPC resolves to, if any, is one of those there are. */
  predicate Known(server: Provisioner, inc: Incoming) {
    var target := Target(server.setup, inc.params, inc.secrets);
    target.Some? ==> target.value in server.services
  }

  /** One RPC, handed to its handler. */
  method Dispatch(server: Provisioner, inc: Incoming) returns (reply: Outcome)
    requires Walk(inc.order) && server.Apart()
    requires server.Free(inc.params, inc.secrets, SlotFor(server.config, inc))
    modifies server.Touches(inc.params, inc.secrets)
    ensures Handled(server, inc.params, inc.secrets, SlotFor(server.config, inc), Meant(server.config, inc),
                    ErrorFor(server.config, inc), reply)
  {
    match inc.ask {
      case AskCreate(name) =>
        reply := DriverCreateBucket(server, inc.secrets, inc.order, inc.number, name, inc.params, inc.clock);
      case AskDelete(id) =>
        reply := DriverDeleteBucket(server, inc.params, inc.secrets, inc.order, inc.number, id, inc.clock);
      case AskGrant(account, buckets) =>
        reply := DriverGrantBucketAccess(server, inc.params, inc.secrets, inc.order, account, buckets);
      case AskRevoke(account, buckets) =>
        reply := DriverRevokeBucketAccess(server, inc.params, inc.secrets, inc.order, account, buckets);
    }
  }

  /** The RPC resolves to this service and has been run there. */
  predicate RanAt(setup: Setup, config: Config, inc: Incoming, reply: Option<Outcome>, key: BackendKey) {
    reply.Some? && Target(setup, inc.params, inc.secrets) == Some(key) && ErrorFor(config, inc) == None
  }

  /** What one RPC makes a service go through. */
  function Part(setup: Setup, config: Config, inc: Incoming, reply: Option<Outcome>, key: BackendKey): seq<Rpc> {
    if RanAt(setup, config, inc, reply, key) then [Meant(config, inc)] else []
  }

  /** The sub-run of one service: the RPCs that were run there, in the order they came in. */
  function SubRun(setup: Setup, config: Config, incoming: seq<Incoming>, replies: seq<Option<Outcome>>,
                  key: BackendKey): seq<Rpc>
    requires |incoming| == |replies|
    decreases |incoming|
  {
    if incoming == [] then [] else
    var n := |incoming| - 1;
    SubRun(setup, config, incoming[..n], replies[..n], key) + Part(setup, config, incoming[n], replies[n], key)
  }

  lemma SubRunGrows(setup: Setup, config: Config, incoming: seq<Incoming>, replies: seq<Option<Outcome>>, inc: Incoming,
                    reply: Option<Outcome>, key: BackendKey)
    requires |incoming| == |replies|
    ensures SubRun(setup, config, incoming + [inc], replies + [reply], key)
            == SubRun(setup, config, incoming, replies, key) + Part(setup, config, inc, reply, key)
  {
    var n := |incoming|;
    assert (incoming + [inc])[..n] == incoming && (replies + [reply])[..n] == replies;
  }

  /** A service has gone through these RPCs; without any it is as it was. */
  predicate Grown(before: History, after: History, more: seq<Rpc>) {
    && after.begun == before.begun + more
    && before.log <= after.log
    && (more == [] ==> after == before)
  }

  lemma GrownOn(before: History, middle: History, after: History, more: seq<Rpc>, yetMore: seq<Rpc>)
    requires Grown(before, middle, more) && Grown(middle, after, yetMore)
    ensures Grown(before, after, more + yetMore)
  {
  }

  type Histories = map<BackendKey, History>

  /** Where all services stand. */
  ghost function Stories(server: Provisioner): Histories
    reads server.services.Values
  {
    map key | key in server.services :: server.services[key].Story()
  }

  /** Every service has gone through its part of this RPC. */
  predicate OneServed(setup: Setup, config: Config, inc: Incoming, reply: Option<Outcome>, before: Histories,
                      after: Histories) {
    && before.Keys == after.Keys
    && forall key | key in before :: Grown(before[key], after[key], Part(setup, config, inc, reply, key))
  }

  /** Every service has gone through its sub-run. */
  predicate AllServed(setup: Setup, config: Config, incoming: seq<Incoming>, replies: seq<Option<Outcome>>,
                      before: Histories, after: Histories)
    requires |incoming| == |replies|
  {
    && before.Keys == after.Keys
    && forall key | key in before :: Grown(before[key], after[key], SubRun(setup, config, incoming, replies, key))
  }

  lemma ServedOn(setup: Setup, config: Config, incoming: seq<Incoming>, replies: seq<Option<Outcome>>, inc: Incoming,
                 reply: Option<Outcome>, before: Histories, middle: Histories, after: Histories)
    requires |incoming| == |replies| && AllServed(setup, config, incoming, replies, before, middle)
    requires OneServed(setup, config, inc, reply, middle, after)
    ensures AllServed(setup, config, incoming + [inc], replies + [reply], before, after)
  {
    forall key | key in before
      ensures Grown(before[key], after[key], SubRun(setup, config, incoming + [inc], replies + [reply], key))
    {
      SubRunGrows(setup, config, incoming, replies, inc, reply, key);
      GrownOn(before[key], middle[key], after[key],
              SubRun(setup, config, incoming, replies, key), Part(setup, config, inc, reply, key));
    }
  }

  /** The reply is Unavailable exactly if the tenant could not be loaded. */
  predicate Tells(setup: Setup, config: Config, inc: Incoming, reply: Option<Outcome>) {
    reply.Some? && ErrorFor(config, inc) == None ==>
      (Unloaded(reply.value) <==> Target(setup, inc.params, inc.secrets) == None)
  }

  predicate AllTell(setup: Setup, config: Config, incoming: seq<Incoming>, replies: seq<Option<Outcome>>)
    requires |incoming| == |replies|
  {
    forall i | 0 <= i < |incoming| :: Tells(setup, config, incoming[i], replies[i])
  }

  lemma TellOn(setup: Setup, config: Config, incoming: seq<Incoming>, replies: seq<Option<Outcome>>, inc: Incoming,
               reply: Option<Outcome>)
    requires |incoming| == |replies| && AllTell(setup, config, incoming, replies) && Tells(setup, config, inc, reply)
    ensures AllTell(setup, config, incoming + [inc], replies + [reply])
  {
  }

  /** As many of them as there are replies have been served, in order. */
  predicate ServedSoFar(setup: Setup, config: Config, incoming: seq<Incoming>, replies: seq<Option<Outcome>>,
                        before: Histories, after: Histories)
    requires |replies| <= |incoming|
  {
    && AllServed(setup, config, incoming[..|replies|], replies, before, after)
    && AllTell(setup, config, incoming[..|replies|], replies)
  }

  lemma SoFarOn(setup: Setup, config: Config, incoming: seq<Incoming>, replies: seq<Option<Outcome>>,
                reply: Option<Outcome>, before: Histories, middle: Histories, after: Histories)
    requires |replies| < |incoming| && ServedSoFar(setup, config, incoming, replies, before, middle)
    requires Tells(setup, config, incoming[|replies|], reply)
    requires OneServed(setup, config, incoming[|replies|], reply, middle, after)
    ensures ServedSoFar(setup, config, incoming, replies + [reply], before, after)
  {
    var done, inc := incoming[..|replies|], incoming[|replies|];
    assert incoming[..|replies| + 1] == done + [inc];
    ServedOn(setup, config, done, replies, inc, reply, before, middle, after);
    TellOn(setup, config, done, replies, inc, reply);
  }

  /** One RPC, and where it leaves the services. */
  method ServeNow(server: Provisioner, inc: Incoming) returns (reply: Outcome)
    requires Walk(inc.order) && server.Apart() && Ready(server)
    requires server.Free(inc.params, inc.secrets, SlotFor(server.config, inc))
    modifies server.Touches(inc.params, inc.secrets)
    ensures Ready(server) && Tells(server.setup, server.config, inc, Some(reply))
    ensures OneServed(server.setup, server.config, inc, Some(reply), old(Stories(server)), Stories(server))
  {
    ghost var before := Stories(server);
    reply := Dispatch(server, inc);
    forall key | key in server.services
      ensures Grown(before[key], server.services[key].Story(), Part(server.setup, server.config, inc, Some(reply), key))
      ensures server.services[key].Valid()
    {
      if Target(server.setup, inc.params, inc.secrets) != Some(key) {
        assert Still(server.services[key]);
      }
    }
  }

  /** One RPC; None when it is held back, because there is one in flight in its slot. */
  method ServeOne(server: Provisioner, inc: Incoming) returns (reply: Option<Outcome>)
    requires Walk(inc.order) && server.Apart() && Ready(server) && Known(server, inc)
    modifies server.Touches(inc.params, inc.secrets)
    ensures Ready(server) && Tells(server.setup, server.config, inc, reply)
    ensures OneServed(server.setup, server.config, inc, reply, old(Stories(server)), Stories(server))
  {
    var target := Target(server.setup, inc.params, inc.secrets);
    if target.Some? && server.services[target.value].Busy(SlotFor(server.config, inc)) {
      return None;
    }
    var outcome := ServeNow(server, inc);
    return Some(outcome);
  }

  /**
   RPCs for any tenants, with Secrets that change as they like, one after the other: at each service the driver has
   begun exactly the RPCs that resolve to it, in order, and the service is where a run with these has got to; a service
   no RPC was run at is as it was; and an RPC is answered Unavailable exactly if its tenant could not be loaded.
   */
  method ServeAll(server: Provisioner, incoming: seq<Incoming>) returns (replies: seq<Option<Outcome>>)
    requires server.Apart() && Ready(server)
    requires forall inc | inc in incoming :: Walk(inc.order) && Known(server, inc)
    modifies server.services.Values
    ensures |replies| == |incoming| && Ready(server)
    ensures AllServed(server.setup, server.config, incoming, replies, old(Stories(server)), Stories(server))
    ensures AllTell(server.setup, server.config, incoming, replies)
  {
    ghost var before := Stories(server);
    replies := [];
    while |replies| < |incoming|
      invariant |replies| <= |incoming| && Ready(server)
      invariant ServedSoFar(server.setup, server.config, incoming, replies, before, Stories(server))
    {
      var inc := incoming[|replies|];
      ghost var middle := Stories(server);
      var reply := ServeOne(server, inc);
      SoFarOn(server.setup, server.config, incoming, replies, reply, before, middle, Stories(server));
      replies := replies + [reply];
    }
    assert incoming[..|replies|] == incoming;
  }
}
