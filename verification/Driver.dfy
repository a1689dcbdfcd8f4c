/** The driver's four RPC handlers. */
module Driver {
  import opened Results
  import opened Errors
  import opened Ontap
  import opened Rpc
  import opened Service
  import opened Client
  import opened PollTimer
  import opened BucketClient
  import opened Credentials
  import opened Interleaving
  import opened Buckets
  import opened Deletions
  import opened Tenant
  import opened Tenancy

  /** The errors a configuration may inject, one per handler. */
  datatype Config = Config(
    bucketID: string,
    createError: Option<Error>,
    deleteError: Option<Error>,
    grantError: Option<Error>,
    revokeError: Option<Error>)
  {
    /** getName, as the code has it. */
    function GetName(name: string): (string, bool) {
      if bucketID != "" then (bucketID, false) else (name, true)
    }

    /** getName, with the flag its caller and the documentation mean. */
    function IntendedName(name: string): (string, bool) {
      if bucketID != "" then (bucketID, true) else (name, false)
    }

    function GetBucketID(id: string): string {
      if bucketID != "" then bucketID else id
    }

    /** The buckets a Revoke works on; a Grant works on the requested ones. */
    function RevokeTargets(buckets: seq<string>): seq<string> {
      seq(|buckets|, i requires 0 <= i < |buckets| => GetBucketID(buckets[i]))
    }
  }

  /** The service has not been touched. */
  twostate predicate Still(be: Backend)
    reads be
  {
    be.Story() == old(be.Story()) && (old(be.Valid()) ==> be.Valid())
  }

  /** One RPC has been begun here and stands as expected; the object is where a run of the machine has got to. */
  twostate predicate OneBegun(be: Backend, slot: Slot, p: Process)
    reads be
  {
    && be.Valid() && old(be.log) <= be.log && be.begun == old(be.begun) + [p.rpc]
    && slot in be.processes && be.processes[slot] == p
  }

  /** One RPC has been begun here, and this is its reply. */
  twostate predicate Served(be: Backend, slot: Slot, rpc: Rpc, reply: Outcome)
    reads be
  {
    OneBegun(be, slot, Process(rpc, Done(reply)))
  }

  /** The reply of an RPC whose tenant could not be loaded. */
  predicate Unloaded(reply: Outcome) {
    reply.Failed? && reply.code == Unavailable
  }

  /** DriverCreateBucket, on the client it has resolved. */
  method CreateOn(be: Backend, config: Config, number: nat, name: string, params: Params, clock: PollClock)
    returns (reply: Outcome)
    requires be.Valid() && !be.Busy(Bucketing(number))
    modifies be
    ensures config.createError.Some? ==>
              reply == Failed(CodeOf(config.createError.value), config.createError.value) && Still(be)
    ensures config.createError.None? ==>
              var bucketName := if config.bucketID != "" then config.bucketID else name;
              && Served(be, Bucketing(number), Create(bucketName, params, config.bucketID == ""), reply)
              && !Unloaded(reply) && (reply.Created? ==> reply.bucketId == bucketName)
  {
    var (bucketName, overridden) := config.GetName(name);
    if config.createError.Some? {
      return Failed(CodeOf(config.createError.value), config.createError.value);
    }
    var slot := Bucketing(number);
    be.Begin(Create(bucketName, params, overridden), number);

    var found := BucketExists(be, slot, bucketName);
    if found.Failure? {
      return Failed(Internal, found.error);
    }
    if found.value {
      if overridden {
        return Created(bucketName);
      }
      var equal := IsBucketEqual(be, slot, bucketName, params);
      if equal.Failure? {
        return Failed(Internal, equal.error);
      }
      if equal.value {
        return Created(bucketName);
      }
      return Failed(AlreadyExists, Plain("bucket already exists"));
    }
    var err := CreateBucket(be, slot, bucketName, params, clock);
    if err.Some? {
      if IsQuotaExhausted(err.value) {
        return Failed(ResourceExhausted, err.value);
      }
      return Failed(CodeOf(err.value), err.value);
    }
    return Created(bucketName);
  }

  /** DriverDeleteBucket, on the client it has resolved. */
  method DeleteOn(be: Backend, config: Config, number: nat, id: string, clock: PollClock) returns (reply: Outcome)
    requires be.Valid() && !be.Busy(Bucketing(number))
    modifies be
    ensures config.deleteError.Some? ==>
              reply == Failed(CodeOf(config.deleteError.value), config.deleteError.value) && Still(be)
    ensures config.deleteError.None? ==>
              var bucketId := if config.bucketID != "" then config.bucketID else id;
              Served(be, Bucketing(number), Delete(bucketId), reply) && !Unloaded(reply)
  {
    var bucketId := config.GetBucketID(id);
    if config.deleteError.Some? {
      return Failed(CodeOf(config.deleteError.value), config.deleteError.value);
    }
    be.Begin(Delete(bucketId), number);
    var err := BucketClient.DeleteBucket(be, Bucketing(number), bucketId, clock);
    if err.Some? {
      return Failed(Internal, err.value);
    }
    return Deleted;
  }

  /** DriverGrantBucketAccess, on the client it has resolved. */
  method GrantOn(be: Backend, config: Config, name: string, buckets: seq<string>) returns (reply: Outcome)
    requires be.Valid() && !be.Busy(Accessing(name))
    modifies be
    ensures buckets != [] && config.grantError.Some? ==>
              reply == Failed(CodeOf(config.grantError.value), config.grantError.value) && Still(be)
    ensures buckets == [] || config.grantError.None? ==>
              Served(be, Accessing(name), Grant(name, buckets), reply) && !Unloaded(reply)
  {
    if buckets == [] {
      be.Begin(Grant(name, buckets), 0);
      return Failed(InvalidArgument, Plain("grant request contains no buckets"));
    }
    if config.grantError.Some? {
      return Failed(CodeOf(config.grantError.value), config.grantError.value);
    }
    var slot := Accessing(name);
    ghost var rpc := Grant(name, buckets);
    be.Begin(Grant(name, buckets), 0);

    var bucketInfos: seq<string> := [];
    var credentialInfo := KeyPair(0, 0);
    var i := 0;
    while i < |buckets|
      invariant 0 <= i <= |buckets|
      invariant bucketInfos == buckets[..i]
      invariant var stage := if i < |buckets| then Probing(i) else Done(Granted(name, buckets, credentialInfo));
                OneBegun(be, slot, Process(rpc, stage))
    {
      var bucketId := buckets[i];
      var found := BucketExists(be, slot, bucketId);
      if found.Failure? {
        return Failed(Internal, found.error);
      }
      if !found.value {
        return Failed(NotFound, Plain("bucket not found"));
      }
      var access := CreateBucketAccess(be, slot, bucketId, name);
      if access.Failure? {
        if IsQuotaExhausted(access.error) {
          return Failed(ResourceExhausted, access.error);
        }
        return Failed(Internal, access.error);
      }
      credentialInfo := access.value;
      bucketInfos := bucketInfos + [bucketId];
      i := i + 1;
    }
    assert buckets[..i] == buckets;
    return Granted(name, bucketInfos, credentialInfo);
  }

  /** DriverRevokeBucketAccess, on the client it has resolved. */
  method RevokeOn(be: Backend, config: Config, accountId: string, buckets: seq<string>) returns (reply: Outcome)
    requires be.Valid() && !be.Busy(Accessing(accountId))
    modifies be
    ensures buckets != [] && config.revokeError.Some? ==>
              reply == Failed(CodeOf(config.revokeError.value), config.revokeError.value) && Still(be)
    ensures buckets == [] || config.revokeError.None? ==>
              var rpc := Revoke(accountId, config.RevokeTargets(buckets));
              Served(be, Accessing(accountId), rpc, reply) && !Unloaded(reply)
  {
    ghost var rpc := Revoke(accountId, config.RevokeTargets(buckets));
    if buckets == [] {
      be.Begin(Revoke(accountId, config.RevokeTargets(buckets)), 0);
      return Failed(InvalidArgument, Plain("revoke request contains no buckets"));
    }
    if config.revokeError.Some? {
      return Failed(CodeOf(config.revokeError.value), config.revokeError.value);
    }
    var slot := Accessing(accountId);
    be.Begin(Revoke(accountId, config.RevokeTargets(buckets)), 0);

    var i := 0;
    while i < |buckets|
      invariant 0 <= i <= |buckets|
      invariant OneBegun(be, slot, Process(rpc, if i < |buckets| then ListingGroups(i) else Done(Revoked)))
    {
      var bucketId := buckets[i];
      if config.bucketID != "" {
        bucketId := config.bucketID;
      }
      var err := DeleteBucketAccess(be, slot, bucketId, accountId);
      if err.Some? {
        return Failed(Internal, err.value);
      }
      i := i + 1;
    }
    return Revoked;
  }

  /**
   The provisioner server: its configuration and the services its clients can reach. Two clients built from the same
   settings talk to the same service, so clients are told apart by their service.
   */
  datatype Provisioner = Provisioner(setup: Setup, config: Config, services: map<BackendKey, Backend>) {
    /** Each service is an object of its own. */
    ghost predicate Apart() {
      forall key, key' | key in services && key' in services && key != key' :: services[key] != services[key']
    }

    /** The service the RPC resolves to, if it resolves to any, is there, and holds no RPC in this slot. */
    ghost predicate Free(params: Params, secrets: Secrets, slot: Slot)
      reads services.Values
    {
      var target := Target(setup, params, secrets);
      target.Some? ==>
        target.value in services && services[target.value].Valid() && !services[target.value].Busy(slot)
    }

    /** What an RPC may change: the service it resolves to. */
    ghost function Touches(params: Params, secrets: Secrets): set<Backend> {
      var target := Target(setup, params, secrets);
      if target.Some? && target.value in services then {services[target.value]} else {}
    }
  }

  /** Every service but the one the RPC resolves to is as it was. */
  twostate predicate OthersStill(server: Provisioner, params: Params, secrets: Secrets)
    reads server.services.Values
  {
    forall key | key in server.services && Target(server.setup, params, secrets) != Some(key) ::
      Still(server.services[key])
  }

  /**
   What each handler promises: an RPC whose tenant cannot be loaded is answered Unavailable; an injected error is
   answered before anything is called; any other RPC runs on the one service it resolves to, and is never answered
   Unavailable.
   */
  twostate predicate Handled(server: Provisioner, params: Params, secrets: Secrets, slot: Slot, rpc: Rpc,
                             injected: Option<Error>, reply: Outcome)
    reads server.services.Values
  {
    && OthersStill(server, params, secrets)
    && match Target(server.setup, params, secrets)
       case None => Unloaded(reply)
       case Some(key) =>
         && key in server.services
         && if injected.Some? then
              reply == Failed(CodeOf(injected.value), injected.value) && Still(server.services[key])
            else
              Served(server.services[key], slot, rpc, reply) && !Unloaded(reply)
  }

  method DriverCreateBucket(server: Provisioner, secrets: Secrets, order: seq<Key>, number: nat, name: string,
                            params: Params, clock: PollClock)
    returns (reply: Outcome)
    requires Walk(order) && server.Apart() && server.Free(params, secrets, Bucketing(number))
    modifies server.Touches(params, secrets)
    ensures var bucketName := if server.config.bucketID != "" then server.config.bucketID else name;
            && Handled(server, params, secrets, Bucketing(number),
                       Create(bucketName, params, server.config.bucketID == ""), server.config.createError, reply)
            && (reply.Created? ==> reply.bucketId == bucketName)
  {
    var client := ResolveClient(server.setup, params, secrets, order);
    if client.Failure? {
      return client.error;
    }
    reply := CreateOn(server.services[client.value], server.config, number, name, params, clock);
  }

  method DriverDeleteBucket(server: Provisioner, params: Params, secrets: Secrets, order: seq<Key>, number: nat,
                            id: string, clock: PollClock)
    returns (reply: Outcome)
    requires Walk(order) && server.Apart() && server.Free(params, secrets, Bucketing(number))
    modifies server.Touches(params, secrets)
    ensures var bucketId := if server.config.bucketID != "" then server.config.bucketID else id;
            Handled(server, params, secrets, Bucketing(number), Delete(bucketId), server.config.deleteError, reply)
  {
    var client := ResolveClient(server.setup, params, secrets, order);
    if client.Failure? {
      return client.error;
    }
    reply := DeleteOn(server.services[client.value], server.config, number, id, clock);
  }

  /** An injected error comes after the check for an empty bucket list. */
  function InjectedError(error: Option<Error>, buckets: seq<string>): Option<Error> {
    if buckets == [] then None else error
  }

  method DriverGrantBucketAccess(server: Provisioner, params: Params, secrets: Secrets, order: seq<Key>, name: string,
                                 buckets: seq<string>)
    returns (reply: Outcome)
    requires Walk(order) && server.Apart() && server.Free(params, secrets, Accessing(name))
    modifies server.Touches(params, secrets)
    ensures Handled(server, params, secrets, Accessing(name), Grant(name, buckets),
                    InjectedError(server.config.grantError, buckets), reply)
  {
    var client := ResolveClient(server.setup, params, secrets, order);
    if client.Failure? {
      return client.error;
    }
    reply := GrantOn(server.services[client.value], server.config, name, buckets);
  }

  method DriverRevokeBucketAccess(server: Provisioner, params: Params, secrets: Secrets, order: seq<Key>,
                                  accountId: string, buckets: seq<string>)
    returns (reply: Outcome)
    requires Walk(order) && server.Apart() && server.Free(params, secrets, Accessing(accountId))
    modifies server.Touches(params, secrets)
    ensures var rpc := Revoke(accountId, server.config.RevokeTargets(buckets));
            Handled(server, params, secrets, Accessing(accountId), rpc,
                    InjectedError(server.config.revokeError, buckets), reply)
  {
    var client := ResolveClient(server.setup, params, secrets, order);
    if client.Failure? {
      return client.error;
    }
    reply := RevokeOn(server.services[client.value], server.config, accountId, buckets);
  }

  /**
   What the handlers' contracts come to: the reply of a Grant that has returned is true of the service as it now is.
   */
  lemma ReturnedGrantStands(be: Backend, account: string, buckets: seq<string>, reply: Outcome,
                            accounts: set<string>, scope: set<string>)
    requires be.Valid() && Safe(be.origin, accounts, scope, be.start) && InScope(be.log, accounts, scope)
    requires Accessing(account) in be.processes
    requires be.processes[Accessing(account)] == Process(Grant(account, buckets), Done(reply)) && reply.Granted?
    ensures reply.bucketInfos == buckets && account in be.users && be.users[account] == reply.credentials
    ensures forall b | b in buckets :: Bound(be.Current().st, b, account)
  {
    be.LogIsTheRun();
    InterleavingSafety(be.origin, be.log, accounts, scope, be.start, account);
  }

  /** Its keys and its list of buckets are, whatever names collide and whatever else the service holds. */
  lemma ReturnedKeysAreLive(be: Backend, account: string, buckets: seq<string>, reply: Outcome)
    requires be.Valid() && Keyed(be.origin) && Accessing(account) in be.processes
    requires be.processes[Accessing(account)] == Process(Grant(account, buckets), Done(reply)) && reply.Granted?
    ensures reply.accountId == account && reply.bucketInfos == buckets
    ensures account in be.users && be.users[account] == reply.credentials
  {
    be.LogIsTheRun();
    FinishedKeysAreLive(be.origin, be.log, account);
  }

  /** And of a Revoke: nothing of the account is left for the buckets it worked on. */
  lemma ReturnedRevokeStands(be: Backend, account: string, buckets: seq<string>, accounts: set<string>,
                             scope: set<string>)
    requires be.Valid() && Safe(be.origin, accounts, scope, be.start) && InScope(be.log, accounts, scope)
    requires Accessing(account) in be.processes
    requires be.processes[Accessing(account)] == Process(Revoke(account, buckets), Done(Revoked))
    ensures account !in be.users && forall b | b in buckets :: Gone(be.Current().st, b, account)
  {
    be.LogIsTheRun();
    InterleavingSafety(be.origin, be.log, accounts, scope, be.start, account);
  }

  /** And of a validated Create: the one bucket of its name that is stored has the size it asked for. */
  lemma ReturnedCreateStands(be: Backend, slot: Slot, name: string, params: Params)
    requires be.Valid() && Creating(be.origin, name, be.start) && NoDeleteOf(name, be.log)
    requires slot in be.processes && be.processes[slot] == Process(Create(name, params, false), Done(Created(name)))
    ensures AtMostOne(be.Current().st, name) && RightSize(be.Current().st, name, params)
    ensures WantedSize(params) != AnySize ==> Faithful(be.Current().st, name, params)
    ensures AllFiltered(be.origin, be.log) && SuccessMeansNamed(be.origin, name) ==>
              Faithful(be.Current().st, name, params)
  {
    be.LogIsTheRun();
    CreatedMeansStored(be.origin, be.log, slot, be.start);
  }

  /** And of a Delete: of the buckets there were under its name none is left. */
  lemma ReturnedDeleteStands(be: Backend, slot: Slot, name: string)
    requires be.Valid() && YetToLook(be.origin, slot, name)
    requires AtMostOne(be.origin.st, name) && Sane(be.origin.st, be.start)
    requires slot in be.processes && be.processes[slot] == Process(Delete(name), Done(Deleted))
    ensures forall u | u in be.origin.st.buckets && be.origin.st.buckets[u].name == name :: u !in be.buckets
  {
    be.LogIsTheRun();
    DeletedMeansGone(be.origin, be.log, slot, name, be.start);
  }
}
