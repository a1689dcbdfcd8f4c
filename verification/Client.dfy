/**
 The ONTAP client, call by call. Each method takes the RPC in `slot` from the stage it is called in to the stage its
 contract names, and to no other; Backend.Do only accepts the very request that stage waits for.
 */
module Client {
  import opened Results
  import opened Errors
  import opened Names
  import opened Ontap
  import opened Rpc
  import opened Service

  /** The slot's RPC, and what has become of the service since, are as expected. */
  twostate predicate Moved(be: Backend, slot: Slot, p: Process)
    reads be
  {
    be.Valid() && old(be.log) <= be.log && slot in be.processes && be.processes[slot] == p && be.begun == old(be.begun)
  }

  /** bucketByName's loop. */
  method FirstExact(records: seq<BucketRecord>, name: string) returns (found: Option<BucketRecord>)
    ensures found == FindBucket(records, name)
    ensures match found
            case None => forall r | r in records :: r.name != name
            case Some(r) => exists k | 0 <= k < |records| ::
              records[k] == r && r.name == name && forall j | 0 <= j < k :: records[j].name != name
  {
    var k := 0;
    while k < |records|
      invariant 0 <= k <= |records| && forall j | 0 <= j < k :: records[j].name != name
      invariant FindBucket(records, name) == FindBucket(records[k..], name)
    {
      if records[k].name == name {
        return Some(records[k]);
      }
      assert records[k..][1..] == records[k + 1..];
      k := k + 1;
    }
    return None;
  }

  method CreateOrUpdatePolicy(be: Backend, slot: Slot, policyName: string, bucket: string) returns (err: Option<Error>)
    requires be.Valid() && be.Busy(slot) && be.processes[slot].stage.PostingPolicy?
    requires var Process(rpc, PostingPolicy(i)) := be.processes[slot];
             bucket == rpc.buckets[i] && policyName == PolicyName(bucket, rpc.account)
    modifies be
    ensures var p := old(be.processes[slot]);
            match err
            case None => Moved(be, slot, p.(stage := PostingUser(p.stage.i)))
            case Some(e) => Moved(be, slot, p.(stage := Done(GrantFailure(e))))
  {
    var policy := PolicyFor(bucket);
    var r := be.Do(slot, PostPolicy(policyName, policy));
    if !r.Fault? {
      return None;
    }
    if !IsHttpStatus(r.error, CONFLICT) {
      return Some(r.error);
    }
    r := be.Do(slot, PatchPolicy(policyName, policy));
    return if r.Fault? then Some(r.error) else None;
  }

  method CreateOrRotateUser(be: Backend, slot: Slot, userName: string) returns (res: Result<KeyPair, Error>)
    requires be.Valid() && be.Busy(slot) && be.processes[slot].stage.PostingUser?
    requires userName == be.processes[slot].rpc.account
    modifies be
    ensures var p := old(be.processes[slot]);
            match res
            case Success(keys) => Moved(be, slot, p.(stage := PostingGroup(p.stage.i, keys)))
            case Failure(e) => Moved(be, slot, p.(stage := Done(GrantFailure(e))))
  {
    var r := be.Do(slot, PostUser(userName));
    if r.Fault? {
      if !IsHttpStatus(r.error, CONFLICT) {
        return Failure(r.error);
      }
      r := be.Do(slot, PatchUser(userName));
      if r.Fault? {
        return Failure(r.error);
      }
    }
    return Success(r.keys);
  }

  method CreateGroupIfNeeded(be: Backend, slot: Slot, groupName: string, userName: string, policyName: string)
    returns (err: Option<Error>)
    requires be.Valid() && be.Busy(slot) && be.processes[slot].stage.PostingGroup?
    requires var Process(rpc, PostingGroup(i, _)) := be.processes[slot];
             && userName == rpc.account && groupName == GroupName(rpc.buckets[i], userName)
             && policyName == PolicyName(rpc.buckets[i], userName)
    modifies be
    ensures var p := old(be.processes[slot]);
            match err
            case None => Moved(be, slot, p.(stage := AfterBucket(p.rpc, p.stage.i, p.stage.keys)))
            case Some(e) => Moved(be, slot, p.(stage := Done(GrantFailure(e))))
  {
    var r := be.Do(slot, PostGroup(Group(groupName, [userName], [policyName])));
    if r.Fault? && !IsHttpStatus(r.error, CONFLICT) {
      return Some(r.error);
    }
    return None;
  }

  method CreateBucketAccess(be: Backend, slot: Slot, bucket: string, userID: string)
    returns (res: Result<KeyPair, Error>)
    requires be.Valid() && be.Busy(slot) && be.processes[slot].stage.PostingPolicy?
    requires var Process(rpc, PostingPolicy(i)) := be.processes[slot];
             bucket == rpc.buckets[i] && userID == rpc.account
    modifies be
    ensures var p := old(be.processes[slot]);
            match res
            case Success(keys) => Moved(be, slot, p.(stage := AfterBucket(p.rpc, p.stage.i, keys)))
            case Failure(e) => Moved(be, slot, p.(stage := Done(GrantFailure(e))))
  {
    var policyName := NormalizedName("cosi-" + bucket + "-" + userID + "-policy", POLICY_NAME_MAX);
    var groupName := NormalizedName("cosi-" + bucket + "-" + userID + "-group", GROUP_NAME_MAX);

    var err := CreateOrUpdatePolicy(be, slot, policyName, bucket);
    if err.Some? {
      return Failure(err.value);
    }
    var creds := CreateOrRotateUser(be, slot, userID);
    if creds.Failure? {
      return creds;
    }
    err := CreateGroupIfNeeded(be, slot, groupName, userID, policyName);
    if err.Some? {
      return Failure(err.value);
    }
    return creds;
  }

  method DeleteGroupIfExists(be: Backend, slot: Slot, groupName: string) returns (err: Option<Error>)
    requires be.Valid() && be.Busy(slot) && be.processes[slot].stage.ListingGroups?
    requires var Process(rpc, ListingGroups(i)) := be.processes[slot];
             groupName == GroupName(rpc.buckets[i], rpc.account)
    modifies be
    ensures var p := old(be.processes[slot]);
            match err
            case None => Moved(be, slot, p.(stage := DeletingPolicy(p.stage.i)))
            case Some(e) => Moved(be, slot, p.(stage := Done(Failed(Internal, e))))
  {
    ghost var p := be.processes[slot];
    var r := be.Do(slot, ListGroups(groupName));
    if r.Fault? {
      return Some(r.error);
    }
    var groups := r.groups;
    var k := 0;
    while k < |groups|
      invariant 0 <= k <= |groups|
      invariant Moved(be, slot, p.(stage := AfterGroups(p.stage.i, ExactGroups(groups[k..], groupName))))
    {
      var g := groups[k];
      assert groups[k..][0] == g && groups[k..][1..] == groups[k + 1..];
      k := k + 1;
      if g.name != groupName {
        continue;
      }
      assert ([g.id] + ExactGroups(groups[k..], groupName))[1..] == ExactGroups(groups[k..], groupName);
      r := be.Do(slot, DeleteGroup(g.id));
      if r.Fault? && !IsHttpStatus(r.error, NOT_FOUND) {
        return Some(r.error);
      }
    }
    return None;
  }

  method DeletePolicyIfExists(be: Backend, slot: Slot, policyName: string) returns (err: Option<Error>)
    requires be.Valid() && be.Busy(slot) && be.processes[slot].stage.DeletingPolicy?
    requires var Process(rpc, DeletingPolicy(i)) := be.processes[slot];
             policyName == PolicyName(rpc.buckets[i], rpc.account)
    modifies be
    ensures var p := old(be.processes[slot]);
            match err
            case None => Moved(be, slot, p.(stage := DeletingUser(p.stage.i)))
            case Some(e) => Moved(be, slot, p.(stage := Done(Failed(Internal, e))))
  {
    var r := be.Do(slot, DeletePolicy(policyName));
    if r.Fault? && !IsHttpStatus(r.error, NOT_FOUND) {
      return Some(r.error);
    }
    return None;
  }

  method DeleteUserIfExists(be: Backend, slot: Slot, userName: string) returns (err: Option<Error>)
    requires be.Valid() && be.Busy(slot) && be.processes[slot].stage.DeletingUser?
    requires userName == be.processes[slot].rpc.account
    modifies be
    ensures var p := old(be.processes[slot]);
            match err
            case None => Moved(be, slot, p.(stage := AfterRevoked(p.rpc, p.stage.i)))
            case Some(e) => Moved(be, slot, p.(stage := Done(Failed(Internal, e))))
  {
    var r := be.Do(slot, DeleteUser(userName));
    if r.Fault? && !IsHttpStatus(r.error, NOT_FOUND) {
      return Some(r.error);
    }
    return None;
  }

  method DeleteBucketAccess(be: Backend, slot: Slot, bucket: string, userID: string) returns (err: Option<Error>)
    requires be.Valid() && be.Busy(slot) && be.processes[slot].stage.ListingGroups?
    requires var Process(rpc, ListingGroups(i)) := be.processes[slot];
             bucket == rpc.buckets[i] && userID == rpc.account
    modifies be
    ensures var p := old(be.processes[slot]);
            match err
            case None => Moved(be, slot, p.(stage := AfterRevoked(p.rpc, p.stage.i)))
            case Some(e) => Moved(be, slot, p.(stage := Done(Failed(Internal, e))))
  {
    var policyName := NormalizedName("cosi-" + bucket + "-" + userID + "-policy", POLICY_NAME_MAX);
    var groupName := NormalizedName("cosi-" + bucket + "-" + userID + "-group", GROUP_NAME_MAX);

    err := DeleteGroupIfExists(be, slot, groupName);
    if err.Some? {
      return;
    }
    err := DeletePolicyIfExists(be, slot, policyName);
    if err.Some? {
      return;
    }
    err := DeleteUserIfExists(be, slot, userID);
  }
}
