/**
 The four driver RPCs as processes that wait for one REST call at a time, and runs of any number of
 them against one ONTAP service.
 */
module Rpc {
  import opened Results
  import opened Text
  import opened Errors
  import opened Names
  import opened Ontap
  import Size

  type Params = map<string, string>

  /** An RPC as the client carries it out: bucket names are the ones left after the configured override. */
  datatype Rpc =
    | Create(name: string, params: Params, skipValidation: bool)
    | Delete(name: string)
    | Grant(account: string, buckets: seq<string>)
    | Revoke(account: string, buckets: seq<string>)

  datatype Outcome =
    | Created(bucketId: string)
    | Deleted
    | Granted(accountId: string, bucketInfos: seq<string>, credentials: KeyPair)
    | Revoked
    | Failed(code: Code, error: Error)

  /** Where an RPC stands: the REST call it waits for. `i` is the position in the bucket list. */
  datatype Stage =
    | Checking
    | Comparing(want: int)
    | Posting(bucket: Bucket)
    | Polling(job: Tick)
    | Finding
    | Removing(uuid: Tick)
    | Watching(job: Tick)
    | Probing(i: nat)
    | PostingPolicy(i: nat)
    | PatchingPolicy(i: nat)
    | PostingUser(i: nat)
    | PatchingUser(i: nat)
    | PostingGroup(i: nat, keys: KeyPair)
    | ListingGroups(i: nat)
    | DeletingGroups(i: nat, ids: seq<Tick>)
    | DeletingPolicy(i: nat)
    | DeletingUser(i: nat)
    | Done(outcome: Outcome)

  datatype Process = Process(rpc: Rpc, stage: Stage) {
    /** Waiting for the answer to a REST call. */
    predicate Running() {
      match stage
      case Checking => rpc.Create?
      case Comparing(_) => rpc.Create?
      case Posting(_) => rpc.Create?
      case Polling(_) => rpc.Create?
      case Finding => rpc.Delete?
      case Removing(_) => rpc.Delete?
      case Watching(_) => rpc.Delete?
      case Probing(i) => rpc.Grant? && i < |rpc.buckets|
      case PostingPolicy(i) => rpc.Grant? && i < |rpc.buckets|
      case PatchingPolicy(i) => rpc.Grant? && i < |rpc.buckets|
      case PostingUser(i) => rpc.Grant? && i < |rpc.buckets|
      case PatchingUser(i) => rpc.Grant? && i < |rpc.buckets|
      case PostingGroup(i, _) => rpc.Grant? && i < |rpc.buckets|
      case ListingGroups(i) => rpc.Revoke? && i < |rpc.buckets|
      case DeletingGroups(i, ids) => rpc.Revoke? && i < |rpc.buckets| && ids != []
      case DeletingPolicy(i) => rpc.Revoke? && i < |rpc.buckets|
      case DeletingUser(i) => rpc.Revoke? && i < |rpc.buckets|
      case Done(_) => false
    }
  }

  function Param(params: Params, key: string): string {
    if key in params then params[key] else ""
  }

  datatype Wanted = AnySize | Bytes(size: int) | Malformed

  /** The size IsBucketEqual compares with; no size, or a blank one, matches every bucket. */
  function WantedSize(params: Params): Wanted {
    if Trim(Param(params, "size")) == "" then AnySize else
    match Size.ParseBucketSize(Param(params, "size"))
    case Success(size) => Bytes(size)
    case Failure(_) => Malformed
  }

  /** The bucket CreateBucket asks for, or why it does not ask. */
  function PlanBucket(name: string, params: Params): Result<Bucket, Error> {
    var rawSize := Trim(Param(params, "size"));
    if rawSize == "" then Failure(Coded(InvalidArgument, "size parameter is required")) else
    match Size.ParseBucketSize(rawSize)
    case Failure(_) => Failure(Coded(InvalidArgument, "invalid bucket size parameter"))
    case Success(size) =>
      var comment := Trim(Param(params, "comment"));
      var locking := Param(params, "objectLocking");
      if locking == "" then Success(Bucket(name, size, comment, false)) else
      match ParseBool(locking)
      case None => Failure(Plain("invalid syntax"))
      case Some(governance) => Success(Bucket(name, size, comment, governance))
  }

  function PolicyFor(bucket: string): Policy {
    Policy("COSI access policy for bucket " + bucket, [bucket, bucket + "/*"])
  }

  function GroupFor(bucket: string, account: string): Group {
    Group(GroupName(bucket, account), [account], [PolicyName(bucket, account)])
  }

  /** The REST call a running process waits for. */
  function NextRequest(p: Process): Request
    requires p.Running()
  {
    match p.stage
    case Checking => ListBuckets(p.rpc.name)
    case Comparing(_) => ListBuckets(p.rpc.name)
    case Posting(bucket) => PostBucket(bucket)
    case Polling(job) => GetJob(job)
    case Finding => ListBuckets(p.rpc.name)
    case Removing(uuid) => DeleteBucket(uuid)
    case Watching(job) => GetJob(job)
    case Probing(i) => ListBuckets(p.rpc.buckets[i])
    case PostingPolicy(i) => PostPolicy(PolicyName(p.rpc.buckets[i], p.rpc.account), PolicyFor(p.rpc.buckets[i]))
    case PatchingPolicy(i) => PatchPolicy(PolicyName(p.rpc.buckets[i], p.rpc.account), PolicyFor(p.rpc.buckets[i]))
    case PostingUser(_) => PostUser(p.rpc.account)
    case PatchingUser(_) => PatchUser(p.rpc.account)
    case PostingGroup(i, _) => PostGroup(GroupFor(p.rpc.buckets[i], p.rpc.account))
    case ListingGroups(i) => ListGroups(GroupName(p.rpc.buckets[i], p.rpc.account))
    case DeletingGroups(_, ids) => DeleteGroup(ids[0])
    case DeletingPolicy(i) => DeletePolicy(PolicyName(p.rpc.buckets[i], p.rpc.account))
    case DeletingUser(_) => DeleteUser(p.rpc.account)
  }

  /** bucketByName: the first record with exactly this name. */
  function FindBucket(records: seq<BucketRecord>, name: string): Option<BucketRecord> {
    if records == [] then None
    else if records[0].name == name then Some(records[0])
    else FindBucket(records[1..], name)
  }

  /** The groups deleteGroupIfExists deletes: the records with exactly this name. */
  function ExactGroups(records: seq<GroupRecord>, name: string): seq<Tick> {
    if records == [] then []
    else if records[0].name == name then [records[0].id] + ExactGroups(records[1..], name)
    else ExactGroups(records[1..], name)
  }

  /** How DriverCreateBucket reports an error of CreateBucket. */
  function CreateFailure(e: Error): Outcome {
    Failed(if IsQuotaExhausted(e) then ResourceExhausted else CodeOf(e), e)
  }

  /** How DriverGrantBucketAccess reports an error of CreateBucketAccess. */
  function GrantFailure(e: Error): Outcome {
    Failed(if IsQuotaExhausted(e) then ResourceExhausted else Internal, e)
  }

  /** The error of a job that ended in failure, with the job's own message as the fallback. */
  function JobError(operation: string, s: JobStatus, bucket: string): Error {
    JobFailed(operation, s.errorCode, if s.errorMessage == "" then s.message else s.errorMessage, bucket)
  }

  function AfterExists(name: string, params: Params, skipValidation: bool): Stage {
    if skipValidation then Done(Created(name)) else
    match WantedSize(params)
    case AnySize => Done(Created(name))
    case Malformed => Done(Failed(Internal, Plain("invalid bucket size parameter")))
    case Bytes(want) => Comparing(want)
  }

  function AfterMissing(name: string, params: Params): Stage {
    match PlanBucket(name, params)
    case Failure(e) => Done(CreateFailure(e))
    case Success(bucket) => Posting(bucket)
  }

  function AfterGroups(i: nat, ids: seq<Tick>): Stage {
    if ids == [] then DeletingPolicy(i) else DeletingGroups(i, ids)
  }

  /** Where a Grant goes on once bucket i is bound. */
  function AfterBucket(rpc: Rpc, i: nat, keys: KeyPair): Stage
    requires rpc.Grant?
  {
    if i + 1 < |rpc.buckets| then Probing(i + 1) else Done(Granted(rpc.account, rpc.buckets, keys))
  }

  /** Where a Revoke goes on once bucket i is done. */
  function AfterRevoked(rpc: Rpc, i: nat): Stage
    requires rpc.Revoke?
  {
    if i + 1 < |rpc.buckets| then ListingGroups(i + 1) else Done(Revoked)
  }

  function ResumeCreate(rpc: Rpc, stage: Stage, r: Response): Stage
    requires Process(rpc, stage).Running() && rpc.Create?
    requires Answers(NextRequest(Process(rpc, stage)), r)
  {
    match stage
    case Checking =>
      if r.Fault? then Done(Failed(Internal, r.error))
      else if r.buckets != [] then AfterExists(rpc.name, rpc.params, rpc.skipValidation)
      else AfterMissing(rpc.name, rpc.params)
    case Comparing(want) =>
      if r.Fault? then Done(Failed(Internal, r.error)) else
      var found := FindBucket(r.buckets, rpc.name);
      if found.Some? && found.value.size == want then Done(Created(rpc.name))
      else Done(Failed(AlreadyExists, Plain("bucket already exists")))
    case Posting(_) =>
      if r.Fault? then Done(CreateFailure(Wrapped("failed to initiate bucket creation", r.error)))
      else Polling(r.job)
    case Polling(job) =>
      if r.Fault? then Done(CreateFailure(Wrapped("failed waiting for bucket creation job", r.error)))
      else if r.status.state == "success" then Done(Created(rpc.name))
      else if r.status.state == "failure" then Done(CreateFailure(JobError("create", r.status, rpc.name)))
      else Polling(job)
  }

  function ResumeDelete(rpc: Rpc, stage: Stage, r: Response): Stage
    requires Process(rpc, stage).Running() && rpc.Delete?
    requires Answers(NextRequest(Process(rpc, stage)), r)
  {
    match stage
    case Finding =>
      if r.Fault? then Done(Failed(Internal, r.error)) else
      var found := FindBucket(r.buckets, rpc.name);
      if found.Some? then Removing(found.value.uuid) else Done(Deleted)
    case Removing(_) =>
      if r.Fault? then Done(Failed(Internal, Wrapped("failed to initiate bucket deletion", r.error)))
      else Watching(r.job)
    case Watching(job) =>
      if r.Fault? then Done(Failed(Internal, Wrapped("failed waiting for bucket deletion job", r.error)))
      else if r.status.state == "success" then Done(Deleted)
      else if r.status.state == "failure" then Done(Failed(Internal, JobError("deletion", r.status, rpc.name)))
      else Watching(job)
  }

  function ResumeGrant(rpc: Rpc, stage: Stage, r: Response): Stage
    requires Process(rpc, stage).Running() && rpc.Grant?
    requires Answers(NextRequest(Process(rpc, stage)), r)
  {
    var conflict := r.Fault? && IsHttpStatus(r.error, CONFLICT);
    match stage
    case Probing(i) =>
      if r.Fault? then Done(Failed(Internal, r.error))
      else if r.buckets == [] then Done(Failed(NotFound, Plain("bucket not found")))
      else PostingPolicy(i)
    case PostingPolicy(i) =>
      if conflict then PatchingPolicy(i) else if r.Fault? then Done(GrantFailure(r.error)) else PostingUser(i)
    case PatchingPolicy(i) =>
      if r.Fault? then Done(GrantFailure(r.error)) else PostingUser(i)
    case PostingUser(i) =>
      if conflict then PatchingUser(i) else if r.Fault? then Done(GrantFailure(r.error)) else PostingGroup(i, r.keys)
    case PatchingUser(i) =>
      if r.Fault? then Done(GrantFailure(r.error)) else PostingGroup(i, r.keys)
    case PostingGroup(i, keys) =>
      if r.Fault? && !conflict then Done(GrantFailure(r.error))
      else AfterBucket(rpc, i, keys)
  }

  function ResumeRevoke(rpc: Rpc, stage: Stage, r: Response): Stage
    requires Process(rpc, stage).Running() && rpc.Revoke?
    requires Answers(NextRequest(Process(rpc, stage)), r)
  {
    var failed := r.Fault? && !IsHttpStatus(r.error, NOT_FOUND);
    match stage
    case ListingGroups(i) =>
      if r.Fault? then Done(Failed(Internal, r.error))
      else AfterGroups(i, ExactGroups(r.groups, GroupName(rpc.buckets[i], rpc.account)))
    case DeletingGroups(i, ids) =>
      if failed then Done(Failed(Internal, r.error)) else AfterGroups(i, ids[1..])
    case DeletingPolicy(i) =>
      if failed then Done(Failed(Internal, r.error)) else DeletingUser(i)
    case DeletingUser(i) =>
      if failed then Done(Failed(Internal, r.error))
      else AfterRevoked(rpc, i)
  }

  /** What a running process does with the answer to the call it waited for. */
  function Resume(p: Process, r: Response): (q: Process)
    requires p.Running() && Answers(NextRequest(p), r)
    ensures q.rpc == p.rpc && (q.Running() || q.stage.Done?)
  {
    match p.rpc
    case Create(_, _, _) => p.(stage := ResumeCreate(p.rpc, p.stage, r))
    case Delete(_) => p.(stage := ResumeDelete(p.rpc, p.stage, r))
    case Grant(_, _) => p.(stage := ResumeGrant(p.rpc, p.stage, r))
    case Revoke(_, _) => p.(stage := ResumeRevoke(p.rpc, p.stage, r))
  }

  function Launch(rpc: Rpc): (p: Process)
    ensures p.rpc == rpc && (p.Running() || p.stage.Done?)
  {
    match rpc
    case Create(_, _, _) => Process(rpc, Checking)
    case Delete(_) => Process(rpc, Finding)
    case Grant(_, buckets) =>
      if buckets == [] then Process(rpc, Done(Failed(InvalidArgument, Plain("grant request contains no buckets"))))
      else Process(rpc, Probing(0))
    case Revoke(_, buckets) =>
      if buckets == [] then Process(rpc, Done(Failed(InvalidArgument, Plain("revoke request contains no buckets"))))
      else Process(rpc, ListingGroups(0))
  }

  /** Any number of bucket RPCs are in flight at a time, but one access RPC per account. */
  datatype Slot = Bucketing(number: nat) | Accessing(account: string)

  function SlotOf(rpc: Rpc, number: nat): Slot {
    match rpc
    case Create(_, _, _) => Bucketing(number)
    case Delete(_) => Bucketing(number)
    case Grant(account, _) => Accessing(account)
    case Revoke(account, _) => Accessing(account)
  }

  /** A service and the RPCs against it; a finished RPC stays in its slot until the next one begins. */
  datatype System = System(st: State, processes: map<Slot, Process>) {
    predicate Busy(slot: Slot) {
      slot in processes && processes[slot].Running()
    }
  }

  /** Abandon drops an RPC wherever it stands: the driver crashed, or the caller went away. */
  datatype Action =
    | Begin(rpc: Rpc, number: nat)
    | Call(slot: Slot, fate: Fate)
    | Finish(job: Tick, end: Ending)
    | Abandon(slot: Slot)

  datatype Event = Event(tick: Tick, action: Action)

  function Step(s: System, e: Event): System {
    match e.action
    case Begin(rpc, number) =>
      var slot := SlotOf(rpc, number);
      if s.Busy(slot) then s else s.(processes := s.processes[slot := Launch(rpc)])
    case Call(slot, fate) =>
      if !s.Busy(slot) then s else
      var p := s.processes[slot];
      var (st, r) := Serve(s.st, NextRequest(p), fate, e.tick);
      System(st, s.processes[slot := Resume(p, r)])
    case Finish(job, end) => s.(st := FinishJob(s.st, job, end, e.tick))
    case Abandon(slot) => s.(processes := s.processes - {slot})
  }

  function Run(s: System, events: seq<Event>): System
    decreases |events|
  {
    if events == [] then s else Run(Step(s, events[0]), events[1..])
  }

  /** From `now` on, every event has a later tick than the one before. */
  predicate Timely(now: Tick, events: seq<Event>)
    decreases |events|
  {
    events == [] || (now <= events[0].tick && Timely(events[0].tick + 1, events[1..]))
  }

  function Clock(now: Tick, events: seq<Event>): Tick
    decreases |events|
  {
    if events == [] then now else Clock(events[0].tick + 1, events[1..])
  }

  lemma {:induction false} RunConcat(s: System, now: Tick, xs: seq<Event>, ys: seq<Event>)
    ensures Run(s, xs + ys) == Run(Run(s, xs), ys)
    ensures Timely(now, xs + ys) <==> Timely(now, xs) && Timely(Clock(now, xs), ys)
    ensures Clock(now, xs + ys) == Clock(Clock(now, xs), ys)
    decreases |xs|
  {
    if xs == [] {
      assert xs + ys == ys;
    } else {
      assert (xs + ys)[1..] == xs[1..] + ys;
      RunConcat(Step(s, xs[0]), xs[0].tick + 1, xs[1..], ys);
    }
  }

  lemma RunOne(s: System, now: Tick, e: Event)
    ensures Run(s, [e]) == Step(s, e)
    ensures Timely(now, [e]) <==> now <= e.tick
    ensures Clock(now, [e]) == e.tick + 1
  {
    assert [e][1..] == [];
  }
}
