/** The ONTAP S3 service as the client sees it: stored objects, REST requests, asynchronous jobs. */
module Ontap {
  import opened Errors

  /** The server's clock. Every event has its own tick, so what it mints at a tick is never minted again. */
  type Tick = nat

  datatype Bucket = Bucket(name: string, size: int, comment: string, governance: bool)

  datatype Policy = Policy(comment: string, resources: seq<string>)

  datatype Group = Group(name: string, users: seq<string>, policies: seq<string>)

  datatype KeyPair = KeyPair(accessKey: nat, secretKey: nat)

  datatype Effect = Install(bucket: Bucket) | Remove(uuid: Tick)

  datatype Job =
    | Pending(effect: Effect)
    | Finished(effect: Effect, ok: bool, errorCode: string, errorMessage: string, message: string)

  /** Buckets, jobs and groups are stored under the id the server gave them; policies and users under their name. */
  datatype State = State(
    buckets: map<Tick, Bucket>,
    jobs: map<Tick, Job>,
    policies: map<string, Policy>,
    users: map<string, KeyPair>,
    groups: map<Tick, Group>)

  datatype Request =
    | ListBuckets(name: string)
    | PostBucket(bucket: Bucket)
    | DeleteBucket(uuid: Tick)
    | GetJob(job: Tick)
    | PostPolicy(name: string, policy: Policy)
    | PatchPolicy(name: string, policy: Policy)
    | DeletePolicy(name: string)
    | PostUser(name: string)
    | PatchUser(name: string)
    | DeleteUser(name: string)
    | PostGroup(group: Group)
    | ListGroups(name: string)
    | DeleteGroup(id: Tick)

  datatype BucketRecord = BucketRecord(uuid: Tick, name: string, size: int)

  datatype GroupRecord = GroupRecord(id: Tick, name: string)

  datatype JobStatus = JobStatus(state: string, errorCode: string, errorMessage: string, message: string)

  datatype Response =
    | Fault(error: Error)
    | Ok
    | Buckets(buckets: seq<BucketRecord>)
    | Groups(groups: seq<GroupRecord>)
    | Accepted(job: Tick)
    | JobIs(status: JobStatus)
    | Minted(keys: KeyPair)

  /** The statuses the client looks for. */
  const CONFLICT: int := 409
  const NOT_FOUND: int := 404

  /** What a REST call may fail with. */
  predicate Transport(e: Error) {
    e.Plain? || e.Http? || e.ContextDone?
  }

  /**
   A failed call: no answer, none before the context was done, or an HTTP status the stored objects do not dictate
   (neither a conflict nor a missing object).
   */
  type Refusal = e: Error |
    Transport(e) && !IsHttpStatus(e, 409) && !IsHttpStatus(e, 404)
    witness Plain("")

  /** What becomes of a call: carried out and answered, carried out with the answer lost, or not carried out. */
  datatype Fate =
    | Answered(buckets: seq<BucketRecord>, groups: seq<GroupRecord>, text: string)
    | Unheard(error: Refusal)
    | Refused(error: Refusal)

  predicate GroupNamed(st: State, name: string) {
    exists id | id in st.groups :: st.groups[id].name == name
  }

  /** A listing may hold other names too, but the records with this name are exactly the stored ones. */
  predicate Honest(st: State, req: Request, fate: Fate)
    requires fate.Answered?
  {
    match req
    case ListBuckets(name) =>
      && (forall r | r in fate.buckets && r.name == name ::
            r.uuid in st.buckets && st.buckets[r.uuid].name == name && st.buckets[r.uuid].size == r.size)
      && (forall u | u in st.buckets && st.buckets[u].name == name ::
            BucketRecord(u, name, st.buckets[u].size) in fate.buckets)
    case ListGroups(name) =>
      && (forall r | r in fate.groups && r.name == name :: r.id in st.groups && st.groups[r.id].name == name)
      && (forall id | id in st.groups && st.groups[id].name == name :: GroupRecord(id, name) in fate.groups)
    case _ => true
  }

  /** The call is carried out, and its answer is heard. */
  predicate Heard(st: State, req: Request, fate: Fate) {
    fate.Answered? && Honest(st, req, fate)
  }

  /** The keys minted at a tick. */
  function KeysAt(tick: Tick): KeyPair {
    KeyPair(2 * tick, 2 * tick + 1)
  }

  /** The change a request makes when it is carried out. */
  function Apply(st: State, req: Request, tick: Tick): State {
    match req
    case ListBuckets(_) => st
    case PostBucket(bucket) => st.(jobs := st.jobs[tick := Pending(Install(bucket))])
    case DeleteBucket(uuid) =>
      if uuid in st.buckets then st.(jobs := st.jobs[tick := Pending(Remove(uuid))]) else st
    case GetJob(_) => st
    case PostPolicy(name, policy) =>
      if name in st.policies then st else st.(policies := st.policies[name := policy])
    case PatchPolicy(name, policy) =>
      if name in st.policies then st.(policies := st.policies[name := policy]) else st
    case DeletePolicy(name) => st.(policies := st.policies - {name})
    case PostUser(name) =>
      if name in st.users then st else st.(users := st.users[name := KeysAt(tick)])
    case PatchUser(name) =>
      if name in st.users then st.(users := st.users[name := KeysAt(tick)]) else st
    case DeleteUser(name) => st.(users := st.users - {name})
    case PostGroup(group) =>
      if GroupNamed(st, group.name) then st else st.(groups := st.groups[tick := group])
    case ListGroups(_) => st
    case DeleteGroup(id) => st.(groups := st.groups - {id})
  }

  /** Job states other than the two terminal ones all mean pending. */
  predicate Terminal(state: string) {
    state == "success" || state == "failure"
  }

  function StatusOf(job: Job, text: string): JobStatus {
    match job
    case Pending(_) => JobStatus(if Terminal(text) then "" else text, "", "", "")
    case Finished(_, ok, errorCode, errorMessage, message) =>
      JobStatus(if ok then "success" else "failure", errorCode, errorMessage, message)
  }

  /** The answer to a request that is carried out in `st`. */
  function Reply(st: State, req: Request, fate: Fate, tick: Tick): Response
    requires fate.Answered?
  {
    var conflict := Fault(Http(409, fate.text));
    var missing := Fault(Http(404, fate.text));
    match req
    case ListBuckets(_) => Buckets(fate.buckets)
    case PostBucket(_) => Accepted(tick)
    case DeleteBucket(uuid) => if uuid in st.buckets then Accepted(tick) else missing
    case GetJob(job) => if job in st.jobs then JobIs(StatusOf(st.jobs[job], fate.text)) else missing
    case PostPolicy(name, _) => if name in st.policies then conflict else Ok
    case PatchPolicy(name, _) => if name in st.policies then Ok else missing
    case DeletePolicy(name) => if name in st.policies then Ok else missing
    case PostUser(name) => if name in st.users then conflict else Minted(KeysAt(tick))
    case PatchUser(name) => if name in st.users then Minted(KeysAt(tick)) else missing
    case DeleteUser(name) => if name in st.users then Ok else missing
    case PostGroup(group) => if GroupNamed(st, group.name) then conflict else Ok
    case ListGroups(_) => Groups(fate.groups)
    case DeleteGroup(id) => if id in st.groups then Ok else missing
  }

  /** The response is of the kind the request asks for, or a failure. */
  predicate Answers(req: Request, r: Response) {
    r.Fault? ||
    match req
    case ListBuckets(_) => r.Buckets?
    case PostBucket(_) => r.Accepted?
    case DeleteBucket(_) => r.Accepted?
    case GetJob(_) => r.JobIs?
    case PostUser(_) => r.Minted?
    case PatchUser(_) => r.Minted?
    case ListGroups(_) => r.Groups?
    case _ => r.Ok?
  }

  /** One REST call. A listing the stored objects do not bear out is no answer the server gives: such a call fails. */
  function Serve(st: State, req: Request, fate: Fate, tick: Tick): (r: (State, Response))
    ensures Answers(req, r.1)
  {
    match fate
    case Answered(_, _, _) =>
      if Honest(st, req, fate) then (Apply(st, req, tick), Reply(st, req, fate, tick))
      else (st, Fault(Plain("no answer")))
    case Unheard(e) => (Apply(st, req, tick), Fault(e))
    case Refused(e) => (st, Fault(e))
  }

  lemma FaultsAreTransport(st: State, req: Request, fate: Fate, tick: Tick)
    ensures var r := Serve(st, req, fate, tick).1;
            r.Fault? ==> Transport(r.error)
  {
  }

  predicate BucketNamed(st: State, name: string) {
    exists u | u in st.buckets :: st.buckets[u].name == name
  }

  /** How a pending job ends: `ok` is the server's verdict, and a bucket is only installed under a free name. */
  datatype Ending = Ending(ok: bool, errorCode: string, errorMessage: string, message: string)

  function FinishJob(st: State, job: Tick, end: Ending, tick: Tick): State {
    if job !in st.jobs || st.jobs[job].Finished? then st else
    var effect := st.jobs[job].effect;
    var ok := end.ok && (effect.Install? ==> !BucketNamed(st, effect.bucket.name));
    var jobs := st.jobs[job := Finished(effect, ok, end.errorCode, end.errorMessage, end.message)];
    if !ok then st.(jobs := jobs) else
    match effect
    case Install(bucket) => st.(jobs := jobs, buckets := st.buckets[tick := bucket])
    case Remove(uuid) => st.(jobs := jobs, buckets := st.buckets - {uuid})
  }
}
