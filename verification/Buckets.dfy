/** Bucket RPCs over asynchronous jobs: what a success response says about the stored buckets, over whole runs. */
module Buckets {
  import opened Results
  import opened Text
  import opened Errors
  import opened Ontap
  import opened Rpc
  import Size

  /** A bucket of this name and size is stored. */
  ghost predicate Stored(st: State, name: string, size: int) {
    exists u | u in st.buckets :: st.buckets[u].name == name && st.buckets[u].size == size
  }

  ghost predicate AtMostOne(st: State, name: string) {
    forall u, v | u in st.buckets && v in st.buckets && st.buckets[u].name == st.buckets[v].name == name :: u == v
  }

  /** The size CreateBucket asks for is the one IsBucketEqual compares with, though only one of them trims first. */
  lemma CreateAndCompareAgree(name: string, params: Params)
    requires PlanBucket(name, params).Success?
    ensures WantedSize(params) == Bytes(PlanBucket(name, params).value.size)
    ensures PlanBucket(name, params).value.name == name
    ensures Size.GIB <= PlanBucket(name, params).value.size <= Size.MAX_INT64
  {
    var raw := Param(params, "size");
    Size.TrimmedParsesTheSame(raw);
    Size.ParserAcceptsExactly(raw, PlanBucket(name, params).value.size);
  }

  /** No size is asked for exactly if the parameter is missing or blank; any other is the one the parser reads. */
  lemma WantedExactly(params: Params)
    ensures WantedSize(params) == AnySize <==> AllSpace(Param(params, "size"))
    ensures forall n :: WantedSize(params) == Bytes(n) <==> Size.ParseBucketSize(Param(params, "size")) == Success(n)
  {
    var raw := Param(params, "size");
    var left, right := TrimSplits(raw);
    if AllSpace(raw) {
      assert raw + "" + "" == raw;
      TrimStripsPadding(raw, "", "");
    }
    if Trim(raw) == "" {
      BlankIsNoSize(raw);
      assert raw == left + right;
    }
  }

  lemma BlankIsNoSize(raw: string)
    requires Trim(raw) == ""
    ensures Size.ParseBucketSize(raw).Failure?
  {
    Size.TrimmedParsesTheSame(raw);
  }

  /**
   Which parameter maps a bucket is created from, what it then looks like, and which of them are invalid arguments.
   */
  lemma PlannedExactly(name: string, params: Params)
    ensures var parsed := Size.ParseBucketSize(Param(params, "size"));
            var locking := Param(params, "objectLocking");
            var plan := PlanBucket(name, params);
            && (plan.Failure? && CodeOf(plan.error) == InvalidArgument <==> parsed.Failure?)
            && (plan.Success? <==> parsed.Success? && (locking == "" || ParseBool(locking).Some?))
            && (plan.Success? ==>
                  plan.value == Bucket(name, parsed.value, Trim(Param(params, "comment")),
                                       ParseBool(locking) == Some(true)))
  {
    var raw := Param(params, "size");
    Size.TrimmedParsesTheSame(raw);
    if Trim(raw) == "" {
      BlankIsNoSize(raw);
    }
  }

  /**
   So a bucket created from a parameter map compares equal under that map, and under another exactly when the sizes
   agree.
   */
  lemma CreatedComparesEqual(rpc: Rpc, other: Params, bucket: Bucket, uuid: Tick)
    requires rpc.Create? && PlanBucket(rpc.name, rpc.params) == Success(bucket)
    requires WantedSize(other).Bytes?
    ensures WantedSize(rpc.params) == Bytes(bucket.size)
    ensures var records := [BucketRecord(uuid, bucket.name, bucket.size)];
            && ResumeCreate(rpc, Comparing(bucket.size), Buckets(records)) == Done(Created(rpc.name))
            && (ResumeCreate(rpc, Comparing(WantedSize(other).size), Buckets(records)) == Done(Created(rpc.name))
                <==> WantedSize(other) == WantedSize(rpc.params))
  {
    CreateAndCompareAgree(rpc.name, rpc.params);
  }

  /** No Delete of this name begins. */
  ghost predicate NoDeleteOf(name: string, events: seq<Event>) {
    forall i | 0 <= i < |events| && events[i].action.Begin? :: events[i].action.rpc != Delete(name)
  }

  ghost predicate NoCreateOf(name: string, events: seq<Event>) {
    forall i | 0 <= i < |events| && events[i].action.Begin? && events[i].action.rpc.Create? ::
      events[i].action.rpc.name != name
  }

  /** The size asked for is that of a stored bucket, if one is asked for. */
  ghost predicate RightSize(st: State, name: string, params: Params) {
    match WantedSize(params)
    case AnySize => true
    case Bytes(size) => Stored(st, name, size)
    case Malformed => false
  }

  /** What a Create's success response says: the bucket is stored, and has the requested size if one was requested. */
  ghost predicate Faithful(st: State, name: string, params: Params) {
    RightSize(st, name, params) && BucketNamed(st, name)
  }

  /** A Create at each of its stages; where it depends on what is stored, only for this name. */
  ghost predicate CreateStands(st: State, p: Process, name: string)
    requires p.rpc.Create?
  {
    match p.stage
    case Comparing(want) => WantedSize(p.rpc.params) == Bytes(want)
    case Posting(bucket) => PlanBucket(p.rpc.name, p.rpc.params) == Success(bucket)
    case Polling(job) => p.rpc.name == name ==>
      && job in st.jobs && st.jobs[job].effect.Install?
      && PlanBucket(name, p.rpc.params) == Success(st.jobs[job].effect.bucket)
    case Done(outcome) => p.rpc.name == name && outcome.Created? && !p.rpc.skipValidation ==>
      RightSize(st, name, p.rpc.params)
    case _ => true
  }

  /** A Delete never aims at a stored bucket of this name. */
  ghost predicate DeleteElsewhere(st: State, p: Process, name: string, now: Tick)
    requires p.rpc.Delete?
  {
    && p.rpc.name != name
    && (p.stage.Removing? ==>
          p.stage.uuid < now && (p.stage.uuid in st.buckets ==> st.buckets[p.stage.uuid].name != name))
  }

  ghost predicate JobStands(st: State, job: Tick, name: string, now: Tick)
    requires job in st.jobs
  {
    && job < now
    && match st.jobs[job].effect
       case Install(bucket) => st.jobs[job].Finished? && st.jobs[job].ok && bucket.name == name ==>
         Stored(st, name, bucket.size)
       case Remove(uuid) => uuid < now && (uuid in st.buckets ==> st.buckets[uuid].name != name)
  }

  /** The invariant of runs without a Delete of this name. */
  ghost predicate Creating(s: System, name: string, now: Tick) {
    && AtMostOne(s.st, name)
    && (forall u | u in s.st.buckets :: u < now)
    && (forall job | job in s.st.jobs :: JobStands(s.st, job, name, now))
    && forall slot | slot in s.processes ::
         && (s.processes[slot].rpc.Create? ==> CreateStands(s.st, s.processes[slot], name))
         && (s.processes[slot].rpc.Delete? ==> DeleteElsewhere(s.st, s.processes[slot], name, now))
  }

  /** Where such runs start: an idle driver and a service without jobs. */
  lemma IdleIsCreating(s: System, name: string, now: Tick)
    requires s.processes == map[] && s.st.jobs == map[]
    requires AtMostOne(s.st, name) && forall u | u in s.st.buckets :: u < now
    ensures Creating(s, name, now)
  {
  }

  /** A REST call changes no bucket; it may add one pending job, for what it asked. */
  lemma ServeAddsAJob(st: State, req: Request, fate: Fate, tick: Tick)
    ensures var (st', r) := Serve(st, req, fate, tick);
            && st'.buckets == st.buckets
            && (st'.jobs == st.jobs
                || (req.PostBucket? && st'.jobs == st.jobs[tick := Pending(Install(req.bucket))])
                || (req.DeleteBucket? && req.uuid in st.buckets
                    && st'.jobs == st.jobs[tick := Pending(Remove(req.uuid))]))
            && (r.Accepted? ==> r.job == tick)
            && (r.Accepted? && req.PostBucket? ==> st'.jobs == st.jobs[tick := Pending(Install(req.bucket))])
            && (r.Accepted? && req.DeleteBucket? ==> st'.jobs == st.jobs[tick := Pending(Remove(req.uuid))])
            && (r.JobIs? ==> req.GetJob? && req.job in st.jobs && r.status == StatusOf(st.jobs[req.job], fate.text))
            && (r.Buckets? ==> req.ListBuckets? && fate.Answered? && Honest(st, req, fate) && r.buckets == fate.buckets)
  {
  }

  lemma {:induction false} FoundIsRecorded(records: seq<BucketRecord>, name: string)
    ensures FindBucket(records, name).Some? ==>
              FindBucket(records, name).value in records && FindBucket(records, name).value.name == name
    ensures FindBucket(records, name).None? ==> forall r | r in records :: r.name != name
  {
    if records != [] {
      FoundIsRecorded(records[1..], name);
      assert records == [records[0]] + records[1..];
    }
  }

  /** bucketByName over an honest listing finds a stored bucket of exactly the name, if there is one. */
  lemma FoundIsStored(st: State, name: string, fate: Fate)
    requires fate.Answered? && Honest(st, ListBuckets(name), fate)
    ensures match FindBucket(fate.buckets, name)
            case Some(r) => r.uuid in st.buckets && st.buckets[r.uuid].name == name && st.buckets[r.uuid].size == r.size
            case None => !BucketNamed(st, name)
  {
    FoundIsRecorded(fate.buckets, name);
  }

  lemma FinishKeepsStored(st: State, job: Tick, end: Ending, name: string, size: int, now: Tick, tick: Tick)
    requires now <= tick && (forall u | u in st.buckets :: u < now)
    requires forall j | j in st.jobs :: JobStands(st, j, name, now)
    requires Stored(st, name, size)
    ensures Stored(FinishJob(st, job, end, tick), name, size)
  {
    var st' := FinishJob(st, job, end, tick);
    var u :| u in st.buckets && st.buckets[u].name == name && st.buckets[u].size == size;
    assert job in st.jobs ==> JobStands(st, job, name, now);
    assert u in st'.buckets && st'.buckets[u] == st.buckets[u];
  }

  lemma FinishKeepsJobs(st: State, job: Tick, end: Ending, name: string, now: Tick, tick: Tick)
    requires now <= tick && (forall u | u in st.buckets :: u < now)
    requires forall j | j in st.jobs :: JobStands(st, j, name, now)
    ensures var st' := FinishJob(st, job, end, tick);
            forall j | j in st'.jobs :: JobStands(st', j, name, tick + 1)
  {
    var st' := FinishJob(st, job, end, tick);
    forall j | j in st'.jobs ensures JobStands(st', j, name, tick + 1) {
      assert JobStands(st, j, name, now);
      var effect := st.jobs[j].effect;
      if effect.Install? && effect.bucket.name == name {
        if st.jobs[j].Finished? && st.jobs[j].ok {
          FinishKeepsStored(st, job, end, name, effect.bucket.size, now, tick);
        } else if j == job && st'.jobs[j].ok {
          assert st'.buckets[tick] == effect.bucket;
        }
      }
    }
  }

  /** The end of a job changes at most one bucket: it may install the job's own, under a free name, or remove one. */
  lemma FinishEffects(st: State, job: Tick, end: Ending, tick: Tick)
    ensures var st' := FinishJob(st, job, end, tick);
            && (forall j | j in st'.jobs :: j in st.jobs && st'.jobs[j].effect == st.jobs[j].effect)
            && (forall j | j in st.jobs :: j in st'.jobs)
            && (forall u | u in st'.buckets && u != tick :: u in st.buckets && st'.buckets[u] == st.buckets[u])
            && (tick in st'.buckets && tick !in st.buckets ==>
                  && job in st.jobs && st.jobs[job].effect == Install(st'.buckets[tick])
                  && !BucketNamed(st, st'.buckets[tick].name))
            && (tick in st'.buckets && tick in st.buckets ==>
                  || st'.buckets[tick] == st.buckets[tick]
                  || (job in st.jobs && st.jobs[job].effect == Install(st'.buckets[tick])))
  {
  }

  lemma FinishKeepsAtMostOne(st: State, job: Tick, end: Ending, name: string, now: Tick, tick: Tick)
    requires AtMostOne(st, name) && now <= tick && forall u | u in st.buckets :: u < now
    ensures AtMostOne(FinishJob(st, job, end, tick), name)
    ensures forall u | u in FinishJob(st, job, end, tick).buckets :: u < tick + 1
  {
    FinishEffects(st, job, end, tick);
    assert forall u | u in st.buckets && st.buckets[u].name == name :: BucketNamed(st, name);
  }

  lemma FinishKeepsCreate(st: State, p: Process, job: Tick, end: Ending, name: string, now: Tick, tick: Tick)
    requires p.rpc.Create? && CreateStands(st, p, name) && now <= tick
    requires forall u | u in st.buckets :: u < now
    requires forall j | j in st.jobs :: JobStands(st, j, name, now)
    ensures CreateStands(FinishJob(st, job, end, tick), p, name)
  {
    FinishEffects(st, job, end, tick);
    if p.rpc.name == name && p.stage.Done? && p.stage.outcome.Created? && !p.rpc.skipValidation {
      RightSizeKept(st, job, end, name, p.rpc.params, now, tick);
    }
  }

  lemma FinishKeepsCreating(s: System, job: Tick, end: Ending, name: string, now: Tick, tick: Tick)
    requires Creating(s, name, now) && now <= tick
    ensures Creating(Step(s, Event(tick, Finish(job, end))), name, tick + 1)
  {
    var st' := FinishJob(s.st, job, end, tick);
    FinishEffects(s.st, job, end, tick);
    FinishKeepsJobs(s.st, job, end, name, now, tick);
    FinishKeepsAtMostOne(s.st, job, end, name, now, tick);
    forall slot | slot in s.processes && s.processes[slot].rpc.Create?
      ensures CreateStands(st', s.processes[slot], name)
    {
      FinishKeepsCreate(s.st, s.processes[slot], job, end, name, now, tick);
    }
    forall slot | slot in s.processes && s.processes[slot].rpc.Delete?
      ensures DeleteElsewhere(st', s.processes[slot], name, tick + 1)
    {
      assert DeleteElsewhere(s.st, s.processes[slot], name, now);
    }
  }

  lemma RightSizeKept(st: State, job: Tick, end: Ending, name: string, params: Params, now: Tick, tick: Tick)
    requires now <= tick && (forall u | u in st.buckets :: u < now)
    requires forall j | j in st.jobs :: JobStands(st, j, name, now)
    requires RightSize(st, name, params)
    ensures RightSize(FinishJob(st, job, end, tick), name, params)
  {
    if WantedSize(params).Bytes? {
      FinishKeepsStored(st, job, end, name, WantedSize(params).size, now, tick);
    }
  }

  lemma FinishKeepsNamed(st: State, job: Tick, end: Ending, name: string, now: Tick, tick: Tick)
    requires now <= tick && (forall u | u in st.buckets :: u < now)
    requires forall j | j in st.jobs :: JobStands(st, j, name, now)
    requires BucketNamed(st, name)
    ensures BucketNamed(FinishJob(st, job, end, tick), name)
  {
    var u :| u in st.buckets && st.buckets[u].name == name;
    FinishKeepsStored(st, job, end, name, st.buckets[u].size, now, tick);
  }

  /** A Create over other names, or at the stages that do not depend on the service, stands whatever is stored. */
  lemma OwnClaimsStand(st: State, p: Process, name: string, fate: Fate, tick: Tick)
    requires p.Running() && p.rpc.Create? && CreateStands(st, p, name)
    requires p.rpc.name != name || !(p.stage.Comparing? || p.stage.Polling?)
    ensures var (st', r) := Serve(st, NextRequest(p), fate, tick);
            CreateStands(st', Resume(p, r), name)
  {
  }

  lemma ComparedStands(st: State, p: Process, name: string, fate: Fate, tick: Tick)
    requires p.Running() && p.rpc.Create? && p.rpc.name == name && p.stage.Comparing? && CreateStands(st, p, name)
    ensures var (st', r) := Serve(st, NextRequest(p), fate, tick);
            CreateStands(st', Resume(p, r), name)
  {
    var (st', r) := Serve(st, NextRequest(p), fate, tick);
    if !r.Fault? {
      FoundIsStored(st, name, fate);
    }
  }

  lemma PollOutcome(p: Process, r: Response)
    requires p.Running() && p.rpc.Create? && p.stage.Polling? && Answers(NextRequest(p), r)
    ensures var q := Resume(p, r);
            && (q.stage.Done? && q.stage.outcome.Created? ==> r.JobIs? && r.status.state == "success")
            && (q.stage == p.stage || q.stage.Done?)
  {
  }

  lemma PolledStands(st: State, p: Process, name: string, fate: Fate, now: Tick, tick: Tick)
    requires p.Running() && p.rpc.Create? && p.rpc.name == name && p.stage.Polling? && CreateStands(st, p, name)
    requires forall job | job in st.jobs :: JobStands(st, job, name, now)
    ensures var (st', r) := Serve(st, NextRequest(p), fate, tick);
            CreateStands(st', Resume(p, r), name)
  {
    var (st', r) := Serve(st, NextRequest(p), fate, tick);
    ServeAddsAJob(st, NextRequest(p), fate, tick);
    PollOutcome(p, r);
    CreateAndCompareAgree(name, p.rpc.params);
    assert JobStands(st, p.stage.job, name, now);
  }

  /** A Create's own call: whatever the answer, the next stage stands. */
  lemma CreateCallStands(st: State, p: Process, name: string, fate: Fate, now: Tick, tick: Tick)
    requires p.Running() && p.rpc.Create? && CreateStands(st, p, name) && now <= tick
    requires forall job | job in st.jobs :: JobStands(st, job, name, now)
    ensures var (st', r) := Serve(st, NextRequest(p), fate, tick);
            CreateStands(st', Resume(p, r), name)
  {
    if p.rpc.name == name && p.stage.Comparing? {
      ComparedStands(st, p, name, fate, tick);
    } else if p.rpc.name == name && p.stage.Polling? {
      PolledStands(st, p, name, fate, now, tick);
    } else {
      OwnClaimsStand(st, p, name, fate, tick);
    }
  }

  lemma DeleteCallStands(st: State, p: Process, name: string, fate: Fate, now: Tick, tick: Tick)
    requires p.Running() && p.rpc.Delete? && DeleteElsewhere(st, p, name, now) && now <= tick
    requires forall u | u in st.buckets :: u < now
    ensures var (st', r) := Serve(st, NextRequest(p), fate, tick);
            DeleteElsewhere(st', Resume(p, r), name, tick + 1)
  {
    var (st', r) := Serve(st, NextRequest(p), fate, tick);
    ServeAddsAJob(st, NextRequest(p), fate, tick);
    if p.stage.Finding? && !r.Fault? {
      FoundIsStored(st, p.rpc.name, fate);
    }
  }

  /** A call leaves what other processes and old jobs say standing. */
  lemma CallKeepsJobs(s: System, slot: Slot, fate: Fate, name: string, now: Tick, tick: Tick)
    requires Creating(s, name, now) && now <= tick && s.Busy(slot)
    ensures var st' := Serve(s.st, NextRequest(s.processes[slot]), fate, tick).0;
            forall job | job in st'.jobs :: JobStands(st', job, name, tick + 1)
  {
    var p := s.processes[slot];
    var st' := Serve(s.st, NextRequest(p), fate, tick).0;
    ServeAddsAJob(s.st, NextRequest(p), fate, tick);
    forall job | job in st'.jobs ensures JobStands(st', job, name, tick + 1) {
      assert job in s.st.jobs ==> JobStands(s.st, job, name, now);
      if job == tick && NextRequest(p).DeleteBucket? {
        assert p.rpc.Delete? && DeleteElsewhere(s.st, p, name, now);
      }
    }
  }

  lemma OtherCreateStands(st: State, st': State, p: Process, name: string, now: Tick, tick: Tick)
    requires p.rpc.Create? && CreateStands(st, p, name) && now <= tick
    requires forall job | job in st.jobs :: JobStands(st, job, name, now)
    requires st'.buckets == st.buckets
    requires forall job | job in st.jobs && job < tick :: job in st'.jobs && st'.jobs[job] == st.jobs[job]
    ensures CreateStands(st', p, name)
  {
    if p.rpc.name == name && p.stage.Polling? {
      assert JobStands(st, p.stage.job, name, now);
    }
  }

  /** A call leaves the buckets and the jobs that were there as they are. */
  lemma ServeKeepsOldJobs(st: State, req: Request, fate: Fate, tick: Tick)
    ensures var st' := Serve(st, req, fate, tick).0;
            && st'.buckets == st.buckets
            && forall job | job in st.jobs && job < tick :: job in st'.jobs && st'.jobs[job] == st.jobs[job]
  {
    ServeAddsAJob(st, req, fate, tick);
  }

  /** A process goes on and leaves the buckets and the old jobs alone: the others' claims still hold. */
  lemma CreatorGoesOn(s: System, slot: Slot, st': State, q: Process, name: string, now: Tick, tick: Tick)
    requires Creating(s, name, now) && now <= tick && st'.buckets == s.st.buckets
    requires forall job | job in s.st.jobs && job < tick :: job in st'.jobs && st'.jobs[job] == s.st.jobs[job]
    requires forall job | job in st'.jobs :: JobStands(st', job, name, tick + 1)
    requires q.rpc.Create? ==> CreateStands(st', q, name)
    requires q.rpc.Delete? ==> DeleteElsewhere(st', q, name, tick + 1)
    ensures Creating(System(st', s.processes[slot := q]), name, tick + 1)
  {
    forall other | other in s.processes && s.processes[other].rpc.Create?
      ensures CreateStands(st', s.processes[other], name)
    {
      OtherCreateStands(s.st, st', s.processes[other], name, now, tick);
    }
    forall other | other in s.processes && s.processes[other].rpc.Delete?
      ensures DeleteElsewhere(st', s.processes[other], name, tick + 1)
    {
      assert DeleteElsewhere(s.st, s.processes[other], name, now);
    }
  }

  lemma CallKeepsCreating(s: System, slot: Slot, fate: Fate, name: string, now: Tick, tick: Tick)
    requires Creating(s, name, now) && now <= tick && s.Busy(slot)
    ensures Creating(Step(s, Event(tick, Call(slot, fate))), name, tick + 1)
  {
    var p := s.processes[slot];
    var (st', r) := Serve(s.st, NextRequest(p), fate, tick);
    ServeKeepsOldJobs(s.st, NextRequest(p), fate, tick);
    CallKeepsJobs(s, slot, fate, name, now, tick);
    if p.rpc.Create? {
      CreateCallStands(s.st, p, name, fate, now, tick);
    } else if p.rpc.Delete? {
      DeleteCallStands(s.st, p, name, fate, now, tick);
    }
    CreatorGoesOn(s, slot, st', Resume(p, r), name, now, tick);
  }

  lemma StepKeepsCreating(s: System, e: Event, name: string, now: Tick)
    requires Creating(s, name, now) && now <= e.tick && NoDeleteOf(name, [e])
    ensures Creating(Step(s, e), name, e.tick + 1)
  {
    match e.action
    case Begin(rpc, number) => assert [e][0].action.rpc != Delete(name);
    case Call(slot, fate) =>
      if s.Busy(slot) {
        CallKeepsCreating(s, slot, fate, name, now, e.tick);
      }
    case Finish(job, end) => FinishKeepsCreating(s, job, end, name, now, e.tick);
    case Abandon(_) =>
  }

  lemma {:induction false} RunKeepsCreating(s: System, events: seq<Event>, name: string, now: Tick)
    requires Creating(s, name, now) && Timely(now, events) && NoDeleteOf(name, events)
    ensures Creating(Run(s, events), name, Clock(now, events))
    decreases |events|
  {
    if events != [] {
      StepKeepsCreating(s, events[0], name, now);
      RunKeepsCreating(Step(s, events[0]), events[1..], name, events[0].tick + 1);
    }
  }

  /** A bucket listing that holds only records of the name asked for. */
  ghost predicate Filtered(s: System, e: Event) {
    e.action.Call? && e.action.fate.Answered? && s.Busy(e.action.slot) ==>
      var req := NextRequest(s.processes[e.action.slot]);
      req.ListBuckets? ==> forall r | r in e.action.fate.buckets :: r.name == req.name
  }

  ghost predicate AllFiltered(s: System, events: seq<Event>)
    decreases |events|
  {
    events == [] || (Filtered(s, events[0]) && AllFiltered(Step(s, events[0]), events[1..]))
  }

  /** Where a Create of this name has reported success, a bucket of the name is stored. */
  ghost predicate SuccessMeansNamed(s: System, name: string) {
    forall slot | slot in s.processes && s.processes[slot].rpc.Create? && s.processes[slot].rpc.name == name
                  && s.processes[slot].stage.Done? && s.processes[slot].stage.outcome.Created? ::
      BucketNamed(s.st, name)
  }

  /** A record of the name is shown only if a bucket of the name is stored. */
  lemma ShownIsNamed(st: State, name: string, fate: Fate, r: BucketRecord)
    requires Heard(st, ListBuckets(name), fate) && r in fate.buckets && r.name == name
    ensures BucketNamed(st, name)
  {
    assert r.uuid in st.buckets && st.buckets[r.uuid].name == name;
  }

  /** Past its lookup, a Create succeeds only if a bucket of its name and size is stored. */
  lemma LaterSuccess(st: State, p: Process, name: string, fate: Fate, now: Tick, tick: Tick)
    requires p.Running() && p.rpc.Create? && p.rpc.name == name && CreateStands(st, p, name) && !p.stage.Checking?
    requires forall job | job in st.jobs :: JobStands(st, job, name, now)
    ensures var (st', r) := Serve(st, NextRequest(p), fate, tick);
            Resume(p, r).stage == Done(Created(name)) ==> Faithful(st', name, p.rpc.params)
  {
    var (st', r) := Serve(st, NextRequest(p), fate, tick);
    ServeAddsAJob(st, NextRequest(p), fate, tick);
    if !r.Fault? {
      match p.stage
      case Comparing(_) => FoundIsStored(st, name, fate);
      case Polling(job) =>
        CreateAndCompareAgree(name, p.rpc.params);
        assert JobStands(st, job, name, now);
      case _ =>
    }
  }

  lemma FilteredSuccess(st: State, p: Process, name: string, fate: Fate, now: Tick, tick: Tick)
    requires p.Running() && p.rpc.Create? && p.rpc.name == name && CreateStands(st, p, name)
    requires forall job | job in st.jobs :: JobStands(st, job, name, now)
    requires fate.Answered? && p.stage.Checking? ==> forall r | r in fate.buckets :: r.name == name
    ensures var (st', r) := Serve(st, NextRequest(p), fate, tick);
            Resume(p, r).stage == Done(Created(name)) ==> BucketNamed(st', name)
  {
    var r := Serve(st, NextRequest(p), fate, tick).1;
    if !p.stage.Checking? {
      LaterSuccess(st, p, name, fate, now, tick);
    } else if !r.Fault? && r.buckets != [] {
      ShownIsNamed(st, name, fate, fate.buckets[0]);
    }
  }

  lemma CallKeepsNamed(s: System, slot: Slot, fate: Fate, name: string, now: Tick, tick: Tick)
    requires Creating(s, name, now) && SuccessMeansNamed(s, name) && s.Busy(slot)
    requires Filtered(s, Event(tick, Call(slot, fate)))
    ensures SuccessMeansNamed(Step(s, Event(tick, Call(slot, fate))), name)
  {
    var p := s.processes[slot];
    var (st', r) := Serve(s.st, NextRequest(p), fate, tick);
    ServeKeepsOldJobs(s.st, NextRequest(p), fate, tick);
    if p.rpc.Create? && p.rpc.name == name {
      FilteredSuccess(s.st, p, name, fate, now, tick);
      CreatedItsOwn(p, r);
    }
    NamedGoesOn(s, slot, st', Resume(p, r), name);
  }

  lemma CreatedItsOwn(p: Process, r: Response)
    requires p.Running() && p.rpc.Create? && Answers(NextRequest(p), r)
    ensures var q := Resume(p, r);
            q.stage.Done? && q.stage.outcome.Created? ==> q.stage == Done(Created(p.rpc.name))
  {
  }

  lemma NamedGoesOn(s: System, slot: Slot, st': State, q: Process, name: string)
    requires SuccessMeansNamed(s, name) && st'.buckets == s.st.buckets
    requires q.rpc.Create? && q.rpc.name == name && q.stage.Done? && q.stage.outcome.Created? ==> BucketNamed(st', name)
    ensures SuccessMeansNamed(System(st', s.processes[slot := q]), name)
  {
    assert BucketNamed(s.st, name) ==> BucketNamed(st', name);
  }

  lemma StepKeepsNamed(s: System, e: Event, name: string, now: Tick)
    requires Creating(s, name, now) && SuccessMeansNamed(s, name) && now <= e.tick && Filtered(s, e)
    ensures SuccessMeansNamed(Step(s, e), name)
  {
    match e.action
    case Call(slot, fate) =>
      if s.Busy(slot) {
        CallKeepsNamed(s, slot, fate, name, now, e.tick);
      }
    case Finish(job, end) =>
      if BucketNamed(s.st, name) {
        FinishKeepsNamed(s.st, job, end, name, now, e.tick);
      }
    case _ =>
  }

  lemma {:induction false} RunKeepsNamed(s: System, events: seq<Event>, name: string, now: Tick)
    requires Creating(s, name, now) && SuccessMeansNamed(s, name) && Timely(now, events)
    requires NoDeleteOf(name, events) && AllFiltered(s, events)
    ensures SuccessMeansNamed(Run(s, events), name)
    decreases |events|
  {
    if events != [] {
      StepKeepsCreating(s, events[0], name, now);
      StepKeepsNamed(s, events[0], name, now);
      RunKeepsNamed(Step(s, events[0]), events[1..], name, events[0].tick + 1);
    }
  }

  /**
   Whatever Creates of a name overlap, time out, lose answers or ask for other sizes, and whenever their jobs end: a
   validated Create that reported success for a size finds the one stored bucket of that name with exactly that size;
   and where listings hold only records of the name asked for, so does one without a size, of whatever size.
   */
  lemma CreatedMeansStored(s: System, events: seq<Event>, slot: Slot, now: Tick)
    requires slot in Run(s, events).processes
    requires var p := Run(s, events).processes[slot];
             p.rpc.Create? && !p.rpc.skipValidation && p.stage.Done? && p.stage.outcome.Created?
    requires var name := Run(s, events).processes[slot].rpc.name;
             Creating(s, name, now) && Timely(now, events) && NoDeleteOf(name, events)
    ensures var p := Run(s, events).processes[slot];
            var st := Run(s, events).st;
            && AtMostOne(st, p.rpc.name)
            && RightSize(st, p.rpc.name, p.rpc.params)
            && (WantedSize(p.rpc.params) != AnySize ==> Faithful(st, p.rpc.name, p.rpc.params))
            && (AllFiltered(s, events) && SuccessMeansNamed(s, p.rpc.name) ==> Faithful(st, p.rpc.name, p.rpc.params))
  {
    var p := Run(s, events).processes[slot];
    RunKeepsCreating(s, events, p.rpc.name, now);
    assert CreateStands(Run(s, events).st, p, p.rpc.name);
    if AllFiltered(s, events) && SuccessMeansNamed(s, p.rpc.name) {
      RunKeepsNamed(s, events, p.rpc.name, now);
    }
  }

  /** From an idle start. */
  lemma CreatedMeansStoredFromIdle(s: System, events: seq<Event>, slot: Slot, name: string, params: Params, now: Tick)
    requires s.processes == map[] && s.st.jobs == map[]
    requires AtMostOne(s.st, name) && (forall u | u in s.st.buckets :: u < now)
    requires Timely(now, events) && NoDeleteOf(name, events) && slot in Run(s, events).processes
    requires Run(s, events).processes[slot] == Process(Create(name, params, false), Done(Created(name)))
    ensures AtMostOne(Run(s, events).st, name) && RightSize(Run(s, events).st, name, params)
    ensures AllFiltered(s, events) || WantedSize(params) != AnySize ==> Faithful(Run(s, events).st, name, params)
  {
    IdleIsCreating(s, name, now);
    CreatedMeansStored(s, events, slot, now);
  }

  /**
   The event is not an answered lookup that misleads a Create of this name in this slot: one that asks for no size is
   shown a record of the name if it is shown any, and one that skips validation is shown none.
   */
  ghost predicate NotMisled(s: System, e: Event, slot: Slot, name: string) {
    e.action.Call? && e.action.slot == slot && s.Busy(slot) && s.processes[slot].stage.Checking?
    && s.processes[slot].rpc.name == name && Heard(s.st, NextRequest(s.processes[slot]), e.action.fate)
    && e.action.fate.buckets != [] ==>
      if WantedSize(s.processes[slot].rpc.params) == AnySize
      then exists r | r in e.action.fate.buckets :: r.name == name
      else !s.processes[slot].rpc.skipValidation
  }

  ghost predicate NeverMisled(s: System, events: seq<Event>, slot: Slot, name: string)
    decreases |events|
  {
    events == [] || (
      && NotMisled(s, events[0], slot, name)
      && NeverMisled(Step(s, events[0]), events[1..], slot, name))
  }

  /** What the slot's Create of this name has reported is true. */
  ghost predicate Told(s: System, slot: Slot, name: string) {
    slot in s.processes ==>
      var p := s.processes[slot];
      p.rpc.Create? && p.rpc.name == name && p.stage == Done(Created(name)) ==> Faithful(s.st, name, p.rpc.params)
  }

  lemma OwnCallTold(s: System, slot: Slot, name: string, fate: Fate, now: Tick, tick: Tick)
    requires Creating(s, name, now) && s.Busy(slot) && NotMisled(s, Event(tick, Call(slot, fate)), slot, name)
    requires s.processes[slot].rpc.Create? && s.processes[slot].rpc.name == name
    ensures var p := s.processes[slot];
            var (st', r) := Serve(s.st, NextRequest(p), fate, tick);
            Resume(p, r).stage == Done(Created(name)) ==> Faithful(st', name, p.rpc.params)
  {
    var p := s.processes[slot];
    var r := Serve(s.st, NextRequest(p), fate, tick).1;
    assert CreateStands(s.st, p, name);
    if !p.stage.Checking? {
      LaterSuccess(s.st, p, name, fate, now, tick);
    } else if !r.Fault? && r.buckets != [] && WantedSize(p.rpc.params) == AnySize {
      var shown :| shown in fate.buckets && shown.name == name;
      ShownIsNamed(s.st, name, fate, shown);
    }
  }

  lemma CallKeepsTold(s: System, at: Slot, fate: Fate, slot: Slot, name: string, now: Tick, tick: Tick)
    requires Creating(s, name, now) && Told(s, slot, name) && s.Busy(at)
    requires NotMisled(s, Event(tick, Call(at, fate)), slot, name)
    ensures Told(Step(s, Event(tick, Call(at, fate))), slot, name)
  {
    ServeKeepsOldJobs(s.st, NextRequest(s.processes[at]), fate, tick);
    if at == slot && s.processes[at].rpc.Create? && s.processes[at].rpc.name == name {
      OwnCallTold(s, slot, name, fate, now, tick);
    }
  }

  lemma StepKeepsTold(s: System, e: Event, slot: Slot, name: string, now: Tick)
    requires Creating(s, name, now) && Told(s, slot, name) && now <= e.tick && NotMisled(s, e, slot, name)
    ensures Told(Step(s, e), slot, name)
  {
    match e.action
    case Call(at, fate) =>
      if s.Busy(at) {
        CallKeepsTold(s, at, fate, slot, name, now, e.tick);
      }
    case Finish(job, end) =>
      if slot in s.processes && s.processes[slot].rpc.Create? && Faithful(s.st, name, s.processes[slot].rpc.params) {
        RightSizeKept(s.st, job, end, name, s.processes[slot].rpc.params, now, e.tick);
        FinishKeepsNamed(s.st, job, end, name, now, e.tick);
      }
    case _ =>
  }

  lemma {:induction false} RunKeepsTold(s: System, events: seq<Event>, slot: Slot, name: string, now: Tick)
    requires Creating(s, name, now) && Told(s, slot, name) && Timely(now, events)
    requires NoDeleteOf(name, events) && NeverMisled(s, events, slot, name)
    ensures Told(Run(s, events), slot, name)
    decreases |events|
  {
    if events != [] {
      StepKeepsCreating(s, events[0], name, now);
      StepKeepsTold(s, events[0], slot, name, now);
      RunKeepsTold(Step(s, events[0]), events[1..], slot, name, events[0].tick + 1);
    }
  }

  /**
   A Create as written, validated or not, through lookup, POST and job, among any others: its reported success is true
   of the one stored bucket of its name, unless its own answered lookup was shown records and it skipped validation of
   a size, or asked for none and they were all of other names.
   */
  lemma CreatedUnlessShown(s: System, events: seq<Event>, slot: Slot, name: string, params: Params, skip: bool,
                           now: Tick)
    requires Creating(s, name, now) && Told(s, slot, name) && Timely(now, events) && NoDeleteOf(name, events)
    requires slot in Run(s, events).processes
    requires Run(s, events).processes[slot] == Process(Create(name, params, skip), Done(Created(name)))
    ensures NeverMisled(s, events, slot, name) ==> Faithful(Run(s, events).st, name, params)
    ensures AtMostOne(Run(s, events).st, name)
  {
    RunKeepsCreating(s, events, name, now);
    if NeverMisled(s, events, slot, name) {
      RunKeepsTold(s, events, slot, name, now);
    }
  }

  /** On an answered comparison a validated Create succeeds exactly if a bucket of its name and size is stored. */
  lemma ComparedExactly(st: State, p: Process, fate: Fate, tick: Tick)
    requires p.Running() && p.rpc.Create? && p.stage.Comparing? && AtMostOne(st, p.rpc.name)
    requires Heard(st, NextRequest(p), fate)
    ensures var q := Resume(p, Serve(st, NextRequest(p), fate, tick).1);
            && (q.stage == Done(Created(p.rpc.name)) <==> Stored(st, p.rpc.name, p.stage.want))
            && (q.stage.Done? && q.stage.outcome.Failed? && q.stage.outcome.code == AlreadyExists <==>
                !Stored(st, p.rpc.name, p.stage.want))
  {
    FoundIsStored(st, p.rpc.name, fate);
  }

  /** If a bucket can be created from the request at all, it has this size. */
  ghost predicate WantsSize(rpc: Rpc, name: string, size: int) {
    rpc.Create? && rpc.name == name && PlanBucket(name, rpc.params).Success? ==> WantedSize(rpc.params) == Bytes(size)
  }

  ghost predicate AllWant(name: string, size: int, events: seq<Event>) {
    forall i | 0 <= i < |events| && events[i].action.Begin? :: WantsSize(events[i].action.rpc, name, size)
  }

  ghost predicate UniformObjects(st: State, name: string, size: int) {
    && (forall u | u in st.buckets && st.buckets[u].name == name :: st.buckets[u].size == size)
    && (forall job | job in st.jobs && st.jobs[job].effect.Install? && st.jobs[job].effect.bucket.name == name ::
          st.jobs[job].effect.bucket.size == size)
  }

  ghost predicate UniformProcess(st: State, p: Process, name: string, size: int) {
    && WantsSize(p.rpc, name, size)
    && (p.rpc.Create? && p.rpc.name == name && p.stage.Done? && p.stage.outcome.Created? ==> Stored(st, name, size))
  }

  /** Every bucket, job and Create of the name agrees on one size. */
  ghost predicate Uniform(s: System, name: string, size: int) {
    && UniformObjects(s.st, name, size)
    && forall slot | slot in s.processes :: UniformProcess(s.st, s.processes[slot], name, size)
  }

  lemma UniformGoesOn(s: System, slot: Slot, st': State, q: Process, name: string, size: int)
    requires Uniform(s, name, size) && st'.buckets == s.st.buckets
    requires UniformObjects(st', name, size) && UniformProcess(st', q, name, size)
    ensures Uniform(System(st', s.processes[slot := q]), name, size)
  {
    forall other | other in s.processes ensures UniformProcess(st', s.processes[other], name, size) {
      assert UniformProcess(s.st, s.processes[other], name, size);
    }
  }

  lemma CallKeepsUniformObjects(st: State, p: Process, fate: Fate, name: string, size: int, tick: Tick)
    requires p.Running() && UniformObjects(st, name, size)
    requires p.rpc.Create? ==> CreateStands(st, p, name) && WantsSize(p.rpc, name, size)
    ensures UniformObjects(Serve(st, NextRequest(p), fate, tick).0, name, size)
  {
    ServeAddsAJob(st, NextRequest(p), fate, tick);
    if p.stage.Posting? {
      CreateAndCompareAgree(p.rpc.name, p.rpc.params);
    }
  }

  lemma CallKeepsUniform(s: System, slot: Slot, fate: Fate, name: string, size: int, now: Tick, tick: Tick)
    requires Creating(s, name, now) && Uniform(s, name, size) && now <= tick && s.Busy(slot)
    requires Filtered(s, Event(tick, Call(slot, fate)))
    ensures Uniform(Step(s, Event(tick, Call(slot, fate))), name, size)
  {
    var p := s.processes[slot];
    var (st', r) := Serve(s.st, NextRequest(p), fate, tick);
    ServeKeepsOldJobs(s.st, NextRequest(p), fate, tick);
    assert UniformProcess(s.st, p, name, size);
    CallKeepsUniformObjects(s.st, p, fate, name, size, tick);
    if p.rpc.Create? && p.rpc.name == name {
      UniformCall(s.st, p, fate, name, size, now, tick);
    }
    UniformGoesOn(s, slot, st', Resume(p, r), name, size);
  }

  lemma UniformCall(st: State, p: Process, fate: Fate, name: string, size: int, now: Tick, tick: Tick)
    requires p.Running() && p.rpc.Create? && p.rpc.name == name && CreateStands(st, p, name)
    requires WantsSize(p.rpc, name, size) && UniformObjects(st, name, size)
    requires forall job | job in st.jobs :: JobStands(st, job, name, now)
    requires fate.Answered? && p.stage.Checking? ==> forall r | r in fate.buckets :: r.name == name
    ensures var (st', r) := Serve(st, NextRequest(p), fate, tick);
            UniformProcess(st', Resume(p, r), name, size)
  {
    var (st', r) := Serve(st, NextRequest(p), fate, tick);
    ServeAddsAJob(st, NextRequest(p), fate, tick);
    match p.stage
    case Checking =>
      if fate.Answered? && fate.buckets != [] && !r.Fault? {
        assert fate.buckets[0] in fate.buckets;
        assert fate.buckets[0].uuid in st.buckets;
      }
    case Comparing(_) =>
      if !r.Fault? { FoundIsStored(st, name, fate); }
    case Posting(_) =>
    case Polling(job) =>
      CreateAndCompareAgree(name, p.rpc.params);
      assert JobStands(st, job, name, now);
  }

  lemma FinishKeepsUniformObjects(st: State, job: Tick, end: Ending, name: string, size: int, tick: Tick)
    requires UniformObjects(st, name, size)
    ensures UniformObjects(FinishJob(st, job, end, tick), name, size)
  {
    FinishEffects(st, job, end, tick);
  }

  lemma FinishKeepsUniform(s: System, job: Tick, end: Ending, name: string, size: int, now: Tick, tick: Tick)
    requires Creating(s, name, now) && Uniform(s, name, size) && now <= tick
    ensures Uniform(Step(s, Event(tick, Finish(job, end))), name, size)
  {
    FinishKeepsUniformObjects(s.st, job, end, name, size, tick);
    forall slot | slot in s.processes
      ensures UniformProcess(FinishJob(s.st, job, end, tick), s.processes[slot], name, size)
    {
      assert UniformProcess(s.st, s.processes[slot], name, size);
      if Stored(s.st, name, size) {
        FinishKeepsStored(s.st, job, end, name, size, now, tick);
      }
    }
  }

  lemma {:induction false} RunKeepsUniform(s: System, events: seq<Event>, name: string, size: int, now: Tick)
    requires Creating(s, name, now) && Uniform(s, name, size) && Timely(now, events)
    requires NoDeleteOf(name, events) && AllWant(name, size, events) && AllFiltered(s, events)
    ensures Uniform(Run(s, events), name, size)
    decreases |events|
  {
    if events != [] {
      var e := events[0];
      StepKeepsCreating(s, e, name, now);
      match e.action {
        case Begin(rpc, number) => assert WantsSize(rpc, name, size);
        case Call(slot, fate) =>
          if s.Busy(slot) {
            CallKeepsUniform(s, slot, fate, name, size, now, e.tick);
          }
        case Finish(job, end) => FinishKeepsUniform(s, job, end, name, size, now, e.tick);
        case Abandon(_) =>
      }
      RunKeepsUniform(Step(s, e), events[1..], name, size, e.tick + 1);
    }
  }

  /**
   Validated or not: when all requests a bucket of the name can be created from denote one size, every Create of it that
   reported success finds the stored bucket with that size.
   */
  lemma SameSizeCreatesAreFaithful(s: System, events: seq<Event>, slot: Slot, name: string, size: int, now: Tick)
    requires Creating(s, name, now) && Uniform(s, name, size) && Timely(now, events)
    requires NoDeleteOf(name, events) && AllWant(name, size, events) && AllFiltered(s, events)
    requires slot in Run(s, events).processes
    requires var p := Run(s, events).processes[slot];
             p.rpc.Create? && p.rpc.name == name && p.stage.Done? && p.stage.outcome.Created?
    ensures AtMostOne(Run(s, events).st, name) && Stored(Run(s, events).st, name, size)
  {
    RunKeepsCreating(s, events, name, now);
    RunKeepsUniform(s, events, name, size, now);
  }
}
