/**
 What becomes of a Create or Delete whose calls are all answered: the verdict is that of the listing it was shown, or of
 the very job it has started, and it comes with the first poll after that job has ended.
 */
module Verdicts {
  import opened Results
  import opened Errors
  import opened Ontap
  import opened Rpc
  import opened Buckets
  import opened Quota
  import opened Progress
  import Size

  /** The calls the slot's RPC makes: when, and what becomes of them. */
  function CallsMade(s: System, slot: Slot, events: seq<Event>): seq<(Tick, Fate)>
    decreases |events|
  {
    if events == [] then [] else CallMade(s, slot, events[0]) + CallsMade(Step(s, events[0]), slot, events[1..])
  }

  function CallMade(s: System, slot: Slot, e: Event): seq<(Tick, Fate)> {
    if e.action.Call? && e.action.slot == slot && s.Busy(slot) then [(e.tick, e.action.fate)] else []
  }

  /** Jobs are numbered by the tick they were accepted at. */
  ghost predicate JobsBefore(st: State, now: Tick) {
    forall job | job in st.jobs :: job < now
  }

  /** Jobs stay what they are, and how they have ended; new ones have new numbers. */
  ghost predicate JobsKept(st: State, st': State, tick: Tick) {
    && (forall job | job in st.jobs && job < tick ::
          && job in st'.jobs && st'.jobs[job].effect == st.jobs[job].effect
          && (st.jobs[job].Finished? ==> st'.jobs[job] == st.jobs[job]))
    && forall job | job in st'.jobs && job < tick :: job in st.jobs
  }

  lemma StepKeepsJobs(s: System, e: Event, now: Tick)
    requires JobsBefore(s.st, now) && now <= e.tick
    ensures JobsKept(s.st, Step(s, e).st, e.tick) && JobsBefore(Step(s, e).st, e.tick + 1)
  {
    match e.action
    case Call(slot, fate) =>
      if s.Busy(slot) {
        ServeAddsAJob(s.st, NextRequest(s.processes[slot]), fate, e.tick);
      }
    case _ =>
  }

  /** The listing holds a record of this bucket. */
  ghost predicate Lists(fate: Fate, name: string, uuid: Tick) {
    fate.Answered? && exists r | r in fate.buckets :: r.name == name && r.uuid == uuid
  }

  ghost predicate ListsAny(fate: Fate, name: string) {
    fate.Answered? && exists r | r in fate.buckets :: r.name == name
  }

  /** The job is the removal of a bucket this listing holds. */
  ghost predicate RemovalOf(st: State, job: Tick, fate: Fate, name: string) {
    job in st.jobs && st.jobs[job].effect.Remove? && Lists(fate, name, st.jobs[job].effect.uuid)
  }

  /**
   A Delete's verdict: nothing listed means there is nothing to do; otherwise it is that of the removal it has asked
   for, and a failure if the bucket was gone by then.
   */
  ghost predicate DeleteVerdict(st: State, name: string, calls: seq<(Tick, Fate)>, outcome: Outcome) {
    && calls != []
    && if !ListsAny(calls[0].1, name) then |calls| == 1 && outcome == Deleted
       else if |calls| == 1 then false
       else if calls[1].0 !in st.jobs then |calls| == 2 && outcome.Failed? && outcome.code == Internal
       else
         && |calls| >= 3 && RemovalOf(st, calls[1].0, calls[0].1, name) && st.jobs[calls[1].0].Finished?
         && if st.jobs[calls[1].0].ok then outcome == Deleted else outcome.Failed? && outcome.code == Internal
  }

  /** A Delete at each of its stages, after these calls of its own. */
  ghost predicate DeleteSoFar(st: State, p: Process, name: string, calls: seq<(Tick, Fate)>) {
    && p.rpc == Delete(name)
    && match p.stage
       case Finding => calls == []
       case Removing(uuid) => |calls| == 1 && Lists(calls[0].1, name, uuid)
       case Watching(job) => |calls| >= 2 && job == calls[1].0 && RemovalOf(st, job, calls[0].1, name)
       case Done(outcome) => DeleteVerdict(st, name, calls, outcome)
       case _ => false
  }

  ghost predicate CallsBefore(calls: seq<(Tick, Fate)>, now: Tick) {
    forall i | 0 <= i < |calls| :: calls[i].0 < now
  }

  /** The first record of the name has this size. */
  ghost predicate FirstHasSize(records: seq<BucketRecord>, name: string, size: int) {
    exists k | 0 <= k < |records| ::
      && records[k].name == name && records[k].size == size
      && forall j | 0 <= j < k :: records[j].name != name
  }

  /** The text a failed job is judged by. */
  function JobText(job: Job): string
    requires job.Finished?
  {
    if job.errorMessage == "" then job.message else job.errorMessage
  }

  /** A Create's verdict when it was shown a record: what it validates, if it validates. */
  ghost predicate FoundVerdict(rpc: Rpc, calls: seq<(Tick, Fate)>, outcome: Outcome)
    requires rpc.Create?
  {
    if rpc.skipValidation || WantedSize(rpc.params) == AnySize then |calls| == 1 && outcome == Created(rpc.name)
    else match WantedSize(rpc.params)
      case Bytes(size) =>
        && |calls| == 2 && calls[1].1.Answered?
        && if FirstHasSize(calls[1].1.buckets, rpc.name, size) then outcome == Created(rpc.name)
           else outcome.Failed? && outcome.code == AlreadyExists
      case _ => |calls| == 1 && outcome.Failed? && outcome.code == Internal
  }

  /** And when it was shown none: that of the job it has started, if its parameters let it start one. */
  ghost predicate MissingVerdict(st: State, rpc: Rpc, calls: seq<(Tick, Fate)>, outcome: Outcome)
    requires rpc.Create?
  {
    match PlanBucket(rpc.name, rpc.params)
    case Failure(_) =>
      && |calls| == 1 && outcome.Failed?
      && outcome.code == if Size.ParseBucketSize(Param(rpc.params, "size")).Failure? then InvalidArgument else Unknown
    case Success(bucket) =>
      && |calls| >= 3 && calls[1].0 in st.jobs
      && st.jobs[calls[1].0].effect == Install(bucket) && st.jobs[calls[1].0].Finished?
      && if st.jobs[calls[1].0].ok then outcome == Created(rpc.name)
         else
           && outcome.Failed?
           && outcome.code == if HoldsMarker(JobText(st.jobs[calls[1].0])) then ResourceExhausted else Unknown
  }

  ghost predicate CreateVerdict(st: State, rpc: Rpc, calls: seq<(Tick, Fate)>, outcome: Outcome)
    requires rpc.Create?
  {
    && calls != [] && calls[0].1.Answered?
    && if calls[0].1.buckets != [] then FoundVerdict(rpc, calls, outcome) else MissingVerdict(st, rpc, calls, outcome)
  }

  /** A Create at each of its stages, after these calls of its own. */
  ghost predicate CreateSoFar(st: State, p: Process, calls: seq<(Tick, Fate)>)
    requires p.rpc.Create?
  {
    match p.stage
    case Checking => calls == []
    case Comparing(want) =>
      && |calls| == 1 && calls[0].1.Answered? && calls[0].1.buckets != []
      && !p.rpc.skipValidation && WantedSize(p.rpc.params) == Bytes(want)
    case Posting(bucket) =>
      && |calls| == 1 && calls[0].1.Answered? && calls[0].1.buckets == []
      && PlanBucket(p.rpc.name, p.rpc.params) == Success(bucket)
    case Polling(job) =>
      && |calls| >= 2 && calls[0].1.Answered? && calls[0].1.buckets == [] && job == calls[1].0 && job in st.jobs
      && st.jobs[job].effect.Install?
      && PlanBucket(p.rpc.name, p.rpc.params) == Success(st.jobs[job].effect.bucket)
    case Done(outcome) => CreateVerdict(st, p.rpc, calls, outcome)
    case _ => false
  }

  ghost predicate SoFar(st: State, p: Process, calls: seq<(Tick, Fate)>) {
    match p.rpc
    case Create(_, _, _) => CreateSoFar(st, p, calls)
    case Delete(name) => DeleteSoFar(st, p, name, calls)
    case _ => false
  }

  /** Nothing but the RPC's own job matters to it. */
  lemma OthersKeepSoFar(st: State, st': State, p: Process, calls: seq<(Tick, Fate)>, tick: Tick)
    requires SoFar(st, p, calls) && JobsKept(st, st', tick) && JobsBefore(st, tick) && CallsBefore(calls, tick)
    ensures SoFar(st', p, calls)
  {
    if |calls| >= 2 {
      assert calls[1].0 < tick;
    }
  }

  lemma FoundIsListed(fate: Fate, name: string)
    requires fate.Answered?
    ensures FindBucket(fate.buckets, name).Some? <==> ListsAny(fate, name)
    ensures FindBucket(fate.buckets, name).Some? ==> Lists(fate, name, FindBucket(fate.buckets, name).value.uuid)
  {
    FoundIsRecorded(fate.buckets, name);
  }

  lemma OwnDeleteCall(st: State, p: Process, name: string, calls: seq<(Tick, Fate)>, fate: Fate, tick: Tick)
    requires p.Running() && DeleteSoFar(st, p, name, calls) && JobsBefore(st, tick) && CallsBefore(calls, tick)
    requires Heard(st, NextRequest(p), fate)
    ensures var (st', r) := Serve(st, NextRequest(p), fate, tick);
            DeleteSoFar(st', Resume(p, r), name, calls + [(tick, fate)])
  {
    ServeAddsAJob(st, NextRequest(p), fate, tick);
    match p.stage
    case Finding => FoundIsListed(fate, name);
    case Removing(uuid) =>
    case Watching(job) =>
  }

  lemma {:induction false} FirstOfTheName(records: seq<BucketRecord>, name: string, size: int)
    ensures FirstHasSize(records, name, size)
            <==> FindBucket(records, name).Some? && FindBucket(records, name).value.size == size
  {
    if records != [] {
      var rest := records[1..];
      FirstOfTheName(rest, name, size);
      if records[0].name != name {
        if FirstHasSize(rest, name, size) {
          var k :| 0 <= k < |rest| && rest[k].name == name && rest[k].size == size
                   && forall j | 0 <= j < k :: rest[j].name != name;
          assert records[k + 1] == rest[k] && forall j | 1 <= j < k + 1 :: records[j] == rest[j - 1];
        }
        if FirstHasSize(records, name, size) {
          var k :| 0 <= k < |records| && records[k].name == name && records[k].size == size
                   && forall j | 0 <= j < k :: records[j].name != name;
          assert rest[k - 1] == records[k] && forall j | 0 <= j < k - 1 :: rest[j] == records[j + 1];
        }
      } else {
        assert size == records[0].size ==> FirstHasSize(records, name, size);
      }
    }
  }

  lemma PlanFailureCode(name: string, params: Params)
    requires PlanBucket(name, params).Failure?
    ensures CreateFailure(PlanBucket(name, params).error).code
            == if Size.ParseBucketSize(Param(params, "size")).Failure? then InvalidArgument else Unknown
  {
    PlannedExactly(name, params);
  }

  lemma JobFailureCode(status: JobStatus, name: string)
    ensures CreateFailure(JobError("create", status, name)).code
            == if HoldsMarker(if status.errorMessage == "" then status.message else status.errorMessage)
               then ResourceExhausted else Unknown
  {
    QuotaMessageExactly(JobError("create", status, name).message);
  }

  lemma LookupGoesOn(st: State, p: Process, fate: Fate, tick: Tick)
    requires p.Running() && p.rpc.Create? && p.stage == Checking && Heard(st, NextRequest(p), fate)
    ensures var (st', r) := Serve(st, NextRequest(p), fate, tick);
            CreateSoFar(st', Resume(p, r), [(tick, fate)])
  {
    if fate.buckets == [] && PlanBucket(p.rpc.name, p.rpc.params).Failure? {
      PlanFailureCode(p.rpc.name, p.rpc.params);
    }
  }

  lemma PollGoesOn(st: State, p: Process, calls: seq<(Tick, Fate)>, job: Tick, fate: Fate, tick: Tick)
    requires p.Running() && p.rpc.Create? && p.stage == Polling(job) && CreateSoFar(st, p, calls)
    requires Heard(st, NextRequest(p), fate)
    ensures var (st', r) := Serve(st, NextRequest(p), fate, tick);
            CreateSoFar(st', Resume(p, r), calls + [(tick, fate)])
  {
    JobFailureCode(StatusOf(st.jobs[job], fate.text), p.rpc.name);
  }

  lemma OwnCreateCall(st: State, p: Process, calls: seq<(Tick, Fate)>, fate: Fate, tick: Tick)
    requires p.Running() && p.rpc.Create? && CreateSoFar(st, p, calls)
    requires Heard(st, NextRequest(p), fate)
    ensures var (st', r) := Serve(st, NextRequest(p), fate, tick);
            CreateSoFar(st', Resume(p, r), calls + [(tick, fate)])
  {
    match p.stage
    case Checking => LookupGoesOn(st, p, fate, tick);
    case Comparing(want) => FirstOfTheName(fate.buckets, p.rpc.name, want);
    case Posting(_) =>
    case Polling(job) => PollGoesOn(st, p, calls, job, fate, tick);
  }

  lemma UntouchedStays(s: System, slot: Slot, e: Event)
    requires slot in s.processes && Undisturbed(s, slot, e) && CallMade(s, slot, e) == []
    ensures slot in Step(s, e).processes && Step(s, e).processes[slot] == s.processes[slot]
  {
  }

  /** The invariant of a run whose calls for the slot are all answered. */
  ghost predicate Ongoing(s: System, slot: Slot, rpc: Rpc, calls: seq<(Tick, Fate)>, now: Tick) {
    && slot in s.processes && s.processes[slot].rpc == rpc && (s.Busy(slot) || s.processes[slot].stage.Done?)
    && SoFar(s.st, s.processes[slot], calls) && JobsBefore(s.st, now) && CallsBefore(calls, now)
  }

  lemma OwnCallGoesOn(st: State, p: Process, calls: seq<(Tick, Fate)>, fate: Fate, tick: Tick)
    requires p.Running() && SoFar(st, p, calls) && JobsBefore(st, tick) && CallsBefore(calls, tick)
    requires Heard(st, NextRequest(p), fate)
    ensures var (st', r) := Serve(st, NextRequest(p), fate, tick);
            SoFar(st', Resume(p, r), calls + [(tick, fate)])
  {
    if p.rpc.Create? {
      OwnCreateCall(st, p, calls, fate, tick);
    } else {
      OwnDeleteCall(st, p, p.rpc.name, calls, fate, tick);
    }
  }

  lemma StepGoesOn(s: System, slot: Slot, rpc: Rpc, e: Event, calls: seq<(Tick, Fate)>, now: Tick)
    requires Ongoing(s, slot, rpc, calls, now) && now <= e.tick && Undisturbed(s, slot, e)
    ensures Ongoing(Step(s, e), slot, rpc, calls + CallMade(s, slot, e), e.tick + 1)
  {
    StepKeepsJobs(s, e, now);
    if CallMade(s, slot, e) == [] {
      assert calls + [] == calls;
      UntouchedStays(s, slot, e);
      OthersKeepSoFar(s.st, Step(s, e).st, s.processes[slot], calls, e.tick);
    } else {
      OwnCallGoesOn(s.st, s.processes[slot], calls, e.action.fate, e.tick);
    }
  }

  lemma InOneList(xs: seq<(Tick, Fate)>, ys: seq<(Tick, Fate)>, zs: seq<(Tick, Fate)>)
    ensures xs + ys + zs == xs + (ys + zs)
  {
  }

  lemma {:induction false} RunGoesOn(s: System, slot: Slot, rpc: Rpc, events: seq<Event>, calls: seq<(Tick, Fate)>,
                                     now: Tick)
    requires Ongoing(s, slot, rpc, calls, now) && Timely(now, events) && AllUndisturbed(s, slot, events)
    ensures Ongoing(Run(s, events), slot, rpc, calls + CallsMade(s, slot, events), Clock(now, events))
    decreases |events|
  {
    if events == [] {
      assert calls + [] == calls;
    } else {
      var e, rest := events[0], events[1..];
      StepGoesOn(s, slot, rpc, e, calls, now);
      RunGoesOn(Step(s, e), slot, rpc, rest, calls + CallMade(s, slot, e), e.tick + 1);
      InOneList(calls, CallMade(s, slot, e), CallsMade(Step(s, e), slot, rest));
    }
  }

  lemma AnsweredRun(s: System, slot: Slot, rpc: Rpc, events: seq<Event>, now: Tick)
    requires (rpc.Create? || rpc.Delete?) && slot in s.processes && s.processes[slot] == Launch(rpc)
    requires JobsBefore(s.st, now) && Timely(now, events) && AllUndisturbed(s, slot, events)
    ensures Ongoing(Run(s, events), slot, rpc, CallsMade(s, slot, events), Clock(now, events))
  {
    RunGoesOn(s, slot, rpc, events, [], now);
    assert [] + CallsMade(s, slot, events) == CallsMade(s, slot, events);
  }

  function At(jobs: map<Tick, Job>, job: Tick): Option<Job> {
    if job in jobs then Some(jobs[job]) else None
  }

  predicate EndedWell(job: Option<Job>) {
    job.Some? && job.value.Finished? && job.value.ok
  }

  /** The job an RPC has started: that of its second call. */
  function StartedJob(st: State, calls: seq<(Tick, Fate)>): Option<Job> {
    if |calls| < 2 then None else At(st.jobs, calls[1].0)
  }

  /**
   A Delete whose own calls are all answered, whatever else happens: it reports success exactly if its lookup listed no
   bucket of the name or the removal job it started ended well, and an internal error exactly if that job failed or the
   bucket was gone when it asked for the removal.
   */
  lemma AnsweredDeleteExactly(s: System, slot: Slot, events: seq<Event>, name: string, now: Tick)
    requires slot in s.processes && s.processes[slot] == Launch(Delete(name))
    requires JobsBefore(s.st, now) && Timely(now, events) && AllUndisturbed(s, slot, events)
    ensures var t := Run(s, events);
            var calls := CallsMade(s, slot, events);
            var job := StartedJob(t.st, calls);
            && slot in t.processes && t.processes[slot].rpc == Delete(name)
            && (t.processes[slot].stage.Done? ==>
                  var outcome := t.processes[slot].stage.outcome;
                  && calls != []
                  && (outcome == Deleted <==> !ListsAny(calls[0].1, name) || EndedWell(job))
                  && (outcome.Failed? <==> ListsAny(calls[0].1, name) && !EndedWell(job))
                  && (outcome.Failed? ==> outcome.code == Internal && (job == None || job.value.Finished?))
                  && (job.Some? ==> job.value.effect.Remove? && Lists(calls[0].1, name, job.value.effect.uuid)))
  {
    AnsweredRun(s, slot, Delete(name), events, now);
  }

  /**
   A Create whose own calls are all answered, whatever else happens: shown a record, it ends with what it validates;
   shown none, it reports success exactly if the job it started, which installs the bucket it plans, ended well, and
   otherwise the failure of its parameters or of that job.
   */
  lemma AnsweredCreateExactly(s: System, slot: Slot, events: seq<Event>, rpc: Rpc, now: Tick)
    requires rpc.Create? && slot in s.processes && s.processes[slot] == Launch(rpc)
    requires JobsBefore(s.st, now) && Timely(now, events) && AllUndisturbed(s, slot, events)
    ensures var t := Run(s, events);
            && slot in t.processes && t.processes[slot].rpc == rpc
            && (t.processes[slot].stage.Done? ==>
                  CreateVerdict(t.st, rpc, CallsMade(s, slot, events), t.processes[slot].stage.outcome))
  {
    AnsweredRun(s, slot, rpc, events, now);
  }

  /** The first poll of a job that has ended is the last. */
  lemma EndedJobEndsIt(s: System, slot: Slot, rpc: Rpc, calls: seq<(Tick, Fate)>, now: Tick, e: Event)
    requires Ongoing(s, slot, rpc, calls, now) && now <= e.tick && Undisturbed(s, slot, e)
    requires CallMade(s, slot, e) != [] && |calls| >= 2
    requires StartedJob(s.st, calls).Some? ==> StartedJob(s.st, calls).value.Finished?
    ensures slot in Step(s, e).processes && Step(s, e).processes[slot].stage.Done?
  {
  }

  /** So an RPC that has started its job and then polls once it has ended is done. */
  lemma AnsweredRpcEnds(s: System, slot: Slot, rpc: Rpc, before: seq<Event>, e: Event, now: Tick)
    requires (rpc.Create? || rpc.Delete?) && slot in s.processes && s.processes[slot] == Launch(rpc)
    requires JobsBefore(s.st, now) && Timely(now, before + [e]) && AllUndisturbed(s, slot, before + [e])
    requires e.action.Call? && e.action.slot == slot && |CallsMade(s, slot, before)| >= 2
    requires var job := StartedJob(Run(s, before).st, CallsMade(s, slot, before));
             job.Some? ==> job.value.Finished?
    ensures var t := Run(s, before + [e]);
            slot in t.processes && t.processes[slot].stage.Done?
  {
    RunConcat(s, now, before, [e]);
    UndisturbedOn(s, slot, before, [e]);
    AnsweredRun(s, slot, rpc, before, now);
    var t := Run(s, before);
    RunOne(t, Clock(now, before), e);
    OneOwnCall(t, slot, e);
    if t.Busy(slot) {
      EndedJobEndsIt(t, slot, rpc, CallsMade(s, slot, before), Clock(now, before), e);
    }
  }

  /** No bucket of the name is stored at any moment of the run. */
  ghost predicate NeverStored(s: System, events: seq<Event>, name: string)
    decreases |events|
  {
    !BucketNamed(s.st, name) && (events == [] || NeverStored(Step(s, events[0]), events[1..], name))
  }

  /** How many of its buckets a Grant has found. */
  function FoundSoFar(p: Process): nat
    requires p.rpc.Grant?
  {
    match p.stage
    case Probing(i) => i
    case PostingPolicy(i) => i + 1
    case PatchingPolicy(i) => i + 1
    case PostingUser(i) => i + 1
    case PatchingUser(i) => i + 1
    case PostingGroup(i, _) => i + 1
    case Done(Granted(_, _, _)) => |p.rpc.buckets|
    case _ => 0
  }

  /** None of them is this one. */
  predicate NotFoundYet(p: Process, name: string) {
    p.rpc.Grant? ==> forall k | 0 <= k < FoundSoFar(p) && k < |p.rpc.buckets| :: p.rpc.buckets[k] != name
  }

  lemma LookupNeedsABucket(s: System, slot: Slot, fate: Fate, tick: Tick)
    requires s.Busy(slot) && s.processes[slot].stage.Probing? && Filtered(s, Event(tick, Call(slot, fate)))
    ensures var p := s.processes[slot];
            var q := Resume(p, Serve(s.st, NextRequest(p), fate, tick).1);
            !q.stage.Done? ==> q.stage == PostingPolicy(p.stage.i) && BucketNamed(s.st, p.rpc.buckets[p.stage.i])
  {
    var p := s.processes[slot];
    if Heard(s.st, NextRequest(p), fate) && fate.buckets != [] {
      ShownIsNamed(s.st, p.rpc.buckets[p.stage.i], fate, fate.buckets[0]);
    }
  }

  lemma OnlyLookupsFind(p: Process, r: Response)
    requires p.Running() && p.rpc.Grant? && !p.stage.Probing? && Answers(NextRequest(p), r)
    ensures var q := Resume(p, r);
            FoundSoFar(q) <= FoundSoFar(p) || FoundSoFar(p) >= |p.rpc.buckets|
  {
  }

  lemma CallKeepsNotFound(s: System, slot: Slot, fate: Fate, tick: Tick, name: string)
    requires s.Busy(slot) && Filtered(s, Event(tick, Call(slot, fate))) && !BucketNamed(s.st, name)
    requires NotFoundYet(s.processes[slot], name)
    ensures var p := s.processes[slot];
            NotFoundYet(Resume(p, Serve(s.st, NextRequest(p), fate, tick).1), name)
  {
    var p := s.processes[slot];
    if p.stage.Probing? {
      LookupNeedsABucket(s, slot, fate, tick);
    } else if p.rpc.Grant? {
      OnlyLookupsFind(p, Serve(s.st, NextRequest(p), fate, tick).1);
    }
  }

  /**
   A Grant needs its buckets: in no run whose listings hold only records of the name asked for does one succeed that
   names a bucket which is never there.
   */
  lemma {:induction false} GrantNeedsItsBuckets(s: System, events: seq<Event>, name: string)
    requires NeverStored(s, events, name) && AllFiltered(s, events)
    requires forall slot | slot in s.processes :: NotFoundYet(s.processes[slot], name)
    ensures forall slot | slot in Run(s, events).processes :: NotFoundYet(Run(s, events).processes[slot], name)
    ensures forall slot | slot in Run(s, events).processes ::
              var p := Run(s, events).processes[slot];
              p.rpc.Grant? && p.stage.Done? && p.stage.outcome.Granted? ==> name !in p.rpc.buckets
    decreases |events|
  {
    if events != [] {
      var e := events[0];
      if e.action.Call? && s.Busy(e.action.slot) {
        CallKeepsNotFound(s, e.action.slot, e.action.fate, e.tick, name);
      }
      GrantNeedsItsBuckets(Step(s, e), events[1..], name);
    }
  }
}
