/** The client's bucket calls: asynchronous jobs, polled against a deadline. */
module BucketClient {
  import opened Results
  import opened Text
  import opened Errors
  import opened Ontap
  import opened Rpc
  import opened Service
  import opened Client
  import opened PollTimer
  import Size

  /** In milliseconds. */
  const DEFAULT_POLL_INTERVAL: nat := 2000
  const DEFAULT_POLL_TIMEOUT: nat := 300000

  predicate Waiting(p: Process, job: Tick) {
    p.Running() && (p.stage == Polling(job) || p.stage == Watching(job))
  }

  lemma PendingStays(p: Process, job: Tick, status: JobStatus)
    requires Waiting(p, job) && !Terminal(status.state)
    ensures Resume(p, JobIs(status)) == p
  {
  }

  /** What a poll has come to, as the service now is. */
  ghost predicate Told(be: Backend, job: Tick, res: Result<JobStatus, Error>)
    reads be
  {
    var r := match res case Success(status) => JobIs(status) case Failure(e) => Fault(e);
    be.tick > 0 && JobTold(be.Current().st, job, be.fates(be.tick - 1), r)
  }

  /** One poll of the job. */
  method Poll(be: Backend, slot: Slot, job: Tick) returns (res: Result<JobStatus, Error>)
    requires be.Valid() && slot in be.processes && Waiting(be.processes[slot], job)
    modifies be
    ensures Told(be, job, res)
    ensures var p := old(be.processes[slot]);
            match res
            case Success(status) => Moved(be, slot, if Terminal(status.state) then Resume(p, JobIs(status)) else p)
            case Failure(e) => Transport(e) && Moved(be, slot, Resume(p, Fault(e)))
  {
    ghost var p := be.processes[slot];
    var r := be.Do(slot, GetJob(job));
    if r.Fault? {
      return Failure(r.error);
    }
    if !Terminal(r.status.state) {
      PendingStays(p, job, r.status);
    }
    return Success(r.status);
  }

  /** The error of a wait that has timed out: that of whichever context was done first. */
  predicate TimeoutError(e: Error, timeout: nat, clock: PollClock) {
    && e.ContextDone?
    && (e.expired <==>
          match clock.callerDone
          case None => true
          case Some(done) => timeout <= done || clock.callerExpired)
  }

  /** The polling context, or the caller's, is done. */
  predicate ContextOver(t: nat, timeout: nat, clock: PollClock) {
    timeout <= t || (clock.callerDone.Some? && clock.callerDone.value <= t)
  }

  /** One turn of the polling loop: None when the job is pending and a tick let the loop go on. */
  method PollThenWait(be: Backend, slot: Slot, job: Tick, pace: Pace, interval: nat, timeout: nat, clock: PollClock)
    returns (res: Option<Result<JobStatus, Error>>, timedOut: bool, next: Pace)
    requires interval > 0 && Kept(pace, interval)
    requires be.Valid() && slot in be.processes && Waiting(be.processes[slot], job)
    modifies be
    ensures var p := old(be.processes[slot]);
            match res
            case None => Moved(be, slot, p)
            case Some(Success(status)) => Terminal(status.state) && Moved(be, slot, Resume(p, JobIs(status)))
            case Some(Failure(e)) => Transport(e) && Moved(be, slot, Resume(p, Fault(e)))
    ensures next.polls == pace.polls + 1
    ensures res.Some? && !timedOut ==> Told(be, job, res.value) && next.now == pace.now
    ensures timedOut ==>
              && res.Some? && res.value.Failure? && TimeoutError(res.value.error, timeout, clock)
              && ContextOver(next.now, timeout, clock)
    ensures timedOut && Quick(clock, interval) && Punctual(pace, interval) && pace.now < clock.Deadline(timeout) ==>
              TicksBy(clock.Deadline(timeout), interval) <= next.polls
    ensures res == None ==>
              && Kept(next, interval) && next.seen > pace.seen
              && (next.now < clock.Deadline(timeout) ==> next.seen <= TicksBy(clock.Deadline(timeout), interval))
              && (Quick(clock, interval) && Punctual(pace, interval) ==> Punctual(next, interval))
  {
    var polled := Poll(be, slot, job);
    if polled.Failure? || Terminal(polled.value.state) {
      return Some(polled), false, pace.(polls := pace.polls + 1);
    }
    var goOn;
    goOn, next := AwaitTick(pace, interval, clock.Deadline(timeout), clock);
    if !goOn {
      var expired := ContextDone(clock.Expires(timeout));
      be.GiveUp(slot, expired);
      return Some(Failure(expired)), true, next;
    }
    return None, false, next;
  }

  /**
   waitForJob's loop: it ends whatever the clock does, and polls at most once more than the interval fits into the
   timeout. It gives up only when its context is done, and with polls quicker than the interval not before it has polled
   once for each interval of the timeout; otherwise it tells what its last poll, begun in time, has come to: a terminal
   state, or no answer.
   */
  method PollUntil(be: Backend, slot: Slot, job: Tick, timeout: nat, interval: nat, clock: PollClock)
    returns (res: Result<JobStatus, Error>, polls: nat, timedOut: bool, ended: nat)
    requires interval > 0
    requires be.Valid() && slot in be.processes && Waiting(be.processes[slot], job)
    modifies be
    ensures polls <= TicksBy(timeout, interval) + 1
    ensures timedOut ==>
              && res.Failure? && TimeoutError(res.error, timeout, clock) && ContextOver(ended, timeout, clock)
              && (Quick(clock, interval) && clock.callerDone == None ==> TicksBy(timeout, interval) <= polls)
    ensures !timedOut ==> Told(be, job, res) && polls > 0 && !ContextOver(ended, timeout, clock)
    ensures var p := old(be.processes[slot]);
            match res
            case Success(status) => Terminal(status.state) && Moved(be, slot, Resume(p, JobIs(status)))
            case Failure(e) => Transport(e) && Moved(be, slot, Resume(p, Fault(e)))
  {
    var deadline := clock.Deadline(timeout);
    ghost var most := TicksBy(deadline, interval);
    TicksMonotone(deadline, timeout, interval);
    var pace := Pace(0, 0, 0);
    // A poll under a context that is already done fails before it is sent.
    while pace.now < deadline
      invariant Moved(be, slot, old(be.processes[slot]))
      invariant Kept(pace, interval)
      invariant pace.polls <= most + 1
      invariant pace.now < deadline ==> pace.seen <= most
      invariant Quick(clock, interval) ==> Punctual(pace, interval)
      decreases most + 1 - pace.seen
    {
      var result;
      result, timedOut, pace := PollThenWait(be, slot, job, pace, interval, timeout, clock);
      if result.Some? {
        return result.value, pace.polls, timedOut, pace.now;
      }
    }
    TicksMonotone(deadline, pace.now, interval);
    var done := ContextDone(clock.Expires(timeout));
    be.GiveUp(slot, done);
    return Failure(done), pace.polls, true, pace.now;
  }

  /** waitForJob: a poll every two seconds, for five minutes. */
  method WaitForJob(be: Backend, slot: Slot, job: Tick, clock: PollClock)
    returns (res: Result<JobStatus, Error>, polls: nat, timedOut: bool, ended: nat)
    requires be.Valid() && slot in be.processes && Waiting(be.processes[slot], job)
    modifies be
    ensures polls <= 151
    ensures timedOut ==>
              && res.Failure? && TimeoutError(res.error, 300000, clock) && ContextOver(ended, 300000, clock)
              && (Quick(clock, 2000) && clock.callerDone == None ==> polls >= 150)
    ensures !timedOut ==> Told(be, job, res) && polls > 0 && !ContextOver(ended, 300000, clock)
    ensures var p := old(be.processes[slot]);
            match res
            case Success(status) => Terminal(status.state) && Moved(be, slot, Resume(p, JobIs(status)))
            case Failure(e) => Transport(e) && Moved(be, slot, Resume(p, Fault(e)))
  {
    TicksAreQuotient(300000, 2000);
    res, polls, timedOut, ended := PollUntil(be, slot, job, DEFAULT_POLL_TIMEOUT, DEFAULT_POLL_INTERVAL, clock);
  }

  /** BucketExists: whether the listing holds any record. */
  method BucketExists(be: Backend, slot: Slot, bucket: string) returns (res: Result<bool, Error>)
    requires be.Valid() && be.Busy(slot) && NextRequest(be.processes[slot]) == ListBuckets(bucket)
    requires be.processes[slot].stage.Checking? || be.processes[slot].stage.Probing?
    modifies be
    ensures var p := old(be.processes[slot]);
            match res
            case Success(exists_) =>
              if p.rpc.Grant? then
                Moved(be, slot, p.(stage := if exists_ then PostingPolicy(p.stage.i)
                                            else Done(Failed(NotFound, Plain("bucket not found")))))
              else
                Moved(be, slot, p.(stage := if exists_ then AfterExists(p.rpc.name, p.rpc.params, p.rpc.skipValidation)
                                            else AfterMissing(p.rpc.name, p.rpc.params)))
            case Failure(e) => Moved(be, slot, p.(stage := Done(Failed(Internal, e))))
  {
    var r := be.Do(slot, ListBuckets(bucket));
    if r.Fault? {
      return Failure(r.error);
    }
    return Success(|r.buckets| > 0);
  }

  /** IsBucketEqual, from the stage a found bucket is validated in. */
  method IsBucketEqual(be: Backend, slot: Slot, bucket: string, params: Params) returns (res: Result<bool, Error>)
    requires be.Valid() && slot in be.processes
    requires var p := be.processes[slot];
             p.rpc == Create(bucket, params, false) && p.stage == AfterExists(bucket, params, false)
    modifies be
    ensures var p := old(be.processes[slot]);
            match res
            case Success(equal) =>
              Moved(be, slot, p.(stage := Done(if equal then Created(bucket)
                                               else Failed(AlreadyExists, Plain("bucket already exists")))))
            case Failure(e) => Moved(be, slot, p.(stage := Done(Failed(Internal, e))))
  {
    if "size" !in params || Trim(params["size"]) == "" {
      TrimOfNothing();
      return Success(true);
    }
    var parsed := Size.ParseBucketSize(params["size"]);
    if parsed.Failure? {
      return Failure(Plain("invalid bucket size parameter"));
    }
    var r := be.Do(slot, ListBuckets(bucket));
    if r.Fault? {
      return Failure(r.error);
    }
    var rec := FirstExact(r.buckets, bucket);
    if rec == None {
      return Success(false);
    }
    return Success(rec.value.size == parsed.value);
  }

  lemma TrimOfNothing()
    ensures Trim("") == ""
  {
  }

  /** The error of a job that ended in failure, with the job's own message when it carries no error. */
  method JobFailure(operation: string, status: JobStatus, bucket: string) returns (err: Error)
    ensures err == JobError(operation, status, bucket)
  {
    var errMsg := status.errorMessage;
    if errMsg == "" {
      errMsg := status.message;
    }
    return JobFailed(operation, status.errorCode, errMsg, bucket);
  }

  /** The request body CreateBucket builds, or why it sends none. */
  method BuildBucket(bucket: string, params: Params) returns (res: Result<Bucket, Error>)
    ensures res == PlanBucket(bucket, params)
  {
    var rawSize := Trim(Param(params, "size"));
    if rawSize == "" {
      return Failure(Coded(InvalidArgument, "size parameter is required"));
    }
    var size := Size.ParseBucketSize(rawSize);
    if size.Failure? {
      return Failure(Coded(InvalidArgument, "invalid bucket size parameter"));
    }
    var comment := Trim(Param(params, "comment"));
    var objectLocking := false;
    if "objectLocking" in params && params["objectLocking"] != "" {
      var parsed := ParseBool(params["objectLocking"]);
      if parsed == None {
        return Failure(Plain("invalid syntax"));
      }
      objectLocking := parsed.value;
    }
    return Success(Bucket(bucket, size.value, comment, objectLocking));
  }

  /** Success is told of a job that ended well, a job's failure of one that did not; a wait that failed is wrapped. */
  ghost predicate Concluded(be: Backend, job: Tick, err: Option<Error>)
    reads be
  {
    match err
    case None => job in be.jobs && be.jobs[job].Finished? && be.jobs[job].ok
    case Some(e) =>
      e.Wrapped? || (e.JobFailed? && job in be.jobs && be.jobs[job].Finished? && !be.jobs[job].ok)
  }

  /** What the end of its job makes of a Create. */
  lemma CreationEnds(p: Process, job: Tick, e: Error, status: JobStatus)
    requires p.rpc.Create? && p.stage == Polling(job) && Transport(e) && Terminal(status.state)
    ensures var err := Wrapped("failed waiting for bucket creation job", e);
            Resume(p, Fault(e)) == p.(stage := Done(CreateFailure(err))) && CodeOf(err) != Unavailable
    ensures var err := JobError("create", status, p.rpc.name);
            CodeOf(err) != Unavailable
            && Resume(p, JobIs(status))
               == p.(stage := Done(if status.state == "failure" then CreateFailure(err) else Created(p.rpc.name)))
  {
  }

  /** How CreateBucket ends, once its job has been accepted. */
  method AwaitCreation(be: Backend, slot: Slot, job: Tick, bucket: string, clock: PollClock)
    returns (err: Option<Error>)
    requires be.Valid() && slot in be.processes
    requires be.processes[slot].rpc.Create? && be.processes[slot].rpc.name == bucket
    requires be.processes[slot].stage == Polling(job)
    modifies be
    ensures Concluded(be, job, err)
    ensures var p := old(be.processes[slot]);
            match err
            case None => Moved(be, slot, p.(stage := Done(Created(bucket))))
            case Some(e) => CodeOf(e) != Unavailable && Moved(be, slot, p.(stage := Done(CreateFailure(e))))
  {
    ghost var p := be.processes[slot];
    var jobStatus, _, _, _ := WaitForJob(be, slot, job, clock);
    if jobStatus.Failure? {
      CreationEnds(p, job, jobStatus.error, JobStatus("success", "", "", ""));
      return Some(Wrapped("failed waiting for bucket creation job", jobStatus.error));
    }
    CreationEnds(p, job, Plain(""), jobStatus.value);
    if jobStatus.value.state == "failure" {
      var failure := JobFailure("create", jobStatus.value, bucket);
      return Some(failure);
    }
    return None;
  }

  /** CreateBucket, from the stage a missing bucket is created in. */
  method CreateBucket(be: Backend, slot: Slot, bucket: string, params: Params, clock: PollClock)
    returns (err: Option<Error>)
    requires be.Valid() && slot in be.processes
    requires var p := be.processes[slot];
             p.rpc.Create? && p.rpc.name == bucket && p.rpc.params == params && p.stage == AfterMissing(bucket, params)
    modifies be
    ensures var p := old(be.processes[slot]);
            match err
            case None => Moved(be, slot, p.(stage := Done(Created(bucket))))
            case Some(e) => CodeOf(e) != Unavailable && Moved(be, slot, p.(stage := Done(CreateFailure(e))))
  {
    var planned := BuildBucket(bucket, params);
    if planned.Failure? {
      return Some(planned.error);
    }
    var r := be.Do(slot, PostBucket(planned.value));
    if r.Fault? {
      return Some(Wrapped("failed to initiate bucket creation", r.error));
    }
    err := AwaitCreation(be, slot, r.job, bucket, clock);
  }

  /** How DeleteBucket ends, once its job has been accepted. */
  method AwaitDeletion(be: Backend, slot: Slot, job: Tick, bucket: string, clock: PollClock)
    returns (err: Option<Error>)
    requires be.Valid() && slot in be.processes && be.processes[slot] == Process(Delete(bucket), Watching(job))
    modifies be
    ensures Concluded(be, job, err)
    ensures var p := old(be.processes[slot]);
            match err
            case None => Moved(be, slot, p.(stage := Done(Deleted)))
            case Some(e) => Moved(be, slot, p.(stage := Done(Failed(Internal, e))))
  {
    var jobStatus, _, _, _ := WaitForJob(be, slot, job, clock);
    if jobStatus.Failure? {
      return Some(Wrapped("failed waiting for bucket deletion job", jobStatus.error));
    }
    if jobStatus.value.state == "failure" {
      var failure := JobFailure("deletion", jobStatus.value, bucket);
      return Some(failure);
    }
    return None;
  }

  /** DeleteBucket. */
  method DeleteBucket(be: Backend, slot: Slot, bucket: string, clock: PollClock) returns (err: Option<Error>)
    requires be.Valid() && slot in be.processes && be.processes[slot] == Process(Delete(bucket), Finding)
    modifies be
    ensures var p := old(be.processes[slot]);
            match err
            case None => Moved(be, slot, p.(stage := Done(Deleted)))
            case Some(e) => Moved(be, slot, p.(stage := Done(Failed(Internal, e))))
  {
    var r := be.Do(slot, ListBuckets(bucket));
    if r.Fault? {
      return Some(r.error);
    }
    var existing := FirstExact(r.buckets, bucket);
    if existing == None {
      return None;
    }
    r := be.Do(slot, Request.DeleteBucket(existing.value.uuid));
    if r.Fault? {
      return Some(Wrapped("failed to initiate bucket deletion", r.error));
    }
    err := AwaitDeletion(be, slot, r.job, bucket, clock);
  }
}
