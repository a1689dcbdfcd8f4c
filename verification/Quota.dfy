/** Quota exhaustion is reported as ResourceExhausted exactly when the failing mutation's message says so. */
module Quota {
  import opened Results
  import opened Errors
  import opened Ontap
  import opened Rpc

  /** The stages whose failure CreateBucket or CreateBucketAccess reports, rather than a lookup before them. */
  predicate Mutating(stage: Stage) {
    match stage
    case Posting(_) => true
    case Polling(_) => true
    case PostingPolicy(_) => true
    case PatchingPolicy(_) => true
    case PostingUser(_) => true
    case PatchingUser(_) => true
    case PostingGroup(_, _) => true
    case _ => false
  }

  /**
   The text a failure is judged by: the server's message, or a failed job's error with its own message as fallback.
   */
  function Blamed(r: Response): Option<string> {
    match r
    case Fault(Http(_, message)) => Some(message)
    case JobIs(status) => Some(if status.errorMessage == "" then status.message else status.errorMessage)
    case _ => None
  }

  /** The error carries a message, and the message a marker. */
  ghost predicate Marked(e: Error) {
    (e.Http? || e.JobFailed?) && HoldsMarker(e.message)
  }

  lemma CreateFailureCode(e: Error, prefix: string)
    requires Transport(e) || e.JobFailed?
    ensures CreateFailure(e).code == ResourceExhausted <==> Marked(e)
    ensures CreateFailure(Wrapped(prefix, e)).code == ResourceExhausted <==> Marked(e)
    ensures GrantFailure(e).code == ResourceExhausted <==> Marked(e)
  {
    if e.Http? || e.JobFailed? {
      QuotaMessageExactly(e.message);
    }
    assert CodeOf(Wrapped(prefix, e)) == CodeOf(e) != ResourceExhausted;
    assert IsQuotaExhausted(Wrapped(prefix, e)) == IsQuotaExhausted(e);
  }

  /** A call that fails outright: its error is a quota one exactly when it was a mutation's and its message says so. */
  lemma FaultCode(p: Process, e: Error)
    requires p.Running() && (p.rpc.Create? || p.rpc.Grant?) && Transport(e)
    requires Resume(p, Fault(e)).stage.Done? && Resume(p, Fault(e)).stage.outcome.Failed?
    ensures Resume(p, Fault(e)).stage.outcome.code == ResourceExhausted <==>
            Mutating(p.stage) && Blamed(Fault(e)).Some? && HoldsMarker(Blamed(Fault(e)).value)
  {
    CreateFailureCode(e, "failed to initiate bucket creation");
    CreateFailureCode(e, "failed waiting for bucket creation job");
  }

  lemma JobCode(p: Process, status: JobStatus)
    requires p.Running() && p.rpc.Create? && p.stage.Polling?
    requires Resume(p, JobIs(status)).stage.Done? && Resume(p, JobIs(status)).stage.outcome.Failed?
    ensures Resume(p, JobIs(status)).stage.outcome.code == ResourceExhausted <==>
            Blamed(JobIs(status)).Some? && HoldsMarker(Blamed(JobIs(status)).value)
  {
    CreateFailureCode(JobError("create", status, p.rpc.name), "");
  }

  /** An answered lookup never leads to the code: a request that cannot be made is an invalid argument or unknown. */
  lemma LookupCode(p: Process, r: Response)
    requires p.Running() && (p.rpc.Create? || p.rpc.Grant?) && Answers(NextRequest(p), r) && !r.Fault? && !r.JobIs?
    requires Resume(p, r).stage.Done? && Resume(p, r).stage.outcome.Failed?
    ensures !Mutating(p.stage) && Resume(p, r).stage.outcome.code != ResourceExhausted
  {
    if p.stage.Checking? && PlanBucket(p.rpc.name, p.rpc.params).Failure? {
      PlansAreNoQuota(p.rpc.name, p.rpc.params);
    }
  }

  lemma PlansAreNoQuota(name: string, params: Params)
    requires PlanBucket(name, params).Failure?
    ensures CreateFailure(PlanBucket(name, params).error).code != ResourceExhausted
  {
  }

  /**
   Whatever call a Create or Grant fails at, on the synchronous path, through a conflict, or by a failed job: its code
   is ResourceExhausted exactly when it was a mutation that failed and its message holds a marker phrase.
   */
  lemma ExhaustedExactly(st: State, p: Process, fate: Fate, tick: Tick)
    requires p.Running() && (p.rpc.Create? || p.rpc.Grant?)
    requires var q := Resume(p, Serve(st, NextRequest(p), fate, tick).1);
             q.stage.Done? && q.stage.outcome.Failed?
    ensures var r := Serve(st, NextRequest(p), fate, tick).1;
            Resume(p, r).stage.outcome.code == ResourceExhausted <==>
            Mutating(p.stage) && Blamed(r).Some? && HoldsMarker(Blamed(r).value)
  {
    var r := Serve(st, NextRequest(p), fate, tick).1;
    if r.Fault? {
      FaultsAreTransport(st, NextRequest(p), fate, tick);
      FaultCode(p, r.error);
    } else if r.JobIs? {
      JobCode(p, r.status);
    } else {
      LookupCode(p, r);
    }
  }
}
