/** The gRPC codes the driver answers with: which failures it passes over, and which code each of the others gets. */
module Codes {
  import opened Results
  import opened Errors
  import opened Ontap
  import opened Rpc
  import opened Buckets
  import opened Quota
  import Size

  /** What is there already need not be made, and what is missing need not be deleted. */
  predicate PassedOver(req: Request, e: Error) {
    match req
    case PostPolicy(_, _) => IsHttpStatus(e, 409)
    case PostUser(_) => IsHttpStatus(e, 409)
    case PostGroup(_) => IsHttpStatus(e, 409)
    case DeleteGroup(_) => IsHttpStatus(e, 404)
    case DeletePolicy(_) => IsHttpStatus(e, 404)
    case DeleteUser(_) => IsHttpStatus(e, 404)
    case _ => false
  }

  /** The code of a Create or Grant that fails because of this error. */
  ghost function CodeFor(e: Error, otherwise: Code): Code {
    if Marked(e) then ResourceExhausted else otherwise
  }

  /** What a Create reports of a call that has failed for no lack of quota. */
  function TransportCode(e: Error): Code {
    match e
    case ContextDone(expired) => if expired then DeadlineExceeded else Canceled
    case _ => Unknown
  }

  /**
   A call that fails ends the RPC, unless it is passed over. Lookups and everything a Delete or Revoke does are internal
   errors; what a Create or Grant changes is judged by its message, and otherwise a Grant's failure is internal, while a
   Create's keeps the code of its context or has none.
   */
  lemma FaultCodesExactly(p: Process, e: Error)
    requires p.Running() && Transport(e)
    ensures var q := Resume(p, Fault(e));
            var req := NextRequest(p);
            && (q.stage.Done? && q.stage.outcome.Failed? <==> !PassedOver(req, e))
            && (!PassedOver(req, e) ==>
                  q.stage.outcome.code
                  == if p.rpc.Delete? || p.rpc.Revoke? || req.ListBuckets? then Internal
                     else CodeFor(e, if p.rpc.Grant? then Internal else TransportCode(e)))
  {
    CreateFailureCode(e, "failed to initiate bucket creation");
    CreateFailureCode(e, "failed waiting for bucket creation job");
  }

  /** A Grant fails on an answer only if no bucket was listed, a Revoke never. */
  lemma AnswerCodes(p: Process, r: Response)
    requires p.Running() && Answers(NextRequest(p), r) && !r.Fault? && CompareFits(p)
    requires Resume(p, r).stage.Done? && Resume(p, r).stage.outcome.Failed?
    ensures var code := Resume(p, r).stage.outcome.code;
            match p.rpc
            case Grant(_, _) => r.Buckets? && r.buckets == [] && code == NotFound
            case Revoke(_, _) => false
            case Delete(_) => r.JobIs? && r.status.state == "failure" && code == Internal
            case Create(_, _, _) => CreateCode(p.rpc, code)
  {
    if p.rpc.Create? {
      CreateAnswerCodes(p, r);
    }
  }

  /** A Create's codes: an argument is invalid only if it is the size, and only who validates is told of a conflict. */
  predicate CreateCode(rpc: Rpc, code: Code)
    requires rpc.Create?
  {
    match code
    case InvalidArgument => Size.ParseBucketSize(Param(rpc.params, "size")).Failure?
    case AlreadyExists => !rpc.skipValidation && WantedSize(rpc.params).Bytes?
    case NotFound => false
    case Unavailable => false
    case Injected(_) => false
    case _ => true
  }

  lemma CreateAnswerCodes(p: Process, r: Response)
    requires p.Running() && p.rpc.Create? && Answers(NextRequest(p), r) && !r.Fault? && CompareFits(p)
    requires Resume(p, r).stage.Done? && Resume(p, r).stage.outcome.Failed?
    ensures CreateCode(p.rpc, Resume(p, r).stage.outcome.code)
  {
    if p.stage.Checking? {
      PlannedExactly(p.rpc.name, p.rpc.params);
    }
  }

  /** Only a Create that validates compares. */
  predicate CompareFits(p: Process) {
    p.rpc.Create? && p.stage.Comparing? ==> !p.rpc.skipValidation && WantedSize(p.rpc.params) == Bytes(p.stage.want)
  }

  /** The code of a failed RPC fits what it was asked. */
  predicate CodeFits(p: Process) {
    p.stage.Done? && p.stage.outcome.Failed? ==>
      var code := p.stage.outcome.code;
      match p.rpc
      case Grant(_, buckets) =>
        if buckets == [] then code == InvalidArgument else code in {NotFound, ResourceExhausted, Internal}
      case Revoke(_, buckets) => if buckets == [] then code == InvalidArgument else code == Internal
      case Delete(_) => code == Internal
      case Create(_, _, _) => CreateCode(p.rpc, code)
  }

  lemma CallKeepsCode(st: State, p: Process, fate: Fate, tick: Tick)
    requires p.Running() && CompareFits(p)
    ensures var q := Resume(p, Serve(st, NextRequest(p), fate, tick).1);
            CompareFits(q) && CodeFits(q)
  {
    var r := Serve(st, NextRequest(p), fate, tick).1;
    var q := Resume(p, r);
    if q.stage.Done? && q.stage.outcome.Failed? {
      if r.Fault? {
        FaultsAreTransport(st, NextRequest(p), fate, tick);
        FaultCodesExactly(p, r.error);
      } else {
        AnswerCodes(p, r);
      }
    }
  }

  /** The invariant of every run. */
  ghost predicate Coded(s: System) {
    forall slot | slot in s.processes :: CompareFits(s.processes[slot]) && CodeFits(s.processes[slot])
  }

  lemma LaunchIsCoded(rpc: Rpc)
    ensures CompareFits(Launch(rpc)) && CodeFits(Launch(rpc))
    ensures Launch(rpc).stage.Done? <==> (rpc.Grant? || rpc.Revoke?) && rpc.buckets == []
  {
  }

  lemma StepKeepsCoded(s: System, e: Event)
    requires Coded(s)
    ensures Coded(Step(s, e))
  {
    match e.action
    case Begin(rpc, number) => LaunchIsCoded(rpc);
    case Call(slot, fate) =>
      if s.Busy(slot) {
        CallKeepsCode(s.st, s.processes[slot], fate, e.tick);
      }
    case _ =>
  }

  /**
   In every run: a request for no buckets is an invalid argument, and the only one a Grant or Revoke has; a Grant is
   told of a missing bucket, of exhausted quota or of an internal error, Revoke and Delete of an internal error only,
   and a Create of an invalid argument only if it gives no size that is accepted.
   */
  lemma {:induction false} RepliesAreCoded(s: System, events: seq<Event>)
    requires Coded(s)
    ensures Coded(Run(s, events))
    decreases |events|
  {
    if events != [] {
      StepKeepsCoded(s, events[0]);
      RepliesAreCoded(Step(s, events[0]), events[1..]);
    }
  }
}
