/** Which buckets the driver creates and removes: those it is asked for, or the one the override names. */
module BucketScope {
  import opened Ontap
  import opened Rpc
  import opened Buckets
  import opened Deletions
  import opened Driver
  import opened Serving

  /** Buckets are asked for by these names only. */
  predicate AsksFor(ask: Ask, names: set<string>) {
    match ask
    case AskCreate(name) => name in names
    case AskDelete(id) => id in names
    case _ => true
  }

  /** Every RPC that begins is the driver's answer to such a request. */
  ghost predicate AllMade(config: Config, names: set<string>, events: seq<Event>) {
    forall i | 0 <= i < |events| && events[i].action.Begin? ::
      exists ask, params :: AsksFor(ask, names) && events[i].action.rpc == Made(config, ask, params)
  }

  /** The names in question: the override's, if there is one. */
  function Effective(config: Config, names: set<string>): set<string> {
    if config.bucketID != "" then {config.bucketID} else names
  }

  predicate OfNames(rpc: Rpc, names: set<string>) {
    rpc.Create? || rpc.Delete? ==> rpc.name in names
  }

  lemma MadeOfNames(config: Config, names: set<string>, ask: Ask, params: Params)
    requires AsksFor(ask, names)
    ensures OfNames(Made(config, ask, params), Effective(config, names))
  {
  }

  /** What an RPC posts and reports is the bucket it is for. */
  predicate KeepsName(p: Process) {
    match p.stage
    case Posting(bucket) => p.rpc.Create? ==> bucket.name == p.rpc.name
    case Done(outcome) => outcome.Created? ==> p.rpc.Create? && outcome.bucketId == p.rpc.name
    case _ => true
  }

  /** The invariant: every bucket RPC and every job that installs a bucket is for one of these names. */
  ghost predicate OnlyFor(s: System, names: set<string>) {
    && (forall job | job in s.st.jobs && s.st.jobs[job].effect.Install? :: s.st.jobs[job].effect.bucket.name in names)
    && forall slot | slot in s.processes :: OfNames(s.processes[slot].rpc, names) && KeepsName(s.processes[slot])
  }

  lemma ResumeKeepsName(p: Process, r: Response)
    requires p.Running() && Answers(NextRequest(p), r) && KeepsName(p)
    ensures KeepsName(Resume(p, r))
  {
    if p.rpc.Create? && PlanBucket(p.rpc.name, p.rpc.params).Success? {
      CreateAndCompareAgree(p.rpc.name, p.rpc.params);
    }
  }

  lemma PostsOwnBucket(p: Process)
    requires p.Running() && KeepsName(p) && NextRequest(p).PostBucket?
    ensures p.rpc.Create? && NextRequest(p).bucket.name == p.rpc.name
  {
  }

  lemma CallKeepsScope(s: System, slot: Slot, fate: Fate, tick: Tick, names: set<string>)
    requires OnlyFor(s, names) && s.Busy(slot)
    ensures OnlyFor(Step(s, Event(tick, Call(slot, fate))), names)
  {
    var p := s.processes[slot];
    var (st', r) := Serve(s.st, NextRequest(p), fate, tick);
    ServeAddsAJob(s.st, NextRequest(p), fate, tick);
    ResumeKeepsName(p, r);
    if NextRequest(p).PostBucket? {
      PostsOwnBucket(p);
    }
    assert OfNames(Resume(p, r).rpc, names);
  }

  lemma StepKeepsScope(s: System, e: Event, names: set<string>)
    requires OnlyFor(s, names) && (e.action.Begin? ==> OfNames(e.action.rpc, names))
    ensures OnlyFor(Step(s, e), names)
  {
    match e.action
    case Begin(rpc, number) => assert KeepsName(Launch(rpc));
    case Call(slot, fate) =>
      if s.Busy(slot) {
        CallKeepsScope(s, slot, fate, e.tick, names);
      }
    case Finish(job, end) => FinishEffects(s.st, job, end, e.tick);
    case Abandon(_) =>
  }

  /** A bucket that appears has one of the names. */
  lemma StepAddsInScope(s: System, e: Event, names: set<string>, u: Tick)
    requires OnlyFor(s, names) && u in Step(s, e).st.buckets
    ensures (u in s.st.buckets && Step(s, e).st.buckets[u] == s.st.buckets[u])
            || Step(s, e).st.buckets[u].name in names
  {
    match e.action
    case Call(slot, fate) =>
      if s.Busy(slot) {
        ServeAddsAJob(s.st, NextRequest(s.processes[slot]), fate, e.tick);
      }
    case Finish(job, end) => FinishEffects(s.st, job, end, e.tick);
    case _ =>
  }

  lemma {:induction false} RunAddsInScope(s: System, events: seq<Event>, names: set<string>, u: Tick)
    requires OnlyFor(s, names) && u in Run(s, events).st.buckets
    requires forall i | 0 <= i < |events| && events[i].action.Begin? :: OfNames(events[i].action.rpc, names)
    ensures OnlyFor(Run(s, events), names)
    ensures (u in s.st.buckets && Run(s, events).st.buckets[u] == s.st.buckets[u])
            || Run(s, events).st.buckets[u].name in names
    decreases |events|
  {
    if events != [] {
      var s' := Step(s, events[0]);
      StepKeepsScope(s, events[0], names);
      RunAddsInScope(s', events[1..], names, u);
      if u in s'.st.buckets {
        StepAddsInScope(s, events[0], names, u);
      }
    }
  }

  lemma {:induction false} RunStaysInScope(s: System, events: seq<Event>, names: set<string>)
    requires OnlyFor(s, names)
    requires forall i | 0 <= i < |events| && events[i].action.Begin? :: OfNames(events[i].action.rpc, names)
    ensures OnlyFor(Run(s, events), names)
    decreases |events|
  {
    if events != [] {
      StepKeepsScope(s, events[0], names);
      RunStaysInScope(Step(s, events[0]), events[1..], names);
    }
  }

  lemma AllMadeOfNames(config: Config, names: set<string>, events: seq<Event>)
    requires AllMade(config, names, events)
    ensures forall i | 0 <= i < |events| && events[i].action.Begin? ::
              OfNames(events[i].action.rpc, Effective(config, names))
  {
    forall i | 0 <= i < |events| && events[i].action.Begin?
      ensures OfNames(events[i].action.rpc, Effective(config, names))
    {
      var ask, params :| AsksFor(ask, names) && events[i].action.rpc == Made(config, ask, params);
      MadeOfNames(config, names, ask, params);
    }
  }

  lemma OutsiderStays(s: System, events: seq<Event>, names: set<string>, u: Tick, now: Tick)
    requires s.processes == map[] && s.st.jobs == map[] && Timely(now, events) && u < now
    requires forall i | 0 <= i < |events| && events[i].action.Begin? :: OfNames(events[i].action.rpc, names)
    requires u in s.st.buckets && s.st.buckets[u].name !in names
    ensures u in Run(s, events).st.buckets && Run(s, events).st.buckets[u] == s.st.buckets[u]
  {
    RunOverlooks(s, events, u, s.st.buckets[u], now);
    OnlyALookedUpBucketIsRemoved(s, events, u, s.st.buckets[u], now);
  }

  /**
   Whatever the driver is asked for, over every run from an idle driver: a Create that succeeds reports the override's
   bucket, or without an override the one asked for; and a bucket of any other name neither appears nor goes nor
   changes.
   */
  lemma OnlyEffectiveBuckets(s: System, events: seq<Event>, config: Config, names: set<string>, slot: Slot, u: Tick,
                             now: Tick)
    requires s.processes == map[] && s.st.jobs == map[] && Timely(now, events) && AllMade(config, names, events)
    requires forall v | v in s.st.buckets :: v < now
    ensures var t := Run(s, events);
            slot in t.processes && t.processes[slot].stage.Done? && t.processes[slot].stage.outcome.Created? ==>
              if config.bucketID != "" then t.processes[slot].stage.outcome.bucketId == config.bucketID
              else t.processes[slot].stage.outcome.bucketId in names
    ensures u in Run(s, events).st.buckets && Run(s, events).st.buckets[u].name !in Effective(config, names) ==>
              u in s.st.buckets && Run(s, events).st.buckets[u] == s.st.buckets[u]
    ensures u in s.st.buckets && s.st.buckets[u].name !in Effective(config, names) ==>
              u in Run(s, events).st.buckets && Run(s, events).st.buckets[u] == s.st.buckets[u]
  {
    AllMadeOfNames(config, names, events);
    RunStaysInScope(s, events, Effective(config, names));
    if u in Run(s, events).st.buckets {
      RunAddsInScope(s, events, Effective(config, names), u);
    }
    if u in s.st.buckets && s.st.buckets[u].name !in Effective(config, names) {
      OutsiderStays(s, events, Effective(config, names), u, now);
    }
  }
}
