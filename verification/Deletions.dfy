/**
 DeleteBucket acts on the uuid it looked up: it removes that incarnation of the bucket and no other, whatever Creates
 and Deletes of the same name run beside it.
 */
module Deletions {
  import opened Results
  import opened Ontap
  import opened Rpc
  import opened Buckets

  /** A removal job that has ended well has removed its bucket for good. */
  ghost predicate RemovalDone(st: State, job: Tick, now: Tick)
    requires job in st.jobs
  {
    && job < now
    && (st.jobs[job].effect.Remove? ==> st.jobs[job].effect.uuid < now)
    && (st.jobs[job].effect.Remove? && st.jobs[job].Finished? && st.jobs[job].ok ==>
          st.jobs[job].effect.uuid !in st.buckets)
  }

  ghost predicate Sane(st: State, now: Tick) {
    && (forall u | u in st.buckets :: u < now)
    && forall job | job in st.jobs :: RemovalDone(st, job, now)
  }

  lemma FinishKeepsSane(st: State, job: Tick, end: Ending, now: Tick, tick: Tick)
    requires Sane(st, now) && now <= tick
    ensures Sane(FinishJob(st, job, end, tick), tick + 1)
  {
    var st' := FinishJob(st, job, end, tick);
    FinishEffects(st, job, end, tick);
    forall j | j in st'.jobs ensures RemovalDone(st', j, tick + 1) {
      assert RemovalDone(st, j, now);
    }
  }

  lemma ServeKeepsSane(st: State, req: Request, fate: Fate, now: Tick, tick: Tick)
    requires Sane(st, now) && now <= tick
    ensures Sane(Serve(st, req, fate, tick).0, tick + 1)
  {
    var st' := Serve(st, req, fate, tick).0;
    ServeAddsAJob(st, req, fate, tick);
    forall j | j in st'.jobs ensures RemovalDone(st', j, tick + 1) {
      assert j in st.jobs ==> RemovalDone(st, j, now);
    }
  }

  lemma SaneLater(st: State, now: Tick, later: Tick)
    requires Sane(st, now) && now <= later
    ensures Sane(st, later)
  {
    forall j | j in st.jobs ensures RemovalDone(st, j, later) {
      assert RemovalDone(st, j, now);
    }
  }

  lemma StepKeepsSane(s: System, e: Event, now: Tick)
    requires Sane(s.st, now) && now <= e.tick
    ensures Sane(Step(s, e).st, e.tick + 1)
  {
    match e.action
    case Call(slot, fate) =>
      if s.Busy(slot) {
        ServeKeepsSane(s.st, NextRequest(s.processes[slot]), fate, now, e.tick);
      } else {
        SaneLater(s.st, now, e.tick + 1);
      }
    case Finish(job, end) => FinishKeepsSane(s.st, job, end, now, e.tick);
    case _ => SaneLater(s.st, now, e.tick + 1);
  }

  /** In every run whatsoever, what a successful removal job removed stays removed. */
  lemma {:induction false} RunKeepsSane(s: System, events: seq<Event>, now: Tick)
    requires Sane(s.st, now) && Timely(now, events)
    ensures Sane(Run(s, events).st, Clock(now, events))
    decreases |events|
  {
    if events != [] {
      StepKeepsSane(s, events[0], now);
      RunKeepsSane(Step(s, events[0]), events[1..], events[0].tick + 1);
    }
  }

  /** The record an answered lookup of a Delete finds. */
  ghost function Finds(s: System, e: Event): Option<BucketRecord> {
    if e.action.Call? && s.Busy(e.action.slot) && s.processes[e.action.slot].stage.Finding?
       && Heard(s.st, NextRequest(s.processes[e.action.slot]), e.action.fate)
    then FindBucket(e.action.fate.buckets, s.processes[e.action.slot].rpc.name) else None
  }

  /** The event is not the answered lookup of a Delete that finds this bucket. */
  ghost predicate Overlooks(s: System, e: Event, uuid: Tick) {
    Finds(s, e).Some? ==> Finds(s, e).value.uuid != uuid
  }

  ghost predicate AllOverlook(s: System, events: seq<Event>, uuid: Tick)
    decreases |events|
  {
    events == [] || (Overlooks(s, events[0], uuid) && AllOverlook(Step(s, events[0]), events[1..], uuid))
  }

  /** Nothing in flight aims at this stored bucket. */
  ghost predicate Untargeted(s: System, uuid: Tick, bucket: Bucket, now: Tick) {
    && uuid < now && uuid in s.st.buckets && s.st.buckets[uuid] == bucket
    && (forall job | job in s.st.jobs && s.st.jobs[job].Pending? :: s.st.jobs[job].effect != Remove(uuid))
    && forall slot | slot in s.processes :: s.processes[slot].stage != Removing(uuid)
  }

  /** A Delete that does not find the bucket does not come to aim at it. */
  lemma CallDoesNotAim(s: System, slot: Slot, fate: Fate, uuid: Tick, tick: Tick)
    requires s.Busy(slot) && s.processes[slot].stage != Removing(uuid)
    requires Overlooks(s, Event(tick, Call(slot, fate)), uuid)
    ensures var p := s.processes[slot];
            Resume(p, Serve(s.st, NextRequest(p), fate, tick).1).stage != Removing(uuid)
  {
    ServeAddsAJob(s.st, NextRequest(s.processes[slot]), fate, tick);
  }

  lemma CallKeepsUntargeted(s: System, slot: Slot, fate: Fate, uuid: Tick, bucket: Bucket, now: Tick, tick: Tick)
    requires Untargeted(s, uuid, bucket, now) && now <= tick && s.Busy(slot)
    requires Overlooks(s, Event(tick, Call(slot, fate)), uuid)
    ensures Untargeted(Step(s, Event(tick, Call(slot, fate))), uuid, bucket, tick + 1)
  {
    ServeAddsAJob(s.st, NextRequest(s.processes[slot]), fate, tick);
    CallDoesNotAim(s, slot, fate, uuid, tick);
  }

  lemma StepKeepsUntargeted(s: System, e: Event, uuid: Tick, bucket: Bucket, now: Tick)
    requires Untargeted(s, uuid, bucket, now) && now <= e.tick && Overlooks(s, e, uuid)
    ensures Untargeted(Step(s, e), uuid, bucket, e.tick + 1)
  {
    match e.action
    case Call(slot, fate) =>
      if s.Busy(slot) {
        CallKeepsUntargeted(s, slot, fate, uuid, bucket, now, e.tick);
      }
    case _ =>
  }

  /**
   A stored bucket outlives every run in which no Delete's answered lookup finds it: Creates and Deletes of any names,
   its own included, Deletes that looked up an earlier incarnation of its name, and jobs that end whenever they may,
   all leave it alone.
   */
  lemma {:induction false} OnlyALookedUpBucketIsRemoved(s: System, events: seq<Event>, uuid: Tick, bucket: Bucket,
                                                        now: Tick)
    requires Untargeted(s, uuid, bucket, now) && Timely(now, events) && AllOverlook(s, events, uuid)
    ensures uuid in Run(s, events).st.buckets && Run(s, events).st.buckets[uuid] == bucket
    decreases |events|
  {
    if events != [] {
      StepKeepsUntargeted(s, events[0], uuid, bucket, now);
      OnlyALookedUpBucketIsRemoved(Step(s, events[0]), events[1..], uuid, bucket, events[0].tick + 1);
    }
  }

  ghost predicate NoDeleteInFlight(s: System, name: string) {
    forall slot | slot in s.processes :: s.processes[slot].rpc != Delete(name)
  }

  lemma OtherNamesOverlook(s: System, e: Event, uuid: Tick, bucket: Bucket, now: Tick)
    requires Untargeted(s, uuid, bucket, now) && NoDeleteInFlight(s, bucket.name)
    ensures Overlooks(s, e, uuid)
  {
    if Finds(s, e).Some? {
      FoundIsStored(s.st, s.processes[e.action.slot].rpc.name, e.action.fate);
    }
  }

  /** Without a Delete of its name, no lookup finds the bucket. */
  lemma {:induction false} RunOverlooks(s: System, events: seq<Event>, uuid: Tick, bucket: Bucket, now: Tick)
    requires Untargeted(s, uuid, bucket, now) && Timely(now, events)
    requires NoDeleteInFlight(s, bucket.name) && NoDeleteOf(bucket.name, events)
    ensures AllOverlook(s, events, uuid)
    decreases |events|
  {
    if events != [] {
      OtherNamesOverlook(s, events[0], uuid, bucket, now);
      StepKeepsUntargeted(s, events[0], uuid, bucket, now);
      assert NoDeleteInFlight(Step(s, events[0]), bucket.name);
      RunOverlooks(Step(s, events[0]), events[1..], uuid, bucket, events[0].tick + 1);
    }
  }

  /** A Delete of this name at each of its stages: it is after this bucket, or the bucket is gone. */
  ghost predicate After(st: State, p: Process, name: string, uuid: Tick)
    requires p.rpc == Delete(name)
  {
    match p.stage
    case Removing(v) => v == uuid || uuid !in st.buckets
    case Watching(job) =>
      job in st.jobs && st.jobs[job].effect.Remove? && (st.jobs[job].effect.uuid == uuid || uuid !in st.buckets)
    case Done(outcome) => outcome.Deleted? ==> uuid !in st.buckets
    case _ => true
  }

  /** The invariant of every run, for a bucket of the name and the Delete in a slot. */
  ghost predicate Chasing(s: System, slot: Slot, name: string, uuid: Tick, now: Tick) {
    && AtMostOne(s.st, name) && Sane(s.st, now)
    && uuid < now && (uuid in s.st.buckets ==> s.st.buckets[uuid].name == name)
    && (slot in s.processes && s.processes[slot].rpc == Delete(name) ==> After(s.st, s.processes[slot], name, uuid))
  }

  lemma FoundIsThis(st: State, name: string, fate: Fate, uuid: Tick)
    requires AtMostOne(st, name) && (uuid in st.buckets ==> st.buckets[uuid].name == name)
    requires Heard(st, ListBuckets(name), fate)
    ensures match FindBucket(fate.buckets, name)
            case Some(r) => r.uuid == uuid || uuid !in st.buckets
            case None => uuid !in st.buckets
  {
    FoundIsStored(st, name, fate);
  }

  lemma OwnCallAfter(st: State, p: Process, name: string, uuid: Tick, fate: Fate, now: Tick, tick: Tick)
    requires p.Running() && p.rpc == Delete(name) && After(st, p, name, uuid) && Sane(st, now)
    requires AtMostOne(st, name) && (uuid in st.buckets ==> st.buckets[uuid].name == name)
    ensures var (st', r) := Serve(st, NextRequest(p), fate, tick);
            After(st', Resume(p, r), name, uuid)
  {
    var (st', r) := Serve(st, NextRequest(p), fate, tick);
    ServeAddsAJob(st, NextRequest(p), fate, tick);
    if !r.Fault? {
      match p.stage
      case Finding => FoundIsThis(st, name, fate, uuid);
      case Removing(_) =>
      case Watching(job) => assert RemovalDone(st, job, now);
    }
  }

  lemma OthersAfter(st: State, st': State, p: Process, name: string, uuid: Tick, now: Tick)
    requires p.rpc == Delete(name) && After(st, p, name, uuid) && Sane(st, now) && uuid < now
    requires forall job | job in st.jobs :: job in st'.jobs && st'.jobs[job].effect == st.jobs[job].effect
    requires uuid !in st.buckets ==> uuid !in st'.buckets
    ensures After(st', p, name, uuid)
  {
  }

  /** A process goes on and leaves the buckets alone: the chase goes on. */
  lemma ChaseGoesOn(s: System, at: Slot, st': State, q: Process, slot: Slot, name: string, uuid: Tick, now: Tick,
                    tick: Tick)
    requires Chasing(s, slot, name, uuid, now) && now <= tick
    requires Sane(st', tick + 1) && st'.buckets == s.st.buckets
    requires forall job | job in s.st.jobs :: job in st'.jobs && st'.jobs[job].effect == s.st.jobs[job].effect
    requires q.rpc == Delete(name) && at == slot ==> After(st', q, name, uuid)
    ensures Chasing(System(st', s.processes[at := q]), slot, name, uuid, tick + 1)
  {
    if at != slot && slot in s.processes && s.processes[slot].rpc == Delete(name) {
      OthersAfter(s.st, st', s.processes[slot], name, uuid, now);
    }
  }

  lemma CallKeepsChasing(s: System, at: Slot, fate: Fate, slot: Slot, name: string, uuid: Tick, now: Tick, tick: Tick)
    requires Chasing(s, slot, name, uuid, now) && now <= tick && s.Busy(at)
    ensures Chasing(Step(s, Event(tick, Call(at, fate))), slot, name, uuid, tick + 1)
  {
    var p := s.processes[at];
    var (st', r) := Serve(s.st, NextRequest(p), fate, tick);
    ServeKeepsSane(s.st, NextRequest(p), fate, now, tick);
    ServeKeepsOldJobs(s.st, NextRequest(p), fate, tick);
    assert forall job | job in s.st.jobs :: RemovalDone(s.st, job, now);
    if at == slot && p.rpc == Delete(name) {
      OwnCallAfter(s.st, p, name, uuid, fate, now, tick);
    }
    ChaseGoesOn(s, at, st', Resume(p, r), slot, name, uuid, now, tick);
  }

  lemma StepKeepsChasing(s: System, e: Event, slot: Slot, name: string, uuid: Tick, now: Tick)
    requires Chasing(s, slot, name, uuid, now) && now <= e.tick
    ensures Chasing(Step(s, e), slot, name, uuid, e.tick + 1)
  {
    match e.action
    case Begin(rpc, number) => SaneLater(s.st, now, e.tick + 1);
    case Call(at, fate) =>
      if s.Busy(at) {
        CallKeepsChasing(s, at, fate, slot, name, uuid, now, e.tick);
      } else {
        SaneLater(s.st, now, e.tick + 1);
      }
    case Finish(job, end) =>
      FinishKeepsSane(s.st, job, end, now, e.tick);
      FinishKeepsAtMostOne(s.st, job, end, name, now, e.tick);
      FinishEffects(s.st, job, end, e.tick);
      if slot in s.processes && s.processes[slot].rpc == Delete(name) {
        OthersAfter(s.st, Step(s, e).st, s.processes[slot], name, uuid, now);
      }
    case Abandon(_) => SaneLater(s.st, now, e.tick + 1);
  }

  lemma {:induction false} RunKeepsChasing(s: System, events: seq<Event>, slot: Slot, name: string, uuid: Tick,
                                           now: Tick)
    requires Chasing(s, slot, name, uuid, now) && Timely(now, events)
    ensures Chasing(Run(s, events), slot, name, uuid, Clock(now, events))
    decreases |events|
  {
    if events != [] {
      StepKeepsChasing(s, events[0], slot, name, uuid, now);
      RunKeepsChasing(Step(s, events[0]), events[1..], slot, name, uuid, events[0].tick + 1);
    }
  }

  /** The slot's Delete of this name, if it holds one, has yet to look the name up. */
  ghost predicate YetToLook(s: System, slot: Slot, name: string) {
    slot in s.processes && s.processes[slot].rpc == Delete(name) ==> s.processes[slot].stage.Finding?
  }

  /** Nothing in flight makes a bucket of this name. */
  ghost predicate NothingMakes(s: System, name: string) {
    && (forall job | job in s.st.jobs && s.st.jobs[job].effect.Install? :: s.st.jobs[job].effect.bucket.name != name)
    && forall slot | slot in s.processes && s.processes[slot].rpc.Create? ::
         s.processes[slot].rpc.name != name && CreateStands(s.st, s.processes[slot], name)
  }

  lemma OtherCreateCall(st: State, p: Process, name: string, fate: Fate, tick: Tick)
    requires p.Running() && p.rpc.Create? && p.rpc.name != name && CreateStands(st, p, name)
    ensures var (st', r) := Serve(st, NextRequest(p), fate, tick);
            CreateStands(st', Resume(p, r), name)
    ensures p.stage.Posting? ==> p.stage.bucket.name != name
  {
    if p.stage.Posting? {
      CreateAndCompareAgree(p.rpc.name, p.rpc.params);
    }
  }

  /** A process goes on, and asks for no bucket of the name. */
  lemma MakerGoesOn(s: System, slot: Slot, st': State, q: Process, name: string)
    requires NothingMakes(s, name)
    requires forall job | job in st'.jobs && job !in s.st.jobs && st'.jobs[job].effect.Install? ::
               st'.jobs[job].effect.bucket.name != name
    requires forall job | job in st'.jobs && job in s.st.jobs && st'.jobs[job] != s.st.jobs[job]
                          && st'.jobs[job].effect.Install? :: st'.jobs[job].effect.bucket.name != name
    requires q.rpc.Create? ==> q.rpc.name != name && CreateStands(st', q, name)
    ensures NothingMakes(System(st', s.processes[slot := q]), name)
  {
    forall other | other in s.processes && s.processes[other].rpc.Create?
      ensures CreateStands(st', s.processes[other], name)
    {
      assert CreateStands(s.st, s.processes[other], name);
    }
  }

  lemma CallMakesNothing(s: System, slot: Slot, fate: Fate, name: string, tick: Tick)
    requires NothingMakes(s, name) && s.Busy(slot)
    ensures NothingMakes(Step(s, Event(tick, Call(slot, fate))), name)
  {
    var p := s.processes[slot];
    var (st', r) := Serve(s.st, NextRequest(p), fate, tick);
    ServeAddsAJob(s.st, NextRequest(p), fate, tick);
    if p.rpc.Create? {
      OtherCreateCall(s.st, p, name, fate, tick);
    }
    MakerGoesOn(s, slot, st', Resume(p, r), name);
  }

  lemma StepMakesNothing(s: System, e: Event, name: string)
    requires NothingMakes(s, name) && NoCreateOf(name, [e])
    ensures NothingMakes(Step(s, e), name)
    ensures forall u | u in Step(s, e).st.buckets && Step(s, e).st.buckets[u].name == name ::
              u in s.st.buckets && s.st.buckets[u].name == name
  {
    match e.action
    case Begin(rpc, _) => assert rpc.Create? ==> [e][0].action.rpc.name != name;
    case Call(slot, fate) =>
      if s.Busy(slot) {
        CallMakesNothing(s, slot, fate, name, e.tick);
        ServeAddsAJob(s.st, NextRequest(s.processes[slot]), fate, e.tick);
      }
    case Finish(job, end) =>
      FinishEffects(s.st, job, end, e.tick);
      forall slot | slot in s.processes && s.processes[slot].rpc.Create?
        ensures CreateStands(Step(s, e).st, s.processes[slot], name)
      {
        assert CreateStands(s.st, s.processes[slot], name);
      }
    case Abandon(_) =>
  }

  lemma {:induction false} RunMakesNothing(s: System, events: seq<Event>, name: string)
    requires NothingMakes(s, name) && NoCreateOf(name, events)
    ensures forall u | u in Run(s, events).st.buckets && Run(s, events).st.buckets[u].name == name ::
              u in s.st.buckets && s.st.buckets[u].name == name
    decreases |events|
  {
    if events != [] {
      StepMakesNothing(s, events[0], name);
      RunMakesNothing(Step(s, events[0]), events[1..], name);
    }
  }

  /**
   Whatever else runs beside it, Creates and Deletes of the same name included: once a Delete has reported success,
   every bucket of the name that was stored before it looked is gone. If nothing makes a bucket of the name meanwhile,
   none is left at all.
   */
  lemma DeletedMeansGone(s: System, events: seq<Event>, slot: Slot, name: string, now: Tick)
    requires AtMostOne(s.st, name) && Sane(s.st, now) && Timely(now, events) && YetToLook(s, slot, name)
    requires slot in Run(s, events).processes && Run(s, events).processes[slot] == Process(Delete(name), Done(Deleted))
    ensures forall u | u in s.st.buckets && s.st.buckets[u].name == name :: u !in Run(s, events).st.buckets
    ensures NothingMakes(s, name) && NoCreateOf(name, events) ==> !BucketNamed(Run(s, events).st, name)
  {
    forall u | u in s.st.buckets && s.st.buckets[u].name == name ensures u !in Run(s, events).st.buckets {
      RunKeepsChasing(s, events, slot, name, u, now);
    }
    if NothingMakes(s, name) && NoCreateOf(name, events) {
      RunMakesNothing(s, events, name);
    }
  }

  lemma StepKeepsOldBuckets(s: System, e: Event)
    ensures forall u | u in Step(s, e).st.buckets ::
              u == e.tick || (u in s.st.buckets && Step(s, e).st.buckets[u] == s.st.buckets[u])
  {
    if e.action.Call? && s.Busy(e.action.slot) {
      ServeAddsAJob(s.st, NextRequest(s.processes[e.action.slot]), e.action.fate, e.tick);
    }
  }

  /** A stored bucket's record never changes while it is stored, and its uuid never comes back. */
  lemma {:induction false} OldBucketsUnchanged(s: System, events: seq<Event>, now: Tick)
    requires Timely(now, events)
    ensures forall u | u in Run(s, events).st.buckets && u < now ::
              u in s.st.buckets && Run(s, events).st.buckets[u] == s.st.buckets[u]
    decreases |events|
  {
    if events != [] {
      StepKeepsOldBuckets(s, events[0]);
      OldBucketsUnchanged(Step(s, events[0]), events[1..], events[0].tick + 1);
    }
  }

  /** The buckets that were stored before `now`. */
  function StoredBefore(st: State, now: Tick): map<Tick, Bucket> {
    map u | u in st.buckets && u < now :: st.buckets[u]
  }

  function Without(st: State, name: string): map<Tick, Bucket> {
    map u | u in st.buckets && st.buckets[u].name != name :: st.buckets[u]
  }

  /**
   From an idle service: any attempts to delete a name, failing wherever they may, beside any Creates whatsoever. Once
   one of them has reported success, what is left of the buckets there were is exactly those of other names, unchanged.
   */
  lemma DeletesConverge(s: System, events: seq<Event>, slot: Slot, name: string, now: Tick)
    requires s.st.jobs == map[] && s.processes == map[]
    requires AtMostOne(s.st, name) && (forall u | u in s.st.buckets :: u < now) && Timely(now, events)
    requires forall i | 0 <= i < |events| && events[i].action.Begin? && events[i].action.rpc.Delete? ::
               events[i].action.rpc == Delete(name)
    requires slot in Run(s, events).processes && Run(s, events).processes[slot] == Process(Delete(name), Done(Deleted))
    ensures StoredBefore(Run(s, events).st, now) == Without(s.st, name)
  {
    DeletedMeansGone(s, events, slot, name, now);
    OldBucketsUnchanged(s, events, now);
    forall u | u in s.st.buckets && s.st.buckets[u].name != name
      ensures u in Run(s, events).st.buckets && Run(s, events).st.buckets[u] == s.st.buckets[u]
    {
      RunOverlooks(s, events, u, s.st.buckets[u], now);
      OnlyALookedUpBucketIsRemoved(s, events, u, s.st.buckets[u], now);
    }
  }

  /** And a further Delete is a no-op: its one call changes nothing and it reports success. */
  lemma DeleteOfMissingIsNoOp(st: State, name: string, fate: Fate, tick: Tick)
    requires !BucketNamed(st, name) && Heard(st, ListBuckets(name), fate)
    ensures Serve(st, NextRequest(Launch(Delete(name))), fate, tick) == (st, Buckets(fate.buckets))
    ensures Resume(Launch(Delete(name)), Buckets(fate.buckets)).stage == Done(Deleted)
  {
    FoundIsStored(st, name, fate);
  }
}
