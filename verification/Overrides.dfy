/**
 The flag of the bucket ID override: where the code parts from its documentation, and exactly when it does not matter.
 */
module Overrides {
  import opened Results
  import opened Errors
  import opened Ontap
  import opened Rpc
  import opened Buckets
  import opened Driver
  import Size

  /** The flag getName returns is the opposite of the one its caller means, under every configuration. */
  lemma FlagIsInverted(config: Config, name: string)
    ensures config.GetName(name).0 == config.IntendedName(name).0
    ensures config.GetName(name).1 == !config.IntendedName(name).1
    ensures config.IntendedName(name).1 <==> config.bucketID != ""
  {
  }

  /**
   With the flag as meant, and no override configured: over every run, a Create that reported success finds the one
   stored bucket of its name with the requested size.
   */
  lemma MeantContract(s: System, events: seq<Event>, slot: Slot, config: Config, name: string, params: Params,
                      now: Tick)
    requires config.bucketID == "" && slot in Run(s, events).processes
    requires var (bucketName, overridden) := config.IntendedName(name);
             Run(s, events).processes[slot] == Process(Create(bucketName, params, overridden),
                                                       Done(Created(bucketName)))
    requires Creating(s, name, now) && Timely(now, events) && NoDeleteOf(name, events)
    ensures AtMostOne(Run(s, events).st, name) && RightSize(Run(s, events).st, name, params)
    ensures WantedSize(params) != AnySize ==> Faithful(Run(s, events).st, name, params)
    ensures AllFiltered(s, events) && SuccessMeansNamed(s, name) ==> Faithful(Run(s, events).st, name, params)
  {
    CreatedMeansStored(s, events, slot, now);
  }

  /** The stage a Create as written reaches on the answer to its lookup. */
  function AfterLookup(config: Config, name: string, params: Params, records: seq<BucketRecord>): Stage {
    var (bucketName, overridden) := config.GetName(name);
    Resume(Launch(Create(bucketName, params, overridden)), Buckets(records)).stage
  }

  lemma WantsGib(n: nat)
    requires 1 <= n <= Size.MAX_GIB
    ensures WantedSize(map["size" := Size.Decimal(n)]) == Bytes(n * Size.GIB)
  {
    Size.DecimalAccepted(n);
    Size.TrimOfTight(Size.Decimal(n));
  }

  /** A bucket of 1 GiB is reused for a request of 2 GiB as written; with the flag as meant the request is refused. */
  lemma WrittenReusesAnyBucket()
    ensures var config := Config("", None, None, None, None);
            var records := [BucketRecord(7, "b", Size.GIB)];
            var params := map["size" := Size.Decimal(2)];
            && AfterLookup(config, "b", params, records) == Done(Created("b"))
            && AfterExists("b", params, config.IntendedName("b").1) == Comparing(2 * Size.GIB)
            && ResumeCreate(Create("b", params, false), Comparing(2 * Size.GIB), Buckets(records))
               == Done(Failed(AlreadyExists, Plain("bucket already exists")))
  {
    WantsGib(2);
  }

  /** Where a Create with the flag as meant stands after this answered call, or where it stood if it is done. */
  function Onward(st: State, p: Process, fate: Fate, tick: Tick): Process
    requires p.Running() || p.stage.Done?
  {
    if p.Running() then Resume(p, Serve(st, NextRequest(p), fate, tick).1) else p
  }

  /**
   The documented reply for a bucket that exists: with the flag as meant, and no override, answered calls lead to
   success exactly if no size or the stored one is asked for, and to AlreadyExists exactly if it is another one.
   */
  lemma MeantReplyExactly(st: State, config: Config, name: string, params: Params, uuid: Tick,
                          fate: Fate, fate': Fate, tick: Tick, tick': Tick)
    requires config.bucketID == "" && AtMostOne(st, name) && uuid in st.buckets && st.buckets[uuid].name == name
    requires Heard(st, ListBuckets(name), fate) && Heard(st, ListBuckets(name), fate')
    ensures var (bucketName, overridden) := config.IntendedName(name);
            var p := Onward(st, Launch(Create(bucketName, params, overridden)), fate, tick);
            var q := Onward(st, p, fate', tick');
            && q.stage.Done?
            && (q.stage == Done(Created(name)) <==>
                WantedSize(params) == AnySize || WantedSize(params) == Bytes(st.buckets[uuid].size))
            && (q.stage.outcome.Failed? && q.stage.outcome.code == AlreadyExists <==>
                WantedSize(params).Bytes? && WantedSize(params).size != st.buckets[uuid].size)
  {
    var p := Onward(st, Launch(Create(name, params, false)), fate, tick);
    assert p.stage == AfterExists(name, params, false);
    if WantedSize(params).Bytes? {
      assert p == Process(Create(name, params, false), Comparing(WantedSize(params).size));
      ComparedExactly(st, p, fate', tick');
      assert Stored(st, name, WantedSize(params).size) <==> WantedSize(params).size == st.buckets[uuid].size;
    }
  }

  /** A service that has never been used, and an idle driver. */
  const UNUSED: System := System(State(map[], map[], map[], map[], map[]), map[])

  /**
   An RPC of the run is a Create of the name as the code has it, for one of these requests, or not for this name at
   all.
   */
  ghost predicate Written(rpc: Rpc, config: Config, name: string, requests: set<Params>) {
    var (bucketName, overridden) := config.GetName(name);
    && rpc != Delete(bucketName)
    && (rpc.Create? && rpc.name == bucketName ==> rpc.skipValidation == overridden && rpc.params in requests)
  }

  ghost predicate AllWritten(config: Config, name: string, requests: set<Params>, events: seq<Event>) {
    forall i | 0 <= i < |events| && events[i].action.Begin? :: Written(events[i].action.rpc, config, name, requests)
  }

  /** Every Create of the bucket that has reported success has told the truth. */
  ghost predicate Truthful(s: System, bucketName: string) {
    forall slot | slot in s.processes && s.processes[slot].rpc.Create? && s.processes[slot].rpc.name == bucketName
                  && s.processes[slot].stage == Done(Created(bucketName)) ::
      Faithful(s.st, bucketName, s.processes[slot].rpc.params)
  }

  /** In every run of these requests from an unused service that filters its listings by name, every success is true. */
  ghost predicate AlwaysTruthful(config: Config, name: string, requests: set<Params>) {
    forall events | Timely(0, events) && AllWritten(config, name, requests, events) && AllFiltered(UNUSED, events) ::
      Truthful(Run(UNUSED, events), config.GetName(name).0)
  }

  /** The same of a service whose listings may hold records of other names. */
  ghost predicate AlwaysTruthfulUnfiltered(config: Config, name: string, requests: set<Params>) {
    forall events | Timely(0, events) && AllWritten(config, name, requests, events) ::
      Truthful(Run(UNUSED, events), config.GetName(name).0)
  }

  /** Whatever size is asked for is the size of any bucket these requests can create. */
  ghost predicate OneSize(bucketName: string, requests: set<Params>) {
    forall made, asked | made in requests && asked in requests && PlanBucket(bucketName, made).Success? ::
      WantedSize(asked) == AnySize || WantedSize(asked) == WantedSize(made)
  }

  lemma {:induction false} ProcessesAreWritten(s: System, events: seq<Event>, config: Config, name: string,
                                               requests: set<Params>)
    requires forall slot | slot in s.processes :: Written(s.processes[slot].rpc, config, name, requests)
    requires AllWritten(config, name, requests, events)
    ensures forall slot | slot in Run(s, events).processes ::
              Written(Run(s, events).processes[slot].rpc, config, name, requests)
    decreases |events|
  {
    if events != [] {
      ProcessesAreWritten(Step(s, events[0]), events[1..], config, name, requests);
    }
  }

  lemma WrittenDeletesNothing(config: Config, name: string, requests: set<Params>, events: seq<Event>)
    requires AllWritten(config, name, requests, events)
    ensures NoDeleteOf(config.GetName(name).0, events)
  {
    forall i | 0 <= i < |events| && events[i].action.Begin?
      ensures events[i].action.rpc != Delete(config.GetName(name).0)
    {
      assert Written(events[i].action.rpc, config, name, requests);
    }
  }

  /**
   Under an override every Create of the bucket validates, and validation tells the truth of every size; of a request
   without one it does where listings are filtered.
   */
  lemma OverriddenIsTruthful(config: Config, name: string, requests: set<Params>, events: seq<Event>)
    requires config.bucketID != "" && Timely(0, events) && AllWritten(config, name, requests, events)
    requires AllFiltered(UNUSED, events) || forall asked | asked in requests :: WantedSize(asked) != AnySize
    ensures Truthful(Run(UNUSED, events), config.GetName(name).0)
  {
    var bucketName := config.GetName(name).0;
    WrittenDeletesNothing(config, name, requests, events);
    ProcessesAreWritten(UNUSED, events, config, name, requests);
    var s := Run(UNUSED, events);
    forall slot | slot in s.processes && s.processes[slot].rpc.Create? && s.processes[slot].rpc.name == bucketName
                  && s.processes[slot].stage == Done(Created(bucketName))
      ensures Faithful(s.st, bucketName, s.processes[slot].rpc.params)
    {
      assert Written(s.processes[slot].rpc, config, name, requests);
      CreatedMeansStoredFromIdle(UNUSED, events, slot, bucketName, s.processes[slot].rpc.params, 0);
    }
  }

  /** When every bucket the requests can create has this size, a success means a bucket of this size is stored. */
  lemma SuccessMeansThisSize(config: Config, name: string, requests: set<Params>, events: seq<Event>, slot: Slot,
                             size: int)
    requires var bucketName := config.GetName(name).0;
             && Timely(0, events) && AllWritten(config, name, requests, events) && AllFiltered(UNUSED, events)
             && (forall made | made in requests && PlanBucket(bucketName, made).Success? ::
                   WantedSize(made) == Bytes(size))
             && slot in Run(UNUSED, events).processes
             && var p := Run(UNUSED, events).processes[slot];
                p.rpc.Create? && p.rpc.name == bucketName && p.stage == Done(Created(bucketName))
    ensures AtMostOne(Run(UNUSED, events).st, config.GetName(name).0)
    ensures Stored(Run(UNUSED, events).st, config.GetName(name).0, size)
  {
    var bucketName := config.GetName(name).0;
    WrittenDeletesNothing(config, name, requests, events);
    forall i | 0 <= i < |events| && events[i].action.Begin? ensures WantsSize(events[i].action.rpc, bucketName, size) {
      assert Written(events[i].action.rpc, config, name, requests);
    }
    IdleIsCreating(UNUSED, bucketName, 0);
    SameSizeCreatesAreFaithful(UNUSED, events, slot, bucketName, size, 0);
  }

  lemma OneSizeIsTruthful(config: Config, name: string, requests: set<Params>, events: seq<Event>, slot: Slot)
    requires var bucketName := config.GetName(name).0;
             && OneSize(bucketName, requests)
             && Timely(0, events) && AllWritten(config, name, requests, events) && AllFiltered(UNUSED, events)
             && slot in Run(UNUSED, events).processes
             && var p := Run(UNUSED, events).processes[slot];
                p.rpc.Create? && p.rpc.name == bucketName && p.stage == Done(Created(bucketName))
    ensures Faithful(Run(UNUSED, events).st, config.GetName(name).0, Run(UNUSED, events).processes[slot].rpc.params)
  {
    var bucketName := config.GetName(name).0;
    ProcessesAreWritten(UNUSED, events, config, name, requests);
    assert Written(Run(UNUSED, events).processes[slot].rpc, config, name, requests);
    if made :| made in requests && PlanBucket(bucketName, made).Success? {
      CreateAndCompareAgree(bucketName, made);
      SuccessMeansThisSize(config, name, requests, events, slot, WantedSize(made).size);
    } else {
      // No request can create the bucket, so a success would mean it is stored with any two sizes.
      SuccessMeansThisSize(config, name, requests, events, slot, 1);
      SuccessMeansThisSize(config, name, requests, events, slot, 2);
    }
  }

  /** A run unfolds at its first event. */
  lemma RunUnfolds(s: System, e: Event, rest: seq<Event>, now: Tick)
    ensures Run(s, [e] + rest) == Run(Step(s, e), rest)
    ensures Timely(now, [e] + rest) <==> now <= e.tick && Timely(e.tick + 1, rest)
    ensures AllFiltered(s, [e] + rest) <==> Filtered(s, e) && AllFiltered(Step(s, e), rest)
  {
    assert ([e] + rest)[1..] == rest;
  }

  /** The Create of `made`, through its job, up to the moment the bucket is installed. */
  function MakingRun(bucketName: string, made: Params): seq<Event> {
    [Event(0, Begin(Create(bucketName, made, true), 0))]
    + ([Event(1, Call(Bucketing(0), Answered([], [], "")))]
       + ([Event(2, Call(Bucketing(0), Answered([], [], "")))]
          + [Event(3, Finish(2, Ending(true, "", "", "")))]))
  }

  lemma NothingFound(rpc: Rpc)
    requires rpc.Create? && PlanBucket(rpc.name, rpc.params).Success?
    ensures var e := Event(1, Call(Bucketing(0), Answered([], [], "")));
            var bucket := PlanBucket(rpc.name, rpc.params).value;
            Step(System(UNUSED.st, map[Bucketing(0) := Process(rpc, Checking)]), e)
            == System(UNUSED.st, map[Bucketing(0) := Process(rpc, Posting(bucket))])
  {
    var s := System(UNUSED.st, map[Bucketing(0) := Process(rpc, Checking)]);
    assert Honest(s.st, ListBuckets(rpc.name), Answered([], [], ""));
  }

  lemma JobAccepted(rpc: Rpc, bucket: Bucket)
    requires rpc.Create?
    ensures var e := Event(2, Call(Bucketing(0), Answered([], [], "")));
            Step(System(UNUSED.st, map[Bucketing(0) := Process(rpc, Posting(bucket))]), e)
            == System(UNUSED.st.(jobs := map[2 := Pending(Install(bucket))]),
                      map[Bucketing(0) := Process(rpc, Polling(2))])
  {
  }

  lemma JobInstalls(s: System, bucket: Bucket)
    requires s.st == UNUSED.st.(jobs := map[2 := Pending(Install(bucket))])
    ensures var s' := Step(s, Event(3, Finish(2, Ending(true, "", "", ""))));
            s'.st.buckets == map[3 := bucket] && s'.processes == s.processes
  {
  }

  lemma MakingRunMakes(bucketName: string, made: Params)
    requires PlanBucket(bucketName, made).Success?
    ensures var bucket := PlanBucket(bucketName, made).value;
            var s := Run(UNUSED, MakingRun(bucketName, made));
            s.st.buckets == map[3 := bucket] && s.processes.Keys == {Bucketing(0)}
    ensures Timely(0, MakingRun(bucketName, made)) && AllFiltered(UNUSED, MakingRun(bucketName, made))
  {
    var bucket := PlanBucket(bucketName, made).value;
    var rpc := Create(bucketName, made, true);
    var slot := Bucketing(0);
    var e0, e1 := Event(0, Begin(rpc, 0)), Event(1, Call(slot, Answered([], [], "")));
    var e2, e3 := Event(2, Call(slot, Answered([], [], ""))), Event(3, Finish(2, Ending(true, "", "", "")));
    var s1 := System(UNUSED.st, map[slot := Process(rpc, Checking)]);
    assert Step(UNUSED, e0) == s1;
    var s2 := System(UNUSED.st, map[slot := Process(rpc, Posting(bucket))]);
    NothingFound(rpc);
    var s3 := System(UNUSED.st.(jobs := map[2 := Pending(Install(bucket))]), map[slot := Process(rpc, Polling(2))]);
    JobAccepted(rpc, bucket);
    JobInstalls(s3, bucket);
    RunUnfolds(UNUSED, e0, [e1] + ([e2] + [e3]), 0);
    RunUnfolds(s1, e1, [e2] + [e3], 1);
    RunUnfolds(s2, e2, [e3], 2);
    assert [e3] + [] == [e3];
    RunUnfolds(s3, e3, [], 3);
  }

  lemma {:induction false} FilteredConcat(s: System, xs: seq<Event>, ys: seq<Event>)
    ensures AllFiltered(s, xs + ys) <==> AllFiltered(s, xs) && AllFiltered(Run(s, xs), ys)
    decreases |xs|
  {
    if xs == [] {
      assert xs + ys == ys;
    } else {
      assert (xs + ys)[1..] == xs[1..] + ys;
      FilteredConcat(Step(s, xs[0]), xs[1..], ys);
    }
  }

  /** A Create that is shown these records. */
  function ShownRun(bucketName: string, asked: Params, skip: bool, records: seq<BucketRecord>, now: Tick): seq<Event> {
    [Event(now, Begin(Create(bucketName, asked, skip), 1))]
    + [Event(now + 1, Call(Bucketing(1), Answered(records, [], "")))]
  }

  /** Without validation, or without a size to validate, it succeeds. */
  lemma ShownRunSucceeds(s: System, bucketName: string, asked: Params, skip: bool, records: seq<BucketRecord>,
                         now: Tick)
    requires Bucketing(1) !in s.processes && records != [] && (skip || WantedSize(asked) == AnySize)
    requires Heard(s.st, ListBuckets(bucketName), Answered(records, [], ""))
    ensures var s' := Run(s, ShownRun(bucketName, asked, skip, records, now));
            && s'.st == s.st && Bucketing(1) in s'.processes
            && s'.processes[Bucketing(1)] == Process(Create(bucketName, asked, skip), Done(Created(bucketName)))
    ensures Timely(now, ShownRun(bucketName, asked, skip, records, now))
    ensures (forall r | r in records :: r.name == bucketName) ==>
              AllFiltered(s, ShownRun(bucketName, asked, skip, records, now))
  {
    var rpc := Create(bucketName, asked, skip);
    var e0, e1 := Event(now, Begin(rpc, 1)), Event(now + 1, Call(Bucketing(1), Answered(records, [], "")));
    var s1 := Step(s, e0);
    assert s1 == s.(processes := s.processes[Bucketing(1) := Process(rpc, Checking)]);
    assert Step(s1, e1).st == s.st && Step(s1, e1).processes[Bucketing(1)] == Process(rpc, Done(Created(bucketName)));
    RunUnfolds(s, e0, [e1], now);
    assert [e1] + [] == [e1];
    RunUnfolds(s1, e1, [], now + 1);
  }

  /** One request makes a bucket, another one asks for another size and is told it has it. */
  function FalseRun(bucketName: string, made: Params, asked: Params): seq<Event>
    requires PlanBucket(bucketName, made).Success?
  {
    MakingRun(bucketName, made)
    + ShownRun(bucketName, asked, true, [BucketRecord(3, bucketName, PlanBucket(bucketName, made).value.size)], 4)
  }

  lemma FalseRunLies(bucketName: string, made: Params, asked: Params)
    requires PlanBucket(bucketName, made).Success?
    requires WantedSize(asked) != AnySize && WantedSize(asked) != WantedSize(made)
    ensures Timely(0, FalseRun(bucketName, made, asked)) && AllFiltered(UNUSED, FalseRun(bucketName, made, asked))
    ensures !Truthful(Run(UNUSED, FalseRun(bucketName, made, asked)), bucketName)
  {
    var bucket := PlanBucket(bucketName, made).value;
    var making := MakingRun(bucketName, made);
    var records := [BucketRecord(3, bucketName, bucket.size)];
    MakingRunMakes(bucketName, made);
    CreateAndCompareAgree(bucketName, made);
    MakingRunEnds(bucketName, made);
    var s := Run(UNUSED, making);
    ShownRunSucceeds(s, bucketName, asked, true, records, 4);
    RunConcat(UNUSED, 0, making, ShownRun(bucketName, asked, true, records, 4));
    FilteredConcat(UNUSED, making, ShownRun(bucketName, asked, true, records, 4));
    assert !Faithful(Run(UNUSED, FalseRun(bucketName, made, asked)).st, bucketName, asked);
  }

  lemma MakingRunEnds(bucketName: string, made: Params)
    ensures Clock(0, MakingRun(bucketName, made)) == 4
  {
    var run := MakingRun(bucketName, made);
    assert |run| == 4 && run[3].tick == 3;
    LastTick(run, 0);
  }

  lemma {:induction false} LastTick(events: seq<Event>, now: Tick)
    requires events != []
    ensures Clock(now, events) == events[|events| - 1].tick + 1
    decreases |events|
  {
    if |events| > 1 {
      LastTick(events[1..], events[0].tick + 1);
    }
  }

  lemma FalseRunIsWritten(config: Config, name: string, requests: set<Params>, made: Params, asked: Params)
    requires config.bucketID == "" && made in requests && asked in requests && PlanBucket(name, made).Success?
    ensures AllWritten(config, name, requests, FalseRun(name, made, asked))
  {
    var run := FalseRun(name, made, asked);
    assert forall i | 0 <= i < |run| && run[i].action.Begin? :: i == 0 || i == 4;
  }

  /**
   As written, every reported success in every run from an unused service is true exactly when an override is
   configured, or whatever size is asked for is the size of any bucket the requests can create.
   */
  lemma WrittenContractExactly(config: Config, name: string, requests: set<Params>)
    ensures AlwaysTruthful(config, name, requests)
            <==> config.bucketID != "" || OneSize(config.GetName(name).0, requests)
  {
    if config.bucketID == "" && !OneSize(name, requests) {
      var made, asked :| made in requests && asked in requests && PlanBucket(name, made).Success?
                         && WantedSize(asked) != AnySize && WantedSize(asked) != WantedSize(made);
      FalseRunLies(name, made, asked);
      FalseRunIsWritten(config, name, requests, made, asked);
    } else {
      forall events | Timely(0, events) && AllWritten(config, name, requests, events) && AllFiltered(UNUSED, events)
        ensures Truthful(Run(UNUSED, events), config.GetName(name).0)
      {
        WrittenIsTruthful(config, name, requests, events);
      }
    }
  }

  lemma WrittenIsTruthful(config: Config, name: string, requests: set<Params>, events: seq<Event>)
    requires config.bucketID != "" || OneSize(config.GetName(name).0, requests)
    requires Timely(0, events) && AllWritten(config, name, requests, events) && AllFiltered(UNUSED, events)
    ensures Truthful(Run(UNUSED, events), config.GetName(name).0)
  {
    if config.bucketID != "" {
      OverriddenIsTruthful(config, name, requests, events);
    } else {
      var s := Run(UNUSED, events);
      forall slot | slot in s.processes && s.processes[slot].rpc.Create? && s.processes[slot].rpc.name == name
                    && s.processes[slot].stage == Done(Created(name))
        ensures Faithful(s.st, name, s.processes[slot].rpc.params)
      {
        OneSizeIsTruthful(config, name, requests, events, slot);
      }
    }
  }

  /**
   A record of another bucket is taken for one of this name: the existence check counts records, whatever their names.
   So a Create of a bucket that is not there succeeds, unless it has a size to validate and validates it.
   */
  lemma ForeignRecordLies(bucketName: string, asked: Params, skip: bool)
    requires skip || WantedSize(asked) == AnySize
    ensures var run := ShownRun(bucketName, asked, skip, [BucketRecord(7, bucketName + "b", Size.GIB)], 0);
            Timely(0, run) && Run(UNUSED, run).st.buckets == map[] && !Truthful(Run(UNUSED, run), bucketName)
  {
    var records := [BucketRecord(7, bucketName + "b", Size.GIB)];
    ShownRunSucceeds(UNUSED, bucketName, asked, skip, records, 0);
    var s := Run(UNUSED, ShownRun(bucketName, asked, skip, records, 0));
    assert !BucketNamed(s.st, bucketName);
    assert !Faithful(s.st, bucketName, asked);
  }

  lemma ForeignRunIsWritten(config: Config, name: string, requests: set<Params>, asked: Params)
    requires asked in requests
    ensures var (bucketName, skip) := config.GetName(name);
            AllWritten(config, name, requests,
                       ShownRun(bucketName, asked, skip, [BucketRecord(7, bucketName + "b", Size.GIB)], 0))
  {
    var (bucketName, skip) := config.GetName(name);
    var run := ShownRun(bucketName, asked, skip, [BucketRecord(7, bucketName + "b", Size.GIB)], 0);
    assert forall i | 0 <= i < |run| && run[i].action.Begin? :: i == 0;
  }

  /** With an override every request is validated; a size is then all it takes to find out. */
  ghost predicate AlwaysValidated(config: Config, requests: set<Params>) {
    config.bucketID != "" && forall asked | asked in requests :: WantedSize(asked) != AnySize
  }

  lemma UnwrittenIsTruthful(config: Config, name: string, events: seq<Event>)
    requires AllWritten(config, name, {}, events)
    ensures Truthful(Run(UNUSED, events), config.GetName(name).0)
  {
    ProcessesAreWritten(UNUSED, events, config, name, {});
    var s := Run(UNUSED, events);
    forall slot | slot in s.processes && s.processes[slot].rpc.Create?
      ensures s.processes[slot].rpc.name != config.GetName(name).0
    {
      assert Written(s.processes[slot].rpc, config, name, {});
    }
  }

  /**
   On a service whose listings may hold records of other names, every reported success is true exactly when there are no
   requests at all, or an override is configured and every request gives a size.
   */
  lemma UnfilteredContractExactly(config: Config, name: string, requests: set<Params>)
    ensures AlwaysTruthfulUnfiltered(config, name, requests) <==> requests == {} || AlwaysValidated(config, requests)
  {
    if requests == {} || AlwaysValidated(config, requests) {
      forall events | Timely(0, events) && AllWritten(config, name, requests, events)
        ensures Truthful(Run(UNUSED, events), config.GetName(name).0)
      {
        if requests == {} {
          UnwrittenIsTruthful(config, name, events);
        } else {
          OverriddenIsTruthful(config, name, requests, events);
        }
      }
    } else {
      var asked :| asked in requests && (config.bucketID == "" || WantedSize(asked) == AnySize);
      var (bucketName, skip) := config.GetName(name);
      ForeignRecordLies(bucketName, asked, skip);
      ForeignRunIsWritten(config, name, requests, asked);
    }
  }
}
