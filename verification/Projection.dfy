/** Accounts are independent: what one account's RPCs do does not depend on the others' at all. */
module Projection {
  import opened Ontap
  import opened Rpc
  import opened Slices
  import opened Interleaving

  /** The event belongs to another account's RPC. */
  predicate Foreign(e: Event, account: string) {
    match e.action
    case Begin(rpc, number) => SlotOf(rpc, number).Accessing? && SlotOf(rpc, number) != Accessing(account)
    case Call(slot, _) => slot.Accessing? && slot != Accessing(account)
    case Finish(_, _) => false
    case Abandon(slot) => slot.Accessing? && slot != Accessing(account)
  }

  /** The run without the other accounts' events. */
  function Alone(events: seq<Event>, account: string): seq<Event> {
    if events == [] then []
    else if Foreign(events[0], account) then Alone(events[1..], account)
    else [events[0]] + Alone(events[1..], account)
  }

  /** Two systems an account cannot tell apart. */
  ghost predicate Twins(s1: System, s2: System, account: string, buckets: set<string>) {
    && SameSlice(s1.st, s2.st, account, buckets)
    && s1.st.buckets == s2.st.buckets && s1.st.jobs == s2.st.jobs
    && forall slot: Slot | slot.Bucketing? || slot == Accessing(account) ::
         && (slot in s1.processes <==> slot in s2.processes)
         && (slot in s1.processes ==> s1.processes[slot] == s2.processes[slot])
  }

  lemma TidyLater(s: System, accounts: set<string>, buckets: set<string>, now: Tick, later: Tick)
    requires Tidy(s, accounts, buckets, now) && now <= later
    ensures Tidy(s, accounts, buckets, later)
  {
    forall slot | slot in s.processes && s.processes[slot].rpc.Revoke?
      ensures RevokeHolds(s.st, s.processes[slot], later)
    {
      RevokeHoldsElsewhere(s.st, s.st, s.processes[slot], now, later);
    }
  }

  /** Another account's event changes nothing the account can see. */
  lemma ForeignStep(s1: System, s2: System, e: Event, a: string, accounts: set<string>, buckets: set<string>, now: Tick)
    requires Twins(s1, s2, a, buckets) && a in accounts
    requires Tidy(s1, accounts, buckets, now) && now <= e.tick && Foreign(e, a)
    ensures Twins(Step(s1, e), s2, a, buckets)
  {
    match e.action
    case Call(slot, fate) =>
      if s1.Busy(slot) {
        CallKeepsOthers(s1, slot, fate, e.tick, a, accounts, buckets, now);
        ForeignCallKeepsBuckets(s1, slot, fate, e.tick, accounts, buckets, now);
      }
    case _ =>
  }

  lemma ForeignCallKeepsBuckets(s: System, slot: Slot, fate: Fate, tick: Tick, accounts: set<string>,
                                buckets: set<string>, now: Tick)
    requires Tidy(s, accounts, buckets, now) && now <= tick && s.Busy(slot) && slot.Accessing?
    ensures var st' := Serve(s.st, NextRequest(s.processes[slot]), fate, tick).0;
            st'.buckets == s.st.buckets && st'.jobs == s.st.jobs
  {
    AsksForItsOwn(s.st, s.processes[slot], slot.account, buckets, now);
    OwnRequestKeepsBuckets(s.st, NextRequest(s.processes[slot]), fate, tick, slot.account, buckets);
  }

  /** A bucket request reads and writes the buckets and jobs alone. */
  lemma BucketRequestAlike(st1: State, st2: State, req: Request, fate: Fate, tick: Tick)
    requires BucketRequest(req) && st1.buckets == st2.buckets && st1.jobs == st2.jobs
    ensures var (st1', r1) := Serve(st1, req, fate, tick);
            var (st2', r2) := Serve(st2, req, fate, tick);
            r1 == r2 && st1'.buckets == st2'.buckets && st1'.jobs == st2'.jobs
  {
  }

  /** An event of the account's own, or of a bucket RPC, or a job's end, keeps twins twins. */
  lemma TwinCall(s1: System, s2: System, slot: Slot, fate: Fate, tick: Tick, a: string,
                 accounts: set<string>, buckets: set<string>, now: Tick)
    requires Twins(s1, s2, a, buckets) && a in accounts && now <= tick
    requires Tidy(s1, accounts, buckets, now) && Tidy(s2, accounts, buckets, now)
    requires (slot.Bucketing? || slot == Accessing(a)) && s1.Busy(slot)
    ensures Twins(Step(s1, Event(tick, Call(slot, fate))), Step(s2, Event(tick, Call(slot, fate))), a, buckets)
  {
    var p := s1.processes[slot];
    assert s2.processes[slot] == p;
    if slot.Bucketing? {
      BucketRequestAlike(s1.st, s2.st, NextRequest(p), fate, tick);
      CallKeepsOthers(s1, slot, fate, tick, a, accounts, buckets, now);
      CallKeepsOthers(s2, slot, fate, tick, a, accounts, buckets, now);
    } else {
      AsksForItsOwn(s1.st, p, a, buckets, now);
      AsksForItsOwn(s2.st, p, a, buckets, now);
      TwinsServeAlike(s1.st, s2.st, NextRequest(p), fate, tick, a, buckets);
    }
  }

  lemma FinishKeepsSlice(st: State, job: Tick, end: Ending, tick: Tick, a: string, buckets: set<string>)
    ensures SameSlice(st, FinishJob(st, job, end, tick), a, buckets)
  {
    var st' := FinishJob(st, job, end, tick);
    assert st'.policies == st.policies && st'.users == st.users && st'.groups == st.groups;
    forall name ensures Named(st', name) == Named(st, name) {
    }
  }

  lemma SlicesAgree(st1: State, st2: State, st1': State, st2': State, a: string, buckets: set<string>)
    requires SameSlice(st1, st2, a, buckets) && SameSlice(st1, st1', a, buckets) && SameSlice(st2, st2', a, buckets)
    ensures SameSlice(st1', st2', a, buckets)
  {
  }

  lemma NamedAlike(st1: State, st2: State, name: string)
    requires st1.buckets == st2.buckets
    ensures BucketNamed(st1, name) == BucketNamed(st2, name)
  {
  }

  lemma FinishAlike(st1: State, st2: State, job: Tick, end: Ending, tick: Tick)
    requires st1.buckets == st2.buckets && st1.jobs == st2.jobs
    ensures FinishJob(st1, job, end, tick).buckets == FinishJob(st2, job, end, tick).buckets
    ensures FinishJob(st1, job, end, tick).jobs == FinishJob(st2, job, end, tick).jobs
  {
    if job in st1.jobs && st1.jobs[job].effect.Install? {
      NamedAlike(st1, st2, st1.jobs[job].effect.bucket.name);
    }
  }

  lemma TwinFinish(st1: State, st2: State, job: Tick, end: Ending, tick: Tick, a: string, buckets: set<string>)
    requires SameSlice(st1, st2, a, buckets) && st1.buckets == st2.buckets && st1.jobs == st2.jobs
    ensures var st1' := FinishJob(st1, job, end, tick);
            var st2' := FinishJob(st2, job, end, tick);
            SameSlice(st1', st2', a, buckets) && st1'.buckets == st2'.buckets && st1'.jobs == st2'.jobs
  {
    FinishKeepsSlice(st1, job, end, tick, a, buckets);
    FinishKeepsSlice(st2, job, end, tick, a, buckets);
    FinishAlike(st1, st2, job, end, tick);
    SlicesAgree(st1, st2, FinishJob(st1, job, end, tick), FinishJob(st2, job, end, tick), a, buckets);
  }

  lemma TwinStep(s1: System, s2: System, e: Event, a: string, accounts: set<string>, buckets: set<string>, now: Tick)
    requires Twins(s1, s2, a, buckets) && a in accounts && now <= e.tick
    requires Tidy(s1, accounts, buckets, now) && Tidy(s2, accounts, buckets, now) && !Foreign(e, a)
    ensures Twins(Step(s1, e), Step(s2, e), a, buckets)
  {
    match e.action
    case Begin(rpc, number) =>
      assert s1.Busy(SlotOf(rpc, number)) == s2.Busy(SlotOf(rpc, number));
    case Call(slot, fate) =>
      assert s1.Busy(slot) == s2.Busy(slot);
      if s1.Busy(slot) {
        TwinCall(s1, s2, slot, fate, e.tick, a, accounts, buckets, now);
      }
    case Finish(job, end) => TwinFinish(s1.st, s2.st, job, end, e.tick, a, buckets);
    case Abandon(_) =>
  }

  /** Where the account's own run is after an event of the whole run. */
  function AloneStep(s: System, e: Event, account: string): System {
    if Foreign(e, account) then s else Step(s, e)
  }

  lemma AloneUnfolds(s: System, events: seq<Event>, a: string)
    requires events != []
    ensures Run(s, Alone(events, a)) == Run(AloneStep(s, events[0], a), Alone(events[1..], a))
  {
    if !Foreign(events[0], a) {
      assert ([events[0]] + Alone(events[1..], a))[1..] == Alone(events[1..], a);
    }
  }

  lemma TwinsStepTogether(s1: System, s2: System, e: Event, a: string, accounts: set<string>, buckets: set<string>,
                          now: Tick)
    requires Twins(s1, s2, a, buckets) && a in accounts && now <= e.tick && Scoped(e, accounts, buckets)
    requires Tidy(s1, accounts, buckets, now) && Tidy(s2, accounts, buckets, now)
    ensures Twins(Step(s1, e), AloneStep(s2, e, a), a, buckets)
    ensures Tidy(Step(s1, e), accounts, buckets, e.tick + 1) && Tidy(AloneStep(s2, e, a), accounts, buckets, e.tick + 1)
  {
    StepKeepsTidy(s1, e, accounts, buckets, now);
    if Foreign(e, a) {
      ForeignStep(s1, s2, e, a, accounts, buckets, now);
      TidyLater(s2, accounts, buckets, now, e.tick + 1);
    } else {
      StepKeepsTidy(s2, e, accounts, buckets, now);
      TwinStep(s1, s2, e, a, accounts, buckets, now);
    }
  }

  lemma {:induction false} TwinRuns(s1: System, s2: System, events: seq<Event>, a: string,
                                    accounts: set<string>, buckets: set<string>, now: Tick)
    requires Twins(s1, s2, a, buckets) && a in accounts
    requires Tidy(s1, accounts, buckets, now) && Tidy(s2, accounts, buckets, now)
    requires Timely(now, events) && InScope(events, accounts, buckets)
    ensures Twins(Run(s1, events), Run(s2, Alone(events, a)), a, buckets)
    decreases |events|
  {
    if events != [] {
      var e := events[0];
      assert Scoped(e, accounts, buckets);
      TwinsStepTogether(s1, s2, e, a, accounts, buckets, now);
      TwinRuns(Step(s1, e), AloneStep(s2, e, a), events[1..], a, accounts, buckets, e.tick + 1);
      AloneUnfolds(s2, events, a);
    }
  }

  /**
   For every interleaving of any number of RPCs: an account's policies, groups, user and in-flight RPC end up exactly
   as if no other account had ever issued an RPC. Names may collide within the account, but not across accounts.
   */
  lemma AccountsAreIndependent(s: System, events: seq<Event>, a: string,
                               accounts: set<string>, buckets: set<string>, now: Tick)
    requires Tidy(s, accounts, buckets, now) && a in accounts
    requires Timely(now, events) && InScope(events, accounts, buckets)
    ensures Twins(Run(s, events), Run(s, Alone(events, a)), a, buckets)
  {
    TwinRuns(s, s, events, a, accounts, buckets, now);
  }
}
