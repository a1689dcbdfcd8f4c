/**
 The ONTAP service as a mutable object that other clients, other RPCs and background jobs change between any two calls.
 */
module Service {
  import opened Ontap
  import opened Rpc

  /** Events that leave a slot's RPC alone. */
  predicate Elsewhere(events: seq<Event>, slot: Slot) {
    forall i | 0 <= i < |events| ::
      match events[i].action
      case Begin(rpc, number) => SlotOf(rpc, number) != slot
      case Call(other, _) => other != slot
      case Finish(_, _) => true
      case Abandon(other) => other != slot
  }

  lemma {:induction false} ElsewhereKeepsProcess(s: System, events: seq<Event>, slot: Slot)
    requires Elsewhere(events, slot) && slot in s.processes
    ensures slot in Run(s, events).processes && Run(s, events).processes[slot] == s.processes[slot]
    decreases |events|
  {
    if events != [] {
      var e := events[0];
      assert slot in Step(s, e).processes && Step(s, e).processes[slot] == s.processes[slot];
      ElsewhereKeepsProcess(Step(s, e), events[1..], slot);
    }
  }

  lemma MoreSteps(s: System, now: Tick, log: seq<Event>, events: seq<Event>, later: Tick)
    requires Timely(now, log) && Clock(now, log) <= later && Timely(later, events)
    ensures Run(s, log + events) == Run(Run(s, log), events)
    ensures Timely(now, log + events) && Clock(now, log + events) <= Clock(later, events)
  {
    RunConcat(s, now, log, events);
    TimelyEarlier(later, Clock(now, log), events);
  }

  /** The log holds the beginnings of these RPCs, in this order, among whatever else. */
  ghost predicate Begins(log: seq<Event>, begun: seq<Rpc>)
    decreases |begun|
  {
    begun == [] || exists k ::
      && 0 <= k < |log| && log[k].action.Begin? && log[k].action.rpc == begun[|begun| - 1]
      && Begins(log[..k], begun[..|begun| - 1])
  }

  lemma BeginsOn(log: seq<Event>, more: seq<Event>, begun: seq<Rpc>)
    requires Begins(log, begun)
    ensures Begins(log + more, begun)
  {
    if begun != [] {
      var k :| && 0 <= k < |log| && log[k].action.Begin? && log[k].action.rpc == begun[|begun| - 1]
               && Begins(log[..k], begun[..|begun| - 1]);
      assert (log + more)[..k] == log[..k] && (log + more)[k] == log[k];
    }
  }

  lemma OneMoreBegins(log: seq<Event>, begun: seq<Rpc>, e: Event)
    requires Begins(log, begun) && e.action.Begin?
    ensures Begins(log + [e], begun + [e.action.rpc])
  {
    var k := |log|;
    assert (log + [e])[..k] == log && (begun + [e.action.rpc])[..|begun|] == begun;
  }

  /** Stands for "the events are a log" where a trigger is needed. */
  ghost predicate Logged(events: seq<Event>) {
    true
  }

  /** What the answer to a poll says of the job, and when there is none. */
  predicate JobTold(st: State, job: Tick, fate: Fate, r: Response) {
    match r
    case Fault(_) => !fate.Answered? || job !in st.jobs
    case JobIs(status) =>
      && job in st.jobs && (Terminal(status.state) <==> st.jobs[job].Finished?)
      && (st.jobs[job].Finished? ==> (status.state == "success" <==> st.jobs[job].ok))
    case _ => false
  }

  lemma ServedIsTold(st: State, job: Tick, fate: Fate, tick: Tick)
    ensures var (st', r) := Serve(st, GetJob(job), fate, tick);
            st' == st && JobTold(st, job, fate, r)
  {
  }

  /** A service at some moment, and how it has got there. */
  datatype History = History(current: System, tick: Tick, log: seq<Event>, begun: seq<Rpc>)

  class Backend {
    var buckets: map<Tick, Bucket>
    var jobs: map<Tick, Job>
    var policies: map<string, Policy>
    var users: map<string, KeyPair>
    var groups: map<Tick, Group>
    var processes: map<Slot, Process>
    var tick: Tick

    /** What happens before the call made at a tick, and what becomes of that call: both arbitrary. */
    const others: Tick -> seq<Event>
    const fates: Tick -> Fate

    ghost const origin: System
    ghost const start: Tick
    ghost var log: seq<Event>
    /** The RPCs this driver has begun here. */
    ghost var begun: seq<Rpc>

    constructor (s: System, now: Tick, others: Tick -> seq<Event>, fates: Tick -> Fate)
      ensures Valid() && Current() == s && tick == now && origin == s && start == now && log == [] && begun == []
    {
      this.buckets, this.jobs, this.policies, this.users, this.groups :=
        s.st.buckets, s.st.jobs, s.st.policies, s.st.users, s.st.groups;
      this.processes := s.processes;
      this.tick := now;
      this.others, this.fates := others, fates;
      this.origin := s;
      this.start := now;
      this.log, this.begun := [], [];
      new;
      LogIsTheRun();
    }

    function Current(): System
      reads this
    {
      System(State(buckets, jobs, policies, users, groups), processes)
    }

    ghost function Story(): History
      reads this
    {
      History(Current(), tick, log, begun)
    }

    predicate Busy(slot: Slot)
      reads this
    {
      slot in processes && processes[slot].Running()
    }

    /** The object is where a timely run of the machine from its origin has got to. */
    ghost predicate Valid()
      reads this
    {
      forall events {:trigger Logged(events)} | events == log ::
        && Logged(events) && Current() == Run(origin, events)
        && Timely(start, events) && Clock(start, events) <= tick && Begins(events, begun)
    }

    /** What Valid says of the log; callers that only pass Valid on never need to unfold the run. */
    lemma LogIsTheRun()
      ensures Valid() <==> Current() == Run(origin, log)
                           && Timely(start, log) && Clock(start, log) <= tick && Begins(log, begun)
    {
      assert Logged(log);
    }

    /** Take in some more of the run. */
    method Adopt(s: System, later: Tick, ghost events: seq<Event>)
      requires Valid() && s == Run(Current(), events) && Timely(tick, events) && Clock(tick, events) <= later
      modifies this
      ensures Valid() && Current() == s && tick == later
      ensures log == old(log) + events && begun == old(begun)
    {
      LogIsTheRun();
      MoreSteps(origin, start, log, events, tick);
      BeginsOn(log, events, begun);
      buckets, jobs, policies, users, groups := s.st.buckets, s.st.jobs, s.st.policies, s.st.users, s.st.groups;
      processes := s.processes;
      tick := later;
      log := log + events;
      LogIsTheRun();
    }

    /** Take in one more step. */
    method Advance(e: Event)
      requires Valid() && tick <= e.tick
      modifies this
      ensures Valid() && Current() == Step(old(Current()), e)
      ensures log == old(log) + [e] && tick == e.tick + 1 && begun == old(begun)
    {
      RunOne(Current(), tick, e);
      Adopt(Step(Current(), e), e.tick + 1, [e]);
    }

    /** Whatever the rest of the world does before the slot's next call. */
    method Interfere(slot: Slot)
      requires Valid() && slot in processes
      modifies this
      ensures Valid() && old(log) <= log
      ensures slot in processes && processes[slot] == old(processes[slot]) && begun == old(begun)
    {
      var events := others(tick);
      if Timely(tick, events) && Elsewhere(events, slot) {
        ElsewhereKeepsProcess(Current(), events, slot);
        Adopt(Run(Current(), events), Clock(tick, events), events);
      }
    }

    /** An RPC takes its slot. */
    method Begin(rpc: Rpc, number: nat)
      requires Valid() && !Busy(SlotOf(rpc, number))
      modifies this
      ensures Valid() && old(log) <= log
      ensures SlotOf(rpc, number) in processes && processes[SlotOf(rpc, number)] == Launch(rpc)
      ensures begun == old(begun) + [rpc]
    {
      var e := Event(tick, Action.Begin(rpc, number));
      LogIsTheRun();
      OneMoreBegins(log, begun, e);
      Advance(e);
      LogIsTheRun();
      begun := begun + [rpc];
      LogIsTheRun();
    }

    /** The slot's RPC makes the REST call it waits for, and goes on with the answer. */
    method Do(slot: Slot, req: Request) returns (r: Response)
      requires Valid() && Busy(slot) && NextRequest(processes[slot]) == req
      modifies this
      ensures Valid() && old(log) <= log
      ensures Answers(req, r) && (r.Fault? ==> Transport(r.error))
      ensures slot in processes && processes[slot] == Resume(old(processes[slot]), r) && begun == old(begun)
      ensures tick > 0 && (req.GetJob? ==> JobTold(Current().st, req.job, fates(tick - 1), r))
    {
      Interfere(slot);
      var fate := fates(tick);
      if req.GetJob? {
        ServedIsTold(Current().st, req.job, fate, tick);
      }
      r := Serve(Current().st, req, fate, tick).1;
      FaultsAreTransport(Current().st, req, fate, tick);
      Advance(Event(tick, Call(slot, fate)));
    }

    /** The slot's RPC gives up on the call it waits for, without making it. */
    method GiveUp(slot: Slot, e: Refusal)
      requires Valid() && Busy(slot)
      modifies this
      ensures Valid() && old(log) <= log
      ensures slot in processes && processes[slot] == Resume(old(processes[slot]), Fault(e)) && begun == old(begun)
    {
      Advance(Event(tick, Call(slot, Refused(e))));
    }
  }

  lemma TimelyEarlier(now: Tick, earlier: Tick, events: seq<Event>)
    requires earlier <= now && Timely(now, events)
    ensures Timely(earlier, events) && Clock(earlier, events) <= Clock(now, events)
  {
  }
}
