/**
 Referential integrity when derived names do collide: with one access RPC at a time, no group the driver made ever
 names a policy that is missing. It rests on deleting the group before the policy, and on pairs that share a policy
 name sharing a group name.
 */
module Integrity {
  import opened Names
  import opened Ontap
  import opened Rpc
  import opened Slices
  import opened Interleaving

  /** The name of an object the driver makes. */
  predicate Cosi(name: string) {
    "cosi-" <= name
  }

  ghost predicate Made(group: Group) {
    exists b, a :: group == GroupFor(b, a)
  }

  /** Every COSI group is one the driver made, and its policy exists. */
  ghost predicate Linked(st: State) {
    forall id | id in st.groups && Cosi(st.groups[id].name) ::
      Made(st.groups[id]) && st.groups[id].policies[0] in st.policies
  }

  /** A Grant past its policy finds it stored. */
  ghost predicate PolicyThere(st: State, p: Process)
    requires p.Running() && p.rpc.Grant?
  {
    match p.stage
    case PostingUser(i) => PolicyName(p.rpc.buckets[i], p.rpc.account) in st.policies
    case PatchingUser(i) => PolicyName(p.rpc.buckets[i], p.rpc.account) in st.policies
    case PostingGroup(i, _) => PolicyName(p.rpc.buckets[i], p.rpc.account) in st.policies
    case _ => true
  }

  ghost predicate Standing(st: State, p: Process, now: Tick)
    requires p.Running()
  {
    && (p.rpc.Grant? ==> PolicyThere(st, p))
    && (p.rpc.Revoke? ==> RevokeHolds(st, p, now))
  }

  /** The slot's process, if any, is the only running access RPC. */
  ghost predicate OnlyAccess(s: System, slot: Slot) {
    forall other | other in s.processes && other.Accessing? && other != slot :: !s.processes[other].Running()
  }

  /** If the event begins an access RPC, no other one is in flight. */
  ghost predicate InTurn(s: System, e: Event) {
    e.action.Begin? && SlotOf(e.action.rpc, e.action.number).Accessing? ==>
      OnlyAccess(s, SlotOf(e.action.rpc, e.action.number))
  }

  /** An access RPC only begins when no other one is in flight. */
  ghost predicate Serial(s: System, events: seq<Event>)
    decreases |events|
  {
    events == [] || (InTurn(s, events[0]) && Serial(Step(s, events[0]), events[1..]))
  }

  ghost predicate Sound(s: System, now: Tick) {
    && Linked(s.st)
    && (forall id | id in s.st.groups :: id < now)
    && (forall slot | slot in s.processes ::
          slot.Bucketing? <==> s.processes[slot].rpc.Create? || s.processes[slot].rpc.Delete?)
    && (forall slot | s.Busy(slot) && slot.Accessing? :: OnlyAccess(s, slot))
    && forall slot | s.Busy(slot) && slot.Accessing? :: Standing(s.st, s.processes[slot], now)
  }

  lemma RevokeCallKeepsLinked(st: State, p: Process, fate: Fate, now: Tick, tick: Tick)
    requires Linked(st) && p.Running() && p.rpc.Revoke? && RevokeHolds(st, p, now)
    ensures Linked(Serve(st, NextRequest(p), fate, tick).0)
  {
    if p.stage.DeletingPolicy? {
      var b, a := p.rpc.buckets[p.stage.i], p.rpc.account;
      forall id | id in st.groups && Cosi(st.groups[id].name) ensures st.groups[id].policies[0] != PolicyName(b, a) {
        var b', a' :| st.groups[id] == GroupFor(b', a');
        assert id !in Named(st, GroupName(b, a));
        if PolicyName(b', a') == PolicyName(b, a) {
          EqualPoliciesEqualGroups(b', a', b, a);
        }
      }
    }
  }

  lemma GrantAsks(p: Process)
    requires p.Running() && p.rpc.Grant?
    ensures !NextRequest(p).DeletePolicy? && !NextRequest(p).DeleteGroup?
    ensures NextRequest(p).PostGroup? ==>
              p.stage.PostingGroup? && NextRequest(p).group == GroupFor(p.rpc.buckets[p.stage.i], p.rpc.account)
  {
  }

  /** A request that deletes nothing removes no policy, and only one for a group adds a group. */
  lemma NothingDeleted(st: State, req: Request, fate: Fate, tick: Tick)
    requires !req.DeletePolicy? && !req.DeleteGroup?
    ensures var st' := Serve(st, req, fate, tick).0;
            && (forall n | n in st.policies :: n in st'.policies)
            && (st'.groups == st.groups || (req.PostGroup? && st'.groups == st.groups[tick := req.group]))
  {
  }

  lemma GrantCallKeepsLinked(st: State, p: Process, fate: Fate, tick: Tick)
    requires Linked(st) && p.Running() && p.rpc.Grant? && PolicyThere(st, p)
    ensures Linked(Serve(st, NextRequest(p), fate, tick).0)
  {
    GrantAsks(p);
    NothingDeleted(st, NextRequest(p), fate, tick);
    if p.stage.PostingGroup? {
      assert Made(GroupFor(p.rpc.buckets[p.stage.i], p.rpc.account));
    }
  }

  lemma GrantCallFindsPolicy(st: State, p: Process, fate: Fate, tick: Tick)
    requires p.Running() && p.rpc.Grant? && PolicyThere(st, p)
    ensures var (st', r) := Serve(st, NextRequest(p), fate, tick);
            Resume(p, r).Running() ==> PolicyThere(st', Resume(p, r))
  {
  }

  lemma AccessCallStands(st: State, p: Process, fate: Fate, now: Tick, tick: Tick)
    requires Linked(st) && p.Running() && (p.rpc.Grant? || p.rpc.Revoke?) && Standing(st, p, now) && now <= tick
    requires forall id | id in st.groups :: id < now
    ensures var (st', r) := Serve(st, NextRequest(p), fate, tick);
            && Linked(st')
            && (Resume(p, r).Running() ==> Standing(st', Resume(p, r), tick + 1))
  {
    if p.rpc.Revoke? {
      RevokeCallKeepsLinked(st, p, fate, now, tick);
      RevokeStepHolds(st, p, fate, now, tick);
    } else {
      GrantCallKeepsLinked(st, p, fate, tick);
      GrantCallFindsPolicy(st, p, fate, tick);
    }
  }

  /** The only running access process goes on. */
  lemma AccessGoesOn(s: System, slot: Slot, st': State, q: Process, now: Tick, now': Tick)
    requires Sound(s, now) && s.Busy(slot) && slot.Accessing? && q.rpc == s.processes[slot].rpc
    requires Linked(st') && (forall id | id in st'.groups :: id < now') && (q.Running() ==> Standing(st', q, now'))
    ensures Sound(System(st', s.processes[slot := q]), now')
  {
    assert OnlyAccess(s, slot);
  }

  lemma AccessCallKeepsSound(s: System, slot: Slot, fate: Fate, now: Tick, tick: Tick)
    requires Sound(s, now) && now <= tick && s.Busy(slot) && slot.Accessing?
    ensures Sound(Step(s, Event(tick, Call(slot, fate))), tick + 1)
  {
    var p := s.processes[slot];
    var (st', r) := Serve(s.st, NextRequest(p), fate, tick);
    ServeKeepsIds(s.st, NextRequest(p), fate, now, tick);
    AccessCallStands(s.st, p, fate, now, tick);
    AccessGoesOn(s, slot, st', Resume(p, r), now, tick + 1);
  }

  lemma SameObjectsKeepSound(s: System, s': System, now: Tick, now': Tick)
    requires Sound(s, now) && now <= now'
    requires s'.st.policies == s.st.policies && s'.st.users == s.st.users && s'.st.groups == s.st.groups
    requires forall slot | slot in s'.processes ::
               (slot.Bucketing? <==> s'.processes[slot].rpc.Create? || s'.processes[slot].rpc.Delete?)
    requires forall slot | slot in s'.processes && slot.Accessing? && s'.processes[slot].Running() ::
               && OnlyAccess(s', slot)
               && ((s.Busy(slot) && s'.processes[slot] == s.processes[slot])
                   || s'.processes[slot] == Launch(s'.processes[slot].rpc))
    ensures Sound(s', now')
  {
    forall slot | s'.Busy(slot) && slot.Accessing? ensures Standing(s'.st, s'.processes[slot], now') {
      var p := s'.processes[slot];
      if p == Launch(p.rpc) {
      } else if p.rpc.Revoke? {
        RevokeHoldsElsewhere(s.st, s'.st, p, now, now');
      }
    }
  }

  lemma BeginKeepsSound(s: System, rpc: Rpc, number: nat, now: Tick, tick: Tick)
    requires Sound(s, now) && now <= tick
    requires SlotOf(rpc, number).Accessing? ==> OnlyAccess(s, SlotOf(rpc, number))
    ensures Sound(Step(s, Event(tick, Begin(rpc, number))), tick + 1)
  {
    var s' := Step(s, Event(tick, Begin(rpc, number)));
    var begun := SlotOf(rpc, number);
    forall slot | slot in s'.processes && slot.Accessing? && s'.processes[slot].Running() ensures OnlyAccess(s', slot) {
      if slot != begun {
        assert OnlyAccess(s, slot);
      }
    }
    SameObjectsKeepSound(s, s', now, tick + 1);
  }

  lemma BucketCallKeepsSound(s: System, slot: Slot, fate: Fate, now: Tick, tick: Tick)
    requires Sound(s, now) && now <= tick && s.Busy(slot) && slot.Bucketing?
    ensures Sound(Step(s, Event(tick, Call(slot, fate))), tick + 1)
  {
    var s' := Step(s, Event(tick, Call(slot, fate)));
    BucketRequestKeepsSlices(s.st, NextRequest(s.processes[slot]), fate, tick);
    forall other | other in s'.processes && other.Accessing? && s'.processes[other].Running()
      ensures OnlyAccess(s', other)
    {
      assert OnlyAccess(s, other);
    }
    SameObjectsKeepSound(s, s', now, tick + 1);
  }

  lemma FinishKeepsSound(s: System, job: Tick, end: Ending, now: Tick, tick: Tick)
    requires Sound(s, now) && now <= tick
    ensures Sound(Step(s, Event(tick, Finish(job, end))), tick + 1)
  {
    SameObjectsKeepSound(s, Step(s, Event(tick, Finish(job, end))), now, tick + 1);
  }

  lemma AbandonKeepsSound(s: System, slot: Slot, now: Tick, tick: Tick)
    requires Sound(s, now) && now <= tick
    ensures Sound(Step(s, Event(tick, Abandon(slot))), tick + 1)
  {
    var s' := Step(s, Event(tick, Abandon(slot)));
    forall other | other in s'.processes && other.Accessing? && s'.processes[other].Running()
      ensures OnlyAccess(s', other)
    {
      assert OnlyAccess(s, other);
    }
    SameObjectsKeepSound(s, s', now, tick + 1);
  }

  lemma CallKeepsSound(s: System, slot: Slot, fate: Fate, now: Tick, tick: Tick)
    requires Sound(s, now) && now <= tick
    ensures Sound(Step(s, Event(tick, Call(slot, fate))), tick + 1)
  {
    if !s.Busy(slot) {
      SoundLater(s, now, tick + 1);
    } else if slot.Accessing? {
      AccessCallKeepsSound(s, slot, fate, now, tick);
    } else {
      BucketCallKeepsSound(s, slot, fate, now, tick);
    }
  }

  lemma SoundLater(s: System, now: Tick, later: Tick)
    requires Sound(s, now) && now <= later
    ensures Sound(s, later)
  {
    SameObjectsKeepSound(s, s, now, later);
  }

  lemma StepKeepsSound(s: System, e: Event, now: Tick)
    requires Sound(s, now) && now <= e.tick && InTurn(s, e)
    ensures Sound(Step(s, e), e.tick + 1)
  {
    match e.action
    case Begin(rpc, number) => BeginKeepsSound(s, rpc, number, now, e.tick);
    case Call(slot, fate) => CallKeepsSound(s, slot, fate, now, e.tick);
    case Finish(job, end) => FinishKeepsSound(s, job, end, now, e.tick);
    case Abandon(slot) => AbandonKeepsSound(s, slot, now, e.tick);
  }

  lemma SerialUnfolds(s: System, events: seq<Event>, now: Tick)
    requires events != [] && Serial(s, events) && Timely(now, events)
    ensures InTurn(s, events[0]) && Serial(Step(s, events[0]), events[1..])
    ensures now <= events[0].tick && Timely(events[0].tick + 1, events[1..])
  {
  }

  lemma {:induction false} RunKeepsSound(s: System, events: seq<Event>, now: Tick)
    requires Sound(s, now) && Timely(now, events) && Serial(s, events)
    ensures Sound(Run(s, events), Clock(now, events))
    decreases |events|
  {
    if events != [] {
      var s', rest := Step(s, events[0]), events[1..];
      SerialUnfolds(s, events, now);
      StepKeepsSound(s, events[0], now);
      RunKeepsSound(s', rest, events[0].tick + 1);
    }
  }

  /**
   From a service without COSI groups and an idle driver, one access RPC at a time, whatever names collide and wherever
   calls fail, RPCs are cut short or answers are lost: the policy of every COSI group exists.
   */
  lemma GroupsAlwaysHaveTheirPolicy(s: System, events: seq<Event>, now: Tick, id: Tick)
    requires s.processes == map[] && Timely(now, events) && Serial(s, events)
    requires forall g | g in s.st.groups :: g < now && !Cosi(s.st.groups[g].name)
    requires id in Run(s, events).st.groups && Cosi(Run(s, events).st.groups[id].name)
    ensures var group := Run(s, events).st.groups[id];
            |group.policies| == 1 && group.policies[0] in Run(s, events).st.policies
  {
    RunKeepsSound(s, events, now);
    assert Made(Run(s, events).st.groups[id]);
  }
}
