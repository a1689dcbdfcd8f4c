/**
 The keys of an account: only its own RPC ever writes its user, so what holds of them holds in every run, whatever the
 derived names and whatever the service stores.
 */
module Credentials {
  import opened Results
  import opened Ontap
  import opened Rpc
  import opened Slices

  /** Every RPC stands where it belongs, an access RPC in its own account's slot. */
  predicate InOwnSlot(slot: Slot, rpc: Rpc) {
    match slot
    case Bucketing(_) => rpc.Create? || rpc.Delete?
    case Accessing(a) => (rpc.Grant? || rpc.Revoke?) && rpc.account == a
  }

  /** What an access RPC says of its account's keys. */
  predicate KeysHold(st: State, p: Process) {
    match p.stage
    case PostingGroup(_, keys) => p.rpc.Grant? ==> At(st.users, p.rpc.account) == Some(keys)
    case Done(outcome) =>
      && (p.rpc.Grant? && outcome.Granted? ==>
            && outcome.accountId == p.rpc.account && outcome.bucketInfos == p.rpc.buckets
            && At(st.users, p.rpc.account) == Some(outcome.credentials))
      && (p.rpc.Revoke? && outcome.Revoked? ==> At(st.users, p.rpc.account) == None)
    case _ => true
  }

  /** The invariant of every run. */
  ghost predicate Keyed(s: System) {
    forall slot | slot in s.processes :: InOwnSlot(slot, s.processes[slot].rpc) && KeysHold(s.st, s.processes[slot])
  }

  /** An RPC writes its own account's user only. */
  lemma WritesOwnUser(p: Process)
    requires p.Running()
    ensures var req := NextRequest(p);
            req.PostUser? || req.PatchUser? || req.DeleteUser? ==>
              (p.rpc.Grant? || p.rpc.Revoke?) && req.name == p.rpc.account
  {
  }

  lemma OtherUserKept(st: State, req: Request, fate: Fate, tick: Tick, a: string)
    requires req.PostUser? || req.PatchUser? || req.DeleteUser? ==> req.name != a
    ensures At(Serve(st, req, fate, tick).0.users, a) == At(st.users, a)
  {
  }

  /** The keys an answered user request mints are the ones now stored. */
  lemma MintedIsStored(st: State, req: Request, fate: Fate, tick: Tick)
    requires req.PostUser? || req.PatchUser?
    ensures var (st', r) := Serve(st, req, fate, tick);
            r.Minted? ==> At(st'.users, req.name) == Some(r.keys)
  {
  }

  lemma GrantCallHolds(st: State, p: Process, fate: Fate, tick: Tick)
    requires p.Running() && p.rpc.Grant? && KeysHold(st, p)
    ensures var (st', r) := Serve(st, NextRequest(p), fate, tick);
            KeysHold(st', Resume(p, r))
  {
    if p.stage.PostingUser? || p.stage.PatchingUser? {
      MintedIsStored(st, NextRequest(p), fate, tick);
    } else {
      OtherUserKept(st, NextRequest(p), fate, tick, p.rpc.account);
    }
  }

  lemma RevokeCallHolds(st: State, p: Process, fate: Fate, tick: Tick)
    requires p.Running() && p.rpc.Revoke? && KeysHold(st, p)
    ensures var (st', r) := Serve(st, NextRequest(p), fate, tick);
            KeysHold(st', Resume(p, r))
  {
  }

  lemma SameUserHolds(st: State, st': State, p: Process)
    requires KeysHold(st, p)
    requires p.rpc.Grant? || p.rpc.Revoke? ==> At(st'.users, p.rpc.account) == At(st.users, p.rpc.account)
    ensures KeysHold(st', p)
  {
  }

  /** An RPC goes on, and no other account's user has been written. */
  lemma KeysGoOn(s: System, slot: Slot, st': State, q: Process)
    requires Keyed(s) && InOwnSlot(slot, q.rpc) && KeysHold(st', q)
    requires forall a | slot != Accessing(a) :: At(st'.users, a) == At(s.st.users, a)
    ensures Keyed(System(st', s.processes[slot := q]))
  {
    forall other | other in s.processes && other != slot ensures KeysHold(st', s.processes[other]) {
      assert InOwnSlot(other, s.processes[other].rpc);
      SameUserHolds(s.st, st', s.processes[other]);
    }
  }

  lemma OwnCallHolds(st: State, p: Process, fate: Fate, tick: Tick)
    requires p.Running() && KeysHold(st, p)
    ensures var (st', r) := Serve(st, NextRequest(p), fate, tick);
            KeysHold(st', Resume(p, r))
  {
    if p.rpc.Grant? {
      GrantCallHolds(st, p, fate, tick);
    } else if p.rpc.Revoke? {
      RevokeCallHolds(st, p, fate, tick);
    }
  }

  lemma CallKeepsKeyed(s: System, slot: Slot, fate: Fate, tick: Tick)
    requires Keyed(s) && s.Busy(slot)
    ensures Keyed(Step(s, Event(tick, Call(slot, fate))))
  {
    var p := s.processes[slot];
    var (st', r) := Serve(s.st, NextRequest(p), fate, tick);
    assert InOwnSlot(slot, p.rpc);
    OwnCallHolds(s.st, p, fate, tick);
    WritesOwnUser(p);
    forall a | slot != Accessing(a) ensures At(st'.users, a) == At(s.st.users, a) {
      OtherUserKept(s.st, NextRequest(p), fate, tick, a);
    }
    KeysGoOn(s, slot, st', Resume(p, r));
  }

  lemma StepKeepsKeyed(s: System, e: Event)
    requires Keyed(s)
    ensures Keyed(Step(s, e))
  {
    match e.action
    case Begin(rpc, number) =>
    case Call(slot, fate) =>
      if s.Busy(slot) {
        CallKeepsKeyed(s, slot, fate, e.tick);
      }
    case Finish(job, end) =>
      forall slot | slot in s.processes ensures KeysHold(Step(s, e).st, s.processes[slot]) {
        SameUserHolds(s.st, Step(s, e).st, s.processes[slot]);
      }
    case Abandon(_) =>
  }

  lemma {:induction false} RunKeepsKeyed(s: System, events: seq<Event>)
    requires Keyed(s)
    ensures Keyed(Run(s, events))
    decreases |events|
  {
    if events != [] {
      StepKeepsKeyed(s, events[0]);
      RunKeepsKeyed(Step(s, events[0]), events[1..]);
    }
  }

  /**
   In every run, whatever names collide, whatever the service holds and however calls are interleaved, lost or refused:
   a finished Grant's response lists the requested buckets in order and carries the keys now stored for the account, and
   after a finished Revoke the account has none.
   */
  lemma FinishedKeysAreLive(s: System, events: seq<Event>, a: string)
    requires Keyed(s) && Accessing(a) in Run(s, events).processes
    requires Run(s, events).processes[Accessing(a)].stage.Done?
    ensures var st := Run(s, events).st;
            var Process(rpc, Done(outcome)) := Run(s, events).processes[Accessing(a)];
            && (rpc.Grant? || rpc.Revoke?) && rpc.account == a
            && (rpc.Grant? && outcome.Granted? ==>
                  && outcome.accountId == a && outcome.bucketInfos == rpc.buckets
                  && At(st.users, a) == Some(outcome.credentials))
            && (rpc.Revoke? && outcome.Revoked? ==> At(st.users, a) == None)
  {
    RunKeepsKeyed(s, events);
    var p := Run(s, events).processes[Accessing(a)];
    assert InOwnSlot(Accessing(a), p.rpc) && KeysHold(Run(s, events).st, p);
  }

  /** From an idle driver and any service. */
  lemma IdleIsKeyed(s: System)
    requires s.processes == map[]
    ensures Keyed(s)
  {
  }

  /** Every stored key pair was minted before `now`. */
  predicate KeysMinted(st: State, now: Tick) {
    forall a | a in st.users :: st.users[a].accessKey < 2 * now
  }

  /** The keys were minted before `now` and are not the account's. */
  predicate Dead(st: State, account: string, keys: KeyPair, now: Tick) {
    keys.accessKey < 2 * now && At(st.users, account) != Some(keys)
  }

  lemma ServeMints(st: State, req: Request, fate: Fate, tick: Tick)
    ensures var st' := Serve(st, req, fate, tick).0;
            forall a | a in st'.users :: (a in st.users && st'.users[a] == st.users[a]) || st'.users[a] == KeysAt(tick)
  {
  }

  /** A user's keys after an event are its keys before it, or those minted at this very tick. */
  lemma StepMints(s: System, e: Event)
    ensures forall a | a in Step(s, e).st.users ::
              (a in s.st.users && Step(s, e).st.users[a] == s.st.users[a]) || Step(s, e).st.users[a] == KeysAt(e.tick)
  {
    if e.action.Call? && s.Busy(e.action.slot) {
      ServeMints(s.st, NextRequest(s.processes[e.action.slot]), e.action.fate, e.tick);
    } else {
      assert Step(s, e).st.users == s.st.users;
    }
  }

  /** Keys an account no longer has never come back to it, whatever the run. */
  lemma {:induction false} ReplacedKeysStayDead(s: System, events: seq<Event>, a: string, keys: KeyPair, now: Tick)
    requires Dead(s.st, a, keys, now) && Timely(now, events)
    ensures Dead(Run(s, events).st, a, keys, Clock(now, events))
    decreases |events|
  {
    if events != [] {
      StepMints(s, events[0]);
      ReplacedKeysStayDead(Step(s, events[0]), events[1..], a, keys, events[0].tick + 1);
    }
  }

  lemma {:induction false} RunKeepsKeysMinted(s: System, events: seq<Event>, now: Tick)
    requires KeysMinted(s.st, now) && Timely(now, events)
    ensures KeysMinted(Run(s, events).st, Clock(now, events))
    decreases |events|
  {
    if events != [] {
      StepMints(s, events[0]);
      RunKeepsKeysMinted(Step(s, events[0]), events[1..], events[0].tick + 1);
    }
  }

  ghost predicate HasGranted(s: System, account: string, keys: KeyPair) {
    && Accessing(account) in s.processes
    && var p := s.processes[Accessing(account)];
       p.rpc.Grant? && p.stage.Done? && p.stage.outcome.Granted? && p.stage.outcome.credentials == keys
  }

  lemma {:induction false} ClockAdvances(events: seq<Event>, now: Tick)
    requires Timely(now, events)
    ensures now <= Clock(now, events)
    decreases |events|
  {
    if events != [] {
      ClockAdvances(events[1..], events[0].tick + 1);
    }
  }

  /**
   Of all key pairs ever returned for an account at most the latest is live: earlier ones never work again, in any run.
   */
  lemma ReturnedKeysRetire(s: System, before: seq<Event>, between: seq<Event>, after: seq<Event>, a: string,
                           older: KeyPair, newer: KeyPair, now: Tick)
    requires Keyed(s) && KeysMinted(s.st, now)
    requires Timely(now, before) && Timely(Clock(now, before), between)
    requires Timely(Clock(Clock(now, before), between), after)
    requires HasGranted(Run(s, before), a, older)
    requires HasGranted(Run(Run(s, before), between), a, newer) && older != newer
    ensures At(Run(s, before).st.users, a) == Some(older)
    ensures At(Run(Run(s, before), between).st.users, a) == Some(newer)
    ensures At(Run(Run(Run(s, before), between), after).st.users, a) != Some(older)
  {
    var s1, t1 := Run(s, before), Clock(now, before);
    var s2, t2 := Run(s1, between), Clock(t1, between);
    RunKeepsKeyed(s, before);
    FinishedKeysAreLive(s, before, a);
    FinishedKeysAreLive(s1, between, a);
    RunKeepsKeysMinted(s, before, now);
    ClockAdvances(between, t1);
    ReplacedKeysStayDead(s2, after, a, older, t2);
  }
}
