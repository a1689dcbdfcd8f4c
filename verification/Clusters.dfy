/**
 RPCs of all tenants at once, each going on with the client it was given when it came in: whatever the driver does to a
 service it does for an RPC that was led there when it came in, and a service's RPCs might as well be the only ones.
 */
module Clusters {
  import opened Results
  import opened Errors
  import opened Ontap
  import opened Rpc
  import opened Interleaving
  import opened Service
  import opened Tenancy

  /** The client an RPC was given, and the slot it stands in there. */
  datatype Handle = Handle(key: BackendKey, slot: Slot, rpc: Rpc)

  /**
   Services by key, of which one that is not listed is empty and idle; the RPCs in hand, by number; and those that were
   answered without reaching any service.
   */
  datatype Cluster = Cluster(
    systems: map<BackendKey, System>,
    handles: map<nat, Handle>,
    turnedAway: map<nat, Outcome>)
  {
    function At(key: BackendKey): System {
      if key in systems then systems[key] else System(State(map[], map[], map[], map[], map[]), map[])
    }

    function Perform(key: BackendKey, e: Event): Cluster {
      this.(systems := systems[key := Step(At(key), e)])
    }
  }

  /**
   An RPC comes in, with the Secrets as they are at that moment; it makes its next call, or is abandoned; or something
   happens at a service that no RPC of this driver does.
   */
  datatype Happening =
    | Arrive(tick: Tick, number: nat, rpc: Rpc, params: Params, secrets: Secrets)
    | Proceed(tick: Tick, number: nat, fate: Fate)
    | Drop(tick: Tick, number: nat)
    | Local(key: BackendKey, event: Event)
  {
    function When(): Tick {
      match this
      case Arrive(tick, _, _, _, _) => tick
      case Proceed(tick, _, _) => tick
      case Drop(tick, _) => tick
      case Local(_, event) => event.tick
    }
  }

  /** One of this driver's RPCs stands in the slot. */
  predicate Holds(c: Cluster, key: BackendKey, slot: Slot) {
    exists n | n in c.handles :: c.handles[n].key == key && c.handles[n].slot == slot
  }

  /** The handles without the one whose slot is taken over. */
  function Vacated(handles: map<nat, Handle>, key: BackendKey, slot: Slot): map<nat, Handle> {
    map n | n in handles && !(handles[n].key == key && handles[n].slot == slot) :: handles[n]
  }

  /** The slot an action is about; the end of a job is about none. */
  function SlotTouched(action: Action): Option<Slot> {
    match action
    case Begin(rpc, number) => Some(SlotOf(rpc, number))
    case Call(slot, _) => Some(slot)
    case Finish(_, _) => None
    case Abandon(slot) => Some(slot)
  }

  /** What the happening is to the service it reaches, if it reaches one. */
  function Reaches(setup: Setup, c: Cluster, h: Happening): Option<(BackendKey, Event)> {
    match h
    case Arrive(tick, number, rpc, params, secrets) =>
      (match Target(setup, params, secrets)
       case None => None
       case Some(key) =>
         if number in c.handles || c.At(key).Busy(SlotOf(rpc, number)) then None
         else Some((key, Event(tick, Begin(rpc, number)))))
    case Proceed(tick, number, fate) =>
      if number !in c.handles then None
      else Some((c.handles[number].key, Event(tick, Call(c.handles[number].slot, fate))))
    case Drop(tick, number) =>
      if number in c.handles then Some((c.handles[number].key, Event(tick, Abandon(c.handles[number].slot)))) else None
    case Local(key, event) =>
      var slot := SlotTouched(event.action);
      if slot.Some? && Holds(c, key, slot.value) then None else Some((key, event))
  }

  /** Who holds which client afterwards. */
  function Held(setup: Setup, c: Cluster, h: Happening): map<nat, Handle> {
    match h
    case Arrive(_, number, rpc, _, _) =>
      (match Reaches(setup, c, h)
       case None => c.handles
       case Some(there) =>
         var slot := SlotOf(rpc, number);
         Vacated(c.handles, there.0, slot)[number := Handle(there.0, slot, rpc)])
    case Drop(_, number) => c.handles - {number}
    case _ => c.handles
  }

  function TurnedAway(setup: Setup, c: Cluster, h: Happening): map<nat, Outcome> {
    if h.Arrive? && Target(setup, h.params, h.secrets) == None
    then c.turnedAway[h.number := Failed(Unavailable, Coded(Unavailable, "tenant credentials"))] else c.turnedAway
  }

  function ClusterStep(setup: Setup, c: Cluster, h: Happening): Cluster {
    var systems := match Reaches(setup, c, h)
      case None => c.systems
      case Some(there) => c.Perform(there.0, there.1).systems;
    Cluster(systems, Held(setup, c, h), TurnedAway(setup, c, h))
  }

  function ClusterRun(setup: Setup, c: Cluster, happenings: seq<Happening>): Cluster
    decreases |happenings|
  {
    if happenings == [] then c else ClusterRun(setup, ClusterStep(setup, c, happenings[0]), happenings[1..])
  }

  /** What the happening is at this service. */
  function Seen(setup: Setup, c: Cluster, h: Happening, key: BackendKey): seq<Event> {
    match Reaches(setup, c, h)
    case None => []
    case Some(there) => if there.0 == key then [there.1] else []
  }

  /** The sub-run of one service. */
  function Projected(setup: Setup, c: Cluster, happenings: seq<Happening>, key: BackendKey): seq<Event>
    decreases |happenings|
  {
    if happenings == [] then [] else
    var c' := ClusterStep(setup, c, happenings[0]);
    Seen(setup, c, happenings[0], key) + Projected(setup, c', happenings[1..], key)
  }

  lemma StepAtKey(setup: Setup, c: Cluster, h: Happening, key: BackendKey)
    ensures ClusterStep(setup, c, h).At(key) == Run(c.At(key), Seen(setup, c, h, key))
  {
    if Reaches(setup, c, h).Some? {
      assert [Reaches(setup, c, h).value.1][1..] == [];
    }
  }

  /** Whatever RPCs come in for whatever namespaces: each service ends up exactly where its own sub-run takes it. */
  lemma {:induction false} TenantProjection(setup: Setup, c: Cluster, happenings: seq<Happening>, key: BackendKey)
    ensures ClusterRun(setup, c, happenings).At(key) == Run(c.At(key), Projected(setup, c, happenings, key))
    decreases |happenings|
  {
    if happenings != [] {
      var c' := ClusterStep(setup, c, happenings[0]);
      StepAtKey(setup, c, happenings[0], key);
      TenantProjection(setup, c', happenings[1..], key);
      RunConcat(c.At(key), 0, Seen(setup, c, happenings[0], key), Projected(setup, c', happenings[1..], key));
    }
  }

  /** No other RPC comes in under this number. */
  predicate NotAgain(number: nat, happenings: seq<Happening>) {
    forall i | 0 <= i < |happenings| && happenings[i].Arrive? :: happenings[i].number != number
  }

  /**
   An RPC keeps the client it was given when it came in, however the Secrets change: all its calls go to one service.
   */
  lemma {:induction false} OneClientPerRpc(setup: Setup, c: Cluster, happenings: seq<Happening>, number: nat)
    requires number in c.handles && NotAgain(number, happenings)
    ensures var c' := ClusterRun(setup, c, happenings);
            number in c'.handles ==> c'.handles[number] == c.handles[number]
    decreases |happenings|
  {
    if happenings != [] {
      var c' := ClusterStep(setup, c, happenings[0]);
      if number in c'.handles {
        OneClientPerRpc(setup, c', happenings[1..], number);
      } else {
        NeverAgain(setup, c', happenings[1..], number);
      }
    }
  }

  lemma {:induction false} NeverAgain(setup: Setup, c: Cluster, happenings: seq<Happening>, number: nat)
    requires number !in c.handles && NotAgain(number, happenings)
    ensures number !in ClusterRun(setup, c, happenings).handles
    decreases |happenings|
  {
    if happenings != [] {
      NeverAgain(setup, ClusterStep(setup, c, happenings[0]), happenings[1..], number);
    }
  }

  /** No two RPCs hold the same slot of the same service. */
  predicate Exclusive(c: Cluster) {
    forall n, n' | n in c.handles && n' in c.handles && c.handles[n].key == c.handles[n'].key
                   && c.handles[n].slot == c.handles[n'].slot :: n == n'
  }

  lemma StepKeepsExclusive(setup: Setup, c: Cluster, h: Happening)
    requires Exclusive(c)
    ensures Exclusive(ClusterStep(setup, c, h))
  {
  }

  lemma {:induction false} RunKeepsExclusive(setup: Setup, c: Cluster, happenings: seq<Happening>)
    requires Exclusive(c)
    ensures Exclusive(ClusterRun(setup, c, happenings))
    decreases |happenings|
  {
    if happenings != [] {
      StepKeepsExclusive(setup, c, happenings[0]);
      RunKeepsExclusive(setup, ClusterStep(setup, c, happenings[0]), happenings[1..]);
    }
  }

  /** Every RPC in hand stands where its handle says, in a slot of its own number. */
  predicate InHand(c: Cluster) {
    forall n | n in c.handles ::
      var Handle(key, slot, rpc) := c.handles[n];
      slot == SlotOf(rpc, n) && slot in c.At(key).processes && c.At(key).processes[slot].rpc == rpc
  }

  /** Among what has happened, an RPC came in under this number and was led to this service. */
  predicate Arrived(setup: Setup, past: seq<Happening>, number: nat, rpc: Rpc, key: BackendKey) {
    exists i | 0 <= i < |past| ::
      past[i].Arrive? && past[i].number == number && past[i].rpc == rpc
      && Target(setup, past[i].params, past[i].secrets) == Some(key)
  }

  /** The invariant of every run: whoever holds a client came in for it. */
  ghost predicate Rightful(setup: Setup, c: Cluster, past: seq<Happening>) {
    && Exclusive(c) && InHand(c)
    && forall n | n in c.handles :: Arrived(setup, past, n, c.handles[n].rpc, c.handles[n].key)
  }

  /** An event moves the process of the slot it is about, and that one stays the same RPC's. */
  lemma OtherProcessesStay(s: System, e: Event, slot: Slot)
    requires slot in s.processes
    requires e.action.Call? || SlotTouched(e.action) != Some(slot)
    ensures slot in Step(s, e).processes && Step(s, e).processes[slot].rpc == s.processes[slot].rpc
  {
  }

  /** A handle that is kept goes on standing for the same RPC's process. */
  lemma KeptInHand(setup: Setup, c: Cluster, h: Happening, n: nat)
    requires Exclusive(c) && InHand(c) && n in c.handles
    requires n in Held(setup, c, h) && Held(setup, c, h)[n] == c.handles[n]
    ensures var Handle(key, slot, rpc) := c.handles[n];
            var s := ClusterStep(setup, c, h).At(key);
            slot in s.processes && s.processes[slot].rpc == rpc
  {
    var Handle(key, slot, _) := c.handles[n];
    StepAtKey(setup, c, h, key);
    match Reaches(setup, c, h)
    case None =>
    case Some(there) =>
      if there.0 == key {
        assert Holds(c, key, slot);
        RunOne(c.At(key), 0, there.1);
        OtherProcessesStay(c.At(key), there.1, slot);
      }
  }

  lemma StepKeepsInHand(setup: Setup, c: Cluster, h: Happening)
    requires Exclusive(c) && InHand(c)
    ensures InHand(ClusterStep(setup, c, h))
  {
    var c' := ClusterStep(setup, c, h);
    forall n | n in c'.handles
      ensures var Handle(key, slot, rpc) := c'.handles[n];
              slot == SlotOf(rpc, n) && slot in c'.At(key).processes && c'.At(key).processes[slot].rpc == rpc
    {
      if n in c.handles && c'.handles[n] == c.handles[n] {
        KeptInHand(setup, c, h, n);
      }
    }
  }

  lemma ArrivedStays(setup: Setup, past: seq<Happening>, h: Happening, number: nat, rpc: Rpc, key: BackendKey)
    requires Arrived(setup, past, number, rpc, key)
    ensures Arrived(setup, past + [h], number, rpc, key)
  {
    var i :| 0 <= i < |past| && past[i].Arrive? && past[i].number == number && past[i].rpc == rpc
             && Target(setup, past[i].params, past[i].secrets) == Some(key);
    assert (past + [h])[i] == past[i];
  }

  lemma StepKeepsArrivals(setup: Setup, c: Cluster, past: seq<Happening>, h: Happening)
    requires forall n | n in c.handles :: Arrived(setup, past, n, c.handles[n].rpc, c.handles[n].key)
    ensures var handles := Held(setup, c, h);
            forall n | n in handles :: Arrived(setup, past + [h], n, handles[n].rpc, handles[n].key)
  {
    var handles := Held(setup, c, h);
    forall n | n in handles ensures Arrived(setup, past + [h], n, handles[n].rpc, handles[n].key) {
      if n in c.handles && handles[n] == c.handles[n] {
        ArrivedStays(setup, past, h, n, c.handles[n].rpc, c.handles[n].key);
      } else {
        assert (past + [h])[|past|] == h;
      }
    }
  }

  lemma StepIsRightful(setup: Setup, c: Cluster, past: seq<Happening>, h: Happening)
    requires Rightful(setup, c, past)
    ensures Rightful(setup, ClusterStep(setup, c, h), past + [h])
  {
    StepKeepsExclusive(setup, c, h);
    StepKeepsInHand(setup, c, h);
    StepKeepsArrivals(setup, c, past, h);
  }

  lemma {:induction false} RunIsRightful(setup: Setup, c: Cluster, past: seq<Happening>, happenings: seq<Happening>)
    requires Rightful(setup, c, past)
    ensures Rightful(setup, ClusterRun(setup, c, happenings), past + happenings)
    decreases |happenings|
  {
    if happenings == [] {
      assert past + happenings == past;
    } else {
      StepIsRightful(setup, c, past, happenings[0]);
      RunIsRightful(setup, ClusterStep(setup, c, happenings[0]), past + [happenings[0]], happenings[1..]);
      assert past + happenings == past + [happenings[0]] + happenings[1..];
    }
  }

  /** The event is the RPC's own: its beginning, or a call or the end of the very process it stands as. */
  predicate OwnEvent(s: System, e: Event, number: nat, rpc: Rpc) {
    match e.action
    case Begin(r, n) => r == rpc && n == number
    case Call(slot, _) => slot == SlotOf(rpc, number) && slot in s.processes && s.processes[slot].rpc == rpc
    case Abandon(slot) => slot == SlotOf(rpc, number) && slot in s.processes && s.processes[slot].rpc == rpc
    case Finish(_, _) => false
  }

  /** Some RPC that came in for this service does the event. */
  ghost predicate Rightfully(setup: Setup, past: seq<Happening>, s: System, key: BackendKey, e: Event) {
    exists n, rpc :: Arrived(setup, past, n, rpc, key) && OwnEvent(s, e, n, rpc)
  }

  lemma StepReachesRightfully(setup: Setup, c: Cluster, past: seq<Happening>, h: Happening)
    requires Rightful(setup, c, past) && Reaches(setup, c, h).Some? && !h.Local?
    ensures var (key, e) := Reaches(setup, c, h).value;
            Rightfully(setup, past + [h], c.At(key), key, e)
  {
    var (key, e) := Reaches(setup, c, h).value;
    assert (past + [h])[|past|] == h;
    if h.Arrive? {
      assert Arrived(setup, past + [h], h.number, h.rpc, key) && OwnEvent(c.At(key), e, h.number, h.rpc);
    } else {
      var rpc := c.handles[h.number].rpc;
      ArrivedStays(setup, past, h, h.number, rpc, key);
      assert OwnEvent(c.At(key), e, h.number, rpc);
    }
  }

  /**
   The event is what the k-th happening is to this service, and unless that happened without this driver, an RPC does it
   whose tenant's service was this one when it came in.
   */
  ghost predicate Causes(setup: Setup, c: Cluster, happenings: seq<Happening>, k: nat, key: BackendKey, e: Event)
    requires k < |happenings|
  {
    var before := ClusterRun(setup, c, happenings[..k]);
    && Reaches(setup, before, happenings[k]) == Some((key, e))
    && (!happenings[k].Local? ==> Rightfully(setup, happenings[..k + 1], before.At(key), key, e))
  }

  lemma {:induction false} RunOfParts(setup: Setup, c: Cluster, xs: seq<Happening>, ys: seq<Happening>)
    ensures ClusterRun(setup, c, xs + ys) == ClusterRun(setup, ClusterRun(setup, c, xs), ys)
    decreases |xs|
  {
    if xs == [] {
      assert xs + ys == ys;
    } else {
      assert (xs + ys)[1..] == xs[1..] + ys;
      RunOfParts(setup, ClusterStep(setup, c, xs[0]), xs[1..], ys);
    }
  }

  /** Every event of the sub-run is what some happening is to the service. */
  lemma {:induction false} ProjectedIsSeen(setup: Setup, c: Cluster, happenings: seq<Happening>, key: BackendKey,
                                           j: nat) returns (k: nat)
    requires j < |Projected(setup, c, happenings, key)|
    ensures k < |happenings|
    ensures Reaches(setup, ClusterRun(setup, c, happenings[..k]), happenings[k])
            == Some((key, Projected(setup, c, happenings, key)[j]))
    decreases |happenings|
  {
    var seen := Seen(setup, c, happenings[0], key);
    if j < |seen| {
      k := 0;
      assert happenings[..0] == [];
    } else {
      k := ProjectedIsSeen(setup, ClusterStep(setup, c, happenings[0]), happenings[1..], key, j - |seen|);
      k := k + 1;
      assert happenings[..k] == [happenings[0]] + happenings[1..][..k - 1];
      assert happenings[..k][1..] == happenings[1..][..k - 1];
    }
  }

  /**
   Whatever this driver does to a service, in every run: an RPC does it, on its own process and in its own slot, that
   came in when its tenant's Secret led to this very service.
   */
  lemma DriverActsRightfully(setup: Setup, c: Cluster, happenings: seq<Happening>, key: BackendKey, j: nat)
    returns (k: nat)
    requires c.handles == map[] && j < |Projected(setup, c, happenings, key)|
    ensures k < |happenings| && Causes(setup, c, happenings, k, key, Projected(setup, c, happenings, key)[j])
  {
    k := ProjectedIsSeen(setup, c, happenings, key, j);
    RunIsRightful(setup, c, [], happenings[..k]);
    assert [] + happenings[..k] == happenings[..k];
    if !happenings[k].Local? {
      StepReachesRightfully(setup, ClusterRun(setup, c, happenings[..k]), happenings[..k], happenings[k]);
      assert happenings[..k + 1] == happenings[..k] + [happenings[k]];
    }
  }

  /** These are the numbers of the RPCs that come in for this service. */
  predicate ComeFor(setup: Setup, happenings: seq<Happening>, own: set<nat>, key: BackendKey) {
    forall i | 0 <= i < |happenings| && happenings[i].Arrive? ::
      happenings[i].number in own <==> Target(setup, happenings[i].params, happenings[i].secrets) == Some(key)
  }

  /** The happening is about one of these RPCs, or about this service without this driver. */
  predicate Concerns(h: Happening, own: set<nat>, key: BackendKey) {
    match h
    case Arrive(_, number, _, _, _) => number in own
    case Proceed(_, number, _) => number in own
    case Drop(_, number) => number in own
    case Local(there, _) => there == key
  }

  /** The run without everybody else's RPCs. */
  function Alone(happenings: seq<Happening>, own: set<nat>, key: BackendKey): seq<Happening> {
    if happenings == [] then []
    else (if Concerns(happenings[0], own, key) then [happenings[0]] else []) + Alone(happenings[1..], own, key)
  }

  /** The same of these RPCs are in hand, with the same clients, and nobody else's are in the second place. */
  predicate SameHands(handles: map<nat, Handle>, alone: map<nat, Handle>, own: set<nat>, key: BackendKey) {
    && (forall n | n in own :: n in handles <==> n in alone)
    && (forall n | n in own && n in handles :: handles[n] == alone[n] && handles[n].key == key)
    && (forall n | n in alone :: n in own)
    && forall n | n in handles && handles[n].key == key :: n in own
  }

  /** The one cluster is at this service what the other one is, where nobody else's RPCs are in hand. */
  predicate Twins(c: Cluster, alone: Cluster, own: set<nat>, key: BackendKey) {
    c.At(key) == alone.At(key) && SameHands(c.handles, alone.handles, own, key)
  }

  lemma TwinsReachAlike(setup: Setup, c: Cluster, alone: Cluster, h: Happening, own: set<nat>, key: BackendKey)
    requires Twins(c, alone, own, key) && ComeFor(setup, [h], own, key)
    ensures Concerns(h, own, key) ==> Reaches(setup, alone, h) == Reaches(setup, c, h)
    ensures Reaches(setup, c, h).Some? ==> (Reaches(setup, c, h).value.0 == key <==> Concerns(h, own, key))
  {
    assert [h][0] == h;
    if h.Local? && h.key == key {
      forall slot ensures Holds(c, key, slot) <==> Holds(alone, key, slot) {
      }
    }
  }

  lemma TwinsMoveAlike(setup: Setup, c: Cluster, alone: Cluster, h: Happening, own: set<nat>, key: BackendKey)
    requires Twins(c, alone, own, key) && ComeFor(setup, [h], own, key)
    ensures ClusterStep(setup, c, h).At(key)
            == (if Concerns(h, own, key) then ClusterStep(setup, alone, h) else alone).At(key)
  {
    TwinsReachAlike(setup, c, alone, h, own, key);
    StepAtKey(setup, c, h, key);
    StepAtKey(setup, alone, h, key);
  }

  lemma TwinsHoldAlike(setup: Setup, c: Cluster, alone: Cluster, h: Happening, own: set<nat>, key: BackendKey)
    requires Twins(c, alone, own, key) && ComeFor(setup, [h], own, key)
    ensures SameHands(Held(setup, c, h), if Concerns(h, own, key) then Held(setup, alone, h) else alone.handles,
                      own, key)
  {
    TwinsReachAlike(setup, c, alone, h, own, key);
    assert [h][0] == h;
  }

  lemma StepHolds(setup: Setup, c: Cluster, h: Happening)
    ensures ClusterStep(setup, c, h).handles == Held(setup, c, h)
  {
  }

  lemma TwinsStepAlike(setup: Setup, c: Cluster, alone: Cluster, h: Happening, own: set<nat>, key: BackendKey)
    requires Twins(c, alone, own, key) && ComeFor(setup, [h], own, key)
    ensures Twins(ClusterStep(setup, c, h), if Concerns(h, own, key) then ClusterStep(setup, alone, h) else alone,
                  own, key)
  {
    TwinsMoveAlike(setup, c, alone, h, own, key);
    TwinsHoldAlike(setup, c, alone, h, own, key);
    StepHolds(setup, c, h);
    StepHolds(setup, alone, h);
  }

  lemma {:induction false} TwinsRunAlike(setup: Setup, c: Cluster, alone: Cluster, happenings: seq<Happening>,
                                         own: set<nat>, key: BackendKey)
    requires Twins(c, alone, own, key) && ComeFor(setup, happenings, own, key)
    ensures Twins(ClusterRun(setup, c, happenings), ClusterRun(setup, alone, Alone(happenings, own, key)), own, key)
    decreases |happenings|
  {
    if happenings != [] {
      var h := happenings[0];
      TwinsStepAlike(setup, c, alone, h, own, key);
      var alone' := if Concerns(h, own, key) then ClusterStep(setup, alone, h) else alone;
      TwinsRunAlike(setup, ClusterStep(setup, c, h), alone', happenings[1..], own, key);
      var kept, rest := if Concerns(h, own, key) then [h] else [], Alone(happenings[1..], own, key);
      RunOfParts(setup, alone, kept, rest);
      assert [h][1..] == [];
    }
  }

  /**
   RPCs that lead to other services, and those of tenants that cannot be loaded, might as well not be there: in every
   run, a service and the RPCs in hand at it end up as without them.
   */
  lemma TenantsAreIndependent(setup: Setup, c: Cluster, happenings: seq<Happening>, own: set<nat>, key: BackendKey)
    requires c.handles == map[] && ComeFor(setup, happenings, own, key)
    ensures var together := ClusterRun(setup, c, happenings);
            var alone := ClusterRun(setup, c, Alone(happenings, own, key));
            && together.At(key) == alone.At(key)
            && forall n | n in own :: (n in together.handles <==> n in alone.handles)
                                      && (n in together.handles ==> together.handles[n] == alone.handles[n])
  {
    TwinsRunAlike(setup, c, c, happenings, own, key);
  }

  /** The RPC's tenant cannot be loaded when it comes in. */
  predicate Unloadable(setup: Setup, h: Happening) {
    h.Arrive? && Target(setup, h.params, h.secrets) == None
  }

  /** The numbers of such RPCs. */
  predicate TurnsAway(setup: Setup, happenings: seq<Happening>, number: nat) {
    exists i | 0 <= i < |happenings| :: Unloadable(setup, happenings[i]) && happenings[i].number == number
  }

  lemma TurnsAwaySooner(setup: Setup, happenings: seq<Happening>, number: nat)
    requires happenings != []
    ensures TurnsAway(setup, happenings, number)
            <==> (Unloadable(setup, happenings[0]) && happenings[0].number == number)
                 || TurnsAway(setup, happenings[1..], number)
  {
    if TurnsAway(setup, happenings, number) {
      var i :| 0 <= i < |happenings| && Unloadable(setup, happenings[i]) && happenings[i].number == number;
      assert i > 0 ==> happenings[1..][i - 1] == happenings[i];
    }
    if TurnsAway(setup, happenings[1..], number) {
      var i :| 0 <= i < |happenings[1..]| && Unloadable(setup, happenings[1..][i])
               && happenings[1..][i].number == number;
      assert happenings[i + 1] == happenings[1..][i];
    }
  }

  /** Exactly the RPCs whose tenant cannot be loaded are answered Unavailable on arrival. */
  lemma {:induction false} TurnedAwayExactly(setup: Setup, c: Cluster, happenings: seq<Happening>, number: nat)
    ensures number in ClusterRun(setup, c, happenings).turnedAway
            <==> number in c.turnedAway || TurnsAway(setup, happenings, number)
    ensures TurnsAway(setup, happenings, number) ==>
              var reply := ClusterRun(setup, c, happenings).turnedAway[number];
              reply.Failed? && reply.code == Unavailable
    ensures !TurnsAway(setup, happenings, number) && number in c.turnedAway ==>
              ClusterRun(setup, c, happenings).turnedAway[number] == c.turnedAway[number]
    decreases |happenings|
  {
    if happenings != [] {
      TurnsAwaySooner(setup, happenings, number);
      TurnedAwayExactly(setup, ClusterStep(setup, c, happenings[0]), happenings[1..], number);
    }
  }

  /** The run without them. */
  function Loadable(setup: Setup, happenings: seq<Happening>): seq<Happening> {
    if happenings == [] then []
    else (if Unloadable(setup, happenings[0]) then [] else [happenings[0]]) + Loadable(setup, happenings[1..])
  }

  /** Without them every service and every RPC in hand ends up the same. */
  lemma {:induction false} TurnedAwayTouchNothing(setup: Setup, c: Cluster, c': Cluster, happenings: seq<Happening>)
    requires c.systems == c'.systems && c.handles == c'.handles
    ensures ClusterRun(setup, c, happenings).systems == ClusterRun(setup, c', Loadable(setup, happenings)).systems
    ensures ClusterRun(setup, c, happenings).handles == ClusterRun(setup, c', Loadable(setup, happenings)).handles
    decreases |happenings|
  {
    if happenings != [] {
      var h := happenings[0];
      var kept := if Unloadable(setup, h) then [] else [h];
      UnloadableTouchesNothing(setup, c, c', h);
      TurnedAwayTouchNothing(setup, ClusterStep(setup, c, h), ClusterRun(setup, c', kept), happenings[1..]);
      RunOfParts(setup, c', kept, Loadable(setup, happenings[1..]));
    }
  }

  lemma ReachesAlike(setup: Setup, c: Cluster, c': Cluster, h: Happening)
    requires c.systems == c'.systems && c.handles == c'.handles
    ensures Reaches(setup, c, h) == Reaches(setup, c', h)
  {
  }

  lemma StepsAlike(setup: Setup, c: Cluster, c': Cluster, h: Happening)
    requires c.systems == c'.systems && c.handles == c'.handles
    ensures ClusterStep(setup, c, h).systems == ClusterStep(setup, c', h).systems
    ensures ClusterStep(setup, c, h).handles == ClusterStep(setup, c', h).handles
  {
    ReachesAlike(setup, c, c', h);
  }

  lemma UnloadableTouchesNothing(setup: Setup, c: Cluster, c': Cluster, h: Happening)
    requires c.systems == c'.systems && c.handles == c'.handles
    ensures var next := ClusterRun(setup, c', if Unloadable(setup, h) then [] else [h]);
            ClusterStep(setup, c, h).systems == next.systems && ClusterStep(setup, c, h).handles == next.handles
  {
    if !Unloadable(setup, h) {
      StepsAlike(setup, c, c', h);
      assert [h][1..] == [];
    }
  }

  predicate ClusterTimely(now: Tick, happenings: seq<Happening>)
    decreases |happenings|
  {
    happenings == [] || (now <= happenings[0].When() && ClusterTimely(happenings[0].When() + 1, happenings[1..]))
  }

  lemma SeenTimely(setup: Setup, c: Cluster, h: Happening, key: BackendKey, now: Tick)
    requires now <= h.When()
    ensures Timely(now, Seen(setup, c, h, key)) && Clock(now, Seen(setup, c, h, key)) <= h.When() + 1
  {
    if Reaches(setup, c, h).Some? {
      assert [Reaches(setup, c, h).value.1][1..] == [];
    }
  }

  lemma {:induction false} ProjectedTimely(setup: Setup, c: Cluster, happenings: seq<Happening>, key: BackendKey,
                                           now: Tick)
    requires ClusterTimely(now, happenings)
    ensures Timely(now, Projected(setup, c, happenings, key))
    decreases |happenings|
  {
    if happenings != [] {
      var c', next := ClusterStep(setup, c, happenings[0]), happenings[0].When() + 1;
      var seen, rest := Seen(setup, c, happenings[0], key), Projected(setup, c', happenings[1..], key);
      SeenTimely(setup, c, happenings[0], key, now);
      ProjectedTimely(setup, c', happenings[1..], key, next);
      TimelyEarlier(next, Clock(now, seen), rest);
      RunConcat(c.At(key), now, seen, rest);
    }
  }

  /** So what holds of every run against one service holds of each tenant, whatever all the others do meanwhile. */
  lemma TenantAccessHolds(setup: Setup, c: Cluster, happenings: seq<Happening>, key: BackendKey,
                          accounts: set<string>, buckets: set<string>, now: Tick, a: string)
    requires Safe(c.At(key), accounts, buckets, now) && ClusterTimely(now, happenings)
    requires InScope(Projected(setup, c, happenings, key), accounts, buckets)
    requires var s := ClusterRun(setup, c, happenings).At(key);
             Accessing(a) in s.processes && s.processes[Accessing(a)].stage.Done?
    ensures var s := ClusterRun(setup, c, happenings).At(key);
            var Process(rpc, Done(outcome)) := s.processes[Accessing(a)];
            && (rpc.Grant? && outcome.Granted? ==>
                  && outcome.bucketInfos == rpc.buckets
                  && a in s.st.users && s.st.users[a] == outcome.credentials
                  && forall b | b in rpc.buckets :: Bound(s.st, b, a))
            && (rpc.Revoke? && outcome.Revoked? ==>
                  a !in s.st.users && forall b | b in rpc.buckets :: Gone(s.st, b, a))
  {
    TenantProjection(setup, c, happenings, key);
    ProjectedTimely(setup, c, happenings, key, now);
    InterleavingSafety(c.At(key), Projected(setup, c, happenings, key), accounts, buckets, now, a);
  }
}
