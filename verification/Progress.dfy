/** Once the service answers again, access RPCs succeed, from whatever earlier attempts have left behind. */
module Progress {
  import opened Errors
  import opened Names
  import opened Ontap
  import opened Rpc
  import opened Slices
  import opened Interleaving
  import opened Credentials
  import opened Linkage
  import opened Walks

  predicate Succeeded(p: Process) {
    && p.stage.Done?
    && match p.rpc
       case Grant(_, _) => p.stage.outcome.Granted?
       case Revoke(_, _) => p.stage.outcome.Revoked?
       case _ => false
  }

  /** The slot's access RPC is in flight or has succeeded. */
  ghost predicate Underway(s: System, slot: Slot) {
    && slot in s.processes && (s.processes[slot].rpc.Grant? || s.processes[slot].rpc.Revoke?)
    && (s.Busy(slot) || Succeeded(s.processes[slot]))
  }

  /**
   If the event is a call of this slot's it is carried out and answered, and finds the bucket it looks for; nor is the
   slot's RPC abandoned, or replaced once it is done.
   */
  ghost predicate Undisturbed(s: System, slot: Slot, e: Event) {
    match e.action
    case Begin(rpc, number) => SlotOf(rpc, number) == slot ==> s.Busy(slot)
    case Call(at, fate) => at == slot && s.Busy(slot) ==>
      var p := s.processes[slot];
      Heard(s.st, NextRequest(p), fate) && (p.stage.Probing? ==> BucketNamed(s.st, p.rpc.buckets[p.stage.i]))
    case Finish(_, _) => true
    case Abandon(at) => at != slot
  }

  ghost predicate AllUndisturbed(s: System, slot: Slot, events: seq<Event>)
    decreases |events|
  {
    events == [] || (Undisturbed(s, slot, events[0]) && AllUndisturbed(Step(s, events[0]), slot, events[1..]))
  }

  /** How many of the events are calls of this slot's. */
  function OwnCalls(slot: Slot, events: seq<Event>): nat {
    if events == [] then 0
    else (if events[0].action.Call? && events[0].action.slot == slot then 1 else 0) + OwnCalls(slot, events[1..])
  }

  /** How many answered calls a Grant still needs at most: six for each bucket. */
  function CallsLeft(p: Process): nat
    requires p.rpc.Grant?
  {
    var n := |p.rpc.buckets|;
    match p.stage
    case Probing(i) => if i < n then 6 * (n - i) else 0
    case PostingPolicy(i) => if i < n then 6 * (n - i) - 1 else 0
    case PatchingPolicy(i) => if i < n then 6 * (n - i) - 2 else 0
    case PostingUser(i) => if i < n then 6 * (n - i) - 3 else 0
    case PatchingUser(i) => if i < n then 6 * (n - i) - 4 else 0
    case PostingGroup(i, _) => if i < n then 6 * (n - i) - 5 else 0
    case _ => 0
  }

  lemma StoredBucketIsListed(st: State, name: string, fate: Fate)
    requires fate.Answered? && Honest(st, ListBuckets(name), fate) && BucketNamed(st, name)
    ensures fate.buckets != []
  {
  }

  /** What a Grant is about to patch is there. */
  ghost predicate Patchable(st: State, p: Process) {
    match p.stage
    case PatchingPolicy(i) => p.Running() ==> PolicyName(p.rpc.buckets[i], p.rpc.account) in st.policies
    case PatchingUser(_) => p.Running() ==> p.rpc.account in st.users
    case _ => true
  }

  /** Nothing but the state decides the reply to an answered Grant call, and it never refuses one. */
  lemma AnsweredReply(st: State, p: Process, fate: Fate, tick: Tick)
    requires p.Running() && p.rpc.Grant? && Patchable(st, p) && Heard(st, NextRequest(p), fate)
    requires p.stage.Probing? ==> BucketNamed(st, p.rpc.buckets[p.stage.i])
    ensures var r := Serve(st, NextRequest(p), fate, tick).1;
            && (r.Fault? ==> IsHttpStatus(r.error, CONFLICT)
                             && (p.stage.PostingPolicy? || p.stage.PostingUser? || p.stage.PostingGroup?))
            && (p.stage.Probing? ==> r.Buckets? && r.buckets != [])
  {
    if p.stage.Probing? {
      StoredBucketIsListed(st, p.rpc.buckets[p.stage.i], fate);
    }
  }

  lemma ReplyAdvances(p: Process, r: Response)
    requires p.Running() && p.rpc.Grant? && Answers(NextRequest(p), r)
    requires r.Fault? ==> IsHttpStatus(r.error, CONFLICT)
                          && (p.stage.PostingPolicy? || p.stage.PostingUser? || p.stage.PostingGroup?)
    requires p.stage.Probing? ==> r.Buckets? && r.buckets != []
    ensures var q := Resume(p, r);
            if q.stage.Done? then q.stage.outcome.Granted? else CallsLeft(q) < CallsLeft(p)
  {
  }

  /** An answered call never fails a Grant over stored buckets, and brings it closer to its end. */
  lemma AnsweredCallAdvances(st: State, p: Process, fate: Fate, tick: Tick)
    requires p.Running() && p.rpc.Grant? && Patchable(st, p) && Heard(st, NextRequest(p), fate)
    requires p.stage.Probing? ==> BucketNamed(st, p.rpc.buckets[p.stage.i])
    ensures var q := Resume(p, Serve(st, NextRequest(p), fate, tick).1);
            if q.stage.Done? then q.stage.outcome.Granted? else CallsLeft(q) < CallsLeft(p)
  {
    AnsweredReply(st, p, fate, tick);
    ReplyAdvances(p, Serve(st, NextRequest(p), fate, tick).1);
  }

  /** A Grant turns to a PATCH only when its POST met the object. */
  lemma OwnCallIsPatchable(st: State, p: Process, fate: Fate, tick: Tick)
    requires p.Running() && p.rpc.Grant?
    ensures var (st', r) := Serve(st, NextRequest(p), fate, tick);
            Patchable(st', Resume(p, r))
  {
  }

  /** Everybody stands in their own slot, and the account's Grant may patch. */
  ghost predicate Placed(s: System, a: string, accounts: set<string>, buckets: set<string>) {
    && (forall slot | slot in s.processes :: InSlot(slot, s.processes[slot].rpc, accounts, buckets))
    && (Accessing(a) in s.processes ==> Patchable(s.st, s.processes[Accessing(a)]))
  }

  /** Nobody else deletes what a Grant is about to patch. */
  lemma OtherCallKeepsPatchable(s: System, slot: Slot, a: string, fate: Fate, tick: Tick, accounts: set<string>,
                                buckets: set<string>)
    requires PoliciesApart(accounts, buckets) && Placed(s, a, accounts, buckets) && s.Busy(slot)
    requires slot != Accessing(a) && Accessing(a) in s.processes
    ensures Patchable(Serve(s.st, NextRequest(s.processes[slot]), fate, tick).0, s.processes[Accessing(a)])
  {
    var p, q := s.processes[slot], s.processes[Accessing(a)];
    assert InSlot(slot, p.rpc, accounts, buckets) && InSlot(Accessing(a), q.rpc, accounts, buckets);
    match slot
    case Bucketing(_) => BucketRequestKeepsSlices(s.st, NextRequest(p), fate, tick);
    case Accessing(other) =>
      WritesOwnUser(p);
      OtherUserKept(s.st, NextRequest(p), fate, tick, a);
      CallIsAside(s.st, p, other, buckets, fate, tick);
      if q.stage.PatchingPolicy? && q.Running() {
        NotOwned(other, q.rpc.buckets[q.stage.i], a, accounts, buckets);
      }
  }

  lemma SameObjectsPatchable(st: State, st': State, p: Process)
    requires Patchable(st, p) && st'.policies == st.policies && st'.users == st.users
    ensures Patchable(st', p)
  {
  }

  lemma LaunchedIsPatchable(st: State, rpc: Rpc)
    ensures Patchable(st, Launch(rpc))
  {
  }

  lemma StepKeepsPatchable(s: System, e: Event, a: string, accounts: set<string>, buckets: set<string>)
    requires PoliciesApart(accounts, buckets) && Placed(s, a, accounts, buckets)
    requires Accessing(a) in Step(s, e).processes && Accessing(a) in s.processes
    requires s.Busy(Accessing(a)) ==> s.processes[Accessing(a)].rpc.Grant?
    ensures Patchable(Step(s, e).st, Step(s, e).processes[Accessing(a)])
  {
    if e.action.Call? && s.Busy(e.action.slot) {
      if e.action.slot == Accessing(a) {
        OwnCallIsPatchable(s.st, s.processes[e.action.slot], e.action.fate, e.tick);
      } else {
        OtherCallKeepsPatchable(s, e.action.slot, a, e.action.fate, e.tick, accounts, buckets);
      }
    } else {
      OtherEventsChangeLittle(s, e);
      SameObjectsPatchable(s.st, Step(s, e).st, s.processes[Accessing(a)]);
      if e.action.Begin? {
        LaunchedIsPatchable(Step(s, e).st, e.action.rpc);
      }
    }
  }

  lemma StepKeepsSlots(s: System, e: Event, accounts: set<string>, buckets: set<string>)
    requires forall slot | slot in s.processes :: InSlot(slot, s.processes[slot].rpc, accounts, buckets)
    requires Scoped(e, accounts, buckets)
    ensures forall slot | slot in Step(s, e).processes ::
              InSlot(slot, Step(s, e).processes[slot].rpc, accounts, buckets)
  {
  }

  /** Whatever happens elsewhere leaves the Grant where it is; its own calls bring it closer to its end. */
  lemma StepAdvances(s: System, e: Event, slot: Slot)
    requires Underway(s, slot) && s.processes[slot].rpc.Grant? && Undisturbed(s, slot, e)
    requires Patchable(s.st, s.processes[slot])
    ensures Underway(Step(s, e), slot) && Step(s, e).processes[slot].rpc == s.processes[slot].rpc
    ensures Step(s, e).Busy(slot) ==>
              CallsLeft(Step(s, e).processes[slot]) + OwnCalls(slot, [e]) <= CallsLeft(s.processes[slot])
  {
    assert [e][1..] == [];
    if e.action.Call? && e.action.slot == slot && s.Busy(slot) {
      AnsweredCallAdvances(s.st, s.processes[slot], e.action.fate, e.tick);
    }
  }

  /**
   From any state failed attempts may leave behind, whatever other RPCs and jobs do in between: a Grant whose own calls
   are all answered, and which finds its buckets stored, succeeds within six calls for each bucket, as long as no two
   accounts share a policy name. Its own buckets' names may collide, and any groups may be there.
   */
  lemma {:induction false} AnsweredGrantSucceeds(s: System, events: seq<Event>, a: string,
                                                 accounts: set<string>, buckets: set<string>)
    requires PoliciesApart(accounts, buckets) && Placed(s, a, accounts, buckets)
    requires InScope(events, accounts, buckets) && Underway(s, Accessing(a)) && s.processes[Accessing(a)].rpc.Grant?
    requires AllUndisturbed(s, Accessing(a), events)
    requires OwnCalls(Accessing(a), events) >= CallsLeft(s.processes[Accessing(a)])
    ensures Accessing(a) in Run(s, events).processes && Succeeded(Run(s, events).processes[Accessing(a)])
    ensures Run(s, events).processes[Accessing(a)].rpc == s.processes[Accessing(a)].rpc
    decreases |events|
  {
    if events != [] {
      assert Scoped(events[0], accounts, buckets);
      StepAdvances(s, events[0], Accessing(a));
      StepKeepsSlots(s, events[0], accounts, buckets);
      StepKeepsPatchable(s, events[0], a, accounts, buckets);
      DoneStaysDone(s, events[0], Accessing(a));
      AnsweredGrantSucceeds(Step(s, events[0]), events[1..], a, accounts, buckets);
    } else {
      RunningHasCallsLeft(s.processes[Accessing(a)]);
    }
  }

  lemma DoneStaysDone(s: System, e: Event, slot: Slot)
    requires Underway(s, slot) && Undisturbed(s, slot, e)
    ensures !s.Busy(slot) ==> slot in Step(s, e).processes && Step(s, e).processes[slot] == s.processes[slot]
  {
  }

  lemma RunningHasCallsLeft(p: Process)
    requires p.rpc.Grant?
    ensures p.Running() <==> CallsLeft(p) > 0
  {
  }

  lemma {:induction false} UndisturbedOn(s: System, slot: Slot, xs: seq<Event>, ys: seq<Event>)
    ensures AllUndisturbed(s, slot, xs + ys) <==> AllUndisturbed(s, slot, xs) && AllUndisturbed(Run(s, xs), slot, ys)
    ensures OwnCalls(slot, xs + ys) == OwnCalls(slot, xs) + OwnCalls(slot, ys)
    decreases |xs|
  {
    if xs == [] {
      assert xs + ys == ys;
    } else {
      assert (xs + ys)[1..] == xs[1..] + ys;
      UndisturbedOn(Step(s, xs[0]), slot, xs[1..], ys);
    }
  }

  /** Another slot's RPC disturbs nobody. */
  lemma {:induction false} OthersDoNotDisturb(s: System, slot: Slot, other: Slot, events: seq<Event>)
    requires About(events, other) && slot != other
    ensures AllUndisturbed(s, slot, events)
    decreases |events|
  {
    if events != [] {
      OthersDoNotDisturb(Step(s, events[0]), slot, other, events[1..]);
    }
  }

  lemma OneOwnCall(s: System, slot: Slot, e: Event)
    requires e.action.Call? && e.action.slot == slot
    ensures AllUndisturbed(s, slot, [e]) <==> Undisturbed(s, slot, e)
    ensures OwnCalls(slot, [e]) == 1
  {
    assert [e][1..] == [];
  }

  lemma CallOfTheDone(s: System, slot: Slot, e: Event)
    requires slot in s.processes && s.processes[slot].stage.Done? && e.action.Call? && e.action.slot == slot
    ensures Step(s, e) == s && Undisturbed(s, slot, e)
  {
  }

  /** Further calls of an RPC that is done. */
  lemma {:induction false} CallsOfTheDone(s: System, slot: Slot, n: nat) returns (events: seq<Event>)
    requires slot in s.processes && s.processes[slot].stage.Done?
    ensures OnlyCalls(events) && Run(s, events) == s
    ensures AllUndisturbed(s, slot, events) && OwnCalls(slot, events) == n
  {
    if n == 0 {
      events := [];
    } else {
      var rest := CallsOfTheDone(s, slot, n - 1);
      var e := Event(0, Call(slot, PLAIN_ANSWER));
      CallOfTheDone(s, slot, e);
      RunOne(s, 0, e);
      OneOwnCall(s, slot, e);
      UndisturbedOn(s, slot, [e], rest);
      RunConcat(s, 0, [e], rest);
      events := [e] + rest;
    }
  }

  /** A policy of this name is there, and one Grant has just begun. */
  function Leftover(b: string, a: string): System {
    System(State(map[0 := Bucket(b, 0, "", false)], map[], map[PolicyName(b, a) := PolicyFor(b)], map[], map[]),
           map[Accessing(a) := Launch(Grant(a, [b]))])
  }

  /** The Grant finds its bucket and meets the policy. */
  lemma ProbeAndConflict(b: string, a: string) returns (events: seq<Event>)
    ensures OnlyCalls(events)
    ensures var s := Leftover(b, a);
            && Run(s, events) == System(s.st, map[Accessing(a) := Process(Grant(a, [b]), PatchingPolicy(0))])
            && AllUndisturbed(s, Accessing(a), events) && OwnCalls(Accessing(a), events) == 2
  {
    var s, slot := Leftover(b, a), Accessing(a);
    var e := Event(0, Call(slot, Answered([BucketRecord(0, b, 0)], [], "")));
    var e' := Event(1, Call(slot, PLAIN_ANSWER));
    events := [e] + [e'];
    assert 0 in s.st.buckets && s.st.buckets[0].name == b;
    var s1 := System(s.st, map[slot := Process(Grant(a, [b]), PostingPolicy(0))]);
    assert Step(s, e) == s1;
    RunOne(s, 0, e);
    RunOne(s1, 1, e');
    RunConcat(s, 0, [e], [e']);
    OneOwnCall(s, slot, e);
    OneOwnCall(s1, slot, e');
    UndisturbedOn(s, slot, [e], [e']);
  }

  lemma PatchMissing(s: System, slot: Slot, tick: Tick) returns (e: Event)
    requires s.Busy(slot) && s.processes[slot].stage.PatchingPolicy?
    requires PolicyName(s.processes[slot].rpc.buckets[s.processes[slot].stage.i], s.processes[slot].rpc.account)
             !in s.st.policies
    ensures e.action.Call? && e.action.slot == slot && Undisturbed(s, slot, e)
    ensures slot in Step(s, e).processes && Step(s, e).processes[slot].rpc == s.processes[slot].rpc
    ensures Step(s, e).processes[slot].stage.Done? && !Succeeded(Step(s, e).processes[slot])
  {
    e := Event(tick, Call(slot, PLAIN_ANSWER));
  }

  /** A Grant whose calls are all answered, over a stored bucket, with at least as many of them as it may need. */
  ghost predicate Attempt(s: System, events: seq<Event>, a: string, accounts: set<string>, buckets: set<string>) {
    && Placed(s, a, accounts, buckets) && InScope(events, accounts, buckets)
    && Underway(s, Accessing(a)) && s.processes[Accessing(a)].rpc.Grant?
    && AllUndisturbed(s, Accessing(a), events)
    && OwnCalls(Accessing(a), events) >= CallsLeft(s.processes[Accessing(a)])
  }

  ghost predicate Succeeds(s: System, a: string) {
    Accessing(a) in s.processes && Succeeded(s.processes[Accessing(a)])
  }

  ghost predicate AlwaysSucceeds(accounts: set<string>, buckets: set<string>) {
    forall s, events, a | Attempt(s, events, a, accounts, buckets) :: Succeeds(Run(s, events), a)
  }

  /**
   Two accounts that share a policy name, and a Revoke of the one while a Grant of the other is about to patch it: the
   Grant fails, though all its calls are answered.
   */
  lemma RevokeBeforePatch(b: string, a: string, b': string, a': string) returns (events: seq<Event>)
    requires a != a' && PolicyName(b, a) == PolicyName(b', a')
    ensures forall accounts, buckets :: {a, a'} <= accounts && {b, b'} <= buckets ==>
              Attempt(Leftover(b, a), events, a, accounts, buckets)
    ensures !Succeeds(Run(Leftover(b, a), events), a)
  {
    var s, slot := Leftover(b, a), Accessing(a);
    var meeting := ProbeAndConflict(b, a);
    var s1 := Run(s, meeting);
    var revoking := RevokeOne(s1, a', b', 2);
    var s2 := Run(s1, revoking);
    OthersDoNotDisturb(s1, slot, Accessing(a'), revoking);
    var patch := PatchMissing(s2, slot, 6);
    RunOne(s2, 0, patch);
    OneOwnCall(s2, slot, patch);
    var rest := CallsOfTheDone(Run(s2, [patch]), slot, 3);
    UndisturbedOn(s2, slot, [patch], rest);
    RunConcat(s2, 0, [patch], rest);
    events := ThreeParts(s, slot, meeting, revoking, [patch] + rest);
    forall accounts, buckets | {a, a'} <= accounts && {b, b'} <= buckets
      ensures Attempt(s, events, a, accounts, buckets)
    {
      assert a in accounts && a' in accounts && b in buckets && b' in buckets;
      ThreePartsInScope(meeting, revoking, [patch] + rest, accounts, buckets);
      LeftoverIsPlaced(b, a, accounts, buckets);
    }
  }

  lemma LeftoverIsPlaced(b: string, a: string, accounts: set<string>, buckets: set<string>)
    requires a in accounts && b in buckets
    ensures var s := Leftover(b, a);
            && Placed(s, a, accounts, buckets) && Underway(s, Accessing(a)) && s.processes[Accessing(a)].rpc.Grant?
            && CallsLeft(s.processes[Accessing(a)]) == 6
  {
    assert InSlot(Accessing(a), Grant(a, [b]), accounts, buckets);
  }

  lemma ThreePartsInScope(xs: seq<Event>, ys: seq<Event>, zs: seq<Event>, accounts: set<string>, buckets: set<string>)
    requires OnlyCalls(xs) && InScope(ys, accounts, buckets) && OnlyCalls(zs)
    ensures InScope(xs + (ys + zs), accounts, buckets)
  {
    CallsAreInScope(xs, accounts, buckets);
    CallsAreInScope(zs, accounts, buckets);
    ScopeOn(ys, zs, accounts, buckets);
    ScopeOn(xs, ys + zs, accounts, buckets);
  }

  lemma ThreeParts(s: System, slot: Slot, xs: seq<Event>, ys: seq<Event>, zs: seq<Event>) returns (events: seq<Event>)
    requires AllUndisturbed(s, slot, xs) && AllUndisturbed(Run(s, xs), slot, ys)
    requires AllUndisturbed(Run(Run(s, xs), ys), slot, zs)
    ensures events == xs + (ys + zs) && Run(s, events) == Run(Run(Run(s, xs), ys), zs)
    ensures AllUndisturbed(s, slot, events)
    ensures OwnCalls(slot, events) >= OwnCalls(slot, xs) + OwnCalls(slot, zs)
  {
    events := xs + (ys + zs);
    UndisturbedOn(Run(s, xs), slot, ys, zs);
    UndisturbedOn(s, slot, xs, ys + zs);
    RunConcat(Run(s, xs), 0, ys, zs);
    RunConcat(s, 0, xs, ys + zs);
  }

  /** Answered Grants always succeed exactly when no two accounts share a policy name. */
  lemma SucceedsExactly(accounts: set<string>, buckets: set<string>)
    ensures AlwaysSucceeds(accounts, buckets) <==> PoliciesApart(accounts, buckets)
  {
    if PoliciesApart(accounts, buckets) {
      forall s, events, a | Attempt(s, events, a, accounts, buckets) ensures Succeeds(Run(s, events), a) {
        AnsweredGrantSucceeds(s, events, a, accounts, buckets);
      }
    } else {
      var a, a', b, b' :| a in accounts && a' in accounts && b in buckets && b' in buckets
                          && PolicyName(b, a) == PolicyName(b', a') && a != a';
      var events := RevokeBeforePatch(b, a, b', a');
      assert {a, a'} <= accounts && {b, b'} <= buckets;
    }
  }

  /** How many answered calls a Revoke still needs: three for each bucket, and one for each group yet to be deleted. */
  function DeletionsLeft(p: Process): nat
    requires p.rpc.Revoke?
  {
    var n := |p.rpc.buckets|;
    match p.stage
    case ListingGroups(i) => if i < n then 3 * (n - i) else 0
    case DeletingGroups(i, ids) => if i < n && ids != [] then 3 * (n - i) - 1 + |ids| else 0
    case DeletingPolicy(i) => if i < n then 3 * (n - i) - 1 else 0
    case DeletingUser(i) => if i < n then 3 * (n - i) - 2 else 0
    case _ => 0
  }

  /** How many groups this event's listing gives the slot's Revoke to delete. */
  function ListedNow(s: System, slot: Slot, e: Event): nat {
    if !e.action.Call? || e.action.slot != slot || !s.Busy(slot) || !e.action.fate.Answered? then 0 else
    match s.processes[slot].stage
    case ListingGroups(_) => |ExactGroups(e.action.fate.groups, NextRequest(s.processes[slot]).name)|
    case _ => 0
  }

  /** And all listings of the run. */
  function Listed(s: System, slot: Slot, events: seq<Event>): nat
    decreases |events|
  {
    if events == [] then 0 else ListedNow(s, slot, events[0]) + Listed(Step(s, events[0]), slot, events[1..])
  }

  /** An answered call never fails a Revoke: what is missing already counts as deleted. */
  lemma AnsweredDeletionAdvances(st: State, p: Process, fate: Fate, tick: Tick)
    requires p.Running() && p.rpc.Revoke? && Heard(st, NextRequest(p), fate)
    ensures var q := Resume(p, Serve(st, NextRequest(p), fate, tick).1);
            && (q.stage.Done? ==> q.stage.outcome.Revoked?)
            && DeletionsLeft(q) + 1 <= DeletionsLeft(p)
               + if p.stage.ListingGroups? then |ExactGroups(fate.groups, NextRequest(p).name)| else 0
  {
  }

  lemma StepDeletes(s: System, e: Event, slot: Slot)
    requires Underway(s, slot) && s.processes[slot].rpc.Revoke? && Undisturbed(s, slot, e)
    ensures Underway(Step(s, e), slot) && Step(s, e).processes[slot].rpc == s.processes[slot].rpc
    ensures s.Busy(slot) ==>
              DeletionsLeft(Step(s, e).processes[slot]) + OwnCalls(slot, [e])
              <= DeletionsLeft(s.processes[slot]) + ListedNow(s, slot, e)
  {
    assert [e][1..] == [];
    if e.action.Call? && e.action.slot == slot && s.Busy(slot) {
      AnsweredDeletionAdvances(s.st, s.processes[slot], e.action.fate, e.tick);
    }
  }

  /**
   From any state, whatever names collide and whatever other RPCs and jobs do in between: a Revoke whose own calls are
   all answered succeeds within three calls for each bucket and one for each group its listings give it.
   */
  lemma {:induction false} AnsweredRevokeSucceeds(s: System, events: seq<Event>, slot: Slot)
    requires Underway(s, slot) && s.processes[slot].rpc.Revoke? && AllUndisturbed(s, slot, events)
    requires s.Busy(slot) ==>
               OwnCalls(slot, events) >= DeletionsLeft(s.processes[slot]) + Listed(s, slot, events)
    ensures slot in Run(s, events).processes && Succeeded(Run(s, events).processes[slot])
    ensures Run(s, events).processes[slot].rpc == s.processes[slot].rpc
    decreases |events|
  {
    if events != [] {
      StepDeletes(s, events[0], slot);
      DoneStaysDone(s, events[0], slot);
      AnsweredRevokeSucceeds(Step(s, events[0]), events[1..], slot);
    } else {
      RunningHasDeletionsLeft(s.processes[slot]);
    }
  }

  lemma RunningHasDeletionsLeft(p: Process)
    requires p.rpc.Revoke?
    ensures p.Running() <==> DeletionsLeft(p) > 0
  {
  }
}
