/** What holds in every run of the engine, from a context newly set up. */
module EngineTheorems {
  import opened Wrappers
  import opened Engine
  import opened EngineInvariants
  import opened EngineRouting
  import opened EngineCalm

  ghost predicate Inv(s: State) {
    && Sound(s)
    && Traced(s)
    && NoneLost(s)
    && Conserved(s.events)
    && (s.gone || WakesDue(s))
    && Closed(s)
  }

  /** No handle outlives the context, and teardown takes every box back. */
  ghost predicate Closed(s: State) {
    && (s.gone ==> s.lib.held == {})
    && (s.gone || (s.stack.Push? && s.stack.top.InTeardown?) ==>
          forall id <- s.mem.slots :: !s.mem.slots[id].hasHandle)
  }

  lemma ClosedKept(s: State, l: Label)
    requires Control(s) && Closed(s) && Legal(s, l)
    ensures Closed(Step(s, l))
  {
    if s.stack.Push? && s.stack.top.InTeardown? {
      ClosedByTeardown(s, l);
    }
  }

  lemma ClosedByTeardown(s: State, l: Label)
    requires Control(s) && Closed(s) && Legal(s, l) && s.stack.Push? && s.stack.top.InTeardown?
    ensures Closed(Step(s, l))
  {
  }

  lemma InvHoldsInitially(role: Role, capacity: nat)
    ensures Inv(Init(role, capacity)) && Calmly(Init(role, capacity))
  {
  }

  lemma InvKept(s: State, l: Label)
    requires Inv(s) && Legal(s, l)
    ensures Inv(Step(s, l))
  {
    ControlKept(s, l);
    OwnershipKept(s, l);
    ExclusiveKept(s, l);
    TracedKept(s, l);
    NoneLostKept(s, l);
    ClosedKept(s, l);
    ConservedKept(s, l);
    if !Step(s, l).gone {
      WakesDueKept(s, l);
    }
  }

  lemma {:induction false} InvKeptByRun(s: State, ls: seq<Label>)
    requires Inv(s) && LegalRun(s, ls)
    ensures Inv(Run(s, ls))
    decreases ls
  {
    if ls != [] {
      InvKept(s, ls[0]);
      InvKeptByRun(Step(s, ls[0]), ls[1..]);
    }
  }

  lemma {:induction false} CalmlyKeptByRun(s: State, ls: seq<Label>)
    requires Inv(s) && Calmly(s) && LegalRun(s, ls) && CalmRun(s, ls)
    ensures Inv(Run(s, ls)) && Calmly(Run(s, ls))
    decreases ls
  {
    if ls != [] {
      InvKept(s, ls[0]);
      CalmlyKept(s, ls[0]);
      CalmlyKeptByRun(Step(s, ls[0]), ls[1..]);
    }
  }

  /** A state some run of a new context gets to. */
  ghost predicate Reachable(s: State) {
    exists role: Role, capacity: nat, ls: seq<Label> ::
      LegalRun(Init(role, capacity), ls) && s == Run(Init(role, capacity), ls)
  }

  /** A state some run gets to in which no refresh was called before a card
      command's submit call had returned. */
  ghost predicate CalmlyReachable(s: State) {
    exists role: Role, capacity: nat, ls: seq<Label> ::
      LegalRun(Init(role, capacity), ls) && CalmRun(Init(role, capacity), ls)
      && s == Run(Init(role, capacity), ls)
  }

  lemma ReachableInv(s: State)
    requires Reachable(s)
    ensures Inv(s)
  {
    var role: Role, capacity: nat, ls: seq<Label> :|
      LegalRun(Init(role, capacity), ls) && s == Run(Init(role, capacity), ls);
    InvHoldsInitially(role, capacity);
    InvKeptByRun(Init(role, capacity), ls);
  }

  lemma CalmlyReachableInv(s: State)
    requires CalmlyReachable(s)
    ensures Inv(s) && Calmly(s)
  {
    var role: Role, capacity: nat, ls: seq<Label> :|
      LegalRun(Init(role, capacity), ls) && CalmRun(Init(role, capacity), ls)
      && s == Run(Init(role, capacity), ls);
    InvHoldsInitially(role, capacity);
    CalmlyKeptByRun(Init(role, capacity), ls);
  }

  // --- history -----------------------------------------------------------

  predicate LaterEvents(e: Events, after: Events) {
    && e.pushed <= after.pushed && e.popped <= after.popped
    && e.dropped <= after.dropped && e.trace <= after.trace
  }

  ghost predicate LaterLib(lib: Lib, after: Lib) {
    && (forall id <- lib.ops :: id in after.ops && after.ops[id] == lib.ops[id])
    && (forall id <- lib.first :: id in after.first && after.first[id] == lib.first[id])
  }

  /** What no step takes back: wakers fired, events queued and popped, events
      dropped, boxes freed, and what was submitted, handed out and answered. */
  ghost predicate Later(s: State, t: State) {
    && s.mem.nextId <= t.mem.nextId && s.mem.frees <= t.mem.frees
    && s.wakes.log <= t.wakes.log
    && LaterEvents(s.events, t.events)
    && LaterLib(s.lib, t.lib)
  }

  lemma StepIsLater(s: State, l: Label)
    requires Inv(s) && Legal(s, l)
    ensures Later(s, Step(s, l))
  {
    match l
    case LibReturn(accept) => ReturnIsLater(s, accept);
    case LibEvent(pd, item) => if item.Some? { EventIsLater(s, pd, item.value); }
    case LibComplete(id, status) => CompleteIsLater(s, id, status);
    case Finish => FinishIsLater(s);
    case Wake => WakeIsLater(s);
    case Submit(_, _, _) => BoxingIsLater(s, l);
    case Respond(_) => BoxingIsLater(s, l);
    case _ =>
  }

  lemma BoxingIsLater(s: State, l: Label)
    requires l.Submit? || l.Respond?
    ensures Later(s, Step(s, l))
  {
  }

  lemma CompleteIsLater(s: State, id: Id, status: nat)
    ensures Later(s, CompleteStep(s, id, status))
  {
  }

  lemma WakeIsLater(s: State)
    ensures Later(s, WakeStep(s))
  {
  }

  lemma PushIsLater(e: Events, pd: PdIndex, item: Item)
    ensures LaterEvents(e, PushItem(e, pd, item))
  {
  }

  lemma EventIsLater(s: State, pd: PdIndex, item: Item)
    ensures Later(s, EventStep(s, pd, item))
  {
    var e := s.events.(converted := s.events.converted + 1);
    if !IsReply(item) {
      PushIsLater(e, pd, item);
    } else {
      var noted := Noted(e.(replies := e.replies - {pd}), s.lib, pd, item.reply);
      PushIsLater(noted, pd, item);
      ReplyEvents(s, pd, item);
      ReplyRest(s, pd, item);
    }
  }

  /** The events after a reply: with its mark, and queued unless it was delivered. */
  lemma ReplyEvents(s: State, pd: PdIndex, item: Item)
    requires IsReply(item)
    ensures var e := s.events.(converted := s.events.converted + 1);
            var noted := Noted(e.(replies := e.replies - {pd}), s.lib, pd, item.reply);
            && s.events.trace <= noted.trace
            && EventStep(s, pd, item).events ==
               if Waiting(s.mem, s.events, pd).Some? then noted.(delivered := noted.delivered + 1)
               else PushItem(noted, pd, item)
  {
  }

  lemma ReplyRest(s: State, pd: PdIndex, item: Item)
    requires IsReply(item)
    ensures var t := EventStep(s, pd, item);
            && t.mem == s.mem.(slots := t.mem.slots) && t.wakes == s.wakes && LaterLib(s.lib, t.lib)
  {
  }

  lemma FinishIsLater(s: State)
    ensures Later(s, FinishStep(s))
  {
  }

  lemma ReturnIsLater(s: State, accept: bool)
    requires Inv(s) && Legal(s, LibReturn(accept))
    ensures Later(s, ReturnStep(s, accept))
  {
    if s.stack.top.InSubmit? || s.stack.top.InReply? {
      assert BoxOwned(s.mem, s.lib, s.stack, s.stack.top.id);
    }
  }

  // --- ownership ---------------------------------------------------------

  /** Between calls, the live boxes are the submissions LibOSDP accepted and
      did not complete. At any time every other box was freed exactly once, and
      every live one not at all. */
  lemma BoxesConserved(s: State)
    requires Reachable(s)
    ensures s.stack.Empty? ==> s.mem.boxes == s.lib.held
    ensures forall id: Id ::
              s.mem.frees[id] == if id < s.mem.nextId && id !in s.mem.boxes then 1 else 0
  {
    ReachableInv(s);
    forall id: Id
      ensures s.mem.frees[id] == if id < s.mem.nextId && id !in s.mem.boxes then 1 else 0
      ensures s.stack.Empty? ==> (id in s.mem.boxes <==> id in s.lib.held)
    {
      assert BoxOwned(s.mem, s.lib, s.stack, id);
    }
  }

  lemma OwnerlessSlot(s: State, id: Id)
    requires Ownership(s) && s.stack.Empty? && id !in s.mem.boxes && !HasHandle(s.mem, id)
    ensures id !in s.mem.slots
  {
  }

  /** After teardown no box is left: each one ever made was freed once. */
  lemma TeardownFreesAll(s: State)
    requires Reachable(s) && s.gone
    ensures s.mem.boxes == {} && s.mem.slots == map[]
    ensures forall id: Id :: id < s.mem.nextId ==> s.mem.frees[id] == 1
  {
    ReachableInv(s);
    BoxesConserved(s);
    forall id: Id ensures id !in s.mem.slots {
      OwnerlessSlot(s, id);
    }
    assert s.mem.slots.Keys == {};
  }

  // --- control and wakers ---------------------------------------------------

  /** Whenever no call is running, the context is not busy, no waker waits, and
      a parked stream waker has nothing to wake for. */
  lemma QuiescentBetweenCalls(s: State)
    requires Reachable(s) && s.stack.Empty? && !s.gone
    ensures !s.busy && s.wakes.deferred == []
    ensures s.wakes.stream.Some? ==> s.events.queue == []
  {
    ReachableInv(s);
  }

  /** Whenever no call is running, the task that last polled a submission to
      pending is parked in a submission still pending, or was woken since. */
  lemma NoLostWakeup(s: State, id: Id)
    requires Reachable(s) && s.stack.Empty? && !s.gone && id in s.wakes.polled
    ensures var p := s.wakes.polled[id];
            && p.at <= |s.wakes.log|
            && (|| (id in s.mem.slots && s.mem.slots[id].status.None? && s.mem.slots[id].waker == Some(p.task))
                || p.task in s.wakes.log[p.at..])
  {
    ReachableInv(s);
    assert NotLost(s, id, s.wakes.polled[id]);
  }

  /** However deep in callbacks of a refresh or a CP submit: the context is
      busy, a nested refresh changes nothing and a nested CP submit is refused
      with no effect. */
  lemma NestedCallsDoNothing(s: State, pd: PdIndex, cmd: Cmd, wants: bool)
    requires Reachable(s)
    ensures s.busy <==> HoldsBusy(s.stack)
    ensures HoldsBusy(s.stack) ==> Step(s, Refresh) == s
    ensures HoldsBusy(s.stack) && s.role.Cp? ==> Step(s, Submit(pd, cmd, wants)) == s
  {
    ReachableInv(s);
  }

  /** A waker is fired only by a wake loop, and never below a guarded call. */
  lemma WakersFireUnguarded(s: State, l: Label)
    requires Reachable(s) && Legal(s, l) && Step(s, l).wakes.log != s.wakes.log
    ensures l == Wake && !s.busy && !HoldsBusy(s.stack)
    ensures exists t: Task :: Step(s, l).wakes.log == s.wakes.log + [t]
  {
    ReachableInv(s);
    if s.stack.top.todo != [] {
      assert Step(s, l).wakes.log == s.wakes.log + [s.stack.top.todo[0]];
    } else {
      assert Step(s, l).wakes.log == s.wakes.log + [s.wakes.stream.value];
    }
  }

  // --- events ----------------------------------------------------------------

  /** What was popped and what is queued are the accepted events in order, the
      queue is within its capacity, and each event that converted was delivered
      to a handle, popped, is queued, or was counted as dropped. */
  lemma EventsConserved(s: State)
    requires Reachable(s)
    ensures s.events.popped + s.events.queue == s.events.pushed
    ensures |s.events.queue| <= s.events.capacity
    ensures s.events.converted ==
            s.events.delivered + |s.events.popped| + |s.events.queue| + s.events.dropped
  {
    ReachableInv(s);
  }

  // --- outcomes ----------------------------------------------------------------

  /** Handle `id` is there after as before, and takes back no outcome. */
  ghost predicate OutcomeKept(m: Memory, n: Memory, id: Id)
    requires id in m.slots
  {
    && HasHandle(n, id)
    && (UnitStatus(m.slots[id]).Some? ==> UnitStatus(n.slots[id]) == UnitStatus(m.slots[id]))
    && (PivStatus(m.slots[id]).Some? ==> PivStatus(n.slots[id]) == PivStatus(m.slots[id]))
  }

  lemma OutcomeKeptByComplete(s: State, done: Id, status: nat, id: Id)
    requires Inv(s) && Legal(s, LibComplete(done, status)) && HasHandle(s.mem, id)
    ensures OutcomeKept(s.mem, CompleteStep(s, done, status).mem, id)
  {
    assert SlotOwned(s.mem, s.stack, id);
    assert BoxOwned(s.mem, s.lib, s.stack, done);
  }

  lemma OutcomeKeptByReturn(s: State, accept: bool, id: Id)
    requires Inv(s) && Legal(s, LibReturn(accept)) && HasHandle(s.mem, id)
    ensures OutcomeKept(s.mem, ReturnStep(s, accept).mem, id)
  {
    assert SlotOwned(s.mem, s.stack, id);
    assert BoxOwned(s.mem, s.lib, s.stack, id);
  }

  lemma OutcomeKeptByStep(s: State, l: Label, id: Id)
    requires Inv(s) && Legal(s, l) && HasHandle(s.mem, id) && l != DropHandle(id)
    ensures OutcomeKept(s.mem, Step(s, l).mem, id)
  {
    assert SlotOwned(s.mem, s.stack, id);
    match l
    case LibComplete(done, status) => OutcomeKeptByComplete(s, done, status, id);
    case LibReturn(accept) => OutcomeKeptByReturn(s, accept, id);
    case _ =>
  }

  /** Once a handle reports an outcome it reports the same one until it is
      dropped, as a plain submission and as a card command. */
  lemma {:induction false} OutcomeStable(s: State, ls: seq<Label>, id: Id)
    requires Inv(s) && LegalRun(s, ls) && HasHandle(s.mem, id) && DropHandle(id) !in ls
    ensures HasHandle(Run(s, ls).mem, id)
    ensures UnitStatus(s.mem.slots[id]).Some? ==>
              UnitStatus(Run(s, ls).mem.slots[id]) == UnitStatus(s.mem.slots[id])
    ensures PivStatus(s.mem.slots[id]).Some? ==>
              PivStatus(Run(s, ls).mem.slots[id]) == PivStatus(s.mem.slots[id])
    decreases ls
  {
    if ls != [] {
      InvKept(s, ls[0]);
      OutcomeKeptByStep(s, ls[0], id);
      OutcomeStable(Step(s, ls[0]), ls[1..], id);
    }
  }

  // --- replies -----------------------------------------------------------------

  /** No stale route captures a reply: a slot that still waits in the reply map
      belongs to the command its PD is running, which wants a reply. */
  lemma PendingRouteIsRunning(s: State, pd: PdIndex)
    requires Reachable(s) && pd in s.events.replies
    requires var id := s.events.replies[pd]; id in s.mem.slots && s.mem.slots[id].status.None?
    ensures pd in s.lib.running && s.lib.running[pd] == s.events.replies[pd]
    ensures s.events.replies[pd] in s.lib.ops && s.lib.ops[s.events.replies[pd]].wants
  {
    ReachableInv(s);
    RouteIsRunning(s, pd);
  }

  /** What becomes of an event that LibOSDP reports and no slot takes. */
  predicate Queued(e: Events, after: Events, pd: PdIndex, item: Item) {
    if |e.queue| < e.capacity
    then after.queue == e.queue + [(pd, item)] && after.dropped == e.dropped
    else after.queue == e.queue && after.dropped == e.dropped + 1
  }

  /** A reply on `pd` goes to the slot of the command running there, if the route
      leads to it and its handle is there, and then that command wants it; any
      other goes to the queue, or is counted as dropped. No other slot changes. */
  lemma ReplyGoesToRunning(s: State, pd: PdIndex, item: Item)
    requires Reachable(s) && IsReply(item) && Legal(s, LibEvent(pd, Some(item)))
    ensures pd in s.lib.running && s.lib.running[pd] in s.lib.ops
    ensures var t := Step(s, LibEvent(pd, Some(item)));
            var r := s.lib.running[pd];
            if Lookup(s.events.replies, pd) == Some(r) && HasHandle(s.mem, r) then
              && s.lib.ops[r].wants
              && t.mem.slots == s.mem.slots[r := s.mem.slots[r].(reply := Some(item.reply))]
              && t.events.queue == s.events.queue && t.events.dropped == s.events.dropped
            else
              t.mem.slots == s.mem.slots && Queued(s.events, t.events, pd, item)
  {
    ReachableInv(s);
    ReplyReaches(s, pd);
    if Waiting(s.mem, s.events, pd).Some? {
      RouteIsRunning(s, pd);
    }
  }

  /** Called in calm, the slot of the running command takes a reply exactly if it
      wants one, its handle is there and none came before. */
  lemma WantedReplyArrives(s: State, pd: PdIndex, item: Item)
    requires CalmlyReachable(s) && IsReply(item) && Legal(s, LibEvent(pd, Some(item)))
    ensures pd in s.lib.running && s.lib.running[pd] in s.lib.ops
    ensures var t := Step(s, LibEvent(pd, Some(item)));
            var r := s.lib.running[pd];
            if s.lib.ops[r].wants && HasHandle(s.mem, r) && r !in s.lib.first then
              && t.mem.slots == s.mem.slots[r := s.mem.slots[r].(reply := Some(item.reply))]
              && t.events.queue == s.events.queue && t.events.dropped == s.events.dropped
            else
              t.mem.slots == s.mem.slots && Queued(s.events, t.events, pd, item)
  {
    CalmlyReachableInv(s);
    var r := s.lib.running[pd];
    AwaitedNow(s, pd);
    ReplyReaches(s, pd);
    assert Lookup(s.events.replies, pd) == Route(s.events.trace, pd);
    assert CaughtFirst(s.lib, s.events.trace, r) && AnswerTraced(s.lib, s.events.trace, r);
    if Route(s.events.trace, pd) == Some(r) {
      RouteWasHanded(s.events.trace, pd);
      assert MarkKnown(s.lib, Handed(pd, r, true));
    }
  }

  /** Of the card commands on `pd`, `id` was the last whose submit call had
      returned when `id` was answered first. */
  ghost predicate InTime(trace: seq<Mark>, pd: PdIndex, id: Id) {
    FirstAnswer(trace, id).Some? &&
    exists i | 0 <= i < FirstAnswer(trace, id).value ::
      && trace[i].Handed? && trace[i].pd == pd && trace[i].id == id
      && forall j | i < j < FirstAnswer(trace, id).value :: trace[j].Handed? ==> trace[j].pd != pd
  }

  ghost predicate AnsweredOnce(trace: seq<Mark>, id: Id) {
    forall j, k | 0 <= j < |trace| && 0 <= k < |trace| ::
      trace[j].Answered? && trace[j].id == id && trace[k].Answered? && trace[k].id == id ==> j == k
  }

  /** A card command that wants its reply and completed OK while its handle was
      there reports the reply it caught, or that it failed. It caught its first
      reply exactly if its submit call was the last on the PD to return before
      that; so, answered once, it reports its reply exactly then. */
  lemma HandleReportsItsReply(s: State, id: Id)
    requires Reachable(s) && HasHandle(s.mem, id)
    requires CardOp(s.lib, id) && s.lib.ops[id].wants && UnitStatus(s.mem.slots[id]) == Some(Ok(()))
    ensures id in s.lib.first
    ensures var trace, pd := s.events.trace, s.lib.ops[id].pd;
            && PivStatus(s.mem.slots[id]) ==
               Some(match ReplyAt(trace, Caught(trace, id)) case Some(r) => Ok(r) case None => Err(Failed))
            && (Caught(trace, id) == FirstAnswer(trace, id) <==> InTime(trace, pd, id))
            && (InTime(trace, pd, id) ==> PivStatus(s.mem.slots[id]) == Some(Ok(s.lib.first[id])))
            && (AnsweredOnce(trace, id) ==>
                (PivStatus(s.mem.slots[id]) == Some(Ok(s.lib.first[id])) <==> InTime(trace, pd, id)))
  {
    ReachableInv(s);
    var trace := s.events.trace;
    assert SlotTraced(s, id) && AnswerTraced(s.lib, trace, id);
    CaughtFound(trace, id);
    InTimeMeansLast(trace, s.lib.ops[id].pd, id);
    if AnsweredOnce(trace, id) && Caught(trace, id).Some? {
      AnswerFound(trace, id);
      assert Caught(trace, id) == FirstAnswer(trace, id);
    }
  }

  lemma InTimeMeansLast(trace: seq<Mark>, pd: PdIndex, id: Id)
    requires FirstAnswer(trace, id).Some?
    ensures InTime(trace, pd, id) <==>
            LastHanded(trace[..FirstAnswer(trace, id).value], pd) == Some(id)
  {
    var k := FirstAnswer(trace, id).value;
    var before := trace[..k];
    LastHandedFound(before, pd, id);
    assert forall j | 0 <= j < k :: before[j] == trace[j];
    if InTime(trace, pd, id) {
      var i :| 0 <= i < k && trace[i].Handed? && trace[i].pd == pd && trace[i].id == id
               && forall j | i < j < k :: trace[j].Handed? ==> trace[j].pd != pd;
      assert before[i].Handed?;
    }
    if LastHanded(before, pd) == Some(id) {
      var i :| 0 <= i < |before| && before[i].Handed? && before[i].pd == pd && before[i].id == id
               && forall j | i < j < |before| :: before[j].Handed? ==> before[j].pd != pd;
      assert trace[i].Handed?;
    }
  }

  /** Called in calm, it always reports its first reply. */
  lemma CalmHandleReportsItsReply(s: State, id: Id)
    requires CalmlyReachable(s) && HasHandle(s.mem, id)
    requires CardOp(s.lib, id) && s.lib.ops[id].wants && UnitStatus(s.mem.slots[id]) == Some(Ok(()))
    ensures id in s.lib.first && PivStatus(s.mem.slots[id]) == Some(Ok(s.lib.first[id]))
  {
    CalmlyReachableInv(s);
    var trace := s.events.trace;
    assert SlotTraced(s, id) && AnswerTraced(s.lib, trace, id) && CaughtFirst(s.lib, trace, id);
  }

  // --- where wakers run ---------------------------------------------------------

  predicate IsCall(l: Label) {
    l.Refresh? || l.Submit? || l.Flush?
  }

  /** From inside a C call, the application calls the context only while that is
      busy: not from a callback that a flush runs on its own. */
  predicate HandsOff(s: State, l: Label) {
    IsCall(l) && HasC(s.stack) ==> s.busy
  }

  ghost predicate HandsOffRun(s: State, ls: seq<Label>)
    decreases ls
  {
    ls != [] ==> HandsOff(s, ls[0]) && HandsOffRun(Step(s, ls[0]), ls[1..])
  }

  /** Whatever fires wakers on top of a C call is on top of a guarded one. */
  ghost predicate Contained(st: Stack) {
    st.Push? ==> Contained(st.below) && (HasC(st.below) ==> HoldsBusy(st.below))
  }

  ghost predicate FiresInsideC(s: State) {
    Legal(s, Wake) && Step(s, Wake).wakes.log != s.wakes.log && HasC(s.stack)
  }

  lemma ContainedKept(s: State, l: Label)
    requires Control(s) && Contained(s.stack) && Legal(s, l) && HandsOff(s, l)
    ensures Contained(Step(s, l).stack)
  {
  }

  lemma {:induction false} ContainedKeptByRun(s: State, ls: seq<Label>)
    requires Inv(s) && Contained(s.stack) && LegalRun(s, ls) && HandsOffRun(s, ls)
    ensures Inv(Run(s, ls)) && Contained(Run(s, ls).stack)
    decreases ls
  {
    if ls != [] {
      InvKept(s, ls[0]);
      ContainedKept(s, ls[0]);
      ContainedKeptByRun(Step(s, ls[0]), ls[1..]);
    }
  }

  /** In such a run no waker is fired from inside any C call. */
  lemma WakersFireOutsideC(role: Role, capacity: nat, ls: seq<Label>)
    requires LegalRun(Init(role, capacity), ls) && HandsOffRun(Init(role, capacity), ls)
    ensures !FiresInsideC(Run(Init(role, capacity), ls))
  {
    InvHoldsInitially(role, capacity);
    ContainedKeptByRun(Init(role, capacity), ls);
  }

  /** Whether the application's next call can lead to a waker fired from inside C,
      though it keeps its hands off from then on. */
  ghost predicate CallMayFireInsideC(s: State) {
    exists call: Label, ls: seq<Label> ::
      IsCall(call) && LegalRun(s, [call] + ls) && HandsOffRun(Step(s, call), ls)
      && FiresInsideC(Run(s, [call] + ls))
  }

  /** That guard is exact: where the application may call, a call can have a waker
      fired from inside C if and only if it breaks the guard. */
  lemma GuardIsExact(s: State)
    requires Inv(s) && Contained(s.stack) && s.events.capacity > 0 && AppMayAct(s)
    ensures CallMayFireInsideC(s) <==> HasC(s.stack) && !s.busy
  {
    if HasC(s.stack) && !s.busy {
      UnguardedCallFires(s);
    } else if CallMayFireInsideC(s) {
      var call, ls :| IsCall(call) && LegalRun(s, [call] + ls) && HandsOffRun(Step(s, call), ls)
                      && FiresInsideC(Run(s, [call] + ls));
      assert ([call] + ls)[1..] == ls;
      ContainedKeptByRun(s, [call] + ls);
    }
  }

  /** Events drained until none is left. */
  lemma {:induction false} Drains(s: State) returns (ls: seq<Label>)
    requires Conserved(s.events) && AppMayAct(s)
    ensures LegalRun(s, ls) && HandsOffRun(s, ls)
    ensures var t := Run(s, ls);
            t == s.(events := t.events) && t.events.queue == [] && t.events.capacity == s.events.capacity
    decreases |s.events.queue|
  {
    if s.events.queue == [] {
      ls := [];
    } else {
      var rest := Drains(Step(s, NextEvent));
      ls := [NextEvent] + rest;
      assert ls[1..] == rest;
    }
  }

  /** A refresh from inside a C call that is not guarded, and a notification. */
  lemma UnguardedCallFires(s: State)
    requires Control(s) && Conserved(s.events) && s.events.capacity > 0
    requires AppMayAct(s) && HasC(s.stack) && !s.busy
    ensures CallMayFireInsideC(s)
  {
    var a := Step(s, Refresh);
    var drained := Drains(a);
    var b := Run(a, drained);
    var tail := [PollStream(0), LibEvent(0, Some(Notification(0))), LibReturn(true)];
    TailFires(b, s.stack);
    RunAppends(a, drained, tail);
    var ls := drained + tail;
    assert ([Refresh] + ls)[1..] == ls;
    assert LegalRun(s, [Refresh] + ls) && Run(s, [Refresh] + ls) == Run(a, ls);
  }

  lemma TailFires(b: State, below: Stack)
    requires b.stack == Push(InRefresh, below) && b.busy && !b.gone && HasC(below)
    requires b.events.queue == [] && b.events.capacity > 0
    ensures var tail := [PollStream(0), LibEvent(0, Some(Notification(0))), LibReturn(true)];
            LegalRun(b, tail) && HandsOffRun(b, tail) && FiresInsideC(Run(b, tail))
  {
    var tail := [PollStream(0), LibEvent(0, Some(Notification(0))), LibReturn(true)];
    var c := Step(b, tail[0]);
    var d := Step(c, tail[1]);
    var e := Step(d, tail[2]);
    assert tail[1..] == [tail[1], tail[2]] && tail[1..][1..] == [tail[2]] && tail[1..][1..][1..] == [];
    assert Run(b, tail) == Run(c, tail[1..]) == Run(d, tail[1..][1..]) == Run(e, []) == e;
    assert e.stack == Push(Waking(b.wakes.deferred), below);
    assert LegalRun(d, [tail[2]]) && HandsOffRun(d, [tail[2]]);
    assert LegalRun(c, tail[1..]) && HandsOffRun(c, tail[1..]);
    assert |Step(e, Wake).wakes.log| == |e.wakes.log| + 1;
  }

  lemma {:induction false} RunAppends(s: State, ls: seq<Label>, more: seq<Label>)
    requires LegalRun(s, ls) && HandsOffRun(s, ls)
    requires LegalRun(Run(s, ls), more) && HandsOffRun(Run(s, ls), more)
    ensures LegalRun(s, ls + more) && HandsOffRun(s, ls + more) && Run(s, ls + more) == Run(Run(s, ls), more)
    decreases ls
  {
    if ls == [] {
      assert ls + more == more;
    } else {
      assert (ls + more)[1..] == ls[1..] + more;
      RunAppends(Step(s, ls[0]), ls[1..], more);
    }
  }
}
