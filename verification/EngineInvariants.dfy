/** What every legal step of the engine keeps, whatever wakers do. */
module EngineInvariants {
  import opened Wrappers
  import opened Engine

  // --- control -----------------------------------------------------------

  predicate HasId(f: Frame) {
    f.InSubmit? || f.InReply? || f.Finishing?
  }

  predicate InFrames(st: Stack, id: Id) {
    st.Push? && ((HasId(st.top) && st.top.id == id) || InFrames(st.below, id))
  }

  /** How calls nest: nothing that fires wakers, and no second guarded call,
      runs on top of a guarded call; anything on top of a C call is on top of one
      that runs callbacks; teardown is outermost; a responder answers from inside
      a refresh. Frames are about submissions older than `n`. */
  predicate Nested(st: Stack, n: Id) {
    st.Push? ==>
      && Nested(st.below, n)
      && (st.top.Waking? || Guarded(st.top) ==> !HoldsBusy(st.below))
      && (HasId(st.top) ==> st.top.id < n && !InFrames(st.below, st.top.id))
      && (st.top.InTeardown? ==> st.below.Empty?)
      && (st.below.Push? && InC(st.below.top) ==> RunsCallbacks(st.below.top))
      && (st.top.InReply? ==> HoldsBusy(st.below))
  }

  ghost predicate Control(s: State) {
    && Nested(s.stack, s.mem.nextId)
    && s.busy == HoldsBusy(s.stack)
    && (s.gone ==> s.stack.Empty?)
  }

  lemma NestedLonger(st: Stack, n: Id, m: Id)
    requires Nested(st, n) && n <= m
    ensures Nested(st, m) && !InFrames(st, m)
  {
    if st.Push? {
      NestedLonger(st.below, n, m);
    }
  }

  lemma WindowsAreFrames(st: Stack, id: Id)
    ensures InFrames(st, id) <==> Returning(st, id) || Unaccepted(st, id)
  {
  }

  lemma ControlKept(s: State, l: Label)
    requires Control(s) && Legal(s, l)
    ensures Control(Step(s, l))
  {
    NestedLonger(s.stack, s.mem.nextId, s.mem.nextId);
    NestedLonger(s.stack, s.mem.nextId, s.mem.nextId + 1);
  }

  // --- ownership ---------------------------------------------------------

  function Count(b: bool): nat {
    if b then 1 else 0
  }

  /** A live slot is owned by its box, and by its handle or the submit call
      about to return one; it is pending for as long as its box lives. */
  ghost predicate SlotOwned(m: Memory, st: Stack, id: Id)
    requires id in m.slots
  {
    var slot := m.slots[id];
    && id < m.nextId
    && (slot.hasHandle ==> !InFrames(st, id))
    && slot.strong == Count(id in m.boxes) + Count(slot.hasHandle || Returning(st, id))
    && slot.strong > 0
    && (slot.status.None? <==> id in m.boxes)
    && (slot.waker.Some? ==> slot.status.None? && !InFrames(st, id))
  }

  /** The live boxes are the ones LibOSDP holds and the ones on their way to
      it; every other box was freed, once. */
  ghost predicate BoxOwned(m: Memory, lib: Lib, st: Stack, id: Id) {
    && (id in m.boxes <==> id in lib.held || Unaccepted(st, id))
    && (Unaccepted(st, id) ==> id !in lib.ops)
    && (id in lib.held ==> id in lib.ops)
    && (id in lib.ops ==> id < m.nextId)
    && (id in m.boxes || Returning(st, id) ==> id in m.slots)
    && m.frees[id] == Count(id < m.nextId && id !in m.boxes)
  }

  ghost predicate Ownership(s: State) {
    && (forall id <- s.mem.slots :: SlotOwned(s.mem, s.stack, id))
    && (forall id: Id :: BoxOwned(s.mem, s.lib, s.stack, id))
  }

  ghost predicate Owned(s: State, id: Id) {
    && BoxOwned(s.mem, s.lib, s.stack, id)
    && (id in s.mem.slots ==> SlotOwned(s.mem, s.stack, id))
  }

  lemma OwnershipKept(s: State, l: Label)
    requires Control(s) && Ownership(s) && Legal(s, l)
    ensures Ownership(Step(s, l))
  {
    var t := Step(s, l);
    forall id: Id
      ensures BoxOwned(t.mem, t.lib, t.stack, id)
      ensures id in t.mem.slots ==> SlotOwned(t.mem, t.stack, id)
    {
      assert BoxOwned(s.mem, s.lib, s.stack, id);
      WindowsAreFrames(s.stack, id);
      match l
      case LibReturn(accept) => OwnedAfterReturn(s, accept, id);
      case LibComplete(done, status) => OwnedAfterComplete(s, done, status, id);
      case Finish => OwnedAfterFinish(s, id);
      case Submit(_, _, _) => OwnedAfterBoxing(s, l, id);
      case Respond(_) => OwnedAfterBoxing(s, l, id);
      case DropHandle(dropped) => OwnedAfterDrop(s, dropped, id);
      case Poll(polled, t) => OwnedAfterPoll(s, polled, t, id);
      case LibEvent(pd, item) => if item.Some? { OwnedAfterEvent(s, pd, item.value, id); }
      case _ =>
    }
  }

  lemma OwnedAfterDrop(s: State, dropped: Id, id: Id)
    requires Ownership(s) && HasHandle(s.mem, dropped)
    ensures Owned(DropStep(s, dropped), id)
  {
    assert BoxOwned(s.mem, s.lib, s.stack, id);
    WindowsAreFrames(s.stack, id);
  }

  lemma OwnedAfterPoll(s: State, polled: Id, t: Task, id: Id)
    requires Ownership(s) && HasHandle(s.mem, polled)
    ensures Owned(PollStep(s, polled, t), id)
  {
    assert BoxOwned(s.mem, s.lib, s.stack, id);
  }

  lemma OwnedAfterEvent(s: State, pd: PdIndex, item: Item, id: Id)
    requires Ownership(s)
    ensures Owned(EventStep(s, pd, item), id)
  {
    assert BoxOwned(s.mem, s.lib, s.stack, id);
  }

  lemma OwnedAfterReturn(s: State, accept: bool, id: Id)
    requires Control(s) && Ownership(s) && Legal(s, LibReturn(accept))
    ensures Owned(ReturnStep(s, accept), id)
  {
    assert BoxOwned(s.mem, s.lib, s.stack, id);
    match s.stack.top
    case InReply(r) =>
      WindowsAreFrames(s.stack.below, id);
      assert BoxOwned(s.mem, s.lib, s.stack, r);
    case InSubmit(_, _, _, _, _) => OwnedAfterSubmitReturn(s, accept, id);
    case _ =>
  }

  lemma OwnedAfterSubmitReturn(s: State, accept: bool, id: Id)
    requires Control(s) && Ownership(s) && Legal(s, LibReturn(accept)) && s.stack.top.InSubmit?
    ensures Owned(ReturnStep(s, accept), id)
  {
    var f := s.stack.top;
    var tail := Push(Finishing(f.id, f.pd, f.kind, f.wants, accept), s.stack.below);
    assert BoxOwned(s.mem, s.lib, s.stack, id);
    assert BoxOwned(s.mem, s.lib, s.stack, f.id);
    WindowsAreFrames(s.stack.below, f.id);
    assert Returning(tail, id) == Returning(s.stack, id);
    assert InFrames(tail, id) == InFrames(s.stack, id);
    assert Unaccepted(tail, id) == (Unaccepted(s.stack, id) && !(accept && id == f.id));
    var t := ReturnStep(s, accept);
    assert t.stack == tail || (t.stack.top.Waking? && t.stack.below == tail);
    assert t.mem == s.mem;
  }

  lemma OwnedAfterComplete(s: State, done: Id, status: nat, id: Id)
    requires Control(s) && Ownership(s) && Legal(s, LibComplete(done, status))
    ensures Owned(CompleteStep(s, done, status), id)
  {
    assert BoxOwned(s.mem, s.lib, s.stack, id);
    assert BoxOwned(s.mem, s.lib, s.stack, done);
  }

  lemma OwnedAfterFinish(s: State, id: Id)
    requires Control(s) && Ownership(s) && Legal(s, Finish)
    ensures Owned(FinishStep(s), id)
  {
    var f := s.stack.top;
    assert BoxOwned(s.mem, s.lib, s.stack, id);
    assert BoxOwned(s.mem, s.lib, s.stack, f.id);
    WindowsAreFrames(s.stack.below, id);
  }

  lemma OwnedAfterBoxing(s: State, l: Label, id: Id)
    requires Control(s) && Ownership(s) && (l.Submit? || l.Respond?)
    ensures Owned(Step(s, l), id)
  {
    var newId := s.mem.nextId;
    NestedLonger(s.stack, newId, newId);
    assert BoxOwned(s.mem, s.lib, s.stack, id);
    assert BoxOwned(s.mem, s.lib, s.stack, newId);
    WindowsAreFrames(s.stack, newId);
  }

  // --- what LibOSDP runs -----------------------------------------------------

  /** `running` names exactly the card commands LibOSDP holds, one a PD. */
  ghost predicate Exclusive(lib: Lib) {
    && (forall pd <- lib.running ::
          var id := lib.running[pd];
          id in lib.held && id in lib.ops && lib.ops[id].pd == pd && IsCard(lib.ops[id].kind))
    && (forall id <- lib.held ::
          id in lib.ops && IsCard(lib.ops[id].kind) ==>
            lib.ops[id].pd in lib.running && lib.running[lib.ops[id].pd] == id)
  }

  lemma ExclusiveAfterAccept(lib: Lib, id: Id, op: Op)
    requires Exclusive(lib) && id !in lib.held
    requires IsCard(op.kind) ==> op.pd !in lib.running
    ensures Exclusive(Accept(lib, id, op))
  {
  }

  lemma ExclusiveAfterRelease(lib: Lib, id: Id)
    requires Exclusive(lib) && id in lib.held && id in lib.ops
    ensures Exclusive(Release(lib, id))
  {
  }

  lemma ExclusiveKept(s: State, l: Label)
    requires Ownership(s) && Exclusive(s.lib) && Legal(s, l)
    ensures Exclusive(Step(s, l).lib)
  {
    match l
    case LibReturn(accept) => ExclusiveAfterReturn(s, accept);
    case LibComplete(id, _) => ExclusiveAfterRelease(s.lib, id);
    case LibEvent(pd, item) => ExclusiveAfterEvent(s, pd, item);
    case _ =>
  }

  lemma ExclusiveAfterEvent(s: State, pd: PdIndex, item: Option<Item>)
    requires Exclusive(s.lib)
    ensures Exclusive(Step(s, LibEvent(pd, item)).lib)
  {
    if item.Some? {
      EventLib(s, pd, item.value);
    }
  }

  lemma EventLib(s: State, pd: PdIndex, item: Item)
    ensures EventStep(s, pd, item).lib == if IsReply(item) then Answer(s.lib, pd, item.reply) else s.lib
  {
  }

  lemma ExclusiveAfterReturn(s: State, accept: bool)
    requires Ownership(s) && Exclusive(s.lib) && Legal(s, LibReturn(accept))
    ensures Exclusive(ReturnStep(s, accept).lib)
  {
    var f := s.stack.top;
    if accept && (f.InSubmit? || f.InReply?) {
      assert BoxOwned(s.mem, s.lib, s.stack, f.id);
      ExclusiveAfterAccept(s.lib, f.id, if f.InReply? then Op(0, None, false) else Op(f.pd, f.kind, f.wants));
    }
  }

  // --- wakers --------------------------------------------------------------

  lemma BusyIsInC(st: Stack)
    requires HoldsBusy(st)
    ensures HasC(st)
  {
  }

  /** Wakers wait only while a call that will fire them has not returned. */
  ghost predicate WakesDue(s: State) {
    && (s.wakes.deferred != [] ==> HasC(s.stack))
    && (s.wakes.stream.Some? && s.events.queue != [] ==> HasC(s.stack) || HasWaking(s.stack))
  }

  lemma WakesDueKept(s: State, l: Label)
    requires Control(s) && WakesDue(s) && Legal(s, l) && !Step(s, l).gone
    ensures WakesDue(Step(s, l))
  {
    if HoldsBusy(s.stack) {
      BusyIsInC(s.stack);
    }
    if s.stack.Push? && HoldsBusy(s.stack.below) {
      BusyIsInC(s.stack.below);
    }
  }

  /** The task that polled submission `id` last is still to be woken, or was. */
  ghost predicate NotLost(s: State, id: Id, p: Polled) {
    && p.at <= |s.wakes.log|
    && (|| (id in s.mem.slots && s.mem.slots[id].status.None? && s.mem.slots[id].waker == Some(p.task))
        || p.task in s.wakes.deferred
        || InTodo(s.stack, p.task)
        || p.task in s.wakes.log[p.at..])
  }

  ghost predicate NoneLost(s: State) {
    forall id <- s.wakes.polled :: NotLost(s, id, s.wakes.polled[id])
  }

  lemma NoneLostKept(s: State, l: Label)
    requires Ownership(s) && NoneLost(s) && Legal(s, l)
    ensures NoneLost(Step(s, l))
  {
    var t := Step(s, l);
    forall id <- t.wakes.polled ensures NotLost(t, id, t.wakes.polled[id]) {
      StillNotLost(s, l, id);
    }
  }

  lemma StillNotLost(s: State, l: Label, id: Id)
    requires Ownership(s) && NoneLost(s) && Legal(s, l)
    requires id in Step(s, l).wakes.polled
    ensures NotLost(Step(s, l), id, Step(s, l).wakes.polled[id])
  {
    match l
    case Wake => NotLostByWake(s, id);
    case LibReturn(accept) => NotLostByReturn(s, accept, id);
    case LibComplete(done, status) => NotLostByComplete(s, done, status, id);
    case Finish => NotLostByFinish(s, id);
    case Poll(polled, t) => NotLostByPoll(s, polled, t, id);
    case DropHandle(dropped) => NotLostByDrop(s, dropped, id);
    case LibEvent(pd, item) => NotLostByEvent(s, pd, item, id);
    case _ =>
      var p := s.wakes.polled[id];
      assert NotLost(s, id, p);
  }

  lemma NotLostByEvent(s: State, pd: PdIndex, item: Option<Item>, id: Id)
    requires NoneLost(s) && id in s.wakes.polled
    ensures NotLost(Step(s, LibEvent(pd, item)), id, s.wakes.polled[id])
  {
    assert NotLost(s, id, s.wakes.polled[id]);
  }

  lemma NotLostByWake(s: State, id: Id)
    requires NoneLost(s) && Legal(s, Wake) && id in s.wakes.polled
    ensures NotLost(WakeStep(s), id, s.wakes.polled[id])
  {
    var t := WakeStep(s);
    var p := s.wakes.polled[id];
    assert NotLost(s, id, p);
    assert t.wakes.log[p.at..] == s.wakes.log[p.at..] + t.wakes.log[|s.wakes.log|..];
  }

  lemma NotLostByReturn(s: State, accept: bool, id: Id)
    requires Ownership(s) && NoneLost(s) && Legal(s, LibReturn(accept)) && id in s.wakes.polled
    ensures NotLost(ReturnStep(s, accept), id, s.wakes.polled[id])
  {
    var t := ReturnStep(s, accept);
    var p := s.wakes.polled[id];
    assert NotLost(s, id, p);
    assert InTodo(s.stack, p.task) ==> InTodo(t.stack, p.task) by {
      if s.stack.top.InSubmit? {
        var f := s.stack.top;
        var tail := Push(Finishing(f.id, f.pd, f.kind, f.wants, accept), s.stack.below);
        assert InTodo(tail, p.task) == InTodo(s.stack, p.task);
        assert t.stack == tail || (t.stack.top.Waking? && t.stack.below == tail);
      }
    }
  }

  lemma NotLostByComplete(s: State, done: Id, status: nat, id: Id)
    requires NoneLost(s) && Legal(s, LibComplete(done, status)) && id in s.wakes.polled
    ensures NotLost(CompleteStep(s, done, status), id, s.wakes.polled[id])
  {
    var p := s.wakes.polled[id];
    assert NotLost(s, id, p);
  }

  lemma NotLostByPoll(s: State, polled: Id, t: Task, id: Id)
    requires NoneLost(s) && id in PollStep(s, polled, t).wakes.polled
    ensures NotLost(PollStep(s, polled, t), id, PollStep(s, polled, t).wakes.polled[id])
  {
    if id in s.wakes.polled {
      assert NotLost(s, id, s.wakes.polled[id]);
    }
  }

  lemma NotLostByDrop(s: State, dropped: Id, id: Id)
    requires Ownership(s) && NoneLost(s) && Legal(s, DropHandle(dropped)) && id in s.wakes.polled
    ensures NotLost(DropStep(s, dropped), id, s.wakes.polled[id])
  {
    var p := s.wakes.polled[id];
    assert NotLost(s, id, p);
    assert BoxOwned(s.mem, s.lib, s.stack, dropped);
  }

  lemma NotLostByFinish(s: State, id: Id)
    requires Ownership(s) && NoneLost(s) && Legal(s, Finish) && id in s.wakes.polled
    ensures NotLost(FinishStep(s), id, s.wakes.polled[id])
  {
    var p := s.wakes.polled[id];
    assert NotLost(s, id, p);
  }

  // --- events ----------------------------------------------------------------

  /** The queue holds what was pushed and not popped, in order, within its
      capacity; every event that converted is accounted for. */
  ghost predicate Conserved(e: Events) {
    && e.popped + e.queue == e.pushed
    && |e.queue| <= e.capacity
    && e.converted == e.delivered + |e.popped| + |e.queue| + e.dropped
  }

  lemma ConservedKept(s: State, l: Label)
    requires Conserved(s.events)
    ensures Conserved(Step(s, l).events)
  {
    if l.LibEvent? && l.item.Some? {
      ConservedAfterEvent(s, l.pd, l.item.value);
    }
  }

  lemma ConservedAfterPush(e: Events, pd: PdIndex, item: Item)
    requires e.popped + e.queue == e.pushed && |e.queue| <= e.capacity
    requires e.converted == e.delivered + |e.popped| + |e.queue| + e.dropped + 1
    ensures Conserved(PushItem(e, pd, item))
  {
    assert e.popped + (e.queue + [(pd, item)]) == e.pushed + [(pd, item)];
  }

  lemma ConservedAfterEvent(s: State, pd: PdIndex, item: Item)
    requires Conserved(s.events)
    ensures Conserved(EventStep(s, pd, item).events)
  {
    var e := s.events.(converted := s.events.converted + 1);
    if !IsReply(item) {
      ConservedAfterPush(e, pd, item);
    } else {
      ConservedAfterReply(s, pd, item);
    }
  }

  lemma ConservedAfterReply(s: State, pd: PdIndex, item: Item)
    requires Conserved(s.events) && IsReply(item)
    ensures Conserved(EventStep(s, pd, item).events)
  {
    var e := s.events.(converted := s.events.converted + 1);
    var noted := Noted(e.(replies := e.replies - {pd}), s.lib, pd, item.reply);
    assert noted == e.(replies := noted.replies, trace := noted.trace);
    if Waiting(s.mem, s.events, pd).Some? {
      assert EventStep(s, pd, item).events == noted.(delivered := noted.delivered + 1);
    } else {
      assert EventStep(s, pd, item).events == PushItem(noted, pd, item);
      ConservedAfterPush(noted, pd, item);
    }
  }
}
