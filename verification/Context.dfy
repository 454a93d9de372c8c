/** A context -- a control panel or a peripheral device, whose structs share
    these fields and method bodies -- in the form its source has: objects whose
    methods update their fields, with LibOSDP and the application as
    nondeterministic code around them. Every method performs a run of the
    engine's step system. */
module Contexts {
  import opened Wrappers
  import opened Engine
  import opened EngineInvariants
  import opened EngineTheorems
  import opened EngineAnswers
  import opened Queues

  datatype Error = Rejected | InvalidArgument

  /** The commands that are answered with a reply of their own. */
  const CARD_KINDS: set<Option<MpKind>> := {Some(Piv), Some(GenAuth), Some(CrAuth)}

  /** Every one of `tasks` was woken after the first `n` that were. */
  ghost predicate AllFired(tasks: seq<Task>, log: seq<Task>, n: nat) {
    forall t <- tasks :: exists i | n <= i < |log| :: log[i] == t
  }

  lemma FiredLater(tasks: seq<Task>, log: seq<Task>, more: seq<Task>, n: nat)
    requires AllFired(tasks, log, n) && log <= more
    ensures AllFired(tasks, more, n)
  {
    forall t <- tasks
      ensures exists i | n <= i < |more| :: more[i] == t
    {
      var i :| n <= i < |log| && log[i] == t;
      assert more[i] == t;
    }
  }

  lemma FiredAlso(tasks: seq<Task>, next: Task, log: seq<Task>, more: seq<Task>, n: nat)
    requires AllFired(tasks, log, n) && n <= |log| && log + [next] <= more
    ensures AllFired(tasks + [next], more, n)
  {
    FiredLater(tasks, log, more, n);
    assert more[|log|] == next;
  }

  /** A panel's queue of events, its stream's waker, and for each PD the slot that
      the next card reply goes to. */
  class CpEvents {
    const queue: DrainQueue<(PdIndex, Item)>
    const streamWaker: WakerSlot
    var replies: map<PdIndex, Id>

    constructor (capacity: nat)
      requires capacity > 0
      ensures fresh(queue) && fresh(streamWaker)
      ensures queue.capacity == capacity && queue.items == [] && queue.dropped == 0
      ensures streamWaker.parked == None && replies == map[]
    {
      queue := new DrainQueue(capacity);
      streamWaker := new WakerSlot();
      replies := map[];
    }

    /** `pd` gets a route to `slot`, or loses the one it has. */
    method RouteReply(pd: PdIndex, slot: Option<Id>)
      modifies this
      ensures replies == if slot.Some? then old(replies)[pd := slot.value] else old(replies) - {pd}
    {
      match slot
      case Some(id) => replies := replies[pd := id];
      case None => replies := replies - {pd};
    }
  }

  /** LibOSDP, as far as its documented contract says what it does. */
  class LibOsdp {
    var lib: Lib

    constructor ()
      ensures lib == Lib(map[], {}, map[], map[])
    {
      lib := Lib(map[], {}, map[], map[]);
    }

    /** Whether the contract lets LibOSDP accept `op`: not while its PD runs a card
        command. */
    predicate MayAccept(op: Op)
      reads this
    {
      IsCard(op.kind) ==> op.pd !in lib.running
    }

    /** Accept a submission or refuse it. */
    method Decide(id: Id, op: Op) returns (accepted: bool)
      modifies this
      ensures accepted ==> old(MayAccept(op))
      ensures lib == if accepted then Accept(old(lib), id, op) else old(lib)
    {
      accepted := *;
      if accepted && MayAccept(op) {
        lib := Accept(lib, id, op);
      } else {
        accepted := false;
      }
    }

    /** Whether `item` is no card reply, or comes in a refresh from a PD that runs
        a card command. */
    predicate MayReport(refreshing: bool, pd: PdIndex, item: Option<Item>)
      reads this
    {
      item.Some? && IsReply(item.value) ==> refreshing && pd in lib.running
    }
  }

  /** LibOSDP accepted submission `id`, which rides its queue, and the box of it
      was freed. */
  ghost predicate Dropped(m: State, id: Id) {
    id in m.lib.ops && RidesQueue(m.lib.ops[id].kind) && id in m.mem.frees
  }

  lemma StillDropped(m: State, after: State, done: set<Id>)
    requires Later(m, after) && forall id <- done :: Dropped(m, id)
    ensures forall id <- done :: Dropped(after, id)
  {
  }

  /** The C calls that run callbacks. */
  datatype Call = Refreshing | Flushing | Opening

  predicate Makes(call: Call, f: Frame) {
    match call
    case Refreshing => f.InRefresh?
    case Flushing => f.InFlush?
    case Opening => f.InSubmit?
  }

  function FrameOf(call: Call): Frame {
    match call
    case Refreshing => InRefresh
    case Flushing => InFlush
    case Opening => InSubmit(0, 0, None, false, true)
  }

  class Context {
    const role: Role
    var busy: bool
    const events: CpEvents
    const wakeups: Wakeups
    const c: LibOsdp
    // the heap: reference-counted slots, and the boxes made for LibOSDP
    var slots: map<Id, Slot>
    var boxes: set<Id>
    var nextId: Id
    // the step system's state, and the run that led to it
    ghost var m: State
    ghost var run: seq<Label>

    ghost function Footprint(): set<object> {
      {this, events, events.queue, events.streamWaker, wakeups, c}
    }

    ghost predicate Recorded()
      reads this, events
    {
      && events.queue.capacity > 0
      && LegalRun(Init(role, events.queue.capacity), run)
      && m == Run(Init(role, events.queue.capacity), run)
    }

    /** The fields are those of the step system's state, but for the deferred
        wakers, which are `deferred` there. */
    ghost predicate Mirrors(deferred: seq<Task>)
      reads Footprint()
    {
      && m.busy == busy
      && m.mem.slots == slots && m.mem.boxes == boxes && m.mem.nextId == nextId
      && MirrorsOutside(deferred)
    }

    /** The fields besides the flag and the heap. */
    ghost predicate MirrorsOutside(deferred: seq<Task>)
      reads Footprint()
    {
      && m.role == role
      && m.lib == c.lib
      && m.events.capacity == events.queue.capacity
      && m.events.queue == events.queue.items && m.events.dropped == events.queue.dropped
      && m.events.replies == events.replies
      && m.wakes.stream == events.streamWaker.parked
      && m.wakes.deferred == deferred
    }

    ghost predicate Valid()
      reads Footprint()
    {
      Recorded() && Mirrors(wakeups.wakers)
    }

    constructor (role: Role, capacity: nat)
      requires capacity > 0
      ensures Valid() && m == Init(role, capacity) && fresh(Footprint())
    {
      this.role := role;
      busy := false;
      events := new CpEvents(capacity);
      wakeups := new Wakeups();
      c := new LibOsdp();
      slots, boxes, nextId := map[], {}, 0;
      m := Init(role, capacity);
      run := [];
    }

    /** The step system takes step `l`. */
    ghost method Take(l: Label)
      requires Recorded() && Legal(m, l)
      modifies this`m, this`run
      ensures Recorded() && m == Step(old(m), l) && run == old(run) + [l]
      ensures Control(m) && Later(old(m), m)
    {
      Invariant();
      StepIsLater(m, l);
      InvKept(m, l);
      RunSnoc(Init(role, events.queue.capacity), run, l);
      m := Step(m, l);
      run := run + [l];
    }

    lemma Governed()
      requires Recorded()
      ensures Control(m)
    {
      Invariant();
    }

    lemma Owns(id: Id)
      requires Recorded()
      ensures Owned(m, id)
    {
      Invariant();
      assert BoxOwned(m.mem, m.lib, m.stack, id);
    }

    lemma Invariant()
      requires Recorded()
      ensures Inv(m)
    {
      InvHoldsInitially(role, events.queue.capacity);
      InvKeptByRun(Init(role, events.queue.capacity), run);
    }

    /** Between calls the flag is down, no waker waits, a parked stream waker has
        nothing to wake for, and LibOSDP holds exactly the live boxes. */
    lemma BetweenCalls()
      requires Valid() && m.stack.Empty? && !m.gone
      ensures !busy && wakeups.wakers == [] && boxes == c.lib.held
      ensures events.streamWaker.parked.Some? ==> events.queue.items == []
    {
      QuiescentBetweenCalls(m);
      BoxesConserved(m);
    }

    /** What every call leaves: it is over, and took nothing back. */
    twostate predicate Returned()
      reads Footprint()
    {
      && m.stack == old(m.stack) && m.gone == old(m.gone) && busy == old(busy)
      && old(run) <= run && Later(old(m), m)
    }

    // --- the API -----------------------------------------------------------

    method Refresh(fuel: nat)
      requires Valid() && AppMayAct(m)
      modifies Footprint()
      ensures Valid() && Returned()
      ensures old(run) + [Label.Refresh] <= run
      ensures old(busy) ==> m == old(m)
      decreases fuel, 3
    {
      Take(Label.Refresh);
      if busy {
        return;
      }
      busy := true;
      var _, _ := LibRuns(Refreshing, fuel);
      Take(LibReturn(true));
      busy := false;
      WakeWaiting(fuel);
    }

    method WakeWaiting(fuel: nat)
      requires Recorded() && Mirrors(if busy then wakeups.wakers else [])
      requires !busy ==> m.stack.Push? && m.stack.top == Waking(wakeups.wakers)
      modifies Footprint()
      ensures Valid() && busy == old(busy) && m.gone == old(m.gone)
      ensures old(run) <= run && Later(old(m), m)
      ensures m.stack == if busy then old(m.stack) else old(m.stack).below
      ensures !busy ==> AllFired(old(wakeups.wakers), m.wakes.log, old(|m.wakes.log|))
      decreases fuel, 2
    {
      Governed();
      if busy {
        return;
      }
      ghost var all, below, n := wakeups.wakers, m.stack.below, |m.wakes.log|;
      var wakers := wakeups.TakeAll();
      ghost var fired: nat := 0;
      while wakers != []
        invariant Valid() && !busy && old(run) <= run && Later(old(m), m)
        invariant m.stack == Push(Waking(wakers), below) && !m.gone
        invariant fired <= |all| && wakers == all[fired..]
        invariant AllFired(all[..fired], m.wakes.log, n)
      {
        wakers := wakers[1..];
        ghost var log := m.wakes.log;
        FireNext(fuel);
        FiredAlso(all[..fired], all[fired], log, m.wakes.log, n);
        fired := fired + 1;
        assert all[..fired] == all[..fired - 1] + [all[fired - 1]];
      }
      ghost var log := m.wakes.log;
      WakeStream(fuel);
      assert all[..fired] == all;
      FiredLater(all, log, m.wakes.log, n);
    }

    /** Fire the next waker of the wake loop that is running. */
    method FireNext(fuel: nat)
      requires Valid() && !busy && m.stack.Push? && m.stack.top.Waking? && m.stack.top.todo != []
      modifies Footprint()
      ensures Valid() && !busy && m.gone == old(m.gone)
      ensures old(run) <= run && Later(old(m), m)
      ensures m.stack == Push(Waking(old(m.stack.top.todo)[1..]), old(m.stack.below))
      ensures old(m.wakes.log) + [old(m.stack.top.todo)[0]] <= m.wakes.log
      decreases fuel, 1, 1
    {
      Governed();
      Take(Wake);
      Application(fuel);
    }

    /** The last step of a wake loop: if there are events, the waker parked for them
        is fired. */
    method WakeStream(fuel: nat)
      requires Valid() && !busy && m.stack.Push? && m.stack.top == Waking([])
      modifies Footprint()
      ensures Valid() && !busy && m.gone == old(m.gone)
      ensures old(run) <= run && Later(old(m), m)
      ensures m.stack == old(m.stack).below
      ensures old(events.queue.items) != [] && old(events.streamWaker.parked).Some? ==>
                old(m.wakes.log) + [old(events.streamWaker.parked).value] <= m.wakes.log
      decreases fuel, 1, 1
    {
      Governed();
      Take(Wake);
      if events.queue.items != [] {
        var waker := events.streamWaker.Take();
        if waker.Some? {
          Application(fuel);
        }
      }
    }

    /** A panel's submit: refused without effect while it is busy, or if `cmd` does
        not convert. An accepted card command sets its PD's route, to its own slot
        if it `wants` the reply, and else to none. */
    method QueueCommand(pd: PdIndex, cmd: Cmd, wants: bool, fuel: nat) returns (r: Result<Id, Error>)
      requires Valid() && AppMayAct(m) && role.Cp?
      modifies Footprint()
      ensures Valid() && Returned()
      ensures old(run) + [Label.Submit(pd, cmd, wants)] <= run
      ensures old(busy) ==> r == Err(Rejected) && m == old(m)
      ensures !old(busy) && !cmd.valid ==> r == Err(InvalidArgument) && m == old(m)
      ensures !old(busy) && cmd.valid && r.Err? ==>
                r == Err(Rejected) && m.mem.frees[old(nextId)] == 1 && old(nextId) !in slots
      ensures r.Ok? ==>
                && r.value == old(nextId) && HasHandle(m.mem, r.value)
                && r.value in c.lib.ops && c.lib.ops[r.value] == Op(pd, cmd.kind, wants)
                && (cmd.kind in CARD_KINDS && wants ==> pd in events.replies && events.replies[pd] == r.value)
                && (cmd.kind in CARD_KINDS && !wants ==> pd !in events.replies)
      decreases fuel, 3, 1
    {
      if busy || !cmd.valid {
        Take(Label.Submit(pd, cmd, wants));
        return if busy then Err(Rejected) else Err(InvalidArgument);
      }
      var id, accepted := Offer(pd, cmd, wants, fuel);
      r := Conclude(id, pd, cmd.kind, wants, accepted);
    }

    /** Mark the context busy, box the command and have LibOSDP take it. */
    method Offer(pd: PdIndex, cmd: Cmd, wants: bool, fuel: nat) returns (id: Id, accepted: bool)
      requires Valid() && AppMayAct(m) && role.Cp? && !busy && cmd.valid
      modifies Footprint()
      ensures Valid() && !busy && id == old(nextId)
      ensures m.gone == old(m.gone) && Later(old(m), m)
      ensures old(run) + [Label.Submit(pd, cmd, wants)] <= run
      ensures m.stack == Push(Finishing(id, pd, cmd.kind, wants, accepted), old(m.stack))
      ensures accepted ==> id in c.lib.ops && c.lib.ops[id] == Op(pd, cmd.kind, wants)
      decreases fuel, 3, 0, 1
    {
      Take(Label.Submit(pd, cmd, wants));
      busy := true;
      id := IntoRaw();
      if cmd.kind == Some(FileTransfer) {
        var _, _ := LibRuns(Opening, fuel);
      }
      accepted := HandOver(id, pd, cmd.kind, wants, true, fuel);
    }

    /** Take a refused box back, or route the reply and hand out the handle. */
    method Conclude(id: Id, pd: PdIndex, kind: Option<MpKind>, wants: bool, accepted: bool)
      returns (r: Result<Id, Error>)
      requires Valid() && m.stack.Push? && m.stack.top == Finishing(id, pd, kind, wants, accepted)
      modifies Footprint()
      ensures Valid() && m == Step(old(m), Finish) && run == old(run) + [Finish] && Later(old(m), m)
      ensures busy == old(busy) && c.lib == old(c.lib)
      ensures m.stack == old(m.stack).below && m.gone == old(m.gone)
      ensures r == if accepted then Ok(id) else Err(Rejected)
      ensures !accepted ==> m.mem.frees[id] == 1 && id !in slots
      ensures accepted ==> HasHandle(m.mem, id)
      ensures accepted && kind in CARD_KINDS ==>
                events.replies == if wants then old(events.replies)[pd := id] else old(events.replies) - {pd}
      ensures !accepted || kind !in CARD_KINDS ==> events.replies == old(events.replies)
    {
      Governed();
      Owns(id);
      Take(Finish);
      if !accepted {
        Reclaim(id);
        slots := Unref(slots, id);
        return Err(Rejected);
      }
      if IsCard(kind) {
        events.RouteReply(pd, if wants then Some(id) else None);
      }
      slots := slots[id := slots[id].(hasHandle := true)];
      return Ok(id);
    }

    /** The C submit call returns; clear the flag if the submit holds it, and
        wake the tasks waiting. */
    method HandOver(id: Id, pd: PdIndex, kind: Option<MpKind>, wants: bool, guarded: bool, fuel: nat)
      returns (accepted: bool)
      requires Valid() && m.stack.Push? && m.stack.top == InSubmit(id, pd, kind, wants, guarded)
      modifies Footprint()
      ensures Valid() && busy == (old(busy) && !guarded)
      ensures m.gone == old(m.gone) && old(run) < run && Later(old(m), m)
      ensures m.stack == Push(Finishing(id, pd, kind, wants, accepted), old(m.stack).below)
      ensures accepted ==> id in c.lib.ops && c.lib.ops[id] == Op(pd, kind, wants)
      decreases fuel, 3, 0, 0
    {
      accepted := c.Decide(id, Op(pd, kind, wants));
      Take(LibReturn(accepted));
      if guarded {
        busy := false;
      }
      WakeWaiting(fuel);
    }

    /** A peripheral device's `submit`: it holds no flag. */
    method SubmitEvent(valid: bool, fuel: nat) returns (r: Result<Id, Error>)
      requires Valid() && AppMayAct(m) && role.Pd?
      modifies Footprint()
      ensures Valid() && Returned()
      ensures old(run) + [Label.Submit(0, Cmd(None, valid), false)] <= run
      ensures !valid ==> r == Err(InvalidArgument) && m == old(m)
      ensures valid && r.Err? ==>
                r == Err(Rejected) && m.mem.frees[old(nextId)] == 1 && old(nextId) !in slots
      ensures r.Ok? ==> r.value == old(nextId) && HasHandle(m.mem, r.value)
      decreases fuel, 3, 1
    {
      Take(Label.Submit(0, Cmd(None, valid), false));
      if !valid {
        return Err(InvalidArgument);
      }
      var id := IntoRaw();
      var accepted := HandOver(id, 0, None, false, false, fuel);
      r := Conclude(id, 0, None, false, accepted);
    }

    /** `Responder::reply`: hand over an event that no handle reports on. */
    method Reply(query: Option<nat>, status: Option<nat>, valid: bool) returns (r: Result<(), Error>)
      requires Valid() && Legal(m, Respond(valid))
      modifies Footprint()
      ensures Valid() && Returned()
      ensures query.Some? && status.Some? && query != status ==> r == Err(InvalidArgument) && m == old(m)
      ensures !valid ==> r == Err(InvalidArgument) && m == old(m)
      ensures r == Err(InvalidArgument) ==> !valid || (query.Some? && status.Some? && query != status)
      ensures r == Err(Rejected) ==> m.mem.frees[old(nextId)] == 1 && old(nextId) !in slots
      ensures r == Ok(()) ==> old(nextId) in boxes && !HasHandle(m.mem, old(nextId))
    {
      if query.Some? && status.Some? && query != status {
        return Err(InvalidArgument);
      }
      Take(Respond(valid));
      if !valid {
        return Err(InvalidArgument);
      }
      var id := IntoRaw();
      slots := Unref(slots, id);
      var accepted := SubmitReply(id);
      return if accepted then Ok(()) else Err(Rejected);
    }

    method SubmitReply(id: Id) returns (accepted: bool)
      requires Valid() && m.stack.Push? && m.stack.top == InReply(id)
      modifies Footprint()
      ensures Valid() && m.stack == old(m.stack).below && m.gone == old(m.gone) && busy == old(busy)
      ensures old(run) < run && Later(old(m), m)
      ensures !accepted ==> m.mem.frees[id] == 1 && id !in slots
      ensures accepted ==> id in boxes && !HasHandle(m.mem, id)
    {
      Governed();
      Owns(id);
      WindowsAreFrames(m.stack.below, id);
      accepted := c.Decide(id, Op(0, None, false));
      Take(LibReturn(accepted));
      if !accepted {
        Reclaim(id);
      }
    }

    /** A new box, and the slot it shares with the submit call. */
    method IntoRaw() returns (id: Id)
      modifies this`slots, this`boxes, this`nextId
      ensures id == old(nextId) && nextId == id + 1 && boxes == old(boxes) + {id}
      ensures slots == old(slots)[id := Slot(None, None, false, None, 2)]
    {
      id := nextId;
      slots := slots[id := Slot(None, None, false, None, 2)];
      boxes := boxes + {id};
      nextId := nextId + 1;
    }

    /** A live box goes, and its share of the slot with it. */
    method Reclaim(id: Id)
      requires id in boxes
      modifies this`slots, this`boxes
      ensures boxes == old(boxes) - {id} && slots == Unref(old(slots), id)
    {
      boxes := boxes - {id};
      slots := Unref(slots, id);
    }

    method Submit(pd: PdIndex, cmd: Cmd, fuel: nat) returns (r: Result<Id, Error>)
      requires Valid() && AppMayAct(m) && role.Cp?
      modifies Footprint()
      ensures Valid() && Returned()
      ensures old(busy) ==> r == Err(Rejected) && m == old(m)
      ensures r.Ok? ==>
                && HasHandle(m.mem, r.value)
                && r.value in c.lib.ops && c.lib.ops[r.value] == Op(pd, cmd.kind, false)
                && (cmd.kind in CARD_KINDS ==> pd !in events.replies)
      decreases fuel, 4
    {
      r := QueueCommand(pd, cmd, false, fuel);
    }

    /** `piv_data`, `general_auth` and `challenge_auth`. */
    method SubmitCard(pd: PdIndex, kind: MpKind, valid: bool, fuel: nat) returns (r: Result<Id, Error>)
      requires Valid() && AppMayAct(m) && role.Cp? && Some(kind) in CARD_KINDS
      modifies Footprint()
      ensures Valid() && Returned()
      ensures old(busy) ==> r == Err(Rejected) && m == old(m)
      ensures r.Ok? ==>
                && HasHandle(m.mem, r.value)
                && r.value in c.lib.ops && c.lib.ops[r.value] == Op(pd, Some(kind), true)
                && pd in events.replies && events.replies[pd] == r.value
      decreases fuel, 4
    {
      r := QueueCommand(pd, Cmd(Some(kind), valid), true, fuel);
    }

    /** `done` are the submissions dropped from the queue. */
    method Flush(fuel: nat) returns (dropped: nat, ghost done: set<Id>)
      requires Valid() && AppMayAct(m)
      modifies Footprint()
      ensures Valid() && Returned()
      ensures old(run) + [Label.Flush] <= run
      ensures dropped == |done| && forall id <- done :: Dropped(m, id)
      decreases fuel, 3
    {
      Take(Label.Flush);
      var count;
      count, done := LibRuns(Flushing, fuel);
      // an error code says that nothing was dropped
      var rc: int := *;
      if rc >= 0 || count > 0 {
        rc := count;
      }
      ghost var before := m;
      Take(LibReturn(true));
      WakeWaiting(fuel);
      StillDropped(before, m, done);
      dropped := if rc < 0 then 0 else rc;
    }

    method NextEvent() returns (item: Option<(PdIndex, Item)>)
      requires Valid() && AppMayAct(m)
      modifies Footprint()
      ensures Valid() && Returned()
      ensures m == Step(old(m), Label.NextEvent)
      ensures item == if old(events.queue.items) == [] then None else Some(old(events.queue.items)[0])
    {
      Take(Label.NextEvent);
      item := events.queue.Pop();
    }

    /** `EventStream::poll_next`: the oldest event, or the waker parked. */
    method PollStream(task: Task) returns (item: Option<(PdIndex, Item)>)
      requires Valid() && AppMayAct(m)
      modifies Footprint()
      ensures Valid() && Returned()
      ensures m == Step(old(m), Label.PollStream(task))
      ensures item == if old(events.queue.items) == [] then None else Some(old(events.queue.items)[0])
      ensures events.streamWaker.parked == if item.None? then Some(task) else old(events.streamWaker.parked)
    {
      Take(Label.PollStream(task));
      item := events.queue.Pop();
      if item.None? {
        events.streamWaker.Register(task);
      }
    }

    /** Polling a submission's future: its outcome, or the waker parked. */
    method Poll(id: Id, task: Task) returns (outcome: Option<Outcome>)
      requires Valid() && AppMayAct(m) && HasHandle(m.mem, id)
      modifies Footprint()
      ensures Valid() && Returned()
      ensures m == Step(old(m), Label.Poll(id, task))
      ensures outcome == old(slots[id].status)
      ensures slots == if outcome.None? then old(slots)[id := old(slots[id]).(waker := Some(task))] else old(slots)
    {
      Take(Label.Poll(id, task));
      outcome := slots[id].status;
      if outcome.None? {
        slots := slots[id := slots[id].(waker := Some(task))];
      }
    }

    /** The same for a card command: its outcome comes with what its slot caught. */
    method PollCard(id: Id, task: Task) returns (outcome: Option<Result<PivReply, CompletionError>>)
      requires Valid() && AppMayAct(m) && HasHandle(m.mem, id)
      modifies Footprint()
      ensures Valid() && Returned()
      ensures m == Step(old(m), Label.Poll(id, task))
      ensures outcome == PivStatus(old(slots[id]))
      ensures outcome.None? <==> old(slots[id].status.None?)
      ensures old(slots[id].status.Some? && slots[id].status.value.Err?) ==>
                outcome.value == Err(old(slots[id].status.value.error))
      ensures old(slots[id].status == Some(Ok(()))) ==>
                if old(slots[id].reply.Some?) then outcome.value == Ok(old(slots[id].reply.value))
                else outcome.value == Err(Failed)
      ensures slots == if outcome.None? then old(slots)[id := old(slots[id]).(waker := Some(task))] else old(slots)
    {
      var status := Poll(id, task);
      match status
      case None => outcome := None;
      case Some(Err(e)) => outcome := Some(Err(e));
      case Some(Ok(_)) =>
        var reply := slots[id].reply;
        outcome := Some(if reply.Some? then Ok(reply.value) else Err(Failed));
    }

    method DropHandle(id: Id)
      requires Valid() && AppMayAct(m) && HasHandle(m.mem, id)
      modifies Footprint()
      ensures Valid() && Returned()
      ensures m == Step(old(m), Label.DropHandle(id)) && !HasHandle(m.mem, id)
      ensures boxes == old(boxes) && (id in slots <==> id in boxes)
      ensures id in slots ==> slots[id] == old(slots[id]).(hasHandle := false, strong := 1)
      ensures forall other: Id | other != id :: Lookup(slots, other) == old(Lookup(slots, other))
    {
      Owns(id);
      Take(Label.DropHandle(id));
      slots := slots[id := slots[id].(hasHandle := false)];
      slots := Unref(slots, id);
    }

    /** Tear the context down. Every handle borrows it, so none is left. */
    method Drop()
      requires Valid() && AppMayAct(m) && m.stack.Empty? && forall id <- slots :: !HasHandle(m.mem, id)
      modifies Footprint()
      ensures Valid() && m.gone && boxes == {} && slots == map[]
    {
      Take(Teardown);
      while c.lib.held != {}
        invariant Valid() && m.stack == Push(InTeardown, Empty) && !m.gone
        decreases |c.lib.held|
      {
        Governed();
        var id :| id in c.lib.held;
        Owns(id);
        CommandComplete(id, 3);
      }
      Take(LibReturn(true));
      assert Reachable(m);
      TeardownFreesAll(m);
    }

    // --- callbacks -----------------------------------------------------------

    /** Whether the submission routed to on `pd` is pending and can be read. */
    ghost predicate Waits(pd: PdIndex)
      reads this, events
    {
      && pd in events.replies && events.replies[pd] in slots
      && slots[events.replies[pd]].status.None? && slots[events.replies[pd]].hasHandle
    }

    /** A reply uses up the route of its PD, and lands in the slot there if that is
        pending and has a handle. What did not land comes back. */
    method DeliverReply(pd: PdIndex, item: Item) returns (back: Option<Item>)
      modifies this`slots, events`replies
      ensures !IsReply(item) ==> back == Some(item) && slots == old(slots) && events.replies == old(events.replies)
      ensures IsReply(item) ==> events.replies == old(events.replies) - {pd}
      ensures IsReply(item) && old(Waits(pd)) ==>
                var id := old(events.replies)[pd];
                back == None && slots == old(slots)[id := old(slots)[id].(reply := Some(item.reply))]
      ensures IsReply(item) && !old(Waits(pd)) ==> back == Some(item) && slots == old(slots)
    {
      if !IsReply(item) {
        return Some(item);
      }
      var waiting := if pd in events.replies then Some(events.replies[pd]) else None;
      events.replies := events.replies - {pd};
      if waiting.Some? && waiting.value in slots
         && slots[waiting.value].status.None? && slots[waiting.value].hasHandle {
        slots := slots[waiting.value := slots[waiting.value].(reply := Some(item.reply))];
        return None;
      }
      return Some(item);
    }

    /** LibOSDP's event callback: the event step; -1 for no event. */
    method EventTrampoline(pd: PdIndex, item: Option<Item>) returns (rc: int)
      requires Valid() && Legal(m, LibEvent(pd, item))
      modifies Footprint()
      ensures Valid() && Returned()
      ensures m == Step(old(m), LibEvent(pd, item))
      ensures rc == if item.None? then -1 else 0
      ensures item.Some? && (item.value.OtherEvent? || item.value.Notification?) ==>
                && slots == old(slots) && events.replies == old(events.replies)
                && (old(|events.queue.items|) < events.queue.capacity ==>
                      && events.queue.items == old(events.queue.items) + [(pd, item.value)]
                      && events.queue.dropped == old(events.queue.dropped))
                && (old(|events.queue.items|) >= events.queue.capacity ==>
                      && events.queue.items == old(events.queue.items)
                      && events.queue.dropped == old(events.queue.dropped) + 1)
      ensures item.None? ==> m == old(m)
    {
      if item.Some? && !IsReply(item.value) {
        EventIsQueued(m, pd, item.value);
      }
      Take(LibEvent(pd, item));
      if item.None? {
        return -1;
      }
      if IsReply(item.value) {
        c.lib := Answer(c.lib, pd, item.value.reply);
      }
      var back := DeliverReply(pd, item.value);
      if back.Some? {
        events.queue.Push((pd, back.value));
      }
      return 0;
    }

    /** LibOSDP's completion callback: the completion step, on a live box. */
    method CommandComplete(id: Id, status: nat)
      requires Valid() && Legal(m, LibComplete(id, status))
      requires id in boxes && id in slots
      modifies Footprint()
      ensures Valid() && Returned()
      ensures m == Step(old(m), LibComplete(id, status))
      ensures c.lib.held == old(c.lib.held) - {id} && boxes == old(boxes) - {id}
      ensures id in slots ==> Reports(slots[id].status, status) && slots[id].reply == old(slots[id].reply)
      ensures forall other: Id | other != id :: Lookup(slots, other) == old(Lookup(slots, other))
      ensures wakeups.wakers ==
                old(wakeups.wakers) + old(if slots[id].waker.Some? then [slots[id].waker.value] else [])
    {
      ghost var before := m;
      Invariant();
      CompletionIsReported(m, id, status);
      Take(LibComplete(id, status));
      c.lib := Release(c.lib, id);
      var waker := slots[id].waker;
      slots := slots[id := slots[id].(status := Some(Completion(status)), waker := None)];
      if waker.Some? {
        wakeups.Defer(waker.value);
      }
      boxes := boxes - {id};
      slots := Unref(slots, id);
    }

    // --- the code around the context ---------------------------------------------

    /** Whatever the application does next: any calls of the context's API. */
    method Application(fuel: nat)
      requires Valid() && AppMayAct(m)
      modifies Footprint()
      ensures Valid() && Returned()
      decreases fuel, 1, 0
    {
      var calls: nat := *;
      while calls > 0 && fuel > 0
        invariant Valid() && Returned()
        decreases calls
      {
        var pd: PdIndex, cmd: Cmd, kind: MpKind, id: Id, task: Task := *, *, *, *, *;
        if {
          case true => Refresh(fuel - 1);
          case role.Cp? => var _ := Submit(pd, cmd, fuel - 1);
          case role.Cp? && Some(kind) in CARD_KINDS => var _ := SubmitCard(pd, kind, cmd.valid, fuel - 1);
          case role.Pd? => var _ := SubmitEvent(cmd.valid, fuel - 1);
          case true => var _, _ := Flush(fuel - 1);
          case true => var _ := NextEvent();
          case true => var _ := PollStream(task);
          case id in slots && slots[id].hasHandle => var _ := Poll(id, task);
          case id in slots && slots[id].hasHandle => var _ := PollCard(id, task);
          case id in slots && slots[id].hasHandle => DropHandle(id);
        }
        calls := calls - 1;
      }
    }

    /** Whatever LibOSDP does in a C call that runs callbacks; `count` is how many
        submissions it completes itself, `done` those that ride the queue. */
    method LibRuns(call: Call, fuel: nat) returns (count: nat, ghost done: set<Id>)
      requires Valid() && m.stack.Push? && RunsCallbacks(m.stack.top) && Makes(call, m.stack.top)
      modifies Footprint()
      ensures Valid() && Returned()
      ensures call.Flushing? ==> count == |done|
      ensures forall id <- done :: Dropped(m, id)
      decreases fuel, 2
    {
      count, done := 0, {};
      var steps: nat := *;
      while steps > 0
        invariant Valid() && Returned()
        invariant call.Flushing? ==> count == |done|
        invariant forall id <- done :: Dropped(m, id)
        decreases steps
      {
        ghost var before := m;
        var completed := LibActs(call, fuel);
        StillDropped(before, m, done);
        if completed.Some? {
          if call.Flushing? {
            done := done + {completed.value};
          }
          count := count + 1;
        }
        steps := steps - 1;
      }
    }

    /** One thing LibOSDP does there: an event, a completion that this call can
        make, application code; in a device's refresh, a command handler that may
        answer through its responder. */
    method LibActs(call: Call, fuel: nat) returns (completed: Option<Id>)
      requires Valid() && m.stack.Push? && RunsCallbacks(m.stack.top) && Makes(call, m.stack.top)
      modifies Footprint()
      ensures Valid() && Returned()
      ensures completed.Some? ==> completed.value !in old(m.mem.frees) && completed.value in m.mem.frees
      ensures completed.Some? && call.Flushing? ==> Dropped(m, completed.value)
      decreases fuel, 1, 3
    {
      Governed();
      completed := None;
      var pd: PdIndex, item: Option<Item>, id: Id, status: nat := *, *, *, *;
      if {
        case c.MayReport(call.Refreshing?, pd, item) => var _ := EventTrampoline(pd, item);
        case MayComplete(FrameOf(call), c.lib, id, status) =>
          Owns(id);
          CommandComplete(id, status);
          completed := Some(id);
        case call.Refreshing? && role.Pd? =>
          var query: Option<nat>, kind: Option<nat>, valid: bool := *, *, *;
          var _ := Reply(query, kind, valid);
        case true => Application(fuel);
      }
    }
  }
}
