/** The submission, reply and wake engine of a LibOSDP context, as a step system.

    A step is one move of the application (a call of the context's API), of
    LibOSDP (a callback, or the return of the C call it is running), or of the
    Rust code between two of those. Calls nest: the stack holds one frame for
    each call that has not returned, so a run covers every way callbacks and
    wakers can call back into the context. */
module Engine {
  import opened Wrappers

  type PdIndex = nat
  type Id = nat
  type Task = nat

  datatype Role = Cp | Pd

  datatype CompletionError = Failed | Flushed | Aborted
  type Outcome = Result<(), CompletionError>

  datatype PivReply = PivReply(data: seq<nat>)

  datatype MpKind = FileTransfer | Piv | GenAuth | CrAuth | BioRead

  /** A command or event to submit: the multi-part operation it starts, if any,
      and whether LibOSDP's struct can express it. */
  datatype Cmd = Cmd(kind: Option<MpKind>, valid: bool)

  datatype Item =
    | PivData(reply: PivReply)
    | GenAuthReply(reply: PivReply)
    | CrAuthReply(reply: PivReply)
    | OtherEvent(code: nat)
    | Notification(code: nat)

  predicate IsReply(item: Item) {
    item.PivData? || item.GenAuthReply? || item.CrAuthReply?
  }

  /** Whether a command of this kind is answered with a reply of its own. */
  predicate IsCard(kind: Option<MpKind>) {
    kind == Some(Piv) || kind == Some(GenAuth) || kind == Some(CrAuth)
  }

  /** LibOSDP's completion codes: 0 is OK, 2 flushed, 3 aborted. */
  function Completion(status: nat): Outcome {
    if status == 0 then Ok(())
    else if status == 2 then Err(Flushed)
    else if status == 3 then Err(Aborted)
    else Err(Failed)
  }

  /** What a submission and the box LibOSDP holds for it share; `strong` counts
      the box, and the handle or the submit call that is about to return one. */
  datatype Slot = Slot(
    status: Option<Outcome>,
    reply: Option<PivReply>,
    hasHandle: bool,
    waker: Option<Task>,
    strong: nat)

  /** What a plain submission's handle reports. */
  function UnitStatus(slot: Slot): Option<Outcome> {
    slot.status
  }

  /** What a card command's handle reports. */
  function PivStatus(slot: Slot): Option<Result<PivReply, CompletionError>> {
    match slot.status
    case None => None
    case Some(Err(e)) => Some(Err(e))
    case Some(Ok(_)) => Some(if slot.reply.Some? then Ok(slot.reply.value) else Err(Failed))
  }

  /** A call that has not returned. The first five are inside a C call. */
  datatype Frame =
    | InRefresh
    | InSubmit(id: Id, pd: PdIndex, kind: Option<MpKind>, wants: bool, guarded: bool)
    | InReply(id: Id)
    | InFlush
    | InTeardown
    | Waking(todo: seq<Task>)
    | Finishing(id: Id, pd: PdIndex, kind: Option<MpKind>, wants: bool, accepted: bool)

  datatype Stack = Empty | Push(top: Frame, below: Stack)

  /** An accepted submission, as LibOSDP knows it. */
  datatype Op = Op(pd: PdIndex, kind: Option<MpKind>, wants: bool)

  datatype Polled = Polled(task: Task, at: nat)

  /** The slots and boxes on the heap, and how often each box was freed. */
  datatype Memory = Memory(
    slots: map<Id, Slot>,
    boxes: set<Id>,
    nextId: Id,
    frees: multiset<Id>)

  /** LibOSDP: every submission it ever accepted, those it still holds, the
      card command each PD is running, and the first reply to each of these. */
  datatype Lib = Lib(
    ops: map<Id, Op>,
    held: set<Id>,
    running: map<PdIndex, Id>,
    first: map<Id, PivReply>)

  /** What happened to a card command: the call that submitted it returned its
      handle, or LibOSDP reported a reply to it. */
  datatype Mark =
    | Handed(pd: PdIndex, id: Id, wants: bool)
    | Answered(pd: PdIndex, id: Id, reply: PivReply)

  /** The event queue and where replies go, with the history of both. */
  datatype Events = Events(
    capacity: nat,
    queue: seq<(PdIndex, Item)>,
    dropped: nat,
    replies: map<PdIndex, Id>,
    pushed: seq<(PdIndex, Item)>,
    popped: seq<(PdIndex, Item)>,
    delivered: nat,
    converted: nat,
    trace: seq<Mark>)

  /** Wakers waiting to be fired, those fired, and who polled a submission to
      pending last, with how many wakers had been fired by then. */
  datatype Wakes = Wakes(
    deferred: seq<Task>,
    stream: Option<Task>,
    log: seq<Task>,
    polled: map<Id, Polled>)

  datatype State = State(
    role: Role,
    busy: bool,
    stack: Stack,
    gone: bool,
    mem: Memory,
    lib: Lib,
    events: Events,
    wakes: Wakes)

  function Init(role: Role, capacity: nat): State {
    State(role, false, Empty, false,
          Memory(map[], {}, 0, multiset{}),
          Lib(map[], {}, map[], map[]),
          Events(capacity, [], 0, map[], [], [], 0, 0, []),
          Wakes([], None, [], map[]))
  }

  datatype Label =
    // the application; it may act anywhere except inside teardown
    | Refresh
    | Submit(pd: PdIndex, cmd: Cmd, wants: bool)
    | Respond(valid: bool)
    | Flush
    | NextEvent
    | PollStream(task: Task)
    | Poll(id: Id, task: Task)
    | DropHandle(id: Id)
    | Teardown
    // LibOSDP
    | LibEvent(pd: PdIndex, item: Option<Item>)
    | LibComplete(id: Id, status: nat)
    | LibReturn(accept: bool)
    // the context, between C returning and its own call returning
    | Wake
    | Finish

  // --- the stack ---------------------------------------------------------

  predicate InC(f: Frame) {
    f.InRefresh? || f.InSubmit? || f.InReply? || f.InFlush? || f.InTeardown?
  }

  predicate Guarded(f: Frame) {
    f.InRefresh? || (f.InSubmit? && f.guarded)
  }

  predicate HoldsBusy(st: Stack) {
    st.Push? && (Guarded(st.top) || HoldsBusy(st.below))
  }

  predicate HasC(st: Stack) {
    st.Push? && (InC(st.top) || HasC(st.below))
  }

  predicate HasWaking(st: Stack) {
    st.Push? && (st.top.Waking? || HasWaking(st.below))
  }

  /** Whether `t` waits to be fired by a wake loop that is running. */
  predicate InTodo(st: Stack, t: Task) {
    st.Push? && ((st.top.Waking? && t in st.top.todo) || InTodo(st.below, t))
  }

  /** Whether submission `id`'s submit call has not returned. */
  predicate Returning(st: Stack, id: Id) {
    st.Push? &&
    (((st.top.InSubmit? || st.top.Finishing?) && st.top.id == id) || Returning(st.below, id))
  }

  /** Whether box `id` was made for LibOSDP, which has not taken it over. */
  predicate Unaccepted(st: Stack, id: Id) {
    st.Push? &&
    (((st.top.InSubmit? || st.top.InReply? || (st.top.Finishing? && !st.top.accepted))
      && st.top.id == id) || Unaccepted(st.below, id))
  }

  // --- the pieces of a step ----------------------------------------------

  /** One owner of slot `id` goes away; the last one frees it. */
  function Unref(slots: map<Id, Slot>, id: Id): map<Id, Slot> {
    if id !in slots then slots
    else if slots[id].strong <= 1 then slots - {id}
    else slots[id := slots[id].(strong := slots[id].strong - 1)]
  }

  /** Box a submission: slot `nextId` has `owners`, the box among them. */
  function IntoRaw(m: Memory, owners: nat): Memory {
    m.(slots := m.slots[m.nextId := Slot(None, None, false, None, owners)],
       boxes := m.boxes + {m.nextId},
       nextId := m.nextId + 1)
  }

  function FreeBox(m: Memory, id: Id): Memory {
    m.(slots := Unref(m.slots, id),
       boxes := m.boxes - {id},
       frees := m.frees + multiset{id})
  }

  /** LibOSDP is done with box `id`: report `outcome` and free the box. */
  function CompleteBox(m: Memory, id: Id, outcome: Outcome): Memory
    requires id in m.slots
  {
    FreeBox(m.(slots := m.slots[id := m.slots[id].(status := Some(outcome), waker := None)]), id)
  }

  function PushItem(e: Events, pd: PdIndex, item: Item): Events {
    if |e.queue| < e.capacity then
      e.(queue := e.queue + [(pd, item)], pushed := e.pushed + [(pd, item)])
    else
      e.(dropped := e.dropped + 1)
  }

  function PopItem(e: Events): Events {
    if e.queue == [] then e
    else e.(queue := e.queue[1..], popped := e.popped + [e.queue[0]])
  }

  /** Take the deferred wakers to fire, unless a callback is running. */
  function WakeWaiting(s: State): State {
    if s.busy then s
    else s.(stack := Push(Waking(s.wakes.deferred), s.stack), wakes := s.wakes.(deferred := []))
  }

  function Accept(lib: Lib, id: Id, op: Op): Lib {
    lib.(ops := lib.ops[id := op],
         held := lib.held + {id},
         running := if IsCard(op.kind) then lib.running[op.pd := id] else lib.running)
  }

  function Release(lib: Lib, id: Id): Lib
    requires id in lib.ops
  {
    lib.(held := lib.held - {id},
         running := if IsCard(lib.ops[id].kind) then lib.running - {lib.ops[id].pd} else lib.running)
  }

  function Answer(lib: Lib, pd: PdIndex, reply: PivReply): Lib {
    if pd in lib.running && lib.running[pd] !in lib.first
    then lib.(first := lib.first[lib.running[pd] := reply])
    else lib
  }

  function Noted(e: Events, lib: Lib, pd: PdIndex, reply: PivReply): Events {
    if pd in lib.running then e.(trace := e.trace + [Answered(pd, lib.running[pd], reply)]) else e
  }

  /** The slot a reply on `pd` is routed to, if it still waits for one. */
  function Waiting(m: Memory, e: Events, pd: PdIndex): Option<Id> {
    if pd in e.replies && e.replies[pd] in m.slots
       && m.slots[e.replies[pd]].status.None? && m.slots[e.replies[pd]].hasHandle
    then Some(e.replies[pd]) else None
  }

  function EventStep(s: State, pd: PdIndex, item: Item): State {
    var e := s.events.(converted := s.events.converted + 1);
    if !IsReply(item) then s.(events := PushItem(e, pd, item))
    else
      var e := Noted(e.(replies := e.replies - {pd}), s.lib, pd, item.reply);
      var lib := Answer(s.lib, pd, item.reply);
      match Waiting(s.mem, s.events, pd)
      case Some(id) =>
        var slots := s.mem.slots[id := s.mem.slots[id].(reply := Some(item.reply))];
        s.(mem := s.mem.(slots := slots), lib := lib, events := e.(delivered := e.delivered + 1))
      case None =>
        s.(lib := lib, events := PushItem(e, pd, item))
  }

  function Deferring(deferred: seq<Task>, waker: Option<Task>): seq<Task> {
    match waker
    case Some(t) => deferred + [t]
    case None => deferred
  }

  function CompleteStep(s: State, id: Id, status: nat): State {
    if id !in s.mem.slots || id !in s.lib.ops then s
    else
      s.(mem := CompleteBox(s.mem, id, Completion(status)),
         lib := Release(s.lib, id),
         wakes := s.wakes.(deferred := Deferring(s.wakes.deferred, s.mem.slots[id].waker)))
  }

  function ReturnStep(s: State, accept: bool): State {
    if s.stack.Empty? then s
    else
      var below := s.stack.below;
      match s.stack.top
      case InRefresh => WakeWaiting(s.(busy := false, stack := below))
      case InFlush => WakeWaiting(s.(stack := below))
      case InSubmit(id, pd, kind, wants, guarded) =>
        WakeWaiting(s.(busy := s.busy && !guarded,
                       stack := Push(Finishing(id, pd, kind, wants, accept), below),
                       lib := if accept then Accept(s.lib, id, Op(pd, kind, wants)) else s.lib))
      case InReply(id) =>
        if accept then s.(stack := below, lib := Accept(s.lib, id, Op(0, None, false)))
        else s.(stack := below, mem := FreeBox(s.mem, id))
      case InTeardown => s.(gone := true, stack := below)
      case _ => s
  }

  function WakeStep(s: State): State {
    if !(s.stack.Push? && s.stack.top.Waking?) then s
    else if s.stack.top.todo != [] then
      s.(stack := Push(Waking(s.stack.top.todo[1..]), s.stack.below),
         wakes := s.wakes.(log := s.wakes.log + [s.stack.top.todo[0]]))
    else if s.events.queue != [] && s.wakes.stream.Some? then
      s.(stack := s.stack.below,
         wakes := s.wakes.(log := s.wakes.log + [s.wakes.stream.value], stream := None))
    else
      s.(stack := s.stack.below)
  }

  /** The reply on `pd` goes to `id` from now on, or to the queue. */
  function HandOut(e: Events, pd: PdIndex, id: Id, wants: bool): Events {
    e.(replies := if wants then e.replies[pd := id] else e.replies - {pd},
       trace := e.trace + [Handed(pd, id, wants)])
  }

  function FinishStep(s: State): State {
    if !(s.stack.Push? && s.stack.top.Finishing?) || s.stack.top.id !in s.mem.slots then s
    else
      var f := s.stack.top;
      if !f.accepted then
        var m := FreeBox(s.mem, f.id);
        s.(stack := s.stack.below, mem := m.(slots := Unref(m.slots, f.id)))
      else
        var slots := s.mem.slots[f.id := s.mem.slots[f.id].(hasHandle := true)];
        var events := if IsCard(f.kind) then HandOut(s.events, f.pd, f.id, f.wants) else s.events;
        s.(stack := s.stack.below, mem := s.mem.(slots := slots), events := events)
  }

  function SubmitStep(s: State, pd: PdIndex, cmd: Cmd, wants: bool): State {
    if (s.role.Cp? && s.busy) || !cmd.valid then s
    else
      var frame := InSubmit(s.mem.nextId, pd, cmd.kind, wants, s.role.Cp?);
      s.(busy := s.busy || s.role.Cp?, stack := Push(frame, s.stack), mem := IntoRaw(s.mem, 2))
  }

  function RespondStep(s: State, valid: bool): State {
    if !valid then s
    else s.(stack := Push(InReply(s.mem.nextId), s.stack), mem := IntoRaw(s.mem, 1))
  }

  function PollStep(s: State, id: Id, t: Task): State {
    if id in s.mem.slots && s.mem.slots[id].status.None? then
      s.(mem := s.mem.(slots := s.mem.slots[id := s.mem.slots[id].(waker := Some(t))]),
         wakes := s.wakes.(polled := s.wakes.polled[id := Polled(t, |s.wakes.log|)]))
    else s
  }

  function DropStep(s: State, id: Id): State {
    if id !in s.mem.slots then s
    else
      var slots := s.mem.slots[id := s.mem.slots[id].(hasHandle := false)];
      s.(mem := s.mem.(slots := Unref(slots, id)))
  }

  function Step(s: State, l: Label): State {
    match l
    case Refresh => if s.busy then s else s.(busy := true, stack := Push(InRefresh, s.stack))
    case Submit(pd, cmd, wants) => SubmitStep(s, pd, cmd, wants)
    case Respond(valid) => RespondStep(s, valid)
    case Flush => s.(stack := Push(InFlush, s.stack))
    case NextEvent => s.(events := PopItem(s.events))
    case PollStream(t) =>
      if s.events.queue != [] then s.(events := PopItem(s.events))
      else s.(wakes := s.wakes.(stream := Some(t)))
    case Poll(id, t) => PollStep(s, id, t)
    case DropHandle(id) => DropStep(s, id)
    case Teardown => s.(stack := Push(InTeardown, s.stack))
    case LibEvent(pd, item) => if item.None? then s else EventStep(s, pd, item.value)
    case LibComplete(id, status) => CompleteStep(s, id, status)
    case LibReturn(accept) => ReturnStep(s, accept)
    case Wake => WakeStep(s)
    case Finish => FinishStep(s)
  }

  // --- which steps can happen --------------------------------------------

  predicate HasHandle(m: Memory, id: Id) {
    id in m.slots && m.slots[id].hasHandle
  }

  /** The C calls that run callbacks of the application: a submit runs the one
      that opens the file of a transfer it starts, teardown only completions. */
  predicate RunsCallbacks(f: Frame) {
    f.InRefresh? || f.InFlush? || (f.InSubmit? && f.guarded && f.kind == Some(FileTransfer))
  }

  predicate AppMayAct(s: State) {
    !s.gone && (s.stack.Push? && InC(s.stack.top) ==> RunsCallbacks(s.stack.top))
  }

  /** Whether a flush drops such a submission: those that LibOSDP runs across
      many exchanges are not in the queue it empties. */
  predicate RidesQueue(kind: Option<MpKind>) {
    !IsCard(kind) && kind != Some(FileTransfer)
  }

  /** Which completions the C call that is running can make. */
  predicate MayComplete(f: Frame, lib: Lib, id: Id, status: nat) {
    && id in lib.held && id in lib.ops
    && match f
       case InRefresh => IsCard(lib.ops[id].kind) && status == 0 ==> id in lib.first
       case InFlush => RidesQueue(lib.ops[id].kind) && status == 2
       case InTeardown => status == 3
       case _ => false
  }

  /** LibOSDP's side of the contract, with what Rust's ownership rules out for
      the application: using a handle it does not have, tearing a context down
      while it is borrowed. */
  predicate Legal(s: State, l: Label) {
    match l
    case Refresh => AppMayAct(s)
    case Submit(pd, cmd, wants) => AppMayAct(s) && (s.role.Pd? ==> cmd.kind.None? && !wants)
    case Respond(_) => s.role.Pd? && s.stack.Push? && s.stack.top.InRefresh?
    case Flush => AppMayAct(s)
    case NextEvent => AppMayAct(s)
    case PollStream(_) => AppMayAct(s)
    case Poll(id, _) => AppMayAct(s) && HasHandle(s.mem, id)
    case DropHandle(id) => AppMayAct(s) && HasHandle(s.mem, id)
    case Teardown => !s.gone && s.stack.Empty? && forall id <- s.mem.slots :: !HasHandle(s.mem, id)
    case LibEvent(pd, item) =>
      && s.stack.Push? && (RunsCallbacks(s.stack.top) || s.stack.top.InTeardown?)
      && (item.Some? && IsReply(item.value) ==> s.stack.top.InRefresh? && pd in s.lib.running)
    case LibComplete(id, status) => s.stack.Push? && MayComplete(s.stack.top, s.lib, id, status)
    case LibReturn(accept) =>
      && s.stack.Push? && InC(s.stack.top)
      && (s.stack.top.InTeardown? ==> s.lib.held == {})
      && (s.stack.top.InSubmit? && accept && IsCard(s.stack.top.kind)
          ==> s.stack.top.pd !in s.lib.running)
    case Wake => s.stack.Push? && s.stack.top.Waking?
    case Finish => s.stack.Push? && s.stack.top.Finishing?
  }

  /** Whether a card command that LibOSDP accepted waits for its submit call to
      return: the wakers that call fires on its way out run now. */
  predicate CardReturning(st: Stack) {
    st.Push? && ((st.top.Finishing? && st.top.accepted && IsCard(st.top.kind)) || CardReturning(st.below))
  }

  /** What a caller can keep to: no refresh before such a call has returned. */
  predicate Calm(s: State, l: Label) {
    l.Refresh? ==> !CardReturning(s.stack)
  }

  // --- runs ----------------------------------------------------------------

  function Run(s: State, ls: seq<Label>): State
    decreases ls
  {
    if ls == [] then s else Run(Step(s, ls[0]), ls[1..])
  }

  ghost predicate LegalRun(s: State, ls: seq<Label>)
    decreases ls
  {
    ls != [] ==> Legal(s, ls[0]) && LegalRun(Step(s, ls[0]), ls[1..])
  }

  ghost predicate CalmRun(s: State, ls: seq<Label>)
    decreases ls
  {
    ls != [] ==> Calm(s, ls[0]) && CalmRun(Step(s, ls[0]), ls[1..])
  }

  lemma {:induction false} RunSnoc(s: State, ls: seq<Label>, l: Label)
    ensures Run(s, ls + [l]) == Step(Run(s, ls), l)
    ensures LegalRun(s, ls + [l]) <==> LegalRun(s, ls) && Legal(Run(s, ls), l)
    ensures CalmRun(s, ls + [l]) <==> CalmRun(s, ls) && Calm(Run(s, ls), l)
    decreases ls
  {
    if ls == [] {
      assert [l][1..] == [];
    } else {
      assert (ls + [l])[1..] == ls[1..] + [l];
      RunSnoc(Step(s, ls[0]), ls[1..], l);
    }
  }
}
