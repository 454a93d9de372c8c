/** Where the replies to PIV and authenticate commands go: in every run, and in
    the runs that `Engine.Calm` describes. */
module EngineRouting {
  import opened Wrappers
  import opened Engine
  import opened EngineInvariants

  predicate CardOp(lib: Lib, id: Id) {
    id in lib.ops && IsCard(lib.ops[id].kind)
  }

  // --- what a history of marks says ------------------------------------------

  function Before(trace: seq<Mark>): seq<Mark>
    requires trace != []
  {
    trace[..|trace| - 1]
  }

  function Latest(trace: seq<Mark>): Mark
    requires trace != []
  {
    trace[|trace| - 1]
  }

  /** The command that the next reply on `pd` is for, by the last mark on it. */
  function Route(trace: seq<Mark>, pd: PdIndex): Option<Id> {
    if trace == [] then None
    else if Latest(trace).pd != pd then Route(Before(trace), pd)
    else if Latest(trace).Handed? && Latest(trace).wants then Some(Latest(trace).id)
    else None
  }

  /** The card command on `pd` whose submit call was the last to return. */
  function LastHanded(trace: seq<Mark>, pd: PdIndex): Option<Id> {
    if trace == [] then None
    else if Latest(trace).Handed? && Latest(trace).pd == pd then Some(Latest(trace).id)
    else LastHanded(Before(trace), pd)
  }

  /** Where in the history command `id` was answered first. */
  function FirstAnswer(trace: seq<Mark>, id: Id): (k: Option<nat>)
    ensures k.Some? ==> k.value < |trace|
  {
    if trace == [] then None
    else if FirstAnswer(Before(trace), id).Some? then FirstAnswer(Before(trace), id)
    else if Latest(trace).Answered? && Latest(trace).id == id then Some(|trace| - 1)
    else None
  }

  /** Where in the history a reply came that command `id` was there to catch. */
  function Caught(trace: seq<Mark>, id: Id): (k: Option<nat>)
    ensures k.Some? ==> k.value < |trace|
  {
    if trace == [] then None
    else if Caught(Before(trace), id).Some? then Caught(Before(trace), id)
    else if Latest(trace).Answered? && Latest(trace).id == id
            && Route(Before(trace), Latest(trace).pd) == Some(id)
    then Some(|trace| - 1)
    else None
  }

  lemma OneMore(trace: seq<Mark>, mark: Mark)
    ensures Before(trace + [mark]) == trace && Latest(trace + [mark]) == mark
  {
  }

  lemma {:induction false} AnswerFound(trace: seq<Mark>, id: Id)
    ensures match FirstAnswer(trace, id)
            case Some(k) =>
              && k < |trace| && trace[k].Answered? && trace[k].id == id
              && forall j | 0 <= j < k :: trace[j].Answered? ==> trace[j].id != id
            case None => forall j | 0 <= j < |trace| :: trace[j].Answered? ==> trace[j].id != id
  {
    if trace != [] {
      AnswerFound(Before(trace), id);
      assert forall j | 0 <= j < |trace| - 1 :: Before(trace)[j] == trace[j];
    }
  }

  lemma {:induction false} CaughtFound(trace: seq<Mark>, id: Id)
    ensures Caught(trace, id).Some? ==>
              var k := Caught(trace, id).value;
              && trace[k].Answered? && trace[k].id == id
              && FirstAnswer(trace, id).Some?
              && exists i | 0 <= i < |trace| :: trace[i].Handed? && trace[i].id == id
  {
    if trace != [] {
      var before := Before(trace);
      CaughtFound(before, id);
      AnswerFound(before, id);
      if Caught(before, id).Some? {
        var i :| 0 <= i < |before| && before[i].Handed? && before[i].id == id;
        assert trace[i].Handed?;
      } else if Caught(trace, id).Some? {
        RouteWasHanded(before, Latest(trace).pd);
        var i :| 0 <= i < |before| && before[i] == Handed(Latest(trace).pd, id, true);
        assert trace[i].Handed?;
      }
    }
  }

  /** `LastHanded`, without its recursion. */
  lemma {:induction false} LastHandedFound(trace: seq<Mark>, pd: PdIndex, id: Id)
    ensures LastHanded(trace, pd) == Some(id) <==>
            exists i | 0 <= i < |trace| ::
              && trace[i].Handed? && trace[i].pd == pd && trace[i].id == id
              && forall j | i < j < |trace| :: trace[j].Handed? ==> trace[j].pd != pd
  {
    if trace != [] {
      var before, n := Before(trace), |trace| - 1;
      LastHandedFound(before, pd, id);
      assert forall j | 0 <= j < n :: before[j] == trace[j];
      if !(trace[n].Handed? && trace[n].pd == pd) && LastHanded(before, pd) == Some(id) {
        var i :| 0 <= i < |before| && before[i].Handed? && before[i].pd == pd && before[i].id == id
                 && forall j | i < j < |before| :: before[j].Handed? ==> before[j].pd != pd;
        assert trace[i].Handed?;
      }
    }
  }

  lemma {:induction false} RouteWasHanded(trace: seq<Mark>, pd: PdIndex)
    ensures Route(trace, pd).Some? ==> LastHanded(trace, pd) == Route(trace, pd)
    ensures Route(trace, pd).Some? ==>
              exists i | 0 <= i < |trace| :: trace[i] == Handed(pd, Route(trace, pd).value, true)
  {
    if trace != [] {
      RouteWasHanded(Before(trace), pd);
      if Latest(trace).pd == pd {
        assert Latest(trace) == trace[|trace| - 1];
      } else if Route(trace, pd).Some? {
        var i :| 0 <= i < |Before(trace)| && Before(trace)[i] == Handed(pd, Route(trace, pd).value, true);
        assert trace[i] == Before(trace)[i];
      }
    }
  }

  lemma {:induction false} HandedWasMarked(trace: seq<Mark>, pd: PdIndex)
    ensures LastHanded(trace, pd).Some? ==>
              exists i | 0 <= i < |trace| ::
                trace[i].Handed? && trace[i].pd == pd && trace[i].id == LastHanded(trace, pd).value
  {
    if LastHanded(trace, pd).Some? {
      LastHandedFound(trace, pd, LastHanded(trace, pd).value);
    }
  }

  // --- what every run keeps ------------------------------------------------------

  /** A submission that LibOSDP accepted, and whose call has not returned, is what
      LibOSDP knows it as. */
  ghost predicate FramesKnown(st: Stack, lib: Lib) {
    st.Push? ==>
      && FramesKnown(st.below, lib)
      && (st.top.Finishing? && st.top.accepted ==>
            && st.top.id in lib.ops
            && lib.ops[st.top.id] == Op(st.top.pd, st.top.kind, st.top.wants))
  }

  predicate MarkKnown(lib: Lib, mark: Mark) {
    && CardOp(lib, mark.id) && lib.ops[mark.id].pd == mark.pd
    && (mark.Handed? ==> mark.wants == lib.ops[mark.id].wants)
  }

  function ReplyAt(trace: seq<Mark>, k: Option<nat>): Option<PivReply> {
    if k.Some? && k.value < |trace| && trace[k.value].Answered? then Some(trace[k.value].reply) else None
  }

  /** A handle, or the submit call about to return one, sees the reply that its
      command caught; no plain submission sees any. */
  ghost predicate SlotTraced(s: State, id: Id)
    requires id in s.mem.slots
  {
    var slot := s.mem.slots[id];
    && (slot.hasHandle ==> id in s.lib.ops)
    && (slot.reply.Some? ==> CardOp(s.lib, id))
    && (CardOp(s.lib, id) && (slot.hasHandle || Returning(s.stack, id)) ==>
          slot.reply == ReplyAt(s.events.trace, Caught(s.events.trace, id)))
    && (CardOp(s.lib, id) && slot.status == Some(Ok(())) ==> id in s.lib.first)
  }

  /** Of the commands answered, those caught their first reply whose submit call
      was the last on the PD to return before it. */
  ghost predicate AnswerTraced(lib: Lib, trace: seq<Mark>, id: Id) {
    var first := FirstAnswer(trace, id);
    && (id in lib.first <==> first.Some?)
    && (first.Some? ==>
          && CardOp(lib, id)
          && ReplyAt(trace, first) == Some(lib.first[id])
          && (Caught(trace, id) == first <==>
              lib.ops[id].wants && LastHanded(trace[..first.value], lib.ops[id].pd) == Some(id)))
  }

  /** A command that runs unanswered and was handed out last is the one its PD's
      reply is for. */
  ghost predicate RunningTraced(lib: Lib, trace: seq<Mark>, pd: PdIndex)
    requires pd in lib.running
  {
    var id := lib.running[pd];
    id in lib.ops && lib.ops[id].wants && id !in lib.first && LastHanded(trace, pd) == Some(id) ==>
      Route(trace, pd) == Some(id)
  }

  ghost predicate Traced(s: State) {
    var trace := s.events.trace;
    && FramesKnown(s.stack, s.lib)
    && (forall pd: PdIndex :: Lookup(s.events.replies, pd) == Route(trace, pd))
    && (forall mark <- trace :: MarkKnown(s.lib, mark))
    && (forall mark <- trace :: mark.Handed? ==> !Returning(s.stack, mark.id))
    && (forall pd: PdIndex :: Route(trace, pd).Some? ==> Caught(trace, Route(trace, pd).value) == None)
    && (forall id: Id :: AnswerTraced(s.lib, trace, id))
    && (forall pd <- s.lib.running :: RunningTraced(s.lib, trace, pd))
    && (forall id <- s.mem.slots :: SlotTraced(s, id))
  }

  ghost predicate Sound(s: State) {
    Control(s) && Ownership(s) && Exclusive(s.lib)
  }

  lemma Unmarked(lib: Lib, trace: seq<Mark>, id: Id)
    requires (forall mark <- trace :: MarkKnown(lib, mark)) && id !in lib.ops
    ensures FirstAnswer(trace, id) == None && Caught(trace, id) == None
    ensures forall pd: PdIndex :: LastHanded(trace, pd) != Some(id)
  {
    assert forall k | 0 <= k < |trace| :: MarkKnown(lib, trace[k]);
    AnswerFound(trace, id);
    CaughtFound(trace, id);
    forall pd: PdIndex
      ensures LastHanded(trace, pd) != Some(id)
    {
      HandedWasMarked(trace, pd);
    }
  }

  lemma FramesKnownAfterAccept(st: Stack, lib: Lib, id: Id, op: Op)
    requires FramesKnown(st, lib) && !InFrames(st, id)
    ensures FramesKnown(st, Accept(lib, id, op))
  {
  }

  /** Only these of LibOSDP's records matter to the frames. */
  lemma FramesKnownBy(st: Stack, lib: Lib, after: Lib)
    requires FramesKnown(st, lib) && after.ops == lib.ops
    ensures FramesKnown(st, after)
  {
  }

  /** No stale route: one to a slot that still waits is the running command's. */
  lemma RouteIsRunning(s: State, pd: PdIndex)
    requires Sound(s) && Traced(s) && pd in s.events.replies
    requires var id := s.events.replies[pd]; id in s.mem.slots && s.mem.slots[id].status.None?
    ensures var id := s.events.replies[pd];
            && pd in s.lib.running && s.lib.running[pd] == id
            && CardOp(s.lib, id) && s.lib.ops[id].wants
  {
    var id := s.events.replies[pd];
    assert Lookup(s.events.replies, pd) == Some(id);
    RouteWasHanded(s.events.trace, pd);
    assert MarkKnown(s.lib, Handed(pd, id, true));
    assert BoxOwned(s.mem, s.lib, s.stack, id);
    assert SlotOwned(s.mem, s.stack, id);
  }

  /** What a reply reaches: the running command's slot, if the route leads to it
      and its handle is there. */
  lemma ReplyReaches(s: State, pd: PdIndex)
    requires Sound(s) && Traced(s) && pd in s.lib.running
    ensures var r := s.lib.running[pd];
            Waiting(s.mem, s.events, pd) ==
              if Lookup(s.events.replies, pd) == Some(r) && HasHandle(s.mem, r) then Some(r) else None
  {
    var r := s.lib.running[pd];
    assert BoxOwned(s.mem, s.lib, s.stack, r);
    if Waiting(s.mem, s.events, pd).Some? {
      RouteIsRunning(s, pd);
    }
  }

  // --- one step keeps it ------------------------------------------------------------

  lemma TracedKept(s: State, l: Label)
    requires Sound(s) && Traced(s) && Legal(s, l)
    ensures Traced(Step(s, l))
  {
    match l
    case LibEvent(pd, item) =>
      if item.Some? && IsReply(item.value) {
        TracedByReply(s, pd, item.value);
      } else {
        TracedOnStack(s, Step(s, l));
      }
    case LibComplete(id, status) => TracedByComplete(s, id, status);
    case LibReturn(accept) => TracedByReturn(s, accept);
    case Finish => TracedByFinish(s);
    case Submit(_, _, _) => TracedByBoxing(s, l);
    case Respond(_) => TracedByBoxing(s, l);
    case DropHandle(id) => TracedByDrop(s, id);
    case Poll(id, t) => TracedByPoll(s, id, t);
    case _ => TracedOnStack(s, Step(s, l));
  }

  /** A reply by the command that `pd` runs joins the history. */
  lemma TraceByAnswer(lib: Lib, trace: seq<Mark>, pd: PdIndex, reply: PivReply)
    requires Exclusive(lib) && pd in lib.running
    requires forall id: Id :: AnswerTraced(lib, trace, id)
    requires RunningTraced(lib, trace, pd)
    requires forall mark <- trace :: MarkKnown(lib, mark)
    ensures forall id: Id :: AnswerTraced(Answer(lib, pd, reply), trace + [Answered(pd, lib.running[pd], reply)], id)
  {
    var r := lib.running[pd];
    var more := trace + [Answered(pd, r, reply)];
    OneMore(trace, Answered(pd, r, reply));
    forall id: Id
      ensures AnswerTraced(Answer(lib, pd, reply), more, id)
    {
      assert AnswerTraced(lib, trace, id);
      CaughtFound(trace, id);
      if FirstAnswer(trace, id).Some? {
        var k := FirstAnswer(trace, id).value;
        assert more[..k] == trace[..k] && more[k] == trace[k];
      } else if id == r {
        assert more[..|trace|] == trace;
        RouteWasHanded(trace, pd);
        assert Route(trace, pd) == Some(r) ==> MarkKnown(lib, Handed(pd, r, true));
      }
    }
  }

  lemma TracedByReply(s: State, pd: PdIndex, item: Item)
    requires Sound(s) && Traced(s) && IsReply(item) && pd in s.lib.running
    ensures Traced(EventStep(s, pd, item))
  {
    var t, trace := EventStep(s, pd, item), s.events.trace;
    EventsByReply(s, pd, item);
    FramesKnownBy(s.stack, s.lib, t.lib);
    TraceByAnswer(s.lib, trace, pd, item.reply);
    forall q: PdIndex
      ensures Lookup(t.events.replies, q) == Route(t.events.trace, q)
      ensures Route(t.events.trace, q).Some? ==> Caught(t.events.trace, Route(t.events.trace, q).value) == None
    {
      RoutesByAnswer(s, pd, item.reply, q);
    }
    forall q <- t.lib.running
      ensures RunningTraced(t.lib, t.events.trace, q)
    {
      RunningByAnswer(s, pd, item.reply, q);
    }
    SlotsByReply(s, pd, item);
    forall id <- t.mem.slots
      ensures SlotTraced(t, id)
    {
      SlotTracedByReply(s, pd, item, id);
    }
  }

  lemma EventsByReply(s: State, pd: PdIndex, item: Item)
    requires IsReply(item) && pd in s.lib.running
    ensures var t := EventStep(s, pd, item);
            && t.events.trace == s.events.trace + [Answered(pd, s.lib.running[pd], item.reply)]
            && t.events.replies == s.events.replies - {pd}
            && t.lib == Answer(s.lib, pd, item.reply) && t.stack == s.stack
  {
  }

  /** A reply takes its PD's route, and no other's. */
  lemma RoutesByAnswer(s: State, pd: PdIndex, reply: PivReply, q: PdIndex)
    requires Sound(s) && Traced(s) && pd in s.lib.running
    ensures var more := s.events.trace + [Answered(pd, s.lib.running[pd], reply)];
            && Lookup(s.events.replies - {pd}, q) == Route(more, q)
            && (Route(more, q).Some? ==> Caught(more, Route(more, q).value) == None)
  {
    var trace := s.events.trace;
    OneMore(trace, Answered(pd, s.lib.running[pd], reply));
    assert Lookup(s.events.replies, q) == Route(trace, q);
    RouteWasHanded(trace, q);
    if Route(trace, q).Some? {
      assert MarkKnown(s.lib, Handed(q, Route(trace, q).value, true));
    }
  }

  lemma RunningByAnswer(s: State, pd: PdIndex, reply: PivReply, q: PdIndex)
    requires Sound(s) && Traced(s) && pd in s.lib.running && q in s.lib.running
    ensures RunningTraced(Answer(s.lib, pd, reply), s.events.trace + [Answered(pd, s.lib.running[pd], reply)], q)
  {
    OneMore(s.events.trace, Answered(pd, s.lib.running[pd], reply));
    assert RunningTraced(s.lib, s.events.trace, q);
  }

  lemma SlotTracedByReply(s: State, pd: PdIndex, item: Item, id: Id)
    requires Sound(s) && Traced(s) && IsReply(item) && pd in s.lib.running
    requires id in s.mem.slots
    ensures id in EventStep(s, pd, item).mem.slots && SlotTraced(EventStep(s, pd, item), id)
  {
    var trace := s.events.trace;
    EventsByReply(s, pd, item);
    SlotsByReply(s, pd, item);
    assert SlotTraced(s, id);
    NotReturning(s, pd);
    CaughtByAnswer(trace, pd, s.lib.running[pd], item.reply, id);
  }

  /** The slots after a reply, by the route. */
  lemma SlotsByReply(s: State, pd: PdIndex, item: Item)
    requires Sound(s) && Traced(s) && IsReply(item) && pd in s.lib.running
    ensures var r, slots := s.lib.running[pd], s.mem.slots;
            EventStep(s, pd, item).mem.slots ==
              if Route(s.events.trace, pd) == Some(r) && HasHandle(s.mem, r)
              then slots[r := slots[r].(reply := Some(item.reply))] else slots
  {
    ReplyReaches(s, pd);
    assert Lookup(s.events.replies, pd) == Route(s.events.trace, pd);
  }

  lemma NotReturning(s: State, pd: PdIndex)
    requires Traced(s)
    ensures Route(s.events.trace, pd).Some? ==>
              var id := Route(s.events.trace, pd).value;
              !Returning(s.stack, id) && Caught(s.events.trace, id) == None
  {
    RouteWasHanded(s.events.trace, pd);
    if Route(s.events.trace, pd).Some? {
      assert Handed(pd, Route(s.events.trace, pd).value, true) in s.events.trace;
    }
  }

  lemma CaughtByAnswer(trace: seq<Mark>, pd: PdIndex, r: Id, reply: PivReply, id: Id)
    requires Route(trace, pd) == Some(r) ==> Caught(trace, r) == None
    ensures var more := trace + [Answered(pd, r, reply)];
            ReplyAt(more, Caught(more, id)) ==
              if id == r && Route(trace, pd) == Some(r) then Some(reply) else ReplyAt(trace, Caught(trace, id))
  {
    OneMore(trace, Answered(pd, r, reply));
  }

  lemma TracedByComplete(s: State, id: Id, status: nat)
    requires Sound(s) && Traced(s) && Legal(s, LibComplete(id, status))
    ensures Traced(CompleteStep(s, id, status))
  {
    var t := CompleteStep(s, id, status);
    assert BoxOwned(s.mem, s.lib, s.stack, id);
    FramesKnownBy(s.stack, s.lib, t.lib);
    forall other: Id
      ensures AnswerTraced(t.lib, t.events.trace, other)
    {
      assert AnswerTraced(s.lib, s.events.trace, other);
    }
    forall other <- t.mem.slots
      ensures SlotTraced(t, other)
    {
      assert SlotTraced(s, other);
    }
  }

  /** The stack matters only for frames that know their command, and for the
      submissions whose call has not returned. */
  lemma TracedOnStack(s: State, t: State)
    requires Traced(s) && FramesKnown(t.stack, t.lib)
    requires t.mem == s.mem && t.lib == s.lib
    requires t.events.replies == s.events.replies && t.events.trace == s.events.trace
    requires forall id: Id :: Returning(t.stack, id) ==> Returning(s.stack, id)
    ensures Traced(t)
  {
    forall id <- t.mem.slots
      ensures SlotTraced(t, id)
    {
      assert SlotTraced(s, id);
    }
  }

  lemma TracedByReturn(s: State, accept: bool)
    requires Sound(s) && Traced(s) && Legal(s, LibReturn(accept))
    ensures Traced(ReturnStep(s, accept))
  {
    match s.stack.top
    case InSubmit(id, pd, kind, wants, _) =>
      var tail := Push(Finishing(id, pd, kind, wants, accept), s.stack.below);
      var mid := s.(stack := tail, lib := if accept then Accept(s.lib, id, Op(pd, kind, wants)) else s.lib);
      if accept {
        TracedByAccept(s, id, Op(pd, kind, wants), tail);
      } else {
        TracedOnStack(s, mid);
      }
      TracedOnStack(mid, ReturnStep(s, accept));
    case InReply(id) =>
      if accept {
        TracedByAccept(s, id, Op(0, None, false), s.stack.below);
      } else {
        TracedByRefusal(s, id);
      }
    case _ => TracedOnStack(s, ReturnStep(s, accept));
  }

  lemma TracedByRefusal(s: State, id: Id)
    requires Sound(s) && Traced(s) && s.stack.Push? && s.stack.top == InReply(id)
    ensures Traced(s.(stack := s.stack.below, mem := FreeBox(s.mem, id)))
  {
    var t := s.(stack := s.stack.below, mem := FreeBox(s.mem, id));
    assert BoxOwned(s.mem, s.lib, s.stack, id);
    forall other <- t.mem.slots
      ensures SlotTraced(t, other)
    {
      assert SlotTraced(s, other);
    }
  }

  /** LibOSDP takes over box `id`, whose frame gives way to what `after` has. */
  lemma TracedByAccept(s: State, id: Id, op: Op, after: Stack)
    requires Sound(s) && Traced(s) && s.stack.Push?
    requires (s.stack.top.InSubmit? || s.stack.top.InReply?) && s.stack.top.id == id
    requires s.stack.top.InSubmit? ==>
      && after == Push(Finishing(id, op.pd, op.kind, op.wants, true), s.stack.below)
      && (IsCard(op.kind) ==> op.pd !in s.lib.running)
    requires s.stack.top.InReply? ==> after == s.stack.below && !IsCard(op.kind)
    ensures Traced(s.(stack := after, lib := Accept(s.lib, id, op)))
  {
    var t := s.(stack := after, lib := Accept(s.lib, id, op));
    assert BoxOwned(s.mem, s.lib, s.stack, id);
    Unmarked(s.lib, s.events.trace, id);
    FramesKnownAfterAccept(s.stack.below, s.lib, id, op);
    forall other: Id
      ensures AnswerTraced(t.lib, t.events.trace, other)
    {
      assert AnswerTraced(s.lib, s.events.trace, other);
    }
    forall q <- t.lib.running
      ensures RunningTraced(t.lib, t.events.trace, q)
    {
      assert q in s.lib.running ==> RunningTraced(s.lib, s.events.trace, q);
    }
    forall other <- t.mem.slots
      ensures SlotTraced(t, other)
    {
      assert SlotTraced(s, other);
      assert SlotOwned(s.mem, s.stack, other);
    }
  }

  lemma TracedByFinish(s: State)
    requires Sound(s) && Traced(s) && Legal(s, Finish)
    ensures Traced(FinishStep(s))
  {
    var f, t := s.stack.top, FinishStep(s);
    assert BoxOwned(s.mem, s.lib, s.stack, f.id);
    WindowsAreFrames(s.stack.below, f.id);
    if f.accepted && IsCard(f.kind) {
      TraceByHanding(s);
    }
    forall id <- t.mem.slots
      ensures SlotTraced(t, id)
    {
      assert SlotTraced(s, id);
      if f.accepted && IsCard(f.kind) {
        OneMore(s.events.trace, Handed(f.pd, f.id, f.wants));
      }
    }
  }

  /** A card command's submit call returns its handle. */
  lemma TraceByHanding(s: State)
    requires Sound(s) && Traced(s) && Legal(s, Finish)
    requires s.stack.top.accepted && IsCard(s.stack.top.kind)
    ensures var t := FinishStep(s);
            var trace := t.events.trace;
            && trace == s.events.trace + [Handed(s.stack.top.pd, s.stack.top.id, s.stack.top.wants)]
            && (forall q: PdIndex :: Lookup(t.events.replies, q) == Route(trace, q))
            && (forall q: PdIndex :: Route(trace, q).Some? ==> Caught(trace, Route(trace, q).value) == None)
            && (forall mark <- trace :: MarkKnown(t.lib, mark))
            && (forall mark <- trace :: mark.Handed? ==> !Returning(t.stack, mark.id))
            && (forall id: Id :: AnswerTraced(t.lib, trace, id))
            && (forall q <- t.lib.running :: RunningTraced(t.lib, trace, q))
  {
    var f, t, trace := s.stack.top, FinishStep(s), s.events.trace;
    var mark := Handed(f.pd, f.id, f.wants);
    OneMore(trace, mark);
    assert BoxOwned(s.mem, s.lib, s.stack, f.id);
    WindowsAreFrames(s.stack.below, f.id);
    CaughtFound(trace, f.id);
    forall q: PdIndex
      ensures Lookup(t.events.replies, q) == Route(t.events.trace, q)
      ensures Route(t.events.trace, q).Some? ==> Caught(t.events.trace, Route(t.events.trace, q).value) == None
    {
      assert Lookup(s.events.replies, q) == Route(trace, q);
    }
    forall id: Id
      ensures AnswerTraced(t.lib, t.events.trace, id)
    {
      assert AnswerTraced(s.lib, trace, id);
      if FirstAnswer(trace, id).Some? {
        var k := FirstAnswer(trace, id).value;
        assert t.events.trace[..k] == trace[..k] && t.events.trace[k] == trace[k];
      }
    }
    forall q <- t.lib.running
      ensures RunningTraced(t.lib, t.events.trace, q)
    {
      assert RunningTraced(s.lib, trace, q);
    }
  }

  lemma TracedByBoxing(s: State, l: Label)
    requires Sound(s) && Traced(s) && (l.Submit? || l.Respond?)
    ensures Traced(Step(s, l))
  {
    var t := Step(s, l);
    NestedLonger(s.stack, s.mem.nextId, s.mem.nextId);
    assert BoxOwned(s.mem, s.lib, s.stack, s.mem.nextId);
    forall id <- t.mem.slots
      ensures SlotTraced(t, id)
    {
      assert id in s.mem.slots ==> SlotTraced(s, id);
    }
  }

  lemma TracedByDrop(s: State, id: Id)
    requires Sound(s) && Traced(s) && Legal(s, DropHandle(id))
    ensures Traced(DropStep(s, id))
  {
    var t := DropStep(s, id);
    forall other <- t.mem.slots
      ensures SlotTraced(t, other)
    {
      assert SlotTraced(s, other);
    }
  }

  lemma TracedByPoll(s: State, id: Id, t: Task)
    requires Traced(s)
    ensures Traced(PollStep(s, id, t))
  {
    forall other <- PollStep(s, id, t).mem.slots
      ensures SlotTraced(PollStep(s, id, t), other)
    {
      assert SlotTraced(s, other);
    }
  }
}
