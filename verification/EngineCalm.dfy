/** Replies in the runs that `Engine.Calm` describes: every wanted one arrives. */
module EngineCalm {
  import opened Wrappers
  import opened Engine
  import opened EngineInvariants
  import opened EngineRouting

  /** No refresh runs on top of a card command whose submit call is returning. */
  predicate NoRefreshAbove(st: Stack) {
    st.Push? ==>
      NoRefreshAbove(st.below) && (st.top.InRefresh? ==> !CardReturning(st.below))
  }

  /** Such a command still runs, and no reply to it has come. */
  ghost predicate Windows(st: Stack, lib: Lib) {
    st.Push? ==>
      && Windows(st.below, lib)
      && (st.top.Finishing? && st.top.accepted && IsCard(st.top.kind) ==>
            st.top.id in lib.held && st.top.id !in lib.first)
  }

  /** Until its reply comes, the route is that of the command that runs. */
  ghost predicate Awaited(s: State, pd: PdIndex)
    requires pd in s.lib.running
  {
    var id := s.lib.running[pd];
    id in s.lib.ops && s.lib.ops[id].wants && id !in s.lib.first && !Returning(s.stack, id) ==>
      Route(s.events.trace, pd) == Some(id)
  }

  ghost predicate CaughtFirst(lib: Lib, trace: seq<Mark>, id: Id) {
    id in lib.first && id in lib.ops && lib.ops[id].wants ==> Caught(trace, id) == FirstAnswer(trace, id)
  }

  ghost predicate Calmly(s: State) {
    && NoRefreshAbove(s.stack) && Windows(s.stack, s.lib)
    && (forall pd <- s.lib.running :: Awaited(s, pd))
    && (forall id: Id :: CaughtFirst(s.lib, s.events.trace, id))
  }

  lemma NoWindows(st: Stack, lib: Lib)
    requires !CardReturning(st)
    ensures Windows(st, lib)
  {
  }

  lemma WindowsKeptBy(st: Stack, lib: Lib, after: Lib)
    requires Windows(st, lib) && FramesKnown(st, lib)
    requires after.first == lib.first
    requires forall id <- lib.held :: CardOp(lib, id) ==> id in after.held
    ensures Windows(st, after)
  {
  }

  /** A card command that runs, and whose call has not returned, shows as such. */
  lemma RunningReturns(st: Stack, lib: Lib, id: Id)
    requires FramesKnown(st, lib) && CardOp(lib, id) && Returning(st, id) && !Unaccepted(st, id)
    ensures CardReturning(st)
  {
  }

  lemma CalmlyKept(s: State, l: Label)
    requires Sound(s) && Traced(s) && Calmly(s) && Legal(s, l) && Calm(s, l)
    ensures Calmly(Step(s, l))
  {
    match l
    case LibEvent(pd, item) =>
      if item.Some? && IsReply(item.value) {
        CalmlyByReply(s, pd, item.value);
      } else {
        CalmlyOnStack(s, Step(s, l));
      }
    case LibComplete(id, status) => CalmlyByComplete(s, id, status);
    case LibReturn(accept) => CalmlyByReturn(s, accept);
    case Finish => CalmlyByFinish(s);
    case _ => CalmlyOnStack(s, Step(s, l));
  }

  lemma CalmlyOnStack(s: State, t: State)
    requires Calmly(s) && NoRefreshAbove(t.stack) && Windows(t.stack, t.lib)
    requires t.lib == s.lib && t.events.trace == s.events.trace
    requires forall id: Id :: id in s.lib.ops && Returning(s.stack, id) ==> Returning(t.stack, id)
    ensures Calmly(t)
  {
    forall pd <- t.lib.running
      ensures Awaited(t, pd)
    {
      assert Awaited(s, pd);
    }
  }

  lemma CalmlyByReply(s: State, pd: PdIndex, item: Item)
    requires Sound(s) && Traced(s) && Calmly(s) && IsReply(item) && Legal(s, LibEvent(pd, Some(item)))
    ensures Calmly(EventStep(s, pd, item))
  {
    var t, trace, r := EventStep(s, pd, item), s.events.trace, s.lib.running[pd];
    EventsByReply(s, pd, item);
    OneMore(trace, Answered(pd, r, item.reply));
    NoWindows(s.stack.below, t.lib);
    AwaitedNow(s, pd);
    forall q <- t.lib.running
      ensures Awaited(t, q)
    {
      assert Awaited(s, q);
    }
    forall id: Id
      ensures CaughtFirst(t.lib, t.events.trace, id)
    {
      assert CaughtFirst(s.lib, trace, id);
      assert AnswerTraced(s.lib, trace, id);
      CaughtFound(trace, id);
    }
  }

  /** In a refresh, the command that a PD runs has its route until it is answered. */
  lemma AwaitedNow(s: State, pd: PdIndex)
    requires Sound(s) && Traced(s) && Calmly(s) && s.stack.Push? && s.stack.top.InRefresh?
    requires pd in s.lib.running
    ensures var r := s.lib.running[pd];
            && r in s.lib.ops && !Returning(s.stack, r)
            && (s.lib.ops[r].wants && r !in s.lib.first ==> Route(s.events.trace, pd) == Some(r))
  {
    var r := s.lib.running[pd];
    assert BoxOwned(s.mem, s.lib, s.stack, r);
    if Returning(s.stack, r) {
      RunningReturns(s.stack.below, s.lib, r);
    }
    assert Awaited(s, pd);
  }

  lemma CalmlyByComplete(s: State, id: Id, status: nat)
    requires Sound(s) && Traced(s) && Calmly(s) && Legal(s, LibComplete(id, status))
    ensures Calmly(CompleteStep(s, id, status))
  {
    var t := CompleteStep(s, id, status);
    assert BoxOwned(s.mem, s.lib, s.stack, id);
    if CardOp(s.lib, id) {
      NoWindows(s.stack.below, t.lib);
    } else {
      WindowsKeptBy(s.stack, s.lib, t.lib);
    }
    forall pd <- t.lib.running
      ensures Awaited(t, pd)
    {
      assert Awaited(s, pd);
    }
    forall other: Id
      ensures CaughtFirst(t.lib, t.events.trace, other)
    {
      assert CaughtFirst(s.lib, s.events.trace, other);
    }
  }

  lemma CalmlyByReturn(s: State, accept: bool)
    requires Sound(s) && Traced(s) && Calmly(s) && Legal(s, LibReturn(accept))
    ensures Calmly(ReturnStep(s, accept))
  {
    match s.stack.top
    case InSubmit(id, pd, kind, wants, _) =>
      var tail := Push(Finishing(id, pd, kind, wants, accept), s.stack.below);
      var mid := s.(stack := tail, lib := if accept then Accept(s.lib, id, Op(pd, kind, wants)) else s.lib);
      if accept {
        CalmlyByAccept(s, id, Op(pd, kind, wants), tail);
      } else {
        assert BoxOwned(s.mem, s.lib, s.stack, id);
        CalmlyOnStack(s, mid);
      }
      CalmlyOnStack(mid, ReturnStep(s, accept));
    case InReply(id) =>
      assert BoxOwned(s.mem, s.lib, s.stack, id);
      if accept {
        CalmlyByAccept(s, id, Op(0, None, false), s.stack.below);
      } else {
        CalmlyOnStack(s, ReturnStep(s, accept));
      }
    case _ => CalmlyOnStack(s, ReturnStep(s, accept));
  }

  lemma CalmlyByAccept(s: State, id: Id, op: Op, after: Stack)
    requires Sound(s) && Traced(s) && Calmly(s) && s.stack.Push?
    requires (s.stack.top.InSubmit? || s.stack.top.InReply?) && s.stack.top.id == id
    requires s.stack.top.InSubmit? ==>
      && after == Push(Finishing(id, op.pd, op.kind, op.wants, true), s.stack.below)
      && (IsCard(op.kind) ==> op.pd !in s.lib.running)
    requires s.stack.top.InReply? ==> after == s.stack.below && !IsCard(op.kind)
    ensures Calmly(s.(stack := after, lib := Accept(s.lib, id, op)))
  {
    var t := s.(stack := after, lib := Accept(s.lib, id, op));
    assert BoxOwned(s.mem, s.lib, s.stack, id);
    Unmarked(s.lib, s.events.trace, id);
    assert AnswerTraced(s.lib, s.events.trace, id);
    WindowsKeptBy(s.stack.below, s.lib, t.lib);
    forall q <- t.lib.running
      ensures Awaited(t, q)
    {
      assert q in s.lib.running ==> Awaited(s, q);
    }
    forall other: Id
      ensures CaughtFirst(t.lib, t.events.trace, other)
    {
      assert CaughtFirst(s.lib, s.events.trace, other);
    }
  }

  lemma CalmlyByFinish(s: State)
    requires Sound(s) && Traced(s) && Calmly(s) && Legal(s, Finish)
    ensures Calmly(FinishStep(s))
  {
    var f, t, trace := s.stack.top, FinishStep(s), s.events.trace;
    assert BoxOwned(s.mem, s.lib, s.stack, f.id);
    OneMore(trace, Handed(f.pd, f.id, f.wants));
    forall pd <- t.lib.running
      ensures Awaited(t, pd)
    {
      assert Awaited(s, pd);
    }
    forall id: Id
      ensures CaughtFirst(t.lib, t.events.trace, id)
    {
      assert CaughtFirst(s.lib, trace, id);
      assert AnswerTraced(s.lib, trace, id);
      CaughtFound(trace, id);
    }
  }
}
