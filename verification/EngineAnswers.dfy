/** What callers get to see of what LibOSDP does: each event, reply and
    completion, told from its own content, and what stays of it in every run. */
module EngineAnswers {
  import opened Wrappers
  import opened Engine
  import opened EngineInvariants
  import opened EngineTheorems

  // --- events --------------------------------------------------------------------

  /** An event that is no card reply becomes the last in the queue as long as there
      is room, and only else is counted; it changes nothing besides. */
  lemma EventIsQueued(s: State, pd: PdIndex, item: Item)
    requires item.OtherEvent? || item.Notification?
    ensures var t := Step(s, LibEvent(pd, Some(item)));
            && t == s.(events := t.events)
            && t.events.replies == s.events.replies && t.events.capacity == s.events.capacity
            && (|s.events.queue| < s.events.capacity ==>
                  t.events.queue == s.events.queue + [(pd, item)] && t.events.dropped == s.events.dropped)
            && (|s.events.queue| >= s.events.capacity ==>
                  t.events.queue == s.events.queue && t.events.dropped == s.events.dropped + 1)
  {
  }

  /** And in every run from then on it waits its turn: it is queued behind the
      events that were ahead of it and not taken since, or was taken right after
      them. */
  lemma EventComesInTurn(s: State, pd: PdIndex, item: Item, ls: seq<Label>)
    requires Reachable(s) && (item.OtherEvent? || item.Notification?)
    requires Legal(s, LibEvent(pd, Some(item))) && |s.events.queue| < s.events.capacity
    requires LegalRun(Step(s, LibEvent(pd, Some(item))), ls)
    ensures var e := Run(Step(s, LibEvent(pd, Some(item))), ls).events;
            var turn := |s.events.popped| + |s.events.queue|;
            if turn < |e.popped| then e.popped[turn] == (pd, item)
            else turn - |e.popped| < |e.queue| && e.queue[turn - |e.popped|] == (pd, item)
  {
    ReachableInv(s);
    var t := Step(s, LibEvent(pd, Some(item)));
    InvKept(s, LibEvent(pd, Some(item)));
    InvKeptByRun(t, ls);
    LaterByRun(t, ls);
    var e, turn := Run(t, ls).events, |s.events.pushed|;
    assert t.events.pushed[turn] == (pd, item);
    assert e.pushed[turn] == (pd, item) && (e.popped + e.queue)[turn] == (pd, item);
  }

  lemma {:induction false} LaterByRun(s: State, ls: seq<Label>)
    requires Inv(s) && LegalRun(s, ls)
    ensures Later(s, Run(s, ls))
    decreases ls
  {
    if ls != [] {
      InvKept(s, ls[0]);
      StepIsLater(s, ls[0]);
      LaterByRun(Step(s, ls[0]), ls[1..]);
    }
  }

  // --- routes ---------------------------------------------------------------------

  /** Only the PIV and authenticate commands have replies of their own: the submit
      call of one sets the route of its PD, or removes it if it does not want the
      reply, and that of any other command leaves every route as it is. */
  lemma RouteOfCommand(s: State)
    requires Inv(s) && Legal(s, Finish) && s.stack.top.accepted
    ensures var f, after := s.stack.top, Step(s, Finish).events.replies;
            && (forall pd: PdIndex | pd != f.pd :: Lookup(after, pd) == Lookup(s.events.replies, pd))
            && Lookup(after, f.pd) ==
               match f.kind
               case Some(Piv) => (if f.wants then Some(f.id) else None)
               case Some(GenAuth) => (if f.wants then Some(f.id) else None)
               case Some(CrAuth) => (if f.wants then Some(f.id) else None)
               case _ => Lookup(s.events.replies, f.pd)
  {
    assert BoxOwned(s.mem, s.lib, s.stack, s.stack.top.id);
  }

  // --- completions ------------------------------------------------------------------

  /** What a submission reports that LibOSDP completed with this code. */
  predicate Reports(outcome: Option<Outcome>, status: nat) {
    && outcome.Some?
    && (outcome.value == Ok(()) <==> status == 0)
    && (outcome.value == Err(Flushed) <==> status == 2)
    && (outcome.value == Err(Aborted) <==> status == 3)
    && (outcome.value == Err(Failed) <==> status != 0 && status != 2 && status != 3)
  }

  /** A completion is reported by its own slot, changes no other, frees its box,
      and leaves the slot's waker, if one is parked there, last of those to fire. */
  lemma CompletionIsReported(s: State, id: Id, status: nat)
    requires Inv(s) && Legal(s, LibComplete(id, status))
    ensures id in s.mem.slots && s.mem.slots[id].status.None?
    ensures var t := Step(s, LibComplete(id, status));
            && t.mem.boxes == s.mem.boxes - {id}
            && (HasHandle(s.mem, id) || Returning(s.stack, id) <==> id in t.mem.slots)
            && (id in t.mem.slots ==>
                  && Reports(t.mem.slots[id].status, status)
                  && t.mem.slots[id].reply == s.mem.slots[id].reply && t.mem.slots[id].waker.None?)
            && (forall other: Id | other != id :: Lookup(t.mem.slots, other) == Lookup(s.mem.slots, other))
            && t.wakes.deferred == s.wakes.deferred +
                 (if s.mem.slots[id].waker.Some? then [s.mem.slots[id].waker.value] else [])
            && t.wakes.stream == s.wakes.stream && t.events == s.events && t.stack == s.stack && t.busy == s.busy
  {
    assert BoxOwned(s.mem, s.lib, s.stack, id);
    assert SlotOwned(s.mem, s.stack, id);
  }

  /** A slot that is gone is gone for good. */
  lemma {:induction false} GoneForGood(s: State, ls: seq<Label>, id: Id)
    requires Inv(s) && LegalRun(s, ls) && id < s.mem.nextId && id !in s.mem.slots
    ensures id !in Run(s, ls).mem.slots
    decreases ls
  {
    if ls != [] {
      InvKept(s, ls[0]);
      GoneByStep(s, ls[0], id);
      GoneForGood(Step(s, ls[0]), ls[1..], id);
    }
  }

  lemma GoneByStep(s: State, l: Label, id: Id)
    requires Inv(s) && Legal(s, l) && id < s.mem.nextId && id !in s.mem.slots
    ensures id < Step(s, l).mem.nextId && id !in Step(s, l).mem.slots
  {
    match l
    case LibComplete(done, status) => CompletionIsReported(s, done, status);
    case _ =>
  }

  /** No step changes what a completed submission reports. */
  lemma ReportKeptByStep(s: State, l: Label, id: Id)
    requires Inv(s) && Legal(s, l) && id in s.mem.slots && s.mem.slots[id].status.Some?
    ensures id in Step(s, l).mem.slots ==>
              && Step(s, l).mem.slots[id].status == s.mem.slots[id].status
              && Step(s, l).mem.slots[id].reply == s.mem.slots[id].reply
  {
    match l
    case LibComplete(done, status) => CompletionIsReported(s, done, status);
    case LibReturn(accept) => assert BoxOwned(s.mem, s.lib, s.stack, id);
    case Submit(_, _, _) => assert BoxOwned(s.mem, s.lib, s.stack, s.mem.nextId);
    case Respond(_) => assert BoxOwned(s.mem, s.lib, s.stack, s.mem.nextId);
    case _ =>
  }

  lemma {:induction false} ReportKeptByRun(s: State, ls: seq<Label>, id: Id)
    requires Inv(s) && LegalRun(s, ls) && id in s.mem.slots && s.mem.slots[id].status.Some?
    requires id < s.mem.nextId
    ensures id in Run(s, ls).mem.slots ==>
              && Run(s, ls).mem.slots[id].status == s.mem.slots[id].status
              && Run(s, ls).mem.slots[id].reply == s.mem.slots[id].reply
    decreases ls
  {
    if ls != [] {
      var t := Step(s, ls[0]);
      InvKept(s, ls[0]);
      StepIsLater(s, ls[0]);
      ReportKeptByStep(s, ls[0], id);
      if id in t.mem.slots {
        ReportKeptByRun(t, ls[1..], id);
      } else {
        GoneForGood(t, ls[1..], id);
      }
    }
  }

  /** In every run, the handle of a submission that LibOSDP completed reports how,
      whenever it is there, even if it is handed out only after the completion. A
      card command reports the same failures; one that completed OK, the reply it
      had caught by then, or else a failure. */
  lemma HandleReportsCompletion(s: State, id: Id, status: nat, ls: seq<Label>)
    requires Reachable(s) && Legal(s, LibComplete(id, status)) && id in s.mem.slots
    requires LegalRun(Step(s, LibComplete(id, status)), ls)
    requires HasHandle(Run(Step(s, LibComplete(id, status)), ls).mem, id)
    ensures var slot := Run(Step(s, LibComplete(id, status)), ls).mem.slots[id];
            && Reports(UnitStatus(slot), status)
            && (s.stack.top.InFlush? ==> UnitStatus(slot) == Some(Err(Flushed)))
            && PivStatus(slot) ==
               Some(if status != 0 then Err(UnitStatus(slot).value.error)
                    else if s.mem.slots[id].reply.Some? then Ok(s.mem.slots[id].reply.value)
                    else Err(Failed))
  {
    ReachableInv(s);
    var t := Step(s, LibComplete(id, status));
    CompletionIsReported(s, id, status);
    assert BoxOwned(s.mem, s.lib, s.stack, id);
    InvKept(s, LibComplete(id, status));
    if id in t.mem.slots {
      ReportKeptByRun(t, ls, id);
    } else {
      GoneForGood(t, ls, id);
    }
  }
}
