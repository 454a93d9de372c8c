/** Two runs that show what the guards on calls from wakers and callbacks keep
    out. */
module EngineExamples {
  import opened Wrappers
  import opened Engine

  const PLAIN := Cmd(None, true)
  const PIV := Cmd(Some(Piv), true)
  const REPLY := PivReply([7])
  const NOTE: (PdIndex, Item) := (0, Notification(1))

  lemma Advance(s: State, ls: seq<Label>, l: Label) returns (longer: seq<Label>)
    requires LegalRun(s, ls) && Legal(Run(s, ls), l)
    ensures longer == ls + [l] && LegalRun(s, longer) && Run(s, longer) == Step(Run(s, ls), l)
    ensures CalmRun(s, longer) <==> CalmRun(s, ls) && Calm(Run(s, ls), l)
  {
    RunSnoc(s, ls, l);
    longer := ls + [l];
  }

  // --- a task that waits --------------------------------------------------------

  /** The context, once task 9 waits for the plain command it submitted. */
  function Waits(): State {
    State(Cp, false, Empty, false,
          Memory(map[0 := Slot(None, None, true, Some(9), 2)], {0}, 1, multiset{}),
          Lib(map[0 := Op(0, None, false)], {0}, map[], map[]),
          Events(32, [], 0, map[], [], [], 0, 0, []),
          Wakes([], None, [], map[0 := Polled(9, 0)]))
  }

  /** The context, about to return from that submit. */
  function Accepted(): State {
    State(Cp, false, Push(Finishing(0, 0, None, false, true), Empty), false,
          Memory(map[0 := Slot(None, None, false, None, 2)], {0}, 1, multiset{}),
          Lib(map[0 := Op(0, None, false)], {0}, map[], map[]),
          Events(32, [], 0, map[], [], [], 0, 0, []),
          Wakes([], None, [], map[]))
  }

  lemma PlainCommandAccepted() returns (ls: seq<Label>)
    ensures LegalRun(Init(Cp, 32), ls) && Run(Init(Cp, 32), ls) == Accepted()
  {
    var s := Init(Cp, 32);
    ls := Advance(s, [], Submit(0, PLAIN, false));
    ls := Advance(s, ls, LibReturn(true));
    ls := Advance(s, ls, Wake);
    assert Run(s, ls).mem == Accepted().mem;
    assert Run(s, ls).lib == Accepted().lib;
  }

  lemma PlainCommandWaits() returns (ls: seq<Label>)
    ensures LegalRun(Init(Cp, 32), ls) && Run(Init(Cp, 32), ls) == Waits()
  {
    var s := Init(Cp, 32);
    ls := PlainCommandAccepted();
    ls := Advance(s, ls, Finish);
    ls := Advance(s, ls, Poll(0, 9));
    assert Run(s, ls).mem == Waits().mem;
    assert Run(s, ls).lib == Waits().lib;
  }

  // --- a reply that misses its handle ---------------------------------------------

  /** The context, after a refresh that completed task 9's command and queued a
      notification, for which task 5 waits: both are to be woken. */
  function Notified(): State {
    State(Cp, false, Push(Waking([9]), Empty), false,
          Memory(map[0 := Slot(Some(Ok(())), None, true, None, 1)], {}, 1, multiset{0}),
          Lib(map[0 := Op(0, None, false)], {}, map[], map[]),
          Events(32, [NOTE], 0, map[], [NOTE], [], 0, 1, []),
          Wakes([], Some(5), [], map[0 := Polled(9, 0)]))
  }

  /** The context, inside the `piv_data` that task 9 calls: LibOSDP has accepted
      the command, and task 5 was woken on the way out. */
  function Submitting(): State {
    State(Cp, false, Push(Finishing(1, 0, Some(Piv), true, true), Push(Waking([]), Empty)), false,
          Memory(map[0 := Slot(Some(Ok(())), None, true, None, 1), 1 := Slot(None, None, false, None, 2)],
                 {1}, 2, multiset{0}),
          Lib(map[0 := Op(0, None, false), 1 := Op(0, Some(Piv), true)], {1}, map[0 := 1], map[]),
          Events(32, [NOTE], 0, map[], [NOTE], [], 0, 1, []),
          Wakes([], None, [9, 5], map[0 := Polled(9, 0)]))
  }

  /** The context, inside the refresh that task 5 calls: LibOSDP has answered and
      completed the command. */
  function Answering(): State {
    State(Cp, true,
          Push(InRefresh, Push(Finishing(1, 0, Some(Piv), true, true), Push(Waking([]), Empty))), false,
          Memory(map[0 := Slot(Some(Ok(())), None, true, None, 1), 1 := Slot(Some(Ok(())), None, false, None, 1)],
                 {}, 2, multiset{0, 1}),
          Lib(map[0 := Op(0, None, false), 1 := Op(0, Some(Piv), true)], {}, map[], map[1 := REPLY]),
          Events(32, [NOTE, (0, PivData(REPLY))], 0, map[], [NOTE, (0, PivData(REPLY))], [], 0, 2,
                 [Answered(0, 1, REPLY)]),
          Wakes([], None, [9, 5], map[0 := Polled(9, 0)]))
  }

  /** The context, inside that refresh. */
  function Refreshing(): State {
    State(Cp, true, Push(InRefresh, Empty), false,
          Memory(map[0 := Slot(Some(Ok(())), None, true, None, 1)], {}, 1, multiset{0}),
          Lib(map[0 := Op(0, None, false)], {}, map[], map[]),
          Events(32, [], 0, map[], [], [], 0, 0, []),
          Wakes([9], Some(5), [], map[0 := Polled(9, 0)]))
  }

  lemma RefreshCompletes() returns (ls: seq<Label>)
    ensures LegalRun(Init(Cp, 32), ls) && Run(Init(Cp, 32), ls) == Refreshing()
  {
    var s := Init(Cp, 32);
    ls := PlainCommandWaits();
    ls := Advance(s, ls, PollStream(5));
    ls := Advance(s, ls, Refresh);
    ls := Advance(s, ls, LibComplete(0, 0));
    assert Run(s, ls).mem == Refreshing().mem;
    assert Run(s, ls).lib == Refreshing().lib;
  }

  lemma RefreshNotifies() returns (ls: seq<Label>)
    ensures LegalRun(Init(Cp, 32), ls) && Run(Init(Cp, 32), ls) == Notified()
  {
    var s := Init(Cp, 32);
    ls := RefreshCompletes();
    ls := Advance(s, ls, LibEvent(0, Some(Notification(1))));
    ls := Advance(s, ls, LibReturn(true));
    assert Run(s, ls).events == Notified().events;
  }

  /** The context, inside LibOSDP's submit. */
  function Offered(): State {
    State(Cp, true, Push(InSubmit(1, 0, Some(Piv), true, true), Push(Waking([]), Empty)), false,
          Submitting().mem, Notified().lib, Notified().events,
          Wakes([], Some(5), [9], map[0 := Polled(9, 0)]))
  }

  lemma WokenTaskCalls() returns (ls: seq<Label>)
    ensures LegalRun(Init(Cp, 32), ls) && Run(Init(Cp, 32), ls) == Offered()
  {
    var s := Init(Cp, 32);
    ls := RefreshNotifies();
    ls := Advance(s, ls, Wake);
    assert Notified().stack.top.todo[1..] == [];
    ls := Advance(s, ls, Submit(0, PIV, true));
    assert Run(s, ls).mem == Offered().mem;
    assert Run(s, ls).stack == Offered().stack;
    assert Run(s, ls).wakes == Offered().wakes;
  }

  lemma WokenTaskSubmits() returns (ls: seq<Label>)
    ensures LegalRun(Init(Cp, 32), ls) && Run(Init(Cp, 32), ls) == Submitting()
  {
    var s := Init(Cp, 32);
    ls := WokenTaskCalls();
    ls := Advance(s, ls, LibReturn(true));
    assert Run(s, ls).stack == Push(Waking([]), Submitting().stack);
    ls := Advance(s, ls, Wake);
    assert Run(s, ls).mem == Submitting().mem;
    assert Run(s, ls).lib == Submitting().lib;
    assert Run(s, ls).wakes == Submitting().wakes;
    assert Run(s, ls).stack == Submitting().stack;
  }

  /** The context, once LibOSDP has answered in that refresh. */
  function Replied(): State {
    var t := Submitting();
    t.(busy := true, stack := Push(InRefresh, t.stack),
       lib := t.lib.(first := map[1 := REPLY]),
       events := Answering().events)
  }

  lemma TaskRefreshAnswers() returns (ls: seq<Label>)
    ensures LegalRun(Init(Cp, 32), ls) && !CalmRun(Init(Cp, 32), ls)
    ensures Run(Init(Cp, 32), ls) == Replied()
  {
    var s := Init(Cp, 32);
    ls := WokenTaskSubmits();
    ls := Advance(s, ls, Refresh);
    ls := Advance(s, ls, LibEvent(0, Some(PivData(REPLY))));
    assert Run(s, ls).lib == Replied().lib;
    assert Run(s, ls).events == Replied().events;
  }

  lemma WokenTaskRefreshes() returns (ls: seq<Label>)
    ensures LegalRun(Init(Cp, 32), ls) && !CalmRun(Init(Cp, 32), ls)
    ensures Run(Init(Cp, 32), ls) == Answering()
  {
    var s := Init(Cp, 32);
    ls := TaskRefreshAnswers();
    ls := Advance(s, ls, LibComplete(1, 0));
    assert Run(s, ls).mem == Answering().mem;
    assert Run(s, ls).lib == Answering().lib;
  }

  /** LibOSDP answers command 1 and completes it OK before `piv_data` has routed
      the reply. Its handle, there to the end, reports that it failed, and the
      reply is in the queue. */
  lemma RefreshingWakerLosesReply() returns (ls: seq<Label>)
    ensures LegalRun(Init(Cp, 32), ls) && !CalmRun(Init(Cp, 32), ls)
    ensures var t := Run(Init(Cp, 32), ls);
            && t.stack.Empty? && HasHandle(t.mem, 1) && t.lib.first == map[1 := REPLY]
            && UnitStatus(t.mem.slots[1]) == Some(Ok(()))
            && PivStatus(t.mem.slots[1]) == Some(Err(Failed))
            && t.events.queue == [NOTE, (0, PivData(REPLY))]
  {
    var s := Init(Cp, 32);
    ls := WokenTaskRefreshes();
    ls := Advance(s, ls, LibReturn(true));
    ls := Advance(s, ls, Wake);
    ls := Advance(s, ls, Finish);
    ls := Advance(s, ls, Wake);
  }

  // --- a waker fired inside C -------------------------------------------------------

  /** The context, flushing in C, with that task's waker kept for later. */
  function FlushingTask(): State {
    State(Cp, false, Push(InFlush, Empty), false,
          Memory(map[0 := Slot(Some(Err(Flushed)), None, true, None, 1)], {}, 1, multiset{0}),
          Lib(map[0 := Op(0, None, false)], {}, map[], map[]),
          Events(32, [], 0, map[], [], [], 0, 0, []),
          Wakes([9], None, [], map[0 := Polled(9, 0)]))
  }

  lemma FlushDefers() returns (ls: seq<Label>)
    ensures LegalRun(Init(Cp, 32), ls) && Run(Init(Cp, 32), ls) == FlushingTask()
  {
    var s := Init(Cp, 32);
    ls := PlainCommandWaits();
    ls := Advance(s, ls, Flush);
    ls := Advance(s, ls, LibComplete(0, 2));
    assert Run(s, ls).mem == FlushingTask().mem;
    assert Run(s, ls).lib == FlushingTask().lib;
  }

  /** A callback that a flush runs refreshes the context: the flush itself does
      not mark it busy, so the refresh fires the waker of the command just
      flushed while LibOSDP's flush is still running. */
  lemma FlushCallbackWakesInsideC() returns (ls: seq<Label>)
    ensures LegalRun(Init(Cp, 32), ls) && Legal(Run(Init(Cp, 32), ls), Wake)
    ensures var t := Run(Init(Cp, 32), ls);
            HasC(t.stack) && !t.busy && Step(t, Wake).wakes.log == t.wakes.log + [9]
  {
    var s := Init(Cp, 32);
    ls := FlushDefers();
    ls := Advance(s, ls, Refresh);
    ls := Advance(s, ls, LibReturn(true));
  }
}
