/** A place for one callback, whose own run may call it again through that place,
    or put another there. */
module CallbackSlots {
  import opened Wrappers

  type Callback = nat

  /** What a callback does with its slot while it runs: nothing more; install a
      new callback, then more; or call the slot, then more. */
  datatype Body = Done | Replace(next: Body) | Call(inner: Body, next: Body)

  /** A slot, with the callbacks it is running, the number ever installed (they
      are numbered in that order), and each one freed, with those that were
      running then. */
  datatype SlotState = SlotState(
    content: Option<Callback>,
    running: set<Callback>,
    installed: nat,
    dropped: seq<(Callback, set<Callback>)>)

  function Dropping(s: SlotState, callback: Option<Callback>): seq<(Callback, set<Callback>)> {
    s.dropped + if callback.Some? then [(callback.value, s.running)] else []
  }

  function Replaced(s: SlotState): SlotState {
    s.(content := Some(s.installed), installed := s.installed + 1, dropped := Dropping(s, s.content))
  }

  /** The callback in the slot starts: it is taken out. */
  function Started(s: SlotState): SlotState
    requires s.content.Some?
  {
    s.(content := None, running := s.running + {s.content.value})
  }

  /** Callback `cb`, started when those in `outer` were running, returns: it
      goes back, or is freed when another took its place. */
  function Settled(s: SlotState, outer: set<Callback>, cb: Callback): SlotState {
    var t := s.(running := outer);
    if t.content.Some? then t.(dropped := Dropping(t, Some(cb)))
    else t.(content := Some(cb))
  }

  function Called(s: SlotState, body: Body): SlotState
    decreases body, 1
  {
    if s.content.None? then s
    else Settled(Ran(Started(s), body), s.running, s.content.value)
  }

  function Ran(s: SlotState, body: Body): SlotState
    decreases body, 0
  {
    match body
    case Done => s
    case Replace(next) => Ran(Replaced(s), next)
    case Call(inner, next) => Ran(Called(s, inner), next)
  }

  /** Every callback installed is in the slot, or running, or was freed once,
      and none was running when it was freed. */
  ghost predicate Good(s: SlotState) {
    && (s.content.Some? ==> s.content.value < s.installed && s.content.value !in s.running)
    && (forall cb <- s.running :: cb < s.installed)
    && (forall i | 0 <= i < |s.dropped| :: s.dropped[i].0 !in s.dropped[i].1)
    && (forall cb: Callback :: Frees(s.dropped, cb) == if cb < s.installed && !Held(s, cb) then 1 else 0)
  }

  predicate Held(s: SlotState, cb: Callback) {
    s.content == Some(cb) || cb in s.running
  }

  function Frees(dropped: seq<(Callback, set<Callback>)>, cb: Callback): nat {
    if dropped == [] then 0
    else Frees(dropped[..|dropped| - 1], cb) + if dropped[|dropped| - 1].0 == cb then 1 else 0
  }

  lemma FreesOneMore(s: SlotState, callback: Option<Callback>, cb: Callback)
    ensures Frees(Dropping(s, callback), cb) ==
            Frees(s.dropped, cb) + if callback == Some(cb) then 1 else 0
  {
    if callback.Some? {
      var more := Dropping(s, callback);
      assert more[..|more| - 1] == s.dropped;
    } else {
      assert Dropping(s, callback) == s.dropped;
    }
  }

  lemma ReplacedGood(s: SlotState)
    requires Good(s)
    ensures Good(Replaced(s))
  {
    forall cb: Callback
      ensures Frees(Dropping(s, s.content), cb) == Frees(s.dropped, cb) + if s.content == Some(cb) then 1 else 0
    {
      FreesOneMore(s, s.content, cb);
    }
  }

  lemma StartedGood(s: SlotState)
    requires Good(s) && s.content.Some?
    ensures Good(Started(s))
  {
    forall cb: Callback ensures Held(Started(s), cb) <==> Held(s, cb) {
    }
  }

  lemma SettledGood(s: SlotState, outer: set<Callback>, cb: Callback)
    requires Good(s) && s.running == outer + {cb} && cb !in outer
    ensures Good(Settled(s, outer, cb))
  {
    var t := s.(running := outer);
    forall other: Callback
      ensures Frees(Dropping(t, Some(cb)), other) == Frees(s.dropped, other) + if other == cb then 1 else 0
    {
      FreesOneMore(t, Some(cb), other);
    }
  }

  /** For every finite tree of nested calls and replacements: a slot holds the
      callback installed last, or, when none was, the one it held; the calls
      that were running still are; and no callback is freed twice, or while it
      runs. */
  lemma {:induction false} SlotKeepsCallback(s: SlotState, body: Body)
    requires Good(s)
    ensures var t := Ran(s, body);
            && Good(t) && t.running == s.running && t.installed >= s.installed
            && t.content == if t.installed > s.installed then Some(t.installed - 1) else s.content
    decreases body, 0
  {
    match body
    case Done =>
    case Replace(next) =>
      ReplacedGood(s);
      SlotKeepsCallback(Replaced(s), next);
    case Call(inner, next) =>
      CallKeepsCallback(s, inner);
      SlotKeepsCallback(Called(s, inner), next);
  }

  lemma {:induction false} CallKeepsCallback(s: SlotState, body: Body)
    requires Good(s)
    ensures var t := Called(s, body);
            && Good(t) && t.running == s.running && t.installed >= s.installed
            && t.content == if t.installed > s.installed then Some(t.installed - 1) else s.content
    decreases body, 1
  {
    if s.content.Some? {
      StartedGood(s);
      SlotKeepsCallback(Started(s), body);
      SettledGood(Ran(Started(s), body), s.running, s.content.value);
    }
  }

  /** How many callbacks a body gets to install, started with a callback in the slot
      or with none: what is called through an empty slot does not run. */
  function Installs(body: Body, full: bool): nat {
    match body
    case Done => 0
    case Replace(next) => 1 + Installs(next, true)
    case Call(inner, next) =>
      if full then Installs(inner, false) + Installs(next, true) else Installs(next, false)
  }

  /** A callback that is called while it is in its slot runs, and no other does: a run
      installs exactly what such calls install. */
  lemma {:induction false} InstallsCounted(s: SlotState, body: Body)
    ensures Ran(s, body).installed == s.installed + Installs(body, s.content.Some?)
    decreases body
  {
    match body
    case Done =>
    case Replace(next) => InstallsCounted(Replaced(s), next);
    case Call(inner, next) =>
      if s.content.Some? {
        InstallsCounted(Started(s), inner);
      }
      InstallsCounted(Called(s, inner), next);
  }

  lemma CallInstalls(s: SlotState, body: Body)
    ensures Called(s, body).installed ==
            s.installed + if s.content.Some? then Installs(body, false) else 0
  {
    if s.content.Some? {
      InstallsCounted(Started(s), body);
    }
  }

  /** The slot itself: the callback is taken out while it runs. */
  class CallbackSlot {
    var content: Option<Callback>
    var installed: nat
    ghost var s: SlotState

    ghost predicate Valid()
      reads this
    {
      Good(s) && s.content == content && s.installed == installed
    }

    constructor ()
      ensures Valid() && s == SlotState(None, {}, 0, [])
    {
      content := None;
      installed := 0;
      s := SlotState(None, {}, 0, []);
    }

    method Replace(callback: Callback)
      requires Valid() && callback == installed
      modifies this
      ensures Valid() && s == Replaced(old(s)) && content == Some(callback)
    {
      ReplacedGood(s);
      s := Replaced(s);
      content := Some(callback);
      installed := installed + 1;
    }

    /** Calls what the slot holds, if anything; `body` is what that does. Says which
        callback ran. */
    method Call(body: Body) returns (ran: Option<Callback>)
      requires Valid()
      modifies this
      ensures Valid() && s == Called(old(s), body) && ran == old(content)
      decreases body, 1
    {
      CallKeepsCallback(s, body);
      ran := content;
      if content.None? {
        return;
      }
      ghost var outer := s.running;
      StartedGood(s);
      s := Started(s);
      content := None;
      Run(body);
      s := Settled(s, outer, ran.value);
      if content.None? {
        content := ran;
      }
    }

    method Run(body: Body)
      requires Valid()
      modifies this
      ensures Valid() && s == Ran(old(s), body)
      decreases body, 0
    {
      match body
      case Done =>
      case Replace(next) =>
        Replace(installed);
        Run(next);
      case Call(inner, next) =>
        var _ := Call(inner);
        Run(next);
    }
  }
}
