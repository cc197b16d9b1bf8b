/**
 The three lists of a deferred as callback lists of their own: what happens to each of them in a run,
 and what follows from the laws of callback lists.
 */
module DeferredLaws {
  import opened Wrappers
  import opened CallbackList
  import opened CallbackLaws
  import opened DeferredState

  /**
   What a move does to list w.  The callbacks of the constructor return at once; the second one of a
   list that settles disables the other one, and the fourth locks progress.
   */
  function Happens(d: Deferred, m: Move, w: Which): seq<Event> {
    if InInternal(d) then
      if !m.Tick? then []
      else if Top(d) == Some(w) then [ReturnEvent(true)]
      else if w.Progress? then if Current(ListOf(d, Top(d).value)) == 3 then [LockEvent] else []
      else if Current(ListOf(d, Top(d).value)) == 1 then [DisableEvent]
      else []
    else
      match m
      case UserAdd(v, fns) => if v == w then [AddEvent(fns)] else []
      case UserFire(v, args) => if v == w then [FireEvent(args)] else []
      case UserReturn(value) => if Top(d) == Some(w) then [ReturnEvent(value)] else []
      case Tick => []
  }

  function History(ms: seq<Move>, w: Which): seq<Event> {
    if ms == [] then [AddEvent(if w.Progress? then [5] else [0, 1, 2, 3, 4, 5])]
    else History(ms[..|ms| - 1], w) + Happens(Play(ms[..|ms| - 1]), ms[|ms| - 1], w)
  }

  lemma TurnOnList(d: Deferred, m: Move, w: Which)
    requires Safe(d)
    ensures var es := Happens(d, m, w);
            ListOf(Turn(d, m), w) == if es == [] then ListOf(d, w) else Step(OptionsOf(w), ListOf(d, w), es[0])
  {
    hide Add, FireWith, Return, Disable, Lock, Whole, Phase;
    if InInternal(d) {
      TickOnList(d, w);
    }
  }

  lemma TickOnList(d: Deferred, w: Which)
    requires InInternal(d)
    ensures var es := Happens(d, Tick, w);
            ListOf(Turn(d, Tick), w) == if es == [] then ListOf(d, w) else Step(OptionsOf(w), ListOf(d, w), es[0])
  {
    EffectOnList(d, Top(d).value, Current(ListOf(d, Top(d).value)), w);
    hide Return, Effect, Disable, Lock;
  }

  /** What the callbacks of list v do to list w, while v is being called. */
  lemma EffectOnList(d: Deferred, v: Which, k: int, w: Which)
    requires !v.Progress?
    ensures var e := Effect(d, v, k);
            && e.stack == d.stack
            && ListOf(e, w) == if w == v then ListOf(d, w)
                               else if w.Progress? then if k == 3 then Lock(d.progress) else d.progress
                               else if k == 1 then Disable(ListOf(d, w)) else ListOf(d, w)
  {
    hide Disable, Lock;
    KeepFiring(ListOf(d, Other(v)));
    KeepFiring(d.progress);
  }

  lemma KeepFiring(s: State)
    ensures Disable(s).firing == s.firing && Lock(s).firing == s.firing
  {
  }

  lemma RunAtMostOne(o: Options, es: seq<Event>, more: seq<Event>)
    requires |more| <= 1
    ensures Run(o, es + more) == if more == [] then Run(o, es) else Step(o, Run(o, es), more[0])
  {
    if more == [] {
      assert es + more == es;
    } else {
      RunMore(o, es, more[0]);
      assert more == [more[0]];
    }
  }

  lemma ListsAtFirst(w: Which)
    ensures ListOf(Play([]), w) == Run(OptionsOf(w), History([], w))
  {
    hide Add;
    RunAtMostOne(OptionsOf(w), [], History([], w));
    assert [] + History([], w) == History([], w);
  }

  /** Every list of a deferred, in every run, is where its own events have brought it. */
  lemma {:induction false} ListsAreRuns(ms: seq<Move>, w: Which)
    ensures ListOf(Play(ms), w) == Run(OptionsOf(w), History(ms, w))
    decreases |ms|
  {
    hide Step, Turn, Run, Happens;
    if ms == [] {
      ListsAtFirst(w);
    } else {
      var n := |ms| - 1;
      ListsAreRuns(ms[..n], w);
      PlayIsSafe(ms[..n]);
      AtMostOne(Play(ms[..n]), ms[n], w);
      TurnOnList(Play(ms[..n]), ms[n], w);
      RunAtMostOne(OptionsOf(w), History(ms[..n], w), Happens(Play(ms[..n]), ms[n], w));
    }
  }

  lemma AtMostOne(d: Deferred, m: Move, w: Which)
    ensures |Happens(d, m, w)| <= 1
  {
  }

  // ---------------------------------------------------------------- late progress

  /** A list is spent for good only with nothing to remember and nothing to do. */
  predicate Spent(s: State) {
    s.list.None? ==> s.memory.None? && s.queue == [] && s.locked
  }

  lemma SpentOnCall(o: Options, s: State)
    requires Spent(s)
    ensures Spent(NextCall(o, s))
    decreases |s.queue|, 1
  {
    hide NextEntry;
    if s.queue != [] {
      SpentOnEntry(o, Taken(s));
    }
  }

  lemma SpentOnEntry(o: Options, s: State)
    requires Spent(s)
    ensures Spent(NextEntry(o, s))
    decreases |s.queue|, 2
  {
    hide NextCall;
    if s.firingIndex + 1 >= |Items(s)| {
      SpentOnCall(o, s.(firingIndex := -1));
    }
  }

  lemma {:induction false} SpentOnRemove(s: State, fns: seq<int>)
    requires Spent(s)
    ensures Spent(RemoveAll(s, fns))
    decreases |fns|
  {
    hide Removed;
    if fns != [] {
      SpentOnRemove(RemoveOne(s, fns[0]), fns[1..]);
    }
  }

  lemma SpentOnAdd(o: Options, s: State, fns: seq<int>)
    requires Spent(s)
    ensures Spent(Add(o, s, fns))
  {
    hide PushAll, NextCall;
    if s.list.Some? {
      PushedItems(o, s, fns);
      if s.memory.Some? && !s.firing {
        var u := Enqueue(s.(firingIndex := |s.list.value| - 1), s.memory.value.args, s.nextId);
        PushedItems(o, u, fns);
        var v := PushAll(o, u, fns);
        SpentOnCall(o, v.(locked := v.locked || o.once, fired := true, firing := true));
      }
    }
  }

  lemma SpentOnStep(o: Options, s: State, e: Event)
    requires Spent(s)
    ensures Spent(Step(o, s, e))
  {
    hide RemoveAll, NextCall, NextEntry, Add;
    match e {
      case AddEvent(fns) => SpentOnAdd(o, s, fns);
      case RemoveEvent(fns) => SpentOnRemove(s, fns);
      case FireEvent(args) =>
        if !s.locked {
          SpentOnCall(o, Enqueue(s, args, 0).(locked := s.locked || o.once, fired := true, firing := true));
        }
      case ReturnEvent(value) =>
        SpentOnEntry(o, s);
        SpentOnEntry(o, s.(firingIndex := |Items(s)|, memory := None));
      case _ =>
    }
  }

  lemma {:induction false} RunSpent(o: Options, es: seq<Event>)
    ensures Spent(Run(o, es))
    decreases |es|
  {
    if es != [] {
      RunSpent(o, es[..|es| - 1]);
      hide Step;
      SpentOnStep(o, Run(o, es[..|es| - 1]), es[|es| - 1]);
    }
  }

  /** Progress is locked when the deferred settles, but never disabled. */
  lemma {:induction false} ProgressNotDisabled(ms: seq<Move>)
    ensures forall i :: 0 <= i < |History(ms, Progress)| ==> !History(ms, Progress)[i].DisableEvent?
    decreases |ms|
  {
    if ms != [] {
      ProgressNotDisabled(ms[..|ms| - 1]);
    }
  }

  lemma {:induction false} NothingForgotten(o: Options, es: seq<Event>)
    requires !o.stopOnFalse && forall i :: 0 <= i < |es| ==> !es[i].DisableEvent?
    ensures !Forgotten(o, es)
    decreases |es|
  {
    if es != [] {
      hide Run;
      NothingForgotten(o, es[..|es| - 1]);
    }
  }

  lemma ProgressRemembers(ms: seq<Move>)
    requires !Play(ms).progress.firing && Play(ms).progress.begun != []
    ensures var s, es := Play(ms).progress, History(ms, Progress);
            s == Run(MEMORY, es) && !Forgotten(MEMORY, es) && s.memory.Some? && s.list.Some? && s.queue == []
  {
    hide Run, Play, History, Forgotten;
    var es := History(ms, Progress);
    ListsAreRuns(ms, Progress);
    RunSpent(MEMORY, es);
    RunKeeps(MEMORY, es);
    MemoryIff(MEMORY, es);
    ProgressNotDisabled(ms);
    NothingForgotten(MEMORY, es);
  }

  /**
   Once there was a notification, a progress callback that is added while none is going on is called
   at once with the arguments of the last one, whether the deferred has settled since or not.
   */
  lemma LateProgress(ms: seq<Move>, fns: seq<int>)
    requires var d := Play(ms); !InInternal(d) && !d.progress.firing && d.progress.begun != [] && fns != []
    ensures var s, t := Play(ms).progress, Turn(Play(ms), UserAdd(Progress, fns)).progress;
            var last := s.begun[|s.begun| - 1];
            && last < |s.sent| && t.firing && t.log == s.log + [Firing(|s.sent|, s.nextId)]
            && t.now == Call(|s.sent|, s.sent[last], s.nextId)
  {
    hide Run, Play, History, Forgotten, Add;
    var es := History(ms, Progress);
    ProgressRemembers(ms);
    LateAddition(MEMORY, es, fns);
    RunAtMostOne(MEMORY, es, [AddEvent(fns)]);
    SomeAdded(Play(ms).progress, fns);
  }

  lemma SomeAdded(s: State, fns: seq<int>)
    requires s.list.Some? && s.memory.Some? && !s.firing && fns != [] && s.queue == []
    ensures Add(MEMORY, s, fns).nextId != s.nextId
  {
    hide PushAll, NextCall, Fns;
    var u := Enqueue(s.(firingIndex := |s.list.value| - 1), s.memory.value.args, s.nextId);
    PushAllFns(MEMORY, u, fns);
    PushedItems(MEMORY, u, fns);
    var v := PushAll(MEMORY, u, fns);
    SingleCall(MEMORY, v.(locked := v.locked || MEMORY.once, fired := true, firing := true));
  }

  // ---------------------------------------------------------------- while it is pending

  lemma {:induction false} NeverLocked(o: Options, es: seq<Event>)
    requires !o.once && forall i :: 0 <= i < |es| ==> !es[i].DisableEvent? && !es[i].LockEvent?
    ensures !Run(o, es).locked
    decreases |es|
  {
    if es != [] {
      var n := |es| - 1;
      NeverLocked(o, es[..n]);
      hide Run;
      UnlockedStep(o, Run(o, es[..n]), es[n]);
    }
  }

  lemma UnlockedStep(o: Options, s: State, e: Event)
    requires !o.once && !s.locked && !e.DisableEvent? && !e.LockEvent?
    ensures !Step(o, s, e).locked
  {
    hide PushAll, NextCall, RemoveAll, Return;
    match e {
      case AddEvent(fns) =>
        CallbackLaws.LockedOnPush(o, s, fns);
        if s.list.Some? {
          var u := Enqueue(s.(firingIndex := |s.list.value| - 1), if s.memory.Some? then s.memory.value.args else 0, s.nextId);
          CallbackLaws.LockedOnPush(o, u, fns);
          CallbackLaws.LockedOnCall(o, PushAll(o, u, fns).(locked := false, fired := true, firing := true));
        }
      case RemoveEvent(fns) => LockedOnRemove(s, fns);
      case FireEvent(args) =>
        CallbackLaws.LockedOnCall(o, Enqueue(s, args, 0).(locked := false, fired := true, firing := true));
      case ReturnEvent(value) => LockedOnReturn(o, s, value);
      case _ =>
    }
  }

  /** Progress is locked by settling only. */
  lemma {:induction false} LockMeansSettled(ms: seq<Move>, i: nat)
    requires i < |History(ms, Progress)| && History(ms, Progress)[i].LockEvent?
    ensures !Play(ms).state.Pending?
    decreases |ms|
  {
    hide Turn, Safe, Happens, InInternal;
    if ms != [] {
      var n := |ms| - 1;
      var d, before, more := Play(ms[..n]), History(ms[..n], Progress), Happens(Play(ms[..n]), ms[n], Progress);
      PlayIsSafe(ms[..n]);
      AtMostOne(d, ms[n], Progress);
      if i < |before| {
        LockMeansSettled(ms[..n], i);
      } else {
        assert more == [LockEvent];
        LockComesLate(d, ms[n]);
      }
      StateIsFinal(d, ms[n]);
    }
  }

  lemma LockComesLate(d: Deferred, m: Move)
    requires Safe(d) && Happens(d, m, Progress) == [LockEvent]
    ensures !d.state.Pending?
  {
    hide Whole;
    InternalNumber(d, Top(d).value);
  }

  lemma PendingUnlocked(ms: seq<Move>)
    requires Play(ms).state.Pending?
    ensures !Play(ms).progress.locked
  {
    var es := History(ms, Progress);
    ListsAreRuns(ms, Progress);
    ProgressNotDisabled(ms);
    forall i | 0 <= i < |es| ensures !es[i].LockEvent? {
      if es[i].LockEvent? {
        LockMeansSettled(ms, i);
      }
    }
    hide Run, Play, History;
    NeverLocked(MEMORY, es);
  }

  /** As long as the deferred is pending every notification is sent. */
  lemma NotifyIsSent(ms: seq<Move>, args: Args)
    requires Play(ms).state.Pending? && !InInternal(Play(ms))
    ensures Turn(Play(ms), UserFire(Progress, args)).progress.sent == Play(ms).progress.sent + [args]
  {
    PendingUnlocked(ms);
    hide Play, NextCall, InInternal;
    var s := Play(ms).progress;
    CallbackLaws.LockedOnCall(MEMORY, Enqueue(s, args, 0).(locked := s.locked || MEMORY.once, fired := true, firing := true));
  }

  /** And it can be resolved or rejected: the first callback of the list is called. */
  lemma SettleIsAccepted(ms: seq<Move>, w: Which, args: Args)
    requires Play(ms).state.Pending? && !InInternal(Play(ms)) && !w.Progress?
    ensures var s, t := ListOf(Play(ms), w), ListOf(Turn(Play(ms), UserFire(w, args)), w);
            s.log == [] && |t.log| == 1 && t.log[0].id == 0 && t.sent == [args] && t.firing
  {
    PlayIsSafe(ms);
    var d := Play(ms);
    hide Play;
    PendingIsOpen(d, w);
    hide Safe, FireWith;
    FirstFire(ListOf(d, w), args);
    StraightFireWith(ListOf(d, w), args);
  }

  lemma PendingIsOpen(d: Deferred, w: Which)
    requires Safe(d) && d.state.Pending? && !InInternal(d) && !w.Progress?
    ensures ListOf(d, w).log == [] && !ListOf(d, w).locked && Whole(ListOf(d, w))
  {
    if d.done.log != [] {
      NotBetween(d, Done);
    }
    if d.fail.log != [] {
      NotBetween(d, Fail);
    }
  }
}
