/**
 `jQuery.Deferred` as a state machine over its three callback lists.  Callbacks run synchronously,
 so lists can fire inside one another; the lists that are firing form a stack.  The callbacks that
 the constructor puts in front of a list act on the other lists; all others are opaque and may do
 anything that the deferred and its promise offer before they return.
 */
module DeferredState {
  import opened Wrappers
  import opened CallbackList

  datatype Which = Progress | Done | Fail

  datatype Settled = Pending | Resolved | Rejected

  const ONCE_MEMORY := Options(true, true, false, false)
  const MEMORY := Options(false, true, false, false)

  function OptionsOf(w: Which): Options {
    if w.Progress? then MEMORY else ONCE_MEMORY
  }

  /** The callbacks of the constructor stand first, in this order. */
  const SET_STATE := 0
  const DISABLE_OTHER := 1
  const LOCK_PROGRESS := 3
  const INTERNAL := 6

  datatype Deferred = Deferred(state: Settled, progress: State, done: State, fail: State, stack: seq<Which>)

  function ListOf(d: Deferred, w: Which): State {
    match w
    case Progress => d.progress
    case Done => d.done
    case Fail => d.fail
  }

  function WithList(d: Deferred, w: Which, s: State): Deferred {
    match w
    case Progress => d.(progress := s)
    case Done => d.(done := s)
    case Fail => d.(fail := s)
  }

  /** A list that begins to fire is on top of the stack; it leaves when it has done firing. */
  function Apply(d: Deferred, w: Which, s: State): Deferred {
    var was := ListOf(d, w).firing;
    WithList(d, w, s).(stack := if s.firing && !was then d.stack + [w]
                                else if was && !s.firing && d.stack != [] then d.stack[..|d.stack| - 1]
                                else d.stack)
  }

  function Other(w: Which): Which {
    if w.Done? then Fail else Done
  }

  const INIT_DEFERRED :=
    Deferred(Pending, Add(MEMORY, INIT, [5]), Add(ONCE_MEMORY, INIT, [0, 1, 2, 3, 4, 5]), Add(ONCE_MEMORY, INIT, [0, 1, 2, 3, 4, 5]), [])

  /** The list whose callback is being called. */
  function Top(d: Deferred): Option<Which> {
    if d.stack == [] then None else Some(d.stack[|d.stack| - 1])
  }

  /** The entry that is being called was put there by the constructor. */
  predicate InInternal(d: Deferred) {
    Top(d).Some? && !Top(d).value.Progress? && Current(ListOf(d, Top(d).value)) < INTERNAL
  }

  function Current(s: State): int {
    if s.log == [] then -1 else s.log[|s.log| - 1].id
  }

  /** What a callback of the constructor does before it returns. */
  function Effect(d: Deferred, w: Which, k: int): Deferred {
    if k == SET_STATE then d.(state := if w.Done? then Resolved else Rejected)
    else if k == DISABLE_OTHER then Apply(d, Other(w), Disable(ListOf(d, Other(w))))
    else if k == LOCK_PROGRESS then Apply(d, Progress, Lock(d.progress))
    else d
  }

  function ReturnTop(d: Deferred, value: bool): Deferred {
    if d.stack == [] then d
    else
      var w := d.stack[|d.stack| - 1];
      Apply(d, w, Return(OptionsOf(w), ListOf(d, w), value))
  }

  datatype Move = UserAdd(w: Which, fns: seq<int>) | UserFire(w: Which, args: Args) | UserReturn(value: bool) | Tick

  /** User code runs unless a callback of the constructor does. */
  function Turn(d: Deferred, m: Move): Deferred {
    if InInternal(d) then
      if m.Tick? then ReturnTop(Effect(d, Top(d).value, Current(ListOf(d, Top(d).value))), true) else d
    else
      match m
      case UserAdd(w, fns) => Apply(d, w, Add(OptionsOf(w), ListOf(d, w), fns))
      case UserFire(w, args) => Apply(d, w, FireWith(OptionsOf(w), ListOf(d, w), args))
      case UserReturn(value) => ReturnTop(d, value)
      case Tick => d
  }

  function Play(ms: seq<Move>): Deferred {
    if ms == [] then INIT_DEFERRED else Turn(Play(ms[..|ms| - 1]), ms[|ms| - 1])
  }

  // ---------------------------------------------------------------- a list that fires once, with memory

  /**
   Entries are called exactly in the order of their numbers, none left out: up to the one being
   called while the list fires, and all of them when it has fired.
   */
  ghost predicate Straight(s: State) {
    && (forall i :: 0 <= i < |s.log| ==> s.log[i].id == i && s.log[i].ticket < |s.sent|)
    && (forall i :: 0 <= i < |s.sent| ==> s.sent[i] == s.sent[0])
    && s.queue == []
    && (forall i :: 0 <= i < |Items(s)| ==> Items(s)[i].id == s.nextId - |Items(s)| + i)
    && (if s.list.None? then s.log == [] && !s.firing && s.locked
        else if s.firing then
          s.locked && s.memory.Some? && s.memory.value == s.now && s.now.ticket < |s.sent| && s.now.args == s.sent[0] &&
          0 <= s.firingIndex < |Items(s)| && |s.log| == s.nextId - |Items(s)| + s.firingIndex + 1 && 0 < |s.log|
        else
          s.firingIndex == -1 &&
          if s.locked then s.memory.Some? && s.sent != [] && s.memory.value.args == s.sent[0] && Items(s) == [] && |s.log| == s.nextId
          else s.memory.None? && s.sent == [] && s.log == [] && |Items(s)| == s.nextId)
  }

  /** The constructor's callbacks are in it. */
  ghost predicate Whole(s: State) {
    Straight(s) && (s.list.Some? ==> s.nextId >= INTERNAL)
  }

  lemma StraightFires(v: State)
    requires |v.queue| == 1 && v.list.Some? && v.firing && v.locked
    requires v.queue[0].ticket < |v.sent| && v.queue[0].args == v.sent[0]
    requires forall i :: 0 <= i < |v.log| ==> v.log[i].id == i && v.log[i].ticket < |v.sent|
    requires forall i :: 0 <= i < |v.sent| ==> v.sent[i] == v.sent[0]
    requires forall i :: 0 <= i < |Items(v)| ==> Items(v)[i].id == v.nextId - |Items(v)| + i
    requires v.firingIndex < |Items(v)| && |v.log| == v.nextId - |Items(v)| + v.firingIndex + 1
    ensures Straight(NextCall(ONCE_MEMORY, v))
  {
    SingleCall(ONCE_MEMORY, v);
    var t := Taken(v);
    assert Items(t) == Items(v);
  }

  lemma StraightFireWith(s: State, args: Args)
    requires Straight(s)
    ensures Straight(FireWith(ONCE_MEMORY, s, args))
    ensures s.locked ==> FireWith(ONCE_MEMORY, s, args) == s
    ensures s.locked || FireWith(ONCE_MEMORY, s, args).sent == [args]
  {
    hide NextCall;
    if !s.locked {
      var v := Enqueue(s, args, 0).(locked := true, fired := true, firing := true);
      assert Items(v) == Items(s) && v.queue == [Call(0, args, 0)] && v.sent == [args];
      hide Straight;
      StraightFires(v);
      SingleCall(ONCE_MEMORY, v);
    }
  }

  /** New entries carry on the numbering. */
  lemma {:induction false} StraightPush(s: State, fns: seq<int>)
    requires s.list.Some? && forall i :: 0 <= i < |Items(s)| ==> Items(s)[i].id == s.nextId - |Items(s)| + i
    ensures var t := PushAll(ONCE_MEMORY, s, fns);
            && t == s.(list := t.list, nextId := t.nextId, missed := t.missed) && t.list.Some?
            && (forall i :: 0 <= i < |Items(t)| ==> Items(t)[i].id == t.nextId - |Items(t)| + i)
            && t.nextId - |Items(t)| == s.nextId - |Items(s)| && |Items(t)| == |Items(s)| + |fns|
    decreases |fns|
  {
    if fns != [] {
      PushedPlain(s, fns[0]);
      hide PushOne;
      StraightPush(PushOne(ONCE_MEMORY, s, fns[0]), fns[1..]);
    }
  }

  lemma PushedPlain(s: State, fn: int)
    requires s.list.Some?
    ensures var t := PushOne(ONCE_MEMORY, s, fn);
            && t == s.(list := t.list, nextId := s.nextId + 1, missed := t.missed) && t.list.Some?
            && Items(t) == Items(s) + [Entry(fn, s.nextId)]
  {
  }

  lemma WholeAdd(s: State, fns: seq<int>)
    requires Whole(s)
    ensures var t := Add(ONCE_MEMORY, s, fns);
            && Whole(t) && t.list.Some? == s.list.Some? && |t.log| >= |s.log|
            && (s.log == [] ==> t.log == [] && !t.firing && t.locked == s.locked)
            && (s.firing ==> t.firing && t.log == s.log)
  {
    hide NextCall, PushAll;
    if s.list.Some? {
      if s.memory.Some? && !s.firing {
        WholeLate(s, fns);
      } else {
        StraightPush(s, fns);
      }
    }
  }

  lemma WholeLate(s: State, fns: seq<int>)
    requires Whole(s) && s.list.Some? && s.memory.Some? && !s.firing
    ensures var t := Add(ONCE_MEMORY, s, fns); Whole(t) && t.list.Some? && |t.log| >= |s.log| > 0
  {
    hide NextCall, PushAll;
    var u := Enqueue(s.(firingIndex := |s.list.value| - 1), s.memory.value.args, s.nextId);
    assert Items(u) == Items(s) && u.queue == [Call(|s.sent|, s.memory.value.args, s.nextId)];
    StraightPush(u, fns);
    var v := PushAll(ONCE_MEMORY, u, fns);
    var x := v.(locked := true, fired := true, firing := true);
    assert Items(x) == Items(v);
    StraightFires(x);
    SingleCall(ONCE_MEMORY, x);
  }

  lemma StraightReturn(s: State, value: bool)
    requires Straight(s) && s.firing
    ensures var t := Return(ONCE_MEMORY, s, value);
            && Straight(t) && t.list.Some? && t.nextId == s.nextId
            && |t.log| == |s.log| + if t.firing then 1 else 0
  {
    hide NextCall;
    var u := s.(firingIndex := -1);
    if s.firingIndex + 1 >= |Items(s)| {
      FinishesAt(u);
    }
  }

  lemma FinishesAt(s: State)
    requires s.queue == []
    ensures NextCall(ONCE_MEMORY, s) == Finish(ONCE_MEMORY, s)
  {
  }

  lemma StraightDisable(s: State)
    requires Straight(s) && s.log == []
    ensures Straight(Disable(s)) && !s.firing
  {
  }

  // ---------------------------------------------------------------- what every run keeps

  function Final(w: Which): Settled {
    if w.Done? then Resolved else Rejected
  }

  /** The stack holds the lists that are firing, each once. */
  ghost predicate Stacked(d: Deferred) {
    && (forall i, j :: 0 <= i < j < |d.stack| ==> d.stack[i] != d.stack[j])
    && (forall w :: ListOf(d, w).firing <==> w in d.stack)
  }

  /** How far the settling by list w has come. */
  ghost predicate Phase(d: Deferred, w: Which) {
    var s, other := ListOf(d, w), ListOf(d, Other(w));
    |s.log| > 0 ==>
      && other.log == []
      && (|s.log| <= INTERNAL && s.firing ==> Top(d) == Some(w))
      && d.state == (if |s.log| == 1 then Pending else Final(w))
      && (|s.log| >= 3 ==> other.list.None?)
      && (|s.log| >= 5 ==> d.progress.locked)
  }

  ghost predicate Safe(d: Deferred) {
    && Whole(d.done) && Whole(d.fail) && Stacked(d)
    && Phase(d, Done) && Phase(d, Fail)
    && (d.done.log == [] && d.fail.log == [] ==> d.state.Pending? && d.done.list.Some? && d.fail.list.Some?)
  }

  /** Outside the callbacks of the constructor a settled deferred has the other list disabled. */
  lemma NotBetween(d: Deferred, w: Which)
    requires Safe(d) && !InInternal(d) && !w.Progress? && ListOf(d, w).log != []
    ensures |ListOf(d, w).log| >= INTERNAL && ListOf(d, Other(w)).list.None? && d.progress.locked && d.state == Final(w)
    ensures ListOf(d, w).list.Some? && (ListOf(d, w).firing ==> |ListOf(d, w).log| > INTERNAL)
  {
    var s := ListOf(d, w);
    assert Current(s) == |s.log| - 1;
  }

  // ---------------------------------------------------------------- locking is for good

  lemma LockedOnCall(o: Options, s: State)
    ensures NextCall(o, s).locked == s.locked
    decreases |s.queue|, 1
  {
    hide NextEntry;
    if s.queue != [] {
      LockedOnEntry(o, Taken(s));
    }
  }

  lemma LockedOnEntry(o: Options, s: State)
    ensures NextEntry(o, s).locked == s.locked
    decreases |s.queue|, 2
  {
    hide NextCall;
    if s.firingIndex + 1 >= |Items(s)| {
      LockedOnCall(o, s.(firingIndex := -1));
    }
  }

  lemma {:induction false} LockedOnPush(o: Options, s: State, fns: seq<int>)
    ensures var t := PushAll(o, s, fns); t.locked == s.locked && t.firing == s.firing
    decreases |fns|
  {
    hide Has;
    if fns != [] {
      LockedOnPush(o, PushOne(o, s, fns[0]), fns[1..]);
    }
  }

  /** A list that is locked stays so, and one that fires still does. */
  lemma MemoryStep(s: State, fns: seq<int>, args: Args, value: bool)
    ensures var t := Add(MEMORY, s, fns); (s.locked ==> t.locked) && (s.firing ==> t.firing)
    ensures var t := FireWith(MEMORY, s, args); (s.locked ==> t.locked && t == s) && (s.firing ==> t.firing)
    ensures s.locked ==> Return(MEMORY, s, value).locked
  {
    hide NextCall, NextEntry, PushAll;
    LockedOnPush(MEMORY, s, fns);
    LockedOnEntry(MEMORY, s);
    if s.list.Some? && s.memory.Some? && !s.firing {
      var u := Enqueue(s.(firingIndex := |s.list.value| - 1), s.memory.value.args, s.nextId);
      LockedOnPush(MEMORY, u, fns);
      var v := PushAll(MEMORY, u, fns);
      LockedOnCall(MEMORY, v.(locked := v.locked || MEMORY.once, fired := true, firing := true));
    }
  }

  // ---------------------------------------------------------------- every move is safe

  lemma StackedApply(d: Deferred, w: Which, s: State)
    requires Stacked(d) && (ListOf(d, w).firing ==> s.firing || Top(d) == Some(w))
    ensures Stacked(Apply(d, w, s))
    ensures forall v :: v != w ==> ListOf(Apply(d, w, s), v) == ListOf(d, v)
    ensures ListOf(Apply(d, w, s), w) == s && Apply(d, w, s).state == d.state
    ensures ListOf(d, w).firing == s.firing ==> Apply(d, w, s).stack == d.stack
    ensures s.firing && !ListOf(d, w).firing ==> Top(Apply(d, w, s)) == Some(w)
  {
    var t := Apply(d, w, s);
    assert forall v :: v != w ==> ListOf(t, v) == ListOf(d, v);
    if ListOf(d, w).firing && !s.firing {
      assert w !in t.stack;
      forall v | v != w && v in d.stack ensures v in t.stack {
        var i :| 0 <= i < |d.stack| && d.stack[i] == v;
        assert t.stack[i] == v;
      }
    }
  }

  lemma SafeAdd(d: Deferred, w: Which, fns: seq<int>)
    requires Safe(d) && !InInternal(d)
    ensures Safe(Apply(d, w, Add(OptionsOf(w), ListOf(d, w), fns)))
  {
    hide Add, Whole;
    var s := ListOf(d, w);
    var t := Add(OptionsOf(w), s, fns);
    if w.Progress? {
      MemoryStep(s, fns, 0, true);
      StackedApply(d, w, t);
      SafeProgress(d, t);
    } else {
      WholeAdd(s, fns);
      StackedApply(d, w, t);
      if s.log != [] {
        NotBetween(d, w);
      }
      SafeList(d, w, t);
    }
  }

  /** The progress list may do what it likes, as long as it stays locked. */
  lemma SafeProgress(d: Deferred, t: State)
    requires Safe(d) && !InInternal(d) && (d.progress.locked ==> t.locked)
    requires Stacked(Apply(d, Progress, t)) && (d.progress.firing ==> t.firing || Top(d) == Some(Progress))
    ensures Safe(Apply(d, Progress, t))
  {
    hide Whole;
    if d.done.log != [] {
      NotBetween(d, Done);
    }
    if d.fail.log != [] {
      NotBetween(d, Fail);
    }
    StackedApply(d, Progress, t);
  }

  /** So may a list that settles, once it is past the callbacks of the constructor or has not begun. */
  lemma SafeList(d: Deferred, w: Which, t: State)
    requires Safe(d) && !w.Progress? && Whole(t) && t.list.Some? == ListOf(d, w).list.Some?
    requires Stacked(Apply(d, w, t)) && (ListOf(d, w).firing ==> t.firing || Top(d) == Some(w))
    requires if ListOf(d, w).log == [] then t.log == [] && !t.firing
             else !InInternal(d) && |t.log| >= |ListOf(d, w).log| && (ListOf(d, w).firing ==> t.firing && t.log == ListOf(d, w).log)
    ensures Safe(Apply(d, w, t))
  {
    hide Whole;
    StackedApply(d, w, t);
    if ListOf(d, w).log != [] {
      NotBetween(d, w);
    }
  }

  /** A fire that is let through is the first one of a deferred that is still pending. */
  lemma SafeFire(d: Deferred, w: Which, args: Args)
    requires Safe(d) && !InInternal(d)
    ensures Safe(Apply(d, w, FireWith(OptionsOf(w), ListOf(d, w), args)))
    ensures !w.Progress? && !ListOf(d, w).locked ==> d.state.Pending? && d.done.log == [] && d.fail.log == []
  {
    hide FireWith;
    var s := ListOf(d, w);
    var t := FireWith(OptionsOf(w), s, args);
    if w.Progress? {
      MemoryStep(s, [], args, true);
      StackedApply(d, w, t);
      SafeProgress(d, t);
    } else {
      StraightFireWith(s, args);
      if s.locked {
        assert Apply(d, w, s) == d by {
          StackedApply(d, w, s);
        }
      } else {
        assert s.log == [];
        if ListOf(d, Other(w)).log != [] {
          NotBetween(d, Other(w));
        }
        StackedApply(d, w, t);
        FirstFire(s, args);
      }
    }
  }

  lemma FirstFire(s: State, args: Args)
    requires Whole(s) && !s.locked
    ensures var t := FireWith(ONCE_MEMORY, s, args);
            Whole(t) && t.list.Some? && t.firing && |t.log| == 1 && !s.firing && s.log == []
  {
    hide NextCall;
    StraightFireWith(s, args);
    var v := Enqueue(s, args, 0).(locked := true, fired := true, firing := true);
    assert Items(v) == Items(s) && v.queue == [Call(0, args, 0)];
    SingleCall(ONCE_MEMORY, v);
  }

  lemma SafeReturn(d: Deferred, value: bool)
    requires Safe(d) && !InInternal(d)
    ensures Safe(ReturnTop(d, value))
  {
    hide Return, Whole;
    if d.stack != [] {
      var w := d.stack[|d.stack| - 1];
      var s := ListOf(d, w);
      var t := Return(OptionsOf(w), s, value);
      if w.Progress? {
        MemoryStep(s, [], 0, value);
        StackedApply(d, w, t);
        SafeProgress(d, t);
      } else {
        WholeReturn(s, value);
        StackedApply(d, w, t);
        SafeReturned(d, w, t);
      }
    }
  }

  lemma WholeReturn(s: State, value: bool)
    requires Whole(s) && s.firing
    ensures var t := Return(ONCE_MEMORY, s, value);
            && Whole(t) && t.list.Some? && s.list.Some? && |s.log| > 0
            && |t.log| == |s.log| + (if t.firing then 1 else 0)
            && (!t.firing ==> |t.log| >= INTERNAL)
  {
    StraightReturn(s, value);
    hide Return;
  }

  lemma SafeReturned(d: Deferred, w: Which, t: State)
    requires Safe(d) && !InInternal(d) && !w.Progress? && Top(d) == Some(w) && ListOf(d, w).firing
    requires Whole(t) && t.list.Some? && ListOf(d, w).log != []
    requires |t.log| == |ListOf(d, w).log| + if t.firing then 1 else 0
    ensures Safe(Apply(d, w, t))
  {
    hide Whole;
    StackedApply(d, w, t);
    NotBetween(d, w);
  }

  /** A callback of the constructor does its part and returns. */
  lemma SafeTick(d: Deferred)
    requires Safe(d) && InInternal(d)
    ensures Safe(Turn(d, Tick))
  {
    hide Return, Whole;
    var w := Top(d).value;
    var s := ListOf(d, w);
    InternalNumber(d, w);
    var e := Effect(d, w, Current(s));
    EffectKeeps(d, w);
    var t := Return(ONCE_MEMORY, s, true);
    WholeReturn(s, true);
    StackedApply(e, w, t);
    SafeTicked(d, e, w, t);
  }

  /** The callbacks of the constructor are called in turn. */
  lemma InternalNumber(d: Deferred, w: Which)
    requires Safe(d) && InInternal(d) && Top(d) == Some(w)
    ensures Current(ListOf(d, w)) == |ListOf(d, w).log| - 1 && 0 < |ListOf(d, w).log| <= INTERNAL && ListOf(d, w).firing
  {
  }

  lemma EffectKeeps(d: Deferred, w: Which)
    requires Safe(d) && InInternal(d) && Top(d) == Some(w)
    ensures var e, k := Effect(d, w, Current(ListOf(d, w))), |ListOf(d, w).log|;
            && Stacked(e) && e.stack == d.stack && ListOf(e, w) == ListOf(d, w)
            && Whole(ListOf(e, Other(w))) && ListOf(e, Other(w)).log == []
            && e.state == (if k == 1 then Final(w) else d.state)
            && (k >= 2 ==> ListOf(e, Other(w)).list.None?)
            && (k >= 4 ==> e.progress.locked)
  {
    InternalNumber(d, w);
    var s, k := ListOf(d, w), Current(ListOf(d, w));
    if k == DISABLE_OTHER {
      StraightDisable(ListOf(d, Other(w)));
      StackedApply(d, Other(w), Disable(ListOf(d, Other(w))));
    } else if k == LOCK_PROGRESS {
      StackedApply(d, Progress, Lock(d.progress));
    }
  }

  lemma SafeTicked(d: Deferred, e: Deferred, w: Which, t: State)
    requires Safe(d) && InInternal(d) && Top(d) == Some(w) && !w.Progress?
    requires var k := |ListOf(d, w).log|;
             && Stacked(e) && e.stack == d.stack && ListOf(e, w) == ListOf(d, w) && 0 < k <= INTERNAL
             && Whole(ListOf(e, Other(w))) && ListOf(e, Other(w)).log == []
             && e.state == (if k == 1 then Final(w) else d.state)
             && (k >= 2 ==> ListOf(e, Other(w)).list.None?)
             && (k >= 4 ==> e.progress.locked)
             && |t.log| == k + (if t.firing then 1 else 0) && (!t.firing ==> |t.log| >= INTERNAL)
    requires ListOf(d, w).firing && Whole(t) && t.list.Some?
    ensures Safe(Apply(e, w, t))
  {
    hide Whole;
    StackedApply(e, w, t);
  }

  lemma SafeTurn(d: Deferred, m: Move)
    requires Safe(d)
    ensures Safe(Turn(d, m))
  {
    hide Safe, Add, FireWith, ReturnTop, Effect;
    if InInternal(d) {
      SafeTick(d);
    } else {
      match m {
        case UserAdd(w, fns) => SafeAdd(d, w, fns);
        case UserFire(w, args) => SafeFire(d, w, args);
        case UserReturn(value) => SafeReturn(d, value);
        case Tick =>
      }
    }
  }

  lemma SafeAtFirst()
    ensures Safe(INIT_DEFERRED)
  {
    hide PushAll;
    var d := INIT_DEFERRED;
    StraightPush(INIT, [0, 1, 2, 3, 4, 5]);
    LockedOnPush(MEMORY, INIT, [5]);
    assert Items(INIT) == [];
  }

  lemma {:induction false} PlayIsSafe(ms: seq<Move>)
    ensures Safe(Play(ms))
    decreases |ms|
  {
    hide Safe, Turn;
    if ms == [] {
      SafeAtFirst();
    } else {
      PlayIsSafe(ms[..|ms| - 1]);
      SafeTurn(Play(ms[..|ms| - 1]), ms[|ms| - 1]);
    }
  }

  // ---------------------------------------------------------------- what follows for every run

  lemma StateIsFinal(d: Deferred, m: Move)
    requires Safe(d) && !d.state.Pending?
    ensures Turn(d, m).state == d.state
  {
    TurnState(d, m);
    hide Whole, Turn, Stacked;
    if InInternal(d) {
      InternalNumber(d, Top(d).value);
    }
  }

  /** Only the first callback of the constructor sets the state. */
  lemma TurnState(d: Deferred, m: Move)
    ensures !(InInternal(d) && Current(ListOf(d, Top(d).value)) == SET_STATE) ==> Turn(d, m).state == d.state
  {
    hide Add, FireWith, Return, Disable, Lock;
  }

  /** The state leaves pending at most once. */
  lemma {:induction false} SettlesOnce(ms: seq<Move>, more: seq<Move>)
    requires !Play(ms).state.Pending?
    ensures Play(ms + more).state == Play(ms).state
    decreases |more|
  {
    hide Turn;
    if more == [] {
      assert ms + more == ms;
    } else {
      var less := more[..|more| - 1];
      SettlesOnce(ms, less);
      assert (ms + more)[..|ms + more| - 1] == ms + less;
      PlayIsSafe(ms + less);
      hide Safe, Play;
      StateIsFinal(Play(ms + less), more[|more| - 1]);
      PlayStep(ms + less, more[|more| - 1]);
      assert ms + less + [more[|more| - 1]] == ms + more;
    }
  }

  lemma PlayStep(ms: seq<Move>, m: Move)
    ensures Play(ms + [m]) == Turn(Play(ms), m)
  {
    assert (ms + [m])[..|ms|] == ms;
  }

  /**
   Of the two lists that settle only one is ever called.  When it is not being called, every
   callback it was ever given, before or after settling, was called once, in the order in which
   they were given, with the arguments of the first settling.
   */
  lemma CalledExactlyOnce(ms: seq<Move>, w: Which)
    requires !w.Progress? && ListOf(Play(ms), w).log != []
    ensures var d, s := Play(ms), ListOf(Play(ms), w);
            && ListOf(d, Other(w)).log == []
            && (!s.firing ==> |s.log| == s.nextId)
            && forall i :: 0 <= i < |s.log| ==>
                 s.log[i].id == i && s.log[i].ticket < |s.sent| && s.sent[s.log[i].ticket] == s.sent[0]
  {
    hide Play;
    PlayIsSafe(ms);
  }

  /** While one of them is called that the constructor did not put there, the state is what the list stands for. */
  lemma StateBeforeCallbacks(ms: seq<Move>, w: Which)
    requires var d := Play(ms); !w.Progress? && ListOf(d, w).log != [] && !InInternal(d)
    ensures var d := Play(ms);
            && (w.Done? ==> d.state.Resolved? && d.fail.list.None?) && (w.Fail? ==> d.state.Rejected? && d.done.list.None?)
            && d.progress.locked
  {
    hide Play;
    PlayIsSafe(ms);
    NotBetween(Play(ms), w);
  }

  /** After that neither settling nor notifying does anything. */
  lemma LaterFiresAreIgnored(ms: seq<Move>, w: Which, v: Which, args: Args)
    requires var d := Play(ms); !w.Progress? && ListOf(d, w).log != [] && !InInternal(d)
    ensures Turn(Play(ms), UserFire(v, args)) == Play(ms)
  {
    hide Play, FireWith;
    PlayIsSafe(ms);
    var d := Play(ms);
    NotBetween(d, w);
    assert ListOf(d, v).locked;
    StackedApply(d, v, ListOf(d, v));
    LockedFire(OptionsOf(v), ListOf(d, v), args);
  }

  lemma LockedFire(o: Options, s: State, args: Args)
    requires s.locked
    ensures FireWith(o, s, args) == s
  {
  }

  lemma SentOnCall(o: Options, s: State)
    ensures NextCall(o, s).sent == s.sent
    decreases |s.queue|, 1
  {
    hide NextEntry;
    if s.queue != [] {
      SentOnEntry(o, Taken(s));
    }
  }

  lemma SentOnEntry(o: Options, s: State)
    ensures NextEntry(o, s).sent == s.sent
    decreases |s.queue|, 2
  {
    hide NextCall;
    if s.firingIndex + 1 >= |Items(s)| {
      SentOnCall(o, s.(firingIndex := -1));
    }
  }

  lemma SentByList(s: State, fns: seq<int>, args: Args, value: bool)
    requires Whole(s)
    ensures s.sent <= Add(ONCE_MEMORY, s, fns).sent && s.sent <= FireWith(ONCE_MEMORY, s, args).sent
    ensures Return(ONCE_MEMORY, s, value).sent == s.sent
  {
    hide NextCall, NextEntry, PushAll;
    SentOnEntry(ONCE_MEMORY, s);
    if s.list.Some? {
      StraightPush(s, fns);
      var u := Enqueue(s.(firingIndex := |s.list.value| - 1), if s.memory.Some? then s.memory.value.args else 0, s.nextId);
      assert Items(u) == Items(s);
      StraightPush(u, fns);
      SentOnCall(ONCE_MEMORY, PushAll(ONCE_MEMORY, u, fns).(locked := true, fired := true, firing := true));
    }
    SentOnCall(ONCE_MEMORY, Enqueue(s, args, 0).(locked := true, fired := true, firing := true));
  }

  lemma ListOfApply(d: Deferred, v: Which, t: State, w: Which)
    ensures ListOf(Apply(d, v, t), w) == if v == w then t else ListOf(d, w)
  {
  }

  /** The arguments of the first settling are never replaced. */
  lemma FirstArgumentsStay(d: Deferred, w: Which, m: Move)
    requires Safe(d) && !w.Progress?
    ensures ListOf(d, w).sent <= ListOf(Turn(d, m), w).sent
  {
    hide Add, FireWith, Return, Whole, Apply, Safe, Effect;
    SentByList(ListOf(d, w), if m.UserAdd? then m.fns else [], if m.UserFire? then m.args else 0,
               if m.UserReturn? then m.value else true) by {
      assert Safe(d);
      SafeIsWhole(d);
    }
    if InInternal(d) {
      SentOnTick(d, w);
    } else {
      match m {
        case UserAdd(v, fns) => ListOfApply(d, v, Add(OptionsOf(v), ListOf(d, v), fns), w);
        case UserFire(v, args) => ListOfApply(d, v, FireWith(OptionsOf(v), ListOf(d, v), args), w);
        case UserReturn(value) =>
          if d.stack != [] {
            var v := d.stack[|d.stack| - 1];
            ListOfApply(d, v, Return(OptionsOf(v), ListOf(d, v), value), w);
          }
        case Tick =>
      }
    }
  }

  lemma SafeIsWhole(d: Deferred)
    requires Safe(d)
    ensures Whole(d.done) && Whole(d.fail)
  {
  }

  lemma SentOnTick(d: Deferred, w: Which)
    requires Safe(d) && InInternal(d) && !w.Progress?
    ensures ListOf(d, w).sent <= ListOf(Turn(d, Tick), w).sent
  {
    hide Return, Apply, Whole, Straight;
    var v := Top(d).value;
    var k := Current(ListOf(d, v));
    var e := Effect(d, v, k);
    ListOfApply(d, Other(v), Disable(ListOf(d, Other(v))), w);
    ListOfApply(d, Progress, Lock(d.progress), w);
    assert ListOf(e, w).sent == ListOf(d, w).sent;
    EffectStack(d, v, k);
    ListOfApply(e, v, Return(ONCE_MEMORY, ListOf(e, v), true), w);
    ReturnSends(ListOf(e, v));
  }

  lemma EffectStack(d: Deferred, v: Which, k: int)
    requires Safe(d) && InInternal(d) && Top(d) == Some(v) && k == Current(ListOf(d, v))
    ensures Effect(d, v, k).stack == d.stack
  {
    hide Effect;
    EffectKeeps(d, v);
  }

  lemma ReturnSends(s: State)
    ensures Return(ONCE_MEMORY, s, true).sent == s.sent
  {
    hide NextEntry;
    SentOnEntry(ONCE_MEMORY, s);
  }
}
