/** What each operation of `jQuery.Callbacks` is for, over every run of the state machine. */
module CallbackLaws {
  import opened Wrappers
  import opened CallbackList

  /** One more event. */
  lemma RunMore(o: Options, es: seq<Event>, e: Event)
    ensures Run(o, es + [e]) == Step(o, Run(o, es), e)
  {
    assert (es + [e])[..|es|] == es;
  }

  // ---------------------------------------------------------------- what the list holds

  function Fns(list: seq<Entry>): (r: seq<int>)
    ensures |r| == |list|
  {
    seq(|list|, i requires 0 <= i < |list| => list[i].fn)
  }

  /** The entries for other callbacks, in their order. */
  function Without(list: seq<Entry>, fn: int): (r: seq<Entry>)
    ensures |r| <= |list|
  {
    if list == [] then []
    else (if list[0].fn == fn then [] else [list[0]]) + Without(list[1..], fn)
  }

  function WithoutAll(list: seq<Entry>, fns: seq<int>): seq<Entry>
    decreases |fns|
  {
    if fns == [] then list else WithoutAll(Without(list, fns[0]), fns[1..])
  }

  /** How many entries there are for fn among the first n. */
  function Occurrences(list: seq<Entry>, fn: int, n: int): nat
    requires n <= |list|
  {
    if n <= 0 then 0 else |list[..n]| - |Without(list[..n], fn)|
  }

  lemma {:induction false} WithoutIff(list: seq<Entry>, fn: int, x: Entry)
    ensures x in Without(list, fn) <==> x in list && x.fn != fn
  {
    if list != [] {
      WithoutIff(list[1..], fn, x);
      assert list == [list[0]] + list[1..];
    }
  }

  lemma {:induction false} WithoutConcat(a: seq<Entry>, b: seq<Entry>, fn: int)
    ensures Without(a + b, fn) == Without(a, fn) + Without(b, fn)
  {
    if a == [] {
      assert a + b == b;
    } else {
      WithoutConcat(a[1..], b, fn);
      var head := if a[0].fn == fn then [] else [a[0]];
      assert (a + b)[0] == a[0] && (a + b)[1..] == a[1..] + b;
      Associates(head, Without(a[1..], fn), Without(b, fn));
    }
  }

  lemma Associates<T>(a: seq<T>, b: seq<T>, c: seq<T>)
    ensures a + (b + c) == a + b + c
  {
  }

  function Least(a: int, b: int): int {
    if a < b then a else b
  }

  /** The loop takes out every entry for fn from i on. */
  lemma {:induction false} RemovedItems(list: seq<Entry>, firingIndex: Index, fn: int, i: nat)
    requires i <= |list|
    ensures Removed(list, firingIndex, fn, i).0 == list[..i] + Without(list[i..], fn)
    decreases |list| - i
  {
    if i < |list| {
      assert list[i..][1..] == list[i + 1..];
      if list[i].fn == fn {
        var less := list[..i] + list[i + 1..];
        assert less[i..] == list[i + 1..] && less[..i] == list[..i];
        RemovedItems(less, if i <= firingIndex then firingIndex - 1 else firingIndex, fn, i);
      } else {
        RemovedItems(list, firingIndex, fn, i + 1);
        assert list[..i + 1] == list[..i] + [list[i]];
      }
    }
  }

  /** And the index moves back by those that stood up to it. */
  lemma {:induction false} RemovedIndex(list: seq<Entry>, firingIndex: Index, fn: int, i: nat)
    requires i <= |list|
    ensures Removed(list, firingIndex, fn, i).1 == firingIndex - Occurrences(list[i..], fn, Least(firingIndex + 1, |list|) - i)
    decreases |list| - i
  {
    if i < |list| {
      var n, rest := Least(firingIndex + 1, |list|) - i, list[i + 1..];
      OccurrencesNext(list[i], rest, fn, n);
      assert list[i..] == [list[i]] + rest;
      hide Occurrences;
      if list[i].fn == fn {
        var less := list[..i] + rest;
        assert less[i..] == rest;
        RemovedIndex(less, if i <= firingIndex then firingIndex - 1 else firingIndex, fn, i);
      } else {
        RemovedIndex(list, firingIndex, fn, i + 1);
      }
    }
  }

  lemma OccurrencesNext(x: Entry, rest: seq<Entry>, fn: int, n: int)
    requires n <= |rest| + 1
    ensures Occurrences([x] + rest, fn, n) == if n <= 0 then 0 else Occurrences(rest, fn, n - 1) + if x.fn == fn then 1 else 0
  {
    if n > 0 {
      assert ([x] + rest)[..n] == [x] + rest[..n - 1];
      assert ([x] + rest[..n - 1])[1..] == rest[..n - 1];
      assert n == 1 ==> rest[..0] == [];
    }
  }

  lemma {:induction false} RemoveAllIs(s: State, fns: seq<int>)
    requires s.list.Some?
    ensures RemoveAll(s, fns).list == Some(WithoutAll(s.list.value, fns))
    decreases |fns|
  {
    hide Removed;
    if fns != [] {
      RemovedItems(s.list.value, s.firingIndex, fns[0], 0);
      var l := s.list.value;
      assert l[0..] == l && l[..0] + Without(l, fns[0]) == Without(l, fns[0]);
      assert RemoveOne(s, fns[0]).list == Some(Without(s.list.value, fns[0]));
      RemoveAllIs(RemoveOne(s, fns[0]), fns[1..]);
    }
  }

  /** `remove` takes out every entry for its arguments, and leaves the others in their order. */
  lemma RemoveContents(o: Options, es: seq<Event>, fns: seq<int>)
    ensures Items(Run(o, es + [RemoveEvent(fns)])) == WithoutAll(Items(Run(o, es)), fns)
  {
    RunMore(o, es, RemoveEvent(fns));
    hide Run;
    var s := Run(o, es);
    if s.list.Some? {
      RemoveAllIs(s, fns);
    } else {
      WithoutNothing(s, fns);
    }
  }

  lemma {:induction false} WithoutNothing(s: State, fns: seq<int>)
    requires s.list.None?
    ensures RemoveAll(s, fns) == s && WithoutAll([], fns) == []
    decreases |fns|
  {
    if fns != [] {
      WithoutNothing(s, fns[1..]);
    }
  }

  lemma {:induction false} WithoutAllIff(list: seq<Entry>, fns: seq<int>, x: Entry)
    ensures x in WithoutAll(list, fns) <==> x in list && x.fn !in fns
    decreases |fns|
  {
    if fns != [] {
      WithoutAllIff(Without(list, fns[0]), fns[1..], x);
      WithoutIff(list, fns[0], x);
      assert fns == [fns[0]] + fns[1..];
    }
  }

  /** What is still to be called is not shifted: the entries behind the index stay behind it. */
  lemma RemoveKeepsPlace(list: seq<Entry>, firingIndex: Index, fn: int)
    requires firingIndex < |list|
    ensures var r := Removed(list, firingIndex, fn, 0);
            && -1 <= r.1 < |r.0| && r.0[..r.1 + 1] == Without(list[..firingIndex + 1], fn)
            && r.0[r.1 + 1..] == Without(list[firingIndex + 1..], fn)
  {
    RemovedItems(list, firingIndex, fn, 0);
    RemovedIndex(list, firingIndex, fn, 0);
    assert list[0..] == list;
    assert list == list[..firingIndex + 1] + list[firingIndex + 1..];
    WithoutConcat(list[..firingIndex + 1], list[firingIndex + 1..], fn);
  }

  lemma {:induction false} PushAllFns(o: Options, s: State, fns: seq<int>)
    requires s.list.Some?
    ensures var t := PushAll(o, s, fns);
            && t.list.Some? && (!o.unique ==> Fns(Items(t)) == Fns(Items(s)) + fns)
            && forall fn :: fn in Fns(Items(t)) <==> fn in Fns(Items(s)) || fn in fns
    decreases |fns|
  {
    if fns != [] {
      PushOneFns(o, s, fns[0]);
      hide PushOne, Fns;
      PushAllFns(o, PushOne(o, s, fns[0]), fns[1..]);
      assert fns == [fns[0]] + fns[1..];
      assert Fns(Items(s)) + [fns[0]] + fns[1..] == Fns(Items(s)) + fns;
    }
  }

  lemma PushOneFns(o: Options, s: State, fn: int)
    requires s.list.Some?
    ensures var t := PushOne(o, s, fn);
            && t.list.Some? && (!o.unique ==> Fns(Items(t)) == Fns(Items(s)) + [fn])
            && forall g :: g in Fns(Items(t)) <==> g in Fns(Items(s)) || g == fn
  {
    var t := PushOne(o, s, fn);
    if Has(s.list.value, fn) {
      var i :| 0 <= i < |s.list.value| && s.list.value[i].fn == fn;
      assert Fns(s.list.value)[i] == fn;
    }
    if t != s {
      assert Fns(Items(t)) == Fns(Items(s)) + [fn];
    }
  }

  /**
   `add` puts its arguments behind what is there, or with the unique flag those that are not there
   yet.  Only adding nothing to a list that was locked clears it.
   */
  lemma AddContents(o: Options, es: seq<Event>, fns: seq<int>)
    requires Run(o, es).list.Some?
    ensures var s, t := Run(o, es), Run(o, es + [AddEvent(fns)]);
            t.firing || !t.locked ==>
              && Fns(Items(s)) <= Fns(Items(t)) && (!o.unique ==> Fns(Items(t)) == Fns(Items(s)) + fns)
              && forall fn :: fn in Fns(Items(t)) <==> fn in Fns(Items(s)) || fn in fns
  {
    RunMore(o, es, AddEvent(fns));
    var s := Run(o, es);
    hide Run, PushAll, NextCall, Fns;
    if s.memory.Some? && !s.firing {
      var u := Enqueue(s.(firingIndex := |s.list.value| - 1), s.memory.value.args, s.nextId);
      PushAllFns(o, u, fns);
      PushedItems(o, u, fns);
      var v := PushAll(o, u, fns);
      var w := v.(locked := v.locked || o.once, fired := true, firing := true);
      ItemsAfter(o, w);
      LockedOnCall(o, w);
      PrefixFns(Items(u), Items(v));
    } else {
      PushAllFns(o, s, fns);
      PushedItems(o, s, fns);
      PrefixFns(Items(s), Items(PushAll(o, s, fns)));
    }
  }

  lemma PrefixFns(a: seq<Entry>, b: seq<Entry>)
    requires a <= b
    ensures Fns(a) <= Fns(b)
  {
  }

  /** A list that goes on firing, or is not locked, keeps its entries. */
  lemma ItemsAfter(o: Options, s: State)
    ensures NextCall(o, s).firing || !s.locked ==> Items(NextCall(o, s)) == Items(s)
    decreases |s.queue|, 1
  {
    hide NextEntry;
    if s.queue != [] {
      ItemsAfterEntry(o, Taken(s));
    }
  }

  lemma ItemsAfterEntry(o: Options, s: State)
    ensures NextEntry(o, s).firing || !s.locked ==> Items(NextEntry(o, s)) == Items(s)
    decreases |s.queue|, 2
  {
    hide NextCall;
    if s.firingIndex + 1 >= |Items(s)| {
      ItemsAfter(o, s.(firingIndex := -1));
    }
  }

  /** `empty` takes out everything. */
  lemma EmptyContents(o: Options, es: seq<Event>)
    ensures Items(Run(o, es + [EmptyEvent])) == []
  {
    RunMore(o, es, EmptyEvent);
  }

  // ---------------------------------------------------------------- locking and disabling

  lemma LockedOnCall(o: Options, s: State)
    ensures NextCall(o, s).locked == s.locked && NextCall(o, s).sent == s.sent
    decreases |s.queue|, 1
  {
    hide NextEntry;
    if s.queue != [] {
      LockedOnEntry(o, Taken(s));
    }
  }

  lemma LockedOnEntry(o: Options, s: State)
    ensures NextEntry(o, s).locked == s.locked && NextEntry(o, s).sent == s.sent
    decreases |s.queue|, 2
  {
    hide NextCall;
    if s.firingIndex + 1 >= |Items(s)| {
      LockedOnCall(o, s.(firingIndex := -1));
    }
  }

  lemma {:induction false} LockedOnPush(o: Options, s: State, fns: seq<int>)
    ensures PushAll(o, s, fns).locked == s.locked && PushAll(o, s, fns).sent == s.sent
    decreases |fns|
  {
    hide Has;
    if fns != [] {
      LockedOnPush(o, PushOne(o, s, fns[0]), fns[1..]);
    }
  }

  lemma {:induction false} LockedOnRemove(s: State, fns: seq<int>)
    ensures RemoveAll(s, fns).locked == s.locked && RemoveAll(s, fns).sent == s.sent
    decreases |fns|
  {
    hide Removed;
    if fns != [] {
      LockedOnRemove(RemoveOne(s, fns[0]), fns[1..]);
    }
  }

  lemma LockedOnAdd(o: Options, s: State, fns: seq<int>)
    ensures var t := Add(o, s, fns);
            (s.locked ==> t.locked) && s.sent <= t.sent && (t.locked || !o.once || SameRecall(s, t))
  {
    hide NextCall, PushAll;
    PushRecall(o, s, fns);
    LockedOnPush(o, s, fns);
    if s.list.Some? && s.memory.Some? && !s.firing {
      var u := Enqueue(s.(firingIndex := |s.list.value| - 1), s.memory.value.args, s.nextId);
      LockedOnPush(o, u, fns);
      var v := PushAll(o, u, fns);
      LockedOnCall(o, v.(locked := v.locked || o.once, fired := true, firing := true));
    }
  }

  lemma LockedOnFire(o: Options, s: State, args: Args)
    ensures var t := FireWith(o, s, args);
            && (s.locked ==> t.locked) && (t.sent == s.sent || t.sent == s.sent + [args])
            && (t.locked || !o.once || SameRecall(s, t))
  {
    hide NextCall;
    LockedOnCall(o, Enqueue(s, args, 0).(locked := s.locked || o.once, fired := true, firing := true));
  }

  /** What is locked stays so, what was sent stays, and with `once` the first call locks. */
  lemma LockedOnStep(o: Options, s: State, e: Event)
    requires o.once && (s.begun != [] || s.firing) ==> s.locked
    ensures var t := Step(o, s, e);
            && (s.locked ==> t.locked) && s.sent <= t.sent
            && (o.once && (t.begun != [] || t.firing) ==> t.locked)
  {
    hide FireWith, Return, Add, RemoveAll;
    match e {
      case AddEvent(fns) => LockedOnAdd(o, s, fns);
      case RemoveEvent(fns) =>
        LockedOnRemove(s, fns);
        RemoveRecall(s, fns);
      case FireEvent(args) => LockedOnFire(o, s, args);
      case ReturnEvent(value) => LockedOnReturn(o, s, value);
      case _ =>
    }
  }

  lemma LockedOnReturn(o: Options, s: State, value: bool)
    ensures var t := Return(o, s, value); t.locked == s.locked && t.sent == s.sent
    ensures !s.firing ==> Return(o, s, value) == s
  {
    hide NextEntry;
    LockedOnEntry(o, s);
    LockedOnEntry(o, s.(firingIndex := |Items(s)|, memory := None));
  }

  lemma {:induction false} OnceLocks(o: Options, es: seq<Event>)
    ensures o.once && (Run(o, es).begun != [] || Run(o, es).firing) ==> Run(o, es).locked
    decreases |es|
  {
    if es != [] {
      OnceLocks(o, es[..|es| - 1]);
      RunKeeps(o, es);
      hide Step;
      LockedOnStep(o, Run(o, es[..|es| - 1]), es[|es| - 1]);
    }
  }

  /** Locking is for good, and what was sent is never taken back or changed. */
  lemma {:induction false} LockedForGood(o: Options, es: seq<Event>, more: seq<Event>)
    ensures Run(o, es).locked ==> Run(o, es + more).locked
    ensures Run(o, es).sent <= Run(o, es + more).sent
    decreases |more|
  {
    if more == [] {
      assert es + more == es;
    } else {
      var n := |more| - 1;
      LockedForGood(o, es, more[..n]);
      OnceLocks(o, es + more[..n]);
      RunMore(o, es + more[..n], more[n]);
      assert es + more[..n] + [more[n]] == es + more;
      hide Run, Step;
      LockedOnStep(o, Run(o, es + more[..n]), more[n]);
    }
  }

  /** `fire` on a list that is locked, or was disabled, does nothing, whatever came between. */
  lemma LockStopsFires(o: Options, es: seq<Event>, e: Event, more: seq<Event>, args: Args)
    requires e.LockEvent? || e.DisableEvent?
    ensures Run(o, es + [e] + more + [FireEvent(args)]) == Run(o, es + [e] + more)
  {
    RunMore(o, es, e);
    LockedForGood(o, es + [e], more);
    RunMore(o, es + [e] + more, FireEvent(args));
  }

  /** Locking drops the calls that wait, and a list at rest with nothing to remember is spent by it. */
  lemma LockDropsPending(o: Options, es: seq<Event>)
    ensures var s, t := Run(o, es), Run(o, es + [LockEvent]);
            && t.queue == [] && t.locked && t.log == s.log && t.firing == s.firing && t.memory == s.memory
            && t.list == if s.memory.None? && !s.firing then None else s.list
  {
    RunMore(o, es, LockEvent);
  }

  /** A locked list that has done firing keeps an empty list for late additions, or is spent. */
  lemma LockedEnd(o: Options, es: seq<Event>, value: bool)
    requires var s, t := Run(o, es), Run(o, es + [ReturnEvent(value)]); s.firing && !t.firing && s.locked
    ensures var t := Run(o, es + [ReturnEvent(value)]);
            t.list == if o.memory && !Forgotten(o, es + [ReturnEvent(value)]) then Some([]) else None
  {
    RunMore(o, es, ReturnEvent(value));
    MemoryIff(o, es + [ReturnEvent(value)]);
    MemoryIff(o, es);
    var s, t := Run(o, es), Run(o, es + [ReturnEvent(value)]);
    hide Run, Forgotten;
    RecallOnReturn(o, s, value, Forgotten(o, es));
    assert t.begun != [];
    LockedEndsOn(o, s);
    LockedEndsOn(o, s.(firingIndex := |Items(s)|, memory := None));
  }

  lemma LockedEndsOnCall(o: Options, s: State)
    requires s.locked && s.firing
    ensures var t := NextCall(o, s); !t.firing ==> t.list == if t.memory.Some? then Some([]) else None
    decreases |s.queue|, 1
  {
    hide NextEntry;
    if s.queue != [] {
      LockedEndsOn(o, Taken(s));
    }
  }

  lemma LockedEndsOn(o: Options, s: State)
    requires s.locked && s.firing
    ensures var t := NextEntry(o, s); !t.firing ==> t.list == if t.memory.Some? then Some([]) else None
    decreases |s.queue|, 2
  {
    hide NextCall;
    if s.firingIndex + 1 >= |Items(s)| {
      LockedEndsOnCall(o, s.(firingIndex := -1));
    } else {
      assert NextEntry(o, s).firing == s.firing;
    }
  }

  /** `fired` tells whether a call was ever taken up. */
  lemma {:induction false} FiredIff(o: Options, es: seq<Event>)
    ensures Run(o, es).fired <==> Run(o, es).begun != []
    decreases |es|
  {
    if es != [] {
      var n := |es| - 1;
      FiredIff(o, es[..n]);
      RunKeeps(o, es[..n]);
      MemoryIff(o, es[..n]);
      hide Inv, Step, Recalls, Forgotten;
      FiredOnStep(o, Run(o, es[..n]), es[n]);
    }
  }

  lemma FiredOnCall(o: Options, s: State)
    ensures NextCall(o, s).fired == s.fired
    decreases |s.queue|, 1
  {
    hide NextEntry;
    if s.queue != [] {
      FiredOnEntry(o, Taken(s));
    }
  }

  lemma FiredOnEntry(o: Options, s: State)
    ensures NextEntry(o, s).fired == s.fired
    decreases |s.queue|, 2
  {
    hide NextCall;
    if s.firingIndex + 1 >= |Items(s)| {
      FiredOnCall(o, s.(firingIndex := -1));
    }
  }

  lemma {:induction false} FiredOnLists(o: Options, s: State, fns: seq<int>)
    ensures PushAll(o, s, fns).fired == s.fired && RemoveAll(s, fns).fired == s.fired
    decreases |fns|
  {
    hide Has, Removed;
    if fns != [] {
      FiredOnLists(o, PushOne(o, s, fns[0]), fns[1..]);
      FiredOnLists(o, RemoveOne(s, fns[0]), fns[1..]);
    }
  }

  lemma FiredOnAdd(o: Options, s: State, fns: seq<int>)
    ensures var t := Add(o, s, fns); if |t.begun| > |s.begun| then t.fired else t.fired == s.fired && t.begun == s.begun
  {
    hide PushAll, NextCall;
    PushRecall(o, s, fns);
    FiredOnLists(o, s, fns);
    if s.list.Some? && s.memory.Some? && !s.firing {
      var u := Enqueue(s.(firingIndex := |s.list.value| - 1), s.memory.value.args, s.nextId);
      PushRecall(o, u, fns);
      var v := PushAll(o, u, fns);
      var w := v.(locked := v.locked || o.once, fired := true, firing := true);
      RecallOnCall(o, w);
      FiredOnCall(o, w);
    }
  }

  lemma FiredOnStep(o: Options, s: State, e: Event)
    requires (s.fired <==> s.begun != []) && (s.firing ==> s.begun != [])
    ensures Step(o, s, e).fired <==> Step(o, s, e).begun != []
  {
    hide Add, RemoveAll, NextCall, NextEntry;
    match e {
      case AddEvent(fns) => FiredOnAdd(o, s, fns);
      case RemoveEvent(fns) =>
        FiredOnLists(o, s, fns);
        RemoveRecall(s, fns);
      case FireEvent(args) =>
        var v := Enqueue(s, args, 0).(locked := s.locked || o.once, fired := true, firing := true);
        RecallOnCall(o, v);
        FiredOnCall(o, v);
      case ReturnEvent(value) =>
        if s.firing {
          var u := if o.stopOnFalse && !value then s.(firingIndex := |Items(s)|, memory := None) else s;
          RecallOnEntry(o, u);
          FiredOnEntry(o, u);
        }
      case _ =>
    }
  }

  /** With `once` the second call is ignored. */
  lemma OnceOnly(o: Options, es: seq<Event>, args: Args)
    requires o.once && Run(o, es).begun != []
    ensures Run(o, es + [FireEvent(args)]) == Run(o, es)
  {
    OnceLocks(o, es);
    RunMore(o, es, FireEvent(args));
  }

  /** A call that is not locked out is sent, with its arguments; one at rest is taken up at once. */
  lemma FireIsSent(o: Options, es: seq<Event>, args: Args)
    requires !Run(o, es).locked
    ensures var s, t := Run(o, es), Run(o, es + [FireEvent(args)]);
            && t.sent == s.sent + [args]
            && if s.firing then t.queue == s.queue + [Call(|s.sent|, args, 0)] && t.log == s.log
               else |t.begun| > 0 && t.begun[|t.begun| - 1] == |s.sent|
  {
    RunMore(o, es, FireEvent(args));
    RunKeeps(o, es);
    var s := Run(o, es);
    hide Run;
    if !s.firing {
      var v := Enqueue(s, args, 0).(locked := s.locked || o.once, fired := true, firing := true);
      assert v.queue == [Call(|s.sent|, args, 0)];
      SingleCall(o, v);
    }
  }

  /** Nothing is called any more once the list is disabled. */
  lemma {:induction false} DisabledForGood(o: Options, es: seq<Event>, more: seq<Event>)
    ensures var t := Run(o, es + [DisableEvent] + more);
            t.list.None? && t.memory.None? && t.queue == [] && t.log == Run(o, es).log
    decreases |more|
  {
    if more == [] {
      RunMore(o, es, DisableEvent);
      assert es + [DisableEvent] + more == es + [DisableEvent];
    } else {
      var n := |more| - 1;
      DisabledForGood(o, es, more[..n]);
      LockStays(o, es, more[..n]);
      RunMore(o, es + [DisableEvent] + more[..n], more[n]);
      assert es + [DisableEvent] + more[..n] + [more[n]] == es + [DisableEvent] + more;
      hide Run;
      DisabledOnStep(o, Run(o, es + [DisableEvent] + more[..n]), more[n]);
    }
  }

  lemma LockStays(o: Options, es: seq<Event>, more: seq<Event>)
    ensures Run(o, es + [DisableEvent] + more).locked
  {
    RunMore(o, es, DisableEvent);
    LockedForGood(o, es + [DisableEvent], more);
  }

  lemma DisabledOnStep(o: Options, s: State, e: Event)
    requires s.list.None? && s.memory.None? && s.queue == [] && s.locked
    ensures var t := Step(o, s, e); t.list.None? && t.memory.None? && t.queue == [] && t.log == s.log
  {
    match e {
      case RemoveEvent(fns) => WithoutNothing(s, fns);
      case ReturnEvent(value) => DisabledOnReturn(o, s, value);
      case _ =>
    }
  }

  lemma DisabledOnReturn(o: Options, s: State, value: bool)
    requires s.list.None? && s.memory.None? && s.queue == [] && s.locked
    ensures var t := Return(o, s, value); t.list.None? && t.memory.None? && t.queue == [] && t.log == s.log
  {
    if s.firing {
      assert NextEntry(o, s) == NextCall(o, s.(firingIndex := -1)) == Finish(o, s.(firingIndex := -1));
    }
  }

  // ---------------------------------------------------------------- the pass that is being made

  /** A callback that returns goes on to the next entry of the list, with the same data. */
  lemma PassGoesOn(o: Options, es: seq<Event>, value: bool)
    requires var s := Run(o, es); s.firing && (value || !o.stopOnFalse) && s.firingIndex + 1 < |Items(s)|
    ensures var s, t := Run(o, es), Run(o, es + [ReturnEvent(value)]);
            && t.firing && t.now == s.now && t.firingIndex == s.firingIndex + 1
            && t.log == s.log + [Firing(s.now.ticket, Items(s)[s.firingIndex + 1].id)]
  {
    RunMore(o, es, ReturnEvent(value));
  }

  /** One that returns false where that stops the list ends the pass: no other entry is called in it. */
  lemma StopEndsPass(o: Options, es: seq<Event>)
    requires Run(o, es).firing && o.stopOnFalse
    ensures var s, t := Run(o, es), Run(o, es + [ReturnEvent(false)]);
            && PassEnds(o, s, false) && s.log <= t.log
            && forall i :: |s.log| <= i < |t.log| ==> t.log[i].ticket != s.now.ticket
  {
    RunMore(o, es, ReturnEvent(false));
    RunKeeps(o, es);
    var s := Run(o, es);
    hide Run;
    assert InPass(s);
    var u := s.(firingIndex := -1, memory := None);
    StoppedIsRewound(o, s);
    LaterTickets(o, u, s.now.ticket);
  }

  /** What the loop calls next belongs to a call of the queue. */
  lemma LaterTickets(o: Options, s: State, ticket: nat)
    requires forall k :: 0 <= k < |s.queue| ==> s.queue[k].ticket != ticket
    ensures var t := NextCall(o, s);
            && s.log <= t.log && (forall i :: |s.log| <= i < |t.log| ==> t.log[i].ticket != ticket)
            && (t.firing ==> t.now.ticket != ticket)
    decreases |s.queue|
  {
    hide Items;
    if s.queue != [] {
      var u := Taken(s);
      assert forall k :: 0 <= k < |u.queue| ==> u.queue[k] == s.queue[k + 1];
      if u.firingIndex + 1 >= |Items(u)| {
        LaterTickets(o, u.(firingIndex := -1), ticket);
      }
    }
  }
}
