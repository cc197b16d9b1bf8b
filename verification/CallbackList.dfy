/**
 `jQuery.Callbacks` as a state machine.  A callback is an opaque action that may call any operation
 of the list before it returns, so a run is a sequence of operations and returns: while a list is
 firing it stands inside the callback at firingIndex.  Every entry of a list and every call has a
 number of its own, so that what has happened can be told apart.
 */
module CallbackList {
  import opened Wrappers

  datatype Options = Options(once: bool, memory: bool, unique: bool, stopOnFalse: bool)

  type Args = int

  /** -1 before the first entry, and again when a callback that stood first has removed itself. */
  type Index = i: int | i >= -1 witness -1

  /** A callback in the list; id counts the entries that were ever put into it. */
  datatype Entry = Entry(fn: int, id: nat)

  /** Pending data. Entries with an id below `floor` are passed over: they were fired before. */
  datatype Call = Call(ticket: nat, args: Args, floor: nat)

  /** Entry `id` was called with the data of `ticket`. */
  datatype Firing = Firing(ticket: nat, id: nat)

  /**
   The variables of the closure, and what they cannot tell of the past: the call that is being
   made or was made last, all firings, the arguments of every ticket, the tickets whose turn has
   come, the number of entries so far, the entries that were put into the list behind the back of
   the current pass, whether the list was emptied in it, and whether calls were thrown away.
   */
  datatype State = State(
    list: Option<seq<Entry>>,
    queue: seq<Call>,
    firingIndex: Index,
    memory: Option<Call>,
    locked: bool,
    fired: bool,
    firing: bool,
    now: Call,
    log: seq<Firing>,
    sent: seq<Args>,
    begun: seq<nat>,
    nextId: nat,
    missed: set<nat>,
    emptied: bool,
    dropped: bool)

  const INIT := State(Some([]), [], -1, None, false, false, false, Call(0, 0, 0), [], [], [], 0, {}, false, false)

  // ---------------------------------------------------------------- the operations

  function Items(s: State): seq<Entry> {
    if s.list.Some? then s.list.value else []
  }

  predicate Has(list: seq<Entry>, fn: int) {
    exists i :: 0 <= i < |list| && list[i].fn == fn
  }

  function PushOne(o: Options, s: State, fn: int): State {
    if s.list.None? || (o.unique && Has(s.list.value, fn)) then s
    else
      s.(list := Some(s.list.value + [Entry(fn, s.nextId)]), nextId := s.nextId + 1,
         missed := if s.firing && s.firingIndex >= |s.list.value| then s.missed + {s.nextId} else s.missed)
  }

  function PushAll(o: Options, s: State, fns: seq<int>): State
    decreases |fns|
  {
    if fns == [] then s else PushAll(o, PushOne(o, s, fns[0]), fns[1..])
  }

  /** The first call of the queue is taken up. */
  function Taken(s: State): State
    requires s.queue != []
  {
    var call := s.queue[0];
    s.(queue := s.queue[1..], memory := Some(call), now := call, begun := s.begun + [call.ticket], missed := {}, emptied := false)
  }

  /** The loop of `fire` from its head on, up to the next callback or to its end. */
  function NextCall(o: Options, s: State): State
    decreases |s.queue|, 1
  {
    if s.queue == [] then Finish(o, s)
    else
      NextEntry(o, Taken(s))
  }

  /** The inner loop: the next callback is called, or the next call is taken up. */
  function NextEntry(o: Options, s: State): State
    decreases |s.queue|, 2
  {
    if s.firingIndex + 1 < |Items(s)| then
      s.(firingIndex := s.firingIndex + 1, log := s.log + [Firing(s.now.ticket, Items(s)[s.firingIndex + 1].id)])
    else NextCall(o, s.(firingIndex := -1))
  }

  function Finish(o: Options, s: State): State {
    var memory := if o.memory then s.memory else None;
    s.(memory := memory, firing := false,
       list := if !s.locked then s.list else if memory.Some? then Some([]) else None)
  }

  function Fire(o: Options, s: State): State {
    NextCall(o, s.(locked := s.locked || o.once, fired := true, firing := true))
  }

  function Enqueue(s: State, args: Args, floor: nat): State {
    s.(queue := s.queue + [Call(|s.sent|, args, floor)], sent := s.sent + [args])
  }

  function Add(o: Options, s: State, fns: seq<int>): State {
    if s.list.None? then s
    else if s.memory.Some? && !s.firing then
      Fire(o, PushAll(o, Enqueue(s.(firingIndex := |s.list.value| - 1), s.memory.value.args, s.nextId), fns))
    else PushAll(o, s, fns)
  }

  /** All entries for fn from index i on are taken out. */
  function Removed(list: seq<Entry>, firingIndex: Index, fn: int, i: nat): (r: (seq<Entry>, Index))
    requires i <= |list|
    decreases |list| - i
  {
    if i == |list| then (list, firingIndex)
    else if list[i].fn == fn then
      Removed(list[..i] + list[i + 1..], if i <= firingIndex then firingIndex - 1 else firingIndex, fn, i)
    else Removed(list, firingIndex, fn, i + 1)
  }

  function RemoveOne(s: State, fn: int): State {
    if s.list.None? then s
    else
      var r := Removed(s.list.value, s.firingIndex, fn, 0);
      s.(list := Some(r.0), firingIndex := r.1)
  }

  function RemoveAll(s: State, fns: seq<int>): State
    decreases |fns|
  {
    if fns == [] then s else RemoveAll(RemoveOne(s, fns[0]), fns[1..])
  }

  function Empty(s: State): State {
    if s.list.Some? then s.(list := Some([]), emptied := s.firing) else s
  }

  function Disable(s: State): State {
    s.(locked := true, queue := [], list := None, memory := None, dropped := true)
  }

  function Lock(s: State): State {
    var t := s.(locked := true, queue := [], dropped := true);
    if s.memory.None? && !s.firing then t.(list := None, memory := None) else t
  }

  function FireWith(o: Options, s: State, args: Args): State {
    if s.locked then s
    else
      var t := Enqueue(s, args, 0);
      if s.firing then t else Fire(o, t)
  }

  /** The callback that is being called returns. */
  function Return(o: Options, s: State, value: bool): State {
    if !s.firing then s
    else if o.stopOnFalse && !value then NextEntry(o, s.(firingIndex := |Items(s)|, memory := None))
    else NextEntry(o, s)
  }

  datatype Event =
    | AddEvent(fns: seq<int>)
    | RemoveEvent(fns: seq<int>)
    | EmptyEvent
    | DisableEvent
    | LockEvent
    | FireEvent(args: Args)
    | ReturnEvent(value: bool)

  function Step(o: Options, s: State, e: Event): State {
    match e
    case AddEvent(fns) => Add(o, s, fns)
    case RemoveEvent(fns) => RemoveAll(s, fns)
    case EmptyEvent => Empty(s)
    case DisableEvent => Disable(s)
    case LockEvent => Lock(s)
    case FireEvent(args) => FireWith(o, s, args)
    case ReturnEvent(value) => Return(o, s, value)
  }

  function Run(o: Options, es: seq<Event>): State {
    if es == [] then INIT else Step(o, Run(o, es[..|es| - 1]), es[|es| - 1])
  }

  // ---------------------------------------------------------------- what every run keeps

  /** Firings in the order in which they happen: by ticket, and within a ticket by entry. */
  predicate Before(a: Firing, b: Firing) {
    a.ticket < b.ticket || (a.ticket == b.ticket && a.id < b.id)
  }

  /** Calls are made one after another in the order of their tickets, each in the order of the list. */
  ghost predicate InOrder(s: State) {
    && (forall i, j :: 0 <= i < j < |s.log| ==> Before(s.log[i], s.log[j]))
    && (forall i :: 0 <= i < |s.log| ==> s.log[i].ticket < |s.sent| && s.log[i].id < s.nextId)
    && (forall i, k :: 0 <= i < |s.log| && 0 <= k < |s.queue| ==> s.log[i].ticket < s.queue[k].ticket)
  }

  ghost predicate ListInOrder(s: State) {
    && (forall i, j :: 0 <= i < j < |Items(s)| ==> Items(s)[i].id < Items(s)[j].id)
    && (forall i :: 0 <= i < |Items(s)| ==> Items(s)[i].id < s.nextId)
  }

  ghost predicate Sound(s: State, c: Call) {
    c.ticket < |s.sent| && c.args == s.sent[c.ticket] && c.floor <= s.nextId
  }

  ghost predicate Waiting(s: State) {
    && (forall k :: 0 <= k < |s.queue| ==> Sound(s, s.queue[k]))
    && (forall k, l :: 0 <= k < l < |s.queue| ==> s.queue[k].ticket < s.queue[l].ticket)
    && (forall k :: 0 < k < |s.queue| ==> s.queue[k].floor == 0)
    && (s.memory.Some? ==> s.memory.value == s.now && Sound(s, s.now))
  }

  /** The callback at firingIndex is being called, with the entries up to it done and the rest to come. */
  ghost predicate InPass(s: State) {
    && Sound(s, s.now)
    && (forall k :: 0 <= k < |s.queue| ==> s.now.ticket < s.queue[k].ticket && s.queue[k].floor == 0)
    && (forall i :: 0 <= i < |s.log| ==> LoggedBy(s, s.log[i]))
    && (forall i :: 0 <= i < |Items(s)| ==> if i <= s.firingIndex then Behind(s, Items(s)[i].id) else Ahead(s, Items(s)[i].id))
    && (s.list.Some? && s.firingIndex >= |Items(s)| ==> s.emptied)
    && (s.missed != {} ==> s.emptied)
    && (forall id :: id in s.missed ==> s.now.floor <= id < s.nextId)
  }

  ghost predicate LoggedBy(s: State, f: Firing) {
    f.ticket <= s.now.ticket && (f.ticket == s.now.ticket ==> s.now.floor <= f.id && f.id !in s.missed)
  }

  ghost predicate Behind(s: State, id: nat) {
    id < s.now.floor || Firing(s.now.ticket, id) in s.log || id in s.missed
  }

  ghost predicate Ahead(s: State, id: nat) {
    s.now.floor <= id && id !in s.missed && forall i :: 0 <= i < |s.log| && s.log[i].ticket == s.now.ticket ==> s.log[i].id < id
  }

  ghost predicate Inv(o: Options, s: State) {
    && InOrder(s) && ListInOrder(s) && Waiting(s)
    && (s.firing ==> InPass(s) && (o.once ==> s.locked))
    && (!s.firing ==> s.queue == [] && s.firingIndex == -1)
    && (s.list.None? ==> s.locked)
    && (s.locked && !s.firing ==> s.list.None? || s.memory.Some?)
  }

  /** The head of the loop: the next call has still everything to do that is not below its floor. */
  ghost predicate AtHead(o: Options, s: State) {
    && InOrder(s) && ListInOrder(s) && Waiting(s)
    && s.firing && (o.once ==> s.locked) && (s.list.None? ==> s.locked)
    && (s.queue == [] ==> s.firingIndex == -1)
    && (s.queue != [] ==> Cut(s, s.queue[0].floor) && (s.list.Some? ==> s.firingIndex < |Items(s)|))
  }

  ghost predicate Cut(s: State, floor: nat) {
    forall i :: 0 <= i < |Items(s)| ==> (i <= s.firingIndex <==> Items(s)[i].id < floor)
  }

  lemma HeadKeeps(o: Options, s: State)
    requires AtHead(o, s)
    ensures Inv(o, NextCall(o, s))
    decreases |s.queue|, 1
  {
    hide NextEntry, Inv;
    if s.queue == [] {
      FinishKeeps(o, s);
    } else {
      TakenKeeps(o, s);
      EntryKeeps(o, Taken(s));
    }
  }

  lemma TakenKeeps(o: Options, s: State)
    requires AtHead(o, s) && s.queue != []
    ensures AtEntry(o, Taken(s))
  {
    var t := Taken(s);
    assert forall k :: 0 <= k < |t.queue| ==> t.queue[k] == s.queue[k + 1];
  }

  lemma FinishKeeps(o: Options, s: State)
    requires AtHead(o, s) && s.queue == []
    ensures Inv(o, Finish(o, s))
  {
    var t := Finish(o, s);
    assert Items(t) == if s.locked then [] else Items(s);
  }

  ghost predicate AtEntry(o: Options, s: State) {
    && InOrder(s) && ListInOrder(s) && Waiting(s) && InPass(s)
    && s.firing && (o.once ==> s.locked) && (s.list.None? ==> s.locked)
  }

  lemma EntryKeeps(o: Options, s: State)
    requires AtEntry(o, s)
    ensures Inv(o, NextEntry(o, s))
    decreases |s.queue|, 2
  {
    hide NextCall, InOrder, ListInOrder, Waiting, InPass;
    if s.firingIndex + 1 < |Items(s)| {
      CalledKeeps(s);
    } else {
      hide Inv;
      RewoundKeeps(o, s);
      HeadKeeps(o, s.(firingIndex := -1));
    }
  }

  lemma RewoundKeeps(o: Options, s: State)
    requires AtEntry(o, s)
    ensures AtHead(o, s.(firingIndex := -1))
  {
  }

  lemma CalledKeeps(s: State)
    requires InOrder(s) && ListInOrder(s) && Waiting(s) && InPass(s) && s.firingIndex + 1 < |Items(s)|
    ensures var t := s.(firingIndex := s.firingIndex + 1,
                        log := s.log + [Firing(s.now.ticket, Items(s)[s.firingIndex + 1].id)]);
            InOrder(t) && ListInOrder(t) && Waiting(t) && InPass(t)
  {
  }

  // ---------------------------------------------------------------- the operations keep it

  lemma {:induction false} PushAllKeeps(o: Options, s: State, fns: seq<int>)
    requires Inv(o, s) && (s.firing || !s.locked || s.list.None?)
    ensures Inv(o, PushAll(o, s, fns))
    decreases |fns|
  {
    hide Inv;
    if fns != [] {
      PushOneKeeps(o, s, fns[0]);
      PushAllKeeps(o, PushOne(o, s, fns[0]), fns[1..]);
    }
  }

  lemma PushOneKeeps(o: Options, s: State, fn: int)
    requires Inv(o, s) && (s.firing || !s.locked || s.list.None?)
    ensures Inv(o, PushOne(o, s, fn))
    ensures var t := PushOne(o, s, fn); t.firing == s.firing && t.locked == s.locked && t.list.Some? == s.list.Some?
  {
    hide Has;
    var t := PushOne(o, s, fn);
    if t != s {
      assert Items(t) == Items(s) + [Entry(fn, s.nextId)];
      assert ListInOrder(t) && InOrder(t) && Waiting(t);
      if s.firing {
        PushedInPass(s, t, fn);
      }
    }
  }

  lemma PushedInPass(s: State, t: State, fn: int)
    requires InOrder(s) && ListInOrder(s) && Waiting(s) && InPass(s) && s.list.Some?
    requires t == s.(list := Some(s.list.value + [Entry(fn, s.nextId)]), nextId := s.nextId + 1,
                     missed := if s.firingIndex >= |s.list.value| then s.missed + {s.nextId} else s.missed)
    ensures InPass(t)
  {
    assert forall i :: 0 <= i < |Items(s)| ==> Items(t)[i] == Items(s)[i];
    assert Items(t)[|Items(s)|].id == s.nextId;
    assert forall id :: Behind(s, id) ==> Behind(t, id);
    assert forall i :: 0 <= i < |s.log| ==> LoggedBy(s, s.log[i]);
  }

  /** The entries that an addition puts behind the old ones are all that its call is to fire. */
  ghost predicate Loading(o: Options, s: State) {
    && InOrder(s) && ListInOrder(s) && Waiting(s) && !s.firing && s.list.Some?
    && |s.queue| == 1 && Cut(s, s.queue[0].floor) && s.firingIndex < |Items(s)|
  }

  lemma {:induction false} LoadingKeeps(o: Options, s: State, fns: seq<int>)
    requires Loading(o, s)
    ensures Loading(o, PushAll(o, s, fns)) && PushAll(o, s, fns).queue == s.queue
    decreases |fns|
  {
    if fns != [] {
      LoadOne(o, s, fns[0]);
      hide Loading;
      LoadingKeeps(o, PushOne(o, s, fns[0]), fns[1..]);
    }
  }

  lemma LoadOne(o: Options, s: State, fn: int)
    requires Loading(o, s)
    ensures Loading(o, PushOne(o, s, fn)) && PushOne(o, s, fn).queue == s.queue
  {
    hide Has;
  }

  lemma LoadBegins(o: Options, s: State)
    requires Inv(o, s) && s.list.Some? && s.memory.Some? && !s.firing
    ensures Loading(o, Enqueue(s.(firingIndex := |s.list.value| - 1), s.memory.value.args, s.nextId))
  {
    hide InPass;
    var t := Enqueue(s.(firingIndex := |s.list.value| - 1), s.memory.value.args, s.nextId);
    assert Items(t) == Items(s);
    assert t.sent[..|s.sent|] == s.sent;
  }

  lemma LoadFires(o: Options, s: State)
    requires Loading(o, s)
    ensures AtHead(o, s.(locked := s.locked || o.once, fired := true, firing := true))
  {
  }

  lemma AddKeeps(o: Options, s: State, fns: seq<int>)
    requires Inv(o, s)
    ensures Inv(o, Add(o, s, fns))
  {
    hide Loading, AtHead, PushAll, Enqueue, NextCall;
    if s.list.Some? {
      if s.memory.Some? && !s.firing {
        LoadBegins(o, s);
        hide Inv;
        var t := Enqueue(s.(firingIndex := |s.list.value| - 1), s.memory.value.args, s.nextId);
        LoadingKeeps(o, t, fns);
        var u := PushAll(o, t, fns);
        LoadFires(o, u);
        HeadKeeps(o, u.(locked := u.locked || o.once, fired := true, firing := true));
      } else {
        PushAllKeeps(o, s, fns);
      }
    }
  }

  lemma DropKeeps(o: Options, s: State, i: nat)
    requires Inv(o, s) && s.list.Some? && i < |s.list.value|
    ensures Inv(o, Dropped(s, i))
  {
    var t := Dropped(s, i);
    DroppedItems(s, i);
    assert ListInOrder(t);
    assert s.firing ==> InPass(t);
  }

  lemma DroppedItems(s: State, i: nat)
    requires s.list.Some? && i < |s.list.value|
    ensures var t := Dropped(s, i);
            |Items(t)| == |Items(s)| - 1 &&
            forall k :: 0 <= k < |Items(t)| ==> Items(t)[k] == if k < i then Items(s)[k] else Items(s)[k + 1]
  {
  }

  /** One entry is spliced out. */
  function Dropped(s: State, i: nat): State
    requires s.list.Some? && i < |s.list.value|
  {
    s.(list := Some(s.list.value[..i] + s.list.value[i + 1..]),
       firingIndex := if i <= s.firingIndex then s.firingIndex - 1 else s.firingIndex)
  }

  lemma {:induction false} RemovedKeeps(o: Options, s: State, fn: int, i: nat)
    requires Inv(o, s) && s.list.Some? && i <= |s.list.value|
    ensures var r := Removed(s.list.value, s.firingIndex, fn, i); Inv(o, s.(list := Some(r.0), firingIndex := r.1))
    decreases |s.list.value| - i
  {
    hide Inv;
    if i < |s.list.value| {
      if s.list.value[i].fn == fn {
        DropKeeps(o, s, i);
        RemovedKeeps(o, Dropped(s, i), fn, i);
      } else {
        RemovedKeeps(o, s, fn, i + 1);
      }
    }
  }

  lemma {:induction false} RemoveAllKeeps(o: Options, s: State, fns: seq<int>)
    requires Inv(o, s)
    ensures Inv(o, RemoveAll(s, fns))
    decreases |fns|
  {
    hide Inv;
    if fns != [] {
      if s.list.Some? {
        RemovedKeeps(o, s, fns[0], 0);
      }
      RemoveAllKeeps(o, RemoveOne(s, fns[0]), fns[1..]);
    }
  }

  lemma FireWithKeeps(o: Options, s: State, args: Args)
    requires Inv(o, s)
    ensures Inv(o, FireWith(o, s, args))
  {
    hide NextCall;
    if !s.locked {
      hide Inv, AtHead, Enqueue;
      if s.firing {
        QueuedKeeps(o, s, args);
      } else {
        FirstKeeps(o, s, args);
        HeadKeeps(o, Enqueue(s, args, 0).(locked := s.locked || o.once, fired := true, firing := true));
      }
    }
  }

  lemma QueuedKeeps(o: Options, s: State, args: Args)
    requires Inv(o, s) && !s.locked && s.firing
    ensures Inv(o, Enqueue(s, args, 0))
  {
    QueuedWaits(s, args);
    QueuedInPass(s, args);
    hide InOrder, ListInOrder, Waiting, InPass;
  }

  lemma QueuedWaits(s: State, args: Args)
    requires InOrder(s) && ListInOrder(s) && Waiting(s)
    ensures var t := Enqueue(s, args, 0); InOrder(t) && ListInOrder(t) && Waiting(t)
  {
    var t := Enqueue(s, args, 0);
    assert Items(t) == Items(s) && t.sent[..|s.sent|] == s.sent;
  }

  lemma QueuedInPass(s: State, args: Args)
    requires InPass(s)
    ensures InPass(Enqueue(s, args, 0))
  {
    var t := Enqueue(s, args, 0);
    assert Items(t) == Items(s) && t.sent[..|s.sent|] == s.sent;
    assert forall i :: 0 <= i < |s.log| ==> LoggedBy(s, s.log[i]);
    assert forall id :: Behind(s, id) ==> Behind(t, id);
    assert forall id :: Ahead(s, id) ==> Ahead(t, id);
  }

  lemma FirstKeeps(o: Options, s: State, args: Args)
    requires Inv(o, s) && !s.locked && !s.firing
    ensures AtHead(o, Enqueue(s, args, 0).(locked := s.locked || o.once, fired := true, firing := true))
  {
    hide InPass;
    var t := Enqueue(s, args, 0);
    assert Items(t) == Items(s) && t.sent[..|s.sent|] == s.sent;
  }

  lemma ReturnKeeps(o: Options, s: State, value: bool)
    requires Inv(o, s)
    ensures Inv(o, Return(o, s, value))
  {
    hide NextCall;
    if s.firing {
      if o.stopOnFalse && !value {
        var t := s.(firingIndex := -1, memory := None);
        assert AtHead(o, t);
        hide Inv, AtHead;
        HeadKeeps(o, t);
        StoppedIsRewound(o, s);
      } else {
        hide NextEntry;
        EntryKeeps(o, s);
      }
    }
  }

  lemma StoppedIsRewound(o: Options, s: State)
    ensures NextEntry(o, s.(firingIndex := |Items(s)|, memory := None))
         == NextCall(o, s.(firingIndex := -1, memory := None))
  {
  }

  lemma EmptyKeeps(o: Options, s: State)
    requires Inv(o, s)
    ensures Inv(o, Empty(s))
  {
    assert Items(Empty(s)) == [];
  }

  lemma DisableKeeps(o: Options, s: State)
    requires Inv(o, s)
    ensures Inv(o, Disable(s))
  {
    assert Items(Disable(s)) == [];
  }

  lemma LockKeeps(o: Options, s: State)
    requires Inv(o, s)
    ensures Inv(o, Lock(s))
  {
    assert Items(Lock(s)) == if s.memory.None? && !s.firing then [] else Items(s);
  }

  lemma StepKeeps(o: Options, s: State, e: Event)
    requires Inv(o, s)
    ensures Inv(o, Step(o, s, e))
  {
    hide Inv, Add, RemoveAll, Empty, Disable, Lock, FireWith, Return;
    match e {
      case AddEvent(fns) => AddKeeps(o, s, fns);
      case RemoveEvent(fns) => RemoveAllKeeps(o, s, fns);
      case EmptyEvent => EmptyKeeps(o, s);
      case DisableEvent => DisableKeeps(o, s);
      case LockEvent => LockKeeps(o, s);
      case FireEvent(args) => FireWithKeeps(o, s, args);
      case ReturnEvent(value) => ReturnKeeps(o, s, value);
    }
  }

  /** Whatever is called in whatever order, from inside callbacks or not. */
  lemma {:induction false} RunKeeps(o: Options, es: seq<Event>)
    ensures Inv(o, Run(o, es))
    decreases |es|
  {
    if es != [] {
      RunKeeps(o, es[..|es| - 1]);
      hide Inv, Step;
      StepKeeps(o, Run(o, es[..|es| - 1]), es[|es| - 1]);
    }
  }

  // ---------------------------------------------------------------- what follows for every run

  /** FIFO, no interleaving, nothing twice: firings are ordered by call, and within one by list position. */
  lemma FiringsInOrder(o: Options, es: seq<Event>, i: nat, j: nat)
    requires i < j < |Run(o, es).log|
    ensures Before(Run(o, es).log[i], Run(o, es).log[j])
  {
    hide Run;
    RunKeeps(o, es);
  }

  /** The pass that is being made ends with this return. */
  predicate PassEnds(o: Options, s: State, value: bool) {
    var t := Return(o, s, value);
    s.firing && (!t.firing || t.now.ticket != s.now.ticket)
  }

  /**
   When a pass ends, and was not stopped by a callback, an entry that is still in the list was
   called in it if and only if it was there to be called: it was not put there at an index the
   pass had already left.  That takes an emptying of the list in the middle of the pass.
   */
  lemma PassIsComplete(o: Options, es: seq<Event>, value: bool, x: Entry)
    requires var s := Run(o, es); PassEnds(o, s, value) && x in Items(s) && s.now.floor <= x.id
    requires value || !o.stopOnFalse
    ensures var s := Run(o, es);
            && (Firing(s.now.ticket, x.id) in s.log <==> x.id !in s.missed)
            && (!s.emptied ==> Firing(s.now.ticket, x.id) in s.log)
  {
    RunKeeps(o, es);
    var s := Run(o, es);
    hide Run, NextCall;
    assert s.firingIndex + 1 >= |Items(s)|;
    var i :| 0 <= i < |Items(s)| && Items(s)[i] == x;
    assert Behind(s, x.id);
    if Firing(s.now.ticket, x.id) in s.log {
      var k :| 0 <= k < |s.log| && s.log[k] == Firing(s.now.ticket, x.id);
      assert LoggedBy(s, s.log[k]);
    }
  }

  /**
   A callback that empties the list and adds to it again is what it takes: the new entry stands
   where the pass has been, and is not called with its data.
   */
  lemma EmptyingHidesAdditions()
    ensures var o := Options(false, false, false, false);
            var s := Run(o, [AddEvent([1]), FireEvent(7), EmptyEvent, AddEvent([2])]);
            && PassEnds(o, s, true) && s.list == Some([Entry(2, 1)]) && s.now.args == 7
            && s.log == [Firing(0, 0)] && s.missed == {1}
  {
    var o := Options(false, false, false, false);
    var e1, e2, e3, e4 := AddEvent([1]), FireEvent(7), EmptyEvent, AddEvent([2]);
    var r0: seq<Event>, r1, r2, r3, r4 := [], [e1], [e1, e2], [e1, e2, e3], [e1, e2, e3, e4];
    assert r4[..3] == r3 && r3[..2] == r2 && r2[..1] == r1 && r1[..0] == r0;
    assert Run(o, r0) == INIT;
    PushSingle(o, INIT, 1);
    var none: seq<Entry> := [];
    assert none + [Entry(1, 0)] == [Entry(1, 0)] && none + [Entry(2, 1)] == [Entry(2, 1)];
    var s1 := Run(o, r1);
    assert s1 == INIT.(list := Some([Entry(1, 0)]), nextId := 1);
    FirstCall(o, s1, 7);
    var s2 := Run(o, r2);
    var s3 := Run(o, r3);
    hide Run, NextCall;
    assert s3 == s2.(list := Some([]), emptied := true);
    PushSingle(o, s3, 2);
    var s4 := Run(o, r4);
    assert s4 == s3.(list := Some([Entry(2, 1)]), nextId := 2, missed := {1});
    assert NextEntry(o, s4) == NextCall(o, s4.(firingIndex := -1));
    LastCall(o, s4.(firingIndex := -1));
  }

  lemma FirstCall(o: Options, s: State, args: Args)
    requires s == INIT.(list := Some([Entry(1, 0)]), nextId := 1)
    ensures var t := FireWith(o, s, args);
            && t.firing && t.list == s.list && t.queue == [] && t.now == Call(0, args, 0) && t.log == [Firing(0, 0)]
            && t.firingIndex == 0 && t.missed == {} && t.nextId == 1
  {
    var u := Enqueue(s, args, 0).(locked := s.locked || o.once, fired := true, firing := true);
    assert u.queue == [Call(0, args, 0)];
    SingleCall(o, u);
    assert Taken(u).queue == [];
  }

  lemma LastCall(o: Options, s: State)
    requires s.queue == []
    ensures !NextCall(o, s).firing
  {
  }

  lemma PushSingle(o: Options, s: State, fn: int)
    ensures PushAll(o, s, [fn]) == PushOne(o, s, fn)
  {
    assert [fn][1..] == [];
    assert PushAll(o, PushOne(o, s, fn), []) == PushOne(o, s, fn);
  }

  // ---------------------------------------------------------------- what is remembered

  /** Since the last call was taken up the list was disabled, or a callback stopped it. */
  predicate Forgotten(o: Options, es: seq<Event>) {
    es != [] &&
    (var n := |es| - 1;
     var s, t := Run(o, es[..n]), Run(o, es);
     |t.begun| == |s.begun| && (Forgotten(o, es[..n]) || Forgets(o, s, es[n])))
  }

  predicate Forgets(o: Options, s: State, e: Event) {
    e.DisableEvent? || (s.firing && o.stopOnFalse && e == ReturnEvent(false))
  }

  /** The data of the last call is there while it is being made, and later if the option says so. */
  predicate Recalls(o: Options, s: State, forgotten: bool) {
    && (s.begun != [] ==> s.now.ticket == s.begun[|s.begun| - 1])
    && s.memory == if (s.firing || o.memory) && s.begun != [] && !forgotten then Some(s.now) else None
  }

  /** What the loop of `fire` leaves: the last call that it took up, if it took up any. */
  predicate RecallsNext(o: Options, s: State, t: State) {
    && |t.begun| >= |s.begun|
    && (if |t.begun| > |s.begun| then
          && t.now.ticket == t.begun[|t.begun| - 1]
          && t.memory == if t.firing || o.memory then Some(t.now) else None
        else
          && t.begun == s.begun && t.now == s.now
          && t.memory == if t.firing || o.memory then s.memory else None)
  }

  lemma RecallOnCall(o: Options, s: State)
    requires s.firing
    ensures RecallsNext(o, s, NextCall(o, s))
    ensures s.queue != [] ==> |NextCall(o, s).begun| > |s.begun|
    decreases |s.queue|, 1
  {
    hide NextEntry;
    if s.queue != [] {
      RecallOnEntry(o, Taken(s));
    }
  }

  lemma RecallOnEntry(o: Options, s: State)
    requires s.firing
    ensures RecallsNext(o, s, NextEntry(o, s))
    decreases |s.queue|, 2
  {
    hide NextCall;
    if s.firingIndex + 1 >= |Items(s)| {
      RecallOnCall(o, s.(firingIndex := -1));
    }
  }

  /** These do not touch what is remembered. */
  predicate SameRecall(s: State, t: State) {
    t.memory == s.memory && t.begun == s.begun && t.now == s.now && t.firing == s.firing
  }

  lemma {:induction false} PushRecall(o: Options, s: State, fns: seq<int>)
    ensures SameRecall(s, PushAll(o, s, fns)) && PushAll(o, s, fns).queue == s.queue
    decreases |fns|
  {
    hide Has;
    if fns != [] {
      PushRecall(o, PushOne(o, s, fns[0]), fns[1..]);
    }
  }

  lemma {:induction false} RemoveRecall(s: State, fns: seq<int>)
    ensures SameRecall(s, RemoveAll(s, fns))
    decreases |fns|
  {
    hide Removed;
    if fns != [] {
      RemoveRecall(RemoveOne(s, fns[0]), fns[1..]);
    }
  }

  lemma RecallOnAdd(o: Options, s: State, fns: seq<int>)
    ensures var t := Add(o, s, fns); SameRecall(s, t) || (|t.begun| > |s.begun| && RecallsNext(o, s, t))
  {
    hide NextCall, PushAll;
    PushRecall(o, s, fns);
    if s.list.Some? && s.memory.Some? && !s.firing {
      var u := Enqueue(s.(firingIndex := |s.list.value| - 1), s.memory.value.args, s.nextId);
      PushRecall(o, u, fns);
      var v := PushAll(o, u, fns);
      RecallOnCall(o, v.(locked := v.locked || o.once, fired := true, firing := true));
    }
  }

  lemma RecallOnFire(o: Options, s: State, args: Args)
    ensures var t := FireWith(o, s, args); SameRecall(s, t) || (|t.begun| > |s.begun| && RecallsNext(o, s, t))
  {
    hide NextCall;
    var u := Enqueue(s, args, 0);
    RecallOnCall(o, u.(locked := u.locked || o.once, fired := true, firing := true));
  }

  lemma RecallOnReturn(o: Options, s: State, value: bool, forgotten: bool)
    requires Recalls(o, s, forgotten) && s.firing && s.begun != []
    ensures var t := Return(o, s, value);
            && Recalls(o, t, |t.begun| == |s.begun| && (forgotten || (o.stopOnFalse && !value)))
            && (t.firing ==> t.begun != []) && |t.begun| >= |s.begun|
  {
    hide NextEntry;
    RecallOnEntry(o, if o.stopOnFalse && !value then s.(firingIndex := |Items(s)|, memory := None) else s);
  }

  lemma RecallOnStep(o: Options, s: State, e: Event, forgotten: bool)
    requires Recalls(o, s, forgotten) && (s.firing ==> s.begun != [])
    ensures var t := Step(o, s, e);
            && Recalls(o, t, |t.begun| == |s.begun| && (forgotten || Forgets(o, s, e)))
            && (t.firing ==> t.begun != [])
  {
    hide FireWith, Add, RemoveAll;
    match e {
      case AddEvent(fns) => RecallOnAdd(o, s, fns);
      case RemoveEvent(fns) => RemoveRecall(s, fns);
      case FireEvent(args) => RecallOnFire(o, s, args);
      case ReturnEvent(value) =>
        if s.firing {
          RecallOnReturn(o, s, value, forgotten);
          hide Return;
        }
      case _ =>
    }
  }

  /**
   Over every run: the data of the last call that was taken up is remembered exactly if the call is
   being made, or the list has the memory option, and it was neither stopped nor disabled since.
   */
  lemma {:induction false} MemoryIff(o: Options, es: seq<Event>)
    ensures Recalls(o, Run(o, es), Forgotten(o, es)) && (Run(o, es).firing ==> Run(o, es).begun != [])
    decreases |es|
  {
    if es != [] {
      var n := |es| - 1;
      MemoryIff(o, es[..n]);
      hide Step, Recalls, Forgets;
      RecallOnStep(o, Run(o, es[..n]), es[n], Forgotten(o, es[..n]));
    }
  }

  /** So at rest a list without the option has forgotten everything. */
  lemma NoMemory(o: Options, es: seq<Event>)
    requires !Run(o, es).firing && Run(o, es).memory.Some?
    ensures o.memory
  {
    MemoryIff(o, es);
  }

  /**
   What is added when a call has been made fires alone, with the arguments of that call, if the list
   has the memory option and was neither stopped nor disabled since.  Otherwise, and when nothing was
   added, an addition at rest calls nothing.
   */
  lemma LateAddition(o: Options, es: seq<Event>, fns: seq<int>)
    requires !Run(o, es).firing && Run(o, es).list.Some?
    ensures var s, t := Run(o, es), Run(o, es + [AddEvent(fns)]);
            if o.memory && s.begun != [] && !Forgotten(o, es) && t.nextId != s.nextId then
              var last := s.begun[|s.begun| - 1];
              && t.firing && t.log == s.log + [Firing(|s.sent|, s.nextId)] && last < |s.sent|
              && t.now == Call(|s.sent|, s.sent[last], s.nextId)
              && forall i :: 0 <= i < |t.log| && t.log[i].ticket == t.now.ticket ==> s.nextId <= t.log[i].id
            else !t.firing && t.log == s.log && t.queue == s.queue
  {
    RunKeeps(o, es);
    RunKeeps(o, es + [AddEvent(fns)]);
    MemoryIff(o, es);
    var s := Run(o, es);
    assert (es + [AddEvent(fns)])[..|es|] == es;
    var t := Run(o, es + [AddEvent(fns)]);
    assert t == Add(o, s, fns);
    hide Run, Forgotten;
    if s.memory.Some? {
      LateFires(o, s, fns);
      LateFloor(o, s, t);
    } else {
      PushQuiet(o, s, fns);
    }
  }

  lemma PushQuiet(o: Options, s: State, fns: seq<int>)
    requires s.list.Some?
    ensures var t := PushAll(o, s, fns); t == s.(list := t.list, nextId := t.nextId, missed := t.missed)
  {
    PushedItems(o, s, fns);
  }

  lemma LateFloor(o: Options, s: State, t: State)
    requires Inv(o, t) && t.firing ==> t.now.floor == s.nextId
    ensures Inv(o, t) && t.firing ==>
              forall i :: 0 <= i < |t.log| && t.log[i].ticket == t.now.ticket ==> s.nextId <= t.log[i].id
  {
    if Inv(o, t) && t.firing {
      assert forall i :: 0 <= i < |t.log| ==> LoggedBy(t, t.log[i]);
    }
  }

  lemma LateFires(o: Options, s: State, fns: seq<int>)
    requires Inv(o, s) && !s.firing && s.memory.Some? && s.list.Some?
    ensures var t := Add(o, s, fns);
            if t.nextId == s.nextId then !t.firing && t.log == s.log && t.queue == s.queue
            else t.firing && t.log == s.log + [Firing(|s.sent|, s.nextId)] && t.now == Call(|s.sent|, s.now.args, s.nextId)
  {
    hide NextCall, NextEntry;
    var u := Enqueue(s.(firingIndex := |s.list.value| - 1), s.memory.value.args, s.nextId);
    PushedItems(o, u, fns);
    hide PushAll, Inv;
    var v := PushAll(o, u, fns).(locked := s.locked || o.once, fired := true, firing := true);
    assert v.queue == [Call(|s.sent|, s.now.args, s.nextId)] && v.log == s.log;
    SingleCall(o, v);
  }

  /** The loop over a queue of one call. */
  lemma SingleCall(o: Options, v: State)
    requires |v.queue| == 1
    ensures var t := NextCall(o, v);
            t == if v.firingIndex + 1 < |Items(v)|
                 then Taken(v).(firingIndex := v.firingIndex + 1,
                                log := v.log + [Firing(v.queue[0].ticket, Items(v)[v.firingIndex + 1].id)])
                 else Finish(o, Taken(v).(firingIndex := -1))
  {
    var u := Taken(v);
    assert u.queue == [] && Items(u) == Items(v);
    if v.firingIndex + 1 >= |Items(v)| {
      assert NextEntry(o, u) == NextCall(o, u.(firingIndex := -1)) == Finish(o, u.(firingIndex := -1));
    }
  }

  /** What is pushed stands behind what was there, numbered on from nextId. */
  lemma {:induction false} PushedItems(o: Options, s: State, fns: seq<int>)
    requires s.list.Some?
    ensures var t := PushAll(o, s, fns);
            && t.list.Some? && |Items(t)| == |Items(s)| + (t.nextId - s.nextId) && t.nextId >= s.nextId
            && (t.nextId > s.nextId ==> Items(t)[|Items(s)|].id == s.nextId)
            && t == s.(list := t.list, nextId := t.nextId, missed := t.missed)
            && Items(s) <= Items(t)
    decreases |fns|
  {
    if fns != [] {
      PushedOne(o, s, fns[0]);
      hide PushOne;
      PushedItems(o, PushOne(o, s, fns[0]), fns[1..]);
    }
  }

  lemma PushedOne(o: Options, s: State, fn: int)
    requires s.list.Some?
    ensures var t := PushOne(o, s, fn);
            && t == s.(list := t.list, nextId := t.nextId, missed := t.missed) && t.list.Some?
            && ((t.nextId == s.nextId && Items(t) == Items(s)) ||
                (t.nextId == s.nextId + 1 && Items(t) == Items(s) + [Entry(fn, s.nextId)]))
  {
    hide Has;
  }

  // ---------------------------------------------------------------- no call is lost

  /**
   As long as the list was never disabled or locked, the tickets whose turn has come, and after
   them those in the queue, are all tickets, in order.
   */
  ghost predicate NoneLost(s: State) {
    !s.dropped ==>
      && |s.begun| + |s.queue| == |s.sent|
      && (forall i :: 0 <= i < |s.begun| ==> s.begun[i] == i)
      && (forall k :: 0 <= k < |s.queue| ==> s.queue[k].ticket == |s.begun| + k)
  }

  lemma NoneLostOnCall(o: Options, s: State)
    requires NoneLost(s)
    ensures NoneLost(NextCall(o, s))
    decreases |s.queue|, 1
  {
    hide NextEntry;
    if s.queue != [] {
      assert NoneLost(Taken(s));
      NoneLostOnEntry(o, Taken(s));
    }
  }

  lemma NoneLostOnEntry(o: Options, s: State)
    requires NoneLost(s)
    ensures NoneLost(NextEntry(o, s))
    decreases |s.queue|, 2
  {
    hide NextCall;
    if s.firingIndex + 1 >= |Items(s)| {
      NoneLostOnCall(o, s.(firingIndex := -1));
    }
  }

  lemma {:induction false} NoneLostOnRemove(s: State, fns: seq<int>)
    requires NoneLost(s)
    ensures NoneLost(RemoveAll(s, fns))
    decreases |fns|
  {
    hide Removed;
    if fns != [] {
      NoneLostOnRemove(RemoveOne(s, fns[0]), fns[1..]);
    }
  }

  lemma {:induction false} NoneLostOnPush(o: Options, s: State, fns: seq<int>)
    requires NoneLost(s)
    ensures NoneLost(PushAll(o, s, fns))
    decreases |fns|
  {
    hide Has;
    if fns != [] {
      NoneLostOnPush(o, PushOne(o, s, fns[0]), fns[1..]);
    }
  }

  lemma NoneLostOnFire(o: Options, s: State, args: Args, floor: nat, fns: seq<int>)
    requires NoneLost(s)
    ensures NoneLost(Enqueue(s, args, floor)) && NoneLost(Fire(o, PushAll(o, Enqueue(s, args, floor), fns)))
  {
    hide NextCall, PushAll;
    var u := Enqueue(s, args, floor);
    NoneLostOnPush(o, u, fns);
    var v := PushAll(o, u, fns);
    NoneLostOnCall(o, v.(locked := v.locked || o.once, fired := true, firing := true));
  }

  lemma NoneLostOnStep(o: Options, s: State, e: Event)
    requires NoneLost(s)
    ensures NoneLost(Step(o, s, e))
  {
    hide Fire, NextEntry, RemoveAll, Enqueue;
    match e {
      case AddEvent(fns) =>
        NoneLostOnPush(o, s, fns);
        if s.list.Some? && s.memory.Some? && !s.firing {
          hide PushAll;
          NoneLostOnFire(o, s.(firingIndex := |s.list.value| - 1), s.memory.value.args, s.nextId, fns);
        }
      case RemoveEvent(fns) => NoneLostOnRemove(s, fns);
      case FireEvent(args) => NoneLostOnFire(o, s, args, 0, []);
      case ReturnEvent(value) =>
        NoneLostOnEntry(o, s.(firingIndex := |Items(s)|, memory := None));
        NoneLostOnEntry(o, s);
      case _ =>
    }
  }

  lemma {:induction false} NoCallIsLost(o: Options, es: seq<Event>)
    ensures NoneLost(Run(o, es))
    decreases |es|
  {
    hide NoneLost, Step;
    if es == [] {
      NothingToLose();
    } else {
      NoCallIsLost(o, es[..|es| - 1]);
      NoneLostOnStep(o, Run(o, es[..|es| - 1]), es[|es| - 1]);
    }
  }

  lemma NothingToLose()
    ensures NoneLost(INIT)
  {
  }

  // ---------------------------------------------------------------- unique

  ghost predicate NoDuplicates(s: State) {
    forall i, j :: 0 <= i < j < |Items(s)| ==> Items(s)[i].fn != Items(s)[j].fn
  }

  /** Calling and finishing leave the list as it is, or clear it. */
  lemma ItemsOnCall(o: Options, s: State)
    ensures Items(NextCall(o, s)) == Items(s) || Items(NextCall(o, s)) == []
    decreases |s.queue|, 1
  {
    hide NextEntry;
    if s.queue != [] {
      ItemsOnEntry(o, Taken(s));
    } else {
      var t := Finish(o, s);
      assert Items(t) == if s.locked then [] else Items(s);
    }
  }

  lemma ItemsOnEntry(o: Options, s: State)
    ensures Items(NextEntry(o, s)) == Items(s) || Items(NextEntry(o, s)) == []
    decreases |s.queue|, 2
  {
    hide NextCall;
    if s.firingIndex + 1 >= |Items(s)| {
      ItemsOnCall(o, s.(firingIndex := -1));
    }
  }

  lemma {:induction false} UniqueOnPush(o: Options, s: State, fns: seq<int>)
    requires o.unique && NoDuplicates(s)
    ensures NoDuplicates(PushAll(o, s, fns))
    decreases |fns|
  {
    if fns != [] {
      UniqueOnPushOne(o, s, fns[0]);
      hide PushOne;
      UniqueOnPush(o, PushOne(o, s, fns[0]), fns[1..]);
    }
  }

  lemma UniqueOnPushOne(o: Options, s: State, fn: int)
    requires o.unique && NoDuplicates(s)
    ensures NoDuplicates(PushOne(o, s, fn))
  {
    if s.list.Some? {
      PushedOne(o, s, fn);
      assert !Has(Items(s), fn) ==> forall i :: 0 <= i < |Items(s)| ==> Items(s)[i].fn != fn;
    }
  }

  lemma {:induction false} UniqueOnRemoved(s: State, fn: int, i: nat)
    requires NoDuplicates(s) && s.list.Some? && i <= |s.list.value|
    ensures var r := Removed(s.list.value, s.firingIndex, fn, i); NoDuplicates(s.(list := Some(r.0), firingIndex := r.1))
    decreases |s.list.value| - i
  {
    if i < |s.list.value| {
      if s.list.value[i].fn == fn {
        DroppedItems(s, i);
        UniqueOnRemoved(Dropped(s, i), fn, i);
      } else {
        UniqueOnRemoved(s, fn, i + 1);
      }
    }
  }

  lemma {:induction false} UniqueOnRemove(s: State, fns: seq<int>)
    requires NoDuplicates(s)
    ensures NoDuplicates(RemoveAll(s, fns))
    decreases |fns|
  {
    hide Removed, NoDuplicates;
    if fns != [] {
      if s.list.Some? {
        UniqueOnRemoved(s, fns[0], 0);
      }
      UniqueOnRemove(RemoveOne(s, fns[0]), fns[1..]);
    }
  }

  lemma FewerItems(s: State, t: State)
    requires NoDuplicates(s) && (Items(t) == Items(s) || Items(t) == [])
    ensures NoDuplicates(t)
  {
  }

  lemma UniqueOnFire(o: Options, s: State)
    requires NoDuplicates(s)
    ensures NoDuplicates(Fire(o, s))
  {
    hide NextCall, NoDuplicates;
    var t := s.(locked := s.locked || o.once, fired := true, firing := true);
    assert Items(t) == Items(s);
    ItemsOnCall(o, t);
    FewerItems(s, Fire(o, s));
  }

  lemma UniqueOnAdd(o: Options, s: State, fns: seq<int>)
    requires o.unique && NoDuplicates(s)
    ensures NoDuplicates(Add(o, s, fns))
  {
    hide Fire, PushAll, NoDuplicates;
    UniqueOnPush(o, s, fns);
    if s.list.Some? && s.memory.Some? && !s.firing {
      var u := Enqueue(s.(firingIndex := |s.list.value| - 1), s.memory.value.args, s.nextId);
      FewerItems(s, u);
      UniqueOnPush(o, u, fns);
      UniqueOnFire(o, PushAll(o, u, fns));
    }
  }

  lemma UniqueOnReturn(o: Options, s: State, value: bool)
    requires NoDuplicates(s)
    ensures NoDuplicates(Return(o, s, value))
  {
    hide NextEntry, NoDuplicates;
    var u := s.(firingIndex := |Items(s)|, memory := None);
    assert Items(u) == Items(s);
    ItemsOnEntry(o, u);
    ItemsOnEntry(o, s);
    FewerItems(s, Return(o, s, value));
  }

  lemma UniqueOnStep(o: Options, s: State, e: Event)
    requires o.unique && NoDuplicates(s)
    ensures NoDuplicates(Step(o, s, e))
  {
    hide Fire, Add, Return, RemoveAll, NoDuplicates;
    match e {
      case AddEvent(fns) => UniqueOnAdd(o, s, fns);
      case RemoveEvent(fns) => UniqueOnRemove(s, fns);
      case FireEvent(args) =>
        FewerItems(s, Enqueue(s, args, 0));
        UniqueOnFire(o, Enqueue(s, args, 0));
      case ReturnEvent(value) => UniqueOnReturn(o, s, value);
      case _ =>
        assert Items(Step(o, s, e)) == Items(s) || Items(Step(o, s, e)) == [];
        FewerItems(s, Step(o, s, e));
    }
  }

  /** With the unique flag no callback is ever in the list twice. */
  lemma {:induction false} UniqueRuns(o: Options, es: seq<Event>)
    requires o.unique
    ensures NoDuplicates(Run(o, es))
    decreases |es|
  {
    hide NoDuplicates, Step;
    if es == [] {
      NoDuplicatesAtFirst();
    } else {
      UniqueRuns(o, es[..|es| - 1]);
      UniqueOnStep(o, Run(o, es[..|es| - 1]), es[|es| - 1]);
    }
  }

  lemma NoDuplicatesAtFirst()
    ensures NoDuplicates(INIT)
  {
  }
}
