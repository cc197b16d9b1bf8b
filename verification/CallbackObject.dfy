/** `jQuery.Callbacks` with its variables updated in place, against the state machine. */
module CallbackObject {
  import opened Wrappers
  import opened CallbackList

  class Callbacks {
    const options: Options
    var list: Option<seq<Entry>>
    var queue: seq<Call>
    var firingIndex: Index
    var memory: Option<Call>
    var locked: bool
    var fired: bool
    var firing: bool
    var nextId: nat
    var tickets: nat
    ghost var now: Call
    ghost var log: seq<Firing>
    ghost var sent: seq<Args>
    ghost var begun: seq<nat>
    ghost var missed: set<nat>
    ghost var emptied: bool
    ghost var dropped: bool

    constructor (options: Options)
      ensures this.options == options && Now() == INIT && Valid()
    {
      this.options := options;
      list, queue, firingIndex, memory := Some([]), [], -1, None;
      locked, fired, firing, nextId, tickets := false, false, false, 0, 0;
      now, log, sent, begun, missed, emptied, dropped := Call(0, 0, 0), [], [], [], {}, false, false;
    }

    ghost function Now(): State
      reads this
    {
      State(list, queue, firingIndex, memory, locked, fired, firing, now, log, sent, begun, nextId, missed, emptied, dropped)
    }

    ghost predicate Valid()
      reads this
    {
      Inv(options, Now()) && tickets == |sent|
    }

    function Length(): nat
      reads this
    {
      if list.Some? then |list.value| else 0
    }

    /** The loops of `fire`, from the inner one on, up to the next callback or to the end. */
    method Proceed()
      requires tickets == |sent|
      modifies this
      ensures Now() == NextEntry(options, old(Now())) && tickets == |sent|
    {
      while true
        invariant NextEntry(options, Now()) == NextEntry(options, old(Now())) && tickets == |sent|
        decreases |queue|
      {
        firingIndex := firingIndex + 1;
        if firingIndex < Length() {
          log := log + [Firing(now.ticket, list.value[firingIndex].id)];
          return;
        }
        firingIndex := -1;
        if queue == [] {
          Leave();
          return;
        }
        TakeUp();
      }
    }

    /** The first call of the queue is taken up. */
    method TakeUp()
      requires queue != []
      modifies this
      ensures Now() == Taken(old(Now())) && tickets == old(tickets)
    {
      now, begun, missed, emptied := queue[0], begun + [queue[0].ticket], {}, false;
      memory, queue := Some(queue[0]), queue[1..];
    }

    /** What `fire` does behind its loops. */
    method Leave()
      modifies this
      ensures Now() == Finish(options, old(Now())) && tickets == old(tickets)
    {
      if !options.memory {
        memory := None;
      }
      firing := false;
      if locked {
        list := if memory.Some? then Some([]) else None;
      }
    }

    method FireQueue()
      requires tickets == |sent|
      modifies this
      ensures Now() == Fire(options, old(Now())) && tickets == |sent|
    {
      hide NextEntry;
      locked := locked || options.once;
      fired, firing := true, true;
      if queue == [] {
        Leave();
      } else {
        TakeUp();
        Proceed();
      }
    }

    method Put(args: Args, floor: nat)
      requires tickets == |sent|
      modifies this`queue, this`tickets, this`sent
      ensures Now() == Enqueue(old(Now()), args, floor) && tickets == |sent|
    {
      queue := queue + [Call(tickets, args, floor)];
      tickets, sent := tickets + 1, sent + [args];
    }

    method HasCallback(fn: int) returns (b: bool)
      ensures b == Has(Items(Now()), fn)
    {
      for i := 0 to Length()
        invariant !Has(Items(Now())[..i], fn)
      {
        if list.value[i].fn == fn {
          return true;
        }
      }
      assert Items(Now())[..Length()] == Items(Now());
      return false;
    }

    method AddAll(fns: seq<int>)
      requires Valid()
      modifies this
      ensures Valid() && Now() == Add(options, old(Now()), fns)
    {
      hide Inv, Fire, PushAll;
      AddKeeps(options, Now(), fns);
      if list.None? {
        return;
      }
      var late := memory.Some? && !firing;
      if late {
        firingIndex := Length() - 1;
        Put(memory.value.args, nextId);
      }
      Push(fns);
      if late {
        FireQueue();
      }
    }

    method Push(fns: seq<int>)
      requires list.Some? && tickets == |sent|
      modifies this`list, this`nextId, this`missed
      ensures Now() == PushAll(options, old(Now()), fns)
    {
      hide PushOne;
      assert fns[0..] == fns;
      for i := 0 to |fns|
        invariant list.Some?
        invariant PushAll(options, Now(), fns[i..]) == PushAll(options, old(Now()), fns)
      {
        assert fns[i..][0] == fns[i] && fns[i..][1..] == fns[i + 1..];
        PushCallback(fns[i]);
      }
      assert fns[|fns|..] == [];
    }

    method PushCallback(fn: int)
      requires list.Some?
      modifies this`list, this`nextId, this`missed
      ensures list.Some? && Now() == PushOne(options, old(Now()), fn)
    {
      hide Has;
      var has := HasCallback(fn);
      if !options.unique || !has {
        missed := if firing && firingIndex >= |list.value| then missed + {nextId} else missed;
        list, nextId := Some(list.value + [Entry(fn, nextId)]), nextId + 1;
      }
    }

    method RemoveCallbacks(fns: seq<int>)
      requires Valid()
      modifies this
      ensures Valid() && Now() == RemoveAll(old(Now()), fns)
    {
      hide Inv, RemoveOne;
      RemoveAllKeeps(options, Now(), fns);
      assert fns[0..] == fns;
      for i := 0 to |fns|
        invariant RemoveAll(Now(), fns[i..]) == RemoveAll(old(Now()), fns) && tickets == |sent|
      {
        assert fns[i..][0] == fns[i] && fns[i..][1..] == fns[i + 1..];
        RemoveCallback(fns[i]);
      }
      assert fns[|fns|..] == [];
    }

    /** Every place of fn is spliced out, and firingIndex moves with the entries behind it. */
    method RemoveCallback(fn: int)
      modifies this`list, this`firingIndex
      ensures Now() == RemoveOne(old(Now()), fn)
    {
      if list.None? {
        return;
      }
      var index := 0;
      while index < |list.value|
        invariant list.Some? && 0 <= index <= |list.value|
        invariant Removed(list.value, firingIndex, fn, index) == Removed(old(list.value), old(firingIndex), fn, 0)
        decreases |list.value| - index
      {
        if list.value[index].fn == fn {
          list := Some(list.value[..index] + list.value[index + 1..]);
          if index <= firingIndex {
            firingIndex := firingIndex - 1;
          }
        } else {
          index := index + 1;
        }
      }
    }

    method EmptyList()
      requires Valid()
      modifies this`list, this`emptied
      ensures Valid() && Now() == Empty(old(Now()))
    {
      hide Inv;
      EmptyKeeps(options, Now());
      if list.Some? {
        list, emptied := Some([]), firing;
      }
    }

    method DisableList()
      requires Valid()
      modifies this
      ensures Valid() && Now() == Disable(old(Now()))
    {
      hide Inv;
      DisableKeeps(options, Now());
      locked, queue, list, memory, dropped := true, [], None, None, true;
    }

    method LockList()
      requires Valid()
      modifies this
      ensures Valid() && Now() == Lock(old(Now()))
    {
      hide Inv;
      LockKeeps(options, Now());
      locked, queue, dropped := true, [], true;
      if memory.None? && !firing {
        list, memory := None, None;
      }
    }

    method FireAll(args: Args)
      requires Valid()
      modifies this
      ensures Valid() && Now() == FireWith(options, old(Now()), args)
    {
      hide Inv, Fire;
      FireWithKeeps(options, Now(), args);
      if !locked {
        Put(args, 0);
        if !firing {
          FireQueue();
        }
      }
    }

    /** The callback at firingIndex has returned. */
    method Returned(value: bool)
      requires Valid()
      modifies this
      ensures Valid() && Now() == Return(options, old(Now()), value)
    {
      hide Inv, NextEntry;
      ReturnKeeps(options, Now(), value);
      if firing {
        if options.stopOnFalse && !value {
          firingIndex, memory := Length(), None;
        }
        Proceed();
      }
    }
  }
}
