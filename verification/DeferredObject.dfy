/** `jQuery.Deferred` with its state and its three lists updated in place, against the state machine. */
module DeferredObject {
  import opened Wrappers
  import L = CallbackList
  import opened CallbackObject
  import opened DeferredState

  class DeferredMachine {
    var state: Settled
    const progress: Callbacks
    const done: Callbacks
    const fail: Callbacks
    var stack: seq<Which>

    constructor ()
      ensures Valid() && Now() == INIT_DEFERRED && fresh(progress) && fresh(done) && fresh(fail)
    {
      hide L.Add, L.Inv, Safe, L.INIT;
      state, stack := Pending, [];
      progress := new Callbacks(MEMORY);
      done := new Callbacks(ONCE_MEMORY);
      fail := new Callbacks(ONCE_MEMORY);
      new;
      Fill();
      SafeAtFirst();
    }

    ghost function Now(): Deferred
      reads this, progress, done, fail
    {
      Deferred(state, progress.Now(), done.Now(), fail.Now(), stack)
    }

    ghost predicate Valid()
      reads this, progress, done, fail
    {
      Lists() && Safe(Now())
    }

    ghost predicate Lists()
      reads this, progress, done, fail
    {
      && progress != done && progress != fail && done != fail
      && progress.options == MEMORY && done.options == ONCE_MEMORY && fail.options == ONCE_MEMORY
      && progress.Valid() && done.Valid() && fail.Valid()
    }

    function Pick(w: Which): Callbacks {
      match w
      case Progress => progress
      case Done => done
      case Fail => fail
    }

    /** The call stack after an operation on list w, which was firing before if `was` is set. */
    method Restack(w: Which, was: bool)
      modifies this`stack
      ensures stack == if Pick(w).firing && !was then old(stack) + [w]
                       else if was && !Pick(w).firing && old(stack) != [] then old(stack)[..|old(stack)| - 1]
                       else old(stack)
    {
      if Pick(w).firing && !was {
        stack := stack + [w];
      } else if was && !Pick(w).firing && stack != [] {
        stack := stack[..|stack| - 1];
      }
    }

    /** `done`, `fail` or `progress`. */
    method AddCallbacks(w: Which, fns: seq<int>)
      requires Valid() && !InInternal(Now())
      modifies this`stack, progress, done, fail
      ensures Valid() && Now() == Turn(old(Now()), UserAdd(w, fns))
    {
      hide L.Add, L.Inv, Safe, InInternal;
      SafeTurn(Now(), UserAdd(w, fns));
      var was := Pick(w).firing;
      Pick(w).AddAll(fns);
      Restack(w, was);
    }

    /** `resolveWith`, `rejectWith` or `notifyWith`. */
    method FireCallbacks(w: Which, args: L.Args)
      requires Valid() && !InInternal(Now())
      modifies this`stack, progress, done, fail
      ensures Valid() && Now() == Turn(old(Now()), UserFire(w, args))
    {
      hide L.FireWith, L.Inv, Safe, InInternal;
      SafeTurn(Now(), UserFire(w, args));
      var was := Pick(w).firing;
      Pick(w).FireAll(args);
      Restack(w, was);
    }

    /** The innermost callback, not one of the constructor's, returns. */
    method CallbackReturns(value: bool)
      requires Valid() && !InInternal(Now())
      modifies this`stack, progress, done, fail
      ensures Valid() && Now() == Turn(old(Now()), UserReturn(value))
    {
      hide L.Return, L.Inv, Safe, InInternal;
      SafeTurn(Now(), UserReturn(value));
      hide Apply;
      if stack != [] {
        ReturnOn(stack[|stack| - 1], value);
      }
    }

    /** The innermost callback, one of the constructor's, does its part and returns. */
    method RunInternal()
      requires Valid() && InInternal(Now())
      modifies this, progress, done, fail
      ensures Valid() && Now() == Turn(old(Now()), Tick)
    {
      hide L.Return, L.Inv, Safe, Apply, Effect;
      SafeTurn(Now(), Tick);
      var w := stack[|stack| - 1];
      CurrentEntry(Now(), w);
      DoEffect(w, Pick(w).list.value[Pick(w).firingIndex].id);
      ReturnOn(w, true);
    }

    method DoEffect(w: Which, id: nat)
      requires Lists() && Safe(Now()) && InInternal(Now()) && Top(Now()) == Some(w) && id == Current(ListOf(Now(), w))
      modifies this`state, done, fail, progress
      ensures Lists() && Now() == Effect(old(Now()), w, id) && stack == old(stack)
    {
      hide L.Inv, Safe, L.Disable, L.Lock;
      EffectStack(Now(), w, id);
      if id == SET_STATE {
        state := if w.Done? then Resolved else Rejected;
      } else if id == DISABLE_OTHER {
        Pick(Other(w)).DisableList();
      } else if id == LOCK_PROGRESS {
        progress.LockList();
      }
    }

    static lemma CurrentEntry(d: Deferred, w: Which)
      requires Safe(d) && InInternal(d) && Top(d) == Some(w)
      ensures var s := ListOf(d, w);
              s.list.Some? && 0 <= s.firingIndex < |s.list.value| && s.list.value[s.firingIndex].id == Current(s)
    {
      InternalNumber(d, w);
      assert L.Items(ListOf(d, w)) == ListOf(d, w).list.value;
    }

    method ReturnOn(w: Which, value: bool)
      requires Lists()
      modifies this`stack, progress, done, fail
      ensures Lists() && Now() == Apply(old(Now()), w, L.Return(OptionsOf(w), ListOf(old(Now()), w), value))
    {
      hide L.Return, L.Inv;
      var was := Pick(w).firing;
      Pick(w).Returned(value);
      Restack(w, was);
    }

    /** The lists settle the state, disable one another and lock progress by callbacks that come first. */
    method Fill()
      requires Lists() && progress.Now() == done.Now() == fail.Now() == L.INIT
      modifies progress, done, fail
      ensures Lists() && progress.Now() == L.Add(MEMORY, L.INIT, [5])
      ensures done.Now() == fail.Now() == L.Add(ONCE_MEMORY, L.INIT, [0, 1, 2, 3, 4, 5])
    {
      hide L.Add, L.Inv, L.INIT;
      progress.AddAll([5]);
      done.AddAll([0, 1, 2, 3, 4, 5]);
      fail.AddAll([0, 1, 2, 3, 4, 5]);
    }
  }
}
