/**
 Underscore's `throttle`.  The throttled function may be called from inside the function that it
 throttles, so an invocation begins with one event and ends with another; timers fire only when no
 invocation is going on, and never before they are due.
 */
module Throttle {
  import opened Wrappers

  type Args = int

  datatype Timer = Timer(id: nat, due: int)

  /** An invocation of the function; `cancelled` says that `cancel` was called since the one before. */
  datatype Invocation = Invocation(time: int, args: Args, cancelled: bool)

  class Throttled {
    const wait: int
    const leading: bool
    const trailing: bool
    var previous: int
    var timeout: Option<Timer>
    var args: Option<Args>
    // what the environment knows
    var clock: int
    var timers: set<Timer>
    var nextTimer: nat
    var depth: nat
    ghost var log: seq<Invocation>
    ghost var latest: Option<Args>
    ghost var cancelled: bool

    constructor (wait: int, leading: bool, trailing: bool)
      ensures Valid() && this.wait == wait && this.leading == leading && this.trailing == trailing && log == []
      ensures previous == 0 && timeout == None && args == None && depth == 0
    {
      this.wait, this.leading, this.trailing := wait, leading, trailing;
      previous, timeout, args := 0, None, None;
      clock, timers, nextTimer, depth := 0, {}, 0, 0;
      log, latest, cancelled := [], None, false;
    }

    /** Invocations are at least `wait` apart, unless a cancellation lies between them. */
    ghost predicate Spaced()
      reads this
    {
      forall i :: 0 < i < |log| && !log[i].cancelled ==> log[i].time - log[i - 1].time >= wait
    }

    ghost predicate Valid()
      reads this
    {
      && Spaced() && 0 <= clock && 0 <= previous <= clock
      // the only timer that is running is the one that is remembered
      && timers == (if timeout.Some? then {timeout.value} else {})
      && (timeout.Some? ==> timeout.value.id < nextTimer && timeout.value.due == previous + wait && trailing)
      // it will use the arguments of the latest call
      && (timeout.Some? ==> args == latest && args.Some? && (leading || previous > 0))
      // the window that is open began no earlier than the last invocation
      && (log != [] ==> log[|log| - 1].time <= clock)
      && (log != [] && !cancelled ==>
            log[|log| - 1].time <= previous || (previous == 0 && !leading && timeout.None?))
    }

    method Invoke(now: int, a: Args)
      modifies this`log, this`cancelled, this`depth
      ensures log == old(log) + [Invocation(now, a, old(cancelled))] && !cancelled && depth == old(depth) + 1
    {
      log, cancelled, depth := log + [Invocation(now, a, cancelled)], false, depth + 1;
    }

    /**
     A call at time `now`, up to where the function is invoked if it is.  With trailing enabled it
     runs the function with its own arguments at once, or leaves exactly one timer, due within the
     wait, that has its arguments.
     */
    method Call(now: int, a: Args)
      requires Valid() && now >= clock && now > 0
      modifies this
      ensures Valid() && clock == now && latest == Some(a)
      ensures log == old(log) || log == old(log) + [Invocation(now, a, old(cancelled))]
      ensures log != old(log) <==> now - (if old(previous) == 0 && !leading then now else old(previous)) >= wait
      ensures log == old(log) ==> depth == old(depth) && (trailing ==> timeout.Some? && args == Some(a))
      ensures log == old(log) && timeout.Some? ==> timers == {timeout.value} && timeout.value.due <= now + wait
      ensures log != old(log) ==> timers == {} && depth == old(depth) + 1
      ensures previous == if log != old(log) || (old(previous) == 0 && !leading) then now else old(previous)
      ensures log == old(log) && old(timeout).Some? ==> timeout == old(timeout)
      ensures log == old(log) && timeout.Some? ==> timeout.value.due == previous + wait
    {
      Begin(now, a);
      var remaining := wait - (now - previous);
      if remaining <= 0 || remaining > wait {
        if timeout.Some? {
          timers, timeout := timers - {timeout.value}, None;
        }
        previous := now;
        Invoke(now, a);
      } else if timeout.None? && trailing {
        timeout := Some(Timer(nextTimer, now + remaining));
        timers, nextTimer := timers + {timeout.value}, nextTimer + 1;
      }
    }

    /** The time and the arguments of the call, and a window that opens with it if none is open. */
    method Begin(now: int, a: Args)
      requires Valid() && now >= clock && now > 0
      modifies this`clock, this`previous, this`args, this`latest
      ensures Valid() && clock == now && args == latest == Some(a)
      ensures previous == if old(previous) == 0 && !leading then now else old(previous)
    {
      clock := now;
      if previous == 0 && !leading {
        previous := now;
      }
      args, latest := Some(a), Some(a);
    }

    /**
     `later`: a timer fires, with the arguments of the latest call.  Without a leading edge no window is
     open then, so that the next call opens one instead of running the function.
     */
    method Later(now: int, t: Timer)
      requires Valid() && t in timers && now >= clock && now >= t.due && now > 0 && depth == 0
      modifies this
      ensures Valid() && clock == now && timers == {} && latest == old(latest) && latest.Some?
      ensures log == old(log) + [Invocation(now, latest.value, old(cancelled))] && depth == 1
      ensures timeout == None && (if leading then previous == now else previous == 0)
    {
      clock, timers := now, timers - {t};
      previous := if leading then now else 0;
      timeout := None;
      Invoke(now, args.value);
    }

    /** The innermost invocation returns. */
    method Returns()
      requires Valid() && depth > 0
      modifies this`depth, this`args
      ensures Valid() && depth == old(depth) - 1
      ensures args == if timeout.Some? then old(args) else None
    {
      depth := depth - 1;
      if timeout.None? {
        args := None;
      }
    }

    method Cancel()
      requires Valid()
      modifies this
      ensures Valid() && timers == {} && log == old(log) && depth == old(depth)
      ensures previous == 0 && timeout == None && args == None
    {
      if timeout.Some? {
        timers := timers - {timeout.value};
      }
      previous, timeout, args, cancelled := 0, None, None, true;
    }
  }
}
