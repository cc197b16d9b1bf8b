/** `jQuery.when` over two or more inputs, each of which settles at most once. */
module When {
  import opened Wrappers
  import opened Sets

  type Value = int

  datatype Event = Resolve(index: nat, value: Value) | Reject(index: nat, value: Value)

  /** The master deferred; settling one that is settled does nothing. */
  datatype Outcome = Pending | Resolved(values: seq<Value>) | Rejected(reason: Value)

  /** No input settles twice, and there are n of them. */
  ghost predicate Settlings(n: nat, es: seq<Event>) {
    && (forall k :: 0 <= k < |es| ==> es[k].index < n)
    && (forall k, l :: 0 <= k < l < |es| ==> es[k].index != es[l].index)
  }

  /** The first rejection, in the order of time. */
  function FirstRejection(es: seq<Event>): Option<Value> {
    if es == [] then None
    else
      var before := FirstRejection(es[..|es| - 1]);
      if before.Some? then before
      else if es[|es| - 1].Reject? then Some(es[|es| - 1].value)
      else None
  }

  /** There is one exactly if something was rejected, and nothing was before it. */
  lemma {:induction false} FirstRejectionIs(es: seq<Event>)
    ensures FirstRejection(es).None? <==> forall k :: 0 <= k < |es| ==> es[k].Resolve?
    ensures FirstRejection(es).Some? ==>
              exists k :: 0 <= k < |es| && es[k].Reject? && es[k].value == FirstRejection(es).value
                       && forall l :: 0 <= l < k ==> es[l].Resolve?
  {
    if es != [] {
      var n := |es| - 1;
      FirstRejectionIs(es[..n]);
      if FirstRejection(es[..n]).Some? {
        var k :| 0 <= k < n && es[..n][k].Reject? && es[..n][k].value == FirstRejection(es[..n]).value
              && forall l :: 0 <= l < k ==> es[..n][l].Resolve?;
        assert es[k] == es[..n][k] && forall l :: 0 <= l < k ==> es[l] == es[..n][l];
      } else {
        assert forall k :: 0 <= k < n ==> es[k] == es[..n][k];
      }
    }
  }

  ghost function ResolvedOnes(es: seq<Event>): set<nat> {
    set k | 0 <= k < |es| && es[k].Resolve? :: es[k].index
  }

  ghost function All(n: nat): (a: set<nat>)
    ensures forall i: nat :: i in a <==> i < n
    ensures |a| == n
  {
    if n == 0 then {} else All(n - 1) + {n - 1}
  }

  /** Every resolved input has its value in position. */
  ghost predicate Stored(n: nat, es: seq<Event>, vs: seq<Value>) {
    |vs| == n && forall k :: 0 <= k < |es| && es[k].Resolve? && es[k].index < n ==> vs[es[k].index] == es[k].value
  }

  /** What `when` promises: all resolve and their values are in position, or the first rejection counts. */
  ghost predicate Kept(n: nat, es: seq<Event>, master: Outcome) {
    if FirstRejection(es).Some? then master == Rejected(FirstRejection(es).value)
    else if ResolvedOnes(es) == All(n) then master.Resolved? && Stored(n, es, master.values)
    else master == Pending
  }

  lemma ResolvedNext(es: seq<Event>, e: Event)
    requires forall k :: 0 <= k < |es| ==> es[k].index != e.index
    ensures ResolvedOnes(es + [e]) == ResolvedOnes(es) + (if e.Resolve? then {e.index} else {})
    ensures e.index !in ResolvedOnes(es)
  {
    var all := es + [e];
    forall i | i in ResolvedOnes(es) ensures i in ResolvedOnes(all) {
      var k :| 0 <= k < |es| && es[k].Resolve? && es[k].index == i;
      assert all[k] == es[k];
    }
    assert all[|es|] == e;
  }

  /** With a rejection among them not all inputs resolve. */
  lemma RejectionMisses(n: nat, es: seq<Event>)
    requires Settlings(n, es) && FirstRejection(es).Some?
    ensures ResolvedOnes(es) != All(n)
  {
    var k := RejectionIndex(es);
    assert es[k].index in All(n) && es[k].index !in ResolvedOnes(es);
  }

  lemma {:induction false} RejectionIndex(es: seq<Event>) returns (k: nat)
    requires FirstRejection(es).Some?
    ensures k < |es| && es[k].Reject?
  {
    if FirstRejection(es[..|es| - 1]).Some? {
      k := RejectionIndex(es[..|es| - 1]);
    } else {
      k := |es| - 1;
    }
  }

  lemma ResolvedInRange(n: nat, es: seq<Event>)
    requires Settlings(n, es)
    ensures ResolvedOnes(es) <= All(n)
  {
  }

  class Aggregate {
    const n: nat
    var remaining: int
    var resolveValues: seq<Value>
    var master: Outcome
    ghost var seen: seq<Event>

    ghost predicate Valid()
      reads this
    {
      && Settlings(n, seen) && Kept(n, seen, master)
      && remaining == n - |ResolvedOnes(seen)|
      && Stored(n, seen, resolveValues)
    }

    /** Plain values resolve at once, the last one first; the others are left to settle. */
    constructor (inputs: seq<Option<Value>>)
      requires |inputs| >= 2
      ensures Valid() && n == |inputs| && Plain(inputs, seen, 0)
    {
      n, remaining := |inputs|, |inputs|;
      resolveValues := seq(|inputs|, i requires 0 <= i < |inputs| => if inputs[i].Some? then inputs[i].value else 0);
      master, seen := Pending, [];
      new;
      NothingYet(n, resolveValues);
      AdoptAll(inputs);
    }

    method AdoptAll(inputs: seq<Option<Value>>)
      requires Valid() && n == |inputs| && seen == []
      modifies this
      ensures Valid() && Plain(inputs, seen, 0)
    {
      hide Valid, Plain;
      var i := |inputs|;
      PlainAtFirst(inputs);
      while i > 0
        invariant 0 <= i <= |inputs| && Valid() && Plain(inputs, seen, i)
      {
        i := i - 1;
        PlainNext(inputs, seen, i);
        if inputs[i].Some? {
          Update(i, inputs[i].value);
        }
      }
    }

    static lemma PlainAtFirst(inputs: seq<Option<Value>>)
      ensures Plain(inputs, [], |inputs|)
    {
    }

    static lemma PlainNext(inputs: seq<Option<Value>>, es: seq<Event>, i: nat)
      requires i < |inputs| && Plain(inputs, es, i + 1)
      ensures forall k :: 0 <= k < |es| ==> es[k].index != i
      ensures if inputs[i].Some? then Plain(inputs, es + [Resolve(i, inputs[i].value)], i) else Plain(inputs, es, i)
    {
    }

    /** The inputs from i on that are plain values have resolved to them, and nothing else has happened. */
    static ghost predicate Plain(inputs: seq<Option<Value>>, es: seq<Event>, i: nat) {
      && (forall k :: 0 <= k < |es| ==> i <= es[k].index < |inputs| && es[k].Resolve? && inputs[es[k].index] == Some(es[k].value))
      && (forall j :: i <= j < |inputs| && inputs[j].Some? ==> Resolve(j, inputs[j].value) in es)
    }

    /** `updateFunc( i )`: input i resolves. */
    method Update(i: nat, value: Value)
      requires Valid() && i < n && forall k :: 0 <= k < |seen| ==> seen[k].index != i
      modifies this
      ensures Valid() && seen == old(seen) + [Resolve(i, value)]
    {
      hide Kept, Stored, ResolvedOnes, Settlings;
      Counted(n, seen, Resolve(i, value), remaining, resolveValues);
      KeptNext(n, seen, Resolve(i, value), master, resolveValues[i := value]);
      resolveValues := resolveValues[i := value];
      remaining := remaining - 1;
      seen := seen + [Resolve(i, value)];
      if remaining == 0 && master.Pending? {
        master := Resolved(resolveValues);
      }
    }

    /** `master.reject`: input i rejects. */
    method Refuse(i: nat, reason: Value)
      requires Valid() && i < n && forall k :: 0 <= k < |seen| ==> seen[k].index != i
      modifies this`master, this`seen
      ensures Valid() && seen == old(seen) + [Reject(i, reason)]
    {
      hide Kept, Stored, ResolvedOnes, Settlings;
      RejectedNext(n, seen, Reject(i, reason), master, remaining, resolveValues);
      seen := seen + [Reject(i, reason)];
      if master.Pending? {
        master := Rejected(reason);
      }
    }
  }

  lemma NothingYet(n: nat, vs: seq<Value>)
    requires n >= 2 && |vs| == n
    ensures Settlings(n, []) && Kept(n, [], Pending) && Stored(n, [], vs) && |ResolvedOnes([])| == 0
  {
    assert 0 in All(n);
  }

  lemma Counted(n: nat, es: seq<Event>, e: Event, remaining: int, vs: seq<Value>)
    requires Settlings(n, es) && Stored(n, es, vs) && e.Resolve? && e.index < n
    requires forall k :: 0 <= k < |es| ==> es[k].index != e.index
    requires remaining == n - |ResolvedOnes(es)|
    ensures |vs| == n && Settlings(n, es + [e]) && Stored(n, es + [e], vs[e.index := e.value])
    ensures remaining - 1 == n - |ResolvedOnes(es + [e])|
    ensures remaining - 1 == 0 <==> ResolvedOnes(es + [e]) == All(n)
  {
    ResolvedNext(es, e);
    StoredNext(n, es, e, vs);
    hide ResolvedOnes, Stored;
    ResolvedInRange(n, es + [e]);
    SubsetSize(ResolvedOnes(es + [e]), All(n));
  }

  lemma StoredNext(n: nat, es: seq<Event>, e: Event, vs: seq<Value>)
    requires Settlings(n, es) && Stored(n, es, vs) && e.Resolve? && e.index < n
    requires forall k :: 0 <= k < |es| ==> es[k].index != e.index
    ensures |vs| == n && Settlings(n, es + [e]) && Stored(n, es + [e], vs[e.index := e.value])
  {
  }

  lemma KeptNext(n: nat, es: seq<Event>, e: Event, master: Outcome, vs: seq<Value>)
    requires Settlings(n, es + [e]) && Settlings(n, es) && Kept(n, es, master) && e.Resolve? && Stored(n, es + [e], vs)
    ensures Kept(n, es + [e], if ResolvedOnes(es + [e]) == All(n) && master.Pending? then Resolved(vs) else master)
  {
    hide Stored, ResolvedOnes, Settlings;
    StillMissing(n, es, e);
    assert (es + [e])[..|es|] == es && (es + [e])[|es|] == e;
    if FirstRejection(es).Some? {
      RejectionMisses(n, es + [e]);
    }
  }

  lemma RejectedNext(n: nat, es: seq<Event>, e: Event, master: Outcome, remaining: int, vs: seq<Value>)
    requires Settlings(n, es) && Kept(n, es, master) && e.Reject? && e.index < n && Stored(n, es, vs)
    requires forall k :: 0 <= k < |es| ==> es[k].index != e.index
    requires remaining == n - |ResolvedOnes(es)|
    ensures Settlings(n, es + [e]) && Kept(n, es + [e], if master.Pending? then Rejected(e.value) else master)
    ensures Stored(n, es + [e], vs) && remaining == n - |ResolvedOnes(es + [e])|
  {
    ResolvedNext(es, e);
    assert (es + [e])[..|es|] == es && (es + [e])[|es|] == e;
    assert Settlings(n, es + [e]);
    StillMissing(n, es, e);
  }

  /** Before the last input has settled, not all have resolved. */
  lemma StillMissing(n: nat, es: seq<Event>, e: Event)
    requires Settlings(n, es + [e])
    ensures ResolvedOnes(es) != All(n)
  {
    assert (es + [e])[|es|] == e && forall k :: 0 <= k < |es| ==> (es + [e])[k] == es[k];
    ResolvedNext(es, e);
    assert e.index in All(n);
  }
}
