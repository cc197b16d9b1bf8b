/**
 Sizzle's `CHILD` filter: the position of an element among its siblings.  Counting forwards resumes
 from a position that is cached on the parent; counting backwards leaves a position at every
 sibling that it passes.
 */
module NthChild {
  import opened Wrappers

  /** `[ dirruns, nodeIndex, diff ]`, kept on the parent. */
  datatype Resume = Resume(dirruns: nat, nodeIndex: nat, diff: nat)

  /** `[ dirruns, diff ]`, kept on a child. */
  datatype Mark = Mark(dirruns: nat, diff: nat)

  class Node {
    const nodeType: int
    const nodeName: string
    var nthLast: Option<Mark>

    constructor (nodeType: int, nodeName: string)
      ensures this.nodeType == nodeType && this.nodeName == nodeName && nthLast == None
    {
      this.nodeType, this.nodeName, nthLast := nodeType, nodeName, None;
    }
  }

  /** Which siblings are counted: elements, or those of one name. */
  datatype Kind = Elements | OfType(name: string)

  predicate Counts(k: Kind, n: Node) {
    if k.OfType? then n.nodeName == k.name else n.nodeType == 1
  }

  /** How many of these nodes are counted. */
  function Count(k: Kind, ns: seq<Node>): nat {
    if ns == [] then 0 else Count(k, ns[..|ns| - 1]) + if Counts(k, ns[|ns| - 1]) then 1 else 0
  }

  lemma {:induction false} CountSplit(k: Kind, a: seq<Node>, b: seq<Node>)
    ensures Count(k, a + b) == Count(k, a) + Count(k, b)
    decreases |b|
  {
    if b == [] {
      assert a + b == a;
    } else {
      assert (a + b)[..|a + b| - 1] == a + b[..|b| - 1];
      CountSplit(k, a, b[..|b| - 1]);
    }
  }

  /** Counting goes on by one node. */
  lemma CountNext(k: Kind, ns: seq<Node>, i: nat)
    requires i < |ns|
    ensures Count(k, ns[..i + 1]) == Count(k, ns[..i]) + if Counts(k, ns[i]) then 1 else 0
  {
    assert ns[..i + 1][..i] == ns[..i];
  }

  lemma CountBefore(k: Kind, ns: seq<Node>, i: nat, j: nat)
    requires i < j <= |ns|
    ensures Count(k, ns[i..j]) == Count(k, ns[i + 1..j]) + if Counts(k, ns[i]) then 1 else 0
  {
    assert ns[i..j] == [ns[i]] + ns[i + 1..j];
    CountSplit(k, [ns[i]], ns[i + 1..j]);
    assert [ns[i]][..0] == [];
  }

  lemma CountPositive(k: Kind, ns: seq<Node>, i: nat, j: nat)
    requires i < j <= |ns| && Counts(k, ns[i])
    ensures Count(k, ns[i..j]) >= 1
  {
    CountBefore(k, ns, i, j);
  }

  /** The 1-based position of child i, from the front or from the back. */
  function Position(k: Kind, ns: seq<Node>, i: nat, forward: bool): nat
    requires i < |ns|
  {
    if forward then Count(k, ns[..i + 1]) else Count(k, ns[i..])
  }

  /** The siblings from i to just before j that are elements, or have the name that is asked for. */
  ghost function Counted(k: Kind, ns: seq<Node>, i: int, j: int): set<int>
    requires 0 <= i <= j <= |ns|
  {
    set x | i <= x < j && (if k.OfType? then ns[x].nodeName == k.name else ns[x].nodeType == 1)
  }

  lemma {:induction false} CountIsNumber(k: Kind, ns: seq<Node>, i: nat, j: nat)
    requires i <= j <= |ns|
    ensures Count(k, ns[i..j]) == |Counted(k, ns, i, j)|
    decreases j
  {
    if i < j {
      CountIsNumber(k, ns, i, j - 1);
      assert ns[i..j][..j - 1 - i] == ns[i..j - 1];
      var fewer := Counted(k, ns, i, j - 1);
      assert Counted(k, ns, i, j) == if Counts(k, ns[j - 1]) then fewer + {j - 1} else fewer;
    }
  }

  /** A position is the number of siblings up to the child, or from it on, that count. */
  lemma PositionIsNumber(k: Kind, ns: seq<Node>, i: nat, forward: bool)
    requires i < |ns|
    ensures Position(k, ns, i, forward) == if forward then |Counted(k, ns, 0, i + 1)| else |Counted(k, ns, i, |ns|)|
  {
    CountIsNumber(k, ns, 0, i + 1);
    CountIsNumber(k, ns, i, |ns|);
    assert ns[0..i + 1] == ns[..i + 1] && ns[i..|ns|] == ns[i..];
  }

  // ---------------------------------------------------------------- the final test

  /** JavaScript's `%`: the remainder has the sign of the dividend. */
  function Rem(x: int, y: int): int
    requires y != 0
  {
    var m := if y < 0 then -y else y;
    if x >= 0 then x % m else -(-x % m)
  }

  /** `diff % first === 0` fails and `diff / first` does not matter when first is 0: the remainder is NaN. */
  predicate Accepts(diff: int, first: int) {
    diff == first || (first != 0 && Rem(diff, first) == 0 && (diff == 0 || (diff > 0) == (first > 0)))
  }

  lemma Multiple(x: nat, m: nat) returns (q: nat)
    requires m > 0 && x % m == 0
    ensures x == m * q
  {
    q := x / m;
  }

  lemma {:induction false} RemOfMultiple(m: nat, q: nat)
    requires m > 0
    ensures (m * q) % m == 0
  {
    if q > 0 {
      RemOfMultiple(m, q - 1);
      assert m * q == m * (q - 1) + m;
      AddModulus(m * (q - 1), m);
    }
  }

  lemma AddModulus(x: nat, m: nat)
    requires m > 0
    ensures (x + m) % m == x % m
  {
    SameQuotient(x + m, m, x / m + 1, x % m);
  }

  /** Quotient and remainder are unique. */
  lemma SameQuotient(x: nat, m: nat, q: nat, r: nat)
    requires m > 0 && x == m * q + r && r < m
    ensures x % m == r
  {
    NoMultipleBetween(m, x / m - q);
    assert m * (x / m) - m * q == m * (x / m - q);
  }

  lemma NoMultipleBetween(m: nat, d: int)
    requires m > 0
    ensures d >= 1 ==> m * d >= m
    ensures d <= -1 ==> m * d + m <= 0
  {
  }

  /** `an+b` is met by the positions a*n + b with n >= 0, also when a is 0 or negative. */
  lemma AcceptsIff(position: int, a: int, b: int)
    ensures Accepts(position - b, a) <==> exists n: nat :: position == a * n + b
  {
    if Accepts(position - b, a) {
      var n := AcceptedBy(position - b, a);
      assert position == a * n + b;
    }
    if n: nat :| position == a * n + b {
      AcceptsMultiple(a, n);
      assert position - b == a * n;
    }
  }

  lemma AcceptedBy(diff: int, a: int) returns (n: nat)
    requires Accepts(diff, a)
    ensures diff == a * n
  {
    if diff == a {
      n := 1;
    } else if a > 0 {
      n := Multiple(diff, a);
    } else {
      n := Multiple(-diff, -a);
      assert -diff == -a * n;
      Negate(a, n);
    }
  }

  lemma Negate(a: int, n: int)
    ensures -a * n == -(a * n)
  {
  }

  lemma AcceptsMultiple(a: int, n: nat)
    ensures Accepts(a * n, a)
  {
    if a == 0 || n == 0 {
      assert a * n == 0;
    } else if a > 0 {
      RemOfMultiple(a, n);
      Grows(a, n);
    } else {
      RemOfMultiple(-a, n);
      Negate(a, n);
      Grows(-a, n);
    }
  }

  lemma Grows(a: nat, n: nat)
    requires a > 0 && n > 0
    ensures a * n > 0
  {
  }

  // ---------------------------------------------------------------- the searches

  datatype Simple = First | Last | Only

  class Parent {
    const childNodes: seq<Node>
    var nth: Option<Resume>

    constructor (childNodes: seq<Node>)
      requires forall i, j :: 0 <= i < j < |childNodes| ==> childNodes[i] != childNodes[j]
      ensures this.childNodes == childNodes && Valid() && nth == None
    {
      this.childNodes, nth := childNodes, None;
    }

    ghost predicate Valid()
      reads this
    {
      && (forall i, j :: 0 <= i < j < |childNodes| ==> childNodes[i] != childNodes[j])
      && (nth.Some? ==>
            && nth.value.nodeIndex < |childNodes|
            && nth.value.diff == Position(Elements, childNodes, nth.value.nodeIndex, true))
    }

    /** `:first-*`, `:last-*` and `:only-*`: nothing that counts before, behind, or on either side. */
    method SimpleChild(which: Simple, k: Kind, e: nat) returns (b: bool)
      requires e < |childNodes| && Counts(k, childNodes[e])
      ensures b <==> (!which.Last? ==> Position(k, childNodes, e, true) == 1) &&
                     (!which.First? ==> Position(k, childNodes, e, false) == 1)
    {
      CountNext(k, childNodes, e);
      CountBefore(k, childNodes, e, |childNodes|);
      assert childNodes[e..|childNodes|] == childNodes[e..] && childNodes[e + 1..|childNodes|] == childNodes[e + 1..];
      if !which.Last? {
        b := NoneBefore(k, e);
        if !b {
          return;
        }
      }
      if which.First? {
        return true;
      }
      b := NoneBehind(k, e);
    }

    method NoneBefore(k: Kind, e: nat) returns (b: bool)
      requires e < |childNodes|
      ensures b <==> Count(k, childNodes[..e]) == 0
    {
      var node := e;
      assert childNodes[..e][e..e] == [];
      while node > 0
        invariant 0 <= node <= e && Count(k, childNodes[node..e]) == 0
      {
        node := node - 1;
        CountBefore(k, childNodes, node, e);
        if Counts(k, childNodes[node]) {
          assert childNodes[..e] == childNodes[..node] + childNodes[node..e];
          CountSplit(k, childNodes[..node], childNodes[node..e]);
          return false;
        }
      }
      assert childNodes[0..e] == childNodes[..e];
      return true;
    }

    method NoneBehind(k: Kind, e: nat) returns (b: bool)
      requires e < |childNodes|
      ensures b <==> Count(k, childNodes[e + 1..]) == 0
    {
      var node := e;
      while node + 1 < |childNodes|
        invariant e <= node < |childNodes| && Count(k, childNodes[e + 1..node + 1]) == 0
      {
        node := node + 1;
        assert childNodes[e + 1..] == childNodes[e + 1..node] + childNodes[node..];
        CountSplit(k, childNodes[e + 1..node], childNodes[node..]);
        if Counts(k, childNodes[node]) {
          CountPositive(k, childNodes, node, |childNodes|);
          assert childNodes[node..|childNodes|] == childNodes[node..];
          return false;
        }
        assert childNodes[e + 1..node + 1][..node - e - 1] == childNodes[e + 1..node];
      }
      assert childNodes[e + 1..node + 1] == childNodes[e + 1..];
      return true;
    }

    /**
     `:nth-child`, cached: resumes behind the position the parent remembers, and starts over when
     the element is not found there.  A falsy `nodeIndex` is 0 here, a falsy `node` is -1.
     */
    method SeekResumed(e: nat, dirruns: nat) returns (diff: nat)
      requires Valid() && e < |childNodes| && childNodes[e].nodeType == 1
      modifies this`nth
      ensures Valid() && diff == Position(Elements, childNodes, e, true)
      ensures nth == Some(Resume(dirruns, e, diff))
    {
      var start := true;
      var nodeIndex := if nth.Some? && nth.value.dirruns == dirruns then nth.value.nodeIndex else 0;
      diff := if nodeIndex != 0 then nth.value.diff else 0;
      var node := if nodeIndex != 0 then nodeIndex else -1;
      while true
        invariant -1 <= node < |childNodes| && nth == old(nth)
        invariant node >= 0 ==> nodeIndex == node && diff == Count(Elements, childNodes[..node + 1])
        invariant !start ==> 0 <= node < e
        decreases start, |childNodes| - node
      {
        nodeIndex := nodeIndex + 1;
        if node >= 0 && node + 1 < |childNodes| {
          node := node + 1;
        } else {
          diff, nodeIndex := 0, 0;
          if !start {
            assert false;
          }
          start, node := false, 0;
        }
        CountNext(Elements, childNodes, node);
        if childNodes[node].nodeType == 1 {
          diff := diff + 1;
          if childNodes[node] == childNodes[e] {
            nth := Some(Resume(dirruns, nodeIndex, diff));
            return;
          }
        }
      }
    }

    /** The position from either end, without any caching. */
    method SeekPlain(k: Kind, e: nat, forward: bool) returns (diff: nat)
      requires Valid() && e < |childNodes| && Counts(k, childNodes[e])
      ensures diff == Position(k, childNodes, e, forward)
    {
      var node := if forward then 0 else |childNodes| - 1;
      diff := 0;
      while true
        invariant if forward then 0 <= node <= e else e <= node < |childNodes|
        invariant diff == if forward then Count(k, childNodes[..node]) else Count(k, childNodes[node + 1..])
        decreases if forward then e - node else node - e
      {
        Passed(k, node, forward);
        if Counts(k, childNodes[node]) {
          diff := diff + 1;
          if childNodes[node] == childNodes[e] {
            return;
          }
        }
        node := if forward then node + 1 else node - 1;
      }
    }

    lemma Passed(k: Kind, node: nat, forward: bool)
      requires node < |childNodes|
      ensures var n := if Counts(k, childNodes[node]) then 1 else 0;
              if forward then Count(k, childNodes[..node + 1]) == Count(k, childNodes[..node]) + n
              else Count(k, childNodes[node..]) == Count(k, childNodes[node + 1..]) + n
    {
      if forward {
        CountNext(k, childNodes, node);
      } else {
        CountBefore(k, childNodes, node, |childNodes|);
        assert childNodes[node..|childNodes|] == childNodes[node..];
        assert childNodes[node + 1..|childNodes|] == childNodes[node + 1..];
      }
    }

    /** What a search that was begun at p leaves at element i. */
    ghost function LeftAt(p: nat, i: nat): nat
      requires p < |childNodes| && i < |childNodes|
    {
      if i < p then Count(Elements, childNodes[i..p]) else Position(Elements, childNodes, i, false)
    }

    ghost predicate MarkedAt(run: nat, p: nat, i: nat)
      requires p < |childNodes| && i < |childNodes|
      reads childNodes[i]
    {
      childNodes[i].nodeType == 1 ==> childNodes[i].nthLast == Some(Mark(run, LeftAt(p, i)))
    }

    /** No search has been made in this run, or the first one was made at element `pivot`. */
    ghost predicate Marks(run: nat, pivot: Option<nat>)
      reads childNodes
    {
      match pivot
      case None => forall i :: 0 <= i < |childNodes| ==> Stale(run, childNodes[i].nthLast)
      case Some(p) =>
        p < |childNodes| && childNodes[p].nodeType == 1 && forall i :: 0 <= i < |childNodes| ==> MarkedAt(run, p, i)
    }

    static predicate Stale(run: nat, m: Option<Mark>) {
      m.None? || m.value.dirruns != run
    }

    /**
     `:nth-last-child`, cached.  The variable that is to walk the siblings still holds the element
     itself, so a search goes from there to the front before it starts over from the back.
     */
    method SeekLast(e: nat, dirruns: nat, ghost pivot: Option<nat>) returns (diff: nat)
      requires Valid() && e < |childNodes| && childNodes[e].nodeType == 1 && Marks(dirruns, pivot)
      modifies childNodes
      ensures Marks(dirruns, if pivot.Some? then pivot else Some(e))
      ensures diff == LeftAt(if pivot.Some? then pivot.value else e, e)
    {
      var cache := childNodes[e].nthLast;
      assert pivot.Some? ==> MarkedAt(dirruns, pivot.value, e);
      if cache.Some? && cache.value.dirruns == dirruns {
        return cache.value.diff;
      }
      diff := SeekBack(e, dirruns);
    }

    method SeekBack(e: nat, dirruns: nat) returns (diff: nat)
      requires Valid() && e < |childNodes| && childNodes[e].nodeType == 1
      modifies childNodes
      ensures Marks(dirruns, Some(e)) && diff == LeftAt(e, e)
    {
      hide Count;
      var start, node := true, e;
      diff := 0;
      NothingCounted(e);
      while true
        invariant start ==> 0 <= node <= e && diff == Count(Elements, childNodes[node..e])
        invariant start ==> forall i :: node <= i < e ==> MarkedAt(dirruns, e, i)
        invariant !start ==> e < node < |childNodes| && diff == Count(Elements, childNodes[node..])
        invariant !start ==> forall i :: 0 <= i < e || node <= i < |childNodes| ==> MarkedAt(dirruns, e, i)
        decreases start, node
      {
        if node > 0 {
          node := node - 1;
        } else {
          diff, start, node := 0, false, |childNodes| - 1;
        }
        BackStep(node, e, start);
        if childNodes[node].nodeType == 1 {
          diff := diff + 1;
          childNodes[node].nthLast := Some(Mark(dirruns, diff));
          if childNodes[node] == childNodes[e] {
            return;
          }
        }
      }
    }

    lemma NothingCounted(e: nat)
      requires e < |childNodes|
      ensures Count(Elements, childNodes[e..e]) == Count(Elements, childNodes[|childNodes|..]) == 0
    {
    }

    lemma BackStep(node: nat, e: nat, start: bool)
      requires e < |childNodes| && node < if start then e else |childNodes|
      ensures var n := if childNodes[node].nodeType == 1 then 1 else 0;
              if start then Count(Elements, childNodes[node..e]) == Count(Elements, childNodes[node + 1..e]) + n
              else Count(Elements, childNodes[node..]) == Count(Elements, childNodes[node + 1..]) + n
    {
      if start {
        CountBefore(Elements, childNodes, node, e);
      } else {
        Passed(Elements, node, false);
      }
    }

    /** In front of the element that was asked for first the siblings up to that one are counted, and no more. */
    lemma LeftIsNumber(p: nat, e: nat)
      requires p < |childNodes| && e < |childNodes|
      ensures LeftAt(p, e) == |Counted(Elements, childNodes, e, if e < p then p else |childNodes|)|
    {
      CountIsNumber(Elements, childNodes, e, if e < p then p else |childNodes|);
      PositionIsNumber(Elements, childNodes, e, false);
    }

    /** A run of questions answers the k-th one rightly if and only if it is not asked in front of the first. */
    lemma LastIsRightIff(p: nat, e: nat)
      requires p < |childNodes| && e < |childNodes| && childNodes[p].nodeType == 1
      ensures LeftAt(p, e) == Position(Elements, childNodes, e, false) <==> p <= e
    {
      if e < p {
        assert childNodes[e..] == childNodes[e..p] + childNodes[p..];
        CountSplit(Elements, childNodes[e..p], childNodes[p..]);
        CountPositive(Elements, childNodes, p, |childNodes|);
        assert childNodes[p..|childNodes|] == childNodes[p..];
      }
    }

    method LastPositions(es: seq<nat>, dirruns: nat) returns (diffs: seq<nat>)
      requires Valid() && Marks(dirruns, None)
      requires forall k :: 0 <= k < |es| ==> es[k] < |childNodes| && childNodes[es[k]].nodeType == 1
      modifies childNodes
      ensures |diffs| == |es|
      ensures forall k :: 0 <= k < |es| ==>
                (diffs[k] == Position(Elements, childNodes, es[k], false) <==> es[0] <= es[k])
    {
      hide Marks, LeftAt;
      diffs := [];
      ghost var pivot: Option<nat> := None;
      for k := 0 to |es|
        invariant |diffs| == k && Marks(dirruns, pivot)
        invariant pivot == if k == 0 then None else Some(es[0])
        invariant forall i :: 0 <= i < k ==> (diffs[i] == Position(Elements, childNodes, es[i], false) <==> es[0] <= es[i])
      {
        var diff := SeekLast(es[k], dirruns, pivot);
        LastIsRightIff(es[0], es[k]);
        diffs := diffs + [diff];
        pivot := Some(es[0]);
      }
    }

    /** Any questions in any order and any runs: the forward position is always right. */
    method ForwardPositions(es: seq<nat>, runs: seq<nat>) returns (diffs: seq<nat>)
      requires Valid() && |runs| == |es|
      requires forall k :: 0 <= k < |es| ==> es[k] < |childNodes| && childNodes[es[k]].nodeType == 1
      modifies this`nth
      ensures Valid() && |diffs| == |es|
      ensures forall k :: 0 <= k < |es| ==> diffs[k] == Position(Elements, childNodes, es[k], true)
    {
      diffs := [];
      for k := 0 to |es|
        invariant Valid() && |diffs| == k
        invariant forall i :: 0 <= i < k ==> diffs[i] == Position(Elements, childNodes, es[i], true)
      {
        var diff := SeekResumed(es[k], runs[k]);
        diffs := diffs + [diff];
      }
    }

    /** `:nth-child(an+b)`, the shortcut for `n` included. */
    method NthChild(e: nat, first: int, last: int, dirruns: nat) returns (b: bool)
      requires Valid() && e < |childNodes| && childNodes[e].nodeType == 1
      modifies this`nth
      ensures Valid()
      ensures b <==> exists n: nat :: Position(Elements, childNodes, e, true) == first * n + last
    {
      ghost var position := Position(Elements, childNodes, e, true);
      AcceptsIff(position, first, last);
      if first == 1 && last == 0 {
        assert position == first * position + last;
        return true;
      }
      var diff := SeekResumed(e, dirruns);
      return Accepts(diff - last, first);
    }

    /**
     `:nth-last-child(an+b)`, cached: the formula is met by the position that the search leaves, which
     is the right one unless the element stands in front of the one that was asked for first.
     */
    method NthLastChild(e: nat, first: int, last: int, dirruns: nat, ghost pivot: Option<nat>) returns (b: bool)
      requires Valid() && e < |childNodes| && childNodes[e].nodeType == 1 && Marks(dirruns, pivot)
      modifies childNodes
      ensures Marks(dirruns, if pivot.Some? || (first == 1 && last == 0) then pivot else Some(e))
      ensures b <==> (first == 1 && last == 0) ||
                     exists n: nat :: LeftAt(if pivot.Some? then pivot.value else e, e) == first * n + last
      ensures pivot.None? || pivot.value <= e ==>
                (b <==> exists n: nat :: Position(Elements, childNodes, e, false) == first * n + last)
    {
      hide Marks, Counts, LeftAt, Position;
      ghost var p := if pivot.Some? then pivot.value else e;
      PivotIsElement(dirruns, pivot);
      LastIsRightIff(p, e);
      AcceptsIff(LeftAt(p, e), first, last);
      if first == 1 && last == 0 {
        assert LeftAt(p, e) == first * LeftAt(p, e) + last;
        return true;
      }
      var diff := SeekLast(e, dirruns, pivot);
      return Accepts(diff - last, first);
    }

    lemma PivotIsElement(run: nat, pivot: Option<nat>)
      requires Marks(run, pivot)
      ensures pivot.Some? ==> pivot.value < |childNodes| && childNodes[pivot.value].nodeType == 1
    {
    }

    /** A whole selection by one formula: right for every element not in front of the first one. */
    method LastAccepted(es: seq<nat>, first: int, last: int, dirruns: nat) returns (bs: seq<bool>)
      requires Valid() && Marks(dirruns, None)
      requires forall k :: 0 <= k < |es| ==> es[k] < |childNodes| && childNodes[es[k]].nodeType == 1
      modifies childNodes
      ensures |bs| == |es|
      ensures forall k :: 0 <= k < |es| && es[0] <= es[k] ==>
                (bs[k] <==> exists n: nat :: Position(Elements, childNodes, es[k], false) == first * n + last)
    {
      hide Marks, LeftAt, Position;
      bs := [];
      ghost var pivot: Option<nat> := None;
      for k := 0 to |es|
        invariant |bs| == k && Marks(dirruns, pivot)
        invariant pivot == if k == 0 || (first == 1 && last == 0) then None else Some(es[0])
        invariant forall i :: 0 <= i < k && es[0] <= es[i] ==>
                    (bs[i] <==> exists n: nat :: Position(Elements, childNodes, es[i], false) == first * n + last)
      {
        var b := NthLastChild(es[k], first, last, dirruns, pivot);
        bs := bs + [b];
        pivot := if pivot.Some? || (first == 1 && last == 0) then pivot else Some(es[k]);
      }
    }

    /** The same test where nothing is cached: for XML documents and for the `of-type` kinds. */
    method NthUncached(k: Kind, e: nat, forward: bool, first: int, last: int) returns (b: bool)
      requires Valid() && e < |childNodes| && Counts(k, childNodes[e])
      ensures b <==> exists n: nat :: Position(k, childNodes, e, forward) == first * n + last
    {
      ghost var position := Position(k, childNodes, e, forward);
      AcceptsIff(position, first, last);
      if first == 1 && last == 0 {
        assert position == first * position + last;
        return true;
      }
      var diff := SeekPlain(k, e, forward);
      return Accepts(diff - last, first);
    }
  }
}
