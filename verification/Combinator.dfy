/**
 The walks of Sizzle's combinators over ancestors or preceding siblings.  A walk leaves one shared
 entry behind at every node that it passes, so that later walks can stop there; walks of other
 combinators use the same slot of a node and overwrite what they find.
 */
module Combinator {
  import opened Wrappers

  datatype Dir = ParentNode | PreviousSibling

  /** `[ dirruns, doneName, result ]`. The result is not there before a matcher has answered. */
  class Entry {
    const dirruns: nat
    const doneName: nat
    var result: Option<bool>

    constructor (dirruns: nat, doneName: nat)
      ensures this.dirruns == dirruns && this.doneName == doneName && result == None
    {
      this.dirruns, this.doneName, result := dirruns, doneName, None;
    }
  }

  /** A node of a fixed tree, with the cache that is attached to it. */
  class Node {
    const nodeType: int
    const parentNode: Node?
    const previousSibling: Node?
    ghost const order: nat
    var cache: map<Dir, Entry>

    constructor (nodeType: int, parentNode: Node?, previousSibling: Node?, ghost order: nat)
      ensures this.nodeType == nodeType && this.parentNode == parentNode && this.previousSibling == previousSibling
      ensures this.order == order && cache == map[]
    {
      this.nodeType, this.parentNode, this.previousSibling := nodeType, parentNode, previousSibling;
      this.order, cache := order, map[];
    }
  }

  /** `node[ dir ]`. */
  function Next(n: Node, d: Dir): Node? {
    if d.ParentNode? then n.parentNode else n.previousSibling
  }

  /** In document order a node comes after its parent and its preceding siblings. */
  ghost predicate Tree(ns: set<Node>) {
    forall n, d :: n in ns && Next(n, d) != null ==> Next(n, d) in ns && Next(n, d).order < n.order
  }

  /**
   A combinator and the compound to its left: the filters of the compound, and the combinator that
   stands in front of them, if there is one.  Its number is its `doneName`; a filter is the set of the
   nodes it accepts.
   */
  datatype Relation = Relation(dir: Dir, first: bool, base: bool, test: set<Node>, inner: Option<nat>)

  predicate Compiled(rs: seq<Relation>) {
    forall j :: 0 <= j < |rs| && rs[j].inner.Some? ==> rs[j].inner.value < j
  }

  /** Nodes that are not elements are passed over, unless the walk is to find the context itself. */
  predicate Eligible(r: Relation, n: Node) {
    n.nodeType == 1 || (r.base && r.dir.ParentNode?)
  }

  // ---------------------------------------------------------------- what the selectors mean

  /** The compound to the left of combinator j, and all that stands in front of it, matches n. */
  ghost predicate Holds(ns: set<Node>, rs: seq<Relation>, j: nat, n: Node)
    requires Tree(ns) && Compiled(rs) && j < |rs| && n in ns
    decreases j, 0, 0
  {
    n in rs[j].test && (rs[j].inner.Some? ==> Related(ns, rs, rs[j].inner.value, n))
  }

  /** Combinator j relates n to a node that its compound matches. */
  ghost predicate Related(ns: set<Node>, rs: seq<Relation>, j: nat, n: Node)
    requires Tree(ns) && Compiled(rs) && j < |rs| && n in ns
    decreases j, 2, 0
  {
    if rs[j].first then Nearest(ns, rs, j, Next(n, rs[j].dir)) else Along(ns, rs, j, Next(n, rs[j].dir))
  }

  /** The first eligible node from n on matches. */
  ghost predicate Nearest(ns: set<Node>, rs: seq<Relation>, j: nat, n: Node?)
    requires Tree(ns) && Compiled(rs) && j < |rs| && (n != null ==> n in ns)
    decreases j, 1, if n == null then 0 else n.order + 1
  {
    n != null && if Eligible(rs[j], n) then Holds(ns, rs, j, n) else Nearest(ns, rs, j, Next(n, rs[j].dir))
  }

  /** Some eligible node from n on matches. */
  ghost predicate Along(ns: set<Node>, rs: seq<Relation>, j: nat, n: Node?)
    requires Tree(ns) && Compiled(rs) && j < |rs| && (n != null ==> n in ns)
    decreases j, 1, if n == null then 0 else n.order + 1
  {
    n != null && ((Eligible(rs[j], n) && Holds(ns, rs, j, n)) || Along(ns, rs, j, Next(n, rs[j].dir)))
  }

  /** The nodes from n on, nearest first. */
  ghost function Path(ns: set<Node>, n: Node?, d: Dir): (p: seq<Node>)
    requires Tree(ns) && (n != null ==> n in ns)
    ensures forall i :: 0 <= i < |p| ==> p[i] in ns
    decreases if n == null then 0 else n.order + 1
  {
    if n == null then [] else [n] + Path(ns, Next(n, d), d)
  }

  // ---------------------------------------------------------------- selectors and their compilation

  /** A selector is read as a list of filters and of combinators between them. */
  datatype Token = Relative(dir: Dir, first: bool) | Filter(test: set<Node>)

  /** How what stands leftmost has to be placed: anywhere, or in some relation to the context. */
  datatype Base = Base(dir: Dir, first: bool, context: set<Node>, anywhere: bool)

  /** A compound that no combinator follows yet. */
  datatype Compound = Compound(test: set<Node>, inner: Option<nat>)

  predicate Fits(rs: seq<Relation>, c: Compound) {
    c.inner.Some? ==> c.inner.value < |rs|
  }

  ghost predicate Selects(ns: set<Node>, rs: seq<Relation>, c: Compound, n: Node)
    requires Tree(ns) && Compiled(rs) && Fits(rs, c) && n in ns
  {
    n in c.test && (c.inner.Some? ==> Related(ns, rs, c.inner.value, n))
  }

  /** A node on the path p is among these; if first is set, it is the nearest that counts. */
  ghost predicate Reaches(p: seq<Node>, first: bool, all: bool, these: set<Node>) {
    exists i :: 0 <= i < |p| && ReachesAt(p, i, first, all, these)
  }

  predicate ReachesAt(p: seq<Node>, i: nat, first: bool, all: bool, these: set<Node>)
    requires i < |p|
  {
    Reached(p[i], all) && p[i] in these && (first ==> forall k :: 0 <= k < i ==> !Reached(p[k], all))
  }

  predicate Reached(n: Node, all: bool) {
    all || n.nodeType == 1
  }

  ghost predicate Based(ns: set<Node>, base: Base, n: Node)
    requires Tree(ns) && n in ns
  {
    base.anywhere ||
    Reaches(Path(ns, Next(n, base.dir), base.dir), base.first, base.dir.ParentNode?, base.context)
  }

  /** The nodes that are related to one of these. */
  ghost function Follow(ns: set<Node>, dir: Dir, first: bool, these: set<Node>): set<Node>
    requires Tree(ns)
  {
    set n | n in ns && Reaches(Path(ns, Next(n, dir), dir), first, false, these)
  }

  /** What a selector means, read from the right: a set of nodes. */
  ghost function Meaning(ns: set<Node>, ts: seq<Token>, base: Base): set<Node>
    requires Tree(ns)
    decreases |ts|
  {
    if ts == [] then set n | n in ns && Based(ns, base, n)
    else
      var left, last := Meaning(ns, ts[..|ts| - 1], base), ts[|ts| - 1];
      if last.Filter? then left * last.test else Follow(ns, last.dir, last.first, left)
  }

  function BaseOf(ts: seq<Token>, context: set<Node>, elsewhere: bool): Base {
    if ts != [] && ts[0].Relative? then Base(ts[0].dir, ts[0].first, context, false)
    else Base(ParentNode, false, context, elsewhere)
  }

  function Body(ts: seq<Token>): seq<Token> {
    if ts != [] && ts[0].Relative? then ts[1..] else ts
  }

  /** A combinator that is compiled later does not change what the earlier ones mean. */
  lemma {:induction false} RelatedStays(ns: set<Node>, rs: seq<Relation>, r: Relation, j: nat, n: Node)
    requires Tree(ns) && Compiled(rs) && Compiled(rs + [r]) && j < |rs| && n in ns
    ensures Related(ns, rs + [r], j, n) == Related(ns, rs, j, n)
    decreases j, 2, 0
  {
    PathStays(ns, rs, r, j, Next(n, rs[j].dir));
  }

  lemma {:induction false} PathStays(ns: set<Node>, rs: seq<Relation>, r: Relation, j: nat, n: Node?)
    requires Tree(ns) && Compiled(rs) && Compiled(rs + [r]) && j < |rs| && (n != null ==> n in ns)
    ensures Nearest(ns, rs + [r], j, n) == Nearest(ns, rs, j, n)
    ensures Along(ns, rs + [r], j, n) == Along(ns, rs, j, n)
    decreases j, 1, if n == null then 0 else n.order + 1
  {
    hide Related;
    if n != null {
      PathStays(ns, rs, r, j, Next(n, rs[j].dir));
      if rs[j].inner.Some? {
        RelatedStays(ns, rs, r, rs[j].inner.value, n);
      }
    }
  }

  lemma ReachesFrom(n: Node, q: seq<Node>, first: bool, all: bool, these: set<Node>)
    ensures Reaches([n] + q, first, all, these) <==>
            (Reached(n, all) && n in these) || (!(first && Reached(n, all)) && Reaches(q, first, all, these))
  {
    hide Reached;
    var p := [n] + q;
    assert ReachesAt(p, 0, first, all, these) <==> Reached(n, all) && n in these;
    if Reaches(p, first, all, these) && !ReachesAt(p, 0, first, all, these) {
      var i :| 0 <= i < |p| && ReachesAt(p, i, first, all, these);
      ReachesLater(n, q, i - 1, first, all, these);
    }
    if Reaches(q, first, all, these) && !(first && Reached(n, all)) {
      var i :| 0 <= i < |q| && ReachesAt(q, i, first, all, these);
      ReachesLater(n, q, i, first, all, these);
    }
  }

  lemma ReachesLater(n: Node, q: seq<Node>, i: nat, first: bool, all: bool, these: set<Node>)
    requires i < |q|
    ensures ReachesAt([n] + q, i + 1, first, all, these) <==>
            !(first && Reached(n, all)) && ReachesAt(q, i, first, all, these)
  {
    hide Reached;
    var p := [n] + q;
    assert p[0] == n && forall k :: 0 < k < |p| ==> p[k] == q[k - 1];
    assert forall k :: 0 <= k < |q| ==> q[k] == p[k + 1];
  }

  /** The two kinds of walk look at every node on the path, or at the first eligible one only. */
  lemma {:induction false} WalkReaches(ns: set<Node>, rs: seq<Relation>, j: nat, n: Node?, these: set<Node>)
    requires Tree(ns) && Compiled(rs) && j < |rs| && (n != null ==> n in ns)
    requires forall m :: m in ns ==> (m in these <==> Holds(ns, rs, j, m))
    ensures var p, all := Path(ns, n, rs[j].dir), rs[j].base && rs[j].dir.ParentNode?;
            && Along(ns, rs, j, n) == Reaches(p, false, all, these)
            && Nearest(ns, rs, j, n) == Reaches(p, true, all, these)
    decreases if n == null then 0 else n.order + 1
  {
    hide Holds, Reaches;
    var all := rs[j].base && rs[j].dir.ParentNode?;
    if n == null {
      NothingReached(all, these);
    } else {
      WalkReaches(ns, rs, j, Next(n, rs[j].dir), these);
      ReachesFrom(n, Path(ns, Next(n, rs[j].dir), rs[j].dir), false, all, these);
      ReachesFrom(n, Path(ns, Next(n, rs[j].dir), rs[j].dir), true, all, these);
    }
  }

  lemma NothingReached(all: bool, these: set<Node>)
    ensures !Reaches([], false, all, these) && !Reaches([], true, all, these)
  {
  }

  /** A combinator relates a node to one on its path that its compound selects. */
  lemma RelatedReaches(ns: set<Node>, rs: seq<Relation>, j: nat, n: Node, these: set<Node>)
    requires Tree(ns) && Compiled(rs) && j < |rs| && n in ns
    requires forall m :: m in ns ==> (m in these <==> Holds(ns, rs, j, m))
    ensures var r := rs[j];
            Related(ns, rs, j, n) ==
            Reaches(Path(ns, Next(n, r.dir), r.dir), r.first, r.base && r.dir.ParentNode?, these)
  {
    hide Holds, Nearest, Along, Reaches;
    WalkReaches(ns, rs, j, Next(n, rs[j].dir), these);
  }

  /**
   A selector is compiled into a chain of combinators, each around the matchers of what stands to
   its left, behind those that were compiled before.  The chain selects what the selector means.
   */
  method MatcherFromTokens(ns: set<Node>, before: seq<Relation>, tokens: seq<Token>, context: set<Node>, elsewhere: bool)
    returns (rs: seq<Relation>, matchers: Compound)
    requires Tree(ns) && Compiled(before)
    ensures before <= rs && Compiled(rs) && Fits(rs, matchers)
    ensures Chosen(ns, rs, matchers) == Meaning(ns, Body(tokens), BaseOf(tokens, context, elsewhere))
  {
    hide Related, Meaning, Reaches;
    var base, body := BaseOf(tokens, context, elsewhere), Body(tokens);
    rs := before + [Relation(base.dir, base.first, true, context, None)];
    matchers := Compound(ns, if base.anywhere then None else Some(|before|));
    BaseMeans(ns, before, rs, matchers, body[..0], base);
    for i := 0 to |body|
      invariant before <= rs && Compiled(rs) && Fits(rs, matchers)
      invariant Chosen(ns, rs, matchers) == Meaning(ns, body[..i], base)
    {
      assert body[..i + 1][..i] == body[..i];
      match body[i] {
        case Filter(test) =>
          FilterMeans(ns, rs, matchers, test, body[..i + 1], base);
          matchers := Compound(matchers.test * test, matchers.inner);
        case Relative(dir, first) =>
          RelativeMeans(ns, rs, matchers, Relation(dir, first, false, matchers.test, matchers.inner), body[..i + 1], base);
          rs := rs + [Relation(dir, first, false, matchers.test, matchers.inner)];
          matchers := Compound(ns, Some(|rs| - 1));
      }
    }
    assert body[..|body|] == body;
  }

  ghost function MeaningOf(ns: set<Node>, tokens: seq<Token>, context: set<Node>, elsewhere: bool): set<Node>
    requires Tree(ns)
  {
    Meaning(ns, Body(tokens), BaseOf(tokens, context, elsewhere))
  }

  predicate AllFit(rs: seq<Relation>, groups: seq<Compound>) {
    forall g :: 0 <= g < |groups| ==> Fits(rs, groups[g])
  }

  /** The selectors of a group are compiled one behind the other. */
  method CompileGroup(ns: set<Node>, selectors: seq<seq<Token>>, context: set<Node>, elsewhere: bool)
    returns (rs: seq<Relation>, groups: seq<Compound>)
    requires Tree(ns)
    ensures Compiled(rs) && AllFit(rs, groups) && |groups| == |selectors|
    ensures forall g :: 0 <= g < |groups| ==> Chosen(ns, rs, groups[g]) == MeaningOf(ns, selectors[g], context, elsewhere)
  {
    hide Chosen, Meaning, BaseOf, Body;
    rs, groups := [], [];
    for i := 0 to |selectors|
      invariant Compiled(rs) && AllFit(rs, groups) && |groups| == i
      invariant forall g :: 0 <= g < i ==> Chosen(ns, rs, groups[g]) == MeaningOf(ns, selectors[g], context, elsewhere)
    {
      var more, matchers := MatcherFromTokens(ns, rs, selectors[i], context, elsewhere);
      forall g | 0 <= g < i ensures Fits(more, groups[g]) && Chosen(ns, more, groups[g]) == Chosen(ns, rs, groups[g]) {
        ChosenStays(ns, rs, more, groups[g]);
      }
      rs, groups := more, groups + [matchers];
    }
  }

  /** What was compiled keeps its meaning. */
  lemma {:induction false} ChosenStays(ns: set<Node>, rs: seq<Relation>, more: seq<Relation>, c: Compound)
    requires Tree(ns) && Compiled(rs) && Compiled(more) && rs <= more && Fits(rs, c)
    ensures Chosen(ns, more, c) == Chosen(ns, rs, c)
    decreases |more|
  {
    if rs == more {
    } else {
      var less, r := more[..|more| - 1], more[|more| - 1];
      assert more == less + [r];
      ChosenStays(ns, rs, less, c);
      forall n | n in ns ensures Selects(ns, more, c, n) == Selects(ns, less, c, n) {
        hide Related;
        if c.inner.Some? {
          RelatedStays(ns, less, r, c.inner.value, n);
        }
      }
    }
  }

  ghost function Chosen(ns: set<Node>, rs: seq<Relation>, c: Compound): set<Node>
    requires Tree(ns) && Compiled(rs) && Fits(rs, c)
  {
    set n | n in ns && Selects(ns, rs, c, n)
  }

  lemma BaseMeans(ns: set<Node>, before: seq<Relation>, rs: seq<Relation>, c: Compound, ts: seq<Token>, base: Base)
    requires Tree(ns) && ts == [] && Compiled(before)
    requires rs == before + [Relation(base.dir, base.first, true, base.context, None)]
    requires c == Compound(ns, if base.anywhere then None else Some(|before|))
    ensures Compiled(rs) && Chosen(ns, rs, c) == Meaning(ns, ts, base)
  {
    hide Related, Reaches;
    forall n | n in ns ensures Selects(ns, rs, c, n) == Based(ns, base, n) {
      RelatedReaches(ns, rs, |before|, n, base.context);
    }
  }

  lemma FilterMeans(ns: set<Node>, rs: seq<Relation>, c: Compound, test: set<Node>, ts: seq<Token>, base: Base)
    requires Tree(ns) && ts != [] && ts[|ts| - 1] == Filter(test)
    requires Compiled(rs) && Fits(rs, c)
    requires Chosen(ns, rs, c) == Meaning(ns, ts[..|ts| - 1], base)
    ensures Chosen(ns, rs, Compound(c.test * test, c.inner)) == Meaning(ns, ts, base)
  {
    hide Related;
    assert Chosen(ns, rs, Compound(c.test * test, c.inner)) == Chosen(ns, rs, c) * test;
  }

  lemma RelativeMeans(ns: set<Node>, rs: seq<Relation>, c: Compound, r: Relation, ts: seq<Token>, base: Base)
    requires Tree(ns) && ts != [] && ts[|ts| - 1] == Relative(r.dir, r.first)
    requires Compiled(rs) && Fits(rs, c)
    requires r == Relation(r.dir, r.first, false, c.test, c.inner)
    requires Chosen(ns, rs, c) == Meaning(ns, ts[..|ts| - 1], base)
    ensures Compiled(rs + [r])
    ensures Chosen(ns, rs + [r], Compound(ns, Some(|rs|))) == Meaning(ns, ts, base)
  {
    hide Related, Reaches;
    var these := Chosen(ns, rs, c);
    forall m | m in ns ensures m in these <==> Holds(ns, rs + [r], |rs|, m) {
      if r.inner.Some? {
        RelatedStays(ns, rs, r, r.inner.value, m);
      }
    }
    forall n | n in ns ensures n in Follow(ns, r.dir, r.first, these) <==> Related(ns, rs + [r], |rs|, n) {
      RelatedReaches(ns, rs + [r], |rs|, n, these);
    }
  }

  // ---------------------------------------------------------------- selectors in terms of the tree

  /** c is an ancestor of n, or a sibling in front of it; if `first` is set, no element lies between them. */
  ghost predicate Leads(ns: set<Node>, n: Node, dir: Dir, first: bool, c: Node)
    requires Tree(ns) && n in ns
    decreases n.order
  {
    var m := Next(n, dir);
    m != null && (m == c || (!(first && m.nodeType == 1) && Leads(ns, m, dir, first, c)))
  }

  /** How n stands to c: child, descendant, next or later sibling.  Only a context need not be an element. */
  ghost predicate Stands(ns: set<Node>, n: Node, dir: Dir, first: bool, leading: bool, c: Node)
    requires Tree(ns) && n in ns
  {
    if leading && dir.ParentNode? then if first then n.parentNode == c else Leads(ns, n, ParentNode, false, c)
    else c.nodeType == 1 && Leads(ns, n, dir, first, c)
  }

  /** Walks that look at elements only. */
  lemma {:induction false} ElementWalk(ns: set<Node>, n: Node, dir: Dir, first: bool, these: set<Node>)
    requires Tree(ns) && n in ns
    ensures Reaches(Path(ns, Next(n, dir), dir), first, false, these) <==>
            exists c :: c in these && c.nodeType == 1 && Leads(ns, n, dir, first, c)
    decreases n.order
  {
    hide Reaches;
    var m := Next(n, dir);
    if m == null {
      NothingReached(false, these);
    } else {
      ElementWalk(ns, m, dir, first, these);
      ReachesFrom(m, Path(ns, Next(m, dir), dir), first, false, these);
    }
  }

  /** Walks to a context, which may be a document or a fragment. */
  lemma {:induction false} ContextWalk(ns: set<Node>, n: Node, first: bool, these: set<Node>)
    requires Tree(ns) && n in ns
    ensures Reaches(Path(ns, Next(n, ParentNode), ParentNode), first, true, these) <==>
            exists c :: c in these && Stands(ns, n, ParentNode, first, true, c)
    decreases n.order
  {
    hide Reaches;
    var m := n.parentNode;
    if m == null {
      NothingReached(true, these);
    } else {
      assert Next(n, ParentNode) == m;
      ContextWalk(ns, m, first, these);
      ReachesFrom(m, Path(ns, Next(m, ParentNode), ParentNode), first, true, these);
    }
  }

  /** A combinator in front of everything relates a node to the context, and to nothing else. */
  lemma LeadingCombinator(ns: set<Node>, dir: Dir, first: bool, context: set<Node>, elsewhere: bool, n: Node)
    requires Tree(ns) && n in ns
    ensures n in MeaningOf(ns, [Relative(dir, first)], context, elsewhere) <==>
            exists c :: c in context && Stands(ns, n, dir, first, true, c)
  {
    var ts := [Relative(dir, first)];
    assert Body(ts) == [] && BaseOf(ts, context, elsewhere) == Base(dir, first, context, false);
    hide Reaches, Path;
    if dir.ParentNode? {
      ContextWalk(ns, n, first, context);
    } else {
      ElementWalk(ns, n, dir, first, context);
      assert forall c :: Stands(ns, n, dir, first, true, c) <==> c.nodeType == 1 && Leads(ns, n, dir, first, c);
    }
  }

  /** Without one the context is an ancestor, unless anything goes. */
  lemma NoLeadingCombinator(ns: set<Node>, test: set<Node>, context: set<Node>, elsewhere: bool, n: Node)
    requires Tree(ns) && n in ns
    ensures n in MeaningOf(ns, [Filter(test)], context, elsewhere) <==>
            n in test && (elsewhere || exists c :: c in context && Leads(ns, n, ParentNode, false, c))
  {
    var ts := [Filter(test)];
    var base := Base(ParentNode, false, context, elsewhere);
    assert ts[..|ts| - 1] == [] && Body(ts) == ts && BaseOf(ts, context, elsewhere) == base;
    assert n in Meaning(ns, ts, base) <==> n in Meaning(ns, [], base) && n in test;
    hide Reaches, Path;
    ContextWalk(ns, n, false, context);
    assert forall c :: Stands(ns, n, ParentNode, false, true, c) <==> Leads(ns, n, ParentNode, false, c);
  }

  /** A filter behind a selector keeps those of its nodes that the filter accepts. */
  lemma FilterBehind(ns: set<Node>, ts: seq<Token>, test: set<Node>, context: set<Node>, elsewhere: bool)
    requires Tree(ns) && ts != []
    ensures MeaningOf(ns, ts + [Filter(test)], context, elsewhere) == MeaningOf(ns, ts, context, elsewhere) * test
  {
    var us := ts + [Filter(test)];
    assert Body(us) == Body(ts) + [Filter(test)];
    assert Body(us)[..|Body(us)| - 1] == Body(ts);
  }

  /** A combinator behind a selector gives the nodes that stand so to an element that the selector means. */
  lemma CombinatorBehind(ns: set<Node>, ts: seq<Token>, dir: Dir, first: bool, context: set<Node>, elsewhere: bool, n: Node)
    requires Tree(ns) && ts != [] && n in ns
    ensures n in MeaningOf(ns, ts + [Relative(dir, first)], context, elsewhere) <==>
            exists c :: c in MeaningOf(ns, ts, context, elsewhere) && Stands(ns, n, dir, first, false, c)
  {
    var us, left := ts + [Relative(dir, first)], MeaningOf(ns, ts, context, elsewhere);
    assert Body(us) == Body(ts) + [Relative(dir, first)];
    assert Body(us)[..|Body(us)| - 1] == Body(ts);
    hide Reaches, Path;
    ElementWalk(ns, n, dir, first, left);
    assert forall c :: Stands(ns, n, dir, first, false, c) <==> c.nodeType == 1 && Leads(ns, n, dir, first, c);
  }

  /** `> test`, `test` below, `+ test` or `~ test` in a context: exactly the accepted nodes that stand so to it. */
  lemma LeadingSelector(ns: set<Node>, dir: Dir, first: bool, test: set<Node>, context: set<Node>, elsewhere: bool, n: Node)
    requires Tree(ns) && n in ns
    ensures n in MeaningOf(ns, [Relative(dir, first), Filter(test)], context, elsewhere) <==>
            n in test && exists c :: c in context && Stands(ns, n, dir, first, true, c)
  {
    assert [Relative(dir, first), Filter(test)] == [Relative(dir, first)] + [Filter(test)];
    hide MeaningOf;
    FilterBehind(ns, [Relative(dir, first)], test, context, elsewhere);
    LeadingCombinator(ns, dir, first, context, elsewhere, n);
  }

  // ---------------------------------------------------------------- the cached walks

  /** The entry is one that combinator k has left in this run. */
  predicate Live(e: Entry, dirruns: nat, k: nat) {
    e.dirruns == dirruns && e.doneName == k
  }

  class Matcher {
    const rs: seq<Relation>
    ghost const ns: set<Node>
    var dirruns: nat

    constructor (rs: seq<Relation>, ghost ns: set<Node>, dirruns: nat)
      ensures this.rs == rs && this.ns == ns && this.dirruns == dirruns
    {
      this.rs, this.ns, this.dirruns := rs, ns, dirruns;
    }

    /** What a live entry of combinator k at n must say. */
    ghost predicate Tells(e: Entry, k: nat, n: Node)
      requires Tree(ns) && Compiled(rs) && n in ns
      reads this, e
    {
      Live(e, dirruns, k) && k < |rs| ==> e.result == Some(Along(ns, rs, k, n))
    }

    /**
     Whoever shares it and whatever else has used its slot, a live entry of a combinator up to j
     says whether its node or one further along matches.  The entry that is being filled in is
     excepted.
     */
    ghost predicate Inv(j: nat, but: Entry?)
      requires Tree(ns) && Compiled(rs)
      reads this, ns, set n, d | n in ns && d in n.cache :: n.cache[d]
    {
      forall n, d, k: nat :: n in ns && d in n.cache && n.cache[d] != but && k <= j ==> Tells(n.cache[d], k, n)
    }

    /** A walk puts only entries of its own combinator, or of walks inside it, into slots. */
    twostate predicate Touched(bound: nat)
      reads this, ns, set n, d | n in ns && d in n.cache :: n.cache[d]
    {
      forall n, d :: n in ns && d in n.cache ==> Kept(n, d) || Placed(n.cache[d], bound)
    }

    twostate predicate Kept(n: Node, d: Dir)
      reads n
    {
      d in n.cache && d in old(n.cache) && n.cache[d] == old(n.cache[d])
    }

    twostate predicate Placed(new e: Entry, bound: nat)
      reads this
    {
      fresh(e) && e.doneName < bound && e.dirruns == dirruns
    }

    /** The compound of combinator j, and what stands in front of it, on one node. */
    method Match(j: nat, elem: Node, xml: bool, ghost but: Entry?) returns (b: bool)
      requires Tree(ns) && Compiled(rs) && j < |rs| && elem in ns && Inv(j, but)
      requires but != null ==> but.doneName == j
      modifies ns
      ensures b == Holds(ns, rs, j, elem) && Inv(j, but) && Touched(j)
      decreases j, 0
    {
      hide Along, Related;
      b := elem in rs[j].test;
      if b && rs[j].inner.Some? {
        b := Walk(rs[j].inner.value, elem, xml);
      }
    }

    /** What `addCombinator` returns. */
    method Walk(j: nat, elem: Node, xml: bool) returns (b: bool)
      requires Tree(ns) && Compiled(rs) && j < |rs| && elem in ns && Inv(j, null)
      modifies ns
      ensures b == Related(ns, rs, j, elem) && Inv(j, null) && Touched(j + 1)
      decreases j, 2
    {
      hide Along, Nearest, Inv, Touched;
      if rs[j].first {
        b := WalkFirst(j, elem, xml);
      } else if xml {
        b := WalkPlain(j, elem, xml);
      } else {
        b := WalkCached(j, elem, xml);
      }
    }

    method WalkFirst(j: nat, start: Node, xml: bool) returns (b: bool)
      requires Tree(ns) && Compiled(rs) && j < |rs| && start in ns && Inv(j, null)
      modifies ns
      ensures b == Nearest(ns, rs, j, Next(start, rs[j].dir)) && Inv(j, null) && Touched(j + 1)
      decreases j, 1
    {
      hide Holds, Along;
      var elem := Next(start, rs[j].dir);
      while elem != null
        invariant elem != null ==> elem in ns
        invariant Inv(j, null) && Touched(j)
        invariant Nearest(ns, rs, j, elem) == Nearest(ns, rs, j, Next(start, rs[j].dir))
        decreases if elem == null then 0 else elem.order + 1
      {
        if Eligible(rs[j], elem) {
          b := Match(j, elem, xml, null);
          return;
        }
        elem := Next(elem, rs[j].dir);
      }
      return false;
    }

    /** Without caching: nothing may be attached to the nodes of an XML document. */
    method WalkPlain(j: nat, start: Node, xml: bool) returns (b: bool)
      requires Tree(ns) && Compiled(rs) && j < |rs| && start in ns && Inv(j, null)
      modifies ns
      ensures b == Along(ns, rs, j, Next(start, rs[j].dir)) && Inv(j, null) && Touched(j + 1)
      decreases j, 1
    {
      hide Holds;
      var elem := Next(start, rs[j].dir);
      while elem != null
        invariant elem != null ==> elem in ns
        invariant Inv(j, null) && Touched(j)
        invariant Along(ns, rs, j, elem) == Along(ns, rs, j, Next(start, rs[j].dir))
        decreases if elem == null then 0 else elem.order + 1
      {
        if Eligible(rs[j], elem) {
          b := Match(j, elem, xml, null);
          if b {
            return;
          }
        }
        elem := Next(elem, rs[j].dir);
      }
      return false;
    }

    /** The slots that hold the entry of this walk, and what is known of their nodes. */
    ghost predicate Shared(j: nat, newCache: Entry, answer: bool)
      requires Tree(ns) && Compiled(rs) && j < |rs|
      reads this, ns, set n, d | n in ns && d in n.cache :: n.cache[d]
    {
      forall n, d :: n in ns && d in n.cache && n.cache[d] == newCache ==> Along(ns, rs, j, n) == answer
    }

    static ghost predicate Behind(n: Node, elem: Node?) {
      elem != null ==> elem.order < n.order
    }

    /** The nodes that share the entry learn the answer at once. */
    method Settle(j: nat, newCache: Entry, result: Option<bool>, ghost answer: bool)
      requires Tree(ns) && Compiled(rs) && j < |rs| && Inv(j, newCache) && Shared(j, newCache, answer)
      requires newCache.doneName == j && result == Some(answer)
      modifies newCache`result
      ensures newCache.result == result && Inv(j, null)
    {
      hide Along;
      newCache.result := result;
    }

    /** The entry is put at a node, and the node is matched. */
    method Visit(j: nat, elem: Node, xml: bool, newCache: Entry, ghost answer: bool) returns (b: bool)
      requires Tree(ns) && Compiled(rs) && j < |rs| && elem in ns && Inv(j, newCache) && Shared(j, newCache, answer)
      requires newCache.doneName == j && newCache.dirruns == dirruns
      requires Eligible(rs[j], elem) && Along(ns, rs, j, elem) == answer
      modifies ns, newCache`result
      ensures b == Holds(ns, rs, j, elem) && newCache.result == Some(b)
      ensures Inv(j, newCache) && Shared(j, newCache, answer)
      ensures forall n, d :: n in ns && d in n.cache ==>
                Kept(n, d) || Placed(n.cache[d], j) || (n == elem && n.cache[d] == newCache)
      decreases j, 1, 0
    {
      hide Holds, Along;
      elem.cache := elem.cache[rs[j].dir := newCache];
      assert Inv(j, newCache);
      b := Match(j, elem, xml, newCache);
      newCache.result := Some(b);
    }

    /** One entry is put at every node on the way, and its result is set when the walk ends. */
    method WalkCached(j: nat, start: Node, xml: bool) returns (b: bool)
      requires Tree(ns) && Compiled(rs) && j < |rs| && start in ns && Inv(j, null)
      modifies ns
      ensures b == Along(ns, rs, j, Next(start, rs[j].dir)) && Inv(j, null) && Touched(j + 1)
      decreases j, 1, 1
    {
      hide Holds;
      var newCache := new Entry(dirruns, j);
      var dir := rs[j].dir;
      var elem := Next(start, dir);
      ghost var answer := Along(ns, rs, j, elem);
      ghost var visited := false;
      while elem != null
        invariant elem != null ==> elem in ns
        invariant Inv(j, newCache) && Touched(j + 1) && Shared(j, newCache, answer)
        invariant Along(ns, rs, j, elem) == answer
        invariant newCache.result == if visited then Some(false) else None
        invariant forall n, d :: n in ns && d in n.cache && n.cache[d] == newCache ==> visited && Behind(n, elem)
        decreases if elem == null then 0 else elem.order + 1
      {
        if Eligible(rs[j], elem) {
          if dir in elem.cache && Live(elem.cache[dir], dirruns, j) {
            assert Tells(elem.cache[dir], j, elem);
            Settle(j, newCache, elem.cache[dir].result, answer);
            return newCache.result == Some(true);
          }
          b := Visit(j, elem, xml, newCache, answer);
          visited := true;
          if b {
            return;
          }
        }
        elem := Next(elem, dir);
      }
      return false;
    }

    /** No entry is from a run to come. */
    ghost predicate Past()
      reads this, ns, set n, d | n in ns && d in n.cache :: n.cache[d]
    {
      forall n, d :: n in ns && d in n.cache ==> n.cache[d].dirruns <= dirruns
    }

    /** The rightmost compound of a selector. */
    method ElementMatcher(c: Compound, elem: Node, xml: bool) returns (b: bool)
      requires Tree(ns) && Compiled(rs) && elem in ns && Fits(rs, c)
      requires Inv(|rs|, null) && Past()
      modifies ns
      ensures b == Selects(ns, rs, c, elem) && Inv(|rs|, null) && Past()
    {
      hide Related;
      b := elem in c.test;
      if b && c.inner.Some? {
        b := Walk(c.inner.value, elem, xml);
      }
    }

    /**
     A run over a list of candidates, in any order and with repetitions: exactly those that one of
     the selectors selects, whatever earlier runs have left in the caches.
     */
    method Select(groups: seq<Compound>, elems: seq<Node>, xml: bool) returns (results: seq<Node>)
      requires Tree(ns) && Compiled(rs) && Past() && AllFit(rs, groups) && forall i :: 0 <= i < |elems| ==> elems[i] in ns
      modifies this`dirruns, ns
      ensures results == Among(elems, AnyOf(seq(|groups|, g requires 0 <= g < |groups| => Chosen(ns, rs, groups[g])))) && Past()
      ensures dirruns == old(dirruns) + 1
    {
      hide Selects, Chosen, AnyOf;
      dirruns := dirruns + 1;
      results := [];
      assert Inv(|rs|, null);
      ghost var these := AnyOf(seq(|groups|, g requires 0 <= g < |groups| => Chosen(ns, rs, groups[g])));
      for i := 0 to |elems|
        invariant results == Among(elems[..i], these) && Inv(|rs|, null) && Past() && dirruns == old(dirruns) + 1
      {
        hide Inv, Past;
        assert elems[..i + 1][..i] == elems[..i];
        var matched := MatchAny(groups, elems[i], xml);
        if matched {
          results := results + [elems[i]];
        }
      }
      assert elems[..|elems|] == elems;
    }

    method MatchAny(groups: seq<Compound>, elem: Node, xml: bool) returns (b: bool)
      requires Tree(ns) && Compiled(rs) && elem in ns && Inv(|rs|, null) && Past() && AllFit(rs, groups)
      modifies ns
      ensures b <==> elem in AnyOf(seq(|groups|, g requires 0 <= g < |groups| => Chosen(ns, rs, groups[g])))
      ensures Inv(|rs|, null) && Past()
    {
      hide Selects, Inv, Past;
      ghost var chosen := seq(|groups|, g requires 0 <= g < |groups| => Chosen(ns, rs, groups[g]));
      for j := 0 to |groups|
        invariant forall g :: 0 <= g < j ==> elem !in chosen[g]
        invariant Inv(|rs|, null) && Past()
      {
        b := ElementMatcher(groups[j], elem, xml);
        if b {
          assert elem in chosen[j];
          AnyOfThem(chosen, elem, j);
          return;
        }
      }
      NoneOfThem(chosen, elem);
      return false;
    }
  }

  ghost function AnyOf(sets: seq<set<Node>>): set<Node> {
    if sets == [] then {} else AnyOf(sets[..|sets| - 1]) + sets[|sets| - 1]
  }

  lemma {:induction false} AnyOfThem(sets: seq<set<Node>>, n: Node, g: nat)
    requires g < |sets| && n in sets[g]
    ensures n in AnyOf(sets)
  {
    if g < |sets| - 1 {
      AnyOfThem(sets[..|sets| - 1], n, g);
    }
  }

  lemma {:induction false} NoneOfThem(sets: seq<set<Node>>, n: Node)
    requires forall g :: 0 <= g < |sets| ==> n !in sets[g]
    ensures n !in AnyOf(sets)
  {
    if sets != [] {
      NoneOfThem(sets[..|sets| - 1], n);
    }
  }

  /** The elements that are among these, in their order. */
  function Among(elems: seq<Node>, these: set<Node>): seq<Node> {
    if elems == [] then []
    else
      var last := elems[|elems| - 1];
      Among(elems[..|elems| - 1], these) + if last in these then [last] else []
  }

  /** They keep their order and their repetitions. */
  lemma {:induction false} AmongConcat(a: seq<Node>, b: seq<Node>, these: set<Node>)
    ensures Among(a + b, these) == Among(a, these) + Among(b, these)
    decreases |b|
  {
    if b == [] {
      assert a + b == a;
    } else {
      var n := |b| - 1;
      AmongConcat(a, b[..n], these);
      assert (a + b)[..|a + b| - 1] == a + b[..n];
    }
  }

  lemma AmongOne(n: Node, these: set<Node>)
    ensures Among([n], these) == if n in these then [n] else []
  {
    assert [n][..0] == [];
  }

  /**
   A whole selection: a group of selectors is compiled, and the candidates are run over.  What comes
   out are the candidates that one of the selectors means.
   */
  method SelectElements(ns: set<Node>, selectors: seq<seq<Token>>, context: set<Node>, elsewhere: bool,
                        elems: seq<Node>, xml: bool, dirruns: nat)
    returns (results: seq<Node>, runs: nat)
    requires Tree(ns) && forall i :: 0 <= i < |elems| ==> elems[i] in ns
    requires forall n, d :: n in ns && d in n.cache ==> n.cache[d].dirruns <= dirruns
    modifies ns
    ensures results == Among(elems, AnyOf(seq(|selectors|, g requires 0 <= g < |selectors| => MeaningOf(ns, selectors[g], context, elsewhere))))
    ensures forall n, d :: n in ns && d in n.cache ==> n.cache[d].dirruns <= runs
  {
    hide Chosen, MeaningOf, AnyOf, Among;
    var rs, groups := CompileGroup(ns, selectors, context, elsewhere);
    var m := new Matcher(rs, ns, dirruns);
    results := m.Select(groups, elems, xml);
    runs := m.dirruns;
    assert seq(|groups|, g requires 0 <= g < |groups| => Chosen(ns, rs, groups[g]))
        == seq(|selectors|, g requires 0 <= g < |selectors| => MeaningOf(ns, selectors[g], context, elsewhere));
  }
}
