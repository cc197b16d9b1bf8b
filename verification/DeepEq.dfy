/**
 Underscore's `eq` and `deepEq` on graphs of arrays and plain objects.  Two stacks hold the objects
 that are being compared; meeting one of them again on the left is taken to be equal if and only
 if the object that it was paired with is met on the right.
 */
module DeepEq {
  import opened Wrappers
  import opened Sets

  /** A primitive, `null` and `undefined` included, or a reference. */
  datatype Value = Prim(p: int) | Ref(id: nat)

  datatype Obj = Arr(elems: seq<Value>) | Plain(fields: map<string, Value>)

  type Graph = map<nat, Obj>

  predicate InGraph(h: Graph, v: Value) {
    v.Ref? ==> v.id in h
  }

  /** No reference leads out of the graph. */
  ghost predicate Closed(h: Graph) {
    forall x :: x in h ==> ClosedAt(h, h[x])
  }

  ghost predicate ClosedAt(h: Graph, o: Obj) {
    match o
    case Arr(elems) => forall i :: 0 <= i < |elems| ==> InGraph(h, elems[i])
    case Plain(fields) => forall k :: k in fields ==> InGraph(h, fields[k])
  }

  /** The same class, and as many members under the same names. */
  predicate SameShape(o: Obj, p: Obj) {
    if o.Arr? then p.Arr? && |o.elems| == |p.elems|
    else p.Plain? && o.fields.Keys == p.fields.Keys
  }

  /** Where a value lies in the object that holds it. */
  datatype Part = At(i: nat) | Of(k: string)

  function Child(o: Obj, part: Part): Option<Value> {
    if o.Arr? && part.At? && part.i < |o.elems| then Some(o.elems[part.i])
    else if o.Plain? && part.Of? && part.k in o.fields then Some(o.fields[part.k])
    else None
  }

  /** The members of an object with those of another one of the same shape. */
  ghost function Members(o: Obj, p: Obj): set<(Value, Value)>
    requires SameShape(o, p)
  {
    if o.Arr? then set i | 0 <= i < |o.elems| :: (o.elems[i], p.elems[i])
    else set k | k in o.fields :: (o.fields[k], p.fields[k])
  }

  /** The objects of the graph that are not on the stack. */
  ghost function Off(h: Graph, aStack: seq<nat>): set<nat> {
    h.Keys - set i | 0 <= i < |aStack| :: aStack[i]
  }

  function LastIndex(s: seq<nat>, x: nat): (i: int)
    ensures i < |s|
    ensures if i < 0 then x !in s else s[i] == x
  {
    if s == [] then -1 else if s[|s| - 1] == x then |s| - 1 else LastIndex(s[..|s| - 1], x)
  }

  lemma OffShrinks(h: Graph, aStack: seq<nat>, x: nat)
    requires x in h && x !in aStack
    ensures Off(h, aStack + [x]) < Off(h, aStack)
  {
    assert x in Off(h, aStack);
    assert (aStack + [x])[|aStack|] == x;
    assert forall i :: 0 <= i < |aStack| ==> (aStack + [x])[i] == aStack[i];
  }

  /** What the comparison says, with these stacks. */
  ghost predicate Same(h: Graph, a: Value, b: Value, aStack: seq<nat>, bStack: seq<nat>)
    requires Closed(h) && InGraph(h, a) && InGraph(h, b) && |aStack| == |bStack|
    decreases Off(h, aStack), 2
  {
    a == b || (a.Ref? && b.Ref? && DeepSame(h, a.id, b.id, aStack, bStack))
  }

  ghost predicate DeepSame(h: Graph, x: nat, y: nat, aStack: seq<nat>, bStack: seq<nat>)
    requires Closed(h) && x in h && y in h && |aStack| == |bStack|
    decreases Off(h, aStack), 1
  {
    if h[x].Arr? != h[y].Arr? then false
    else if x in aStack then bStack[LastIndex(aStack, x)] == y
    else
      OffShrinks(h, aStack, x);
      SameShape(h[x], h[y]) &&
      forall m :: m in Members(h[x], h[y]) ==>
        MembersIn(h, x, y, m) && Same(h, m.0, m.1, aStack + [x], bStack + [y])
  }

  /** Members stay in the graph. */
  ghost predicate MembersIn(h: Graph, x: nat, y: nat, m: (Value, Value)) {
    InGraph(h, m.0) && InGraph(h, m.1)
  }

  lemma MembersClosed(h: Graph, x: nat, y: nat)
    requires Closed(h) && x in h && y in h && SameShape(h[x], h[y])
    ensures forall m :: m in Members(h[x], h[y]) ==> MembersIn(h, x, y, m)
  {
    assert ClosedAt(h, h[x]) && ClosedAt(h, h[y]);
  }

  // ---------------------------------------------------------------- bisimulation

  ghost predicate Related(r: set<(nat, nat)>, m: (Value, Value)) {
    m.0 == m.1 || (m.0.Ref? && m.1.Ref? && (m.0.id, m.1.id) in r)
  }

  /** The pairs of r have the same shape, and related members up to `upTo`. */
  ghost predicate Progresses(h: Graph, r: set<(nat, nat)>, upTo: set<(nat, nat)>) {
    forall p :: p in r ==> Progress(h, p, upTo)
  }

  ghost predicate Progress(h: Graph, p: (nat, nat), upTo: set<(nat, nat)>) {
    p.0 in h && p.1 in h && SameShape(h[p.0], h[p.1]) && forall m :: m in Members(h[p.0], h[p.1]) ==> Related(upTo, m)
  }

  /** Nothing that can be read from a and from b tells them apart. */
  ghost predicate Bisimilar(h: Graph, a: Value, b: Value) {
    exists r :: Progresses(h, r, r) && Related(r, (a, b))
  }

  ghost function Pairs(aStack: seq<nat>, bStack: seq<nat>): set<(nat, nat)>
    requires |aStack| == |bStack|
  {
    set i | 0 <= i < |aStack| :: (aStack[i], bStack[i])
  }

  lemma PairsPush(aStack: seq<nat>, bStack: seq<nat>, x: nat, y: nat)
    requires |aStack| == |bStack|
    ensures Pairs(aStack + [x], bStack + [y]) == Pairs(aStack, bStack) + {(x, y)}
  {
    var a, b := aStack + [x], bStack + [y];
    assert forall i :: 0 <= i < |aStack| ==> (a[i], b[i]) == (aStack[i], bStack[i]);
    assert (a[|aStack|], b[|aStack|]) == (x, y);
  }

  /** The pairs that a comparison goes through are a bisimulation but for the pairs on the stacks. */
  lemma SameGives(h: Graph, a: Value, b: Value, aStack: seq<nat>, bStack: seq<nat>) returns (r: set<(nat, nat)>)
    requires Closed(h) && InGraph(h, a) && InGraph(h, b) && |aStack| == |bStack| && Same(h, a, b, aStack, bStack)
    ensures Related(r + Pairs(aStack, bStack), (a, b)) && Progresses(h, r, r + Pairs(aStack, bStack))
    decreases Off(h, aStack), 2
  {
    r := {};
    if a != b {
      r := DeepGives(h, a.id, b.id, aStack, bStack);
    }
  }

  lemma DeepGives(h: Graph, x: nat, y: nat, aStack: seq<nat>, bStack: seq<nat>) returns (r: set<(nat, nat)>)
    requires Closed(h) && x in h && y in h && |aStack| == |bStack| && DeepSame(h, x, y, aStack, bStack)
    ensures (x, y) in r + Pairs(aStack, bStack) && Progresses(h, r, r + Pairs(aStack, bStack))
    decreases Off(h, aStack), 1
  {
    r := {};
    if x !in aStack {
      OffShrinks(h, aStack, x);
      var a, b := aStack + [x], bStack + [y];
      r := AllGive(h, Members(h[x], h[y]), a, b);
      PairsPush(aStack, bStack, x, y);
      assert r + Pairs(a, b) == r + {(x, y)} + Pairs(aStack, bStack);
      r := r + {(x, y)};
    }
  }

  lemma {:induction false} AllGive(h: Graph, ms: set<(Value, Value)>, aStack: seq<nat>, bStack: seq<nat>)
    returns (r: set<(nat, nat)>)
    requires Closed(h) && |aStack| == |bStack|
    requires forall m :: m in ms ==> InGraph(h, m.0) && InGraph(h, m.1) && Same(h, m.0, m.1, aStack, bStack)
    ensures Progresses(h, r, r + Pairs(aStack, bStack))
    ensures forall m :: m in ms ==> Related(r + Pairs(aStack, bStack), m)
    decreases Off(h, aStack), 3, |ms|
  {
    r := {};
    if ms != {} {
      var m :| m in ms;
      hide Same, Progress, Off;
      var r1 := SameGives(h, m.0, m.1, aStack, bStack);
      var r2 := AllGive(h, ms - {m}, aStack, bStack);
      r := r1 + r2;
      Widen(h, r1, r1 + Pairs(aStack, bStack), r + Pairs(aStack, bStack));
      Widen(h, r2, r2 + Pairs(aStack, bStack), r + Pairs(aStack, bStack));
    }
  }

  lemma Widen(h: Graph, r: set<(nat, nat)>, upTo: set<(nat, nat)>, more: set<(nat, nat)>)
    requires Progresses(h, r, upTo) && upTo <= more
    ensures Progresses(h, r, more)
    ensures forall m :: Related(upTo, m) ==> Related(more, m)
  {
    forall p | p in r ensures Progress(h, p, more) {
      assert Progress(h, p, upTo);
    }
  }

  /** A true answer is right on every graph, cyclic or not. */
  lemma TrueMeansBisimilar(h: Graph, a: Value, b: Value)
    requires Closed(h) && InGraph(h, a) && InGraph(h, b) && Same(h, a, b, [], [])
    ensures Bisimilar(h, a, b)
  {
    hide Same;
    var r := SameGives(h, a, b, [], []);
    assert r + Pairs([], []) == r;
  }

  // ---------------------------------------------------------------- the exact condition

  /** From a pair of objects to a pair of their members that are different objects. */
  ghost predicate Step(h: Graph, p: (nat, nat), q: (nat, nat)) {
    && p.0 in h && p.1 in h && q.0 != q.1
    && exists part :: Child(h[p.0], part) == Some(Ref(q.0)) && Child(h[p.1], part) == Some(Ref(q.1))
  }

  /** The members are what is held in the same place. */
  lemma MemberIff(o: Obj, p: Obj, m: (Value, Value))
    requires SameShape(o, p)
    ensures m in Members(o, p) <==> exists part :: Child(o, part) == Some(m.0) && Child(p, part) == Some(m.1)
  {
    if m in Members(o, p) {
      if o.Arr? {
        var i :| 0 <= i < |o.elems| && m == (o.elems[i], p.elems[i]);
        assert Child(o, At(i)) == Some(m.0) && Child(p, At(i)) == Some(m.1);
      } else {
        var k :| k in o.fields && m == (o.fields[k], p.fields[k]);
        assert Child(o, Of(k)) == Some(m.0) && Child(p, Of(k)) == Some(m.1);
      }
    }
  }

  lemma StepIff(h: Graph, p: (nat, nat), q: (nat, nat))
    requires p.0 in h && p.1 in h && SameShape(h[p.0], h[p.1])
    ensures Step(h, p, q) <==> (Ref(q.0), Ref(q.1)) in Members(h[p.0], h[p.1]) && q.0 != q.1
  {
    MemberIff(h[p.0], h[p.1], (Ref(q.0), Ref(q.1)));
  }

  lemma StepStays(h: Graph, p: (nat, nat), q: (nat, nat))
    requires Closed(h) && Step(h, p, q)
    ensures q.0 in h && q.1 in h
  {
    assert ClosedAt(h, h[p.0]) && ClosedAt(h, h[p.1]);
  }

  /** A walk on both sides at once that comes back to no object on the left. */
  ghost predicate Walk(h: Graph, x: nat, y: nat, w: seq<(nat, nat)>) {
    && |w| > 0 && w[0] == (x, y)
    && (forall i :: 0 < i < |w| ==> Step(h, w[i - 1], w[i]))
    && forall i, j :: 0 <= i < j < |w| ==> w[i].0 != w[j].0
  }

  /** Whenever the left side of a walk steps back to where it was, so does the right side. */
  ghost predicate ClosesTogether(h: Graph, x: nat, y: nat) {
    forall w: seq<(nat, nat)>, q: (nat, nat), i :: Walk(h, x, y, w) && Step(h, w[|w| - 1], q) && 0 <= i < |w| && w[i].0 == q.0 ==> w[i].1 == q.1
  }

  function Lefts(w: seq<(nat, nat)>): (s: seq<nat>)
    ensures |s| == |w|
  {
    seq(|w|, i requires 0 <= i < |w| => w[i].0)
  }

  function Rights(w: seq<(nat, nat)>): (s: seq<nat>)
    ensures |s| == |w|
  {
    seq(|w|, i requires 0 <= i < |w| => w[i].1)
  }

  lemma LeftsSplit(w: seq<(nat, nat)>)
    requires w != []
    ensures var n := |w| - 1;
            Lefts(w[..n]) + [w[n].0] == Lefts(w) && Rights(w[..n]) + [w[n].1] == Rights(w)
  {
  }

  lemma WalkOn(h: Graph, x: nat, y: nat, w: seq<(nat, nat)>, q: (nat, nat))
    requires Walk(h, x, y, w) && Step(h, w[|w| - 1], q) && q.0 !in Lefts(w)
    ensures Walk(h, x, y, w + [q]) && (w + [q])[..|w|] == w
  {
    hide Step;
    forall i | 0 <= i < |w| ensures w[i].0 != q.0 {
      assert Lefts(w)[i] == w[i].0;
    }
  }

  /** The comparison of the pair that a walk ends in, with the rest of the walk on the stacks. */
  ghost predicate Compared(h: Graph, w: seq<(nat, nat)>)
    requires Closed(h) && |w| > 0
  {
    var n := |w| - 1;
    w[n].0 in h && w[n].1 in h && DeepSame(h, w[n].0, w[n].1, Lefts(w[..n]), Rights(w[..n]))
  }

  lemma WalkStays(h: Graph, x: nat, y: nat, w: seq<(nat, nat)>)
    requires Closed(h) && x in h && y in h && Walk(h, x, y, w)
    ensures w[|w| - 1].0 in h && w[|w| - 1].1 in h
  {
    var n := |w| - 1;
    if n > 0 {
      StepStays(h, w[n - 1], w[n]);
    }
  }

  /** The end of a walk is not on the stack, so its members are compared with the whole walk there. */
  lemma ComparedMembers(h: Graph, x: nat, y: nat, w: seq<(nat, nat)>)
    requires Closed(h) && x in h && y in h && Walk(h, x, y, w)
    ensures w[|w| - 1].0 in h && w[|w| - 1].1 in h
    ensures var p := w[|w| - 1];
            Compared(h, w) <==>
            SameShape(h[p.0], h[p.1]) &&
            forall m :: m in Members(h[p.0], h[p.1]) ==>
              MembersIn(h, p.0, p.1, m) && Same(h, m.0, m.1, Lefts(w), Rights(w))
  {
    WalkStays(h, x, y, w);
    LeftsSplit(w);
  }

  /** A true answer compares the end of every walk. */
  lemma {:induction false} SameCompares(h: Graph, x: nat, y: nat, w: seq<(nat, nat)>)
    requires Closed(h) && x in h && y in h && DeepSame(h, x, y, [], []) && Walk(h, x, y, w)
    ensures Compared(h, w)
    decreases |w|
  {
    WalkStays(h, x, y, w);
    var n := |w| - 1;
    if n > 0 {
      var v := w[..n];
      assert Walk(h, x, y, v) && Step(h, v[n - 1], w[n]);
      SameCompares(h, x, y, v);
      ComparedMembers(h, x, y, v);
      StepIff(h, v[n - 1], w[n]);
      assert Same(h, Ref(w[n].0), Ref(w[n].1), Lefts(v), Rights(v));
    }
  }

  lemma SameCloses(h: Graph, x: nat, y: nat)
    requires Closed(h) && x in h && y in h && DeepSame(h, x, y, [], [])
    ensures ClosesTogether(h, x, y)
  {
    forall w: seq<(nat, nat)>, q: (nat, nat), i | Walk(h, x, y, w) && Step(h, w[|w| - 1], q) && 0 <= i < |w| && w[i].0 == q.0
      ensures w[i].1 == q.1
    {
      SameCompares(h, x, y, w);
      ComparedMembers(h, x, y, w);
      StepIff(h, w[|w| - 1], q);
      assert Same(h, Ref(q.0), Ref(q.1), Lefts(w), Rights(w));
      assert Lefts(w)[i] == q.0;
      var j := LastIndex(Lefts(w), q.0);
      assert Lefts(w)[j] == w[j].0 && Rights(w)[j] == w[j].1;
    }
  }

  lemma {:induction false} ClosesIsSame(h: Graph, x: nat, y: nat, r: set<(nat, nat)>, w: seq<(nat, nat)>)
    requires Closed(h) && x in h && y in h && ClosesTogether(h, x, y) && Progresses(h, r, r)
    requires Walk(h, x, y, w) && w[|w| - 1] in r
    ensures Compared(h, w)
    decreases Off(h, Lefts(w))
  {
    WalkStays(h, x, y, w);
    var p := w[|w| - 1];
    assert Progress(h, p, r);
    MembersClosed(h, p.0, p.1);
    forall m | m in Members(h[p.0], h[p.1])
      ensures MembersIn(h, p.0, p.1, m) && Same(h, m.0, m.1, Lefts(w), Rights(w))
    {
      if m.0 != m.1 {
        assert Related(r, m);
        var q := (m.0.id, m.1.id);
        StepIff(h, p, q);
        if q.0 in Lefts(w) {
          var i := LastIndex(Lefts(w), q.0);
          assert w[i].0 == q.0 && Rights(w)[i] == w[i].1;
          assert Progress(h, q, r);
        } else {
          WalkOn(h, x, y, w, q);
          LeftsSplit(w + [q]);
          OffShrinks(h, Lefts(w), q.0);
          ClosesIsSame(h, x, y, r, w + [q]);
        }
      }
    }
    ComparedMembers(h, x, y, w);
  }

  /**
   The answer on all graphs: it is true exactly if nothing tells the two sides apart and every way
   round on the left is one on the right.
   */
  lemma SameIff(h: Graph, a: Value, b: Value)
    requires Closed(h) && InGraph(h, a) && InGraph(h, b)
    ensures Same(h, a, b, [], []) <==>
            Bisimilar(h, a, b) && (a.Ref? && b.Ref? && a != b ==> ClosesTogether(h, a.id, b.id))
  {
    if Same(h, a, b, [], []) {
      TrueMeansBisimilar(h, a, b);
      if a != b {
        SameCloses(h, a.id, b.id);
      }
    }
    if r :| a != b && Progresses(h, r, r) && Related(r, (a, b)) && ClosesTogether(h, a.id, b.id) {
      var w := [(a.id, b.id)];
      ClosesIsSame(h, a.id, b.id, r, w);
      assert Lefts(w[..0]) == [] && Rights(w[..0]) == [];
    }
  }

  // ---------------------------------------------------------------- what can be read

  /** What a reader of a value sees, without looking into what it holds. */
  datatype Reading = Absent | Primitive(p: int) | ArrayOf(length: nat) | ObjectWith(keys: set<string>)

  /** What is found at the end of a path of indexes and keys. */
  function Read(h: Graph, v: Value, path: seq<Part>): Reading
    decreases |path|
  {
    if v.Prim? then if path == [] then Primitive(v.p) else Absent
    else if v.id !in h then Absent
    else if path == [] then
      match h[v.id]
      case Arr(elems) => ArrayOf(|elems|)
      case Plain(fields) => ObjectWith(fields.Keys)
    else
      match Child(h[v.id], path[0])
      case Some(w) => Read(h, w, path[1..])
      case None => Absent
  }

  /** Every path reads the same on both sides. */
  ghost predicate ReadsSame(h: Graph, a: Value, b: Value) {
    forall path :: Read(h, a, path) == Read(h, b, path)
  }

  lemma ReadMember(h: Graph, v: Value, w: Value, part: Part, path: seq<Part>)
    requires v.Ref? && v.id in h && Child(h[v.id], part) == Some(w)
    ensures Read(h, v, [part] + path) == Read(h, w, path)
  {
    assert ([part] + path)[1..] == path;
  }

  /** A bisimulation reads the same along every path. */
  lemma {:induction false} RelatedReads(h: Graph, r: set<(nat, nat)>, a: Value, b: Value, path: seq<Part>)
    requires Progresses(h, r, r) && Related(r, (a, b))
    ensures Read(h, a, path) == Read(h, b, path)
    decreases |path|
  {
    if a != b {
      assert Progress(h, (a.id, b.id), r);
      if path != [] {
        var v, w := Child(h[a.id], path[0]), Child(h[b.id], path[0]);
        if v.Some? && w.Some? {
          MemberIff(h[a.id], h[b.id], (v.value, w.value));
          assert Related(r, (v.value, w.value));
          RelatedReads(h, r, v.value, w.value, path[1..]);
        }
      }
    }
  }

  /** The pairs of objects that read the same. */
  ghost function Alike(h: Graph): set<(nat, nat)> {
    set x, y | x in h && y in h && ReadsSame(h, Ref(x), Ref(y)) :: (x, y)
  }

  lemma AlikeProgress(h: Graph, p: (nat, nat))
    requires Closed(h) && p in Alike(h)
    ensures Progress(h, p, Alike(h))
  {
    var x, y := p.0, p.1;
    hide ReadsSame;
    ShapeRead(h, x, y);
    MembersClosed(h, x, y);
    forall m | m in Members(h[x], h[y]) ensures Related(Alike(h), m) {
      assert MembersIn(h, x, y, m);
      MemberIff(h[x], h[y], m);
      var part :| Child(h[x], part) == Some(m.0) && Child(h[y], part) == Some(m.1);
      MemberReads(h, x, y, m, part);
      SameOrAlike(h, m.0, m.1);
    }
  }

  lemma ShapeRead(h: Graph, x: nat, y: nat)
    requires x in h && y in h && ReadsSame(h, Ref(x), Ref(y))
    ensures SameShape(h[x], h[y])
  {
    assert Read(h, Ref(x), []) == Read(h, Ref(y), []);
  }

  lemma MemberReads(h: Graph, x: nat, y: nat, m: (Value, Value), part: Part)
    requires x in h && y in h && ReadsSame(h, Ref(x), Ref(y))
    requires Child(h[x], part) == Some(m.0) && Child(h[y], part) == Some(m.1)
    ensures ReadsSame(h, m.0, m.1)
  {
    forall path ensures Read(h, m.0, path) == Read(h, m.1, path) {
      ReadMember(h, Ref(x), m.0, part, path);
      ReadMember(h, Ref(y), m.1, part, path);
    }
  }

  lemma SameOrAlike(h: Graph, a: Value, b: Value)
    requires InGraph(h, a) && InGraph(h, b) && ReadsSame(h, a, b)
    ensures Related(Alike(h), (a, b))
  {
    assert Read(h, a, []) == Read(h, b, []);
  }

  /** Nothing tells two values apart if and only if every path reads the same, cyclic or not. */
  lemma BisimilarIff(h: Graph, a: Value, b: Value)
    requires Closed(h) && InGraph(h, a) && InGraph(h, b)
    ensures Bisimilar(h, a, b) <==> ReadsSame(h, a, b)
  {
    if r :| Progresses(h, r, r) && Related(r, (a, b)) {
      forall path ensures Read(h, a, path) == Read(h, b, path) {
        RelatedReads(h, r, a, b, path);
      }
    }
    if ReadsSame(h, a, b) {
      hide Progress, ReadsSame;
      forall p | p in Alike(h) ensures Progress(h, p, Alike(h)) {
        AlikeProgress(h, p);
      }
      SameOrAlike(h, a, b);
    }
  }

  /**
   The answer in terms of what can be read: true exactly if every path of indexes and keys finds the
   same on both sides, absence, lengths and sets of keys included, and the ways round close together.
   */
  lemma AnswerIff(h: Graph, a: Value, b: Value)
    requires Closed(h) && InGraph(h, a) && InGraph(h, b)
    ensures Same(h, a, b, [], []) <==>
            ReadsSame(h, a, b) && (a.Ref? && b.Ref? && a != b ==> ClosesTogether(h, a.id, b.id))
  {
    hide Same, ReadsSame, Bisimilar;
    SameIff(h, a, b);
    BisimilarIff(h, a, b);
  }

  /** At the top: objects that are found equal are of the same class, and as long or with the same keys. */
  lemma EqualShapes(h: Graph, x: nat, y: nat)
    requires Closed(h) && x in h && y in h && Same(h, Ref(x), Ref(y), [], [])
    ensures h[x].Arr? == h[y].Arr?
    ensures h[x].Arr? ==> |h[x].elems| == |h[y].elems|
    ensures h[x].Plain? ==> forall k :: k in h[x].fields <==> k in h[y].fields
  {
    AnswerIff(h, Ref(x), Ref(y));
    hide Same;
    assert Read(h, Ref(x), []) == Read(h, Ref(y), []);
  }

  // ---------------------------------------------------------------- values without cycles

  /** The objects of d lead only to objects of d of lower rank: there is no way round. */
  ghost predicate Ranked(h: Graph, d: set<nat>, rank: map<nat, nat>) {
    && d <= h.Keys && d <= rank.Keys
    && forall x, m :: x in d && m in Members(h[x], h[x]) && m.0.Ref? ==> m.0.id in d && rank[m.0.id] < rank[x]
  }

  /** Structural equality, which need not terminate in general, does here. */
  ghost predicate Structural(h: Graph, d: set<nat>, rank: map<nat, nat>, a: Value, b: Value)
    requires Closed(h) && Ranked(h, d, rank) && (a.Ref? ==> a.id in d) && InGraph(h, b)
    decreases if a.Ref? then rank[a.id] + 1 else 0
  {
    if a.Prim? || b.Prim? then a == b
    else
      SameShape(h[a.id], h[b.id]) &&
      forall m :: m in Members(h[a.id], h[b.id]) ==>
        Lower(h, d, rank, a.id, m) && Structural(h, d, rank, m.0, m.1)
  }

  ghost predicate Lower(h: Graph, d: set<nat>, rank: map<nat, nat>, x: nat, m: (Value, Value))
    requires d <= rank.Keys && x in d
  {
    InGraph(h, m.1) && (m.0.Ref? ==> m.0.id in d && rank[m.0.id] < rank[x])
  }

  lemma MembersLower(h: Graph, d: set<nat>, rank: map<nat, nat>, x: nat, y: nat)
    requires Closed(h) && Ranked(h, d, rank) && x in d && y in h && SameShape(h[x], h[y])
    ensures forall m :: m in Members(h[x], h[y]) ==> Lower(h, d, rank, x, m) && MembersIn(h, x, y, m)
  {
    MembersClosed(h, x, y);
    forall m | m in Members(h[x], h[y]) ensures Lower(h, d, rank, x, m) {
      assert (m.0, m.0) in Members(h[x], h[x]);
    }
  }

  lemma {:induction false} StructuralReflexive(h: Graph, d: set<nat>, rank: map<nat, nat>, a: Value)
    requires Closed(h) && Ranked(h, d, rank) && (a.Ref? ==> a.id in d)
    ensures Structural(h, d, rank, a, a)
    decreases if a.Ref? then rank[a.id] + 1 else 0
  {
    if a.Ref? {
      MembersLower(h, d, rank, a.id, a.id);
      forall m | m in Members(h[a.id], h[a.id]) ensures Structural(h, d, rank, m.0, m.1) {
        assert m.0 == m.1 && Lower(h, d, rank, a.id, m);
        StructuralReflexive(h, d, rank, m.0);
      }
    }
  }

  /** With no way round nothing is ever found on the stack. */
  lemma {:induction false} SameIsStructural(h: Graph, d: set<nat>, rank: map<nat, nat>, a: Value, b: Value,
                                            aStack: seq<nat>, bStack: seq<nat>)
    requires Closed(h) && Ranked(h, d, rank) && (a.Ref? ==> a.id in d) && InGraph(h, b) && |aStack| == |bStack|
    requires a.Ref? ==> forall i :: 0 <= i < |aStack| ==> aStack[i] in d && rank[a.id] < rank[aStack[i]]
    ensures InGraph(h, a) && (Same(h, a, b, aStack, bStack) <==> Structural(h, d, rank, a, b))
    decreases if a.Ref? then rank[a.id] + 1 else 0
  {
    if a.Ref? && a == b {
      StructuralReflexive(h, d, rank, a);
    } else if a.Ref? && b.Ref? && SameShape(h[a.id], h[b.id]) {
      var x, y := a.id, b.id;
      var as', bs' := aStack + [x], bStack + [y];
      MembersLower(h, d, rank, x, y);
      forall m | m in Members(h[x], h[y])
        ensures Lower(h, d, rank, x, m) && MembersIn(h, x, y, m) && (Same(h, m.0, m.1, as', bs') <==> Structural(h, d, rank, m.0, m.1)) {
        SameIsStructural(h, d, rank, m.0, m.1, as', bs');
      }
    }
  }

  /** With no way round on the left there is nothing to close. */
  lemma {:induction false} RanksFall(h: Graph, d: set<nat>, rank: map<nat, nat>, x: nat, y: nat, w: seq<(nat, nat)>, i: nat)
    requires Ranked(h, d, rank) && x in d && Walk(h, x, y, w) && i < |w|
    ensures w[|w| - 1].0 in d && w[i].0 in d && rank[w[|w| - 1].0] <= rank[w[i].0]
    decreases |w|
  {
    var n := |w| - 1;
    if n > 0 {
      RanksFall(h, d, rank, x, y, w[..n], if i < n then i else 0);
      assert Step(h, w[n - 1], w[n]);
      StepFalls(h, d, rank, w[n - 1], w[n]);
    }
  }

  lemma StepFalls(h: Graph, d: set<nat>, rank: map<nat, nat>, p: (nat, nat), q: (nat, nat))
    requires Ranked(h, d, rank) && p.0 in d && Step(h, p, q)
    ensures q.0 in d && rank[q.0] < rank[p.0]
  {
    MemberIff(h[p.0], h[p.0], (Ref(q.0), Ref(q.0)));
  }

  /** On a value without cycles, whatever it is compared with, the answer is structural equality. */
  lemma AcyclicAnswer(h: Graph, d: set<nat>, rank: map<nat, nat>, a: Value, b: Value)
    requires Closed(h) && Ranked(h, d, rank) && (a.Ref? ==> a.id in d) && InGraph(h, b)
    ensures InGraph(h, a) && (Same(h, a, b, [], []) <==> Structural(h, d, rank, a, b))
    ensures Same(h, a, b, [], []) <==> Bisimilar(h, a, b)
    ensures Same(h, a, b, [], []) <==> ReadsSame(h, a, b)
  {
    SameIsStructural(h, d, rank, a, b, [], []);
    hide ReadsSame;
    BisimilarIff(h, a, b);
    hide Same, Structural;
    SameIff(h, a, b);
    if a.Ref? && b.Ref? {
      forall w: seq<(nat, nat)>, q: (nat, nat), i | Walk(h, a.id, b.id, w) && Step(h, w[|w| - 1], q) && 0 <= i < |w| ensures w[i].0 != q.0 {
        RanksFall(h, d, rank, a.id, b.id, w, i);
        StepFalls(h, d, rank, w[|w| - 1], q);
      }
    }
  }

  // ---------------------------------------------------------------- values with cycles

  ghost predicate Functional(r: set<(nat, nat)>) {
    forall p, q :: p in r && q in r && p.0 == q.0 ==> p.1 == q.1
  }

  /** Graphs that correspond by a function, copies for example, are equal, cyclic or not. */
  lemma FunctionalIsSame(h: Graph, a: Value, b: Value, r: set<(nat, nat)>)
    requires Closed(h) && InGraph(h, a) && InGraph(h, b)
    requires Progresses(h, r, r) && Functional(r) && Related(r, (a, b))
    ensures Same(h, a, b, [], [])
  {
    SameIff(h, a, b);
    hide Same;
    if a != b {
      forall w: seq<(nat, nat)>, q: (nat, nat), i | Walk(h, a.id, b.id, w) && Step(h, w[|w| - 1], q) && 0 <= i < |w| && w[i].0 == q.0
        ensures w[i].1 == q.1
      {
        WalkRelated(h, a.id, b.id, r, w, i);
        WalkRelated(h, a.id, b.id, r, w, |w| - 1);
        assert Progress(h, w[|w| - 1], r);
        StepIff(h, w[|w| - 1], q);
        assert Related(r, (Ref(q.0), Ref(q.1)));
      }
    }
  }

  lemma {:induction false} WalkRelated(h: Graph, x: nat, y: nat, r: set<(nat, nat)>, w: seq<(nat, nat)>, i: nat)
    requires Progresses(h, r, r) && (x, y) in r && Walk(h, x, y, w) && i < |w|
    ensures w[i] in r
  {
    if i > 0 {
      WalkRelated(h, x, y, r, w, i - 1);
      assert Progress(h, w[i - 1], r);
      StepIff(h, w[i - 1], w[i]);
      assert Related(r, (Ref(w[i].0), Ref(w[i].1)));
    }
  }

  /** An object that holds itself, and two objects that hold one another. */
  function Loops(): Graph {
    map[0 := Plain(map["x" := Ref(0)]), 1 := Plain(map["x" := Ref(2)]), 2 := Plain(map["x" := Ref(1)])]
  }

  lemma LoopsMembers(y: nat)
    requires y == 1 || y == 2
    ensures SameShape(Loops()[0], Loops()[y]) && Members(Loops()[0], Loops()[y]) == {(Ref(0), Ref(3 - y))}
  {
    assert "x" in Loops()[0].fields;
  }

  /** Nothing tells the first from the second, but the answer is false: one round is shorter. */
  lemma BisimilarButDifferent()
    ensures var h := Loops();
            Closed(h) && Bisimilar(h, Ref(0), Ref(1)) && !ClosesTogether(h, 0, 1) && !Same(h, Ref(0), Ref(1), [], [])
  {
    var h, r, w := Loops(), {(0, 1), (0, 2)}, [(0, 1)];
    forall x | x in h ensures ClosedAt(h, h[x]) {
    }
    LoopsMembers(1);
    LoopsMembers(2);
    hide Members, Same, ClosedAt;
    assert Progress(h, (0, 1), r) && Progress(h, (0, 2), r);
    StepIff(h, (0, 1), (0, 2));
    assert Walk(h, 0, 1, w) && Step(h, w[|w| - 1], (0, 2)) && w[0].0 == 0;
    assert Related(r, (Ref(0), Ref(1)));
    SameIff(h, Ref(0), Ref(1));
  }

  // ---------------------------------------------------------------- the comparison

  class Comparison {
    const h: Graph
    var aStack: seq<nat>
    var bStack: seq<nat>

    constructor (h: Graph)
      ensures this.h == h && aStack == [] && bStack == []
    {
      this.h, aStack, bStack := h, [], [];
    }

    method Eq(a: Value, b: Value) returns (r: bool)
      requires Closed(h) && InGraph(h, a) && InGraph(h, b) && |aStack| == |bStack|
      modifies this`aStack, this`bStack
      ensures r == Same(h, a, b, old(aStack), old(bStack))
      ensures r ==> aStack == old(aStack) && bStack == old(bStack)
      decreases Off(h, aStack), 2
    {
      if a == b {
        return true;
      }
      if a.Prim? || b.Prim? {
        return false;
      }
      r := Deep(a.id, b.id);
    }

    method Deep(x: nat, y: nat) returns (r: bool)
      requires Closed(h) && x in h && y in h && |aStack| == |bStack|
      modifies this`aStack, this`bStack
      ensures r == DeepSame(h, x, y, old(aStack), old(bStack))
      ensures r ==> aStack == old(aStack) && bStack == old(bStack)
      decreases Off(h, aStack), 1
    {
      if h[x].Arr? != h[y].Arr? {
        return false;
      }
      var length := |aStack|;
      assert aStack[..length] == aStack;
      while length > 0
        invariant 0 <= length <= |aStack| && aStack == old(aStack) && bStack == old(bStack)
        invariant LastIndex(aStack[..length], x) == LastIndex(aStack, x)
      {
        length := length - 1;
        assert aStack[..length + 1][..length] == aStack[..length];
        if aStack[length] == x {
          return bStack[length] == y;
        }
      }
      OffShrinks(h, aStack, x);
      aStack, bStack := aStack + [x], bStack + [y];
      if h[x].Arr? {
        r := Elements(x, y);
      } else {
        r := Properties(x, y);
      }
      if r {
        aStack, bStack := aStack[..|aStack| - 1], bStack[..|bStack| - 1];
      }
    }

    ghost predicate AllSame(x: nat, y: nat, aStack: seq<nat>, bStack: seq<nat>)
      requires Closed(h) && x in h && y in h && |aStack| == |bStack|
    {
      SameShape(h[x], h[y]) &&
      forall m :: m in Members(h[x], h[y]) ==> MembersIn(h, x, y, m) && Same(h, m.0, m.1, aStack, bStack)
    }

    /** Arrays are compared from the back. */
    method Elements(x: nat, y: nat) returns (r: bool)
      requires Closed(h) && x in h && y in h && |aStack| == |bStack| && h[x].Arr? && h[y].Arr?
      modifies this`aStack, this`bStack
      ensures r == AllSame(x, y, old(aStack), old(bStack))
      ensures r ==> aStack == old(aStack) && bStack == old(bStack)
      decreases Off(h, aStack), 3
    {
      var a, b := h[x].elems, h[y].elems;
      var length := |a|;
      if length != |b| {
        return false;
      }
      MembersClosed(h, x, y);
      while length > 0
        invariant 0 <= length <= |a| && aStack == old(aStack) && bStack == old(bStack)
        invariant forall i :: length <= i < |a| ==> InGraph(h, a[i]) && InGraph(h, b[i]) && Same(h, a[i], b[i], aStack, bStack)
      {
        length := length - 1;
        assert (a[length], b[length]) in Members(h[x], h[y]);
        assert MembersIn(h, x, y, (a[length], b[length]));
        r := Eq(a[length], b[length]);
        if !r {
          return false;
        }
      }
      return true;
    }

    /** Properties are compared in whatever order they come. */
    method Properties(x: nat, y: nat) returns (r: bool)
      requires Closed(h) && x in h && y in h && |aStack| == |bStack| && h[x].Plain? && h[y].Plain?
      modifies this`aStack, this`bStack
      ensures r == AllSame(x, y, old(aStack), old(bStack))
      ensures r ==> aStack == old(aStack) && bStack == old(bStack)
      decreases Off(h, aStack), 3
    {
      var a, b := h[x].fields, h[y].fields;
      if |a| != |b| {
        return false;
      }
      var todo := a.Keys;
      while todo != {}
        invariant todo <= a.Keys && aStack == old(aStack) && bStack == old(bStack)
        invariant forall k :: k in a && k !in todo ==> k in b && Equal(a[k], b[k])
        decreases todo
      {
        var key :| key in todo;
        assert ClosedAt(h, h[x]) && ClosedAt(h, h[y]);
        if key !in b {
          return false;
        }
        r := Eq(a[key], b[key]);
        if !r {
          SomeDiffer(x, y, key, aStack, bStack);
          return false;
        }
        todo := todo - {key};
      }
      SubsetSize(a.Keys, b.Keys);
      return true;
    }

    ghost predicate Equal(v: Value, w: Value)
      reads this
    {
      Closed(h) && InGraph(h, v) && InGraph(h, w) && |aStack| == |bStack| && Same(h, v, w, aStack, bStack)
    }

    lemma SomeDiffer(x: nat, y: nat, key: string, aStack: seq<nat>, bStack: seq<nat>)
      requires x in h && y in h && h[x].Plain? && h[y].Plain? && key in h[x].fields && key in h[y].fields
      ensures SameShape(h[x], h[y]) ==> (h[x].fields[key], h[y].fields[key]) in Members(h[x], h[y])
    {
    }
  }
}
