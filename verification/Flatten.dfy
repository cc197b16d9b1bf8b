/** Underscore's `flatten`, which appends to one output from all depths. */
module Flatten {
  import opened Wrappers

  datatype Value = Item(n: int) | List(values: seq<Value>)

  datatype Depth = Finite(n: int) | Infinite

  predicate Above(d: Depth, n: int) {
    d.Infinite? || d.n > n
  }

  function Less(d: Depth): Depth {
    if d.Infinite? then Infinite else Finite(d.n - 1)
  }

  function Plus(d: Depth, e: Depth): Depth {
    if d.Infinite? || e.Infinite? then Infinite else Finite(d.n + e.n)
  }

  /** d levels of nesting are opened; in strict mode what is not nested deep enough is dropped. */
  function Flat(input: seq<Value>, d: Depth, strict: bool): seq<Value>
    decreases input
  {
    if input == [] || !Above(d, 0) then input
    else Piece(input[0], d, strict) + Flat(input[1..], d, strict)
  }

  function Piece(v: Value, d: Depth, strict: bool): seq<Value>
    requires Above(d, 0)
    decreases v
  {
    match v
    case List(values) => Flat(values, Less(d), strict)
    case Item(_) => if strict then [] else [v]
  }

  lemma Associates<T>(a: seq<T>, b: seq<T>, c: seq<T>)
    ensures a + (b + c) == a + b + c
  {
  }

  lemma {:induction false} FlatConcat(a: seq<Value>, b: seq<Value>, d: Depth, strict: bool)
    ensures Flat(a + b, d, strict) == Flat(a, d, strict) + Flat(b, d, strict)
    decreases |a|
  {
    if a == [] {
      assert a + b == b;
    } else if Above(d, 0) {
      hide Piece;
      FlatConcat(a[1..], b, d, strict);
      assert (a + b)[0] == a[0] && (a + b)[1..] == a[1..] + b;
      Associates(Piece(a[0], d, strict), Flat(a[1..], d, strict), Flat(b, d, strict));
    }
  }

  lemma FlatOne(v: Value, d: Depth, strict: bool)
    ensures Flat([v], d, strict) == if Above(d, 0) then Piece(v, d, strict) else [v]
  {
    assert [v][1..] == [];
  }

  lemma NothingFlat(d: Depth, strict: bool)
    ensures Flat([], d, strict) == []
  {
  }

  /** The loop goes on by one value. */
  lemma FlatNext(input: seq<Value>, i: nat, d: Depth, strict: bool)
    requires i < |input| && Above(d, 0)
    ensures Flat(input[..i + 1], d, strict) == Flat(input[..i], d, strict) + Piece(input[i], d, strict)
  {
    assert input[..i + 1] == input[..i] + [input[i]];
    FlatConcat(input[..i], [input[i]], d, strict);
    FlatOne(input[i], d, strict);
  }

  /** Opening d levels and then e levels is opening d + e levels, in either mode. */
  lemma {:induction false} FlatTwice(input: seq<Value>, d: Depth, e: Depth, strict: bool)
    requires Above(d, -1) && Above(e, -1)
    ensures Flat(Flat(input, d, strict), e, strict) == Flat(input, Plus(d, e), strict)
    decreases input
  {
    if input != [] && Above(d, 0) {
      var v, rest := input[0], input[1..];
      FlatTwice(rest, d, e, strict);
      PieceTwice(v, d, e, strict);
      FlatConcat(Piece(v, d, strict), Flat(rest, d, strict), e, strict);
    }
  }

  lemma {:induction false} PieceTwice(v: Value, d: Depth, e: Depth, strict: bool)
    requires Above(d, 0) && Above(e, -1)
    ensures Flat(Piece(v, d, strict), e, strict) == Piece(v, Plus(d, e), strict)
    decreases v
  {
    match v {
      case List(values) => FlatTwice(values, Less(d), e, strict);
      case Item(_) =>
        FlatOne(v, e, strict);
    }
  }

  predicate Flattened(s: seq<Value>, strict: bool) {
    if strict then s == [] else forall i :: 0 <= i < |s| ==> s[i].Item?
  }

  lemma FlattenedBoth(a: seq<Value>, b: seq<Value>, strict: bool)
    requires Flattened(a, strict) && Flattened(b, strict)
    ensures Flattened(a + b, strict)
  {
  }

  /** Without a bound no list is left, and in strict mode nothing is. */
  lemma {:induction false} FullyFlat(input: seq<Value>, strict: bool)
    ensures Flattened(Flat(input, Infinite, strict), strict)
    decreases input
  {
    if input != [] {
      FullyFlat(input[1..], strict);
      if input[0].List? {
        FullyFlat(input[0].values, strict);
      }
      var a, b := Piece(input[0], Infinite, strict), Flat(input[1..], Infinite, strict);
      assert Flattened(a, strict) && Flattened(b, strict);
      assert Flat(input, Infinite, strict) == a + b;
      FlattenedBoth(a, b, strict);
    }
  }

  /** How deep lists are nested. */
  function Height(input: seq<Value>): nat
    decreases input
  {
    if input == [] then 0
    else
      var h := match input[0] case List(values) => Height(values) + 1 case Item(_) => 0;
      var t := Height(input[1..]);
      if h > t then h else t
  }

  /** A bound that no list is nested beyond is no bound. */
  lemma {:induction false} DeepEnough(input: seq<Value>, n: nat)
    requires Height(input) <= n
    ensures Flat(input, Finite(n), false) == Flat(input, Infinite, false)
    decreases input
  {
    if input != [] {
      DeepEnough(input[1..], n);
      match input[0] {
        case List(values) => DeepEnough(values, n - 1);
        case Item(_) =>
          if n == 0 {
            assert input == [input[0]] + input[1..];
          }
      }
    }
  }

  /** Opening no level is `concat`: nothing is dropped, strict or not. */
  lemma NoDepth(input: seq<Value>, d: Depth, strict: bool)
    requires !Above(d, 0)
    ensures Flat(input, d, strict) == input
  {
  }

  /** What the caller gives for a depth: a number, or something else that is falsy. */
  function DepthOf(depth: Option<int>): Depth {
    if depth.Some? then Finite(depth.value) else Infinite
  }

  // ---------------------------------------------------------------- levels

  /** A value and how many lists it lies in. */
  datatype Placed = Placed(value: Value, level: nat)

  /** All values at all levels, in the order of the text, lists in front of what they hold. */
  function Listing(input: seq<Value>, level: nat): seq<Placed>
    decreases input
  {
    if input == [] then []
    else
      [Placed(input[0], level)]
      + (match input[0] case List(values) => Listing(values, level + 1) case Item(_) => [])
      + Listing(input[1..], level)
  }

  /**
   What stays: with a depth, what lies at exactly that level, and unless strict the items above it;
   without one the items, and in strict mode nothing.
   */
  predicate Stays(x: Placed, depth: Option<int>, strict: bool) {
    if depth.None? then x.value.Item? && !strict
    else
      var level := if depth.value < 0 then 0 else depth.value;
      x.level == level || (x.level < level && x.value.Item? && !strict)
  }

  function Staying(xs: seq<Placed>, depth: Option<int>, strict: bool): seq<Value> {
    if xs == [] then []
    else (if Stays(xs[0], depth, strict) then [xs[0].value] else []) + Staying(xs[1..], depth, strict)
  }

  lemma {:induction false} StayingConcat(a: seq<Placed>, b: seq<Placed>, depth: Option<int>, strict: bool)
    ensures Staying(a + b, depth, strict) == Staying(a, depth, strict) + Staying(b, depth, strict)
  {
    hide Stays;
    if a == [] {
      assert a + b == b;
    } else {
      StayingConcat(a[1..], b, depth, strict);
      assert (a + b)[0] == a[0] && (a + b)[1..] == a[1..] + b;
      var head := if Stays(a[0], depth, strict) then [a[0].value] else [];
      Associates(head, Staying(a[1..], depth, strict), Staying(b, depth, strict));
    }
  }

  lemma {:induction false} BelowIsGone(input: seq<Value>, level: nat, depth: int, strict: bool)
    requires depth < level && 0 < level
    ensures Staying(Listing(input, level), Some(depth), strict) == []
    decreases input
  {
    if input != [] {
      ListingOne(input, level, Some(depth), strict);
      BelowIsGone(input[1..], level, depth, strict);
      if input[0].List? {
        BelowIsGone(input[0].values, level + 1, depth, strict);
      }
    }
  }

  lemma ListingOne(input: seq<Value>, level: nat, depth: Option<int>, strict: bool)
    requires input != []
    ensures Staying(Listing(input, level), depth, strict)
         == (if Stays(Placed(input[0], level), depth, strict) then [input[0]] else [])
          + (match input[0] case List(values) => Staying(Listing(values, level + 1), depth, strict) case Item(_) => [])
          + Staying(Listing(input[1..], level), depth, strict)
  {
    hide Stays;
    var x := [Placed(input[0], level)];
    var inner := match input[0] case List(values) => Listing(values, level + 1) case Item(_) => [];
    StayingConcat(x + inner, Listing(input[1..], level), depth, strict);
    StayingConcat(x, inner, depth, strict);
    assert x[1..] == [];
  }

  lemma NothingListed(level: nat, depth: Option<int>, strict: bool)
    ensures Staying(Listing([], level), depth, strict) == []
  {
  }

  /** Flattening by n levels from level k on. */
  lemma {:induction false} FlatIsLevel(input: seq<Value>, n: nat, k: nat, strict: bool)
    ensures Flat(input, Finite(n), strict) == Staying(Listing(input, k), Some(n + k), strict)
    decreases input
  {
    hide Staying, Listing;
    if input == [] {
      NothingListed(k, Some(n + k), strict);
    } else {
      ListingOne(input, k, Some(n + k), strict);
      FlatIsLevel(input[1..], n, k, strict);
      if n == 0 {
        assert input == [input[0]] + input[1..];
        if input[0].List? {
          BelowIsGone(input[0].values, k + 1, k, strict);
        }
      } else if input[0].List? {
        FlatIsLevel(input[0].values, n - 1, k + 1, strict);
      }
    }
  }

  lemma {:induction false} FlatIsItems(input: seq<Value>, k: nat, strict: bool)
    ensures Flat(input, Infinite, strict) == Staying(Listing(input, k), None, strict)
    decreases input
  {
    hide Staying, Listing;
    if input == [] {
      NothingListed(k, None, strict);
    } else {
      ListingOne(input, k, None, strict);
      FlatIsItems(input[1..], k, strict);
      if input[0].List? {
        FlatIsItems(input[0].values, k + 1, strict);
      }
    }
  }

  /** For every depth that a caller may give, none, negative or 0 included, and in either mode. */
  lemma FlatIsListing(input: seq<Value>, depth: Option<int>, strict: bool)
    ensures Flat(input, DepthOf(depth), strict) == Staying(Listing(input, 0), depth, strict)
  {
    if depth.None? {
      FlatIsItems(input, 0, strict);
    } else if depth.value >= 0 {
      FlatIsLevel(input, depth.value, 0, strict);
    } else {
      FlatIsLevel(input, 0, 0, strict);
      SameStays(Listing(input, 0), depth.value, strict);
    }
  }

  lemma {:induction false} SameStays(xs: seq<Placed>, depth: int, strict: bool)
    requires depth < 0
    ensures Staying(xs, Some(depth), strict) == Staying(xs, Some(0), strict)
  {
    if xs != [] {
      SameStays(xs[1..], depth, strict);
    }
  }

  class Flattener {
    var output: seq<Value>

    constructor ()
      ensures output == []
    {
      output := [];
    }

    /** `output[ idx ] = value`, where idx is at most the length. */
    method Put(idx: nat, value: Value)
      requires idx <= |output|
      modifies this
      ensures output == if idx == |old(output)| then old(output) + [value] else old(output)[idx := value]
    {
      output := if idx == |output| then output + [value] else output[idx := value];
    }

    /** The loop: every write goes just behind what the output holds, also after a deeper call. */
    method Append(input: seq<Value>, depth: Depth, strict: bool)
      requires Above(depth, 0)
      modifies this
      ensures output == old(output) + Flat(input, depth, strict)
      decreases input
    {
      hide Flat;
      NothingFlat(depth, strict);
      var idx := |output|;
      for i := 0 to |input|
        invariant idx == |output| && output == old(output) + Flat(input[..i], depth, strict)
      {
        var value := input[i];
        FlatNext(input, i, depth, strict);
        if value.List? {
          if Above(depth, 1) {
            Append(value.values, Less(depth), strict);
            idx := |output|;
          } else {
            NoDepth(value.values, Less(depth), strict);
            idx := Copy(value.values, idx);
          }
        } else if !strict {
          Put(idx, value);
          idx := idx + 1;
        }
      }
      assert input[..|input|] == input;
    }

    method Copy(values: seq<Value>, start: nat) returns (idx: nat)
      requires start == |output|
      modifies this
      ensures output == old(output) + values && idx == |output|
    {
      var j := 0;
      idx := start;
      while j < |values|
        invariant 0 <= j <= |values| && idx == |output| && output == old(output) + values[..j]
      {
        Put(idx, values[j]);
        idx, j := idx + 1, j + 1;
      }
    }

    /** `flatten` with a new output. */
    method Start(input: seq<Value>, depth: Option<int>, strict: bool) returns (r: seq<Value>)
      modifies this
      ensures r == Staying(Listing(input, 0), depth, strict)
    {
      FlatIsListing(input, depth, strict);
      output := [];
      var d := DepthOf(depth);
      if !Above(d, 0) {
        return output + input;
      }
      Append(input, d, strict);
      return output;
    }
  }
}
