/**
 Skipping a field whose number the decoder does not know.  The code walks the bytes once and
 counts open groups; here the walk is tied to a grammar of complete fields.
 */
module Skipper {
  import opened Wrappers
  import opened Varint

  /** Where the walk stands: the next byte to look at, and how many groups are open. */
  datatype Place = Place(at: nat, depth: nat)

  /** The effect of a wire type on the walk; `at` is just behind the tag. */
  function SkipBody(s: seq<byte>, wireType: nat, p: Place): Result<Place, WireError>
    requires p.at <= |s|
  {
    match wireType
    case 0 =>
      (match ReadVarint(s[p.at..])
       case Ok(v) => Ok(p.(at := p.at + v.size))
       case Err(e) => Err(e))
    case 1 => Ok(p.(at := p.at + 8))
    case 2 =>
      (match ReadVarint(s[p.at..])
       case Ok(v) => if v.value >= TWO_63 then Err(InvalidLength) else Ok(p.(at := p.at + v.size + v.value))
       case Err(e) => Err(e))
    case 3 => Ok(p.(depth := p.depth + 1))
    case 4 => if p.depth == 0 then Err(UnexpectedEndOfGroup) else Ok(p.(depth := p.depth - 1))
    case 5 => Ok(p.(at := p.at + 4))
    case _ => Err(IllegalWireType)
  }

  /** One turn of the loop. An index past 2^63 has wrapped around to a negative one. */
  function SkipStep(s: seq<byte>, p: Place): (r: Result<Place, WireError>)
    requires p.at <= |s|
    ensures r.Ok? ==> r.value.at > p.at
  {
    match ReadVarint(s[p.at..])
    case Err(e) => Err(e)
    case Ok(tag) =>
      match SkipBody(s, tag.value % 8, p.(at := p.at + tag.size))
      case Err(e) => Err(e)
      case Ok(q) => if q.at >= TWO_63 then Err(InvalidLength) else Ok(q)
  }

  /** The loop from some place on. */
  function SkipFrom(s: seq<byte>, p: Place): (r: Result<nat, WireError>)
    ensures r.Ok? ==> r.value > p.at
    decreases |s| - p.at
  {
    if p.at >= |s| then Err(UnexpectedEOF)
    else
      match SkipStep(s, p)
      case Err(e) => Err(e)
      case Ok(q) => if q.depth == 0 then Ok(q.at) else SkipFrom(s, q)
  }

  /** The size of the field at the front of s. */
  function SkipSize(s: seq<byte>): (r: Result<nat, WireError>)
    ensures r.Ok? ==> r.value > 0
  {
    SkipFrom(s, Place(0, 0))
  }

  /** The switch on the wire type. */
  method SkipWireType(dAtA: seq<byte>, wireType: nat, at: nat, depth: nat) returns (r: Result<Place, WireError>)
    requires at <= |dAtA|
    ensures r == SkipBody(dAtA, wireType, Place(at, depth))
  {
    match wireType {
      case 0 =>
        var v := DecodeVarint(dAtA, at);
        if v.Err? {
          return Err(v.error);
        }
        return Ok(Place(v.value.size, depth));
      case 1 =>
        return Ok(Place(at + 8, depth));
      case 2 =>
        var v := DecodeVarint(dAtA, at);
        if v.Err? {
          return Err(v.error);
        }
        if v.value.value >= TWO_63 {
          return Err(InvalidLength);
        }
        return Ok(Place(v.value.size + v.value.value, depth));
      case 3 =>
        return Ok(Place(at, depth + 1));
      case 4 =>
        if depth == 0 {
          return Err(UnexpectedEndOfGroup);
        }
        return Ok(Place(at, depth - 1));
      case 5 =>
        return Ok(Place(at + 4, depth));
      case _ =>
        return Err(IllegalWireType);
    }
  }

  method Skip(dAtA: seq<byte>) returns (r: Result<nat, WireError>)
    ensures r == SkipSize(dAtA)
  {
    hide ReadVarint, SkipBody;
    var l, iNdEx, depth := |dAtA|, 0, 0;
    while iNdEx < l
      invariant 0 <= iNdEx && 0 <= depth
      invariant SkipSize(dAtA) == SkipFrom(dAtA, Place(iNdEx, depth))
    {
      var tag := DecodeVarint(dAtA, iNdEx);
      if tag.Err? {
        return Err(tag.error);
      }
      var place := SkipWireType(dAtA, tag.value.value % 8, tag.value.size, depth);
      if place.Err? {
        return Err(place.error);
      }
      iNdEx, depth := place.value.at, place.value.depth;
      if iNdEx >= TWO_63 {
        return Err(InvalidLength);
      }
      if depth == 0 {
        return Ok(iNdEx);
      }
    }
    return Err(UnexpectedEOF);
  }

  // ---------------------------------------------------------------- the grammar

  /** A complete field: a tag with its body, or a group of complete fields between two tags. */
  datatype Field =
    | Plain(tag: seq<byte>, body: seq<byte>)
    | Group(open: seq<byte>, fields: seq<Field>, close: seq<byte>)

  function Bytes(f: Field): seq<byte> {
    match f
    case Plain(tag, body) => tag + body
    case Group(open, fields, close) => open + AllBytes(fields) + close
  }

  function AllBytes(fs: seq<Field>): seq<byte> {
    if fs == [] then [] else Bytes(fs[0]) + AllBytes(fs[1..])
  }

  /** bs is a varint, all of it, whose low three bits are the wire type. */
  predicate IsTag(bs: seq<byte>, wireType: nat) {
    var v := ReadVarint(bs);
    v.Ok? && v.value.size == |bs| && v.value.value % 8 == wireType
  }

  predicate IsBody(bs: seq<byte>, wireType: nat) {
    match wireType
    case 0 => ReadVarint(bs).Ok? && ReadVarint(bs).value.size == |bs|
    case 1 => |bs| == 8
    case 2 =>
      var v := ReadVarint(bs);
      v.Ok? && v.value.value < TWO_63 && v.value.size + v.value.value == |bs|
    case 5 => |bs| == 4
    case _ => false
  }

  /** End-group tags close whatever group is open: their numbers are not compared. */
  predicate WellFormed(f: Field) {
    match f
    case Plain(tag, body) =>
      ReadVarint(tag).Ok? && IsTag(tag, ReadVarint(tag).value.value % 8) &&
      IsBody(body, ReadVarint(tag).value.value % 8)
    case Group(open, fields, close) =>
      IsTag(open, 3) && IsTag(close, 4) && AllWellFormed(fields)
  }

  predicate AllWellFormed(fs: seq<Field>) {
    fs == [] || (WellFormed(fs[0]) && AllWellFormed(fs[1..]))
  }

  /** bs stands in s at i. */
  predicate At(s: seq<byte>, i: nat, bs: seq<byte>) {
    i + |bs| <= |s| && s[i..i + |bs|] == bs
  }

  lemma AtSplit(s: seq<byte>, i: nat, front: seq<byte>, back: seq<byte>)
    ensures At(s, i, front + back) <==> At(s, i, front) && At(s, i + |front|, back)
  {
    if i + |front| + |back| <= |s| {
      var both := s[i..i + |front| + |back|];
      assert both[..|front|] == s[i..i + |front|];
      assert both[|front|..] == s[i + |front|..i + |front| + |back|];
      assert (front + back)[..|front|] == front && (front + back)[|front|..] == back;
    }
  }

  lemma VarintAt(s: seq<byte>, i: nat, bs: seq<byte>)
    requires At(s, i, bs) && ReadVarint(bs).Ok?
    ensures ReadVarint(s[i..]) == ReadVarint(bs)
  {
    ReadVarintStable(bs, s[i + |bs|..]);
    assert s[i..] == bs + s[i + |bs|..];
  }

  lemma VarintPrefix(bs: seq<byte>, n: nat)
    requires ReadVarint(bs).Ok? && ReadVarint(bs).value.size <= n <= |bs|
    ensures ReadVarint(bs[..n]) == ReadVarint(bs)
  {
    DigitsPrefix(bs, n, 0);
  }

  lemma {:induction false} DigitsPrefix(bs: seq<byte>, n: nat, k: nat)
    requires Digits(bs, k).Ok? && Digits(bs, k).value.size <= n <= |bs|
    ensures Digits(bs[..n], k) == Digits(bs, k)
    decreases |bs|
  {
    if bs[0] >= 0x80 {
      DigitsPrefix(bs[1..], n - 1, k + 1);
      assert bs[..n][1..] == bs[1..][..n - 1];
    }
  }

  // ---------------------------------------------------------------- complete fields are skipped

  /** Having walked bs from i at some depth. */
  function Past(s: seq<byte>, i: nat, bs: seq<byte>, depth: nat): Result<nat, WireError> {
    if depth == 0 then Ok(i + |bs|) else SkipFrom(s, Place(i + |bs|, depth))
  }

  lemma SkipTag(s: seq<byte>, i: nat, tag: seq<byte>, wireType: nat, depth: nat)
    requires At(s, i, tag) && IsTag(tag, wireType) && i + |tag| < TWO_63
    ensures wireType == 3 ==> SkipFrom(s, Place(i, depth)) == SkipFrom(s, Place(i + |tag|, depth + 1))
    ensures wireType == 4 && depth > 0 ==> SkipFrom(s, Place(i, depth)) == Past(s, i, tag, depth - 1)
  {
    VarintAt(s, i, tag);
  }

  lemma SkipBodyAt(s: seq<byte>, at: nat, body: seq<byte>, wireType: nat, depth: nat)
    requires At(s, at, body) && IsBody(body, wireType)
    ensures SkipBody(s, wireType, Place(at, depth)) == Ok(Place(at + |body|, depth))
  {
    if wireType == 0 || wireType == 2 {
      VarintAt(s, at, body);
    }
  }

  lemma SkipPlain(s: seq<byte>, i: nat, f: Field, depth: nat)
    requires f.Plain? && WellFormed(f) && At(s, i, Bytes(f)) && i + |Bytes(f)| < TWO_63
    ensures SkipFrom(s, Place(i, depth)) == Past(s, i, Bytes(f), depth)
  {
    hide SkipBody, IsBody, ReadVarint;
    AtSplit(s, i, f.tag, f.body);
    VarintAt(s, i, f.tag);
    SkipBodyAt(s, i + |f.tag|, f.body, ReadVarint(f.tag).value.value % 8, depth);
  }

  lemma {:induction false} SkipField(s: seq<byte>, i: nat, f: Field, depth: nat)
    requires WellFormed(f) && At(s, i, Bytes(f)) && i + |Bytes(f)| < TWO_63
    ensures SkipFrom(s, Place(i, depth)) == Past(s, i, Bytes(f), depth)
    decreases f, 1
  {
    hide SkipFrom, SkipStep, IsTag, IsBody, At;
    match f
    case Plain(_, _) => SkipPlain(s, i, f, depth);
    case Group(open, fields, close) =>
      var body := AllBytes(fields);
      AtSplit(s, i, open + body, close);
      AtSplit(s, i, open, body);
      SkipTag(s, i, open, 3, depth);
      SkipFields(s, i + |open|, fields, depth + 1);
      SkipTag(s, i + |open| + |body|, close, 4, depth + 1);
  }

  lemma {:induction false} SkipFields(s: seq<byte>, i: nat, fs: seq<Field>, depth: nat)
    requires AllWellFormed(fs) && At(s, i, AllBytes(fs)) && i + |AllBytes(fs)| < TWO_63 && depth > 0
    ensures SkipFrom(s, Place(i, depth)) == SkipFrom(s, Place(i + |AllBytes(fs)|, depth))
    decreases fs, 0
  {
    hide SkipFrom, WellFormed, At;
    if fs != [] {
      AtSplit(s, i, Bytes(fs[0]), AllBytes(fs[1..]));
      SkipField(s, i, fs[0], depth);
      SkipFields(s, i + |Bytes(fs[0])|, fs[1..], depth);
    }
  }

  // ---------------------------------------------------------------- what is skipped is complete

  /** The tag and body that one step at a closed place walked over. */
  lemma ParsePlain(s: seq<byte>, p: Place) returns (f: Field)
    requires p.at <= |s| && SkipStep(s, p).Ok? && SkipStep(s, p).value.depth == p.depth
    requires SkipStep(s, p).value.at <= |s|
    ensures WellFormed(f) && At(s, p.at, Bytes(f)) && SkipStep(s, p).value.at == p.at + |Bytes(f)|
  {
    hide ReadVarint;
    var tag := ReadVarint(s[p.at..]).value;
    var j, k := p.at + tag.size, SkipStep(s, p).value.at;
    f := Plain(s[p.at..j], s[j..k]);
    assert s[p.at..][..tag.size] == f.tag;
    VarintPrefix(s[p.at..], tag.size);
    if tag.value % 8 == 0 || tag.value % 8 == 2 {
      VarintPrefix(s[j..], k - j);
      assert s[j..][..k - j] == f.body;
    }
    assert Bytes(f) == s[p.at..k];
  }

  lemma ParseTag(s: seq<byte>, p: Place) returns (tag: seq<byte>)
    requires p.at <= |s| && SkipStep(s, p).Ok? && SkipStep(s, p).value.depth != p.depth
    ensures At(s, p.at, tag) && SkipStep(s, p).value.at == p.at + |tag| && |tag| > 0
    ensures IsTag(tag, if SkipStep(s, p).value.depth > p.depth then 3 else 4)
  {
    var n := ReadVarint(s[p.at..]).value.size;
    tag := s[p.at..p.at + n];
    assert s[p.at..][..n] == tag;
    VarintPrefix(s[p.at..], n);
  }

  lemma StepDepth(s: seq<byte>, p: Place)
    requires p.at <= |s| && SkipStep(s, p).Ok?
    ensures SkipStep(s, p).value.depth in {p.depth - 1, p.depth, p.depth + 1}
  {
  }

  lemma {:induction false} ParseField(s: seq<byte>, p: Place) returns (f: Field)
    requires SkipFrom(s, p).Ok? && SkipFrom(s, p).value <= |s|
    requires SkipStep(s, p).Ok? && SkipStep(s, p).value.depth >= p.depth
    ensures WellFormed(f) && At(s, p.at, Bytes(f)) && |Bytes(f)| > 0
    ensures SkipFrom(s, p) == Past(s, p.at, Bytes(f), p.depth)
    decreases |s| - p.at, 0
  {
    hide SkipBody, ReadVarint, IsTag;
    var q := SkipStep(s, p).value;
    if q.depth == p.depth {
      f := ParsePlain(s, p);
    } else {
      StepDepth(s, p);
      var open := ParseTag(s, p);
      var fields, close := ParseGroup(s, q);
      f := Group(open, fields, close);
      AtSplit(s, p.at, open, AllBytes(fields));
      AtSplit(s, p.at, open + AllBytes(fields), close);
    }
  }

  lemma {:induction false} ParseGroup(s: seq<byte>, p: Place) returns (fields: seq<Field>, close: seq<byte>)
    requires SkipFrom(s, p).Ok? && SkipFrom(s, p).value <= |s| && p.depth > 0
    ensures AllWellFormed(fields) && At(s, p.at, AllBytes(fields))
    ensures IsTag(close, 4) && At(s, p.at + |AllBytes(fields)|, close)
    ensures SkipFrom(s, p) == Past(s, p.at + |AllBytes(fields)|, close, p.depth - 1)
    decreases |s| - p.at, 1
  {
    hide SkipBody, ReadVarint, IsTag, WellFormed;
    var q := SkipStep(s, p).value;
    if q.depth < p.depth {
      StepDepth(s, p);
      fields := [];
      close := ParseTag(s, p);
    } else {
      var f := ParseField(s, p);
      var rest: seq<Field>;
      rest, close := ParseGroup(s, Place(p.at + |Bytes(f)|, p.depth));
      fields := [f] + rest;
      assert fields[1..] == rest;
      AtSplit(s, p.at, Bytes(f), AllBytes(rest));
    }
  }

  /**
   The counter agrees with the grammar: within the bounds of s, the answer is n exactly when the
   first n bytes of s are one complete field.
   */
  lemma SkipIsField(s: seq<byte>, n: nat)
    requires |s| < TWO_63 && n <= |s|
    ensures SkipSize(s) == Ok(n) <==> exists f :: WellFormed(f) && Bytes(f) == s[..n]
  {
    if SkipSize(s) == Ok(n) {
      var f := ParseFirst(s);
      assert WellFormed(f) && Bytes(f) == s[..n];
    }
    if f :| WellFormed(f) && Bytes(f) == s[..n] {
      SkipField(s, 0, f, 0);
    }
  }

  lemma ParseFirst(s: seq<byte>) returns (f: Field)
    requires SkipSize(s).Ok? && SkipSize(s).value <= |s|
    ensures WellFormed(f) && Bytes(f) == s[..SkipSize(s).value]
  {
    StepDepth(s, Place(0, 0));
    f := ParseField(s, Place(0, 0));
  }

  /** A field that is complete in s is skipped the same whatever follows. */
  lemma SkipStable(s: seq<byte>, t: seq<byte>)
    requires SkipSize(s).Ok? && SkipSize(s).value <= |s| && |s| < TWO_63
    ensures SkipSize(s + t) == SkipSize(s)
  {
    var f := ParseFirst(s);
    assert (s + t)[..|Bytes(f)|] == Bytes(f);
    SkipField(s + t, 0, f, 0);
  }
}
