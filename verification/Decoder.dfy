/**
 The loop that every generated `Unmarshal` is: read a tag, hand the field to the message's switch,
 skip it when the switch does not know its number.  A message type is given by that switch, its
 handler; what follows holds for every handler that looks no further than the field it decodes.
 */
module Decoder {
  import opened Wrappers
  import opened Varint
  import opened Skipper

  /** A field whose tag has been read: rest is what follows the tag, base its index in the buffer. */
  datatype Input = Input(num: int, wireType: nat, base: nat, rest: seq<byte>)

  /** What a switch does with a field: nothing, fail, or update the message and move on by size. */
  datatype Handled<+M> = Unknown | Fail(error: WireError) | Done(message: M, size: nat)

  type Handler<!M> = (M, Input) -> Handled<M>

  datatype Tag = Tag(num: int, wireType: nat, size: nat)

  datatype Span = Span(start: nat, end: nat)

  datatype Turn<+M> = Turn(message: M, size: nat)

  /** `int32(x)`. */
  function Int32(x: nat): int {
    var y := Low(x, 32);
    if y >= TWO_31 then y - TWO_32 else y
  }

  function ReadTag(r: seq<byte>): (t: Result<Tag, WireError>)
    ensures t.Ok? ==> 1 <= t.value.size <= |r|
  {
    match ReadVarint(r)
    case Err(e) => Err(e)
    case Ok(wire) =>
      if wire.value % 8 == 4 then Err(EndGroupForNonGroup)
      else if Int32(wire.value / 8) <= 0 then Err(IllegalTag)
      else Ok(Tag(Int32(wire.value / 8), wire.value % 8, wire.size))
  }

  /**
   The length in front of a payload, and where the payload then lies.  An `int` of 2^63 or more
   has wrapped around to a negative one.
   */
  function Extent(base: nat, r: seq<byte>): (s: Result<Span, WireError>)
    ensures s.Ok? ==> s.value.start <= s.value.end <= |r|
  {
    match ReadVarint(r)
    case Err(e) => Err(e)
    case Ok(len) =>
      if len.value >= TWO_63 then Err(InvalidLength)
      else if base + len.size + len.value >= TWO_63 then Err(InvalidLength)
      else if len.size + len.value > |r| then Err(UnexpectedEOF)
      else Ok(Span(len.size, len.size + len.value))
  }

  /** The payload of a field that must be length-delimited. */
  function Payload(i: Input): (s: Result<Span, WireError>)
    ensures s.Ok? ==> s.value.start <= s.value.end <= |i.rest|
  {
    if i.wireType != 2 then Err(WrongWireType) else Extent(i.base, i.rest)
  }

  function SkipUnknown(base: nat, r: seq<byte>): (n: Result<nat, WireError>)
    ensures n.Ok? ==> 1 <= n.value <= |r|
  {
    match SkipSize(r)
    case Err(e) => Err(e)
    case Ok(n) =>
      if base + n >= TWO_63 then Err(InvalidLength)
      else if n > |r| then Err(UnexpectedEOF)
      else Ok(n)
  }

  function Step<M>(h: Handler<M>, m: M, base: nat, r: seq<byte>): (t: Result<Turn<M>, WireError>)
    ensures t.Ok? ==> t.value.size >= 1
  {
    match ReadTag(r)
    case Err(e) => Err(e)
    case Ok(tag) =>
      match h(m, Input(tag.num, tag.wireType, base + tag.size, r[tag.size..]))
      case Fail(e) => Err(e)
      case Done(m', n) => Ok(Turn(m', tag.size + n))
      case Unknown =>
        match SkipUnknown(base, r)
        case Err(e) => Err(e)
        case Ok(n) => Ok(Turn(m, n))
  }

  /** The loop, with r still to read from index base on. */
  function Decode<M>(h: Handler<M>, m: M, base: nat, r: seq<byte>): Result<M, WireError>
    decreases |r|
  {
    if r == [] then Ok(m)
    else
      match Step(h, m, base, r)
      case Err(e) => Err(e)
      case Ok(t) =>
        if t.size > |r| then Err(UnexpectedEOF)
        else Decode(h, t.message, base + t.size, r[t.size..])
  }

  /** Decoding a whole buffer on top of what the message already holds. */
  function Unmarshal<M>(h: Handler<M>, m: M, dAtA: seq<byte>): Result<M, WireError> {
    Decode(h, m, 0, dAtA)
  }

  lemma DecodeNothing<M>(h: Handler<M>, m: M, base: nat)
    ensures Decode(h, m, base, []) == Ok(m)
  {
  }

  // ---------------------------------------------------------------- locality

  /**
   A field that is handled is handled the same when more bytes follow, and wherever in a buffer
   it stands.
   */
  ghost predicate LocalAt<M>(h: Handler<M>, m: M, i: Input, t: seq<byte>, base: nat) {
    var a := h(m, i);
    |i.rest| < TWO_63 ==>
    && (a.Done? ==> a.size <= |i.rest| && h(m, i.(rest := i.rest + t)) == a)
    && (a.Done? && base + |i.rest| < TWO_63 ==> h(m, i.(base := base)) == a)
    && (a.Unknown? ==> h(m, i.(rest := i.rest + t)).Unknown? && h(m, i.(base := base)).Unknown?)
  }

  ghost predicate Local<M(!new)>(h: Handler<M>) {
    forall m, i, t, base :: LocalAt(h, m, i, t, base)
  }

  lemma ReadTagStable(r: seq<byte>, t: seq<byte>)
    ensures ReadTag(r).Ok? ==> ReadTag(r + t) == ReadTag(r)
  {
    ReadVarintStable(r, t);
  }

  lemma ExtentLocal(base: nat, r: seq<byte>, t: seq<byte>, base': nat)
    requires Extent(base, r).Ok?
    ensures Extent(base, r + t) == Extent(base, r)
    ensures base' + |r| < TWO_63 ==> Extent(base', r) == Extent(base, r)
    ensures var s := Extent(base, r).value; (r + t)[s.start..s.end] == r[s.start..s.end]
  {
    ReadVarintStable(r, t);
  }

  lemma PayloadLocal(i: Input, t: seq<byte>, base: nat)
    requires Payload(i).Ok?
    ensures Payload(i.(rest := i.rest + t)) == Payload(i)
    ensures base + |i.rest| < TWO_63 ==> Payload(i.(base := base)) == Payload(i)
    ensures var s := Payload(i).value; (i.rest + t)[s.start..s.end] == i.rest[s.start..s.end]
  {
    ExtentLocal(i.base, i.rest, t, base);
  }

  lemma SkipUnknownLocal(base: nat, r: seq<byte>, t: seq<byte>, base': nat)
    requires SkipUnknown(base, r).Ok? && |r| < TWO_63
    ensures SkipUnknown(base, r + t) == SkipUnknown(base, r)
    ensures base' + |r| < TWO_63 ==> SkipUnknown(base', r) == SkipUnknown(base, r)
  {
    SkipStable(r, t);
  }

  /** One turn of the loop reads the same when more bytes follow. */
  lemma StepStable<M(!new)>(h: Handler<M>, m: M, base: nat, r: seq<byte>, t: seq<byte>)
    requires Local(h) && Step(h, m, base, r).Ok? && |r| < TWO_63
    ensures Step(h, m, base, r).value.size <= |r|
    ensures Step(h, m, base, r + t) == Step(h, m, base, r)
  {
    hide ReadTag, SkipUnknown, Local;
    ReadTagStable(r, t);
    var tag := ReadTag(r).value;
    var i := Input(tag.num, tag.wireType, base + tag.size, r[tag.size..]);
    assert (r + t)[tag.size..] == i.rest + t;
    UseLocal(h, m, i, t, base);
    if h(m, i).Unknown? {
      SkipUnknownLocal(base, r, t, base);
    }
  }

  lemma UseLocal<M(!new)>(h: Handler<M>, m: M, i: Input, t: seq<byte>, base: nat)
    requires Local(h)
    ensures LocalAt(h, m, i, t, base)
  {
  }

  /** One turn of the loop succeeds the same wherever in a buffer it stands. */
  lemma StepBase<M(!new)>(h: Handler<M>, m: M, base: nat, r: seq<byte>, base': nat)
    requires Local(h) && Step(h, m, base, r).Ok? && base' + |r| < TWO_63
    ensures Step(h, m, base', r) == Step(h, m, base, r)
  {
    hide ReadTag, SkipUnknown, Local;
    var tag := ReadTag(r).value;
    var i := Input(tag.num, tag.wireType, base + tag.size, r[tag.size..]);
    UseLocal(h, m, i, [], base' + tag.size);
    if h(m, i).Unknown? {
      SkipUnknownLocal(base, r, [], base');
    }
  }

  /** The loop over x and then y is the loop over y from where x left the message. */
  lemma {:induction false} DecodeConcat<M(!new)>(h: Handler<M>, m: M, base: nat, x: seq<byte>, y: seq<byte>)
    requires Local(h) && Decode(h, m, base, x).Ok? && |x| < TWO_63
    ensures Decode(h, m, base, x + y) == Decode(h, Decode(h, m, base, x).value, base + |x|, y)
    decreases |x|
  {
    hide Step, Local;
    if x == [] {
      assert x + y == y;
    } else {
      StepStable(h, m, base, x, y);
      var t := Step(h, m, base, x).value;
      DecodeConcat(h, t.message, base + t.size, x[t.size..], y);
      assert (x + y)[t.size..] == x[t.size..] + y;
    }
  }

  lemma {:induction false} DecodeBase<M(!new)>(h: Handler<M>, m: M, base: nat, r: seq<byte>, base': nat)
    requires Local(h) && Decode(h, m, base, r).Ok? && base' + |r| < TWO_63
    ensures Decode(h, m, base', r) == Decode(h, m, base, r)
    decreases |r|
  {
    hide Step, Local;
    if r != [] {
      StepBase(h, m, base, r, base');
      var t := Step(h, m, base, r).value;
      DecodeBase(h, t.message, base + t.size, r[t.size..], base' + t.size);
    }
  }

  /** Two outcomes agree: both fail, or both succeed with the same message. */
  predicate Agree<M(==)>(a: Result<M, WireError>, b: Result<M, WireError>) {
    a.Ok? == b.Ok? && (a.Ok? ==> a.value == b.value)
  }

  /**
   Decoding a concatenation is decoding its parts in turn on the same message.  Only the kind of
   error may differ, since a length is also checked against the index it is read at.
   */
  lemma UnmarshalConcat<M(!new)>(h: Handler<M>, m: M, x: seq<byte>, y: seq<byte>)
    requires Local(h) && |x| + |y| < TWO_63 && Unmarshal(h, m, x).Ok?
    ensures Agree(Unmarshal(h, m, x + y), Unmarshal(h, Unmarshal(h, m, x).value, y))
  {
    hide Decode, Local;
    DecodeConcat(h, m, 0, x, y);
    var m' := Unmarshal(h, m, x).value;
    if Decode(h, m', 0, y).Ok? {
      DecodeBase(h, m', 0, y, |x|);
    } else if Decode(h, m', |x|, y).Ok? {
      DecodeBase(h, m', |x|, y, 0);
    }
  }

  /** The handler has no case for fields of this number. */
  ghost predicate Ignores<M(!new)>(h: Handler<M>, num: int) {
    forall m, i: Input :: i.num == num ==> h(m, i).Unknown?
  }

  /** A complete field of a number the message does not have leaves the message as it is. */
  lemma UnmarshalUnknown<M(!new)>(h: Handler<M>, m: M, f: Field)
    requires WellFormed(f) && |Bytes(f)| < TWO_63
    requires ReadTag(Bytes(f)).Ok? && Ignores(h, ReadTag(Bytes(f)).value.num)
    ensures Unmarshal(h, m, Bytes(f)) == Ok(m)
  {
    var r := Bytes(f);
    assert SkipSize(r) == Ok(|r|) by {
      assert r == r[..|r|];
      SkipIsField(r, |r|);
    }
    hide SkipSize, WellFormed, ReadVarint, Bytes;
    var tag := ReadTag(r).value;
    assert SkipUnknown(0, r) == Ok(|r|);
    assert h(m, Input(tag.num, tag.wireType, tag.size, r[tag.size..])).Unknown?;
    assert Step(h, m, 0, r) == Ok(Turn(m, |r|));
    assert Decode(h, m, 0, r) == Decode(h, m, |r|, r[|r|..]);
    assert r[|r|..] == [];
  }

  /** Inserting such a field at a field boundary does not change what is decoded. */
  lemma UnknownFieldsAreIgnored<M(!new)>(h: Handler<M>, m: M, x: seq<byte>, f: Field, y: seq<byte>)
    requires Local(h) && |x| + |Bytes(f)| + |y| < TWO_63 && Unmarshal(h, m, x).Ok?
    requires WellFormed(f) && ReadTag(Bytes(f)).Ok? && Ignores(h, ReadTag(Bytes(f)).value.num)
    ensures Agree(Unmarshal(h, m, x + Bytes(f) + y), Unmarshal(h, m, x + y))
  {
    hide Unmarshal, WellFormed, Bytes, Local, Ignores, ReadTag;
    var m' := Unmarshal(h, m, x).value;
    UnmarshalUnknown(h, m', f);
    UnmarshalConcat(h, m, x, Bytes(f));
    UnmarshalConcat(h, m, x + Bytes(f), y);
    UnmarshalConcat(h, m, x, y);
  }

  // ---------------------------------------------------------------- fields as they are written

  /** A length-delimited field: tag, length, payload. */
  function LenField(num: nat, p: seq<byte>): seq<byte>
    requires 1 <= num <= 15
  {
    [8 * num + 2] + EncVarint(|p|) + p
  }

  /** Fields of bytes and strings are written only when they are not empty. */
  function OptField(num: nat, p: seq<byte>): seq<byte>
    requires 1 <= num <= 15
  {
    if p == [] then [] else LenField(num, p)
  }

  /** How much room a length-delimited field takes. */
  function LenSize(n: nat): nat {
    1 + n + VarintSize(n)
  }

  function FieldInput(base: nat, num: nat, p: seq<byte>, t: seq<byte>): Input {
    Input(num, 2, base + 1, EncVarint(|p|) + p + t)
  }

  /** A tag of one byte. */
  lemma ReadSmallWord(num: nat, wireType: nat, t: seq<byte>)
    requires 1 <= num <= 15 && wireType < 8
    ensures ReadVarint([8 * num + wireType] + t) == Ok(Scan(8 * num + wireType, 1))
    ensures Int32((8 * num + wireType) / 8) == num && (8 * num + wireType) % 8 == wireType
  {
    var b := 8 * num + wireType;
    ReadVarintOfEncoding(b, t);
    assert b / 8 == num && b % 8 == wireType;
    Powers();
    LowOfSmall(num, 32);
  }

  lemma ReadSmallTag(num: nat, wireType: nat, t: seq<byte>)
    requires 1 <= num <= 15 && wireType < 8 && wireType != 4
    ensures ReadTag([8 * num + wireType] + t) == Ok(Tag(num, wireType, 1))
  {
    ReadSmallWord(num, wireType, t);
  }

  lemma ExtentOfPayload(base: nat, p: seq<byte>, t: seq<byte>)
    requires base + VarintSize(|p|) + |p| < TWO_63
    ensures Extent(base, EncVarint(|p|) + p + t) == Ok(Span(VarintSize(|p|), VarintSize(|p|) + |p|))
    ensures (EncVarint(|p|) + p + t)[VarintSize(|p|)..VarintSize(|p|) + |p|] == p
  {
    hide ReadVarint, EncVarint, VarintSize;
    Middle(EncVarint(|p|), p, t);
    var rest := EncVarint(|p|) + p + t;
    assert ReadVarint(rest) == Ok(Scan(|p|, VarintSize(|p|))) by {
      ReadVarintOfEncoding(|p|, p + t);
    }
    assert |rest| == VarintSize(|p|) + |p| + |t|;
  }

  lemma PayloadOfField(base: nat, num: nat, p: seq<byte>, t: seq<byte>)
    requires base + 1 + VarintSize(|p|) + |p| < TWO_63
    ensures Payload(FieldInput(base, num, p, t)) == Ok(Span(VarintSize(|p|), VarintSize(|p|) + |p|))
    ensures FieldInput(base, num, p, t).rest[VarintSize(|p|)..VarintSize(|p|) + |p|] == p
  {
    hide Extent, EncVarint;
    ExtentOfPayload(base + 1, p, t);
  }

  lemma BehindLength(base: nat, num: nat, p: seq<byte>, t: seq<byte>)
    ensures var i := FieldInput(base, num, p, t);
            i.base == base + 1 && |i.rest| == VarintSize(|p|) + |p| + |t| && i.rest[VarintSize(|p|)..] == p + t
  {
    hide EncVarint;
    Middle(EncVarint(|p|), p, t);
  }

  lemma Middle<T>(a: seq<T>, b: seq<T>, c: seq<T>)
    ensures a + b + c == a + (b + c)
    ensures (a + b + c)[|a|..|a| + |b|] == b
  {
  }

  /** One turn of the loop over a written field. */
  lemma StepLenField<M>(h: Handler<M>, m: M, base: nat, num: nat, p: seq<byte>, t: seq<byte>, m': M)
    requires 1 <= num <= 15
    requires h(m, FieldInput(base, num, p, t)) == Done(m', VarintSize(|p|) + |p|)
    ensures var r := LenField(num, p) + t;
            && ReadTag(r) == Ok(Tag(num, 2, 1)) && r[1..] == FieldInput(base, num, p, t).rest
            && Step(h, m, base, r) == Ok(Turn(m', |LenField(num, p)|)) && r[|LenField(num, p)|..] == t
  {
    hide ReadTag, SkipUnknown;
    var r := LenField(num, p) + t;
    var rest := EncVarint(|p|) + p + t;
    assert r == [8 * num + 2] + rest;
    ReadSmallTag(num, 2, rest);
  }

  lemma DecodeLenField<M>(h: Handler<M>, m: M, base: nat, num: nat, p: seq<byte>, t: seq<byte>, m': M)
    requires 1 <= num <= 15
    requires h(m, FieldInput(base, num, p, t)) == Done(m', VarintSize(|p|) + |p|)
    ensures Decode(h, m, base, LenField(num, p) + t) == Decode(h, m', base + |LenField(num, p)|, t)
  {
    hide Step, ReadTag;
    StepLenField(h, m, base, num, p, t, m');
  }

  lemma DecodeVarintField<M>(h: Handler<M>, m: M, base: nat, num: nat, v: nat, t: seq<byte>, m': M)
    requires 1 <= num <= 15
    requires h(m, Input(num, 0, base + 1, EncVarint(v) + t)) == Done(m', VarintSize(v))
    ensures Decode(h, m, base, [8 * num] + EncVarint(v) + t) == Decode(h, m', base + 1 + VarintSize(v), t)
  {
    hide ReadTag, SkipUnknown, EncVarint, VarintSize;
    var rest := EncVarint(v) + t;
    var r := [8 * num] + EncVarint(v) + t;
    assert r == [8 * num] + rest;
    ReadSmallTag(num, 0, rest);
    assert r[1..] == rest;
    assert Step(h, m, base, r) == Ok(Turn(m', 1 + VarintSize(v)));
    assert r[1 + VarintSize(v)..] == t;
  }

  /** A payload of n bytes whose length took k takes no more room when it is written again. */
  lemma ExtentIsRoomy(base: nat, r: seq<byte>)
    requires Extent(base, r).Ok?
    ensures var s := Extent(base, r).value; LenSize(s.end - s.start) <= 1 + s.end
  {
    CanonicalIsShortest(r);
  }

  /**
   If handling a field never makes a message larger by more than the field and its tag, decoding
   never makes it larger by more than the input.
   */
  lemma {:induction false} DecodeGrows<M(!new)>(h: Handler<M>, size: M -> nat, m: M, base: nat, r: seq<byte>)
    requires forall m, i :: h(m, i).Done? ==> size(h(m, i).message) <= size(m) + 1 + h(m, i).size
    requires Decode(h, m, base, r).Ok?
    ensures size(Decode(h, m, base, r).value) <= size(m) + |r|
    decreases |r|
  {
    hide ReadTag, SkipUnknown;
    if r != [] {
      var t := Step(h, m, base, r).value;
      DecodeGrows(h, size, t.message, base + t.size, r[t.size..]);
    }
  }

  // ---------------------------------------------------------------- the loop, turn by turn

  /** A span that was counted from index i on, counted from the start of the buffer. */
  function Moved(i: nat, s: Result<Span, WireError>): Result<Span, WireError> {
    match s
    case Ok(x) => Ok(Span(i + x.start, i + x.end))
    case Err(e) => Err(e)
  }

  method DecodeTag(dAtA: seq<byte>, iNdEx: nat) returns (r: Result<Tag, WireError>)
    requires iNdEx <= |dAtA|
    ensures r == ReadTag(dAtA[iNdEx..])
  {
    hide ReadVarint;
    var wire := DecodeVarint(dAtA, iNdEx);
    if wire.Err? {
      return Err(wire.error);
    }
    var fieldNum := Int32(wire.value.value / 8);
    var wireType := wire.value.value % 8;
    if wireType == 4 {
      return Err(EndGroupForNonGroup);
    }
    if fieldNum <= 0 {
      return Err(IllegalTag);
    }
    return Ok(Tag(fieldNum, wireType, wire.value.size - iNdEx));
  }

  method DecodeExtent(dAtA: seq<byte>, iNdEx: nat) returns (r: Result<Span, WireError>)
    requires iNdEx <= |dAtA|
    ensures r == Moved(iNdEx, Extent(iNdEx, dAtA[iNdEx..]))
    ensures r.Ok? ==> iNdEx <= r.value.start <= r.value.end <= |dAtA|
    ensures r.Ok? ==> dAtA[r.value.start..r.value.end] == dAtA[iNdEx..][r.value.start - iNdEx..r.value.end - iNdEx]
  {
    hide ReadVarint;
    var length := DecodeVarint(dAtA, iNdEx);
    if length.Err? {
      return Err(length.error);
    }
    if length.value.value >= TWO_63 {
      return Err(InvalidLength);
    }
    var postIndex := length.value.size + length.value.value;
    if postIndex >= TWO_63 {
      return Err(InvalidLength);
    }
    if postIndex > |dAtA| {
      return Err(UnexpectedEOF);
    }
    return Ok(Span(length.value.size, postIndex));
  }

  /** The checks in front of a length-delimited field; iNdEx is just behind its tag. */
  method DecodePayload(dAtA: seq<byte>, iNdEx: nat, tag: Tag) returns (r: Result<Span, WireError>)
    requires iNdEx <= |dAtA|
    ensures r == Moved(iNdEx, Payload(FieldAt(dAtA, iNdEx, tag)))
    ensures r.Ok? ==> iNdEx <= r.value.start <= r.value.end <= |dAtA|
    ensures r.Ok? ==> dAtA[r.value.start..r.value.end] == dAtA[iNdEx..][r.value.start - iNdEx..r.value.end - iNdEx]
  {
    if tag.wireType != 2 {
      return Err(WrongWireType);
    }
    r := DecodeExtent(dAtA, iNdEx);
  }

  method SkipUnknownField(dAtA: seq<byte>, iNdEx: nat) returns (r: Result<nat, WireError>)
    requires iNdEx <= |dAtA|
    ensures r == SkipUnknown(iNdEx, dAtA[iNdEx..])
  {
    var skippy := Skip(dAtA[iNdEx..]);
    if skippy.Err? {
      return Err(skippy.error);
    }
    if iNdEx + skippy.value >= TWO_63 {
      return Err(InvalidLength);
    }
    if iNdEx + skippy.value > |dAtA| {
      return Err(UnexpectedEOF);
    }
    return skippy;
  }

  /** The field whose tag has just been read; at is the index behind it. */
  function FieldAt(dAtA: seq<byte>, at: nat, tag: Tag): Input
    requires at <= |dAtA|
  {
    Input(tag.num, tag.wireType, at, dAtA[at..])
  }

  /** What is left to do at index i. */
  function DecodeAt<M>(h: Handler<M>, m: M, dAtA: seq<byte>, i: nat): Result<M, WireError>
    requires i <= |dAtA|
  {
    Decode(h, m, i, dAtA[i..])
  }

  lemma LoopBegins<M>(h: Handler<M>, m: M, dAtA: seq<byte>)
    ensures DecodeAt(h, m, dAtA, 0) == Unmarshal(h, m, dAtA)
  {
    assert dAtA[0..] == dAtA;
  }

  lemma LoopEnds<M>(h: Handler<M>, m: M, dAtA: seq<byte>)
    ensures DecodeAt(h, m, dAtA, |dAtA|) == Ok(m)
  {
  }

  lemma LoopNoTag<M>(h: Handler<M>, m: M, dAtA: seq<byte>, i: nat)
    requires i < |dAtA| && ReadTag(dAtA[i..]).Err?
    ensures DecodeAt(h, m, dAtA, i) == Err(ReadTag(dAtA[i..]).error)
  {
  }

  lemma LoopTurn<M>(h: Handler<M>, m: M, dAtA: seq<byte>, i: nat, tag: Tag)
    requires i < |dAtA| && ReadTag(dAtA[i..]) == Ok(tag)
    ensures var a := h(m, FieldAt(dAtA, i + tag.size, tag));
            && (a.Fail? ==> DecodeAt(h, m, dAtA, i) == Err(a.error))
            && (a.Done? && i + tag.size + a.size <= |dAtA| ==>
                  DecodeAt(h, m, dAtA, i) == DecodeAt(h, a.message, dAtA, i + tag.size + a.size))
  {
    hide ReadTag, SkipUnknown;
    var a := h(m, FieldAt(dAtA, i + tag.size, tag));
    assert dAtA[i..][tag.size..] == dAtA[i + tag.size..];
    if a.Done? && i + tag.size + a.size <= |dAtA| {
      assert dAtA[i..][tag.size + a.size..] == dAtA[i + tag.size + a.size..];
    }
  }

  lemma LoopSkips<M>(h: Handler<M>, m: M, dAtA: seq<byte>, i: nat, tag: Tag)
    requires i < |dAtA| && ReadTag(dAtA[i..]) == Ok(tag) && h(m, FieldAt(dAtA, i + tag.size, tag)).Unknown?
    ensures var s := SkipUnknown(i, dAtA[i..]);
            DecodeAt(h, m, dAtA, i) == if s.Err? then Err(s.error) else DecodeAt(h, m, dAtA, i + s.value)
  {
    hide ReadTag, SkipUnknown;
    assert dAtA[i..][tag.size..] == dAtA[i + tag.size..];
    var s := SkipUnknown(i, dAtA[i..]);
    if s.Ok? {
      assert dAtA[i..][s.value..] == dAtA[i + s.value..];
    }
  }

  /** What an `Unmarshal` method does to the value of its receiver, now, when the decoding is d. */
  predicate Outcome<M(==)>(err: Option<WireError>, d: Result<M, WireError>, now: M) {
    if d.Ok? then err == None && now == d.value else err == Some(d.error)
  }
}
