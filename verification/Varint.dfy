/**
 Base-128 varints: the digits every length, tag and integer of the wire format is made of.
 Machine words are naturals; what a word keeps of a number that is too wide for it is `Low`.
 */
module Varint {
  import opened Wrappers

  type byte = b: int | 0 <= b < 0x100

  const TWO_31 := 0x8000_0000
  const TWO_32 := 0x1_0000_0000
  const TWO_63 := 0x8000_0000_0000_0000
  const TWO_64 := 0x1_0000_0000_0000_0000

  /** The errors of the generated decoders. */
  datatype WireError =
    | IntOverflow
    | UnexpectedEOF
    | InvalidLength
    | UnexpectedEndOfGroup
    | EndGroupForNonGroup
    | IllegalTag
    | WrongWireType
    | IllegalWireType

  /** A number read from the front of some bytes, and how many bytes it took. */
  datatype Scan = Scan(value: nat, size: nat)

  // ---------------------------------------------------------------- machine words

  /** x shifted left by s bits, with no word to fit in. */
  function Scale(x: nat, s: nat): nat {
    if s == 0 then x else 2 * Scale(x, s - 1)
  }

  /** The low w bits of x: what is left of x in a word of w bits. */
  function Low(x: nat, w: nat): (r: nat)
    ensures r <= x
  {
    if w == 0 then 0 else x % 2 + 2 * Low(x / 2, w - 1)
  }

  /** Bitwise or. */
  function Or(x: nat, y: nat): nat
    decreases x + y
  {
    if x == 0 then y
    else if y == 0 then x
    else (if x % 2 == 1 || y % 2 == 1 then 1 else 0) + 2 * Or(x / 2, y / 2)
  }

  /** `bits.Len64`: the least number of bits that represents x. */
  function BitLength(x: nat): nat {
    if x == 0 then 0 else 1 + BitLength(x / 2)
  }

  lemma Scale7(x: nat, s: nat)
    ensures Scale(x, s + 7) == 0x80 * Scale(x, s)
  {
    assert Scale(x, s + 2) == 2 * Scale(x, s + 1);
    assert Scale(x, s + 4) == 2 * Scale(x, s + 3);
    assert Scale(x, s + 6) == 2 * Scale(x, s + 5);
  }

  lemma {:induction false} ScaleAdd(x: nat, y: nat, s: nat)
    ensures Scale(x + y, s) == Scale(x, s) + Scale(y, s)
  {
    if s != 0 {
      ScaleAdd(x, y, s - 1);
    }
  }

  lemma {:induction false} ScaleDigit(x: nat, s: nat)
    ensures Scale(0x80 * x, s) == Scale(x, s + 7) == 0x80 * Scale(x, s)
  {
    Scale7(x, s);
    if s != 0 {
      ScaleDigit(x, s - 1);
      Scale7(x, s - 1);
    }
  }

  lemma {:induction false} ScaleMonotone(x: nat, y: nat, s: nat)
    requires x <= y
    ensures Scale(x, s) <= Scale(y, s)
  {
    if s != 0 {
      ScaleMonotone(x, y, s - 1);
    }
  }

  lemma Powers()
    ensures Scale(1, 7) == 0x80
    ensures Scale(1, 32) == TWO_32
    ensures Scale(1, 64) == TWO_64
    ensures Scale(1, 70) == 64 * TWO_64
  {
    assert Scale(1, 4) == 16;
    Scale7(1, 4);
    Scale7(1, 11);
    Scale7(1, 18);
    Scale7(1, 25);
    Scale7(1, 32);
    Scale7(1, 39);
    Scale7(1, 46);
    Scale7(1, 53);
    assert Scale(1, 60) == 0x1000_0000_0000_0000;
    assert Scale(1, 62) == 0x4000_0000_0000_0000;
    Scale7(1, 63);
  }

  /** A number that fits in a word is kept whole. */
  lemma {:induction false} LowOfSmall(x: nat, w: nat)
    ensures Low(x, w) < Scale(1, w)
    ensures x < Scale(1, w) ==> Low(x, w) == x
  {
    if w != 0 {
      LowOfSmall(x / 2, w - 1);
    }
  }

  /** Narrowing a word twice is narrowing it once. */
  lemma {:induction false} LowOfLow(x: nat, v: nat, w: nat)
    requires w <= v
    ensures Low(Low(x, v), w) == Low(x, w)
  {
    hide Low;
    if w == 0 {
      NoBits(x, w, 0);
      NoBits(Low(x, v), w, 0);
    } else {
      var half := Low(x / 2, v - 1);
      LowOfLow(x / 2, v - 1, w - 1);
      LowBit(x, v);
      LowBit(x, w);
      LowBit(x % 2 + 2 * half, w);
    }
  }

  /** Keeping the low bits is taking the remainder. */
  lemma {:induction false} LowIsRemainder(x: nat, w: nat)
    ensures Scale(1, w) > 0 && Low(x, w) == x % Scale(1, w)
  {
    if w == 0 {
    } else {
      var p := Scale(1, w - 1);
      LowIsRemainder(x / 2, w - 1);
      LowOfSmall(x, w);
      HalfRemainder(x, p);
    }
  }

  lemma HalfRemainder(x: nat, p: nat)
    requires p > 0
    ensures x % (2 * p) == x % 2 + 2 * (x / 2 % p)
  {
    var m, q, r := 2 * p, x / 2 / p, x % 2 + 2 * (x / 2 % p);
    assert q * m == 2 * (x / 2 / p * p);
    var d := q - x / m;
    assert d * m == q * m - x / m * m;
    OnlyZeroFits(d, m);
  }

  lemma OnlyZeroFits(d: int, m: int)
    requires -m < d * m < m
    ensures d == 0
  {
  }

  /**
   Or-ing shifted bits into a word that so far holds smaller bits adds them, also when the word
   is too narrow for the shift.
   */
  lemma {:induction false} OrAdds(sum: nat, c: nat, s: nat, w: nat)
    requires sum < Scale(1, s)
    ensures Or(Low(sum, w), Low(Scale(c, s), w)) == Low(sum + Scale(c, s), w)
  {
    hide Or, Low;
    NoBits(sum, w, Low(Scale(c, s), w));
    NoBits(Scale(c, s), w, 0);
    NoBits(sum + Scale(c, s), w, 0);
    if w != 0 && s != 0 {
      var t := Scale(c, s - 1);
      OrAdds(sum / 2, c, s - 1, w - 1);
      LowBit(sum, w);
      LowBit(2 * t, w);
      LowBit(sum + 2 * t, w);
      OrBit(sum % 2, Low(sum / 2, w - 1), Low(t, w - 1));
    }
  }

  lemma NoBits(x: nat, w: nat, y: nat)
    ensures w == 0 || x == 0 ==> Low(x, w) == 0
    ensures Or(0, y) == y
  {
  }

  lemma LowBit(x: nat, w: nat)
    requires w != 0
    ensures Low(x, w) == x % 2 + 2 * Low(x / 2, w - 1)
  {
  }

  lemma OrBit(b: nat, x: nat, y: nat)
    requires b < 2
    ensures Or(b + 2 * x, 2 * y) == b + 2 * Or(x, y)
  {
  }

  // ---------------------------------------------------------------- encoding

  /** How many base-128 digits v has. */
  function VarintSize(v: nat): (n: nat)
    ensures n >= 1
  {
    if v < 0x80 then 1 else 1 + VarintSize(v / 0x80)
  }

  /** The canonical base-128 digits of v, least significant first. */
  function EncVarint(v: nat): (bs: seq<byte>)
    ensures |bs| == VarintSize(v)
  {
    if v < 0x80 then [v] else [v % 0x80 + 0x80] + EncVarint(v / 0x80)
  }

  /** `sov`: the size the code predicts for a varint, from its bit length. */
  function Sov(x: nat): nat {
    (BitLength(Or(x, 1)) + 6) / 7
  }

  lemma BitLength8(x: nat)
    requires x >= 8
    ensures BitLength(x) == 3 + BitLength(x / 8)
  {
    assert BitLength(x / 2) == 1 + BitLength(x / 4);
  }

  lemma BitLength128(x: nat)
    requires x >= 0x80
    ensures BitLength(x) == 7 + BitLength(x / 0x80)
  {
    BitLength8(x);
    BitLength8(x / 8);
    assert x / 8 / 8 == x / 64;
  }

  lemma BitLengthOctal(x: nat)
    requires x < 8
    ensures BitLength(x) <= 3
  {
    assert BitLength(x / 2) <= 2;
  }

  lemma BitLengthSmall(x: nat)
    requires 1 <= x < 0x80
    ensures 1 <= BitLength(x) <= 7
  {
    if x < 8 {
      BitLengthOctal(x);
    } else {
      BitLength8(x);
      if x < 64 {
        BitLengthOctal(x / 8);
      } else {
        BitLength8(x / 8);
        assert x / 8 / 8 == 1;
      }
    }
  }

  lemma OrOne(v: nat)
    ensures Or(v, 1) == if v % 2 == 1 then v else v + 1
  {
    assert Or(v / 2, 0) == v / 2;
  }

  lemma BitLengthOrOne(v: nat)
    requires v >= 1
    ensures BitLength(Or(v, 1)) == BitLength(v)
  {
    OrOne(v);
  }

  lemma SovStep(v: nat)
    requires v >= 0x80
    ensures Sov(v) == 1 + Sov(v / 0x80)
  {
    BitLengthOrOne(v);
    BitLengthOrOne(v / 0x80);
    BitLength128(v);
  }

  /** The predicted size is the number of digits written. */
  lemma {:induction false} SovIsSize(v: nat)
    ensures Sov(v) == VarintSize(v)
  {
    if v < 0x80 {
      OrOne(v);
      BitLengthSmall(Or(v, 1));
    } else {
      SovStep(v);
      SovIsSize(v / 0x80);
    }
  }

  /** It is the least number of base-128 digits that holds v. */
  lemma {:induction false} SizeIsLeast(v: nat, n: nat)
    requires n >= 1
    ensures v < Scale(1, 7 * n) <==> VarintSize(v) <= n
  {
    if n == 1 {
      Powers();
    } else {
      Scale7(1, 7 * (n - 1));
      if v >= 0x80 {
        SizeIsLeast(v / 0x80, n - 1);
      } else {
        ScalePositive(7 * (n - 1));
      }
    }
  }

  lemma {:induction false} ScalePositive(s: nat)
    ensures Scale(1, s) >= 1
  {
    if s != 0 {
      ScalePositive(s - 1);
    }
  }

  /** A 64-bit word takes one to ten digits. */
  lemma SizeOfWord(v: nat)
    requires v < TWO_64
    ensures 1 <= VarintSize(v) <= 10
  {
    Powers();
    SizeIsLeast(v, 10);
  }

  lemma {:induction false} SizeMonotone(v: nat, w: nat)
    requires v <= w
    ensures VarintSize(v) <= VarintSize(w)
  {
    if v >= 0x80 {
      SizeMonotone(v / 0x80, w / 0x80);
    }
  }

  lemma {:induction false} SizeSuccessor(v: nat)
    ensures VarintSize(v + 1) <= VarintSize(v) + 1
  {
    if v >= 0x80 {
      SizeSuccessor(v / 0x80);
      SizeMonotone((v + 1) / 0x80, v / 0x80 + 1);
    }
  }

  lemma {:induction false} SizeSubadditive(v: nat, w: nat)
    ensures VarintSize(v + w) <= VarintSize(v) + VarintSize(w)
    decreases v + w
  {
    var a, b := v / 0x80, w / 0x80;
    if v >= 0x80 || w >= 0x80 {
      SizeMonotone((v + w) / 0x80, a + b + 1);
      SizeSuccessor(a + b);
      if v >= 0x80 && w >= 0x80 {
        SizeSubadditive(a, b);
      }
    }
  }

  // ---------------------------------------------------------------- decoding

  /**
   The digits at the front of r, when k digits of the same number have been read: the shift is
   then 7k and the code gives up once it reaches 64.  The value is not yet narrowed to a word.
   */
  function Digits(r: seq<byte>, k: nat): (d: Result<Scan, WireError>)
    ensures d.Ok? ==> 1 <= d.value.size <= |r|
    decreases |r|
  {
    if 7 * k >= 64 then Err(IntOverflow)
    else if r == [] then Err(UnexpectedEOF)
    else if r[0] < 0x80 then Ok(Scan(r[0], 1))
    else After(r[0] % 0x80, Digits(r[1..], k + 1))
  }

  /** A digit in front of the digits that d read. */
  function After(digit: nat, d: Result<Scan, WireError>): Result<Scan, WireError> {
    match d
    case Ok(s) => Ok(Scan(digit + 0x80 * s.value, 1 + s.size))
    case Err(e) => Err(e)
  }

  /** A varint read into a 64-bit word. */
  function ReadVarint(r: seq<byte>): (d: Result<Scan, WireError>)
    ensures d.Ok? ==> d.value.value < TWO_64 && 1 <= d.value.size <= |r|
  {
    match Digits(r, 0)
    case Ok(s) =>
      LowOfSmall(s.value, 64);
      Powers();
      Ok(Scan(Low(s.value, 64), s.size))
    case Err(e) => Err(e)
  }

  lemma {:induction false} DigitsStable(r: seq<byte>, t: seq<byte>, k: nat)
    ensures Digits(r, k).Ok? ==> Digits(r + t, k) == Digits(r, k)
    decreases |r|
  {
    if r != [] {
      assert (r + t)[1..] == r[1..] + t;
      DigitsStable(r[1..], t, k + 1);
    }
  }

  /** A varint that is complete in r is read the same whatever follows. */
  lemma ReadVarintStable(r: seq<byte>, t: seq<byte>)
    ensures ReadVarint(r).Ok? ==> ReadVarint(r + t) == ReadVarint(r)
  {
    DigitsStable(r, t, 0);
  }

  lemma {:induction false} DigitsOfEncoding(v: nat, t: seq<byte>, k: nat)
    requires k + VarintSize(v) <= 10
    ensures Digits(EncVarint(v) + t, k) == Ok(Scan(v, VarintSize(v)))
    decreases v
  {
    if v >= 0x80 {
      var w := v / 0x80;
      DigitsOfEncoding(w, t, k + 1);
      assert EncVarint(v) + t == [v % 0x80 + 0x80] + (EncVarint(w) + t);
      DigitsCons(v % 0x80, EncVarint(w) + t, k);
    }
  }

  lemma DigitsCons(d: nat, r: seq<byte>, k: nat)
    requires d < 0x80 && 7 * k < 64
    ensures Digits([d + 0x80] + r, k) == After(d, Digits(r, k + 1))
  {
    assert ([d + 0x80] + r)[1..] == r;
  }

  /** Reading back the encoding of a word gives the word, and stops at its last digit. */
  lemma ReadVarintOfEncoding(v: nat, t: seq<byte>)
    requires v < TWO_64
    ensures ReadVarint(EncVarint(v) + t) == Ok(Scan(v, VarintSize(v)))
  {
    SizeOfWord(v);
    DigitsOfEncoding(v, t, 0);
    Powers();
    LowOfSmall(v, 64);
  }

  lemma {:induction false} DigitsBound(r: seq<byte>, k: nat)
    requires Digits(r, k).Ok?
    ensures Digits(r, k).value.value < Scale(1, 7 * Digits(r, k).value.size)
    decreases |r|
  {
    if r[0] < 0x80 {
      Powers();
    } else {
      DigitsBound(r[1..], k + 1);
      Scale7(1, 7 * Digits(r[1..], k + 1).value.size);
    }
  }

  /** No accepted digits of a number are fewer than its canonical ones. */
  lemma CanonicalIsShortest(r: seq<byte>)
    requires ReadVarint(r).Ok?
    ensures VarintSize(ReadVarint(r).value.value) <= ReadVarint(r).value.size
  {
    DigitsBound(r, 0);
    var s := Digits(r, 0).value;
    SizeIsLeast(s.value, s.size);
    SizeMonotone(Low(s.value, 64), s.value);
  }

  /** Accumulating the same digits in 32 bits keeps the low 32 bits of the 64-bit varint. */
  lemma Uint32IsLowBits(r: seq<byte>)
    requires ReadVarint(r).Ok?
    ensures Digits(r, 0).Ok? && Digits(r, 0).value.size == ReadVarint(r).value.size
    ensures Low(Digits(r, 0).value.value, 32) == ReadVarint(r).value.value % TWO_32
  {
    Powers();
    LowOfLow(Digits(r, 0).value.value, 64, 32);
    LowIsRemainder(ReadVarint(r).value.value, 32);
  }

  // ---------------------------------------------------------------- the loops

  lemma SliceOfSlice<T>(s: seq<T>, i: nat, k: nat)
    requires i + k <= |s|
    ensures s[i..][k..] == s[i + k..]
  {
  }

  /** A read d that continues j digits worth sum, so that its own first digit is shifted by s. */
  function Plus(sum: nat, j: nat, s: nat, d: Result<Scan, WireError>): Result<Scan, WireError> {
    match d
    case Ok(x) => Ok(Scan(sum + Scale(x.value, s), j + x.size))
    case Err(e) => Err(e)
  }

  lemma PlusAfter(sum: nat, j: nat, s: nat, digit: nat, d: Result<Scan, WireError>)
    ensures Plus(sum, j, s, After(digit, d)) == Plus(sum + Scale(digit, s), j + 1, s + 7, d)
  {
    if d.Ok? {
      ScaleHorner(digit, d.value.value, s);
    }
  }

  lemma ScaleHorner(digit: nat, v: nat, s: nat)
    ensures Scale(digit + 0x80 * v, s) == Scale(digit, s) + Scale(v, s + 7)
  {
    ScaleAdd(digit, 0x80 * v, s);
    ScaleDigit(v, s);
  }

  /** Where the loop of a decoder stands after j digits of rest, all with their top bit set. */
  ghost predicate Reading(rest: seq<byte>, j: nat, s: nat, sum: nat, wire: nat, width: nat) {
    && j <= |rest| && s == 7 * j <= 70
    && sum < Scale(1, s)
    && wire == Low(sum, width)
    && Digits(rest, 0) == Plus(sum, j, s, Digits(rest[j..], j))
  }

  lemma StartReading(rest: seq<byte>, width: nat)
    ensures Reading(rest, 0, 0, 0, 0, width)
  {
    assert rest[0..] == rest;
  }

  lemma MaskOfDigit(b: nat)
    requires b < 0x80
    ensures b % 0x80 == b
  {
  }

  lemma AddDigit(sum: nat, d: nat, s: nat, width: nat)
    requires sum < Scale(1, s) && d < 0x80
    ensures sum + Scale(d, s) < Scale(1, s + 7)
    ensures Or(Low(sum, width), Low(Scale(d, s), width)) == Low(sum + Scale(d, s), width)
  {
    ScaleAdd(d, 1, s);
    ScaleMonotone(d + 1, 0x80, s);
    ScaleDigit(1, s);
    OrAdds(sum, d, s, width);
  }

  lemma NextDigit(rest: seq<byte>, j: nat, s: nat, sum: nat, wire: nat, width: nat) returns (total: nat)
    requires Reading(rest, j, s, sum, wire, width) && j < |rest| && s < 64 && rest[j] >= 0x80
    ensures Reading(rest, j + 1, s + 7, total, Or(wire, Low(Scale(rest[j] % 0x80, s), width)), width)
  {
    var d := rest[j] % 0x80;
    AddDigit(sum, d, s, width);
    total := sum + Scale(d, s);
    assert rest[j..][0] == rest[j] && rest[j..][1..] == rest[j + 1..];
    PlusAfter(sum, j, s, d, Digits(rest[j + 1..], j + 1));
  }

  lemma LastDigit(rest: seq<byte>, j: nat, s: nat, sum: nat, wire: nat, width: nat)
    requires Reading(rest, j, s, sum, wire, width) && j < |rest| && s < 64 && rest[j] < 0x80
    ensures Digits(rest, 0).Ok? && Digits(rest, 0).value.size == j + 1
    ensures Or(wire, Low(Scale(rest[j] % 0x80, s), width)) == Low(Digits(rest, 0).value.value, width)
  {
    MaskOfDigit(rest[j]);
    AddDigit(sum, rest[j], s, width);
    assert rest[j..][0] == rest[j];
    assert Digits(rest[j..], j) == Ok(Scan(rest[j], 1));
  }

  /** What d read, kept in a word, with the place behind it counted from the start of the buffer. */
  function Narrowed(d: Result<Scan, WireError>, start: nat, width: nat): Result<Scan, WireError> {
    match d
    case Ok(s) => Ok(Scan(Low(s.value, width), start + s.size))
    case Err(e) => Err(e)
  }

  /**
   The loop every decoder starts with, on a word of 64 or 32 bits: digits are masked, shifted and
   or-ed in, and the shift is checked before the bounds.
   */
  method DecodeWord(dAtA: seq<byte>, start: nat, width: nat) returns (r: Result<Scan, WireError>)
    requires start <= |dAtA|
    ensures r == Narrowed(Digits(dAtA[start..], 0), start, width)
  {
    var l, iNdEx, wire, shift := |dAtA|, start, 0, 0;
    ghost var rest, sum := dAtA[start..], 0;
    StartReading(rest, width);
    while true
      invariant start <= iNdEx <= l && 0 <= shift
      invariant Reading(rest, iNdEx - start, shift, sum, wire, width)
      decreases 70 - shift
    {
      if shift >= 64 {
        return Err(IntOverflow);
      }
      if iNdEx >= l {
        return Err(UnexpectedEOF);
      }
      var b := dAtA[iNdEx];
      ghost var j, was := iNdEx - start, wire;
      assert b == rest[j];
      iNdEx := iNdEx + 1;
      wire := Or(wire, Low(Scale(b % 0x80, shift), width));
      if b < 0x80 {
        LastDigit(rest, j, shift, sum, was, width);
        return Ok(Scan(wire, iNdEx));
      }
      sum := NextDigit(rest, j, shift, sum, was, width);
      shift := shift + 7;
    }
  }

  /** What d read, with the place behind it counted from the start of the buffer. */
  function From(start: nat, d: Result<Scan, WireError>): Result<Scan, WireError> {
    match d
    case Ok(s) => Ok(Scan(s.value, start + s.size))
    case Err(e) => Err(e)
  }

  method DecodeVarint(dAtA: seq<byte>, start: nat) returns (r: Result<Scan, WireError>)
    requires start <= |dAtA|
    ensures r == From(start, ReadVarint(dAtA[start..]))
  {
    r := DecodeWord(dAtA, start, 64);
  }

  /** The same loop into a `uint32`: the low half of the varint. */
  method DecodeUint32(dAtA: seq<byte>, start: nat) returns (r: Result<Scan, WireError>)
    requires start <= |dAtA|
    ensures r == From(start, LowHalf(ReadVarint(dAtA[start..])))
  {
    r := DecodeWord(dAtA, start, 32);
    if r.Ok? {
      Uint32IsLowBits(dAtA[start..]);
    }
  }

  function LowHalf(d: Result<Scan, WireError>): Result<Scan, WireError> {
    match d
    case Ok(s) => Ok(Scan(s.value % TWO_32, s.size))
    case Err(e) => Err(e)
  }

  /** The bytes of a with those from lo to hi replaced. */
  function Splice<T>(a: seq<T>, lo: nat, hi: nat, bs: seq<T>): seq<T>
    requires lo <= hi <= |a|
  {
    a[..lo] + bs + a[hi..]
  }

  lemma SpliceTwice<T>(a: seq<T>, lo: nat, mid: nat, hi: nat, front: seq<T>, back: seq<T>)
    requires lo <= mid <= hi <= |a| && |front| == mid - lo && |back| == hi - mid
    ensures |Splice(a, mid, hi, back)| == |a|
    ensures Splice(Splice(a, mid, hi, back), lo, mid, front) == Splice(a, lo, hi, front + back)
  {
  }

  lemma SetTopBit(d: nat)
    requires d < 0x80
    ensures Or(d, 0x80) == d + 0x80
  {
    hide Or, Low;
    Powers();
    LowOfSmall(d, 8);
    LowOfSmall(d + 0x80, 8);
    assert Scale(1, 8) == 2 * Scale(1, 7);
    LowOfSmall(0x80, 8);
    OrAdds(d, 1, 7, 8);
  }

  /** `encodeVarint`: writes the digits just before offset and returns where they start. */
  method EncodeVarint(dAtA: array<byte>, offset: nat, v: nat) returns (base: nat)
    requires v < TWO_64 && VarintSize(v) <= offset <= dAtA.Length
    modifies dAtA
    ensures base == offset - VarintSize(v)
    ensures dAtA[..] == Splice(old(dAtA[..]), base, offset, EncVarint(v))
  {
    hide Or, Sov, Low, Scale, BitLength;
    SovIsSize(v);
    base := offset - Sov(v);
    var at, w := base, v;
    ghost var digits := EncVarint(v);
    while w >= 0x80
      invariant base <= at < offset && w >= 0
      invariant |digits| == offset - base && digits[at - base..] == EncVarint(w)
      invariant forall i :: base <= i < at ==> dAtA[i] == digits[i - base]
      invariant forall i :: 0 <= i < base || at <= i < dAtA.Length ==> dAtA[i] == old(dAtA[i])
    {
      assert digits[at - base] == digits[at - base..][0];
      assert digits[at + 1 - base..] == digits[at - base..][1..];
      SetTopBit(w % 0x80);
      dAtA[at] := Or(w % 0x80, 0x80);
      w := w / 0x80;
      at := at + 1;
    }
    assert digits[at - base] == digits[at - base..][0] == w;
    dAtA[at] := w;
  }
}
