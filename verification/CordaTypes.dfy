/**
 The values of the Corda messages, what each message's switch does with a field, and how each is
 written.  A nil slice and an empty one are the same value.
 */
module CordaTypes {
  import opened Wrappers
  import opened Varint
  import opened Decoder

  type uint32 = x: int | 0 <= x < TWO_32

  /** A message whose only field is field 1, of bytes: `SecureHash` and `PublicKey`. */
  type Blob = seq<byte>

  datatype StateRef = StateRef(txhash: Option<Blob>, index: uint32)

  datatype X500Name = X500Name(
    commonName: seq<byte>,
    organisationUnit: seq<byte>,
    organisation: seq<byte>,
    locality: seq<byte>,
    state: seq<byte>,
    country: seq<byte>)

  datatype Party = Party(name: Option<X500Name>, owningKey: Option<Blob>)

  const EMPTY_REF := StateRef(None, 0)
  const EMPTY_NAME := X500Name([], [], [], [], [], [])
  const EMPTY_PARTY := Party(None, None)

  // ---------------------------------------------------------------- switches

  function BlobField(m: Blob, i: Input): Handled<Blob> {
    if i.num == 1 then
      match Payload(i)
      case Err(e) => Fail(e)
      case Ok(s) => Done(i.rest[s.start..s.end], s.end)
    else Unknown
  }

  /** A field that holds a message is decoded on top of what the message already holds. */
  function SubMessage<M>(h: Handler<M>, held: M, i: Input): (r: Handled<M>)
    ensures !r.Unknown?
  {
    match Payload(i)
    case Err(e) => Fail(e)
    case Ok(s) =>
      match Unmarshal(h, held, i.rest[s.start..s.end])
      case Err(e) => Fail(e)
      case Ok(m) => Done(m, s.end)
  }

  function OrElse<M>(o: Option<M>, empty: M): M {
    if o.Some? then o.value else empty
  }

  function StateRefField(m: StateRef, i: Input): Handled<StateRef> {
    match i.num
    case 1 =>
      (match SubMessage(BlobField, OrElse(m.txhash, []), i)
       case Done(hash, n) => Done(m.(txhash := Some(hash)), n)
       case Fail(e) => Fail(e)
       case Unknown => Unknown)
    case 2 =>
      if i.wireType != 0 then Fail(WrongWireType)
      else
        (match ReadVarint(i.rest)
         case Err(e) => Fail(e)
         case Ok(v) => Done(m.(index := v.value % TWO_32), v.size))
    case _ => Unknown
  }

  function NameAt(m: X500Name, num: int): seq<byte>
    requires 1 <= num <= 6
  {
    match num
    case 1 => m.commonName
    case 2 => m.organisationUnit
    case 3 => m.organisation
    case 4 => m.locality
    case 5 => m.state
    case _ => m.country
  }

  function WithName(m: X500Name, num: int, v: seq<byte>): (m': X500Name)
    requires 1 <= num <= 6
    ensures forall k :: 1 <= k <= 6 ==> NameAt(m', k) == if k == num then v else NameAt(m, k)
  {
    match num
    case 1 => m.(commonName := v)
    case 2 => m.(organisationUnit := v)
    case 3 => m.(organisation := v)
    case 4 => m.(locality := v)
    case 5 => m.(state := v)
    case _ => m.(country := v)
  }

  function NameField(m: X500Name, i: Input): Handled<X500Name> {
    if 1 <= i.num <= 6 then
      match Payload(i)
      case Err(e) => Fail(e)
      case Ok(s) => Done(WithName(m, i.num, i.rest[s.start..s.end]), s.end)
    else Unknown
  }

  function PartyField(m: Party, i: Input): Handled<Party> {
    match i.num
    case 1 =>
      (match SubMessage(NameField, OrElse(m.name, EMPTY_NAME), i)
       case Done(name, n) => Done(m.(name := Some(name)), n)
       case Fail(e) => Fail(e)
       case Unknown => Unknown)
    case 2 =>
      (match SubMessage(BlobField, OrElse(m.owningKey, []), i)
       case Done(key, n) => Done(m.(owningKey := Some(key)), n)
       case Fail(e) => Fail(e)
       case Unknown => Unknown)
    case _ => Unknown
  }

  // ---------------------------------------------------------------- locality of the switches

  lemma BlobLocal()
    ensures Local(BlobField)
  {
    forall m, i, t, base ensures LocalAt(BlobField, m, i, t, base) {
      hide Payload;
      if Payload(i).Ok? {
        PayloadLocal(i, t, base);
      }
    }
  }

  /** SubMessage does not ask for a number, so only its success is local. */
  lemma SubMessageLocal<M(!new)>(h: Handler<M>, held: M, i: Input, t: seq<byte>, base: nat)
    requires SubMessage(h, held, i).Done?
    ensures SubMessage(h, held, i).size <= |i.rest|
    ensures SubMessage(h, held, i.(rest := i.rest + t)) == SubMessage(h, held, i)
    ensures base + |i.rest| < TWO_63 ==> SubMessage(h, held, i.(base := base)) == SubMessage(h, held, i)
  {
    hide Payload, Unmarshal;
    PayloadLocal(i, t, base);
  }

  lemma StateRefLocal()
    ensures Local(StateRefField)
  {
    forall m, i, t, base ensures LocalAt(StateRefField, m, i, t, base) {
      hide SubMessage, ReadVarint;
      if i.num == 1 {
        if SubMessage(BlobField, OrElse(m.txhash, []), i).Done? {
          SubMessageLocal(BlobField, OrElse(m.txhash, []), i, t, base);
        }
      } else if i.num == 2 {
        ReadVarintStable(i.rest, t);
      }
    }
  }

  lemma NameLocal()
    ensures Local(NameField)
  {
    forall m, i, t, base ensures LocalAt(NameField, m, i, t, base) {
      hide Payload;
      if Payload(i).Ok? {
        PayloadLocal(i, t, base);
      }
    }
  }

  lemma PartyLocal()
    ensures Local(PartyField)
  {
    hide LocalAt, PartyField;
    forall m, i, t, base ensures LocalAt(PartyField, m, i, t, base) {
      PartyLocalAt(m, i, t, base);
    }
  }

  lemma PartyLocalAt(m: Party, i: Input, t: seq<byte>, base: nat)
    ensures LocalAt(PartyField, m, i, t, base)
  {
    hide SubMessage;
    if i.num == 1 {
      if SubMessage(NameField, OrElse(m.name, EMPTY_NAME), i).Done? {
        SubMessageLocal(NameField, OrElse(m.name, EMPTY_NAME), i, t, base);
      }
    } else if i.num == 2 {
      if SubMessage(BlobField, OrElse(m.owningKey, []), i).Done? {
        SubMessageLocal(BlobField, OrElse(m.owningKey, []), i, t, base);
      }
    }
  }

  // ---------------------------------------------------------------- encodings

  function EncBlob(m: Blob): seq<byte> {
    OptField(1, m)
  }

  /** Message fields are written when they are present, even when empty. */
  function SubField(num: nat, o: Option<seq<byte>>): seq<byte>
    requires 1 <= num <= 15
  {
    if o.Some? then LenField(num, o.value) else []
  }

  function EncIndex(index: uint32): seq<byte> {
    if index == 0 then [] else [0x10] + EncVarint(index)
  }

  function EncHash(o: Option<Blob>): seq<byte> {
    SubField(1, if o.Some? then Some(EncBlob(o.value)) else None)
  }

  function EncStateRef(m: StateRef): seq<byte> {
    EncHash(m.txhash) + EncIndex(m.index)
  }

  /** The fields of a name from number k on. */
  function EncNameFrom(m: X500Name, k: nat): seq<byte>
    requires 1 <= k <= 7
    decreases 7 - k
  {
    if k == 7 then [] else OptField(k, NameAt(m, k)) + EncNameFrom(m, k + 1)
  }

  function EncName(m: X500Name): seq<byte> {
    EncNameFrom(m, 1)
  }

  lemma NameSuffixes(m: X500Name)
    ensures EncNameFrom(m, 7) == []
    ensures forall k: nat :: 1 <= k <= 7 ==> |EncNameFrom(m, k)| <= |EncName(m)|
  {
    forall k: nat | 1 <= k <= 7 ensures |EncNameFrom(m, k)| <= |EncNameFrom(m, 1)| {
      NameSuffix(m, k, 1);
    }
  }

  lemma {:induction false} NameSuffix(m: X500Name, k: nat, j: nat)
    requires 1 <= j <= k <= 7
    ensures |EncNameFrom(m, k)| <= |EncNameFrom(m, j)|
    decreases k - j
  {
    if j < k {
      NameSuffix(m, k, j + 1);
    }
  }

  function EncPartyName(o: Option<X500Name>): seq<byte> {
    SubField(1, if o.Some? then Some(EncName(o.value)) else None)
  }

  function EncPartyKey(o: Option<Blob>): seq<byte> {
    SubField(2, if o.Some? then Some(EncBlob(o.value)) else None)
  }

  function EncParty(m: Party): seq<byte> {
    EncPartyName(m.name) + EncPartyKey(m.owningKey)
  }

  // ---------------------------------------------------------------- round trips

  lemma LenFieldSize(num: nat, p: seq<byte>)
    requires 1 <= num <= 15
    ensures |LenField(num, p)| == LenSize(|p|)
  {
  }

  lemma OptFieldSize(num: nat, p: seq<byte>)
    requires 1 <= num <= 15
    ensures |OptField(num, p)| <= LenSize(|p|)
  {
  }

  lemma BlobRoundTrip(m: Blob)
    requires |EncBlob(m)| < TWO_63
    ensures Unmarshal(BlobField, [], EncBlob(m)) == Ok(m)
  {
    if m != [] {
      PayloadOfField(0, 1, m, []);
      DecodeLenField(BlobField, [], 0, 1, m, [], m);
      assert EncBlob(m) + [] == EncBlob(m);
    }
  }

  /** A message field that is written is read back whole by the message it is a field of. */
  lemma SubMessageOfField<M>(h: Handler<M>, empty: M, base: nat, num: nat, p: seq<byte>, t: seq<byte>, m: M)
    requires base + LenSize(|p|) < TWO_63
    requires Unmarshal(h, empty, p) == Ok(m)
    ensures SubMessage(h, empty, FieldInput(base, num, p, t)) == Done(m, VarintSize(|p|) + |p|)
  {
    hide Payload, Unmarshal, FieldInput;
    PayloadOfField(base, num, p, t);
  }

  lemma DecodeHash(m: StateRef, base: nat, o: Option<Blob>, t: seq<byte>)
    requires m.txhash == None && base + |EncHash(o)| < TWO_63
    ensures Decode(StateRefField, m, base, EncHash(o) + t)
         == Decode(StateRefField, m.(txhash := o), base + |EncHash(o)|, t)
  {
    hide Decode, SubMessage, Unmarshal, EncBlob;
    if o == None {
      assert [] + t == t;
    } else {
      var p := EncBlob(o.value);
      BlobRoundTrip(o.value);
      SubMessageOfField(BlobField, [], base, 1, p, t, o.value);
      DecodeLenField(StateRefField, m, base, 1, p, t, m.(txhash := o));
    }
  }

  lemma DecodeIndex(m: StateRef, base: nat, index: uint32)
    requires m.index == 0
    ensures Decode(StateRefField, m, base, EncIndex(index)) == Ok(m.(index := index))
  {
    hide Decode, EncVarint, ReadVarint, SubMessage;
    var m' := m.(index := index);
    if index != 0 {
      ReadVarintOfEncoding(index, []);
      DecodeVarintField(StateRefField, m, base, 2, index, [], m');
      assert EncIndex(index) + [] == EncIndex(index);
    }
    DecodeNothing(StateRefField, m', base + |EncIndex(index)|);
  }

  lemma StateRefRoundTrip(m: StateRef)
    requires |EncStateRef(m)| < TWO_63
    ensures Unmarshal(StateRefField, EMPTY_REF, EncStateRef(m)) == Ok(m)
  {
    hide Decode, EncHash, EncIndex;
    DecodeHash(EMPTY_REF, 0, m.txhash, EncIndex(m.index));
    DecodeIndex(EMPTY_REF.(txhash := m.txhash), |EncHash(m.txhash)|, m.index);
  }

  /** The fields of m with numbers below k. */
  function NameUpTo(m: X500Name, k: nat): X500Name
    requires 1 <= k <= 7
  {
    if k == 1 then EMPTY_NAME else WithName(NameUpTo(m, k - 1), k - 1, NameAt(m, k - 1))
  }

  lemma {:induction false} NameUpToAt(m: X500Name, k: nat, j: nat)
    requires 1 <= k <= 7 && 1 <= j <= 6
    ensures NameAt(NameUpTo(m, k), j) == if j < k then NameAt(m, j) else []
  {
    if k > 1 {
      NameUpToAt(m, k - 1, j);
    }
  }

  lemma NameUpToStep(m: X500Name, k: nat)
    requires 1 <= k <= 6
    ensures NameUpTo(m, k + 1) == WithName(NameUpTo(m, k), k, NameAt(m, k))
  {
  }

  lemma NameUpToAll(m: X500Name)
    ensures NameUpTo(m, 7) == m
  {
    forall j: nat | 1 <= j <= 6 ensures NameAt(NameUpTo(m, 7), j) == NameAt(m, j) {
      NameUpToAt(m, 7, j);
    }
    hide NameUpTo;
    SameNames(NameUpTo(m, 7), m);
  }

  lemma SameNames(a: X500Name, b: X500Name)
    requires forall j: nat :: 1 <= j <= 6 ==> NameAt(a, j) == NameAt(b, j)
    ensures a == b
  {
    assert NameAt(a, 1) == NameAt(b, 1) && NameAt(a, 2) == NameAt(b, 2) && NameAt(a, 3) == NameAt(b, 3);
    assert NameAt(a, 4) == NameAt(b, 4) && NameAt(a, 5) == NameAt(b, 5) && NameAt(a, 6) == NameAt(b, 6);
  }

  lemma DecodeNameField(m: X500Name, base: nat, k: nat, v: seq<byte>, t: seq<byte>)
    requires 1 <= k <= 6 && base + |OptField(k, v)| < TWO_63 && NameAt(m, k) == []
    ensures Decode(NameField, m, base, OptField(k, v) + t)
         == Decode(NameField, WithName(m, k, v), base + |OptField(k, v)|, t)
  {
    hide Decode, WithName, NameAt, Payload;
    var m' := WithName(m, k, v);
    if v == [] {
      assert [] + t == t;
      SameNames(m, m');
    } else {
      PayloadOfField(base, k, v, t);
      DecodeLenField(NameField, m, base, k, v, t, m');
    }
  }

  lemma {:induction false} DecodeNameFrom(m: X500Name, base: nat, k: nat)
    requires 1 <= k <= 7 && base + |EncNameFrom(m, k)| < TWO_63
    ensures Decode(NameField, NameUpTo(m, k), base, EncNameFrom(m, k)) == Ok(m)
    decreases 7 - k
  {
    hide Decode, OptField, NameAt, WithName, NameUpTo;
    if k == 7 {
      NameUpToAll(m);
      DecodeNothing(NameField, m, base);
    } else {
      NameUpToStep(m, k);
      NameUpToAt(m, k, k);
      DecodeNameField(NameUpTo(m, k), base, k, NameAt(m, k), EncNameFrom(m, k + 1));
      DecodeNameFrom(m, base + |OptField(k, NameAt(m, k))|, k + 1);
    }
  }

  lemma NameRoundTrip(m: X500Name)
    requires |EncName(m)| < TWO_63
    ensures Unmarshal(NameField, EMPTY_NAME, EncName(m)) == Ok(m)
  {
    DecodeNameFrom(m, 0, 1);
  }

  lemma DecodePartyName(m: Party, base: nat, o: Option<X500Name>, t: seq<byte>)
    requires m.name == None && base + |EncPartyName(o)| < TWO_63
    ensures Decode(PartyField, m, base, EncPartyName(o) + t)
         == Decode(PartyField, m.(name := o), base + |EncPartyName(o)|, t)
  {
    hide Decode, SubMessage, Unmarshal, EncName;
    if o == None {
      assert [] + t == t;
    } else {
      var p := EncName(o.value);
      NameRoundTrip(o.value);
      SubMessageOfField(NameField, EMPTY_NAME, base, 1, p, t, o.value);
      DecodeLenField(PartyField, m, base, 1, p, t, m.(name := o));
    }
  }

  lemma DecodePartyKey(m: Party, base: nat, o: Option<Blob>)
    requires m.owningKey == None && base + |EncPartyKey(o)| < TWO_63
    ensures Decode(PartyField, m, base, EncPartyKey(o)) == Ok(m.(owningKey := o))
  {
    if o.Some? {
      var p := EncBlob(o.value);
      assert EncPartyKey(o) + [] == EncPartyKey(o);
      BlobRoundTrip(o.value);
      hide SubMessage, Unmarshal, EncBlob;
      SubMessageOfField(BlobField, [], base, 2, p, [], o.value);
      DecodeLenField(PartyField, m, base, 2, p, [], m.(owningKey := o));
    }
  }

  lemma PartyRoundTrip(m: Party)
    requires |EncParty(m)| < TWO_63
    ensures Unmarshal(PartyField, EMPTY_PARTY, EncParty(m)) == Ok(m)
  {
    hide Decode, EncPartyName, EncPartyKey;
    DecodePartyName(EMPTY_PARTY, 0, m.name, EncPartyKey(m.owningKey));
    DecodePartyKey(EMPTY_PARTY.(name := m.name), |EncPartyName(m.name)|, m.owningKey);
  }

  // ---------------------------------------------------------------- canonical forms

  function BlobSize(m: Blob): nat { |EncBlob(m)| }
  function StateRefSize(m: StateRef): nat { |EncStateRef(m)| }
  function NameSize(m: X500Name): nat { |EncName(m)| }
  function PartySize(m: Party): nat { |EncParty(m)| }

  lemma LenSizeMonotone(a: nat, b: nat)
    requires a <= b
    ensures LenSize(a) <= LenSize(b)
  {
    SizeMonotone(a, b);
  }

  lemma LenSizeSubadditive(a: nat, b: nat)
    ensures LenSize(a + b) < LenSize(a) + LenSize(b)
  {
    SizeSubadditive(a, b);
  }

  lemma PayloadIsRoomy(i: Input)
    requires Payload(i).Ok?
    ensures var s := Payload(i).value; LenSize(s.end - s.start) <= 1 + s.end
  {
    ExtentIsRoomy(i.base, i.rest);
  }

  lemma BlobGrows(m: Blob, i: Input)
    ensures BlobField(m, i).Done? ==> BlobSize(BlobField(m, i).message) <= BlobSize(m) + 1 + BlobField(m, i).size
  {
    hide Payload;
    if i.num == 1 && Payload(i).Ok? {
      PayloadIsRoomy(i);
      LenFieldSize(1, BlobField(m, i).message);
    }
  }

  lemma BlobNeverGrows(m: Blob, r: seq<byte>)
    requires Unmarshal(BlobField, m, r).Ok?
    ensures |EncBlob(Unmarshal(BlobField, m, r).value)| <= |EncBlob(m)| + |r|
  {
    forall m, i ensures BlobField(m, i).Done? ==> BlobSize(BlobField(m, i).message) <= BlobSize(m) + 1 + BlobField(m, i).size {
      BlobGrows(m, i);
    }
    hide BlobField, Decode;
    DecodeGrows(BlobField, BlobSize, m, 0, r);
  }

  lemma {:induction false} NameFromGrows(m: X500Name, num: nat, v: seq<byte>, k: nat)
    requires 1 <= k <= 7 && 1 <= num <= 6
    ensures |EncNameFrom(WithName(m, num, v), k)| <= |EncNameFrom(m, k)| + if k <= num then LenSize(|v|) else 0
    decreases 7 - k
  {
    if k < 7 {
      hide WithName, NameAt, OptField, LenSize;
      var m' := WithName(m, num, v);
      NameFromGrows(m, num, v, k + 1);
      OptFieldSize(k, v);
      assert |EncNameFrom(m', k)| == |OptField(k, NameAt(m', k))| + |EncNameFrom(m', k + 1)|;
    }
  }

  lemma NameGrows(m: X500Name, i: Input)
    ensures NameField(m, i).Done? ==> NameSize(NameField(m, i).message) <= NameSize(m) + 1 + NameField(m, i).size
  {
    hide Payload, WithName, EncNameFrom;
    if 1 <= i.num <= 6 && Payload(i).Ok? {
      var s := Payload(i).value;
      PayloadIsRoomy(i);
      NameFromGrows(m, i.num, i.rest[s.start..s.end], 1);
    }
  }

  lemma NameNeverGrows(m: X500Name, r: seq<byte>)
    requires Unmarshal(NameField, m, r).Ok?
    ensures |EncName(Unmarshal(NameField, m, r).value)| <= |EncName(m)| + |r|
  {
    forall m, i ensures NameField(m, i).Done? ==> NameSize(NameField(m, i).message) <= NameSize(m) + 1 + NameField(m, i).size {
      NameGrows(m, i);
    }
    hide NameField, Decode, EncNameFrom;
    DecodeGrows(NameField, NameSize, m, 0, r);
  }

  /**
   A message field of old size `was`, if it was there, takes at most the room of its new payload
   more when the message in it grew by no more than that payload.
   */
  lemma SubFieldGrows(num: nat, was: Option<seq<byte>>, now: seq<byte>, i: Input)
    requires 1 <= num <= 15 && Payload(i).Ok?
    requires var s := Payload(i).value; |now| <= (if was.Some? then |was.value| else 0) + (s.end - s.start)
    ensures |SubField(num, Some(now))| <= |SubField(num, was)| + 1 + Payload(i).value.end
  {
    hide Payload, LenSize;
    PayloadIsRoomy(i);
    var s := Payload(i).value;
    LenFieldSize(num, now);
    if was.Some? {
      LenFieldSize(num, was.value);
      LenSizeMonotone(|now|, |was.value| + (s.end - s.start));
      LenSizeSubadditive(|was.value|, s.end - s.start);
    } else {
      LenSizeMonotone(|now|, s.end - s.start);
    }
  }

  lemma StateRefGrows(m: StateRef, i: Input)
    ensures StateRefField(m, i).Done? ==>
              StateRefSize(StateRefField(m, i).message) <= StateRefSize(m) + 1 + StateRefField(m, i).size
  {
    hide Payload, ReadVarint, Unmarshal, EncBlob, LenField;
    if StateRefField(m, i).Done? {
      if i.num == 1 {
        var s := Payload(i).value;
        var held := OrElse(m.txhash, []);
        BlobNeverGrows(held, i.rest[s.start..s.end]);
        EmptyBlob();
        SubFieldGrows(1, if m.txhash.Some? then Some(EncBlob(held)) else None,
                      EncBlob(StateRefField(m, i).message.txhash.value), i);
      } else {
        var v := ReadVarint(i.rest).value;
        CanonicalIsShortest(i.rest);
        SizeMonotone(v.value % TWO_32, v.value);
      }
    }
  }

  lemma EmptyBlob()
    ensures EncBlob([]) == []
  {
  }

  lemma EmptyName()
    ensures EncName(EMPTY_NAME) == []
  {
    assert EncNameFrom(EMPTY_NAME, 5) == [];
    assert EncNameFrom(EMPTY_NAME, 3) == [];
  }

  lemma StateRefNeverGrows(m: StateRef, r: seq<byte>)
    requires Unmarshal(StateRefField, m, r).Ok?
    ensures |EncStateRef(Unmarshal(StateRefField, m, r).value)| <= |EncStateRef(m)| + |r|
  {
    forall m, i ensures StateRefField(m, i).Done? ==>
                          StateRefSize(StateRefField(m, i).message) <= StateRefSize(m) + 1 + StateRefField(m, i).size {
      StateRefGrows(m, i);
    }
    hide StateRefField, Decode, EncStateRef;
    DecodeGrows(StateRefField, StateRefSize, m, 0, r);
  }

  lemma PartyGrows(m: Party, i: Input)
    ensures PartyField(m, i).Done? ==> PartySize(PartyField(m, i).message) <= PartySize(m) + 1 + PartyField(m, i).size
  {
    hide Payload, Unmarshal, EncBlob, EncName, LenField;
    if PartyField(m, i).Done? {
      var s := Payload(i).value;
      if i.num == 1 {
        var held := OrElse(m.name, EMPTY_NAME);
        NameNeverGrows(held, i.rest[s.start..s.end]);
        EmptyName();
        SubFieldGrows(1, if m.name.Some? then Some(EncName(held)) else None,
                      EncName(PartyField(m, i).message.name.value), i);
      } else {
        var held := OrElse(m.owningKey, []);
        BlobNeverGrows(held, i.rest[s.start..s.end]);
        EmptyBlob();
        SubFieldGrows(2, if m.owningKey.Some? then Some(EncBlob(held)) else None,
                      EncBlob(PartyField(m, i).message.owningKey.value), i);
      }
    }
  }

  lemma PartyNeverGrows(m: Party, r: seq<byte>)
    requires Unmarshal(PartyField, m, r).Ok?
    ensures |EncParty(Unmarshal(PartyField, m, r).value)| <= |EncParty(m)| + |r|
  {
    forall m, i ensures PartyField(m, i).Done? ==>
                          PartySize(PartyField(m, i).message) <= PartySize(m) + 1 + PartyField(m, i).size {
      PartyGrows(m, i);
    }
    hide PartyField, Decode, EncParty;
    DecodeGrows(PartyField, PartySize, m, 0, r);
  }

  /**
   Canonicalisation: whatever bytes a message was accepted from, writing it again takes no more of
   them and reads back as the same message.
   */
  lemma BlobCanonical(r: seq<byte>)
    requires |r| < TWO_63 && Unmarshal(BlobField, [], r).Ok?
    ensures var m := Unmarshal(BlobField, [], r).value;
            |EncBlob(m)| <= |r| && Unmarshal(BlobField, [], EncBlob(m)) == Ok(m)
  {
    hide Unmarshal, EncBlob;
    EmptyBlob();
    BlobNeverGrows([], r);
    BlobRoundTrip(Unmarshal(BlobField, [], r).value);
  }

  lemma StateRefCanonical(r: seq<byte>)
    requires |r| < TWO_63 && Unmarshal(StateRefField, EMPTY_REF, r).Ok?
    ensures var m := Unmarshal(StateRefField, EMPTY_REF, r).value;
            |EncStateRef(m)| <= |r| && Unmarshal(StateRefField, EMPTY_REF, EncStateRef(m)) == Ok(m)
  {
    assert EncStateRef(EMPTY_REF) == [];
    hide Unmarshal, EncStateRef;
    StateRefNeverGrows(EMPTY_REF, r);
    StateRefRoundTrip(Unmarshal(StateRefField, EMPTY_REF, r).value);
  }

  lemma NameCanonical(r: seq<byte>)
    requires |r| < TWO_63 && Unmarshal(NameField, EMPTY_NAME, r).Ok?
    ensures var m := Unmarshal(NameField, EMPTY_NAME, r).value;
            |EncName(m)| <= |r| && Unmarshal(NameField, EMPTY_NAME, EncName(m)) == Ok(m)
  {
    hide Unmarshal, EncName;
    EmptyName();
    NameNeverGrows(EMPTY_NAME, r);
    NameRoundTrip(Unmarshal(NameField, EMPTY_NAME, r).value);
  }

  lemma PartyCanonical(r: seq<byte>)
    requires |r| < TWO_63 && Unmarshal(PartyField, EMPTY_PARTY, r).Ok?
    ensures var m := Unmarshal(PartyField, EMPTY_PARTY, r).value;
            |EncParty(m)| <= |r| && Unmarshal(PartyField, EMPTY_PARTY, EncParty(m)) == Ok(m)
  {
    assert EncParty(EMPTY_PARTY) == [];
    hide Unmarshal, EncParty;
    PartyNeverGrows(EMPTY_PARTY, r);
    PartyRoundTrip(Unmarshal(PartyField, EMPTY_PARTY, r).value);
  }
}
