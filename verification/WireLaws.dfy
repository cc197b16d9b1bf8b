/**
 What the bytes are: the digits of a number, which field number carries which field, and how a field
 that is given again is merged.  Nothing here goes through the tables that encoding and decoding share.
 */
module WireLaws {
  import opened Wrappers
  import opened Varint
  import opened Skipper
  import opened Decoder
  import opened CordaTypes
  import opened BankTypes
  import opened BankLaws

  // ---------------------------------------------------------------- numbers

  /** The number that base-128 digits stand for, the least significant first. */
  function Weighted(bs: seq<byte>): nat {
    if bs == [] then 0 else bs[0] % 0x80 + 0x80 * Weighted(bs[1..])
  }

  /** All bytes but the last have the continuation bit. */
  predicate Terminated(bs: seq<byte>) {
    bs != [] && forall i :: 0 <= i < |bs| ==> (bs[i] >= 0x80 <==> i < |bs| - 1)
  }

  /** A number is written in digits that stand for it, with no zero digit at the end. */
  lemma {:induction false} WrittenDigits(v: nat)
    ensures var bs := EncVarint(v);
            Weighted(bs) == v && Terminated(bs) && (|bs| > 1 ==> bs[|bs| - 1] != 0)
    decreases v
  {
    if v >= 0x80 {
      WrittenDigits(v / 0x80);
      var bs, rest := EncVarint(v), EncVarint(v / 0x80);
      assert bs == [v % 0x80 + 0x80] + rest && bs[1..] == rest;
      assert forall i :: 0 < i < |bs| ==> bs[i] == rest[i - 1];
    }
  }

  lemma {:induction false} DigitsAre(bs: seq<byte>, t: seq<byte>, k: nat)
    requires Terminated(bs) && k + |bs| <= 10
    ensures Digits(bs + t, k) == Ok(Scan(Weighted(bs), |bs|))
    decreases |bs|
  {
    assert (bs + t)[0] == bs[0];
    if |bs| > 1 {
      assert forall i :: 0 <= i < |bs[1..]| ==> bs[1..][i] == bs[i + 1];
      DigitsAre(bs[1..], t, k + 1);
      assert (bs + t)[1..] == bs[1..] + t;
    } else {
      assert bs[1..] == [];
    }
  }

  lemma {:induction false} DigitsRunOn(r: seq<byte>, k: nat)
    requires k <= 10 && forall i :: 0 <= i < |r| && i < 10 - k ==> r[i] >= 0x80
    ensures Digits(r, k) == Err(if |r| < 10 - k then UnexpectedEOF else IntOverflow)
    decreases |r|
  {
    if r != [] && k < 10 {
      assert forall i :: 0 <= i < |r[1..]| ==> r[1..][i] == r[i + 1];
      DigitsRunOn(r[1..], k + 1);
    }
  }

  /**
   All inputs: up to ten digits are read modulo 2^64, minimal or not, whatever follows; ten bytes that
   all go on overflow, and an input that ends before is cut off.
   */
  lemma ReadDigits(bs: seq<byte>, t: seq<byte>)
    ensures Terminated(bs) && |bs| <= 10 ==> ReadVarint(bs + t) == Ok(Scan(Weighted(bs) % TWO_64, |bs|))
    ensures (forall i :: 0 <= i < |bs| && i < 10 ==> bs[i] >= 0x80) ==>
              ReadVarint(bs) == Err(if |bs| < 10 then UnexpectedEOF else IntOverflow)
  {
    if Terminated(bs) && |bs| <= 10 {
      DigitsAre(bs, t, 0);
      LowIsRemainder(Weighted(bs), 64);
      Powers();
    }
    if forall i :: 0 <= i < |bs| && i < 10 ==> bs[i] >= 0x80 {
      DigitsRunOn(bs, 0);
    }
  }

  /**
   A tag: the low three bits are the wire type and the rest is the number, of which 32 bits are kept as a
   signed one.
   */
  lemma TagBits(num: nat, wireType: nat, t: seq<byte>)
    requires wireType < 8 && 8 * num + wireType < TWO_64
    ensures var v := num % TWO_32;
            ReadTag(EncVarint(8 * num + wireType) + t)
            == if wireType == 4 then Err(EndGroupForNonGroup)
               else if v == 0 || v >= TWO_31 then Err(IllegalTag)
               else Ok(Tag(v, wireType, VarintSize(8 * num + wireType)))
  {
    var w := 8 * num + wireType;
    hide ReadVarint, EncVarint, VarintSize, Low;
    ReadVarintOfEncoding(w, t);
    assert w / 8 == num && w % 8 == wireType;
    LowIsRemainder(num, 32);
    Powers();
  }

  /** A length is refused when it is negative as an `int`, and when less than that is there. */
  lemma LengthErrors(base: nat, n: nat, p: seq<byte>)
    requires n < TWO_64
    ensures n >= TWO_63 ==> Extent(base, EncVarint(n) + p) == Err(InvalidLength)
    ensures n < TWO_63 && |p| < n && base + VarintSize(n) + n < TWO_63 ==> Extent(base, EncVarint(n) + p) == Err(UnexpectedEOF)
  {
    hide ReadVarint, EncVarint, VarintSize;
    ReadVarintOfEncoding(n, p);
  }

  /** How much is skipped of a field that is not known, by its wire type; nothing checks that it is all there. */
  lemma SkippedSizes(num: nat, wireType: nat, v: nat, u: seq<byte>)
    requires wireType < 8 && wireType != 3 && 8 * num + wireType < TWO_64 && v < TWO_64
    ensures var k, x := VarintSize(8 * num + wireType), VarintSize(v);
            SkipSize(EncVarint(8 * num + wireType) + (EncVarint(v) + u))
            == if wireType == 0 then Ok(k + x)
               else if wireType == 1 then Ok(k + 8)
               else if wireType == 2 then if v >= TWO_63 || k + x + v >= TWO_63 then Err(InvalidLength) else Ok(k + x + v)
               else if wireType == 4 then Err(UnexpectedEndOfGroup)
               else if wireType == 5 then Ok(k + 4)
               else Err(IllegalWireType)
  {
    var w := 8 * num + wireType;
    var s, k := EncVarint(w) + (EncVarint(v) + u), VarintSize(w);
    SizeOfWord(w);
    SizeOfWord(v);
    assert w % 8 == wireType;
    hide ReadVarint, EncVarint, VarintSize, SkipSize;
    ReadVarintOfEncoding(w, EncVarint(v) + u);
    ReadVarintOfEncoding(v, u);
    assert s[k..] == EncVarint(v) + u;
    SkipOne(s, w, k);
  }

  /** Without a group the first field is all that is looked at. */
  lemma SkipOne(s: seq<byte>, w: nat, k: nat)
    requires s != [] && ReadVarint(s) == Ok(Scan(w, k)) && k <= |s| && w % 8 != 3
    ensures var b := SkipBody(s, w % 8, Place(k, 0));
            SkipSize(s) == if b.Err? then Err(b.error) else if b.value.at >= TWO_63 then Err(InvalidLength) else Ok(b.value.at)
  {
    hide ReadVarint;
    assert s[0..] == s;
  }

  /** A key or value inside an entry is read as length-delimited, whatever wire type its tag has. */
  lemma EntryTypesIgnored(base: nat, r: seq<byte>, p: nat, end: nat, num: nat, wireType: nat, rest: seq<byte>)
    requires (num == 1 || num == 2) && wireType < 8 && p < end <= |r|
    requires r[p..] == [8 * num + wireType] + rest && Extent(base + p + 1, rest).Ok?
    ensures var s := Extent(base + p + 1, rest).value;
            EntryPiece(base, r, p, end) == Ok(Turn(if num == 1 then Key(rest[s.start..s.end]) else Value(rest[s.start..s.end]), 1 + s.end))
  {
    DropOne(r, p, 8 * num + wireType, rest);
    ReadSmallWord(num, wireType, rest);
    hide Extent, ReadVarint, Int32, EntryPiece;
    PieceIs(base, r, p, end, num, 8 * num + wireType, Extent(base + p + 1, rest).value);
  }

  lemma DropOne(r: seq<byte>, p: nat, b: byte, rest: seq<byte>)
    requires p <= |r| && r[p..] == [b] + rest
    ensures p < |r| && r[p + 1..] == rest
  {
    assert r[p + 1..] == r[p..][1..];
  }

  lemma PieceIs(base: nat, r: seq<byte>, p: nat, end: nat, num: nat, w: nat, s: Span)
    requires p < end <= |r| && ReadVarint(r[p..]) == Ok(Scan(w, 1)) && Int32(w / 8) == num && (num == 1 || num == 2)
    requires Extent(base + p + 1, r[p + 1..]) == Ok(s)
    ensures s.start <= s.end <= |r| - p - 1
    ensures var x := r[p + 1..][s.start..s.end];
            EntryPiece(base, r, p, end) == Ok(Turn(if num == 1 then Key(x) else Value(x), 1 + s.end))
  {
    hide Extent, ReadVarint, Int32, SkipSize;
  }

  /** Any other field of an entry is skipped, and must end inside the entry. */
  lemma EntryOthers(base: nat, r: seq<byte>, p: nat, end: nat, num: nat, wireType: nat, t: seq<byte>)
    requires 3 <= num <= 15 && wireType < 8 && p < end <= |r| && base + end < TWO_63
    requires r[p..] == [8 * num + wireType] + t
    ensures var n := SkipSize(r[p..]);
            if n.Err? then EntryPiece(base, r, p, end) == Err(n.error)
            else if p + n.value <= end then EntryPiece(base, r, p, end) == Ok(Turn(Other, n.value))
            else EntryPiece(base, r, p, end).Err?
  {
    hide Extent, ReadVarint, Int32, SkipSize;
    ReadSmallWord(num, wireType, t);
  }

  /** A field that the switch refuses. */
  lemma RefusedField<M>(h: Handler<M>, m: M, num: nat, wireType: nat, t: seq<byte>, e: WireError)
    requires 1 <= num <= 15 && wireType < 8 && wireType != 4
    requires h(m, Input(num, wireType, 1, t)) == Fail(e)
    ensures Unmarshal(h, m, [8 * num + wireType] + t) == Err(e)
  {
    hide ReadTag;
    ReadSmallTag(num, wireType, t);
    assert ([8 * num + wireType] + t)[1..] == t;
  }

  /** Fields that hold bytes or messages must be length-delimited. */
  lemma WrongWireTypes(num: nat, wireType: nat, t: seq<byte>, blob: Blob, ref: StateRef, name: X500Name, party: Party, bank: Bank)
    requires 1 <= num <= 6 && wireType < 8 && wireType != 4 && wireType != 2
    ensures var bs := [8 * num + wireType] + t;
            && Unmarshal(NameField, name, bs) == Err(WrongWireType) && Unmarshal(BankField, bank, bs) == Err(WrongWireType)
            && (num <= 2 ==> Unmarshal(PartyField, party, bs) == Err(WrongWireType))
            && (num == 1 ==> Unmarshal(BlobField, blob, bs) == Err(WrongWireType) && Unmarshal(StateRefField, ref, bs) == Err(WrongWireType))
  {
    hide Unmarshal;
    RefusedField(NameField, name, num, wireType, t, WrongWireType);
    RefusedField(BankField, bank, num, wireType, t, WrongWireType);
    if num <= 2 {
      RefusedField(PartyField, party, num, wireType, t, WrongWireType);
    }
    if num == 1 {
      RefusedField(BlobField, blob, num, wireType, t, WrongWireType);
      RefusedField(StateRefField, ref, num, wireType, t, WrongWireType);
    }
  }

  /** The index must be a varint, and the entries of maps length-delimited; inside an entry nothing is checked. */
  lemma WrongWireTypesElse(wireType: nat, t: seq<byte>, ref: StateRef, strings: StringMap, balances: BalanceMap)
    requires wireType < 8 && wireType != 4
    ensures wireType != 0 ==> Unmarshal(StateRefField, ref, [16 + wireType] + t) == Err(WrongWireType)
    ensures wireType != 2 ==> Unmarshal(StringMapField, strings, [8 + wireType] + t) == Err(WrongWireType)
    ensures wireType != 2 ==> Unmarshal(BalanceMapField, balances, [8 + wireType] + t) == Err(WrongWireType)
  {
    hide Unmarshal;
    if wireType != 0 {
      RefusedField(StateRefField, ref, 2, wireType, t, WrongWireType);
    }
    if wireType != 2 {
      RefusedField(StringMapField, strings, 1, wireType, t, WrongWireType);
      RefusedField(BalanceMapField, balances, 1, wireType, t, WrongWireType);
    }
  }

  // ---------------------------------------------------------------- one field

  /** A message of one length-delimited field, when the switch takes it. */
  lemma OneField<M>(h: Handler<M>, m: M, num: nat, p: seq<byte>, m': M)
    requires 1 <= num <= 15 && |LenField(num, p)| < TWO_63
    requires h(m, FieldInput(0, num, p, [])) == Done(m', VarintSize(|p|) + |p|)
    ensures Unmarshal(h, m, LenField(num, p)) == Ok(m')
  {
    hide Decode, LenField;
    DecodeLenField(h, m, 0, num, p, [], m');
    DecodeNothing(h, m', |LenField(num, p)|);
    assert LenField(num, p) + [] == LenField(num, p);
  }

  /** A field that holds a message. */
  lemma OneSubMessage<M>(h: Handler<M>, held: M, num: nat, p: seq<byte>, v: M)
    requires 1 <= num <= 15 && |LenField(num, p)| < TWO_63 && Unmarshal(h, held, p) == Ok(v)
    ensures SubMessage(h, held, FieldInput(0, num, p, [])) == Done(v, VarintSize(|p|) + |p|)
  {
    LenFieldSize(num, p);
    hide Unmarshal, LenField;
    SubMessageOfField(h, held, 0, num, p, [], v);
  }

  lemma PayloadOfOne(num: nat, p: seq<byte>)
    requires 1 <= num <= 15 && |LenField(num, p)| < TWO_63
    ensures var i := FieldInput(0, num, p, []);
            && i.num == num && Payload(i) == Ok(Span(VarintSize(|p|), VarintSize(|p|) + |p|))
            && i.rest[VarintSize(|p|)..VarintSize(|p|) + |p|] == p
  {
    LenFieldSize(num, p);
    hide Payload, LenField;
    PayloadOfField(0, num, p, []);
  }

  // ---------------------------------------------------------------- names

  /** A name is written as its six strings under the numbers 1 to 6. */
  lemma NameNumbers(m: X500Name)
    ensures EncName(m) == OptField(1, m.commonName) + OptField(2, m.organisationUnit) + OptField(3, m.organisation)
                        + OptField(4, m.locality) + OptField(5, m.state) + OptField(6, m.country)
  {
    hide OptField;
    assert EncNameFrom(m, 6) == OptField(6, m.country) + [];
    assert EncNameFrom(m, 5) == OptField(5, m.state) + OptField(6, m.country);
    assert EncNameFrom(m, 4) == OptField(4, m.locality) + (OptField(5, m.state) + OptField(6, m.country));
    assert EncNameFrom(m, 3) == OptField(3, m.organisation) + EncNameFrom(m, 4);
    assert EncNameFrom(m, 2) == OptField(2, m.organisationUnit) + EncNameFrom(m, 3);
    assert EncNameFrom(m, 1) == OptField(1, m.commonName) + EncNameFrom(m, 2);
  }

  /** A field of a name sets the string of its number, and nothing else. */
  lemma NameFieldSets(m: X500Name, num: nat, v: seq<byte>)
    requires 1 <= num <= 6 && |LenField(num, v)| < TWO_63
    ensures Unmarshal(NameField, m, LenField(num, v)) == Ok(
              if num == 1 then m.(commonName := v)
              else if num == 2 then m.(organisationUnit := v)
              else if num == 3 then m.(organisation := v)
              else if num == 4 then m.(locality := v)
              else if num == 5 then m.(state := v)
              else m.(country := v))
  {
    PayloadOfOne(num, v);
    hide Payload, LenField, Unmarshal;
    OneField(NameField, m, num, v, WithName(m, num, v));
  }

  // ---------------------------------------------------------------- the other messages

  lemma BlobNumbers(m: Blob, v: seq<byte>)
    requires |LenField(1, v)| < TWO_63
    ensures EncBlob(m) == OptField(1, m)
    ensures Unmarshal(BlobField, m, LenField(1, v)) == Ok(v)
  {
    PayloadOfOne(1, v);
    hide Payload, LenField, Unmarshal;
    OneField(BlobField, m, 1, v, v);
  }

  /** The hash has number 1 and is merged into the one that is there; the index has number 2. */
  lemma StateRefNumbers(m: StateRef, p: seq<byte>, hash: Blob)
    requires |LenField(1, p)| < TWO_63
    requires Unmarshal(BlobField, if m.txhash.Some? then m.txhash.value else [], p) == Ok(hash)
    ensures Unmarshal(StateRefField, m, LenField(1, p)) == Ok(m.(txhash := Some(hash)))
    ensures EncStateRef(m) == (if m.txhash.Some? then LenField(1, OptField(1, m.txhash.value)) else [])
                            + (if m.index != 0 then [0x10] + EncVarint(m.index) else [])
  {
    hide LenField, Unmarshal, SubMessage;
    OneSubMessage(BlobField, OrElse(m.txhash, []), 1, p, hash);
    OneField(StateRefField, m, 1, p, m.(txhash := Some(hash)));
  }

  lemma IndexNumber(m: StateRef, v: nat)
    requires v < TWO_64
    ensures Unmarshal(StateRefField, m, [0x10] + EncVarint(v)) == Ok(m.(index := v % TWO_32))
  {
    hide Decode, EncVarint, ReadVarint, SubMessage;
    var m' := m.(index := v % TWO_32);
    ReadVarintOfEncoding(v, []);
    assert EncVarint(v) + [] == EncVarint(v) && [0x10] + EncVarint(v) + [] == [0x10] + EncVarint(v);
    DecodeVarintField(StateRefField, m, 0, 2, v, [], m');
    DecodeNothing(StateRefField, m', 1 + VarintSize(v));
  }

  /** The name has number 1 and the key number 2; each is merged into the one that is there. */
  lemma PartyNumbers(m: Party, p: seq<byte>, name: X500Name)
    requires |LenField(1, p)| < TWO_63
    requires Unmarshal(NameField, if m.name.Some? then m.name.value else EMPTY_NAME, p) == Ok(name)
    ensures Unmarshal(PartyField, m, LenField(1, p)) == Ok(m.(name := Some(name)))
    ensures EncParty(m) == (if m.name.Some? then LenField(1, EncName(m.name.value)) else [])
                         + (if m.owningKey.Some? then LenField(2, OptField(1, m.owningKey.value)) else [])
  {
    hide LenField, Unmarshal, SubMessage;
    OneSubMessage(NameField, OrElse(m.name, EMPTY_NAME), 1, p, name);
    OneField(PartyField, m, 1, p, m.(name := Some(name)));
  }

  lemma KeyNumber(m: Party, p: seq<byte>, key: Blob)
    requires |LenField(2, p)| < TWO_63
    requires Unmarshal(BlobField, if m.owningKey.Some? then m.owningKey.value else [], p) == Ok(key)
    ensures Unmarshal(PartyField, m, LenField(2, p)) == Ok(m.(owningKey := Some(key)))
  {
    hide LenField, Unmarshal, SubMessage;
    OneSubMessage(BlobField, OrElse(m.owningKey, []), 2, p, key);
    OneField(PartyField, m, 2, p, m.(owningKey := Some(key)));
  }

  // ---------------------------------------------------------------- maps

  /** An entry is a message with the key under number 1 and the value under number 2, in either order. */
  lemma StringEntryNumbers(m: StringMap, key: Str, v: Str)
    requires |LenField(1, LenField(1, key) + LenField(2, v))| < TWO_63
    ensures EncStrings([Entry(key, v)]) == LenField(1, LenField(1, key) + LenField(2, v))
    ensures Unmarshal(StringMapField, m, LenField(1, LenField(1, key) + LenField(2, v))) == Ok(m[key := v])
  {
    var es, p: seq<byte> := [Entry(key, v)], LenField(1, key) + LenField(2, v);
    assert EncEntry(key, EncString(v)) == EntryFields(Some(key), Some(v)) == p;
    assert es[1..] == [] && EncStrings(es) == LenField(1, p) + EncStrings([]) == LenField(1, p);
    LenFieldSize(1, p);
    hide LenField, Unmarshal, MapField, EntryFields;
    MapFieldOfEntry(StringValue, [], m, 0, Some(key), Some(v), v, []);
    OneField(StringMapField, m, 1, p, m[key := v]);
  }

  /** In a map of maps the value is a string map, read into a new one, or not there at all. */
  lemma BalanceEntryNumbers(m: BalanceMap, key: Str, p: seq<byte>, v: StringMap)
    requires |LenField(1, LenField(1, key) + LenField(2, p))| < TWO_63 && Unmarshal(StringMapField, map[], p) == Ok(v)
    ensures Unmarshal(BalanceMapField, m, LenField(1, LenField(1, key) + LenField(2, p))) == Ok(m[key := Some(v)])
    ensures Unmarshal(BalanceMapField, m, LenField(1, LenField(1, key))) == Ok(m[key := None])
  {
    var q, k := LenField(1, key) + LenField(2, p), LenField(1, key);
    assert EntryFields(Some(key), Some(p)) == q && EntryFields(Some(key), None) == k + [] == k;
    LenFieldSize(1, q);
    LenFieldSize(1, k);
    LenSizeMonotone(|k|, |q|);
    hide LenField, Unmarshal, MapField, EntryFields, LenSize;
    EntryFitsIn(q);
    EntryFitsIn(k);
    MapFieldOfEntry(BalanceValue, None, m, 0, Some(key), Some(p), Some(v), []);
    OneField(BalanceMapField, m, 1, q, m[key := Some(v)]);
    MapFieldOfEntry(BalanceValue, None, m, 0, Some(key), None, None, []);
    OneField(BalanceMapField, m, 1, k, m[key := None]);
  }

  /** A map of maps is written so too, entry by entry. */
  lemma BalanceEntryWritten(key: Str, o: Option<Strings>)
    ensures EncBalances([Entry(key, o)])
         == LenField(1, LenField(1, key) + if o.Some? then LenField(2, EncStrings(o.value)) else [])
  {
    var es := [Entry(key, o)];
    hide LenField, EncStrings;
    assert es[1..] == [] && EncBalances(es) == LenField(1, EncEntry(key, EncBalance(o))) + EncBalances([]);
  }

  lemma EntryFitsIn(p: seq<byte>)
    ensures LenSize(|p|) == 1 + VarintSize(|p|) + |p|
  {
  }

  // ---------------------------------------------------------------- the bank

  lemma {:induction false} PartiesInOrder(ps: seq<Party>, p: Party)
    ensures EncParties(ps + [p]) == EncParties(ps) + LenField(1, EncParty(p))
  {
    hide LenField, EncParty;
    if ps == [] {
      assert ps + [p] == [p] && [p][1..] == [];
    } else {
      PartiesInOrder(ps[1..], p);
      assert (ps + [p])[1..] == ps[1..] + [p];
    }
  }

  /** A message field as it is written when it is there. */
  function Written(num: nat, o: Option<seq<byte>>): seq<byte>
    requires 1 <= num <= 15
  {
    if o.Some? then LenField(num, o.value) else []
  }

  /** A bank is written as its participants and then its fields in the order of their numbers. */
  lemma BankNumbers(f: BankForm)
    ensures EncBank(f) == EncParties(f.participants)
                        + Written(2, if f.baseId.Some? then Some(EncStateRef(f.baseId.value)) else None)
                        + Written(3, if f.allocations.Some? then Some(EncBalances(f.allocations.value)) else None)
                        + Written(4, if f.locked.Some? then Some(EncBalances(f.locked.value)) else None)
                        + Written(5, if f.minted.Some? then Some(EncBalances(f.minted.value)) else None)
                        + Written(6, if f.denoms.Some? then Some(EncStrings(f.denoms.value)) else None)
  {
    hide EncStateRef, EncBalances, EncStrings, EncParties, EncBankFrom, Written, LenField;
    BankStep(f, 2);
    BankStep(f, 3);
    BankStep(f, 4);
    BankStep(f, 5);
    BankStep(f, 6);
  }

  lemma BankStep(f: BankForm, k: nat)
    requires 2 <= k <= 6
    ensures EncBankFrom(f, k) == Written(k, PayloadAt(f, k)) + EncBankFrom(f, k + 1)
    ensures k == 6 ==> EncBankFrom(f, 7) == []
  {
    hide PayloadAt, LenField;
  }

  lemma ParticipantNumber(m: Bank, p: seq<byte>, x: Party)
    requires |LenField(1, p)| < TWO_63 && Unmarshal(PartyField, EMPTY_PARTY, p) == Ok(x)
    ensures Unmarshal(BankField, m, LenField(1, p)) == Ok(m.(participants := m.participants + [x]))
  {
    hide LenField, Unmarshal, SubMessage;
    OneSubMessage(PartyField, EMPTY_PARTY, 1, p, x);
    OneField(BankField, m, 1, p, m.(participants := m.participants + [x]));
  }

  lemma BaseIdNumber(m: Bank, p: seq<byte>, x: StateRef)
    requires |LenField(2, p)| < TWO_63
    requires Unmarshal(StateRefField, if m.baseId.Some? then m.baseId.value else EMPTY_REF, p) == Ok(x)
    ensures Unmarshal(BankField, m, LenField(2, p)) == Ok(m.(baseId := Some(x)))
  {
    hide LenField, Unmarshal, SubMessage;
    OneSubMessage(StateRefField, OrElse(m.baseId, EMPTY_REF), 2, p, x);
    OneField(BankField, m, 2, p, m.(baseId := Some(x)));
  }

  /** Allocations have number 3, locked tokens 4 and minted ones 5; each is merged into what is there. */
  lemma BalancesNumber(m: Bank, num: nat, p: seq<byte>, x: BalanceMap)
    requires 3 <= num <= 5 && |LenField(num, p)| < TWO_63
    requires var o := if num == 3 then m.allocations else if num == 4 then m.locked else m.minted;
             Unmarshal(BalanceMapField, if o.Some? then o.value else map[], p) == Ok(x)
    ensures Unmarshal(BankField, m, LenField(num, p)) == Ok(
              if num == 3 then m.(allocations := Some(x))
              else if num == 4 then m.(locked := Some(x))
              else m.(minted := Some(x)))
  {
    hide LenField, Unmarshal, SubMessage;
    var o := if num == 3 then m.allocations else if num == 4 then m.locked else m.minted;
    OneSubMessage(BalanceMapField, OrElse(o, map[]), num, p, x);
    OneField(BankField, m, num, p,
             if num == 3 then m.(allocations := Some(x)) else if num == 4 then m.(locked := Some(x)) else m.(minted := Some(x)));
  }

  lemma DenomsNumber(m: Bank, p: seq<byte>, x: StringMap)
    requires |LenField(6, p)| < TWO_63
    requires Unmarshal(StringMapField, if m.denoms.Some? then m.denoms.value else map[], p) == Ok(x)
    ensures Unmarshal(BankField, m, LenField(6, p)) == Ok(m.(denoms := Some(x)))
  {
    hide LenField, Unmarshal, SubMessage;
    OneSubMessage(StringMapField, OrElse(m.denoms, map[]), 6, p, x);
    OneField(BankField, m, 6, p, m.(denoms := Some(x)));
  }

  // ---------------------------------------------------------------- fields that are given twice

  /** Two length-delimited fields take at least the room of one with both payloads. */
  lemma JoinedFits(num: nat, x: seq<byte>, y: seq<byte>)
    requires 1 <= num <= 15
    ensures |x| + |y| <= |LenField(num, x + y)| <= |LenField(num, x)| + |LenField(num, y)|
  {
    LenFieldSize(num, x);
    LenFieldSize(num, y);
    LenFieldSize(num, x + y);
    hide LenField, VarintSize;
    LenSizeSubadditive(|x|, |y|);
  }

  /** A payload that is decoded in two parts is decoded as a whole. */
  lemma Joined<M(!new)>(h: Handler<M>, held: M, x: seq<byte>, y: seq<byte>, u: M, v: M)
    requires Concatenates(h) && |x| + |y| < TWO_63 && Unmarshal(h, held, x) == Ok(u) && Unmarshal(h, u, y) == Ok(v)
    ensures Unmarshal(h, held, x + y) == Ok(v)
  {
    hide Unmarshal;
    assert Agree(Unmarshal(h, held, x + y), Unmarshal(h, u, y));
  }

  lemma HashMerges(m: StateRef, x: seq<byte>, y: seq<byte>, u: Blob, v: Blob)
    requires |LenField(1, x)| + |LenField(1, y)| < TWO_63 && Unmarshal(BlobField, u, y) == Ok(v)
    requires Unmarshal(BlobField, if m.txhash.Some? then m.txhash.value else [], x) == Ok(u)
    ensures Unmarshal(StateRefField, m, LenField(1, x) + LenField(1, y))
         == Unmarshal(StateRefField, m, LenField(1, x + y)) == Ok(m.(txhash := Some(v)))
  {
    hide LenField, Unmarshal, Concatenates, IgnoresBeyond;
    JoinedFits(1, x, y);
    BlobLaws();
    StateRefLaws();
    Joined(BlobField, if m.txhash.Some? then m.txhash.value else [], x, y, u, v);
    StateRefNumbers(m, x + y, v);
    StateRefNumbers(m, x, u);
    StateRefNumbers(m.(txhash := Some(u)), y, v);
    Joined(StateRefField, m, LenField(1, x), LenField(1, y), m.(txhash := Some(u)), m.(txhash := Some(v)));
  }

  lemma NameMerges(m: Party, x: seq<byte>, y: seq<byte>, u: X500Name, v: X500Name)
    requires |LenField(1, x)| + |LenField(1, y)| < TWO_63 && Unmarshal(NameField, u, y) == Ok(v)
    requires Unmarshal(NameField, if m.name.Some? then m.name.value else EMPTY_NAME, x) == Ok(u)
    ensures Unmarshal(PartyField, m, LenField(1, x) + LenField(1, y))
         == Unmarshal(PartyField, m, LenField(1, x + y)) == Ok(m.(name := Some(v)))
  {
    hide LenField, Unmarshal, Concatenates, IgnoresBeyond;
    JoinedFits(1, x, y);
    NameLaws();
    PartyLaws();
    Joined(NameField, if m.name.Some? then m.name.value else EMPTY_NAME, x, y, u, v);
    PartyNumbers(m, x + y, v);
    PartyNumbers(m, x, u);
    PartyNumbers(m.(name := Some(u)), y, v);
    Joined(PartyField, m, LenField(1, x), LenField(1, y), m.(name := Some(u)), m.(name := Some(v)));
  }

  lemma KeyMerges(m: Party, x: seq<byte>, y: seq<byte>, u: Blob, v: Blob)
    requires |LenField(2, x)| + |LenField(2, y)| < TWO_63 && Unmarshal(BlobField, u, y) == Ok(v)
    requires Unmarshal(BlobField, if m.owningKey.Some? then m.owningKey.value else [], x) == Ok(u)
    ensures Unmarshal(PartyField, m, LenField(2, x) + LenField(2, y))
         == Unmarshal(PartyField, m, LenField(2, x + y)) == Ok(m.(owningKey := Some(v)))
  {
    hide LenField, Unmarshal, Concatenates, IgnoresBeyond;
    JoinedFits(2, x, y);
    BlobLaws();
    PartyLaws();
    Joined(BlobField, if m.owningKey.Some? then m.owningKey.value else [], x, y, u, v);
    KeyNumber(m, x + y, v);
    KeyNumber(m, x, u);
    KeyNumber(m.(owningKey := Some(u)), y, v);
    Joined(PartyField, m, LenField(2, x), LenField(2, y), m.(owningKey := Some(u)), m.(owningKey := Some(v)));
  }

  lemma BankConcatenates()
    ensures Concatenates(BankField)
  {
    hide Unmarshal, BankField;
    forall m, x, y | |x| + |y| < TWO_63 && Unmarshal(BankField, m, x).Ok?
      ensures Agree(Unmarshal(BankField, m, x + y), Unmarshal(BankField, Unmarshal(BankField, m, x).value, y))
    {
      BankConcat(m, x, y);
    }
  }

  lemma BaseIdMerges(m: Bank, x: seq<byte>, y: seq<byte>, u: StateRef, v: StateRef)
    requires |LenField(2, x)| + |LenField(2, y)| < TWO_63 && Unmarshal(StateRefField, u, y) == Ok(v)
    requires Unmarshal(StateRefField, if m.baseId.Some? then m.baseId.value else EMPTY_REF, x) == Ok(u)
    ensures Unmarshal(BankField, m, LenField(2, x) + LenField(2, y))
         == Unmarshal(BankField, m, LenField(2, x + y)) == Ok(m.(baseId := Some(v)))
  {
    hide LenField, Unmarshal, Concatenates, IgnoresBeyond;
    JoinedFits(2, x, y);
    StateRefLaws();
    BankConcatenates();
    Joined(StateRefField, if m.baseId.Some? then m.baseId.value else EMPTY_REF, x, y, u, v);
    BaseIdNumber(m, x + y, v);
    BaseIdNumber(m, x, u);
    BaseIdNumber(m.(baseId := Some(u)), y, v);
    Joined(BankField, m, LenField(2, x), LenField(2, y), m.(baseId := Some(u)), m.(baseId := Some(v)));
  }

  function BalancesAt(m: Bank, num: nat): BalanceMap
    requires 3 <= num <= 5
  {
    var o := if num == 3 then m.allocations else if num == 4 then m.locked else m.minted;
    if o.Some? then o.value else map[]
  }

  /** Entries of a map field that is given again are added to those that are there. */
  lemma BalancesMerge(m: Bank, num: nat, x: seq<byte>, y: seq<byte>, u: BalanceMap, v: BalanceMap)
    requires 3 <= num <= 5 && |LenField(num, x)| + |LenField(num, y)| < TWO_63
    requires Unmarshal(BalanceMapField, BalancesAt(m, num), x) == Ok(u) && Unmarshal(BalanceMapField, u, y) == Ok(v)
    ensures Unmarshal(BankField, m, LenField(num, x) + LenField(num, y))
         == Unmarshal(BankField, m, LenField(num, x + y)) == Ok(
              if num == 3 then m.(allocations := Some(v))
              else if num == 4 then m.(locked := Some(v))
              else m.(minted := Some(v)))
  {
    hide LenField, Unmarshal, Concatenates, IgnoresBeyond, BankField, BalanceMapField;
    var m1 := if num == 3 then m.(allocations := Some(u)) else if num == 4 then m.(locked := Some(u)) else m.(minted := Some(u));
    var m2 := if num == 3 then m.(allocations := Some(v)) else if num == 4 then m.(locked := Some(v)) else m.(minted := Some(v));
    JoinedFits(num, x, y);
    BalanceMapLaws();
    BankConcatenates();
    Joined(BalanceMapField, BalancesAt(m, num), x, y, u, v);
    BalancesNumber(m, num, x + y, v);
    BalancesNumber(m, num, x, u);
    BalancesNumber(m1, num, y, v);
    Joined(BankField, m, LenField(num, x), LenField(num, y), m1, m2);
  }

  lemma DenomsMerge(m: Bank, x: seq<byte>, y: seq<byte>, u: StringMap, v: StringMap)
    requires |LenField(6, x)| + |LenField(6, y)| < TWO_63 && Unmarshal(StringMapField, u, y) == Ok(v)
    requires Unmarshal(StringMapField, if m.denoms.Some? then m.denoms.value else map[], x) == Ok(u)
    ensures Unmarshal(BankField, m, LenField(6, x) + LenField(6, y))
         == Unmarshal(BankField, m, LenField(6, x + y)) == Ok(m.(denoms := Some(v)))
  {
    hide LenField, Unmarshal, Concatenates, IgnoresBeyond, BankField, StringMapField;
    JoinedFits(6, x, y);
    StringMapLaws();
    BankConcatenates();
    Joined(StringMapField, if m.denoms.Some? then m.denoms.value else map[], x, y, u, v);
    DenomsNumber(m, x + y, v);
    DenomsNumber(m, x, u);
    DenomsNumber(m.(denoms := Some(u)), y, v);
    Joined(BankField, m, LenField(6, x), LenField(6, y), m.(denoms := Some(u)), m.(denoms := Some(v)));
  }

  // ---------------------------------------------------------------- bytes

  /** A field of a number up to 15 and of less than 128 bytes: number and wire type 2, length, payload. */
  lemma ShortBytes(num: nat, p: seq<byte>)
    requires 1 <= num <= 15 && |p| < 0x80
    ensures LenField(num, p) == [num * 8 + 2, |p|] + p
  {
  }

  lemma NameBytes()
    ensures EncName(X500Name([0x41], [], [], [], [], [])) == [0x0a, 0x01, 0x41]
  {
    NameNumbers(X500Name([0x41], [], [], [], [], []));
    ShortBytes(1, [0x41]);
    hide LenField, EncName;
  }

  /** A common name "A" and a key of one byte, written and read. */
  lemma PartyBytes()
    ensures var m := Party(Some(X500Name([0x41], [], [], [], [], [])), Some([0x07]));
            var bs := [0x0a, 0x03, 0x0a, 0x01, 0x41, 0x12, 0x03, 0x0a, 0x01, 0x07];
            EncParty(m) == bs && Unmarshal(PartyField, EMPTY_PARTY, bs) == Ok(m)
  {
    hide LenField, Unmarshal, EncName;
    var m := Party(Some(X500Name([0x41], [], [], [], [], [])), Some([0x07]));
    NameBytes();
    ShortBytes(1, [0x07]);
    ShortBytes(1, [0x0a, 0x01, 0x41]);
    ShortBytes(2, [0x0a, 0x01, 0x07]);
    assert EncPartyName(m.name) == [0x0a, 0x03, 0x0a, 0x01, 0x41];
    assert EncBlob([0x07]) == [0x0a, 0x01, 0x07];
    assert EncPartyKey(m.owningKey) == [0x12, 0x03, 0x0a, 0x01, 0x07];
    PartyRoundTrip(m);
  }

  lemma HashBytes()
    ensures EncHash(Some([0x09])) == [0x0a, 0x03, 0x0a, 0x01, 0x09]
  {
    hide LenField;
    ShortBytes(1, [0x09]);
    ShortBytes(1, [0x0a, 0x01, 0x09]);
    assert EncBlob([0x09]) == [0x0a, 0x01, 0x09];
  }

  /** A hash of one byte and the index 300, whose digits are ac 02. */
  lemma StateRefBytes()
    ensures var m := StateRef(Some([0x09]), 300);
            var bs := [0x0a, 0x03, 0x0a, 0x01, 0x09, 0x10, 0xac, 0x02];
            EncStateRef(m) == bs && Unmarshal(StateRefField, EMPTY_REF, bs) == Ok(m)
  {
    var m := StateRef(Some([0x09]), 300);
    assert EncVarint(300) == [0xac, 0x02];
    hide LenField, Unmarshal, EncVarint;
    HashBytes();
    assert EncIndex(m.index) == [0x10, 0xac, 0x02];
    StateRefRoundTrip(m);
  }
}
