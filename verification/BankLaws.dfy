/** What holds of the decoding of whole messages, whatever they are decoded from. */
module BankLaws {
  import opened Wrappers
  import opened Varint
  import opened Skipper
  import opened Decoder
  import opened CordaTypes
  import opened BankTypes
  import opened BankSizes

  // ---------------------------------------------------------------- laws of every message

  /** Decoding x followed by y is decoding x and then y on the same message. */
  ghost predicate Concatenates<M(!new)>(h: Handler<M>) {
    forall m, x, y :: |x| + |y| < TWO_63 && Unmarshal(h, m, x).Ok? ==>
      Agree(Unmarshal(h, m, x + y), Unmarshal(h, Unmarshal(h, m, x).value, y))
  }

  /** A field whose number is not one of 1 to n may be spliced in at any field boundary. */
  ghost predicate IgnoresBeyond<M(!new)>(h: Handler<M>, n: nat) {
    forall m, x, f, y :: |x| + |Bytes(f)| + |y| < TWO_63 && Unmarshal(h, m, x).Ok? && UnknownBeyond(f, n) ==>
      Agree(Unmarshal(h, m, x + Bytes(f) + y), Unmarshal(h, m, x + y))
  }

  predicate UnknownBeyond(f: Field, n: nat) {
    WellFormed(f) && ReadTag(Bytes(f)).Ok? && !(1 <= ReadTag(Bytes(f)).value.num <= n)
  }

  lemma LocalLaws<M(!new)>(h: Handler<M>, n: nat)
    requires Local(h) && forall num :: !(1 <= num <= n) ==> Ignores(h, num)
    ensures Concatenates(h) && IgnoresBeyond(h, n)
  {
    hide Local, Unmarshal, Ignores;
    forall m, x, y | |x| + |y| < TWO_63 && Unmarshal(h, m, x).Ok?
      ensures Agree(Unmarshal(h, m, x + y), Unmarshal(h, Unmarshal(h, m, x).value, y))
    {
      UnmarshalConcat(h, m, x, y);
    }
    forall m, x, f, y | |x| + |Bytes(f)| + |y| < TWO_63 && Unmarshal(h, m, x).Ok? && UnknownBeyond(f, n)
      ensures Agree(Unmarshal(h, m, x + Bytes(f) + y), Unmarshal(h, m, x + y))
    {
      UnknownFieldsAreIgnored(h, m, x, f, y);
    }
  }

  lemma BlobLaws()
    ensures Concatenates(BlobField) && IgnoresBeyond(BlobField, 1)
  {
    hide Local;
    BlobLocal();
    LocalLaws(BlobField, 1);
  }

  lemma StateRefLaws()
    ensures Concatenates(StateRefField) && IgnoresBeyond(StateRefField, 2)
  {
    hide Local;
    StateRefLocal();
    LocalLaws(StateRefField, 2);
  }

  lemma NameLaws()
    ensures Concatenates(NameField) && IgnoresBeyond(NameField, 6)
  {
    hide Local;
    NameLocal();
    LocalLaws(NameField, 6);
  }

  lemma PartyLaws()
    ensures Concatenates(PartyField) && IgnoresBeyond(PartyField, 2)
  {
    hide Local;
    PartyLocal();
    LocalLaws(PartyField, 2);
  }

  lemma StringMapLaws()
    ensures Concatenates(StringMapField) && IgnoresBeyond(StringMapField, 1)
  {
    hide Local;
    StringMapLocal();
    LocalLaws(StringMapField, 1);
  }

  lemma BalanceMapLaws()
    ensures Concatenates(BalanceMapField) && IgnoresBeyond(BalanceMapField, 1)
  {
    hide Local;
    BalanceMapLocal();
    LocalLaws(BalanceMapField, 1);
  }

  // ---------------------------------------------------------------- the whole bank

  /**
   Decoding x followed by y is decoding x and then y into the same bank: participants are
   appended, message fields merged, map entries overlaid.
   */
  lemma BankConcat(m: Bank, x: seq<byte>, y: seq<byte>)
    requires |x| + |y| < TWO_63 && Unmarshal(BankField, m, x).Ok?
    ensures Agree(Unmarshal(BankField, m, x + y), Unmarshal(BankField, Unmarshal(BankField, m, x).value, y))
  {
    BankLocal();
    UnmarshalConcat(BankField, m, x, y);
  }

  /** A field of a number the bank does not have may be spliced in at any field boundary. */
  lemma BankIgnoresUnknown(m: Bank, x: seq<byte>, f: Field, y: seq<byte>)
    requires |x| + |Bytes(f)| + |y| < TWO_63 && Unmarshal(BankField, m, x).Ok? && UnknownBeyond(f, 6)
    ensures Agree(Unmarshal(BankField, m, x + Bytes(f) + y), Unmarshal(BankField, m, x + y))
  {
    BankLocal();
    hide SubMessage, ReadTag, WellFormed, Bytes, Local, Decode;
    var num := ReadTag(Bytes(f)).value.num;
    assert Ignores(BankField, num);
    UnknownFieldsAreIgnored(BankField, m, x, f, y);
  }

  /** Decoding never drops or reorders participants that are there. */
  lemma {:induction false} ParticipantsOnlyGrow(m: Bank, base: nat, r: seq<byte>)
    requires Decode(BankField, m, base, r).Ok?
    ensures m.participants <= Decode(BankField, m, base, r).value.participants
    decreases |r|
  {
    hide ReadTag, SkipUnknown, SubMessage;
    if r != [] {
      var t := Step(BankField, m, base, r).value;
      ParticipantsOnlyGrow(t.message, base + t.size, r[t.size..]);
    }
  }

  /**
   Two walks over the maps of one bank, in whatever orders: as many bytes, and the same bank when
   they are read.
   */
  lemma AnyOrder(f: BankForm, g: BankForm)
    requires DistinctForm(f) && DistinctForm(g) && BankOf(f) == BankOf(g) && |EncBank(f)| < TWO_63
    ensures |EncBank(f)| == |EncBank(g)|
    ensures Unmarshal(BankField, EMPTY_BANK, EncBank(f)) == Unmarshal(BankField, EMPTY_BANK, EncBank(g)) == Ok(BankOf(f))
  {
    hide Unmarshal, EncBank, BankOf, DistinctForm, BankSize;
    BankLength(f);
    BankLength(g);
    BankRoundTrip(f);
    BankRoundTrip(g);
  }

  /** Two banks that are written in the same bytes are the same. */
  lemma EncodingIsInjective(f: BankForm, g: BankForm)
    requires EncBank(f) == EncBank(g) && |EncBank(f)| < TWO_63
    ensures BankOf(f) == BankOf(g)
  {
    hide Unmarshal, EncBank, BankOf;
    BankRoundTrip(f);
    BankRoundTrip(g);
  }

  /** The bytes of a field whose tag and payload are shorter than 128. */
  lemma ShortField(num: nat, p: seq<byte>)
    requires 1 <= num <= 15 && |p| < 128
    ensures LenField(num, p) == [8 * num + 2, |p|] + p
  {
  }

  /**
   A map message may take more room when it is written again, which a leaf message never does: an
   entry without key and value is accepted, and both are written out.
   */
  lemma MapMessagesMayGrow()
    ensures Unmarshal(StringMapField, map[], [0x0a, 0x00]) == Ok(map[[] := []])
    ensures var es: Strings := [Entry([], [])];
            ToMap(es) == map[[] := []] && EncStrings(es) == [0x0a, 0x04, 0x0a, 0x00, 0x12, 0x00]
  {
    hide Unmarshal, EncStrings;
    EmptyEntryIsRead();
    EmptyEntryIsWritten();
  }

  lemma EmptyEntryIsWritten()
    ensures var es: Strings := [Entry([], [])];
            ToMap(es) == map[[] := []] && EncStrings(es) == [0x0a, 0x04, 0x0a, 0x00, 0x12, 0x00]
  {
    hide LenField;
    var es: Strings := [Entry([], [])];
    ShortField(1, []);
    ShortField(2, []);
    assert EncEntry([], Some([])) == [0x0a, 0x00, 0x12, 0x00];
    ShortField(1, EncEntry([], Some([])));
    assert es[1..] == [];
  }

  lemma EmptyEntryIsRead()
    ensures Unmarshal(StringMapField, map[], [0x0a, 0x00]) == Ok(map[[] := []])
  {
    hide Decode, MapField;
    ShortField(1, []);
    var m: StringMap := map[];
    var none: seq<byte> := [];
    assert LenField(1, none) + [] == [0x0a, 0x00];
    EmptyEntryIsHandled(m);
    DecodeLenField(StringMapField, m, 0, 1, none, none, m[[] := []]);
    DecodeNothing(StringMapField, m[[] := []], 2);
    assert m[[] := []] == map[[] := []];
  }

  lemma EmptyEntryIsHandled(m: StringMap)
    ensures VarintSize(0) == 1
    ensures StringMapField(m, FieldInput(0, 1, [], [])) == Done(m[[] := []], 1)
  {
    hide Payload;
    PayloadOfField(0, 1, [], []);
  }
}
