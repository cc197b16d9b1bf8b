/**
 How much room decoded maps take when they are written again.  The fields of an entry may be missing,
 and may reach behind the end of the entry, so that the same bytes are read more than once; without
 that no map, and no bank, ever takes more room than it was read from.
 */
module MapGrowth {
  import opened Wrappers
  import opened Varint
  import opened Skipper
  import opened Decoder
  import opened CordaTypes
  import opened BankTypes
  import opened BankSizes

  // ---------------------------------------------------------------- tidy input

  /** Every field of the buffer is as `ok` wants it. */
  predicate Every<M>(h: Handler<M>, ok: (M, Input) -> bool, m: M, base: nat, r: seq<byte>)
    decreases |r|
  {
    r != [] && Step(h, m, base, r).Ok? ==>
      var tag, t := ReadTag(r).value, Step(h, m, base, r).value;
      && ok(m, Input(tag.num, tag.wireType, base + tag.size, r[tag.size..]))
      && (t.size <= |r| ==> Every(h, ok, t.message, base + t.size, r[t.size..]))
  }

  /**
   What is left of an entry gives a key and a value, unless they were given before, and each field
   ends at or before the end of the entry; the values are as `ok` wants them.
   */
  predicate TidyFrom(ok: seq<byte> -> bool, base: nat, r: seq<byte>, p: nat, end: nat, key: bool, value: bool)
    requires p <= |r| && end <= |r|
    decreases |r| - p
  {
    if p >= end then key && value
    else
      match EntryPiece(base, r, p, end)
      case Err(_) => true
      case Ok(t) =>
        && p + t.size <= end && (t.message.Value? ==> ok(t.message.bytes))
        && TidyFrom(ok, base, r, p + t.size, end, key || t.message.Key?, value || t.message.Value?)
  }

  predicate TidyEntry(ok: seq<byte> -> bool, i: Input, value: bool) {
    i.num == 1 && Payload(i).Ok? ==>
      TidyFrom(ok, i.base, i.rest, Payload(i).value.start, Payload(i).value.end, false, value)
  }

  predicate AnyBytes(x: seq<byte>) {
    true
  }

  predicate TidyString(m: StringMap, i: Input) {
    TidyEntry(AnyBytes, i, false)
  }

  /** Every entry of the string map gives a key and a value, inside the entry. */
  predicate TidyStrings(r: seq<byte>) {
    Every(StringMapField, TidyString, map[], 0, r)
  }

  /** A nil value is not written, so that it need not be given. */
  predicate TidyBalance(m: BalanceMap, i: Input) {
    TidyEntry(TidyStrings, i, true)
  }

  predicate TidyBalances(r: seq<byte>) {
    Every(BalanceMapField, TidyBalance, map[], 0, r)
  }

  predicate TidySub<M>(h: Handler<M>, ok: (M, Input) -> bool, held: M, i: Input) {
    Payload(i).Ok? ==> Every(h, ok, held, 0, i.rest[Payload(i).value.start..Payload(i).value.end])
  }

  predicate TidyField(m: Bank, i: Input) {
    match i.num
    case 3 => TidySub(BalanceMapField, TidyBalance, OrElse(m.allocations, map[]), i)
    case 4 => TidySub(BalanceMapField, TidyBalance, OrElse(m.locked, map[]), i)
    case 5 => TidySub(BalanceMapField, TidyBalance, OrElse(m.minted, map[]), i)
    case 6 => TidySub(StringMapField, TidyString, OrElse(m.denoms, map[]), i)
    case _ => true
  }

  /** Every map of the bank is so. */
  predicate TidyBank(r: seq<byte>) {
    Every(BankField, TidyField, EMPTY_BANK, 0, r)
  }

  // ---------------------------------------------------------------- tidy input never grows

  lemma {:induction false} EveryGrows<M(!new)>(h: Handler<M>, ok: (M, Input) -> bool, size: M -> nat, m: M, base: nat, r: seq<byte>)
    requires forall m, i :: ok(m, i) && h(m, i).Done? ==> size(h(m, i).message) <= size(m) + 1 + h(m, i).size
    requires Decode(h, m, base, r).Ok? && Every(h, ok, m, base, r)
    ensures size(Decode(h, m, base, r).value) <= size(m) + |r|
    decreases |r|
  {
    hide ReadTag, SkipUnknown;
    if r != [] {
      var t := Step(h, m, base, r).value;
      EveryGrows(h, ok, size, t.message, base + t.size, r[t.size..]);
    }
  }

  lemma PieceIsRoomy(base: nat, r: seq<byte>, p: nat, end: nat)
    requires p < end <= |r| && EntryPiece(base, r, p, end).Ok?
    ensures var t := EntryPiece(base, r, p, end).value; !t.message.Other? ==> LenSize(|t.message.bytes|) <= t.size
  {
    hide LenSize, SkipSize, Extent, Int32, ReadVarint;
    var wire := ReadVarint(r[p..]).value;
    var q := p + wire.size;
    if Extent(base + q, r[q..]).Ok? {
      ExtentIsRoomy(base + q, r[q..]);
    }
  }

  /** The values that are `ok` take no more room than they were read from. */
  ghost predicate Roomy<V(!new)>(dec: seq<byte> -> Result<V, WireError>, ok: seq<byte> -> bool, sz: V -> nat) {
    forall x :: ok(x) && dec(x).Ok? ==> sz(dec(x).value) <= LenSize(|x|)
  }

  /** The room that the fields of an entry take which have been read. */
  function EntryCost<V>(sz: V -> nat, e: Entry<V>, key: bool, value: bool): nat {
    (if key then LenSize(|e.key|) else 0) + if value then sz(e.value) else 0
  }

  lemma {:induction false} EntryGrows<V(!new)>(dec: seq<byte> -> Result<V, WireError>, ok: seq<byte> -> bool, sz: V -> nat,
                                               base: nat, r: seq<byte>, p: nat, end: nat, e: Entry<V>, key: bool, value: bool)
    requires Roomy(dec, ok, sz) && p <= end <= |r| && TidyFrom(ok, base, r, p, end, key, value)
    requires EntryFrom(dec, base, r, p, end, e).Ok?
    ensures EntryCost(sz, EntryFrom(dec, base, r, p, end, e).value, true, true) <= EntryCost(sz, e, key, value) + (end - p)
    decreases |r| - p
  {
    hide EntryPiece, LenSize;
    if p < end {
      PieceIsRoomy(base, r, p, end);
      var t, s := EntryPiece(base, r, p, end).value, EntryStep(dec, base, r, p, end, e).value;
      EntryGrows(dec, ok, sz, base, r, p + t.size, end, s.message, key || t.message.Key?, value || t.message.Value?);
    }
  }

  lemma MapSizePut<V(!new)>(sz: V -> nat, m: map<Str, V>, k: Str, v: V)
    ensures MapSize(sz, m[k := v]) <= MapSize(sz, m) + EntrySize(|k|, sz(v))
  {
    hide EntrySize;
    MapSizePick(sz, m[k := v], k);
    assert m[k := v] - {k} == m - {k};
    if k in m {
      MapSizePick(sz, m, k);
    } else {
      assert m - {k} == m;
    }
  }

  lemma MapGrows<V(!new)>(dec: seq<byte> -> Result<V, WireError>, ok: seq<byte> -> bool, sz: V -> nat, zero: V,
                          m: map<Str, V>, i: Input, value: bool)
    requires Roomy(dec, ok, sz) && TidyEntry(ok, i, value) && (value ==> sz(zero) == 0)
    requires MapField(dec, zero, m, i).Done?
    ensures MapSize(sz, MapField(dec, zero, m, i).message) <= MapSize(sz, m) + 1 + MapField(dec, zero, m, i).size
  {
    hide Payload, EntryFrom, TidyFrom, MapSize, LenSize, Roomy;
    var s := Payload(i).value;
    var e := EntryFrom(dec, i.base, i.rest, s.start, s.end, Entry([], zero)).value;
    EntryGrows(dec, ok, sz, i.base, i.rest, s.start, s.end, Entry([], zero), false, value);
    MapSizePut(sz, m, e.key, e.value);
    LenSizeMonotone(LenSize(|e.key|) + sz(e.value), s.end - s.start);
    PayloadIsRoomy(i);
  }

  lemma StringsNeverGrow(m: StringMap, r: seq<byte>)
    requires Unmarshal(StringMapField, m, r).Ok? && Every(StringMapField, TidyString, m, 0, r)
    ensures StringMapSize(Unmarshal(StringMapField, m, r).value) <= StringMapSize(m) + |r|
  {
    forall m, i | TidyString(m, i) && StringMapField(m, i).Done?
      ensures StringMapSize(StringMapField(m, i).message) <= StringMapSize(m) + 1 + StringMapField(m, i).size
    {
      hide TidyEntry, MapField, MapSize;
      MapGrows(StringValue, AnyBytes, StringSize, [], m, i, false);
    }
    hide StringMapField, TidyString, Decode, StringMapSize, Every;
    EveryGrows(StringMapField, TidyString, StringMapSize, m, 0, r);
  }

  lemma BalanceIsRoomy()
    ensures Roomy(BalanceValue, TidyStrings, BalanceSize)
  {
    forall x | TidyStrings(x) && BalanceValue(x).Ok? ensures BalanceSize(BalanceValue(x).value) <= LenSize(|x|) {
      hide Unmarshal, Every, StringMapSize, LenSize;
      NoStrings();
      StringsNeverGrow(map[], x);
      LenSizeMonotone(StringMapSize(BalanceValue(x).value.value), |x|);
    }
  }

  lemma NoStrings()
    ensures StringMapSize(map[]) == 0 && BalanceMapSize(map[]) == 0
  {
  }

  lemma BalancesNeverGrow(m: BalanceMap, r: seq<byte>)
    requires Unmarshal(BalanceMapField, m, r).Ok? && Every(BalanceMapField, TidyBalance, m, 0, r)
    ensures BalanceMapSize(Unmarshal(BalanceMapField, m, r).value) <= BalanceMapSize(m) + |r|
  {
    forall m, i | TidyBalance(m, i) && BalanceMapField(m, i).Done?
      ensures BalanceMapSize(BalanceMapField(m, i).message) <= BalanceMapSize(m) + 1 + BalanceMapField(m, i).size
    {
      hide TidyEntry, MapField, MapSize, Roomy;
      BalanceIsRoomy();
      MapGrows(BalanceValue, TidyStrings, BalanceSize, None, m, i, true);
    }
    hide BalanceMapField, TidyBalance, Decode, BalanceMapSize, Every;
    EveryGrows(BalanceMapField, TidyBalance, BalanceMapSize, m, 0, r);
  }

  // ---------------------------------------------------------------- a whole bank

  lemma {:induction false} PartiesSizeMore(ps: seq<Party>, x: Party)
    ensures PartiesSize(ps + [x]) == PartiesSize(ps) + LenSize(|EncParty(x)|)
    decreases |ps|
  {
    hide EncParty, LenSize;
    if ps == [] {
      assert ps + [x] == [x] && [x][1..] == [];
    } else {
      PartiesSizeMore(ps[1..], x);
      assert (ps + [x])[1..] == ps[1..] + [x];
    }
  }

  lemma MessagesSum(b: Bank)
    ensures MessagesSize(b) == SubSize(PayloadSize(b, 2)) + SubSize(PayloadSize(b, 3)) + SubSize(PayloadSize(b, 4))
                             + SubSize(PayloadSize(b, 5)) + SubSize(PayloadSize(b, 6))
  {
    hide PayloadSize, SubSize;
    assert BankSizeFrom(b, 5) == SubSize(PayloadSize(b, 5)) + SubSize(PayloadSize(b, 6));
    assert BankSizeFrom(b, 3) == SubSize(PayloadSize(b, 3)) + SubSize(PayloadSize(b, 4)) + BankSizeFrom(b, 5);
  }

  /** A message field whose message grew by no more than its new payload. */
  lemma SubSizeGrows(was: Option<nat>, now: nat, i: Input)
    requires Payload(i).Ok?
    requires var s := Payload(i).value; now <= (if was.Some? then was.value else 0) + (s.end - s.start)
    ensures LenSize(now) <= SubSize(was) + 1 + Payload(i).value.end
  {
    hide Payload, LenSize;
    PayloadIsRoomy(i);
    var s := Payload(i).value;
    if was.Some? {
      LenSizeMonotone(now, was.value + (s.end - s.start));
      LenSizeSubadditive(was.value, s.end - s.start);
    } else {
      LenSizeMonotone(now, s.end - s.start);
    }
  }

  /** What one field does to the room of field k. */
  ghost predicate Widens(b: Bank, c: Bank, k: nat, n: nat)
    requires 2 <= k <= 6
  {
    && c.participants == b.participants && (forall j :: 2 <= j <= 6 && j != k ==> PayloadSize(c, j) == PayloadSize(b, j))
    && SubSize(PayloadSize(c, k)) <= SubSize(PayloadSize(b, k)) + n
  }

  lemma BankWidens(b: Bank, c: Bank, k: nat, n: nat)
    requires 2 <= k <= 6 && Widens(b, c, k, n)
    ensures BankSize(c) <= BankSize(b) + n
  {
    hide PayloadSize, SubSize, MessagesSize, PartiesSize;
    MessagesSum(b);
    MessagesSum(c);
  }

  lemma PartyFieldGrows(m: Bank, i: Input)
    requires i.num == 1 && BankField(m, i).Done?
    ensures BankSize(BankField(m, i).message) <= BankSize(m) + 1 + BankField(m, i).size
  {
    hide Payload, Unmarshal, EncParty, LenSize, BankSizeFrom;
    var c := BankField(m, i).message;
    var s, x := Payload(i).value, c.participants[|m.participants|];
    PartyNeverGrows(EMPTY_PARTY, i.rest[s.start..s.end]);
    EmptyParty();
    PartiesSizeMore(m.participants, x);
    SubSizeGrows(None, |EncParty(x)|, i);
    SameMessages(m, c);
  }

  lemma EmptyParty()
    ensures EncParty(EMPTY_PARTY) == []
  {
  }

  lemma SameMessages(b: Bank, c: Bank)
    requires c == b.(participants := c.participants)
    ensures MessagesSize(c) == MessagesSize(b)
  {
    hide MessagesSize, SubSize, EncStateRef, BalanceMapSize, StringMapSize;
    MessagesSum(b);
    MessagesSum(c);
  }

  lemma RefFieldGrows(m: Bank, i: Input)
    requires i.num == 2 && BankField(m, i).Done?
    ensures BankSize(BankField(m, i).message) <= BankSize(m) + 1 + BankField(m, i).size
  {
    hide Payload, Unmarshal, EncStateRef, LenSize, BankSize;
    var c, held := BankField(m, i).message, OrElse(m.baseId, EMPTY_REF);
    var s := Payload(i).value;
    StateRefNeverGrows(held, i.rest[s.start..s.end]);
    EmptyRef();
    SubSizeGrows(PayloadSize(m, 2), |EncStateRef(c.baseId.value)|, i);
    BankWidens(m, c, 2, 1 + s.end);
  }

  lemma EmptyRef()
    ensures EncStateRef(EMPTY_REF) == []
  {
  }

  lemma BalanceFieldGrows(m: Bank, i: Input, held: BalanceMap, now: BalanceMap)
    requires Payload(i).Ok? && TidySub(BalanceMapField, TidyBalance, held, i)
    requires SubMessage(BalanceMapField, held, i) == Done(now, Payload(i).value.end)
    ensures var s := Payload(i).value; BalanceMapSize(now) <= BalanceMapSize(held) + (s.end - s.start)
  {
    hide Payload, Unmarshal, BalanceMapSize, Every;
    var s := Payload(i).value;
    BalancesNeverGrow(held, i.rest[s.start..s.end]);
  }

  lemma MapFieldGrows(m: Bank, i: Input)
    requires 3 <= i.num <= 6 && TidyField(m, i) && BankField(m, i).Done?
    ensures BankSize(BankField(m, i).message) <= BankSize(m) + 1 + BankField(m, i).size
  {
    hide Payload, Unmarshal, LenSize, BankSize, BalanceMapSize, StringMapSize, Every;
    var c, s := BankField(m, i).message, Payload(i).value;
    NoStrings();
    match i.num {
      case 3 => BalanceFieldGrows(m, i, OrElse(m.allocations, map[]), c.allocations.value);
      case 4 => BalanceFieldGrows(m, i, OrElse(m.locked, map[]), c.locked.value);
      case 5 => BalanceFieldGrows(m, i, OrElse(m.minted, map[]), c.minted.value);
      case _ => StringsNeverGrow(OrElse(m.denoms, map[]), i.rest[s.start..s.end]);
    }
    SubSizeGrows(PayloadSize(m, i.num), PayloadSize(c, i.num).value, i);
    BankWidens(m, c, i.num, 1 + s.end);
  }

  lemma BankNeverGrows(r: seq<byte>)
    requires Unmarshal(BankField, EMPTY_BANK, r).Ok? && TidyBank(r)
    ensures BankSize(Unmarshal(BankField, EMPTY_BANK, r).value) <= |r|
  {
    forall m, i | TidyField(m, i) && BankField(m, i).Done?
      ensures BankSize(BankField(m, i).message) <= BankSize(m) + 1 + BankField(m, i).size
    {
      hide TidyField, BankSize;
      FieldGrows(m, i);
    }
    hide BankField, TidyField, Decode, BankSize, Every;
    EveryGrows(BankField, TidyField, BankSize, EMPTY_BANK, 0, r);
    EmptyBankSize();
  }

  lemma FieldGrows(m: Bank, i: Input)
    requires TidyField(m, i) && BankField(m, i).Done?
    ensures BankSize(BankField(m, i).message) <= BankSize(m) + 1 + BankField(m, i).size
  {
    hide TidyField, BankSize, SubMessage;
    if i.num == 1 {
      PartyFieldGrows(m, i);
    } else if i.num == 2 {
      RefFieldGrows(m, i);
    } else {
      MapFieldGrows(m, i);
    }
  }

  lemma EmptyBankSize()
    ensures BankSize(EMPTY_BANK) == 0
  {
    MessagesSum(EMPTY_BANK);
  }

  // ---------------------------------------------------------------- canonical forms

  /**
   Canonicalisation: a tidy map or bank takes no more room when it is written again, in whatever
   order, and what is written then reads back as the same.
   */
  lemma StringsCanonical(r: seq<byte>, es: Strings)
    requires |r| < TWO_63 && TidyStrings(r) && Unmarshal(StringMapField, map[], r) == Ok(ToMap(es)) && Distinct(es)
    ensures |EncStrings(es)| <= |r| && Unmarshal(StringMapField, map[], EncStrings(es)) == Ok(ToMap(es))
  {
    hide Unmarshal, ToMap, EncStrings, Distinct, StringMapSize, Every;
    NoStrings();
    StringsNeverGrow(map[], r);
    StringsLength(es);
    StringsRoundTrip(es);
  }

  lemma BalancesCanonical(r: seq<byte>, es: Balances)
    requires |r| < TWO_63 && TidyBalances(r) && DistinctBalances(es)
    requires Unmarshal(BalanceMapField, map[], r) == Ok(ToMap(BalancesOf(es)))
    ensures |EncBalances(es)| <= |r| && Unmarshal(BalanceMapField, map[], EncBalances(es)) == Ok(ToMap(BalancesOf(es)))
  {
    hide Unmarshal, ToMap, EncBalances, BalancesOf, DistinctBalances, BalanceMapSize, Every;
    NoStrings();
    BalancesNeverGrow(map[], r);
    BalancesLength(es);
    BalancesRoundTrip(es);
  }

  lemma BankCanonical(r: seq<byte>, f: BankForm)
    requires |r| < TWO_63 && TidyBank(r) && Unmarshal(BankField, EMPTY_BANK, r) == Ok(BankOf(f)) && DistinctForm(f)
    ensures |EncBank(f)| <= |r| && Unmarshal(BankField, EMPTY_BANK, EncBank(f)) == Ok(BankOf(f))
  {
    hide Unmarshal, EncBank, BankOf, DistinctForm, BankSize, TidyBank;
    BankNeverGrows(r);
    BankLength(f);
    BankRoundTrip(f);
  }

  // ---------------------------------------------------------------- one entry

  /** Whether a field that was written is tidy, and the rest is. */
  lemma EveryLenField<M>(h: Handler<M>, ok: (M, Input) -> bool, m: M, base: nat, num: nat, p: seq<byte>, t: seq<byte>, m': M)
    requires 1 <= num <= 15
    requires h(m, FieldInput(base, num, p, t)) == Done(m', VarintSize(|p|) + |p|)
    ensures Every(h, ok, m, base, LenField(num, p) + t) <==>
            ok(m, FieldInput(base, num, p, t)) && Every(h, ok, m', base + |LenField(num, p)|, t)
  {
    StepLenField(h, m, base, num, p, t, m');
    hide Step, ReadTag;
  }

  lemma TidyFields(ok: seq<byte> -> bool, base: nat, r: seq<byte>, p: nat, key: Option<Str>, x: Option<seq<byte>>, t: seq<byte>, value: bool)
    requires p <= |r| && r[p..] == EntryFields(key, x) + t && base + p + |EntryFields(key, x)| < TWO_63
    ensures p + |EntryFields(key, x)| <= |r|
    ensures TidyFrom(ok, base, r, p, p + |EntryFields(key, x)|, false, value) <==>
            key.Some? && (value || x.Some?) && (x.Some? ==> ok(x.value))
  {
    hide TidyFrom, LenField;
    var a, b := SubField(1, key), SubField(2, x);
    var q := p + |a|;
    FieldsSplit(r, p, a, b, t);
    if key.Some? {
      TidyKey(ok, base, r, p, q + |b|, key.value, b + t, value);
    }
    TidyValue(ok, base, r, q, x, t, key.Some?, value);
  }

  lemma TidyKey(ok: seq<byte> -> bool, base: nat, r: seq<byte>, p: nat, end: nat, key: Str, t: seq<byte>, value: bool)
    requires p <= |r| && r[p..] == LenField(1, key) + t && p + |LenField(1, key)| <= end <= |r|
    requires base + p + |LenField(1, key)| < TWO_63
    ensures TidyFrom(ok, base, r, p, end, false, value) == TidyFrom(ok, base, r, p + |LenField(1, key)|, end, true, value)
  {
    LenFieldSize(1, key);
    hide EntryPiece, LenField;
    PieceOfField(base, r, p, end, 1, key, t);
  }

  lemma TidyValue(ok: seq<byte> -> bool, base: nat, r: seq<byte>, q: nat, x: Option<seq<byte>>, t: seq<byte>, key: bool, value: bool)
    requires q <= |r| && r[q..] == SubField(2, x) + t && base + q + |SubField(2, x)| < TWO_63
    ensures q + |SubField(2, x)| <= |r|
    ensures TidyFrom(ok, base, r, q, q + |SubField(2, x)|, key, value) <==>
            key && (value || x.Some?) && (x.Some? ==> ok(x.value))
  {
    hide EntryPiece, LenField;
    var end := q + |SubField(2, x)|;
    if x.Some? {
      LenFieldSize(2, x.value);
      PieceOfField(base, r, q, end, 2, x.value, t);
      assert TidyFrom(ok, base, r, end, end, key, true) == key;
    }
  }

  /** An entry that was written is tidy exactly when its fields are there. */
  lemma TidyOfFields(ok: seq<byte> -> bool, base: nat, key: Option<Str>, x: Option<seq<byte>>, t: seq<byte>, value: bool)
    requires var p := EntryFields(key, x); base + 1 + VarintSize(|p|) + |p| < TWO_63
    ensures TidyEntry(ok, FieldInput(base, 1, EntryFields(key, x), t), value) <==>
            key.Some? && (value || x.Some?) && (x.Some? ==> ok(x.value))
  {
    hide Payload, TidyFrom, EntryFields, VarintSize;
    var p := EntryFields(key, x);
    var i, n := FieldInput(base, 1, p, t), VarintSize(|p|);
    PayloadOfField(base, 1, p, t);
    BehindLength(base, 1, p, t);
    TidyFields(ok, i.base, i.rest, n, key, x, t, value);
  }

  lemma OneEntryDecodes<V>(h: Handler<map<Str, V>>, dec: seq<byte> -> Result<V, WireError>, zero: V,
                           key: Option<Str>, x: Option<seq<byte>>, v: V)
    requires |LenField(1, EntryFields(key, x))| < TWO_63 && if x.Some? then dec(x.value) == Ok(v) else v == zero
    requires forall i :: h(map[], i) == MapField(dec, zero, map[], i)
    ensures Unmarshal(h, map[], LenField(1, EntryFields(key, x))) == Ok(map[OrElse(key, []) := v])
  {
    hide MapField, EntryFields, Decode, LenField;
    var p, none: map<Str, V>, m: map<Str, V> := EntryFields(key, x), map[], map[OrElse(key, []) := v];
    LenFieldSize(1, p);
    MapFieldOfEntry(dec, zero, none, 0, key, x, v, []);
    assert none[OrElse(key, []) := v] == m && LenField(1, p) + [] == LenField(1, p);
    DecodeLenField(h, none, 0, 1, p, [], m);
    DecodeNothing(h, m, |LenField(1, p)|);
  }

  /** Only a value that was left out, and a key that was, make it larger. */
  lemma OneEntryGrowsIff<V(!new)>(sz: V -> nat, key: Option<Str>, x: Option<seq<byte>>, v: V)
    requires (if x.Some? then LenSize(|x.value|) else 0) <= sz(v)
    ensures MapSize(sz, map[OrElse(key, []) := v]) <= |LenField(1, EntryFields(key, x))| <==>
            key.Some? && sz(v) == if x.Some? then LenSize(|x.value|) else 0
  {
    var k, n := OrElse(key, []), if x.Some? then LenSize(|x.value|) else 0;
    MapSizePick(sz, map[k := v], k);
    assert map[k := v] - {k} == map[];
    LenFieldSize(1, EntryFields(key, x));
    hide MapSize, LenField, VarintSize;
    FieldsSize(key, x);
    SizeMonotone(|EntryFields(key, x)|, LenSize(|k|) + sz(v));
  }

  lemma FieldsSize(key: Option<Str>, x: Option<seq<byte>>)
    ensures |EntryFields(key, x)|
         == (if key.Some? then LenSize(|key.value|) else 0) + if x.Some? then LenSize(|x.value|) else 0
  {
  }

  /**
   A string map of one entry as short as can be: it takes more room when written again if and only if
   its key or its value was left out, which is when it is not tidy.
   */
  lemma OneStringIff(key: Option<Str>, value: Option<Str>)
    requires |LenField(1, EntryFields(key, value))| < TWO_63
    ensures var r, m := LenField(1, EntryFields(key, value)), map[OrElse(key, []) := OrElse(value, [])];
            && Unmarshal(StringMapField, map[], r) == Ok(m)
            && (StringMapSize(m) <= |r| <==> key.Some? && value.Some?)
            && (TidyStrings(r) <==> key.Some? && value.Some?)
  {
    hide MapField, EntryFields, Unmarshal, LenField, MapSize;
    OneEntryDecodes(StringMapField, StringValue, [], key, value, OrElse(value, []));
    OneEntryGrowsIff(StringSize, key, value, OrElse(value, []));
    OneEntryTidy(key, value);
  }

  lemma OneEntryTidy(key: Option<Str>, value: Option<Str>)
    requires |LenField(1, EntryFields(key, value))| < TWO_63
    ensures TidyStrings(LenField(1, EntryFields(key, value))) <==> key.Some? && value.Some?
  {
    hide MapField, TidyEntry, EntryFields, LenField;
    var p, none: StringMap := EntryFields(key, value), map[];
    var m := none[OrElse(key, []) := OrElse(value, [])];
    LenFieldSize(1, p);
    assert LenField(1, p) + [] == LenField(1, p);
    MapFieldOfEntry(StringValue, [], none, 0, key, value, OrElse(value, []), []);
    TidyOfFields(AnyBytes, 0, key, value, [], false);
    EveryLenField(StringMapField, TidyString, none, 0, 1, p, [], m);
  }

  /** In a balance map only the key must not be left out. */
  lemma OneBalanceIff(key: Option<Str>, x: Option<Strings>)
    requires |LenField(1, EntryFields(key, EncBalance(x)))| < TWO_63 && (x.Some? ==> Distinct(x.value))
    ensures var r, m := LenField(1, EntryFields(key, EncBalance(x))), map[OrElse(key, []) := BalanceOf(x)];
            && Unmarshal(BalanceMapField, map[], r) == Ok(m)
            && (BalanceMapSize(m) <= |r| <==> key.Some?)
  {
    var value := EncBalance(x);
    LenFieldSize(1, EntryFields(key, value));
    FieldsSize(key, value);
    hide MapField, EntryFields, Unmarshal, LenField, MapSize, EncStrings, Distinct, ToMap;
    if x.Some? {
      StringsLength(x.value);
      StringsRoundTrip(x.value);
    }
    hide StringMapSize;
    OneEntryDecodes(BalanceMapField, BalanceValue, None, key, value, BalanceOf(x));
    OneEntryGrowsIff(BalanceSize, key, value, BalanceOf(x));
  }

  // ---------------------------------------------------------------- what is written is tidy

  lemma {:induction false} WrittenStringsTidy(m: StringMap, base: nat, es: Strings)
    requires base + |EncStrings(es)| < TWO_63
    ensures Every(StringMapField, TidyString, m, base, EncStrings(es))
    decreases |es|
  {
    hide MapField, LenField, EntryFields, TidyEntry;
    if es != [] {
      var e, t := es[0], EncStrings(es[1..]);
      var p := EncEntry(e.key, Some(e.value));
      LenFieldSize(1, p);
      MapFieldOfEntry(StringValue, [], m, base, Some(e.key), Some(e.value), e.value, t);
      TidyOfFields(AnyBytes, base, Some(e.key), Some(e.value), t, false);
      WrittenStringsTidy(m[e.key := e.value], base + |LenField(1, p)|, es[1..]);
      hide Every;
      EveryLenField(StringMapField, TidyString, m, base, 1, p, t, m[e.key := e.value]);
    }
  }

  lemma {:induction false} WrittenBalancesTidy(m: BalanceMap, base: nat, es: Balances)
    requires base + |EncBalances(es)| < TWO_63
    ensures Every(BalanceMapField, TidyBalance, m, base, EncBalances(es))
    decreases |es|
  {
    hide MapField, LenField, EntryFields, TidyEntry, EncStrings, Unmarshal;
    if es != [] {
      var e, t, v := es[0], EncBalances(es[1..]), BalanceOf(es[0].value);
      var p := EncEntry(e.key, EncBalance(e.value));
      LenFieldSize(1, p);
      if e.value.Some? {
        EntryContains(e.key, EncBalance(e.value));
        StringsRoundTrip(e.value.value);
        WrittenStringsTidy(map[], 0, e.value.value);
      }
      MapFieldOfEntry(BalanceValue, None, m, base, Some(e.key), EncBalance(e.value), v, t);
      TidyOfFields(TidyStrings, base, Some(e.key), EncBalance(e.value), t, true);
      WrittenBalancesTidy(m[e.key := v], base + |LenField(1, p)|, es[1..]);
      hide Every;
      EveryLenField(BalanceMapField, TidyBalance, m, base, 1, p, t, m[e.key := v]);
    }
  }

  lemma TidySubOfField<M>(h: Handler<M>, ok: (M, Input) -> bool, held: M, base: nat, num: nat, p: seq<byte>, t: seq<byte>)
    requires base + LenSize(|p|) < TWO_63 && Every(h, ok, held, 0, p)
    ensures TidySub(h, ok, held, FieldInput(base, num, p, t))
  {
    hide Payload, Every, FieldInput;
    PayloadOfField(base, num, p, t);
  }

  lemma TidyFieldAt(f: BankForm, k: nat, base: nat, t: seq<byte>)
    requires 2 <= k <= 6 && PayloadAt(f, k).Some? && base + LenSize(|PayloadAt(f, k).value|) < TWO_63
    ensures TidyField(BankUpTo(f, k), FieldInput(base, k, PayloadAt(f, k).value, t))
  {
    hide TidySub, Every, EncBalances, EncStrings, EncStateRef, EncVarint;
    var p := PayloadAt(f, k).value;
    match k {
      case 2 =>
      case 6 =>
        WrittenStringsTidy(map[], 0, f.denoms.value);
        TidySubOfField(StringMapField, TidyString, map[], base, k, p, t);
      case _ =>
        WrittenBalancesTidy(map[], 0, (if k == 3 then f.allocations else if k == 4 then f.locked else f.minted).value);
        TidySubOfField(BalanceMapField, TidyBalance, map[], base, k, p, t);
    }
  }

  lemma {:induction false} WrittenMessagesTidy(f: BankForm, k: nat, base: nat)
    requires 2 <= k <= 7 && base + |EncBankFrom(f, k)| < TWO_63
    ensures Every(BankField, TidyField, BankUpTo(f, k), base, EncBankFrom(f, k))
    decreases 7 - k
  {
    hide PayloadAt, BankField, LenField, TidyField, BankUpTo;
    if k < 7 {
      var x, t := PayloadAt(f, k), EncBankFrom(f, k + 1);
      if x.Some? {
        LenFieldSize(k, x.value);
        BankFieldAt(f, k, base, t);
        TidyFieldAt(f, k, base, t);
        WrittenMessagesTidy(f, k + 1, base + |LenField(k, x.value)|);
        hide Every;
        EveryLenField(BankField, TidyField, BankUpTo(f, k), base, k, x.value, t, BankUpTo(f, k + 1));
      } else {
        BankUpToAbsent(f, k);
        WrittenMessagesTidy(f, k + 1, base);
        assert EncBankFrom(f, k) == t;
      }
    }
  }

  lemma {:induction false} WrittenPartiesTidy(m: Bank, base: nat, ps: seq<Party>, t: seq<byte>)
    requires base + |EncParties(ps)| < TWO_63
    requires Every(BankField, TidyField, m.(participants := m.participants + ps), base + |EncParties(ps)|, t)
    ensures Every(BankField, TidyField, m, base, EncParties(ps) + t)
    decreases |ps|
  {
    hide BankField, LenField, EncParty, Every;
    if ps == [] {
      assert [] + t == t && m.participants + ps == m.participants;
    } else {
      var p, rest := EncParty(ps[0]), EncParties(ps[1..]) + t;
      var m' := m.(participants := m.participants + [ps[0]]);
      LenFieldSize(1, p);
      PartyFieldOf(m, base, ps[0], rest);
      assert m'.participants + ps[1..] == m.participants + ps;
      WrittenPartiesTidy(m', base + |LenField(1, p)|, ps[1..], t);
      EveryLenField(BankField, TidyField, m, base, 1, p, rest, m');
      assert EncParties(ps) + t == LenField(1, p) + rest;
    }
  }

  /** Whatever orders its maps were walked in, what is written of a bank is tidy. */
  lemma WrittenBankTidy(f: BankForm)
    requires |EncBank(f)| < TWO_63
    ensures TidyBank(EncBank(f))
  {
    hide Every, EncParties, EncBankFrom;
    WrittenMessagesTidy(f, 2, |EncParties(f.participants)|);
    assert EMPTY_BANK.(participants := [] + f.participants) == BankUpTo(f, 2);
    WrittenPartiesTidy(EMPTY_BANK, 0, f.participants, EncMessages(f));
  }

  // ---------------------------------------------------------------- entries that overlap

  lemma CutFrom(base: nat, r: seq<byte>, p: nat, end: nat, rest: seq<byte>)
    requires p < end <= |r| && r[p..] == LenField(1, rest) && end <= p + |LenField(1, rest)|
    requires base + p + |LenField(1, rest)| < TWO_63
    ensures EntryFrom(StringValue, base, r, p, end, Entry([], [])) == Ok(Entry(rest, []))
  {
    hide LenField, EntryPiece;
    assert r[p..] == LenField(1, rest) + [];
    PieceOfField(base, r, p, end, 1, rest, []);
  }

  /** An entry p that ends inside the header of a key: what is behind it is the key. */
  lemma CutEntry(m: StringMap, base: nat, p: seq<byte>, rest: seq<byte>)
    requires p != [] && p + rest == LenField(1, rest) && base + |LenField(1, p)| + |rest| < TWO_63
    ensures StringMapField(m, FieldInput(base, 1, p, rest)) == Done(m[rest := []], VarintSize(|p|) + |p|)
  {
    hide Payload, EntryFrom, VarintSize, LenField, MapField;
    var i, k := FieldInput(base, 1, p, rest), VarintSize(|p|);
    LenFieldSize(1, p);
    var f := LenField(1, rest);
    assert |f| == |p| + |rest|;
    PayloadOfField(base, 1, p, rest);
    BehindLength(base, 1, p, rest);
    assert i.num == 1;
    hide FieldInput, EncVarint;
    CutFrom(i.base, i.rest, k, k + |p|, rest);
    MapFieldIs(StringValue, [], m, i, Entry(rest, []));
  }

  lemma MapFieldIs<V>(dec: seq<byte> -> Result<V, WireError>, zero: V, m: map<Str, V>, i: Input, e: Entry<V>)
    requires i.num == 1 && Payload(i).Ok?
    requires var s := Payload(i).value; EntryFrom(dec, i.base, i.rest, s.start, s.end, Entry([], zero)) == Ok(e)
    ensures MapField(dec, zero, m, i) == Done(m[e.key := e.value], Payload(i).value.end)
  {
    hide Payload, EntryFrom;
  }

  /** Each entry is cut off inside the header of a key that is all that follows the entry. */
  function Cut(rest: seq<byte>): seq<byte> {
    [0x0a] + EncVarint(|rest|)
  }

  function Nest(n: nat): seq<byte> {
    if n == 0 then [] else LenField(1, Cut(Nest(n - 1))) + Nest(n - 1)
  }

  function NestMap(n: nat): StringMap {
    if n == 0 then map[] else NestMap(n - 1)[Nest(n - 1) := []]
  }

  lemma {:induction false} DecodeNest(m: StringMap, base: nat, n: nat)
    requires base + |Nest(n)| < TWO_63
    ensures Decode(StringMapField, m, base, Nest(n)) == Ok(m + NestMap(n))
    decreases n
  {
    hide Decode, StringMapField, LenField;
    if n == 0 {
      DecodeNothing(StringMapField, m, base);
      assert m + NestMap(0) == m;
    } else {
      var rest, p := Nest(n - 1), Cut(Nest(n - 1));
      CutHeader(rest);
      CutEntry(m, base, p, rest);
      DecodeLenField(StringMapField, m, base, 1, p, rest, m[rest := []]);
      DecodeNest(m[rest := []], base + |LenField(1, p)|, n - 1);
      NestMerge(m, n);
    }
  }

  lemma NestMerge(m: StringMap, n: nat)
    requires n > 0
    ensures m[Nest(n - 1) := []] + NestMap(n - 1) == m + NestMap(n)
  {
    hide Nest;
    var k, rest := Nest(n - 1), NestMap(n - 1);
    NestValues(n - 1);
    assert k !in rest && NestMap(n) == rest[k := []];
  }

  lemma CutHeader(rest: seq<byte>)
    ensures Cut(rest) + rest == LenField(1, rest)
    ensures |LenField(1, Cut(rest))| == 3 + VarintSize(|rest|) <= 13 || |rest| >= TWO_64
  {
    if |rest| < TWO_64 {
      SizeOfWord(|rest|);
    }
  }

  lemma {:induction false} NestValues(n: nat)
    ensures forall k :: k in NestMap(n) ==> NestMap(n)[k] == [] && |k| < |Nest(n)|
  {
    if n > 0 {
      NestValues(n - 1);
    }
  }

  lemma {:induction false} NestSize(n: nat)
    requires |Nest(n)| < TWO_63
    ensures 4 * n <= |Nest(n)| <= 13 * n
    ensures n <= 32 ==> |Nest(n)| == 4 * n
  {
    if n > 0 {
      CutHeader(Nest(n - 1));
      NestSize(n - 1);
    }
  }

  lemma {:induction false} NestMapSize(n: nat)
    requires |Nest(n)| < TWO_63
    ensures StringMapSize(NestMap(n)) >= 2 * n * n + 4 * n
    ensures n <= 31 ==> StringMapSize(NestMap(n)) == 2 * n * n + 4 * n
  {
    hide Nest, MapSize;
    if n == 0 {
      NoStrings();
    } else {
      var k := Nest(n - 1);
      NestShrinks(n);
      NestMapSize(n - 1);
      NestSize(n - 1);
      NestValues(n - 1);
      assert k !in NestMap(n - 1);
      MapSizePick(StringSize, NestMap(n), k);
      assert NestMap(n) - {k} == NestMap(n - 1);
      NestEntry(|k|, n);
      Square(n);
    }
  }

  lemma NestShrinks(n: nat)
    requires n > 0
    ensures |Nest(n - 1)| < |Nest(n)|
  {
  }

  lemma NestEntry(k: nat, n: nat)
    requires k >= 4 * (n - 1)
    ensures EntrySize(k, LenSize(0)) >= 4 * n + 2
    ensures k == 4 * (n - 1) && n <= 31 ==> EntrySize(k, LenSize(0)) == 4 * n + 2
  {
  }

  lemma Square(n: nat)
    requires n > 0
    ensures 2 * n * n + 4 * n == 2 * (n - 1) * (n - 1) + 4 * (n - 1) + (4 * n + 2)
  {
  }

  /**
   Entries that overlap: 13n bytes or less, 4n if n is small, are read as a map that takes 2n^2 + 4n
   bytes or more when it is written again, so that no factor bounds the growth.
   */
  lemma OverlapGrows(n: nat)
    requires |Nest(n)| < TWO_63
    ensures Unmarshal(StringMapField, map[], Nest(n)) == Ok(NestMap(n))
    ensures 4 * n <= |Nest(n)| <= 13 * n && StringMapSize(NestMap(n)) >= 2 * n * n + 4 * n
    ensures n <= 31 ==> |Nest(n)| == 4 * n && StringMapSize(NestMap(n)) == 2 * n * n + 4 * n
  {
    DecodeNest(map[], 0, n);
    assert map[] + NestMap(n) == NestMap(n);
    NestSize(n);
    NestMapSize(n);
  }

  // ---------------------------------------------------------------- growth is bounded

  /** Whatever is read from at most n bytes takes at most b. */
  ghost predicate Bounded<V(!new)>(dec: seq<byte> -> Result<V, WireError>, sz: V -> nat, n: nat, b: nat) {
    forall x :: |x| <= n && dec(x).Ok? ==> sz(dec(x).value) <= b
  }

  ghost predicate Within<V(!new)>(sz: V -> nat, n: nat, b: nat, e: Entry<V>) {
    |e.key| <= n && sz(e.value) <= b
  }

  lemma {:induction false} EntryBounded<V(!new)>(dec: seq<byte> -> Result<V, WireError>, sz: V -> nat, b: nat,
                                                 base: nat, r: seq<byte>, p: nat, end: nat, e: Entry<V>)
    requires Bounded(dec, sz, |r|, b) && p <= |r| && end <= |r| && EntryFrom(dec, base, r, p, end, e).Ok?
    requires Within(sz, |r|, b, e)
    ensures Within(sz, |r|, b, EntryFrom(dec, base, r, p, end, e).value)
    decreases |r| - p
  {
    hide EntryStep, Bounded, Within;
    if p < end {
      var s := EntryStep(dec, base, r, p, end, e).value;
      StepBounded(dec, sz, b, base, r, p, end, e);
      EntryBounded(dec, sz, b, base, r, p + s.size, end, s.message);
    }
  }

  lemma StepBounded<V(!new)>(dec: seq<byte> -> Result<V, WireError>, sz: V -> nat, b: nat,
                             base: nat, r: seq<byte>, p: nat, end: nat, e: Entry<V>)
    requires Bounded(dec, sz, |r|, b) && p < end <= |r| && EntryStep(dec, base, r, p, end, e).Ok?
    requires Within(sz, |r|, b, e)
    ensures Within(sz, |r|, b, EntryStep(dec, base, r, p, end, e).value.message)
  {
    PieceInside(base, r, p, end);
    hide EntryPiece;
  }

  lemma PieceInside(base: nat, r: seq<byte>, p: nat, end: nat)
    requires p < end <= |r| && EntryPiece(base, r, p, end).Ok?
    ensures var t := EntryPiece(base, r, p, end).value; !t.message.Other? ==> |t.message.bytes| <= |r|
  {
    hide ReadVarint, Extent, SkipSize, Int32;
  }

  lemma MapBounded<V(!new)>(dec: seq<byte> -> Result<V, WireError>, sz: V -> nat, zero: V, n: nat, b: nat, m: map<Str, V>, i: Input)
    requires Bounded(dec, sz, n, b) && sz(zero) <= b && |i.rest| <= n && MapField(dec, zero, m, i).Done?
    ensures MapSize(sz, MapField(dec, zero, m, i).message) <= MapSize(sz, m) + EntrySize(n, b)
  {
    hide Payload, EntryFrom, MapSize, LenSize;
    var s := Payload(i).value;
    var e := EntryFrom(dec, i.base, i.rest, s.start, s.end, Entry([], zero)).value;
    EntryBounded(dec, sz, b, i.base, i.rest, s.start, s.end, Entry([], zero));
    MapSizePut(sz, m, e.key, e.value);
    LenSizeMonotone(|e.key|, n);
    LenSizeMonotone(LenSize(|e.key|) + sz(e.value), LenSize(n) + b);
  }

  /** If a field adds at most c, so much is added at most by every byte of the input. */
  lemma {:induction false} DecodeBounded<M(!new)>(h: Handler<M>, size: M -> nat, n: nat, c: nat, m: M, base: nat, r: seq<byte>)
    requires forall m, i: Input :: |i.rest| <= n && h(m, i).Done? ==> size(h(m, i).message) <= size(m) + c
    requires |r| <= n && Decode(h, m, base, r).Ok?
    ensures size(Decode(h, m, base, r).value) <= size(m) + |r| * c
    decreases |r|
  {
    hide ReadTag, SkipUnknown;
    if r != [] {
      var t := Step(h, m, base, r).value;
      DecodeBounded(h, size, n, c, t.message, base + t.size, r[t.size..]);
      Factor(|r| - t.size, |r|, c);
    }
  }

  lemma Factor(a: nat, b: nat, c: nat)
    requires a < b
    ensures a * c + c <= b * c
  {
    assert (a + 1) * c <= b * c;
  }

  function StringsBound(n: nat): nat {
    n * EntrySize(n, LenSize(n))
  }

  function BalancesBound(n: nat): nat {
    n * EntrySize(n, LenSize(StringsBound(n)))
  }

  /** Tidy or not, a string map takes at most quadratic room. */
  lemma StringsBounded(n: nat, m: StringMap, r: seq<byte>)
    requires |r| <= n && Unmarshal(StringMapField, m, r).Ok?
    ensures StringMapSize(Unmarshal(StringMapField, m, r).value) <= StringMapSize(m) + StringsBound(n)
  {
    forall x: Str | |x| <= n ensures StringSize(x) <= LenSize(n) {
      LenSizeMonotone(|x|, n);
    }
    LenSizeMonotone(0, n);
    assert Bounded(StringValue, StringSize, n, LenSize(n));
    forall m, i: Input | |i.rest| <= n && StringMapField(m, i).Done?
      ensures StringMapSize(StringMapField(m, i).message) <= StringMapSize(m) + EntrySize(n, LenSize(n))
    {
      hide MapField, MapSize, EntrySize;
      MapBounded(StringValue, StringSize, [], n, LenSize(n), m, i);
    }
    hide StringMapField, Decode, StringMapSize, EntrySize;
    DecodeBounded(StringMapField, StringMapSize, n, EntrySize(n, LenSize(n)), m, 0, r);
    Product(|r|, n, EntrySize(n, LenSize(n)));
  }

  lemma Product(a: nat, b: nat, c: nat)
    requires a <= b
    ensures a * c <= b * c
  {
  }

  /** And a map of maps at most cubic room. */
  lemma BalancesBounded(n: nat, m: BalanceMap, r: seq<byte>)
    requires |r| <= n && Unmarshal(BalanceMapField, m, r).Ok?
    ensures BalanceMapSize(Unmarshal(BalanceMapField, m, r).value) <= BalanceMapSize(m) + BalancesBound(n)
  {
    var b := LenSize(StringsBound(n));
    BalanceBounded(n);
    forall m, i: Input | |i.rest| <= n && BalanceMapField(m, i).Done?
      ensures BalanceMapSize(BalanceMapField(m, i).message) <= BalanceMapSize(m) + EntrySize(n, b)
    {
      hide MapField, MapSize, EntrySize, Bounded, LenSize, StringsBound;
      MapBounded(BalanceValue, BalanceSize, None, n, b, m, i);
    }
    hide BalanceMapField, Decode, BalanceMapSize, EntrySize, StringsBound, LenSize, Bounded;
    DecodeBounded(BalanceMapField, BalanceMapSize, n, EntrySize(n, b), m, 0, r);
    Product(|r|, n, EntrySize(n, b));
  }

  lemma BalanceBounded(n: nat)
    ensures Bounded(BalanceValue, BalanceSize, n, LenSize(StringsBound(n)))
  {
    hide Unmarshal, StringMapSize, LenSize, StringsBound;
    NoStrings();
    forall x | |x| <= n && BalanceValue(x).Ok? ensures BalanceSize(BalanceValue(x).value) <= LenSize(StringsBound(n)) {
      StringsBounded(n, map[], x);
      LenSizeMonotone(StringMapSize(BalanceValue(x).value.value), StringsBound(n));
    }
  }
}
