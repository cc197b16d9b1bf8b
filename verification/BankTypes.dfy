/**
 The values of `Bank` and of the maps in it.  A map field is written entry by entry in whatever
 order the map is walked, so what is written is a function of the entries in some order.
 */
module BankTypes {
  import opened Wrappers
  import opened Varint
  import opened Skipper
  import opened Decoder
  import opened CordaTypes

  type Str = seq<byte>

  /** A map from strings to strings: `Bank_BalanceMapPerDenom` and `Bank_IbcDenomMap`. */
  type StringMap = map<Str, Str>

  /** `Bank_BalanceMap`. A key may be bound to nil. */
  type BalanceMap = map<Str, Option<StringMap>>

  datatype Bank = Bank(
    participants: seq<Party>,
    baseId: Option<StateRef>,
    allocations: Option<BalanceMap>,
    locked: Option<BalanceMap>,
    minted: Option<BalanceMap>,
    denoms: Option<StringMap>)

  const EMPTY_BANK := Bank([], None, None, None, None, None)

  datatype Entry<+V> = Entry(key: Str, value: V)

  // ---------------------------------------------------------------- map entries

  /**
   The inner loop over an entry that ends at `end`, from p on.  Tags and lengths are checked
   against the end of the buffer, not of the entry, and wire types are not checked at all.
   */
  function EntryFrom<V>(dec: seq<byte> -> Result<V, WireError>, base: nat, r: seq<byte>, p: nat, end: nat, e: Entry<V>)
    : Result<Entry<V>, WireError>
    requires p <= |r| && end <= |r|
    decreases |r| - p
  {
    if p >= end then Ok(e)
    else
      match EntryStep(dec, base, r, p, end, e)
      case Err(error) => Err(error)
      case Ok(t) => EntryFrom(dec, base, r, p + t.size, end, t.message)
  }

  function EntryStep<V>(dec: seq<byte> -> Result<V, WireError>, base: nat, r: seq<byte>, p: nat, end: nat, e: Entry<V>)
    : (t: Result<Turn<Entry<V>>, WireError>)
    requires p < end <= |r|
    ensures t.Ok? ==> t.value.size >= 1 && p + t.value.size <= |r|
  {
    match EntryPiece(base, r, p, end)
    case Err(error) => Err(error)
    case Ok(t) =>
      match t.message
      case Key(x) => Ok(Turn(e.(key := x), t.size))
      case Other => Ok(Turn(e, t.size))
      case Value(x) =>
        match dec(x)
        case Err(error) => Err(error)
        case Ok(v) => Ok(Turn(e.(value := v), t.size))
  }

  /** A field of an entry: the bytes of its key or of its value, or something to skip. */
  datatype Piece = Key(bytes: seq<byte>) | Value(bytes: seq<byte>) | Other

  function EntryPiece(base: nat, r: seq<byte>, p: nat, end: nat): (t: Result<Turn<Piece>, WireError>)
    requires p < end <= |r|
    ensures t.Ok? ==> t.value.size >= 1 && p + t.value.size <= |r|
  {
    match ReadVarint(r[p..])
    case Err(error) => Err(error)
    case Ok(wire) =>
      var num, q := Int32(wire.value / 8), p + wire.size;
      if num == 1 || num == 2 then
        match Extent(base + q, r[q..])
        case Err(error) => Err(error)
        case Ok(s) =>
          var x := r[q..][s.start..s.end];
          Ok(Turn(if num == 1 then Key(x) else Value(x), wire.size + s.end))
      else
        match SkipSize(r[p..])
        case Err(error) => Err(error)
        case Ok(n) =>
          if base + p + n >= TWO_63 then Err(InvalidLength)
          else if p + n > end then Err(UnexpectedEOF)
          else Ok(Turn(Other, n))
  }

  /** The switch of a message whose only field is a map, given how values are decoded. */
  function MapField<V>(dec: seq<byte> -> Result<V, WireError>, zero: V, m: map<Str, V>, i: Input)
    : Handled<map<Str, V>>
  {
    if i.num == 1 then
      match Payload(i)
      case Err(e) => Fail(e)
      case Ok(s) =>
        match EntryFrom(dec, i.base, i.rest, s.start, s.end, Entry([], zero))
        case Err(e) => Fail(e)
        case Ok(e) => Done(m[e.key := e.value], s.end)
    else Unknown
  }

  function StringValue(p: seq<byte>): Result<Str, WireError> {
    Ok(p)
  }

  function StringMapField(m: StringMap, i: Input): Handled<StringMap> {
    MapField(StringValue, [], m, i)
  }

  function BalanceValue(p: seq<byte>): Result<Option<StringMap>, WireError> {
    match Unmarshal(StringMapField, map[], p)
    case Ok(m) => Ok(Some(m))
    case Err(e) => Err(e)
  }

  function BalanceMapField(m: BalanceMap, i: Input): Handled<BalanceMap> {
    MapField(BalanceValue, None, m, i)
  }

  function Mapped<M, N>(a: Handled<M>, f: M -> N): Handled<N> {
    match a
    case Done(m, n) => Done(f(m), n)
    case Fail(e) => Fail(e)
    case Unknown => Unknown
  }

  /** Participants are appended; the other fields are merged into what is there. */
  function BankField(m: Bank, i: Input): Handled<Bank> {
    match i.num
    case 1 =>
      Mapped(SubMessage(PartyField, EMPTY_PARTY, i), x => m.(participants := m.participants + [x]))
    case 2 => Mapped(SubMessage(StateRefField, OrElse(m.baseId, EMPTY_REF), i), x => m.(baseId := Some(x)))
    case 3 => Mapped(SubMessage(BalanceMapField, OrElse(m.allocations, map[]), i), x => m.(allocations := Some(x)))
    case 4 => Mapped(SubMessage(BalanceMapField, OrElse(m.locked, map[]), i), x => m.(locked := Some(x)))
    case 5 => Mapped(SubMessage(BalanceMapField, OrElse(m.minted, map[]), i), x => m.(minted := Some(x)))
    case 6 => Mapped(SubMessage(StringMapField, OrElse(m.denoms, map[]), i), x => m.(denoms := Some(x)))
    case _ => Unknown
  }

  // ---------------------------------------------------------------- locality

  lemma SkipAt(r: seq<byte>, t: seq<byte>, p: nat)
    requires p <= |r| < TWO_63 && SkipSize(r[p..]).Ok? && p + SkipSize(r[p..]).value <= |r|
    ensures SkipSize((r + t)[p..]) == SkipSize(r[p..])
  {
    SkipStable(r[p..], t);
    assert (r + t)[p..] == r[p..] + t;
  }

  lemma PieceLocal(base: nat, r: seq<byte>, p: nat, end: nat, t: seq<byte>, base': nat)
    requires p < end <= |r| < TWO_63 && EntryPiece(base, r, p, end).Ok?
    ensures EntryPiece(base, r + t, p, end) == EntryPiece(base, r, p, end)
    ensures base' + |r| < TWO_63 ==> EntryPiece(base', r, p, end) == EntryPiece(base, r, p, end)
  {
    hide ReadVarint, Extent, SkipSize, Int32;
    ReadVarintStable(r[p..], t);
    assert (r + t)[p..] == r[p..] + t;
    var wire := ReadVarint(r[p..]).value;
    var num, q := Int32(wire.value / 8), p + wire.size;
    if num == 1 || num == 2 {
      assert (r + t)[q..] == r[q..] + t;
      ExtentLocal(base + q, r[q..], t, base' + q);
    } else {
      SkipAt(r, t, p);
    }
  }

  lemma {:induction false} EntryLocal<V>(dec: seq<byte> -> Result<V, WireError>, base: nat, r: seq<byte>, p: nat, end: nat,
                                         e: Entry<V>, t: seq<byte>, base': nat)
    requires p <= |r| < TWO_63 && end <= |r| && EntryFrom(dec, base, r, p, end, e).Ok?
    ensures EntryFrom(dec, base, r + t, p, end, e) == EntryFrom(dec, base, r, p, end, e)
    ensures base' + |r| < TWO_63 ==> EntryFrom(dec, base', r, p, end, e) == EntryFrom(dec, base, r, p, end, e)
    decreases |r| - p
  {
    hide EntryPiece;
    if p < end {
      PieceLocal(base, r, p, end, t, base');
      var s := EntryStep(dec, base, r, p, end, e).value;
      EntryLocal(dec, base, r, p + s.size, end, s.message, t, base');
    }
  }

  lemma MapFieldLocal<V>(dec: seq<byte> -> Result<V, WireError>, zero: V, m: map<Str, V>, i: Input, t: seq<byte>, base: nat)
    requires |i.rest| < TWO_63 && MapField(dec, zero, m, i).Done?
    ensures MapField(dec, zero, m, i).size <= |i.rest|
    ensures MapField(dec, zero, m, i.(rest := i.rest + t)) == MapField(dec, zero, m, i)
    ensures base + |i.rest| < TWO_63 ==> MapField(dec, zero, m, i.(base := base)) == MapField(dec, zero, m, i)
  {
    hide Payload, EntryFrom;
    PayloadLocal(i, t, base);
    var s := Payload(i).value;
    EntryLocal(dec, i.base, i.rest, s.start, s.end, Entry([], zero), t, base);
  }

  lemma StringMapLocal()
    ensures Local(StringMapField)
  {
    forall m, i, t, base ensures LocalAt(StringMapField, m, i, t, base) {
      if StringMapField(m, i).Done? && |i.rest| < TWO_63 {
        MapFieldLocal(StringValue, [], m, i, t, base);
      }
    }
  }

  lemma BalanceMapLocal()
    ensures Local(BalanceMapField)
  {
    forall m, i, t, base ensures LocalAt(BalanceMapField, m, i, t, base) {
      if BalanceMapField(m, i).Done? && |i.rest| < TWO_63 {
        MapFieldLocal(BalanceValue, None, m, i, t, base);
      }
    }
  }

  lemma BankLocal()
    ensures Local(BankField)
  {
    forall m, i, t, base ensures LocalAt(BankField, m, i, t, base) {
      hide SubMessage;
      if BankField(m, i).Done? {
        match i.num {
          case 1 => SubMessageLocal(PartyField, EMPTY_PARTY, i, t, base);
          case 2 => SubMessageLocal(StateRefField, OrElse(m.baseId, EMPTY_REF), i, t, base);
          case 3 => SubMessageLocal(BalanceMapField, OrElse(m.allocations, map[]), i, t, base);
          case 4 => SubMessageLocal(BalanceMapField, OrElse(m.locked, map[]), i, t, base);
          case 5 => SubMessageLocal(BalanceMapField, OrElse(m.minted, map[]), i, t, base);
          case _ => SubMessageLocal(StringMapField, OrElse(m.denoms, map[]), i, t, base);
        }
      }
    }
  }

  // ---------------------------------------------------------------- encodings

  /** The entries of a map in some order, and what they add up to when later ones win. */
  function ToMap<V>(es: seq<Entry<V>>): map<Str, V> {
    if es == [] then map[] else map[es[0].key := es[0].value] + ToMap(es[1..])
  }

  /** No key twice: what walking a map gives. */
  predicate Distinct<V>(es: seq<Entry<V>>) {
    forall i, j :: 0 <= i < j < |es| ==> es[i].key != es[j].key
  }

  /** Keys are always written; nil values are not. */
  function EncEntry(key: Str, value: Option<seq<byte>>): seq<byte> {
    EntryFields(Some(key), value)
  }

  function EntryFields(key: Option<Str>, value: Option<seq<byte>>): seq<byte> {
    SubField(1, key) + SubField(2, value)
  }

  function EncEntries<O>(enc: O -> Option<seq<byte>>, es: seq<Entry<O>>): seq<byte> {
    if es == [] then []
    else LenField(1, EncEntry(es[0].key, enc(es[0].value))) + EncEntries(enc, es[1..])
  }

  type Strings = seq<Entry<Str>>

  type Balances = seq<Entry<Option<Strings>>>

  function EncString(v: Str): Option<seq<byte>> {
    Some(v)
  }

  function EncStrings(es: Strings): seq<byte> {
    EncEntries(EncString, es)
  }

  function EncBalance(o: Option<Strings>): Option<seq<byte>> {
    if o.Some? then Some(EncStrings(o.value)) else None
  }

  function EncBalances(es: Balances): seq<byte> {
    EncEntries(EncBalance, es)
  }

  /** A bank together with the orders in which its maps are walked. */
  datatype BankForm = BankForm(
    participants: seq<Party>,
    baseId: Option<StateRef>,
    allocations: Option<Balances>,
    locked: Option<Balances>,
    minted: Option<Balances>,
    denoms: Option<Strings>)

  function BalanceOf(o: Option<Strings>): Option<StringMap> {
    if o.Some? then Some(ToMap(o.value)) else None
  }

  function BalancesOf(es: Balances): seq<Entry<Option<StringMap>>> {
    seq(|es|, i requires 0 <= i < |es| => Entry(es[i].key, BalanceOf(es[i].value)))
  }

  function BalanceMapOf(o: Option<Balances>): Option<BalanceMap> {
    if o.Some? then Some(ToMap(BalancesOf(o.value))) else None
  }

  function BankOf(f: BankForm): Bank {
    Bank(f.participants, f.baseId, BalanceMapOf(f.allocations), BalanceMapOf(f.locked), BalanceMapOf(f.minted),
         BalanceOf(f.denoms))
  }

  function EncParties(ps: seq<Party>): seq<byte> {
    if ps == [] then [] else LenField(1, EncParty(ps[0])) + EncParties(ps[1..])
  }

  function PayloadAt(f: BankForm, k: nat): Option<seq<byte>>
    requires 2 <= k <= 6
  {
    match k
    case 2 => if f.baseId.Some? then Some(EncStateRef(f.baseId.value)) else None
    case 3 => if f.allocations.Some? then Some(EncBalances(f.allocations.value)) else None
    case 4 => if f.locked.Some? then Some(EncBalances(f.locked.value)) else None
    case 5 => if f.minted.Some? then Some(EncBalances(f.minted.value)) else None
    case _ => if f.denoms.Some? then Some(EncStrings(f.denoms.value)) else None
  }

  /** The fields of a bank from number k on, participants excepted. */
  function EncBankFrom(f: BankForm, k: nat): seq<byte>
    requires 2 <= k <= 7
    decreases 7 - k
  {
    if k == 7 then [] else SubField(k, PayloadAt(f, k)) + EncBankFrom(f, k + 1)
  }

  function EncBank(f: BankForm): seq<byte> {
    EncParties(f.participants) + EncMessages(f)
  }

  function EncMessages(f: BankForm): seq<byte> {
    EncBankFrom(f, 2)
  }

  // ---------------------------------------------------------------- round trips

  /** One turn of the entry loop over a length-delimited field. */
  lemma PieceOfField(base: nat, r: seq<byte>, p: nat, end: nat, num: nat, x: seq<byte>, t: seq<byte>)
    requires num == 1 || num == 2
    requires p < end <= |r| && r[p..] == LenField(num, x) + t && base + p + |LenField(num, x)| < TWO_63
    ensures EntryPiece(base, r, p, end) == Ok(Turn(if num == 1 then Key(x) else Value(x), |LenField(num, x)|))
  {
    var rest := EncVarint(|x|) + x + t;
    assert LenField(num, x) + t == [8 * num + 2] + rest;
    hide Extent, ReadVarint, EncVarint, VarintSize, Int32, SkipSize;
    assert r[p + 1..] == r[p..][1..] == rest;
    ReadSmallWord(num, 2, rest);
    ExtentOfPayload(base + p + 1, x, t);
    assert |LenField(num, x)| == 1 + VarintSize(|x|) + |x|;
  }

  lemma FieldsSplit(r: seq<byte>, p: nat, a: seq<byte>, b: seq<byte>, t: seq<byte>)
    requires p <= |r| && r[p..] == a + b + t
    ensures p + |a| + |b| + |t| == |r| && r[p..] == a + (b + t) && r[p + |a|..] == b + t
  {
    assert r[p + |a|..] == r[p..][|a|..];
  }

  /** An entry is read back as the fields that were written, the others as they were. */
  lemma EntryRoundTrip<V>(dec: seq<byte> -> Result<V, WireError>, zero: V, base: nat, key: Option<Str>, x: Option<seq<byte>>, v: V,
                          r: seq<byte>, p: nat, t: seq<byte>)
    requires p <= |r| && r[p..] == EntryFields(key, x) + t && base + p + |EntryFields(key, x)| < TWO_63
    requires if x.Some? then dec(x.value) == Ok(v) else v == zero
    ensures p + |EntryFields(key, x)| <= |r|
    ensures EntryFrom(dec, base, r, p, p + |EntryFields(key, x)|, Entry([], zero)) == Ok(Entry(OrElse(key, []), v))
  {
    hide EntryFrom, LenField;
    var a, b := SubField(1, key), SubField(2, x);
    var q, e := p + |a|, Entry(OrElse(key, []), zero);
    FieldsSplit(r, p, a, b, t);
    if key.Some? {
      KeyRoundTrip(dec, base, r, p, q + |b|, Entry([], zero), key.value, b + t);
    }
    ValueRoundTrip(dec, base, r, q, e, x, v, t);
  }

  lemma KeyRoundTrip<V>(dec: seq<byte> -> Result<V, WireError>, base: nat, r: seq<byte>, p: nat, end: nat, e: Entry<V>,
                        key: Str, t: seq<byte>)
    requires p <= |r| && r[p..] == LenField(1, key) + t && p + |LenField(1, key)| <= end <= |r|
    requires base + p + |LenField(1, key)| < TWO_63
    ensures EntryFrom(dec, base, r, p, end, e) == EntryFrom(dec, base, r, p + |LenField(1, key)|, end, e.(key := key))
  {
    LenFieldSize(1, key);
    hide EntryPiece, LenField;
    PieceOfField(base, r, p, end, 1, key, t);
  }

  lemma ValueRoundTrip<V>(dec: seq<byte> -> Result<V, WireError>, base: nat, r: seq<byte>, p: nat, e: Entry<V>,
                          x: Option<seq<byte>>, v: V, t: seq<byte>)
    requires p <= |r| && r[p..] == SubField(2, x) + t && base + p + |SubField(2, x)| < TWO_63
    requires if x.Some? then dec(x.value) == Ok(v) else v == e.value
    ensures p + |SubField(2, x)| <= |r|
    ensures EntryFrom(dec, base, r, p, p + |SubField(2, x)|, e) == Ok(e.(value := v))
  {
    hide EntryPiece, LenField;
    if x.Some? {
      var end := p + |SubField(2, x)|;
      LenFieldSize(2, x.value);
      PieceOfField(base, r, p, end, 2, x.value, t);
      assert EntryFrom(dec, base, r, end, end, e.(value := v)) == Ok(e.(value := v));
    }
  }

  lemma MapFieldOfEntry<V>(dec: seq<byte> -> Result<V, WireError>, zero: V, m: map<Str, V>, base: nat, key: Option<Str>,
                           x: Option<seq<byte>>, v: V, t: seq<byte>)
    requires var p := EntryFields(key, x); base + 1 + VarintSize(|p|) + |p| < TWO_63
    requires if x.Some? then dec(x.value) == Ok(v) else v == zero
    ensures var p := EntryFields(key, x);
            MapField(dec, zero, m, FieldInput(base, 1, p, t)) == Done(m[OrElse(key, []) := v], VarintSize(|p|) + |p|)
  {
    hide Payload, EntryFields, EntryFrom, VarintSize;
    var p := EntryFields(key, x);
    var i := FieldInput(base, 1, p, t);
    PayloadOfField(base, 1, p, t);
    BehindLength(base, 1, p, t);
    EntryRoundTrip(dec, zero, base + 1, key, x, v, i.rest, VarintSize(|p|), t);
  }

  lemma MergeStep<V>(m: map<Str, V>, es: seq<Entry<V>>)
    requires es != []
    ensures m + ToMap(es) == m[es[0].key := es[0].value] + ToMap(es[1..])
  {
  }

  lemma {:induction false} DecodeStrings(m: StringMap, base: nat, es: Strings)
    requires base + |EncStrings(es)| < TWO_63
    ensures Decode(StringMapField, m, base, EncStrings(es)) == Ok(m + ToMap(es))
    decreases |es|
  {
    hide Decode, MapField, LenField, EntryFields;
    if es == [] {
      DecodeNothing(StringMapField, m, base);
      assert m + ToMap(es) == m;
    } else {
      var e, t := es[0], EncStrings(es[1..]);
      var p := EncEntry(e.key, Some(e.value));
      LenFieldSize(1, p);
      MapFieldOfEntry(StringValue, [], m, base, Some(e.key), Some(e.value), e.value, t);
      DecodeLenField(StringMapField, m, base, 1, p, t, m[e.key := e.value]);
      DecodeStrings(m[e.key := e.value], base + |LenField(1, p)|, es[1..]);
      MergeStep(m, es);
    }
  }

  lemma StringsRoundTrip(es: Strings)
    requires |EncStrings(es)| < TWO_63
    ensures Unmarshal(StringMapField, map[], EncStrings(es)) == Ok(ToMap(es))
  {
    DecodeStrings(map[], 0, es);
    assert map[] + ToMap(es) == ToMap(es);
  }

  lemma EntryContains(key: Str, x: Option<seq<byte>>)
    requires x.Some?
    ensures |x.value| < |EncEntry(key, x)|
  {
  }

  lemma {:induction false} DecodeBalances(m: BalanceMap, base: nat, es: Balances)
    requires base + |EncBalances(es)| < TWO_63
    ensures Decode(BalanceMapField, m, base, EncBalances(es)) == Ok(m + ToMap(BalancesOf(es)))
    decreases |es|
  {
    hide Decode, MapField, LenField, EntryFields, EncStrings, Unmarshal;
    if es == [] {
      DecodeNothing(BalanceMapField, m, base);
      assert m + ToMap(BalancesOf(es)) == m;
    } else {
      var e, t, v := es[0], EncBalances(es[1..]), BalanceOf(es[0].value);
      var p := EncEntry(e.key, EncBalance(e.value));
      LenFieldSize(1, p);
      if e.value.Some? {
        EntryContains(e.key, EncBalance(e.value));
        StringsRoundTrip(e.value.value);
      }
      MapFieldOfEntry(BalanceValue, None, m, base, Some(e.key), EncBalance(e.value), v, t);
      DecodeLenField(BalanceMapField, m, base, 1, p, t, m[e.key := v]);
      DecodeBalances(m[e.key := v], base + |LenField(1, p)|, es[1..]);
      MergeStep(m, BalancesOf(es));
      assert BalancesOf(es)[1..] == BalancesOf(es[1..]);
    }
  }

  lemma BalancesRoundTrip(es: Balances)
    requires |EncBalances(es)| < TWO_63
    ensures Unmarshal(BalanceMapField, map[], EncBalances(es)) == Ok(ToMap(BalancesOf(es)))
  {
    DecodeBalances(map[], 0, es);
    assert map[] + ToMap(BalancesOf(es)) == ToMap(BalancesOf(es));
  }

  /** The fields of f with numbers below k. */
  function BankUpTo(f: BankForm, k: nat): Bank {
    Bank(f.participants,
         if k > 2 then f.baseId else None,
         if k > 3 then BalanceMapOf(f.allocations) else None,
         if k > 4 then BalanceMapOf(f.locked) else None,
         if k > 5 then BalanceMapOf(f.minted) else None,
         if k > 6 then BalanceOf(f.denoms) else None)
  }

  /** The switch on a written field of number k. */
  lemma BankFieldAt(f: BankForm, k: nat, base: nat, t: seq<byte>)
    requires 2 <= k <= 6 && PayloadAt(f, k).Some? && base + LenSize(|PayloadAt(f, k).value|) < TWO_63
    ensures var p := PayloadAt(f, k).value;
            BankField(BankUpTo(f, k), FieldInput(base, k, p, t)) == Done(BankUpTo(f, k + 1), VarintSize(|p|) + |p|)
  {
    hide SubMessage, Unmarshal, EncBalances, EncStrings, EncStateRef, ToMap, BalancesOf, EncVarint;
    var p := PayloadAt(f, k).value;
    match k {
      case 2 =>
        StateRefRoundTrip(f.baseId.value);
        SubMessageOfField(StateRefField, EMPTY_REF, base, k, p, t, f.baseId.value);
      case 3 =>
        BalancesRoundTrip(f.allocations.value);
        SubMessageOfField(BalanceMapField, map[], base, k, p, t, ToMap(BalancesOf(f.allocations.value)));
      case 4 =>
        BalancesRoundTrip(f.locked.value);
        SubMessageOfField(BalanceMapField, map[], base, k, p, t, ToMap(BalancesOf(f.locked.value)));
      case 5 =>
        BalancesRoundTrip(f.minted.value);
        SubMessageOfField(BalanceMapField, map[], base, k, p, t, ToMap(BalancesOf(f.minted.value)));
      case _ =>
        StringsRoundTrip(f.denoms.value);
        SubMessageOfField(StringMapField, map[], base, k, p, t, ToMap(f.denoms.value));
    }
  }

  lemma BankUpToAbsent(f: BankForm, k: nat)
    requires 2 <= k <= 6 && PayloadAt(f, k) == None
    ensures BankUpTo(f, k) == BankUpTo(f, k + 1)
  {
  }

  lemma {:induction false} DecodeBankFrom(f: BankForm, k: nat, base: nat)
    requires 2 <= k <= 7 && base + |EncBankFrom(f, k)| < TWO_63
    ensures Decode(BankField, BankUpTo(f, k), base, EncBankFrom(f, k)) == Ok(BankOf(f))
    decreases 7 - k
  {
    hide Decode, PayloadAt, BankField, LenField;
    if k == 7 {
      DecodeNothing(BankField, BankUpTo(f, k), base);
    } else {
      hide BankUpTo, BankOf;
      var x, t := PayloadAt(f, k), EncBankFrom(f, k + 1);
      if x.Some? {
        LenFieldSize(k, x.value);
        BankFieldAt(f, k, base, t);
        DecodeLenField(BankField, BankUpTo(f, k), base, k, x.value, t, BankUpTo(f, k + 1));
        DecodeBankFrom(f, k + 1, base + |LenField(k, x.value)|);
      } else {
        BankUpToAbsent(f, k);
        DecodeBankFrom(f, k + 1, base);
        assert EncBankFrom(f, k) == t;
      }
    }
  }

  lemma PartyFieldOf(m: Bank, base: nat, x: Party, t: seq<byte>)
    requires base + LenSize(|EncParty(x)|) < TWO_63
    ensures BankField(m, FieldInput(base, 1, EncParty(x), t))
         == Done(m.(participants := m.participants + [x]), VarintSize(|EncParty(x)|) + |EncParty(x)|)
  {
    hide SubMessage, Unmarshal, EncParty, EncVarint;
    PartyRoundTrip(x);
    SubMessageOfField(PartyField, EMPTY_PARTY, base, 1, EncParty(x), t, x);
  }

  lemma {:induction false} DecodeParties(m: Bank, base: nat, ps: seq<Party>, t: seq<byte>)
    requires base + |EncParties(ps)| < TWO_63
    ensures Decode(BankField, m, base, EncParties(ps) + t)
         == Decode(BankField, m.(participants := m.participants + ps), base + |EncParties(ps)|, t)
    decreases |ps|
  {
    hide Decode, BankField, LenField, EncParty;
    if ps == [] {
      assert [] + t == t && m.participants + ps == m.participants;
    } else {
      var p, rest := EncParty(ps[0]), EncParties(ps[1..]) + t;
      var m' := m.(participants := m.participants + [ps[0]]);
      LenFieldSize(1, p);
      PartyFieldOf(m, base, ps[0], rest);
      DecodeLenField(BankField, m, base, 1, p, rest, m');
      DecodeParties(m', base + |LenField(1, p)|, ps[1..], t);
      assert EncParties(ps) + t == LenField(1, p) + rest;
      assert m'.participants + ps[1..] == m.participants + ps;
    }
  }

  /**
   Whatever orders its maps were walked in, a written bank is read back whole: participants in
   order, message fields absent exactly when they were, nil map values included.
   */
  lemma BankRoundTrip(f: BankForm)
    requires |EncBank(f)| < TWO_63
    ensures Unmarshal(BankField, EMPTY_BANK, EncBank(f)) == Ok(BankOf(f))
  {
    hide Decode, EncParties, EncBankFrom, BankOf;
    DecodeParties(EMPTY_BANK, 0, f.participants, EncMessages(f));
    assert EMPTY_BANK.(participants := [] + f.participants) == BankUpTo(f, 2);
    DecodeBankFrom(f, 2, |EncParties(f.participants)|);
  }
}
