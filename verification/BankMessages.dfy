/**
 `Bank` and its map messages as objects.  Maps are walked in an order that is chosen anew by every
 walk; the order a marshalling walk took is returned as a ghost.
 */
module BankMessages {
  import opened Wrappers
  import opened Varint
  import opened Skipper
  import opened Decoder
  import opened Encoder
  import opened CordaMessages
  import T = CordaTypes
  import B = BankTypes
  import S = BankSizes

  /** One field of a map entry; at is where the entry's length starts, postIndex where it ends. */
  method DecodePiece(dAtA: seq<byte>, ghost at: nat, iNdEx: nat, postIndex: nat)
    returns (r: Result<Turn<B.Piece>, WireError>)
    requires at <= iNdEx < postIndex <= |dAtA|
    ensures r == B.EntryPiece(at, dAtA[at..], iNdEx - at, postIndex - at)
    ensures r.Ok? && !r.value.message.Other? ==> |r.value.message.bytes| <= |dAtA|
  {
    hide ReadVarint, Extent, SkipSize;
    ghost var p := iNdEx - at;
    SliceOfSlice(dAtA, at, p);
    var wire := DecodeVarint(dAtA, iNdEx);
    if wire.Err? {
      return Err(wire.error);
    }
    var fieldNum, next := Int32(wire.value.value / 8), wire.value.size;
    SliceOfSlice(dAtA, at, next - at);
    if fieldNum == 1 || fieldNum == 2 {
      var x := DecodeExtent(dAtA, next);
      if x.Err? {
        return Err(x.error);
      }
      var bytes := dAtA[x.value.start..x.value.end];
      return Ok(Turn(if fieldNum == 1 then B.Key(bytes) else B.Value(bytes), x.value.end - iNdEx));
    }
    var skippy := Skip(dAtA[iNdEx..]);
    if skippy.Err? {
      return Err(skippy.error);
    }
    if iNdEx + skippy.value >= TWO_63 {
      return Err(InvalidLength);
    }
    if iNdEx + skippy.value > postIndex {
      return Err(UnexpectedEOF);
    }
    return Ok(Turn(B.Other, skippy.value));
  }

  /** The size of a map entry, its own tag and length included. */
  method EntrySize(k: nat, n: nat) returns (size: nat)
    ensures size == S.EntrySize(k, n)
  {
    SovIsSize(k);
    var mapEntrySize := 1 + k + Sov(k) + n;
    SovIsSize(mapEntrySize);
    return mapEntrySize + 1 + Sov(mapEntrySize);
  }

  /** Writes the key of an entry in front of its value field, and the entry's tag and length. */
  method PutEntry(dAtA: array<byte>, baseI: nat, i: nat, k: seq<byte>, ghost value: Option<seq<byte>>,
                  ghost was: seq<byte>)
    returns (j: nat)
    requires Written(was, dAtA[..], i, baseI, T.SubField(2, value))
    requires |LenField(1, B.EncEntry(k, value))| <= baseI <= dAtA.Length && baseI < TWO_63
    modifies dAtA
    ensures Written(was, dAtA[..], j, baseI, LenField(1, B.EncEntry(k, value)))
  {
    ghost var entry, v := B.EncEntry(k, value), T.SubField(2, value);
    T.LenFieldSize(1, k);
    T.LenFieldSize(1, entry);
    assert entry == LenField(1, k) + v;
    hide LenField, T.SubField, Splice, B.EncEntry, EncVarint, VarintSize, LenSize;
    ghost var mid := dAtA[..];
    j := PutBytes(dAtA, i, 1, k);
    WrittenMore(was, mid, dAtA[..], j, i, baseI, LenField(1, k), v);
    j := PutMessageHeader(dAtA, baseI, baseI - j, 1, was, entry);
  }

  /** Rest has still to be walked, es has been. */
  ghost predicate Walking<V>(m: map<B.Str, V>, rest: map<B.Str, V>, es: seq<B.Entry<V>>) {
    B.Distinct(es) && rest.Keys !! B.ToMap(es).Keys && rest + B.ToMap(es) == m
  }

  lemma WalkBegins<V>(m: map<B.Str, V>)
    ensures Walking(m, m, [])
  {
  }

  lemma WalkOn<V>(m: map<B.Str, V>, rest: map<B.Str, V>, es: seq<B.Entry<V>>, k: B.Str)
    requires Walking(m, rest, es) && k in rest
    ensures k in m && m[k] == rest[k] && forall i :: 0 <= i < |es| ==> es[i].key != k
    ensures Walking(m, rest - {k}, [B.Entry(k, rest[k])] + es)
  {
    var es' := [B.Entry(k, rest[k])] + es;
    assert es'[1..] == es;
    assert k in (rest + B.ToMap(es));
    forall i | 0 <= i < |es| ensures es[i].key != k {
      S.ToMapKeys(es, es[i].key);
    }
  }

  /** `Bank_BalanceMapPerDenom` and `Bank_IbcDenomMap`, whose code is the same up to names. */
  class StringMapMessage {
    var Entries: map<B.Str, B.Str>

    constructor ()
      ensures Value() == map[]
    {
      Entries := map[];
    }

    function Value(): B.StringMap
      reads this
    {
      Entries
    }

    method Size() returns (n: nat)
      ensures n == S.StringMapSize(Value())
    {
      n := 0;
      var todo := Entries.Keys;
      ghost var rest := Entries;
      while todo != {}
        invariant todo == rest.Keys && forall k :: k in rest ==> k in Entries && rest[k] == Entries[k]
        invariant n + S.StringMapSize(rest) == S.StringMapSize(Entries)
        decreases todo
      {
        var k :| k in todo;
        var v := Entries[k];
        SovIsSize(|v|);
        var mapEntrySize := EntrySize(|k|, 1 + |v| + Sov(|v|));
        n := n + mapEntrySize;
        S.MapSizePick(S.StringSize, rest, k);
        todo := todo - {k};
        rest := rest - {k};
      }
    }

    method MarshalToSizedBuffer(dAtA: array<byte>, end: nat) returns (n: nat, ghost es: B.Strings)
      requires S.StringMapSize(Value()) <= end <= dAtA.Length && end < TWO_63
      modifies dAtA
      ensures B.Distinct(es) && B.ToMap(es) == Value()
      ensures n == |B.EncStrings(es)| == S.StringMapSize(Value())
      ensures dAtA[..] == Splice(old(dAtA[..]), end - n, end, B.EncStrings(es))
    {
      hide B.EncEntries, Splice, S.MapSize, B.Distinct;
      var i := end;
      var todo := Entries.Keys;
      ghost var was, rest := dAtA[..], Entries;
      es := [];
      NothingYet(was, end);
      WalkBegins(Entries);
      while todo != {}
        invariant todo == rest.Keys && Walking(Entries, rest, es)
        invariant Written(was, dAtA[..], i, end, B.EncStrings(es))
        invariant S.StringMapSize(rest) + |B.EncStrings(es)| == S.StringMapSize(Entries)
        decreases todo
      {
        var k :| k in todo;
        i := PutStringEntry(dAtA, i, end, k, rest, es, was);
        es := [B.Entry(k, Entries[k])] + es;
        todo := todo - {k};
        rest := rest - {k};
      }
      assert B.ToMap(es) == Entries;
      S.StringsLength(es);
      return end - i, es;
    }

    /** One turn of the marshalling walk. */
    method PutStringEntry(dAtA: array<byte>, i: nat, ghost end: nat, k: B.Str, ghost rest: B.StringMap,
                          ghost es: B.Strings, ghost was: seq<byte>)
      returns (j: nat)
      requires Walking(Entries, rest, es) && k in rest && i <= dAtA.Length && i < TWO_63
      requires Written(was, dAtA[..], i, end, B.EncStrings(es))
      requires S.StringMapSize(rest) + |B.EncStrings(es)| == S.StringMapSize(Entries) <= end
      modifies dAtA
      ensures k in Entries && Walking(Entries, rest - {k}, [B.Entry(k, Entries[k])] + es)
      ensures Written(was, dAtA[..], j, end, B.EncStrings([B.Entry(k, Entries[k])] + es))
      ensures S.StringMapSize(rest - {k}) + |B.EncStrings([B.Entry(k, Entries[k])] + es)| == S.StringMapSize(Entries)
    {
      WalkOn(Entries, rest, es, k);
      var v := Entries[k];
      ghost var mid, es' := dAtA[..], [B.Entry(k, v)] + es;
      assert es'[0] == B.Entry(k, v) && es'[1..] == es;
      ghost var field := LenField(1, B.EncEntry(k, Some(v)));
      S.MapSizePick(S.StringSize, rest, k);
      S.EntryLength(k, Some(v));
      T.LenFieldSize(2, v);
      hide LenField, B.EncEntry, Walking, S.MapSize, S.EntrySize;
      EntryHolds(k, Some(v));
      j := PutBytes(dAtA, i, 2, v);
      SplicedIsWritten(mid, dAtA[..], j, i, LenField(2, v));
      j := PutEntry(dAtA, i, j, k, Some(v), mid);
      WrittenMore(was, mid, dAtA[..], j, i, end, field, B.EncStrings(es));
    }

    /** The case of the switch for the map: one entry is read and overlaid. */
    method UnmarshalEntry(dAtA: seq<byte>, at: nat, tag: Tag) returns (err: Option<WireError>, next: nat)
      requires at <= |dAtA| < TWO_63 && tag.num == 1
      modifies this
      ensures var d := B.StringMapField(old(Value()), FieldAt(dAtA, at, tag));
              if err.Some? then d == Fail(err.value)
              else d.Done? && next == at + d.size <= |dAtA| && Value() == d.message
    {
      hide Payload, B.EntryPiece;
      var p := DecodePayload(dAtA, at, tag);
      if p.Err? {
        return Some(p.error), at;
      }
      var iNdEx, postIndex := p.value.start, p.value.end;
      var mapkey, mapvalue := [], [];
      ghost var r, end := dAtA[at..], postIndex - at;
      while iNdEx < postIndex
        invariant at <= iNdEx <= |dAtA| && Entries == old(Entries)
        invariant B.EntryFrom(B.StringValue, at, r, iNdEx - at, end, B.Entry(mapkey, mapvalue))
               == B.EntryFrom(B.StringValue, at, r, p.value.start - at, end, B.Entry([], []))
      {
        var piece := DecodePiece(dAtA, at, iNdEx, postIndex);
        if piece.Err? {
          return Some(piece.error), at;
        }
        match piece.value.message {
          case Key(x) => mapkey := x;
          case Value(x) => mapvalue := x;
          case Other =>
        }
        iNdEx := iNdEx + piece.value.size;
      }
      Entries := Entries[mapkey := mapvalue];
      return None, postIndex;
    }

    /** One turn of the loop. */
    method UnmarshalField(dAtA: seq<byte>, iNdEx: nat) returns (err: Option<WireError>, next: nat)
      requires iNdEx < |dAtA| < TWO_63
      modifies this
      ensures err.None? ==> iNdEx < next <= |dAtA|
      ensures DecodeAt(B.StringMapField, old(Value()), dAtA, iNdEx)
           == if err.Some? then Err(err.value) else DecodeAt(B.StringMapField, Value(), dAtA, next)
    {
      hide Decode, DecodeAt, ReadTag, SkipUnknown, Payload, B.EntryFrom;
      var t := DecodeTag(dAtA, iNdEx);
      if t.Err? {
        LoopNoTag(B.StringMapField, Value(), dAtA, iNdEx);
        return Some(t.error), iNdEx;
      }
      var tag, at := t.value, iNdEx + t.value.size;
      LoopTurn(B.StringMapField, Value(), dAtA, iNdEx, tag);
      if tag.num == 1 {
        err, next := UnmarshalEntry(dAtA, at, tag);
      } else {
        LoopSkips(B.StringMapField, Value(), dAtA, iNdEx, tag);
        var skippy := SkipUnknownField(dAtA, iNdEx);
        if skippy.Err? {
          return Some(skippy.error), iNdEx;
        }
        return None, iNdEx + skippy.value;
      }
    }

    method Unmarshal(dAtA: seq<byte>) returns (err: Option<WireError>)
      requires |dAtA| < TWO_63
      modifies this
      ensures Outcome(err, Decoder.Unmarshal(B.StringMapField, old(Value()), dAtA), Value())
    {
      hide DecodeAt, Decoder.Unmarshal;
      var l, iNdEx := |dAtA|, 0;
      LoopBegins(B.StringMapField, Value(), dAtA);
      while iNdEx < l
        invariant 0 <= iNdEx <= l
        invariant DecodeAt(B.StringMapField, Value(), dAtA, iNdEx)
               == Decoder.Unmarshal(B.StringMapField, old(Value()), dAtA)
      {
        err, iNdEx := UnmarshalField(dAtA, iNdEx);
        if err.Some? {
          return;
        }
      }
      LoopEnds(B.StringMapField, Value(), dAtA);
      return None;
    }
  }

  lemma NothingYet(was: seq<byte>, end: nat)
    requires end <= |was|
    ensures Written(was, was, end, end, B.EncStrings([])) && Written(was, was, end, end, B.EncBalances([]))
  {
  }

  lemma SplicedIsWritten(was: seq<byte>, now: seq<byte>, j: nat, i: nat, bs: seq<byte>)
    requires j + |bs| == i <= |was| && now == Splice(was, j, i, bs)
    ensures Written(was, now, j, i, bs)
  {
  }

  /** An entry has room for its value field. */
  lemma EntryHolds(key: B.Str, x: Option<seq<byte>>)
    ensures |T.SubField(2, x)| <= |LenField(1, B.EncEntry(key, x))|
  {
  }

  /** `Bank_BalanceMap`. */
  class BalanceMapMessage {
    var DenomToMap: map<B.Str, StringMapMessage?>

    constructor ()
      ensures Value() == map[] && DenomToMap == map[]
    {
      DenomToMap := map[];
    }

    static function ValueOf(o: StringMapMessage?): Option<B.StringMap>
      reads o
    {
      if o == null then None else Some(o.Value())
    }

    function Value(): B.BalanceMap
      reads this, DenomToMap.Values
    {
      map k | k in DenomToMap :: ValueOf(DenomToMap[k])
    }

    static method ValueSize(v: StringMapMessage?) returns (l: nat)
      ensures l == S.BalanceSize(ValueOf(v))
    {
      l := 0;
      if v != null {
        l := v.Size();
        SovIsSize(l);
        l := l + 1 + Sov(l);
      }
    }

    method Size() returns (n: nat)
      ensures n == S.BalanceMapSize(Value())
    {
      hide S.EntrySize, S.BalanceSize;
      n := 0;
      var todo := DenomToMap.Keys;
      ghost var rest := Value();
      assert rest.Keys == DenomToMap.Keys;
      while todo != {}
        invariant todo == rest.Keys && forall k :: k in rest ==> k in Value() && rest[k] == Value()[k]
        invariant n + S.BalanceMapSize(rest) == S.BalanceMapSize(Value())
        decreases todo
      {
        var k :| k in todo;
        assert k in Value();
        var l := ValueSize(DenomToMap[k]);
        var mapEntrySize := EntrySize(|k|, l);
        n := n + mapEntrySize;
        S.MapSizePick(S.BalanceSize, rest, k);
        todo := todo - {k};
        rest := rest - {k};
      }
    }

    method MarshalToSizedBuffer(dAtA: array<byte>, end: nat) returns (n: nat, ghost es: B.Balances)
      requires S.BalanceMapSize(Value()) <= end <= dAtA.Length && end < TWO_63
      modifies dAtA
      ensures S.DistinctBalances(es) && B.ToMap(B.BalancesOf(es)) == Value()
      ensures n == |B.EncBalances(es)| == S.BalanceMapSize(Value())
      ensures dAtA[..] == Splice(old(dAtA[..]), end - n, end, B.EncBalances(es))
    {
      hide B.EncEntries, Splice, S.MapSize, Walking;
      var i := end;
      var todo := DenomToMap.Keys;
      ghost var was, rest := dAtA[..], Value();
      es := [];
      NothingYet(was, end);
      WalkBegins(Value());
      assert B.BalancesOf(es) == [];
      while todo != {}
        invariant todo == rest.Keys && Walking(Value(), rest, B.BalancesOf(es)) && S.DistinctBalances(es)
        invariant Written(was, dAtA[..], i, end, B.EncBalances(es))
        invariant S.BalanceMapSize(rest) + |B.EncBalances(es)| == S.BalanceMapSize(Value())
        decreases todo
      {
        var k :| k in todo;
        WalkOn(Value(), rest, B.BalancesOf(es), k);
        i, es := PutBalanceEntry(dAtA, i, end, k, rest, es, was);
        todo := todo - {k};
        rest := rest - {k};
      }
      WalkEnds(Value(), B.BalancesOf(es));
      S.BalancesLength(es);
      return end - i, es;
    }

    /** The value field of an entry, written unless it is nil. */
    static method PutBalanceValue(dAtA: array<byte>, i: nat, v: StringMapMessage?)
      returns (j: nat, ghost inner: Option<B.Strings>)
      requires v != null ==> LenSize(S.StringMapSize(v.Value())) <= i
      requires i <= dAtA.Length && i < TWO_63
      modifies dAtA
      ensures Written(old(dAtA[..]), dAtA[..], j, i, T.SubField(2, B.EncBalance(inner)))
      ensures B.BalanceOf(inner) == ValueOf(v) && (inner.Some? ==> B.Distinct(inner.value))
      ensures S.BalanceSize(ValueOf(v)) == if inner.Some? then LenSize(|B.EncStrings(inner.value)|) else 0
    {
      hide LenField, B.EncStrings, S.StringMapSize, B.ToMap, B.Distinct;
      ghost var was := dAtA[..];
      j, inner := i, None;
      if v != null {
        var size;
        ghost var strings;
        size, strings := v.MarshalToSizedBuffer(dAtA, i);
        inner := Some(strings);
        T.LenFieldSize(2, B.EncStrings(strings));
        j := PutMessageHeader(dAtA, i, size, 2, was, B.EncStrings(strings));
        SplicedIsWritten(was, dAtA[..], j, i, LenField(2, B.EncStrings(strings)));
      } else {
        Untouched(was, i);
      }
    }

    /** One turn of the marshalling walk. */
    method PutBalanceEntry(dAtA: array<byte>, i: nat, ghost end: nat, k: B.Str, ghost rest: B.BalanceMap,
                           ghost es: B.Balances, ghost was: seq<byte>)
      returns (j: nat, ghost es': B.Balances)
      requires Walking(Value(), rest, B.BalancesOf(es)) && S.DistinctBalances(es) && k in rest
      requires k in DenomToMap && i <= dAtA.Length && i < TWO_63
      requires Written(was, dAtA[..], i, end, B.EncBalances(es))
      requires S.BalanceMapSize(rest) + |B.EncBalances(es)| == S.BalanceMapSize(Value()) <= end
      modifies dAtA
      ensures Walking(Value(), rest - {k}, B.BalancesOf(es')) && S.DistinctBalances(es')
      ensures Written(was, dAtA[..], j, end, B.EncBalances(es'))
      ensures S.BalanceMapSize(rest - {k}) + |B.EncBalances(es')| == S.BalanceMapSize(Value())
    {
      WalkOn(Value(), rest, B.BalancesOf(es), k);
      hide B.EncEntry, Walking, S.MapSize, S.EntrySize, S.BalanceSize, S.DistinctBalances, LenField, B.EncStrings, B.EncBalance;
      hide StringMapMessage.Value;
      ghost var mid := dAtA[..];
      ghost var inner;
      S.MapSizePick(S.BalanceSize, rest, k);
      assert rest[k] == ValueOf(DenomToMap[k]);
      j, inner := PutBalance(dAtA, i, k, DenomToMap[k]);
      es' := [B.Entry(k, inner)] + es;
      BalancesPrepend(es, k, inner);
      WrittenMore(was, mid, dAtA[..], j, i, end, LenField(1, B.EncEntry(k, B.EncBalance(inner))), B.EncBalances(es));
    }

    /** An entry, its value field first. */
    static method PutBalance(dAtA: array<byte>, i: nat, k: B.Str, v: StringMapMessage?) returns (j: nat, ghost inner: Option<B.Strings>)
      requires S.EntrySize(|k|, S.BalanceSize(ValueOf(v))) <= i <= dAtA.Length && i < TWO_63
      modifies dAtA
      ensures Written(old(dAtA[..]), dAtA[..], j, i, LenField(1, B.EncEntry(k, B.EncBalance(inner))))
      ensures B.BalanceOf(inner) == ValueOf(v) && (inner.Some? ==> B.Distinct(inner.value))
      ensures |LenField(1, B.EncEntry(k, B.EncBalance(inner)))| == S.EntrySize(|k|, S.BalanceSize(ValueOf(v)))
    {
      hide B.EncEntry, S.MapSize, S.EntrySize, LenField, B.EncStrings, B.Distinct, B.ToMap, S.StringMapSize;
      if v != null {
        BalanceEntryRoom(k, v.Value());
      }
      ghost var was := dAtA[..];
      j, inner := PutBalanceValue(dAtA, i, v);
      S.EntryLength(k, B.EncBalance(inner));
      j := PutEntry(dAtA, i, j, k, B.EncBalance(inner), was);
    }

    /** The value of an entry starts from nothing, also where the entry has had one before. */
    static method DecodeValue(x: seq<byte>) returns (err: Option<WireError>, m: StringMapMessage)
      requires |x| < TWO_63
      ensures fresh(m)
      ensures B.BalanceValue(x) == if err.Some? then Err(err.value) else Ok(ValueOf(m))
    {
      hide Decoder.Unmarshal;
      m := new StringMapMessage();
      err := m.Unmarshal(x);
    }

    /** The case of the switch for the map: one entry is read and overlaid. */
    method UnmarshalEntry(dAtA: seq<byte>, at: nat, tag: Tag) returns (err: Option<WireError>, next: nat)
      requires at <= |dAtA| < TWO_63 && tag.num == 1
      modifies this
      ensures forall o :: o in DenomToMap.Values ==> o in old(DenomToMap.Values) || o == null || fresh(o)
      ensures var d := B.BalanceMapField(old(Value()), FieldAt(dAtA, at, tag));
              if err.Some? then d == Fail(err.value)
              else d.Done? && next == at + d.size <= |dAtA| && Value() == d.message
    {
      hide Payload, B.EntryPiece, B.BalanceValue, StringMapMessage.Value;
      var p := DecodePayload(dAtA, at, tag);
      if p.Err? {
        return Some(p.error), at;
      }
      var iNdEx, postIndex := p.value.start, p.value.end;
      var mapkey: B.Str, mapvalue: StringMapMessage? := [], null;
      ghost var r, end := dAtA[at..], postIndex - at;
      while iNdEx < postIndex
        invariant at <= iNdEx <= |dAtA| && DenomToMap == old(DenomToMap) && Value() == old(Value())
        invariant mapvalue == null || fresh(mapvalue)
        invariant B.EntryFrom(B.BalanceValue, at, r, iNdEx - at, end, B.Entry(mapkey, ValueOf(mapvalue)))
               == B.EntryFrom(B.BalanceValue, at, r, p.value.start - at, end, B.Entry([], None))
      {
        var piece := DecodePiece(dAtA, at, iNdEx, postIndex);
        if piece.Err? {
          return Some(piece.error), at;
        }
        match piece.value.message {
          case Key(x) =>
            mapkey := x;
          case Value(x) =>
            err, mapvalue := DecodeValue(x);
            if err.Some? {
              return err, at;
            }
          case Other =>
        }
        iNdEx := iNdEx + piece.value.size;
      }
      DenomToMap := DenomToMap[mapkey := mapvalue];
      return None, postIndex;
    }

    /** One turn of the loop. */
    method UnmarshalField(dAtA: seq<byte>, iNdEx: nat) returns (err: Option<WireError>, next: nat)
      requires iNdEx < |dAtA| < TWO_63
      modifies this
      ensures forall o :: o in DenomToMap.Values ==> o in old(DenomToMap.Values) || o == null || fresh(o)
      ensures err.None? ==> iNdEx < next <= |dAtA|
      ensures DecodeAt(B.BalanceMapField, old(Value()), dAtA, iNdEx)
           == if err.Some? then Err(err.value) else DecodeAt(B.BalanceMapField, Value(), dAtA, next)
    {
      hide Decode, DecodeAt, ReadTag, SkipUnknown, Payload, B.EntryFrom;
      var t := DecodeTag(dAtA, iNdEx);
      if t.Err? {
        LoopNoTag(B.BalanceMapField, Value(), dAtA, iNdEx);
        return Some(t.error), iNdEx;
      }
      var tag, at := t.value, iNdEx + t.value.size;
      LoopTurn(B.BalanceMapField, Value(), dAtA, iNdEx, tag);
      if tag.num == 1 {
        err, next := UnmarshalEntry(dAtA, at, tag);
      } else {
        LoopSkips(B.BalanceMapField, Value(), dAtA, iNdEx, tag);
        var skippy := SkipUnknownField(dAtA, iNdEx);
        if skippy.Err? {
          return Some(skippy.error), iNdEx;
        }
        return None, iNdEx + skippy.value;
      }
    }

    method Unmarshal(dAtA: seq<byte>) returns (err: Option<WireError>)
      requires |dAtA| < TWO_63
      modifies this
      ensures forall o :: o in DenomToMap.Values ==> o in old(DenomToMap.Values) || o == null || fresh(o)
      ensures Outcome(err, Decoder.Unmarshal(B.BalanceMapField, old(Value()), dAtA), Value())
    {
      hide DecodeAt, Decoder.Unmarshal;
      var l, iNdEx := |dAtA|, 0;
      LoopBegins(B.BalanceMapField, Value(), dAtA);
      while iNdEx < l
        invariant 0 <= iNdEx <= l
        invariant forall o :: o in DenomToMap.Values ==> o in old(DenomToMap.Values) || o == null || fresh(o)
        invariant DecodeAt(B.BalanceMapField, Value(), dAtA, iNdEx)
               == Decoder.Unmarshal(B.BalanceMapField, old(Value()), dAtA)
      {
        err, iNdEx := UnmarshalField(dAtA, iNdEx);
        if err.Some? {
          return;
        }
      }
      LoopEnds(B.BalanceMapField, Value(), dAtA);
      return None;
    }
  }

  lemma WalkEnds<V>(m: map<B.Str, V>, es: seq<B.Entry<V>>)
    requires Walking(m, map[], es)
    ensures B.ToMap(es) == m
  {
    assert map[] + B.ToMap(es) == B.ToMap(es);
  }

  lemma Untouched(was: seq<byte>, i: nat)
    requires i <= |was|
    ensures Written(was, was, i, i, [])
  {
  }

  /** An entry with a message value has room for it. */
  lemma BalanceEntryRoom(k: B.Str, v: B.StringMap)
    ensures LenSize(S.StringMapSize(v)) <= S.EntrySize(|k|, S.BalanceSize(Some(v)))
  {
  }

  lemma BalancesPrepend(es: B.Balances, k: B.Str, inner: Option<B.Strings>)
    requires forall i :: 0 <= i < |es| ==> B.BalancesOf(es)[i].key != k
    requires S.DistinctBalances(es) && (inner.Some? ==> B.Distinct(inner.value))
    ensures var es' := [B.Entry(k, inner)] + es;
            && B.BalancesOf(es') == [B.Entry(k, B.BalanceOf(inner))] + B.BalancesOf(es)
            && B.EncBalances(es') == LenField(1, B.EncEntry(k, B.EncBalance(inner))) + B.EncBalances(es)
            && S.DistinctBalances(es')
  {
    var es' := [B.Entry(k, inner)] + es;
    assert es'[1..] == es;
    forall i | 0 <= i < |es| ensures es[i].key != k {
      assert B.BalancesOf(es)[i].key == es[i].key;
    }
  }
}
