/**
 The Corda messages as the code has them: objects with fields that `Unmarshal` updates and
 `MarshalToSizedBuffer` writes into the end of a buffer.  A slice `dAtA[:end]` is the array with
 the index `end`.
 */
module CordaMessages {
  import opened Wrappers
  import opened Varint
  import opened Decoder
  import opened Encoder
  import T = CordaTypes

  /** `SecureHash` and `PublicKey`, whose code is the same up to names. */
  class BytesMessage {
    var Bytes: seq<byte>

    constructor ()
      ensures Value() == []
    {
      Bytes := [];
    }

    function Value(): T.Blob
      reads this
    {
      Bytes
    }

    method Size() returns (n: nat)
      ensures n == |T.EncBlob(Value())|
    {
      n := 0;
      var l := |Bytes|;
      if l > 0 {
        SovIsSize(l);
        T.LenFieldSize(1, Bytes);
        n := n + 1 + l + Sov(l);
      }
    }

    method MarshalToSizedBuffer(dAtA: array<byte>, end: nat) returns (n: nat)
      requires |T.EncBlob(Value())| <= end <= dAtA.Length && end < TWO_63
      modifies dAtA
      ensures n == |T.EncBlob(Value())|
      ensures dAtA[..] == Splice(old(dAtA[..]), end - n, end, T.EncBlob(Value()))
    {
      var i := end;
      if |Bytes| > 0 {
        T.LenFieldSize(1, Bytes);
        i := PutBytes(dAtA, i, 1, Bytes);
      }
      return end - i;
    }

    /** One turn of the loop. */
    method UnmarshalField(dAtA: seq<byte>, iNdEx: nat) returns (err: Option<WireError>, next: nat)
      requires iNdEx < |dAtA| < TWO_63
      modifies this
      ensures err.None? ==> iNdEx < next <= |dAtA|
      ensures DecodeAt(T.BlobField, old(Value()), dAtA, iNdEx)
           == if err.Some? then Err(err.value) else DecodeAt(T.BlobField, Value(), dAtA, next)
    {
      hide Decode, DecodeAt, ReadTag, SkipUnknown, Payload;
      err, next := None, iNdEx;
      var t := DecodeTag(dAtA, iNdEx);
      if t.Err? {
        LoopNoTag(T.BlobField, Value(), dAtA, iNdEx);
        return Some(t.error), iNdEx;
      }
      var tag, at := t.value, iNdEx + t.value.size;
      LoopTurn(T.BlobField, Value(), dAtA, iNdEx, tag);
      if tag.num == 1 {
        var p := DecodePayload(dAtA, at, tag);
        if p.Err? {
          return Some(p.error), iNdEx;
        }
        Bytes := dAtA[p.value.start..p.value.end];
        next := p.value.end;
      } else {
        LoopSkips(T.BlobField, Value(), dAtA, iNdEx, tag);
        var skippy := SkipUnknownField(dAtA, iNdEx);
        if skippy.Err? {
          return Some(skippy.error), iNdEx;
        }
        next := iNdEx + skippy.value;
      }
    }

    method Unmarshal(dAtA: seq<byte>) returns (err: Option<WireError>)
      requires |dAtA| < TWO_63
      modifies this
      ensures Outcome(err, Decoder.Unmarshal(T.BlobField, old(Value()), dAtA), Value())
    {
      hide DecodeAt, Decoder.Unmarshal;
      var l, iNdEx := |dAtA|, 0;
      LoopBegins(T.BlobField, Value(), dAtA);
      while iNdEx < l
        invariant 0 <= iNdEx <= l
        invariant DecodeAt(T.BlobField, Value(), dAtA, iNdEx) == Decoder.Unmarshal(T.BlobField, old(Value()), dAtA)
      {
        err, iNdEx := UnmarshalField(dAtA, iNdEx);
        if err.Some? {
          return;
        }
      }
      LoopEnds(T.BlobField, Value(), dAtA);
      return None;
    }
  }

  class StateRef {
    var Txhash: BytesMessage?
    var Index: T.uint32

    constructor ()
      ensures Value() == T.EMPTY_REF && Txhash == null
    {
      Txhash := null;
      Index := 0;
    }

    function Value(): T.StateRef
      reads this, Txhash
    {
      T.StateRef(if Txhash == null then None else Some(Txhash.Value()), Index)
    }

    method Size() returns (n: nat)
      ensures n == |T.EncStateRef(Value())|
    {
      n := 0;
      if Txhash != null {
        var l := Txhash.Size();
        SovIsSize(l);
        T.LenFieldSize(1, T.EncBlob(Txhash.Value()));
        n := n + 1 + l + Sov(l);
      }
      if Index != 0 {
        SovIsSize(Index);
        n := n + 1 + Sov(Index);
      }
    }

    method MarshalToSizedBuffer(dAtA: array<byte>, end: nat) returns (n: nat)
      requires |T.EncStateRef(Value())| <= end <= dAtA.Length && end < TWO_63
      modifies dAtA
      ensures n == |T.EncStateRef(Value())|
      ensures dAtA[..] == Splice(old(dAtA[..]), end - n, end, T.EncStateRef(Value()))
    {
      hide T.EncBlob, T.EncIndex;
      ghost var was, v := dAtA[..], Value();
      var i := PutIndex(dAtA, end);
      ghost var at, mid := i, dAtA[..];
      if Txhash != null {
        ghost var p := T.EncBlob(Txhash.Value());
        T.LenFieldSize(1, p);
        var size := Txhash.MarshalToSizedBuffer(dAtA, i);
        i := PutMessageHeader(dAtA, i, size, 1, mid, p);
      }
      WrittenMore(was, mid, dAtA[..], i, at, end, T.EncHash(v.txhash), T.EncIndex(v.index));
      return end - i;
    }

    /** The index in front of `end`, unless it is 0. */
    method PutIndex(dAtA: array<byte>, end: nat) returns (i: nat)
      requires |T.EncIndex(Index)| <= end <= dAtA.Length && end < TWO_63
      modifies dAtA
      ensures Written(old(dAtA[..]), dAtA[..], i, end, T.EncIndex(Index))
    {
      hide EncVarint;
      ghost var was := dAtA[..];
      i := end;
      if Index != 0 {
        hide Splice;
        i := EncodeVarint(dAtA, i, Index);
        PutByte(dAtA, i, 0x10);
        i := i - 1;
        SpliceTwice(was, i, i + 1, end, [0x10], EncVarint(Index));
      }
    }

    /** The case of the switch for Txhash: the message is merged into the one that is there. */
    method UnmarshalTxhash(dAtA: seq<byte>, at: nat, tag: Tag) returns (err: Option<WireError>, next: nat)
      requires at <= |dAtA| < TWO_63
      modifies this`Txhash, Txhash
      ensures Txhash == old(Txhash) || fresh(Txhash)
      ensures var d := T.SubMessage(T.BlobField, T.OrElse(old(Value()).txhash, []), FieldAt(dAtA, at, tag));
              if err.Some? then d == Fail(err.value)
              else d.Done? && next == at + d.size <= |dAtA| && Value() == old(Value()).(txhash := Some(d.message))
    {
      hide Decoder.Unmarshal, Payload;
      var p := DecodePayload(dAtA, at, tag);
      if p.Err? {
        return Some(p.error), at;
      }
      if Txhash == null {
        Txhash := new BytesMessage();
      }
      err := Txhash.Unmarshal(dAtA[p.value.start..p.value.end]);
      next := p.value.end;
    }

    /** One turn of the loop. */
    method UnmarshalField(dAtA: seq<byte>, iNdEx: nat) returns (err: Option<WireError>, next: nat)
      requires iNdEx < |dAtA| < TWO_63
      modifies this, Txhash
      ensures Txhash == old(Txhash) || fresh(Txhash)
      ensures err.None? ==> iNdEx < next <= |dAtA|
      ensures DecodeAt(T.StateRefField, old(Value()), dAtA, iNdEx)
           == if err.Some? then Err(err.value) else DecodeAt(T.StateRefField, Value(), dAtA, next)
    {
      hide Decode, DecodeAt, ReadTag, SkipUnknown, Payload, Digits, ReadVarint, T.SubMessage;
      err, next := None, iNdEx;
      var t := DecodeTag(dAtA, iNdEx);
      if t.Err? {
        LoopNoTag(T.StateRefField, Value(), dAtA, iNdEx);
        return Some(t.error), iNdEx;
      }
      var tag, at := t.value, iNdEx + t.value.size;
      LoopTurn(T.StateRefField, Value(), dAtA, iNdEx, tag);
      match tag.num {
        case 1 =>
          err, next := UnmarshalTxhash(dAtA, at, tag);
        case 2 =>
          if tag.wireType != 0 {
            return Some(WrongWireType), iNdEx;
          }
          Index := 0;
          var v := DecodeUint32(dAtA, at);
          if v.Err? {
            return Some(v.error), iNdEx;
          }
          Index := v.value.value;
          next := v.value.size;
        case _ =>
          LoopSkips(T.StateRefField, Value(), dAtA, iNdEx, tag);
          var skippy := SkipUnknownField(dAtA, iNdEx);
          if skippy.Err? {
            return Some(skippy.error), iNdEx;
          }
          next := iNdEx + skippy.value;
      }
    }

    method Unmarshal(dAtA: seq<byte>) returns (err: Option<WireError>)
      requires |dAtA| < TWO_63
      modifies this, Txhash
      ensures Txhash == old(Txhash) || fresh(Txhash)
      ensures Outcome(err, Decoder.Unmarshal(T.StateRefField, old(Value()), dAtA), Value())
    {
      hide DecodeAt, Decoder.Unmarshal;
      var l, iNdEx := |dAtA|, 0;
      LoopBegins(T.StateRefField, Value(), dAtA);
      while iNdEx < l
        invariant 0 <= iNdEx <= l
        invariant Txhash == old(Txhash) || fresh(Txhash)
        invariant DecodeAt(T.StateRefField, Value(), dAtA, iNdEx) == Decoder.Unmarshal(T.StateRefField, old(Value()), dAtA)
      {
        err, iNdEx := UnmarshalField(dAtA, iNdEx);
        if err.Some? {
          return;
        }
      }
      LoopEnds(T.StateRefField, Value(), dAtA);
      return None;
    }
  }

  class CordaX500Name {
    var CommonName: seq<byte>
    var OrganisationUnit: seq<byte>
    var Organisation: seq<byte>
    var Locality: seq<byte>
    var State: seq<byte>
    var Country: seq<byte>

    constructor ()
      ensures Value() == T.EMPTY_NAME
    {
      CommonName, OrganisationUnit, Organisation := [], [], [];
      Locality, State, Country := [], [], [];
    }

    function Value(): (v: T.X500Name)
      reads this
      ensures v.commonName == CommonName && v.organisationUnit == OrganisationUnit && v.organisation == Organisation
      ensures v.locality == Locality && v.state == State && v.country == Country
    {
      T.X500Name(CommonName, OrganisationUnit, Organisation, Locality, State, Country)
    }

    method Size() returns (n: nat)
      ensures n == |T.EncName(Value())|
    {
      ghost var v := Value();
      n := OptSize(Country, 6);
      assert n == |T.EncNameFrom(v, 6)|;
      var l := OptSize(State, 5);
      n := n + l;
      l := OptSize(Locality, 4);
      n := n + l;
      assert n == |T.EncNameFrom(v, 4)|;
      l := OptSize(Organisation, 3);
      n := n + l;
      l := OptSize(OrganisationUnit, 2);
      n := n + l;
      assert n == |T.EncNameFrom(v, 2)|;
      l := OptSize(CommonName, 1);
      n := n + l;
    }

    method MarshalToSizedBuffer(dAtA: array<byte>, end: nat) returns (n: nat)
      requires |T.EncName(Value())| <= end <= dAtA.Length && end < TWO_63
      modifies dAtA
      ensures n == |T.EncName(Value())|
      ensures dAtA[..] == Splice(old(dAtA[..]), end - n, end, T.EncName(Value()))
    {
      ghost var v, was := Value(), dAtA[..];
      hide T.EncNameFrom, OptField, Splice;
      T.NameSuffixes(v);
      var i := PutNameFrom4(dAtA, end, v, was);
      i := PutName(dAtA, i, end, 3, Organisation, v, was);
      i := PutName(dAtA, i, end, 2, OrganisationUnit, v, was);
      i := PutName(dAtA, i, end, 1, CommonName, v, was);
      return end - i;
    }

    /** The last three fields. */
    method PutNameFrom4(dAtA: array<byte>, end: nat, ghost v: T.X500Name, ghost was: seq<byte>) returns (i: nat)
      requires v == Value() && was == dAtA[..] && |T.EncName(v)| <= end <= dAtA.Length && end < TWO_63
      modifies dAtA
      ensures Written(was, dAtA[..], i, end, T.EncNameFrom(v, 4))
    {
      hide T.EncNameFrom, OptField, Splice;
      NothingWritten(was, end);
      T.NameSuffixes(v);
      i := PutName(dAtA, end, end, 6, Country, v, was);
      i := PutName(dAtA, i, end, 5, State, v, was);
      i := PutName(dAtA, i, end, 4, Locality, v, was);
    }

    /** One turn of the loop. */
    method UnmarshalField(dAtA: seq<byte>, iNdEx: nat) returns (err: Option<WireError>, next: nat)
      requires iNdEx < |dAtA| < TWO_63
      modifies this
      ensures err.None? ==> iNdEx < next <= |dAtA|
      ensures DecodeAt(T.NameField, old(Value()), dAtA, iNdEx)
           == if err.Some? then Err(err.value) else DecodeAt(T.NameField, Value(), dAtA, next)
    {
      hide Decode, DecodeAt, ReadTag, SkipUnknown, Payload;
      err, next := None, iNdEx;
      var t := DecodeTag(dAtA, iNdEx);
      if t.Err? {
        LoopNoTag(T.NameField, Value(), dAtA, iNdEx);
        return Some(t.error), iNdEx;
      }
      var tag, at := t.value, iNdEx + t.value.size;
      LoopTurn(T.NameField, Value(), dAtA, iNdEx, tag);
      if 1 <= tag.num <= 6 {
        var p := DecodePayload(dAtA, at, tag);
        if p.Err? {
          return Some(p.error), iNdEx;
        }
        var text := dAtA[p.value.start..p.value.end];
        match tag.num {
          case 1 => CommonName := text;
          case 2 => OrganisationUnit := text;
          case 3 => Organisation := text;
          case 4 => Locality := text;
          case 5 => State := text;
          case _ => Country := text;
        }
        next := p.value.end;
      } else {
        LoopSkips(T.NameField, Value(), dAtA, iNdEx, tag);
        var skippy := SkipUnknownField(dAtA, iNdEx);
        if skippy.Err? {
          return Some(skippy.error), iNdEx;
        }
        next := iNdEx + skippy.value;
      }
    }

    method Unmarshal(dAtA: seq<byte>) returns (err: Option<WireError>)
      requires |dAtA| < TWO_63
      modifies this
      ensures Outcome(err, Decoder.Unmarshal(T.NameField, old(Value()), dAtA), Value())
    {
      hide DecodeAt, Decoder.Unmarshal;
      var l, iNdEx := |dAtA|, 0;
      LoopBegins(T.NameField, Value(), dAtA);
      while iNdEx < l
        invariant 0 <= iNdEx <= l
        invariant DecodeAt(T.NameField, Value(), dAtA, iNdEx) == Decoder.Unmarshal(T.NameField, old(Value()), dAtA)
      {
        err, iNdEx := UnmarshalField(dAtA, iNdEx);
        if err.Some? {
          return;
        }
      }
      LoopEnds(T.NameField, Value(), dAtA);
      return None;
    }
  }

  /** The size of a string field, nothing when it is empty. */
  method OptSize(p: seq<byte>, num: nat) returns (n: nat)
    requires 1 <= num <= 15
    ensures n == |OptField(num, p)|
  {
    var l := |p|;
    if l > 0 {
      SovIsSize(l);
      T.LenFieldSize(num, p);
      return 1 + l + Sov(l);
    }
    return 0;
  }

  /** Field number k of a name, in front of the fields after it. */
  method PutName(dAtA: array<byte>, i: nat, ghost end: nat, k: nat, p: seq<byte>, ghost v: T.X500Name,
                 ghost was: seq<byte>)
    returns (j: nat)
    requires 1 <= k <= 6 && p == T.NameAt(v, k)
    requires Written(was, dAtA[..], i, end, T.EncNameFrom(v, k + 1))
    requires |T.EncNameFrom(v, k)| <= end < TWO_63 && i <= dAtA.Length
    modifies dAtA
    ensures Written(was, dAtA[..], j, end, T.EncNameFrom(v, k))
  {
    hide T.NameAt, OptField;
    ghost var mid := dAtA[..];
    j := PutOptBytes(dAtA, i, k, p);
    WrittenMore(was, mid, dAtA[..], j, i, end, OptField(k, p), T.EncNameFrom(v, k + 1));
  }

  /** The header of a message field whose payload p has just been written in front of end. */
  method PutMessageHeader(dAtA: array<byte>, end: nat, size: nat, num: nat, ghost was: seq<byte>, ghost p: seq<byte>)
    returns (j: nat)
    requires 1 <= num <= 15 && size == |p| && LenSize(size) <= end <= dAtA.Length && end < TWO_63
    requires end <= |was| && dAtA[..] == Splice(was, end - size, end, p)
    modifies dAtA
    ensures j + |LenField(num, p)| == end && dAtA[..] == Splice(was, j, end, LenField(num, p))
  {
    hide EncVarint;
    j := PutHeader(dAtA, end - size, size, num);
    T.LenFieldSize(num, p);
    SpliceTwice(was, j, end - size, end, [8 * num + 2] + EncVarint(size), p);
  }

  class Party {
    var Name: CordaX500Name?
    var OwningKey: BytesMessage?

    constructor ()
      ensures Value() == T.EMPTY_PARTY && Name == null && OwningKey == null
    {
      Name, OwningKey := null, null;
    }

    function Value(): T.Party
      reads this, Name, OwningKey
    {
      T.Party(if Name == null then None else Some(Name.Value()),
              if OwningKey == null then None else Some(OwningKey.Value()))
    }

    method Size() returns (n: nat)
      ensures n == |T.EncParty(Value())|
    {
      hide T.EncName, T.EncBlob, LenField;
      n := 0;
      if Name != null {
        var l := Name.Size();
        SovIsSize(l);
        T.LenFieldSize(1, T.EncName(Name.Value()));
        n := n + 1 + l + Sov(l);
      }
      if OwningKey != null {
        var l := OwningKey.Size();
        SovIsSize(l);
        T.LenFieldSize(2, T.EncBlob(OwningKey.Value()));
        n := n + 1 + l + Sov(l);
      }
    }

    method MarshalToSizedBuffer(dAtA: array<byte>, end: nat) returns (n: nat)
      requires |T.EncParty(Value())| <= end <= dAtA.Length && end < TWO_63
      modifies dAtA
      ensures n == |T.EncParty(Value())|
      ensures dAtA[..] == Splice(old(dAtA[..]), end - n, end, T.EncParty(Value()))
    {
      hide T.EncName, T.EncBlob, LenField;
      ghost var was, v := dAtA[..], Value();
      var i := end;
      if OwningKey != null {
        ghost var p := T.EncBlob(OwningKey.Value());
        T.LenFieldSize(2, p);
        var size := OwningKey.MarshalToSizedBuffer(dAtA, i);
        i := PutMessageHeader(dAtA, i, size, 2, was, p);
      }
      assert Written(was, dAtA[..], i, end, T.EncPartyKey(v.owningKey));
      ghost var at, mid := i, dAtA[..];
      if Name != null {
        ghost var p := T.EncName(Name.Value());
        T.LenFieldSize(1, p);
        var size := Name.MarshalToSizedBuffer(dAtA, i);
        i := PutMessageHeader(dAtA, i, size, 1, mid, p);
      }
      WrittenMore(was, mid, dAtA[..], i, at, end, T.EncPartyName(v.name), T.EncPartyKey(v.owningKey));
      return end - i;
    }

    /** The case of the switch for Name: the message is merged into the one that is there. */
    method UnmarshalName(dAtA: seq<byte>, at: nat, tag: Tag) returns (err: Option<WireError>, next: nat)
      requires at <= |dAtA| < TWO_63
      modifies this`Name, Name
      ensures Name == old(Name) || fresh(Name)
      ensures var d := T.SubMessage(T.NameField, T.OrElse(old(Value()).name, T.EMPTY_NAME), FieldAt(dAtA, at, tag));
              if err.Some? then d == Fail(err.value)
              else d.Done? && next == at + d.size <= |dAtA| && Value() == old(Value()).(name := Some(d.message))
    {
      hide Decoder.Unmarshal, Payload;
      var p := DecodePayload(dAtA, at, tag);
      if p.Err? {
        return Some(p.error), at;
      }
      if Name == null {
        Name := new CordaX500Name();
      }
      err := Name.Unmarshal(dAtA[p.value.start..p.value.end]);
      next := p.value.end;
    }

    /** The case of the switch for OwningKey: the message is merged into the one that is there. */
    method UnmarshalOwningKey(dAtA: seq<byte>, at: nat, tag: Tag) returns (err: Option<WireError>, next: nat)
      requires at <= |dAtA| < TWO_63
      modifies this`OwningKey, OwningKey
      ensures OwningKey == old(OwningKey) || fresh(OwningKey)
      ensures var d := T.SubMessage(T.BlobField, T.OrElse(old(Value()).owningKey, []), FieldAt(dAtA, at, tag));
              if err.Some? then d == Fail(err.value)
              else d.Done? && next == at + d.size <= |dAtA| && Value() == old(Value()).(owningKey := Some(d.message))
    {
      hide Decoder.Unmarshal, Payload;
      var p := DecodePayload(dAtA, at, tag);
      if p.Err? {
        return Some(p.error), at;
      }
      if OwningKey == null {
        OwningKey := new BytesMessage();
      }
      err := OwningKey.Unmarshal(dAtA[p.value.start..p.value.end]);
      next := p.value.end;
    }

    /** One turn of the loop. */
    method UnmarshalField(dAtA: seq<byte>, iNdEx: nat) returns (err: Option<WireError>, next: nat)
      requires iNdEx < |dAtA| < TWO_63
      modifies this, Name, OwningKey
      ensures (Name == old(Name) || fresh(Name)) && (OwningKey == old(OwningKey) || fresh(OwningKey))
      ensures err.None? ==> iNdEx < next <= |dAtA|
      ensures DecodeAt(T.PartyField, old(Value()), dAtA, iNdEx)
           == if err.Some? then Err(err.value) else DecodeAt(T.PartyField, Value(), dAtA, next)
    {
      hide Decode, DecodeAt, ReadTag, SkipUnknown, Payload, T.SubMessage;
      err, next := None, iNdEx;
      var t := DecodeTag(dAtA, iNdEx);
      if t.Err? {
        LoopNoTag(T.PartyField, Value(), dAtA, iNdEx);
        return Some(t.error), iNdEx;
      }
      var tag, at := t.value, iNdEx + t.value.size;
      LoopTurn(T.PartyField, Value(), dAtA, iNdEx, tag);
      match tag.num {
        case 1 =>
          err, next := UnmarshalName(dAtA, at, tag);
        case 2 =>
          err, next := UnmarshalOwningKey(dAtA, at, tag);
        case _ =>
          LoopSkips(T.PartyField, Value(), dAtA, iNdEx, tag);
          var skippy := SkipUnknownField(dAtA, iNdEx);
          if skippy.Err? {
            return Some(skippy.error), iNdEx;
          }
          next := iNdEx + skippy.value;
      }
    }

    method Unmarshal(dAtA: seq<byte>) returns (err: Option<WireError>)
      requires |dAtA| < TWO_63
      modifies this, Name, OwningKey
      ensures (Name == old(Name) || fresh(Name)) && (OwningKey == old(OwningKey) || fresh(OwningKey))
      ensures Outcome(err, Decoder.Unmarshal(T.PartyField, old(Value()), dAtA), Value())
    {
      hide DecodeAt, Decoder.Unmarshal;
      var l, iNdEx := |dAtA|, 0;
      LoopBegins(T.PartyField, Value(), dAtA);
      while iNdEx < l
        invariant 0 <= iNdEx <= l
        invariant (Name == old(Name) || fresh(Name)) && (OwningKey == old(OwningKey) || fresh(OwningKey))
        invariant DecodeAt(T.PartyField, Value(), dAtA, iNdEx) == Decoder.Unmarshal(T.PartyField, old(Value()), dAtA)
      {
        err, iNdEx := UnmarshalField(dAtA, iNdEx);
        if err.Some? {
          return;
        }
      }
      LoopEnds(T.PartyField, Value(), dAtA);
      return None;
    }
  }
}
