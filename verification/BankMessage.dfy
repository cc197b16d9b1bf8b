/** `Bank` as an object: its size, its marshalling and its decoding. */
module BankMessage {
  import opened Wrappers
  import opened Varint
  import opened Decoder
  import opened Encoder
  import opened CordaMessages
  import opened BankMessages
  import T = CordaTypes
  import B = BankTypes
  import S = BankSizes

  function RefOf(m: StateRef?): Option<T.StateRef>
    reads m, if m == null then {} else {m.Txhash}
  {
    if m == null then None else Some(m.Value())
  }

  function BalancesOf(m: BalanceMapMessage?): Option<B.BalanceMap>
    reads m, if m == null then {} else m.DenomToMap.Values
  {
    if m == null then None else Some(m.Value())
  }

  ghost function PartiesOf(ps: seq<Party>): (vs: seq<T.Party>)
    reads ps, set p | p in ps :: p.Name, set p | p in ps :: p.OwningKey
    ensures |vs| == |ps|
  {
    seq(|ps|, i requires 0 <= i < |ps|
              reads ps, set p | p in ps :: p.Name, set p | p in ps :: p.OwningKey => ps[i].Value())
  }

  /** The value field of number k that a balance map takes in a bank. */
  method PutBalances(dAtA: array<byte>, i: nat, num: nat, m: BalanceMapMessage?)
    returns (j: nat, ghost o: Option<B.Balances>)
    requires 1 <= num <= 15 && i <= dAtA.Length && i < TWO_63
    requires S.SubSize(BalancesSize(BalancesOf(m))) <= i
    modifies dAtA
    ensures Written(old(dAtA[..]), dAtA[..], j, i, T.SubField(num, EncodedBalances(o)))
    ensures B.BalanceMapOf(o) == BalancesOf(m) && (o.Some? ==> S.DistinctBalances(o.value))
    ensures j == i - S.SubSize(BalancesSize(BalancesOf(m)))
  {
    hide LenField, B.EncBalances, S.BalanceMapSize, B.ToMap, B.BalancesOf, S.DistinctBalances;
    ghost var was := dAtA[..];
    j, o := i, None;
    if m != null {
      var size;
      ghost var es;
      size, es := m.MarshalToSizedBuffer(dAtA, i);
      o := Some(es);
      T.LenFieldSize(num, B.EncBalances(es));
      j := PutMessageHeader(dAtA, i, size, num, was, B.EncBalances(es));
      SplicedIsWritten(was, dAtA[..], j, i, LenField(num, B.EncBalances(es)));
    } else {
      Untouched(was, i);
    }
  }

  ghost function BalancesSize(o: Option<B.BalanceMap>): Option<nat> {
    if o.Some? then Some(S.BalanceMapSize(o.value)) else None
  }

  ghost function StringsSize(o: Option<B.StringMap>): Option<nat> {
    if o.Some? then Some(S.StringMapSize(o.value)) else None
  }

  function RefSize(o: Option<T.StateRef>): Option<nat> {
    if o.Some? then Some(|T.EncStateRef(o.value)|) else None
  }

  function EncodedBalances(o: Option<B.Balances>): Option<seq<byte>> {
    if o.Some? then Some(B.EncBalances(o.value)) else None
  }

  method PutDenoms(dAtA: array<byte>, i: nat, m: StringMapMessage?) returns (j: nat, ghost o: Option<B.Strings>)
    requires i <= dAtA.Length && i < TWO_63
    requires S.SubSize(StringsSize(BalanceMapMessage.ValueOf(m))) <= i
    modifies dAtA
    ensures Written(old(dAtA[..]), dAtA[..], j, i, T.SubField(6, B.EncBalance(o)))
    ensures B.BalanceOf(o) == BalanceMapMessage.ValueOf(m) && (o.Some? ==> B.Distinct(o.value))
    ensures j == i - S.SubSize(StringsSize(BalanceMapMessage.ValueOf(m)))
  {
    hide LenField, B.EncStrings, S.StringMapSize, B.ToMap, B.Distinct;
    ghost var was := dAtA[..];
    j, o := i, None;
    if m != null {
      var size;
      ghost var es;
      size, es := m.MarshalToSizedBuffer(dAtA, i);
      o := Some(es);
      T.LenFieldSize(6, B.EncStrings(es));
      j := PutMessageHeader(dAtA, i, size, 6, was, B.EncStrings(es));
      SplicedIsWritten(was, dAtA[..], j, i, LenField(6, B.EncStrings(es)));
    } else {
      Untouched(was, i);
    }
  }

  method PutBaseId(dAtA: array<byte>, i: nat, m: StateRef?) returns (j: nat)
    requires i <= dAtA.Length && i < TWO_63
    requires S.SubSize(RefSize(RefOf(m))) <= i
    modifies dAtA
    ensures Written(old(dAtA[..]), dAtA[..], j, i, T.SubField(2, EncodedRef(RefOf(m))))
    ensures j == i - S.SubSize(RefSize(RefOf(m)))
  {
    hide LenField, T.EncStateRef;
    ghost var was := dAtA[..];
    j := i;
    if m != null {
      var size := m.MarshalToSizedBuffer(dAtA, i);
      T.LenFieldSize(2, T.EncStateRef(m.Value()));
      j := PutMessageHeader(dAtA, i, size, 2, was, T.EncStateRef(m.Value()));
      SplicedIsWritten(was, dAtA[..], j, i, LenField(2, T.EncStateRef(m.Value())));
    } else {
      Untouched(was, i);
    }
  }

  function EncodedRef(o: Option<T.StateRef>): Option<seq<byte>> {
    if o.Some? then Some(T.EncStateRef(o.value)) else None
  }

  method PutParty(dAtA: array<byte>, i: nat, m: Party) returns (j: nat)
    requires i <= dAtA.Length && i < TWO_63 && LenSize(|T.EncParty(m.Value())|) <= i
    modifies dAtA
    ensures j == i - LenSize(|T.EncParty(m.Value())|)
    ensures dAtA[..] == Splice(old(dAtA[..]), j, i, LenField(1, T.EncParty(m.Value())))
  {
    hide T.EncParty;
    ghost var was := dAtA[..];
    var size := m.MarshalToSizedBuffer(dAtA, i);
    j := PutMessageHeader(dAtA, i, size, 1, was, T.EncParty(m.Value()));
    T.LenFieldSize(1, T.EncParty(m.Value()));
  }

  lemma {:induction false} PartiesFit(ps: seq<T.Party>, k: nat)
    requires k <= |ps|
    ensures S.PartiesSize(ps[k..]) <= S.PartiesSize(ps)
    ensures k < |ps| ==> S.PartiesSize(ps[k..]) == LenSize(|T.EncParty(ps[k])|) + S.PartiesSize(ps[k + 1..])
  {
    if k < |ps| {
      assert ps[k..][1..] == ps[k + 1..] && ps[k..][0] == ps[k];
    }
    if k == 0 {
      assert ps[0..] == ps;
    } else {
      PartiesFit(ps, k - 1);
    }
  }

  lemma PartiesPrepend(ps: seq<T.Party>, k: nat, rest: seq<byte>)
    requires k < |ps|
    ensures B.EncParties(ps[k..]) + rest == LenField(1, T.EncParty(ps[k])) + (B.EncParties(ps[k + 1..]) + rest)
  {
    assert ps[k..][1..] == ps[k + 1..];
  }

  /** The loop over the participants, last one first, in front of a tail that is written already. */
  method PutParties(dAtA: array<byte>, at: nat, ps: seq<Party>, ghost end: nat, ghost tail: seq<byte>, ghost was: seq<byte>)
    returns (i: nat)
    requires S.PartiesSize(PartiesOf(ps)) <= at <= dAtA.Length && at < TWO_63
    requires Written(was, dAtA[..], at, end, tail)
    modifies dAtA
    ensures i == at - S.PartiesSize(old(PartiesOf(ps)))
    ensures Written(was, dAtA[..], i, end, B.EncParties(old(PartiesOf(ps))) + tail)
  {
    hide T.EncParty, LenSize, LenField, Splice, S.PartiesSize, B.EncParties;
    ghost var vs := PartiesOf(ps);
    var iNdEx := |ps|;
    i := at;
    NoParties(vs, tail);
    while iNdEx > 0
      invariant 0 <= iNdEx <= |ps| && PartiesOf(ps) == vs
      invariant Written(was, dAtA[..], i, end, B.EncParties(vs[iNdEx..]) + tail)
      invariant i == at - S.PartiesSize(vs[iNdEx..])
    {
      iNdEx := iNdEx - 1;
      PartiesFit(vs, iNdEx);
      PartiesPrepend(vs, iNdEx, tail);
      ghost var e, mid := i, dAtA[..];
      i := PutParty(dAtA, i, ps[iNdEx]);
      T.LenFieldSize(1, T.EncParty(vs[iNdEx]));
      WrittenMore(was, mid, dAtA[..], i, e, end, LenField(1, T.EncParty(vs[iNdEx])), B.EncParties(vs[iNdEx + 1..]) + tail);
    }
    assert vs[0..] == vs;
  }

  /** A message field that is there is decoded into, one that is not is made first. */
  method MergeBalances(was: BalanceMapMessage?, dAtA: seq<byte>, at: nat, tag: Tag)
    returns (err: Option<WireError>, next: nat, m: BalanceMapMessage?)
    requires at <= |dAtA| < TWO_63
    modifies was
    ensures m == was || fresh(m)
    ensures m != null ==> forall o :: o in m.DenomToMap.Values ==> o == null || fresh(o) || (was != null && o in old(was.DenomToMap.Values))
    ensures var d := T.SubMessage(B.BalanceMapField, T.OrElse(old(BalancesOf(was)), map[]), FieldAt(dAtA, at, tag));
            if err.Some? then d == Fail(err.value)
            else d.Done? && next == at + d.size <= |dAtA| && BalancesOf(m) == Some(d.message)
  {
    hide Decoder.Unmarshal, Payload;
    m := was;
    var p := DecodePayload(dAtA, at, tag);
    if p.Err? {
      return Some(p.error), at, m;
    }
    if m == null {
      m := new BalanceMapMessage();
    }
    err := m.Unmarshal(dAtA[p.value.start..p.value.end]);
    next := p.value.end;
  }

  /** A message field that is there is decoded into, one that is not is made first. */
  method MergeStrings(was: StringMapMessage?, dAtA: seq<byte>, at: nat, tag: Tag)
    returns (err: Option<WireError>, next: nat, m: StringMapMessage?)
    requires at <= |dAtA| < TWO_63
    modifies was
    ensures m == was || fresh(m)
    ensures var d := T.SubMessage(B.StringMapField, T.OrElse(old(BalanceMapMessage.ValueOf(was)), map[]), FieldAt(dAtA, at, tag));
            if err.Some? then d == Fail(err.value)
            else d.Done? && next == at + d.size <= |dAtA| && BalanceMapMessage.ValueOf(m) == Some(d.message)
  {
    hide Decoder.Unmarshal, Payload;
    m := was;
    var p := DecodePayload(dAtA, at, tag);
    if p.Err? {
      return Some(p.error), at, m;
    }
    if m == null {
      m := new StringMapMessage();
    }
    err := m.Unmarshal(dAtA[p.value.start..p.value.end]);
    next := p.value.end;
  }

  /** A message field that is there is decoded into, one that is not is made first. */
  method MergeRef(was: StateRef?, dAtA: seq<byte>, at: nat, tag: Tag)
    returns (err: Option<WireError>, next: nat, m: StateRef?)
    requires at <= |dAtA| < TWO_63
    modifies was, if was == null then {} else {was.Txhash}
    ensures m == was || fresh(m)
    ensures (m != null && m.Txhash != null && !fresh(m.Txhash)) ==> m == was && m.Txhash == old(m.Txhash)
    ensures var d := T.SubMessage(T.StateRefField, T.OrElse(old(RefOf(was)), T.EMPTY_REF), FieldAt(dAtA, at, tag));
            if err.Some? then d == Fail(err.value)
            else d.Done? && next == at + d.size <= |dAtA| && RefOf(m) == Some(d.message)
  {
    hide Decoder.Unmarshal, Payload;
    m := was;
    var p := DecodePayload(dAtA, at, tag);
    if p.Err? {
      return Some(p.error), at, m;
    }
    if m == null {
      m := new StateRef();
    }
    err := m.Unmarshal(dAtA[p.value.start..p.value.end]);
    next := p.value.end;
  }

  method DecodeParty(party: Party, dAtA: seq<byte>, ghost at: nat, ghost tag: Tag, p: Span) returns (err: Option<WireError>)
    requires at <= |dAtA| < TWO_63 && party.Value() == T.EMPTY_PARTY
    requires Moved(at, Payload(FieldAt(dAtA, at, tag))) == Ok(p) && p.start <= p.end <= |dAtA|
    requires at <= p.start && dAtA[p.start..p.end] == dAtA[at..][p.start - at..p.end - at]
    requires party.Name == null && party.OwningKey == null
    modifies party
    ensures (party.Name == null || fresh(party.Name)) && (party.OwningKey == null || fresh(party.OwningKey))
    ensures var d := T.SubMessage(T.PartyField, T.EMPTY_PARTY, FieldAt(dAtA, at, tag));
            if err.Some? then d == Fail(err.value) else d == Done(party.Value(), p.end - at)
  {
    hide Decoder.Unmarshal, Payload;
    err := party.Unmarshal(dAtA[p.start..p.end]);
  }

  lemma BadPayload<M>(h: Handler<M>, m: M, i: Input)
    requires Payload(i).Err?
    ensures T.SubMessage(h, m, i) == Fail(Payload(i).error)
  {
  }

  lemma PartyAt(ps: seq<Party>, i: nat)
    requires i < |ps|
    ensures PartiesOf(ps)[i] == ps[i].Value()
  {
  }

  lemma PartiesAppend(ps: seq<Party>, p: Party)
    ensures PartiesOf(ps + [p]) == PartiesOf(ps) + [p.Value()]
  {
    hide Party.Value;
  }

  lemma BankSizeStep(b: B.Bank, k: nat)
    requires 2 <= k <= 6
    ensures S.BankSizeFrom(b, k) == S.SubSize(S.PayloadSize(b, k)) + S.BankSizeFrom(b, k + 1)
  {
  }

  lemma BankEncStep(f: B.BankForm, k: nat)
    requires 2 <= k <= 6
    ensures B.EncBankFrom(f, k) == T.SubField(k, B.PayloadAt(f, k)) + B.EncBankFrom(f, k + 1)
  {
  }

  class Bank {
    var Participants: seq<Party>
    var BaseId: StateRef?
    var Allocated: BalanceMapMessage?
    var Locked: BalanceMapMessage?
    var Minted: BalanceMapMessage?
    var Denoms: StringMapMessage?

    constructor ()
      ensures Value() == B.EMPTY_BANK && Valid()
      ensures Participants == [] && BaseId == null && Allocated == null && Locked == null && Minted == null && Denoms == null
    {
      Participants := [];
      BaseId, Allocated, Locked, Minted, Denoms := null, null, null, null, null;
    }

    ghost function Value(): B.Bank
      reads this, Participants, set p | p in Participants :: p.Name, set p | p in Participants :: p.OwningKey
      reads BaseId, if BaseId == null then {} else {BaseId.Txhash}, Denoms
      reads Allocated, if Allocated == null then {} else Allocated.DenomToMap.Values
      reads Locked, if Locked == null then {} else Locked.DenomToMap.Values
      reads Minted, if Minted == null then {} else Minted.DenomToMap.Values
    {
      B.Bank(PartiesOf(Participants), RefOf(BaseId), BalancesOf(Allocated), BalancesOf(Locked), BalancesOf(Minted),
             BalanceMapMessage.ValueOf(Denoms))
    }

    /** Which object holds which map. */
    lemma Fields()
      ensures Value().allocations == BalancesOf(Allocated) && Value().locked == BalancesOf(Locked)
      ensures Value().minted == BalancesOf(Minted) && |Value().participants| == |Participants|
    {
    }

    /**
     The fields do not share objects that decoding updates.  Where the two objects have different
     types in the code, which are one class here, its types already rule the sharing out.
     */
    ghost predicate Valid()
      reads this, BaseId, Participants, Allocated, Locked, Minted
    {
      && (Allocated != null ==> Allocated != Locked && Allocated != Minted)
      && (Locked != null ==> Locked != Minted)
      && (Denoms != null ==> NotIn(Denoms, Allocated) && NotIn(Denoms, Locked) && NotIn(Denoms, Minted))
      && (BaseId != null && BaseId.Txhash != null ==> forall p :: p in Participants ==> p.OwningKey != BaseId.Txhash)
    }

    static ghost predicate NotIn(o: StringMapMessage, m: BalanceMapMessage?)
      reads m
    {
      m != null ==> o !in m.DenomToMap.Values
    }

    /** Fields 5 and 6, last one first. */
    method MarshalMinted(dAtA: array<byte>, end: nat, ghost v: B.Bank)
      returns (i: nat, ghost minted: Option<B.Balances>, ghost denoms: Option<B.Strings>)
      requires v == Value() && S.SubSize(BalancesSize(v.minted)) + S.SubSize(StringsSize(v.denoms)) <= end
      requires end <= dAtA.Length && end < TWO_63
      modifies dAtA
      ensures B.BalanceMapOf(minted) == v.minted && (minted.Some? ==> S.DistinctBalances(minted.value))
      ensures B.BalanceOf(denoms) == v.denoms && (denoms.Some? ==> B.Distinct(denoms.value))
      ensures i == end - S.SubSize(BalancesSize(v.minted)) - S.SubSize(StringsSize(v.denoms))
      ensures Written(old(dAtA[..]), dAtA[..], i, end,
                      T.SubField(5, EncodedBalances(minted)) + T.SubField(6, B.EncBalance(denoms)))
    {
      hide T.SubField, S.SubSize, S.DistinctBalances, B.Distinct, B.BalanceMapOf, B.BalanceOf, EncodedBalances, Written;
      hide BalancesSize, StringsSize, B.EncBalance;
      ghost var was := dAtA[..];
      i, denoms := PutDenoms(dAtA, end, Denoms);
      ghost var at, mid := i, dAtA[..];
      i, minted := PutBalances(dAtA, i, 5, Minted);
      Chain(was, mid, dAtA[..], i, at, end, T.SubField(5, EncodedBalances(minted)), T.SubField(6, B.EncBalance(denoms)));
    }

    /** Fields 3 and 4, last one first. */
    method MarshalAllocated(dAtA: array<byte>, end: nat, ghost v: B.Bank)
      returns (i: nat, ghost allocations: Option<B.Balances>, ghost locked: Option<B.Balances>)
      requires v == Value() && S.SubSize(BalancesSize(v.allocations)) + S.SubSize(BalancesSize(v.locked)) <= end
      requires end <= dAtA.Length && end < TWO_63
      modifies dAtA
      ensures B.BalanceMapOf(allocations) == v.allocations
      ensures allocations.Some? ==> S.DistinctBalances(allocations.value)
      ensures B.BalanceMapOf(locked) == v.locked && (locked.Some? ==> S.DistinctBalances(locked.value))
      ensures i == end - S.SubSize(BalancesSize(v.allocations)) - S.SubSize(BalancesSize(v.locked))
      ensures Written(old(dAtA[..]), dAtA[..], i, end,
                      T.SubField(3, EncodedBalances(allocations)) + T.SubField(4, EncodedBalances(locked)))
    {
      hide T.SubField, S.SubSize, S.DistinctBalances, B.BalanceMapOf, EncodedBalances, Written, BalancesSize;
      ghost var was := dAtA[..];
      i, locked := PutBalances(dAtA, end, 4, Locked);
      ghost var at, mid := i, dAtA[..];
      i, allocations := PutBalances(dAtA, i, 3, Allocated);
      Chain(was, mid, dAtA[..], i, at, end, T.SubField(3, EncodedBalances(allocations)), T.SubField(4, EncodedBalances(locked)));
    }

    /** The fields of numbers 2 to 6, last one first. */
    method MarshalMessages(dAtA: array<byte>, end: nat) returns (i: nat, ghost f: B.BankForm)
      requires S.MessagesSize(Value()) <= end <= dAtA.Length && end < TWO_63
      modifies dAtA
      ensures S.DistinctForm(f) && B.BankOf(f) == old(Value())
      ensures Written(old(dAtA[..]), dAtA[..], i, end, B.EncMessages(f))
      ensures i == end - S.MessagesSize(old(Value()))
    {
      hide S.MessagesSize, B.EncMessages, T.SubField, S.SubSize, S.DistinctBalances, B.Distinct, B.BalanceMapOf;
      hide B.BalanceOf, EncodedBalances, Written, BalancesSize, StringsSize, RefSize, EncodedRef, B.EncBalance;
      hide RefOf, BalancesOf, PartiesOf, BalanceMapMessage.ValueOf;
      ghost var v, was := Value(), dAtA[..];
      MessageSizes(v);
      ghost var minted, denoms, allocations, locked;
      i, minted, denoms := MarshalMinted(dAtA, end, v);
      ghost var i5, now5 := i, dAtA[..];
      i, allocations, locked := MarshalAllocated(dAtA, i, v);
      ghost var i3, now3 := i, dAtA[..];
      i := PutBaseId(dAtA, i, BaseId);
      f := B.BankForm(v.participants, v.baseId, allocations, locked, minted, denoms);
      ghost var b2 := T.SubField(2, EncodedRef(v.baseId));
      ghost var b3 := T.SubField(3, EncodedBalances(allocations)) + T.SubField(4, EncodedBalances(locked));
      ghost var b5 := T.SubField(5, EncodedBalances(minted)) + T.SubField(6, B.EncBalance(denoms));
      Chain(was, now5, now3, i3, i5, end, b3, b5);
      Chain(was, now3, dAtA[..], i, i3, end, b2, b3 + b5);
      FormBytes(f);
    }

    method Size() returns (n: nat)
      ensures n == S.BankSize(Value())
    {
      hide S.SubSize, S.MessagesSize, RefSize, BalancesSize, StringsSize, RefOf, BalancesOf, PartiesOf;
      hide S.PartiesSize, BalanceMapMessage.ValueOf, S.BankSize;
      MessageSizes(Value());
      SizeParts(Value());
      n := ParticipantsSize();
      var baseId := RefFieldSize(BaseId);
      var balances := BalanceMapsSize();
      var denoms := DenomsFieldSize(Denoms);
      n := n + baseId + balances + denoms;
    }

    /** Fields 3 to 5. */
    method BalanceMapsSize() returns (n: nat)
      ensures n == S.SubSize(BalancesSize(BalancesOf(Allocated))) + S.SubSize(BalancesSize(BalancesOf(Locked))) +
                   S.SubSize(BalancesSize(BalancesOf(Minted)))
    {
      hide S.SubSize, BalancesSize, BalancesOf;
      var allocations := BalancesFieldSize(Allocated);
      var locked := BalancesFieldSize(Locked);
      var minted := BalancesFieldSize(Minted);
      n := allocations + locked + minted;
    }

    method ParticipantsSize() returns (n: nat)
      ensures n == S.PartiesSize(PartiesOf(Participants))
    {
      hide PartiesOf, T.EncParty, LenSize, S.PartiesSize, Party.Value;
      n := 0;
      ghost var vs := PartiesOf(Participants);
      assert vs[0..] == vs;
      for iNdEx := 0 to |Participants|
        invariant n + S.PartiesSize(vs[iNdEx..]) == S.PartiesSize(vs) && PartiesOf(Participants) == vs
      {
        PartiesFit(vs, iNdEx);
        var l := Participants[iNdEx].Size();
        PartyAt(Participants, iNdEx);
        LenSizeIs(l);
        n := n + 1 + l + Sov(l);
      }
      NoParties(vs, []);
    }

    method MarshalToSizedBuffer(dAtA: array<byte>, end: nat) returns (n: nat, ghost f: B.BankForm)
      requires S.BankSize(Value()) <= end <= dAtA.Length && end < TWO_63
      modifies dAtA
      ensures S.DistinctForm(f) && B.BankOf(f) == old(Value())
      ensures n == |B.EncBank(f)| == S.BankSize(old(Value())) && n <= end
      ensures dAtA[..] == Splice(old(dAtA[..]), end - n, end, B.EncBank(f))
    {
      hide S.PartiesSize, S.DistinctForm, S.MessagesSize, B.EncMessages, B.EncParties, Splice, RefOf, BalancesOf, PartiesOf;
      var i;
      ghost var was, v := dAtA[..], Value();
      i, f := MarshalMessages(dAtA, end);
      S.BankLength(f);
      i := PutParties(dAtA, i, Participants, end, B.EncMessages(f), was);
      return end - i, f;
    }

    /** The buffer is as large as the size predicts, and the written bank fills it. */
    method Marshal() returns (dAtA: array<byte>, ghost f: B.BankForm)
      requires S.BankSize(Value()) < TWO_63
      ensures fresh(dAtA) && dAtA[..] == B.EncBank(f)
      ensures S.DistinctForm(f) && B.BankOf(f) == old(Value())
    {
      hide S.BankSize, S.DistinctForm, B.EncBank, RefOf, BalancesOf, PartiesOf, B.BankOf;
      ghost var v := Value();
      var size := Size();
      dAtA := new byte[size];
      assert Value() == v;
      var n;
      n, f := MarshalToSizedBuffer(dAtA, size);
    }

    /** Decoding puts new objects where there were none and keeps those that there were. */
    twostate predicate Keeps()
      reads this, BaseId
    {
      && (BaseId == old(BaseId) || fresh(BaseId))
      && (BaseId != null ==>
            BaseId.Txhash == null || fresh(BaseId.Txhash) ||
            (BaseId == old(BaseId) && BaseId.Txhash == old(BaseId.Txhash)))
      && (Allocated == old(Allocated) || fresh(Allocated))
      && (Locked == old(Locked) || fresh(Locked))
      && (Minted == old(Minted) || fresh(Minted))
      && (Denoms == old(Denoms) || fresh(Denoms))
    }

    /** Case 1 of the switch: a new participant is appended and decoded. */
    method UnmarshalParticipant(dAtA: seq<byte>, at: nat, tag: Tag) returns (err: Option<WireError>, next: nat)
      requires at <= |dAtA| < TWO_63 && Valid()
      modifies this`Participants
      ensures Valid() && Keeps()
      ensures var d := T.SubMessage(T.PartyField, T.EMPTY_PARTY, FieldAt(dAtA, at, tag));
              if err.Some? then d == Fail(err.value)
              else d.Done? && next == at + d.size <= |dAtA| &&
                   Value() == old(Value()).(participants := old(Value()).participants + [d.message])
    {
      hide T.SubMessage, Value, Valid, Payload, FieldAt;
      var p := DecodePayload(dAtA, at, tag);
      if p.Err? {
        BadPayload(T.PartyField, T.EMPTY_PARTY, FieldAt(dAtA, at, tag));
        return Some(p.error), at;
      }
      err := AppendParticipant(dAtA, at, tag, p.value);
      next := p.value.end;
    }

    method AppendParticipant(dAtA: seq<byte>, ghost at: nat, ghost tag: Tag, p: Span) returns (err: Option<WireError>)
      requires at <= p.start <= p.end <= |dAtA| < TWO_63 && Valid()
      requires Moved(at, Payload(FieldAt(dAtA, at, tag))) == Ok(p) && dAtA[p.start..p.end] == dAtA[at..][p.start - at..p.end - at]
      modifies this`Participants
      ensures Valid() && Keeps()
      ensures var d := T.SubMessage(T.PartyField, T.EMPTY_PARTY, FieldAt(dAtA, at, tag));
              if err.Some? then d == Fail(err.value)
              else d.Done? && d.size == p.end - at &&
                   Value() == old(Value()).(participants := old(Value()).participants + [d.message])
    {
      hide T.SubMessage, RefOf, BalancesOf, PartiesOf, BalanceMapMessage.ValueOf, Party.Value, Payload, NotIn, FieldAt;
      var party := new Party();
      ghost var were := Participants;
      err := DecodeParty(party, dAtA, at, tag, p);
      Participants := Participants + [party];
      PartiesAppend(were, party);
    }

    /** Case 2 of the switch: the message is merged into the one that is there. */
    method UnmarshalBaseId(dAtA: seq<byte>, at: nat, tag: Tag) returns (err: Option<WireError>, next: nat)
      requires at <= |dAtA| < TWO_63 && Valid()
      modifies this`BaseId, BaseId, if BaseId == null then {} else {BaseId.Txhash}
      ensures Valid() && Keeps()
      ensures var d := T.SubMessage(T.StateRefField, T.OrElse(old(Value()).baseId, T.EMPTY_REF), FieldAt(dAtA, at, tag));
              if err.Some? then d == Fail(err.value)
              else d.Done? && next == at + d.size <= |dAtA| && Value() == old(Value()).(baseId := Some(d.message))
    {
      hide T.SubMessage, T.OrElse, RefOf, BalancesOf, PartiesOf, BalanceMapMessage.ValueOf, NotIn, FieldAt;
      ghost var v := Value();
      var m;
      err, next, m := MergeRef(BaseId, dAtA, at, tag);
      assert Value() == v.(baseId := RefOf(BaseId));
      BaseId := m;
      assert Value() == v.(baseId := RefOf(m));
    }

    /** Case 3 of the switch: the message is merged into the one that is there. */
    method UnmarshalAllocated(dAtA: seq<byte>, at: nat, tag: Tag) returns (err: Option<WireError>, next: nat)
      requires at <= |dAtA| < TWO_63 && Valid()
      modifies this`Allocated, Allocated
      ensures Valid() && Keeps()
      ensures var d := T.SubMessage(B.BalanceMapField, T.OrElse(old(Value()).allocations, map[]), FieldAt(dAtA, at, tag));
              if err.Some? then d == Fail(err.value)
              else d.Done? && next == at + d.size <= |dAtA| && Value() == old(Value()).(allocations := Some(d.message))
    {
      hide T.SubMessage, T.OrElse, RefOf, BalancesOf, PartiesOf, BalanceMapMessage.ValueOf;
      var m;
      err, next, m := MergeBalances(Allocated, dAtA, at, tag);
      Allocated := m;
    }

    /** Case 4 of the switch: the message is merged into the one that is there. */
    method UnmarshalLocked(dAtA: seq<byte>, at: nat, tag: Tag) returns (err: Option<WireError>, next: nat)
      requires at <= |dAtA| < TWO_63 && Valid()
      modifies this`Locked, Locked
      ensures Valid() && Keeps()
      ensures var d := T.SubMessage(B.BalanceMapField, T.OrElse(old(Value()).locked, map[]), FieldAt(dAtA, at, tag));
              if err.Some? then d == Fail(err.value)
              else d.Done? && next == at + d.size <= |dAtA| && Value() == old(Value()).(locked := Some(d.message))
    {
      hide T.SubMessage, T.OrElse, RefOf, BalancesOf, PartiesOf, BalanceMapMessage.ValueOf;
      var m;
      err, next, m := MergeBalances(Locked, dAtA, at, tag);
      Locked := m;
    }

    /** Case 5 of the switch: the message is merged into the one that is there. */
    method UnmarshalMinted(dAtA: seq<byte>, at: nat, tag: Tag) returns (err: Option<WireError>, next: nat)
      requires at <= |dAtA| < TWO_63 && Valid()
      modifies this`Minted, Minted
      ensures Valid() && Keeps()
      ensures var d := T.SubMessage(B.BalanceMapField, T.OrElse(old(Value()).minted, map[]), FieldAt(dAtA, at, tag));
              if err.Some? then d == Fail(err.value)
              else d.Done? && next == at + d.size <= |dAtA| && Value() == old(Value()).(minted := Some(d.message))
    {
      hide T.SubMessage, T.OrElse, RefOf, BalancesOf, PartiesOf, BalanceMapMessage.ValueOf;
      var m;
      err, next, m := MergeBalances(Minted, dAtA, at, tag);
      Minted := m;
    }

    /** Case 6 of the switch: the message is merged into the one that is there. */
    method UnmarshalDenoms(dAtA: seq<byte>, at: nat, tag: Tag) returns (err: Option<WireError>, next: nat)
      requires at <= |dAtA| < TWO_63 && Valid()
      modifies this`Denoms, Denoms
      ensures Valid() && Keeps()
      ensures var d := T.SubMessage(B.StringMapField, T.OrElse(old(Value()).denoms, map[]), FieldAt(dAtA, at, tag));
              if err.Some? then d == Fail(err.value)
              else d.Done? && next == at + d.size <= |dAtA| && Value() == old(Value()).(denoms := Some(d.message))
    {
      hide T.SubMessage, T.OrElse, RefOf, BalancesOf, PartiesOf, BalanceMapMessage.ValueOf;
      var m;
      err, next, m := MergeStrings(Denoms, dAtA, at, tag);
      Denoms := m;
    }

    /** The switch, for a field that it knows. */
    method UnmarshalKnown(dAtA: seq<byte>, at: nat, tag: Tag) returns (err: Option<WireError>, next: nat)
      requires at <= |dAtA| < TWO_63 && Valid() && 1 <= tag.num <= 6
      modifies this, BaseId, if BaseId == null then {} else {BaseId.Txhash}, Allocated, Locked, Minted, Denoms
      ensures Valid() && Keeps()
      ensures var d := B.BankField(old(Value()), FieldAt(dAtA, at, tag));
              if err.Some? then d == Fail(err.value)
              else d.Done? && next == at + d.size <= |dAtA| && Value() == d.message
    {
      hide T.SubMessage, Valid, Value, RefOf, BalancesOf, PartiesOf;
      match tag.num {
        case 1 => err, next := UnmarshalParticipant(dAtA, at, tag);
        case 2 => err, next := UnmarshalBaseId(dAtA, at, tag);
        case 3 => err, next := UnmarshalAllocated(dAtA, at, tag);
        case 4 => err, next := UnmarshalLocked(dAtA, at, tag);
        case 5 => err, next := UnmarshalMinted(dAtA, at, tag);
        case _ => err, next := UnmarshalDenoms(dAtA, at, tag);
      }
    }

    /** One turn of the loop. */
    method UnmarshalField(dAtA: seq<byte>, iNdEx: nat) returns (err: Option<WireError>, next: nat)
      requires iNdEx < |dAtA| < TWO_63 && Valid()
      modifies this, BaseId, if BaseId == null then {} else {BaseId.Txhash}, Allocated, Locked, Minted, Denoms
      ensures Valid() && Keeps()
      ensures err.None? ==> iNdEx < next <= |dAtA|
      ensures DecodeAt(B.BankField, old(Value()), dAtA, iNdEx)
           == if err.Some? then Err(err.value) else DecodeAt(B.BankField, Value(), dAtA, next)
    {
      hide Decode, DecodeAt, ReadTag, SkipUnknown, T.SubMessage, Valid, Value;
      var t := DecodeTag(dAtA, iNdEx);
      if t.Err? {
        LoopNoTag(B.BankField, Value(), dAtA, iNdEx);
        return Some(t.error), iNdEx;
      }
      var tag, at := t.value, iNdEx + t.value.size;
      LoopTurn(B.BankField, Value(), dAtA, iNdEx, tag);
      if 1 <= tag.num <= 6 {
        hide B.BankField;
        err, next := UnmarshalKnown(dAtA, at, tag);
      } else {
        LoopSkips(B.BankField, Value(), dAtA, iNdEx, tag);
        var skippy := SkipUnknownField(dAtA, iNdEx);
        if skippy.Err? {
          return Some(skippy.error), iNdEx;
        }
        return None, iNdEx + skippy.value;
      }
    }

    method Unmarshal(dAtA: seq<byte>) returns (err: Option<WireError>)
      requires |dAtA| < TWO_63 && Valid()
      modifies this, BaseId, if BaseId == null then {} else {BaseId.Txhash}, Allocated, Locked, Minted, Denoms
      ensures Valid() && Keeps()
      ensures Outcome(err, Decoder.Unmarshal(B.BankField, old(Value()), dAtA), Value())
    {
      hide DecodeAt, Decoder.Unmarshal, Valid, Value;
      var l, iNdEx := |dAtA|, 0;
      LoopBegins(B.BankField, Value(), dAtA);
      while iNdEx < l
        invariant 0 <= iNdEx <= l && Valid() && Keeps()
        invariant DecodeAt(B.BankField, Value(), dAtA, iNdEx) == Decoder.Unmarshal(B.BankField, old(Value()), dAtA)
      {
        err, iNdEx := UnmarshalField(dAtA, iNdEx);
        if err.Some? {
          return;
        }
      }
      LoopEnds(B.BankField, Value(), dAtA);
      return None;
    }
  }

  /** A bank that is marshalled and unmarshalled into a new one comes back whole. */
  method RoundTrip(bank: Bank) returns (copy: Bank, err: Option<WireError>)
    requires S.BankSize(bank.Value()) < TWO_63
    ensures err == None && fresh(copy) && copy.Value() == bank.Value()
  {
    hide Decoder.Unmarshal, B.EncBank, S.BankSize, B.BankOf, S.DistinctForm, RefOf, BalancesOf, PartiesOf;
    var dAtA;
    ghost var f;
    ghost var v := bank.Value();
    dAtA, f := bank.Marshal();
    MarshalledIsRead(f);
    assert bank.Value() == v;
    copy := new Bank();
    err := copy.Unmarshal(dAtA[..]);
    assert bank.Value() == v;
  }

  lemma MarshalledIsRead(f: B.BankForm)
    requires S.DistinctForm(f) && S.BankSize(B.BankOf(f)) < TWO_63
    ensures |B.EncBank(f)| < TWO_63
    ensures Decoder.Unmarshal(B.BankField, B.EMPTY_BANK, B.EncBank(f)) == Ok(B.BankOf(f))
  {
    S.BankLength(f);
    B.BankRoundTrip(f);
  }

  lemma NoParties(vs: seq<T.Party>, tail: seq<byte>)
    ensures B.EncParties(vs[|vs|..]) + tail == tail && S.PartiesSize(vs[|vs|..]) == 0
  {
  }

  lemma LenSizeIs(l: nat)
    ensures LenSize(l) == 1 + l + Sov(l)
  {
    SovIsSize(l);
  }

  method RefFieldSize(m: StateRef?) returns (n: nat)
    ensures n == S.SubSize(RefSize(RefOf(m)))
  {
    hide T.EncStateRef;
    n := 0;
    if m != null {
      var l := m.Size();
      LenSizeIs(l);
      n := 1 + l + Sov(l);
    }
  }

  method BalancesFieldSize(m: BalanceMapMessage?) returns (n: nat)
    ensures n == S.SubSize(BalancesSize(BalancesOf(m)))
  {
    hide S.BalanceMapSize;
    n := 0;
    if m != null {
      var l := m.Size();
      LenSizeIs(l);
      n := 1 + l + Sov(l);
    }
  }

  method DenomsFieldSize(m: StringMapMessage?) returns (n: nat)
    ensures n == S.SubSize(StringsSize(BalanceMapMessage.ValueOf(m)))
  {
    hide S.StringMapSize;
    n := 0;
    if m != null {
      var l := m.Size();
      LenSizeIs(l);
      n := 1 + l + Sov(l);
    }
  }

  lemma SizeParts(v: B.Bank)
    ensures S.BankSize(v) == S.PartiesSize(v.participants) + S.MessagesSize(v)
  {
  }

  lemma MessageSizes(v: B.Bank)
    ensures S.MessagesSize(v)
         == S.SubSize(RefSize(v.baseId)) + S.SubSize(BalancesSize(v.allocations)) + S.SubSize(BalancesSize(v.locked)) +
            S.SubSize(BalancesSize(v.minted)) + S.SubSize(StringsSize(v.denoms))
  {
    hide S.BankSizeFrom, S.SubSize;
    BankSizeStep(v, 2);
    BankSizeStep(v, 3);
    BankSizeStep(v, 4);
    BankSizeStep(v, 5);
    BankSizeStep(v, 6);
    NoMoreSize(v);
  }

  lemma Chain(was: seq<byte>, mid: seq<byte>, now: seq<byte>, j: nat, i: nat, end: nat, front: seq<byte>, back: seq<byte>)
    requires Written(was, mid, i, end, back) && Written(mid, now, j, i, front)
    ensures Written(was, now, j, end, front + back)
  {
    WrittenMore(was, mid, now, j, i, end, front, back);
  }

  lemma FormBytes(f: B.BankForm)
    ensures B.EncMessages(f)
         == T.SubField(2, EncodedRef(f.baseId)) +
            ((T.SubField(3, EncodedBalances(f.allocations)) + T.SubField(4, EncodedBalances(f.locked))) +
             (T.SubField(5, EncodedBalances(f.minted)) + T.SubField(6, B.EncBalance(f.denoms))))
  {
    BankEncStep(f, 2);
    BankEncStep(f, 3);
    BankEncStep(f, 4);
    BankEncStep(f, 5);
    BankEncStep(f, 6);
    NoMoreFields(f);
    hide T.SubField, B.EncBalances, B.EncStrings, T.EncStateRef, B.EncBankFrom;
    Assoc(T.SubField(3, EncodedBalances(f.allocations)), T.SubField(4, EncodedBalances(f.locked)),
          T.SubField(5, EncodedBalances(f.minted)), T.SubField(6, B.EncBalance(f.denoms)));
  }

  lemma Assoc<X>(a: seq<X>, b: seq<X>, c: seq<X>, d: seq<X>)
    ensures a + (b + (c + (d + []))) == (a + b) + (c + d)
  {
  }

  lemma NoMoreFields(f: B.BankForm)
    ensures B.EncBankFrom(f, 7) == []
  {
  }

  lemma NoMoreSize(b: B.Bank)
    ensures S.BankSizeFrom(b, 7) == 0
  {
  }
}
