/**
 The size of a written bank.  Map iteration order is arbitrary and not the same twice, so the size
 must be a function of the maps, and every order must be written in exactly that many bytes.
 */
module BankSizes {
  import opened Wrappers
  import opened Varint
  import opened Decoder
  import opened CordaTypes
  import opened BankTypes

  /** The room of an entry whose key has k bytes and whose value field takes n. */
  function EntrySize(k: nat, n: nat): nat {
    LenSize(LenSize(k) + n)
  }

  /** The entries of m summed in no particular order. */
  ghost function MapSize<V(!new)>(sz: V -> nat, m: map<Str, V>): nat {
    if m == map[] then 0
    else
      var k: Str :| k in m;
      EntrySize(|k|, sz(m[k])) + MapSize(sz, m - {k})
  }

  /** Any entry may be taken first. */
  lemma {:induction false} MapSizePick<V(!new)>(sz: V -> nat, m: map<Str, V>, k: Str)
    requires k in m
    ensures MapSize(sz, m) == EntrySize(|k|, sz(m[k])) + MapSize(sz, m - {k})
    decreases |m|
  {
    hide EntrySize;
    var first: Str :| first in m && MapSize(sz, m) == EntrySize(|first|, sz(m[first])) + MapSize(sz, m - {first});
    if first != k {
      MapSizePick(sz, m - {first}, k);
      MapSizePick(sz, m - {k}, first);
      assert m - {first} - {k} == m - {k} - {first};
    }
  }

  function StringSize(v: Str): nat {
    LenSize(|v|)
  }

  ghost function StringMapSize(m: StringMap): nat {
    MapSize(StringSize, m)
  }

  ghost function BalanceSize(o: Option<StringMap>): nat {
    if o.Some? then LenSize(StringMapSize(o.value)) else 0
  }

  ghost function BalanceMapSize(m: BalanceMap): nat {
    MapSize(BalanceSize, m)
  }

  // ---------------------------------------------------------------- orders

  lemma {:induction false} ToMapKeys<V>(es: seq<Entry<V>>, k: Str)
    ensures k in ToMap(es) <==> exists i :: 0 <= i < |es| && es[i].key == k
  {
    if es != [] {
      ToMapKeys(es[1..], k);
      if k in ToMap(es[1..]) {
        var i :| 0 <= i < |es[1..]| && es[1..][i].key == k;
        assert es[i + 1].key == k;
      }
      if i :| 1 <= i < |es| && es[i].key == k {
        assert es[1..][i - 1].key == k;
      }
    }
  }

  /** Walking a map visits its first key, and then walks the rest of the map. */
  lemma WalkSplit<V>(es: seq<Entry<V>>)
    requires es != [] && Distinct(es)
    ensures es[0].key in ToMap(es) && ToMap(es)[es[0].key] == es[0].value
    ensures Distinct(es[1..]) && ToMap(es) - {es[0].key} == ToMap(es[1..])
  {
    ToMapKeys(es[1..], es[0].key);
    assert es[0].key !in ToMap(es[1..]);
  }

  lemma {:induction false} StringsLength(es: Strings)
    requires Distinct(es)
    ensures |EncStrings(es)| == StringMapSize(ToMap(es))
    decreases |es|
  {
    hide Distinct;
    if es != [] {
      var e := es[0];
      WalkSplit(es);
      hide ToMap, LenField, LenSize, EncEntry;
      StringsLength(es[1..]);
      MapSizePick(StringSize, ToMap(es), e.key);
      EntryLength(e.key, Some(e.value));
    }
  }

  lemma EntryLength(key: Str, x: Option<seq<byte>>)
    ensures |LenField(1, EncEntry(key, x))| == EntrySize(|key|, if x.Some? then LenSize(|x.value|) else 0)
  {
  }

  /** The orders of a balance map: distinct keys at both levels. */
  predicate DistinctBalances(es: Balances) {
    Distinct(es) && forall i :: 0 <= i < |es| && es[i].value.Some? ==> Distinct(es[i].value.value)
  }

  lemma {:induction false} BalancesLength(es: Balances)
    requires DistinctBalances(es)
    ensures |EncBalances(es)| == BalanceMapSize(ToMap(BalancesOf(es)))
    decreases |es|
  {
    if es != [] {
      var e, vs := es[0], BalancesOf(es);
      assert vs[1..] == BalancesOf(es[1..]) && vs[0] == Entry(e.key, BalanceOf(e.value));
      if e.value.Some? {
        StringsLength(e.value.value);
      }
      WalkSplit(vs);
      BalancesLength(es[1..]);
      hide ToMap, LenField, LenSize, EncEntry, EncStrings, BalancesOf, StringMapSize;
      MapSizePick(BalanceSize, ToMap(vs), e.key);
      EntryLength(e.key, EncBalance(e.value));
    }
  }

  predicate DistinctForm(f: BankForm) {
    && (f.allocations.Some? ==> DistinctBalances(f.allocations.value))
    && (f.locked.Some? ==> DistinctBalances(f.locked.value))
    && (f.minted.Some? ==> DistinctBalances(f.minted.value))
    && (f.denoms.Some? ==> Distinct(f.denoms.value))
  }

  function PartiesSize(ps: seq<Party>): nat {
    if ps == [] then 0 else LenSize(|EncParty(ps[0])|) + PartiesSize(ps[1..])
  }

  ghost function PayloadSize(b: Bank, k: nat): Option<nat>
    requires 2 <= k <= 6
  {
    match k
    case 2 => if b.baseId.Some? then Some(|EncStateRef(b.baseId.value)|) else None
    case 3 => if b.allocations.Some? then Some(BalanceMapSize(b.allocations.value)) else None
    case 4 => if b.locked.Some? then Some(BalanceMapSize(b.locked.value)) else None
    case 5 => if b.minted.Some? then Some(BalanceMapSize(b.minted.value)) else None
    case _ => if b.denoms.Some? then Some(StringMapSize(b.denoms.value)) else None
  }

  function SubSize(o: Option<nat>): nat {
    if o.Some? then LenSize(o.value) else 0
  }

  /** The size of the fields of b from number k on, participants excepted. */
  ghost function BankSizeFrom(b: Bank, k: nat): nat
    requires 2 <= k <= 7
    decreases 7 - k
  {
    if k == 7 then 0 else SubSize(PayloadSize(b, k)) + BankSizeFrom(b, k + 1)
  }

  ghost function BankSize(b: Bank): nat {
    PartiesSize(b.participants) + MessagesSize(b)
  }

  ghost function MessagesSize(b: Bank): nat {
    BankSizeFrom(b, 2)
  }

  lemma {:induction false} PartiesLength(ps: seq<Party>)
    ensures |EncParties(ps)| == PartiesSize(ps)
  {
    if ps != [] {
      hide EncParty;
      PartiesLength(ps[1..]);
    }
  }

  lemma PayloadLength(f: BankForm, k: nat)
    requires 2 <= k <= 6 && DistinctForm(f)
    ensures PayloadSize(BankOf(f), k)
         == if PayloadAt(f, k).Some? then Some(|PayloadAt(f, k).value|) else None
  {
    hide EncBalances, EncStrings, EncStateRef, BalancesOf, ToMap, Distinct, DistinctBalances, BalanceMapSize, StringMapSize;
    match k {
      case 2 =>
      case 3 =>
        if f.allocations.Some? {
          BalancesLength(f.allocations.value);
        }
      case 4 =>
        if f.locked.Some? {
          BalancesLength(f.locked.value);
        }
      case 5 =>
        if f.minted.Some? {
          BalancesLength(f.minted.value);
        }
      case _ =>
        if f.denoms.Some? {
          StringsLength(f.denoms.value);
        }
    }
  }

  lemma {:induction false} BankFromLength(f: BankForm, k: nat)
    requires 2 <= k <= 7 && DistinctForm(f)
    ensures |EncBankFrom(f, k)| == BankSizeFrom(BankOf(f), k)
    decreases 7 - k
  {
    hide PayloadAt, PayloadSize, DistinctForm;
    if k < 7 {
      PayloadLength(f, k);
      BankFromLength(f, k + 1);
    }
  }

  /** Every order in which the maps of a bank can be walked is written in BankSize bytes. */
  lemma BankLength(f: BankForm)
    requires DistinctForm(f)
    ensures |EncBank(f)| == BankSize(BankOf(f))
  {
    PartiesLength(f.participants);
    BankFromLength(f, 2);
  }
}
