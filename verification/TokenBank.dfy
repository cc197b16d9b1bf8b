/** The ICS-20 bank: what every owner holds of every denomination, free, locked or minted. */
module TokenBank {
  import opened Wrappers
  import opened DenomPath

  type Address = string

  type Balances = map<Denom, map<Address, int>>

  datatype Bank = Bank(allocations: Balances, locked: Balances, minted: Balances)

  // ---------------------------------------------------------------- sums over maps

  /** All values of m, in no particular order. */
  ghost function Sum<K(!new)>(m: map<K, int>): int {
    if m == map[] then 0
    else
      var k: K :| k in m;
      m[k] + Sum(m - {k})
  }

  /** Any key may be taken first. */
  lemma {:induction false} SumPick<K(!new)>(m: map<K, int>, k: K)
    requires k in m
    ensures Sum(m) == m[k] + Sum(m - {k})
    decreases |m|
  {
    var first: K :| first in m && Sum(m) == m[first] + Sum(m - {first});
    if first != k {
      SumPick(m - {first}, k);
      SumPick(m - {k}, first);
      assert m - {first} - {k} == m - {k} - {first};
    }
  }

  lemma SumPut<K(!new)>(m: map<K, int>, k: K, v: int)
    ensures Sum(m[k := v]) == Sum(m) + v - if k in m then m[k] else 0
  {
    SumPick(m[k := v], k);
    assert m[k := v] - {k} == m - {k};
    if k in m {
      SumPick(m, k);
    } else {
      assert m - {k} == m;
    }
  }

  lemma {:induction false} SumNonNegative<K(!new)>(m: map<K, int>)
    requires forall k :: k in m ==> m[k] >= 0
    ensures Sum(m) >= 0
    decreases |m|
  {
    if m != map[] {
      var k: K :| k in m && Sum(m) == m[k] + Sum(m - {k});
      SumNonNegative(m - {k});
    }
  }

  // ---------------------------------------------------------------- balances

  function Balance(m: Balances, d: Denom, owner: Address): int {
    if d in m && owner in m[d] then m[d][owner] else 0
  }

  function Up(m: Balances, d: Denom, owner: Address, amount: int): Balances {
    m[d := (if d in m then m[d] else map[])[owner := Balance(m, d, owner) + amount]]
  }

  /** Fails for an unknown denomination, for an owner without fund and for too small a fund. */
  function Down(m: Balances, d: Denom, owner: Address, amount: int): Option<Balances> {
    if d !in m || owner !in m[d] || m[d][owner] < amount then None
    else Some(m[d := m[d][owner := m[d][owner] - amount]])
  }

  ghost function Total(m: Balances, d: Denom): int {
    if d in m then Sum(m[d]) else 0
  }

  lemma TotalUp(m: Balances, d: Denom, owner: Address, amount: int)
    ensures Total(Up(m, d, owner, amount), d) == Total(m, d) + amount
    ensures forall e :: e != d ==> Total(Up(m, d, owner, amount), e) == Total(m, e)
  {
    var held := if d in m then m[d] else map[];
    SumPut(held, owner, Balance(m, d, owner) + amount);
    assert Sum(held) == Total(m, d);
  }

  lemma TotalDown(m: Balances, d: Denom, owner: Address, amount: int)
    requires Down(m, d, owner, amount).Some?
    ensures Total(Down(m, d, owner, amount).value, d) == Total(m, d) - amount
    ensures forall e :: e != d ==> Total(Down(m, d, owner, amount).value, e) == Total(m, e)
  {
    SumPut(m[d], owner, m[d][owner] - amount);
  }

  // ---------------------------------------------------------------- operations

  function Allocate(b: Bank, owner: Address, d: Denom, amount: int): Bank {
    b.(allocations := Up(b.allocations, d, owner, amount))
  }

  function Lock(b: Bank, owner: Address, d: Denom, amount: int): Option<Bank> {
    match Down(b.allocations, d, owner, amount)
    case None => None
    case Some(m) => Some(b.(allocations := m, locked := Up(b.locked, d, owner, amount)))
  }

  function Unlock(b: Bank, owner: Address, d: Denom, amount: int): Option<Bank> {
    match Down(b.locked, d, owner, amount)
    case None => None
    case Some(m) => Some(b.(allocations := Up(b.allocations, d, owner, amount), locked := m))
  }

  function Mint(b: Bank, owner: Address, d: Denom, amount: int): Bank {
    b.(minted := Up(b.minted, d, owner, amount))
  }

  function Burn(b: Bank, owner: Address, d: Denom, amount: int): Option<Bank> {
    match Down(b.minted, d, owner, amount)
    case None => None
    case Some(m) => Some(b.(minted := m))
  }

  /** Locking moves a fund within the bank. */
  lemma LockMoves(b: Bank, owner: Address, d: Denom, amount: int)
    requires Lock(b, owner, d, amount).Some?
    ensures var c := Lock(b, owner, d, amount).value;
            && Total(c.allocations, d) == Total(b.allocations, d) - amount && Total(c.locked, d) == Total(b.locked, d) + amount
            && (forall e :: e != d ==> Total(c.allocations, e) == Total(b.allocations, e) && Total(c.locked, e) == Total(b.locked, e))
            && c.minted == b.minted
  {
    TotalDown(b.allocations, d, owner, amount);
    TotalUp(b.locked, d, owner, amount);
  }

  lemma UnlockMoves(b: Bank, owner: Address, d: Denom, amount: int)
    requires Unlock(b, owner, d, amount).Some?
    ensures var c := Unlock(b, owner, d, amount).value;
            && Total(c.allocations, d) == Total(b.allocations, d) + amount && Total(c.locked, d) == Total(b.locked, d) - amount
            && (forall e :: e != d ==> Total(c.allocations, e) == Total(b.allocations, e) && Total(c.locked, e) == Total(b.locked, e))
            && c.minted == b.minted
  {
    TotalDown(b.locked, d, owner, amount);
    TotalUp(b.allocations, d, owner, amount);
  }

  /** What was just locked can be unlocked, and the balances are what they were. */
  lemma UnlockUndoesLock(b: Bank, owner: Address, d: Denom, amount: int)
    requires Lock(b, owner, d, amount).Some? && Balance(b.locked, d, owner) >= 0
    ensures var c := Lock(b, owner, d, amount).value;
            && Unlock(c, owner, d, amount).Some?
            && forall e, o :: Balance(Unlock(c, owner, d, amount).value.allocations, e, o) == Balance(b.allocations, e, o)
                           && Balance(Unlock(c, owner, d, amount).value.locked, e, o) == Balance(b.locked, e, o)
  {
  }

  ghost predicate NonNegative(m: Balances) {
    forall d, o :: d in m && o in m[d] ==> m[d][o] >= 0
  }

  lemma TotalNonNegative(m: Balances, d: Denom)
    requires NonNegative(m)
    ensures Total(m, d) >= 0
  {
    if d in m {
      SumNonNegative(m[d]);
    }
  }

  ghost predicate Solvent(b: Bank) {
    NonNegative(b.allocations) && NonNegative(b.locked) && NonNegative(b.minted)
  }

  /**
   The amount of an operation may have either sign.  One that goes through leaves all balances
   non-negative if and only if the credit does; the debit was checked, and a burn is only a debit.
   */
  lemma SolventIff(b: Bank, owner: Address, d: Denom, amount: int)
    requires Solvent(b)
    ensures Solvent(Allocate(b, owner, d, amount)) <==> Balance(b.allocations, d, owner) + amount >= 0
    ensures Solvent(Mint(b, owner, d, amount)) <==> Balance(b.minted, d, owner) + amount >= 0
    ensures var c := Lock(b, owner, d, amount);
            c.Some? ==> (Solvent(c.value) <==> Balance(b.locked, d, owner) + amount >= 0)
    ensures var c := Unlock(b, owner, d, amount);
            c.Some? ==> (Solvent(c.value) <==> Balance(b.allocations, d, owner) + amount >= 0)
    ensures var c := Burn(b, owner, d, amount); c.Some? ==> Solvent(c.value)
  {
    hide Balance;
    UpIff(b.allocations, d, owner, amount);
    UpIff(b.minted, d, owner, amount);
    UpIff(b.locked, d, owner, amount);
  }

  lemma UpIff(m: Balances, d: Denom, owner: Address, amount: int)
    requires NonNegative(m)
    ensures NonNegative(Up(m, d, owner, amount)) <==> Balance(m, d, owner) + amount >= 0
  {
    var n := Up(m, d, owner, amount);
    assert d in n && owner in n[d] && n[d][owner] == Balance(m, d, owner) + amount;
  }

  /** Someone who holds nothing can lock a negative amount, and holds something then. */
  lemma NegativeLock(owner: Address, d: Denom)
    ensures var b := Bank(map[d := map[owner := 0]], map[], map[]);
            && Solvent(b) && Lock(b, owner, d, -5).Some?
            && (var c := Lock(b, owner, d, -5).value;
                Balance(c.allocations, d, owner) == 5 && Balance(c.locked, d, owner) == -5 && !Solvent(c))
  {
    SolventIff(Bank(map[d := map[owner := 0]], map[], map[]), owner, d, -5);
  }

  /** So with amounts that are not negative no balance ever is. */
  lemma StaysSolvent(b: Bank, owner: Address, d: Denom, amount: int)
    requires Solvent(b) && amount >= 0
    ensures Solvent(Allocate(b, owner, d, amount)) && Solvent(Mint(b, owner, d, amount))
    ensures Lock(b, owner, d, amount).Some? ==> Solvent(Lock(b, owner, d, amount).value)
    ensures Unlock(b, owner, d, amount).Some? ==> Solvent(Unlock(b, owner, d, amount).value)
    ensures Burn(b, owner, d, amount).Some? ==> Solvent(Burn(b, owner, d, amount).value)
  {
  }
}
