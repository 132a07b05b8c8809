/** What the other modules share: options, addresses, the 256-bit bound and a little arithmetic. */
module Common {
  datatype Option<+T> = None | Some(value: T)

  /** The three contracts have no receive function and make no calls but the ones modelled;
      every other address is a wallet, which may hold code. Zero is address(0). */
  datatype Address = Zero | EscrowContract | RegistryContract | AuctionContract | Wallet(id: nat)

  predicate IsContract(a: Address) {
    a.EscrowContract? || a.RegistryContract? || a.AuctionContract?
  }

  /** A bytes32 key: session ids and job ids are opaque. */
  type Id = nat

  const MAX_UINT256: nat := 0xFFFF_FFFF_FFFF_FFFF_FFFF_FFFF_FFFF_FFFF_FFFF_FFFF_FFFF_FFFF_FFFF_FFFF_FFFF_FFFF

  /** What a contract sees of its caller: msg.sender, msg.value and block.timestamp. */
  datatype Msg = Msg(sender: Address, value: nat, now: nat)

  /** ETH for somebody. */
  datatype Payout = Payout(to: Address, amount: nat)

  function Payment(to: Address, amount: nat): seq<Payout> {
    if amount == 0 then [] else [Payout(to, amount)]
  }

  function Min(a: nat, b: nat): nat {
    if a < b then a else b
  }

  function Pow2(k: nat): (p: nat)
    ensures p >= 1
  {
    if k == 0 then 1 else 2 * Pow2(k - 1)
  }
}

/** Sums over mappings: the contracts' obligations are sums over their storage. */
module MapSum {
  function Lookup<K>(m: map<K, nat>, k: K): nat {
    if k in m then m[k] else 0
  }

  ghost function Sum<K>(m: map<K, nat>): nat {
    if m == map[] then 0 else
      var k :| k in m;
      m[k] + Sum(m - {k})
  }

  /** Any key may be taken out first. */
  lemma {:induction false} SumRemove<K>(m: map<K, nat>, k: K)
    requires k in m
    ensures Sum(m) == m[k] + Sum(m - {k})
    decreases |m|
  {
    var first :| first in m && Sum(m) == m[first] + Sum(m - {first});
    if first != k {
      SumRemove(m - {first}, k);
      SumRemove(m - {k}, first);
      assert m - {first} - {k} == m - {k} - {first};
    }
  }

  /** Writing one entry changes the sum by exactly that entry's difference. */
  lemma SumUpdate<K>(m: map<K, nat>, k: K, v: nat)
    ensures Sum(m[k := v]) == Sum(m) - Lookup(m, k) + v
  {
    SumRemove(m[k := v], k);
    assert m[k := v] - {k} == m - {k};
    if k in m {
      SumRemove(m, k);
    } else {
      assert m - {k} == m;
    }
  }

  lemma SumBounds<K>(m: map<K, nat>, k: K)
    ensures Lookup(m, k) <= Sum(m)
  {
    if k in m {
      SumRemove(m, k);
    }
  }
}
