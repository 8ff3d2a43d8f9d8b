/** The mutable state that actions run on, and the storage operations that update it in place. */
module Storage {
  import opened Types
  import L = Ledger

  class Mutable {
    var kv: L.Store

    constructor (s: L.Store)
      ensures kv == s
    {
      kv := s;
    }

    method Insert(k: L.Key, v: L.Value)
      modifies this
      ensures kv == old(kv)[k := v]
    {
      kv := kv[k := v];
    }

    method Remove(k: L.Key)
      modifies this
      ensures kv == old(kv) - {k}
    {
      kv := kv - {k};
    }
  }

  /** An operation either did what `want` says or reported its error and changed nothing. */
  ghost predicate Carried(want: Result<L.Store, L.Error>, before: L.Store, after: L.Store, err: Option<L.Error>) {
    match want
    case Ok(t) => err.None? && after == t
    case Err(e) => err == Some(e) && after == before
  }

  method AddBalance(mu: Mutable, addr: Address, asset: AssetId, amount: uint64, create: bool) returns (err: Option<L.Error>)
    modifies mu
    ensures Carried(L.AddBalance(old(mu.kv), addr, asset, amount, create), old(mu.kv), mu.kv, err)
  {
    var key := L.BalanceKey(addr, asset);
    var bal := L.GetBalance(mu.kv, addr, asset);
    if key !in mu.kv && !create {
      return None;
    }
    if bal + amount > MAX_UINT64 {
      return Some(L.CannotAddBalance(addr, asset, bal, amount));
    }
    mu.Insert(key, L.Amount(bal + amount));
    return None;
  }

  method SubBalance(mu: Mutable, addr: Address, asset: AssetId, amount: uint64) returns (err: Option<L.Error>)
    modifies mu
    ensures Carried(L.SubBalance(old(mu.kv), addr, asset, amount), old(mu.kv), mu.kv, err)
  {
    var key := L.BalanceKey(addr, asset);
    var bal := L.GetBalance(mu.kv, addr, asset);
    if amount > bal {
      return Some(L.CannotSubBalance(addr, asset, bal, amount));
    }
    if bal - amount == 0 {
      mu.Remove(key);
    } else {
      mu.Insert(key, L.Amount(bal - amount));
    }
    return None;
  }

  method AddLoan(mu: Mutable, asset: AssetId, chain: ChainId, amount: uint64) returns (err: Option<L.Error>)
    modifies mu
    ensures Carried(L.AddLoan(old(mu.kv), asset, chain, amount), old(mu.kv), mu.kv, err)
  {
    var loan := L.GetLoan(mu.kv, asset, chain);
    if loan + amount > MAX_UINT64 {
      return Some(L.CannotAddLoan(asset, chain, amount));
    }
    mu.Insert(L.LoanKey(asset, chain), L.Amount(loan + amount));
    return None;
  }

  method SubLoan(mu: Mutable, asset: AssetId, chain: ChainId, amount: uint64) returns (err: Option<L.Error>)
    modifies mu
    ensures Carried(L.SubLoan(old(mu.kv), asset, chain, amount), old(mu.kv), mu.kv, err)
  {
    var loan := L.GetLoan(mu.kv, asset, chain);
    if amount > loan {
      return Some(L.CannotSubLoan(asset, chain, amount));
    }
    if loan - amount == 0 {
      mu.Remove(L.LoanKey(asset, chain));
    } else {
      mu.Insert(L.LoanKey(asset, chain), L.Amount(loan - amount));
    }
    return None;
  }

  method SetAsset(mu: Mutable, asset: AssetId, symbol: Bytes, decimals: uint8, metadata: L.Metadata,
                  supply: uint64, owner: Address, warp: bool)
    modifies mu
    ensures L.ApplyOp(old(mu.kv), L.PutAsset(asset, L.Asset(symbol, decimals, metadata, supply, owner, warp))) == Ok(mu.kv)
  {
    mu.Insert(L.AssetKey(asset), L.AssetRecord(L.Asset(symbol, decimals, metadata, supply, owner, warp)));
  }

  method DeleteAsset(mu: Mutable, asset: AssetId)
    modifies mu
    ensures L.ApplyOp(old(mu.kv), L.DropAsset(asset)) == Ok(mu.kv)
  {
    mu.Remove(L.AssetKey(asset));
  }
}
