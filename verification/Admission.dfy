/** When asset actions succeed: on any ledger and for any asset, and what is left of the conditions on a
    sound one, where for non-native assets the other refusals in the code cannot happen. */
module Admission {
  import opened Types
  import opened Sums
  import opened Ledger
  import opened Actions
  import opened Effects
  import opened Conservation

  lemma SoundAsset(s: Store, a: AssetId)
    requires Sound(s) && a != Native
    ensures Holdings(s, a) == Supply(s, a)
    ensures GetAsset(s, a).Some? ==> Shaped(a, GetAsset(s, a).value)
    ensures forall x: Address :: GetBalance(s, x, a) <= Supply(s, a)
    ensures forall c: ChainId, x: Address :: GetBalance(s, x, a) + GetLoan(s, a, c) <= Supply(s, a)
  {
    forall x: Address ensures GetBalance(s, x, a) <= Supply(s, a) {
      BalanceAtMostHoldings(s, x, a);
    }
    forall c: ChainId, x: Address ensures GetBalance(s, x, a) + GetLoan(s, a, c) <= Supply(s, a) {
      HoldingsAtLeast(s, a, BalanceKey(x, a), LoanKey(a, c));
    }
  }

  /** A transfer succeeds exactly when the sender holds what it sends and the recipient has room for it;
      on a sound ledger non-native assets always have room. */
  lemma TransferSucceedsIff(s: Store, ctx: Context, act: Action)
    requires act.Transfer?
    ensures Execute(s, ctx, act).result.Ok? <==>
              && act.value != 0 && |act.memo| <= MAX_MEMO_SIZE
              && act.value <= GetBalance(s, ctx.actor, act.asset)
              && (act.to != ctx.actor ==> GetBalance(s, act.to, act.asset) + act.value <= MAX_UINT64)
    ensures Sound(s) && act.asset != Native && WellFormed(act) ==>
              (Execute(s, ctx, act).result.Ok? <==> act.value <= GetBalance(s, ctx.actor, act.asset))
  {
    var a := act.asset;
    ApplyTwo(s, Debit(ctx.actor, a, act.value), Credit(act.to, a, act.value), Done);
    if Sound(s) && a != Native && act.to != ctx.actor {
      SoundAsset(s, a);
      HoldingsAtLeast(s, a, BalanceKey(ctx.actor, a), BalanceKey(act.to, a));
    }
  }

  /** A record is created exactly within the limits on symbol, decimals and metadata; then it is as asked for, without
      any units, and belongs to the actor. */
  lemma CreateSucceedsIff(s: Store, ctx: Context, act: Action)
    requires act.CreateAsset?
    ensures var o := Execute(s, ctx, act);
            && (o.result.Ok? <==>
                  && 0 < |act.symbol| <= MAX_SYMBOL_SIZE && act.decimals <= MAX_DECIMALS
                  && 0 < |act.metadata| <= MAX_METADATA_SIZE)
            && (o.result.Ok? ==>
                  && GetAsset(o.store, Created(ctx.tx))
                     == Some(Asset(act.symbol, act.decimals, Text(act.metadata), 0, ctx.actor, false))
                  && o.store - {AssetKey(Created(ctx.tx))} == s - {AssetKey(Created(ctx.tx))})
  {
    var plan := Plan(s, ctx, act);
    if plan.Do? {
      assert Apply(s, plan) == ApplyTo(ApplyOp(s, plan.op), Done);
    }
  }

  /** Minting succeeds exactly for the owner of a recorded home asset, while supply and balance fit; on a sound ledger the
      balance always does. */
  lemma MintSucceedsIff(s: Store, ctx: Context, act: Action)
    requires act.MintAsset?
    ensures Execute(s, ctx, act).result.Ok? <==>
              && act.asset != Native && act.value != 0
              && GetAsset(s, act.asset).Some? && !GetAsset(s, act.asset).value.warp
              && GetAsset(s, act.asset).value.owner == ctx.actor
              && Supply(s, act.asset) + act.value <= MAX_UINT64
              && GetBalance(s, act.to, act.asset) + act.value <= MAX_UINT64
    ensures Sound(s) && WellFormed(act) ==>
              (Execute(s, ctx, act).result.Ok? <==>
                 && !act.asset.Imported? && GetAsset(s, act.asset).Some?
                 && GetAsset(s, act.asset).value.owner == ctx.actor
                 && Supply(s, act.asset) + act.value <= MAX_UINT64)
  {
    if Sound(s) && act.asset != Native {
      SoundAsset(s, act.asset);
    }
    var plan := Plan(s, ctx, act);
    if plan.Do? {
      ApplyTwo(s, plan.op, plan.next.op, Done);
    }
  }

  /** Burning succeeds exactly when the burner holds what it burns and the recorded supply covers it;
      on a sound ledger the supply of a non-native asset always does. */
  lemma BurnSucceedsIff(s: Store, ctx: Context, act: Action)
    requires act.BurnAsset?
    ensures Execute(s, ctx, act).result.Ok? <==>
              && act.value != 0 && act.value <= GetBalance(s, ctx.actor, act.asset)
              && GetAsset(s, act.asset).Some? && act.value <= Supply(s, act.asset)
    ensures Sound(s) && act.asset != Native && WellFormed(act) ==>
              (Execute(s, ctx, act).result.Ok? <==> act.value <= GetBalance(s, ctx.actor, act.asset))
  {
    if Sound(s) && act.asset != Native {
      SoundAsset(s, act.asset);
    }
    var plan := Plan(s, ctx, act);
    if plan.Do? && plan.next.Do? {
      ApplyTwo(s, plan.op, plan.next.op, Done);
    } else if plan.Do? {
      assert Apply(s, plan) == ApplyTo(ApplyOp(s, plan.op), plan.next);
    }
  }

  /** Lending succeeds exactly for a recorded home asset of which the lender holds value and reward, while
      the loan fits into 64 bits; on a sound ledger loans of non-native assets always do. */
  lemma ExportLoanSucceedsIff(s: Store, ctx: Context, act: Action)
    requires act.ExportAsset? && !act.isReturn
    ensures Execute(s, ctx, act).result.Ok? <==>
              && act.value != 0 && act.destination != EMPTY_CHAIN
              && GetAsset(s, act.asset).Some? && !GetAsset(s, act.asset).value.warp
              && act.value + act.reward <= GetBalance(s, ctx.actor, act.asset)
              && GetLoan(s, act.asset, act.destination) + act.value + act.reward <= MAX_UINT64
    ensures Sound(s) && act.asset != Native && WellFormed(act) ==>
              (Execute(s, ctx, act).result.Ok? <==>
                 !act.asset.Imported? && act.value + act.reward <= GetBalance(s, ctx.actor, act.asset))
  {
    if Sound(s) && act.asset != Native {
      SoundAsset(s, act.asset);
    }
    var plan, a := Plan(s, ctx, act), act.asset;
    if plan.Do? {
      ApplyTwo(s, plan.op, plan.next.op, plan.next.next);
      if act.reward > 0 && ApplyOp(s, plan.op).Ok? && ApplyOp(ApplyOp(s, plan.op).value, plan.next.op).Ok? {
        var v := ApplyOp(ApplyOp(s, plan.op).value, plan.next.op).value;
        ApplyTwo(v, Lend(a, act.destination, act.reward), Debit(ctx.actor, a, act.reward), Done);
      }
    }
  }

  /** Returning succeeds exactly to the origin on the record, by somebody who holds value and reward, while
      the recorded supply covers them; on a sound ledger exactly to the asset's own origin chain. */
  lemma ExportReturnSucceedsIff(s: Store, ctx: Context, act: Action)
    requires act.ExportAsset? && act.isReturn
    ensures Execute(s, ctx, act).result.Ok? <==>
              && act.value != 0 && act.destination != EMPTY_CHAIN
              && GetAsset(s, act.asset).Some? && GetAsset(s, act.asset).value.warp
              && GetAsset(s, act.asset).value.metadata.Origin?
              && GetAsset(s, act.asset).value.metadata.chain == act.destination
              && act.value + act.reward <= Supply(s, act.asset)
              && act.value + act.reward <= GetBalance(s, ctx.actor, act.asset)
    ensures Sound(s) && WellFormed(act) ==>
              (Execute(s, ctx, act).result.Ok? <==>
                 && act.asset.Imported? && act.destination == act.asset.chain
                 && act.value + act.reward <= GetBalance(s, ctx.actor, act.asset))
  {
    var plan, a := Plan(s, ctx, act), act.asset;
    if Sound(s) {
      assert GetAsset(s, a).Some? ==> Shaped(a, GetAsset(s, a).value);
      if a != Native {
        SoundAsset(s, a);
      }
    }
    if plan.Do? {
      ApplyTwo(s, plan.op, plan.next.op, plan.next.next);
      if act.reward > 0 && ApplyOp(ApplyOp(s, plan.op).value, plan.next.op).Ok? {
        var u := ApplyOp(ApplyOp(s, plan.op).value, plan.next.op).value;
        assert Apply(u, plan.next.next) == ApplyTo(ApplyOp(u, Debit(ctx.actor, a, act.reward)), Done);
      }
    }
  }

  /** The first of the current validators with the actor's key, all before it having readable ones. */
  predicate FirstOwn(actor: Address, current: seq<Listed>, i: nat)
    requires i < |current|
  {
    current[i].key == Ok(actor) && forall j | 0 <= j < i :: current[j].key.Ok? && current[j].key != Ok(actor)
  }

  lemma {:induction false} OwnerFoundIff(actor: Address, current: seq<Listed>)
    ensures OwnerDenied(actor, current).None? <==> exists i :: 0 <= i < |current| && FirstOwn(actor, current, i)
    decreases |current|
  {
    if current != [] {
      var rest := current[1..];
      OwnerFoundIff(actor, rest);
      if current[0].key == Ok(actor) {
        assert FirstOwn(actor, current, 0);
      } else if current[0].key.Ok? {
        if i :| 0 <= i < |rest| && FirstOwn(actor, rest, i) {
          assert forall j | 0 <= j < i + 1 :: j > 0 ==> current[j] == rest[j - 1];
          assert FirstOwn(actor, current, i + 1);
        }
        if i :| 0 <= i < |current| && FirstOwn(actor, current, i) {
          assert forall j | 0 <= j < i - 1 :: rest[j] == current[j + 1];
          assert FirstOwn(actor, rest, i - 1);
        }
      }
    }
  }

  /** The credentials of a registration pass exactly if the actor signed it, is one of the current validators,
      none visited before it has an unreadable key, and the record can be read. */
  lemma CredentialsPassIff(actor: Address, c: Credentials)
    ensures CredentialsDenied(actor, c).None? <==>
              && c.signer == Ok(actor) && c.malformed.None?
              && exists i :: 0 <= i < |c.current| && FirstOwn(actor, c.current, i)
  {
    OwnerFoundIff(actor, c.current);
  }

  /** A current validator of this node has the actor's key. */
  predicate OwnsNode(actor: Address, current: seq<Listed>, node: NodeId) {
    exists i :: 0 <= i < |current| && current[i] == Listed(node, Ok(actor))
  }

  /** No two current validators share a key. */
  predicate KeysDiffer(current: seq<Listed>) {
    forall i, j | 0 <= i < j < |current| :: current[i].key.Ok? ==> current[i].key != current[j].key
  }

  /** The node of the validator that the search ends at. */
  function FoundNode(actor: Address, current: seq<Listed>): Option<NodeId> {
    if current == [] || current[0].key.Err? then None
    else if current[0].key.value == actor then Some(current[0].node)
    else FoundNode(actor, current[1..])
  }

  lemma {:induction false} FoundIsOwn(actor: Address, current: seq<Listed>, node: NodeId)
    requires OwnerDenied(actor, current).None? && KeysDiffer(current)
    ensures OwnsNode(actor, current, node) <==> FoundNode(actor, current) == Some(node)
    decreases |current|
  {
    var rest := current[1..];
    if current[0].key.value == actor {
      if i :| 0 <= i < |current| && current[i] == Listed(node, Ok(actor)) {
        assert i == 0;
      }
      if current[0].node == node {
        assert current[0] == Listed(node, Ok(actor));
      }
    } else {
      FoundIsOwn(actor, rest, node);
      if i :| 0 <= i < |current| && current[i] == Listed(node, Ok(actor)) {
        assert rest[i - 1] == Listed(node, Ok(actor));
      }
      if i :| 0 <= i < |rest| && rest[i] == Listed(node, Ok(actor)) {
        assert current[i + 1] == Listed(node, Ok(actor));
      }
    }
  }

  /** An accepted registration names a node of the actor's own exactly if it names the node of the validator that
      the search ended at: the comparison that the action does not make. */
  lemma RegistersOwnNodeIff(s: Store, ctx: Context, act: Action)
    requires act.RegisterValidatorStake? && Execute(s, ctx, act).result.Ok? && KeysDiffer(act.credentials.current)
    ensures OwnsNode(ctx.actor, act.credentials.current, act.node)
            <==> FoundNode(ctx.actor, act.credentials.current) == Some(act.node)
  {
    FoundIsOwn(ctx.actor, act.credentials.current, act.node);
  }

  /** An accepted registration would be accepted for any other node that has no stake yet. */
  lemma AnyFreeNodeIsAccepted(s: Store, ctx: Context, act: Action, node: NodeId)
    requires act.RegisterValidatorStake? && Execute(s, ctx, act).result.Ok? && GetValidator(s, node).None?
    ensures var other := RegisterValidatorStake(node, act.start, act.end, act.staked, act.feeRate, act.rewardAddress, act.credentials);
            Execute(s, ctx, other).result.Ok?
  {
    var debit := Debit(ctx.actor, Native, act.staked);
    var stake := ValidatorStake(act.start, act.end, act.staked, act.feeRate, act.rewardAddress, ctx.actor);
    ApplyTwo(s, debit, PutValidator(act.node, stake), Done);
    ApplyTwo(s, debit, PutValidator(node, stake), Done);
  }

  /** The validator of node 1 registers node 2, whose listed key is somebody else's. */
  lemma AnothersNodeIsRegistered()
    ensures var s: Store := map[BalanceKey(5, Native) := Amount(MIN_VALIDATOR_STAKE)];
            var current := [Listed(1, Ok(5)), Listed(2, Ok(7))];
            var ctx := Context(9, 0, 5, 0, false, 3, Ok(0));
            var act := RegisterValidatorStake(2, 4, 104, MIN_VALIDATOR_STAKE, 10, 5, Credentials(Ok(5), current, None));
            var o := Execute(s, ctx, act);
            && WellFormed(act) && o.result.Ok?
            && GetValidator(o.store, 2).Some? && GetValidator(o.store, 2).value.owner == 5
            && !OwnsNode(5, current, 2) && OwnsNode(7, current, 2)
  {
    var s: Store := map[BalanceKey(5, Native) := Amount(MIN_VALIDATOR_STAKE)];
    var current := [Listed(1, Ok(5)), Listed(2, Ok(7))];
    var stake := ValidatorStake(4, 104, MIN_VALIDATOR_STAKE, 10, 5, 5);
    ApplyTwo(s, Debit(5, Native, MIN_VALIDATOR_STAKE), PutValidator(2, stake), Done);
    assert current[1] == Listed(2, Ok(7));
  }
}
