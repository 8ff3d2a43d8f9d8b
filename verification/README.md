# NuklaiVM: verified model

A Dafny model of the parts of NuklaiVM that hold and move value: the asset ledger, the lend-and-return
protocol between chains, staking and the emission balancer, the byte formats of records and messages, and
batch verification of signatures. `dafny verify dfyconfig.toml` checks all of it.

## What is modelled

**Ledger.** A chain's state is a map from keys (balance, asset, loan, validator stake, delegation) to values
(`Ledger`). Each of the twelve actions first makes its checks and then performs storage operations in a fixed
order, any of which may refuse; `Actions` states both as data, and `Execution` holds the actions as they are
written in the source, step by step on a mutable state, each proved to do what `Actions` says. A transaction
does everything or nothing. `Effects` derives in closed form what every action adds to every balance, loan,
record and supply; `Conservation`, `Admission`, `Authority`, `Parallel` and `Treasury` build on that. `Staking`
says exactly when each staking action succeeds and everything it then changes, and `Guards` that the balancer is
told of nothing else.

**Cross-chain protocol.** `Network` is a system of any number of chains that run this program, a bag of
verified messages in flight, and other chains that may sign whatever they like. Its runs interleave
transactions, deliveries, forged messages and fees in any order. `Delivery` says when imports go through,
`CrossChain` states the guarantees over all runs from genesis, `EndToEnd` follows one export to the balances on the
other side.

**Emission balancer.** `Emission` is the balancer as a state machine on values, `BalancerObject` the object
with fields, event queues and loops, each method proved equal to a step of the machine. `Delegations`,
`Rewards` and `Balancer` prove the schedule of delegators, the bounds on rounded shares, independence of the
iteration order, and conservation of rewards over all runs. `Payouts`, `Entitlement` and `Solvency` say what
delegators are paid, when that is what they earned, and when it is covered, `OwnRewards` what validators keep and are
paid, `Terms` the stake and fee rate they have; `StakeTotals` says what the recorded
total stake adds up to, over runs in which all guards of the actions and their decoders hold; `Examples` holds
concrete runs of that kind, put together from the blocks of `Scenes`.

**Bytes and batches.** `Wire`, `Records` and `Payload` give the byte layouts, `Transport` joins payloads to the
messages of the network, `Batching` is the batch collector.

## Assumptions

- A failed action leaves the ledger as it was (the surrounding SDK discards its changes).
- A verified message is honoured at most once on its destination and names its true source chain; a failed
  import leaves it pending. Whether verification succeeded is part of the transaction context.
- Hashes and transaction identifiers do not collide, so an asset identifier is its own preimage: native,
  created by a transaction, or imported from an asset and a chain. Metadata of a wrapped asset is that pair.
- Reads of the database do not fail. Amounts, heights and lengths are 64-bit unless an operation wraps.
- The answer of the emission balancer to an action is a parameter of the ledger model (`ctx.emission`), and so are
  the signer of a registration, the current validators with their keys, and whether its record can be read
  (`credentials`).
- Blocks are processed in the order of their heights, each before any action observes it. The guard of
  undelegating looks at the balancer's own record of the end block, which is the one that the same
  delegation wrote to the ledger.
- Ratios of the balancer are exact and rounded down; a result out of range is taken modulo 2^64.
- The SDK's packer is taken as big-endian fixed-width numbers, 4-byte length prefixes, and for optional fields
  a 64-bit mask followed by the fields that are not zero.

## Where the code differs from what one would expect

The model follows the code; each difference has a lemma.

- Registering makes a validator active at once (emission/emission.go:232), so its activation event, which
  would add its stake to the recorded total, does nothing (emission/emission.go:445), while its end block
  takes the stake off all the same (emission/emission.go:457). `RecordedTotal` is the exact law of the recorded
  total over all runs; it wraps towards 2^64 once a stake has ended that outweighs what is delegated.
- So a distribution can exceed the amount to distribute: `NeverExceedsIff`, `EpochOverpaysIff` and, in terms of
  registered stakes, `EpochOverpaysOnStake` give the exact conditions, `DistributionCanExceed` a run.
- What a block mints is added to the total supply twice, by `MintNewNAI` (emission/emission.go:549) and by the
  controller (controller/controller.go:277): `SupplyCountsTwice`, and the same run. The cap holds all the same.
- A delegation that starts at the block already reached is accepted but never activated
  (`DelegatorsFollowTheirWindow`, `StartingNowIsMissed`), and it is paid for its window all the same, at the expense
  of others (`NeverActiveIsPaid`).
- Delegators are also paid for the epochs in which their window starts and ends. `PaidAsEarnedIff` is the exact
  condition under which a delegation is paid for what it earned and nothing else.
- So the cap on what a leaving delegator is paid can bite: `LastToLeaveIsCut` is a run, `AllPaidIff` and
  `PaidInFullIff` give the exact condition for everybody to be paid in full, and `NobodyIsCut` the runs in which it
  always holds. Claims are not capped at all (emission/emission.go:435); a claim that exceeds what is held wraps the
  counter around: `RewardsAreConserved`. Nor does a claim use anything up: `ClaimsRepeat`.
- Repeated genesis addresses count twice in the supply and once in the balances: `GenesisBalances`,
  `RepeatedAllocation`.
- Asset records are decoded with 16-bit indices: `RoundTripIff`, `LongSymbolIsMisread`. No action can store a symbol
  that long: `LimitsSuffice`.
- A registration is checked against all current validators, not against the node it names: `RegistersOwnNodeIff`,
  `AnyFreeNodeIsAccepted`, `AnothersNodeIsRegistered`.
- The repository's README (lines 52-54) mentions updating metadata and handing over ownership of an asset; no
  action does either.

## Model

| member | source | states |
|---|---|---|
| `CrossChain.LoansAreAccountedFor` | actions/export_asset.go:67-200 | In every state any run of the network reaches, the loan of a home asset to another chain of the network equals value plus reward of the messages between the two still in flight, plus the wrapped supply over there, plus what was burned there; forged messages change nothing |
| `CrossChain.NeverMoreBackThanLent` | README.md:75-78 | Over every run, the loan to any chain, honest or not, is exactly what was exported to it minus what it brought back, so it never brings back more |
| `CrossChain.SupplyIsHeld` | storage/storage.go:242-301 | Over every run and for every non-native asset on every chain: balances and loans add up to the recorded supply, only recorded home assets are on loan, no loan and no such balance is stored as zero |
| `CrossChain.WrappedGoesHomeOnly` | README.md:80-86 | Over every run, exporting a wrapped asset can only return it to its true origin asset and chain; it is never lent on to a third chain, and its record names exactly its origin |
| `CrossChain.MessagesStayRedeemable` | actions/import_asset.go:103-194 | At any point of any run, the mint-or-redeem part of importing a message still in flight succeeds, whoever delivers it; for returned native units it does so exactly if the credited balances fit into 64 bits |
| `CrossChain.ImportsSucceed` | actions/import_asset.go:196-222 | At any point of any run, with no swap or with the swap left unfilled once expired, the whole import succeeds; for returned native units exactly if the credited balances fit |
| `CrossChain.UnfilledMustFill` | actions/import_asset.go:219-222 | Before the swap expires, leaving it unfilled is refused, and for that reason exactly unless returned native units do not fit |
| `CrossChain.FillSucceedsIff` | actions/import_asset.go:223-253 | For any two assets and in every aliasing case, filling the import of a message in flight succeeds exactly when the filler can pay and the balances concerned have room; for two non-native assets exactly when the filler can pay |
| `CrossChain.FilledImportBalances` | actions/import_asset.go:223-252 | Between distinct parties and assets the recipient nets value minus swap-in and gains swap-out, the filler nets reward plus swap-in and loses swap-out, and no other balance moves |
| `Network.CommitKeepsLaw` | actions/import_asset.go:162-192 | Every committed transaction on any chain keeps the loan law between every pair of chains |
| `Network.CommitKeepsHistory` | storage/storage.go:441-492 | Every committed transaction keeps the loan equal to total lent minus total redeemed, against any chain |
| `Network.CommitKeepsMessages` | actions/warp_transfer.go:91-132 | Messages of honest senders, old and new, keep passing every check of the payload decoder and keep matching the record at the asset's home |
| `Network.CommitKeepsWrapped` | actions/import_asset.go:117-132 | A wrapped record keeps carrying symbol and decimals of its origin asset |
| `Network.ExportedMessage` | actions/export_asset.go:115-140 | A successful export sends exactly one message; it names the exported home asset, or for a return the origin that the wrapped asset's identifier is made from, with its symbol and decimals; the other fields are in `EndToEnd.SentPayload` |
| `Network.FeeKeepsInvariant` | controller/state_manager.go:63-80 | Charging and refunding fees keeps every cross-chain invariant |
| `Network.ForgeKeepsInvariant` | actions/import_asset.go:208-214 | A message signed by a chain outside the network keeps every invariant |
| `Network.StepKeepsInvariant` | actions/import_asset.go:196-253 | Every event of the network keeps the whole cross-chain invariant |
| `Network.GenesisIsSound` | genesis/genesis.go:125-159 | A genesis ledger is sound, has no loans, and records the native asset only |
| `Network.RunKeepsInvariant` | actions/export_asset.go:202-224 | The cross-chain invariant holds in every reachable state |
| `EndToEnd.SentPayload` | actions/export_asset.go:115-200 | Every field of the message that a successful export sends: the recipient, amounts, swap, expiry and destination that were asked for, symbol and decimals of the exported asset, the transaction, and the name the asset has at home |
| `EndToEnd.ExportIsInFlight` | actions/export_asset.go:202-224 | At any point of any run of the network, an accepted export puts exactly that message in flight and nothing else |
| `EndToEnd.Delivered` | actions/import_asset.go:196-253 | From the request on one ledger to the balances on another: after an import of what an export sent, every balance has moved by exactly what the exporter asked for, to the recipient, the deliverer and between the two if the swap is filled |
| `EndToEnd.PlainDelivery` | actions/import_asset.go:134-194 | Without a filled swap the recipient that the exporter named gains exactly the value, and whoever delivers exactly the reward |
| `Transport.WellFormedIffDecodes` | actions/warp_transfer.go:91-132 | For any naming of identifiers by distinct fixed-width bytes, a payload is well formed exactly when its bytes decode to it |
| `Transport.BytesIdentify` | actions/warp_transfer.go:60-78 | Well-formed payloads with the same bytes are the same payload |
| `Transport.SentMessagesDecode` | actions/export_asset.go:115-140 | Over every run, the bytes of whatever an honest chain sent decode to exactly that message and belong to no other |
| `Delivery.RedeemIff` | actions/import_asset.go:144-194 | Redeeming a loan that covers the message succeeds exactly when the credits fit into 64 bits |
| `Delivery.MintSucceeds` | actions/import_asset.go:103-142 | Minting the wrapped asset succeeds whenever new supply and credits fit |
| `Delivery.SettlesIff` | actions/import_asset.go:103-194 | On any ledger and for any message, well formed or not, minting or redeeming succeeds exactly when: for a return the asset is recorded with the symbol and decimals of the message, is no wrapped asset, and the loan covers value and reward; otherwise no asset of another kind has the identifier and the supply fits; and the credits fit |
| `Delivery.ImportSucceedsIff` | actions/import_asset.go:196-253 | When the whole import of any decodable message succeeds, on any ledger, in terms of the ledger before it: verified, for this chain, can be honoured, and its swap is none, can be filled, or is expired and left unfilled |
| `Delivery.FlightIsCovered` | actions/export_asset.go:162-175 | No message in flight carries more than is on loan beyond the wrapped supply |
| `Delivery.MessagesSettle` | actions/import_asset.go:103-194 | In every state with the invariant, a message between chains of the network settles, with the one exception that returned native units must fit |
| `Delivery.RecipientCanPay` | actions/import_asset.go:223-232 | The first step of a swap, the debit of the recipient, cannot fail, because swap-in never exceeds value |
| `Delivery.SwapIff` | actions/import_asset.go:223-252 | A swap of any two assets goes through exactly when the filler can pay at the moment it pays and both parties have room for what they get |
| `Delivery.SwapConserves` | actions/import_asset.go:223-252 | A swap changes no asset total, no loan and no record, whoever the parties and whatever the assets are |
| `Delivery.Settled` | actions/import_asset.go:134-141 | What minting or redeeming adds to every balance and to every asset total |
| `Delivery.ImportIff` | actions/import_asset.go:216-222 | Without a swap to fill, or past its expiry, an import succeeds exactly when it settles, for any verified message |
| `Delivery.FilledImportIff` | actions/import_asset.go:223-253 | A filled import of any decodable message succeeds exactly when it settles and, counted from the balances before it, can be filled |
| `Delivery.CanFillIff` | actions/import_asset.go:223-253 | For two non-native assets of a message in flight, room is never the problem: paying is all it takes |
| `Conservation.ExecuteKeepsSound` | storage/storage.go:295-300 | All twelve actions, successful or not, keep a ledger sound: supplies held, loans at home, records well shaped, nothing stored as zero |
| `Conservation.ShapesKept` | actions/warp_transfer.go:80-89 | Records keep their limits, and a wrapped record keeps naming exactly the asset and chain its identifier is made from |
| `Conservation.LoansKeptAtHome` | actions/export_asset.go:158-161 | Only recorded home assets ever get on loan |
| `Conservation.HomeRecordKept` | storage/storage.go:353-381 | A recorded home asset stays recorded, with the same symbol and decimals |
| `Conservation.FeesKeepSound` | controller/state_manager.go:63-80 | A change of one native balance keeps soundness, all loans and all asset records |
| `Effects.BalanceEffects` | actions/import_asset.go:134-252 | How much each asset action adds to each balance, in closed form, with all aliasing of parties and assets |
| `Effects.LoanEffects` | storage/storage.go:441-492 | How much each of the twelve actions adds to each loan, in closed form |
| `Effects.SupplyEffects` | actions/mint_asset.go:83-92 | How much each action adds to each recorded supply, in closed form |
| `Effects.HoldingsEffects` | actions/burn_asset.go:64-80 | Balances and loans of an asset together move by exactly what its recorded supply moves by |
| `Effects.RecordEffects` | actions/export_asset.go:90-114 | The record of every asset after a successful action, including when it is created, rewritten or deleted |
| `Admission.TransferSucceedsIff` | actions/transfer.go:60-83 | A transfer of any asset succeeds exactly when value and memo are within limits, the sender holds the amount and another recipient has room; on a sound ledger, for a non-native asset, exactly when the sender holds it |
| `Admission.CreateSucceedsIff` | actions/create_asset.go:52-82 | An asset is created exactly if symbol, decimals and metadata are within their limits; then the record is as asked for, without units, with the actor as owner, and nothing else changes |
| `Admission.MintSucceedsIff` | actions/mint_asset.go:55-94 | Minting succeeds exactly for a value that is not zero, by the owner of a recorded home asset that is not the native one, while supply and balance fit; on a sound ledger the balance always does |
| `Admission.BurnSucceedsIff` | actions/burn_asset.go:52-82 | Burning any asset succeeds exactly when the burner holds the amount and the recorded supply covers it; on a sound ledger, for a non-native asset, exactly when the burner holds it |
| `Admission.ExportLoanSucceedsIff` | actions/export_asset.go:145-200 | Lending any asset succeeds exactly for a recorded home asset of which the lender holds value and reward while the loan fits; the loan of a non-native asset on a sound ledger always does |
| `Admission.ExportReturnSucceedsIff` | actions/export_asset.go:67-143 | Returning any asset succeeds exactly to the recorded origin while supply and balance cover value and reward; on a sound ledger exactly to the asset's own origin |
| `Admission.CredentialsPassIff` | actions/register_validator_stake.go:62-109 | The credentials of a registration pass exactly if the actor signed it, is one of the current validators with no unreadable key before it, and the record can be read |
| `Admission.RegistersOwnNodeIff` | actions/register_validator_stake.go:73-109 | An accepted registration names a node of the actor's own exactly if it names the node of the validator at which the search ended, a comparison the action does not make |
| `Admission.AnyFreeNodeIsAccepted` | actions/register_validator_stake.go:98-109 | What is accepted for one node is accepted for every node without a stake |
| `Admission.AnothersNodeIsRegistered` | actions/register_validator_stake.go:53-157 | A concrete registration by one validator of the node of another |
| `Staking.RegisterSucceedsIff` | actions/register_validator_stake.go:53-157 | On any ledger a registration succeeds exactly if the credentials pass, the node is free, stake, window and fee rate are within their limits, the window does not open in the past, the balancer agrees and the actor holds the stake; then exactly the start, end, stake, fee rate and reward address asked for are on record with the actor as owner, the stake has left the actor's balance, and nothing else has changed |
| `Staking.DelegateSucceedsIff` | actions/delegate_user_stake.go:53-112 | The same for a delegation: exactly when it succeeds, what is then on record, and what it costs |
| `Staking.WithdrawSucceedsIff` | actions/withdraw_validator_stake.go:51-108 | A validator's stake is released exactly to the owner on record, from the recorded end block on, if the balancer agrees and the credits fit; stake and reward go where they belong, the receipt names both, the record is gone, and nothing else changes |
| `Staking.UndelegateSucceedsIff` | actions/undelegate_user_stake.go:51-103 | The same for a delegation |
| `Staking.ClaimValidatorSucceedsIff` | actions/claim_validator_stake_rewards.go:49-96 | A validator's reward is claimed exactly by the reward address on record, from the recorded end block on, if the balancer agrees and the credit fits; that address is paid what the balancer answers, and nothing else changes |
| `Staking.ClaimDelegationSucceedsIff` | actions/claim_delegation_stake_rewards.go:50-96 | A delegator's reward is claimed exactly by the reward address on record, from the recorded start block on, if the balancer agrees and the credit fits; that address is paid, and nothing else changes |
| `Staking.RegisteredStaysLocked` | actions/withdraw_validator_stake.go:72-75 | Over any run of anybody's actions and fees, what was registered stays on record word for word until the end block that was asked for |
| `Staking.DelegatedStaysLocked` | actions/undelegate_user_stake.go:66-75 | The same for what was delegated |
| `Guards.RegistrationAdmittedIff` | actions/register_validator_stake.go:110-149 | On a ledger that agrees with the balancer, a registration succeeds exactly if the guarded runs of the balancer admit it, its fee rate is a percentage, credentials pass, the balancer agrees and the stake is held |
| `Guards.DelegationAdmittedIff` | actions/delegate_user_stake.go:63-106 | The same for a delegation |
| `Guards.SuccessIsAdmitted` | actions/withdraw_validator_stake.go:61-79 | Whatever succeeds in releasing or claiming is admitted by the guarded runs |
| `Authority.AbsenteesLoseNothing` | actions/undelegate_user_stake.go:66-95 | In any run of other people's transactions and fees, no balance of an address shrinks and each of its stake records stays exactly as it is |
| `Authority.AbsenteesAssetsNeverGrow` | actions/mint_asset.go:68-79 | In any run of other people's transactions, the supply of an address's assets never grows and nothing else about them changes |
| `Authority.OnlyTheActorPays` | storage/storage.go:273-301 | No action takes anything out of an account other than the actor's, swaps included |
| `Authority.OnlyTheOwnerMints` | actions/mint_asset.go:76-79 | Somebody else's action leaves a home asset's record as it is, except that its supply may shrink |
| `Authority.OnlyTheOwnerReleases` | actions/withdraw_validator_stake.go:64-79 | A stake record never changes, and disappears only by its owner's own release once its end block has come |
| `Authority.StakingBalances` | actions/withdraw_validator_stake.go:91-103 | How much each staking action adds to each balance: stake locked from the actor, stake back to its owner, rewards of a release to the address named by the owner and claimed rewards to the reward address on record |
| `Parallel.PlanWithin` | actions/import_asset.go:42-76 | Every operation of an asset action is on a key it declared |
| `Parallel.PlanLocal` | actions/export_asset.go:42-54 | Checks, operations and receipt of an asset action depend on declared keys only |
| `Parallel.ExecuteFrame` | actions/transfer.go:45-50 | An asset action changes declared keys only |
| `Parallel.ExecuteLocal` | actions/mint_asset.go:40-45 | Result and effect of an asset action depend on declared keys only |
| `Parallel.JobsRunAsIfAlone` | README.md:58-62 | In a block of any length with pairwise disjoint keys every action returns and does what it would alone on the starting state |
| `Parallel.AnyOrderSameState` | README.md:58-62 | All orders of such a block end in the same state |
| `Parallel.DisjointActionsCommute` | actions/burn_asset.go:37-42 | Two asset actions with disjoint keys commute: state, results and messages |
| `Treasury.NativeConservation` | genesis/genesis.go:133-159 | Over every run from genesis of all actions and fees: balances, loans, stake and fees kept add up to recorded supply plus rewards paid |
| `Treasury.PostKeepsBalance` | controller/state_manager.go:63-80 | No action and no fee changes the imbalance of the native books |
| `Treasury.ExecuteWorth` | actions/undelegate_user_stake.go:86-95 | Every action changes all native units by the change in recorded supply plus the reward it pays |
| `Treasury.StakingWorth` | actions/register_validator_stake.go:150-155 | Locking moves native units into stake one for one, releasing moves them back and adds just the reward |
| `Treasury.GenesisBalances` | genesis/genesis.go:133-159 | Loading fails exactly on overflow, and the loaded books balance exactly when every allocation replaced by a later one for the same address is empty |
| `Treasury.AllocatedHoldings` | genesis/genesis.go:134-146 | Genesis balances never exceed the total, and equal it exactly when replaced allocations are empty |
| `Treasury.RepeatedAllocation` | genesis/genesis.go:134-146 | A concrete genesis with a repeated address whose supply exceeds its balances |
| `Storage.AddBalance` | storage/storage.go:242-271 | Credits a balance or reports overflow and changes nothing; without `create` a missing account is left alone |
| `Storage.SubBalance` | storage/storage.go:273-301 | Debits a balance, deleting it at zero, or reports the shortage and changes nothing |
| `Storage.AddLoan` | storage/storage.go:441-463 | Raises a loan or reports overflow and changes nothing |
| `Storage.SubLoan` | storage/storage.go:465-492 | Lowers a loan, deleting it at zero, or reports the shortage and changes nothing |
| `Storage.SetAsset` | storage/storage.go:353-381 | Replaces one asset record and nothing else |
| `Storage.DeleteAsset` | storage/storage.go:383-386 | Deletes one asset record and nothing else |
| `Execution.ExecuteTransfer` | actions/transfer.go:60-83 | The steps on mutable state have the result and the effect of the specified transfer |
| `Execution.ExecuteCreate` | actions/create_asset.go:52-82 | The steps on mutable state have the result and the effect of the specified creation |
| `Execution.ExecuteMint` | actions/mint_asset.go:55-94 | The steps on mutable state have the result and the effect of the specified mint |
| `Execution.ExecuteBurn` | actions/burn_asset.go:52-82 | The steps on mutable state, which debit before they look at the record, have the result and the effect of the specified burn |
| `Execution.ExecuteExportReturn` | actions/export_asset.go:67-143 | The steps on mutable state have the result, message and effect of the specified return |
| `Execution.ExecuteExportLoan` | actions/export_asset.go:145-200 | The steps on mutable state have the result, message and effect of the specified loan |
| `Execution.ExecuteExport` | actions/export_asset.go:202-224 | Checks and dispatch of an export have the result and the effect specified |
| `Execution.ImportMint` | actions/import_asset.go:103-142 | The steps that mint a wrapped asset do what is specified, or report the specified error |
| `Execution.ImportReturn` | actions/import_asset.go:144-194 | The steps that redeem a loan do what is specified, or report the specified error |
| `Execution.FillSwap` | actions/import_asset.go:223-252 | The four moves of a swap, in their order, do what is specified even when parties or assets coincide |
| `Execution.ExecuteImport` | actions/import_asset.go:196-253 | The whole import on mutable state has the result and the effect specified |
| `Execution.CheckCredentials` | actions/register_validator_stake.go:62-109 | The loop over the current validators, with its early exits, gives the specified verdict on the credentials |
| `Execution.ExecuteRegister` | actions/register_validator_stake.go:53-157 | Credentials, range guards and locking of validator stake as specified |
| `Execution.ExecuteWithdraw` | actions/withdraw_validator_stake.go:51-108 | Release of validator stake as specified: reward out, record gone, stake back |
| `Execution.ExecuteDelegate` | actions/delegate_user_stake.go:53-112 | Guards and locking of a delegation as specified |
| `Execution.ExecuteUndelegate` | actions/undelegate_user_stake.go:51-103 | End-block guard, payout and deletion of a delegation as specified |
| `Execution.ExecuteClaimValidator` | actions/claim_validator_stake_rewards.go:49-96 | Guards and payout of a validator's claim as specified |
| `Execution.ExecuteClaimDelegation` | actions/claim_delegation_stake_rewards.go:50-96 | Guards and payout of a delegator's claim as specified |
| `Execution.Process` | actions/import_asset.go:196-253 | Each of the twelve actions on mutable state, with its changes discarded when it fails, is the specified transaction exactly |
| `Execution.CanDeduct` | controller/state_manager.go:47-61 | Says yes exactly when deducting would succeed |
| `Execution.DeductFee` | controller/state_manager.go:63-70 | Charges the fee or reports the shortage and changes nothing |
| `Execution.RefundFee` | controller/state_manager.go:72-80 | Gives back to an existing account, silently ignores a missing one, reports overflow |
| `Execution.Load` | genesis/genesis.go:125-159 | The loop over allocations builds the specified genesis or reports overflow |
| `Balancer.RewardsAreConserved` | emission/emission.go:262-440 | Over every run, claims of delegators included, rewards paid plus outstanding plus dropped with removed validators equal rewards minted, and per validator what was set aside for delegators is still there or was paid: exactly while fewer than 2^64 units were minted and no claim exceeded what was held, modulo 2^64 for ever |
| `Balancer.DelegatorsFollowTheirWindow` | emission/emission.go:463-499 | Over every run, a delegator is active exactly inside its window (never, if the window opened at the block the delegation was recorded), has its deactivation queued while active, and the delegated amount is the stake of the active delegators |
| `Balancer.EpochsAreSolvent` | emission/emission.go:523-527 | Over every run, after each epoch's block, the floored shares of that epoch over the delegators active in it stay within what was set aside |
| `Balancer.SupplyWithinMaximum` | emission/emission.go:126-136 | Over every run the recorded total supply is at most the maximum |
| `OwnRewards.PaidEverythingOwn` | emission/emission.go:262-288 | Over every run, a validator that withdraws or claims is paid all of its own rewards that were credited to it since its last payout, and nothing of its own is outstanding afterwards; a withdrawal also takes stake and activity away |
| `OwnRewards.OwnIsOwed` | emission/emission.go:502-534 | Over every run, what a validator's record holds for itself is the sum of its portions, less the delegators' parts, of all epochs since its last payout |
| `OwnRewards.PaidOwn` | emission/emission.go:410-428 | A withdrawal or claim of a validator raises what was paid by exactly what was outstanding for it |
| `OwnRewards.NothingSetAsideAlone` | emission/emission.go:580-587 | Over every run, an epoch at whose block nothing was delegated to a validator set nothing aside for its delegators |
| `OwnRewards.AloneKeepsAll` | emission/emission.go:509-527 | An active validator without delegations is credited with its whole portion, its delegators' reward stays as it is, and the epoch records zero |
| `OwnRewards.SharedIsSplit` | emission/emission.go:509-587 | With delegations the delegators' part is the fee rate's percentage of the portion rounded down, the validator gets the rest, and the record holds both that part and the delegated amount |
| `OwnRewards.PortionIs` | emission/emission.go:503-515 | A validator's portion is to the total as its stake is to the recorded stake, rounded down |
| `OwnRewards.EpochShareIs` | emission/emission.go:181-192 | A delegator's share of an epoch is to what was set aside as its stake is to the delegated stake, rounded down |
| `Delegations.RegisterShape` | emission/emission.go:201-258 | Registering leaves every other validator as it is; a known node keeps rewards, delegators and records and gets new stake and fee rate, a new one has none; exactly one activation is queued at the start block and one deactivation at the end block, for this very record |
| `Terms.CurrentTerms` | emission/emission.go:201-244 | Over every run each validator has the fee rate and the stake of its last registration, the stake taken away if it withdrew since then |
| `Balancer.EpochOverpaysIff` | emission/emission.go:536-554 | At the end of every epoch of every run, more is minted than the rewards of the epoch exactly when the stake counted but not recorded outweighs what rounding takes away |
| `StakeTotals.RecordedTotal` | emission/emission.go:442-500 | Over every run under all guards of the actions, the recorded total is, in 64 bits, the delegated amounts of all validators less everything that validators had staked and delegated to them when their stake ended |
| `StakeTotals.ActivationsNeverCount` | emission/emission.go:443-451 | Over every such run a registered validator is active until its end block, and no activation event ever changes anything |
| `StakeTotals.EventsMoveAlike` | emission/emission.go:443-461 | Activating or deactivating any registered validator moves the recorded total exactly as the stake of all active validators moves, in 64 bits |
| `StakeTotals.RegistrationIsNotCounted` | emission/emission.go:201-244 | Registering, for the first time or again, raises the stake that counts and leaves the recorded total as it was |
| `StakeTotals.BlockTotals` | emission/emission.go:453-461 | A block takes off the recorded total exactly the stake of the validators whose end block it is, besides what delegators add and take |
| `StakeTotals.UncountedStake` | emission/emission.go:442-500 | Over every such run the stake that counts exceeds the recorded total by active validators' own stake and all stake that ended, less what is delegated to inactive validators: exactly in range, modulo 2^64 always |
| `StakeTotals.EpochOverpaysOnStake` | emission/emission.go:502-554 | At the end of every epoch of every such run, while in range, more is minted than the epoch's rewards exactly when that stake outweighs the rounding |
| `Examples.DistributionCanExceed` | emission/emission.go:502-554 | A run of admitted events, of ten blocks, in which an epoch with rewards of 5945 distributes 29725 and the supply grows by twice that |
| `Examples.StartingNowIsMissed` | emission/emission.go:463-480 | A run of admitted events with a delegation starting at the height already reached, which is inside its window and not active |
| `Balancer.StepKeepsInvariant` | emission/emission.go:262-500 | Every event keeps schedule, books and supply cap |
| `Balancer.DistributeBooks` | emission/emission.go:509-533 | A distribution adds to outstanding rewards and epoch records exactly what it distributes, up to wrapping |
| `Balancer.UndelegateBooks` | emission/emission.go:373-400 | Undelegating takes from the books exactly what it pays, or what is dropped with the validator |
| `Balancer.ClaimBooks` | emission/emission.go:429-435 | A delegator's claim takes from the books exactly what it pays, wrapping when that is more than is held |
| `Delegations.NextBlockKeepsScheduled` | emission/emission.go:442-500 | Working off a block leaves every delegator on schedule, every coming event queued and every delegated amount counted |
| `Delegations.DelegateKeepsScheduled` | emission/emission.go:291-350 | A new delegation with an allowed window joins the schedule |
| `Delegations.UndelegateKeepsScheduled` | emission/emission.go:353-407 | Leaving after the end block keeps the schedule of everybody else |
| `Delegations.UndelegateShape` | emission/emission.go:391-400 | Leaving removes the validator exactly if it is inactive, has no stake and this was its last delegator; otherwise it only loses the delegator and what that was paid |
| `Delegations.RegisterKeepsScheduled` | emission/emission.go:201-244 | Registering, also again, keeps the schedule |
| `Delegations.SwitchAllAt` | emission/emission.go:463-499 | A queue of events switches exactly the delegators it names and the block is right for, in whatever order and however often it names them |
| `Rewards.NeverExceedsIff` | emission/emission.go:502-534 | No total is ever exceeded by a distribution exactly when the recorded total stake is zero or covers the active stake |
| `Rewards.LittleIsLost` | emission/emission.go:502-519 | When the recorded total is the active stake, less than one unit per active validator stays undistributed, however many inactive ones there are |
| `Rewards.ExceedsIff` | emission/emission.go:502-534 | A total within the recorded stake is exceeded exactly when the stake counted but not recorded outweighs the remainders of rounding, which stay below the recorded stake for each active validator |
| `Rewards.EpochExceedsIff` | emission/emission.go:543-549 | For the total that an epoch really distributes, the same exact condition |
| `Rewards.RewardsAreBounded` | emission/emission.go:697-700 | The rewards of an epoch never lift the supply above the maximum and never exceed the recorded stake |
| `Rewards.RewardsAreTheYield` | emission/emission.go:677-701 | The rewards of an epoch are what 25% a year of the recorded stake come to in thirty seconds, rounded down and spread thinner above 100 validators, or what is left to the maximum supply if that is exceeded without leaving 64 bits |
| `Rewards.SharesTotal` | emission/emission.go:183-185 | Rounded shares of parts within the whole add up to at most the amount, and to more than the amount less one per part if they make up the whole |
| `Rewards.EpochIsSolvent` | emission/emission.go:523-527 | The record of an epoch pays the delegators active in it at most what it sets aside |
| `Entitlement.PaidAsEarnedIff` | emission/emission.go:160-193 | For every delegation: in all runs that contain it the balancer works out just the shares of the epochs at whose block it was active, if and only if its window ends within epoch 0, or it opens after the block of recording, in epoch 0 or at the block of an epoch, and does not end at one |
| `Entitlement.UnfairRun` | emission/emission.go:160-193 | For every delegation that fails that condition, a run that contains it and in which it is worked out something else |
| `Payouts.EarnsIffActive` | emission/emission.go:463-499 | In every run, the epochs that count as earned are exactly those at whose block the delegator is active |
| `Payouts.RecordSufficesIff` | emission/emission.go:181-192 | Whatever an epoch's record set aside covers the delegators still present who are paid from it exactly when nothing was delegated or the delegated amount covers their stake |
| `Payouts.ClaimsRepeat` | emission/emission.go:429-435 | Claiming uses nothing up: however often a delegator claims in a row, each claim pays the shares of all its epochs once more |
| `Examples.LastToLeaveIsCut` | emission/emission.go:373-389 | A run of admitted events in which a delegator whose window is over is due 5944 and is paid 2972 |
| `Examples.NeverActiveIsPaid` | emission/emission.go:160-193 | A run of admitted events in which a delegator that was never active is paid 5944, and one that was active throughout and earned 5944 then gets nothing |
| `Solvency.AllPaidIff` | emission/emission.go:373-400 | Whatever the order in which all delegators of a validator leave, everybody is paid all that is due if and only if the validator holds what it owes them together |
| `Solvency.PaidInFullIff` | emission/emission.go:373-400 | At any point of any run without wrapped counters, the same holds if and only if what was paid to delegators before and what is due to those present is at most what was ever set aside |
| `Solvency.NobodyIsCut` | emission/emission.go:373-389 | Over every run without claims whose delegations are for epochs they earn, a validator holds at least what it owes all its delegators together, so the cap never bites and each is paid exactly what it earned |
| `Solvency.BlockCovered` | emission/emission.go:509-533 | An accepted block keeps every validator's liabilities covered |
| `Solvency.RewardIsDue` | emission/emission.go:374-383 | A covered validator pays a leaving delegator everything that is due |
| `Rewards.AnyOrderSameRewards` | emission/emission.go:509-533 | Whatever order the map of validators is visited in, validators, epoch records and sum come out the same |
| `Rewards.SupplyStaysCapped` | emission/emission.go:126-136 | Whatever a block mints, even past 64 bits, the recorded supply ends within the maximum |
| `Rewards.SupplyCountsTwice` | controller/controller.go:276-278 | A block adds what it mints twice, in 64 bits and up to the maximum, so it adds it once exactly if it is nothing or fills the maximum without wrapping |
| `BalancerObject.EmissionBalancer.RegisterValidatorStake` | emission/emission.go:201-258 | Updates fields and queues in place as the state machine says |
| `BalancerObject.EmissionBalancer.WithdrawValidatorStake` | emission/emission.go:262-288 | Returns the accumulated reward and clears reward, activity and stake, and nothing else |
| `BalancerObject.EmissionBalancer.ClaimStakingRewards` | emission/emission.go:410-440 | With the empty address returns and clears the validator's reward; otherwise pays the delegator what is worked out and takes it off, uncapped; errors change nothing |
| `BalancerObject.EmissionBalancer.DelegateUserStake` | emission/emission.go:291-350 | Records the delegator and queues both events, or reports why not and changes nothing |
| `BalancerObject.EmissionBalancer.CalculateUserDelegationRewards` | emission/emission.go:140-197 | The loop adds up the share of every epoch of the window, boundary epochs included |
| `BalancerObject.EmissionBalancer.UndelegateUserStake` | emission/emission.go:353-407 | Pays at most what is left, removes the delegator, and removes an abandoned validator with its last one |
| `BalancerObject.EmissionBalancer.ActivateValidator` | emission/emission.go:444-449 | One activation event through a possibly stale pointer |
| `BalancerObject.EmissionBalancer.DeactivateValidator` | emission/emission.go:454-459 | One deactivation event through a possibly stale pointer |
| `BalancerObject.EmissionBalancer.SwitchOn` | emission/emission.go:464-478 | One delegator activation event |
| `BalancerObject.EmissionBalancer.SwitchOff` | emission/emission.go:483-497 | One delegator deactivation event |
| `BalancerObject.EmissionBalancer.ProcessBlockEvents` | emission/emission.go:442-500 | The four loops work off the queues of a block in order and delete them |
| `BalancerObject.EmissionBalancer.DistributeRewards` | emission/emission.go:502-534 | The loop over the validators, in arbitrary order, credits all of them and returns the sum, as the order-free specification says |
| `BalancerObject.EmissionBalancer.CreditValidator` | emission/emission.go:509-527 | One round of that loop |
| `BalancerObject.EmissionBalancer.GetRewardsPerEpoch` | emission/emission.go:677-701 | The rewards of the epoch as the state machine has them; within the maximum they never lift the supply above it |
| `BalancerObject.EmissionBalancer.MintNewNAI` | emission/emission.go:536-554 | Works off the block and, on an epoch boundary, distributes and adds what was distributed to the supply |
| `BalancerObject.EmissionBalancer.AddToTotalSupply` | emission/emission.go:126-136 | Adds to the supply, cut off at the maximum |
| `BalancerObject.EmissionBalancer.Accepted` | controller/controller.go:274-278 | What accepting a block does to the balancer is one block step of the state machine |
| `Records.AssetRoundTrip` | storage/storage.go:331-381 | Decoding a stored asset record returns every field while all 16-bit indices fit |
| `Records.RoundTripIff` | storage/storage.go:331-351 | A record and the same with the other warp flag both survive storage exactly when all indices fit into 16 bits |
| `Records.LimitsSuffice` | actions/create_asset.go:60-75 | The limits on created and imported assets keep all indices in range |
| `Records.LongSymbolIsMisread` | storage/storage.go:331-351 | A family of records beyond 16-bit indices that come back wrong |
| `Records.StoreAsset` | storage/storage.go:353-381 | Filling the buffer with running offsets yields exactly the record's layout |
| `Records.StoreStake` | storage/storage.go:503-533 | Filling the buffer field after field yields exactly the layout of a stake record |
| `Records.StakeRoundTrip` | storage/storage.go:571-606 | Decoding a stored stake record, of a validator or a delegation, returns every field |
| `Records.KeysAreInjective` | storage/storage.go:734-759 | All storage keys of all kinds are different for different contents |
| `Payload.PayloadRoundTrip` | actions/warp_transfer.go:60-132 | Every valid payload, with every pattern of zero and non-zero optional fields, decodes to itself with no bytes left |
| `Payload.DecodeIff` | actions/warp_transfer.go:91-132 | Decoding returns a payload exactly when it is valid and the bytes are its encoding |
| `Payload.EncodingIsInjective` | actions/warp_transfer.go:60-78 | Different payloads have different bytes |
| `Payload.HeadWasEncoded` | actions/warp_transfer.go:91-104 | A mandatory part that decodes is valid and was encoded |
| `Payload.OptionsRead` | actions/warp_transfer.go:66-76 | The optional part decodes for all 32 patterns of present fields |
| `Wire.BigEndian` | storage/storage.go:503-533 | Numbers are written with the most significant byte first |
| `Batching.Batch.Add` | auth/ed25519.go:123-141 | Collects one signature; a batch is handed out exactly when this one fills it, and it is all that was pending and the new one |
| `Batching.Batch.Done` | auth/ed25519.go:143-148 | Batches handed out and the last one cover exactly the signatures added; all but the last are full |
| `Batching.CoversIsFaithful` | auth/ed25519.go:123-148 | Covering batches all verify exactly when every signature does, even with the last one repeated |
| `Batching.Collect` | auth/ed25519.go:102-148 | For any numbers of cores and signatures the batches of a whole run cover exactly the signatures, all but the last of exactly the batch size |
| `Batching.BatchSize` | auth/ed25519.go:102-112 | The size is the minimum or the signatures per core rounded down, whichever is larger |

## Left out

- Fees as rewards: `DistributeFees` credits a running total to one validator after another
  (emission/emission.go:528-530), so it neither conserves nor is independent of the order; runs of the
  balancer contain no fee distribution.
- Agreement between balancer and ledger: actions call the balancer before ledger updates that may still fail,
  and its changes are not rolled back; the two are joined only through guards and returned amounts.
- State keys of staking actions, which share the balancer and do not declare all they read.
- BalancerObject.EmissionBalancer.ProcessBlockEvents: validators are values in a map with an explicit identity
  for pointers held by queues, not heap objects, so aliasing is captured through that identity only.
- Balancer.EpochsAreSolvent: sums the delegators active at the epoch's block, and assumes that their stakes add up
  to less than 2^64, which the balancer does not check; who else is paid is the subject of `Payouts` and `Solvency`.
- Balancer.RewardsAreConserved: past 2^64 minted units, or once a claim exceeded what was held, it states equality
  modulo 2^64, since the counters wrap.
- OwnRewards.PaidEverythingOwn: states equality modulo 2^64 once 2^64 units were minted or a claim exceeded what was
  held, since the counters wrap.
- Solvency.NobodyIsCut: for runs without claims, while fewer than 2^64 units were minted and each validator's
  delegations fit into 64 bits; its condition on delegations is sufficient, `Solvency.PaidInFullIff` is exact.
- Entitlement.UnfairRun: its runs keep the checks on delegating and undelegating but not the limits on amounts and
  durations of stakes; `Examples` has runs that keep them all.
- StakeTotals.RecordedTotal: takes the ledger's stake records to agree with the balancer's registrations.
- CrossChain.MessagesStayRedeemable: for returned native units it asks that the credited balances fit, because
  rewards raise native balances without raising the recorded supply.
- Execution.Process: dispatch and rollback are the surrounding SDK's, of which the repository holds no code.
- Rounding of floating-point numbers.
- Signatures, hashing, Bech32 addresses, the trie, fee metering and compute units: not part of this model.
- Decoding of node identifiers and addresses given as text in actions; an action in the model carries them decoded.
- Transaction history, RPC, command line, configuration, metrics, logging, and the proof-of-work faucet.
