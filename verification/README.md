# Wallet, swap and node-facing logic: a verified model

The program is a multi-coin wallet and atomic-swap daemon. This project models the parts of it whose
correctness does not follow from reading one branch:

- `HdWallet`: the gap-limit scanner of HD wallets and the code that tops up and enables accounts and wallets.
- `EthSwap`: building, validating, spending and refunding hash time locked payments on EVM chains, directly or
  by a watcher, against the state machine of the swap contract.
- `NonceProtocol`: the nonce discipline of an address that several tasks send from, as a concurrent protocol.
- `HistorySync`, `LogSearch`: fetching the history of an address and searching contract events in block windows.
- `Confirmations`: waiting for confirmations with a node that may fail, lag or reorganise.
- `CoinsContext`: the registry of activated coins and the tokens that depend on them.
- `JsonRpcBatch`, `DexFee`, `Eip55`, `TxHistory`, `OpenChannels`: batch responses, the split of the DEX fee,
  address checksums, the order and pages of histories and channel lists. `Paging` has what the last two share.

Objects that the program updates are classes, loops are methods proved against a specification, and everything
else is functions. Nodes, storage and hash functions are parameters.

Where code and documentation differ, the model follows the code:

- A scan stops after `gap_limit + 1` unused addresses, not `gap_limit` (`mm2src/coins/lp_coins.rs:6279`, `6300`).
- The comment at `mm2src/coins/coin_balance.rs:558-560` says that the enabled address becomes known. The wanted number
  is compared with the number of listed addresses of both chains, so on a UTXO coin it becomes known exactly if it was
  known or its id and the number of addresses of the other chain add up to less than the wanted number
  (`TopUpIndexesIff`).
- ERC20 history windows end one block too early, so the sync misses the blocks its backward steps start from
  (`Erc20SkipsExactlyTheStarts`, `Erc20MissesIff`).
- Of the events of one transaction, only the last one that is fetched enters the ERC20 history
  (`FinishedErc20HistoryIsExact`, `FirstOfTwoEventsIsLost`).
- A send that fails may have been accepted all the same. The lock is then released without waiting for the nonce to
  increase, and the next transaction may repeat the nonce (`LostSendRepeatsNonce`).
- With a contract interface that has reward functions (`hasRewards`), an ETH payment whose reward goes to
  PaymentReceiver without a contract reward is rejected by the other side (`RewardPaymentValidIff`).
- The token amount of an ERC20 payment without a reward is not compared
  (`PlainErc20AmountIsNotCompared`).
- A channel page behind the end of the list slices out of range (`PageFailsIff`), and a chunk length of 0 can make
  an event search endless (`SearchEndsIff`).
- The shipped interface, `mm2src/coins/eth/swap_contract_abi.json`, has no reward functions: with it `hasRewards` is
  false, and every call with a reward fails.

## Model

| member | source | states |
|---|---|---|
| HdWallet.Discovered | mm2src/coins/lp_coins.rs:6300-6353 | The least id, from the old known count on, that is followed by `gap_limit + 1` unused ids (or by unused ids up to the address limit); if it lies above the old count, the id before it is used |
| HdWallet.LeastQuietIsDiscovered | mm2src/coins/lp_coins.rs:6300-6353 | That characterisation determines the new known count |
| HdWallet.HdAccount.ScanForNewAddresses | mm2src/coins/lp_coins.rs:6281-6358 | The resettable-counter loop terminates and refines the declarative scan: new count, the returned ids in order with their balances, and every error case with the count left as it was |
| HdWallet.ScanIsIdempotent | mm2src/coins/lp_coins.rs:6294-6357 | The known count never decreases, a failed scan leaves it unchanged, and a second scan with unchanged usage succeeds with an empty list and the same count |
| HdWallet.ScanOutcome | mm2src/coins/lp_coins.rs:6300-6357 | Exactly when a scan succeeds, which error it gives otherwise, and which count it leaves |
| HdWallet.ScanFindsExactlyReachable | mm2src/coins/lp_coins.rs:6300-6343 | A used address is found exactly when a chain of used addresses, each within the gap limit of the one before, leads to it (BIP 44, "Address gap limit" and "Account discovery") |
| HdWallet.ExtendListing | mm2src/coins/lp_coins.rs:6313-6341 | Zero balances for the skipped ids followed by a true balance continue the list of ids without a gap |
| HdWallet.HdAccount.SetKnownAddressesNumber | mm2src/coins/hd_wallet/coin_ops.rs:214-237 | The limit is checked first, then the storage is written, and the account changes only if both succeed |
| HdWallet.HdAccount.ScanAllChains | mm2src/coins/utxo/utxo_common.rs:179-212 | The chains are scanned one after the other; a failure on the second keeps what the first has found |
| HdWallet.ScanAllIsMonotone | mm2src/coins/utxo/utxo_common.rs:179-212 | Scanning all chains, failing or not, never forgets an address |
| HdWallet.ScanAllIsIdempotent | mm2src/coins/utxo/utxo_common.rs:179-212 | A second scan of all chains changes nothing; it finds nothing, or fails as the first did, which kept what it had found on the first chain |
| HdWallet.ScanAllIsTrue | mm2src/coins/lp_coins.rs:6312-6346 | Every scanned entry is of the account, and has the balance of a used address and zero for an unused one |
| HdWallet.ScanAllExtends | mm2src/coins/utxo/utxo_common.rs:179-212 | What the scan of all chains returns continues the list of known ids on every chain without gaps or repeats |
| HdWallet.HdAccount.BalancesWithIds | mm2src/coins/coin_balance.rs:337-373 | Exactly the requested ids in order with their balances; it fails exactly when one balance cannot be requested |
| HdWallet.HdAccount.AllKnownAddressesBalances | mm2src/coins/utxo/utxo_common.rs:214-240 | All known ids of every chain, each once and with its balance; it fails exactly when one balance cannot be requested |
| HdWallet.KnownIsListed | mm2src/coins/utxo/utxo_common.rs:214-240 | The addresses of both chains one after the other are a complete list of what is known |
| HdWallet.HdAccount.GenerateNewAddress | mm2src/coins/hd_wallet/coin_ops.rs:151-167 | The next id is generated exactly when the limit allows it and the storage accepts the new count; otherwise nothing changes |
| HdWallet.HdAccount.GenNewAddresses | mm2src/coins/coin_balance.rs:602-663 | Tops a list up to the minimum with the next ids and their balances; success is characterised exactly, and a failure on the way never forgets an address |
| HdWallet.TopUpExtends | mm2src/coins/coin_balance.rs:623-662 | The generated ids continue the list without gaps or repeats |
| HdWallet.HdAccount.TopUpAddresses | mm2src/coins/coin_balance.rs:454-456 | Topping up an account's complete list keeps it complete, and happens only if a minimum is asked for |
| HdWallet.HdAccount.KnownAndFoundAddresses | mm2src/coins/coin_balance.rs:445-452 | Known and scanned addresses together are a complete list; success is characterised exactly |
| HdWallet.SumBalancesConcat | mm2src/coins/coin_balance.rs:458-463 | The total of a list is the sum of the totals of its parts |
| HdWallet.SumBalancesIsTotal | mm2src/coins/lp_coins.rs:2709-2714 | Adding up balances adds up the spendable and the unspendable parts |
| HdWallet.TotalBalance | mm2src/coins/coin_balance.rs:458-463 | The total has the sum of the listed spendable and the sum of the listed unspendable balances |
| HdWallet.HdAccount.EnableHdAccount | mm2src/coins/coin_balance.rs:431-473 | Succeeds exactly when all requests and writes on the way do; then known, scanned and generated addresses are ids 0..n of every chain without gaps or repeats, with their balances and their sum, n is the new known count, the minimum is reached, and it is stated exactly which addresses are known |
| HdWallet.TopUpIndexesIff | mm2src/coins/coin_balance.rs:454-456 | Topping up makes an address known exactly if it was known, or if its id plus the number of listed addresses of the other chain is below the wanted number |
| HdWallet.OneChainIsReached | mm2src/coins/coin_balance.rs:557-561 | So the enabled address always becomes known where the coin lists no address of another chain |
| HdWallet.EnabledAddressMayStayUnknown | mm2src/coins/coin_balance.rs:557-561 | An instance: with 3 external and 5 internal addresses, external address 6 stays unknown |
| HdWallet.HdWallet.CreateAccount | mm2src/coins/hd_wallet/mod.rs:424-484 | An account is created exactly below the account limit, if key extraction and upload succeed and the id is new, and is inserted in the order of ids; which error otherwise |
| HdWallet.HdWallet.EnableAccount | mm2src/coins/coin_balance.rs:556-575 | One account of the wallet is enabled, the one of the wanted address with a minimum that covers the address: success is characterised exactly, the listing reaches the minimum of the account, and the address is known exactly if it is reached |
| HdWallet.HdWallet.EnableAccounts | mm2src/coins/coin_balance.rs:555-576 | Every account is enabled so, in the order of ids; it succeeds exactly when every account can be enabled from what it knew before |
| HdWallet.HdWallet.EnableNewAccount | mm2src/coins/coin_balance.rs:498-548 | The account of the wanted address is created and enabled alone |
| HdWallet.HdWallet.EnableHdWallet | mm2src/coins/coin_balance.rs:475-599 | With the wanted account present all accounts are enabled, otherwise just the new one; success is characterised exactly, every reported account lists ids 0..n of each chain and at least its minimum, the wanted address is known exactly if it is reached, and no account forgets an address |
| NonceProtocol.Highest | mm2src/coins/eth.rs:6237-6241 | The highest nonce some node reported in a round, if any did |
| NonceProtocol.Instances | mm2src/coins/eth.rs:6242-6248 | Exactly the nodes that reported the highest nonce |
| NonceProtocol.GetAddrNonce | mm2src/coins/eth.rs:6189-6254 | Finds a nonce exactly when one of the first six rounds has an answer, and then the highest one of the first such round with its nodes; aborts exactly when six rounds fail |
| NonceProtocol.ReadingConcludes | mm2src/coins/eth.rs:6218-6250 | What a round of a reading gives: the highest answer and its nodes, another round, or failure after the sixth without answers |
| NonceProtocol.WaitConcludes | mm2src/coins/eth.rs:6063-6078 | A wait ends exactly with a round that has an answer past the nonce |
| NonceProtocol.FailuresGiveUp | mm2src/coins/eth.rs:3102-3116 | Every failure gives the lock back and accepts nothing |
| NonceProtocol.SenderSends | mm2src/coins/eth.rs:3089-3116 | With any number of nodes that all answer, a task that finds the lock free gets its transaction accepted with the highest pending nonce |
| NonceProtocol.SenderFinishes | mm2src/coins/eth.rs:6063-6078 | And gives the lock back once a node has taken the transaction into account |
| NonceProtocol.AnswerKeepsInv | mm2src/coins/eth.rs:6218-6229 | Answers that arrive at any time keep the protocol invariant |
| NonceProtocol.ViewKeepsInv | mm2src/coins/eth.rs:3107-3116 | Nodes that report higher nonces at any time keep the invariant |
| NonceProtocol.ConcludeKeepsInv | mm2src/coins/eth.rs:6063-6078 | Reading the highest nonce and waiting for a higher one keep the invariant |
| NonceProtocol.StepKeepsInv | mm2src/coins/eth.rs:3089-3116 | Every step of every task and node that the protocol can rely on keeps the invariant |
| NonceProtocol.RunKeepsInv | mm2src/coins/eth.rs:3089-3116 | So does every interleaving of such steps |
| NonceProtocol.NoncesIncrease | mm2src/coins/eth.rs:3089-3116 | For every interleaving of tasks under the address lock, accepted transactions have strictly increasing nonces in the order of the lock, if every round from which a nonce is taken has all answers, no task is dropped while it waits, no transaction is accepted whose send failed or was dropped, and no node reports a lower nonce than before |
| NonceProtocol.FreshNoncesIncrease | mm2src/coins/eth.rs:3089-3116 | It is enough that every round from which a nonce is taken has an answer past the last accepted nonce and no transaction is accepted whose send failed: then waiting tasks may be dropped and nodes may report lower nonces |
| NonceProtocol.SendKeepsOrderIff | mm2src/coins/eth.rs:6237-6248 | And that is needed: a transaction with the nonce of a round continues the order exactly if some node answered in the round with a nonce past the last accepted one |
| NonceProtocol.ReliableIsFresh | mm2src/coins/eth.rs:6063-6078 | Under the four assumptions every round has such an answer |
| NonceProtocol.UnansweredRoundRepeatsNonce | mm2src/coins/eth.rs:6222-6229 | For every nonce, a run in which one node does not answer, every other assumption is met, and the nonce is accepted twice |
| NonceProtocol.DecreasedViewRepeatsNonce | mm2src/coins/eth.rs:6218-6241 | For every nonce, such a run in which a node reports a lower nonce than before |
| NonceProtocol.LostSendRepeatsNonce | mm2src/coins/eth.rs:3108-3111 | For every nonce, such a run in which a task gets an error although its transaction is accepted |
| NonceProtocol.DroppedTaskRepeatsNonce | mm2src/coins/eth.rs:3102-3115 | For every nonce, such a run in which a task is dropped while it waits |
| EthSwap.SendEthPayment | mm2src/coins/eth.rs:4325-4359 | Builds exactly the specified ETH payment, with the overpaid reward counted into the value where the target says so |
| EthSwap.Erc20PaidAmounts | mm2src/coins/eth.rs:4381-4406 | The reward of an ERC20 payment, counted into the value, into the token amount or nowhere |
| EthSwap.SendErc20Payment | mm2src/coins/eth.rs:4360-4429 | Builds exactly the specified ERC20 payment, with the reward in the value or in the token amount |
| EthSwap.SendHashTimeLockedPayment | mm2src/coins/eth.rs:4310-4480 | All argument errors and both coin types |
| EthSwap.PaymentTokensOf | mm2src/coins/eth.rs:4340-4425 | The tokens and the value of a reward payment, argument by argument |
| EthSwap.UnitsIff | mm2src/coins/eth/eth_utils.rs:115-132 | An amount is converted to the number of units that fit it, in 10^decimals to the coin |
| EthSwap.WholeUnits | mm2src/coins/eth/eth_utils.rs:115-132 | An amount that is a whole number of units is converted to that number |
| EthSwap.Pow10Is | mm2src/coins/eth/eth_utils.rs:115-132 | The powers of ten |
| EthSwap.SwapIdIs | mm2src/coins/eth.rs:1247-1263 | The identifier is the SHA-256 of the four bytes of the lock time, the lowest first, and the secret hash |
| EthSwap.TargetCodes | mm2src/coins/lp_coins.rs:861-868 | The numbers by which reward targets are encoded |
| EthSwap.PlainPaymentIs | mm2src/coins/eth.rs:4310-4429 | A payment without a reward, argument by argument: it transfers the trade amount in units of the coin |
| EthSwap.PlainPaymentOkIff | mm2src/coins/eth.rs:4310-4429 | Exactly when it can be built |
| EthSwap.EthRewardPaymentIs | mm2src/coins/eth.rs:4330-4349 | An ETH payment with a reward, argument by argument: one and a half times the reward, counted into the value besides the trade amount |
| EthSwap.Erc20RewardPaymentIs | mm2src/coins/eth.rs:4377-4420 | An ERC20 payment with a reward: in wei in the value, in units of the token in the token amount, or nothing |
| EthSwap.ValidateRewardArgs | mm2src/coins/eth.rs:5534-5560 | Accepts exactly the expected target and flag with a reward above the lower boundary |
| EthSwap.ValidateEthPayment | mm2src/coins/eth.rs:5487-5579 | Accepts exactly the ETH payments with the expected arguments and value |
| EthSwap.Erc20ExpectedAmounts | mm2src/coins/eth.rs:5684-5694 | Where the validator of an ERC20 payment counts the reward |
| EthSwap.ValidateErc20Args | mm2src/coins/eth.rs:5595-5636 | Accepts exactly the expected arguments other than the amount and the reward |
| EthSwap.ValidateErc20Payment | mm2src/coins/eth.rs:5580-5710 | Accepts exactly the ERC20 payments with the expected arguments, the token amount only if there is a reward |
| EthSwap.ValidatePayment | mm2src/coins/eth.rs:5437-5716 | Accepts exactly the valid payments: sender, contract, state, identifier, arguments and amounts |
| EthSwap.PlainValidIff | mm2src/coins/eth.rs:5437-5710 | A payment without a reward is valid exactly if sender, contract, state, arguments and value are these |
| EthSwap.EthRewardValidIs | mm2src/coins/eth.rs:5487-5579 | A valid ETH payment with a reward, argument by argument, with how much the reward must be |
| EthSwap.Erc20RewardValidIs | mm2src/coins/eth.rs:5580-5710 | A valid ERC20 payment with a reward, argument by argument |
| EthSwap.Erc20RewardValidAmounts | mm2src/coins/eth.rs:5652-5709 | Its amounts: how much the reward must be and in which units, and the trade amount besides |
| EthSwap.BoundaryIs | mm2src/coins/watcher_common.rs:115-117 | The lower boundary is nine tenths, rounded down |
| EthSwap.RewardPaymentValidIff | mm2src/coins/eth.rs:4310-4429 | A payment built with a reward is valid to the other side exactly when the rewards fit 64 bits, nine tenths of the expected one do not exceed the encoded one, and it is not an ETH payment to PaymentReceiver without a contract reward whose encoded reward is not 0 |
| EthSwap.PaymentReceiverRewardIsRejected | mm2src/coins/eth.rs:5561-5570 | An instance of that case, which needs a contract interface with reward functions: the payer counts a reward of 3 coins into a value of 13 coins, and the validator expects 10 |
| EthSwap.PlainPaymentValid | mm2src/coins/eth.rs:4350-4355 | Every payment built without a reward is valid to the other side |
| EthSwap.OverpayCoversPriceRise | mm2src/coins/watcher_common.rs:28-46 | Overpay factor and margin together tolerate an expected reward of up to five thirds of the payer's own |
| EthSwap.ValidPaymentTransfersTradeAmount | mm2src/coins/eth.rs:5486-5709 | In every valid ETH payment, and every valid ERC20 payment with a reward, what is transferred less the reward counted into it is exactly the trade amount |
| EthSwap.PlainErc20AmountIsNotCompared | mm2src/coins/eth.rs:5580-5709 | Without a reward the validator accepts any token amount in an otherwise valid ERC20 payment |
| EthSwap.SpendPresentsCommitment | mm2src/coins/eth.rs:4727-4848 | The spend call rebuilt from any payment presents the tuple the payment committed, with the spender as receiver and the hash of the secret, for both coin types, with and without a reward |
| EthSwap.RefundPresentsCommitment | mm2src/coins/eth.rs:4851-4973 | The same for the refund call, with the refunder as sender |
| EthSwap.SpendOkIff | mm2src/coins/eth.rs:4727-4848 | A spend call can be built exactly of a payment call of the coin, with the right reward flag, whose payment is in the sent state |
| EthSwap.RefundOkIff | mm2src/coins/eth.rs:4851-4973 | So can a refund call |
| EthSwap.SpendCallIs | mm2src/coins/eth.rs:4727-4848 | The spend call in terms of the swap, argument by argument; it goes to the contract and sends nothing along |
| EthSwap.RefundCallIs | mm2src/coins/eth.rs:4851-4973 | The refund call in the same terms |
| EthSwap.EncodeDecode | mm2src/coins/eth.rs:4746-4746 | Decoding a call gives back its arguments, for its own function only |
| EthSwap.RewardsNeedInterface | mm2src/coins/eth.rs:4736-4745 | Without reward functions in the contract interface nothing with a reward can be built |
| EthSwap.PaymentCommits | mm2src/coins/eth.rs:4310-4429 | What a payment commits to: parties, secret hash, token, amount, reward terms and lock time |
| EthSwap.SpendExecutesIff | mm2src/coins/eth.rs:4727-4848 | The spend succeeds exactly for the receiver and with a secret that opens the hash |
| EthSwap.RefundExecutesIff | mm2src/coins/eth.rs:4851-4973 | The refund succeeds exactly for the sender and from the lock time on |
| EthSwap.SecretOpensItsHash | mm2src/coins/eth.rs:4318-4322 | A secret opens its own hash in either of the two forms that swaps use |
| EthSwap.RewardFlagMustMatch | mm2src/coins/eth.rs:4740-4760 | With the wrong idea about the reward, spend and refund fail before a call is made |
| EthSwap.WatcherMakesTheSameCalls | mm2src/coins/eth.rs:4482-4725 | For the same party, a watcher builds the very call that the party builds with a reward, or both fail |
| EthSwap.WatcherNeedsReward | mm2src/coins/eth.rs:4482-4601 | A watcher that is told there is no reward never gets as far as a spend call |
| EthSwap.RewardCallsByAnyone | mm2src/coins/watcher_common.rs:85-86 | The contract does not look at the sender of a call with a reward |
| EthSwap.WatcherSpendExecutesIff | mm2src/coins/eth.rs:4482-4601 | A watcher's spend succeeds exactly when the party's own would, whoever the watcher is |
| EthSwap.WatcherRefundExecutesIff | mm2src/coins/eth.rs:4603-4725 | So does a watcher's refund |
| EthSwap.PaymentIsSettledOnce | mm2src/coins/watcher_common.rs:71-72 | Whatever calls arrive, a payment keeps its commitment and is spent or refunded at most once |
| HistorySync.QueryIs | mm2src/coins/eth.rs:3531-3573 | The two queries of a window return exactly the items that name the address in its blocks |
| HistorySync.HistoryFile.FetchBack | mm2src/coins/eth.rs:3524-3588 | The backward part, with every failing request, makes exactly the specified step |
| HistorySync.HistoryFile.FetchAhead | mm2src/coins/eth.rs:3590-3644 | So does the forward part |
| HistorySync.HistoryFile.AddToHistory | mm2src/coins/eth.rs:3645-3801 | So does adding the visited items to the history, which is written after every one |
| HistorySync.HistoryFile.Iterate | mm2src/coins/eth.rs:3470-3801 | So does one iteration |
| HistorySync.BackKeepsInv | mm2src/coins/eth.rs:3524-3588 | A backward step keeps the invariant: every block between the two ends is fetched once, and exactly the items of fetched blocks are stored |
| HistorySync.AheadKeepsInv | mm2src/coins/eth.rs:3590-3644 | So does a forward step |
| HistorySync.StepKeepsInv | mm2src/coins/eth.rs:3470-3801 | So does every iteration, and the latest block never decreases and the earliest never increases |
| HistorySync.EndsAfterStep | mm2src/coins/eth.rs:3470-3644 | The earliest and the latest block after an iteration on a stored state, for every failing request |
| HistorySync.RunKeepsInv | mm2src/coins/eth.rs:3470-3801 | So does every run of successful and failing iterations and restarts |
| HistorySync.EthFetchesEachBlockOnce | mm2src/coins/eth.rs:3524-3644 | After any run, the blocks of an ETH sync that have been fetched, but for the genesis block, are exactly earliest+1..latest, each in one window |
| HistorySync.EthStoresEveryTrace | mm2src/coins/eth.rs:3524-3644 | A finished ETH sync has stored exactly the traces of the address in blocks 1..latest |
| HistorySync.Erc20SkipsExactlyTheStarts | mm2src/coins/eth.rs:3879-4001 | After any run, an ERC20 sync has fetched exactly earliest+1..latest, each once, except for the blocks its backward steps started from |
| HistorySync.SyncStartsAt | mm2src/coins/eth.rs:3497-3588 | A sync starts with the first iteration whose backward queries succeed, from the block that is current then; before that nothing is stored |
| HistorySync.Erc20MissesIff | mm2src/coins/eth.rs:3879-4001 | A finished ERC20 sync has missed exactly the blocks a multiple of delta+1 below the block it started from |
| HistorySync.Erc20MissesBlockOne | mm2src/coins/eth.rs:3879-4001 | An instance: a sync that starts at block 1 is finished at once, and has not fetched block 1 |
| HistorySync.StartsAreMultiples | mm2src/coins/eth.rs:3880-3942 | The starts of the backward steps are those multiples |
| HistorySync.BackwardPhaseEnds | mm2src/coins/eth.rs:3524-3588 | The backward phase of a sync that starts at block s takes at most s/(delta+1) successful steps, rounded up, and ends exactly with the last of them |
| HistorySync.EverySuccessStepsBack | mm2src/coins/eth.rs:3524-3588 | Every iteration with successful backward queries steps back until block 0 is reached |
| HistorySync.SyncEndsIff | mm2src/coins/eth.rs:3524-3588 | A sync that starts at block s has reached block 0 exactly when s/(delta+1) iterations, rounded up, have had successful backward queries from the start on |
| HistorySync.ExtendIs | mm2src/coins/eth.rs:3646-3801 | Visiting items only adds items that are visited, shown and can be looked up, and none twice |
| HistorySync.ExtendAddsExactly | mm2src/coins/eth.rs:3646-3801 | If the history can be loaded and written, exactly the visited items are added that are shown and can be looked up |
| HistorySync.ExtendStopsAtFailure | mm2src/coins/eth.rs:3791-3800 | A failing write ends the visit: what was written before it stays, and nothing else is added |
| HistorySync.ExtendStopsAtLoad | mm2src/coins/eth.rs:4013-4023 | So does a failing load of the history, before the event that it is for |
| HistorySync.StepKeepsHistory | mm2src/coins/eth.rs:3646-3801 | An iteration takes nothing from the history and adds no id twice |
| HistorySync.RunKeepsHistory | mm2src/coins/eth.rs:3470-3801 | Over any run of successful and failing iterations and restarts, each id enters the history at most once, none leaves it, and each belongs to a stored item |
| HistorySync.UnfailingStepRecords | mm2src/coins/eth.rs:4003-4165 | An iteration in which nothing fails adds every call, or of the events the last one of every transaction |
| HistorySync.FinishedEthHistoryIsComplete | mm2src/coins/eth.rs:3470-3801 | After any run and one more iteration in which nothing fails, the history of a finished ETH sync shows exactly the calls of the address in blocks 1..latest |
| HistorySync.EthHistoryIsComplete | mm2src/coins/eth.rs:3470-3801 | So after enough successful iterations, and a last one in which nothing fails, the history shows exactly the calls of the address in blocks 1..current |
| HistorySync.OnBlockQuery | mm2src/coins/eth.rs:3398-3417 | Of every block in its range a query returns what names the address on the asked side, in the order of the block |
| HistorySync.RunKeepsStores | mm2src/coins/eth.rs:3879-4001 | After any run, what is stored of a block other than the genesis block is what one window fetched from it |
| HistorySync.VisitedInBlock | mm2src/coins/eth.rs:4003-4010 | If a transaction is in one block, which of its events is the last one is decided in that block |
| HistorySync.RunKeepsLast | mm2src/coins/eth.rs:4003-4165 | After any run, only the last event of a transaction that is fetched from its block is in the history |
| HistorySync.FinishedErc20HistoryIsExact | mm2src/coins/eth.rs:3823-4165 | After any run and one more iteration in which nothing fails, the history of a finished ERC20 sync shows of blocks 1..latest exactly the last fetched events of their transactions in the blocks that are not missed |
| HistorySync.Erc20HistoryIsExact | mm2src/coins/eth.rs:3823-4165 | The same for ERC20, with a condition on the answers alone |
| HistorySync.FirstOfTwoEventsIsLost | mm2src/coins/eth.rs:4003-4010 | An instance: of two events that an address receives in one transaction, the first never enters the history |
| LogSearch.FindQueryIs | mm2src/coins/eth.rs:5828-5839 | The first log about the payment in a range, or the proof that there is none |
| LogSearch.LookIs | mm2src/coins/eth.rs:5828-5881 | One chunk finds a spend or refund event of its blocks exactly when there is one, unless a request fails |
| LogSearch.SearchForSwapTxSpend | mm2src/coins/eth.rs:5818-5890 | The chunked loop ends, with the answer of the specified rounds, or with an error if the current block cannot be requested |
| LogSearch.AnswerIsUnique | mm2src/coins/eth.rs:5825-5890 | The rounds have only one answer |
| LogSearch.CheckIfMyPaymentSent | mm2src/coins/eth.rs:1660-1715 | The same for the payment event, after the contract state is checked |
| LogSearch.SearchIsRight | mm2src/coins/eth.rs:5818-5890 | Whatever the chunks, an answer that is not a failed request is None exactly if no event about the payment is in the blocks up to the current one, and otherwise comes from such an event, at most one chunk after the first |
| LogSearch.SearchFindsTheEvent | mm2src/coins/eth.rs:5818-5890 | If at most one event is about the payment, it is found exactly when it is in the searched blocks |
| LogSearch.SpendAnswerIsRight | mm2src/coins/eth.rs:5818-5890 | Every answer has its reason: Spent or Refunded with a transaction only if such an event about the payment has it, None only if there is no event, and each error only if a hash, transaction or request is missing, malformed or fails so |
| LogSearch.SentAnswerIsRight | mm2src/coins/eth.rs:1680-1715 | The same for the payment event, where a missing transaction gives None |
| LogSearch.SpendAnswerIff | mm2src/coins/eth.rs:5818-5890 | If at most one event settles the payment, the answer is the one that has a reason |
| LogSearch.SentAnswerIff | mm2src/coins/eth.rs:1680-1715 | So it is for the payment event |
| LogSearch.ChunksDoNotMatter | mm2src/coins/eth.rs:5824-5888 | Two searches with different chunk lengths, so also a single query, agree |
| LogSearch.SearchEnds | mm2src/coins/eth.rs:5824-5888 | With a chunk length of at least 1 there are at most as many rounds as blocks |
| LogSearch.SearchEndsIff | mm2src/coins/eth.rs:5824-5888 | The search ends exactly when the chunk length is not 0, no block comes after the first one, or a request fails or a wanted event is in the first block |
| LogSearch.SearchWithoutLengthIsEndless | mm2src/coins/eth.rs:5824-5888 | An instance: chunk length 0, no logs and one block to go |
| Confirmations.TransactionConfirmedAt | mm2src/coins/eth.rs:6105-6151 | Returns with the first poll that is late, fails the transaction or gives a block |
| Confirmations.WaitForBlock | mm2src/coins/eth.rs:6153-6186 | Returns with the first poll that is late or reaches the target |
| Confirmations.WaitForHeight | mm2src/coins/eth.rs:2867-2903 | The first two waits of a round, and how each of them can end |
| Confirmations.WaitForConfirmations | mm2src/coins/eth.rs:2865-2926 | The nested loops are the machine that makes one step a poll, for every sequence of answers |
| Confirmations.StepKeepsInv | mm2src/coins/eth.rs:2867-2924 | Every step keeps what each phase claims to have seen |
| Confirmations.WaitIsJustified | mm2src/coins/eth.rs:2867-2924 | For any answers, Ok is returned only if some height h > 0 was reported with a successful receipt both before and after the chain was at h + required - 1; every error is justified too |
| Confirmations.TargetDoesNotUnderflow | mm2src/coins/eth.rs:2883-2895 | The target h + required - 1 stays within 64 bits and is never below 0 |
| Confirmations.DeadlineEndsTheWait | mm2src/coins/eth.rs:6109-6116 | Once a poll is late the wait is over |
| Confirmations.LatePollTimesOut | mm2src/coins/eth.rs:6109-6116 | And it gives a timeout |
| Confirmations.FailedReceiptEndsTheWait | mm2src/coins/eth.rs:6132-6139 | The receipt of a failed transaction ends the wait with that error |
| Confirmations.HighBlockOverflows | mm2src/coins/eth.rs:2895-2895 | A block whose target would not fit 64 bits ends it |
| Confirmations.OpenPollsAreIgnored | mm2src/coins/eth.rs:6118-6146 | Failed requests, missing receipts and receipts without a block change nothing |
| Confirmations.DoubtfulBlocksStartOver | mm2src/coins/eth.rs:2883-2920 | A block of height 0, or another one than before, starts the wait over |
| Confirmations.SettledNodeConfirms | mm2src/coins/eth.rs:2867-2924 | When the node settles on a block, the wait succeeds within five polls if the chain is high enough for every block reported before |
| Confirmations.DroppedBlockHoldsTheWait | mm2src/coins/eth.rs:2895-2903 | That height is needed: the wait for a block that a reorganisation has dropped goes on as long as the chain is lower than it asks for |
| CoinsContext.Registry.Add | mm2src/coins/lp_coins.rs:4277-4296 | Adds a token and lists it if its platform is keyed; refuses a registered ticker |
| CoinsContext.Registry.AddPlatform | mm2src/coins/lp_coins.rs:4310-4356 | Activates or re-activates a platform, adds the tokens that are missing and lists all of them |
| CoinsContext.Registry.Remove | mm2src/coins/lp_coins.rs:4364-4401 | Removes a platform with its key and all listed tokens, or one token with its listing |
| CoinsContext.Registry.Register | mm2src/coins/lp_coins.rs:5327-5355 | Registers a coin, and keys it if it is a platform |
| CoinsContext.Registry.Disable | mm2src/mm2_main/src/rpc/lp_commands/legacy.rs:67-139 | Makes a platform with dependent tokens passive, removes any other coin, and refuses unknown or passive coins unless forced |
| CoinsContext.InsertMissingIs | mm2src/coins/lp_coins.rs:4339-4344 | Adding missing tokens keeps registered coins as they are |
| CoinsContext.AddFinds | mm2src/coins/lp_coins.rs:4277-4296 | A token that is added is found, and a taken ticker is refused |
| CoinsContext.RegisterFinds | mm2src/coins/lp_coins.rs:5327-5355 | So is a coin that is registered |
| CoinsContext.ActivatesIff | mm2src/coins/lp_coins.rs:4321-4331 | A platform is activated exactly if it is not found; otherwise nothing changes |
| CoinsContext.ActivatedPlatformIsFound | mm2src/coins/lp_coins.rs:4321-4331 | An activated platform is found |
| CoinsContext.ActivatedTokenIsFound | mm2src/coins/lp_coins.rs:4339-4344 | So are its tokens; those that were registered stay as they were |
| CoinsContext.ActivationLeavesOthers | mm2src/coins/lp_coins.rs:4310-4356 | The NFT token is replaced, and every other ticker is found as before |
| CoinsContext.RemovalLeavesOthers | mm2src/coins/lp_coins.rs:4364-4401 | Coins that stay are not changed by a removal |
| CoinsContext.DisableIs | mm2src/mm2_main/src/rpc/lp_commands/legacy.rs:67-139 | What disabling does in every case, and exactly which coins are left |
| CoinsContext.HiddenStep | mm2src/coins/lp_coins.rs:4277-4401 | A registered coin becomes hidden only by being made passive, and stays so until it is activated or removed |
| CoinsContext.HiddenIff | mm2src/coins/lp_coins.rs:3990-4022 | After any interleaving from an empty registry, a registered coin is hidden exactly if it was made passive and not activated or removed since |
| CoinsContext.AddPlatformKeepsTokens | mm2src/coins/lp_coins.rs:4310-4356 | After activation, the tokens that are listed and the tokens that are registered are the same |
| CoinsContext.RemoveKeepsTokens | mm2src/coins/lp_coins.rs:4364-4401 | So they are after removal |
| CoinsContext.StepKeepsTokens | mm2src/coins/lp_coins.rs:4277-4401 | So they are after every operation: a listed token is registered and belongs to its platform, and a registered token is listed |
| CoinsContext.StepKeepsInv | mm2src/coins/lp_coins.rs:4277-4401 | Every operation keeps the whole invariant: besides, a platform key is a registered coin |
| CoinsContext.RunKeepsInv | mm2src/coins/lp_coins.rs:4277-4401 | So does every sequence of operations |
| CoinsContext.RemovingPlatformRemovesItsTokens | mm2src/coins/lp_coins.rs:4364-4401 | In every reachable state, removing a platform removes exactly the coins that depend on it and itself |
| CoinsContext.DependentTokensAre | mm2src/coins/lp_coins.rs:4359-4362 | In every reachable state, the dependent tokens of a platform are exactly the registered coins configured for it |
| CoinsContext.AddKeepsInvIff | mm2src/coins/lp_coins.rs:4277-4296 | Adding a token keeps the invariant exactly when its platform was activated before |
| CoinsContext.RegisterKeepsInvIff | mm2src/coins/lp_coins.rs:5339-5352 | Plain registration keeps it exactly for platform coins |
| CoinsContext.TokenBeforePlatformSurvives | mm2src/coins/lp_coins.rs:4277-4296 | A token added before its platform stays registered when the platform is removed |
| CoinsContext.PassiveThenActive | mm2src/mm2_main/src/rpc/lp_commands/legacy.rs:131-134 | Making a platform passive hides only it, and activating it again restores the registry exactly |
| CoinsContext.RegisterIsTwoSteps | mm2src/coins/lp_coins.rs:5339-5352 | Registration is two steps, each under its own lock |
| CoinsContext.OrphanStep | mm2src/coins/lp_coins.rs:4277-4401 | A platform becomes a key without a coin exactly when a registration finishes after its coin was removed, and stays one until it is registered or removed again |
| CoinsContext.RaceKeepsTokens | mm2src/coins/lp_coins.rs:5339-5352 | For every interleaving of operations with the two steps of any number of registrations, listed and registered tokens stay the same |
| CoinsContext.RacingRemovalRemovesItsTokens | mm2src/coins/lp_coins.rs:4364-4401 | So even then, removing a platform removes exactly the coins that depend on it and itself |
| CoinsContext.RaceKeepsInvIff | mm2src/coins/lp_coins.rs:5339-5352 | After any interleaving, from any consistent registry, the registry is consistent exactly if no registration finished after its coin was removed without the coin being registered or removed again |
| CoinsContext.RemovedBetweenSteps | mm2src/coins/lp_coins.rs:5339-5352 | An instance: a platform that is removed between the two steps leaves a key without a coin |
| CoinsContext.TokenBetweenStepsSurvives | mm2src/coins/lp_coins.rs:5339-5352 | A token added between the two steps is not listed and survives the removal of its platform |
| JsonRpcBatch.ProcessTransportBatchResult | mm2src/common/jsonrpc_client.rs:419-464 | The map-and-remove loop returns exactly the specified results or error |
| JsonRpcBatch.SendBatch | mm2src/common/jsonrpc_client.rs:339-376 | An empty batch succeeds at once, and a batch with a repeated id is never sent |
| JsonRpcBatch.ByIdsAt | mm2src/common/jsonrpc_client.rs:437-438 | Of several responses with one id the last one counts |
| JsonRpcBatch.CollectIs | mm2src/common/jsonrpc_client.rs:450-463 | Either the result of every id in order, or the error of the first id that fails |
| JsonRpcBatch.BatchSucceedsIff | mm2src/common/jsonrpc_client.rs:419-464 | A batch with unique ids succeeds exactly when the ids of the responses are the requested ones and all responses decode |
| JsonRpcBatch.BatchErrorIs | mm2src/common/jsonrpc_client.rs:424-463 | Which error a batch gives: of the transport, of the kind or the number of responses, or of the first id that fails |
| JsonRpcBatch.ResultsAreInOrder | mm2src/common/jsonrpc_client.rs:450-463 | Result i is decoded from the last response with the id of request i, which has no error |
| JsonRpcBatch.ResponseOrderDoesNotMatter | mm2src/common/jsonrpc_client.rs:419-464 | Any order of responses with unique ids gives the same results or the same error (JSON-RPC 2.0 Specification, section 6) |
| JsonRpcBatch.BatchId | mm2src/common/jsonrpc_client.rs:149-154 | The batch id is the greatest id, or the greatest 64-bit number for an empty batch |
| JsonRpcBatch.BatchIdsAgree | mm2src/common/jsonrpc_client.rs:228-233 | Requests and responses with the same ids have the same batch id |
| JsonRpcBatch.SuccessfulBatchIsMatched | mm2src/common/jsonrpc_client.rs:228-233 | So has every batch that succeeds |
| DexFee.OpReturnSplit | mm2src/coins/lp_coins.rs:4133-4154 | With OP_RETURN, a quarter is burnt but no more than leaves the smallest amount |
| DexFee.RateIs | mm2src/coins/lp_coins.rs:4112-4128 | Two percent, or one percent if either coin is GLEEC |
| DexFee.BurnAccountSplit | mm2src/coins/lp_coins.rs:4160-4186 | With the burn account, a quarter is burnt exactly when it is no dust; the second branch that burns is unreachable |
| DexFee.FeeIsConserved | mm2src/coins/lp_coins.rs:4091-4109 | Fee and burn add up to the rate of the trade, or to the smallest amount if that is more |
| DexFee.FeeIsSound | mm2src/coins/lp_coins.rs:4091-4186 | The fee and a burn to the burn account are never dust, a burn is positive and at most a quarter, and goes where the coin says |
| DexFee.FeeIsMonotone | mm2src/coins/lp_coins.rs:4091-4216 | A larger trade costs no less in total and burns no less |
| DexFee.KeptFeeDropsIff | mm2src/coins/lp_coins.rs:4133-4186 | The kept part alone can drop for a larger trade, exactly where the burning to the burn account sets in |
| DexFee.NoFeeIff | mm2src/coins/lp_coins.rs:4078-4088 | There is no fee exactly for the burn key of a coin that is not a privacy coin |
| DexFee.DiscountHalvesTotal | mm2src/coins/lp_coins.rs:4112-4128 | The discount ticker halves the total, down to the smallest amount |
| Eip55.IsUpper | mm2src/coins/eth.rs:7244-7244 | The mask the program tests is bit 4i of the hash (EIP-55, "Specification") |
| Eip55.ChecksumAddress | mm2src/coins/eth.rs:7226-7256 | The loop computes the checksum form, and fails exactly for a non-digit from position 64 on |
| Eip55.LettersFollowTheHash | mm2src/coins/eth.rs:7244-7248 | A letter is upper case exactly if bit 4i of the hash of the lower-cased address is 1 |
| Eip55.BitsAre | mm2src/coins/eth.rs:7244-7244 | The bits of a hash, the most significant one of a byte first |
| Eip55.FromHex | mm2src/coins/eth.rs:6939-6939 | Parses strings of 40 characters exactly if they are hexadecimal digits, of either case, to the bytes they denote; strings of other lengths as the parameter says |
| Eip55.NibblesAre | mm2src/coins/eth.rs:6939-6939 | The hexadecimal digits and their values |
| Eip55.BytesAre | mm2src/coins/eth.rs:6939-6939 | A byte is two digits, the high one first |
| Eip55.AddrFromStr | mm2src/coins/eth.rs:6934-6940 | Exactly the prefixed strings that parse are addresses; which error otherwise |
| Eip55.ValidAddrFromStr | mm2src/coins/eth.rs:6926-6932 | Accepts exactly the valid spellings, with their address; which error otherwise, and where the program fails |
| Eip55.ChecksumIsUnique | mm2src/coins/eth.rs:7226-7256 | The checksum form depends only on the lower-cased address without its prefix |
| Eip55.ChecksumKeepsBody | mm2src/coins/eth.rs:7239-7253 | It is a spelling of the same address |
| Eip55.ChecksumIsIdempotent | mm2src/coins/eth.rs:7226-7265 | It is its own checksum form |
| Eip55.DenotesIff | mm2src/coins/eth.rs:6934-6940 | Two spellings denote the same address exactly when they differ at most in case |
| Eip55.OneValidSpelling | mm2src/coins/eth.rs:6926-6940 | Every 20-byte address has exactly one accepted string of 42 characters, which parses back to it, whatever the parser makes of other lengths |
| TxHistory.TransactionsAreOrdered | mm2src/coins/lp_coins.rs:6165-6179 | The comparison is a total order: equal only in block and id, antisymmetric, transitive |
| TxHistory.NewestFirst | mm2src/coins/lp_coins.rs:6165-6179 | Unconfirmed transactions come first, then higher blocks, and in a block lower ids |
| TxHistory.FirstDifferenceDecides | mm2src/coins/lp_coins.rs:6171-6171 | Ids are compared by their first different byte, and a prefix comes first |
| TxHistory.SortingIsUnique | mm2src/coins/lp_coins.rs:6125-6125 | The unstable sort has only one possible result |
| TxHistory.ConfirmationsAscendIff | mm2src/coins/lp_coins.rs:5731-5737 | For different blocks, the order is the only one in which confirmations ascend for every current block |
| TxHistory.ConfirmationsCount | mm2src/coins/lp_coins.rs:5731-5737 | One confirmation in its own block, one more with every block after it, and none before or without a block |
| TxHistory.SortedConfirmationsAscend | mm2src/coins/lp_coins.rs:5726-5740 | The confirmations shown for a stored history never descend |
| TxHistory.NumberedPagesPartition | mm2src/coins/lp_coins.rs:5711-5740 | The numbered pages, as many as the response announces, show the history once and in order |
| TxHistory.PageByIdIsNextPage | mm2src/coins/lp_coins.rs:5712-5726 | With unique ids, the page after the last id of a page is the next page |
| TxHistory.ResponseIs | mm2src/coins/lp_coins.rs:5709-5755 | Which transactions a response has, with which confirmations, and what it says about them |
| TxHistory.FollowingShowsAll | mm2src/coins/lp_coins.rs:5712-5740 | With unique ids and a positive limit, the first page and the pages that follow by the last ids are the numbered pages, and show the whole history once and in order |
| Paging.WalkIsPages | mm2src/coins/lp_coins.rs:5712-5726 | If every page by id starts behind its id, following the last ids from the first page gives the numbered pages and the whole list |
| TxHistory.PageByIdGoesOnIff | mm2src/coins/lp_coins.rs:5712-5719 | A page by id continues after the transaction exactly when no earlier one has its id |
| TxHistory.UnknownIdFails | mm2src/coins/lp_coins.rs:5712-5719 | A page by id fails exactly when no transaction has the id |
| Paging.TotalPagesIs | mm2src/common/common.rs:1082-1092 | The number of pages is the least that covers all entries |
| Paging.PositionIs | mm2src/coins/lp_coins.rs:5714-5717 | The first position of an id |
| OpenChannels.SortIsStable | mm2src/coins/lightning.rs:387-392 | Channels of the same key keep their order |
| OpenChannels.ListedIs | mm2src/coins/lightning.rs:387-403 | Exactly the channels that pass the filter are listed, as often as they are open, newest first |
| OpenChannels.PageFailsIff | mm2src/coins/lightning.rs:405-420 | A page slices out of range exactly by a number whose offset lies behind the end; never by uuid |
| OpenChannels.PageIs | mm2src/coins/lightning.rs:405-426 | Which channels a page has, and what it says about them |
| OpenChannels.NewestFirst | mm2src/coins/lightning.rs:388-392 | Channels without a short id come first, then those with higher ids |
| OpenChannels.PageBehindTheEndFails | mm2src/coins/lightning.rs:405-420 | An instance: with one channel and pages of one, page 3 slices out of range |
| OpenChannels.FollowingListsAll | mm2src/coins/lightning.rs:405-420 | For different uuids and a positive limit, page 1 and the pages that follow by uuid are the numbered pages and list everything exactly once |
| OpenChannels.PageByUuidIsNextPage | mm2src/coins/lightning.rs:405-420 | A page by the last uuid of a page is the next numbered page, or empty where that one slices out of range |
| OpenChannels.UnknownUuidStartsOver | mm2src/coins/lightning.rs:407-411 | A uuid that is not listed gives the first page |

## Left out

- Transport, timers, logging, metrics, file and database storage: oracles or abstract records.
- Keccak, SHA-256, RIPEMD-160, signing and key derivation: parameters, or an injective naming of addresses.
- The byte encoding of contract calls and transactions: a call is its function and typed tokens, and fixed-size byte
  tokens have exactly their declared length, so a secret has 32 bytes.
- The swap contract: its source is not part of this model; its states and the commitment follow
  `mm2src/coins/watcher_common.rs:67-75` and the arguments of the calls. Token transfers and the zero address are not modelled.
- The allowance and approval that precede an ERC20 payment, gas limits and fees.
- EthSwap.OverpayCoversPriceRise: over exact rationals, because the rounding of 64-bit floats in the reward boundary is
  idealised; the boundary is nine tenths rounded down.
- Where the program would panic on a reward above 64 bits, the model returns an error; which error a rejected payment
  gets is not stated.
- Exact-amount rewards beyond the branch that compares them, `taker_validates_payment_spend_or_refund`, swaps v2, NFT,
  TRON, Trezor, MetaMask and WalletConnect paths.
- NonceProtocol.NoncesIncrease: under four assumptions of `Reliable`: all nodes answer in a round from which a nonce is
  taken, no task is dropped while it waits, a failed or dropped send is never accepted, and the nonces that a node reports
  never decrease. Each is needed (`UnansweredRoundRepeatsNonce`, `DroppedTaskRepeatsNonce`, `LostSendRepeatsNonce`,
  `DecreasedViewRepeatsNonce`). One address; the map of locks and the other ways of signing are not modelled.
- EthSwap.PaymentIsSettledOnce: a statement about the contract as the model has it, on which the uniqueness of events in
  `LogSearch` rests.
- HistorySync.HistoryFile.AddToHistory: the fields of history entries, the order in which the history file is sorted,
  logs that a node marks as removed, and files that do not parse are not modelled. The order in which items are visited
  is a parameter that visits every stored trace, or the last stored event of every transaction.
- LogSearch.SearchEndsIff: for a node that answers the same request in the same way; overflow of 64-bit block numbers
  and event data shorter than an identifier are not modelled.
- CoinsContext.RaceKeepsInvIff: every operation but registration is one step, and a token is added only when its platform
  is keyed; aborting the futures of a removed coin, orders and swaps are not modelled.
- HdWallet.HdWallet.EnableNewAccount: no other call creates the same account between the two looks at the accounts.
- HdWallet.HdWallet.EnableHdWallet: the hardware-wallet steps at the end are not modelled.
- Sizes of 32-bit address ids and of page arithmetic are unbounded.
- Eip55.FromHex: the hexadecimal parser is an external crate; what it makes of strings of other lengths than 40 is a
  parameter. Lower-casing of characters outside ASCII is not modelled.
- OpenChannels.ListedIs: the filter is a predicate; its fifteen field comparisons would only add easy members. The sort
  of the standard library is modelled by the stable sort it computes.
- JsonRpcBatch.SendBatch: text of error messages and the cloned request inside an error.
- Error conversions, HTTP status codes, price fetching, password policy and build scripts.
