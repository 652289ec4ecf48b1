# EFT bank core, modelled in Dafny

`Bank` runs a primary bitcoin wallet and a fee wallet on the test network.
Three small pieces of it hold real logic, and this project models them and
proves their properties:

- **Recent-transaction window** (`RecentTransactions.dfy`). A class
  `RecentWindow` holds the static `recentTransactions` list as a `seq` of
  `TxRecord(hash, updateTime)`. `OnCoinsReceived(now, tx)` is the
  coins-received listener. `Prune(now)` is the `removeIf` of the poll loop.
  `Tick(now, …)` is one pass of the `while (true)` loop. The
  function `Pruned` states what a prune leaves, and the lemmas beside it prove
  retention, order, idempotence and the boundaries.
- **Fee-transfer gate** (`FeeTransfer.dfy`). This models
  `withdrawBitcoinToFeeWallet`. The class `WalletEngine` is the primary wallet
  as bitcoinj sees it: a balance and a log of the engine actions taken
  (built, completed, committed). `Withdraw` states the call's effect. The
  method `WithdrawBitcoinToFeeWallet` performs the same steps through the
  engine's methods and is proved equal to `Withdraw`.
- **Faucet client** (`FaucetService.dfy`). This models
  `BitcoinFaucetService.deposit`. `DepositUrl` builds the query URL.
  `LongToString` renders the amount the way Java's string concatenation
  renders a `long`. `ParseDepositUrl` reads a URL back, and the round trip is
  proved. `Deposit` classifies the single response: 200 is success, any other
  code is a failure that returns normally, and an `IOException` is rethrown.

`Bitcoin.dfy` holds the value types (an address as its text, a Java `long`);
`Wrappers.dfy` holds `Option`.

Inputs that come from outside the core are parameters:
- the clock (`now`);
- the balance, chain height and peer count read from bitcoinj;
- the fee wallet's current receive address;
- bitcoinj's `Transaction.REFERENCE_DEFAULT_MIN_TX_FEE` (`minTxFee`; its value depends on the bitcoinj version, which the source does not pin);
- whether `completeTx` can fund the request, and the fee it charges (`Completion`);
- the faucet's answer (`Response`).

Two behaviours of the code to keep in mind:
- A transaction already stale on arrival is never appended (`Bank.java:53-56`). It is not recorded and then pruned.
- A non-200 status is only printed, and `deposit` returns normally (`BitcoinFaucetService.java:24-26`). Only an `IOException` reaches the caller.

## Model

| member | source | states |
|---|---|---|
| RecentTransactions.IsRecent | Bank.java:53 | the one freshness test of the listener and of the prune: age `now - updateTime` at most `RECENT_PERIOD`; its boundaries are in `RetentionBoundary` |
| RecentTransactions.Pruned | Bank.java:73-74 | what a prune at `now` keeps: no more records than before, and every one is recent |
| RecentTransactions.PrunedAppend | Bank.java:74 | the staleness test is per record: pruning a concatenation prunes each part |
| RecentTransactions.PrunedMembership | Bank.java:74 | a record is in the pruned window iff it was in the window and `now - updateTime <= RECENT_PERIOD` |
| RecentTransactions.PrunedCount | Bank.java:74 | each recent record is kept as often as it occurred, and no stale record remains |
| RecentTransactions.PrunedRemovesOnlyStale | Bank.java:74 | every record a prune removes had an age greater than `RECENT_PERIOD` |
| RecentTransactions.PrunedIsSubsequence | Bank.java:74 | the survivors keep their original relative order, so the result is a subsequence of the input |
| RecentTransactions.PrunedAllRecent | Bank.java:74 | a window whose records are all recent is unchanged by a prune |
| RecentTransactions.PrunedLater | Bank.java:67-77 | pruning at one tick and then at a later tick equals pruning once at the later tick |
| RecentTransactions.PrunedIdempotent | Bank.java:74 | pruning twice at the same time with no insertion in between equals pruning once |
| RecentTransactions.ReceivedSurvivesPrune | Bank.java:53-54 | a transaction the listener admits at `now` is still there, last, after a prune at `now` |
| RecentTransactions.RetentionBoundary | Bank.java:28 | `RECENT_PERIOD` is 86,400,000 ms; an age of exactly the period is kept, one ms more is not; a future timestamp is kept |
| RecentTransactions.RecentWindow.constructor | Bank.java:29 | the window starts empty |
| RecentTransactions.RecentWindow.OnCoinsReceived | Bank.java:50-57 | the transaction is appended after all existing entries iff it is recent, and the window is otherwise untouched |
| RecentTransactions.RecentWindow.Prune | Bank.java:73-74 | the window becomes exactly `Pruned` of the old window, and every remaining record is recent |
| RecentTransactions.RecentWindow.Tick | Bank.java:67-77 | one loop pass reports balance, height and peers as read, and prunes the window at `now` |
| FeeTransfer.Withdraw | Bank.java:152-173 | below `FEE_AMOUNT + minTxFee` nothing is built, completed or committed, the outcome is `BalanceTooLow` and the balance stays; otherwise exactly one request of `FEE_AMOUNT` to the fee address is built, then completed and committed once each if the engine funds it, with `CompletionFailed` and nothing committed if it does not; only a commit changes the balance, by the amount plus the fee charged |
| FeeTransfer.WithdrawKeepsBalanceNonNegative | Bank.java:164-168 | when the engine funds a request only from what the wallet holds, a call never drives the balance below zero |
| FeeTransfer.InsufficientRepeatedIsNoOp | Bank.java:157-161 | repeated calls on an insufficient balance have no cumulative effect |
| FeeTransfer.WalletEngine.GetBalance | Bank.java:158 | the balance read is the wallet's balance |
| FeeTransfer.WalletEngine.SendRequestTo | Bank.java:164-165 | the request pays the given amount to the given address and is logged as built |
| FeeTransfer.WalletEngine.CompleteTx | Bank.java:167 | completion succeeds exactly when the engine can fund the request, is logged only then, and moves no money |
| FeeTransfer.WalletEngine.CommitTx | Bank.java:168 | the commit is logged and the amount plus the fee leave the wallet |
| FeeTransfer.WithdrawBitcoinToFeeWallet | Bank.java:152-173 | the outcome, the engine actions appended and the new balance are those `Withdraw` gives for the balance at entry |
| FaucetService.NatToDecimal | BitcoinFaucetService.java:12 | the decimal text of a non-negative number is a non-empty digit string without a leading zero, and it is `"0"` only for 0 |
| FaucetService.DecimalRoundTrip | BitcoinFaucetService.java:12 | the decimal text of `n` denotes `n` |
| FaucetService.LongRoundTrip | BitcoinFaucetService.java:12 | the text of any Java `long` amount parses back to that amount |
| FaucetService.LongToString | BitcoinFaucetService.java:12 | the amount text has a minus sign exactly for a negative amount, then digits with no leading zero; `LongRoundTrip` reads it back |
| FaucetService.DepositUrl | BitcoinFaucetService.java:8-12 | the URL is the faucet endpoint, `?address=`, the address, `&amount=` and the decimal amount, in that order and with nothing in between |
| FaucetService.DepositUrlRoundTrip | BitcoinFaucetService.java:12 | for an address without `&`, the text between `?address=` and `&amount=` is the address and the rest parses back to the amount |
| FaucetService.Deposit | BitcoinFaucetService.java:10-33 | exactly one request, a GET of `DepositUrl(address, amount)`; 200 gives success; any other code gives a failure that returns normally and carries the code; an `IOException` is rethrown with its message; the connection is disconnected only on the normal path |

## Left out

- The bitcoinj engine: `WalletAppKit` startup, the peer group, the bloom filter rate (a float), chain height and peer count reads, transaction building and signing. Their results are parameters.
- Wallet file handling in `checkOrCreateWallet` and `checkOrCreateFeeWallet` (`Bank.java:81-126`), which is persistence only. On a missing file the primary wallet is saved and then an exception is thrown; the fee wallet returns `null` on error.
- A `null` fee wallet reaching `withdrawBitcoinToFeeWallet`: the model takes the fee wallet's receive address as given.
- `printWalletAndConnectionInfo`, `depositBitcoinFromFaucet` and `main`'s wiring: they glue the core together and print. `withdrawBitcoinToFeeWallet` is never called from `main`.
- All console and log output: `System.out`/`System.err`, the logback level, and `Coin.toFriendlyString`. Printed values appear only as results (`tracked`, `Status`, the outcomes).
- The 30-second sleep and the unbounded loop: one pass is `Tick`, with `now` as a parameter.
- Concurrency: the listener thread and the poll loop share an unsynchronised `ArrayList`. Each operation is modelled as one atomic step.
- RecentTransactions.RecentWindow.Prune: each record keeps the update time it had on arrival. The source keeps a reference to the live `Transaction` and re-reads `getUpdateTime()` at prune time (`Bank.java:54`, `:74`), so a later change to that time by the engine is not seen by the model.
- FaucetService.Deposit: every `IOException` is modelled after the one GET is issued. An `IOException` from `new URL` or `openConnection` (`BitcoinFaucetService.java:16-17`) happens before any request is sent.
- The HTTP connection itself: opening, reading and disconnecting are I/O. The response is an input.
- RecentTransactions.IsRecent: Java's `long` subtraction `currentTime - transactionTime` is modelled on unbounded integers. It can only wrap for timestamps about 292 million years apart.
- FeeTransfer.Withdraw: `Coin.add` overflow checking is not modelled. With `FEE_AMOUNT` fixed at 10000 and a realistic minimum fee it cannot trigger. The balance is a plain integer.
- FeeTransfer.Withdraw: only `InsufficientMoneyException` is caught (`Bank.java:170`). An unchecked exception from `completeTx` or `commitTx` (`Bank.java:167-168`) would leave the method after the request is built. The model has no such path.
- FeeTransfer.Withdraw: the balance debit on commit (`FEE_AMOUNT` plus the fee charged) abstracts bitcoinj's bookkeeping of pending and available balance.
- FaucetService.ParseLong: this is the reference reader for the round trip. It accepts an optional `-` and decimal digits, and does not reproduce every input `Long.parseLong` accepts, such as a leading `+`.
- `BankTest.java`: a demonstration that calls the live faucet and has no assertions.
