# Electron Cash SLP wallet core, modelled in Dafny

This project models the bookkeeping core of the Electron Cash SLP wallet (`lib/wallet.py`).
It has five parts:

- **Ledger.** `add_transaction` and `remove_transaction` maintain three tables:
  - `txi`: per transaction and address, the coins it spends;
  - `txo`: per transaction and address, the coins it pays;
  - `pruned_txo`: spends that arrived before the coin they spend.

  They also keep the per-address balance cache. `get_addr_io`, `get_tx_delta` and
  `get_wallet_delta` read these tables.
- **Balances.** `get_addr_balance` and its cache, `get_balance`, `get_frozen_balance`.
- **Coins.** `get_addr_utxo`, `get_utxos`, address and coin freezing.
- **Tokens (SLP).** These cover:
  - `handleSlpTransaction`, which tags owned outputs with token amounts;
  - the gate in `slp_check_validation` that decides whether a validation job is submitted;
  - the token-coin views `get_slp_addr_utxo` and `get_slp_utxos`;
  - the token balance and the spend check in `check_sufficient_slp_balance`;
  - the token-id check in `add_token_type`.
- **Confirmation.** Verified and unverified heights, `get_tx_height`, `get_txpos`, `get_tx_status`.

`receive_history_callback` ties them together: the server reports a new history for an address.

## How the model is built

- **Python dictionaries.** Dictionaries whose iteration order matters are `ODict` values: a key
  order plus a map. `dict.pop(k)` on a missing key raises `KeyError`; the model returns
  `Failure("KeyError")`.
- **Exceptions.** An exception that escapes after some state has already changed is returned
  together with that changed state. Two cases:
  - the frozen-coin set that `get_addr_utxo` edits before it raises;
  - the ledger that `add_transaction` has updated before `handleSlpTransaction` raises.
- **Address ownership.** It is a set `mine` of owned addresses.
- **Token-message parser.** It is not modelled. Its result is part of the transaction
  (`SlpParse`).
- **Chain tip and maturity.** The local height and the coinbase maturity are a `Chain` parameter.
- **Unknown iteration order.** Where the code's result depends on iteration order the model
  cannot see, the model picks with a ghost choice (`:|`). These places do this:
  - `Ledger.FindInDict` (and `Ledger.FindInTxo`, which calls it): `find_in_self_txo` scanning
    `txo` for an input whose address is unknown;
  - `Ledger.PickSpender`: `remove_transaction` re-parking a spend of an output of `h`, where the
    last spender met in the iteration over `txi` wins;
  - `Seqs.Enumerate`: the order in which a Python set of addresses is visited. `get_balance`
    and `get_frozen_balance` visit `set(domain) - frozen_addresses` or `frozen_addresses`, and
    `get_utxos` and `get_slp_utxos` visit the non-frozen addresses of their domain.

  The functions that depend on these choices are ghost.
- **Balance buckets.** They follow the code. A coin goes into the bucket of its own height:
  immature for a young coinbase coin, confirmed at a positive height, unconfirmed otherwise.
  A spent coin is taken off the bucket of its spend height, and immature is never reduced.
  So a confirmed coin of 100000 spent in the mempool with 40000 of change back to the same
  address gives (100000, -60000, 0), not (0, 40000, 0) (Balance.MempoolSpendOfConfirmedCoin).
- **Outpoints.** Strings of the form `"hash:n"` are modelled as `Outpoint(hash, n)` values.

## Model

| member | source | states |
|---|---|---|
| Ledger.AppendTo | lib/wallet.py:1364-1371 | the address's list gains the entry at its end; the other addresses' lists are unchanged |
| Ledger.AddToTxi | lib/wallet.py:1364-1371 | `txi[t][a]` gains the spend at its end, a missing dictionary or list being created; every other entry is unchanged |
| Ledger.FindN | lib/wallet.py:1378-1382 | finds a value iff some entry of the list has output index `n`, and the value found belongs to such an entry |
| Ledger.FindInDict | lib/wallet.py:1372-1383 | finds an (address, value) pair iff some address's list holds output `n`, and the pair is one of them |
| Ledger.TxoOf | lib/wallet.py:1458-1478 | the new `txo[h]` holds exactly the owned outputs, each under its own address with its index, value and coinbase flag, and never an empty list |
| Ledger.ResolveFromMeaning | lib/wallet.py:1459-1475 | placeholder resolution removes exactly this transaction's outputs from `pruned_txo`, leaves `txo` alone, and drops the cache entry of every owned output address |
| Ledger.AddTransaction | lib/wallet.py:1355-1359 | a transaction without inputs leaves the ledger unchanged |
| Ledger.AddTransactionFlags | lib/wallet.py:1393-1478 | as written, after the inputs phase add unflags every spender that a placeholder on one of the new outputs names, even when another placeholder still names it, and no other flag changes |
| Ledger.ResolveFromFlags | lib/wallet.py:1393-1475 | resolving outputs `k..` leaves `pruned_txo_values` minus exactly the non-empty spenders named by the placeholders popped |
| Ledger.AddTransactionIntendedAgrees | lib/wallet.py:1389-1478 | add with the intended pop differs from add as written only in `pruned_txo_values`, and as written only ever holds fewer flags |
| Ledger.AddTransactionEffects | lib/wallet.py:1355-1488 | after add: `txo[h]` is exactly the owned outputs (absent when none); other transactions' `txo` entries are untouched; none of `h`'s outputs stay in `pruned_txo`; every owned output address is out of the cache; the cache only shrinks |
| Ledger.AddTransactionKeepsNoEmptyDicts | lib/wallet.py:1453-1478 | if `txi` and `txo` hold no empty per-transaction dictionary before add, none is left after it; the invariant is proved for add only, since remove can break it (Ledger.RemoveLeavesEmptyDict) |
| Ledger.DropSpendsOf | lib/wallet.py:1655-1663 | the list keeps exactly the spends of coins not created by `h` |
| Ledger.DropDictSpendsOf | lib/wallet.py:1654-1667 | the dictionary keeps, per address, exactly the spends of coins not created by `h`, and addresses left with nothing are dropped |
| Ledger.PickSpender | lib/wallet.py:1654-1664 | the chosen transaction really spends the outpoint |
| Ledger.MovedKeyHasSpender | lib/wallet.py:1654-1664 | every outpoint moved to `pruned_txo` has a spender in `txi` |
| Ledger.RemoveTransaction | lib/wallet.py:1642-1681 | after remove: `h` is gone from `txi` and `txo`, and the other `txo` entries are untouched; every spend of an output of `h` has moved into `pruned_txo` under a transaction that spends it, and its address is out of the cache; the remaining `txi` lists keep exactly the other spends; the cache only shrinks |
| Ledger.RemoveLeavesEmptyDict | lib/wallet.py:1654-1667 | removing the only transaction a spender spent from leaves the spender's `txi` entry as an empty dictionary: remove does not keep the no-empty-dictionaries invariant |
| Ledger.PopPlaceholderAsWritten | lib/wallet.py:1393-1397 | the placeholder leaves `pruned_txo` and nothing else changes but the flags; a non-empty spender leaves `pruned_txo_values` whatever other placeholders name it |
| Ledger.PopPlaceholder | lib/wallet.py:1393-1397 | with the intended bookkeeping, the placeholder leaves `pruned_txo` and its spender leaves `pruned_txo_values` only when no other placeholder names it, so every spender a placeholder names stays flagged (see Findings below) |
| Ledger.PopAsWrittenLosesPendingFlag | lib/wallet.py:1393-1397 | as written, popping one of two placeholders that name the same spender unflags the spender while the other placeholder remains; the intended pop keeps it flagged |
| Ledger.AddTransactionIntendedKeepsFlagged | lib/wallet.py:1393-1397 | with the intended pop (see Findings below), add keeps every spender that a placeholder names in `pruned_txo_values` |
| Ledger.RemoveTransactionKeepsFlagged | lib/wallet.py:1642-1681 | remove keeps every spender that a placeholder names in `pruned_txo_values` |
| Reconcile.ArrivalOrderIrrelevant | lib/wallet.py:1404-1478 | for a spender of one owned output of the funding transaction, both arrival orders give the same ledger, the spend ends up in `txi` and nothing is left in `pruned_txo` |
| Arrival.ArrivalOrderUpToSpendOrder | lib/wallet.py:1389-1478 | a funding transaction and a spender of its owned outputs, added in either order, give ledgers with the same `txo`, `pruned_txo` and cache, the same flag for every transaction but the spender, and the same spends of every other transaction; under each address of the spender they hold the same spends up to order; no placeholder is left on the funding transaction's outputs. Funding first, the spender is flagged iff a placeholder names it; spending first, it is flagged iff that holds and none of its inputs waited on the funding transaction |
| Arrival.FoldParksOnFunding | lib/wallet.py:1404-1445 | while a transaction is unknown, the inputs phase parks a spend on one of its outputs exactly for the inputs with an owned or unparsed address that spend it |
| Arrival.FlagDependsOnArrival | lib/wallet.py:1389-1478 | for a spender of `f:0` and of an unknown `g:0`, spending first leaves `g:0` naming the spender while the spender is unflagged; funding first leaves it flagged |
| Arrival.SpendOrderDependsOnArrival | lib/wallet.py:1404-1478 | for a spender of two coins, one from the funding transaction, the two arrival orders give different ledgers, so agreement up to the order of spends is as much as holds |
| Arrival.OrderFundFirst | lib/wallet.py:1404-1445 | funding first, the spender's coins are filed in input order |
| Arrival.OrderSpendFirst | lib/wallet.py:1404-1475 | spend first, the coin already stored is filed at once and the coin of the funding transaction only when that transaction arrives, after it |
| Reconcile.AddTransactionIdempotent | lib/wallet.py:1355-1488 | adding a transaction a second time leaves the ledger of the first addition, when it does not spend its own outputs and no placeholder claims it spends them |
| Cache.AddTransactionKeepsOthers | lib/wallet.py:1355-1488 | an address still cached after add reads the same lists as before at every other transaction and nothing at `h` |
| Cache.AddTransactionKeepsCacheSound | lib/wallet.py:1355-1488 | if every cached balance equals a fresh computation before add, it still does after, provided no cached address whose history lists `h` holds entries at `h` yet |
| Cache.RemoveTransactionKeepsOthers | lib/wallet.py:1642-1681 | an address still cached after remove reads the same lists as before at every other transaction and received nothing from `h` |
| Cache.RemoveTransactionKeepsCacheSound | lib/wallet.py:1642-1681 | if every cached balance equals a fresh computation before remove, it still does after, provided no cached address whose history lists `h` spent anything in `h` |
| AddrIo.PutReceivedMeaning | lib/wallet.py:895-897 | the received map gains exactly this transaction's outputs to the address, each with its (height, value, coinbase) |
| AddrIo.ReceivedFoldMeaning | lib/wallet.py:894-897 | the received map holds exactly the outputs paid to the address by the history's transactions, each with the values recorded for it |
| AddrIo.PutSentMeaning | lib/wallet.py:899-901 | the sent map gains exactly the outpoints this transaction spends from the address, at the transaction's height |
| AddrIo.SentFoldMeaning | lib/wallet.py:898-901 | the sent map holds exactly the outpoints the history's transactions spend from the address, each at the height of a spender |
| AddrIo.GetAddrIoMeaning | lib/wallet.py:890-902 | received holds exactly the outputs the history pays to the address, each with its height, value and coinbase flag; sent holds exactly the outpoints the history spends from the address, each at a spender's height |
| AddrIo.GetTxDelta | lib/wallet.py:774-789 | no answer iff `h` is in `pruned_txo_values`, that is, flagged as the spender of a parked placeholder; otherwise what `h` pays the address minus what it spends from it |
| AddrIo.ScanInputs | lib/wallet.py:798-815 | is_mine iff an input is owned; is_pruned iff an owned input's value is unknown; is_partial iff an input is foreign; the input value is the sum over the owned inputs |
| AddrIo.ScanOutputs | lib/wallet.py:818-822 | an output is owned iff one pays an owned address; the totals are the value of all outputs and of the owned ones |
| AddrIo.TxoOfSum | lib/wallet.py:1458-1469 | the values add_transaction records for an owned address total what the outputs pay that address |
| AddrIo.ReceivedAfterAdd | lib/wallet.py:1355-1488 | after add, the delta's receive side for an owned address is what the transaction's outputs pay it |
| AddrIo.GetWalletDelta | lib/wallet.py:791-841 | is_mine iff an input is owned; is_relevant iff is_mine or an output is owned; a fee iff is_mine and no owned input is pruned and no input is foreign, equal to inputs minus outputs; v is owned outputs minus owned inputs, or minus all outputs when an input is pruned |
| Balance.CoinShare | lib/wallet.py:1041-1051 | a received coin adds its value to the bucket it arrived in (immature for a young coinbase coin, confirmed at a positive height, unconfirmed otherwise) and, once spent, takes it off the confirmed bucket when spent at a positive height and the unconfirmed one otherwise; its total is 0 when spent and its value otherwise |
| Balance.CoinbaseSeenMeaning | lib/wallet.py:1036-1040 | `had_cb` holds iff a counted received coin is a coinbase coin |
| Balance.TallyMeaning | lib/wallet.py:1036-1051 | each bucket is the value received into it by the counted coins minus the value of those spent from it; the total is the value of the counted unspent coins, immature the value of the immature ones, and the coinbase flag is `had_cb` |
| Balance.TallyOfTwo | lib/wallet.py:1036-1051 | the loop over two counted coins adds their two shares |
| Balance.MempoolSpendOfConfirmedCoin | lib/wallet.py:1036-1051 | a confirmed 100000 coin spent in the mempool with 40000 change back to the address gives (100000, -60000, 0): the spent coin leaves the unconfirmed bucket, not the confirmed one |
| Balance.TallySplit | lib/wallet.py:1036-1051 | counting every coin gives the tally without the frozen coins plus the frozen coins' part |
| Balance.GetAddrBalance | lib/wallet.py:1028-1087 | a cache hit is returned as is; excluding frozen coins never touches the cache; otherwise the cache gains at most this address and keeps every old entry |
| Balance.GetAddrBalanceMeaning | lib/wallet.py:1028-1087 | when computed, each bucket is the value received into it minus the value spent from it, the total is the unspent value and immature the immature value; the result is cached iff frozen coins are not excluded and the address never received a coinbase coin |
| Balance.NothingLeftOut | lib/wallet.py:1038-1039 | with no frozen coins, or when not excluding them, the tally is the one over all coins |
| Balance.GetAddrBalanceSound | lib/wallet.py:1028-1087 | if every cache entry equals a fresh computation, the result equals a fresh computation and the updated cache is still sound |
| Balance.SumBalances | lib/wallet.py:1201-1207 | excluding frozen coins leaves the cache unchanged |
| Balance.SumBalancesSound | lib/wallet.py:1201-1207 | with a sound cache, the summed balance is the sum of fresh computations and the cache stays sound |
| Balance.BalanceDomain | lib/wallet.py:1197-1200 | excluding frozen addresses keeps exactly the non-frozen addresses of the domain, each once |
| Balance.GetBalance | lib/wallet.py:1196-1207 | with a sound cache, the balance is the sum of fresh computations over the chosen domain and the cache stays sound; excluding frozen coins sums the balances without frozen coins and leaves the cache unchanged |
| Balance.GetFrozenBalance | lib/wallet.py:1170-1177 | with no frozen coins, the sum over the frozen addresses; otherwise the full balance minus the balance without frozen coins and addresses, which over distinct addresses is the whole balance of each frozen address plus the frozen coins of the others |
| Balance.FrozenValueIsDifference | lib/wallet.py:1170-1207 | over distinct addresses, the whole balance minus the balance of the non-frozen addresses without frozen coins is, address by address, the whole balance of a frozen address and the frozen coins' part of any other |
| Coins.RemoveSpent | lib/wallet.py:931-934 | removing spent coins only shrinks the frozen-coin set |
| Coins.RemoveSpentFails | lib/wallet.py:931-934 | the removal raises `KeyError` iff some spent outpoint is not among the received coins |
| Coins.RemoveSpentDrops | lib/wallet.py:931-934 | on success the coins are the received ones minus the spent ones, in their original order, and the spent outpoints leave the frozen set |
| Coins.ToCoins | lib/wallet.py:947-961 | one coin record per remaining outpoint, in the same order, carrying the address and the outpoint |
| Coins.GetAddrUtxo | lib/wallet.py:929-961 | every coin returned belongs to the address; the frozen set only shrinks |
| Coins.GetAddrUtxoMeaning | lib/wallet.py:929-961 | succeeds iff every spent outpoint was received; then returns exactly the unspent received coins (minus tagged token coins when asked), each with its height, value, coinbase flag and current frozen flag; spent coins leave the frozen set |
| Coins.FilterAppend | lib/wallet.py:931-934 | filtering a list extended by one key keeps that key iff it is not removed |
| Coins.CoinsValueOfFilter | lib/wallet.py:929-961 | the coin values of the unspent keys total the unspent value the balance counts |
| Coins.UtxoValueIsBalance | lib/wallet.py:929-961 | with a sound cache, the address's coins (token coins included) total the address's balance |
| Coins.Pick | lib/wallet.py:1135-1142 | a coin is kept iff it passes the frozen, confirmed-only and maturity filters |
| Coins.UtxoFold | lib/wallet.py:1133-1144 | every returned coin belongs to a domain address and passes the filters; the frozen set only shrinks |
| Coins.UtxoFoldComplete | lib/wallet.py:1133-1144 | every unspent coin of a domain address that passes the filters and was not frozen at the start is returned |
| Coins.UtxoFoldSound | lib/wallet.py:1133-1144 | every returned coin is an unspent coin of a domain address that passes the filters, with its received data, without token coins when asked, flagged frozen as the frozen set says |
| Coins.UtxoFoldFails | lib/wallet.py:1133-1144 | the loop fails iff some domain address spent a coin it never received |
| Coins.UtxoDomain | lib/wallet.py:1129-1132 | excluding frozen addresses keeps exactly the non-frozen addresses of the domain |
| Coins.GetUtxos | lib/wallet.py:1126-1144 | every returned coin belongs to the domain and passes the filters, and when frozen coins are excluded neither its address nor the coin is frozen |
| Coins.GetUtxosSound | lib/wallet.py:1126-1144 | fails iff some visited address spent a coin it never received; otherwise every coin is an unspent coin of a visited address that passes the filters, with its received value and height, without token coins when asked, flagged frozen as the frozen set says |
| Coins.GetUtxosComplete | lib/wallet.py:1126-1144 | every unspent coin of a visited address that passes the filters is returned when the call succeeds |
| Coins.SetFrozenState | lib/wallet.py:2249-2262 | succeeds iff every address is owned; then exactly those addresses take the requested state; on failure nothing changes; other addresses never change |
| Coins.SetFrozenCoinState | lib/wallet.py:2264-2288 | an outpoint ends up frozen iff a reference that applies to it asked to freeze, or it was frozen and no such reference asked to thaw; the count is exactly the number of applicable references; each applicable coin record's flag is set to the requested state and every other reference is unchanged |
| Coins.IsFrozenCoin | lib/wallet.py:2237-2247 | true iff the outpoint is in the frozen set; a stale flag on a coin record is corrected |
| Coins.FreezeThenQuery | lib/wallet.py:2237-2288 | after freezing or thawing an applicable coin, querying it answers the requested state and finds its record's flag current |
| Slp.UnsupportedTags | lib/wallet.py:1494-1504 | an unsupported token type tags exactly the owned outputs, with no token id and no quantity |
| Slp.SendTags | lib/wallet.py:1508-1519 | a SEND tags exactly the owned outputs with a positive amount, amounts beyond the outputs being dropped |
| Slp.MintTags | lib/wallet.py:1520-1561 | GENESIS and MINT tag output 1 with the quantity when it is owned and positive, and tag the baton output; nothing is tagged when output 1 is missing or not an address |
| Slp.ValidationJob | lib/wallet.py:1603-1626 | a job is submitted iff validity is 0, the token type is known with decimals, and the type is SLP1, SLP65 or SLP129; SLP1 gets the fungible job, the others the NFT job of their type |
| Slp.SlpCheckValidation | lib/wallet.py:1603-1610 | raises iff the transaction has no token info or its entry was cleared; otherwise the gate decides |
| Slp.Placeholder | lib/wallet.py:1583-1589 | an unseen token gets decimals "?", the name `unknown-` plus its first six characters, and a group id iff it is SLP65 |
| Slp.Record | lib/wallet.py:1571-1601 | the tags are merged in; the token info is set with validity 0; a placeholder type is added iff the token is neither seen nor typed; a job only when token support is on and the type is known |
| Slp.HandleSlpTransaction | lib/wallet.py:1490-1601 | raises iff the message type is unknown; no outputs, unparsable scripts or COMMIT change nothing; tags of other transactions are kept; the token info of `h` is set iff the message is SEND, MINT or GENESIS |
| Slp.MergeTwice | lib/wallet.py:1508-1561 | writing the same tags twice is writing them once |
| Slp.RecordIdempotent | lib/wallet.py:1571-1601 | recording the same message twice leaves the state of the first recording |
| Slp.UnseenTokenNotSubmitted | lib/wallet.py:1571-1610 | a transaction of a token never seen gets a placeholder type and no validation job |
| Slp.HandleIdempotent | lib/wallet.py:1490-1601 | handling a transaction a second time succeeds and leaves the state of the first handling |
| Slp.MergeWellFormed | lib/wallet.py:1494-1561 | merging well-formed tags gives well-formed tags |
| Slp.HandleKeepsTagsWellFormed | lib/wallet.py:1490-1561 | every tag has a token id iff it has a quantity, and every amount is positive; handling keeps this |
| Slp.TokenIdCheckDiscrepancy | lib/wallet.py:384-386 | the id check accepts exactly the 64-character lowercase hex ids plus those followed by a newline |
| Slp.TokenIdWithNewlineAccepted | lib/wallet.py:384-386 | sixty-four zeros plus a newline pass the check yet are not a canonical token id |
| Slp.AddTokenType | lib/wallet.py:384-402 | as written: fails iff the id fails the anchored `^[a-f0-9]{64}$` search, which also lets 64 hex characters followed by a newline through (see Findings below); otherwise the type is stored and validation is submitted for exactly the stored, unvalidated transactions of that token the gate lets through |
| Slp.AddTokenTypeIntended | lib/wallet.py:384-402 | with the check the error message describes: fails iff the id is not exactly 64 lowercase hex characters; the success case is the same as Slp.AddTokenType |
| Slp.AddTokenTypeAgreesOnCanonicalIds | lib/wallet.py:384-386 | the two agree on every canonical id; the only ids only the as-written one accepts are a canonical id plus a final newline, and such an id is then stored as a type key |
| Slp.ClearTransaction | lib/wallet.py:1677-1681 | the token info of `h` is cleared and exactly the tags of `h` are dropped |
| SlpCoins.SlpCoinKept | lib/wallet.py:975-996 | a coin is kept iff it has a tag and token info for the requested token, and it is a valid non-baton coin, or a valid baton when batons are included, or not unvalidated when invalid ones are included |
| SlpCoins.ToSlpCoins | lib/wallet.py:1001-1019 | one token coin per remaining outpoint, in the same order, carrying the address and the outpoint |
| SlpCoins.GetSlpAddrUtxo | lib/wallet.py:964-1019 | every coin returned belongs to the address; the frozen set only shrinks |
| SlpCoins.GetSlpAddrUtxoMeaning | lib/wallet.py:964-1019 | succeeds iff every spent outpoint was received; then returns exactly the unspent coins the keep rule accepts, each with its coin data, token quantity and validity |
| SlpCoins.TokenCoinsNotPlain | lib/wallet.py:929-1019 | a token coin is never among the plain coins listed without token coins |
| SlpCoins.DefaultSlpCoinsSpendable | lib/wallet.py:964-1019 | with default flags every token coin is valid and carries a positive amount |
| SlpCoins.SlpPick | lib/wallet.py:1155-1161 | a coin is kept iff it passes the frozen and confirmed-only filters |
| SlpCoins.SlpUtxoFold | lib/wallet.py:1153-1162 | every returned coin belongs to a domain address and passes the filters |
| SlpCoins.SlpUtxoFoldKept | lib/wallet.py:1153-1162 | every returned coin passes the keep rule and carries its tag's quantity and its transaction's validity |
| SlpCoins.SlpUtxoFoldSound | lib/wallet.py:1153-1162 | every returned coin is an unspent coin of a domain address kept for the token, passing the filters, flagged frozen as the frozen set says |
| SlpCoins.SlpUtxoFoldComplete | lib/wallet.py:1153-1162 | every unspent coin of a domain address kept for the token and passing the filters is returned when the loop succeeds |
| SlpCoins.SlpUtxoFoldFails | lib/wallet.py:1153-1162 | the loop fails iff some domain address spent a coin it never received |
| SlpCoins.GetSlpUtxos | lib/wallet.py:1146-1162 | every returned coin belongs to the domain, is confirmed when asked, and when frozen coins are excluded neither its address nor the coin is frozen |
| SlpCoins.GetSlpUtxosSound | lib/wallet.py:1146-1162 | fails iff some visited address spent a coin it never received; otherwise every coin is an unspent coin of a visited address kept for the token, confirmed when asked, flagged frozen as the frozen set says |
| SlpCoins.GetSlpUtxosComplete | lib/wallet.py:1146-1162 | every unspent coin of a visited address that is kept for the token and passes the filters is returned when the call succeeds |
| SlpCoins.TallyTokens | lib/wallet.py:1107-1124 | each bucket is the sum of the token amounts of the coins in it: valid (validity 1), unvalidated (0), invalid (above 1), unfrozen valid (neither coin nor address frozen), frozen valid (the other valid coins) |
| SlpCoins.ValidBucketSplits | lib/wallet.py:1113-1124 | the valid amount is the unfrozen valid amount plus the frozen valid amount, as the returned tuple's last entry says |
| SlpCoins.TallyOfValidCoins | lib/wallet.py:1113-1124 | on valid amount coins: valid is their sum, nothing is unvalidated or invalid, unfrozen is the sum over unfrozen coins at unfrozen addresses, between 0 and valid |
| SlpCoins.GetSlpTokenBalance | lib/wallet.py:1101-1124 | the frozen set only shrinks; the frozen valid balance is the valid balance minus the unfrozen valid balance |
| SlpCoins.GetSlpTokenBalanceMeaning | lib/wallet.py:1101-1124 | fails iff some address of the wallet spent a coin it never received; otherwise each bucket is the sum, over that bucket, of the token coins the address loop returns (characterised by SlpCoins.SlpUtxoFoldSound and SlpCoins.SlpUtxoFoldComplete) |
| SlpCoins.TokenBalanceMeaning | lib/wallet.py:1101-1124 | with well-formed tags the balance counts only valid coins: valid is the sum of the token coins, unfrozen the sum of those not frozen, between 0 and valid |
| SlpCoins.CheckSufficientSlpBalance | lib/wallet.py:2048-2056 | only a SEND with token support on is checked; it fails with not-enough-funds iff the outputs exceed the valid balance, with not-enough-unfrozen-funds iff they fit the valid but not the unfrozen balance, and passes otherwise |
| SlpCoins.PassedCheckIsCovered | lib/wallet.py:2048-2056 | a SEND that passes is covered by the unfrozen token coins the wallet holds |
| Confirm.AddUnverifiedTx | lib/wallet.py:692-701 | height 0 demotes a verified transaction; an unverified height is recorded unless the transaction stays verified; nothing else changes; verified and unverified stay disjoint |
| Confirm.AddVerifiedTx | lib/wallet.py:703-707 | the transaction becomes verified with its info and leaves the unverified map; nothing else changes |
| Confirm.GetTxHeight | lib/wallet.py:742-753 | confirmations are never negative and positive only for a verified transaction at or below the tip; unverified reports (height, 0, 0); unknown reports (0, 0, 0) |
| Confirm.GetTxPos | lib/wallet.py:755-772 | verified reports its block position; confirmed-but-unverified reports (height, 0); an unverified transaction at height h <= 0 reports exactly (1e9 - h, 0), so mempool sorts at 1e9 and an unconfirmed parent at 1e9 + 1, tied with an unknown one (1e9 + 1, 0); both after every confirmed height |
| Confirm.GetTxStatus | lib/wallet.py:2008-2040 | confirmed is 3 plus the confirmations capped at 6; unconfirmed is 0 for a negative height, 1 for low fee, 2 in the mempool, 3 otherwise or when unknown |
| Confirm.VerifiedShowsConfirmed | lib/wallet.py:703-753 | a transaction verified at or below the tip reports a confirmed status, between 4 and 9 |
| Confirm.ReorgToMempool | lib/wallet.py:692-772 | a height-0 report turns a transaction into an unconfirmed mempool one |
| Confirm.AddUnverifiedIdempotent | lib/wallet.py:692-701 | reporting the same height twice is reporting it once |
| Confirm.ConfirmedSortFirst | lib/wallet.py:755-772 | a confirmed unverified transaction sorts before a mempool or unknown one |
| Wallet.AddTransaction | lib/wallet.py:1355-1488 | without inputs nothing changes; otherwise the ledger and the stored transaction are updated; an exception escapes iff the token message type is unknown, and then only the token state is left as it was; at most one validation job, for `h` and only with token support on |
| Wallet.RemoveTransaction | lib/wallet.py:1642-1681 | `h` leaves the ledger and the fees, its token info is cleared, exactly its tags are dropped; the stored transaction stays |
| Wallet.ClearUndoesHandle | lib/wallet.py:1490-1681 | clearing a transaction after handling its token message restores the tags, if it had none before |
| Wallet.LedgerRemoveUndoesAdd | lib/wallet.py:1355-1681 | removing a transaction whose outputs were unknown before adding it restores `txo` |
| Wallet.RemoveUndoesAdd | lib/wallet.py:1355-1681 | for a transaction unknown to the ledger and the token tags, remove after a successful add restores `txo` and the tags, clears its token info and drops its fee |
| Wallet.Forget | lib/wallet.py:1691-1704 | `addr` is discarded from the entry; the transaction is removed and its entry popped iff no address references it any more; other entries are unchanged |
| Wallet.ForgetOld | lib/wallet.py:1690-1704 | every dropped old entry no longer references `addr`, and one that only `addr` referenced leaves `txo`; no other reference changes |
| Wallet.IndexStored | lib/wallet.py:1714-1716 | indexing touches only the transaction's own `txo` entry and submits jobs only for it |
| Wallet.Remember | lib/wallet.py:1708-1716 | the height is recorded, `addr` is added to the transaction's references, and only that transaction's `txo` entry can change |
| Wallet.RememberAll | lib/wallet.py:1708-1716 | the loop only shrinks the cache and leaves the stored transactions, the history and the fees alone |
| Wallet.RememberAllRefs | lib/wallet.py:1708-1716 | the loop adds only `addr`, only to listed transactions, and keeps reference sets non-empty |
| Wallet.RememberAllRecords | lib/wallet.py:1708-1716 | once the loop completes, every listed transaction references `addr` |
| Wallet.RememberAllConf | lib/wallet.py:1708-1712 | the loop keeps verified and unverified disjoint and, on completion, records every listed transaction in one of them |
| Wallet.RememberAllTxo | lib/wallet.py:1708-1716 | the loop changes the `txo` indexing only of listed transactions |
| Wallet.RememberAllJobs | lib/wallet.py:1708-1716 | the loop submits validation jobs only for listed transactions |
| Wallet.ReceiveHistoryCallback | lib/wallet.py:1687-1722 | the new history is installed; `addr` is out of the balance cache; the stored transactions are kept; on completion the reported fees are stored over the old ones; after an exception no fee is added |
| Wallet.ForgetAndInstall | lib/wallet.py:1689-1706 | the first loop installs the history, drops `addr` from the cache and never adds a fee |
| Wallet.ForgetAndInstallDrops | lib/wallet.py:1689-1706 | transactions dropped from the history no longer reference `addr`, and those only `addr` referenced leave `txo` |
| Wallet.ReceiveHistoryRefs | lib/wallet.py:1687-1722 | after the callback, every listed transaction references `addr` (on completion), no dropped one does, other addresses' references are untouched, and a dropped transaction only `addr` referenced is no longer indexed |
| Wallet.ReceiveHistoryConf | lib/wallet.py:1687-1722 | the callback keeps verified and unverified disjoint and, on completion, every listed transaction has a recorded height |

## Left out

- The pruned-coin janitor thread is not modelled. Its queue notifications in `put_pruned_txo` and `pop_pruned_txo` are left out too: the thread runs concurrently.
- Locks, storage writes (`storage.put`) and network callbacks (`trigger_callback`) are left out: they are I/O or concurrency.
- The validity callback that a finished validation job runs is left out: the validator runs asynchronously. `undo_verifications` and the verifier's `merkle_roots` are left out too, because they belong to the verifier.
- The validation job itself is not modelled. Only the decision to submit one (`Job`) is.
- `SlpMessage.parseSlpOutputScript` is not part of this model. Its outcome is an input of each transaction.
- Confirm.GetTxStatus: the low-fee test is a floating-point fee rate computed from the raw transaction size. The model takes it as a boolean `lowFee`.
- The local height comes from the network or storage. It is a parameter.
- Coins.UtxoFoldComplete: completeness is stated only for coins that were not frozen when `get_utxos` started. An earlier address's spent-coin cleanup can edit the frozen set during the loop, and that interaction is not characterised.
- Coins.GetUtxosComplete: for a coin in the frozen set, completeness is stated only when no visited address spends it. The same holds for SlpCoins.GetSlpUtxosComplete and SlpCoins.SlpUtxoFoldComplete. The frozen flag of such a coin depends on the cleanup order described above.
- SlpCoins.TokenAmount: `get_slp_token_balance` would raise `TypeError` when adding a non-numeric quantity (a mint baton). The model counts such a quantity as 0. SlpCoins.DefaultSlpCoinsSpendable shows that, with well-formed tags, only positive amounts reach the sum.
- Wallet.ReceiveHistoryCallback: a fee of a transaction that the callback forgets is dropped by `remove_transaction`. The contract states the fee map only as a whole (the new fees stored, the rest from the old map). It does not list which old fees were removed.
- `rebuild_slp`, `activate_slp`, `load_transactions`, the history views and the transaction-building code are outside the modelled core.
- `pruned_txo` keys are modelled as outpoint values rather than `"hash:n"` strings. A hash containing `:` therefore cannot be confused with another outpoint.
- Reconcile.ArrivalOrderIrrelevant: equality of the two arrival orders is proved only for a spender of one owned output. In general the order of the spender's `txi` list depends on arrival (Arrival.SpendOrderDependsOnArrival). Arrival.ArrivalOrderUpToSpendOrder proves that the ledgers agree up to that order and the spender's own flag.
- Arrival.ArrivalOrderUpToSpendOrder: the flag of the spender in `pruned_txo_values` is not claimed equal across the two orders. With the pop as written it differs when the spender also waits on another transaction (Arrival.FlagDependsOnArrival); the contract states when each order flags it instead.
- Ledger.AddTransaction models the pop as written, so the model does not promise that every spender a placeholder names stays flagged after an add. That promise is proved for Ledger.AddTransactionIntended only (see Findings below).
- Ledger.AddTransactionKeepsNoEmptyDicts: the invariant is proved for add only. Loading from storage drops empty entries, but `remove_transaction` can create one (Ledger.RemoveLeavesEmptyDict).
- Cache.AddTransactionKeepsCacheSound: soundness needs every cached address that lists `h` in its history to hold nothing at `h` yet, the usual case of a transaction new to the ledger. Adding `h` again overwrites `txo[h]`, so an address paid by the old entry but not by the new one would keep a stale cache entry.
- Cache.RemoveTransactionKeepsCacheSound: soundness needs that no cached address listing `h` spent anything in `h`. `remove_transaction` does not invalidate the spenders in `h` itself. In `receive_history_callback` the address whose history changed is dropped from the cache anyway.

## Findings

| source | as written | input that shows it | evidently intended | confidence | as-written member | corrected member |
|---|---|---|---|---|---|---|
| lib/wallet.py:384-386 | `re.match('^[a-f0-9]{64}$', token_id)`: `$` also matches before a final newline | `"0" * 64 + "\n"` is accepted as a token id | exactly 64 lowercase hex characters, as the error message says | not executed | Slp.TokenIdMatchesAsWritten (shown by Slp.TokenIdWithNewlineAccepted, characterised by Slp.TokenIdCheckDiscrepancy) | Slp.ValidTokenId (used by Slp.AddTokenTypeIntended, which agrees with Slp.AddTokenType on every canonical id by Slp.AddTokenTypeAgreesOnCanonicalIds) |
| lib/wallet.py:1393-1397 | `pop_pruned_txo` discards the spender from `pruned_txo_values` whenever one of its placeholders is popped | placeholders `f:0` and `g:0` both naming spender `s`: after `f` arrives, `g:0` still names `s` but `s` is no longer flagged, so `get_tx_delta(s)` gives a value while a spend of `s` is still parked | `pruned_txo_values` stays the set of the values of `pruned_txo`, as the wallet builds it on load (line 312) | not executed | Ledger.PopPlaceholderAsWritten (used by Ledger.AddTransaction; shown by Ledger.PopAsWrittenLosesPendingFlag and Arrival.FlagDependsOnArrival) | Ledger.PopPlaceholder (used by Ledger.AddTransactionIntended; kept by Ledger.AddTransactionIntendedKeepsFlagged; Ledger.RemoveTransactionKeepsFlagged shows remove keeps it too) |
