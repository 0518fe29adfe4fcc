# MASS wallet: a verified model

A Dafny model of the core of the MASS wallet, in modules that follow the program's files, with
proofs about it. `dafny verify dfyconfig.toml` checks everything.

**The UTXO ledger and chain following.** The wallet keeps the same facts several times: credits with a
spent mark, debits, an unspent index, a stored balance per wallet, block records and transaction records.
`Ledger` says what connecting and rolling back a transaction does to these six buckets (a Go error is
`None`; the enclosing database transaction then keeps the old state). `LedgerInvariant` states when the
buckets agree and proves that every step keeps it. `LedgerInverse` and `LedgerChain` prove that rollback
undoes any list of connected blocks exactly, coins created and spent within one block included;
`LedgerReady` proves exactly when connect succeeds and `LedgerHeadroom` exactly when rollback does; `LedgerRecords`
says what a block leaves in the records, and what undoing does for wallets that are gone. `TxStore` holds the class
with the buckets as fields, whose methods update them step by step and are proved against `Ledger` (`LedgerFrames` has
the lemmas between the two). `Sighting` says which inputs of a block `filterTx` looks at: it reads the database as it
was before the current transaction began, so it does not see coins that the transaction itself has stored. `ChainTree`
is the set of all blocks with their ancestry, and the ledgers that connecting a path gives. `Following` is the
handler as a state machine: exactly which offered block is accepted, what is followed then, and exactly when
the ledger is that of connecting the path from genesis to the tip once, in order. `Payments` says what such a
ledger holds in terms of the blocks alone: which outputs are credits, and what a balance is. `Handler` holds the synced
height-to-hash chain and the notification handler, whose `reorg` walks two branches to their fork point,
proved against that machine. `Recount` compares the recount over unspent entries with the stored balance.
`ImportSafety` is a state machine in which chunked imports interleave with connects, disconnects and
reorganisations. `Conflicts` is the unmined side: received transactions with their credits, and the recursive removal
of conflicting ones.

**Coin selection and transaction building.** `TopK` is the bounded min-heap with a guard coin, `CoinSelection` the
greedy choice and what the bound costs (nothing), `FeeFixpoint` the loop that raises the fee until it covers the
transaction's own size, `RawTransaction` the two-pass fee and change computation for chosen inputs, and `History` the
paging of the transaction history. `Coins` has sums of coins.

**Keystore recovery and mnemonics.** `GapLimit` has the allocation rule and the discovery scan, which must fit each
other. `Mnemonic` has the BIP-39 encoder and both decoders over big integers, with `Positional` for digits and bit
operations and `Sentence` for splitting and joining words. `Sequences` and `Wrappers` are small helpers.

**Amounts as text.** `AmountText` has the printer and the parser.

Assumptions, all of them parameters or preconditions: a block hash determines the block and its
ancestry, and no transaction hash occurs twice on a chain (`ChainTree.Universe`); a transaction hash determines
the unmined transaction; script ownership and the set of ready wallets are fixed while the chain is followed
(`Ledger.Env`); amounts have a largest value; the hash function behind the mnemonic checksum, the relay fee, the
dust test and key derivation are arbitrary functions; the word list holds 2048 distinct words.

Some findings. The ledger can depend on the route. A reorganisation is one database transaction, and while it
connects several blocks `filterTx` does not see the coins that its own earlier blocks made
(masswallet/ntfnshandler.go:386-403, masswallet/db/db.go:109-116, masswallet/db/ldb/leveldb.go:165-171 and
893-895), so a later block that spends one of them is not noticed: the coin stays unspent and the balance too
high (`Following.RouteMatters`). A call leaves the ledger of connecting the path once, in order, exactly if no
block it connects spends a coin from an earlier block of the same call whose transaction had no credit before
(`Following.NextReplays`, `Following.RunReplays`); extending the tip always does (`Following.ExtensionIsSighted`).

Rollback fails exactly if undoing a transaction would on the way give a wallet more than the range of an amount
(`LedgerHeadroom.RollbackSucceeds`, `LedgerHeadroom.RollbackCanFail`). The scan limit and the allocation limit fit
exactly: with a scan limit one smaller a used address can be missed (`GapLimit.GapIsTight`).
`CreateRawTransaction` adds up its inputs without looking for an outpoint named twice, so value is really
conserved exactly if none with a value is (`RawTransaction.SpentIsSum`, `RawTransaction.NamedTwice`). It refuses
inputs that pay for the amounts with a remainder that cannot pay for its own change output
(`RawTransaction.SpareIsRefused`). The amount parser is exact, or refuses, on exactly the strings without a sign
and those it does not accept (`AmountText.ExactOrRefuses`); it reads a sign inside the fraction as part of a
number (`AmountText.SignIsNotExact`) and drops a minus sign in front of a zero (`AmountText.MinusIsDropped`). An
import chunk that is not given up is safe exactly if the chain database agrees with the synced chain on the
heights that no block record covers (`ImportSafety.ChunkSafe`). Removing a conflict leaves nothing behind if the
index names every spender of what goes and no two of those are entangled (`Conflicts.Settled`): no transaction
competes for one of these outpoints with another that can also be reached through a second one. If two are, a
descendant can stay (`Conflicts.LeavesOrphan`), and a double spender can survive mining
(`Conflicts.DoubleSpenderSurvives`), because removing one spender deletes the index entry both share. The flag
for an overfull wallet is raised for a wallet with exactly as many eligible coins as the bound, although nothing
was dropped then (`CoinSelection.FindEligibleUtxos`).

## Model

| member | source | states |
|---|---|---|
| LedgerChain.RollbackInvertsConnect | masswallet/txmgr/txstore.go:652-1108 | from a well-formed ledger, connecting any list of blocks and rolling back at the first of their heights restores all six mined buckets exactly |
| LedgerChain.RollbackToBlock | masswallet/txmgr/txstore.go:677-1060 | the same, stopping after any number of the blocks |
| LedgerChain.BranchForgotten | masswallet/ntfnshandler.go:650-750 | connecting a branch, rolling it back to any of its blocks and connecting another gives what connecting the kept blocks and the other branch once, in order, gives |
| LedgerHeadroom.RollbackSucceeds | masswallet/txmgr/txstore.go:652-1108 | rolling back connected blocks succeeds exactly if each of their transactions fits, that is, if for each wallet it spends from the balance before it and what it pays back stay in the range of an amount together; it then returns exactly to the ledger before |
| LedgerHeadroom.UndoTxIff | masswallet/txmgr/txstore.go:733-1008 | the same for one transaction; a coinbase always fits |
| LedgerHeadroom.HalfRangeFits | masswallet/txmgr/txstore.go:876-930 | balances within half the range leave room for every transaction |
| LedgerHeadroom.RollbackCanFail | masswallet/txmgr/txstore.go:839-1008 | a block that connects and cannot be rolled back: a coin as large as the range is paid back to its own wallet |
| LedgerReady.ConnectTxIff | masswallet/txmgr/txstore.go:85-160 | a transaction the ledger has not seen connects exactly if every coin it spends of a ready wallet is there, no two inputs spend one coin, and for each ready wallet it pays, the balance less what it spends plus what it is paid stays in range |
| LedgerReady.ConnectBlockIff | masswallet/ntfnshandler.go:213-256 | a block that follows connects exactly if each of its transactions does where its turn comes |
| LedgerRecords.BlockRecorded | masswallet/txmgr/txstore.go:209-264 | a connected block leaves a record of exactly its transactions that pay a ready wallet or spend from a script of one, and their hashes, in block order, in one record of the block |
| LedgerRecords.UndoForgotten | masswallet/txmgr/txstore.go:839-1008 | undoing a transaction for which no known wallet owns what it spent, and none has an unspent entry of what it paid, changes no balance and no unspent entry; its record, debits and credits go and what it spent is unspent |
| LedgerInverse.UndoConnectTx | masswallet/txmgr/txstore.go:733-1008 | undoing one connected transaction, coinbase or not, returns to the ledger before it, up to its block record |
| LedgerInvariant.SpendKeeps | masswallet/txmgr/txstore.go:85-160 | spending a relevant input keeps the agreement of the indexes and the stored balance equal to the unspent sum |
| LedgerInvariant.AddCreditKeeps | masswallet/txmgr/utxostore.go:94-219 | a new credit keeps them too |
| LedgerInvariant.BalanceDown | masswallet/txmgr/txstore.go:116-150 | the wallet of a spent coin has a balance of at least its worth, so the subtraction cannot go negative |
| LedgerChain.ConnectBlockKeeps | masswallet/ntfnshandler.go:213-256 | connecting a block keeps the ledger well formed and mentions no height above it |
| TxStore.FilterTx | masswallet/ntfnshandler.go:358-520 | an output is listed exactly if a ready wallet owns its script, and an input exactly if a ready wallet owns the script it spends, the transaction is no coinbase, and the one it spends from comes no later in the current block or has a credit committed before; both in index order with their wallet, and the transaction is relevant exactly if something is listed |
| TxStore.Store.SpendCredit | masswallet/txmgr/txstore.go:85-160 | one relevant input: credit marked, debit recorded, unspent entry gone, balance lowered, or an error |
| TxStore.Store.UpdateMinedBalance | masswallet/txmgr/txstore.go:85-160 | all relevant inputs in turn |
| TxStore.Store.InsertMined | masswallet/txmgr/txstore.go:209-264 | records the transaction once, then spends its inputs |
| TxStore.Store.AddCredits | masswallet/txmgr/utxostore.go:94-219 | one credit and one unspent entry for each relevant output |
| TxStore.Store.AddRelevantTx | masswallet/txmgr/txstore.go:163-171 | inputs before outputs, as the ledger's connect step says |
| TxStore.Store.ConnectRelevant | masswallet/ntfnshandler.go:213-256 | a block's relevant transactions on a working balance map, stored at the end, are the ledger's connect of the block |
| TxStore.Store.RollbackInputs | masswallet/txmgr/txstore.go:839-936 | the inputs of a rolled-back transaction: debits deleted, credits unspent again, unspent entries and balances back |
| TxStore.Store.RollbackOutputs | masswallet/txmgr/txstore.go:937-1008 | its outputs: credits deleted, unspent entries and balances withdrawn |
| TxStore.Store.RollbackTx | masswallet/txmgr/txstore.go:705-1008 | one recorded transaction; a missing record is skipped and nothing changes |
| TxStore.Store.RollbackTxs | masswallet/txmgr/txstore.go:688-1061 | the transactions of a block, last one first |
| TxStore.Store.Rollback | masswallet/txmgr/txstore.go:652-1108 | all heights from the synced one down, exactly their block records removed and balances written at the end, is the ledger's rollback; without a recorded block nothing changes |
| Handler.SyncStore.PutSyncedTo | masswallet/txmgr/syncstore_db.go:86-118 | succeeds exactly for the synced height and the next one, and keeps the stored heights contiguous |
| Handler.SyncStore.ResetSyncedTo | masswallet/txmgr/syncstore_db.go:62-84 | keeps exactly the heights up to the given one, unchanged |
| Handler.NtfnsHandler.FilterBlock | masswallet/ntfnshandler.go:541-604 | connects a block to its parent, seen with the credits committed before the call, exactly if the chain database's best chain holds it and its transactions connect; everything stored then follows it |
| Handler.NtfnsHandler.DisconnectBlock | masswallet/ntfnshandler.go:606-648 | disconnects the tip exactly if it is not genesis and its transactions fit the range when undone; everything stored then follows its parent |
| Handler.NtfnsHandler.AlignHeight | masswallet/ntfnshandler.go:653-668 | the new branch is walked down to the current height exactly if its blocks down to there can be fetched, and the blocks collected link to each other by previous hash |
| Handler.NtfnsHandler.DisconnectDown | masswallet/ntfnshandler.go:672-680 | the current branch is disconnected down to a height exactly if every block above it can be undone |
| Handler.NtfnsHandler.DisconnectToFork | masswallet/ntfnshandler.go:682-733 | both branches are walked to their fork point exactly if the blocks above it can be undone on the one and fetched on the other; the fork point is then followed, and the collected blocks lead from it to the new block |
| Handler.NtfnsHandler.DisconnectBranch | masswallet/ntfnshandler.go:670-734 | the whole of step 2: afterwards the fork point of the two branches is followed, whatever their heights |
| Handler.NtfnsHandler.ConnectAll | masswallet/ntfnshandler.go:735-750 | connects the collected blocks in order, each seen with the credits committed before the call, exactly if all are current and all connect |
| Handler.NtfnsHandler.Reorg | masswallet/ntfnshandler.go:650-750 | succeeds exactly if, above the fork point, the old blocks can be undone, the new ones can be fetched, are current and connect; everything then follows the new block, its ledger being that of the kept blocks and the new ones, seen with the credits from before the call |
| Handler.NtfnsHandler.ProcessConnectedBlock | masswallet/ntfnshandler.go:1097-1171 | one step of the state machine: accepts exactly what it accepts and leaves what it leaves, an error changes nothing, the best block is then the new one, and the sync bucket leads from genesis to the tip, each hash that of a block building on the one below; from a replayed ledger an accepted block leads to the replay of its path exactly if the call overlooks nothing |
| Handler.NtfnsHandler.Run | masswallet/ntfnshandler.go:1097-1171 | any run of offered blocks, forks and returns to old blocks included, answers and ends as the state machine does |
| Handler.FollowChain | masswallet/ntfnshandler.go:1097-1171 | the same for a handler started at genesis, in terms of the offers alone: its answers, tip, ledger and synced chain; the ledger is the replay of the path to the tip if no accepted offer overlooked anything |
| Following.AcceptsMeans | masswallet/ntfnshandler.go:650-750 | what the machine accepts, with the highest common block named: the old blocks above it can be undone, the chain database's best chain holds every new block above it, these connect on its ledger, each seen with the credits from before the call, and unless the new block extends the tip those between can be fetched |
| Following.NextReplays | masswallet/ntfnshandler.go:386-403 | from a replayed ledger, an accepted offer gives the replay of its tip exactly if no block the call connects spends a coin of an earlier one whose transaction had no credit before the call |
| Following.RunReplays | masswallet/ntfnshandler.go:386-403 | over any run the ledger is at all times the replay of its tip exactly if that holds of every accepted offer |
| Following.OverlookedWithin | masswallet/ntfnshandler.go:386-403 | whatever a call overlooks is paid by a transaction in an earlier block that the same call connects |
| Following.ExtensionIsSighted | masswallet/ntfnshandler.go:386-403 | a block that extends the tip overlooks nothing |
| Following.RouteMatters | masswallet/ntfnshandler.go:386-403 | two runs to one tip with different balances: a coin and its spender in two blocks, connected one by one or in one reorganisation |
| Following.InOrderAccepted | masswallet/ntfnshandler.go:541-604 | a chain that replays is accepted block by block when it is offered in order, and its replay results |
| Following.PathIndependence | masswallet/ntfnshandler.go:650-750 | two runs from genesis that overlook nothing and end at the same tip leave the same buckets, those of connecting the path to it once, in order, whatever forks each went through |
| Handler.NtfnsHandler.LedgerInvariantHolds | masswallet/txmgr/utxostore.go:127-219 | between blocks the ledger invariant holds, whatever was overlooked, and nothing mentions a height above the tip |
| Payments.CreditsAreOutputs | masswallet/txmgr/utxostore.go:127-219 | the ledger of a path holds a credit, with that value and script, for exactly every output of a transaction on the path whose script a ready wallet owns, whichever credits were known when the blocks were connected |
| Payments.BalanceIsIncomeLessOutgo | masswallet/txmgr/txstore.go:85-160 | the balance of a ready wallet is what the outputs on the path pay it less the values of the outputs that the inputs on the path, as far as they are looked at, spend of it |
| ChainTree.TraceUndo | masswallet/ntfnshandler.go:606-648 | the tip can be disconnected exactly if its transactions fit the range when undone, and that gives the ledger of the path to its parent |
| ChainTree.ReplayIff | masswallet/ntfnshandler.go:386-403 | connecting blocks on a replayed ledger, all with the same credits known, gives the replay exactly if nothing is overlooked; otherwise a debit is missing |
| ChainTree.ReplayIsConnect | masswallet/ntfnshandler.go:386-403 | replay passes over nothing: if the path connects with every relevant input looked at, replay is that |
| ChainTree.TraceGood | masswallet/ntfnshandler.go:541-604 | along any path the ledger is well formed, and which transactions have credits depends on the tip alone |
| ChainTree.ForkIsHighest | masswallet/ntfnshandler.go:682-733 | no block above the fork point is on both branches |
| Sighting.BlockNeeds | masswallet/ntfnshandler.go:386-403 | a block connects only if each relevant input spends from a transaction with a credit before it or earlier in it |
| Recount.ScriptAddressBalance | masswallet/txmgr/utxostore.go:660-763 | for each script, the total of the wallet's unspent coins paying it with enough confirmations, and the parts of it that are mature, not spent by the mempool, and spendable, staking or binding; fails exactly if a total leaves the range of an amount |
| Recount.ConfsAreHeights | masswallet/txmgr/utxostore.go:732 | the confirmations of a coin are the number of heights from its block to the synced one; for a block above that they wrap around |
| Recount.WalletBalance | masswallet/txmgr/utxostore.go:617-658 | the sums over all scripts count every coin once; fails exactly if the total leaves the range |
| Recount.RecountIsGross | masswallet/txmgr/utxostore.go:600-763 | with at most one confirmation asked for, the recount over a wallet's scripts is its stored balance |
| Recount.WalletBalanceIsGross | masswallet/wallet.go:605-634 | on every ledger with the invariant the recounted total of a wallet is its stored balance, and the recount succeeds exactly if that is in range |
| Recount.KindsAddUp | masswallet/txmgr/utxostore.go:732-757 | with all coins mature and unspent, the spendable, staking and binding parts add up to the total |
| ImportSafety.AbortsIff | masswallet/txmgr/txstore.go:277-307 | a chunk is given up exactly if at a related height with a block record it reads a block that is not the chain's |
| ImportSafety.ChunkSafe | masswallet/ntfnshandler.go:843-969 | a chunk leaves its wallet safe exactly if it is given up, or the chain database agrees with the synced chain on the heights of the chunk that no record covers |
| ImportSafety.StepKeeps | masswallet/ntfnshandler.go:606-648 | connects, disconnects, imports and creations keep every wallet safe, and a chunk does exactly under that condition |
| ImportSafety.RunKeeps | masswallet/ntfnshandler.go:752-969 | so does every interleaving of them |
| ImportSafety.ImportSafe | masswallet/ntfnshandler.go:843-969 | after any run an imported wallet has every height 1 to its synced height, or to the tip once it is ready, processed exactly once, with the blocks of the current chain |
| ImportSafety.ImportFinishes | masswallet/ntfnshandler.go:865-958 | with the tip at rest, chunks of 1000 blocks bring the wallet to the tip and make it ready |
| Conflicts.UnminedStore.InsertMemPoolTx | masswallet/txmgr/txstore.go:180-207 | a received transaction is stored, whatever it competes with, and appended to exactly the index entries of its inputs that spend from a script of a ready wallet; if it competes with no other for an outpoint, the index stays exact |
| Conflicts.UnminedStore.AddUnminedCredits | masswallet/txmgr/utxostore.go:236-296 | an unmined credit for exactly every output that pays a ready wallet, refused exactly if one of them has a credit or an unspent entry already or is out of range |
| Conflicts.UnminedStore.ReceiveTx | masswallet/ntfnshandler.go:199-211 | both in one database transaction, all or nothing, and every unmined credit stays an output of an unmined transaction |
| Conflicts.UnminedStore.DeleteUnminedInputs | masswallet/txmgr/utxostore.go:548-560 | deletes exactly the index entries of the transaction's inputs |
| Conflicts.UnminedStore.RemoveConflict | masswallet/txmgr/txstore.go:397-447 | terminates on every acyclic unmined graph; the transaction goes, only descendants of it go with it, and so do exactly the credits and the index entries of what goes; the buckets are those of the step-by-step removal, an exact index stays exact, and a settled transaction goes with all its tracked descendants |
| Conflicts.SettledLeads | masswallet/txmgr/txstore.go:397-447 | a transaction is settled if the index names every tracked spender of what it and its descendants pay, and no two spenders of one of these outpoints exist of which one also spends another |
| Conflicts.ValidIsSettled | masswallet/txmgr/txstore.go:397-447 | every transaction is settled if each outpoint has at most one unmined spender and the index is exact |
| Conflicts.LeavesOrphan | masswallet/txmgr/txstore.go:397-447 | four received transactions, two of them spending one outpoint, for which removal leaves a descendant behind |
| Conflicts.UnminedStore.RemoveDoubleSpends | masswallet/txmgr/txstore.go:355-395 | only unmined transactions competing for a tracked input go, with descendants of theirs, and exactly the unmined credits of what goes; the buckets are those of the step-by-step removal; all of them go if the index names every spender and none of them are entangled |
| Conflicts.UnminedStore.RemoveMined | masswallet/txmgr/txstore.go:238-264 | the same after a transaction is mined, which leaves the unmined set itself, with exactly its own unmined credits if it was there; no unmined transaction then spends one of its tracked inputs any more under that condition, an exact index stays exact, and every unmined credit stays an output of an unmined transaction |
| Conflicts.DoubleSpenderSurvives | masswallet/txmgr/txstore.go:355-395 | two received transactions and a mined one for which a double spender stays |
| TopK.TopKSelector.Adjust | masswallet/utxo_selector.go:26-41 | sifting a node down restores the heap order from it on and loses no coin |
| TopK.TopKSelector.Append | masswallet/utxo_selector.go:51-58 | appends, and builds the heap once the base is full |
| TopK.TopKSelector.ReplaceLeast | masswallet/utxo_selector.go:61-65 | the least coin is replaced and the heap order kept |
| TopK.TopKSelector.SubmitLow | masswallet/utxo_selector.go:50-66 | the base is kept as the k largest coins not above the required amount |
| TopK.TopKSelector.Submit | masswallet/utxo_selector.go:43-66 | after any sequence of submits the base holds the k largest coins not above the required amount, in heap order once full, and the guard is the smallest coin above it |
| TopK.LargestIsBest | masswallet/utxo_selector.go:50-66 | no k coins are worth more than the k largest |
| CoinSelection.OptOutputs | masswallet/tx.go:498-566 | covers the amount exactly if all coins together do, with an inclusion-minimal selection, which is the greedy choice from the coins sorted in descending order; returns all coins otherwise; fails only if the coins exceed the amount range |
| CoinSelection.Choose | masswallet/tx.go:520-553 | the indices chosen by the walk over the sorted coins form such a selection: the last coin chosen makes the sum reach the amount, each one passed over before it would have exceeded it, and if the last exceeds it, all coins after it fall short in its place |
| CoinSelection.GreedyIsOne | masswallet/tx.go:520-553 | for any list of coins and amount there is only one such choice |
| CoinSelection.GetCandidates | masswallet/tx.go:445-497 | kept are a smallest coin above the amount, if there is one, and up to k coins within it, none left out larger than one kept and none left out while there is room; overfull means k candidates |
| CoinSelection.BoundedLosesNothing | masswallet/utxo_selector.go:43-75 | if some set of at most k eligible coins covers the amount, the selection from the candidates does, and it never holds more than k coins |
| CoinSelection.FindEligibleUtxos | masswallet/tx.go:346-395 | the same for the whole search; when it finds too little, overfull means k eligible coins or more, and otherwise it found them all |
| FeeFixpoint.EstimateSignedSize | masswallet/tx.go:293-344 | the size bound, zero as soon as a redeem script is not a multi-signature |
| FeeFixpoint.EstimateIsLeastBound | masswallet/tx.go:337-343 | with all redeem scripts multi-signatures, the estimate is the largest size the signed transaction can have: signatures up to 73 bytes for each one required, output scripts up to 55 |
| FeeFixpoint.Gather | masswallet/common.go:108-163 | for a target fee, inputs cover outputs, change and fee exactly, and change is zero or at least the minimum relay fee; the second search is the last |
| FeeFixpoint.AutoConstruct | masswallet/common.go:82-190 | terminates; on success inputs equal outputs plus change plus fee, and the fee covers the relay fee of the built size; the fee is the caller's, or the minimum relay fee if none was given, unless coins gathered for that require more; a transaction is built whenever at most k coins cover the amounts, a fee that no possible transaction exceeds, and a change that is not dust; insufficient and overfull are reported only when the coins, or any k of them, do not cover a fee the loop asked for |
| FeeFixpoint.AffordableIsBuilt | masswallet/common.go:82-190 | such a request meets none of the conditions under which the loop gives up |
| FeeFixpoint.RaisedIsMore | masswallet/common.go:82-190 | each time the target is raised it grows, so a fee reached after n times is at least n above the first |
| RawTransaction.ShareIsFair | masswallet/common.go:283-296 | the shares cover the fee and charge less than one unit per recipient too much |
| RawTransaction.ReducedTotal | masswallet/common.go:297-310 | the amounts asked for are the reduced amounts plus the shares |
| RawTransaction.SubtractFee | masswallet/common.go:247-312 | refuses exactly unknown recipients, and is out of range exactly if a recipient has less than its share or a sum leaves the range; otherwise each recipient sharing the fee gets its share less, and the total adds the charge |
| RawTransaction.DividedTotal | masswallet/common.go:263-311 | when recipients pay, the total is the sum of the amounts asked for; otherwise it is that sum plus the fee |
| RawTransaction.CheckDust | masswallet/tx.go:129-147 | passes exactly if no output and no change is dust |
| RawTransaction.TwoPasses | masswallet/wallet.go:941-981 | settles fee and change, or fails exactly for an unknown recipient, an undefined fee, a sum out of range, or inputs that do not pay for the amounts or leave a change that cannot pay for itself |
| RawTransaction.CreateRawTransaction | masswallet/wallet.go:920-1012 | created exactly if some outputs, change and fee meet the order without dust: inputs equal outputs plus change plus fee, the fee is what the relay fee for that many outputs makes the sender or the payers owe, payers get the same less and others their amount, and change is left only if without it something would be left over; every refusal has its own exact reason, up to the order in which outputs are tested for dust |
| RawTransaction.SpareIsRefused | masswallet/wallet.go:957-975 | inputs that pay for amounts and fee with 30 units to spare are refused |
| RawTransaction.SpentIsSum | masswallet/tx.go:59-105 | the value really spent is the sum computed exactly if no outpoint with a value is named twice |
| RawTransaction.RealBalance | masswallet/wallet.go:996-1009 | so the transaction really balances exactly then |
| RawTransaction.NamedTwice | masswallet/tx.go:59-105 | an order naming one coin twice is met by a transaction that does not balance |
| History.SelectRelatedTx | masswallet/tx.go:920-948 | the latest transactions of a window: whole heights from the top, and the last by position of the height that does not fit |
| History.GetTxHistory | masswallet/tx.go:780-839 | windows of 500 blocks reach from the tip to height 1 without gap or overlap, the loop ends, and the selection is exactly the min(wanted, total) most recent related transactions, with 200 wanted by default |
| History.CutIsMostRecent | masswallet/tx.go:817-835 | taking everything above one height and the latest of it is taking the most recent |
| GapLimit.AddrManager.AnyUsed | masswallet/keystore/addrmgr.go:466-486 | whether an address from an index on is used |
| GapLimit.AddrManager.NextAddresses | masswallet/keystore/addrmgr.go:433-592 | allocates the next addresses exactly if the account limit and the gap rule allow it; while only issued addresses are used, that is exactly if every index, the new ones included, stays within the gap limit of the start or of a used one before it |
| GapLimit.AllowedIffDense | masswallet/keystore/addrmgr.go:461-490 | the gap rule refuses and allows enough: it allows exactly what keeps every issued index within the gap limit |
| GapLimit.Scan | masswallet/keystore/manager.go:435-523 | finds the first point from the starting child number on that is followed by a gap of unused addresses, and keeps the addresses below it; the slice is in bounds |
| GapLimit.RunIsDense | masswallet/keystore/addrmgr.go:461-490 | after any run of allocations and uses, every issued index is within the gap limit of the start or of a used index |
| GapLimit.ScanFindsUsed | masswallet/keystore/manager.go:435-497 | a scan with the same or a larger gap limit reaches every used index of such a wallet |
| GapLimit.RecoveryIsComplete | masswallet/keystore/manager.go:435-512 | restoring after any run finds every used address the wallet ever issued, for any starting child number of at least 1 |
| GapLimit.GapIsTight | masswallet/keystore/addrmgr.go:465-489 | with a scan limit one smaller, a run exists whose last used address is missed |
| Mnemonic.SetWordList | masswallet/keystore/mnemonic.go:74-80 | the lookup table is the inverse of a list of distinct words |
| Mnemonic.AddChecksum | masswallet/keystore/mnemonic.go:297-320 | rebuilding the checksum bit by bit appends the leading bits of the hash |
| Mnemonic.Chunk | masswallet/keystore/mnemonic.go:181-200 | the words filled in from the right are the eleven-bit digits of the number |
| Mnemonic.NewMnemonic | masswallet/keystore/mnemonic.go:160-203 | exactly the entropies of 16, 20, 24, 28 and 32 bytes get a sentence; its words are those of the standard, and all white space in it is single spaces between them |
| Mnemonic.EncodeBits | masswallet/keystore/mnemonic.go:160-203 | bit by bit: the words hold the bits of the entropy and then the first bits of its hash, eleven a word, from the left |
| Mnemonic.EntropyFromMnemonic | masswallet/keystore/mnemonic.go:111-156 | accepts exactly the sentences of some entropy and returns it |
| Mnemonic.MnemonicToByteArray | masswallet/keystore/mnemonic.go:208-252 | accepts exactly the same, and returns the same entropy, or its bytes with the checksum bits appended |
| Mnemonic.IsMnemonicValid | masswallet/keystore/mnemonic.go:273-293 | 12, 15, 18, 21 or 24 words, all in the list |
| Mnemonic.EncodeInjective | masswallet/keystore/mnemonic.go:160-203 | different entropies have different sentences, leading zero bytes included |
| Mnemonic.DecodeEncode | masswallet/keystore/mnemonic.go:111-203 | decoding the joined sentence of an entropy gives it back |
| Mnemonic.Reencode | masswallet/keystore/mnemonic.go:111-203 | encoding the entropy of an accepted sentence gives its words again; a sentence with single spaces is given back character by character, so the same seed is stretched from it |
| Mnemonic.DecodeNumber | masswallet/keystore/mnemonic.go:117-155 | a sentence of known words decodes to the leading bits of its number exactly if the rest are their checksum |
| Mnemonic.BothDecoders | masswallet/keystore/mnemonic.go:111-252 | the two decoders accept the same sentences and return the same bytes |
| Mnemonic.RoundTrip | masswallet/keystore/mnemonic.go:111-203 | encoding and then decoding an entropy succeeds and returns it |
| Sentence.FieldsTrimSpace | masswallet/keystore/mnemonic.go:210 | trimming a sentence first does not change its words |
| Sentence.FieldsJoin | masswallet/keystore/mnemonic.go:202 | splitting a joined sentence gives its words back |
| Sentence.FieldsSplit | masswallet/keystore/mnemonic.go:275 | splitting happens at every white space character Unicode lists, and loses it |
| Sentence.FieldsWhole | masswallet/keystore/mnemonic.go:275 | and nowhere else |
| Sentence.JoinFields | masswallet/keystore/mnemonic.go:202 | a sentence whose white space is single spaces between words is what its words joined give: the words determine the text |
| AmountText.RoundTrip | api/util.go:41-119 | every amount in range is printed, parsing the print gives it back, and the print is canonical |
| AmountText.PrintsInRange | api/util.go:41-51 | exactly the amounts from 0 to the maximum are printed |
| AmountText.ParseEvery | api/util.go:68-119 | the strings the parser accepts, by the form of their parts, signs included, and the amount each is read as |
| AmountText.ParseIsExact | api/util.go:68-119 | a string without a sign parses to v exactly if it is a numeral for v units in range |
| AmountText.ExactOrRefuses | api/util.go:68-119 | parsing is exact or refuses on exactly the strings without a sign and those it does not accept |
| AmountText.PrintParse | api/util.go:41-119 | an accepted string is printed back unchanged exactly if it is canonical |
| AmountText.SignIsNotExact | api/util.go:85-104 | a sign in the fraction is accepted and read as part of a number |
| AmountText.MinusIsDropped | api/util.go:75-99 | a minus sign in front of a zero is accepted and dropped: "-0.5" is read as one half |

## Left out

- The unmined side of `Rollback`: returning rolled-back transactions to the unmined buckets, whose stored value does not have the layout its reader expects (masswallet/txmgr/txstore.go:834, masswallet/txmgr/txstore_db.go:158-169). `Conflicts` models the unmined buckets apart from it.
- Address records and the game history: rollback deletes an address record instead of resetting it, does not touch the game history of a coinbase, and `removeUnminedGameHistory` never sets the output index, so neither has an inverse.
- The record order an import leaves: it appends to existing block records, so exact inversion is proved for `AddRelevantTx` only.
- Transaction records hold the transaction itself instead of a file location, and an input carries the script of the output it spends; fetching previous transactions is not modelled, so neither are the errors for one that cannot be found or has too few outputs.
- Credit flags, script classes with the error for a transaction that both spends and makes a binding output, and the lookup of spends by unmined transactions; which coins are eligible is a parameter of the selection.
- Mempool maps with their expiry, the cache of used coins, the queue of import requests, wallet removal, and the fast path at start-up.
- Handler.NtfnsHandler.Reorg: the chain database is a map of fetchable blocks and a map of its best chain, both fixed during one call; stored wallet statuses are in `ImportSafety`.
- Following.PathIndependence: two runs that overlook something and still end at the same tip are not compared, except that each call's effect is exact; a later rollback can bring such a ledger back to the replay.
- Conflicts.SettledLeads: the condition for complete removal is sufficient, not necessary; what an entangled removal leaves depends on the order in which outputs and entries are read, and is what the step-by-step removal says.
- TxStore.FilterTx: ownership and the set of ready wallets do not change while the chain is followed; `ImportSafety` has the change of a wallet to ready, at the level of blocks processed.
- ImportSafety.ChunkSafe: a step stands for one database transaction of the worker or the handler, and what is processed is the list of blocks for each height, not their transactions. A chunk that fails for another reason, such as a header the chain database lacks, changes nothing and is no step.
- Recount.WalletBalance: maturity, mempool spends and the kind of a coin are functions of the coin, not read from its flags.
- ImportSafety.StepKeeps: the import loop is a recursion over heights on values, so updates in place are not captured there.
- CoinSelection.GetCandidates: iterating the bucket is a sequence of eligible coins in any order; sorting is a library call, done here by insertion on a sequence and copied back into the array.
- FeeFixpoint.AutoConstruct: decoding addresses and building scripts; looking up the redeem scripts of the inputs is part of the coins given.
- RawTransaction.CreateRawTransaction: the choice of the change address, lock times, serialisation and marking coins as used; the dust test depends on the value alone, since all outputs have scripts of one kind.
- GapLimit.Scan: child derivation is total; on an invalid child the source's scan does not advance. One branch is modelled, since the address index is not keyed by branch.
- Mnemonic.NewMnemonic: random entropy, and seed stretching with a password.
- History.GetTxHistory: the order in which heights are listed for display, and the details of each transaction.
- Payload, sequence numbers, staking and binding outputs, timestamps, encryption, signing and the network services.
