# ZakatChain ledger, modelled in Dafny

This project models the ledger of ZakatChain (`blockchain.py`). ZakatChain is a single-writer blockchain that tracks coin balances for registered nodes (students' roll numbers). It levies a 2.5% zakat on the sender's whole balance with every transfer. Blocks are sealed by proof of work, and every block is seeded with the creator's roll number.

The model is functional:

- A `Ledger` value holds the creator, the chain, the pending entries, the balance map and the node registry.
- Each public operation of `ZakatBlockchain` is a pure function from one ledger to the next.
  - Operations that can refuse return `Step(ok, ledger)`.
  - Mining returns `Option<Ledger>`.
- SHA-256 with `hexdigest()` and the `str(tx.to_dict())` text of an entry are parameters (`Primitives`). The predicate `DigestShaped` states what `hexdigest()` guarantees: 64 lowercase hex characters.
- Clock readings are one `now` string per operation.
- Coin amounts are `real`.

Modules, one per file:

- `Wrappers` (wrappers.dfy): `Option`.
- `Digest` (digest.dfy): hex digests, the leading-zero target, decimal rendering of block index and nonce.
- `Transactions` (transactions.dfy): `Transaction`, its kinds, and the issuer accounts `System` and `Genesis`.
- `Blocks` (blocks.dfy): the hash input, `calculate_hash`, and the nonce search of `mine_block`.
- `ZakatChain` (ledger.dfy): the ledger and its operations.
- `Accounting` (accounting.dfy): per-account flows, the sum of all balances, and what one mined block does to each.
- `Validation` (validation.dfy): `validate_chain`, and detection of tampering.
- `Invariants` (invariants.dfy): the structural invariant that every operation keeps.
- `Queries` (queries.dfy): the transaction history and the statistics record.
- `Scenarios` (scenarios.dfy): the repository's test scenarios, stated as lemmas.

## Model

| member | source | states |
|---|---|---|
| Transactions.MakeTransaction | blockchain.py:19-37 | An entry keeps the fields it was given. A missing (empty) timestamp is replaced by the current time. |
| Transactions.ZakatSumAppend | blockchain.py:445-450 | Totalling zakat over two runs of entries gives the sum of the two totals, so the levy total can be accumulated block by block. |
| Digest.MeetsTargetIff | blockchain.py:107-108 | A hash meets the target exactly when it has at least `difficulty` characters and each of the first `difficulty` is `'0'`. |
| Digest.Zeros | blockchain.py:107 | The target string has `difficulty` characters, all `'0'`. |
| Blocks.HashIgnoresStoredHash | blockchain.py:75-98 | The hash input leaves out the stored hash, so overwriting the stored hash never changes the recomputed one. |
| Blocks.CalculateHash | blockchain.py:75-98 | The hash is the digest of the hash input (`Blocks.BlockString`). |
| Blocks.BlockStringLayout | blockchain.py:83-95 | The hash input is the seed, index, concatenated entry texts, previous hash, timestamp and nonce, in that order, with a colon between neighbours. |
| Blocks.NewBlock | blockchain.py:56-73 | A new block has the given fields and nonce 0, and its stored hash is its own recomputed hash. |
| Blocks.FindNonce | blockchain.py:108-110 | A found nonce lies inside the searched range, meets the target, and is the first one that does. When nothing is found, every nonce tried missed. |
| Blocks.MineBlock | blockchain.py:100-110 | On return the hash meets the target and only the nonce and hash differ. The nonce did not decrease. The hash is the stored one when no bump happened, otherwise the hash at the new nonce. Every nonce passed over missed. Exhausted fuel means every nonce tried missed. |
| Blocks.MinedBlockSealed | blockchain.py:100-110 | Mining a sealed block yields a sealed block that meets the target and keeps index, entries, previous hash and seed. |
| Blocks.MinedHashHasLeadingZeros | blockchain.py:100-110 | With a real hex digest, a mined hash starts with `difficulty` zeros, and `difficulty` is at most 64. |
| ZakatChain.CalculateZakat | blockchain.py:220-230 | The zakat is one fortieth of the balance (2.5%). It is positive exactly when the balance is positive. |
| ZakatChain.AddNode | blockchain.py:152-179 | Succeeds exactly when the id is not registered, and a refusal changes nothing. On success the id gets a fresh record with zero counters and active status. Its balance is the existing one if it had any, otherwise the starting balance. No other account changes, and the chain and pending list are untouched. |
| ZakatChain.GenesisBlock | blockchain.py:197-214 | Block 0 has previous hash `"0"`, the creator as seed and nonce 0. It holds one `Genesis` entry of 200.0 to the creator and is sealed without mining. |
| ZakatChain.NewLedger | blockchain.py:130-150 | A new ledger holds only the genesis block and no pending entries. The creator is the only registered node and holds exactly the starting balance, not the genesis amount. |
| ZakatChain.GetBalance | blockchain.py:335-345 | An address with a balance entry reads that entry, and any other address reads 0. |
| ZakatChain.ValidateTransaction | blockchain.py:249-266 | An entry is valid exactly when the sender's current balance is not below amount plus zakat. |
| ZakatChain.IssuersNotExempt | blockchain.py:259-266 | `System` and `Genesis` get no exemption: without a balance entry, their costly entries are invalid and refused. |
| ZakatChain.PendingReservesNothing | blockchain.py:259-266 | The verdict ignores the pending list, so an accepted entry is accepted again when queued a second time. |
| ZakatChain.AddTransaction | blockchain.py:232-266 | Accepts an entry exactly when the sender's current balance (0 if unknown) covers amount plus zakat, whoever the sender is. An accepted entry is appended at the end of the pending list. A refused one leaves the ledger unchanged. |
| ZakatChain.CreateZakatTransaction | blockchain.py:347-372 | Succeeds exactly when the payer's balance is positive. It queues a zero-amount zakat entry of balance/40 to the given receiver, and a refusal changes nothing. |
| ZakatChain.CreateTransferTransaction | blockchain.py:374-397 | Succeeds exactly when the amount is at most 97.5% of the sender's balance. It queues a transfer whose zakat is balance/40, and a refusal changes nothing. |
| ZakatChain.CreateGiftTransaction | test_multi_node.py:191-205 | A caller-built gift (zakat 0) is queued exactly when the balance covers the amount. |
| ZakatChain.UpdateNodeStats | blockchain.py:189-195 | A registered node's count rises by one, its paid and received totals rise by the given amounts, and its balance snapshot is refreshed. No other record changes, and an unregistered id changes nothing. |
| ZakatChain.ApplyTransaction | blockchain.py:313-333 | One entry credits the receiver its amount and debits a non-issuer sender amount plus zakat. Every other balance stays, and the registry keeps its ids. |
| ZakatChain.RewardTransaction | blockchain.py:276-282 | The reward is a `System` entry of 10.0 to the miner, with zakat 0. |
| ZakatChain.MinePendingTransactions | blockchain.py:268-304 | Appends exactly one block and keeps the old blocks. The block's index is the old length, it links to the old head, and it is seeded by the creator whoever mines. Its entries are the old pending list followed by the reward. It is sealed and meets difficulty 2, and the pending list is empty afterwards. |
| ZakatChain.UpdateBalances | blockchain.py:306-333 | Entries are applied in order: applying two runs is applying the first, then the second (`Accounting.UpdateBalancesAppend`). |
| Accounting.UpdateBalancesAppend | blockchain.py:313-333 | Applying `a + b` equals applying `a` and then `b`. |
| Accounting.UpdateBalancesPerAccount | blockchain.py:306-329 | After applying a run of entries, each account's balance is the old one plus what it received minus amount plus zakat of what it sent. Issuers are never debited. |
| Accounting.UpdateBalancesKeys | blockchain.py:313-329 | Applying entries adds exactly the non-issuer senders and all receivers as balance keys. It never adds or removes registry records. |
| Accounting.UpdateBalancesTotal | blockchain.py:306-329 | The sum of all balances changes by the issuers' amounts minus the zakat of the non-issuer entries. |
| Accounting.ApplyTransactionTotal | blockchain.py:314-329 | One applied entry changes the sum of balances by its issued amount, or by minus its zakat. |
| Accounting.UpdateBalancesNodeStats | blockchain.py:306-333 | Each registered node's count rises by its non-issuer sends plus its zakat receipts outside the fund. Its paid total rises by the zakat it sent and its received total by the zakat entries addressed to it. Its id, join time and active flag stay as they were. A node with no such event keeps its old balance snapshot, whatever it received. |
| Accounting.SnapshotRefreshedBySender | blockchain.py:313-323 | After a non-issuer sends to someone else, its registry snapshot equals its new balance. |
| Accounting.SnapshotStaleForReceiver | blockchain.py:325-333 | A registered receiver of a transfer keeps its registry record unchanged while its balance rises by the amount, so its snapshot goes stale. |
| Accounting.IssuanceWithoutIssuers | blockchain.py:313-329 | Without issuer senders, the supply change of a run of entries is minus its total zakat. |
| Accounting.IssuanceAppend | blockchain.py:313-329 | The supply change of two runs of entries is the sum of their changes. |
| Accounting.TotalUpdate | blockchain.py:317-327 | Adding `d` to one account, created at zero if it is absent, adds `d` to the sum of balances. |
| Accounting.AddNodeTotal | blockchain.py:176-177 | Registering a node adds its starting balance to the sum of balances, unless it already had a balance. |
| Accounting.MinedBalances | blockchain.py:268-333 | After mining, each account's balance is the old one plus its credits minus its debits over the pending entries and the reward. |
| Accounting.MinedSupply | blockchain.py:268-333 | One mined block changes the sum of balances by the mining reward minus the zakat of the pending entries. |
| Accounting.ZakatLeavesSupply | blockchain.py:319-327 | When the pending entries carry any zakat and none of them is sent by `System` or `Genesis`, the sum of balances after mining is below the old sum plus the reward. The levied coins leave the system. |
| Validation.ValidateChain | blockchain.py:399-418 | Returns true exactly when every block after the first recomputes to its stored hash and links to its predecessor's hash. |
| Validation.ChainValidAppend | blockchain.py:286-298 | Appending a sealed block that links to the head keeps the chain valid. |
| Validation.Tamper | test_blockchain.py:142-151 | Overwriting one block's stored hash changes only that field of that block, and every other block stays as it was. |
| Validation.TamperDetected | blockchain.py:408-410 | Overwriting a later block's hash with anything but its recomputed hash makes the chain invalid, and writing the old value back restores the chain exactly. |
| Validation.TamperWithNonDigest | test_blockchain.py:142-153 | In a valid chain with real digests, writing a non-digest over block 1's hash is detected, and restoring the original makes the chain valid again. |
| Validation.TestTamperStringsAreNotDigests | test_multi_node.py:262-263 | `"tampered_hash"` and `"tampered_hash_12345"` are not hex digests. |
| Validation.GenesisUnchecked | blockchain.py:406-416 | Changing block 0 while keeping its stored hash never changes the verdict, because block 0's contents are never checked. |
| Invariants.NewLedgerWellFormed | blockchain.py:130-150 | A new ledger satisfies the invariant: contiguous indices, creator seeds, a `"0"` genesis link, a genesis block whose stored hash is its recomputed hash, a valid chain, every block after the first meeting difficulty 2, and an active registry whose members all hold balances. |
| Invariants.AddNodeWellFormed | blockchain.py:152-179 | Registering a node, accepted or not, keeps the invariant. |
| Invariants.EnqueueWellFormed | blockchain.py:232-397 | Queuing entries keeps the invariant. |
| Invariants.MineWellFormed | blockchain.py:268-304 | Mining keeps the invariant: the genesis block stays sealed and unchanged, `validate_chain` stays true after every mined block, and every mined block's hash starts with two zeros. |
| Queries.TransactionHistory | blockchain.py:420-436 | The history has as many rows as the chain has sealed entries. |
| Queries.Tagged | blockchain.py:431-434 | A block contributes one row per entry, in order, each tagged with the block's index and hash. |
| Queries.HistoryEntries | blockchain.py:420-436 | The history has one row per sealed entry, and each row carries that entry. |
| Queries.HistoryAt | blockchain.py:420-436 | Entry `j` of block `i` sits after all entries of earlier blocks, tagged with block `i`'s index and hash. |
| Queries.GetBlockchainStats | blockchain.py:438-463 | The counts are the block count and the number of sealed entries, which is the history length. The zakat total is summed over the same entries. The validity flag agrees with `validate_chain`, and the node counts count the registry. |
| Queries.AllNodesActive | blockchain.py:166-174 | When every registry record is active, the active-node count equals the node count. |
| Scenarios.CreationScenario | test_blockchain.py:14-24 | A ledger for 2021-CS-001 with 200 coins has one block seeded by the creator, a balance of 200, and a valid chain. |
| Scenarios.ZakatExamples | test_blockchain.py:41-50 | Zakat on 200, 100, 400 and 50 is 5, 2.5, 10 and 1.25. |
| Scenarios.TransactionCreationScenario | test_blockchain.py:57-81 | A zakat entry and a 50-coin transfer are queued. A 1000-coin transfer is refused. |
| Scenarios.ZakatAndTransferThenMine | test_blockchain.py:95-115 | A zakat entry and a transfer mined by the payer leave it with `B - 2*B/40 - amount + 10`. The receiver gains the amount and the zakat fund gains nothing. |
| Scenarios.MiningScenario | test_blockchain.py:88-115 | In the mining test the creator ends with 170, the receiver with 30 and the zakat fund with 0. The chain has two blocks and nothing is pending. |
| Scenarios.TransferThenMine | test_blockchain.py:251-270 | One round of the balance-tracking test: the sender ends with `B - amount - B/40 + 10` and the receiver gains the amount. |
| Scenarios.SendAndSealScenario | blockchain.py:268-418 | Creator C1 with 200 sends 50 to C2 and mines. C2 then holds 50 and C1 holds 155, and the two-block chain is valid. |
| Scenarios.FourRegistrations | test_multi_node.py:26-46 | Four distinct nodes with 200, 150, 250 and 180 are all accepted and a repeated id is refused. The registry has five nodes, and the balances total 980. |
| Scenarios.MultiNodeScenario | test_multi_node.py:149-174 | The multi-node test's network starts with 980 coins, not the 5 x 200 its conservation check assumes. |
| Scenarios.OverdraftScenario | blockchain.py:249-320 | Two 90-coin transfers from an account holding 100 are both accepted. Once mined by someone else, they leave it at -85. |
| Scenarios.GiftScenario | test_multi_node.py:191-205 | A gift with no zakat is accepted for amounts that a transfer of the same size would be refused for. |
| Scenarios.ThreeEntryFlows | blockchain.py:313-329 | What a three-entry block credits and debits to one account, entry by entry. |

## Behaviour worth knowing

The model follows `blockchain.py` in each case below.

- **Zakat is destroyed.** The multi-node test asserts that the sum of balances is the starting total plus 10 per mined block (test_multi_node.py:169-174). Its closing summary lists this as "Balance conservation across network" (test_multi_node.py:330).
  - The code debits `amount + zakat_amount` from the sender but credits only `amount` (blockchain.py:319-329). A zakat entry has amount 0 (blockchain.py:365), so the zakat fund receives nothing.
  - `Accounting.MinedSupply` and `Accounting.ZakatLeavesSupply` show that each block whose pending entries are not sent by `System` or `Genesis` lowers the supply by its total zakat. `Accounting.UpdateBalancesTotal` covers the general case, where an issuer-sent entry adds its amount undebited.
  - The same test also takes the starting total as five 200-coin nodes (test_multi_node.py:170). The nodes are created with 200, 200, 150, 250 and 180 coins (test_multi_node.py:20-31), 980 in all (`Scenarios.MultiNodeScenario`).
- **Genesis is not applied.** The genesis entry always carries 200.0 to the creator (blockchain.py:199-205), whatever starting balance was given.
  - `update_balances` is never called on block 0, so the entry moves no coins.
  - The creator's balance is set directly from the starting balance (blockchain.py:141), so balances are not the sum of the chain's entries.
- **No issuer exemption in validation.** `update_balances` never debits `System` or `Genesis` senders (blockchain.py:315). `validate_transaction` exempts nobody (blockchain.py:259-266), so an issuer-sent entry queued through `add_transaction` is refused unless the issuer holds a balance (`ZakatChain.IssuersNotExempt`). The reward entry skips validation only because it is appended directly (blockchain.py:284).
- **No reservation of funds.** Validation reads the current balance only (blockchain.py:259-266), and `update_balances` never checks for overdraft (blockchain.py:313-320). Several queued entries from one sender can therefore drive its balance negative (`ZakatChain.PendingReservesNothing`, `Scenarios.OverdraftScenario`).

## Left out

- enhanced_app.py (the Streamlit interface) is not part of this model. It only calls the ledger's methods; its gift path is `CreateGiftTransaction`.
- SHA-256 itself: the hash function is a parameter, constrained to 64-character lowercase hex output where a lemma needs it. The different-seeds-give-different-hashes test (test_blockchain.py:206-229) rests on collision resistance and differing clocks, so it is not stated.
- The Python `str()` of an entry's dictionary, including float formatting and string quoting, is a parameter. Only the `:`-separated field order of the block string is modelled.
- Wall-clock time: every operation takes one `now` string. Python reads the clock separately for an entry and for its block; those readings are taken to agree.
- Floating-point rounding: amounts are exact reals, so the tests' `< 0.01` tolerances become equalities.
- Blocks.MineBlock: the unbounded nonce loop is a search of at most `fuel` nonces. `None` means the fuel ran out, and the loop's non-termination for an unlucky hash is not modelled.
- ZakatChain.MinePendingTransactions: it inherits the fuel bound of `MineBlock`. Its contract speaks only of the outcome where a nonce is found.
- Blocks.MinedHashHasLeadingZeros: the leading-zero statement needs the digest-shape assumption on the hash parameter. The target check itself holds for any hash (`Blocks.MineBlock`).
- Accounting.MinedSupply: assumes no pending entry is sent by `System` or `Genesis`. Validation does not exclude such entries, and `Accounting.UpdateBalancesTotal` gives the general form.
- Accounting.ZakatLeavesSupply: assumes no pending entry is sent by `System` or `Genesis`. Such an entry passes validation when the issuer holds a balance, and it is never debited (blockchain.py:315). Its amount then enters the supply, which can outweigh the zakat. `Accounting.UpdateBalancesTotal` gives the general form.
- Validation.TamperWithNonDigest: covers non-digest strings such as the tests'. For an arbitrary replacement, `Validation.TamperDetected` needs it to differ from the recomputed hash.
- `to_dict` and JSON export (blockchain.py:39-48, 112-122, 465-476), the tests' file writes, and the printing in `demo_blockchain` are output formatting.
- `get_all_nodes`, `get_node_info` and `get_latest_block` are plain lookups. `get_balance` is `ZakatChain.GetBalance`, reading 0 for unknown addresses.
- Default arguments are explicit parameters or constants: `initial_balance=200.0` (blockchain.py:130, 152), `to_address="Zakat_Fund"` (blockchain.py:347), the zero defaults of `update_node_stats` (blockchain.py:189) and `difficulty=2` (blockchain.py:100).
- `transaction_type` is a free string in Python (blockchain.py:20). Here it is the five-value `TxType`, naming the kinds the code creates and compares against. `TxType.Name()` gives each kind's Python string, the one that `str(tx.to_dict())` puts into the hash input. A caller-made type string outside these five is not modelled.
- Python's in-place aliasing is not modelled: the block shares the pending list object until pending is replaced (blockchain.py:289, 304), and the ledger here is a value.
