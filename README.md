# Simulated full node: a Dafny model

This project models `Node`, the in-memory ledger of the Chia simulator in
`std/sim/node.py`. The node keeps six pieces of state:

- the block height;
- the timestamp;
- the farmed blocks;
- the live coin set (`coins`);
- one record per coin it ever added (`coin_records`);
- the pending spend bundles (`mempool`).

Its operations are modelled one by one:

- adding and removing a coin;
- querying coins by field values;
- looking up a coin record by coin name;
- building the block generator from the mempool;
- farming a block;
- submitting a spend bundle;
- the two setters.

Layout:

- `types.dfy` (module `Types`): the values. These are coins, coin spends,
  spend bundles, coin records, blocks and validator verdicts. It also holds
  `Env`, a record of the external functions the node calls but does not
  define: coin naming, a bundle's removals, additions and fees, the
  spend-bundle validator, signature aggregation, generator encoding, the
  reward schedule, the puzzle hash of a public key, the parent ids of the
  reward coins and the genesis challenge.
- `coin_store.dfy` (module `CoinStore`): specifications of the coin set and
  the record store, with their lemmas.
  - `Without` filters coins out by name.
  - `Select` filters coins on field values.
  - `SpendRecords` spends every record of one coin.
  - `SpendEach` and `NewRecords` describe a whole farming round.
  - `Consistent` is the invariant tying the two together: the live coins
    are exactly the coins of the unspent records.
- `mempool.dfy` (module `Mempool`): views over the mempool and the
  admission decision of `push_tx`.
  - `FlatMap` is the concatenated removals, additions or coin spends.
  - `TotalFees` is the sum of the bundle fees.
  - `Generator` is the combined generator.
  - `Admit` is the admission decision as written.
- `node.dfy` (module `SimNode`): class `Node`. Its fields are the node's
  state and its methods update them in place. Each loop of the source is a
  loop here, proved against the specification functions above.

`farm_block` is split along the source's own comments:

- `MempoolFees`: "Fees get calculated".
- `MempoolMoves`, `RemoveAll` and `AddAll`: "Coins get moved". `MoveCoins`
  runs these three in order.
- `MintAndSeal`: "Rewards get generated" and "Block is created".

## Model

| member | source | states |
|---|---|---|
| SimNode.Node.constructor | std/sim/node.py:21-30 | a new node is at height 0 with the given clock reading and empty blocks, coins, records and mempool, which are consistent |
| SimNode.Node.SetBlockHeight | std/sim/node.py:32-33 | the height becomes the argument; the frame says nothing else changes |
| SimNode.Node.SetTimestamp | std/sim/node.py:35-36 | the timestamp becomes the argument; the frame says nothing else changes |
| SimNode.Node.AddCoin | std/sim/node.py:38-50 | the coin is appended to `coins`; exactly one record is appended (confirmed at the current height, spent index 0, unspent, coinbase false, current timestamp); only coins and records change; consistency is preserved |
| SimNode.Node.RemoveCoin | std/sim/node.py:52-70 | given exactly one live coin with that name, the coin set loses exactly that coin (length drops by one) and keeps order; the records become `SpendRecords` of the old ones; consistency is preserved when names are injective |
| CoinStore.Without | std/sim/node.py:55 | the filtered coin set holds exactly the coins whose name is not removed |
| CoinStore.WithoutAppend | std/sim/node.py:55 | filtering keeps order and multiplicity: it distributes over a concatenation of coin lists |
| CoinStore.WithoutOneLength | std/sim/node.py:54-56 | filtering out one name shortens the set by the number of coins with that name, so the source's assertion holds iff exactly one coin has it |
| CoinStore.CountWithout | std/sim/node.py:55 | after filtering out some names, no coin with those names remains and other names keep their counts |
| CoinStore.WithoutMore | std/sim/node.py:55 | filtering out names one at a time is filtering out all of them at once |
| CoinStore.WithoutNamesIsMinus | std/sim/node.py:55 | with injective names, filtering out the removals' names removes exactly the removed coins |
| CoinStore.SpendRecordsEffect | std/sim/node.py:58-70 | the record count is unchanged; records of other coins are untouched; every record of the coin is replaced by a copy that is spent at the current height and time and keeps its confirmed index and coinbase flag; with no record of the coin nothing changes |
| CoinStore.SpendLoopNext | std/sim/node.py:60-70 | one turn of the record loop (remove the record, append its spent copy) keeps the loop invariant |
| CoinStore.SpendLoopDone | std/sim/node.py:59-70 | when the loop ends, the store is `SpendRecords` of the old one |
| CoinStore.RemoveFirst | std/sim/node.py:69 | `list.remove` drops one occurrence of the element: the length drops by one and the multiset loses that element |
| CoinStore.FirstIndex | std/sim/node.py:69 | the position found holds the element and no earlier position does |
| CoinStore.RemoveFirstIsFirst | std/sim/node.py:69 | `list.remove` drops the first occurrence: the result is the elements before it followed by the elements after it, in order |
| CoinStore.RemoveFirstAppend | std/sim/node.py:69-70 | removing an element found in a prefix leaves the suffix in place |
| CoinStore.PartitionLength | std/sim/node.py:59 | records of the coin and records of other coins together account for every record |
| CoinStore.ConsistentAdd | std/sim/node.py:38-50 | adding a coin with a fresh unspent record preserves consistency |
| CoinStore.ConsistentSpend | std/sim/node.py:52-70 | removing a coin and spending its records preserves consistency under injective names |
| SimNode.Node.GetCoins | std/sim/node.py:72-76 | the result is `Select(coins, filter)`: the coins, in order, whose fields equal every pair of the filter |
| CoinStore.Select | std/sim/node.py:72-76 | a coin is selected iff it is live and matches every pair of the filter; the result is no longer than the input |
| CoinStore.SelectNoFilter | std/sim/node.py:73-76 | with no filter every coin is returned, in order |
| CoinStore.KeepSelect | std/sim/node.py:74-75 | filtering on one more pair is selecting on the extended filter |
| CoinStore.SelectAppend | std/sim/node.py:72-76 | selection preserves order: it distributes over concatenation |
| CoinStore.SelectSamePairs | std/sim/node.py:74-75 | filtering is conjunctive: any filter with the same pairs, in any order or repeated, selects the same coins |
| SimNode.Node.GetCoinRecordByCoinName | std/sim/node.py:78-83 | None iff no record's coin has that name; otherwise the first such record in list order |
| CoinStore.RecordsNamed | std/sim/node.py:79 | the filtered list holds exactly the records whose coin has the name, and its head is the first of them |
| SimNode.Node.GenerateTransactionGenerator | std/sim/node.py:85-101 | None iff the mempool is empty; otherwise the encoding of one bundle carrying every pending coin spend in mempool order under the aggregate of every bundle's signature |
| Mempool.CombinedBundleAppend | std/sim/node.py:89-101 | a bundle joining the pool puts its coin spends after every earlier bundle's and its signature after every earlier signature, so the combined bundle keeps mempool order |
| Mempool.FlatMap | std/sim/node.py:110-116 | an element is in the concatenation iff it belongs to some bundle's list |
| Mempool.FlatMapAppend | std/sim/node.py:112-116 | concatenating per bundle distributes over a split of the mempool |
| SimNode.Node.MempoolFees | std/sim/node.py:104-107 | the accumulated fees are the total fees of the mempool |
| Mempool.TotalFeesAppend | std/sim/node.py:105-107 | total fees add up over a split of the mempool |
| Mempool.TotalFeesBound | std/sim/node.py:105-107 | every bundle's fee is included in the total |
| SimNode.Node.MempoolMoves | std/sim/node.py:109-116 | the accumulated removals and additions are the concatenations, over the mempool in order, of each bundle's removals and additions |
| SimNode.Node.RemoveAll | std/sim/node.py:118-119 | removing each removal in turn leaves the coins without every removal's name and the records spent removal by removal |
| CoinStore.RemovableStep | std/sim/node.py:118-119 | when every removal names exactly one live coin and no two removals share a name, each `remove_coin` call meets its precondition |
| CoinStore.RemovableLength | std/sim/node.py:118-119 | under the same condition, the removals take exactly one live coin each |
| SimNode.Node.AddAll | std/sim/node.py:120-121 | adding each addition in turn appends the additions to the coins and one fresh record per addition |
| CoinStore.NewRecordsAppend | std/sim/node.py:120-137 | the records of the additions followed by those of the reward coins are the records of both lists together |
| CoinStore.ConsistentSpendEach | std/sim/node.py:118-119 | spending every removal in turn preserves consistency under injective names |
| CoinStore.ConsistentAddEach | std/sim/node.py:120-121 | adding every addition in turn preserves consistency |
| SimNode.Node.MoveCoins | std/sim/node.py:104-121 | fees, removals and additions are the mempool totals; the coins are the old coins without the removals followed by the additions; the records follow |
| SimNode.RewardCoins | std/sim/node.py:123-135 | the pool coin carries the pool reward for the height; the farmer coin carries the base farmer reward plus the fees; both pay to the key's puzzle hash |
| SimNode.Node.MintAndSeal | std/sim/node.py:123-153 | the reward coins are added pool first, each with a non-coinbase record; a block is appended carrying them, the generator of the old mempool and the old height; the mempool is cleared; the height goes up by one; the timestamp becomes the new clock reading |
| SimNode.Node.FarmBlock | std/sim/node.py:103-157 | given removals that each name exactly one live coin: coins = (old coins minus the removals, order kept) ++ additions ++ [pool, farmer]; the number of coins changes by additions minus removals; records are spent and appended to match; the farmer coin carries the base reward plus the mempool's total fees; one block is appended at the old height; the mempool is empty; the height is old + 1; it returns [pool, farmer] ++ additions and the removals; consistency is preserved |
| SimNode.Node.PushTx | std/sim/node.py:159-188 | the validator sees the pending removals, the records and the height; the new mempool and the outcome are those of `Admit`; only the mempool can change |
| Mempool.Admit | std/sim/node.py:167-187 | for a new bundle: FAILED is an error (rejected with its code, or the assertion when no code) and leaves the mempool alone; SUCCESS appends the bundle; PENDING leaves the mempool alone; both report the status and cost. A bundle already pending is appended again and the reply fails on the unbound cost |
| Mempool.ResubmissionDuplicates | std/sim/node.py:167-187 | submitting an admitted bundle again leaves two copies in the mempool and fails |
| Mempool.AdmitIntendedIdempotent | std/sim/node.py:167-187 | with the corrected decision, submitting the same bundle twice succeeds both times and leaves one copy |

## Left out

- BLS signature aggregation, public keys and `create_puzzlehash_for_pk` are
  not modelled. They are fields `aggregate` and `puzzleHashForPk` of `Env`:
  arbitrary functions with no assumed properties.
- `validate_spendbundle` is not modelled. It is the field `validate` of
  `Env`: an arbitrary function of the bundle, the pending removals, the
  records and the height. Preventing a double spend is its job, so the model
  proves nothing about double spends.
- The reward schedule and coinbase construction are abstract `Env` fields:
  `calculate_pool_reward`, `calculate_base_farmer_reward`, and the parent ids
  `create_pool_coin` and `create_farmer_coin` derive from the height and the
  genesis challenge. `coinbase.py` and `block_rewards.py` are not part of
  this model.
- `Coin.name()`, `SpendBundle.removals()`, `additions()`, `fees()` and
  `simple_solution_generator` are abstract `Env` fields. Names are assumed
  injective only in the consistency results and in `WithoutNamesIsMinus`,
  which say so in their contracts.
- The wall clock: `time.time()` and `float_to_timestamp` become the `now`
  parameter of the constructor and of `FarmBlock`.
- The class-level list defaults that Python shares between `Node` instances
  are not modelled. Each `Node` owns its own fields, and the constructor
  starts them empty.
- `uint32` and `uint64` bounds are not modelled. Heights, timestamps,
  amounts and fees are unbounded naturals, so overflow is not captured, and
  a negative fee from `fees()` cannot be expressed.
- `get_coins` looks fields up through `__dict__[key]`. The model uses a
  filter pair per `Coin` field. A key that is not a field raises `KeyError`
  in the source; the model has no such input.
- With an empty filter, `get_coins` returns the node's own list object.
  The model returns a value, so later aliasing through that list is not
  captured.
- The `ValueError` message text and the name computed for it are not
  modelled; FAILED is `Err(TransactionRejected(code))`.
- SimNode.Node.RemoveCoin: the failing path is excluded by a precondition.
  In the source, a name held by zero or several coins reassigns `coins`
  before the assertion fails, so a failed call has already changed the coin
  set. The model requires exactly one coin with the name.
- SimNode.Node.FarmBlock: requires that every removal names exactly one live
  coin and that no two removals share a name. Otherwise some `remove_coin`
  call fails its assertion partway through the round.
- SimNode.Node.PushTx: the branch at `std/sim/node.py:172-176` is not
  modelled. It re-checks whether a bundle that failed validation is in the
  mempool, but it is only reached when the bundle was not in the mempool.
  The validator runs in between, at `std/sim/node.py:171`, but it receives
  `removals`, `self.coin_records` and `self.block_height`, never
  `self.mempool`, and nothing else touches the mempool before the second
  test. So the second test repeats the first one's answer and the branch
  can never fire.
- Records always carry `coinbase = false`, the reward coins included,
  because `add_coin` passes `False`. The model follows the code, not the
  intent that reward coins are coinbase coins.

## Findings

| source | as written | input that shows it | evidently intended | confidence | as-written member | corrected member |
|---|---|---|---|---|---|---|
| std/sim/node.py:167-187 | a bundle already in the mempool skips validation, so `cost` is never bound; with status SUCCESS it is appended a second time and the return reads the unbound `cost` | push the same valid bundle twice: the second call leaves two copies in the mempool and raises instead of replying | resubmitting a pending bundle succeeds without touching the mempool | not executed | Mempool.ResubmissionDuplicates | Mempool.AdmitIntendedIdempotent |
