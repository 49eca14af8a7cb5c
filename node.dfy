/** The simulated full node: a single in-memory ledger whose methods update
    its height, timestamp, block history, live coin set, coin records and
    mempool in place. */
module SimNode {
  import opened Types
  import opened CoinStore
  import opened Mempool

  /** The pool reward coin create_pool_coin builds for `height`. */
  function PoolCoin(env: Env, height: nat, puzzleHash: Bytes32, reward: nat): (c: Coin)
    ensures c.puzzleHash == puzzleHash && c.amount == reward
  {
    Coin(env.poolParentId(height, env.genesisChallenge), puzzleHash, reward)
  }

  /** The farmer reward coin create_farmer_coin builds for `height`. */
  function FarmerCoin(env: Env, height: nat, puzzleHash: Bytes32, reward: nat): (c: Coin)
    ensures c.puzzleHash == puzzleHash && c.amount == reward
  {
    Coin(env.farmerParentId(height, env.genesisChallenge), puzzleHash, reward)
  }

  /** The pool and farmer reward coins farm_block mints at `height` for the
      key `publicKey`, the farmer coin carrying the block's `fees`. */
  function RewardCoins(env: Env, height: nat, publicKey: PublicKey, fees: nat): (r: seq<Coin>)
    ensures |r| == 2
    ensures r[0].puzzleHash == r[1].puzzleHash == env.puzzleHashForPk(publicKey)
    ensures r[0].amount == env.poolReward(height)
    ensures r[1].amount == env.baseFarmerReward(height) + fees
  {
    var ph := env.puzzleHashForPk(publicKey);
    [PoolCoin(env, height, ph, env.poolReward(height)), FarmerCoin(env, height, ph, env.baseFarmerReward(height) + fees)]
  }

  class Node {
    /** The external capabilities this node calls. */
    const env: Env
    var blockHeight: nat
    var timestamp: nat
    var blocks: seq<FullBlock>
    var coins: seq<Coin>
    var coinRecords: seq<CoinRecord>
    var mempool: seq<SpendBundle>

    /** A fresh node at height 0 whose timestamp is the wall-clock reading
        `now`. */
    constructor (env: Env, now: nat)
      ensures this.env == env
      ensures blockHeight == 0 && timestamp == now
      ensures blocks == [] && coins == [] && coinRecords == [] && mempool == []
      ensures Consistent(coins, coinRecords)
    {
      this.env := env;
      blockHeight := 0;
      timestamp := now;
      blocks := [];
      coins := [];
      coinRecords := [];
      mempool := [];
    }

    method SetBlockHeight(height: nat)
      modifies this`blockHeight
      ensures blockHeight == height
    {
      blockHeight := height;
    }

    method SetTimestamp(t: nat)
      modifies this`timestamp
      ensures timestamp == t
    {
      timestamp := t;
    }

    /** Adds `coin` to the live set with an unspent, non-coinbase record
        confirmed at the current height and stamped with the current time. */
    method AddCoin(coin: Coin)
      modifies this`coins, this`coinRecords
      ensures coins == old(coins) + [coin]
      ensures coinRecords == old(coinRecords) + [NewRecord(coin, blockHeight, timestamp)]
      ensures old(Consistent(coins, coinRecords)) ==> Consistent(coins, coinRecords)
    {
      ghost var coins0, records0 := coins, coinRecords;
      coins := coins + [coin];
      var record := CoinRecord(coin, blockHeight, 0, false, false, timestamp);
      coinRecords := coinRecords + [record];
      if Consistent(coins0, records0) {
        ConsistentAdd(coins0, records0, coin, blockHeight, timestamp);
      }
    }

    /** Removes the one live coin named like `coin` and replaces every record
        of `coin` by its copy spent at the current height and time. */
    method RemoveCoin(coin: Coin)
      requires CountNamed(env.name, coins, env.name(coin)) == 1
      modifies this`coins, this`coinRecords
      ensures coins == Without(env.name, old(coins), [env.name(coin)])
      ensures |coins| == |old(coins)| - 1
      ensures coinRecords == SpendRecords(old(coinRecords), coin, blockHeight, timestamp)
      ensures Injective(env.name) && old(Consistent(coins, coinRecords)) ==> Consistent(coins, coinRecords)
    {
      ghost var coins0, records0 := coins, coinRecords;
      var oldLen := |coins|;
      coins := Without(env.name, coins, [env.name(coin)]);
      WithoutOneLength(env.name, coins0, env.name(coin));
      assert |coins| == oldLen - 1;

      var matching := Matching(coinRecords, coin);
      ghost var rest := coinRecords;
      var i := 0;
      while i < |matching|
        modifies this`coinRecords
        invariant SpendLoopInv(coinRecords, rest, matching, i, coin, blockHeight, timestamp, records0)
      {
        var record := matching[i];
        SpendLoopNext(coinRecords, rest, matching, i, coin, blockHeight, timestamp, records0);
        var updated := CoinRecord(coin, record.confirmedBlockIndex, blockHeight, true, record.coinbase, timestamp);
        coinRecords := RemoveFirst(coinRecords, record);
        coinRecords := coinRecords + [updated];
        rest := RemoveFirst(rest, record);
        i := i + 1;
      }
      SpendLoopDone(coinRecords, rest, matching, coin, blockHeight, timestamp, records0);

      if Injective(env.name) && Consistent(coins0, records0) {
        ConsistentSpend(env.name, coins0, records0, coin, blockHeight, timestamp);
      }
    }

    /** The live coins, in order, whose fields equal every pair of `filter`. */
    method GetCoins(filter: seq<FieldEq>) returns (r: seq<Coin>)
      ensures r == Select(coins, filter)
    {
      var filtered := coins;
      SelectNoFilter(coins);
      for i := 0 to |filter|
        invariant filtered == Select(coins, filter[..i])
      {
        KeepSelect(coins, filter[..i], filter[i]);
        assert filter[..i + 1] == filter[..i] + [filter[i]];
        filtered := Keep(filtered, filter[i]);
      }
      assert filter[..|filter|] == filter;
      r := filtered;
    }

    /** The first record, in store order, whose coin is named `n`; none when
        no record's coin has that name. */
    function GetCoinRecordByCoinName(n: Bytes32): (r: Option<CoinRecord>)
      reads this
      ensures r.None? <==> forall i :: 0 <= i < |coinRecords| ==> env.name(coinRecords[i].coin) != n
      ensures r.Some? ==>
                exists k :: (&& 0 <= k < |coinRecords| && coinRecords[k] == r.value
                             && env.name(r.value.coin) == n
                             && forall j :: 0 <= j < k ==> env.name(coinRecords[j].coin) != n)
    {
      var matching := RecordsNamed(env.name, coinRecords, n);
      if |matching| > 0 then Some(matching[0]) else None
    }

    /** The generator of the block the current mempool would be farmed into. */
    method GenerateTransactionGenerator() returns (r: Option<Program>)
      ensures r.None? <==> mempool == []
      ensures r == Generator(env, mempool)
    {
      if |mempool| == 0 {
        return None;
      }
      var signatures := [];
      var coinSolutions := [];
      for i := 0 to |mempool|
        invariant signatures == Signatures(mempool[..i])
        invariant coinSolutions == FlatMap(mempool[..i], CoinSolutionsOf)
      {
        assert mempool[..i + 1][..i] == mempool[..i];
        signatures := signatures + [mempool[i].aggregatedSignature];
        coinSolutions := coinSolutions + mempool[i].coinSolutions;
      }
      assert mempool[..|mempool|] == mempool;
      var aggSig := env.aggregate(signatures);
      var totalBundle := SpendBundle(coinSolutions, aggSig);
      r := Some(env.encodeGenerator(totalBundle));
    }

    /** The fees of every pending bundle, summed in mempool order. */
    method MempoolFees() returns (fees: nat)
      ensures fees == TotalFees(env.fees, mempool)
    {
      fees := 0;
      for i := 0 to |mempool|
        invariant fees == TotalFees(env.fees, mempool[..i])
      {
        assert mempool[..i + 1][..i] == mempool[..i];
        fees := fees + env.fees(mempool[i]);
      }
      assert mempool[..|mempool|] == mempool;
    }

    /** The removals and the additions of every pending bundle, each bundle's
        in order, bundles in mempool order. */
    method MempoolMoves() returns (removals: seq<Coin>, additions: seq<Coin>)
      ensures removals == FlatMap(mempool, env.removals)
      ensures additions == FlatMap(mempool, env.additions)
    {
      removals := [];
      additions := [];
      for i := 0 to |mempool|
        invariant removals == FlatMap(mempool[..i], env.removals)
        invariant additions == FlatMap(mempool[..i], env.additions)
      {
        assert mempool[..i + 1][..i] == mempool[..i];
        removals := removals + env.removals(mempool[i]);
        additions := additions + env.additions(mempool[i]);
      }
      assert mempool[..|mempool|] == mempool;
    }

    /** remove_coin on each of `removals` in turn: every removal's live coin
        leaves the set and its records are spent at the current height and
        time. */
    method RemoveAll(removals: seq<Coin>)
      requires Removable(env.name, coins, removals)
      modifies this`coins, this`coinRecords
      ensures coins == Without(env.name, old(coins), Names(env.name, removals))
      ensures coinRecords == SpendEach(old(coinRecords), removals, blockHeight, timestamp)
    {
      ghost var coins0, records0 := coins, coinRecords;
      WithoutNothing(env.name, coins);
      for i := 0 to |removals|
        invariant coins == Without(env.name, coins0, Names(env.name, removals[..i]))
        invariant coinRecords == SpendEach(records0, removals[..i], blockHeight, timestamp)
      {
        RemovableStep(env.name, coins0, removals, i);
        assert removals[..i + 1][..i] == removals[..i];
        RemoveCoin(removals[i]);
      }
      assert removals[..|removals|] == removals;
    }

    /** add_coin on each of `additions` in turn. */
    method AddAll(additions: seq<Coin>)
      modifies this`coins, this`coinRecords
      ensures coins == old(coins) + additions
      ensures coinRecords == old(coinRecords) + NewRecords(additions, blockHeight, timestamp)
    {
      ghost var coins0, records0 := coins, coinRecords;
      for i := 0 to |additions|
        invariant coins == coins0 + additions[..i]
        invariant coinRecords == records0 + NewRecords(additions[..i], blockHeight, timestamp)
      {
        assert additions[..i + 1] == additions[..i] + [additions[i]];
        AddCoin(additions[i]);
      }
      assert additions[..|additions|] == additions;
    }

    /** The first half of farm_block: sums the pending fees, then moves the
        pending coins (every removal spent, then every addition added). */
    method MoveCoins() returns (fees: nat, removals: seq<Coin>, additions: seq<Coin>)
      requires Removable(env.name, coins, FlatMap(mempool, env.removals))
      modifies this`coins, this`coinRecords
      ensures fees == TotalFees(env.fees, mempool)
      ensures removals == FlatMap(mempool, env.removals) && additions == FlatMap(mempool, env.additions)
      ensures coins == Without(env.name, old(coins), Names(env.name, removals)) + additions
      ensures coinRecords == SpendEach(old(coinRecords), removals, blockHeight, timestamp)
                             + NewRecords(additions, blockHeight, timestamp)
    {
      fees := MempoolFees();
      removals, additions := MempoolMoves();
      RemoveAll(removals);
      AddAll(additions);
    }

    /** Farms one block over the whole mempool: spends every removal, adds
        every addition, mints the pool and farmer reward coins, appends the
        block, clears the mempool, moves to the next height and takes the
        wall-clock reading `now` as the new timestamp. */
    method FarmBlock(publicKey: PublicKey, now: nat) returns (additionsOut: seq<Coin>, removalsOut: seq<Coin>)
      requires Removable(env.name, coins, FlatMap(mempool, env.removals))
      modifies this
      ensures var h, t, mp := old(blockHeight), old(timestamp), old(mempool);
              var removals, additions := FlatMap(mp, env.removals), FlatMap(mp, env.additions);
              var rewards := RewardCoins(env, h, publicKey, TotalFees(env.fees, mp));
              && coins == Without(env.name, old(coins), Names(env.name, removals)) + additions + rewards
              && coinRecords == SpendEach(old(coinRecords), removals, h, t) + NewRecords(additions + rewards, h, t)
              && blocks == old(blocks) + [FullBlock(rewards, Generator(env, mp), h)]
              && additionsOut == rewards + additions
              && removalsOut == removals
      ensures |coins| == |old(coins)| - |removalsOut| + |additionsOut|
      ensures mempool == [] && blockHeight == old(blockHeight) + 1 && timestamp == now
      ensures Injective(env.name) && old(Consistent(coins, coinRecords)) ==> Consistent(coins, coinRecords)
    {
      RemovableLength(env.name, coins, FlatMap(mempool, env.removals));
      var fees, removals, additions := MoveCoins();
      var rewards := MintAndSeal(publicKey, fees, now);
      ghost var h, t := old(blockHeight), old(timestamp);
      ghost var kept, spent := Without(env.name, old(coins), Names(env.name, removals)), SpendEach(old(coinRecords), removals, h, t);
      NewRecordsAppend(spent, additions, rewards, h, t);
      if Injective(env.name) && old(Consistent(coins, coinRecords)) {
        ConsistentSpendEach(env.name, old(coins), old(coinRecords), removals, h, t);
        ConsistentAddEach(kept, spent, additions, h, t);
        ConsistentAddEach(kept + additions, spent + NewRecords(additions, h, t), rewards, h, t);
      }
      additionsOut := rewards + additions;
      removalsOut := removals;
    }

    /** The second half of farm_block: mints the reward coins (the farmer's
        carrying `fees`), appends the block over the current mempool, clears
        the mempool, moves to the next height and takes `now` as the time. */
    method MintAndSeal(publicKey: PublicKey, fees: nat, now: nat) returns (rewards: seq<Coin>)
      modifies this
      ensures rewards == RewardCoins(env, old(blockHeight), publicKey, fees)
      ensures coins == old(coins) + rewards
      ensures coinRecords == old(coinRecords) + NewRecords(rewards, old(blockHeight), old(timestamp))
      ensures blocks == old(blocks) + [FullBlock(rewards, Generator(env, old(mempool)), old(blockHeight))]
      ensures mempool == [] && blockHeight == old(blockHeight) + 1 && timestamp == now
    {
      // Rewards get generated
      rewards := RewardCoins(env, blockHeight, publicKey, fees);
      var poolCoin, farmerCoin := rewards[0], rewards[1];
      AddCoin(poolCoin);
      AddCoin(farmerCoin);
      assert NewRecords(rewards, blockHeight, timestamp)
          == [NewRecord(poolCoin, blockHeight, timestamp), NewRecord(farmerCoin, blockHeight, timestamp)];

      // Block is created
      var generator := GenerateTransactionGenerator();
      blocks := blocks + [FullBlock(rewards, generator, blockHeight)];

      mempool := [];
      blockHeight := blockHeight + 1;
      timestamp := now;
    }

    /** Submits `bundle` to the mempool. The validator sees the removals of
        every pending bundle, the coin records and the height; the decision
        and the new mempool are those of `Admit`; nothing else changes. */
    method PushTx(bundle: SpendBundle) returns (result: Result<Reply, PushError>)
      modifies this`mempool
      ensures var v := env.validate(bundle, FlatMap(old(mempool), env.removals), coinRecords, blockHeight);
              mempool == Admit(old(mempool), bundle, v).mempool && result == Admit(old(mempool), bundle, v).outcome
    {
      var removals := [];
      for i := 0 to |mempool|
        invariant removals == FlatMap(mempool[..i], env.removals)
      {
        assert mempool[..i + 1][..i] == mempool[..i];
        removals := removals + env.removals(mempool[i]);
      }
      assert mempool[..|mempool|] == mempool;

      // `cost` stays None (unbound) when validation is skipped.
      var cost: Option<nat> := None;
      var status: InclusionStatus;
      var error: Option<ErrorCode>;
      if bundle in mempool {
        status := Success;
        error := None;
      } else {
        var v := env.validate(bundle, removals, coinRecords, blockHeight);
        cost, status, error := Some(v.cost), v.status, v.error;
      }

      if status == Failed {
        if error.None? {
          return Err(MissingError);
        }
        return Err(TransactionRejected(error.value));
      }

      if status == Success {
        mempool := mempool + [bundle];
      }

      if cost.None? {
        return Err(CostUnbound);
      }
      return Ok(Reply(status, cost));
    }
  }
}
