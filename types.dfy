/** Values the simulated full node works with: coins, coin spends, spend
    bundles, coin records and blocks, plus the external capabilities the
    node calls but does not implement. */
module Types {

  /** A 32-byte hash (coin id, puzzle hash, genesis challenge). The length
      is not constrained: only equality of hashes matters to the node. */
  type Bytes32 = seq<bv8>
  /** A serialized BLS G2 signature. */
  type Signature = seq<bv8>
  /** A serialized BLS G1 public key. */
  type PublicKey = seq<bv8>
  /** A serialized CLVM program (puzzle, solution or block generator). */
  type Program = seq<bv8>
  /** A mempool error code, as the validator reports it. */
  type ErrorCode = nat

  datatype Option<T> = None | Some(value: T)

  datatype Result<T, E> = Ok(value: T) | Err(error: E)

  /** An unspent-output candidate. Amounts are unbounded naturals. */
  datatype Coin = Coin(parentCoinInfo: Bytes32, puzzleHash: Bytes32, amount: nat)

  /** One spend of a coin: the coin, its puzzle and the solution to it. */
  datatype CoinSolution = CoinSolution(coin: Coin, puzzleReveal: Program, solution: Program)

  /** An atomic batch of coin spends under one aggregated signature. */
  datatype SpendBundle = SpendBundle(coinSolutions: seq<CoinSolution>, aggregatedSignature: Signature)

  /** The history of one coin, in the order of the six constructor
      arguments the node passes. */
  datatype CoinRecord = CoinRecord(
    coin: Coin,
    confirmedBlockIndex: nat,
    spentBlockIndex: nat,
    spent: bool,
    coinbase: bool,
    timestamp: nat)

  /** A farmed block: its reward coins, its generator (if any) and its height. */
  datatype FullBlock = FullBlock(rewardCoins: seq<Coin>, transactionsGenerator: Option<Program>, height: nat)

  datatype InclusionStatus = Success | Pending | Failed

  /** What the spend-bundle validator returns: (cost, status, error). */
  datatype Validation = Validation(cost: nat, status: InclusionStatus, error: Option<ErrorCode>)

  /** The capabilities the node consumes and does not define. Each one is an
      arbitrary function here; nothing is assumed about them except where a
      contract says so (injectivity of `name`). */
  datatype Env = Env(
    /** Coin.name(): the content hash of a coin. */
    name: Coin -> Bytes32,
    /** SpendBundle.removals(), additions() and fees(). */
    removals: SpendBundle -> seq<Coin>,
    additions: SpendBundle -> seq<Coin>,
    fees: SpendBundle -> nat,
    /** validate_spendbundle(bundle, pending removals, records, height). */
    validate: (SpendBundle, seq<Coin>, seq<CoinRecord>, nat) -> Validation,
    /** AugSchemeMPL.aggregate. */
    aggregate: seq<Signature> -> Signature,
    /** simple_solution_generator. */
    encodeGenerator: SpendBundle -> Program,
    /** calculate_pool_reward and calculate_base_farmer_reward. */
    poolReward: nat -> nat,
    baseFarmerReward: nat -> nat,
    /** create_puzzlehash_for_pk. */
    puzzleHashForPk: PublicKey -> Bytes32,
    /** The parent ids create_pool_coin and create_farmer_coin derive from
        the height and the genesis challenge. */
    poolParentId: (nat, Bytes32) -> Bytes32,
    farmerParentId: (nat, Bytes32) -> Bytes32,
    /** DEFAULT_CONSTANTS.GENESIS_CHALLENGE. */
    genesisChallenge: Bytes32)

  /** The hash assumption: distinct coins have distinct names. */
  ghost predicate Injective(name: Coin -> Bytes32)
  {
    forall a: Coin, b: Coin :: name(a) == name(b) ==> a == b
  }
}
