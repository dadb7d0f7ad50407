/** The records that flow between the pipeline stages and into the engine. */
module Types {
  import opened Wrappers
  import opened Numbers

  datatype TokenRef = TokenRef(address: string, symbol: Option<string>, decimals: Option<nat>)

  /** One pair to look up, tokens in the order the caller gave them. */
  datatype TokenPair = TokenPair(pairKey: Option<string>, token0: TokenRef, token1: TokenRef)

  /** One normalized row per input pair; `None` where a stage failed for that pair.
      Reserves are unbounded integers (the decimal string is not modelled). */
  datatype Reserve = Reserve(
    chain: nat,
    dex: string,
    pairKey: string,
    pairAddress: Option<string>,
    token0: Option<string>,
    token1: Option<string>,
    reserve0: Option<nat>,
    reserve1: Option<nat>,
    decimals0: Option<nat>,
    decimals1: Option<nat>,
    blockNumber: Option<nat>,
    blockTimestamp: Option<nat>,
    pairTimestampLast: Option<nat>)

  /** A row with the venue's fee (a fraction such as 0.003) attached. */
  datatype ReserveWithFee = ReserveWithFee(reserve: Reserve, fee: real)

  /** An emitted opportunity: the buy-side row, with its tokens put in normalized
      order, and the figures of the simulated round trip. */
  datatype ArbitrageOpportunity = ArbitrageOpportunity(
    record: ReserveWithFee,
    buyFrom: string,
    sellTo: string,
    priceBuy: Num,
    priceSell: Num,
    profit: Num,
    profitPercent: Num)
}
