/** What the fetch pipeline sees of the chain: the calls it batches, the
    `(success, returnData)` pairs a multicall `tryAggregate` hands back, the block
    the provider reports, and the ABI decoders and `getAddress` validator, which the
    model takes as given functions rather than modelling ABI encoding. */
module Chain {
  import opened Wrappers

  /** The encoded call data of one call, kept symbolic: the function called and
      its arguments. */
  datatype CallData =
    | GetPair(tokenA: string, tokenB: string)
    | GetReserves
    | Token0
    | Token1
    | Decimals

  datatype Call = Call(target: string, callData: CallData)

  /** One entry of a `tryAggregate(false, calls)` answer. */
  datatype CallResult = CallResult(success: bool, returnData: string)

  /** The three values `getReserves()` returns. */
  datatype ReservesWord = ReservesWord(reserve0: nat, reserve1: nat, blockTimestampLast: nat)

  /** The foreign functions the pipeline calls: `getAddress` (checksum validation,
      `None` where it throws) and `decodeFunctionResult` for each result shape
      (`None` where decoding throws). */
  datatype Codec = Codec(
    getAddress: string -> Option<string>,
    decodeAddress: string -> Option<string>,
    decodeReserves: string -> Option<ReservesWord>,
    decodeDecimals: string -> Option<nat>)

  /** The block `provider.getBlock(n)` returns, when it returns one. */
  datatype Block = Block(timestamp: nat)

  /** The multicall contract. What the chain answers to a batch is the oracle
      `respond`; `batches` records every batch issued, in order, so that the model
      can count network round trips. */
  class Multicall {
    const respond: seq<Call> -> seq<CallResult>
    var batches: seq<seq<Call>>

    constructor (respond: seq<Call> -> seq<CallResult>)
      ensures this.respond == respond && batches == []
    {
      this.respond := respond;
      batches := [];
    }

    /** `tryAggregate(false, calls)`: one round trip, per-call failures reported
        in the answer rather than thrown. */
    method TryAggregate(calls: seq<Call>) returns (results: seq<CallResult>)
      modifies this
      ensures batches == old(batches) + [calls]
      ensures results == respond(calls)
    {
      batches := batches + [calls];
      results := respond(calls);
    }
  }
}
