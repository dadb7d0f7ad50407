/** The batched fetch pipeline of one (chain, venue) unit: resolve pool addresses,
    fetch reserves, fetch each pool's tokens, fetch token decimals through the
    process-wide cache, and join everything into one row per input pair. Every
    stage hands back a sequence aligned index for index with its input, `None`
    standing for the JavaScript `null` of a failed lookup. */
module Fetcher {
  import opened Wrappers
  import opened Text
  import opened Helper
  import opened Chain
  import opened Types

  // ---------------------------------------------------------------------------
  // Sequential map updates

  /** `m.set(ks[0], vs[0]); ...; m.set(ks[n-1], vs[n-1])`, in that order. */
  function WriteAll<K(==), V>(m: map<K, V>, ks: seq<K>, vs: seq<V>): map<K, V>
    requires |ks| == |vs|
    decreases |ks|
  {
    if |ks| == 0 then m
    else WriteAll(m, ks[..|ks| - 1], vs[..|vs| - 1])[ks[|ks| - 1] := vs[|vs| - 1]]
  }

  /** After the writes, the keys are the old keys plus every key written. */
  lemma {:induction false} WriteAllKeys<K, V>(m: map<K, V>, ks: seq<K>, vs: seq<V>)
    requires |ks| == |vs|
    ensures WriteAll(m, ks, vs).Keys == m.Keys + (set k | k in ks)
    decreases |ks|
  {
    if |ks| > 0 {
      var n := |ks| - 1;
      WriteAllKeys(m, ks[..n], vs[..n]);
      assert ks == ks[..n] + [ks[n]];
      assert (set k | k in ks) == (set k | k in ks[..n]) + {ks[n]};
    }
  }

  /** Writing one more pair extends the writes of a prefix. */
  lemma WriteAllStep<K, V>(m: map<K, V>, ks: seq<K>, vs: seq<V>, i: nat, v: V)
    requires i < |ks| && |vs| == i
    ensures WriteAll(m, ks[..i + 1], vs + [v]) == WriteAll(m, ks[..i], vs)[ks[i] := v]
  {
    assert ks[..i + 1][..i] == ks[..i];
    assert (vs + [v])[..i] == vs;
  }

  /** A key that is never written keeps its old value. */
  lemma {:induction false} WriteAllUntouched<K, V>(m: map<K, V>, ks: seq<K>, vs: seq<V>, k: K)
    requires |ks| == |vs| && k !in ks && k in m
    ensures k in WriteAll(m, ks, vs) && WriteAll(m, ks, vs)[k] == m[k]
    decreases |ks|
  {
    if |ks| > 0 {
      var n := |ks| - 1;
      assert k !in ks[..n];
      WriteAllUntouched(m, ks[..n], vs[..n], k);
    }
  }

  /** The last write to a key wins. */
  lemma {:induction false} WriteAllLastWins<K, V>(m: map<K, V>, ks: seq<K>, vs: seq<V>, i: nat)
    requires |ks| == |vs| && i < |ks|
    requires forall j :: i < j < |ks| ==> ks[j] != ks[i]
    ensures ks[i] in WriteAll(m, ks, vs) && WriteAll(m, ks, vs)[ks[i]] == vs[i]
    decreases |ks|
  {
    var n := |ks| - 1;
    if i < n {
      WriteAllLastWins(m, ks[..n], vs[..n], i);
    }
  }

  // ---------------------------------------------------------------------------
  // Address resolution (src/fetcher.ts:57-137)

  const ZERO: string := "0x0000000000000000000000000000000000000000"

  /** safeAddr: the checksummed address, or `None` when there is none or it does
      not validate. */
  function SafeAddr(codec: Codec, maybeAddr: Option<string>): (r: Option<string>)
    ensures r.Some? <==> maybeAddr.Some? && codec.getAddress(maybeAddr.value).Some?
    ensures r.Some? ==> r == codec.getAddress(maybeAddr.value)
  {
    match maybeAddr
    case None => None
    case Some(a) => codec.getAddress(a)
  }

  /** `safeAddr(p?.token0?.address) ?? ZERO` and the same for token1, in the
      caller's order. */
  function LookupArgs(codec: Codec, p: Option<TokenPair>): (string, string) {
    var a0 := if p.Some? then Some(p.value.token0.address) else None;
    var a1 := if p.Some? then Some(p.value.token1.address) else None;
    (SafeAddr(codec, a0).GetOr(ZERO), SafeAddr(codec, a1).GetOr(ZERO))
  }

  /** The `getPair` batch: one call per input pair, in input order. */
  function ResolveCalls(factory: string, codec: Codec, pairs: seq<Option<TokenPair>>): (calls: seq<Call>)
    ensures |calls| == |pairs|
  {
    seq(|pairs|, i requires 0 <= i < |pairs| =>
      Call(factory, GetPair(LookupArgs(codec, pairs[i]).0, LookupArgs(codec, pairs[i]).1)))
  }

  /** The address-cache key of one input pair. */
  function PairCacheKey(factory: string, codec: Codec, p: Option<TokenPair>): string {
    var args := LookupArgs(codec, p);
    KeyFactory(factory, Lower(args.0), Lower(args.1))
  }

  function PairCacheKeys(factory: string, codec: Codec, pairs: seq<Option<TokenPair>>): (ks: seq<string>)
    ensures |ks| == |pairs|
  {
    seq(|pairs|, i requires 0 <= i < |pairs| => PairCacheKey(factory, codec, pairs[i]))
  }

  /** The pool address decoded from the `i`-th `getPair` result. */
  function ResolvedAt(codec: Codec, results: seq<CallResult>, i: nat): Option<string> {
    if i >= |results| then None
    else if !results[i].success || results[i].returnData == "0x" then None
    else match codec.decodeAddress(results[i].returnData)
      case None => None
      case Some(decoded) =>
        if decoded == "" || decoded == ZERO then None else codec.getAddress(decoded)
  }

  /** An entry is an address exactly when its result exists, succeeded, is not
      empty data, decodes, is not the zero address and validates. */
  lemma ResolvedAtIff(codec: Codec, results: seq<CallResult>, i: nat, a: string)
    ensures ResolvedAt(codec, results, i) == Some(a) <==>
      && i < |results|
      && results[i].success
      && results[i].returnData != "0x"
      && codec.decodeAddress(results[i].returnData).Some?
      && var d := codec.decodeAddress(results[i].returnData).value;
         d != "" && d != ZERO && codec.getAddress(d) == Some(a)
  {
  }

  /** An entry depends on its own result only, whatever its siblings hold. */
  lemma ResolvedAtIsolated(codec: Codec, results: seq<CallResult>, results': seq<CallResult>, i: nat)
    requires i < |results| && i < |results'| && results[i] == results'[i]
    ensures ResolvedAt(codec, results, i) == ResolvedAt(codec, results', i)
  {
  }

  /** The decoded entries `0 .. n - 1`. */
  function ResolvedPrefix(codec: Codec, results: seq<CallResult>, n: nat): seq<Option<string>> {
    if n == 0 then [] else ResolvedPrefix(codec, results, n - 1) + [ResolvedAt(codec, results, n - 1)]
  }

  lemma {:induction false} ResolvedPrefixAt(codec: Codec, results: seq<CallResult>, n: nat)
    ensures |ResolvedPrefix(codec, results, n)| == n
    ensures forall j :: 0 <= j < n ==> ResolvedPrefix(codec, results, n)[j] == ResolvedAt(codec, results, j)
  {
    if n > 0 {
      ResolvedPrefixAt(codec, results, n - 1);
    }
  }

  /** The resolution stage's output: the address decoded from each index's
      answer in the one `getPair` batch. */
  function AddressesStage(factory: string, codec: Codec, respond: seq<Call> -> seq<CallResult>,
                          pairs: seq<Option<TokenPair>>): (addrs: seq<Option<string>>)
    ensures |addrs| == |pairs|
  {
    var results := respond(ResolveCalls(factory, codec, pairs));
    seq(|pairs|, i requires 0 <= i < |pairs| => ResolvedAt(codec, results, i))
  }

  /** resolvePairAddresses: one `getPair` batch; the answer decoded into an
      address or `None` per input index; every index written to the address cache,
      found or not, under the key of its caller-ordered tokens. */
  method ResolvePairAddresses(factory: string, pairs: seq<Option<TokenPair>>, codec: Codec,
                              mc: Multicall, caches: Caches)
    returns (out: seq<Option<string>>)
    modifies mc, caches`pairAddrCache
    ensures mc.batches == old(mc.batches) + [ResolveCalls(factory, codec, pairs)]
    ensures |out| == |pairs|
    ensures forall i :: 0 <= i < |pairs| ==>
      out[i] == ResolvedAt(codec, mc.respond(ResolveCalls(factory, codec, pairs)), i)
    ensures out == AddressesStage(factory, codec, mc.respond, pairs)
    ensures caches.pairAddrCache
      == WriteAll(old(caches.pairAddrCache), PairCacheKeys(factory, codec, pairs), out)
  {
    var calls := ResolveCalls(factory, codec, pairs);
    var results := mc.TryAggregate(calls);
    ghost var keys := PairCacheKeys(factory, codec, pairs);
    out := [];
    var i := 0;
    while i < |pairs|
      invariant 0 <= i <= |pairs|
      invariant mc.batches == old(mc.batches) + [calls]
      invariant |out| == i
      invariant out == ResolvedPrefix(codec, results, i)
      invariant caches.pairAddrCache == WriteAll(old(caches.pairAddrCache), keys[..i], out)
    {
      var addr := ResolvedAt(codec, results, i);
      var args := LookupArgs(codec, pairs[i]);
      var cacheKey := KeyFactory(factory, Lower(args.0), Lower(args.1));
      caches.pairAddrCache := caches.pairAddrCache[cacheKey := addr];
      WriteAllStep(old(caches.pairAddrCache), keys, out, i, addr);
      assert cacheKey == keys[i];
      out := out + [addr];
      i := i + 1;
    }
    assert keys[..|pairs|] == keys;
    ResolvedPrefixAt(codec, results, |pairs|);
  }

  /** After resolution every input pair's key is cached; a key that occurs once
      holds that pair's result, and keys not written keep their old entries. */
  lemma ResolveCacheFacts(m: map<string, Option<string>>, keys: seq<string>, out: seq<Option<string>>)
    requires |keys| == |out|
    ensures forall i :: 0 <= i < |keys| ==> keys[i] in WriteAll(m, keys, out)
    ensures forall i :: 0 <= i < |keys| && (forall j :: i < j < |keys| ==> keys[j] != keys[i]) ==>
      WriteAll(m, keys, out)[keys[i]] == out[i]
    ensures forall k :: k in m && k !in keys ==> k in WriteAll(m, keys, out) && WriteAll(m, keys, out)[k] == m[k]
  {
    forall i | 0 <= i < |keys| && (forall j :: i < j < |keys| ==> keys[j] != keys[i])
      ensures keys[i] in WriteAll(m, keys, out) && WriteAll(m, keys, out)[keys[i]] == out[i]
    {
      WriteAllLastWins(m, keys, out, i);
    }
    WriteAllKeys(m, keys, out);
    forall k | k in m && k !in keys
      ensures k in WriteAll(m, keys, out) && WriteAll(m, keys, out)[k] == m[k]
    {
      WriteAllUntouched(m, keys, out, k);
    }
  }

  // ---------------------------------------------------------------------------
  // Indices of the resolved pools (the `existing` filter of src/fetcher.ts:162-164, 244-246)

  datatype Entry = Entry(addr: string, idx: nat)

  /** The non-null addresses with their original indices, in index order. */
  function Existing(addrs: seq<Option<string>>): (es: seq<Entry>)
    ensures |es| <= |addrs|
    ensures forall k :: 0 <= k < |es| ==> es[k].idx < |addrs| && addrs[es[k].idx] == Some(es[k].addr)
    ensures forall k, l :: 0 <= k < l < |es| ==> es[k].idx < es[l].idx
    decreases |addrs|
  {
    if |addrs| == 0 then []
    else
      var n := |addrs| - 1;
      Existing(addrs[..n]) + (if addrs[n].Some? then [Entry(addrs[n].value, n)] else [])
  }

  /** The position among the non-null addresses of index `i`. */
  function Rank(addrs: seq<Option<string>>, i: nat): nat
    requires i <= |addrs|
  {
    |Existing(addrs[..i])|
  }

  /** Filtering a prefix gives a prefix of the filtered sequence. */
  lemma {:induction false} ExistingPrefix(addrs: seq<Option<string>>, i: nat)
    requires i <= |addrs|
    ensures Existing(addrs[..i]) <= Existing(addrs)
    decreases |addrs| - i
  {
    if i < |addrs| {
      var n := |addrs| - 1;
      assert addrs[..n][..i] == addrs[..i];
      ExistingPrefix(addrs[..n], i);
      assert addrs[..|addrs|] == addrs;
    } else {
      assert addrs[..i] == addrs;
    }
  }

  /** The entry of a non-null index sits at that index's rank. */
  lemma RankLocates(addrs: seq<Option<string>>, i: nat)
    requires i < |addrs| && addrs[i].Some?
    ensures Rank(addrs, i) < |Existing(addrs)|
    ensures Existing(addrs)[Rank(addrs, i)] == Entry(addrs[i].value, i)
  {
    assert addrs[..i + 1][..i] == addrs[..i];
    assert Existing(addrs[..i + 1]) == Existing(addrs[..i]) + [Entry(addrs[i].value, i)];
    ExistingPrefix(addrs, i + 1);
  }

  /** The rank of the `k`-th entry's index is `k`. */
  lemma EntryRank(addrs: seq<Option<string>>, k: nat)
    requires k < |Existing(addrs)|
    ensures Rank(addrs, Existing(addrs)[k].idx) == k
  {
    var es := Existing(addrs);
    var idx := es[k].idx;
    RankLocates(addrs, idx);
    var r := Rank(addrs, idx);
    assert es[r].idx == idx;
  }

  /** Nothing is queried exactly when every address is null. */
  lemma ExistingEmpty(addrs: seq<Option<string>>)
    ensures |Existing(addrs)| == 0 <==> forall i :: 0 <= i < |addrs| ==> addrs[i].None?
  {
    if exists i :: 0 <= i < |addrs| && addrs[i].Some? {
      var i :| 0 <= i < |addrs| && addrs[i].Some?;
      RankLocates(addrs, i);
    }
  }

  // ---------------------------------------------------------------------------
  // Reserves (src/fetcher.ts:144-233)

  datatype Snapshot = Snapshot(
    reserve0: nat,
    reserve1: nat,
    blockNumber: nat,
    blockTimestamp: nat,
    pairTimestampLast: Option<nat>)

  /** Raised as an `Error` by the source when the reference block is missing. */
  datatype FetchError = BlockUnavailable(blockNumber: nat)

  /** The `getReserves` batch: one call per non-null address, in index order. */
  function ReserveCalls(addrs: seq<Option<string>>): (calls: seq<Call>)
    ensures |calls| == |Existing(addrs)|
  {
    var es := Existing(addrs);
    seq(|es|, k requires 0 <= k < |es| => Call(es[k].addr, GetReserves))
  }

  /** One decoded `getReserves` answer, stamped with the batch's block. A zero
      `blockTimestampLast` is falsy and becomes `None`. */
  function DecodeSnapshot(codec: Codec, res: CallResult, blockNumber: nat, timestamp: nat): Option<Snapshot> {
    if !res.success || res.returnData == "0x" then None
    else match codec.decodeReserves(res.returnData)
      case None => None
      case Some(w) =>
        Some(Snapshot(w.reserve0, w.reserve1, blockNumber, timestamp,
                      if w.blockTimestampLast == 0 then None else Some(w.blockTimestampLast)))
  }

  /** The snapshot of index `i`: the answer at that index's rank in the batch. */
  function SnapshotAt(codec: Codec, addrs: seq<Option<string>>, results: seq<CallResult>,
                      blockNumber: nat, timestamp: nat, i: nat): (r: Option<Snapshot>)
    requires i < |addrs|
    ensures addrs[i].None? ==> r.None?
    ensures r.Some? ==> r.value.blockNumber == blockNumber && r.value.blockTimestamp == timestamp
  {
    if addrs[i].None? then None
    else
      var k := Rank(addrs, i);
      if k < |results| then DecodeSnapshot(codec, results[k], blockNumber, timestamp) else None
  }

  /** The timestamp the reserves are stamped with; 0 stands in when the block is
      missing, where no snapshot is made. */
  function BlockTime(block: Option<Block>): nat {
    if block.Some? then block.value.timestamp else 0
  }

  /** The reserves stage's output: every index's snapshot from the one
      `getReserves` answer. */
  function ReservesStage(codec: Codec, respond: seq<Call> -> seq<CallResult>, addrs: seq<Option<string>>,
                         blockNumber: nat, timestamp: nat): (rs: seq<Option<Snapshot>>)
    ensures |rs| == |addrs|
  {
    var results := respond(ReserveCalls(addrs));
    seq(|addrs|, i requires 0 <= i < |addrs| => SnapshotAt(codec, addrs, results, blockNumber, timestamp, i))
  }

  /** The batches the reserves stage sends: none when no address resolved. */
  function ReserveBatches(addrs: seq<Option<string>>): seq<seq<Call>> {
    if |Existing(addrs)| == 0 then [] else [ReserveCalls(addrs)]
  }

  /** fetchReserves: no batch and all `None` when no address resolved; otherwise
      it fails when the reference block is missing (before any batch is sent), and
      else sends one `getReserves` batch over the non-null addresses and scatters
      the decoded answers back to their original indices. */
  method FetchReserves(addrs: seq<Option<string>>, codec: Codec, mc: Multicall,
                       blockNumber: nat, block: Option<Block>)
    returns (r: Result<seq<Option<Snapshot>>, FetchError>)
    modifies mc
    ensures (forall i :: 0 <= i < |addrs| ==> addrs[i].None?) ==>
      && mc.batches == old(mc.batches)
      && r.Success? && |r.value| == |addrs|
      && forall i :: 0 <= i < |addrs| ==> r.value[i].None?
    ensures (exists i :: 0 <= i < |addrs| && addrs[i].Some?) && block.None? ==>
      mc.batches == old(mc.batches) && r == Failure(BlockUnavailable(blockNumber))
    ensures (exists i :: 0 <= i < |addrs| && addrs[i].Some?) && block.Some? ==>
      && mc.batches == old(mc.batches) + [ReserveCalls(addrs)]
      && r.Success? && |r.value| == |addrs|
      && forall i :: 0 <= i < |addrs| ==>
           r.value[i] == SnapshotAt(codec, addrs, mc.respond(ReserveCalls(addrs)),
                                    blockNumber, block.value.timestamp, i)
    ensures r.Failure? ==> block.None? && r.error == BlockUnavailable(blockNumber)
    ensures r.Success? ==> |r.value| == |addrs| && forall i :: 0 <= i < |addrs| && r.value[i].Some? ==>
      && addrs[i].Some? && block.Some?
      && r.value[i].value.blockNumber == blockNumber && r.value[i].value.blockTimestamp == block.value.timestamp
    ensures |old(mc.batches)| <= |mc.batches| <= |old(mc.batches)| + 1
    ensures r.Success? ==> && mc.batches == old(mc.batches) + ReserveBatches(addrs)
                           && r.value == ReservesStage(codec, mc.respond, addrs, blockNumber, BlockTime(block))
    ensures r.Failure? ==> mc.batches == old(mc.batches)
  {
    var existing := Existing(addrs);
    ExistingEmpty(addrs);
    if |existing| == 0 {
      r := Success(seq(|addrs|, _ => None));
      assert r.value == ReservesStage(codec, mc.respond, addrs, blockNumber, BlockTime(block));
      return;
    }
    var calls := ReserveCalls(addrs);
    if block.None? {
      return Failure(BlockUnavailable(blockNumber));
    }
    var results := mc.TryAggregate(calls);
    var out := ScatterSnapshots(addrs, codec, results, blockNumber, block.value.timestamp);
    r := Success(out);
    assert r.value == ReservesStage(codec, mc.respond, addrs, blockNumber, BlockTime(block));
  }

  /** The loop of fetchReserves: the answer at rank `k` goes to the `k`-th
      non-null address's index; every other index stays `None`. */
  method ScatterSnapshots(addrs: seq<Option<string>>, codec: Codec, results: seq<CallResult>,
                          blockNumber: nat, timestamp: nat)
    returns (out: seq<Option<Snapshot>>)
    ensures |out| == |addrs|
    ensures forall j :: 0 <= j < |addrs| ==> out[j] == SnapshotAt(codec, addrs, results, blockNumber, timestamp, j)
  {
    var existing := Existing(addrs);
    out := seq(|addrs|, _ => None);
    var i := 0;
    while i < |results|
      invariant 0 <= i <= |results|
      invariant |out| == |addrs|
      invariant forall j :: 0 <= j < |addrs| ==>
        out[j] == if addrs[j].Some? && Rank(addrs, j) < i
                  then DecodeSnapshot(codec, results[Rank(addrs, j)], blockNumber, timestamp)
                  else None
    {
      if i < |existing| {
        var idx := existing[i].idx;
        var snap := DecodeSnapshot(codec, results[i], blockNumber, timestamp);
        EntryRank(addrs, i);
        forall j | 0 <= j < |addrs| && j != idx && addrs[j].Some?
          ensures Rank(addrs, j) != i
        {
          RankLocates(addrs, j);
        }
        out := out[idx := snap];
      } else {
        forall j | 0 <= j < |addrs| && addrs[j].Some?
          ensures Rank(addrs, j) < i
        {
          RankLocates(addrs, j);
        }
      }
      i := i + 1;
    }
  }

  // ---------------------------------------------------------------------------
  // Pool tokens (src/fetcher.ts:239-309)

  datatype PairTokens = PairTokens(token0: string, token1: string)

  /** A `token0` or `token1` batch: one call per non-null address, in index order. */
  function TokenCalls(addrs: seq<Option<string>>, data: CallData): (calls: seq<Call>)
    ensures |calls| == |Existing(addrs)|
  {
    var es := Existing(addrs);
    seq(|es|, k requires 0 <= k < |es| => Call(es[k].addr, data))
  }

  /** The token address decoded from the `k`-th answer of a token batch. */
  function DecodedTokenAt(codec: Codec, results: seq<CallResult>, k: nat): Option<string> {
    if k < |results| && results[k].success && results[k].returnData != "0x"
    then codec.decodeAddress(results[k].returnData)
    else None
  }

  /** The tokens of index `i`: present only when the address is non-null and both
      answers at its rank decode to non-empty addresses. */
  function PairTokensAt(codec: Codec, addrs: seq<Option<string>>, t0Results: seq<CallResult>,
                        t1Results: seq<CallResult>, i: nat): (r: Option<PairTokens>)
    requires i < |addrs|
    ensures r.Some? ==> addrs[i].Some? && r.value.token0 != "" && r.value.token1 != ""
  {
    if addrs[i].None? then None
    else
      var k := Rank(addrs, i);
      var token0 := DecodedTokenAt(codec, t0Results, k);
      var token1 := DecodedTokenAt(codec, t1Results, k);
      if token0.Some? && token1.Some? && token0.value != "" && token1.value != ""
      then Some(PairTokens(token0.value, token1.value))
      else None
  }

  /** The loop of fetchPairTokens: the answers at rank `k` go to the `k`-th
      non-null address's index; every other index stays `None`. */
  method ScatterTokens(addrs: seq<Option<string>>, codec: Codec, t0Results: seq<CallResult>,
                       t1Results: seq<CallResult>)
    returns (out: seq<Option<PairTokens>>)
    ensures |out| == |addrs|
    ensures forall j :: 0 <= j < |addrs| ==> out[j] == PairTokensAt(codec, addrs, t0Results, t1Results, j)
  {
    var existing := Existing(addrs);
    out := seq(|addrs|, _ => None);
    var i := 0;
    while i < |existing|
      invariant 0 <= i <= |existing|
      invariant |out| == |addrs|
      invariant forall j :: 0 <= j < |addrs| ==>
        out[j] == if addrs[j].Some? && Rank(addrs, j) < i
                  then PairTokensAt(codec, addrs, t0Results, t1Results, j)
                  else None
    {
      var idx := existing[i].idx;
      var token0 := DecodedTokenAt(codec, t0Results, i);
      var token1 := DecodedTokenAt(codec, t1Results, i);
      EntryRank(addrs, i);
      forall j | 0 <= j < |addrs| && j != idx && addrs[j].Some?
        ensures Rank(addrs, j) != i
      {
        RankLocates(addrs, j);
      }
      if token0.Some? && token1.Some? && token0.value != "" && token1.value != "" {
        out := out[idx := Some(PairTokens(token0.value, token1.value))];
      } else {
        out := out[idx := None];
      }
      i := i + 1;
    }
    forall j | 0 <= j < |addrs| && addrs[j].Some?
      ensures Rank(addrs, j) < |existing|
    {
      RankLocates(addrs, j);
    }
  }

  /** The token stage's output: every index's tokens from the `token0` and
      `token1` answers. */
  function TokensStage(codec: Codec, respond: seq<Call> -> seq<CallResult>,
                       addrs: seq<Option<string>>): (pts: seq<Option<PairTokens>>)
    ensures |pts| == |addrs|
  {
    var t0Results := respond(TokenCalls(addrs, Token0));
    var t1Results := respond(TokenCalls(addrs, Token1));
    seq(|addrs|, i requires 0 <= i < |addrs| => PairTokensAt(codec, addrs, t0Results, t1Results, i))
  }

  /** The batches the token stage sends: none when no address resolved. */
  function TokenBatches(addrs: seq<Option<string>>): seq<seq<Call>> {
    if |Existing(addrs)| == 0 then [] else [TokenCalls(addrs, Token0), TokenCalls(addrs, Token1)]
  }

  /** fetchPairTokens: no batch and all `None` when no address resolved; otherwise
      one `token0` batch and one `token1` batch over the non-null addresses, the
      answers joined per index. */
  method FetchPairTokens(addrs: seq<Option<string>>, codec: Codec, mc: Multicall)
    returns (out: seq<Option<PairTokens>>)
    modifies mc
    ensures |out| == |addrs|
    ensures (forall i :: 0 <= i < |addrs| ==> addrs[i].None?) ==>
      mc.batches == old(mc.batches) && forall i :: 0 <= i < |addrs| ==> out[i].None?
    ensures (exists i :: 0 <= i < |addrs| && addrs[i].Some?) ==>
      && mc.batches == old(mc.batches) + [TokenCalls(addrs, Token0), TokenCalls(addrs, Token1)]
      && forall i :: 0 <= i < |addrs| ==>
           out[i] == PairTokensAt(codec, addrs, mc.respond(TokenCalls(addrs, Token0)),
                                  mc.respond(TokenCalls(addrs, Token1)), i)
    ensures forall i :: 0 <= i < |addrs| && out[i].Some? ==>
      addrs[i].Some? && out[i].value.token0 != "" && out[i].value.token1 != ""
    ensures |old(mc.batches)| <= |mc.batches| <= |old(mc.batches)| + 2
    ensures mc.batches == old(mc.batches) + TokenBatches(addrs)
    ensures out == TokensStage(codec, mc.respond, addrs)
  {
    var existing := Existing(addrs);
    ExistingEmpty(addrs);
    if |existing| == 0 {
      out := seq(|addrs|, _ => None);
      assert out == TokensStage(codec, mc.respond, addrs);
      return;
    }
    var token0Calls := TokenCalls(addrs, Token0);
    var token1Calls := TokenCalls(addrs, Token1);
    var t0Results := mc.TryAggregate(token0Calls);
    var t1Results := mc.TryAggregate(token1Calls);
    out := ScatterTokens(addrs, codec, t0Results, t1Results);
    assert out == TokensStage(codec, mc.respond, addrs);
  }

  // ---------------------------------------------------------------------------
  // Token decimals (src/fetcher.ts:316-382)

  /** The decimal digits of a chain id, as a template literal prints them. */
  function NatToString(n: nat): string
    decreases n
  {
    var digit := ["0123456789"[n % 10]];
    if n < 10 then digit else NatToString(n / 10) + digit
  }

  /** The decimals-cache key `${chainId}:${tokenLower}`. */
  function DecimalsKey(chainId: nat, token: string): string {
    NatToString(chainId) + ":" + token
  }

  /** On one chain, distinct tokens have distinct decimals-cache keys. */
  lemma DecimalsKeyInjective(chainId: nat, t: string, t': string)
    requires DecimalsKey(chainId, t) == DecimalsKey(chainId, t')
    ensures t == t'
  {
    var prefix := NatToString(chainId) + ":";
    assert DecimalsKey(chainId, t) == prefix + t && DecimalsKey(chainId, t') == prefix + t';
    assert t == (prefix + t)[|prefix|..] && t' == (prefix + t')[|prefix|..];
  }

  predicate Distinct(s: seq<string>) {
    forall i, j :: 0 <= i < j < |s| ==> s[i] != s[j]
  }

  /** `if (t) tokenSet.add(t.toLowerCase())` on an insertion-ordered set. */
  function AddToken(acc: seq<string>, t: string): seq<string> {
    if t == "" || Lower(t) in acc then acc else acc + [Lower(t)]
  }

  function AddPairTokens(acc: seq<string>, pt: Option<PairTokens>): seq<string> {
    match pt
    case None => acc
    case Some(p) => AddToken(AddToken(acc, p.token0), p.token1)
  }

  /** The distinct lowercased tokens of the pools, in first-seen order. */
  function CollectTokens(pts: seq<Option<PairTokens>>): seq<string>
    decreases |pts|
  {
    if |pts| == 0 then []
    else AddPairTokens(CollectTokens(pts[..|pts| - 1]), pts[|pts| - 1])
  }

  /** Token `t` is the lowercased form of a non-empty token of the pool `pt`. */
  predicate Mentions(pt: Option<PairTokens>, t: string) {
    && pt.Some?
    && ((pt.value.token0 != "" && Lower(pt.value.token0) == t)
        || (pt.value.token1 != "" && Lower(pt.value.token1) == t))
  }

  /** Token `t` is the lowercased form of a non-empty token of entry `k`. */
  predicate MentionsAt(pts: seq<Option<PairTokens>>, k: nat, t: string)
    requires k < |pts|
  {
    Mentions(pts[k], t)
  }

  lemma AddTokenFacts(acc: seq<string>, x: string)
    requires Distinct(acc)
    ensures Distinct(AddToken(acc, x))
    ensures forall t :: t in AddToken(acc, x) <==> t in acc || (x != "" && t == Lower(x))
  {
  }

  /** Adding one pool's tokens keeps the list free of duplicates and adds
      exactly the tokens the pool mentions. */
  lemma AddPairTokensFacts(acc: seq<string>, pt: Option<PairTokens>)
    requires Distinct(acc)
    ensures Distinct(AddPairTokens(acc, pt))
    ensures forall t :: t in AddPairTokens(acc, pt) <==> t in acc || Mentions(pt, t)
  {
    if pt.Some? {
      AddTokenFacts(acc, pt.value.token0);
      AddTokenFacts(AddToken(acc, pt.value.token0), pt.value.token1);
    }
  }

  /** A token mentioned by some entry is mentioned by an earlier one or by the last. */
  lemma MentionsSplit(pts: seq<Option<PairTokens>>, init: seq<Option<PairTokens>>, t: string)
    requires |pts| > 0 && init == pts[..|pts| - 1]
    ensures (exists k :: 0 <= k < |pts| && MentionsAt(pts, k, t))
        <==> (exists k :: 0 <= k < |init| && MentionsAt(init, k, t)) || Mentions(pts[|pts| - 1], t)
  {
    var n := |pts| - 1;
    if exists k :: 0 <= k < |pts| && MentionsAt(pts, k, t) {
      var k :| 0 <= k < |pts| && MentionsAt(pts, k, t);
      if k < n {
        assert MentionsAt(init, k, t);
      }
    }
    if exists k :: 0 <= k < n && MentionsAt(init, k, t) {
      var k :| 0 <= k < n && MentionsAt(init, k, t);
      assert MentionsAt(pts, k, t);
    }
    if Mentions(pts[n], t) {
      assert MentionsAt(pts, n, t);
    }
  }

  /** The collected tokens hold no duplicate, and hold exactly the lowercased
      non-empty tokens of the resolved pools. */
  lemma {:induction false} CollectTokensFacts(pts: seq<Option<PairTokens>>)
    ensures Distinct(CollectTokens(pts))
    ensures forall t :: t in CollectTokens(pts) <==> exists k :: 0 <= k < |pts| && MentionsAt(pts, k, t)
    decreases |pts|
  {
    if |pts| > 0 {
      var n := |pts| - 1;
      CollectTokensFacts(pts[..n]);
      AddPairTokensFacts(CollectTokens(pts[..n]), pts[n]);
      forall t
        ensures t in CollectTokens(pts) <==> exists k :: 0 <= k < |pts| && MentionsAt(pts, k, t)
      {
        MentionsSplit(pts, pts[..n], t);
      }
    }
  }

  /** The collected tokens whose key the cache does not hold yet, in order. */
  function Misses(tokens: seq<string>, chainId: nat, cache: map<string, DecimalsEntry>): (ms: seq<string>)
    ensures |ms| <= |tokens|
    decreases |tokens|
  {
    if |tokens| == 0 then []
    else
      var n := |tokens| - 1;
      Misses(tokens[..n], chainId, cache)
        + (if DecimalsKey(chainId, tokens[n]) in cache then [] else [tokens[n]])
  }

  /** The misses are exactly the tokens whose key the cache lacks, and they
      repeat no token when the tokens repeat none. */
  lemma {:induction false} MissesFacts(tokens: seq<string>, chainId: nat, cache: map<string, DecimalsEntry>)
    ensures forall t :: t in Misses(tokens, chainId, cache) <==> t in tokens && DecimalsKey(chainId, t) !in cache
    ensures Distinct(tokens) ==> Distinct(Misses(tokens, chainId, cache))
    decreases |tokens|
  {
    if |tokens| > 0 {
      var n := |tokens| - 1;
      assert tokens == tokens[..n] + [tokens[n]];
      MissesFacts(tokens[..n], chainId, cache);
    }
  }

  /** The `decimals` batch: one call per cache miss. */
  function DecimalsCalls(ms: seq<string>): (calls: seq<Call>)
    ensures |calls| == |ms|
  {
    seq(|ms|, i requires 0 <= i < |ms| => Call(ms[i], Decimals))
  }

  /** The cache entry made from the `i`-th decimals answer: `Unknown` (NaN) on a
      missing, failed, empty or undecodable answer. */
  function EntryFrom(codec: Codec, results: seq<CallResult>, i: nat): DecimalsEntry {
    if i >= |results| || !results[i].success || results[i].returnData == "0x" then Unknown
    else match codec.decodeDecimals(results[i].returnData)
      case None => Unknown
      case Some(d) => Known(d)
  }

  function DecimalsKeys(chainId: nat, ms: seq<string>): (ks: seq<string>)
    ensures |ks| == |ms|
  {
    seq(|ms|, i requires 0 <= i < |ms| => DecimalsKey(chainId, ms[i]))
  }

  function Entries(codec: Codec, results: seq<CallResult>, n: nat): (es: seq<DecimalsEntry>)
    ensures |es| == n
  {
    seq(n, i requires 0 <= i < n => EntryFrom(codec, results, i))
  }

  /** The cache after the answers for the misses have been written, in order. */
  function FillDecimals(cache: map<string, DecimalsEntry>, chainId: nat, ms: seq<string>,
                        results: seq<CallResult>, codec: Codec): map<string, DecimalsEntry>
  {
    WriteAll(cache, DecimalsKeys(chainId, ms), Entries(codec, results, |ms|))
  }

  /** What the returned map holds for a token: its cached count, or `None` when
      the entry is missing or NaN. */
  function DecimalsOut(cache: map<string, DecimalsEntry>, chainId: nat, t: string): Option<nat> {
    var key := DecimalsKey(chainId, t);
    if key in cache && cache[key].Known? then Some(cache[key].decimals) else None
  }

  /** The first loop of fetchTokenDecimals: the insertion-ordered set of lowercased tokens. */
  method CollectTokenSet(pts: seq<Option<PairTokens>>) returns (tokens: seq<string>)
    ensures tokens == CollectTokens(pts)
  {
    tokens := [];
    var k := 0;
    while k < |pts|
      invariant 0 <= k <= |pts|
      invariant tokens == CollectTokens(pts[..k])
    {
      var t := pts[k];
      if t.Some? {
        if t.value.token0 != "" && Lower(t.value.token0) !in tokens {
          tokens := tokens + [Lower(t.value.token0)];
        }
        if t.value.token1 != "" && Lower(t.value.token1) !in tokens {
          tokens := tokens + [Lower(t.value.token1)];
        }
      }
      assert pts[..k + 1][..k] == pts[..k];
      k := k + 1;
    }
    assert pts[..|pts|] == pts;
  }

  /** The second loop: one `decimals` call per token whose key the cache misses. */
  method PrepareDecimalsCalls(tokens: seq<string>, chainId: nat, cache: map<string, DecimalsEntry>)
    returns (calls: seq<Call>, callIndexToToken: seq<string>)
    ensures callIndexToToken == Misses(tokens, chainId, cache)
    ensures calls == DecimalsCalls(callIndexToToken)
  {
    calls := [];
    callIndexToToken := [];
    var k := 0;
    while k < |tokens|
      invariant 0 <= k <= |tokens|
      invariant callIndexToToken == Misses(tokens[..k], chainId, cache)
      invariant |calls| == |callIndexToToken|
      invariant forall j :: 0 <= j < |calls| ==> calls[j] == Call(callIndexToToken[j], Decimals)
    {
      var tokenLower := tokens[k];
      var cacheKey := DecimalsKey(chainId, tokenLower);
      if cacheKey !in cache {
        calls := calls + [Call(tokenLower, Decimals)];
        callIndexToToken := callIndexToToken + [tokenLower];
      }
      assert tokens[..k + 1][..k] == tokens[..k];
      k := k + 1;
    }
    assert tokens[..|tokens|] == tokens;
  }

  /** The third loop: the cache entry of every queried token, written in order. */
  method PopulateDecimals(callIndexToToken: seq<string>, results: seq<CallResult>, codec: Codec,
                          chainId: nat, caches: Caches)
    modifies caches`decimalsCache
    ensures caches.decimalsCache == FillDecimals(old(caches.decimalsCache), chainId, callIndexToToken, results, codec)
  {
    ghost var cache0 := caches.decimalsCache;
    ghost var keys := DecimalsKeys(chainId, callIndexToToken);
    ghost var entries := Entries(codec, results, |callIndexToToken|);
    var i := 0;
    while i < |callIndexToToken|
      invariant 0 <= i <= |callIndexToToken|
      invariant caches.decimalsCache == WriteAll(cache0, keys[..i], entries[..i])
    {
      var tokenLower := callIndexToToken[i];
      var cacheKey := DecimalsKey(chainId, tokenLower);
      var entry := EntryFrom(codec, results, i);
      caches.decimalsCache := caches.decimalsCache[cacheKey := entry];
      WriteAllStep(cache0, keys, entries[..i], i, entry);
      assert entries[..i] + [entry] == entries[..i + 1];
      i := i + 1;
    }
    assert keys[..|keys|] == keys && entries[..|entries|] == entries;
  }

  /** The last loop: each collected token mapped to its cached count, or `None`. */
  method DecimalsResultMap(tokens: seq<string>, chainId: nat, cache: map<string, DecimalsEntry>)
    returns (out: map<string, Option<nat>>)
    ensures forall t :: t in out <==> t in tokens
    ensures forall t :: t in out ==> out[t] == DecimalsOut(cache, chainId, t)
  {
    out := map[];
    var k := 0;
    while k < |tokens|
      invariant 0 <= k <= |tokens|
      invariant forall t :: t in out <==> t in tokens[..k]
      invariant forall t :: t in out ==> out[t] == DecimalsOut(cache, chainId, t)
    {
      var tokenLower := tokens[k];
      var cacheKey := DecimalsKey(chainId, tokenLower);
      var value: Option<nat> := None;
      if cacheKey in cache && cache[cacheKey].Known? {
        value := Some(cache[cacheKey].decimals);
      }
      out := out[tokenLower := value];
      assert tokens[..k + 1] == tokens[..k] + [tokenLower];
      k := k + 1;
    }
    assert tokens[..|tokens|] == tokens;
  }

  /** The batches the decimals stage sends for the misses `ms`. */
  function DecimalsBatches(ms: seq<string>): seq<seq<Call>> {
    if |ms| == 0 then [] else [DecimalsCalls(ms)]
  }

  /** The decimals cache after the stage: the misses of the collected tokens
      filled in from the one `decimals` answer. */
  function DecimalsStageCache(cache: map<string, DecimalsEntry>, chainId: nat, pts: seq<Option<PairTokens>>,
                              codec: Codec, respond: seq<Call> -> seq<CallResult>): map<string, DecimalsEntry>
  {
    var ms := Misses(CollectTokens(pts), chainId, cache);
    FillDecimals(cache, chainId, ms, if |ms| == 0 then [] else respond(DecimalsCalls(ms)), codec)
  }

  /** The map the decimals stage returns: each collected token to its cached count. */
  function DecimalsMapOf(tokens: seq<string>, chainId: nat, cache: map<string, DecimalsEntry>): map<string, Option<nat>> {
    map t | t in tokens :: DecimalsOut(cache, chainId, t)
  }

  /** fetchTokenDecimals: collects the distinct lowercased tokens, sends one
      `decimals` batch over exactly those the cache misses (none when it misses
      nothing), writes an entry for every miss, and returns every collected
      token's cached value. */
  method FetchTokenDecimals(pts: seq<Option<PairTokens>>, codec: Codec, mc: Multicall,
                            chainId: nat, caches: Caches)
    returns (out: map<string, Option<nat>>)
    modifies mc, caches`decimalsCache
    ensures var ms := Misses(CollectTokens(pts), chainId, old(caches.decimalsCache));
      && (|ms| == 0 ==> mc.batches == old(mc.batches))
      && (|ms| > 0 ==> mc.batches == old(mc.batches) + [DecimalsCalls(ms)])
      && caches.decimalsCache == FillDecimals(old(caches.decimalsCache), chainId, ms,
                                              if |ms| == 0 then [] else mc.respond(DecimalsCalls(ms)), codec)
    ensures forall t :: t in out <==> t in CollectTokens(pts)
    ensures forall t :: t in out ==> out[t] == DecimalsOut(caches.decimalsCache, chainId, t)
    ensures |old(mc.batches)| <= |mc.batches| <= |old(mc.batches)| + 1
    ensures forall key :: key in old(caches.decimalsCache) ==>
      key in caches.decimalsCache && caches.decimalsCache[key] == old(caches.decimalsCache)[key]
    ensures mc.batches == old(mc.batches) + DecimalsBatches(Misses(CollectTokens(pts), chainId, old(caches.decimalsCache)))
    ensures caches.decimalsCache == DecimalsStageCache(old(caches.decimalsCache), chainId, pts, codec, mc.respond)
    ensures out == DecimalsMapOf(CollectTokens(pts), chainId, caches.decimalsCache)
  {
    var tokens := CollectTokenSet(pts);
    var calls, callIndexToToken := PrepareDecimalsCalls(tokens, chainId, caches.decimalsCache);
    var results: seq<CallResult> := [];
    if |calls| > 0 {
      results := mc.TryAggregate(calls);
    }
    PopulateDecimals(callIndexToToken, results, codec, chainId, caches);
    out := DecimalsResultMap(tokens, chainId, caches.decimalsCache);
    DecimalsCacheMonotone(old(caches.decimalsCache), chainId, tokens, results, codec);
    assert out == DecimalsMapOf(tokens, chainId, caches.decimalsCache);
  }

  /** After a fetch, every collected token has a decimals entry. */
  lemma DecimalsCoverTokens(cache: map<string, DecimalsEntry>, chainId: nat, tokens: seq<string>,
                            results: seq<CallResult>, codec: Codec)
    ensures var ms := Misses(tokens, chainId, cache);
      forall t :: t in tokens ==> DecimalsKey(chainId, t) in FillDecimals(cache, chainId, ms, results, codec)
  {
    var ms := Misses(tokens, chainId, cache);
    MissesFacts(tokens, chainId, cache);
    var keys := DecimalsKeys(chainId, ms);
    WriteAllKeys(cache, keys, Entries(codec, results, |ms|));
    forall t | t in tokens && DecimalsKey(chainId, t) !in cache
      ensures DecimalsKey(chainId, t) in keys
    {
      var i :| 0 <= i < |ms| && ms[i] == t;
      assert keys[i] == DecimalsKey(chainId, t);
    }
  }

  /** A fetch never changes or removes an entry that was already cached. */
  lemma DecimalsCacheMonotone(cache: map<string, DecimalsEntry>, chainId: nat, tokens: seq<string>,
                              results: seq<CallResult>, codec: Codec)
    ensures var filled := FillDecimals(cache, chainId, Misses(tokens, chainId, cache), results, codec);
      forall key :: key in cache ==> key in filled && filled[key] == cache[key]
  {
    var ms := Misses(tokens, chainId, cache);
    MissesFacts(tokens, chainId, cache);
    var keys := DecimalsKeys(chainId, ms);
    forall i | 0 <= i < |keys|
      ensures keys[i] !in cache
    {
      assert ms[i] in ms;
    }
    forall key | key in cache
      ensures key in FillDecimals(cache, chainId, ms, results, codec)
        && FillDecimals(cache, chainId, ms, results, codec)[key] == cache[key]
    {
      WriteAllUntouched(cache, keys, Entries(codec, results, |ms|), key);
    }
  }

  /** A second fetch of the same tokens finds nothing to query. */
  lemma SecondFetchQueriesNothing(cache: map<string, DecimalsEntry>, chainId: nat, tokens: seq<string>,
                                  results: seq<CallResult>, codec: Codec)
    ensures var filled := FillDecimals(cache, chainId, Misses(tokens, chainId, cache), results, codec);
      Misses(tokens, chainId, filled) == []
  {
    DecimalsCoverTokens(cache, chainId, tokens, results, codec);
    var filled := FillDecimals(cache, chainId, Misses(tokens, chainId, cache), results, codec);
    MissesNone(tokens, chainId, filled);
  }

  lemma {:induction false} MissesNone(tokens: seq<string>, chainId: nat, cache: map<string, DecimalsEntry>)
    requires forall t :: t in tokens ==> DecimalsKey(chainId, t) in cache
    ensures Misses(tokens, chainId, cache) == []
    decreases |tokens|
  {
    if |tokens| > 0 {
      var n := |tokens| - 1;
      assert tokens[n] in tokens;
      assert forall t :: t in tokens[..n] ==> t in tokens;
      MissesNone(tokens[..n], chainId, cache);
    }
  }

  /** Each miss's entry is the decoding of its own answer. */
  lemma DecimalsEntryOfMiss(cache: map<string, DecimalsEntry>, chainId: nat, tokens: seq<string>,
                            results: seq<CallResult>, codec: Codec, i: nat)
    requires Distinct(tokens)
    requires i < |Misses(tokens, chainId, cache)|
    ensures var ms := Misses(tokens, chainId, cache);
      var filled := FillDecimals(cache, chainId, ms, results, codec);
      DecimalsKey(chainId, ms[i]) in filled && filled[DecimalsKey(chainId, ms[i])] == EntryFrom(codec, results, i)
  {
    var ms := Misses(tokens, chainId, cache);
    MissesFacts(tokens, chainId, cache);
    var keys := DecimalsKeys(chainId, ms);
    forall j | i < j < |keys|
      ensures keys[j] != keys[i]
    {
      if keys[j] == keys[i] {
        DecimalsKeyInjective(chainId, ms[j], ms[i]);
      }
    }
    WriteAllLastWins(cache, keys, Entries(codec, results, |ms|), i);
  }

  /** The decimals batch asks for each token at most once. */
  lemma DecimalsBatchDistinct(pts: seq<Option<PairTokens>>, chainId: nat, cache: map<string, DecimalsEntry>)
    ensures var calls := DecimalsCalls(Misses(CollectTokens(pts), chainId, cache));
      forall i, j :: 0 <= i < j < |calls| ==> calls[i].target != calls[j].target
  {
    CollectTokensFacts(pts);
    MissesFacts(CollectTokens(pts), chainId, cache);
  }

  // ---------------------------------------------------------------------------
  // Assembly (src/fetcher.ts:384-447)

  /** The pieces assembleResults joins, all aligned with `pairs`. */
  datatype AssembleParams = AssembleParams(
    chainId: nat,
    dexName: string,
    factoryAddress: string,
    pairs: seq<Option<TokenPair>>,
    pairAddrs: seq<Option<string>>,
    reserves: seq<Option<Snapshot>>,
    pairTokens: seq<Option<PairTokens>>,
    decimalsMap: map<string, Option<nat>>)

  /** Reading past the end of an array gives `undefined`, here `None`. */
  function At<T>(s: seq<Option<T>>, i: nat): (r: Option<T>)
    ensures r.Some? ==> i < |s| && s[i] == r
  {
    if i < |s| then s[i] else None
  }

  /** A template literal prints a missing symbol as `undefined`. */
  function SymbolText(symbol: Option<string>): string {
    if symbol.Some? then symbol.value else "undefined"
  }

  /** `p.pairKey || symbol0-symbol1`: an empty key falls back too. */
  function PairKeyOf(p: TokenPair): (key: string)
    ensures p.pairKey.Some? && p.pairKey.value != "" ==> key == p.pairKey.value
    ensures p.pairKey.None? || p.pairKey.value == "" ==>
      key == SymbolText(p.token0.symbol) + "-" + SymbolText(p.token1.symbol)
  {
    if p.pairKey.Some? && p.pairKey.value != "" then p.pairKey.value
    else SymbolText(p.token0.symbol) + "-" + SymbolText(p.token1.symbol)
  }

  /** The decimals of a token, looked up by its lowercased address. */
  function DecimalsFor(token: Option<string>, decimalsMap: map<string, Option<nat>>): Option<nat> {
    if token.None? || token.value == "" || Lower(token.value) !in decimalsMap then None
    else decimalsMap[Lower(token.value)]
  }

  /** One output row. */
  function AssembleRow(chainId: nat, dexName: string, p: TokenPair, addr: Option<string>,
                       r: Option<Snapshot>, t: Option<PairTokens>,
                       decimalsMap: map<string, Option<nat>>): (row: Reserve)
    ensures row.chain == chainId && row.dex == dexName && row.pairAddress == addr
    ensures row.pairKey == PairKeyOf(p)
    ensures row.reserve0.Some? <==> r.Some?
    ensures row.reserve1.Some? <==> r.Some?
    ensures row.blockNumber.Some? <==> r.Some?
    ensures row.blockTimestamp.Some? <==> r.Some?
    ensures row.pairTimestampLast.Some? ==> r.Some?
    ensures r.Some? ==> && row.reserve0 == Some(r.value.reserve0) && row.reserve1 == Some(r.value.reserve1)
                        && row.blockNumber == Some(r.value.blockNumber)
                        && row.blockTimestamp == Some(r.value.blockTimestamp)
                        && row.pairTimestampLast == r.value.pairTimestampLast
    ensures row.token0.Some? <==> t.Some?
    ensures row.token1.Some? <==> t.Some?
    ensures t.Some? ==> row.token0 == Some(t.value.token0) && row.token1 == Some(t.value.token1)
    ensures t.Some? && t.value.token0 != "" && Lower(t.value.token0) in decimalsMap ==>
      row.decimals0 == decimalsMap[Lower(t.value.token0)]
    ensures t.Some? && t.value.token1 != "" && Lower(t.value.token1) in decimalsMap ==>
      row.decimals1 == decimalsMap[Lower(t.value.token1)]
    ensures t.None? || t.value.token0 == "" || Lower(t.value.token0) !in decimalsMap ==> row.decimals0.None?
    ensures t.None? || t.value.token1 == "" || Lower(t.value.token1) !in decimalsMap ==> row.decimals1.None?
  {
    var token0 := if t.Some? then Some(t.value.token0) else None;
    var token1 := if t.Some? then Some(t.value.token1) else None;
    Reserve(
      chainId,
      dexName,
      PairKeyOf(p),
      addr,
      token0,
      token1,
      if r.Some? then Some(r.value.reserve0) else None,
      if r.Some? then Some(r.value.reserve1) else None,
      DecimalsFor(token0, decimalsMap),
      DecimalsFor(token1, decimalsMap),
      if r.Some? then Some(r.value.blockNumber) else None,
      if r.Some? then Some(r.value.blockTimestamp) else None,
      if r.Some? then r.value.pairTimestampLast else None)
  }

  /** The row made for input index `i`. */
  function RowAt(ps: AssembleParams, i: nat): Reserve
    requires i < |ps.pairs| && ps.pairs[i].Some?
  {
    AssembleRow(ps.chainId, ps.dexName, ps.pairs[i].value, At(ps.pairAddrs, i), At(ps.reserves, i),
                At(ps.pairTokens, i), ps.decimalsMap)
  }

  /** The number of defined pairs among the first `n`. */
  function DefinedCount(pairs: seq<Option<TokenPair>>, n: nat): (c: nat)
    requires n <= |pairs|
    ensures c <= n
  {
    if n == 0 then 0 else DefinedCount(pairs, n - 1) + (if pairs[n - 1].Some? then 1 else 0)
  }

  /** The rows for the first `n` pairs: one per defined pair, in input order. */
  function AssembleUpTo(ps: AssembleParams, n: nat): (rows: seq<Reserve>)
    requires n <= |ps.pairs|
    ensures |rows| == DefinedCount(ps.pairs, n)
  {
    if n == 0 then []
    else AssembleUpTo(ps, n - 1) + (if ps.pairs[n - 1].Some? then [RowAt(ps, n - 1)] else [])
  }

  /** Every row comes from some defined input pair. */
  lemma {:induction false} AssembleProvenance(ps: AssembleParams, n: nat, k: nat)
    requires n <= |ps.pairs| && k < |AssembleUpTo(ps, n)|
    ensures exists i :: 0 <= i < n && ps.pairs[i].Some? && AssembleUpTo(ps, n)[k] == RowAt(ps, i)
  {
    var prev := AssembleUpTo(ps, n - 1);
    if k < |prev| {
      AssembleProvenance(ps, n - 1, k);
      var i :| 0 <= i < n - 1 && ps.pairs[i].Some? && prev[k] == RowAt(ps, i);
      assert AssembleUpTo(ps, n)[k] == RowAt(ps, i);
    } else {
      assert AssembleUpTo(ps, n)[k] == RowAt(ps, n - 1);
    }
  }

  /** The row of a defined pair `i` sits at the number of defined pairs before
      it: rows keep the input order, missing pairs only close the gaps. */
  lemma {:induction false} AssembleIndex(ps: AssembleParams, n: nat, i: nat)
    requires i < n <= |ps.pairs| && ps.pairs[i].Some?
    ensures DefinedCount(ps.pairs, i) < |AssembleUpTo(ps, n)|
    ensures AssembleUpTo(ps, n)[DefinedCount(ps.pairs, i)] == RowAt(ps, i)
  {
    if i < n - 1 {
      AssembleIndex(ps, n - 1, i);
    }
  }

  /** Defined pairs `i < j` give rows in that order. */
  lemma AssembleOrdered(ps: AssembleParams, n: nat)
    requires n <= |ps.pairs|
    ensures forall i :: 0 <= i < n && ps.pairs[i].Some? ==>
      DefinedCount(ps.pairs, i) < |AssembleUpTo(ps, n)|
      && AssembleUpTo(ps, n)[DefinedCount(ps.pairs, i)] == RowAt(ps, i)
    ensures forall i, j :: 0 <= i < j <= n ==> DefinedCount(ps.pairs, i) <= DefinedCount(ps.pairs, j)
  {
    forall i | 0 <= i < n && ps.pairs[i].Some?
      ensures DefinedCount(ps.pairs, i) < |AssembleUpTo(ps, n)|
      ensures AssembleUpTo(ps, n)[DefinedCount(ps.pairs, i)] == RowAt(ps, i)
    {
      AssembleIndex(ps, n, i);
    }
    forall i, j | 0 <= i < j <= n
      ensures DefinedCount(ps.pairs, i) <= DefinedCount(ps.pairs, j)
    {
      DefinedCountMonotone(ps.pairs, i, j);
    }
  }

  lemma {:induction false} DefinedCountMonotone(pairs: seq<Option<TokenPair>>, i: nat, j: nat)
    requires i <= j <= |pairs|
    ensures DefinedCount(pairs, i) <= DefinedCount(pairs, j)
  {
    if i < j {
      DefinedCountMonotone(pairs, i, j - 1);
    }
  }

  /** When no pair is missing, every pair yields a row. */
  lemma {:induction false} AllDefinedCount(pairs: seq<Option<TokenPair>>, n: nat)
    requires n <= |pairs|
    requires forall i :: 0 <= i < n ==> pairs[i].Some?
    ensures DefinedCount(pairs, n) == n
  {
    if n > 0 {
      AllDefinedCount(pairs, n - 1);
    }
  }

  /** When no pair among the first `n` is missing, row `i` is made from index `i`. */
  lemma {:induction false} AssembleAt(ps: AssembleParams, n: nat, i: nat)
    requires i < n <= |ps.pairs|
    requires forall k :: 0 <= k < n ==> ps.pairs[k].Some?
    ensures i < |AssembleUpTo(ps, n)| && AssembleUpTo(ps, n)[i] == RowAt(ps, i)
  {
    AllDefinedCount(ps.pairs, n - 1);
    if i < n - 1 {
      AssembleAt(ps, n - 1, i);
    }
  }

  /** When no pair is missing, the rows are aligned with the input: row `i` is
      made from index `i`. */
  lemma AssembleAligned(ps: AssembleParams, n: nat)
    requires n <= |ps.pairs|
    requires forall i :: 0 <= i < n ==> ps.pairs[i].Some?
    ensures |AssembleUpTo(ps, n)| == n
    ensures forall i :: 0 <= i < n ==> AssembleUpTo(ps, n)[i] == RowAt(ps, i)
  {
    AllDefinedCount(ps.pairs, n);
    forall i | 0 <= i < n
      ensures AssembleUpTo(ps, n)[i] == RowAt(ps, i)
    {
      AssembleAt(ps, n, i);
    }
  }

  /** assembleResults: one row per defined pair, in input order. */
  method AssembleResults(ps: AssembleParams) returns (results: seq<Reserve>)
    ensures results == AssembleUpTo(ps, |ps.pairs|)
  {
    results := [];
    var i := 0;
    while i < |ps.pairs|
      invariant 0 <= i <= |ps.pairs|
      invariant results == AssembleUpTo(ps, i)
    {
      var p := ps.pairs[i];
      if p.Some? {
        var addr := At(ps.pairAddrs, i);
        var r := At(ps.reserves, i);
        var t := At(ps.pairTokens, i);
        var row := AssembleRow(ps.chainId, ps.dexName, p.value, addr, r, t, ps.decimalsMap);
        results := results + [row];
      }
      i := i + 1;
    }
  }

  // ---------------------------------------------------------------------------
  // The pipeline (src/fetcher.ts:13-53)

  /** What every returned row satisfies: reserves and tokens only where a pool
      address was found, reserves always stamped with the one reference block. */
  predicate WellFormedRow(row: Reserve, chainId: nat, dexName: string, blockNumber: nat, block: Option<Block>) {
    && row.chain == chainId && row.dex == dexName
    && (row.reserve0.Some? ==>
          && row.pairAddress.Some? && row.reserve1.Some? && block.Some?
          && row.blockNumber == Some(blockNumber) && row.blockTimestamp == Some(block.value.timestamp))
    && (row.reserve0.None? ==>
          row.reserve1.None? && row.blockNumber.None? && row.blockTimestamp.None? && row.pairTimestampLast.None?)
    && (row.token0.Some? ==>
          row.pairAddress.Some? && row.token1.Some? && row.token0.value != "" && row.token1.value != "")
    && (row.token0.None? ==> row.token1.None? && row.decimals0.None? && row.decimals1.None?)
  }

  /** The stage outputs line up with the resolved addresses. */
  predicate StagesAligned(pairAddrs: seq<Option<string>>, reserves: seq<Option<Snapshot>>,
                          pairTokens: seq<Option<PairTokens>>, blockNumber: nat, block: Option<Block>) {
    && |reserves| == |pairAddrs| && |pairTokens| == |pairAddrs|
    && (forall i :: 0 <= i < |pairAddrs| && reserves[i].Some? ==>
          && pairAddrs[i].Some? && block.Some?
          && reserves[i].value.blockNumber == blockNumber
          && reserves[i].value.blockTimestamp == block.value.timestamp)
    && (forall i :: 0 <= i < |pairAddrs| && pairTokens[i].Some? ==>
          pairAddrs[i].Some? && pairTokens[i].value.token0 != "" && pairTokens[i].value.token1 != "")
  }

  /** Aligned stages give well-formed rows. */
  lemma AssembledRowsWellFormed(ps: AssembleParams, blockNumber: nat, block: Option<Block>)
    requires |ps.pairAddrs| == |ps.pairs|
    requires StagesAligned(ps.pairAddrs, ps.reserves, ps.pairTokens, blockNumber, block)
    ensures forall k :: 0 <= k < |AssembleUpTo(ps, |ps.pairs|)| ==>
      WellFormedRow(AssembleUpTo(ps, |ps.pairs|)[k], ps.chainId, ps.dexName, blockNumber, block)
  {
    var rows := AssembleUpTo(ps, |ps.pairs|);
    forall k | 0 <= k < |rows|
      ensures WellFormedRow(rows[k], ps.chainId, ps.dexName, blockNumber, block)
    {
      AssembleProvenance(ps, |ps.pairs|, k);
    }
  }

  /** The stages after the reserves: pool tokens, token decimals and the
      assembled rows, over addresses and reserves that line up with the input.
      The ghost results are the token and decimals stages' outputs. */
  method FetchTokensAndAssemble(chainId: nat, dexName: string, factory: string,
                                pairs: seq<Option<TokenPair>>, pairAddrs: seq<Option<string>>,
                                reserves: seq<Option<Snapshot>>, codec: Codec, mc: Multicall,
                                caches: Caches, blockNumber: nat, block: Option<Block>)
    returns (rows: seq<Reserve>, ghost pairTokens: seq<Option<PairTokens>>,
             ghost decimalsMap: map<string, Option<nat>>)
    requires |pairAddrs| == |pairs| && |reserves| == |pairAddrs|
    requires forall i :: 0 <= i < |pairAddrs| && reserves[i].Some? ==>
      && pairAddrs[i].Some? && block.Some?
      && reserves[i].value.blockNumber == blockNumber
      && reserves[i].value.blockTimestamp == block.value.timestamp
    modifies mc, caches`decimalsCache
    ensures pairTokens == TokensStage(codec, mc.respond, pairAddrs)
    ensures caches.decimalsCache == DecimalsStageCache(old(caches.decimalsCache), chainId, pairTokens, codec, mc.respond)
    ensures decimalsMap == DecimalsMapOf(CollectTokens(pairTokens), chainId, caches.decimalsCache)
    ensures mc.batches == old(mc.batches) + TokenBatches(pairAddrs)
      + DecimalsBatches(Misses(CollectTokens(pairTokens), chainId, old(caches.decimalsCache)))
    ensures rows == AssembleUpTo(AssembleParams(chainId, dexName, factory, pairs, pairAddrs, reserves,
                                                pairTokens, decimalsMap), |pairs|)
    ensures |old(mc.batches)| <= |mc.batches| <= |old(mc.batches)| + 3
    ensures |rows| == DefinedCount(pairs, |pairs|)
    ensures forall k :: 0 <= k < |rows| ==> WellFormedRow(rows[k], chainId, dexName, blockNumber, block)
    ensures forall key :: key in old(caches.decimalsCache) ==>
      key in caches.decimalsCache && caches.decimalsCache[key] == old(caches.decimalsCache)[key]
  {
    var tokens := FetchPairTokens(pairAddrs, codec, mc);
    assert StagesAligned(pairAddrs, reserves, tokens, blockNumber, block);
    var decimals := FetchTokenDecimals(tokens, codec, mc, chainId, caches);
    var ps := AssembleParams(chainId, dexName, factory, pairs, pairAddrs, reserves, tokens, decimals);
    AssembledRowsWellFormed(ps, blockNumber, block);
    rows := AssembleResults(ps);
    pairTokens, decimalsMap := tokens, decimals;
  }

  /** The stages after resolution: reserves at the reference block, then the
      token stages and the assembly, unless the block is missing. The ghost
      results are the reserves, token and decimals stages' outputs. */
  method FetchFromAddresses(chainId: nat, dexName: string, factory: string,
                            pairs: seq<Option<TokenPair>>, pairAddrs: seq<Option<string>>,
                            codec: Codec, mc: Multicall, caches: Caches, blockNumber: nat, block: Option<Block>)
    returns (r: Result<seq<Reserve>, FetchError>, ghost reserves: seq<Option<Snapshot>>,
             ghost pairTokens: seq<Option<PairTokens>>, ghost decimalsMap: map<string, Option<nat>>)
    requires |pairAddrs| == |pairs|
    modifies mc, caches`decimalsCache
    ensures reserves == ReservesStage(codec, mc.respond, pairAddrs, blockNumber, BlockTime(block))
    ensures r.Failure? <==> (exists i :: 0 <= i < |pairAddrs| && pairAddrs[i].Some?) && block.None?
    ensures r.Failure? ==> && r.error == BlockUnavailable(blockNumber)
                           && mc.batches == old(mc.batches)
                           && caches.decimalsCache == old(caches.decimalsCache)
    ensures r.Success? ==>
      && pairTokens == TokensStage(codec, mc.respond, pairAddrs)
      && caches.decimalsCache == DecimalsStageCache(old(caches.decimalsCache), chainId, pairTokens, codec, mc.respond)
      && decimalsMap == DecimalsMapOf(CollectTokens(pairTokens), chainId, caches.decimalsCache)
      && mc.batches == old(mc.batches) + ReserveBatches(pairAddrs) + TokenBatches(pairAddrs)
           + DecimalsBatches(Misses(CollectTokens(pairTokens), chainId, old(caches.decimalsCache)))
      && r.value == AssembleUpTo(AssembleParams(chainId, dexName, factory, pairs, pairAddrs, reserves,
                                                pairTokens, decimalsMap), |pairs|)
    ensures |old(mc.batches)| <= |mc.batches| <= |old(mc.batches)| + 4
    ensures r.Failure? ==> block.None? && r.error == BlockUnavailable(blockNumber)
    ensures r.Success? ==> |r.value| == DefinedCount(pairs, |pairs|)
    ensures r.Success? ==> forall k :: 0 <= k < |r.value| ==>
      WellFormedRow(r.value[k], chainId, dexName, blockNumber, block)
    ensures forall key :: key in old(caches.decimalsCache) ==>
      key in caches.decimalsCache && caches.decimalsCache[key] == old(caches.decimalsCache)[key]
  {
    var fetched := FetchReserves(pairAddrs, codec, mc, blockNumber, block);
    reserves := ReservesStage(codec, mc.respond, pairAddrs, blockNumber, BlockTime(block));
    if fetched.Failure? {
      return Failure(fetched.error), reserves, [], map[];
    }
    var rows;
    rows, pairTokens, decimalsMap := FetchTokensAndAssemble(chainId, dexName, factory, pairs, pairAddrs, fetched.value,
                                                            codec, mc, caches, blockNumber, block);
    r := Success(rows);
  }

  /** fetchPairsAndReserves: resolve, read reserves at one block, read tokens,
      read decimals, assemble. The provider's block number and block are
      parameters; a missing block aborts before the token stages. The ghost
      results are the four stages' outputs. */
  method FetchPairsAndReserves(chainId: nat, dexName: string, factory: string,
                               pairs: seq<Option<TokenPair>>, codec: Codec, mc: Multicall,
                               caches: Caches, blockNumber: nat, block: Option<Block>)
    returns (r: Result<seq<Reserve>, FetchError>, ghost pairAddrs: seq<Option<string>>,
             ghost reserves: seq<Option<Snapshot>>, ghost pairTokens: seq<Option<PairTokens>>,
             ghost decimalsMap: map<string, Option<nat>>)
    modifies mc, caches
    ensures pairAddrs == AddressesStage(factory, codec, mc.respond, pairs)
    ensures caches.pairAddrCache
      == WriteAll(old(caches.pairAddrCache), PairCacheKeys(factory, codec, pairs), pairAddrs)
    ensures reserves == ReservesStage(codec, mc.respond, pairAddrs, blockNumber, BlockTime(block))
    ensures r.Failure? <==> (exists i :: 0 <= i < |pairAddrs| && pairAddrs[i].Some?) && block.None?
    ensures r.Failure? ==> && r.error == BlockUnavailable(blockNumber)
                           && mc.batches == old(mc.batches) + [ResolveCalls(factory, codec, pairs)]
                           && caches.decimalsCache == old(caches.decimalsCache)
    ensures r.Success? ==>
      && pairTokens == TokensStage(codec, mc.respond, pairAddrs)
      && caches.decimalsCache == DecimalsStageCache(old(caches.decimalsCache), chainId, pairTokens, codec, mc.respond)
      && decimalsMap == DecimalsMapOf(CollectTokens(pairTokens), chainId, caches.decimalsCache)
      && mc.batches == old(mc.batches) + [ResolveCalls(factory, codec, pairs)]
           + ReserveBatches(pairAddrs) + TokenBatches(pairAddrs)
           + DecimalsBatches(Misses(CollectTokens(pairTokens), chainId, old(caches.decimalsCache)))
      && r.value == AssembleUpTo(AssembleParams(chainId, dexName, factory, pairs, pairAddrs, reserves,
                                                pairTokens, decimalsMap), |pairs|)
    ensures |old(mc.batches)| + 1 <= |mc.batches| <= |old(mc.batches)| + 5
    ensures r.Failure? ==> block.None? && r.error == BlockUnavailable(blockNumber)
    ensures r.Success? ==> |r.value| == DefinedCount(pairs, |pairs|)
    ensures r.Success? ==> forall k :: 0 <= k < |r.value| ==>
      WellFormedRow(r.value[k], chainId, dexName, blockNumber, block)
    ensures forall key :: key in old(caches.decimalsCache) ==>
      key in caches.decimalsCache && caches.decimalsCache[key] == old(caches.decimalsCache)[key]
  {
    var addrs := ResolvePairAddresses(factory, pairs, codec, mc, caches);
    pairAddrs := addrs;
    r, reserves, pairTokens, decimalsMap := FetchFromAddresses(chainId, dexName, factory, pairs, addrs, codec, mc,
                                                               caches, blockNumber, block);
  }
}
