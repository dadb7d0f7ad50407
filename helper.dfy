/** The cache-key helper and the two process-wide caches that the fetch pipeline
    updates in place. */
module Helper {
  import opened Wrappers
  import opened Text

  /** The address-cache key `factory:tokenA:tokenB`, every component lowercased. */
  function KeyFactory(factory: string, tokenA: string, tokenB: string): (key: string)
    ensures |key| == |factory| + |tokenA| + |tokenB| + 2
  {
    Lower(factory) + ":" + Lower(tokenA) + ":" + Lower(tokenB)
  }

  /** A key holds no upper-case letter. */
  lemma KeyFactoryIsLower(f: string, a: string, b: string)
    ensures IsLower(KeyFactory(f, a, b))
  {
    LowerAt(f);
    LowerAt(a);
    LowerAt(b);
    var k := KeyFactory(f, a, b);
    forall i | 0 <= i < |k|
      ensures !IsUpper(k[i])
    {
      if i < |f| {
        assert k[i] == Lower(f)[i];
      } else if i == |f| || i == |f| + |a| + 1 {
        assert k[i] == ':';
      } else if i < |f| + |a| + 1 {
        assert k[i] == Lower(a)[i - |f| - 1];
      } else {
        assert k[i] == Lower(b)[i - |f| - |a| - 2];
      }
    }
  }

  /** If `x:y` and `x':y'` are the same string and neither `x` nor `x'` holds a
      colon, the split at the first colon gives back the parts. */
  lemma SplitAtColon(x: string, y: string, x': string, y': string)
    requires ':' !in x && ':' !in x'
    requires x + ":" + y == x' + ":" + y'
    ensures x == x' && y == y'
  {
    var s := x + ":" + y;
    assert forall i :: 0 <= i < |x| ==> s[i] == x[i];
    assert forall i :: 0 <= i < |x'| ==> s[i] == x'[i];
    assert s[|x|] == ':' && s[|x'|] == ':';
    assert |x| == |x'|;
    assert x == s[..|x|] == x';
    assert y == s[|x| + 1..] == y';
  }

  /** For colon-free factory and first-token components, two keys are equal exactly
      when the three components agree up to letter case: the key is case-insensitive
      and otherwise injective in the triple. */
  lemma {:induction false} KeyFactoryEqualIff(f: string, a: string, b: string, f': string, a': string, b': string)
    requires ':' !in f && ':' !in a && ':' !in f' && ':' !in a'
    ensures KeyFactory(f, a, b) == KeyFactory(f', a', b')
        <==> Lower(f) == Lower(f') && Lower(a) == Lower(a') && Lower(b) == Lower(b')
  {
    var lf, la, lb := Lower(f), Lower(a), Lower(b);
    var lf', la', lb' := Lower(f'), Lower(a'), Lower(b');
    assert KeyFactory(f, a, b) == lf + ":" + la + ":" + lb;
    assert KeyFactory(f', a', b') == lf' + ":" + la' + ":" + lb';
    if KeyFactory(f, a, b) == KeyFactory(f', a', b') {
      LowerKeepsColonFree(f);
      LowerKeepsColonFree(a);
      LowerKeepsColonFree(f');
      LowerKeepsColonFree(a');
      SplitKey(lf, la, lb, lf', la', lb');
    }
  }

  /** A key `x:y:z` with colon-free `x` and `y` determines its three parts. */
  lemma SplitKey(x: string, y: string, z: string, x': string, y': string, z': string)
    requires ':' !in x && ':' !in y && ':' !in x' && ':' !in y'
    requires x + ":" + y + ":" + z == x' + ":" + y' + ":" + z'
    ensures x == x' && y == y' && z == z'
  {
    assert x + ":" + y + ":" + z == x + ":" + (y + ":" + z);
    assert x' + ":" + y' + ":" + z' == x' + ":" + (y' + ":" + z');
    SplitAtColon(x, y + ":" + z, x', y' + ":" + z');
    SplitAtColon(y, z, y', z');
  }

  /** The key for `(f, a, b)` is not the key for `(f, b, a)` unless `a` and `b`
      agree up to case: the key records the order in which the caller gave the tokens. */
  lemma KeyFactoryOrderMatters(f: string, a: string, b: string)
    requires ':' !in f && ':' !in a && ':' !in b
    requires Lower(a) != Lower(b)
    ensures KeyFactory(f, a, b) != KeyFactory(f, b, a)
  {
    KeyFactoryEqualIff(f, a, b, f, b, a);
  }

  /** Feeding lowercased components back in yields the same key. */
  lemma KeyFactoryIdempotent(f: string, a: string, b: string)
    ensures KeyFactory(Lower(f), Lower(a), Lower(b)) == KeyFactory(f, a, b)
  {
    LowerIdempotent(f);
    LowerIdempotent(a);
    LowerIdempotent(b);
  }

  /** A decimals-cache entry. `Unknown` stands for the NaN the source stores when a
      token's `decimals()` call failed. */
  datatype DecimalsEntry = Known(decimals: nat) | Unknown

  /** The process-wide caches: `decimalsCache` keyed by `chainId:tokenLower`, and
      `pairAddrCache` keyed by KeyFactory, holding a pool address or `null`. */
  class Caches {
    var decimalsCache: map<string, DecimalsEntry>
    var pairAddrCache: map<string, Option<string>>

    constructor ()
      ensures decimalsCache == map[] && pairAddrCache == map[]
    {
      decimalsCache := map[];
      pairAddrCache := map[];
    }
  }
}
