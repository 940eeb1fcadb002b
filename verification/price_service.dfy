/** `Blockchain::PriceService`: USD prices with a class-level cache whose entries
    expire five minutes after they are written. The clock is an explicit `now`
    (seconds), frozen for the duration of one call; each CoinGecko answer is an
    input, consulted only when the cache misses. */
module PriceService {
  import opened Wrappers
  import opened Text
  import opened Values

  /** `CACHE_DURATION`, five minutes in seconds. */
  const CacheDuration: int := 300

  /** `price_cache` and `cache_expiry`, keyed alike. */
  datatype Cache = Cache(prices: map<string, real>, expiry: map<string, int>)

  const EmptyCache := Cache(map[], map[])

  /** The two maps have the same key set. */
  predicate Consistent(c: Cache) {
    c.prices.Keys == c.expiry.Keys
  }

  /** `c` and `d` hold the same entries under `k`. */
  predicate AgreeAt(c: Cache, d: Cache, k: string) {
    (k in c.prices <==> k in d.prices) && (k in c.prices ==> c.prices[k] == d.prices[k])
    && (k in c.expiry <==> k in d.expiry) && (k in c.expiry ==> c.expiry[k] == d.expiry[k])
  }

  /** Every key other than `key` is untouched. */
  ghost predicate AgreeExcept(c: Cache, d: Cache, key: string) {
    forall k :: k != key ==> AgreeAt(c, d, k)
  }

  /** A cache read: the value found (nil on a miss) and the cache afterwards. */
  datatype Lookup = Lookup(value: Option<real>, cache: Cache)

  /** `get_from_cache`: a hit needs an expiry strictly after `now`; a miss deletes
      both entries of the key. */
  function GetFromCache(c: Cache, key: string, now: int): (r: Lookup)
    ensures r.value.Some? <==> key in c.expiry && c.expiry[key] > now && key in c.prices
    ensures r.value.Some? ==> r.value.value == c.prices[key] && r.cache == c
    ensures key in c.expiry && c.expiry[key] > now ==> r.cache == c
    ensures !(key in c.expiry && c.expiry[key] > now) ==> key !in r.cache.prices && key !in r.cache.expiry
    ensures AgreeExcept(c, r.cache, key)
    ensures Consistent(c) ==> Consistent(r.cache)
  {
    if key in c.expiry && c.expiry[key] > now then
      Lookup(if key in c.prices then Some(c.prices[key]) else None, c)
    else
      Lookup(None, Cache(c.prices - {key}, c.expiry - {key}))
  }

  /** `set_cache`: stores the value with an expiry five minutes after `now`. */
  function SetCache(c: Cache, key: string, value: real, now: int): (r: Cache)
    ensures key in r.prices && r.prices[key] == value
    ensures key in r.expiry && r.expiry[key] == now + CacheDuration
    ensures AgreeExcept(c, r, key)
    ensures Consistent(c) ==> Consistent(r)
  {
    Cache(c.prices[key := value], c.expiry[key := now + CacheDuration])
  }

  /** A value written at `now` is read back exactly while the clock is before
      `now + CacheDuration`, and is gone from then on. */
  lemma TtlWindow(c: Cache, key: string, value: real, now: int, later: int)
    ensures later < now + CacheDuration ==> GetFromCache(SetCache(c, key, value, now), key, later).value == Some(value)
    ensures later >= now + CacheDuration ==> GetFromCache(SetCache(c, key, value, now), key, later).value.None?
  {
  }

  /** A lookup depends on nothing but the entries under its key. */
  lemma LookupLocal(c: Cache, d: Cache, key: string, now: int)
    requires AgreeAt(c, d, key)
    ensures GetFromCache(c, key, now).value == GetFromCache(d, key, now).value
    ensures AgreeAt(GetFromCache(c, key, now).cache, GetFromCache(d, key, now).cache, key)
  {
  }

  /** What CoinGecko answered for one query: no answer (transport failure, non-2xx
      status, unparsable body), a body that is not a JSON object (`dig` raises,
      rescued), or an object whose `[id]["usd"]` entry is the given value. */
  datatype PriceReply = NoResponse | Malformed | Quote(price: Scalar)

  /** The price a reply yields, nil when none: a missing entry is nil, and an
      entry without `to_f` raises inside the method's own rescue. */
  function ReplyPrice(reply: PriceReply): (r: Option<real>)
    ensures r.Some? <==> reply.Quote? && ToF(reply.price).Ok? && !reply.price.Null?
    ensures r.Some? ==> ToF(reply.price) == Ok(r.value)
  {
    match reply
    case NoResponse => None
    case Malformed => None
    case Quote(v) =>
      match SafeToF(v)
      case Ok(p) => p
      case Err(_) => None
  }

  /** A priced read: the value returned, the cache afterwards, and whether the
      provider was asked. */
  datatype Priced = Priced(price: real, cache: Cache, fetched: bool)

  /** The cache key of a contract price, `"#{platform}:#{address.downcase}"`. */
  function TokenCacheKey(platform: string, address: string): (r: string)
    ensures |r| == |platform| + 1 + |address|
    ensures StartsWith(r, platform) && r[|platform|] == ':'
    ensures r[|platform| + 1..] == ToLower(address)
  {
    platform + ":" + ToLower(address)
  }

  /** Addresses on one platform share a cache key exactly when they agree up to case. */
  lemma TokenCacheKeyInjective(platform: string, a: string, b: string)
    ensures TokenCacheKey(platform, a) == TokenCacheKey(platform, b) <==> ToLower(a) == ToLower(b)
  {
    if TokenCacheKey(platform, a) == TokenCacheKey(platform, b) {
      assert ToLower(a) == TokenCacheKey(platform, a)[|platform| + 1..];
    }
  }

  /** The shared tail of both single-price reads: the cache is consulted first
      (a stored 0.0 is a hit too); on a miss the reply decides, and only a non-nil
      price is stored. */
  function CachedFetch(c: Cache, key: string, now: int, reply: PriceReply): (r: Priced)
    ensures GetFromCache(c, key, now).value.Some? ==> r == Priced(c.prices[key], c, false)
    ensures GetFromCache(c, key, now).value.None? ==> r.fetched && r.price == ReplyPrice(reply).GetOr(0.0)
    ensures r.fetched && ReplyPrice(reply).None? ==> key !in r.cache.prices
    ensures r.fetched && ReplyPrice(reply).Some? ==>
      key in r.cache.prices && r.cache.prices[key] == r.price
      && key in r.cache.expiry && r.cache.expiry[key] == now + CacheDuration
    ensures AgreeExcept(c, r.cache, key)
    ensures Consistent(c) ==> Consistent(r.cache)
  {
    var look := GetFromCache(c, key, now);
    if look.value.Some? then Priced(look.value.value, look.cache, false)
    else
      match ReplyPrice(reply)
      case Some(p) => Priced(p, SetCache(look.cache, key, p, now), true)
      case None => Priced(0.0, look.cache, true)
  }

  /** `get_token_price`: the price of a contract on `platform`, 0.0 when unknown. */
  function TokenPrice(c: Cache, address: string, platform: string, now: int, reply: PriceReply): (r: Priced)
    ensures var key := TokenCacheKey(platform, address);
      r == CachedFetch(c, key, now, reply) && AgreeExcept(c, r.cache, key)
  {
    CachedFetch(c, TokenCacheKey(platform, address), now, reply)
  }

  /** A price fetched and stored at `now` is served from the cache, without asking the
      provider, by every later call made before it expires, whatever the provider would say. */
  lemma FetchedPriceIsMemoised(c: Cache, address: string, platform: string, now: int, reply: PriceReply,
                               later: int, laterReply: PriceReply)
    requires TokenPrice(c, address, platform, now, reply).fetched && ReplyPrice(reply).Some?
    requires now <= later < now + CacheDuration
    ensures var first := TokenPrice(c, address, platform, now, reply);
      TokenPrice(first.cache, address, platform, later, laterReply) == Priced(first.price, first.cache, false)
  {
  }

  /** `symbol_to_coingecko_id`'s table. */
  const CoinGeckoIds: map<string, string> := map[
    "eth" := "ethereum", "btc" := "bitcoin", "sol" := "solana", "matic" := "matic-network",
    "bnb" := "binancecoin", "avax" := "avalanche-2", "arb" := "arbitrum", "op" := "optimism"]

  /** `symbol_to_coingecko_id`: the table entry of the lower-cased symbol. */
  function CoinGeckoId(symbol: string): (r: Option<string>)
    ensures r.Some? <==> ToLower(symbol) in CoinGeckoIds
    ensures r.Some? ==> r.value == CoinGeckoIds[ToLower(symbol)]
  {
    var low := ToLower(symbol);
    if low in CoinGeckoIds then Some(CoinGeckoIds[low]) else None
  }

  /** The id lookup ignores case. */
  lemma CoinGeckoIdIgnoresCase(symbol: string)
    ensures CoinGeckoId(symbol) == CoinGeckoId(ToLower(symbol))
  {
    ToLowerIdempotent(symbol);
  }

  /** `get_native_price`: like `get_token_price` under the key `"native:#{symbol.downcase}"`,
      except that a symbol outside the table gives 0.0 without a request. */
  function NativePrice(c: Cache, symbol: string, now: int, reply: PriceReply): (r: Priced)
    ensures var key := "native:" + ToLower(symbol);
      var look := GetFromCache(c, key, now);
      && (look.value.Some? ==> r == Priced(c.prices[key], c, false))
      && (look.value.None? && CoinGeckoId(symbol).None? ==> r == Priced(0.0, look.cache, false))
      && (look.value.None? && CoinGeckoId(symbol).Some? ==> r == CachedFetch(c, key, now, reply))
    ensures AgreeExcept(c, r.cache, "native:" + ToLower(symbol))
    ensures Consistent(c) ==> Consistent(r.cache)
  {
    var key := "native:" + ToLower(symbol);
    var look := GetFromCache(c, key, now);
    if look.value.Some? then Priced(look.value.value, look.cache, false)
    else if CoinGeckoId(symbol).None? then Priced(0.0, look.cache, false)
    else CachedFetch(c, key, now, reply)
  }

  /** `get_multiple_prices` queries at most this many addresses. */
  const BatchLimit: nat := 10

  /** The answer of a batch: prices by original address, the cache afterwards,
      and how many half-second pauses were taken. */
  datatype Batch = Batch(prices: map<string, real>, cache: Cache, delays: nat)

  /** The price a batch reports for `address`, defined from the cache as it was when the
      batch began: the cached value, else what the provider answers, else 0.0.
      `replies` gives the provider's answer for each lower-cased address. */
  function ExpectedPrice(c: Cache, platform: string, now: int, replies: string -> PriceReply, address: string): real {
    var look := GetFromCache(c, TokenCacheKey(platform, address), now);
    if look.value.Some? then look.value.value else ReplyPrice(replies(ToLower(address))).GetOr(0.0)
  }

  /** Every address reads, from cache `d`, the price it would have read at the start. */
  ghost predicate StillExpected(c: Cache, d: Cache, platform: string, now: int, replies: string -> PriceReply) {
    forall a: string ::
      TokenPrice(d, a, platform, now, replies(ToLower(a))).price == ExpectedPrice(c, platform, now, replies, a)
  }

  /** One more query keeps every address's reading unchanged: under a frozen clock
      the same key either still hits the value just written, or misses again and
      asks the same question. */
  lemma QueryKeepsExpected(c: Cache, d: Cache, platform: string, now: int, replies: string -> PriceReply, b: string)
    requires StillExpected(c, d, platform, now, replies)
    ensures StillExpected(c, TokenPrice(d, b, platform, now, replies(ToLower(b))).cache, platform, now, replies)
  {
    var e := TokenPrice(d, b, platform, now, replies(ToLower(b))).cache;
    var kb := TokenCacheKey(platform, b);
    forall a: string
      ensures TokenPrice(e, a, platform, now, replies(ToLower(a))).price == ExpectedPrice(c, platform, now, replies, a)
    {
      var ka := TokenCacheKey(platform, a);
      assert TokenPrice(d, a, platform, now, replies(ToLower(a))).price == ExpectedPrice(c, platform, now, replies, a);
      TokenCacheKeyInjective(platform, a, b);
      if ka != kb {
        LookupLocal(d, e, ka, now);
      }
    }
  }

  /** No address of `queried` has the cache key `k`. */
  predicate Untouched(queried: seq<string>, platform: string, k: string) {
    forall a :: a in queried ==> k != TokenCacheKey(platform, a)
  }

  /** Keys no query has touched keep their entries from the start of the batch. */
  lemma FrameStep(c: Cache, d: Cache, e: Cache, queried: seq<string>, platform: string, address: string)
    requires forall k :: Untouched(queried, platform, k) ==> AgreeAt(c, d, k)
    requires AgreeExcept(d, e, TokenCacheKey(platform, address))
    ensures forall k :: Untouched(queried + [address], platform, k) ==> AgreeAt(c, e, k)
  {
    forall k | Untouched(queried + [address], platform, k)
      ensures AgreeAt(c, e, k)
    {
      assert k != TokenCacheKey(platform, address);
      assert Untouched(queried, platform, k);
      assert AgreeAt(c, d, k);
      assert AgreeAt(d, e, k);
    }
  }

  /** The addresses a batch queries: the first ten. */
  function BatchQueried(addresses: seq<string>): (r: seq<string>)
    ensures |r| == Min(|addresses|, BatchLimit)
    ensures r == addresses[..|r|]
  {
    addresses[..Min(|addresses|, BatchLimit)]
  }

  /** The prices a batch reports, as a map: each queried address whose expected
      price is positive, under its original spelling. */
  function BatchPrices(c: Cache, addresses: seq<string>, platform: string, now: int,
                       replies: string -> PriceReply): map<string, real> {
    map a | a in BatchQueried(addresses) && ExpectedPrice(c, platform, now, replies, a) > 0.0 ::
      ExpectedPrice(c, platform, now, replies, a)
  }

  /** A map with the keys and values `get_multiple_prices` reports is `BatchPrices`. */
  lemma PricesAreBatchPrices(m: map<string, real>, c: Cache, addresses: seq<string>, platform: string, now: int,
                             replies: string -> PriceReply)
    requires forall a :: a in m <==> (a in BatchQueried(addresses) && ExpectedPrice(c, platform, now, replies, a) > 0.0)
    requires forall a :: a in m ==> m[a] == ExpectedPrice(c, platform, now, replies, a)
    ensures m == BatchPrices(c, addresses, platform, now, replies)
  {
  }

  /** `get_multiple_prices`: prices of the first ten addresses, keeping those above zero
      under their original spelling; one pause before every query but the first. */
  method GetMultiplePrices(c: Cache, addresses: seq<string>, platform: string, now: int,
                           replies: string -> PriceReply) returns (r: Batch)
    ensures |addresses| == 0 ==> r == Batch(map[], c, 0)
    ensures r.delays == if |addresses| == 0 then 0 else Min(|addresses|, BatchLimit) - 1
    ensures forall a :: a in r.prices <==>
      (a in addresses[..Min(|addresses|, BatchLimit)] && ExpectedPrice(c, platform, now, replies, a) > 0.0)
    ensures forall a :: a in r.prices ==> r.prices[a] == ExpectedPrice(c, platform, now, replies, a)
    ensures forall k :: Untouched(addresses[..Min(|addresses|, BatchLimit)], platform, k) ==> AgreeAt(c, r.cache, k)
    ensures Consistent(c) ==> Consistent(r.cache)
  {
    if |addresses| == 0 {
      return Batch(map[], c, 0);
    }
    var limited := addresses[..Min(|addresses|, BatchLimit)];
    var prices: map<string, real> := map[];
    var cache := c;
    var delays := 0;
    var i := 0;
    while i < |limited|
      invariant 0 <= i <= |limited|
      invariant delays == if i == 0 then 0 else i - 1
      invariant StillExpected(c, cache, platform, now, replies)
      invariant forall a :: a in prices <==> (a in limited[..i] && ExpectedPrice(c, platform, now, replies, a) > 0.0)
      invariant forall a :: a in prices ==> prices[a] == ExpectedPrice(c, platform, now, replies, a)
      invariant forall k :: Untouched(limited[..i], platform, k) ==> AgreeAt(c, cache, k)
      invariant Consistent(c) ==> Consistent(cache)
    {
      var address := limited[i];
      if i > 0 {
        delays := delays + 1;
      }
      var q := TokenPrice(cache, address, platform, now, replies(ToLower(address)));
      assert q.price == ExpectedPrice(c, platform, now, replies, address);
      QueryKeepsExpected(c, cache, platform, now, replies, address);
      assert limited[..i + 1] == limited[..i] + [address];
      FrameStep(c, cache, q.cache, limited[..i], platform, address);
      if q.price > 0.0 {
        prices := prices[address := q.price];
      }
      cache := q.cache;
      i := i + 1;
    }
    assert limited[..i] == limited;
    return Batch(prices, cache, delays);
  }
}
