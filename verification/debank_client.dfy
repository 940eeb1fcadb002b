/** `Blockchain::DebankClient`: the DeBank answers as the client reads them, the
    nested protocol sum, and the wallet = total − protocol reconciliation of
    `get_portfolio_breakdown`. Each HTTP answer is an input (`None` when
    `make_request` gives nil). */
module DebankClient {
  import opened Wrappers
  import opened Values
  import opened Money

  /** `stats` of a portfolio item; a missing field is `Null`. */
  datatype Stats = Stats(netUsdValue: Scalar, debtUsdValue: Scalar)

  /** One token of a `*_token_list` or of `all_token_list`. */
  datatype DebankToken = DebankToken(
    symbol: Option<string>, optimizedSymbol: Option<string>, name: Option<string>,
    amount: Scalar, price: Scalar)

  /** `detail` of a portfolio item: the supply, borrow and debt lists, each possibly absent. */
  datatype Detail = Detail(
    supplyTokens: Option<seq<DebankToken>>,
    borrowTokens: Option<seq<DebankToken>>,
    debtTokens: Option<seq<DebankToken>>)

  datatype PortfolioItem = PortfolioItem(
    name: Option<string>, chain: Option<string>, detail: Option<Detail>, stats: Option<Stats>)

  /** One entry of `all_complex_protocol_list`. */
  datatype Protocol = Protocol(
    id: Option<string>, name: Option<string>, siteUrl: Option<string>, items: Option<seq<PortfolioItem>>)

  /** The `total_balance` object; `chainList` holds the chain ids of `chain_list`. */
  datatype TotalBalanceReply = TotalBalanceReply(totalUsdValue: Scalar, chainList: Option<seq<string>>)

  datatype TotalBalance = TotalBalance(totalUsdValue: real, chainList: seq<string>)

  /** `get_total_balance`: nil stays nil; a missing total reads 0.0 and a missing chain list []. */
  function GetTotalBalance(reply: Option<TotalBalanceReply>): (r: Result<Option<TotalBalance>, Exception>)
    ensures reply.None? ==> r == Ok(None)
    ensures r.Err? <==> reply.Some? && reply.value.totalUsdValue.Unconvertible?
    ensures r.Ok? && reply.Some? ==> r.value.Some? && Ok(r.value.value.totalUsdValue) == ToF(reply.value.totalUsdValue)
    ensures r.Ok? && reply.Some? ==> r.value.value.chainList == reply.value.chainList.GetOr([])
  {
    match reply
    case None => Ok(None)
    case Some(t) =>
      var v :- ToF(t.totalUsdValue);
      Ok(Some(TotalBalance(v, t.chainList.GetOr([]))))
  }

  /** `f` raises `e` on `xs[i]` and on no earlier element. */
  predicate FirstErrorAt<T>(xs: seq<T>, f: T -> Result<real, Exception>, i: int, e: Exception) {
    0 <= i < |xs| && f(xs[i]) == Err(e) && forall j :: 0 <= j < i ==> f(xs[j]).Ok?
  }

  /** `xs.sum { f }` where `f` may raise: the first exception in order, else the sum. */
  function SumAll<T>(xs: seq<T>, f: T -> Result<real, Exception>): (r: Result<real, Exception>)
    ensures r.Ok? <==> forall i :: 0 <= i < |xs| ==> f(xs[i]).Ok?
    ensures r.Err? ==> exists i :: FirstErrorAt(xs, f, i, r.error)
    decreases |xs|
  {
    if |xs| == 0 then Ok(0.0)
    else
      match f(xs[0])
      case Err(e) =>
        assert FirstErrorAt(xs, f, 0, e);
        Err(e)
      case Ok(v) =>
        var rest := SumAll(xs[1..], f);
        SumAllShift(xs, f, rest);
        match rest
        case Err(e) => Err(e)
        case Ok(s) => Ok(v + s)
  }

  lemma SumAllShift<T>(xs: seq<T>, f: T -> Result<real, Exception>, rest: Result<real, Exception>)
    requires |xs| > 0 && f(xs[0]).Ok?
    requires rest.Ok? <==> forall i :: 0 <= i < |xs[1..]| ==> f(xs[1..][i]).Ok?
    requires rest.Err? ==> exists i :: FirstErrorAt(xs[1..], f, i, rest.error)
    ensures rest.Ok? <==> forall i :: 0 <= i < |xs| ==> f(xs[i]).Ok?
    ensures rest.Err? ==> exists i :: FirstErrorAt(xs, f, i, rest.error)
  {
    if rest.Err? {
      var i :| FirstErrorAt(xs[1..], f, i, rest.error);
      assert f(xs[i + 1]) == Err(rest.error);
      forall j | 0 <= j < i + 1
        ensures f(xs[j]).Ok?
      {
        if j > 0 {
          assert xs[j] == xs[1..][j - 1];
        }
      }
      assert FirstErrorAt(xs, f, i + 1, rest.error);
    } else {
      forall i | 0 <= i < |xs|
        ensures f(xs[i]).Ok?
      {
        if i > 0 {
          assert xs[i] == xs[1..][i - 1];
        }
      }
    }
  }

  /** Summing a concatenation is summing the parts (when neither part raises). */
  lemma {:induction false} SumAllAppend<T>(xs: seq<T>, ys: seq<T>, f: T -> Result<real, Exception>)
    requires SumAll(xs, f).Ok? && SumAll(ys, f).Ok?
    ensures SumAll(xs + ys, f) == Ok(SumAll(xs, f).value + SumAll(ys, f).value)
    decreases |xs|
  {
    if |xs| == 0 {
      assert xs + ys == ys;
    } else {
      assert (xs + ys)[0] == xs[0];
      assert (xs + ys)[1..] == xs[1..] + ys;
      SumAllAppend(xs[1..], ys, f);
    }
  }

  /** `item.dig("stats", "net_usd_value")&.to_f || 0.0`. */
  function ItemNet(item: PortfolioItem): (r: Result<real, Exception>)
    ensures item.stats.None? ==> r == Ok(0.0)
    ensures item.stats.Some? ==> r == ToF(item.stats.value.netUsdValue)
  {
    match item.stats
    case None => Ok(0.0)
    case Some(s) => ToF(s.netUsdValue)
  }

  /** One protocol's share: the sum of its items' net values, 0.0 without a list. */
  function ProtocolNet(p: Protocol): (r: Result<real, Exception>)
    ensures p.items.None? ==> r == Ok(0.0)
    ensures r.Ok? <==> p.items.None? || forall i :: 0 <= i < |p.items.value| ==> ItemNet(p.items.value[i]).Ok?
  {
    match p.items
    case None => Ok(0.0)
    case Some(items) => SumAll(items, ItemNet)
  }

  /** `calculate_protocol_balance`: the nested sum over protocols and their items. */
  function ProtocolBalance(protocols: seq<Protocol>): (r: Result<real, Exception>)
    ensures r.Ok? <==> forall i :: 0 <= i < |protocols| ==> ProtocolNet(protocols[i]).Ok?
    ensures |protocols| == 0 ==> r == Ok(0.0)
  {
    SumAll(protocols, ProtocolNet)
  }

  /** One wallet token's value, `price * amount`, a missing field reading 0.0. */
  function TokenValue(t: DebankToken): (r: Result<real, Exception>)
    ensures r.Ok? <==> !t.price.Unconvertible? && !t.amount.Unconvertible?
    ensures r.Ok? ==> r.value == ToF(t.price).value * ToF(t.amount).value
    ensures t.amount.Null? && r.Ok? ==> r.value == 0.0
  {
    var price :- ToF(t.price);
    var amount :- ToF(t.amount);
    Ok(price * amount)
  }

  /** `calculate_wallet_balance`, which `get_portfolio_breakdown` does not call:
      there the wallet figure is `total − protocol` instead. */
  function WalletBalance(tokens: seq<DebankToken>): (r: Result<real, Exception>)
    ensures r.Ok? <==> forall i :: 0 <= i < |tokens| ==> TokenValue(tokens[i]).Ok?
  {
    SumAll(tokens, TokenValue)
  }

  /** Tokens whose amount is missing add nothing to the wallet balance. */
  lemma {:induction false} AmountlessTokensAddNothing(tokens: seq<DebankToken>)
    requires forall i :: 0 <= i < |tokens| ==> tokens[i].amount.Null? && !tokens[i].price.Unconvertible?
    ensures WalletBalance(tokens) == Ok(0.0)
    decreases |tokens|
  {
    if |tokens| > 0 {
      AmountlessTokensAddNothing(tokens[1..]);
      assert SumAll(tokens[1..], TokenValue) == Ok(0.0);
    }
  }

  /** `verify_balances`: a wallet strictly between −1 and 0 is taken for rounding noise
      and becomes 0.0; anything else, −1 and below included, is kept. The mismatch
      against the total and the large-negative case are only logged, so the protocol
      and total arguments have no effect and are not parameters here. */
  function VerifyBalances(wallet: real): (r: real)
    ensures r == wallet || (r == 0.0 && -1.0 < wallet < 0.0)
    ensures !(-1.0 < r < 0.0)
    ensures 0.0 <= r - wallet < 1.0
  {
    if wallet < 0.0 && wallet > -1.0 then 0.0 else wallet
  }

  /** What `get_portfolio_breakdown` returns. */
  datatype Breakdown = Breakdown(
    totalUsd: real, walletBalance: real, protocolBalance: real,
    protocols: seq<Protocol>, tokens: seq<DebankToken>)

  /** The rescue value: all zeros and empty lists. */
  const ZeroBreakdown := Breakdown(0.0, 0.0, 0.0, [], [])

  /** `get_portfolio_breakdown`, given the three answers. It never returns nil: an
      exception while reading them gives `ZeroBreakdown`. */
  function PortfolioBreakdown(
    totalReply: Option<TotalBalanceReply>, protocolsReply: Option<seq<Protocol>>, tokensReply: Option<seq<DebankToken>>
  ): (r: Breakdown)
    ensures GetTotalBalance(totalReply).Err? || ProtocolBalance(protocolsReply.GetOr([])).Err? ==> r == ZeroBreakdown
    ensures GetTotalBalance(totalReply).Ok? && ProtocolBalance(protocolsReply.GetOr([])).Ok? ==>
      && r.totalUsd == (if totalReply.None? then 0.0 else GetTotalBalance(totalReply).value.value.totalUsdValue)
      && r.protocolBalance == ProtocolBalance(protocolsReply.GetOr([])).value
      && r.protocols == protocolsReply.GetOr([])
      && r.tokens == tokensReply.GetOr([])
      && r.walletBalance == VerifyBalances(r.totalUsd - r.protocolBalance)
    // wallet + protocol reproduces the total, up to the clamp of a small negative wallet
    ensures 0.0 <= r.walletBalance + r.protocolBalance - r.totalUsd < 1.0
    ensures !(-1.0 < r.totalUsd - r.protocolBalance < 0.0) ==> r.walletBalance + r.protocolBalance == r.totalUsd
  {
    match GetTotalBalance(totalReply)
    case Err(_) => ZeroBreakdown
    case Ok(total) =>
      var protocols := protocolsReply.GetOr([]);
      var tokens := tokensReply.GetOr([]);
      match ProtocolBalance(protocols)
      case Err(_) => ZeroBreakdown
      case Ok(protocolBalance) =>
        var totalUsd := if total.Some? then total.value.totalUsdValue else 0.0;
        Breakdown(totalUsd, VerifyBalances(totalUsd - protocolBalance), protocolBalance, protocols, tokens)
  }

  /** With no answer at all the breakdown is all zeros and nothing is lost to an exception. */
  lemma SilentDebankGivesZeros()
    ensures PortfolioBreakdown(None, None, None) == ZeroBreakdown
  {
  }
}
