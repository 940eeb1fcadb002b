/** `PortfolioAggregationService`: the dashboard summary of a user's active
    accounts and of the positions read back from them. */
module Aggregation {
  import opened Wrappers
  import opened Money
  import opened Sequences
  import opened Grouping
  import opened Accounts
  import opened NormalizedPositions

  /** `user.accounts.active`. */
  function ActiveAccounts(accounts: seq<Account>): (r: seq<Account>)
    ensures forall i :: 0 <= i < |r| ==> IsActive(r[i]) && r[i] in accounts
    ensures forall i :: 0 <= i < |accounts| && IsActive(accounts[i]) ==> accounts[i] in r
  {
    Filter(accounts, IsActive)
  }

  function BalanceOf(a: Account): real {
    a.balanceUsd
  }

  function WalletOf(a: Account): real {
    a.walletBalanceUsd
  }

  function DeployedOf(a: Account): real {
    a.protocolBalanceUsd
  }

  /** Two account records that agree on everything the three totals read. */
  predicate SameTotals(a: Account, b: Account) {
    IsActive(a) == IsActive(b) && a.balanceUsd == b.balanceUsd
    && a.walletBalanceUsd == b.walletBalanceUsd && a.protocolBalanceUsd == b.protocolBalanceUsd
  }

  /** The total, idle and deployed values depend on the stored balances only: accounts
      that differ in their positions (or anything else) give the same three sums. */
  lemma {:induction false} TotalsIgnorePositions(xs: seq<Account>, ys: seq<Account>)
    requires |xs| == |ys| && forall i :: 0 <= i < |xs| ==> SameTotals(xs[i], ys[i])
    ensures SumOf(ActiveAccounts(xs), BalanceOf) == SumOf(ActiveAccounts(ys), BalanceOf)
    ensures SumOf(ActiveAccounts(xs), WalletOf) == SumOf(ActiveAccounts(ys), WalletOf)
    ensures SumOf(ActiveAccounts(xs), DeployedOf) == SumOf(ActiveAccounts(ys), DeployedOf)
    decreases |xs|
  {
    if |xs| > 0 {
      TotalsIgnorePositions(xs[1..], ys[1..]);
      if IsActive(xs[0]) {
        assert ActiveAccounts(xs) == [xs[0]] + ActiveAccounts(xs[1..]);
        assert ActiveAccounts(ys) == [ys[0]] + ActiveAccounts(ys[1..]);
        assert ([xs[0]] + ActiveAccounts(xs[1..]))[1..] == ActiveAccounts(xs[1..]);
        assert ([ys[0]] + ActiveAccounts(ys[1..]))[1..] == ActiveAccounts(ys[1..]);
      }
    }
  }

  /** How far an account's stored wallet and protocol balances are from adding up
      to its stored total. */
  function Gap(a: Account): real {
    Abs(a.balanceUsd - a.walletBalanceUsd - a.protocolBalanceUsd)
  }

  /** The idle and deployed values miss the total value by at most the accounts' gaps
      added together. */
  lemma {:induction false} TotalVersusParts(xs: seq<Account>)
    ensures Abs(SumOf(xs, BalanceOf) - SumOf(xs, WalletOf) - SumOf(xs, DeployedOf)) <= SumOf(xs, Gap)
    decreases |xs|
  {
    if |xs| > 0 {
      TotalVersusParts(xs[1..]);
      var d := xs[0].balanceUsd - xs[0].walletBalanceUsd - xs[0].protocolBalanceUsd;
      var rest := SumOf(xs[1..], BalanceOf) - SumOf(xs[1..], WalletOf) - SumOf(xs[1..], DeployedOf);
      assert SumOf(xs, BalanceOf) - SumOf(xs, WalletOf) - SumOf(xs, DeployedOf) == d + rest;
    }
  }

  /** `category_breakdown`. */
  datatype Categories = Categories(idle: real, deployed: real, futures: real)

  /** One entry of `top_assets`. */
  datatype Asset = Asset(symbol: Option<string>, name: Option<string>, totalValue: real, balance: real, percentage: Option<real>)

  function SymbolOf(n: NormalizedPosition): Option<string> {
    n.tokenSymbol
  }

  function UsdOf(n: NormalizedPosition): real {
    n.usdValue
  }

  function AmountOf(n: NormalizedPosition): real {
    n.balance
  }

  function AbsTotal(a: Asset): real {
    Abs(a.totalValue)
  }

  /** The entry of one symbol: sums over its group, name from the group's first position. */
  function MakeAsset(positions: seq<NormalizedPosition>, k: Option<string>): (r: Asset)
    requires k in Keys(positions, SymbolOf)
    ensures r.symbol == k && r.percentage.None?
    ensures r.totalValue == SumOf(Members(positions, SymbolOf, k), UsdOf)
    ensures r.balance == SumOf(Members(positions, SymbolOf, k), AmountOf)
  {
    var ms := Members(positions, SymbolOf, k);
    KeyHasMembers(positions, SymbolOf, k);
    Asset(k, ms[0].tokenName, SumOf(ms, UsdOf), SumOf(ms, AmountOf), None)
  }

  /** The entries of the symbols `ks`, in that order. */
  function AssetsOf(positions: seq<NormalizedPosition>, ks: seq<Option<string>>): (r: seq<Asset>)
    requires forall i :: 0 <= i < |ks| ==> ks[i] in Keys(positions, SymbolOf)
    ensures |r| == |ks|
    ensures forall i :: 0 <= i < |ks| ==> r[i] == MakeAsset(positions, ks[i])
  {
    seq(|ks|, i requires 0 <= i < |ks| => MakeAsset(positions, ks[i]))
  }

  /** Every position's value lands in exactly one symbol's entry. */
  lemma {:induction false} AssetsOfSum(positions: seq<NormalizedPosition>, ks: seq<Option<string>>)
    requires forall i :: 0 <= i < |ks| ==> ks[i] in Keys(positions, SymbolOf)
    ensures SumOf(AssetsOf(positions, ks), (a: Asset) => a.totalValue) == GroupSum(ks, positions, SymbolOf, UsdOf)
    decreases |ks|
  {
    if |ks| > 0 {
      AssetsOfSum(positions, ks[1..]);
      var a := AssetsOf(positions, ks);
      assert forall i :: 0 <= i < |ks| - 1 ==> ks[1..][i] == ks[i + 1];
      assert a[1..] == AssetsOf(positions, ks[1..]);
      assert a[0].totalValue == SumOf(Members(positions, SymbolOf, ks[0]), UsdOf);
    }
  }

  /** The grouped entries before ranking: one per distinct symbol. */
  function GroupedAssets(positions: seq<NormalizedPosition>): (r: seq<Asset>)
    ensures |r| == |Keys(positions, SymbolOf)|
    ensures forall i :: 0 <= i < |r| ==> r[i] == MakeAsset(positions, Keys(positions, SymbolOf)[i])
  {
    AssetsOf(positions, Keys(positions, SymbolOf))
  }

  /** Grouping by symbol loses no value: the entries' totals add up to the positions' values. */
  lemma GroupedAssetsConserveValue(positions: seq<NormalizedPosition>)
    ensures SumOf(GroupedAssets(positions), (a: Asset) => a.totalValue) == SumOf(positions, UsdOf)
  {
    AssetsOfSum(positions, Keys(positions, SymbolOf));
    GroupingConservesSum(positions, SymbolOf, UsdOf);
  }

  /** The entries differ in symbol. */
  predicate DistinctSymbols(xs: seq<Asset>) {
    forall i, j :: 0 <= i < j < |xs| ==> xs[i].symbol != xs[j].symbol
  }

  /** `e` is the grouped entry of its own symbol. */
  predicate IsSymbolEntry(positions: seq<NormalizedPosition>, e: Asset) {
    e.symbol in Keys(positions, SymbolOf) && e == MakeAsset(positions, e.symbol)
  }

  /** Entries of the same symbol are the same entry. */
  lemma SymbolEntriesDistinct(positions: seq<NormalizedPosition>, xs: seq<Asset>)
    requires forall i :: 0 <= i < |xs| ==> IsSymbolEntry(positions, xs[i])
    requires NoDuplicates(xs)
    ensures DistinctSymbols(xs)
  {
  }

  /** The grouped entries are symbol entries without repetition. */
  lemma GroupedAssetsDistinct(positions: seq<NormalizedPosition>)
    ensures forall i :: 0 <= i < |GroupedAssets(positions)| ==> IsSymbolEntry(positions, GroupedAssets(positions)[i])
    ensures NoDuplicates(GroupedAssets(positions))
  {
    var grouped := GroupedAssets(positions);
    var ks := Keys(positions, SymbolOf);
    forall i, j | 0 <= i < j < |grouped|
      ensures grouped[i] != grouped[j]
    {
      assert grouped[i].symbol == ks[i] && grouped[j].symbol == ks[j];
    }
  }

  /** Any permutation of the grouped entries keeps both facts. */
  lemma PermutedAssets(positions: seq<NormalizedPosition>, sorted: seq<Asset>)
    requires multiset(sorted) == multiset(GroupedAssets(positions))
    ensures forall i :: 0 <= i < |sorted| ==> IsSymbolEntry(positions, sorted[i])
    ensures DistinctSymbols(sorted)
  {
    var grouped := GroupedAssets(positions);
    GroupedAssetsDistinct(positions);
    forall i | 0 <= i < |sorted|
      ensures IsSymbolEntry(positions, sorted[i])
    {
      assert sorted[i] in multiset(grouped);
    }
    PermutationNoDuplicates(grouped, sorted);
    SymbolEntriesDistinct(positions, sorted);
  }

  /** Some entry of `r` carries symbol `k`. */
  predicate Lists(r: seq<Asset>, k: Option<string>) {
    exists i :: 0 <= i < |r| && r[i].symbol == k
  }

  /** |sum of the usd values| of symbol `k`'s positions. */
  function SymbolMagnitude(positions: seq<NormalizedPosition>, k: Option<string>): real {
    Abs(SumOf(Members(positions, SymbolOf, k), UsdOf))
  }

  /** Every symbol left out of `r` is no larger in magnitude than any entry listed. */
  predicate LeavesOutSmaller(positions: seq<NormalizedPosition>, r: seq<Asset>) {
    forall k :: k in Keys(positions, SymbolOf) && !Lists(r, k) ==>
      forall i :: 0 <= i < |r| ==> SymbolMagnitude(positions, k) <= AbsTotal(r[i])
  }

  /** The ranked, cut list: entries of distinct symbols, largest magnitude first,
      and no symbol left out outranks one kept. */
  function RankedAssets(positions: seq<NormalizedPosition>, limit: nat): (r: seq<Asset>)
    ensures |r| == Min(limit, |Keys(positions, SymbolOf)|)
    ensures SortedDesc(r, AbsTotal)
    ensures forall i :: 0 <= i < |r| ==> IsSymbolEntry(positions, r[i])
    ensures DistinctSymbols(r)
    ensures LeavesOutSmaller(positions, r)
  {
    var sorted := SortDesc(GroupedAssets(positions), AbsTotal);
    PermutedAssets(positions, sorted);
    RankedLeavesOutSmaller(positions, sorted, limit);
    Take(sorted, limit)
  }

  /** The cut of the sorted entries leaves out only entries no larger than those kept. */
  lemma RankedLeavesOutSmaller(positions: seq<NormalizedPosition>, sorted: seq<Asset>, limit: nat)
    requires multiset(sorted) == multiset(GroupedAssets(positions)) && SortedDesc(sorted, AbsTotal)
    ensures LeavesOutSmaller(positions, Take(sorted, limit))
  {
    var r := Take(sorted, limit);
    var ks := Keys(positions, SymbolOf);
    var grouped := GroupedAssets(positions);
    forall k | k in ks && !Lists(r, k)
      ensures forall i :: 0 <= i < |r| ==> SymbolMagnitude(positions, k) <= AbsTotal(r[i])
    {
      var g :| 0 <= g < |ks| && ks[g] == k;
      var e := grouped[g];
      assert e == MakeAsset(positions, k);
      assert e in multiset(sorted);
      var j :| 0 <= j < |sorted| && sorted[j] == e;
      TakeKeepsLargest(sorted, AbsTotal, limit, j);
    }
  }

  /** `asset[:percentage]` for a non-zero denominator. */
  function Percentage(e: Asset, totalAbs: real): real
    requires totalAbs > 0.0
  {
    Round2(AbsTotal(e) / totalAbs * 100.0)
  }

  function WithPercentages(top: seq<Asset>, totalAbs: real): (r: seq<Asset>)
    requires totalAbs > 0.0
    ensures |r| == |top|
    ensures forall i :: 0 <= i < |top| ==> r[i] == top[i].(percentage := Some(Percentage(top[i], totalAbs)))
  {
    seq(|top|, i requires 0 <= i < |top| => top[i].(percentage := Some(Percentage(top[i], totalAbs))))
  }

  /** `e` carries its symbol's sums: the total of the group's values and of its balances. */
  predicate SymbolTotals(positions: seq<NormalizedPosition>, e: Asset) {
    && e.symbol in Keys(positions, SymbolOf)
    && e.totalValue == SumOf(Members(positions, SymbolOf, e.symbol), UsdOf)
    && e.balance == SumOf(Members(positions, SymbolOf, e.symbol), AmountOf)
  }

  lemma EntryTotals(positions: seq<NormalizedPosition>, e: Asset)
    requires IsSymbolEntry(positions, e)
    ensures SymbolTotals(positions, e)
  {
    assert e == MakeAsset(positions, e.symbol);
  }

  /** Attaching percentages keeps each entry's symbol and sums, hence the ordering. */
  lemma PercentagesKeepEntries(top: seq<Asset>, totalAbs: real)
    requires totalAbs > 0.0
    ensures forall i :: 0 <= i < |top| ==>
      var w := WithPercentages(top, totalAbs)[i];
      w.symbol == top[i].symbol && w.totalValue == top[i].totalValue && w.balance == top[i].balance
    ensures SortedDesc(top, AbsTotal) ==> SortedDesc(WithPercentages(top, totalAbs), AbsTotal)
    ensures DistinctSymbols(top) ==> DistinctSymbols(WithPercentages(top, totalAbs))
    ensures forall i :: 0 <= i < |top| ==>
      WithPercentages(top, totalAbs)[i].percentage == Some(Percentage(WithPercentages(top, totalAbs)[i], totalAbs))
  {
  }

  lemma RankedTotals(positions: seq<NormalizedPosition>, top: seq<Asset>, totalValue: real, r: seq<Asset>)
    requires forall i :: 0 <= i < |top| ==> IsSymbolEntry(positions, top[i])
    requires DistinctSymbols(top) && SortedDesc(top, AbsTotal)
    requires Abs(totalValue) > 0.0 ==> r == WithPercentages(top, Abs(totalValue))
    requires Abs(totalValue) == 0.0 ==> r == top
    requires LeavesOutSmaller(positions, top)
    ensures |r| == |top| && SortedDesc(r, AbsTotal) && DistinctSymbols(r)
    ensures LeavesOutSmaller(positions, r)
    ensures forall i :: 0 <= i < |r| ==> SymbolTotals(positions, r[i])
    ensures forall i :: 0 <= i < |r| ==> (r[i].percentage.Some? <==> totalValue != 0.0)
    ensures totalValue != 0.0 ==> forall i :: 0 <= i < |r| ==> r[i].percentage == Some(Percentage(r[i], Abs(totalValue)))
  {
    forall i | 0 <= i < |top|
      ensures SymbolTotals(positions, top[i]) && top[i].percentage.None?
    {
      EntryTotals(positions, top[i]);
    }
    if Abs(totalValue) > 0.0 {
      PercentagesKeepEntries(top, Abs(totalValue));
      SameEntriesLeaveOutSmaller(positions, top, r);
    }
  }

  /** Entries with the same symbols and totals leave out the same, smaller, symbols. */
  lemma SameEntriesLeaveOutSmaller(positions: seq<NormalizedPosition>, top: seq<Asset>, r: seq<Asset>)
    requires |r| == |top| && LeavesOutSmaller(positions, top)
    requires forall i :: 0 <= i < |top| ==> r[i].symbol == top[i].symbol && r[i].totalValue == top[i].totalValue
    ensures LeavesOutSmaller(positions, r)
  {
    forall k | Lists(r, k)
      ensures Lists(top, k)
    {
      var i :| 0 <= i < |r| && r[i].symbol == k;
      assert top[i].symbol == k;
    }
  }

  /** `calculate_top_assets(limit:)`, the percentage relative to |total value|. */
  function TopAssets(positions: seq<NormalizedPosition>, totalValue: real, limit: nat): (r: seq<Asset>)
    ensures |positions| == 0 ==> r == []
    ensures |r| == Min(limit, |Keys(positions, SymbolOf)|)
    ensures SortedDesc(r, AbsTotal) && DistinctSymbols(r)
    ensures forall i :: 0 <= i < |r| ==> SymbolTotals(positions, r[i])
    ensures LeavesOutSmaller(positions, r)
    ensures forall i :: 0 <= i < |r| ==> (r[i].percentage.Some? <==> totalValue != 0.0)
    ensures totalValue != 0.0 ==> forall i :: 0 <= i < |r| ==> r[i].percentage == Some(Percentage(r[i], Abs(totalValue)))
  {
    if |positions| == 0 then []
    else
      var top := RankedAssets(positions, limit);
      var totalAbs := Abs(totalValue);
      var r := if totalAbs > 0.0 then WithPercentages(top, totalAbs) else top;
      RankedTotals(positions, top, totalValue, r);
      r
  }

  /** The percentage is not a share of the listed assets: it is taken against the
      accounts' stored total, which the positions need not match, so one asset can
      stand at 150%. */
  lemma PercentageCanExceedHundred(p: NormalizedPosition)
    requires p.usdValue == 150.0
    ensures |TopAssets([p], 100.0, 10)| == 1
    ensures TopAssets([p], 100.0, 10)[0].percentage == Some(150.0)
  {
    var r := TopAssets([p], 100.0, 10);
    var ks := Keys([p], SymbolOf);
    assert ks == [p.tokenSymbol];
    assert Members([p], SymbolOf, p.tokenSymbol) == [p];
    assert r[0].symbol == p.tokenSymbol;
    assert SymbolTotals([p], r[0]);
    assert [p][1..] == [];
    assert SumOf([p], UsdOf) == 150.0;
    assert r[0].totalValue == 150.0;
    assert Round2(150.0) == 150.0;
  }

  /** One entry of `protocol_breakdown`. */
  datatype ProtocolSummary = ProtocolSummary(
    protocolId: string,
    name: string,
    kind: Option<string>,
    chain: Option<string>,
    netValue: real,
    suppliedValue: real,
    borrowedValue: real,
    healthRate: Option<real>,
    positionCount: nat)

  /** The `protocol_key` an entry was grouped under, read off its first position's fields. */
  function SummaryKey(e: ProtocolSummary): string {
    e.protocolId + "_" + e.chain.GetOr("")
  }

  function NetOf(e: ProtocolSummary): real {
    e.netValue
  }

  function CountOf(e: ProtocolSummary): real {
    e.positionCount as real
  }

  /** `ns[i]` is the first position with a health rate. */
  predicate FirstRateAt(ns: seq<NormalizedPosition>, i: int) {
    0 <= i < |ns| && ns[i].healthRate.Some? && forall j :: 0 <= j < i ==> ns[j].healthRate.None?
  }

  /** `positions.find { |p| p.health_rate }&.health_rate`. */
  function FirstHealthRate(ns: seq<NormalizedPosition>): (r: Option<real>)
    ensures r.None? <==> forall i :: 0 <= i < |ns| ==> ns[i].healthRate.None?
    ensures r.Some? ==> exists i :: FirstRateAt(ns, i) && r == ns[i].healthRate
    decreases |ns|
  {
    if |ns| == 0 then None
    else if ns[0].healthRate.Some? then
      assert FirstRateAt(ns, 0);
      ns[0].healthRate
    else
      var rest := FirstHealthRate(ns[1..]);
      if rest.Some? then
        var i :| FirstRateAt(ns[1..], i) && rest == ns[1..][i].healthRate;
        assert FirstRateAt(ns, i + 1);
        rest
      else
        rest
  }

  /** The entry of one protocol key, described by the group's first position. */
  function Summarize(positions: seq<NormalizedPosition>, k: string): (r: ProtocolSummary)
    requires k in Keys(positions, ProtocolKey)
    ensures r.positionCount > 0
  {
    var ms := Members(positions, ProtocolKey, k);
    KeyHasMembers(positions, ProtocolKey, k);
    var first := ms[0];
    ProtocolSummary(
      first.protocolId, first.protocolName, first.protocolType, first.chain,
      SumOf(ms, UsdOf), SumOf(Filter(ms, Supplied), UsdOf), SumOf(Filter(ms, Borrowed), AbsValue),
      FirstHealthRate(ms), |ms|)
  }

  /** An entry carries its key: the first position's id and chain spell it out. */
  lemma SummarizeKey(positions: seq<NormalizedPosition>, k: string)
    requires k in Keys(positions, ProtocolKey)
    ensures SummaryKey(Summarize(positions, k)) == k
  {
    KeyHasMembers(positions, ProtocolKey, k);
    var first := Members(positions, ProtocolKey, k)[0];
    assert ProtocolKey(first) == k;
  }

  /** For positions that keep the sign rule, the net value is what is supplied minus
      what is borrowed. */
  lemma {:induction false} NetIsSuppliedMinusBorrowed(ns: seq<NormalizedPosition>)
    requires forall i :: 0 <= i < |ns| ==> WellFormed(ns[i])
    ensures SumOf(ns, UsdOf) == SumOf(Filter(ns, Supplied), UsdOf) - SumOf(Filter(ns, Borrowed), AbsValue)
    decreases |ns|
  {
    if |ns| > 0 {
      NetIsSuppliedMinusBorrowed(ns[1..]);
    }
  }

  /** The entries of the keys `ks`, in that order. */
  function SummariesOf(positions: seq<NormalizedPosition>, ks: seq<string>): (r: seq<ProtocolSummary>)
    requires forall i :: 0 <= i < |ks| ==> ks[i] in Keys(positions, ProtocolKey)
    ensures |r| == |ks|
    ensures forall i :: 0 <= i < |ks| ==> r[i] == Summarize(positions, ks[i])
  {
    seq(|ks|, i requires 0 <= i < |ks| => Summarize(positions, ks[i]))
  }

  /** Entry by entry, the net values are the groups' sums. */
  lemma {:induction false} SummariesNetSum(positions: seq<NormalizedPosition>, ks: seq<string>)
    requires forall i :: 0 <= i < |ks| ==> ks[i] in Keys(positions, ProtocolKey)
    ensures SumOf(SummariesOf(positions, ks), NetOf) == GroupSum(ks, positions, ProtocolKey, UsdOf)
    decreases |ks|
  {
    if |ks| > 0 {
      var s := SummariesOf(positions, ks);
      SummariesNetSum(positions, ks[1..]);
      assert s[1..] == SummariesOf(positions, ks[1..]);
      assert NetOf(s[0]) == SumOf(Members(positions, ProtocolKey, ks[0]), UsdOf);
    }
  }

  /** Entry by entry, the position counts are the groups' sizes. */
  lemma {:induction false} SummariesCountSum(positions: seq<NormalizedPosition>, ks: seq<string>)
    requires forall i :: 0 <= i < |ks| ==> ks[i] in Keys(positions, ProtocolKey)
    ensures SumOf(SummariesOf(positions, ks), CountOf) == GroupSum(ks, positions, ProtocolKey, One)
    decreases |ks|
  {
    if |ks| > 0 {
      var s := SummariesOf(positions, ks);
      SummariesCountSum(positions, ks[1..]);
      assert s[1..] == SummariesOf(positions, ks[1..]);
      SumOfOnes(Members(positions, ProtocolKey, ks[0]));
      assert CountOf(s[0]) == SumOf(Members(positions, ProtocolKey, ks[0]), One);
    }
  }

  /** The entries differ in key. */
  predicate DistinctKeys(xs: seq<ProtocolSummary>) {
    forall i, j :: 0 <= i < j < |xs| ==> SummaryKey(xs[i]) != SummaryKey(xs[j])
  }

  /** `e` is the entry of its own key. */
  predicate IsKeyEntry(positions: seq<NormalizedPosition>, e: ProtocolSummary) {
    SummaryKey(e) in Keys(positions, ProtocolKey) && e == Summarize(positions, SummaryKey(e))
  }

  /** The per-key summaries are key entries without repetition. */
  lemma GroupedSummariesDistinct(positions: seq<NormalizedPosition>)
    ensures var grouped := SummariesOf(positions, Keys(positions, ProtocolKey));
      && (forall i :: 0 <= i < |grouped| ==> IsKeyEntry(positions, grouped[i]))
      && NoDuplicates(grouped)
  {
    var ks := Keys(positions, ProtocolKey);
    var grouped := SummariesOf(positions, ks);
    forall i | 0 <= i < |grouped|
      ensures SummaryKey(grouped[i]) == ks[i]
    {
      SummarizeKey(positions, ks[i]);
    }
    forall i, j | 0 <= i < j < |grouped|
      ensures grouped[i] != grouped[j]
    {
      assert SummaryKey(grouped[i]) != SummaryKey(grouped[j]);
    }
  }

  /** Key entries without repetition differ in key. */
  lemma KeyEntriesDistinct(positions: seq<NormalizedPosition>, xs: seq<ProtocolSummary>)
    requires forall i :: 0 <= i < |xs| ==> IsKeyEntry(positions, xs[i])
    requires NoDuplicates(xs)
    ensures DistinctKeys(xs)
  {
  }

  lemma PermutedSummaries(positions: seq<NormalizedPosition>, sorted: seq<ProtocolSummary>)
    requires multiset(sorted) == multiset(SummariesOf(positions, Keys(positions, ProtocolKey)))
    ensures forall i :: 0 <= i < |sorted| ==> IsKeyEntry(positions, sorted[i])
    ensures DistinctKeys(sorted)
  {
    var grouped := SummariesOf(positions, Keys(positions, ProtocolKey));
    GroupedSummariesDistinct(positions);
    forall i | 0 <= i < |sorted|
      ensures IsKeyEntry(positions, sorted[i])
    {
      assert sorted[i] in multiset(grouped);
    }
    PermutationNoDuplicates(grouped, sorted);
    KeyEntriesDistinct(positions, sorted);
  }

  /** `e` carries its key's figures: over the group of positions with that key, the
      signed sum, the sum over supplied positions, the sum of magnitudes over borrowed
      ones, the first health rate and the size. */
  predicate KeyTotals(positions: seq<NormalizedPosition>, e: ProtocolSummary) {
    var ms := Members(positions, ProtocolKey, SummaryKey(e));
    && SummaryKey(e) in Keys(positions, ProtocolKey)
    && e.netValue == SumOf(ms, UsdOf)
    && e.suppliedValue == SumOf(Filter(ms, Supplied), UsdOf)
    && e.borrowedValue == SumOf(Filter(ms, Borrowed), AbsValue)
    && e.healthRate == FirstHealthRate(ms)
    && e.positionCount == |ms|
  }

  lemma EntriesCarryTotals(positions: seq<NormalizedPosition>, xs: seq<ProtocolSummary>)
    requires forall i :: 0 <= i < |xs| ==> IsKeyEntry(positions, xs[i])
    ensures forall i :: 0 <= i < |xs| ==> KeyTotals(positions, xs[i])
  {
    forall i | 0 <= i < |xs|
      ensures KeyTotals(positions, xs[i])
    {
      assert xs[i] == Summarize(positions, SummaryKey(xs[i]));
    }
  }

  /** `calculate_protocol_breakdown`: one entry per `protocol_key`, by net value, largest first. */
  function ProtocolBreakdown(positions: seq<NormalizedPosition>): (r: seq<ProtocolSummary>)
    ensures |positions| == 0 ==> r == []
    ensures |r| == |Keys(positions, ProtocolKey)|
    ensures SortedDesc(r, NetOf) && DistinctKeys(r)
    ensures forall i :: 0 <= i < |r| ==> IsKeyEntry(positions, r[i]) && KeyTotals(positions, r[i])
  {
    var sorted := SortDesc(SummariesOf(positions, Keys(positions, ProtocolKey)), NetOf);
    PermutedSummaries(positions, sorted);
    EntriesCarryTotals(positions, sorted);
    sorted
  }

  /** Nothing is lost or counted twice: the net values add up to the positions' values
      and the counts to the number of positions. */
  lemma ProtocolBreakdownConserves(positions: seq<NormalizedPosition>)
    ensures SumOf(ProtocolBreakdown(positions), NetOf) == SumOf(positions, UsdOf)
    ensures SumOf(ProtocolBreakdown(positions), CountOf) == |positions| as real
  {
    var ks := Keys(positions, ProtocolKey);
    var grouped := SummariesOf(positions, ks);
    SortDescSum(grouped, NetOf, NetOf);
    SortDescSum(grouped, NetOf, CountOf);
    SummariesNetSum(positions, ks);
    SummariesCountSum(positions, ks);
    GroupingConservesSum(positions, ProtocolKey, UsdOf);
    GroupingConservesSum(positions, ProtocolKey, One);
    SumOfOnes(positions);
  }

  /** For the positions of a user's accounts, every entry's net value is its supplied
      value minus its borrowed value. */
  lemma BreakdownNetSplits(accounts: seq<Account>)
    ensures forall i :: 0 <= i < |ProtocolBreakdown(AllForUser(accounts))| ==> NetSplits(ProtocolBreakdown(AllForUser(accounts))[i])
  {
    var positions := AllForUser(accounts);
    AllForUserFromActive(accounts);
    var r := ProtocolBreakdown(positions);
    forall i | 0 <= i < |r|
      ensures NetSplits(r[i])
    {
      var e := r[i];
      assert KeyTotals(positions, e);
      var ms := Members(positions, ProtocolKey, SummaryKey(e));
      assert forall j :: 0 <= j < |ms| ==> ms[j] in positions;
      NetIsSuppliedMinusBorrowed(ms);
    }
  }

  predicate NetSplits(e: ProtocolSummary) {
    e.netValue == e.suppliedValue - e.borrowedValue
  }

  /** `calculate_last_synced`: the latest `last_synced_at` among the accounts, nil if none has one. */
  function LastSynced(xs: seq<Account>): (r: Option<int>)
    ensures r.None? <==> forall i :: 0 <= i < |xs| ==> xs[i].lastSyncedAt.None?
    ensures r.Some? ==> exists i :: 0 <= i < |xs| && xs[i].lastSyncedAt == r
    ensures r.Some? ==> forall i :: 0 <= i < |xs| && xs[i].lastSyncedAt.Some? ==> xs[i].lastSyncedAt.value <= r.value
    decreases |xs|
  {
    if |xs| == 0 then None
    else
      var rest := LastSynced(xs[1..]);
      var here := xs[0].lastSyncedAt;
      var r := if here.None? then rest
        else if rest.None? || rest.value < here.value then here
        else rest;
      assert forall i :: 1 <= i < |xs| ==> xs[i] == xs[1..][i - 1];
      r
  }

  /** `sync_status_summary`. */
  datatype StatusCounts = StatusCounts(synced: nat, syncing: nat, error: nat, pending: nat)

  function HasSyncStatus(s: string): Account -> bool {
    (a: Account) => a.syncStatus == Some(s)
  }

  /** The account's sync status is none of the four counted ones. */
  predicate Uncounted(a: Account) {
    a.syncStatus.None? || a.syncStatus.value !in SyncStatuses
  }

  function StatusSummary(xs: seq<Account>): (r: StatusCounts)
    ensures r.synced == CountWhere(xs, HasSyncStatus("synced"))
    ensures r.pending == CountWhere(xs, HasSyncStatus("pending"))
    ensures r.synced + r.syncing + r.error + r.pending + CountWhere(xs, Uncounted) == |xs|
    decreases |xs|
  {
    var r := StatusCounts(
      CountWhere(xs, HasSyncStatus("synced")), CountWhere(xs, HasSyncStatus("syncing")),
      CountWhere(xs, HasSyncStatus("error")), CountWhere(xs, HasSyncStatus("pending")));
    StatusCountsPartition(xs);
    r
  }

  /** Every account is counted under exactly one of the four statuses or under none. */
  lemma {:induction false} StatusCountsPartition(xs: seq<Account>)
    ensures CountWhere(xs, HasSyncStatus("synced")) + CountWhere(xs, HasSyncStatus("syncing"))
      + CountWhere(xs, HasSyncStatus("error")) + CountWhere(xs, HasSyncStatus("pending"))
      + CountWhere(xs, Uncounted) == |xs|
    decreases |xs|
  {
    if |xs| > 0 {
      StatusCountsPartition(xs[1..]);
    }
  }

  /** The counts add up to the number of active accounts exactly when none of them
      lacks a counted status. */
  lemma StatusCountsBound(xs: seq<Account>)
    ensures var c := StatusSummary(xs); c.synced + c.syncing + c.error + c.pending <= |xs|
    ensures var c := StatusSummary(xs);
      c.synced + c.syncing + c.error + c.pending == |xs| <==> forall i :: 0 <= i < |xs| ==> !Uncounted(xs[i])
  {
    var u := Filter(xs, Uncounted);
    if exists i :: 0 <= i < |xs| && Uncounted(xs[i]) {
      var i :| 0 <= i < |xs| && Uncounted(xs[i]);
      assert xs[i] in u;
    }
  }

  /** What `call` returns. */
  datatype Summary = Summary(
    totalValue: real,
    idleValue: real,
    deployedValue: real,
    categories: Categories,
    topAssets: seq<Asset>,
    protocols: seq<ProtocolSummary>,
    lastSynced: Option<int>,
    statuses: StatusCounts)

  /** `PortfolioAggregationService.new(user).call` over the user's accounts. */
  function Aggregate(accounts: seq<Account>): (r: Summary)
    ensures var active := ActiveAccounts(accounts);
      && r.totalValue == SumOf(active, BalanceOf)
      && r.idleValue == SumOf(active, WalletOf)
      && r.deployedValue == SumOf(active, DeployedOf)
    ensures r.categories == Categories(r.idleValue, r.deployedValue, 0.0)
    ensures r.topAssets == TopAssets(AllForUser(accounts), r.totalValue, 10)
    ensures r.protocols == ProtocolBreakdown(AllForUser(accounts))
    ensures r.lastSynced == LastSynced(ActiveAccounts(accounts))
    ensures r.statuses == StatusSummary(ActiveAccounts(accounts))
  {
    var active := ActiveAccounts(accounts);
    var positions := AllForUser(accounts);
    var total := SumOf(active, BalanceOf);
    var idle := SumOf(active, WalletOf);
    var deployed := SumOf(active, DeployedOf);
    Summary(
      total, idle, deployed, Categories(idle, deployed, 0.0),
      TopAssets(positions, total, 10), ProtocolBreakdown(positions),
      LastSynced(active), StatusSummary(active))
  }
}
