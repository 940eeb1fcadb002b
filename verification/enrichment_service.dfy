/** `AccountEnrichmentService`: the DeBank extraction of protocol groups, the
    multi-chain Alchemy fallback with its token valuation and merge by protocol
    name, and the `syncing → synced | error` transition of `call`.
    Every provider answer is an input (`Answers`); the price cache is threaded
    through as a value; the clock is the parameter `now`. */
module Enrichment {
  import opened Wrappers
  import opened Text
  import opened Values
  import opened Money
  import opened Sequences
  import opened Grouping
  import opened Payload
  import opened Accounts
  import AddressClassifier
  import ProtocolDetector
  import PriceService
  import DebankClient
  import AlchemyClient
  import NormalizedPositions

  /** `EVM_CHAINS`: the chains the fallback scans, in this order. */
  const EvmChains: seq<string> := ["ethereum", "base", "arbitrum"]

  /** The Alchemy constructor accepts every chain the fallback scans. */
  lemma EvmChainsSupported()
    ensures forall i :: 0 <= i < |EvmChains| ==> AlchemyClient.NewClient(EvmChains[i]).Ok?
  {
  }

  // ---------------------------------------------------------------------------
  // DeBank: protocol list to protocol groups

  /** The three token lists of a portfolio item's `detail`. */
  datatype TokenList = Supply | Borrow | Debt

  /** An extracted position and the unrounded amount it adds to `protocol_value`. */
  datatype Extracted = Extracted(record: PositionRecord, value: real)

  /** `token["symbol"] || token["optimized_symbol"] || "Unknown"`. */
  function DebankSymbol(t: DebankClient.DebankToken): (r: string)
    ensures t.symbol.Some? ==> r == t.symbol.value
    ensures t.symbol.None? && t.optimizedSymbol.Some? ==> r == t.optimizedSymbol.value
    ensures t.symbol.None? && t.optimizedSymbol.None? ==> r == "Unknown"
  {
    t.symbol.GetOr(t.optimizedSymbol.GetOr("Unknown"))
  }

  /** The token's name, else the protocol's name for a supplied token, and
      "Borrowed …" or "Debt …" followed by the raw symbol (empty if nil) for a debt. */
  function DebankTokenName(list: TokenList, t: DebankClient.DebankToken, protocolName: Option<string>): (r: Option<string>)
    ensures t.name.Some? ==> r == t.name
    ensures t.name.None? && list == Supply ==> r == protocolName
    ensures t.name.None? && list == Borrow ==> r == Some("Borrowed " + t.symbol.GetOr(""))
    ensures t.name.None? && list == Debt ==> r == Some("Debt " + t.symbol.GetOr(""))
  {
    if t.name.Some? then t.name
    else match list
      case Supply => protocolName
      case Borrow => Some("Borrowed " + t.symbol.GetOr(""))
      case Debt => Some("Debt " + t.symbol.GetOr(""))
  }

  /** One token of a supply, borrow or debt list: a missing amount or price reads 0.0;
      a supplied token is worth `amount * price`, a borrowed or owed one minus that,
      and the stored value is rounded to cents. */
  function TokenPosition(list: TokenList, t: DebankClient.DebankToken, protocolName: Option<string>, chain: string): (r: Result<Extracted, Exception>)
    ensures r.Err? <==> t.amount.Unconvertible? || t.price.Unconvertible?
    ensures r.Ok? ==> var gross := ToF(t.amount).value * ToF(t.price).value;
      && r.value.record.isDebt == (list != Supply)
      && r.value.record.balance == ToF(t.amount).value
      && r.value.value == (if list == Supply then gross else -gross)
      && r.value.record.usdValue == (if list == Supply then Round2(gross) else -Round2(gross))
    ensures r.Ok? ==> r.value.record.chain == chain && r.value.record.protocol == protocolName
    ensures r.Ok? ==> r.value.record.tokenSymbol == Some(DebankSymbol(t)) && r.value.record.contractAddress.None?
    ensures r.Ok? ==> r.value.record.tokenName == DebankTokenName(list, t, protocolName)
  {
    var amount :- ToF(t.amount);
    var price :- ToF(t.price);
    var value := if list == Supply then amount * price else -(amount * price);
    RoundNegate(amount * price, 2);
    Ok(Extracted(
      PositionRecord(Some(DebankSymbol(t)), DebankTokenName(list, t, protocolName), amount, Round2(value),
                     protocolName, chain, list != Supply, None),
      value))
  }

  /** Every token of the list has a readable amount and price. */
  predicate Readable(list: TokenList, ts: seq<DebankClient.DebankToken>, protocolName: Option<string>, chain: string) {
    forall i :: 0 <= i < |ts| ==> TokenPosition(list, ts[i], protocolName, chain).Ok?
  }

  /** `exs` are the positions of the tokens `ts`, one per token, in order. */
  predicate PositionsOf(exs: seq<Extracted>, list: TokenList, ts: seq<DebankClient.DebankToken>, protocolName: Option<string>, chain: string) {
    |exs| == |ts| && forall i :: 0 <= i < |ts| ==> TokenPosition(list, ts[i], protocolName, chain) == Ok(exs[i])
  }

  /** All tokens of one list, in order; the first unreadable amount or price raises. */
  function ListPositions(list: TokenList, ts: seq<DebankClient.DebankToken>, protocolName: Option<string>, chain: string): (r: Result<seq<Extracted>, Exception>)
    ensures r.Ok? <==> Readable(list, ts, protocolName, chain)
    ensures r.Ok? ==> |r.value| == |ts|
    ensures r.Ok? ==> PositionsOf(r.value, list, ts, protocolName, chain)
    decreases |ts|
  {
    if |ts| == 0 then Ok([])
    else
      var head :- TokenPosition(list, ts[0], protocolName, chain);
      var rest :- ListPositions(list, ts[1..], protocolName, chain);
      assert forall i :: 1 <= i < |ts| ==> ts[i] == ts[1..][i - 1];
      Ok([head] + rest)
  }

  function SupplyList(item: DebankClient.PortfolioItem): seq<DebankClient.DebankToken> {
    if item.detail.Some? then item.detail.value.supplyTokens.GetOr([]) else []
  }

  function BorrowList(item: DebankClient.PortfolioItem): seq<DebankClient.DebankToken> {
    if item.detail.Some? then item.detail.value.borrowTokens.GetOr([]) else []
  }

  function DebtList(item: DebankClient.PortfolioItem): seq<DebankClient.DebankToken> {
    if item.detail.Some? then item.detail.value.debtTokens.GetOr([]) else []
  }

  /** `item.dig("stats", "debt_usd_value")&.to_f`. */
  function DebtUsdValue(item: DebankClient.PortfolioItem): (r: Result<Option<real>, Exception>)
    ensures item.stats.None? ==> r == Ok(None)
    ensures item.stats.Some? ==> r == SafeToF(item.stats.value.debtUsdValue)
  {
    match item.stats
    case None => Ok(None)
    case Some(s) => SafeToF(s.debtUsdValue)
  }

  /** The synthetic debt: a zero-balance debt position worth minus `debt_usd_value`,
      when that value is present and positive. */
  function SyntheticDebt(item: DebankClient.PortfolioItem, protocolName: Option<string>, chain: string): (r: Result<seq<Extracted>, Exception>)
    ensures r.Err? <==> DebtUsdValue(item).Err?
    ensures r.Ok? ==> |r.value| <= 1
    ensures r.Ok? ==> (|r.value| == 1 <==> DebtUsdValue(item).value.Some? && DebtUsdValue(item).value.value > 0.0)
    ensures r.Ok? && |r.value| == 1 ==>
      var d := DebtUsdValue(item).value.value;
      && r.value[0].record.isDebt && r.value[0].record.balance == 0.0
      && r.value[0].value == -d && r.value[0].record.usdValue == -Round2(d) <= 0.0
      && r.value[0].record.tokenSymbol == Some(item.name.GetOr("Unknown"))
      && r.value[0].record.tokenName == Some("Borrowed (Synthetic)") && r.value[0].record.contractAddress.None?
      && r.value[0].record.chain == chain && r.value[0].record.protocol == protocolName
  {
    var d :- DebtUsdValue(item);
    if d.Some? && d.value > 0.0 then
      RoundSign(d.value, 2);
      Ok([Extracted(
        PositionRecord(Some(item.name.GetOr("Unknown")), Some("Borrowed (Synthetic)"), 0.0, -Round2(d.value),
                       protocolName, chain, true, None),
        -d.value)])
    else Ok([])
  }

  /** `item["chain"] || "unknown"`. */
  function ItemChain(item: DebankClient.PortfolioItem): string {
    item.chain.GetOr("unknown")
  }

  /** Every extracted position belongs to protocol `protocolName`. */
  predicate AllOfProtocol(exs: seq<Extracted>, protocolName: Option<string>) {
    forall i :: 0 <= i < |exs| ==> exs[i].record.protocol == protocolName
  }

  /** `exs` starting at `from` holds the positions of the tokens `ts`, in order. */
  predicate ListedAt(exs: seq<Extracted>, from: int, list: TokenList, ts: seq<DebankClient.DebankToken>, protocolName: Option<string>, chain: string) {
    0 <= from && from + |ts| <= |exs| && PositionsOf(exs[from..from + |ts|], list, ts, protocolName, chain)
  }

  /** The item's positions: the supplied tokens, the borrowed ones, the owed ones, in
      that order, then the synthetic debt if there is one. */
  predicate ItemLayout(item: DebankClient.PortfolioItem, protocolName: Option<string>, exs: seq<Extracted>) {
    var chain := ItemChain(item);
    var s := |SupplyList(item)|;
    var b := |BorrowList(item)|;
    var d := |DebtList(item)|;
    && ListedAt(exs, 0, Supply, SupplyList(item), protocolName, chain)
    && ListedAt(exs, s, Borrow, BorrowList(item), protocolName, chain)
    && ListedAt(exs, s + b, Debt, DebtList(item), protocolName, chain)
    && (|exs| == s + b + d || (|exs| == s + b + d + 1 && b == 0 && d == 0
          && SyntheticDebt(item, protocolName, chain).Ok? && exs[s + b + d..] == SyntheticDebt(item, protocolName, chain).value))
  }

  /** One portfolio item: its supplied, borrowed and owed tokens in that order, then
      the synthetic debt, considered only when both debt lists are empty. */
  function ItemPositions(item: DebankClient.PortfolioItem, protocolName: Option<string>): (r: Result<seq<Extracted>, Exception>)
    ensures var chain := ItemChain(item);
      r.Ok? <==>
        && Readable(Supply, SupplyList(item), protocolName, chain)
        && Readable(Borrow, BorrowList(item), protocolName, chain)
        && Readable(Debt, DebtList(item), protocolName, chain)
        && (|BorrowList(item)| == 0 && |DebtList(item)| == 0 ==> DebtUsdValue(item).Ok?)
    ensures r.Ok? ==> ItemLayout(item, protocolName, r.value)
    ensures r.Ok? ==> forall i :: 0 <= i < |r.value| ==> r.value[i].record.chain == ItemChain(item)
    ensures r.Ok? ==> AllOfProtocol(r.value, protocolName)
  {
    var chain := ItemChain(item);
    var supplied :- ListPositions(Supply, SupplyList(item), protocolName, chain);
    var borrowed :- ListPositions(Borrow, BorrowList(item), protocolName, chain);
    var owed :- ListPositions(Debt, DebtList(item), protocolName, chain);
    var synthetic :- if |BorrowList(item)| == 0 && |DebtList(item)| == 0 then SyntheticDebt(item, protocolName, chain) else Ok([]);
    var r := supplied + borrowed + owed + synthetic;
    LayoutOfParts(item, protocolName, supplied, borrowed, owed, synthetic);
    Ok(r)
  }

  lemma LayoutOfParts(item: DebankClient.PortfolioItem, protocolName: Option<string>,
                      supplied: seq<Extracted>, borrowed: seq<Extracted>, owed: seq<Extracted>, synthetic: seq<Extracted>)
    requires PositionsOf(supplied, Supply, SupplyList(item), protocolName, ItemChain(item))
    requires PositionsOf(borrowed, Borrow, BorrowList(item), protocolName, ItemChain(item))
    requires PositionsOf(owed, Debt, DebtList(item), protocolName, ItemChain(item))
    requires synthetic == [] || (|BorrowList(item)| == 0 && |DebtList(item)| == 0
                                 && SyntheticDebt(item, protocolName, ItemChain(item)) == Ok(synthetic))
    ensures ItemLayout(item, protocolName, supplied + borrowed + owed + synthetic)
    ensures var r := supplied + borrowed + owed + synthetic;
      forall i :: 0 <= i < |r| ==> r[i].record.chain == ItemChain(item) && r[i].record.protocol == protocolName
  {
    var r := supplied + borrowed + owed + synthetic;
    var s := |supplied|;
    var b := |borrowed|;
    var d := |owed|;
    assert r[0..s] == supplied;
    assert r[s..s + b] == borrowed;
    assert r[s + b..s + b + d] == owed;
    assert r[s + b + d..] == synthetic;
    forall i | 0 <= i < |r|
      ensures r[i].record.chain == ItemChain(item) && r[i].record.protocol == protocolName
    {
      if i < s {
        assert r[i] == supplied[i];
      } else if i < s + b {
        assert r[i] == borrowed[i - s];
      } else if i < s + b + d {
        assert r[i] == owed[i - s - b];
      } else {
        assert r[i] == synthetic[i - s - b - d];
      }
    }
  }

  /** An item's positions number its listed tokens, plus one for a synthetic debt. */
  lemma ItemPositionsCount(item: DebankClient.PortfolioItem, protocolName: Option<string>)
    requires ItemPositions(item, protocolName).Ok?
    ensures var listed := |SupplyList(item)| + |BorrowList(item)| + |DebtList(item)|;
      var n := |ItemPositions(item, protocolName).value|;
      && listed <= n <= listed + 1
      && (n == listed + 1 ==> |BorrowList(item)| == 0 && |DebtList(item)| == 0)
  {
  }

  /** The positions of one item, none when it raises. */
  function ItemRow(item: DebankClient.PortfolioItem, protocolName: Option<string>): seq<Extracted> {
    match ItemPositions(item, protocolName)
    case Ok(v) => v
    case Err(_) => []
  }

  /** The positions of each item, as lists (an item that raises contributes none). */
  function ItemRows(items: seq<DebankClient.PortfolioItem>, protocolName: Option<string>): (r: seq<seq<Extracted>>)
    ensures |r| == |items|
    ensures forall i :: 0 <= i < |items| ==> r[i] == ItemRow(items[i], protocolName)
    decreases |items|
  {
    if |items| == 0 then [] else [ItemRow(items[0], protocolName)] + ItemRows(items[1..], protocolName)
  }

  /** All items of a protocol, in order. */
  function ItemsPositions(items: seq<DebankClient.PortfolioItem>, protocolName: Option<string>): (r: Result<seq<Extracted>, Exception>)
    ensures r.Ok? <==> forall i :: 0 <= i < |items| ==> ItemPositions(items[i], protocolName).Ok?
    ensures r.Ok? ==> r.value == Flatten(ItemRows(items, protocolName))
    ensures r.Ok? ==> AllOfProtocol(r.value, protocolName)
    ensures r.Ok? && |r.value| == 0 ==> forall i :: 0 <= i < |items| ==> |ItemPositions(items[i], protocolName).value| == 0
    decreases |items|
  {
    if |items| == 0 then Ok([])
    else
      var head :- ItemPositions(items[0], protocolName);
      var rest :- ItemsPositions(items[1..], protocolName);
      AllCons(items, item => ItemPositions(item, protocolName).Ok?);
      ItemsStep(items, protocolName, head, rest);
      ItemsEmpty(items, protocolName);
      Ok(head + rest)
  }

  /** No positions from the items means none from any one item. */
  lemma ItemsEmpty(items: seq<DebankClient.PortfolioItem>, protocolName: Option<string>)
    requires forall i :: 0 <= i < |items| ==> ItemPositions(items[i], protocolName).Ok?
    ensures |Flatten(ItemRows(items, protocolName))| == 0 ==>
      forall i :: 0 <= i < |items| ==> |ItemPositions(items[i], protocolName).value| == 0
  {
    var rows := ItemRows(items, protocolName);
    FlattenEmpty(rows);
    forall i | 0 <= i < |items|
      ensures rows[i] == ItemPositions(items[i], protocolName).value
    {
      assert rows[i] == ItemRow(items[i], protocolName);
    }
  }

  /** One item in front of the rest: its positions come first, in the flattened order. */
  lemma ItemsStep(items: seq<DebankClient.PortfolioItem>, protocolName: Option<string>, head: seq<Extracted>, rest: seq<Extracted>)
    requires |items| > 0 && ItemPositions(items[0], protocolName) == Ok(head)
    requires rest == Flatten(ItemRows(items[1..], protocolName)) && AllOfProtocol(rest, protocolName)
    ensures head + rest == Flatten(ItemRows(items, protocolName))
    ensures AllOfProtocol(head + rest, protocolName)
  {
    var rows := ItemRows(items, protocolName);
    assert rows == [ItemRow(items[0], protocolName)] + ItemRows(items[1..], protocolName);
    assert rows[1..] == ItemRows(items[1..], protocolName);
    var r := head + rest;
    forall i | 0 <= i < |r|
      ensures r[i].record.protocol == protocolName
    {
      if i >= |head| {
        assert r[i] == rest[i - |head|];
      }
    }
  }

  function ValueOf(e: Extracted): real {
    e.value
  }

  function RecordOf(e: Extracted): PositionRecord {
    e.record
  }

  /** `site_url` mentioning "aave" (case-sensitively) marks a lending protocol. */
  function ProtocolKind(p: DebankClient.Protocol): (r: string)
    ensures r == "lending" <==> p.siteUrl.Some? && Contains(p.siteUrl.value, "aave")
    ensures r == "lending" || r == "defi"
  {
    if p.siteUrl.Some? && Contains(p.siteUrl.value, "aave") then "lending" else "defi"
  }

  /** One protocol: a group `{name, type, positions}`, emitted when its value is non-zero
      or it has positions. */
  function ProtocolEntry(p: DebankClient.Protocol): (r: Result<Option<ProtocolGroup>, Exception>)
    ensures r.Ok? <==> ItemsPositions(p.items.GetOr([]), p.name).Ok?
    ensures r.Ok? && r.value.Some? ==>
      && r.value.value.name == p.name && r.value.value.kind == ProtocolKind(p)
      && r.value.value.positions == Project(ItemsPositions(p.items.GetOr([]), p.name).value, RecordOf)
  {
    var exs :- ItemsPositions(p.items.GetOr([]), p.name);
    var positions := Project(exs, RecordOf);
    if SumOf(exs, ValueOf) != 0.0 || |positions| > 0 then Ok(Some(ProtocolGroup(p.name, ProtocolKind(p), positions)))
    else Ok(None)
  }

  /** The value only moves together with a position, so a protocol yields a group exactly
      when it yields at least one position. */
  lemma EmittedIffPositions(p: DebankClient.Protocol)
    requires ProtocolEntry(p).Ok?
    ensures ProtocolEntry(p).value.Some? <==> |ItemsPositions(p.items.GetOr([]), p.name).value| > 0
  {
  }

  /** The protocol yields a group. */
  predicate Emits(p: DebankClient.Protocol) {
    ProtocolEntry(p).Ok? && ProtocolEntry(p).value.Some?
  }

  /** The protocol's numbers can all be read. */
  predicate EntryReadable(p: DebankClient.Protocol) {
    ProtocolEntry(p).Ok?
  }

  /** The group an emitting protocol yields. */
  function EmittedGroup(p: DebankClient.Protocol): ProtocolGroup {
    match ProtocolEntry(p)
    case Ok(Some(g)) => g
    case _ => ProtocolGroup(p.name, ProtocolKind(p), [])
  }

  /** The protocol groups of `fetch_debank_portfolio`, in protocol order; any unreadable
      number raises, which sends the service to the Alchemy fallback. */
  function ExtractGroups(protocols: seq<DebankClient.Protocol>): (r: Result<seq<ProtocolGroup>, Exception>)
    ensures r.Ok? <==> forall i :: 0 <= i < |protocols| ==> ProtocolEntry(protocols[i]).Ok?
    ensures r.Ok? ==> r.value == Project(Filter(protocols, Emits), EmittedGroup)
    ensures r.Ok? ==> |r.value| <= |protocols|
    ensures r.Ok? ==> forall i :: 0 <= i < |r.value| ==> |r.value[i].positions| > 0
    ensures r.Ok? ==> forall i :: 0 <= i < |r.value| ==> r.value[i].kind == "lending" || r.value[i].kind == "defi"
    decreases |protocols|
  {
    if |protocols| == 0 then Ok([])
    else
      var head :- ProtocolEntry(protocols[0]);
      var rest :- ExtractGroups(protocols[1..]);
      AllCons(protocols, EntryReadable);
      ProjectFilterCons(protocols, Emits, EmittedGroup);
      EmittedGroupsShape(protocols);
      if head.Some? then Ok([head.value] + rest) else Ok(rest)
  }

  /** Every emitted group has a position and a lending or defi type. */
  lemma EmittedGroupsShape(protocols: seq<DebankClient.Protocol>)
    ensures var gs := Project(Filter(protocols, Emits), EmittedGroup);
      && |gs| <= |protocols|
      && (forall i :: 0 <= i < |gs| ==> |gs[i].positions| > 0)
      && (forall i :: 0 <= i < |gs| ==> gs[i].kind == "lending" || gs[i].kind == "defi")
  {
    var es := Filter(protocols, Emits);
    forall i | 0 <= i < |es|
      ensures |EmittedGroup(es[i]).positions| > 0
      ensures EmittedGroup(es[i]).kind == "lending" || EmittedGroup(es[i]).kind == "defi"
    {
      assert Emits(es[i]);
      EmittedIffPositions(es[i]);
    }
  }

  /** One group per protocol that yields a position, and none for the others. */
  lemma {:induction false} ExtractCountsEmitting(protocols: seq<DebankClient.Protocol>)
    requires ExtractGroups(protocols).Ok?
    ensures |ExtractGroups(protocols).value| == CountWhere(protocols, Emits)
    decreases |protocols|
  {
    if |protocols| > 0 {
      assert forall i :: 1 <= i < |protocols| ==> protocols[i] == protocols[1..][i - 1];
      ExtractCountsEmitting(protocols[1..]);
    }
  }

  // ---------------------------------------------------------------------------
  // Protocol groups keyed by name: `defi_positions[name] ||= {…}` and the merge

  /** The group names, in order. */
  function Names(gs: seq<ProtocolGroup>): (r: seq<Option<string>>)
    ensures |r| == |gs|
    decreases |gs|
  {
    if |gs| == 0 then [] else [gs[0].name] + Names(gs[1..])
  }

  lemma {:induction false} NamesIndex(gs: seq<ProtocolGroup>, i: nat)
    requires i < |gs|
    ensures Names(gs)[i] == gs[i].name
    decreases i
  {
    if i > 0 {
      NamesIndex(gs[1..], i - 1);
    }
  }

  /** `gs[j]` is the first group called `name`. */
  predicate FirstNamed(gs: seq<ProtocolGroup>, name: Option<string>, j: int) {
    0 <= j < |gs| && gs[j].name == name && forall k :: 0 <= k < j ==> gs[k].name != name
  }

  /** `gs` with `ps` appended to the positions of group `j`. */
  function AppendAt(gs: seq<ProtocolGroup>, j: int, ps: seq<PositionRecord>): seq<ProtocolGroup>
    requires 0 <= j < |gs|
  {
    gs[j := gs[j].(positions := gs[j].positions + ps)]
  }

  /** Adds `ps` to the group called `name`, or appends a new group `{name, kind, ps}`
      when there is none: a hash keyed by protocol name, in insertion order. */
  function Upsert(gs: seq<ProtocolGroup>, name: Option<string>, kind: string, ps: seq<PositionRecord>): (r: seq<ProtocolGroup>)
    ensures name in Names(gs) ==> Names(r) == Names(gs)
    ensures name in Names(gs) ==> exists j :: FirstNamed(gs, name, j) && r == AppendAt(gs, j, ps)
    ensures name !in Names(gs) ==> Names(r) == Names(gs) + [name] && r == gs + [ProtocolGroup(name, kind, ps)]
    decreases |gs|
  {
    if |gs| == 0 then [ProtocolGroup(name, kind, ps)]
    else if gs[0].name == name then
      var r := [gs[0].(positions := gs[0].positions + ps)] + gs[1..];
      assert FirstNamed(gs, name, 0) && r == AppendAt(gs, 0, ps);
      r
    else
      var rest := Upsert(gs[1..], name, kind, ps);
      var r := [gs[0]] + rest;
      assert r[1..] == rest;
      assert Names(gs) == [gs[0].name] + Names(gs[1..]);
      if name in Names(gs[1..]) then
        var j :| FirstNamed(gs[1..], name, j) && rest == AppendAt(gs[1..], j, ps);
        assert FirstNamed(gs, name, j + 1);
        assert r == AppendAt(gs, j + 1, ps);
        r
      else
        r
  }

  /** With distinct names, the group called `name` is the only one that grows. */
  lemma UpsertJoinsNamedGroup(gs: seq<ProtocolGroup>, name: Option<string>, kind: string, ps: seq<PositionRecord>, i: int)
    requires NoDuplicates(Names(gs)) && 0 <= i < |gs|
    ensures gs[i].name == name ==> Upsert(gs, name, kind, ps)[i].positions == gs[i].positions + ps
    ensures gs[i].name != name ==> Upsert(gs, name, kind, ps)[i] == gs[i]
  {
    var r := Upsert(gs, name, kind, ps);
    NamesIndex(gs, i);
    if name in Names(gs) {
      var j: int :| FirstNamed(gs, name, j) && r == AppendAt(gs, j, ps);
      NamesIndex(gs, j);
      assert gs[i].name == name ==> i == j;
    } else {
      assert r[..|gs|] == gs;
    }
  }

  /** Upserting keeps the names distinct. */
  lemma UpsertKeepsNamesDistinct(gs: seq<ProtocolGroup>, name: Option<string>, kind: string, ps: seq<PositionRecord>)
    ensures NoDuplicates(Names(gs)) ==> NoDuplicates(Names(Upsert(gs, name, kind, ps)))
  {
  }

  /** The sum of `f` over the positions of all groups. */
  function PositionsSum(gs: seq<ProtocolGroup>, f: PositionRecord -> real): real
    decreases |gs|
  {
    if |gs| == 0 then 0.0 else SumOf(gs[0].positions, f) + PositionsSum(gs[1..], f)
  }

  /** The number of positions over all groups. */
  function PositionCount(gs: seq<ProtocolGroup>): nat
    decreases |gs|
  {
    if |gs| == 0 then 0 else |gs[0].positions| + PositionCount(gs[1..])
  }

  /** Upserting adds exactly the new positions: their count and every sum over them. */
  lemma {:induction false} UpsertAdds(gs: seq<ProtocolGroup>, name: Option<string>, kind: string, ps: seq<PositionRecord>, f: PositionRecord -> real)
    ensures PositionCount(Upsert(gs, name, kind, ps)) == PositionCount(gs) + |ps|
    ensures PositionsSum(Upsert(gs, name, kind, ps), f) == PositionsSum(gs, f) + SumOf(ps, f)
    decreases |gs|
  {
    var r := Upsert(gs, name, kind, ps);
    if |gs| == 0 {
      assert r[1..] == [];
    } else if gs[0].name == name {
      SumOfAppend(gs[0].positions, ps, f);
      assert r[1..] == gs[1..];
    } else {
      UpsertAdds(gs[1..], name, kind, ps, f);
      assert r[1..] == Upsert(gs[1..], name, kind, ps);
    }
  }

  /** The fallback's merge: each group of `more`, in order, upserted by name into `all`.
      Positions under a name already present are appended, never deduplicated. */
  function MergeGroups(all: seq<ProtocolGroup>, more: seq<ProtocolGroup>): seq<ProtocolGroup>
    decreases |more|
  {
    if |more| == 0 then all
    else MergeGroups(Upsert(all, more[0].name, more[0].kind, more[0].positions), more[1..])
  }

  /** Merging keeps the names of `all`, in order, as a prefix. */
  lemma {:induction false} MergeKeepsNames(all: seq<ProtocolGroup>, more: seq<ProtocolGroup>)
    ensures |MergeGroups(all, more)| >= |all|
    ensures Names(MergeGroups(all, more))[..|all|] == Names(all)
    decreases |more|
  {
    if |more| > 0 {
      var g := more[0];
      var next := Upsert(all, g.name, g.kind, g.positions);
      MergeKeepsNames(next, more[1..]);
      assert Names(next)[..|all|] == Names(all);
    }
  }

  /** Merging keeps the names distinct. */
  lemma {:induction false} MergeNamesDistinct(all: seq<ProtocolGroup>, more: seq<ProtocolGroup>)
    requires NoDuplicates(Names(all))
    ensures NoDuplicates(Names(MergeGroups(all, more)))
    decreases |more|
  {
    if |more| > 0 {
      var g := more[0];
      UpsertKeepsNamesDistinct(all, g.name, g.kind, g.positions);
      MergeNamesDistinct(Upsert(all, g.name, g.kind, g.positions), more[1..]);
    }
  }

  /** The merged names are exactly the names of either side. */
  lemma {:induction false} MergeNamesCover(all: seq<ProtocolGroup>, more: seq<ProtocolGroup>)
    ensures forall n :: n in Names(MergeGroups(all, more)) <==> n in Names(all) || n in Names(more)
    decreases |more|
  {
    if |more| > 0 {
      var g := more[0];
      var next := Upsert(all, g.name, g.kind, g.positions);
      MergeNamesCover(next, more[1..]);
      assert Names(more) == [g.name] + Names(more[1..]);
      assert forall n :: n in Names(next) <==> n in Names(all) || n == g.name;
    }
  }

  /** Merging conserves positions: the merged count and sums are those of both sides. */
  lemma {:induction false} MergeAdds(all: seq<ProtocolGroup>, more: seq<ProtocolGroup>, f: PositionRecord -> real)
    ensures PositionCount(MergeGroups(all, more)) == PositionCount(all) + PositionCount(more)
    ensures PositionsSum(MergeGroups(all, more), f) == PositionsSum(all, f) + PositionsSum(more, f)
    decreases |more|
  {
    if |more| > 0 {
      var g := more[0];
      UpsertAdds(all, g.name, g.kind, g.positions, f);
      MergeAdds(Upsert(all, g.name, g.kind, g.positions), more[1..], f);
    }
  }

  // ---------------------------------------------------------------------------
  // Alchemy fallback: the token valuation of one chain

  /** A listed token whose metadata came back, with what the detector made of it. */
  datatype Candidate = Candidate(
    token: AlchemyClient.TokenBalance,
    metadata: AlchemyClient.TokenMetadata,
    info: Option<ProtocolDetector.ProtocolInfo>)

  /** `is_defi`: the detector recognised the token as a protocol receipt. */
  predicate IsDefi(c: Candidate) {
    c.info.Some?
  }

  /** The metadata request for this token got an answer (`next unless metadata` skips the rest). */
  function Answered(metadata: string -> Option<Option<AlchemyClient.TokenMetadata>>): AlchemyClient.TokenBalance -> bool {
    (t: AlchemyClient.TokenBalance) => metadata(t.contractAddress).Some?
  }

  function TokensOf(cs: seq<Candidate>): (r: seq<AlchemyClient.TokenBalance>)
    ensures |r| == |cs|
    decreases |cs|
  {
    if |cs| == 0 then [] else [cs[0].token] + TokensOf(cs[1..])
  }

  /** `detect_protocol` applied to answered metadata. */
  function Detect(m: AlchemyClient.TokenMetadata): Option<ProtocolDetector.ProtocolInfo> {
    ProtocolDetector.DetectProtocol(Some(m))
  }

  /** `c` holds the metadata answered for its token and the verdict of `detect` on it. */
  predicate FromAnswer(c: Candidate, metadata: string -> Option<Option<AlchemyClient.TokenMetadata>>,
                       detect: AlchemyClient.TokenMetadata -> Option<ProtocolDetector.ProtocolInfo>) {
    && metadata(c.token.contractAddress) == Some(Some(c.metadata))
    && c.info == detect(c.metadata)
  }

  /** The first pass: fetch each token's metadata (by contract address), skip the
      unanswered, classify the rest with `detect`. A malformed answer raises. The
      scan passes `Detect`; the pass itself does not depend on how tokens are classified. */
  function Candidates(tokens: seq<AlchemyClient.TokenBalance>,
                      metadata: string -> Option<Option<AlchemyClient.TokenMetadata>>,
                      detect: AlchemyClient.TokenMetadata -> Option<ProtocolDetector.ProtocolInfo>): (r: Result<seq<Candidate>, Exception>)
    ensures r.Ok? <==> forall i :: 0 <= i < |tokens| ==> AlchemyClient.GetTokenMetadata(metadata(tokens[i].contractAddress)).Ok?
    ensures r.Err? ==> r.error.className == "NoMethodError"
    ensures r.Ok? ==> forall i :: 0 <= i < |r.value| ==> r.value[i].token in tokens && FromAnswer(r.value[i], metadata, detect)
    decreases |tokens|
  {
    if |tokens| == 0 then Ok([])
    else
      var t := tokens[0];
      assert forall i :: 1 <= i < |tokens| ==> tokens[i] == tokens[1..][i - 1];
      match AlchemyClient.GetTokenMetadata(metadata(t.contractAddress))
      case Err(e) => Err(e)
      case Ok(None) => Candidates(tokens[1..], metadata, detect)
      case Ok(Some(m)) =>
        match Candidates(tokens[1..], metadata, detect)
        case Err(e) => Err(e)
        case Ok(rest) =>
          var c := Candidate(t, m, detect(m));
          assert FromAnswer(c, metadata, detect);
          var r := [c] + rest;
          assert r[1..] == rest;
          Ok(r)
  }

  /** The candidates are exactly the answered tokens, in listing order. */
  lemma {:induction false} CandidatesKeepAnswered(tokens: seq<AlchemyClient.TokenBalance>,
                                                  metadata: string -> Option<Option<AlchemyClient.TokenMetadata>>,
                                                  detect: AlchemyClient.TokenMetadata -> Option<ProtocolDetector.ProtocolInfo>)
    requires Candidates(tokens, metadata, detect).Ok?
    ensures TokensOf(Candidates(tokens, metadata, detect).value) == Filter(tokens, Answered(metadata))
    decreases |tokens|
  {
    if |tokens| > 0 {
      assert forall i :: 1 <= i < |tokens| ==> tokens[i] == tokens[1..][i - 1];
      CandidatesKeepAnswered(tokens[1..], metadata, detect);
      var r := Candidates(tokens, metadata, detect).value;
      if metadata(tokens[0].contractAddress).Some? {
        assert r[1..] == Candidates(tokens[1..], metadata, detect).value;
      }
    }
  }

  /** `first(20)` of the DeFi-first order: the tokens whose prices are asked for. */
  const PriceRequestLimit: nat := 20

  /** The DeFi-first order the valuation walks. Ruby's `sort_by!` is not stable; the
      model keeps each half in listing order. */
  function DefiFirst(cs: seq<Candidate>): seq<Candidate> {
    PartitionFirst(cs, IsDefi)
  }

  /** The contract addresses whose prices are requested. */
  function PriceRequest(cs: seq<Candidate>): (r: seq<string>)
    ensures |r| == Min(PriceRequestLimit, |cs|)
    ensures forall i :: 0 <= i < |r| ==> r[i] == DefiFirst(cs)[i].token.contractAddress
  {
    var first := Take(DefiFirst(cs), PriceRequestLimit);
    seq(|first|, i requires 0 <= i < |first| => first[i].token.contractAddress)
  }

  /** DeFi tokens are asked for first: the i-th request, while DeFi tokens remain,
      is the i-th DeFi token in listing order. */
  lemma DefiPricedFirst(cs: seq<Candidate>, i: nat)
    requires i < PriceRequestLimit && i < CountWhere(cs, IsDefi)
    ensures i < |PriceRequest(cs)|
    ensures PriceRequest(cs)[i] == Filter(cs, IsDefi)[i].token.contractAddress
  {
    var d := Filter(cs, IsDefi);
    assert DefiFirst(cs)[..|d|] == d;
    assert DefiFirst(cs)[i] == DefiFirst(cs)[..|d|][i];
  }

  /** `balance_raw / (10 ** decimals).to_f`, 18 decimals when the metadata has none.
      Every listed balance is present; the empty default is never read. */
  function TokenAmount(c: Candidate): (r: real)
    ensures r * Pow10(c.metadata.decimals.GetOr(18)) == AlchemyClient.ParseHex(c.token.tokenBalance.GetOr("")) as real
    ensures AlchemyClient.PositiveBalance(c.token) ==> r > 0.0
  {
    AlchemyClient.ParseHex(c.token.tokenBalance.GetOr("")) as real / Pow10(c.metadata.decimals.GetOr(18))
  }

  /** The quote if there is a non-zero one; else the estimated peg of a DeFi token
      that has one; else 0. */
  function ChosenPrice(c: Candidate, prices: map<string, real>): (r: real)
    ensures var a := c.token.contractAddress;
      a in prices && prices[a] != 0.0 ==> r == prices[a]
    ensures var a := c.token.contractAddress;
      !(a in prices && prices[a] != 0.0) && c.info.Some? && c.info.value.estimatedPeg.Some? ==> r == c.info.value.estimatedPeg.value
    ensures var a := c.token.contractAddress;
      !(a in prices && prices[a] != 0.0) && (c.info.None? || c.info.value.estimatedPeg.None?) ==> r == 0.0
  {
    var a := c.token.contractAddress;
    if a in prices && prices[a] != 0.0 then prices[a]
    else if c.info.Some? && c.info.value.estimatedPeg.Some? then c.info.value.estimatedPeg.value
    else 0.0
  }

  /** `balance * price`. */
  function TokenValue(c: Candidate, prices: map<string, real>): real {
    TokenAmount(c) * ChosenPrice(c, prices)
  }

  /** What the token adds to the wallet balance: the value of a positive plain token. */
  function WalletShare(prices: map<string, real>): Candidate -> real {
    (c: Candidate) => if TokenAmount(c) > 0.0 && c.info.None? then TokenValue(c, prices) else 0.0
  }

  /** What the token adds to the protocol balance: the value of a positive DeFi
      token, subtracted for a debt token. */
  function ProtocolShare(prices: map<string, real>): Candidate -> real {
    (c: Candidate) => if TokenAmount(c) > 0.0 && c.info.Some? then
           (if c.info.value.isDebt then -TokenValue(c, prices) else TokenValue(c, prices))
         else 0.0
  }

  /** The token yields a position: a positive DeFi token. */
  predicate Yields(c: Candidate) {
    TokenAmount(c) > 0.0 && c.info.Some?
  }

  /** The running totals of a chain scan, and the totals it returns. */
  datatype ChainScan = ChainScan(wallet: real, protocol: real, groups: seq<ProtocolGroup>)

  /** The position written for a DeFi token: rounded amount and value, no protocol
      field, the contract address and the chain. */
  function ReceiptPosition(c: Candidate, prices: map<string, real>, chain: string): (r: PositionRecord)
    requires c.info.Some?
    ensures r.protocol.None? && r.contractAddress == Some(c.token.contractAddress) && r.chain == chain
    ensures r.isDebt == c.info.value.isDebt
    ensures r.tokenSymbol == c.metadata.symbol && r.tokenName == c.metadata.name
    ensures r.balance == Round6(TokenAmount(c))
    ensures r.usdValue == (if c.info.value.isDebt then -Round2(TokenValue(c, prices)) else Round2(TokenValue(c, prices)))
    ensures r.usdValue == Round2(ProtocolShare(prices)(c)) || TokenAmount(c) <= 0.0
  {
    RoundNegate(TokenValue(c, prices), 2);
    var signed := if c.info.value.isDebt then -TokenValue(c, prices) else TokenValue(c, prices);
    PositionRecord(c.metadata.symbol, c.metadata.name, Round6(TokenAmount(c)), Round2(signed), None,
                   chain, c.info.value.isDebt, Some(c.token.contractAddress))
  }

  /** One step of the valuation loop. */
  function ValueToken(t: ChainScan, c: Candidate, prices: map<string, real>, chain: string): ChainScan {
    if TokenAmount(c) <= 0.0 then t
    else if c.info.None? then t.(wallet := t.wallet + TokenValue(c, prices))
    else
      var info := c.info.value;
      t.(protocol := t.protocol + ProtocolShare(prices)(c),
         groups := Upsert(t.groups, Some(info.protocolName), info.kind, [ReceiptPosition(c, prices, chain)]))
  }

  /** The valuation loop over the ordered candidates. */
  function ValueTokens(t: ChainScan, cs: seq<Candidate>, prices: map<string, real>, chain: string): ChainScan
    decreases |cs|
  {
    if |cs| == 0 then t else ValueTokens(ValueToken(t, cs[0], prices, chain), cs[1..], prices, chain)
  }

  /** The loop adds each token's wallet share to the wallet, its protocol share to the
      protocol balance, and one position per yielding token, under distinct names. */
  lemma {:induction false} ValueTokensTotals(t: ChainScan, cs: seq<Candidate>, prices: map<string, real>, chain: string)
    ensures ValueTokens(t, cs, prices, chain).wallet == t.wallet + SumOf(cs, WalletShare(prices))
    ensures ValueTokens(t, cs, prices, chain).protocol == t.protocol + SumOf(cs, ProtocolShare(prices))
    ensures PositionCount(ValueTokens(t, cs, prices, chain).groups) == PositionCount(t.groups) + CountWhere(cs, Yields)
    ensures NoDuplicates(Names(t.groups)) ==> NoDuplicates(Names(ValueTokens(t, cs, prices, chain).groups))
    decreases |cs|
  {
    if |cs| > 0 {
      var c := cs[0];
      var next := ValueToken(t, c, prices, chain);
      ValueTokensTotals(next, cs[1..], prices, chain);
      if Yields(c) {
        var info := c.info.value;
        UpsertAdds(t.groups, Some(info.protocolName), info.kind, [ReceiptPosition(c, prices, chain)], One);
        UpsertKeepsNamesDistinct(t.groups, Some(info.protocolName), info.kind, [ReceiptPosition(c, prices, chain)]);
      }
    }
  }

  /** A DeFi token's position joins the group named after its protocol: that group
      grows by exactly this position and every other group is unchanged, and a new
      group is appended when no group has the name yet. */
  lemma ReceiptJoinsProtocolGroup(t: ChainScan, c: Candidate, prices: map<string, real>, chain: string, i: int)
    requires Yields(c) && NoDuplicates(Names(t.groups)) && 0 <= i < |t.groups|
    ensures var next := ValueToken(t, c, prices, chain).groups;
      var name := Some(c.info.value.protocolName);
      && (t.groups[i].name == name ==> next[i].positions == t.groups[i].positions + [ReceiptPosition(c, prices, chain)])
      && (t.groups[i].name != name ==> next[i] == t.groups[i])
    ensures Some(c.info.value.protocolName) !in Names(t.groups) ==>
      ValueToken(t, c, prices, chain).groups
        == t.groups + [ProtocolGroup(Some(c.info.value.protocolName), c.info.value.kind, [ReceiptPosition(c, prices, chain)])]
  {
    var info := c.info.value;
    UpsertJoinsNamedGroup(t.groups, Some(info.protocolName), info.kind, [ReceiptPosition(c, prices, chain)], i);
  }

  /** Every listed token has a positive amount, so the `balance <= 0` skip never
      fires and every DeFi token yields a position. */
  lemma {:induction false} ListedDefiTokensYield(cs: seq<Candidate>)
    requires forall i :: 0 <= i < |cs| ==> AlchemyClient.PositiveBalance(cs[i].token)
    ensures Filter(cs, Yields) == Filter(cs, IsDefi)
    decreases |cs|
  {
    if |cs| > 0 {
      assert forall i :: 1 <= i < |cs| ==> cs[i] == cs[1..][i - 1];
      ListedDefiTokensYield(cs[1..]);
    }
  }

  /** The native token priced on each chain. */
  function NativeSymbol(chain: string): (r: string)
    ensures r == "matic" <==> chain == "polygon"
    ensures r == "matic" || r == "eth"
  {
    if chain == "polygon" then "matic" else "eth"
  }

  /** The totals of a chain scan: the native value plus every plain token's value in
      the wallet, every DeFi token's signed value in the protocol balance, one
      position per DeFi token. */
  predicate ValuedAs(s: ChainScan, native: real, cands: seq<Candidate>, prices: map<string, real>) {
    && s.wallet == native + SumOf(cands, WalletShare(prices))
    && s.protocol == SumOf(cands, ProtocolShare(prices))
    && PositionCount(s.groups) == CountWhere(cands, IsDefi)
  }

  /** Valuing the listed candidates in DeFi-first order gives `ValuedAs` totals under
      distinct protocol names. */
  lemma DefiFirstValuation(native: real, cands: seq<Candidate>, prices: map<string, real>, chain: string)
    requires forall i :: 0 <= i < |cands| ==> AlchemyClient.PositiveBalance(cands[i].token)
    ensures var s := ValueTokens(ChainScan(native, 0.0, []), DefiFirst(cands), prices, chain);
      ValuedAs(s, native, cands, prices) && NoDuplicates(Names(s.groups))
  {
    var ordered := DefiFirst(cands);
    var start := ChainScan(native, 0.0, []);
    ValueTokensTotals(start, ordered, prices, chain);
    PartitionFirstSum(cands, IsDefi, WalletShare(prices));
    PartitionFirstSum(cands, IsDefi, ProtocolShare(prices));
    forall i | 0 <= i < |ordered|
      ensures AlchemyClient.PositiveBalance(ordered[i].token)
    {
      assert ordered[i] in multiset(ordered);
      assert ordered[i] in multiset(cands);
    }
    ListedDefiTokensYield(ordered);
    PartitionFirstCount(cands, IsDefi);
  }

  // ---------------------------------------------------------------------------
  // Provider answers

  /** One chain's Alchemy answers: the native balance, the token balance list, and
      the metadata of each contract address (`None`: no answer). */
  datatype ChainAnswers = ChainAnswers(
    balance: Option<AlchemyClient.BalanceReply>,
    tokenBalances: Option<Option<seq<AlchemyClient.TokenBalance>>>,
    metadata: string -> Option<Option<AlchemyClient.TokenMetadata>>)

  /** Everything the providers answer during one enrichment: DeBank's three answers,
      Alchemy's answers per chain, and CoinGecko's quotes for native symbols and for
      lower-cased contract addresses. */
  datatype Answers = Answers(
    debankTotal: Option<DebankClient.TotalBalanceReply>,
    debankProtocols: Option<seq<DebankClient.Protocol>>,
    debankTokens: Option<seq<DebankClient.DebankToken>>,
    chains: string -> ChainAnswers,
    nativePrice: string -> PriceService.PriceReply,
    tokenPrice: string -> PriceService.PriceReply)

  /** The native holding's value and the cache after pricing it. */
  datatype Native = Native(value: real, cache: PriceService.Cache)

  /** Step 1 of a chain scan: a positive native balance is priced by its symbol. */
  function NativeHolding(c: PriceService.Cache, chain: string, now: int, balance: Option<real>, ans: Answers): (r: Native)
    ensures balance.None? || balance.value <= 0.0 ==> r == Native(0.0, c)
    ensures balance.Some? && balance.value > 0.0 ==>
      var symbol := NativeSymbol(chain);
      var priced := PriceService.NativePrice(c, symbol, now, ans.nativePrice(symbol));
      r.value == balance.value * priced.price && r.cache == priced.cache
    ensures PriceService.AgreeExcept(c, r.cache, "native:" + ToLower(NativeSymbol(chain)))
    ensures PriceService.Consistent(c) ==> PriceService.Consistent(r.cache)
  {
    if balance.Some? && balance.value > 0.0 then
      var symbol := NativeSymbol(chain);
      var priced := PriceService.NativePrice(c, symbol, now, ans.nativePrice(symbol));
      Native(balance.value * priced.price, priced.cache)
    else Native(0.0, c)
  }

  /** The tokens Alchemy lists with a positive balance on `chain`. */
  function ListedTokens(chain: string, ans: Answers): (r: seq<AlchemyClient.TokenBalance>)
    ensures forall i :: 0 <= i < |r| ==> AlchemyClient.PositiveBalance(r[i])
  {
    AlchemyClient.GetTokenBalances(ans.chains(chain).tokenBalances)
  }

  /** The chain scan succeeds exactly when the client is built, the balance reply is
      well-formed, and every listed token's metadata reply is. */
  predicate ScanSucceeds(chain: string, ans: Answers) {
    && AlchemyClient.NewClient(chain).Ok?
    && AlchemyClient.GetBalance(ans.chains(chain).balance).Ok?
    && (|ListedTokens(chain, ans)| == 0 || Candidates(ListedTokens(chain, ans), ans.chains(chain).metadata, Detect).Ok?)
  }

  /** The exception a failing chain scan raises: the client's, else the balance
      reply's, else the first malformed metadata reply's. */
  function ScanFailure(chain: string, ans: Answers): (e: Exception)
    requires !ScanSucceeds(chain, ans)
  {
    if AlchemyClient.NewClient(chain).Err? then AlchemyClient.NewClient(chain).error
    else if AlchemyClient.GetBalance(ans.chains(chain).balance).Err? then AlchemyClient.GetBalance(ans.chains(chain).balance).error
    else Candidates(ListedTokens(chain, ans), ans.chains(chain).metadata, Detect).error
  }

  /** Steps 2 and 3 of a chain scan: the listed tokens with metadata, valued DeFi
      first at the batch prices of the first twenty (quoted on the ethereum platform
      whatever the chain) or at their peg, on top of the native holding. */
  method ScanTokens(chain: string, native: Native, now: int, ans: Answers)
    returns (r: Result<ChainScan, Exception>, cache: PriceService.Cache)
    ensures var tokens := ListedTokens(chain, ans);
      r.Ok? <==> |tokens| == 0 || Candidates(tokens, ans.chains(chain).metadata, Detect).Ok?
    ensures r.Err? ==> r.error == Candidates(ListedTokens(chain, ans), ans.chains(chain).metadata, Detect).error
    ensures |ListedTokens(chain, ans)| == 0 ==> r == Ok(ChainScan(native.value, 0.0, [])) && cache == native.cache
    ensures r.Ok? && |ListedTokens(chain, ans)| > 0 ==>
      var cands := Candidates(ListedTokens(chain, ans), ans.chains(chain).metadata, Detect).value;
      var prices := PriceService.BatchPrices(native.cache, PriceRequest(cands), "ethereum", now, ans.tokenPrice);
      ValuedAs(r.value, native.value, cands, prices)
    ensures r.Ok? ==> NoDuplicates(Names(r.value.groups))
    ensures PriceService.Consistent(native.cache) ==> PriceService.Consistent(cache)
  {
    cache := native.cache;
    var tokens := ListedTokens(chain, ans);
    if |tokens| == 0 {
      return Ok(ChainScan(native.value, 0.0, [])), cache;
    }
    var cands := Candidates(tokens, ans.chains(chain).metadata, Detect);
    if cands.Err? {
      return Err(cands.error), cache;
    }
    var request := PriceRequest(cands.value);
    var batch := PriceService.GetMultiplePrices(cache, request, "ethereum", now, ans.tokenPrice);
    PriceService.PricesAreBatchPrices(batch.prices, cache, request, "ethereum", now, ans.tokenPrice);
    cache := batch.cache;
    forall i | 0 <= i < |cands.value|
      ensures AlchemyClient.PositiveBalance(cands.value[i].token)
    {
      assert cands.value[i].token in tokens;
    }
    DefiFirstValuation(native.value, cands.value, batch.prices, chain);
    r := Ok(ValueTokens(ChainScan(native.value, 0.0, []), DefiFirst(cands.value), batch.prices, chain));
  }

  /** The totals of a successful scan of `chain`: the native holding alone when no
      token is listed, else the valuation of the candidates at the batch prices. */
  predicate ChainValued(chain: string, c: PriceService.Cache, now: int, ans: Answers, s: ChainScan)
    requires AlchemyClient.GetBalance(ans.chains(chain).balance).Ok?
    requires |ListedTokens(chain, ans)| == 0 || Candidates(ListedTokens(chain, ans), ans.chains(chain).metadata, Detect).Ok?
  {
    var native := NativeHolding(c, chain, now, AlchemyClient.GetBalance(ans.chains(chain).balance).value, ans);
    var tokens := ListedTokens(chain, ans);
    && (|tokens| == 0 ==> s == ChainScan(native.value, 0.0, []))
    && (|tokens| > 0 ==>
          var cands := Candidates(tokens, ans.chains(chain).metadata, Detect).value;
          var prices := PriceService.BatchPrices(native.cache, PriceRequest(cands), "ethereum", now, ans.tokenPrice);
          ValuedAs(s, native.value, cands, prices))
  }

  /** `scan_chain`: the client for the chain, the native balance priced by its symbol,
      then the tokens. A malformed answer raises out of the scan. */
  method ScanChain(chain: string, c: PriceService.Cache, now: int, ans: Answers)
    returns (r: Result<ChainScan, Exception>, cache: PriceService.Cache)
    ensures r.Ok? <==> ScanSucceeds(chain, ans)
    ensures r.Err? ==> r.error == ScanFailure(chain, ans)
    ensures r.Ok? ==> ChainValued(chain, c, now, ans, r.value)
    ensures r.Ok? ==> NoDuplicates(Names(r.value.groups))
    ensures PriceService.Consistent(c) ==> PriceService.Consistent(cache)
  {
    cache := c;
    var client := AlchemyClient.NewClient(chain);
    if client.Err? {
      return Err(client.error), cache;
    }
    var balance := AlchemyClient.GetBalance(ans.chains(chain).balance);
    if balance.Err? {
      return Err(balance.error), cache;
    }
    var native := NativeHolding(c, chain, now, balance.value, ans);
    r, cache := ScanTokens(chain, native, now, ans);
  }

  // ---------------------------------------------------------------------------
  // The multi-chain fallback

  function WalletOf(s: ChainScan): real {
    s.wallet
  }

  function ProtocolOf(s: ChainScan): real {
    s.protocol
  }

  /** The groups of the scans merged by name, chain by chain. */
  function MergeAll(scans: seq<ChainScan>): seq<ProtocolGroup>
    decreases |scans|
  {
    if |scans| == 0 then [] else MergeGroups(MergeAll(scans[..|scans| - 1]), scans[|scans| - 1].groups)
  }

  /** The number of positions over all scans. */
  function ScanPositions(scans: seq<ChainScan>): nat
    decreases |scans|
  {
    if |scans| == 0 then 0 else ScanPositions(scans[..|scans| - 1]) + PositionCount(scans[|scans| - 1].groups)
  }

  /** The merge of all chains keeps names distinct and loses no position. */
  lemma {:induction false} MergeAllFacts(scans: seq<ChainScan>)
    ensures NoDuplicates(Names(MergeAll(scans)))
    ensures PositionCount(MergeAll(scans)) == ScanPositions(scans)
    decreases |scans|
  {
    if |scans| > 0 {
      var init := scans[..|scans| - 1];
      MergeAllFacts(init);
      MergeNamesDistinct(MergeAll(init), scans[|scans| - 1].groups);
      MergeAdds(MergeAll(init), scans[|scans| - 1].groups, One);
    }
  }

  /** Every EVM chain scan succeeds. */
  predicate AllChainsScan(ans: Answers) {
    forall i :: 0 <= i < |EvmChains| ==> ScanSucceeds(EvmChains[i], ans)
  }

  /** The exception a chain's scan raises, if any. */
  function ChainError(ans: Answers): string -> Option<Exception> {
    chain => if ScanSucceeds(chain, ans) then None else Some(ScanFailure(chain, ans))
  }

  /** The exception of the first EVM chain whose scan fails: the one that escapes the fallback. */
  function FallbackError(ans: Answers): Option<Exception> {
    FirstSome(EvmChains, ChainError(ans))
  }

  /** When chain `i` is the first whose scan fails, its exception escapes the fallback. */
  lemma FallbackErrorAt(ans: Answers, i: int)
    requires 0 <= i < |EvmChains| && !ScanSucceeds(EvmChains[i], ans)
    requires forall j :: 0 <= j < i ==> ScanSucceeds(EvmChains[j], ans)
    ensures FallbackError(ans) == Some(ScanFailure(EvmChains[i], ans))
  {
    var f := ChainError(ans);
    forall j | 0 <= j < i
      ensures f(EvmChains[j]).None?
    {
      assert ScanSucceeds(EvmChains[j], ans);
    }
    FirstSomeAt(EvmChains, f, i);
  }

  /** A chain's scan as the fallback loop uses it: whether it succeeds, what it
      raises, and that its group names are distinct. */
  method ScanChainOutcome(chain: string, c: PriceService.Cache, now: int, ans: Answers)
    returns (r: Result<ChainScan, Exception>, cache: PriceService.Cache)
    ensures r.Ok? <==> ScanSucceeds(chain, ans)
    ensures r.Err? ==> r.error == ScanFailure(chain, ans)
    ensures r.Ok? ==> NoDuplicates(Names(r.value.groups))
    ensures PriceService.Consistent(c) ==> PriceService.Consistent(cache)
  {
    r, cache := ScanChain(chain, c, now, ans);
  }

  /** One more chain adds its totals to the sums and its groups to the merge. */
  lemma AddScan(scans: seq<ChainScan>, s: ChainScan)
    ensures SumOf(scans + [s], WalletOf) == SumOf(scans, WalletOf) + s.wallet
    ensures SumOf(scans + [s], ProtocolOf) == SumOf(scans, ProtocolOf) + s.protocol
    ensures MergeAll(scans + [s]) == MergeGroups(MergeAll(scans), s.groups)
  {
    SumOfSnoc(scans, s, WalletOf);
    SumOfSnoc(scans, s, ProtocolOf);
    assert (scans + [s])[..|scans|] == scans;
  }

  /** The loop of `fetch_ethereum_portfolio_with_defi_detection`: the chains in order,
      stopping at the first that fails, whose index is `failed`. */
  method ScanEvmChains(c: PriceService.Cache, now: int, ans: Answers)
    returns (r: Result<ChainScan, Exception>, scans: seq<ChainScan>, cache: PriceService.Cache, failed: nat)
    ensures r.Ok? <==> AllChainsScan(ans)
    ensures r.Err? ==> failed < |EvmChains| && !ScanSucceeds(EvmChains[failed], ans) && r.error == ScanFailure(EvmChains[failed], ans)
    ensures r.Err? ==> forall j :: 0 <= j < failed ==> ScanSucceeds(EvmChains[j], ans)
    ensures r.Ok? ==> |scans| == |EvmChains|
    ensures r.Ok? ==> r.value.wallet == SumOf(scans, WalletOf) && r.value.protocol == SumOf(scans, ProtocolOf)
    ensures r.Ok? ==> r.value.groups == MergeAll(scans)
    ensures r.Ok? ==> NoDuplicates(Names(r.value.groups)) && PositionCount(r.value.groups) == ScanPositions(scans)
    ensures r.Ok? ==> forall i :: 0 <= i < |scans| ==> NoDuplicates(Names(scans[i].groups))
    ensures PriceService.Consistent(c) ==> PriceService.Consistent(cache)
  {
    cache := c;
    scans := [];
    failed := 0;
    var wallet := 0.0;
    var protocol := 0.0;
    var groups: seq<ProtocolGroup> := [];
    var i := 0;
    while i < |EvmChains|
      invariant 0 <= i <= |EvmChains| && |scans| == i
      invariant forall j :: 0 <= j < i ==> ScanSucceeds(EvmChains[j], ans)
      invariant wallet == SumOf(scans, WalletOf) && protocol == SumOf(scans, ProtocolOf)
      invariant groups == MergeAll(scans)
      invariant forall j :: 0 <= j < |scans| ==> NoDuplicates(Names(scans[j].groups))
      invariant PriceService.Consistent(c) ==> PriceService.Consistent(cache)
    {
      var s;
      s, cache := ScanChainOutcome(EvmChains[i], cache, now, ans);
      if s.Err? {
        return Err(s.error), scans, cache, i;
      }
      AddScan(scans, s.value);
      wallet := wallet + s.value.wallet;
      protocol := protocol + s.value.protocol;
      groups := MergeGroups(groups, s.value.groups);
      scans := scans + [s.value];
      i := i + 1;
    }
    MergeAllFacts(scans);
    r := Ok(ChainScan(wallet, protocol, groups));
  }

  /** `fetch_ethereum_portfolio_with_defi_detection`: scan each EVM chain in order,
      add up the wallet and protocol balances and merge the groups by protocol name.
      The first failing chain's exception escapes. */
  method FallbackPortfolio(c: PriceService.Cache, now: int, ans: Answers)
    returns (r: Result<ChainScan, Exception>, scans: seq<ChainScan>, cache: PriceService.Cache)
    ensures r.Ok? <==> AllChainsScan(ans)
    ensures r.Err? ==> FallbackError(ans) == Some(r.error)
    ensures r.Ok? ==> |scans| == |EvmChains|
    ensures r.Ok? ==> r.value.wallet == SumOf(scans, WalletOf) && r.value.protocol == SumOf(scans, ProtocolOf)
    ensures r.Ok? ==> r.value.groups == MergeAll(scans)
    ensures r.Ok? ==> NoDuplicates(Names(r.value.groups)) && PositionCount(r.value.groups) == ScanPositions(scans)
    ensures r.Ok? ==> forall i :: 0 <= i < |scans| ==> NoDuplicates(Names(scans[i].groups))
    ensures PriceService.Consistent(c) ==> PriceService.Consistent(cache)
  {
    var failed;
    r, scans, cache, failed := ScanEvmChains(c, now, ans);
    if r.Err? {
      FallbackErrorAt(ans, failed);
    }
  }

  // ---------------------------------------------------------------------------
  // Writing the account

  /** The columns a successful fetch writes: three balances rounded to cents and the groups. */
  function WithBalances(a: Account, total: real, wallet: real, protocol: real, groups: seq<ProtocolGroup>): Account {
    a.(balanceUsd := Round2(total), walletBalanceUsd := Round2(wallet), protocolBalanceUsd := Round2(protocol),
       defiPositions := Encode(groups))
  }

  /** After the fallback: the total is wallet plus protocol, each rounded on its own. */
  function WithScan(a: Account, s: ChainScan): Account {
    WithBalances(a, s.wallet + s.protocol, s.wallet, s.protocol, s.groups)
  }

  /** After DeBank: its three balances. */
  function WithDebank(a: Account, b: DebankClient.Breakdown, groups: seq<ProtocolGroup>): Account {
    WithBalances(a, b.totalUsd, b.walletBalance, b.protocolBalance, groups)
  }

  /** Non-EVM chains: zero balances, the stored groups untouched. */
  function WithZeros(a: Account): Account {
    a.(balanceUsd := 0.0, walletBalanceUsd := 0.0, protocolBalanceUsd := 0.0)
  }

  /** The stored fallback total is within a cent and a half of the stored parts' sum:
      three independent roundings. */
  lemma StoredTotalWithinCents(a: Account, s: ChainScan)
    ensures var r := WithScan(a, s);
      -0.015 <= r.balanceUsd - (r.walletBalanceUsd + r.protocolBalanceUsd) <= 0.015
  {
    Round2Error(s.wallet + s.protocol);
    Round2Error(s.wallet);
    Round2Error(s.protocol);
  }

  /** The stored parts need not add up to the stored total: half a cent in the wallet
      and half a cent in protocols are stored as a cent each but total one cent. */
  lemma StoredPartsCanMissTotal(a: Account)
    ensures var r := WithScan(a, ChainScan(0.005, 0.005, []));
      r.walletBalanceUsd + r.protocolBalanceUsd == 0.02 && r.balanceUsd == 0.01
  {
    assert RoundUnit(0.5) == 1.0;
    assert Round(0.005, 2) == 0.01 by {
      assert Round(0.005, 2) == Round(0.05, 1) / 10.0;
      assert Round(0.05, 1) == Round(0.5, 0) / 10.0;
    }
    assert RoundUnit(1.0) == 1.0;
    assert Round(0.01, 2) == 0.01 by {
      assert Round(0.01, 2) == Round(0.1, 1) / 10.0;
      assert Round(0.1, 1) == Round(1.0, 0) / 10.0;
    }
  }

  /** The stored DeBank parts add up to the stored total within a cent and a half,
      or exceed it by less than a dollar more when the wallet was clamped to zero. */
  lemma DebankStoredTotal(a: Account, ans: Answers, groups: seq<ProtocolGroup>)
    ensures var r := WithDebank(a, DebankBreakdown(ans), groups);
      -0.015 <= r.walletBalanceUsd + r.protocolBalanceUsd - r.balanceUsd < 1.015
  {
    var b := DebankBreakdown(ans);
    Round2Error(b.totalUsd);
    Round2Error(b.walletBalance);
    Round2Error(b.protocolBalance);
  }

  /** The DeBank breakdown, from DeBank's three answers. */
  function DebankBreakdown(ans: Answers): DebankClient.Breakdown {
    DebankClient.PortfolioBreakdown(ans.debankTotal, ans.debankProtocols, ans.debankTokens)
  }

  /** The groups extracted from the breakdown's protocols, or the exception that
      sends the service to the fallback. */
  function DebankGroups(ans: Answers): Result<seq<ProtocolGroup>, Exception> {
    ExtractGroups(DebankBreakdown(ans).protocols)
  }

  /** `fetch_complete_portfolio`: ethereum addresses go to DeBank, and to the Alchemy
      fallback when the extraction raises; Solana and every other chain get zero
      balances and keep their stored groups. */
  method FetchCompletePortfolio(a: Account, c: PriceService.Cache, now: int, ans: Answers)
    returns (r: Result<Account, Exception>, cache: PriceService.Cache)
    ensures a.blockchain != Some("ethereum") ==> r == Ok(WithZeros(a)) && cache == c
    ensures a.blockchain == Some("ethereum") && DebankGroups(ans).Ok? ==>
      r == Ok(WithDebank(a, DebankBreakdown(ans), DebankGroups(ans).value)) && cache == c
    ensures a.blockchain == Some("ethereum") && DebankGroups(ans).Err? ==>
      && (r.Ok? <==> AllChainsScan(ans))
      && (r.Ok? ==> exists s :: r.value == WithScan(a, s) && NoDuplicates(Names(s.groups)))
    ensures r.Err? ==> a.blockchain == Some("ethereum") && DebankGroups(ans).Err? && FallbackError(ans) == Some(r.error)
    ensures PriceService.Consistent(c) ==> PriceService.Consistent(cache)
  {
    cache := c;
    if a.blockchain != Some("ethereum") {
      return Ok(WithZeros(a)), cache;
    }
    var b := DebankBreakdown(ans);
    match DebankGroups(ans)
    case Ok(groups) =>
      r := Ok(WithDebank(a, b, groups));
    case Err(_) =>
      var scan, scans;
      scan, scans, cache := FallbackPortfolio(c, now, ans);
      if scan.Err? {
        return Err(scan.error), cache;
      }
      r := Ok(WithScan(a, scan.value));
  }

  /** `call`: a persisted account is marked syncing, classified by its address, fetched,
      and marked synced at `now`, or marked error with the exception's class and message.
      Columns written before the exception (the classification) stay written. */
  method Call(a: Account, persisted: bool, c: PriceService.Cache, now: int, ans: Answers)
    returns (succeeded: bool, r: Account, cache: PriceService.Cache)
    ensures !persisted ==> !succeeded && r == a && cache == c
    ensures persisted ==>
      var cls := AddressClassifier.Classify(a.address);
      && r.id == a.id && r.userId == a.userId && r.address == a.address && r.name == a.name && r.status == a.status
      && r.blockchain == Some(cls.blockchain) && r.accountType == Some(cls.accountType)
      && (succeeded <==> cls.blockchain != "ethereum" || DebankGroups(ans).Ok? || AllChainsScan(ans))
    ensures persisted && succeeded ==>
      r.syncStatus == Some("synced") && r.lastSyncedAt == Some(now) && r.syncError.None? && !NeedsSync(r, now)
    ensures persisted && !succeeded ==>
      && r.syncStatus == Some("error") && NeedsSync(r, now)
      && FallbackError(ans).Some? && r.syncError == Some(Describe(FallbackError(ans).value))
      && r.lastSyncedAt == a.lastSyncedAt && r.defiPositions == a.defiPositions
      && r.balanceUsd == a.balanceUsd && r.walletBalanceUsd == a.walletBalanceUsd
      && r.protocolBalanceUsd == a.protocolBalanceUsd
    ensures persisted && AddressClassifier.Classify(a.address).blockchain != "ethereum" ==>
      succeeded && r.balanceUsd == 0.0 && r.walletBalanceUsd == 0.0 && r.protocolBalanceUsd == 0.0
      && r.defiPositions == a.defiPositions
    ensures persisted && AddressClassifier.Classify(a.address).blockchain == "ethereum" && DebankGroups(ans).Ok? ==>
      succeeded && r.defiPositions == Encode(DebankGroups(ans).value)
      && r.balanceUsd == Round2(DebankBreakdown(ans).totalUsd)
    ensures PriceService.Consistent(c) ==> PriceService.Consistent(cache)
  {
    if !persisted {
      return false, a, c;
    }
    var cls := AddressClassifier.Classify(a.address);
    var classified := a.(syncStatus := Some("syncing"), blockchain := Some(cls.blockchain), accountType := Some(cls.accountType));
    var fetched;
    fetched, cache := FetchCompletePortfolio(classified, c, now, ans);
    match fetched
    case Ok(b) =>
      succeeded := true;
      r := b.(syncStatus := Some("synced"), lastSyncedAt := Some(now), syncError := None);
    case Err(e) =>
      succeeded := false;
      r := classified.(syncStatus := Some("error"), syncError := Some(Describe(e)));
  }

  /** After a successful DeBank sync the normalizer reads back exactly the written groups. */
  lemma DebankSyncReadsBack(ans: Answers, r: Account)
    requires DebankGroups(ans).Ok?
    requires r.defiPositions == Encode(DebankGroups(ans).value)
    ensures NormalizedPositions.AccountPositions(r) == NormalizedPositions.WrittenPositions(r, DebankGroups(ans).value, 0)
  {
    NormalizedPositions.WrittenPayloadReadsBack(r, DebankGroups(ans).value);
  }
}
