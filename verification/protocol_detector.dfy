/** `Blockchain::DefiProtocolDetector`: recognises DeFi receipt tokens from
    their symbol and name with an ordered, first-match table of patterns.
    Symbol tests are case-sensitive; name tests are case-insensitive (ASCII). */
module ProtocolDetector {
  import opened Wrappers
  import opened Text
  import opened AlchemyClient

  datatype ProtocolKey = Aave | Compound | Curve | UniswapV2 | StakeDao | Gmx

  /** An anchored symbol regex: `^p[A-Z]`, `s$`, or `^s$`. */
  datatype SymbolTest =
    | PrefixThenUpper(prefix: string)
    | Suffix(suffix: string)
    | Exactly(text: string)

  /** A case-insensitive name regex, written in lower case:
      `Contains(alts)` is `/a1|a2|.../i`; `Followed(head, tails)` is `/head.*(t1|t2|...)/i`. */
  datatype NameTest =
    | ContainsAny(alternatives: seq<string>)
    | Followed(head: string, tails: seq<string>)

  datatype ProtocolPattern = ProtocolPattern(
    key: ProtocolKey,
    tokenPrefix: Option<SymbolTest>,
    tokenSuffix: Option<SymbolTest>,
    namePattern: NameTest,
    protocolName: string,
    kind: string)

  /** `PROTOCOL_PATTERNS`, in declaration order. */
  const Patterns: seq<ProtocolPattern> := [
    ProtocolPattern(Aave, Some(PrefixThenUpper("a")), None,
      Followed("aave", AaveTails), "Aave", "lending"),
    ProtocolPattern(Compound, Some(PrefixThenUpper("c")), None,
      ContainsAny(["compound"]), "Compound", "lending"),
    ProtocolPattern(Curve, None, Some(Suffix("-LP")),
      Followed("curve", ["lp"]), "Curve", "liquidity_pool"),
    ProtocolPattern(UniswapV2, None, None,
      ContainsAny(["uni-v2"]), "Uniswap V2", "liquidity_pool"),
    ProtocolPattern(StakeDao, Some(PrefixThenUpper("sd")), None,
      ContainsAny(["stakedao", "stake dao"]), "Stake DAO", "staking"),
    ProtocolPattern(Gmx, Some(Exactly("GM")), None,
      Followed("gmx", ["market"]), "GMX", "perpetuals")
  ]

  /** The alternatives after `Aave.*` in Aave's name regex. */
  const AaveTails: seq<string> := ["interest", "variable", "stable", "debt"]

  /** What `detect_protocol` returns for a recognised token. */
  datatype ProtocolInfo = ProtocolInfo(
    protocolKey: ProtocolKey,
    protocolName: string,
    kind: string,
    tokenSymbol: Option<string>,
    tokenName: Option<string>,
    isDebt: bool,
    estimatedPeg: Option<real>)

  predicate SymbolMatches(t: SymbolTest, s: string) {
    match t
    case PrefixThenUpper(p) => |p| < |s| && StartsWith(s, p) && IsUpper(s[|p|])
    case Suffix(x) => EndsWith(s, x)
    case Exactly(x) => s == x
  }

  /** Some alternative occurs in `s` at an index `>= from`. */
  predicate AnyOccursFrom(alts: seq<string>, s: string, from: int) {
    exists k | 0 <= k < |alts| :: OccursFrom(alts[k], s, from)
  }

  lemma AnyOccursWitness(alts: seq<string>, s: string, from: int, k: int)
    requires 0 <= k < |alts| && OccursFrom(alts[k], s, from)
    ensures AnyOccursFrom(alts, s, from)
  {
  }

  /** `head.*(t1|t2|...)` matched with `head` at `i` and a tail at `j`. Ruby's `.` does
      not match a newline, so the gap between the two stays on one line. */
  predicate FollowedAt(head: string, tails: seq<string>, low: string, i: int, j: int) {
    && OccursAt(head, low, i)
    && i + |head| <= j <= |low|
    && (exists k | 0 <= k < |tails| :: OccursAt(tails[k], low, j))
    && '\n' !in low[i + |head|..j]
  }

  lemma FollowedWitness(head: string, tails: seq<string>, low: string, i: int, j: int, k: int)
    requires 0 <= k < |tails| && OccursAt(head, low, i) && OccursAt(tails[k], low, j)
    requires i + |head| <= j && '\n' !in low[i + |head|..j]
    ensures FollowedAt(head, tails, low, i, j)
  {
  }

  /** A first character that differs rules the occurrence out. */
  lemma FirstCharMismatch(p: string, s: string, i: int)
    requires 0 < |p| && 0 <= i < |s| && s[i] != p[0]
    ensures !OccursAt(p, s, i)
  {
  }

  predicate NameMatches(t: NameTest, name: string) {
    var low := ToLower(name);
    match t
    case ContainsAny(alts) => AnyOccursFrom(alts, low, 0)
    case Followed(head, tails) =>
      exists i, j | 0 <= i <= j <= |low| :: FollowedAt(head, tails, low, i, j)
  }

  /** `symbol&.match?(test)`: a nil symbol never matches. */
  predicate OptSymbolMatches(t: Option<SymbolTest>, symbol: Option<string>) {
    t.Some? && symbol.Some? && SymbolMatches(t.value, symbol.value)
  }

  /** One table entry: prefix, then suffix, then name. Whichever test hits,
      the entry yields the same descriptor, so the entry matches when any does. */
  predicate EntryMatches(p: ProtocolPattern, m: TokenMetadata) {
    OptSymbolMatches(p.tokenPrefix, m.symbol)
    || OptSymbolMatches(p.tokenSuffix, m.symbol)
    || (m.name.Some? && NameMatches(p.namePattern, m.name.value))
  }

  /** `/debt/i` against name or symbol. */
  predicate IsDebtToken(m: TokenMetadata) {
    (m.name.Some? && Contains(ToLower(m.name.value), "debt"))
    || (m.symbol.Some? && Contains(ToLower(m.symbol.value), "debt"))
  }

  /** The patterns of `detect_stablecoin_peg`, lower-cased (all are `/…/i`). */
  const StablecoinPatterns: seq<string> := ["usd", "dai", "usdc", "usdt", "lusd", "frax", "busd", "crvusd"]

  predicate MentionsAny(s: Option<string>, pats: seq<string>) {
    s.Some? && exists k | 0 <= k < |pats| :: Contains(ToLower(s.value), pats[k])
  }

  lemma MentionsWitness(s: string, pats: seq<string>, k: int)
    requires 0 <= k < |pats| && Contains(ToLower(s), pats[k])
    ensures MentionsAny(Some(s), pats)
  {
  }

  /** `detect_stablecoin_peg`: 1.0 for a token whose symbol or name looks like a stablecoin. */
  function StablecoinPeg(symbol: Option<string>, name: Option<string>): (r: Option<real>)
    ensures r.Some? ==> r.value == 1.0
    ensures r.Some? <==> MentionsAny(symbol, PegRoots) || MentionsAny(name, PegRoots)
  {
    PegPatternsReduce(symbol);
    PegPatternsReduce(name);
    if MentionsAny(symbol, StablecoinPatterns) || MentionsAny(name, StablecoinPatterns) then Some(1.0) else None
  }

  /** The three patterns the eight reduce to. */
  const PegRoots: seq<string> := ["usd", "dai", "frax"]

  /** Every listed stablecoin pattern other than `dai` and `frax` contains `usd`,
      so the eight patterns accept exactly what `usd`, `dai` and `frax` accept. */
  lemma PegPatternsReduce(s: Option<string>)
    ensures MentionsAny(s, StablecoinPatterns) <==> MentionsAny(s, PegRoots)
  {
    if s.Some? && MentionsAny(s, StablecoinPatterns) {
      var low := ToLower(s.value);
      var k :| 0 <= k < |StablecoinPatterns| && Contains(low, StablecoinPatterns[k]);
      var usd := "usd";
      if k == 2 || k == 3 {
        assert OccursAt(usd, StablecoinPatterns[k], 0);
        ContainsTransitive(low, StablecoinPatterns[k], usd);
      } else if k == 4 || k == 6 {
        assert OccursAt(usd, StablecoinPatterns[k], 1);
        ContainsTransitive(low, StablecoinPatterns[k], usd);
      } else if k == 7 {
        assert OccursAt(usd, StablecoinPatterns[k], 3);
        ContainsTransitive(low, StablecoinPatterns[k], usd);
      }
      var root := if k == 1 then 1 else if k == 5 then 2 else 0;
      assert Contains(low, PegRoots[root]);
      MentionsWitness(s.value, PegRoots, root);
    }
    if s.Some? && MentionsAny(s, PegRoots) {
      var low := ToLower(s.value);
      var k :| 0 <= k < |PegRoots| && Contains(low, PegRoots[k]);
      var j := if k == 0 then 0 else if k == 1 then 1 else 5;
      assert StablecoinPatterns[j] == PegRoots[k];
      MentionsWitness(s.value, StablecoinPatterns, j);
    }
  }

  /** `build_protocol_info` followed by the peg assignment. */
  function BuildInfo(p: ProtocolPattern, m: TokenMetadata): ProtocolInfo {
    ProtocolInfo(p.key, p.protocolName, p.kind, m.symbol, m.name, IsDebtToken(m), StablecoinPeg(m.symbol, m.name))
  }

  /** Entry `i` matches and no earlier entry does. */
  predicate FirstMatchAt(ps: seq<ProtocolPattern>, m: TokenMetadata, i: int) {
    0 <= i < |ps| && EntryMatches(ps[i], m) && forall j :: 0 <= j < i ==> !EntryMatches(ps[j], m)
  }

  /** Table entries are tried in order and the first matching one decides. */
  function FirstMatch(ps: seq<ProtocolPattern>, m: TokenMetadata): (r: Option<ProtocolInfo>)
    ensures r.None? <==> forall i :: 0 <= i < |ps| ==> !EntryMatches(ps[i], m)
    ensures r.Some? ==> exists i :: FirstMatchAt(ps, m, i) && r.value == BuildInfo(ps[i], m)
    decreases |ps|
  {
    if |ps| == 0 then None
    else if EntryMatches(ps[0], m) then Some(BuildInfo(ps[0], m))
    else
      var r := FirstMatch(ps[1..], m);
      FirstMatchShift(ps, m, r);
      r
  }

  /** The tail's first match is the whole table's first match when the head misses. */
  lemma FirstMatchShift(ps: seq<ProtocolPattern>, m: TokenMetadata, r: Option<ProtocolInfo>)
    requires |ps| > 0 && !EntryMatches(ps[0], m)
    requires r.None? <==> forall i :: 0 <= i < |ps[1..]| ==> !EntryMatches(ps[1..][i], m)
    requires r.Some? ==> exists i :: FirstMatchAt(ps[1..], m, i) && r.value == BuildInfo(ps[1..][i], m)
    ensures r.None? <==> forall i :: 0 <= i < |ps| ==> !EntryMatches(ps[i], m)
    ensures r.Some? ==> exists i :: FirstMatchAt(ps, m, i) && r.value == BuildInfo(ps[i], m)
  {
    if r.Some? {
      var i :| FirstMatchAt(ps[1..], m, i) && r.value == BuildInfo(ps[1..][i], m);
      assert EntryMatches(ps[i + 1], m) && r.value == BuildInfo(ps[i + 1], m);
      forall j | 0 <= j < i + 1
        ensures !EntryMatches(ps[j], m)
      {
        if j > 0 {
          assert ps[j] == ps[1..][j - 1];
        }
      }
      assert FirstMatchAt(ps, m, i + 1);
    } else {
      forall i | 0 <= i < |ps|
        ensures !EntryMatches(ps[i], m)
      {
        if i > 0 {
          assert ps[i] == ps[1..][i - 1];
        }
      }
    }
  }

  /** The descriptor carries the entry's key, protocol name and type. */
  predicate DescribedBy(info: ProtocolInfo, p: ProtocolPattern) {
    info.protocolKey == p.key && info.protocolName == p.protocolName && info.kind == p.kind
  }

  /** `detect_protocol`: nil metadata and unrecognised tokens give nil; otherwise the
      descriptor of the first matching entry, with the metadata's symbol and name. */
  function DetectProtocol(metadata: Option<TokenMetadata>): (r: Option<ProtocolInfo>)
    ensures metadata.None? ==> r.None?
    ensures r.Some? ==> metadata.Some?
    ensures r.Some? ==> r.value.tokenSymbol == metadata.value.symbol && r.value.tokenName == metadata.value.name
    ensures r.Some? ==> r.value.isDebt == IsDebtToken(metadata.value)
    ensures r.Some? ==> r.value.estimatedPeg == StablecoinPeg(metadata.value.symbol, metadata.value.name)
    ensures r.Some? ==> exists i :: FirstMatchAt(Patterns, metadata.value, i) && DescribedBy(r.value, Patterns[i])
    ensures metadata.Some? && r.None? ==> forall i :: 0 <= i < |Patterns| ==> !EntryMatches(Patterns[i], metadata.value)
  {
    match metadata
    case None => None
    case Some(m) => FirstMatch(Patterns, m)
  }

  /** The table's entries carry distinct protocol keys. */
  lemma PatternKeysDistinct(i: int, j: int)
    requires 0 <= i < j < |Patterns|
    ensures Patterns[i].key != Patterns[j].key
  {
  }

  /** An earlier entry's name match beats every later entry, whatever the later
      entries' symbol tests say: the reported protocol is never a later entry's. */
  lemma EarlierNameBeatsLaterSymbol(m: TokenMetadata, i: int)
    requires 0 <= i < |Patterns| && m.name.Some? && NameMatches(Patterns[i].namePattern, m.name.value)
    ensures DetectProtocol(Some(m)).Some?
    ensures forall j :: i < j < |Patterns| ==> DetectProtocol(Some(m)).value.protocolKey != Patterns[j].key
  {
    assert EntryMatches(Patterns[i], m);
    var r := DetectProtocol(Some(m));
    var k :| FirstMatchAt(Patterns, m, k) && DescribedBy(r.value, Patterns[k]);
    assert k <= i;
    forall j | i < j < |Patterns|
      ensures r.value.protocolKey != Patterns[j].key
    {
      PatternKeysDistinct(k, j);
    }
  }

  /** `cUSDC` named like an Aave token: Compound's symbol shape, Aave's name shape,
      reported as Aave because Aave's entry comes first. */
  lemma CUsdcNamedLikeAaveIsAave(m: TokenMetadata)
    requires m.name == Some("Aave interest bearing USDC") && m.symbol == Some("cUSDC")
    ensures DetectProtocol(Some(m)).Some? && DetectProtocol(Some(m)).value.protocolKey == Aave
  {
    assert m.name.value[..13] == "Aave interest";
    AaveInterestNamesMatch(m.name.value);
    FirstEntryWins(m);
  }

  /** `cUSDC` has the shape of Compound's `^c[A-Z]` symbol test. */
  lemma CompoundShapedSymbol(symbol: string)
    requires symbol == "cUSDC"
    ensures SymbolMatches(PrefixThenUpper("c"), symbol)
  {
    assert symbol[..1] == "c";
  }

  /** Whatever else it matches, a token matching the first entry is reported as Aave. */
  lemma FirstEntryWins(m: TokenMetadata)
    requires m.name.Some? && NameMatches(Patterns[0].namePattern, m.name.value)
    ensures DetectProtocol(Some(m)).Some? && DetectProtocol(Some(m)).value.protocolKey == Aave
  {
    assert EntryMatches(Patterns[0], m);
  }

  /** Every name that begins "Aave interest" passes Aave's name test. */
  lemma AaveInterestNamesMatch(name: string)
    requires StartsWith(name, "Aave interest")
    ensures NameMatches(Patterns[0].namePattern, name)
  {
    var low := ToLower(name);
    var a := "aave interest";
    forall k | 0 <= k < 13
      ensures low[k] == a[k]
    {
      assert name[k] == name[..13][k];
    }
    assert low[0..4] == a[0..4] && low[5..13] == a[5..13] && low[4..5] == a[4..5];
    FollowedWitness("aave", AaveTails, low, 0, 5, 0);
    assert Patterns[0].namePattern == Followed("aave", AaveTails);
  }

  /** In "aave\ndebt" no Aave tail follows "aave" on the same line. */
  lemma NoAaveLine(low: string, tails: seq<string>)
    requires low == "aave\ndebt" && tails == ["interest", "variable", "stable", "debt"]
    ensures forall i, j | 0 <= i <= j <= |low| :: !FollowedAt("aave", tails, low, i, j)
  {
    forall i, j | 0 <= i <= j <= |low|
      ensures !FollowedAt("aave", tails, low, i, j)
    {
      if OccursAt("aave", low, i) {
        assert low[i..i + 4][0] == 'a' && low[i..i + 4][3] == 'e';
        assert i == 0;
        if j == 4 {
          forall k | 0 <= k < |tails|
            ensures !OccursAt(tails[k], low, j)
          {
            FirstCharMismatch(tails[k], low, j);
          }
        } else if j > 4 {
          assert low[4..j][0] == '\n';
        }
      }
    }
  }

  /** The lower-cased name, given that its characters lower-case to those of `low`. */
  lemma LowerIs(name: string, low: string)
    requires |name| == |low| && forall k :: 0 <= k < |name| ==> LowerChar(name[k]) == low[k]
    ensures ToLower(name) == low
  {
  }

  /** A line break between head and tail defeats a `head.*tail` name test: "Aave\nDebt"
      is not an Aave name, while "Aave Debt" is. */
  lemma NewlineBreaksNameTest(head: string, tail: string)
    requires head == "Aave" && tail == "Debt"
    ensures !NameMatches(Patterns[0].namePattern, head + "\n" + tail)
    ensures NameMatches(Patterns[0].namePattern, head + " " + tail)
  {
    assert Patterns[0].namePattern == Followed("aave", AaveTails);
    var broken := head + "\n" + tail;
    var low := "aave\ndebt";
    forall k | 0 <= k < 9
      ensures LowerChar(broken[k]) == low[k]
    {
      if k < 4 {
        assert broken[k] == head[k];
      } else if k > 4 {
        assert broken[k] == tail[k - 5];
      }
    }
    LowerIs(broken, low);
    NoAaveLine(low, AaveTails);
    var spaced := head + " " + tail;
    var low2 := "aave debt";
    forall k | 0 <= k < 9
      ensures LowerChar(spaced[k]) == low2[k]
    {
      if k < 4 {
        assert spaced[k] == head[k];
      } else if k > 4 {
        assert spaced[k] == tail[k - 5];
      }
    }
    LowerIs(spaced, low2);
    assert low2[0..4] == "aave" && low2[5..9] == AaveTails[3] && low2[4..5] == " ";
    FollowedWitness("aave", AaveTails, low2, 0, 5, 3);
  }

  /** Symbol tests are case-sensitive: every symbol test of the table needs a capital
      letter, so no lower-cased symbol passes any of them, while `aUSDC` passes Aave's. */
  lemma {:induction false} SymbolTestsAreCaseSensitive(symbol: string)
    ensures forall k :: 0 <= k < |Patterns| ==>
      !OptSymbolMatches(Patterns[k].tokenPrefix, Some(ToLower(symbol)))
      && !OptSymbolMatches(Patterns[k].tokenSuffix, Some(ToLower(symbol)))
    ensures SymbolMatches(PrefixThenUpper("a"), "aUSDC")
  {
    var low := ToLower(symbol);
    assert forall i :: 0 <= i < |low| ==> !IsUpper(low[i]);
    if |low| >= 3 {
      assert low[|low| - 3..][1] == low[|low| - 2];
    }
    if |low| == 2 {
      assert low[0] != 'G';
    }
  }

  /** Name tests are not: a name and its lower-cased form match the same entries. */
  lemma NameTestsIgnoreCase(t: NameTest, name: string)
    ensures NameMatches(t, name) <==> NameMatches(t, ToLower(name))
  {
    ToLowerIdempotent(name);
  }

  /** What `calculate_underlying_value` reports. */
  datatype UnderlyingValue = UnderlyingValue(protocol: string, kind: string, underlyingBalance: real, exchangeRate: real)

  function AaveUnderlying(balance: real): UnderlyingValue {
    UnderlyingValue("Aave", "lending", balance, 1.0)
  }

  function CompoundUnderlying(balance: real): UnderlyingValue {
    UnderlyingValue("Compound", "lending", balance * 1.02, 1.02)
  }

  function LpUnderlying(balance: real): UnderlyingValue {
    UnderlyingValue("LP Token", "liquidity_pool", balance, 1.0)
  }

  /** `calculate_underlying_value`, dispatching on the protocol key; Stake DAO reuses the
      Aave branch and GMX falls through to the default. */
  function UnderlyingValueOf(key: ProtocolKey, balance: real): (r: UnderlyingValue)
    ensures r.underlyingBalance == balance * r.exchangeRate
    ensures r.exchangeRate == (if key == Compound then 1.02 else 1.0)
    ensures r.protocol == "Aave" <==> key == Aave || key == StakeDao
    ensures key == Gmx ==> r.protocol == "Unknown" && r.kind == "unknown"
  {
    match key
    case Aave => AaveUnderlying(balance)
    case Compound => CompoundUnderlying(balance)
    case Curve => LpUnderlying(balance)
    case UniswapV2 => LpUnderlying(balance)
    case StakeDao => AaveUnderlying(balance)
    case Gmx => UnderlyingValue("Unknown", "unknown", balance, 1.0)
  }
}
