/** `Blockchain::AlchemyClient`: the chain whitelist of the constructor and the
    decoding of JSON-RPC answers. Each answer is an input (`None` when
    `make_request` gives nil). */
module AlchemyClient {
  import opened Wrappers
  import opened Text
  import opened Values
  import opened Sequences

  /** The keys of `CHAIN_ENDPOINTS`. */
  const SupportedChains: set<string> := {"ethereum", "base", "arbitrum", "optimism", "polygon"}

  datatype Client = Client(chain: string)

  /** `AlchemyClient.new(chain:)`: an unknown chain raises a `RuntimeError`. */
  function NewClient(chain: string): (r: Result<Client, Exception>)
    ensures r.Ok? <==> chain in SupportedChains
    ensures r.Ok? ==> r.value.chain == chain
    ensures r.Err? ==> r.error.className == "RuntimeError" && r.error.message == "Unsupported chain: " + chain
  {
    if chain in SupportedChains then Ok(Client(chain))
    else Err(Exception("RuntimeError", "Unsupported chain: " + chain))
  }

  /** Value of one hexadecimal digit. */
  function HexDigitValue(c: char): (r: nat)
    requires IsHexDigit(c)
    ensures r < 16
  {
    if '0' <= c <= '9' then c as int - '0' as int
    else if 'a' <= c <= 'f' then c as int - 'a' as int + 10
    else c as int - 'A' as int + 10
  }

  /** The longest prefix of hexadecimal digits. */
  function HexDigitsPrefix(s: string): (r: string)
    ensures |r| <= |s| && r == s[..|r|]
    ensures forall i :: 0 <= i < |r| ==> IsHexDigit(r[i])
    ensures |r| < |s| ==> !IsHexDigit(s[|r|])
  {
    if |s| == 0 || !IsHexDigit(s[0]) then ""
    else [s[0]] + HexDigitsPrefix(s[1..])
  }

  /** Value of a string of hexadecimal digits, most significant first. */
  function HexValue(digits: string): nat
    requires forall i :: 0 <= i < |digits| ==> IsHexDigit(digits[i])
    decreases |digits|
  {
    if |digits| == 0 then 0
    else HexValue(digits[..|digits| - 1]) * 16 + HexDigitValue(digits[|digits| - 1])
  }

  /** `String#to_i(16)`: an optional `0x`/`0X`, then as many hex digits as there are;
      no digits reads as 0. */
  function ParseHex(s: string): nat {
    var body := if |s| >= 2 && s[0] == '0' && (s[1] == 'x' || s[1] == 'X') then s[2..] else s;
    HexValue(HexDigitsPrefix(body))
  }

  function HexChar(d: nat): (c: char)
    requires d < 16
    ensures IsHexDigit(c) && HexDigitValue(c) == d
  {
    if d < 10 then ('0' as int + d) as char else ('a' as int + d - 10) as char
  }

  /** Lower-case hexadecimal rendering without prefix, as JSON-RPC quantities are written. */
  function ToHex(n: nat): (r: string)
    ensures |r| >= 1
    ensures forall i :: 0 <= i < |r| ==> IsHexDigit(r[i])
    decreases n
  {
    if n < 16 then [HexChar(n)] else ToHex(n / 16) + [HexChar(n % 16)]
  }

  lemma {:induction false} HexValueOfToHex(n: nat)
    ensures HexValue(ToHex(n)) == n
    decreases n
  {
    var r := ToHex(n);
    if n >= 16 {
      HexValueOfToHex(n / 16);
      assert r[..|r| - 1] == ToHex(n / 16);
    }
  }

  /** Decoding inverts encoding: `("0x" + ToHex(n)).to_i(16) == n`. */
  lemma ParseHexRoundTrip(n: nat)
    ensures ParseHex("0x" + ToHex(n)) == n
  {
    var s := "0x" + ToHex(n);
    assert s[2..] == ToHex(n);
    HexPrefixOfDigits(ToHex(n));
    HexValueOfToHex(n);
  }

  /** A string made only of hex digits is its own longest hex prefix. */
  lemma {:induction false} HexPrefixOfDigits(s: string)
    requires forall i :: 0 <= i < |s| ==> IsHexDigit(s[i])
    ensures HexDigitsPrefix(s) == s
    decreases |s|
  {
    if |s| > 0 {
      HexPrefixOfDigits(s[1..]);
    }
  }

  /** `eth_getBalance`'s answer: the `result` quantity, if any. */
  datatype BalanceReply = BalanceReply(result: Option<string>)

  const WeiPerEther: real := 1000000000000000000.0

  /** `get_balance`: nil for no answer; otherwise the balance in ether. A missing
      `result` raises, since `nil.to_i` takes no base argument. */
  function GetBalance(reply: Option<BalanceReply>): (r: Result<Option<real>, Exception>)
    ensures reply.None? ==> r == Ok(None)
    ensures r.Err? <==> reply.Some? && reply.value.result.None?
    ensures r.Err? ==> r.error.className == "ArgumentError"
    ensures r.Ok? && reply.Some? ==> r.value.Some? && r.value.value >= 0.0
    ensures r.Ok? && reply.Some? ==> r.value.value * WeiPerEther == ParseHex(reply.value.result.value) as real
  {
    match reply
    case None => Ok(None)
    case Some(b) =>
      match b.result
      case None => Err(Exception("ArgumentError", "wrong number of arguments (given 1, expected 0)"))
      case Some(h) => Ok(Some(ParseHex(h) as real / WeiPerEther))
  }

  /** One entry of `tokenBalances`. */
  datatype TokenBalance = TokenBalance(contractAddress: string, tokenBalance: Option<string>)

  /** The test of `get_token_balances`'s `select`. */
  predicate KeepBalance(t: TokenBalance) {
    t.tokenBalance.Some? && t.tokenBalance.value != "0x0" && ParseHex(t.tokenBalance.value) > 0
  }

  /** A balance is present and decodes to a positive amount. */
  predicate PositiveBalance(t: TokenBalance) {
    t.tokenBalance.Some? && ParseHex(t.tokenBalance.value) > 0
  }

  /** The `!= "0x0"` test is redundant: `"0x0"` decodes to 0. */
  lemma ZeroLiteralTestRedundant(t: TokenBalance)
    ensures KeepBalance(t) <==> PositiveBalance(t)
  {
    if t.tokenBalance == Some("0x0") {
      var s := t.tokenBalance.value;
      assert s[2..] == "0";
      assert HexDigitsPrefix("0") == "0";
      assert HexValue("0") == 0;
    }
  }

  lemma PositiveBalancesKept(entries: seq<TokenBalance>)
    ensures forall i :: 0 <= i < |entries| ==> (KeepBalance(entries[i]) <==> PositiveBalance(entries[i]))
  {
    forall i | 0 <= i < |entries|
      ensures KeepBalance(entries[i]) <==> PositiveBalance(entries[i])
    {
      ZeroLiteralTestRedundant(entries[i]);
    }
  }

  /** `response.dig("result", "tokenBalances") || []`, and [] for no answer. */
  function BalanceList(reply: Option<Option<seq<TokenBalance>>>): seq<TokenBalance> {
    if reply.Some? && reply.value.Some? then reply.value.value else []
  }

  /** `get_token_balances`: the listed entries with a positive balance, in their
      original order. */
  function GetTokenBalances(reply: Option<Option<seq<TokenBalance>>>): (r: seq<TokenBalance>)
    ensures reply.None? || reply.value.None? ==> r == []
    ensures forall i :: 0 <= i < |r| ==> PositiveBalance(r[i]) && r[i] in BalanceList(reply)
    ensures forall i :: 0 <= i < |BalanceList(reply)| && PositiveBalance(BalanceList(reply)[i]) ==> BalanceList(reply)[i] in r
    ensures SubsequenceOf(r, BalanceList(reply))
  {
    var entries := BalanceList(reply);
    PositiveBalancesKept(entries);
    Filter(entries, KeepBalance)
  }

  /** Token metadata as `get_token_metadata` returns it. */
  datatype TokenMetadata = TokenMetadata(
    name: Option<string>, symbol: Option<string>, decimals: Option<nat>, logo: Option<string>)

  /** `get_token_metadata`: nil for no answer; a missing `result` raises
      `NoMethodError`; otherwise the four fields, copied. */
  function GetTokenMetadata(reply: Option<Option<TokenMetadata>>): (r: Result<Option<TokenMetadata>, Exception>)
    ensures reply.None? ==> r == Ok(None)
    ensures r.Err? <==> reply.Some? && reply.value.None?
    ensures r.Err? ==> r.error.className == "NoMethodError"
    ensures r.Ok? && reply.Some? ==> r.value == Some(reply.value.value)
  {
    match reply
    case None => Ok(None)
    case Some(None) => Err(Exception("NoMethodError", "undefined method '[]' for nil"))
    case Some(Some(m)) => Ok(Some(TokenMetadata(m.name, m.symbol, m.decimals, m.logo)))
  }

  /** `resolve_ens`: not implemented, always nil. */
  function ResolveEns(address: string): (r: Option<string>)
    ensures r.None?
  {
    None
  }
}
