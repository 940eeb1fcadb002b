/** `NormalizedPosition`: the flat position records the aggregation works on,
    read back from each active account's `defi_positions`. */
module NormalizedPositions {
  import opened Wrappers
  import opened Text
  import opened Values
  import opened Money
  import opened Payload
  import opened Accounts
  import opened Sequences

  /** The attributes the aggregation reads (icon URLs are left out). */
  datatype NormalizedPosition = NormalizedPosition(
    accountId: int,
    address: string,
    chain: Option<string>,
    protocolId: string,
    protocolName: string,
    protocolType: Option<string>,
    tokenSymbol: Option<string>,
    tokenName: Option<string>,
    balance: real,
    usdValue: real,
    isDebt: bool,
    healthRate: Option<real>)

  /** The constructor's sign rule: a debt carries a non-positive value. */
  predicate WellFormed(n: NormalizedPosition) {
    n.isDebt ==> n.usdValue <= 0.0
  }

  /** The stored value as the constructor keeps it: a positive debt value is negated,
      anything else is kept as it is. */
  function SignedValue(isDebt: bool, raw: real): (r: real)
    ensures isDebt ==> r <= 0.0 && Abs(r) == Abs(raw)
    ensures !isDebt || raw <= 0.0 ==> r == raw
  {
    if isDebt && raw > 0.0 then -raw else raw
  }

  /** Flipping is idempotent: a value that already went through the rule is kept. */
  lemma SignedValueIdempotent(isDebt: bool, raw: real)
    ensures SignedValue(isDebt, SignedValue(isDebt, raw)) == SignedValue(isDebt, raw)
  {
  }

  /** The position's chain: its own, unless that is missing or reads "unknown" in
      any letter case, in which case the account's `blockchain` (itself nullable). */
  function PositionChain(own: Option<string>, blockchain: Option<string>): (r: Option<string>)
    ensures r == own || r == blockchain
    ensures own.None? ==> r == blockchain
    ensures r.Some? && ToLower(r.value) == "unknown" ==> r == blockchain
  {
    if own.None? || ToLower(own.value) == "unknown" then blockchain else own
  }

  /** `protocol["id"] || protocol["name"] || "protocol_#{idx}"`. */
  function ProtocolId(g: RawGroup, idx: nat): (r: string)
    ensures g.id.Some? ==> r == g.id.value
    ensures g.id.None? && g.name.Some? ==> r == g.name.value
    ensures g.id.None? && g.name.None? ==> StartsWith(r, "protocol_") && r[9..] == NatToString(idx)
  {
    match g.id
    case Some(id) => id
    case None => match g.name
      case Some(n) => n
      case None => "protocol_" + NatToString(idx)
  }

  /** Two groups without an id that share a name get the same protocol id, whatever
      their positions in the array: the index is used only when the name is missing too. */
  lemma DuplicateNamesShareId(g: RawGroup, h: RawGroup, i: nat, j: nat)
    requires g.id.None? && h.id.None? && g.name.Some? && g.name == h.name
    ensures ProtocolId(g, i) == ProtocolId(h, j)
  {
  }

  /** The constructor applied to the fields of one position of group `g` (the
      `idx`-th entry) of account `a`: `to_f` on the balance, the value and the
      group's health rate, each of which raises for a boolean, array or object;
      `is_debt` counts by its truthiness. */
  function Normalize(a: Account, g: RawGroup, idx: nat, p: RawPosition): (r: Result<NormalizedPosition, Exception>)
    ensures r.Ok? <==> !p.balance.Unconvertible? && !p.usdValue.Unconvertible? && !g.healthRate.Unconvertible?
    ensures r.Ok? ==> r.value.accountId == a.id && r.value.address == a.address && WellFormed(r.value)
    ensures r.Ok? ==> Ok(r.value.balance) == ToF(p.balance) && Ok(r.value.healthRate) == SafeToF(g.healthRate)
    ensures r.Ok? ==> r.value.isDebt == Truthy(p.isDebt)
    ensures r.Ok? ==> r.value.usdValue == SignedValue(r.value.isDebt, ToF(p.usdValue).value)
    ensures r.Ok? ==> r.value.chain == PositionChain(p.chain, a.blockchain) && r.value.protocolId == ProtocolId(g, idx)
    ensures r.Ok? ==> r.value.protocolName == g.name.GetOr("Unknown Protocol") && r.value.protocolType == g.kind
    ensures r.Ok? ==> r.value.tokenSymbol == p.tokenSymbol && r.value.tokenName == p.tokenName
  {
    var balance :- ToF(p.balance);
    var raw :- ToF(p.usdValue);
    var health :- SafeToF(g.healthRate);
    var isDebt := p.isDebt == FlagTrue || p.isDebt == FlagOther;
    Ok(NormalizedPosition(
      a.id, a.address, PositionChain(p.chain, a.blockchain), ProtocolId(g, idx),
      g.name.GetOr("Unknown Protocol"), g.kind, p.tokenSymbol, p.tokenName,
      balance, SignedValue(isDebt, raw), isDebt, health))
  }

  /** `supplied?`. */
  predicate Supplied(n: NormalizedPosition) {
    !n.isDebt
  }

  /** `borrowed?`. */
  predicate Borrowed(n: NormalizedPosition) {
    n.isDebt
  }

  /** `abs_value`: for a constructed debt, the negation of its value. */
  function AbsValue(n: NormalizedPosition): (r: real)
    ensures r >= 0.0 && (r == n.usdValue || r == -n.usdValue)
    ensures WellFormed(n) && Borrowed(n) ==> r == -n.usdValue
  {
    Abs(n.usdValue)
  }

  /** `protocol_key`: the protocol id, `_`, and the chain (nothing for a nil chain). */
  function ProtocolKey(n: NormalizedPosition): string {
    n.protocolId + "_" + n.chain.GetOr("")
  }

  /** The key reads back as its parts: the protocol id, then `_`, then the chain. */
  lemma ProtocolKeyParts(n: NormalizedPosition)
    ensures |ProtocolKey(n)| == |n.protocolId| + 1 + |n.chain.GetOr("")|
    ensures StartsWith(ProtocolKey(n), n.protocolId) && ProtocolKey(n)[|n.protocolId|] == '_'
    ensures ProtocolKey(n)[|n.protocolId| + 1..] == n.chain.GetOr("")
  {
  }

  /** The key cannot tell protocols apart when chains contain `_`; when they do not,
      equal keys mean equal protocol ids and equal chains. */
  lemma ProtocolKeyInjective(id1: string, c1: string, id2: string, c2: string)
    requires forall i :: 0 <= i < |c1| ==> c1[i] != '_'
    requires forall i :: 0 <= i < |c2| ==> c2[i] != '_'
    requires id1 + "_" + c1 == id2 + "_" + c2
    ensures id1 == id2 && c1 == c2
  {
    var k := id1 + "_" + c1;
    assert k[|id1|] == '_' && k[|id2|] == '_';
    assert forall i :: 0 <= i < |c1| ==> k[|id1| + 1 + i] == c1[i];
    assert forall i :: 0 <= i < |c2| ==> k[|id2| + 1 + i] == c2[i];
    if |c1| != |c2| {
      assert false;
    } else {
      assert c1 == k[|k| - |c1|..] == c2;
      assert id1 == k[..|id1|] == id2;
    }
  }

  /** A string indexed by `key`: the key itself when it occurs in the string. */
  function TextLookup(s: string, key: string): Option<string> {
    if Contains(s, key) then Some(key) else None
  }

  /** The fields read from a string element of `positions`. A found `"balance"` or
      `"usd_value"` converts to 0.0 like a missing one, and a found `"is_debt"` is a
      truthy string. */
  function TextFields(s: string): RawPosition {
    RawPosition(
      TextLookup(s, "chain"), TextLookup(s, "token_symbol"), TextLookup(s, "token_name"),
      if Contains(s, "balance") then NumericString(0.0) else Null,
      if Contains(s, "usd_value") then NumericString(0.0) else Null,
      if Contains(s, "is_debt") then FlagOther else FlagNull)
  }

  /** The fields of an element of `positions`, or `None` for one that raises when
      indexed by a string key. */
  function EntryFields(pe: PositionEntry): Option<RawPosition> {
    match pe
    case PositionObject(p) => Some(p)
    case PositionText(s) => Some(TextFields(s))
    case PositionNonObject => None
  }

  /** `pe` is an element that the constructor accepts. */
  predicate Accepted(a: Account, g: RawGroup, idx: nat, pe: PositionEntry) {
    EntryFields(pe).Some? && Normalize(a, g, idx, EntryFields(pe).value).Ok?
  }

  /** `pe` is an element that the constructor turns into `n`. */
  predicate NormalizesTo(a: Account, g: RawGroup, idx: nat, pe: PositionEntry, n: NormalizedPosition) {
    EntryFields(pe).Some? && Normalize(a, g, idx, EntryFields(pe).value) == Ok(n)
  }

  /** A string element is a position, not an error: each key that occurs in it reads
      as the key itself, so the chain is literally `"chain"`, the balance and value are
      0.0, and it is a debt exactly when `"is_debt"` occurs in it. */
  lemma TextPositionNormalizes(a: Account, g: RawGroup, idx: nat, s: string)
    requires !g.healthRate.Unconvertible?
    ensures Accepted(a, g, idx, PositionText(s))
    ensures var n := Normalize(a, g, idx, EntryFields(PositionText(s)).value).value;
      && n.balance == 0.0 && n.usdValue == 0.0 && n.isDebt == Contains(s, "is_debt")
      && n.chain == (if Contains(s, "chain") then Some("chain") else a.blockchain)
      && n.tokenSymbol == (if Contains(s, "token_symbol") then Some("token_symbol") else None)
      && n.tokenName == (if Contains(s, "token_name") then Some("token_name") else None)
  {
  }

  /** Positions taken from an account, and whether an exception cut the account short
      (the positions appended before it stay in the result). */
  datatype Collected = Collected(positions: seq<NormalizedPosition>, failed: bool)

  /** The positions of one group, in order, up to the first entry that raises. */
  function GroupPositions(a: Account, g: RawGroup, idx: nat, ps: seq<PositionEntry>): (r: Collected)
    ensures |r.positions| <= |ps|
    ensures forall i :: 0 <= i < |r.positions| ==> NormalizesTo(a, g, idx, ps[i], r.positions[i])
    ensures !r.failed ==> |r.positions| == |ps|
    ensures r.failed ==> |r.positions| < |ps| && !Accepted(a, g, idx, ps[|r.positions|])
    decreases |ps|
  {
    if |ps| == 0 then Collected([], false)
    else
      match EntryFields(ps[0])
      case None => Collected([], true)
      case Some(p) =>
        match Normalize(a, g, idx, p)
        case Err(_) => Collected([], true)
        case Ok(n) =>
          var rest := GroupPositions(a, g, idx, ps[1..]);
          Collected([n] + rest.positions, rest.failed)
  }

  /** Every position collected from account `a` names it and keeps the sign rule. */
  predicate OwnedBy(a: Account, ns: seq<NormalizedPosition>) {
    forall i :: 0 <= i < |ns| ==> ns[i].accountId == a.id && ns[i].address == a.address && WellFormed(ns[i])
  }

  lemma GroupPositionsOwned(a: Account, g: RawGroup, idx: nat, ps: seq<PositionEntry>)
    ensures OwnedBy(a, GroupPositions(a, g, idx, ps).positions)
  {
  }

  /** `protocol["positions"]&.each` on a group object: nothing for a missing value or
      an empty object, the array's positions, and an exception for a non-empty object
      (its first pair raises when indexed) or a value without `each`. */
  function GroupYield(a: Account, g: RawGroup, idx: nat): (r: Collected)
    ensures OwnedBy(a, r.positions)
  {
    match g.positions
    case PositionsAbsent => Collected([], false)
    case PositionsArray(ps) =>
      GroupPositionsOwned(a, g, idx, ps);
      GroupPositions(a, g, idx, ps)
    case PositionsHash(size) => Collected([], size > 0)
    case PositionsNotIterable => Collected([], true)
  }

  /** One element of the stored array, at index `idx`: a group object's positions; a
      string, skipped unless `"positions"` occurs in it (then iterating the string
      `"positions"` raises); and any other value raises. */
  function EntryYield(a: Account, e: Entry, idx: nat): (r: Collected)
    ensures OwnedBy(a, r.positions)
  {
    match e
    case GroupObject(g) => GroupYield(a, g, idx)
    case GroupText(s) => Collected([], Contains(s, "positions"))
    case NonObject => Collected([], true)
  }

  /** The groups `entries` (the first at index `base`), in order, up to the first
      exception. */
  function EntriesPositions(a: Account, entries: seq<Entry>, base: nat): (r: Collected)
    ensures OwnedBy(a, r.positions)
    decreases |entries|
  {
    if |entries| == 0 then Collected([], false)
    else
      var head := EntryYield(a, entries[0], base);
      if head.failed then head
      else
        var rest := EntriesPositions(a, entries[1..], base + 1);
        Collected(head.positions + rest.positions, rest.failed)
  }

  /** Each element's own yield, the `i`-th at index `base + i`. */
  function Yields(a: Account, entries: seq<Entry>, base: nat): (r: seq<Collected>)
    ensures |r| == |entries|
    ensures forall i :: 0 <= i < |entries| ==> r[i] == EntryYield(a, entries[i], base + i)
  {
    seq(|entries|, i requires 0 <= i < |entries| => EntryYield(a, entries[i], base + i))
  }

  function PositionLists(ys: seq<Collected>): (r: seq<seq<NormalizedPosition>>)
    ensures |r| == |ys|
    ensures forall i :: 0 <= i < |ys| ==> r[i] == ys[i].positions
  {
    seq(|ys|, i requires 0 <= i < |ys| => ys[i].positions)
  }

  /** The yields `ys` taken in order, stopping at the first that raises. */
  function Chained(ys: seq<Collected>): Collected
    decreases |ys|
  {
    if |ys| == 0 then Collected([], false)
    else if ys[0].failed then ys[0]
    else Collected(ys[0].positions + Chained(ys[1..]).positions, Chained(ys[1..]).failed)
  }

  /** `EntriesPositions` is its elements' yields taken in order. */
  lemma {:induction false} EntriesPositionsChained(a: Account, entries: seq<Entry>, base: nat)
    ensures EntriesPositions(a, entries, base) == Chained(Yields(a, entries, base))
    decreases |entries|
  {
    if |entries| > 0 {
      EntriesPositionsChained(a, entries[1..], base + 1);
      assert Yields(a, entries, base)[1..] == Yields(a, entries[1..], base + 1);
    }
  }

  lemma {:induction false} ChainedAll(ys: seq<Collected>)
    requires forall i :: 0 <= i < |ys| ==> !ys[i].failed
    ensures Chained(ys) == Collected(Flatten(PositionLists(ys)), false)
    decreases |ys|
  {
    if |ys| > 0 {
      ChainedAll(ys[1..]);
      assert PositionLists(ys)[1..] == PositionLists(ys[1..]);
    }
  }

  lemma {:induction false} ChainedStop(ys: seq<Collected>, k: nat)
    requires k < |ys| && ys[k].failed
    requires forall i :: 0 <= i < k ==> !ys[i].failed
    ensures Chained(ys) == Collected(Flatten(PositionLists(ys[..k])) + ys[k].positions, true)
    decreases k
  {
    if k == 0 {
      assert PositionLists(ys[..0]) == [];
      assert ys[0].positions == [] + ys[0].positions;
    } else {
      ChainedStop(ys[1..], k - 1);
      assert ys[1..][..k - 1] == ys[..k][1..];
      assert PositionLists(ys[..k])[1..] == PositionLists(ys[1..][..k - 1]);
      assert Flatten(PositionLists(ys[..k])) == ys[0].positions + Flatten(PositionLists(ys[1..][..k - 1]));
    }
  }

  /** When no element raises, an account's positions are those of every element, in order. */
  lemma EntriesPositionsAll(a: Account, entries: seq<Entry>, base: nat)
    requires forall i :: 0 <= i < |entries| ==> !EntryYield(a, entries[i], base + i).failed
    ensures EntriesPositions(a, entries, base) == Collected(Flatten(PositionLists(Yields(a, entries, base))), false)
  {
    EntriesPositionsChained(a, entries, base);
    ChainedAll(Yields(a, entries, base));
  }

  /** When element `k` is the first to raise, the positions of the elements before it
      stay, followed by those element `k` collected before raising. */
  lemma EntriesPositionsStop(a: Account, entries: seq<Entry>, base: nat, k: nat)
    requires k < |entries| && EntryYield(a, entries[k], base + k).failed
    requires forall i :: 0 <= i < k ==> !EntryYield(a, entries[i], base + i).failed
    ensures EntriesPositions(a, entries, base)
      == Collected(Flatten(PositionLists(Yields(a, entries[..k], base))) + EntryYield(a, entries[k], base + k).positions, true)
  {
    var ys := Yields(a, entries, base);
    EntriesPositionsChained(a, entries, base);
    ChainedStop(ys, k);
    assert ys[..k] == Yields(a, entries[..k], base);
  }

  /** A string element of the stored array raises only when `"positions"` occurs in
      it; otherwise the account goes on with the next group. */
  lemma TextGroupSkipped(a: Account, s: string, rest: seq<Entry>, base: nat)
    ensures Contains(s, "positions") ==> EntriesPositions(a, [GroupText(s)] + rest, base) == Collected([], true)
    ensures !Contains(s, "positions") ==> EntriesPositions(a, [GroupText(s)] + rest, base) == EntriesPositions(a, rest, base + 1)
  {
  }

  /** What `parse_defi_positions` hands back: a list to iterate, or the unwrapped result
      of parsing a string that does not hold an array. */
  datatype Decoded = Listed(entries: seq<Entry>) | Unwrapped

  /** `parse_defi_positions`: nil, bad JSON and unexpected classes give []; an array
      is used as is; a single object is wrapped; a string's parse is returned unwrapped. */
  function ParseDefiPositions(stored: StoredPositions): (r: Decoded)
    ensures r.Unwrapped? <==> stored.JsonText? && (stored.outcome.ParsedObject? || stored.outcome.ParsedScalar?)
    ensures stored.JsonArray? ==> r == Listed(stored.entries)
    ensures stored.JsonObject? ==> r == Listed([GroupObject(stored.hash)])
    ensures stored.JsonText? && stored.outcome.ParsedArray? ==> r == Listed(stored.outcome.entries)
    ensures stored.NoPositions? || stored.OtherValue? || stored == JsonText(ParseError) ==> r == Listed([])
  {
    match stored
    case NoPositions => Listed([])
    case JsonArray(es) => Listed(es)
    case JsonObject(g) => Listed([GroupObject(g)])
    case OtherValue => Listed([])
    case JsonText(outcome) =>
      match outcome
      case ParseError => Listed([])
      case ParsedArray(es) => Listed(es)
      case _ => Unwrapped
  }

  /** One account's positions. An unwrapped parse result yields nothing: `nil` and an
      empty object are skipped, and iterating anything else raises at once. */
  function AccountPositions(a: Account): (r: seq<NormalizedPosition>)
    ensures OwnedBy(a, r)
    ensures ParseDefiPositions(a.defiPositions).Unwrapped? ==> r == []
  {
    match ParseDefiPositions(a.defiPositions)
    case Unwrapped => []
    case Listed(es) => EntriesPositions(a, es, 0).positions
  }

  /** A JSON string holding one group object yields nothing, while the same object
      stored as a hash yields its positions. */
  lemma TextObjectIsDropped(a: Account, g: RawGroup)
    ensures AccountPositions(a.(defiPositions := JsonText(ParsedObject(g)))) == []
    ensures AccountPositions(a.(defiPositions := JsonObject(g))) == GroupYield(a.(defiPositions := JsonObject(g)), g, 0).positions
  {
    var b := a.(defiPositions := JsonObject(g));
    var es := [GroupObject(g)];
    assert es[1..] == [];
    var head := GroupYield(b, g, 0);
    assert EntriesPositions(b, es[1..], 1) == Collected([], false);
    assert head.positions + [] == head.positions;
  }

  predicate IsActive(a: Account) {
    a.status == "active"
  }

  /** `all_for_user`: the positions of the user's active accounts, account by account. */
  function AllForUser(accounts: seq<Account>): (r: seq<NormalizedPosition>)
    decreases |accounts|
  {
    if |accounts| == 0 then []
    else (if IsActive(accounts[0]) then AccountPositions(accounts[0]) else []) + AllForUser(accounts[1..])
  }

  /** Some active account in `accounts` has id `id`. */
  predicate FromActive(accounts: seq<Account>, id: int) {
    exists j :: 0 <= j < |accounts| && IsActive(accounts[j]) && accounts[j].id == id
  }

  /** Every aggregated position comes from an active account and keeps the sign rule. */
  lemma {:induction false} AllForUserFromActive(accounts: seq<Account>)
    ensures forall i :: 0 <= i < |AllForUser(accounts)| ==> WellFormed(AllForUser(accounts)[i])
    ensures forall i :: 0 <= i < |AllForUser(accounts)| ==> FromActive(accounts, AllForUser(accounts)[i].accountId)
    decreases |accounts|
  {
    if |accounts| > 0 {
      AllForUserFromActive(accounts[1..]);
      var head := if IsActive(accounts[0]) then AccountPositions(accounts[0]) else [];
      var rest := AllForUser(accounts[1..]);
      var all := AllForUser(accounts);
      assert all == head + rest;
      forall i | 0 <= i < |all|
        ensures WellFormed(all[i]) && FromActive(accounts, all[i].accountId)
      {
        if i < |head| {
          assert all[i] == head[i];
          assert IsActive(accounts[0]) && head == AccountPositions(accounts[0]);
          assert accounts[0].id == all[i].accountId;
        } else {
          var n := all[i];
          assert n == rest[i - |head|];
          assert FromActive(accounts[1..], n.accountId);
          var j :| 0 <= j < |accounts[1..]| && IsActive(accounts[1..][j]) && accounts[1..][j].id == n.accountId;
          assert accounts[j + 1] == accounts[1..][j];
        }
      }
    }
  }

  /** What a written position should read back as: an independent statement of the
      chain, protocol-id, name and sign rules for enrichment output. */
  function FromRecord(a: Account, g: ProtocolGroup, idx: nat, p: PositionRecord): (r: NormalizedPosition)
    ensures WellFormed(r) && r.healthRate.None? && r.isDebt == p.isDebt
  {
    NormalizedPosition(
      a.id, a.address,
      if ToLower(p.chain) == "unknown" then a.blockchain else Some(p.chain),
      if g.name.Some? then g.name.value else "protocol_" + NatToString(idx),
      if g.name.Some? then g.name.value else "Unknown Protocol",
      Some(g.kind), p.tokenSymbol, p.tokenName, p.balance,
      if p.isDebt && p.usdValue > 0.0 then -p.usdValue else p.usdValue,
      p.isDebt, None)
  }

  function GroupRecords(a: Account, g: ProtocolGroup, idx: nat): (r: seq<NormalizedPosition>)
    ensures |r| == |g.positions|
    ensures forall i :: 0 <= i < |r| ==> r[i] == FromRecord(a, g, idx, g.positions[i])
  {
    seq(|g.positions|, i requires 0 <= i < |g.positions| => FromRecord(a, g, idx, g.positions[i]))
  }

  /** The positions written groups should yield, group after group. */
  function WrittenPositions(a: Account, groups: seq<ProtocolGroup>, base: nat): seq<NormalizedPosition>
    decreases |groups|
  {
    if |groups| == 0 then [] else GroupRecords(a, groups[0], base) + WrittenPositions(a, groups[1..], base + 1)
  }

  /** One written position reads back as its record. */
  lemma WrittenPositionReadsBack(a: Account, g: ProtocolGroup, idx: nat, p: PositionRecord)
    ensures NormalizesTo(a, EncodeGroup(g).group, idx, EncodePosition(p), FromRecord(a, g, idx, p))
  {
  }

  /** Reading back one written group: nothing raises, one position per written one. */
  lemma WrittenGroupReadsBack(a: Account, g: ProtocolGroup, idx: nat)
    ensures GroupPositions(a, EncodeGroup(g).group, idx, EncodePositions(g.positions)) == Collected(GroupRecords(a, g, idx), false)
  {
    var raw := EncodeGroup(g).group;
    var ps := EncodePositions(g.positions);
    var r := GroupPositions(a, raw, idx, ps);
    forall i | 0 <= i < |ps|
      ensures NormalizesTo(a, raw, idx, ps[i], FromRecord(a, g, idx, g.positions[i]))
    {
      WrittenPositionReadsBack(a, g, idx, g.positions[i]);
    }
    assert !r.failed;
    assert r.positions == GroupRecords(a, g, idx);
  }

  /** Reading back written groups, the first at index `base`. */
  lemma {:induction false} WrittenEntriesReadBack(a: Account, groups: seq<ProtocolGroup>, base: nat)
    ensures EntriesPositions(a, Encode(groups).entries, base) == Collected(WrittenPositions(a, groups, base), false)
    decreases |groups|
  {
    var es := Encode(groups).entries;
    if |groups| > 0 {
      WrittenEntriesReadBack(a, groups[1..], base + 1);
      assert es[1..] == Encode(groups[1..]).entries;
      WrittenGroupReadsBack(a, groups[0], base);
    }
  }

  /** The round trip through `defi_positions`: an account holding what the enrichment
      service wrote yields exactly the positions it wrote, with names as protocol
      ids, the sign rule applied and no health rate. */
  lemma WrittenPayloadReadsBack(a: Account, groups: seq<ProtocolGroup>)
    requires a.defiPositions == Encode(groups)
    ensures AccountPositions(a) == WrittenPositions(a, groups, 0)
  {
    WrittenEntriesReadBack(a, groups, 0);
  }
}
