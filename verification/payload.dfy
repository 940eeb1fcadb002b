/** The `defi_positions` column: the protocol groups the enrichment service writes,
    and the decoded JSON value the position normalizer reads back. JSON text
    parsing is not modelled; a stored string carries the outcome of parsing it. */
module Payload {
  import opened Wrappers
  import opened Values

  /** One position as the enrichment service writes it. `contractAddress` is
      written only by the Alchemy scan. */
  datatype PositionRecord = PositionRecord(
    tokenSymbol: Option<string>,
    tokenName: Option<string>,
    balance: real,
    usdValue: real,
    protocol: Option<string>,
    chain: string,
    isDebt: bool,
    contractAddress: Option<string>)

  /** One protocol group as written: `{name:, type:, positions:}`. */
  datatype ProtocolGroup = ProtocolGroup(name: Option<string>, kind: string, positions: seq<PositionRecord>)

  /** A position object as read back: the fields the normalizer looks at. */
  datatype RawPosition = RawPosition(
    chain: Option<string>,
    tokenSymbol: Option<string>,
    tokenName: Option<string>,
    balance: Scalar,
    usdValue: Scalar,
    isDebt: Flag)

  /** A stored `is_debt`, by the only thing read from it: its truthiness. A missing
      key reads as `null`; a number, string, array or object is `FlagOther`. */
  datatype Flag = FlagNull | FlagFalse | FlagTrue | FlagOther

  /** Ruby truthiness: everything but `nil` and `false`. */
  predicate Truthy(f: Flag) {
    f == FlagTrue || f == FlagOther
  }

  /** An element of a group's `positions`: an object; a string, which answers a
      string key with the key itself when it occurs in the string and with `nil`
      otherwise; or any other JSON value, which raises when indexed by a string. */
  datatype PositionEntry = PositionObject(pos: RawPosition) | PositionText(text: string) | PositionNonObject

  /** A group's `positions` value: missing or `null`; an array; an object, which
      iterates as `[key, value]` pairs (each raises when indexed by a string), so
      only its size matters; or a string, number or boolean, which cannot be iterated. */
  datatype PositionsField =
    | PositionsAbsent
    | PositionsArray(entries: seq<PositionEntry>)
    | PositionsHash(size: nat)
    | PositionsNotIterable

  /** A group object as read back. */
  datatype RawGroup = RawGroup(
    id: Option<string>,
    name: Option<string>,
    kind: Option<string>,
    healthRate: Scalar,
    positions: PositionsField)

  /** An element of the stored array: an object, a string (indexed as above), or any
      other JSON value (which raises when indexed by a string). */
  datatype Entry = GroupObject(group: RawGroup) | GroupText(text: string) | NonObject

  /** The result of `JSON.parse` on a stored string. */
  datatype ParseOutcome =
    | ParseError
    | ParsedArray(entries: seq<Entry>)
    | ParsedObject(hash: RawGroup)
    | ParsedScalar(isNull: bool)

  /** The decoded column value, by Ruby class. */
  datatype StoredPositions =
    | NoPositions
    | JsonText(outcome: ParseOutcome)
    | JsonArray(entries: seq<Entry>)
    | JsonObject(hash: RawGroup)
    | OtherValue

  /** How a written position reads back: the same fields, numbers as JSON numbers. */
  function EncodePosition(p: PositionRecord): (r: PositionEntry)
    ensures r.PositionObject? && r.pos.chain == Some(p.chain) && Truthy(r.pos.isDebt) == p.isDebt
    ensures r.pos.balance == Number(p.balance) && r.pos.usdValue == Number(p.usdValue)
    ensures r.pos.tokenSymbol == p.tokenSymbol && r.pos.tokenName == p.tokenName
  {
    PositionObject(RawPosition(Some(p.chain), p.tokenSymbol, p.tokenName, Number(p.balance), Number(p.usdValue), if p.isDebt then FlagTrue else FlagFalse))
  }

  function EncodePositions(ps: seq<PositionRecord>): (r: seq<PositionEntry>)
    ensures |r| == |ps|
    ensures forall i :: 0 <= i < |ps| ==> r[i] == EncodePosition(ps[i])
  {
    seq(|ps|, i requires 0 <= i < |ps| => EncodePosition(ps[i]))
  }

  /** A written group reads back without an id or health rate. */
  function EncodeGroup(g: ProtocolGroup): (r: Entry)
    ensures r.GroupObject? && r.group.id.None? && r.group.healthRate.Null?
    ensures r.group.name == g.name && r.group.kind == Some(g.kind)
    ensures r.group.positions == PositionsArray(EncodePositions(g.positions))
  {
    GroupObject(RawGroup(None, g.name, Some(g.kind), Null, PositionsArray(EncodePositions(g.positions))))
  }

  /** What `serialize :defi_positions, coder: JSON` gives back for a written array. */
  function Encode(groups: seq<ProtocolGroup>): (r: StoredPositions)
    ensures r.JsonArray? && |r.entries| == |groups|
    ensures forall i :: 0 <= i < |groups| ==> r.entries[i] == EncodeGroup(groups[i])
  {
    JsonArray(seq(|groups|, i requires 0 <= i < |groups| => EncodeGroup(groups[i])))
  }
}
