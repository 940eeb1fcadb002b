/** `detect_blockchain_type`: an address string is classified by an ordered
    list of format tests; the first that matches wins and anything else
    defaults to Ethereum. Ruby's `^`/`$` are read as whole-string anchors. */
module AddressClassifier {
  import opened Text

  datatype Classification = Classification(blockchain: string, accountType: string)

  const Ethereum := Classification("ethereum", "Ethereum & EVM EOA")
  const Solana := Classification("solana", "Solana & SVM")
  const Binance := Classification("binance", "Binance Chain")
  const Cosmos := Classification("cosmos", "Cosmos")

  /** `/^0x[a-fA-F0-9]{40}$/` */
  predicate IsEvmAddress(s: string) {
    |s| == 42 && s[0] == '0' && s[1] == 'x' && forall i :: 2 <= i < |s| ==> IsHexDigit(s[i])
  }

  /** `/^[1-9A-HJ-NP-Za-km-z]{32,44}$/` */
  predicate IsSolanaAddress(s: string) {
    32 <= |s| <= 44 && forall i :: 0 <= i < |s| ==> IsBase58Char(s[i])
  }

  /** `/^bnb1[a-z0-9]{38}$/` */
  predicate IsBinanceAddress(s: string) {
    |s| == 42 && StartsWith(s, "bnb1") && forall i :: 4 <= i < |s| ==> IsLowerAlnum(s[i])
  }

  /** `/^cosmos1[a-z0-9]{38}$/` */
  predicate IsCosmosAddress(s: string) {
    |s| == 45 && StartsWith(s, "cosmos1") && forall i :: 7 <= i < |s| ==> IsLowerAlnum(s[i])
  }

  /** The `case` of `detect_blockchain_type`, in source order. */
  function Classify(address: string): (r: Classification)
    ensures r in {Ethereum, Solana, Binance, Cosmos}
    ensures IsEvmAddress(address) ==> r == Ethereum
    // the first two tests are disjoint, so Solana is reported exactly for base58 strings
    ensures r == Solana <==> IsSolanaAddress(address)
    // cosmos1 addresses have 45 characters, too long for every earlier test
    ensures r == Cosmos <==> IsCosmosAddress(address)
    // the default branch coincides with the EVM label
    ensures r == Ethereum <==>
      IsEvmAddress(address)
      || (!IsSolanaAddress(address) && !IsBinanceAddress(address) && !IsCosmosAddress(address))
  {
    if IsEvmAddress(address) then
      EvmIsNotSolana(address);
      Ethereum
    else if IsSolanaAddress(address) then Solana
    else if IsBinanceAddress(address) then Binance
    else if IsCosmosAddress(address) then Cosmos
    else Ethereum
  }

  /** An EVM address contains the character `0`, which base58 excludes. */
  lemma EvmIsNotSolana(s: string)
    requires IsEvmAddress(s)
    ensures !IsSolanaAddress(s)
  {
    assert !IsBase58Char(s[0]);
  }

  /** A `bnb1` address is reported as Binance exactly when it contains one of
      `0` or `l`; otherwise the earlier base58 test claims it as Solana. */
  lemma ClassifiedBinanceIff(address: string)
    ensures Classify(address) == Binance <==>
      IsBinanceAddress(address) && exists i :: 0 <= i < |address| && (address[i] == '0' || address[i] == 'l')
  {
    if IsBinanceAddress(address) {
      assert address[..4] == "bnb1";
      assert !IsEvmAddress(address) by { assert address[0] == 'b'; }
      if exists i :: 0 <= i < |address| && (address[i] == '0' || address[i] == 'l') {
        var i :| 0 <= i < |address| && (address[i] == '0' || address[i] == 'l');
        assert !IsBase58Char(address[i]);
      } else {
        forall i | 0 <= i < |address|
          ensures IsBase58Char(address[i])
        {
          if i < 4 {
            assert address[i] == "bnb1"[i];
          }
        }
      }
    }
  }

  /** A `bnb1` address without `0` or `l` is classified as Solana. */
  lemma BinanceShadowedBySolana(address: string)
    requires IsBinanceAddress(address)
    requires forall i :: 0 <= i < |address| ==> address[i] != '0' && address[i] != 'l'
    ensures Classify(address).blockchain == "solana"
  {
    ClassifiedBinanceIff(address);
  }
}
