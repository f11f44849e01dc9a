/**
 * The old app's token catalogue: the built-in coin templates, lookup of a
 * template by ticker, and creation of a vault's coin by cloning a template.
 */
module TokensStore {
  import opened Wrappers

  datatype Chain = Bitcoin | BitcoinCash | Litecoin | Dogecoin | THORChain | Ethereum | Solana
                 | Avalanche | BscChain | GaiaChain | Ton

  datatype ChainType = UTXO | THORChain | EVM | Solana | Cosmos | Ton

  /** The fields of a catalogue entry (`priceRate` is a Swift `Double`, here a real). */
  datatype CoinInfo = CoinInfo(
    chain: Chain, ticker: string, logo: string, address: string, priceRate: real,
    chainType: ChainType, decimals: string, hexPublicKey: string, feeUnit: string,
    priceProviderId: string, contractAddress: string, rawBalance: string,
    isNativeToken: bool, feeDefault: string)

  // The built-in templates, one constant per catalogue line.
  const BtcTemplate := CoinInfo(Chain.Bitcoin, "BTC", "btc", "", 0.0, ChainType.UTXO, "8", "", "Sats/vbyte", "bitcoin", "", "0", true, "20")
  const BchTemplate := CoinInfo(Chain.BitcoinCash, "BCH", "bch", "", 0.0, ChainType.UTXO, "8", "", "Sats/vbyte", "bitcoin-cash", "", "0", false, "20")
  const LtcTemplate := CoinInfo(Chain.Litecoin, "LTC", "ltc", "", 0.0, ChainType.UTXO, "8", "", "Lits/vbyte", "litecoin", "", "0", true, "1000")
  const DogeTemplate := CoinInfo(Chain.Dogecoin, "DOGE", "doge", "", 0.0, ChainType.UTXO, "8", "", "Doges/vbyte", "dogecoin", "", "0", true, "1000000")
  const RuneTemplate := CoinInfo(Chain.THORChain, "RUNE", "rune", "", 0.0, ChainType.THORChain, "8", "", "Rune", "thorchain", "", "0", true, "0.02")
  const EthTemplate := CoinInfo(Chain.Ethereum, "ETH", "eth", "", 0.0, ChainType.EVM, "18", "", "Gwei", "ethereum", "", "0", true, "21000")
  const EthereumUsdcTemplate := CoinInfo(Chain.Ethereum, "USDC", "usdc", "", 1.0, ChainType.EVM, "6", "", "Gwei", "usd-coin", "0xA0b86991c6218b36c1d19D4a2e9Eb0cE3606eB48", "0", false, "120000")
  const EthereumUsdtTemplate := CoinInfo(Chain.Ethereum, "USDT", "usdt", "", 1.0, ChainType.EVM, "6", "", "Gwei", "tether", "0xdac17f958d2ee523a2206206994597c13d831ec7", "0", false, "120000")
  const EthereumUniTemplate := CoinInfo(Chain.Ethereum, "UNI", "uni", "", 0.0, ChainType.EVM, "18", "", "Gwei", "uniswap", "0x1f9840a85d5af5bf1d1762f925bdaddc4201f984", "0", false, "120000")
  const EthereumMaticTemplate := CoinInfo(Chain.Ethereum, "MATIC", "matic", "", 0.0, ChainType.EVM, "18", "", "Gwei", "polygon", "0x7d1afa7b718fb893db30a3abc0cfc608aacfebb0", "0", false, "120000")
  const EthereumWbtcTemplate := CoinInfo(Chain.Ethereum, "WBTC", "wbtc", "", 0.0, ChainType.EVM, "8", "", "Gwei", "wrapped-bitcoin", "0x2260fac5e5542a773aa44fbcfedf7c193bc2c599", "0", false, "120000")
  const EthereumLinkTemplate := CoinInfo(Chain.Ethereum, "LINK", "link", "", 0.0, ChainType.EVM, "18", "", "Gwei", "chainlink", "0x514910771af9ca656af840dff83e8264ecf986ca", "0", false, "120000")
  const EthereumFlipTemplate := CoinInfo(Chain.Ethereum, "FLIP", "flip", "", 0.0, ChainType.EVM, "18", "", "Gwei", "chainflip", "0x826180541412d574cf1336d22c0c0a287822678a", "0", false, "120000")
  const SolTemplate := CoinInfo(Chain.Solana, "SOL", "solana", "", 0.0, ChainType.Solana, "9", "", "Lamports", "solana", "", "0", true, "7000")
  const AvaxTemplate := CoinInfo(Chain.Avalanche, "AVAX", "avax", "", 0.0, ChainType.EVM, "18", "", "Gwei", "avalanche-2", "", "0", true, "21000")
  const AvalancheUsdcTemplate := CoinInfo(Chain.Avalanche, "USDC", "usdc", "", 0.0, ChainType.EVM, "6", "", "Gwei", "usd-coin", "0xb97ef9ef8734c71904d8002f8b6bc66dd9c48a6e", "0", false, "21000")
  const BnbTemplate := CoinInfo(Chain.BscChain, "BNB", "bsc", "", 0.0, ChainType.EVM, "18", "", "Gwei", "binancecoin", "", "0", true, "21000")
  const BscUsdtTemplate := CoinInfo(Chain.BscChain, "USDT", "usdt", "", 0.0, ChainType.EVM, "18", "", "Gwei", "tether", "0x55d398326f99059fF775485246999027B3197955", "0", false, "120000")
  const AtomTemplate := CoinInfo(Chain.GaiaChain, "ATOM", "atom", "", 0.0, ChainType.Cosmos, "6", "", "uatom", "cosmos", "", "0", true, "200000")
  const TonTemplate := CoinInfo(Chain.Ton, "TON", "ton", "", 0.0, ChainType.Ton, "9", "", "nanoton", "ton", "", "0", true, "50000000")

  /** `TokenSelectionAssets`: the built-in templates, in catalogue order. */
  function TokenSelectionAssets(): (assets: seq<CoinInfo>)
    ensures |assets| == 20
  {
    [ BtcTemplate, BchTemplate, LtcTemplate, DogeTemplate, RuneTemplate,
      EthTemplate, EthereumUsdcTemplate, EthereumUsdtTemplate, EthereumUniTemplate, EthereumMaticTemplate,
      EthereumWbtcTemplate, EthereumLinkTemplate, EthereumFlipTemplate, SolTemplate, AvaxTemplate,
      AvalancheUsdcTemplate, BnbTemplate, BscUsdtTemplate, AtomTemplate, TonTemplate ]
  }

  /** The first entry of `assets` with the ticker, or nothing when no entry has it. */
  function FirstWithTicker(assets: seq<CoinInfo>, ticker: string): (r: Option<CoinInfo>)
    ensures r.None? <==> forall i :: 0 <= i < |assets| ==> assets[i].ticker != ticker
    ensures r.Some? ==> exists i :: 0 <= i < |assets| && assets[i] == r.value && r.value.ticker == ticker
                                    && forall j :: 0 <= j < i ==> assets[j].ticker != ticker
  {
    if assets == [] then None
    else if assets[0].ticker == ticker then Some(assets[0])
    else
      var r := FirstWithTicker(assets[1..], ticker);
      assert r.Some? ==> exists i :: 1 <= i < |assets| && assets[i] == r.value && r.value.ticker == ticker
                                    && forall j :: 0 <= j < i ==> assets[j].ticker != ticker by {
        if r.Some? {
          var i :| 0 <= i < |assets[1..]| && assets[1..][i] == r.value && r.value.ticker == ticker
                   && forall j :: 0 <= j < i ==> assets[1..][j].ticker != ticker;
          assert assets[i + 1] == r.value;
          assert forall j :: 0 <= j < i + 1 ==> assets[j].ticker != ticker by {
            forall j | 0 <= j < i + 1 ensures assets[j].ticker != ticker {
              if j > 0 { assert assets[j] == assets[1..][j - 1]; }
            }
          }
        }
      }
      r
  }

  /** The first match is the only possible answer: an entry with the ticker and no match before it is what the lookup returns. */
  lemma FirstWithTickerIsEarliest(assets: seq<CoinInfo>, ticker: string, k: nat)
    requires k < |assets| && assets[k].ticker == ticker
    requires forall j :: 0 <= j < k ==> assets[j].ticker != ticker
    ensures FirstWithTicker(assets, ticker) == Some(assets[k])
  {
    var r := FirstWithTicker(assets, ticker);
    var i :| 0 <= i < |assets| && assets[i] == r.value && r.value.ticker == ticker
             && forall j :: 0 <= j < i ==> assets[j].ticker != ticker;
    assert i == k;
  }

  /** `getCoin`: the first template with the ticker, or nothing. */
  function GetCoin(ticker: string): (r: Option<CoinInfo>)
    ensures r.None? <==> forall i :: 0 <= i < |TokenSelectionAssets()| ==> TokenSelectionAssets()[i].ticker != ticker
    ensures r.Some? ==> r.value.ticker == ticker
  {
    FirstWithTicker(TokenSelectionAssets(), ticker)
  }

  /** `USDC` appears twice; the lookup gives the earlier, Ethereum entry, not the Avalanche one. */
  lemma UsdcResolvesToEthereum()
    ensures GetCoin("USDC") == Some(EthereumUsdcTemplate)
    ensures EthereumUsdcTemplate.chain == Chain.Ethereum
    ensures TokenSelectionAssets()[15] == AvalancheUsdcTemplate
    ensures AvalancheUsdcTemplate.ticker == "USDC" && AvalancheUsdcTemplate.chain == Chain.Avalanche
  {
    UsdcIsSeventh();
    FirstWithTickerIsEarliest(TokenSelectionAssets(), "USDC", 6);
  }

  // The Ethereum USDC template is the seventh entry, and no earlier entry is USDC.
  lemma UsdcIsSeventh()
    ensures TokenSelectionAssets()[6] == EthereumUsdcTemplate
    ensures forall j :: 0 <= j < 6 ==> TokenSelectionAssets()[j].ticker != "USDC"
  {
  }

  /** `Coin`: a vault's coin, a mutable object made by cloning a template. */
  class Coin {
    var info: CoinInfo

    /** `clone()`: a new object with the template's fields. */
    constructor Clone(template: CoinInfo)
      ensures info == template
    {
      info := template;
    }
  }

  /**
   * `createNewCoinInstance`: fails for a ticker without template; otherwise a
   * fresh clone of the first template, with the given address and public key
   * and every other field taken from the template.
   */
  method CreateNewCoinInstance(ticker: string, address: string, hexPublicKey: string)
    returns (r: Result<Coin, string>)
    ensures GetCoin(ticker).None? <==> r.Failure?
    ensures r.Failure? ==> r.error == "doesn't support coin " + ticker
    ensures r.Success? ==> fresh(r.value)
    ensures r.Success? ==> r.value.info == GetCoin(ticker).value.(address := address, hexPublicKey := hexPublicKey)
  {
    var templateCoin := GetCoin(ticker);
    if templateCoin.None? {
      return Failure("doesn't support coin " + ticker);
    }
    var clonedCoin := new Coin.Clone(templateCoin.value);
    clonedCoin.info := clonedCoin.info.(address := address);
    clonedCoin.info := clonedCoin.info.(hexPublicKey := hexPublicKey);
    return Success(clonedCoin);
  }
}
