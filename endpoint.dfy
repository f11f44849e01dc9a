/**
 * The URL builders of the old app's `Endpoint`: fixed service prefixes with
 * an address, hash or name appended, and the ticker-to-block-explorer switch.
 */
module Endpoint {
  import opened Wrappers
  import opened StringExtension

  predicate EndsWith(s: string, suffix: string) { |suffix| <= |s| && s[|s| - |suffix|..] == suffix }

  // ---------------------------------------------------------------------
  // Fixed endpoints
  // ---------------------------------------------------------------------

  const BroadcastTransactionThorchainNineRealms := "https://thornode.ninerealms.com/cosmos/tx/v1beta1/txs"
  const AvalancheServiceRpcService := "https://avalanche-c-chain-rpc.publicnode.com"
  const BscServiceRpcService := "https://bsc-rpc.publicnode.com"
  const EthServiceRpcService := "https://ethereum-rpc.publicnode.com"
  const SolanaServiceAlchemyRpc := "https://solana-rpc.publicnode.com"
  const BroadcastCosmosTransaction := "https://cosmos-rest.publicnode.com/cosmos/tx/v1beta1/txs"

  // ---------------------------------------------------------------------
  // Prefix-plus-argument builders
  // ---------------------------------------------------------------------

  // Prefixes shared by a builder and its injectivity lemma.
  const ThorAccountsPrefix := "https://thornode.ninerealms.com/auth/accounts/"
  const ThorBalancesPrefix := "https://thornode.ninerealms.com/cosmos/bank/v1beta1/balances/"
  const CosmosBalancesPrefix := "https://cosmos-rest.publicnode.com/cosmos/bank/v1beta1/balances/"
  const CosmosAccountsPrefix := "https://cosmos-rest.publicnode.com/cosmos/auth/v1beta1/accounts/"
  const MempoolAddressPrefix := "https://mempool.space/api/address/"
  const LitecoinSpaceAddressPrefix := "https://litecoinspace.org/api/address/"

  function FetchAccountNumberThorchainNineRealms(address: string): (r: string)
    ensures HasPrefix(r, "https://thornode.ninerealms.com/") && EndsWith(r, address)
  {
    ThorAccountsPrefix + address
  }

  function FetchAccountBalanceThorchainNineRealms(address: string): (r: string)
    ensures HasPrefix(r, "https://thornode.ninerealms.com/") && EndsWith(r, address)
  {
    ThorBalancesPrefix + address
  }

  /** The THORChain swap quote; `asUrl` force-unwraps `URL(string:)`, which is not part of this model. */
  function FetchSwapQuoteThorchainNineRealms(address: string, fromAsset: string, toAsset: string, amount: string): (r: string)
    ensures HasPrefix(r, "https://thornode.ninerealms.com/thorchain/quote/swap?from_asset=" + fromAsset + "&to_asset=")
    ensures EndsWith(r, "&destination=" + address)
  {
    "https://thornode.ninerealms.com/thorchain/quote/swap?from_asset=" + fromAsset + "&to_asset=" + toAsset
      + "&amount=" + amount + "&destination=" + address
  }

  function BitcoinLabelTxHash(value: string): (r: string)
    ensures HasPrefix(r, "https://mempool.space/tx/") && EndsWith(r, value)
  {
    "https://mempool.space/tx/" + value
  }

  function LitecoinLabelTxHash(value: string): (r: string)
    ensures HasPrefix(r, "https://litecoinspace.org/tx/") && EndsWith(r, value)
  {
    "https://litecoinspace.org/tx/" + value
  }

  function BlockchairStats(chainName: string): (r: string)
    ensures HasPrefix(r, "http://45.76.120.223/blockchair/" + chainName) && EndsWith(r, "/stats")
  {
    "http://45.76.120.223/blockchair/" + chainName + "/stats"
  }

  function BlockchairBroadcast(chainName: string): (r: string)
    ensures HasPrefix(r, "http://45.76.120.223/blockchair/" + chainName) && EndsWith(r, "/push/transaction")
  {
    "http://45.76.120.223/blockchair/" + chainName + "/push/transaction"
  }

  function BlockchairDashboard(address: string, coinName: string): (r: string)
    ensures HasPrefix(r, "http://45.76.120.223/blockchair/" + coinName) && EndsWith(r, "/dashboards/address/" + address)
  {
    "http://45.76.120.223/blockchair/" + coinName + "/dashboards/address/" + address
  }

  function EthereumLabelTxHash(value: string): (r: string)
    ensures HasPrefix(r, "https://etherscan.io/tx/") && EndsWith(r, value)
  {
    "https://etherscan.io/tx/" + value
  }

  function FetchCryptoPrices(coin: string, fiat: string): (r: string)
    ensures HasPrefix(r, "https://api.coingecko.com/api/v3/simple/price?ids=" + coin) && EndsWith(r, "&vs_currencies=" + fiat)
  {
    "https://api.coingecko.com/api/v3/simple/price?ids=" + coin + "&vs_currencies=" + fiat
  }

  function FetchBitcoinTransactions(userAddress: string): (r: string)
    ensures HasPrefix(r, "https://mempool.space/api/address/" + userAddress) && EndsWith(r, "/txs")
  {
    MempoolAddressPrefix + userAddress + "/txs"
  }

  function FetchLitecoinTransactions(userAddress: string): (r: string)
    ensures HasPrefix(r, "https://litecoinspace.org/api/address/" + userAddress) && EndsWith(r, "/txs")
  {
    LitecoinSpaceAddressPrefix + userAddress + "/txs"
  }

  function BscLabelTxHash(value: string): (r: string)
    ensures HasPrefix(r, "https://bscscan.com/tx/") && EndsWith(r, value)
  {
    "https://bscscan.com/tx/" + value
  }

  function FetchCosmosAccountBalance(address: string): (r: string)
    ensures HasPrefix(r, "https://cosmos-rest.publicnode.com/") && EndsWith(r, address)
  {
    CosmosBalancesPrefix + address
  }

  function FetchCosmosAccountNumber(address: string): (r: string)
    ensures HasPrefix(r, "https://cosmos-rest.publicnode.com/") && EndsWith(r, address)
  {
    CosmosAccountsPrefix + address
  }

  /** Because each builder puts its argument after a fixed prefix, different addresses give different URLs. */
  lemma SimpleBuildersInjective(a: string, b: string)
    requires a != b
    ensures FetchAccountNumberThorchainNineRealms(a) != FetchAccountNumberThorchainNineRealms(b)
    ensures FetchAccountBalanceThorchainNineRealms(a) != FetchAccountBalanceThorchainNineRealms(b)
    ensures FetchCosmosAccountBalance(a) != FetchCosmosAccountBalance(b)
    ensures FetchCosmosAccountNumber(a) != FetchCosmosAccountNumber(b)
  {
    PrefixCancels(ThorAccountsPrefix, a, b);
    PrefixCancels(ThorBalancesPrefix, a, b);
    PrefixCancels(CosmosBalancesPrefix, a, b);
    PrefixCancels(CosmosAccountsPrefix, a, b);
  }

  /** The same for the transaction-list builders, whose address sits between a prefix and `/txs`. */
  lemma TransactionListBuildersInjective(a: string, b: string)
    requires a != b
    ensures FetchBitcoinTransactions(a) != FetchBitcoinTransactions(b)
    ensures FetchLitecoinTransactions(a) != FetchLitecoinTransactions(b)
  {
    SuffixCancels(a, b, "/txs");
    assert MempoolAddressPrefix + a + "/txs" == MempoolAddressPrefix + (a + "/txs");
    assert MempoolAddressPrefix + b + "/txs" == MempoolAddressPrefix + (b + "/txs");
    PrefixCancels(MempoolAddressPrefix, a + "/txs", b + "/txs");
    assert LitecoinSpaceAddressPrefix + a + "/txs" == LitecoinSpaceAddressPrefix + (a + "/txs");
    assert LitecoinSpaceAddressPrefix + b + "/txs" == LitecoinSpaceAddressPrefix + (b + "/txs");
    PrefixCancels(LitecoinSpaceAddressPrefix, a + "/txs", b + "/txs");
  }

  lemma PrefixCancels(p: string, a: string, b: string)
    ensures p + a == p + b ==> a == b
  {
    assert a == (p + a)[|p|..];
  }

  lemma SuffixCancels(a: string, b: string, q: string)
    ensures a + q == b + q ==> a == b
  {
    if a + q == b + q {
      assert a == (a + q)[..|a|];
    }
  }

  // ---------------------------------------------------------------------
  // Block explorers
  // ---------------------------------------------------------------------

  // Explorer page prefixes, per ticker.
  const BitcoinTxPage := "https://blockchair.com/bitcoin/transaction/"
  const BitcoinAddressPage := "https://blockchair.com/bitcoin/address/"
  const BitcoinCashTxPage := "https://blockchair.com/bitcoin-cash/transaction/"
  const BitcoinCashAddressPage := "https://blockchair.com/bitcoin-cash/address/"
  const LitecoinTxPage := "https://blockchair.com/litecoin/transaction/"
  const LitecoinAddressPage := "https://blockchair.com/litecoin/address/"
  const DogecoinTxPage := "https://blockchair.com/dogecoin/transaction/"
  const DogecoinAddressPage := "https://blockchair.com/dogecoin/address/"
  const RuneTxPage := "https://runescan.io/tx/"
  const RuneAddressPage := "https://runescan.io/address/"
  const SolanaTxPage := "https://explorer.solana.com/tx/"
  const SolanaAddressPage := "https://explorer.solana.com/tx/"
  const EtherTxPage := "https://etherscan.io/tx/"
  const EtherAddressPage := "https://etherscan.io/address/"
  const AtomTxPage := "https://www.mintscan.io/cosmos/tx/"
  const AtomAddressPage := "https://www.mintscan.io/cosmos/address/"
  const AvaxTxPage := "https://snowtrace.io/tx/"
  const AvaxAddressPage := "https://snowtrace.io/address/"

  /** The tickers both explorer switches know. */
  const ExplorerTickers: set<string> := {"BTC", "BCH", "LTC", "DOGE", "RUNE", "SOL", "ETH", "UATOM", "AVAX"}

  /** `getExplorerURL`: the transaction page on the ticker's explorer, empty for an unknown ticker. */
  function GetExplorerURL(chainTicker: string, txid: string): (r: string)
    ensures chainTicker !in ExplorerTickers <==> r == ""
    ensures chainTicker in ExplorerTickers ==> EndsWith(r, txid) && |r| > |txid|
  {
    match chainTicker
    case "BTC" => BitcoinTxPage + txid
    case "BCH" => BitcoinCashTxPage + txid
    case "LTC" => LitecoinTxPage + txid
    case "DOGE" => DogecoinTxPage + txid
    case "RUNE" => RuneTxPage + txid
    case "SOL" => SolanaTxPage + txid
    case "ETH" => EtherTxPage + txid
    case "UATOM" => AtomTxPage + txid
    case "AVAX" => AvaxTxPage + txid
    case _ => ""
  }

  /** For a known ticker the base does not depend on the transaction: the URL is the base followed by the id. */
  lemma ExplorerURLIsBasePlusTxid(chainTicker: string, txid: string)
    requires chainTicker in ExplorerTickers
    ensures GetExplorerURL(chainTicker, txid) == GetExplorerURL(chainTicker, "") + txid
  {
    forall p: string
      ensures p + "" == p
    {
    }
  }

  /** `getExplorerByAddressURL`: the address page for a known ticker, nothing otherwise. */
  function GetExplorerByAddressURL(chainTicker: string, address: string): (r: Option<string>)
    ensures r.Some? <==> chainTicker in ExplorerTickers
    ensures r.Some? ==> EndsWith(r.value, address) && |r.value| > |address|
  {
    match chainTicker
    case "BTC" => Some(BitcoinAddressPage + address)
    case "BCH" => Some(BitcoinCashAddressPage + address)
    case "LTC" => Some(LitecoinAddressPage + address)
    case "DOGE" => Some(DogecoinAddressPage + address)
    case "RUNE" => Some(RuneAddressPage + address)
    case "SOL" => Some(SolanaAddressPage + address)
    case "ETH" => Some(EtherAddressPage + address)
    case "UATOM" => Some(AtomAddressPage + address)
    case "AVAX" => Some(AvaxAddressPage + address)
    case _ => None
  }

  /** For a known ticker the address page does not depend on the address: the URL is the base followed by the address. */
  lemma ExplorerByAddressURLIsBasePlusAddress(chainTicker: string, address: string)
    requires chainTicker in ExplorerTickers
    ensures GetExplorerByAddressURL(chainTicker, "").Some?
    ensures GetExplorerByAddressURL(chainTicker, address) == Some(GetExplorerByAddressURL(chainTicker, "").value + address)
  {
    forall p: string
      ensures p + "" == p
    {
    }
  }

  /**
   * The Solana address link is the Solana transaction link (the `/tx/` path);
   * for every other known ticker the address page is a different URL.
   */
  lemma SolanaAddressUsesTxPath(chainTicker: string, s: string)
    requires chainTicker in ExplorerTickers
    ensures GetExplorerByAddressURL(chainTicker, s) == Some(GetExplorerURL(chainTicker, s)) <==> chainTicker == "SOL"
  {
  }
}
