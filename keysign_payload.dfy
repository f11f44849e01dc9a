/**
 * The signing request of the current app: the per-chain parameters, the gas
 * value each chain derives from them, and the payload's initialiser.
 */
module KeysignPayload {
  import opened Wrappers
  import opened Numerals
  import opened StringExtension

  newtype uint64 = x: int | 0 <= x < 0x1_0000_0000_0000_0000
  newtype uint32 = x: int | 0 <= x < 0x1_0000_0000
  newtype int64 = x: int | -0x8000_0000_0000_0000 <= x < 0x8000_0000_0000_0000

  /** `SolanaHelper.defaultFeeInLamports` (0.001 SOL). */
  const SolanaDefaultFeeInLamports: int := 1000000

  /** The chain-specific part of a signing request (`BigInt` fields are unbounded integers). */
  datatype BlockChainSpecific =
    | UTXO(byteFee: int, sendMaxAmount: bool)
    | Ethereum(maxFeePerGasWei: int, priorityFeeWei: int, nonce: int64, gasLimit: int)
    | THORChain(accountNumber: uint64, sequence: uint64, fee: uint64)
    | MayaChain(accountNumber: uint64, sequence: uint64)
    | Cosmos(accountNumber: uint64, sequence: uint64, gas: uint64)
    | Solana(recentBlockHash: string, priorityFee: int)
    | Sui(referenceGasPrice: int, coins: seq<map<string, string>>)
    | Polkadot(recentBlockHash: string, polkadotNonce: uint64, currentBlockNumber: int,
               specVersion: uint32, transactionVersion: uint32, genesisHash: string)

  /**
   * `gas`: the fee figure of each chain. `mayaChainGas` and `polkadotDefaultFee`
   * stand for `MayaChainHelper.MayaChainGas` and `PolkadotHelper.defaultFeeInPlancks`.
   * THORChain and MayaChain go through the decimal text of an unsigned value and
   * back, which gives the value itself.
   */
  function Gas(cs: BlockChainSpecific, mayaChainGas: uint64, polkadotDefaultFee: int): (g: int)
    ensures cs.UTXO? ==> g == cs.byteFee
    ensures cs.Ethereum? ==> g == cs.maxFeePerGasWei + cs.priorityFeeWei
    ensures cs.THORChain? ==> g == cs.fee as int
    ensures cs.MayaChain? ==> g == mayaChainGas as int
    ensures cs.Cosmos? ==> g == 7500
    ensures cs.Solana? ==> g == SolanaDefaultFeeInLamports
    ensures cs.Sui? ==> g == cs.referenceGasPrice
    ensures cs.Polkadot? ==> g == polkadotDefaultFee
  {
    match cs
    case UTXO(byteFee, _) => byteFee
    case Ethereum(baseFee, priorityFeeWei, _, _) => baseFee + priorityFeeWei
    case THORChain(_, _, fee) =>
      ToBigIntOfNatDescription(fee as nat);
      ToBigInt(NatToDecimal(fee as nat))
    case MayaChain(_, _) =>
      ToBigIntOfNatDescription(mayaChainGas as nat);
      ToBigInt(NatToDecimal(mayaChainGas as nat))
    case Cosmos(_, _, _) => 7500
    case Solana(_, _) => SolanaDefaultFeeInLamports
    case Sui(referenceGasPrice, _) => referenceGasPrice
    case Polkadot(_, _, _, _, _, _) => polkadotDefaultFee
  }

  /** The THORChain gas is the unsigned fee itself: within 64 bits, and different fees give different gas. */
  lemma ThorchainGasIsFee(accountNumber: uint64, sequence: uint64, fee: uint64, fee': uint64, mayaChainGas: uint64, polkadotDefaultFee: int)
    ensures 0 <= Gas(THORChain(accountNumber, sequence, fee), mayaChainGas, polkadotDefaultFee) < 0x1_0000_0000_0000_0000
    ensures (Gas(THORChain(accountNumber, sequence, fee), mayaChainGas, polkadotDefaultFee)
             == Gas(THORChain(accountNumber, sequence, fee'), mayaChainGas, polkadotDefaultFee)) <==> fee == fee'
  {
  }

  /**
   * MayaChain, Cosmos, Solana and Polkadot gas ignore every field: two requests
   * of the same chain have the same gas.
   */
  lemma ConstantGasChains(a: BlockChainSpecific, b: BlockChainSpecific, mayaChainGas: uint64, polkadotDefaultFee: int)
    requires (a.MayaChain? && b.MayaChain?) || (a.Cosmos? && b.Cosmos?)
             || (a.Solana? && b.Solana?) || (a.Polkadot? && b.Polkadot?)
    ensures Gas(a, mayaChainGas, polkadotDefaultFee) == Gas(b, mayaChainGas, polkadotDefaultFee)
  {
  }

  /** Only the Ethereum gas depends on the priority fee. */
  lemma EthereumGasCountsPriorityFee(maxFee: int, priority: int, priority': int, nonce: int64, gasLimit: int, mayaChainGas: uint64, polkadotDefaultFee: int)
    requires priority != priority'
    ensures Gas(Ethereum(maxFee, priority, nonce, gasLimit), mayaChainGas, polkadotDefaultFee)
            != Gas(Ethereum(maxFee, priority', nonce, gasLimit), mayaChainGas, polkadotDefaultFee)
  {
  }

  /**
   * A signing request. The coin, UTXO, swap and approval records belong to
   * other parts of the app and are kept as type parameters.
   */
  datatype KeysignPayload<Coin, Utxo, Swap, Approve> = KeysignPayload(
    coin: Coin, toAddress: string, toAmount: int, chainSpecific: BlockChainSpecific,
    utxos: seq<Utxo>, memo: Option<string>, swapPayload: Option<Swap>,
    approvePayload: Option<Approve>, vaultPubKeyECDSA: string, vaultLocalPartyID: string)

  /** `init`: every argument is stored in its field; the approval defaults to none. */
  function Init<Coin, Utxo, Swap, Approve>(
    coin: Coin, toAddress: string, toAmount: int, chainSpecific: BlockChainSpecific,
    utxos: seq<Utxo>, memo: Option<string>, swapPayload: Option<Swap>,
    vaultPubKeyECDSA: string, vaultLocalPartyID: string,
    approvePayload: Option<Approve> := None): (p: KeysignPayload<Coin, Utxo, Swap, Approve>)
    ensures p.coin == coin && p.toAddress == toAddress && p.toAmount == toAmount
    ensures p.chainSpecific == chainSpecific && p.utxos == utxos && p.memo == memo
    ensures p.swapPayload == swapPayload && p.approvePayload == approvePayload
    ensures p.vaultPubKeyECDSA == vaultPubKeyECDSA && p.vaultLocalPartyID == vaultLocalPartyID
  {
    KeysignPayload(coin, toAddress, toAmount, chainSpecific, utxos, memo, swapPayload,
                   approvePayload, vaultPubKeyECDSA, vaultLocalPartyID)
  }

  /**
   * Nothing is lost by `init`: a payload built without an approval has none,
   * and two payloads are equal only when they were built from equal arguments.
   */
  lemma InitKeepsArguments<Coin, Utxo, Swap, Approve>(
    coin: Coin, toAddress: string, toAmount: int, chainSpecific: BlockChainSpecific,
    utxos: seq<Utxo>, memo: Option<string>, swapPayload: Option<Swap>,
    vaultPubKeyECDSA: string, vaultLocalPartyID: string,
    coin': Coin, toAmount': int, approve: Approve)
    ensures Init<Coin, Utxo, Swap, Approve>(coin, toAddress, toAmount, chainSpecific, utxos, memo, swapPayload,
                                           vaultPubKeyECDSA, vaultLocalPartyID).approvePayload.None?
    ensures Init(coin, toAddress, toAmount, chainSpecific, utxos, memo, swapPayload, vaultPubKeyECDSA, vaultLocalPartyID, Some(approve))
            == Init(coin', toAddress, toAmount', chainSpecific, utxos, memo, swapPayload, vaultPubKeyECDSA, vaultLocalPartyID, Some(approve))
            <==> coin == coin' && toAmount == toAmount'
  {
  }
}
