/**
 * The signing request's chain parameters in the older app, and the gas value
 * it derives from them.
 */
module VoltixKeysignPayload {
  import KP = KeysignPayload

  /** The chain-specific part of a signing request in the older app. */
  datatype BlockChainSpecific =
    | UTXO(byteFee: int)
    | Ethereum(maxFeePerGasWei: int, priorityFeeWei: int, nonce: KP.int64, gasLimit: int)
    | ERC20(maxFeePerGasWei: int, priorityFeeWei: int, nonce: KP.int64, gasLimit: int, contractAddr: string)
    | THORChain(accountNumber: KP.uint64, sequence: KP.uint64)
    | Cosmos(accountNumber: KP.uint64, sequence: KP.uint64, gas: KP.uint64)
    | Solana(recentBlockHash: string, priorityFee: int)

  /**
   * `gas`: the byte fee for UTXO chains, the maximum fee per gas for Ethereum
   * and ERC-20 transfers, and constants for the rest. `solanaDefaultFee` stands
   * for this app's `SolanaHelper.defaultFeeInLamports`.
   */
  function Gas(cs: BlockChainSpecific, solanaDefaultFee: int): (g: int)
    ensures cs.UTXO? ==> g == cs.byteFee
    ensures cs.Ethereum? || cs.ERC20? ==> g == cs.maxFeePerGasWei
    ensures cs.THORChain? ==> g == 2000000
    ensures cs.Cosmos? ==> g == 7500
    ensures cs.Solana? ==> g == solanaDefaultFee
  {
    match cs
    case UTXO(byteFee) => byteFee
    case Ethereum(maxFeePerGas, _, _, _) => maxFeePerGas
    case ERC20(maxFeePerGas, _, _, _, _) => maxFeePerGas
    case THORChain(_, _) => 2_000_000
    case Cosmos(_, _, _) => 7500
    case Solana(_, _) => solanaDefaultFee
  }

  /**
   * The priority fee never reaches the gas: Ethereum and ERC-20 requests that
   * differ only in it have the same gas, and a native and a token transfer with
   * the same maximum fee agree.
   */
  lemma PriorityFeeIgnored(maxFee: int, priority: int, priority': int, nonce: KP.int64, gasLimit: int,
                           contract: string, solanaDefaultFee: int)
    ensures Gas(Ethereum(maxFee, priority, nonce, gasLimit), solanaDefaultFee)
            == Gas(Ethereum(maxFee, priority', nonce, gasLimit), solanaDefaultFee)
    ensures Gas(ERC20(maxFee, priority, nonce, gasLimit, contract), solanaDefaultFee)
            == Gas(Ethereum(maxFee, priority', nonce, gasLimit), solanaDefaultFee)
  {
  }

  /**
   * Where the two apps disagree: for the same Ethereum fields the older app
   * leaves out the priority fee that the current app adds, and the older
   * THORChain gas is a constant where the current one is the request's fee.
   */
  lemma GasDiffersFromCurrentApp(maxFee: int, priority: int, nonce: KP.int64, gasLimit: int,
                                 acct: KP.uint64, sequence: KP.uint64, fee: KP.uint64,
                                 solanaDefaultFee: int, mayaChainGas: KP.uint64, polkadotDefaultFee: int)
    ensures KP.Gas(KP.Ethereum(maxFee, priority, nonce, gasLimit), mayaChainGas, polkadotDefaultFee)
            == Gas(Ethereum(maxFee, priority, nonce, gasLimit), solanaDefaultFee) + priority
    ensures (KP.Gas(KP.THORChain(acct, sequence, fee), mayaChainGas, polkadotDefaultFee)
             == Gas(THORChain(acct, sequence), solanaDefaultFee)) <==> fee == 2000000
  {
  }
}
