/**
 * The ERC-20 calldata strings the EVM RPC service sends: a 4-byte function
 * selector in hex followed by 32-byte argument words, each a hex string left
 * padded with zeros to 64 characters (the Solidity contract ABI encoding of
 * the EIP-20 calls `transfer`, `balanceOf` and `allowance`).
 */
module RpcEvmService {
  import opened Numerals
  import opened StringExtension

  const TransferSelector := "a9059cbb"
  const BalanceOfSelector := "70a08231"
  const AllowanceSelector := "dd62ed3e"

  /** One ABI argument word: the text left padded with `0` to 64 characters. */
  function Word(s: string): (w: string)
    ensures |w| == if |s| < 64 then 64 else |s|
    ensures w[|w| - |s|..] == s
    ensures forall i :: 0 <= i < |w| - |s| ==> w[i] == '0'
  {
    PaddingLeft(s, 64, "0")
  }

  /** `String.dropFirst(k)`: the string without its first k characters, empty when shorter. */
  function DropFirst(s: string, k: nat): (r: string)
    ensures |s| <= k ==> r == []
    ensures k < |s| ==> r == s[k..]
  {
    if |s| <= k then [] else s[k..]
  }

  /** `constructERC20TransferData`: the calldata of `transfer(recipient, value)`. */
  function ConstructERC20TransferData(recipientAddress: string, value: int): (data: string)
    ensures HasPrefix(data, "0x" + TransferSelector)
  {
    "0x" + TransferSelector + Word(StripHexPrefix(recipientAddress)) + Word(IntToHex(value))
  }

  /** A value word read back as hexadecimal is the value: the zero padding adds nothing. */
  lemma ValueWordReadsBack(value: nat)
    requires |NatToHex(value)| <= 64
    ensures AllHexDigits(Word(NatToHex(value)))
    ensures HexValue(Word(NatToHex(value))) == value
  {
    var hex := NatToHex(value);
    var valueWord := Word(hex);
    var zeros := valueWord[..64 - |hex|];
    assert valueWord == zeros + hex;
    HexValueLeadingZeros(zeros, hex);
    HexRoundTrip(value);
  }

  /**
   * When the address (without `0x`) and the value's hex both fit a word, the
   * calldata is exactly 138 characters: `0x`, the selector, the address word
   * ending in the address, and the value word, whose hex reads back as the value.
   */
  lemma TransferDataLayout(recipientAddress: string, value: nat)
    requires |StripHexPrefix(recipientAddress)| <= 64
    requires |NatToHex(value)| <= 64
    ensures |ConstructERC20TransferData(recipientAddress, value)| == 138
    ensures ConstructERC20TransferData(recipientAddress, value)[..10] == "0xa9059cbb"
    ensures ConstructERC20TransferData(recipientAddress, value)[10..74] == Word(StripHexPrefix(recipientAddress))
    ensures ConstructERC20TransferData(recipientAddress, value)[74..] == Word(NatToHex(value))
    ensures AllHexDigits(ConstructERC20TransferData(recipientAddress, value)[74..])
    ensures HexValue(ConstructERC20TransferData(recipientAddress, value)[74..]) == value
  {
    var head, address, amount := "0x" + TransferSelector, Word(StripHexPrefix(recipientAddress)), Word(NatToHex(value));
    assert head == "0xa9059cbb";
    assert ConstructERC20TransferData(recipientAddress, value) == head + address + amount;
    Concat3(head, address, amount);
    ValueWordReadsBack(value);
  }

  /** Slicing a three-part concatenation at the part boundaries gives back the parts. */
  lemma Concat3(a: string, b: string, c: string)
    ensures |a + b + c| == |a| + |b| + |c|
    ensures (a + b + c)[..|a|] == a
    ensures (a + b + c)[|a|..|a| + |b|] == b
    ensures (a + b + c)[|a| + |b|..] == c
  {
  }

  /**
   * Equal transfer calldata (for inputs that fit a word) means equal values
   * and equal padded recipient words. The recipients themselves may differ:
   * `0x0abc` and `0xabc` pad to the same word.
   */
  lemma TransferDataInjective(a1: string, v1: nat, a2: string, v2: nat)
    requires |StripHexPrefix(a1)| <= 64 && |NatToHex(v1)| <= 64
    requires |StripHexPrefix(a2)| <= 64 && |NatToHex(v2)| <= 64
    requires ConstructERC20TransferData(a1, v1) == ConstructERC20TransferData(a2, v2)
    ensures v1 == v2
    ensures Word(StripHexPrefix(a1)) == Word(StripHexPrefix(a2))
  {
    TransferDataLayout(a1, v1);
    TransferDataLayout(a2, v2);
  }

  /**
   * The `balanceOf(wallet)` calldata of `fetchERC20TokenBalance`: the
   * selector, then one word holding the wallet address without its first two
   * characters, whatever they are.
   */
  function BalanceOfData(walletAddress: string): (data: string)
    ensures HasPrefix(data, "0x" + BalanceOfSelector)
    ensures |DropFirst(walletAddress, 2)| <= 64 ==>
              |data| == 74 && data[10..] == Word(DropFirst(walletAddress, 2))
  {
    var head, wallet := "0x" + BalanceOfSelector, Word(DropFirst(walletAddress, 2));
    assert (head + wallet)[..10] == head;
    assert (head + wallet)[10..] == wallet;
    head + wallet
  }

  /** With a `0x`-prefixed address of at most 64 digits, the wallet word is the address without `0x`. */
  lemma BalanceOfDataLayout(walletAddress: string)
    requires HasPrefix(walletAddress, "0x") && |walletAddress| <= 66
    ensures |BalanceOfData(walletAddress)| == 74
    ensures BalanceOfData(walletAddress)[10..] == Word(StripHexPrefix(walletAddress))
  {
  }

  /**
   * The `allowance(owner, spender)` calldata of `fetchAllowance`: the selector,
   * the owner word and the spender word; both addresses lose their first two
   * characters unconditionally.
   */
  function AllowanceData(owner: string, spender: string): (data: string)
    ensures HasPrefix(data, "0x" + AllowanceSelector)
    ensures |DropFirst(owner, 2)| <= 64 && |DropFirst(spender, 2)| <= 64 ==>
              |data| == 138 && data[10..74] == Word(DropFirst(owner, 2)) && data[74..] == Word(DropFirst(spender, 2))
  {
    var head, ownerWord, spenderWord := "0x" + AllowanceSelector, Word(DropFirst(owner, 2)), Word(DropFirst(spender, 2));
    Concat3(head, ownerWord, spenderWord);
    head + ownerWord + spenderWord
  }

  /**
   * For a `0x`-prefixed address, dropping two characters is stripping the prefix;
   * without the prefix, the unconditional drop loses two characters of the
   * address itself, so the words differ from the transfer builder's.
   */
  lemma DropFirstVersusStrip(address: string)
    ensures HasPrefix(address, "0x") ==> DropFirst(address, 2) == StripHexPrefix(address)
    ensures !HasPrefix(address, "0x") && |address| > 0 ==> DropFirst(address, 2) != StripHexPrefix(address)
  {
  }

  /** With `0x`-prefixed addresses of at most 64 digits, the owner fills the first word and the spender the second. */
  lemma AllowanceDataLayout(owner: string, spender: string)
    requires HasPrefix(owner, "0x") && |owner| <= 66
    requires HasPrefix(spender, "0x") && |spender| <= 66
    ensures |AllowanceData(owner, spender)| == 138
    ensures AllowanceData(owner, spender)[10..74] == Word(StripHexPrefix(owner))
    ensures AllowanceData(owner, spender)[74..] == Word(StripHexPrefix(spender))
  {
  }

  /** The raw transaction as `broadcastTransaction` sends it: `0x` added only when missing. */
  function WithHexPrefix(hex: string): (r: string)
    ensures HasPrefix(r, "0x")
    ensures HasPrefix(hex, "0x") ==> r == hex
    ensures !HasPrefix(hex, "0x") ==> StripHexPrefix(r) == hex
  {
    if HasPrefix(hex, "0x") then hex else "0x" + hex
  }

  /** Prefixing twice is prefixing once. */
  lemma WithHexPrefixIdempotent(hex: string)
    ensures WithHexPrefix(WithHexPrefix(hex)) == WithHexPrefix(hex)
  {
  }
}
