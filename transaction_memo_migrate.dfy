/**
 * The THORChain "migrate" memo: `MIGRATE:<block height>`. It has no address
 * fields.
 */
module TransactionMemoMigrate {
  import opened Numerals
  import opened StringExtension

  const MigratePrefix := "MIGRATE:"

  /** `TransactionMemoMigrate`: a memo whose one field is the block height. */
  class TransactionMemoMigrate {
    var blockHeight: int

    /** `init()`: block height zero. */
    constructor Empty()
      ensures blockHeight == 0
    {
      blockHeight := 0;
    }

    /** `init(blockHeight:)`. */
    constructor (blockHeight: int)
      ensures this.blockHeight == blockHeight
    {
      this.blockHeight := blockHeight;
    }

    /**
     * `toString()`: `MIGRATE:` and the height's canonical decimal text, which
     * reads back as the height, so different heights give different memos.
     */
    function ToString(): (memo: string)
      reads this
      ensures memo == MigratePrefix + IntToDecimal(blockHeight)
      ensures HasPrefix(memo, MigratePrefix)
      ensures ToBigInt(memo[|MigratePrefix|..]) == blockHeight
    {
      var memo := MigratePrefix + IntToDecimal(blockHeight);
      assert memo[|MigratePrefix|..] == IntToDecimal(blockHeight);
      ToBigIntOfDescription(blockHeight);
      memo
    }

    /** `description`: the same text as `toString()`. */
    function Description(): (d: string)
      reads this
      ensures d == ToString()
    {
      ToString()
    }

    /** The `addressFields` getter: always empty. */
    function AddressFields(): (fields: map<string, string>)
      reads this
      ensures |fields| == 0
    {
      map[]
    }

    /** The `addressFields` setter: ignores its argument. */
    method SetAddressFields(newValue: map<string, string>)
      modifies this
      ensures blockHeight == old(blockHeight)
      ensures AddressFields() == map[]
    {
    }

    /** `toDictionary()`: the height as decimal text and the memo. */
    function ToDictionary(): (dict: map<string, string>)
      reads this
      ensures dict.Keys == {"blockHeight", "memo"}
      ensures dict["memo"] == ToString()
      ensures dict["blockHeight"] == IntToDecimal(blockHeight)
      ensures ToBigInt(dict["blockHeight"]) == blockHeight
    {
      ToBigIntOfDescription(blockHeight);
      map["blockHeight" := IntToDecimal(blockHeight), "memo" := ToString()]
    }
  }

  /** Two migrate memos are the same text only for the same height. */
  lemma MigrateMemoInjective(a: TransactionMemoMigrate, b: TransactionMemoMigrate)
    ensures a.ToString() == b.ToString() <==> a.blockHeight == b.blockHeight
  {
    if a.ToString() == b.ToString() {
      assert a.ToString()[|MigratePrefix|..] == b.ToString()[|MigratePrefix|..];
    }
  }
}
