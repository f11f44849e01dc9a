/**
 * The THORChain "open loan" memo: `LOAN+:<asset>:<destination>:<min out>`,
 * optionally followed by the affiliate and its fee. A `Double` is a real
 * here, and its text rendering is the parameter `render`: only whether a
 * value is zero decides the layout.
 */
module TransactionMemoOpenLoan {
  import opened StringExtension
  import opened Utils

  /** The text of the minimum-out field: empty for zero. */
  function MinOutText(minOut: real, render: real -> string): string
  {
    if minOut != 0.0 then render(minOut) else ""
  }

  /**
   * The memo's fields in order: the fixed `LOAN+`, asset, destination and
   * minimum out, then the affiliate when there is one or a fee follows, then
   * the fee when it is not zero.
   */
  function LoanFields(asset: string, destinationAddress: string, minOut: real, affiliate: string, fee: real,
                      render: real -> string): (fields: seq<string>)
    ensures 4 <= |fields| <= 6
    ensures fields[..4] == ["LOAN+", asset, destinationAddress, MinOutText(minOut, render)]
  {
    ["LOAN+", asset, destinationAddress, MinOutText(minOut, render)]
    + (if affiliate != "" || fee != 0.0 then [affiliate] else [])
    + (if fee != 0.0 then [render(fee)] else [])
  }

  /**
   * The memo: the fields joined with `:`. It always opens with
   * `LOAN+:<asset>:<destination>:`, and with neither affiliate nor fee it is
   * just that head and the minimum-out text.
   */
  function LoanMemo(asset: string, destinationAddress: string, minOut: real, affiliate: string, fee: real,
                    render: real -> string): (memo: string)
    ensures HasPrefix(memo, "LOAN+:" + asset + ":" + destinationAddress + ":")
    ensures affiliate == "" && fee == 0.0 ==>
              memo == "LOAN+:" + asset + ":" + destinationAddress + ":" + MinOutText(minOut, render)
  {
    var fields := LoanFields(asset, destinationAddress, minOut, affiliate, fee, render);
    var head := "LOAN+:" + asset + ":" + destinationAddress + ":";
    assert Join(fields, ':') == "LOAN+" + ":" + Join(fields[1..], ':');
    assert Join(fields[1..], ':') == asset + ":" + Join(fields[2..], ':');
    assert Join(fields[2..], ':') == destinationAddress + ":" + Join(fields[3..], ':');
    assert Join(fields, ':') == head + Join(fields[3..], ':');
    Join(fields, ':')
  }

  // Joining a sequence with one more piece adds `:` and that piece at the end.
  lemma {:induction false} JoinSnoc(parts: seq<string>, last: string)
    requires |parts| >= 1
    ensures Join(parts + [last], ':') == Join(parts, ':') + ":" + last
  {
    if |parts| > 1 {
      JoinSnoc(parts[1..], last);
      assert (parts + [last])[1..] == parts[1..] + [last];
    }
  }

  /**
   * Read back field by field: when no part holds a `:`, splitting the memo at
   * `:` gives exactly the fields, so the fee is always the sixth piece, behind
   * an empty affiliate when there is none.
   */
  lemma LoanMemoFields(asset: string, destinationAddress: string, minOut: real, affiliate: string, fee: real,
                       render: real -> string)
    requires ':' !in asset && ':' !in destinationAddress && ':' !in affiliate
    requires minOut != 0.0 ==> ':' !in render(minOut)
    requires fee != 0.0 ==> ':' !in render(fee)
    ensures Split(LoanMemo(asset, destinationAddress, minOut, affiliate, fee, render), ':')
            == LoanFields(asset, destinationAddress, minOut, affiliate, fee, render)
    ensures fee != 0.0 ==> Split(LoanMemo(asset, destinationAddress, minOut, affiliate, fee, render), ':')[5] == render(fee)
    ensures fee == 0.0 && affiliate == "" ==> |Split(LoanMemo(asset, destinationAddress, minOut, affiliate, fee, render), ':')| == 4
  {
    JoinSplit(LoanFields(asset, destinationAddress, minOut, affiliate, fee, render), ':');
  }

  /**
   * The memo as `toString()` appends it: `:` and the minimum-out text after
   * the fixed head, then `:` and the affiliate when there is one, then the fee
   * behind one `:` (two when the affiliate is empty) when it is not zero.
   */
  lemma LoanMemoText(asset: string, destinationAddress: string, minOut: real, affiliate: string, fee: real,
                     render: real -> string, withMinOut: string, withAffiliate: string, memo: string)
    requires withMinOut == "LOAN+:" + asset + ":" + destinationAddress + ":" + MinOutText(minOut, render)
    requires withAffiliate == if affiliate != "" then withMinOut + ":" + affiliate else withMinOut
    requires memo == if fee == 0.0 then withAffiliate
                     else if affiliate == "" then withAffiliate + "::" + render(fee)
                     else withAffiliate + ":" + render(fee)
    ensures memo == LoanMemo(asset, destinationAddress, minOut, affiliate, fee, render)
  {
    var minOutText := MinOutText(minOut, render);
    var head := ["LOAN+", asset, destinationAddress, minOutText];
    var fields := LoanFields(asset, destinationAddress, minOut, affiliate, fee, render);
    LoanHeadText(asset, destinationAddress, minOutText);
    if fee == 0.0 {
      if affiliate == "" {
        assert fields == head;
      } else {
        assert fields == head + [affiliate];
        JoinSnoc(head, affiliate);
      }
    } else if affiliate == "" {
      assert fields == head + [""] + [render(fee)];
      JoinSnoc(head, "");
      JoinSnoc(head + [""], render(fee));
      assert memo == withMinOut + ":" + "" + ":" + render(fee);
    } else {
      assert fields == head + [affiliate] + [render(fee)];
      JoinSnoc(head, affiliate);
      JoinSnoc(head + [affiliate], render(fee));
    }
  }

  // The four fixed fields joined: `LOAN+:<asset>:<destination>:<min out>`.
  lemma LoanHeadText(asset: string, destinationAddress: string, minOutText: string)
    ensures Join(["LOAN+", asset, destinationAddress, minOutText], ':')
            == "LOAN+:" + asset + ":" + destinationAddress + ":" + minOutText
  {
    var head := ["LOAN+", asset, destinationAddress, minOutText];
    assert Join(head[2..], ':') == destinationAddress + ":" + minOutText by {
      assert head[2..][1..] == [minOutText];
    }
    assert Join(head[1..], ':') == asset + ":" + Join(head[2..], ':') by {
      assert head[1..][1..] == head[2..];
    }
  }

  /** `TransactionMemoOpenLoan`: the editable fields of an open-loan memo. */
  class TransactionMemoOpenLoan {
    var asset: string
    var destinationAddress: string
    var minOut: real
    var affiliate: string
    var fee: real

    /** `init()`: every field empty or zero. */
    constructor Empty()
      ensures asset == "" && destinationAddress == "" && minOut == 0.0 && affiliate == "" && fee == 0.0
    {
      asset, destinationAddress, minOut, affiliate, fee := "", "", 0.0, "", 0.0;
    }

    /** `init(asset:destinationAddress:minOut:affiliate:fee:)`: no affiliate and no fee by default. */
    constructor (asset: string, destinationAddress: string, minOut: real, affiliate: string := "", fee: real := 0.0)
      ensures this.asset == asset && this.destinationAddress == destinationAddress && this.minOut == minOut
      ensures this.affiliate == affiliate && this.fee == fee
    {
      this.asset := asset;
      this.destinationAddress := destinationAddress;
      this.minOut := minOut;
      this.affiliate := affiliate;
      this.fee := fee;
    }

    /** The `addressFields` getter: exactly the destination and the affiliate. */
    function AddressFields(): (fields: map<string, string>)
      reads this
      ensures fields.Keys == {"destinationAddress", "affiliate"}
      ensures fields["destinationAddress"] == destinationAddress && fields["affiliate"] == affiliate
    {
      map["destinationAddress" := destinationAddress, "affiliate" := affiliate]
    }

    /** The `addressFields` setter: a key present in the new value replaces its field; nothing else changes. */
    method SetAddressFields(newValue: map<string, string>)
      modifies this
      ensures destinationAddress == if "destinationAddress" in newValue then newValue["destinationAddress"] else old(destinationAddress)
      ensures affiliate == if "affiliate" in newValue then newValue["affiliate"] else old(affiliate)
      ensures asset == old(asset) && minOut == old(minOut) && fee == old(fee)
      ensures forall k :: k in newValue && k in old(AddressFields()) ==> AddressFields()[k] == newValue[k]
    {
      if "destinationAddress" in newValue {
        destinationAddress := newValue["destinationAddress"];
      }
      if "affiliate" in newValue {
        affiliate := newValue["affiliate"];
      }
    }

    /** `toString()`: the memo, built piece by piece. */
    method ToString(render: real -> string) returns (memo: string)
      ensures memo == LoanMemo(asset, destinationAddress, minOut, affiliate, fee, render)
    {
      ghost var head := "LOAN+:" + asset + ":" + destinationAddress;
      memo := "LOAN+:" + asset + ":" + destinationAddress;
      if minOut != 0.0 {
        memo := memo + ":" + render(minOut);
      } else {
        memo := memo + ":";
      }
      assert memo == head + ":" + MinOutText(minOut, render);
      ghost var withMinOut := memo;
      if affiliate != "" {
        memo := memo + ":" + affiliate;
      }
      ghost var withAffiliate := memo;
      if fee != 0.0 {
        if affiliate == "" {
          memo := memo + "::" + render(fee);
        } else {
          memo := memo + ":" + render(fee);
        }
      }
      LoanMemoText(asset, destinationAddress, minOut, affiliate, fee, render, withMinOut, withAffiliate, memo);
    }

    /** `description`: the same text as `toString()`. */
    method Description(render: real -> string) returns (d: string)
      ensures d == LoanMemo(asset, destinationAddress, minOut, affiliate, fee, render)
    {
      d := ToString(render);
    }

    /** `toDictionary()`: every field as text, and the memo under `memo`. */
    method ToDictionary(render: real -> string) returns (dict: map<string, string>)
      ensures dict.Keys == {"asset", "destinationAddress", "minOut", "affiliate", "fee", "memo"}
      ensures dict["asset"] == asset && dict["destinationAddress"] == destinationAddress
      ensures dict["minOut"] == render(minOut) && dict["affiliate"] == affiliate && dict["fee"] == render(fee)
      ensures dict["memo"] == LoanMemo(asset, destinationAddress, minOut, affiliate, fee, render)
    {
      dict := map[];
      dict := dict["asset" := asset];
      dict := dict["destinationAddress" := destinationAddress];
      dict := dict["minOut" := render(minOut)];
      dict := dict["affiliate" := affiliate];
      dict := dict["fee" := render(fee)];
      var memo := ToString(render);
      dict := dict["memo" := memo];
    }
  }
}
