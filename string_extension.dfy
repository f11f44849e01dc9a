/**
 * The `String` extension of the wallet app: left padding, `0x` stripping,
 * decimal-comma normalisation and lenient big-integer parsing.
 * Swift counts characters as grapheme clusters; here a character is one
 * Unicode scalar value.
 */
module StringExtension {
  import opened Wrappers
  import opened Numerals

  predicate HasPrefix(s: string, p: string) { |p| <= |s| && s[..|p|] == p }

  /**
   * `"".padding(toLength: n, withPad: pad, startingAt: 0)`: the pad string
   * repeated from its first character and cut off after n characters.
   */
  function Cycle(pad: string, n: nat): (r: string)
    requires |pad| > 0
    ensures |r| == n
    ensures forall i :: 0 <= i < n ==> r[i] == pad[i % |pad|]
  {
    if n == 0 then [] else Cycle(pad, n - 1) + [pad[(n - 1) % |pad|]]
  }

  /**
   * `paddingLeft(toLength:withPad:)`: a string at least as long as the target
   * comes back unchanged; a shorter one gets pad characters in front until it
   * is exactly the target length.
   */
  function PaddingLeft(s: string, toLength: int, pad: string): (r: string)
    requires |pad| > 0
    ensures toLength <= |s| ==> r == s
    ensures |r| == if toLength > |s| then toLength else |s|
    ensures r[|r| - |s|..] == s
    ensures forall i :: 0 <= i < |r| - |s| ==> r[i] == pad[i % |pad|]
  {
    var toPad := toLength - |s|;
    if toPad < 1 then s else Cycle(pad, toPad) + s
  }

  /** `stripHexPrefix()`: one leading `0x` is removed, nothing else. */
  function StripHexPrefix(s: string): (r: string)
    ensures HasPrefix(s, "0x") ==> "0x" + r == s
    ensures !HasPrefix(s, "0x") ==> r == s
  {
    if HasPrefix(s, "0x") then s[2..] else s
  }

  /** Only the first of several `0x` prefixes is stripped. */
  lemma StripHexPrefixOnce(t: string)
    ensures StripHexPrefix("0x" + t) == t
    ensures HasPrefix(t, "0x") ==> HasPrefix(StripHexPrefix("0x" + t), "0x")
  {
    assert ("0x" + t)[..2] == "0x";
    assert ("0x" + t)[2..] == t;
  }

  /** `formatCurrency()`: every `,` becomes `.`, everything else stays. */
  function FormatCurrency(s: string): (r: string)
    ensures |r| == |s|
    ensures forall i :: 0 <= i < |s| ==> r[i] == if s[i] == ',' then '.' else s[i]
  {
    if s == [] then [] else [if s[0] == ',' then '.' else s[0]] + FormatCurrency(s[1..])
  }

  /** After `formatCurrency()` no comma is left, so applying it twice changes nothing more. */
  lemma FormatCurrencyIdempotent(s: string)
    ensures ',' !in FormatCurrency(s)
    ensures FormatCurrency(FormatCurrency(s)) == FormatCurrency(s)
  {
    var r := FormatCurrency(s);
    assert forall i :: 0 <= i < |r| ==> r[i] != ',';
  }

  /** The text `BigInt(String)` accepts: an optional sign, then at least one decimal digit. */
  predicate IsBigIntText(s: string)
  {
    var digits := if |s| > 0 && (s[0] == '-' || s[0] == '+') then s[1..] else s;
    |digits| > 0 && AllDecimalDigits(digits)
  }

  // The unsigned part: at least one decimal digit, read as a number.
  function ParseDigits(digits: string): (r: Option<nat>)
    ensures r.Some? <==> |digits| > 0 && AllDecimalDigits(digits)
  {
    if |digits| > 0 && AllDecimalDigits(digits) then Some(DecimalValue(digits)) else None
  }

  /** `BigInt(String)`: the value of valid text, nothing otherwise. */
  function ParseBigInt(s: string): (r: Option<int>)
    ensures r.Some? <==> IsBigIntText(s)
  {
    if |s| > 0 && s[0] == '-' then
      match ParseDigits(s[1..])
      case Some(v) => Some(0 - v)
      case None => None
    else if |s| > 0 && s[0] == '+' then
      match ParseDigits(s[1..])
      case Some(v) => Some(v)
      case None => None
    else
      match ParseDigits(s)
      case Some(v) => Some(v)
      case None => None
  }

  /** `toBigInt()`: the parsed value, or zero for text that is not an integer. */
  function ToBigInt(s: string): (r: int)
    ensures !IsBigIntText(s) ==> r == 0
  {
    match ParseBigInt(s)
    case Some(v) => v
    case None => 0
  }

  /** Decimal text of an integer reads back as that integer. */
  lemma ToBigIntOfDescription(i: int)
    ensures IsBigIntText(IntToDecimal(i))
    ensures ToBigInt(IntToDecimal(i)) == i
  {
    if i < 0 {
      var s := IntToDecimal(i);
      assert s[1..] == NatToDecimal(-i);
      DecimalRoundTrip(-i);
    } else {
      DecimalRoundTrip(i);
    }
  }

  /**
   * Every valid text is an optional sign, zeros, and the canonical digits of
   * a number; the sign `+` and the zeros change nothing and `-` negates, so
   * `"+5"`, `"007"` and `"-0"` read as 5, 7 and 0.
   */
  lemma ToBigIntOfPaddedText(z: string, n: nat)
    requires forall i :: 0 <= i < |z| ==> z[i] == '0'
    ensures ToBigInt(z + NatToDecimal(n)) == n
    ensures ToBigInt("+" + (z + NatToDecimal(n))) == n
    ensures ToBigInt("-" + (z + NatToDecimal(n))) == 0 - n
  {
    var d := NatToDecimal(n);
    DecimalValueLeadingZeros(z, d);
    DecimalRoundTrip(n);
    var t := z + d;
    ParseUnsigned(t);
    var plus, minus := "+" + t, "-" + t;
    assert plus[1..] == t && minus[1..] == t;
    ParseSigned(plus);
    ParseSigned(minus);
  }

  // Digits alone read as their value.
  lemma ParseUnsigned(t: string)
    requires |t| > 0 && AllDecimalDigits(t)
    ensures ParseBigInt(t) == Some(DecimalValue(t))
  {
    assert IsDecimalDigit(t[0]);
  }

  // Digits behind `+` read as their value, behind `-` as its negation.
  lemma ParseSigned(s: string)
    requires |s| > 1 && AllDecimalDigits(s[1..])
    ensures s[0] == '+' ==> ParseBigInt(s) == Some(DecimalValue(s[1..]))
    ensures s[0] == '-' ==> ParseBigInt(s) == Some(0 - DecimalValue(s[1..]))
  {
  }

  /** In particular the `description` of an unsigned value reads back unchanged. */
  lemma ToBigIntOfNatDescription(n: nat)
    ensures ToBigInt(NatToDecimal(n)) == n
  {
    ToBigIntOfDescription(n);
  }
}
