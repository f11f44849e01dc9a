/**
 * The pure helpers of the old app's `Utils` namespace: hexadecimal text of
 * bytes and of UTF-8 strings, the dotted-path walk over decoded JSON
 * dictionaries, and the time-to-live check of an in-memory cache.
 */
module Utils {
  import opened Wrappers
  import opened Numerals

  newtype byte = b: int | 0 <= b < 256

  // ---------------------------------------------------------------------
  // Hexadecimal text of bytes
  // ---------------------------------------------------------------------

  /** `bytesToHexString`: each byte becomes two lower-case hex digits, in order. */
  function BytesToHexString(bytes: seq<byte>): (r: string)
    ensures |r| == 2 * |bytes|
    ensures forall i :: 0 <= i < |bytes| ==>
      r[2 * i] == HexDigit(bytes[i] as nat / 16) && r[2 * i + 1] == HexDigit(bytes[i] as nat % 16)
  {
    if bytes == [] then []
    else
      var b := bytes[0] as nat;
      [HexDigit(b / 16), HexDigit(b % 16)] + BytesToHexString(bytes[1..])
  }

  /** A reader of the text `bytesToHexString` writes: pairs of hex digits back to bytes. */
  function HexToBytes(s: string): (r: Option<seq<byte>>)
    ensures r.Some? ==> 2 * |r.value| == |s|
    decreases |s|
  {
    if s == [] then Some([])
    else if |s| < 2 || !IsHexDigit(s[0]) || !IsHexDigit(s[1]) then None
    else
      match HexToBytes(s[2..])
      case None => None
      case Some(rest) => Some([(DigitValue(s[0]) * 16 + DigitValue(s[1])) as byte] + rest)
  }

  /** Reading back the hex text of some bytes yields exactly those bytes. */
  lemma {:induction false} HexRoundTrip(bytes: seq<byte>)
    ensures HexToBytes(BytesToHexString(bytes)) == Some(bytes)
  {
    if bytes != [] {
      var b := bytes[0] as nat;
      var s := BytesToHexString(bytes);
      assert s[2..] == BytesToHexString(bytes[1..]);
      HexRoundTrip(bytes[1..]);
      HexDigitValue(b / 16);
      HexDigitValue(b % 16);
      assert [bytes[0]] + bytes[1..] == bytes;
    }
  }

  /** Since every byte takes exactly two digits, different byte strings never share a hex text. */
  lemma BytesToHexStringInjective(a: seq<byte>, b: seq<byte>)
    requires BytesToHexString(a) == BytesToHexString(b)
    ensures a == b
  {
    HexRoundTrip(a);
    HexRoundTrip(b);
  }

  // ---------------------------------------------------------------------
  // UTF-8 and stringToHex
  // ---------------------------------------------------------------------

  /** The UTF-8 bytes of one Unicode scalar value. */
  function Utf8OfChar(c: char): (r: seq<byte>)
    ensures 1 <= |r| <= 4
    ensures (c as int < 0x80) <==> |r| == 1
    ensures c as int < 0x80 ==> r == [c as int as byte]
  {
    var cp := c as int;
    if cp < 0x80 then [cp as byte]
    else if cp < 0x800 then [(0xC0 + cp / 64) as byte, (0x80 + cp % 64) as byte]
    else if cp < 0x10000 then
      [(0xE0 + cp / 4096) as byte, (0x80 + (cp / 64) % 64) as byte, (0x80 + cp % 64) as byte]
    else
      [(0xF0 + cp / 262144) as byte, (0x80 + (cp / 4096) % 64) as byte,
       (0x80 + (cp / 64) % 64) as byte, (0x80 + cp % 64) as byte]
  }

  /** `input.utf8`: the UTF-8 encoding of a string. */
  function Utf8(s: string): (r: seq<byte>)
    ensures |s| <= |r| <= 4 * |s|
  {
    if s == [] then [] else Utf8OfChar(s[0]) + Utf8(s[1..])
  }

  predicate IsAscii(s: string) { forall i :: 0 <= i < |s| ==> s[i] as int < 0x80 }

  /** How many UTF-8 bytes a code point takes: one below 0x80, two below 0x800, three below 0x10000, else four. */
  function EncodedLength(cp: int): nat
  {
    if cp < 0x80 then 1 else if cp < 0x800 then 2 else if cp < 0x10000 then 3 else 4
  }

  /** The length of the sequence a lead byte opens (110xxxxx, 1110xxxx, 11110xxx), or 0 when it opens none. */
  function SequenceLength(lead: byte): nat
  {
    if lead < 0x80 then 1
    else if 0xC0 <= lead < 0xE0 then 2
    else if 0xE0 <= lead < 0xF0 then 3
    else if 0xF0 <= lead < 0xF8 then 4
    else 0
  }

  /** A continuation byte, 10xxxxxx. */
  predicate IsContinuation(b: byte) { 0x80 <= b < 0xC0 }

  /** The code point a sequence spells: the lead byte's payload bits, then six bits per continuation byte. */
  function ScalarOf(r: seq<byte>): int
    requires 1 <= |r| <= 4
  {
    if |r| == 1 then r[0] as int
    else if |r| == 2 then (r[0] as int - 0xC0) * 64 + (r[1] as int - 0x80)
    else if |r| == 3 then ((r[0] as int - 0xE0) * 64 + (r[1] as int - 0x80)) * 64 + (r[2] as int - 0x80)
    else (((r[0] as int - 0xF0) * 64 + (r[1] as int - 0x80)) * 64 + (r[2] as int - 0x80)) * 64 + (r[3] as int - 0x80)
  }

  /** A Unicode scalar value: a code point that is not a surrogate. */
  predicate IsScalar(cp: int) { 0 <= cp < 0xD800 || 0xE000 <= cp < 0x110000 }

  /**
   * The encoding of one character is a well-formed UTF-8 sequence of the
   * shortest length for its code point: its lead byte announces that length,
   * every other byte is a continuation byte, and the bits spell the code point.
   */
  lemma Utf8OfCharShape(c: char)
    ensures |Utf8OfChar(c)| == EncodedLength(c as int)
    ensures SequenceLength(Utf8OfChar(c)[0]) == |Utf8OfChar(c)|
    ensures forall i :: 1 <= i < |Utf8OfChar(c)| ==> IsContinuation(Utf8OfChar(c)[i])
    ensures ScalarOf(Utf8OfChar(c)) == c as int
  {
    var cp := c as int;
    assert IsScalar(cp);
    if cp < 0x80 {
    } else if cp < 0x800 {
      TwoByteShape(cp);
    } else if cp < 0x10000 {
      ThreeByteShape(cp);
    } else {
      FourByteShape(cp);
    }
  }

  // The bytes of a code point from 0x80 to 0x7FF: lead 110xxxxx, one continuation.
  lemma TwoByteShape(cp: int)
    requires 0x80 <= cp < 0x800
    ensures 0xC0 <= 0xC0 + cp / 64 < 0xE0 && 0x80 <= 0x80 + cp % 64 < 0xC0
    ensures ScalarOf([(0xC0 + cp / 64) as byte, (0x80 + cp % 64) as byte]) == cp
  {
    assert cp == (cp / 64) * 64 + cp % 64;
  }

  // The bytes of a code point from 0x800 to 0xFFFF: lead 1110xxxx, two continuations.
  lemma ThreeByteShape(cp: int)
    requires 0x800 <= cp < 0x10000
    ensures 0xE0 <= 0xE0 + cp / 4096 < 0xF0
    ensures 0x80 <= 0x80 + (cp / 64) % 64 < 0xC0 && 0x80 <= 0x80 + cp % 64 < 0xC0
    ensures ScalarOf([(0xE0 + cp / 4096) as byte, (0x80 + (cp / 64) % 64) as byte, (0x80 + cp % 64) as byte]) == cp
  {
    assert cp / 64 == (cp / 4096) * 64 + (cp / 64) % 64;
    assert cp == (cp / 64) * 64 + cp % 64;
  }

  // The bytes of a code point from 0x10000 to 0x10FFFF: lead 11110xxx, three continuations.
  lemma FourByteShape(cp: int)
    requires 0x10000 <= cp < 0x110000
    ensures 0xF0 <= 0xF0 + cp / 262144 < 0xF8
    ensures 0x80 <= 0x80 + (cp / 4096) % 64 < 0xC0 && 0x80 <= 0x80 + (cp / 64) % 64 < 0xC0
    ensures 0x80 <= 0x80 + cp % 64 < 0xC0
    ensures ScalarOf([(0xF0 + cp / 262144) as byte, (0x80 + (cp / 4096) % 64) as byte,
                      (0x80 + (cp / 64) % 64) as byte, (0x80 + cp % 64) as byte]) == cp
  {
    assert cp / 4096 == (cp / 262144) * 64 + (cp / 4096) % 64;
    assert cp / 64 == (cp / 4096) * 64 + (cp / 64) % 64;
    assert cp == (cp / 64) * 64 + cp % 64;
  }

  /**
   * A strict UTF-8 reader: each sequence must open with a lead byte, carry
   * continuation bytes, spell a scalar value and use the shortest length for it.
   */
  function Utf8Decode(bytes: seq<byte>): (r: Option<string>)
    ensures r.Some? ==> |r.value| <= |bytes|
    decreases |bytes|
  {
    if bytes == [] then Some([])
    else
      var n := SequenceLength(bytes[0]);
      if n == 0 || |bytes| < n || !(forall i :: 1 <= i < n ==> IsContinuation(bytes[i])) then None
      else
        var cp := ScalarOf(bytes[..n]);
        if !IsScalar(cp) || EncodedLength(cp) != n then None
        else
          match Utf8Decode(bytes[n..])
          case None => None
          case Some(rest) => Some([cp as char] + rest)
  }

  /** Reading back the UTF-8 encoding of a string yields that string. */
  lemma {:induction false} Utf8RoundTrip(s: string)
    ensures Utf8Decode(Utf8(s)) == Some(s)
  {
    if s != [] {
      var r := Utf8OfChar(s[0]);
      var bytes := Utf8(s);
      Utf8OfCharShape(s[0]);
      assert bytes == r + Utf8(s[1..]);
      assert bytes[..|r|] == r;
      assert bytes[|r|..] == Utf8(s[1..]);
      Utf8RoundTrip(s[1..]);
      assert [s[0]] + s[1..] == s;
    }
  }

  /** Distinct strings have distinct UTF-8 encodings. */
  lemma Utf8Injective(a: string, b: string)
    requires Utf8(a) == Utf8(b)
    ensures a == b
  {
    Utf8RoundTrip(a);
    Utf8RoundTrip(b);
  }

  /** `stringToHex`: the hex text of the string's UTF-8 bytes. */
  function StringToHex(input: string): (r: string)
    ensures r == BytesToHexString(Utf8(input))
    ensures |r| >= 2 * |input|
  {
    BytesToHexString(Utf8(input))
  }

  /** ASCII text is one byte per character. */
  lemma {:induction false} Utf8OfAscii(s: string)
    requires IsAscii(s)
    ensures |Utf8(s)| == |s|
    ensures forall i :: 0 <= i < |s| ==> Utf8(s)[i] as int == s[i] as int
  {
    if s != [] {
      Utf8OfAscii(s[1..]);
    }
  }

  /** For ASCII text, `stringToHex` spells every character as two hex digits of its code. */
  lemma StringToHexOfAscii(s: string)
    requires IsAscii(s)
    ensures |StringToHex(s)| == 2 * |s|
    ensures forall i :: 0 <= i < |s| ==>
      StringToHex(s)[2 * i] == HexDigit(s[i] as int / 16) && StringToHex(s)[2 * i + 1] == HexDigit(s[i] as int % 16)
  {
    Utf8OfAscii(s);
  }

  /** The hex text of a string reads back, through hex and then UTF-8, to that string. */
  lemma StringToHexRoundTrip(s: string)
    ensures HexToBytes(StringToHex(s)) == Some(Utf8(s))
    ensures Utf8Decode(HexToBytes(StringToHex(s)).value) == Some(s)
  {
    HexRoundTrip(Utf8(s));
    Utf8RoundTrip(s);
  }

  // ---------------------------------------------------------------------
  // Dotted-path lookup in a decoded JSON dictionary
  // ---------------------------------------------------------------------

  /** A value `JSONSerialization` produces. */
  datatype JsonValue =
    | JsonObject(fields: map<string, JsonValue>)
    | JsonArray(items: seq<JsonValue>)
    | JsonString(text: string)
    | JsonNumber(number: int)
    | JsonBool(flag: bool)
    | JsonNull

  /** `components(separatedBy:)` for a one-character separator. */
  function Split(s: string, sep: char): (r: seq<string>)
    ensures |r| >= 1
  {
    if s == [] then [""]
    else if s[0] == sep then [""] + Split(s[1..], sep)
    else
      var rest := Split(s[1..], sep);
      [[s[0]] + rest[0]] + rest[1..]
  }

  /** `joined(separator:)`, the inverse of `Split`. */
  function Join(parts: seq<string>, sep: char): string
    requires |parts| >= 1
  {
    if |parts| == 1 then parts[0] else parts[0] + [sep] + Join(parts[1..], sep)
  }

  /** Splitting loses nothing: the pieces joined with the separator give back the path, and no piece holds a separator. */
  lemma SplitJoin(s: string, sep: char)
    ensures Join(Split(s, sep), sep) == s
    ensures forall k :: 0 <= k < |Split(s, sep)| ==> sep !in Split(s, sep)[k]
  {
    SplitThenJoin(s, sep);
    SplitPiecesFree(s, sep);
  }

  // Joining the pieces of a split gives the text back.
  lemma {:induction false} SplitThenJoin(s: string, sep: char)
    ensures Join(Split(s, sep), sep) == s
  {
    if s != [] {
      SplitThenJoin(s[1..], sep);
      var rest := Split(s[1..], sep);
      if s[0] == sep {
        assert Split(s, sep)[1..] == rest;
      } else {
        var r := Split(s, sep);
        if |rest| == 1 {
          assert [s[0]] + rest[0] == s;
        } else {
          assert r[1..] == rest[1..];
          assert Join(r, sep) == [s[0]] + rest[0] + [sep] + Join(rest[1..], sep);
          assert [s[0]] + (rest[0] + [sep] + Join(rest[1..], sep)) == s;
        }
      }
    }
  }

  // No piece of a split holds the separator.
  lemma {:induction false} SplitPiecesFree(s: string, sep: char)
    ensures forall k :: 0 <= k < |Split(s, sep)| ==> sep !in Split(s, sep)[k]
  {
    if s != [] {
      SplitPiecesFree(s[1..], sep);
      var rest := Split(s[1..], sep);
      var r := Split(s, sep);
      if s[0] != sep {
        assert forall k :: 1 <= k < |r| ==> r[k] == rest[k];
      }
    }
  }

  /** A path without a dot is a single component. */
  lemma {:induction false} SplitWithoutSeparator(s: string, sep: char)
    requires sep !in s
    ensures Split(s, sep) == [s]
  {
    if s != [] {
      SplitWithoutSeparator(s[1..], sep);
      assert [s[0]] + s[1..] == s;
    }
  }

  /** A piece without the separator, then the separator, splits off as its own piece. */
  lemma {:induction false} SplitAfterPiece(a: string, rest: string, sep: char)
    requires sep !in a
    ensures Split(a + [sep] + rest, sep) == [a] + Split(rest, sep)
  {
    var s := a + [sep] + rest;
    if a == [] {
      assert s[1..] == rest;
    } else {
      SplitAfterPiece(a[1..], rest, sep);
      assert s[1..] == a[1..] + [sep] + rest;
      assert [a[0]] + a[1..] == a;
    }
  }

  /** Joining pieces that hold no separator and splitting again gives the pieces back. */
  lemma {:induction false} JoinSplit(parts: seq<string>, sep: char)
    requires |parts| >= 1
    requires forall k :: 0 <= k < |parts| ==> sep !in parts[k]
    ensures Split(Join(parts, sep), sep) == parts
  {
    if |parts| == 1 {
      SplitWithoutSeparator(parts[0], sep);
    } else {
      var tail := parts[1..];
      assert forall k :: 0 <= k < |tail| ==> tail[k] == parts[k + 1];
      JoinSplit(tail, sep);
      assert Join(parts, sep) == parts[0] + [sep] + Join(tail, sep);
      SplitAfterPiece(parts[0], Join(tail, sep), sep);
      assert [parts[0]] + tail == parts;
    }
  }

  function Lookup(dict: map<string, JsonValue>, key: string): Option<JsonValue>
  {
    if key in dict then Some(dict[key]) else None
  }

  /**
   * The value reached by looking up the keys in turn, starting from `current`;
   * nothing as soon as an intermediate value is missing or not a dictionary.
   */
  function Walk(current: Option<JsonValue>, keys: seq<string>): (r: Option<JsonValue>)
    ensures keys != [] && r.Some? ==>
              current.Some? && current.value.JsonObject? && keys[0] in current.value.fields
    decreases |keys|
  {
    if keys == [] then current
    else
      match current
      case Some(JsonObject(fields)) => Walk(Lookup(fields, keys[0]), keys[1..])
      case _ => None
  }

  /** Walking a path in two pieces is walking it whole. */
  lemma {:induction false} WalkAppend(v: Option<JsonValue>, a: seq<string>, b: seq<string>)
    ensures Walk(v, a + b) == Walk(Walk(v, a), b)
    decreases |a|
  {
    if a == [] {
      assert a + b == b;
    } else {
      assert (a + b)[1..] == a[1..] + b;
      match v
      case Some(JsonObject(fields)) =>
        WalkAppend(Lookup(fields, a[0]), a[1..], b);
      case _ =>
        WalkFromNothing(b);
    }
  }

  lemma WalkFromNothing(b: seq<string>)
    ensures Walk(None, b) == None
  {
  }

  /**
   * `getValueFromJson(for:in:)`: nothing for a missing dictionary, a direct
   * lookup for a path without a dot, and otherwise a walk through the
   * dot-separated components.
   */
  method GetValueFromJson(path: string, dictionary: Option<map<string, JsonValue>>)
    returns (r: Option<JsonValue>)
    ensures dictionary.None? ==> r == None
    ensures dictionary.Some? && '.' !in path ==> r == Lookup(dictionary.value, path)
    ensures dictionary.Some? ==> r == Walk(Some(JsonObject(dictionary.value)), Split(path, '.'))
  {
    if dictionary.None? {
      return None;
    }
    var dict := dictionary.value;
    if '.' in path {
      var keys := Split(path, '.');
      var currentResult: Option<JsonValue> := Some(JsonObject(dict));
      var i := 0;
      while i < |keys|
        invariant 0 <= i <= |keys|
        invariant Walk(Some(JsonObject(dict)), keys) == Walk(currentResult, keys[i..])
      {
        assert keys[i..][1..] == keys[i + 1..];
        match currentResult {
          case Some(JsonObject(fields)) =>
            currentResult := Lookup(fields, keys[i]);
          case _ =>
            return None;
        }
        i := i + 1;
      }
      return currentResult;
    } else {
      SplitWithoutSeparator(path, '.');
      return Lookup(dict, path);
    }
  }

  // ---------------------------------------------------------------------
  // Time-to-live cache
  // ---------------------------------------------------------------------

  /** A cached value with the time, in seconds, at which it was stored. */
  datatype CacheEntry<T> = CacheEntry(data: T, timestamp: real)

  /** `isCacheValid`: the entry exists and was stored at most `timeInSeconds` before `now`. */
  predicate IsCacheValid<T>(key: string, cache: map<string, CacheEntry<T>>, timeInSeconds: real, now: real): (ok: bool)
    ensures ok ==> key in cache
    ensures key in cache ==> (ok <==> cache[key].timestamp >= now - timeInSeconds)
  {
    key in cache && now - cache[key].timestamp <= timeInSeconds
  }

  /** An entry that is valid now was valid at every earlier moment since it was stored, and under any longer limit. */
  lemma CacheValidityMonotone<T>(key: string, cache: map<string, CacheEntry<T>>, ttl: real, ttl': real, now: real, earlier: real)
    requires IsCacheValid(key, cache, ttl, now)
    requires earlier <= now && ttl <= ttl'
    ensures IsCacheValid(key, cache, ttl', earlier)
    ensures !IsCacheValid(key, map k | k in cache && k != key :: cache[k], ttl, now)
  {
  }

  /** `getCachedData`: the stored data exactly when the entry is still valid. */
  function GetCachedData<T>(cacheKey: string, cache: map<string, CacheEntry<T>>, timeInSeconds: real, now: real): (r: Option<T>)
    ensures r.Some? <==> IsCacheValid(cacheKey, cache, timeInSeconds, now)
    ensures r.Some? ==> r.value == cache[cacheKey].data
  {
    if cacheKey in cache && IsCacheValid(cacheKey, cache, timeInSeconds, now) then Some(cache[cacheKey].data) else None
  }
}
