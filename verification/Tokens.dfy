/** Worker tokens: the prefix and the hexadecimal form of 32 random bytes. */
module Tokens {
  import opened Wrappers
  import opened Regions

  newtype Byte = x: int | 0 <= x < 256

  const TOKEN_PREFIX := "ostk_"
  const TOKEN_BYTES: nat := 32
  const DIGITS := "0123456789abcdef"

  /** hex.EncodeToString: two lower-case digits a byte, the high one first. */
  function Encode(bytes: seq<Byte>): (s: string)
    ensures |s| == 2 * |bytes|
  {
    if bytes == [] then ""
    else [DIGITS[bytes[0] / 16]] + [DIGITS[bytes[0] % 16]] + Encode(bytes[1..])
  }

  function DigitValue(c: char): (v: Option<Byte>)
    ensures v.Some? ==> v.value < 16
  {
    if '0' <= c <= '9' then Some((c as int - '0' as int) as Byte)
    else if 'a' <= c <= 'f' then Some((c as int - 'a' as int + 10) as Byte)
    else if 'A' <= c <= 'F' then Some((c as int - 'A' as int + 10) as Byte)
    else None
  }

  /** hex.DecodeString: None for an odd length or a character that is no digit. */
  function Decode(s: string): Option<seq<Byte>> {
    if s == "" then Some([])
    else if |s| == 1 then None
    else
      match (DigitValue(s[0]), DigitValue(s[1]), Decode(s[2..]))
      case (Some(high), Some(low), Some(rest)) => Some([16 * high + low] + rest)
      case _ => None
  }

  lemma DigitOf(v: Byte)
    requires v < 16
    ensures DigitValue(DIGITS[v]) == Some(v)
  {
  }

  predicate HexDigit(c: char) {
    c in "0123456789abcdefABCDEF"
  }

  lemma ValueOf(c: char)
    ensures DigitValue(c).Some? <==> HexDigit(c)
    ensures DigitValue(c).Some? ==> DIGITS[DigitValue(c).value] == Lower(c)
  {
    var digits := "0123456789abcdefABCDEF";
    assert digits[0] == '0' && digits[1] == '1' && digits[2] == '2' && digits[3] == '3' && digits[4] == '4' && digits[5] == '5';
    assert digits[6] == '6' && digits[7] == '7' && digits[8] == '8' && digits[9] == '9' && digits[10] == 'a' && digits[11] == 'b';
    assert digits[12] == 'c' && digits[13] == 'd' && digits[14] == 'e' && digits[15] == 'f' && digits[16] == 'A';
    assert digits[17] == 'B' && digits[18] == 'C' && digits[19] == 'D' && digits[20] == 'E' && digits[21] == 'F';
  }

  lemma {:induction false} DecodeOfEncode(bytes: seq<Byte>)
    ensures Decode(Encode(bytes)) == Some(bytes)
  {
    if bytes != [] {
      var b, s := bytes[0], Encode(bytes);
      DecodeOfEncode(bytes[1..]);
      DigitOf(b / 16);
      DigitOf(b % 16);
      assert s[2..] == Encode(bytes[1..]);
      assert bytes == [b] + bytes[1..];
    }
  }

  /** Decoding reads exactly the even-length texts of hexadecimal digits, of either case. */
  lemma {:induction false} DecodeIff(s: string)
    ensures Decode(s).Some? <==> |s| % 2 == 0 && forall i :: 0 <= i < |s| ==> HexDigit(s[i])
  {
    hide HexDigit, DigitValue;
    if |s| >= 2 {
      DecodeIff(s[2..]);
      ValueOf(s[0]);
      ValueOf(s[1]);
      assert forall i :: 0 <= i < |s| - 2 ==> s[2..][i] == s[i + 2];
      if forall i :: 0 <= i < |s| - 2 ==> HexDigit(s[2..][i]) {
        forall i | 2 <= i < |s| ensures HexDigit(s[i]) {
          assert s[i] == s[2..][i - 2];
        }
      }
    }
  }

  lemma TwoDigits(high: Byte, low: Byte)
    requires high < 16 && low < 16
    ensures (16 * high + low) / 16 == high && (16 * high + low) % 16 == low
  {
  }

  lemma LowerSplit(s: string)
    requires |s| >= 2
    ensures ToLower(s) == [Lower(s[0])] + [Lower(s[1])] + ToLower(s[2..])
  {
  }

  /** What was decoded is encoded again in lower case, so two texts of the same bytes differ in case only. */
  lemma {:induction false} EncodeOfDecode(s: string)
    requires Decode(s).Some?
    ensures Encode(Decode(s).value) == ToLower(s)
  {
    hide HexDigit, DigitValue, Lower, ToLower;
    if s == "" {
      assert ToLower(s) == "";
    } else {
      var bytes, rest := Decode(s).value, Decode(s[2..]).value;
      EncodeOfDecode(s[2..]);
      ValueOf(s[0]);
      ValueOf(s[1]);
      TwoDigits(DigitValue(s[0]).value, DigitValue(s[1]).value);
      LowerSplit(s);
      assert bytes[1..] == rest;
    }
  }

  /** GenerateAPIToken on these random bytes. */
  function Generate(bytes: seq<Byte>): string {
    TOKEN_PREFIX + Encode(bytes)
  }

  /** ValidateTokenFormat. */
  predicate WellFormed(token: string) {
    TOKEN_PREFIX <= token && |token| == |TOKEN_PREFIX| + 2 * TOKEN_BYTES && Decode(token[|TOKEN_PREFIX|..]).Some?
  }

  /** The accepted tokens: the prefix and 64 hexadecimal digits of either case. */
  lemma WellFormedIff(token: string)
    ensures WellFormed(token) <==>
              |token| == 69 && token[..5] == "ostk_" && forall i :: 5 <= i < 69 ==> HexDigit(token[i])
  {
    hide HexDigit, Decode;
    if |token| == 69 {
      var hex := token[5..];
      DecodeIff(hex);
      assert forall i :: 0 <= i < 64 ==> hex[i] == token[i + 5];
      forall i | 5 <= i < 69 ensures token[i] == hex[i - 5] {
      }
    }
  }

  /** Every generated token is accepted, and no two draws give the same one. */
  lemma GeneratedAreAccepted(bytes: seq<Byte>, other: seq<Byte>)
    ensures WellFormed(Generate(bytes)) <==> |bytes| == TOKEN_BYTES
    ensures Generate(bytes) == Generate(other) ==> bytes == other
  {
    DecodeOfEncode(bytes);
    DecodeOfEncode(other);
    assert Generate(bytes)[|TOKEN_PREFIX|..] == Encode(bytes);
    assert Generate(other)[|TOKEN_PREFIX|..] == Encode(other);
  }

  /** An accepted token in lower case is one that could have been generated, from exactly one draw. */
  lemma AcceptedIsGenerated(token: string)
    requires WellFormed(token) && ToLower(token) == token
    ensures exists bytes :: |bytes| == TOKEN_BYTES && Generate(bytes) == token
  {
    var hex := token[|TOKEN_PREFIX|..];
    EncodeOfDecode(hex);
    assert forall i :: 0 <= i < |hex| ==> hex[i] == token[i + 5] && ToLower(token)[i + 5] == Lower(hex[i]);
    assert ToLower(hex) == hex;
    assert token == TOKEN_PREFIX + hex;
    assert Generate(Decode(hex).value) == token;
  }
}
