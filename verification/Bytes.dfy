/** Byte strings, fixed-width hashes and addresses, and the hexadecimal text the handlers key rows by. */
module Bytes {

  datatype Option<+T> = None | Some(value: T)

  type byte = x: int | 0 <= x < 256

  /** common.Hash: exactly 32 bytes. */
  type Hash = b: seq<byte> | |b| == 32 witness seq(32, i => 0)

  /** common.Address: exactly 20 bytes. */
  type Address = b: seq<byte> | |b| == 20 witness seq(20, i => 0)

  const HEX_DIGITS := "0123456789abcdef"

  /** hex.EncodeToString: two lower-case digits a byte, high nibble first. */
  function HexEncode(b: seq<byte>): (s: string)
    ensures |s| == 2 * |b|
  {
    if b == [] then ""
    else [HEX_DIGITS[b[0] / 16], HEX_DIGITS[b[0] % 16]] + HexEncode(b[1..])
  }

  /** The value of one lower-case hexadecimal digit. */
  function NibbleValue(c: char): Option<int> {
    if '0' <= c <= '9' then Some(c as int - '0' as int)
    else if 'a' <= c <= 'f' then Some(c as int - 'a' as int + 10)
    else None
  }

  /** The reference decoder that HexEncode is measured against. */
  function HexDecode(s: string): Option<seq<byte>> {
    if s == "" then Some([])
    else if |s| == 1 then None
    else
      match (NibbleValue(s[0]), NibbleValue(s[1]), HexDecode(s[2..]))
      case (Some(h), Some(l), Some(rest)) =>
        if 0 <= h < 16 && 0 <= l < 16 then Some([16 * h + l] + rest) else None
      case _ => None
  }

  lemma NibbleRoundTrip(n: int)
    requires 0 <= n < 16
    ensures NibbleValue(HEX_DIGITS[n]) == Some(n)
  {
  }

  lemma {:induction false} HexRoundTrip(b: seq<byte>)
    ensures HexDecode(HexEncode(b)) == Some(b)
  {
    if b != [] {
      NibbleRoundTrip(b[0] / 16);
      NibbleRoundTrip(b[0] % 16);
      HexRoundTrip(b[1..]);
      var s := HexEncode(b);
      assert s[2..] == HexEncode(b[1..]);
      assert NibbleValue(s[0]) == Some(b[0] / 16) && NibbleValue(s[1]) == Some(b[0] % 16);
      assert b == [b[0]] + b[1..];
    }
  }

  /** Byte k is spelled by two digits, the high one first: 0 to 9, then a to f. */
  lemma {:induction false} HexDigits(b: seq<byte>, k: nat)
    requires k < |b|
    ensures var s := HexEncode(b);
            && s[2 * k] == (if b[k] < 160 then '0' + (b[k] / 16) as char else 'a' + (b[k] / 16 - 10) as char)
            && s[2 * k + 1] == (if b[k] % 16 < 10 then '0' + (b[k] % 16) as char else 'a' + (b[k] % 16 - 10) as char)
  {
    if k > 0 {
      HexDigits(b[1..], k - 1);
    }
  }

  /** Distinct order ids never share a row key. */
  lemma HexInjective(a: seq<byte>, b: seq<byte>)
    requires HexEncode(a) == HexEncode(b)
    ensures a == b
  {
    HexRoundTrip(a);
    HexRoundTrip(b);
  }
}
