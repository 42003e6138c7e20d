/** `encodeURIComponent` and `decodeURIComponent` over bytes (section 2.1 of RFC 3986). */
module PercentEncoding {
  import opened Common

  newtype Byte = x: int | 0 <= x < 256

  /** The characters `encodeURIComponent` leaves alone. */
  predicate Unreserved(c: char) {
    || 'A' <= c <= 'Z' || 'a' <= c <= 'z' || '0' <= c <= '9'
    || c in {'-', '_', '.', '!', '~', '*', '\'', '(', ')'}
  }

  function HexDigit(n: nat): char
    requires n < 16
  {
    if n < 10 then '0' + n as char else 'A' + (n - 10) as char
  }

  function HexValue(c: char): Option<nat> {
    if '0' <= c <= '9' then Some((c - '0') as nat)
    else if 'A' <= c <= 'F' then Some((c - 'A') as nat + 10)
    else if 'a' <= c <= 'f' then Some((c - 'a') as nat + 10)
    else None
  }

  function EncodeByte(b: Byte): string {
    if Unreserved(b as char) then [b as char]
    else ['%', HexDigit((b / 16) as nat), HexDigit((b % 16) as nat)]
  }

  function Encode(v: seq<Byte>): string {
    if v == [] then "" else EncodeByte(v[0]) + Encode(v[1..])
  }

  function Prepend(b: Byte, rest: Option<seq<Byte>>): Option<seq<Byte>> {
    if rest.Some? then Some([b] + rest.value) else None
  }

  /** None is the `URIError` of a malformed escape. */
  function Decode(s: string): Option<seq<Byte>> {
    if s == "" then Some([])
    else if s[0] == '%' then
      if |s| < 3 || HexValue(s[1]).None? || HexValue(s[2]).None? then None
      else Prepend((16 * HexValue(s[1]).value + HexValue(s[2]).value) as Byte, Decode(s[3..]))
    else if s[0] as int < 128 then Prepend(s[0] as Byte, Decode(s[1..]))
    else None
  }

  lemma HexRoundTrip(n: nat)
    requires n < 16
    ensures HexValue(HexDigit(n)) == Some(n) && HexDigit(n) != '/'
  {
  }

  lemma DecodeByte(b: Byte, rest: string)
    ensures Decode(EncodeByte(b) + rest) == Prepend(b, Decode(rest))
  {
    var s := EncodeByte(b) + rest;
    assert s[|EncodeByte(b)|..] == rest;
    if !Unreserved(b as char) {
      HexRoundTrip((b / 16) as nat);
      HexRoundTrip((b % 16) as nat);
    }
  }

  /** Decoding gives back exactly the bytes that were encoded. */
  lemma {:induction false} DecodeEncode(v: seq<Byte>)
    ensures Decode(Encode(v)) == Some(v)
  {
    if v != [] {
      DecodeByte(v[0], Encode(v[1..]));
      DecodeEncode(v[1..]);
      assert [v[0]] + v[1..] == v;
    }
  }

  /** An encoded value fits in one path segment, and is empty only when the value is. */
  lemma {:induction false} EncodedIsOneSegment(v: seq<Byte>)
    ensures '/' !in Encode(v) && (Encode(v) == "" <==> v == [])
  {
    if v != [] {
      EncodedIsOneSegment(v[1..]);
      HexRoundTrip((v[0] / 16) as nat);
      HexRoundTrip((v[0] % 16) as nat);
    }
  }
}
