/**
 * `base64.RawURLEncoding.DecodeString`: the URL- and filename-safe alphabet
 * of section 5 of RFC 4648 without padding, as Go's decoder applies it
 * (carriage returns and newlines are ignored, a final group of one character
 * is an error, the unused low bits of a final group are not checked). The
 * encoder is the partner of the decoder: decoding an encoding gives back the
 * bytes.
 */
module Base64Url {
  import opened Wrappers

  type byte = x: int | 0 <= x < 256
  type sextet = x: int | 0 <= x < 64

  /** The value of one alphabet character. */
  function SextetOf(c: char): Option<sextet> {
    if 'A' <= c <= 'Z' then Some(c as int - 'A' as int)
    else if 'a' <= c <= 'z' then Some(c as int - 'a' as int + 26)
    else if '0' <= c <= '9' then Some(c as int - '0' as int + 52)
    else if c == '-' then Some(62)
    else if c == '_' then Some(63)
    else None
  }

  /** The alphabet character of a value. */
  function CharOf(v: sextet): (c: char)
    ensures SextetOf(c) == Some(v)
    ensures c != '\r' && c != '\n'
  {
    if v < 26 then ('A' as int + v) as char
    else if v < 52 then ('a' as int + v - 26) as char
    else if v < 62 then ('0' as int + v - 52) as char
    else if v == 62 then '-'
    else '_'
  }

  /** The input with every carriage return and newline removed. */
  function StripNewlines(s: string): (r: string)
    ensures |r| <= |s|
    ensures forall k :: 0 <= k < |r| ==> r[k] != '\r' && r[k] != '\n'
  {
    if s == [] then []
    else if s[0] == '\r' || s[0] == '\n' then StripNewlines(s[1..])
    else [s[0]] + StripNewlines(s[1..])
  }

  /** The values of all characters, or `None` if one is outside the alphabet. */
  function Sextets(s: string): (r: Option<seq<sextet>>)
    ensures r.Some? <==> forall k :: 0 <= k < |s| ==> SextetOf(s[k]).Some?
    ensures r.Some? ==> |r.value| == |s| && forall k :: 0 <= k < |s| ==> r.value[k] == SextetOf(s[k]).value
  {
    if s == [] then Some([])
    else match (SextetOf(s[0]), Sextets(s[1..]))
      case (Some(v), Some(rest)) => Some([v] + rest)
      case _ => None
  }

  /** Groups of four values make three bytes; a final group of two or three makes one or two. */
  function DecodeSextets(v: seq<sextet>): (b: seq<byte>)
    requires |v| % 4 != 1
    ensures |b| == |v| * 6 / 8
  {
    if |v| == 0 then []
    else
      var a: int, b: int := v[0], v[1];
      var c: int := if |v| > 2 then v[2] else 0;
      var d: int := if |v| > 3 then v[3] else 0;
      if |v| == 2 then [a * 4 + b / 16]
      else if |v| == 3 then [a * 4 + b / 16, (b % 16) * 16 + c / 4]
      else [a * 4 + b / 16, (b % 16) * 16 + c / 4, (c % 4) * 64 + d] + DecodeSextets(v[4..])
  }

  /**
   * `DecodeString`: fails exactly when a character other than a carriage
   * return or newline is outside the alphabet, or when the characters that
   * remain leave a final group of one.
   */
  function Decode(s: string): (r: Option<seq<byte>>)
    ensures r.Some? <==>
      && (forall k :: 0 <= k < |StripNewlines(s)| ==> SextetOf(StripNewlines(s)[k]).Some?)
      && |StripNewlines(s)| % 4 != 1
    ensures r.Some? ==> |r.value| == |StripNewlines(s)| * 6 / 8
  {
    var t := StripNewlines(s);
    match Sextets(t)
    case None => None
    case Some(v) => if |v| % 4 == 1 then None else Some(DecodeSextets(v))
  }

  /** The values of the unpadded encoding of `b`. */
  function EncodeSextets(b: seq<byte>): (v: seq<sextet>)
    ensures |v| % 4 != 1
  {
    if |b| == 0 then []
    else if |b| == 1 then [b[0] / 4, (b[0] % 4) * 16]
    else if |b| == 2 then [b[0] / 4, (b[0] % 4) * 16 + b[1] / 16, (b[1] % 16) * 4]
    else
      [b[0] / 4, (b[0] % 4) * 16 + b[1] / 16, (b[1] % 16) * 4 + b[2] / 64, b[2] % 64]
      + EncodeSextets(b[3..])
  }

  /** `base64.RawURLEncoding.EncodeToString`. */
  function Encode(b: seq<byte>): string {
    var v := EncodeSextets(b);
    seq(|v|, k requires 0 <= k < |v| => CharOf(v[k]))
  }

  lemma {:induction false} DecodeEncodeSextets(b: seq<byte>)
    ensures DecodeSextets(EncodeSextets(b)) == b
  {
    if |b| >= 3 {
      DecodeEncodeSextets(b[3..]);
      assert b == b[..3] + b[3..];
    }
  }

  lemma {:induction false} StripNewlinesFree(s: string)
    requires forall k :: 0 <= k < |s| ==> s[k] != '\r' && s[k] != '\n'
    ensures StripNewlines(s) == s
  {
    if s != [] {
      StripNewlinesFree(s[1..]);
    }
  }

  /** Decoding the encoding of any byte string gives back that byte string. */
  lemma DecodeEncode(b: seq<byte>)
    ensures Decode(Encode(b)) == Some(b)
  {
    var s := Encode(b);
    StripNewlinesFree(s);
    var v := EncodeSextets(b);
    assert forall k :: 0 <= k < |s| ==> s[k] == CharOf(v[k]);
    assert Sextets(s).value == v;
    DecodeEncodeSextets(b);
  }
}
