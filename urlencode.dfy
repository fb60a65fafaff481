/**
 * `urllib.parse.urlencode` over a parameter list, as the resource URL uses it: every key and
 * value is encoded to UTF-8 and quoted with `quote_plus` (letters, digits and `_.-~` kept,
 * space as `+`, every other byte as `%XX` with upper-case hex), pairs joined by `&`.
 * The decoding functions below are the inverse a server applies; they exist to state that
 * the encoding loses nothing.
 */
module UrlEncoding {
  import opened Wrappers
  import opened Text

  /** One `key=value` query parameter, in the order the caller's dict yields them. */
  type Param = (string, string)

  predicate AlwaysSafe(b: byte)
  {
    ('A' as int <= b <= 'Z' as int) || ('a' as int <= b <= 'z' as int) || ('0' as int <= b <= '9' as int)
    || b == '_' as int || b == '.' as int || b == '-' as int || b == '~' as int
  }

  function HexDigit(d: nat): char
    requires d < 16
  {
    if d < 10 then ('0' as int + d) as char else ('A' as int + d - 10) as char
  }

  predicate IsHex(c: char) { ('0' <= c <= '9') || ('A' <= c <= 'F') || ('a' <= c <= 'f') }

  function HexValue(c: char): nat
    requires IsHex(c)
  {
    if '0' <= c <= '9' then c as int - '0' as int
    else if 'A' <= c <= 'F' then c as int - 'A' as int + 10
    else c as int - 'a' as int + 10
  }

  // ---------------------------------------------------------------- UTF-8

  predicate IsScalar(cp: int) { (0 <= cp < 0xD800) || (0xE000 <= cp < 0x110000) }

  /** The UTF-8 encoding of one character. */
  function Utf8EncodeChar(c: char): (bs: seq<byte>)
    ensures 1 <= |bs| <= 4
  {
    var cp := c as int;
    var lo := cp % 64;
    var a := cp / 64;
    var mid := a % 64;
    var b := a / 64;
    var hi := b % 64;
    if cp < 0x80 then [cp]
    else if cp < 0x800 then [0xC0 + a, 0x80 + lo]
    else if cp < 0x10000 then [0xE0 + b, 0x80 + mid, 0x80 + lo]
    else [0xF0 + b / 64, 0x80 + hi, 0x80 + mid, 0x80 + lo]
  }

  function Utf8Encode(s: string): seq<byte>
    decreases |s|
  {
    if s == [] then [] else Utf8EncodeChar(s[0]) + Utf8Encode(s[1..])
  }

  /** Length of the sequence a lead byte announces; 0 for a byte that cannot lead one. */
  function LeadLength(b: byte): nat
  {
    if b < 0x80 then 1
    else if 0xC0 <= b < 0xE0 then 2
    else if 0xE0 <= b < 0xF0 then 3
    else if 0xF0 <= b < 0xF8 then 4
    else 0
  }

  predicate IsContinuation(b: byte) { 0x80 <= b < 0xC0 }

  function DecodeScalar(bs: seq<byte>): Option<char>
    requires 1 <= |bs| <= 4 && |bs| == LeadLength(bs[0])
  {
    if exists k | 1 <= k < |bs| :: !IsContinuation(bs[k]) then None
    else
      var cp: int :=
        if |bs| == 1 then bs[0]
        else if |bs| == 2 then (bs[0] as int - 0xC0) * 64 + (bs[1] as int - 0x80)
        else if |bs| == 3 then ((bs[0] as int - 0xE0) * 64 + (bs[1] as int - 0x80)) * 64 + (bs[2] as int - 0x80)
        else (((bs[0] as int - 0xF0) * 64 + (bs[1] as int - 0x80)) * 64 + (bs[2] as int - 0x80)) * 64 + (bs[3] as int - 0x80);
      if IsScalar(cp) then Some(cp as char) else None
  }

  function Utf8Decode(bs: seq<byte>): Option<string>
    decreases |bs|
  {
    if bs == [] then Some([])
    else
      var n := LeadLength(bs[0]);
      if n == 0 || |bs| < n then None
      else match DecodeScalar(bs[..n])
        case None => None
        case Some(c) =>
          match Utf8Decode(bs[n..])
          case None => None
          case Some(rest) => Some([c] + rest)
  }

  lemma Utf8CharRoundTrip(c: char, rest: seq<byte>)
    ensures var e := Utf8EncodeChar(c);
      LeadLength(e[0]) == |e| && (e + rest)[..|e|] == e && (e + rest)[|e|..] == rest
      && DecodeScalar(e) == Some(c)
  {
    var cp := c as int;
    var e := Utf8EncodeChar(c);
    assert (e + rest)[..|e|] == e;
    assert (e + rest)[|e|..] == rest;
    var lo := cp % 64;
    var a := cp / 64;
    var mid := a % 64;
    var b := a / 64;
    assert cp == a * 64 + lo;
    assert a == b * 64 + mid;
    if cp < 0x80 {
    } else if cp < 0x800 {
      assert DecodeScalar(e) == Some(c);
    } else if cp < 0x10000 {
      assert (b * 64 + mid) * 64 + lo == cp;
      assert DecodeScalar(e) == Some(c);
    } else {
      var hi := b % 64;
      assert b == (b / 64) * 64 + hi;
      assert ((b / 64 * 64 + hi) * 64 + mid) * 64 + lo == cp;
      assert DecodeScalar(e) == Some(c);
    }
  }

  /** Decoding the UTF-8 encoding of a string gives the string back. */
  lemma {:induction false} Utf8RoundTrip(s: string)
    ensures Utf8Decode(Utf8Encode(s)) == Some(s)
    decreases |s|
  {
    if s != [] {
      var e := Utf8EncodeChar(s[0]);
      var rest := Utf8Encode(s[1..]);
      Utf8CharRoundTrip(s[0], rest);
      Utf8RoundTrip(s[1..]);
      assert Utf8Encode(s) == e + rest;
      assert [s[0]] + s[1..] == s;
    }
  }

  // ---------------------------------------------------------------- quoting

  /** How `quote_plus` writes one byte. */
  function QuoteByte(b: byte): (t: string)
    ensures 1 <= |t| <= 3
  {
    if AlwaysSafe(b) then [b as char]
    else if b == 32 then "+"
    else ['%', HexDigit(b / 16), HexDigit(b % 16)]
  }

  function QuoteBytes(bs: seq<byte>): (t: string)
    ensures '&' !in t && '=' !in t
    decreases |bs|
  {
    if bs == [] then [] else QuoteByte(bs[0]) + QuoteBytes(bs[1..])
  }

  /** `urllib.parse.quote_plus(s)` with the default UTF-8 encoding and nothing extra kept safe. */
  function QuotePlus(s: string): (t: string)
    ensures '&' !in t && '=' !in t
  {
    QuoteBytes(Utf8Encode(s))
  }

  /** Undo QuoteBytes: `+` is a space, `%XX` a byte, any other character below 256 itself. */
  function UnquoteBytes(t: string): Option<seq<byte>>
    decreases |t|
  {
    if t == [] then Some([])
    else
      var step: Option<(byte, nat)> :=
        if t[0] == '+' then Some((32, 1))
        else if t[0] == '%' then
          if |t| >= 3 && IsHex(t[1]) && IsHex(t[2]) then Some((HexValue(t[1]) * 16 + HexValue(t[2]), 3)) else None
        else if t[0] as int < 256 then Some((t[0] as int, 1))
        else None;
      match step
      case None => None
      case Some((b, n)) =>
        match UnquoteBytes(t[n..])
        case None => None
        case Some(rest) => Some([b] + rest)
  }

  function UnquotePlus(t: string): Option<string>
  {
    match UnquoteBytes(t)
    case None => None
    case Some(bs) => Utf8Decode(bs)
  }

  lemma QuoteByteRoundTrip(b: byte, rest: string)
    ensures var t := QuoteByte(b);
      (t + rest)[..|t|] == t && (t + rest)[|t|..] == rest
      && (t[0] == '+' <==> b == 32)
      && (t[0] == '%' <==> !AlwaysSafe(b) && b != 32)
      && (t[0] == '%' ==> IsHex(t[1]) && IsHex(t[2]) && HexValue(t[1]) * 16 + HexValue(t[2]) == b)
      && (t[0] != '+' && t[0] != '%' ==> |t| == 1 && t[0] as int == b)
  {
    var t := QuoteByte(b);
    assert (t + rest)[..|t|] == t;
    assert (t + rest)[|t|..] == rest;
  }

  lemma {:induction false} QuoteBytesRoundTrip(bs: seq<byte>)
    ensures UnquoteBytes(QuoteBytes(bs)) == Some(bs)
    decreases |bs|
  {
    if bs != [] {
      var t := QuoteByte(bs[0]);
      var rest := QuoteBytes(bs[1..]);
      QuoteByteRoundTrip(bs[0], rest);
      QuoteBytesRoundTrip(bs[1..]);
      assert QuoteBytes(bs) == t + rest;
      assert (t + rest)[0] == t[0];
      if t[0] == '%' {
        assert (t + rest)[1] == t[1] && (t + rest)[2] == t[2];
      }
      assert [bs[0]] + bs[1..] == bs;
    }
  }

  /** `unquote_plus(quote_plus(s)) == s`. */
  lemma QuotePlusRoundTrip(s: string)
    ensures UnquotePlus(QuotePlus(s)) == Some(s)
  {
    QuoteBytesRoundTrip(Utf8Encode(s));
    Utf8RoundTrip(s);
  }

  // ---------------------------------------------------------------- query strings

  function EncodeParam(p: Param): string
  {
    QuotePlus(p.0) + "=" + QuotePlus(p.1)
  }

  function EncodedParams(ps: seq<Param>): (pieces: seq<string>)
    ensures |pieces| == |ps|
    ensures forall k | 0 <= k < |ps| :: pieces[k] == EncodeParam(ps[k])
  {
    seq(|ps|, k requires 0 <= k < |ps| => EncodeParam(ps[k]))
  }

  /** `urllib.parse.urlencode(params)`. */
  function UrlEncode(ps: seq<Param>): (q: string)
    ensures q == [] <==> ps == []
  {
    var pieces := EncodedParams(ps);
    assert ps != [] ==> |pieces[0]| >= 1 && JoinWith(pieces, '&') != [] by {
      if ps != [] {
        JoinStartsWithFirst(pieces, '&');
      }
    }
    JoinWith(pieces, '&')
  }

  lemma {:induction false} JoinStartsWithFirst(pieces: seq<string>, c: char)
    requires |pieces| >= 1
    ensures StartsWith(JoinWith(pieces, c), pieces[0])
  {
    if |pieces| > 1 {
      var j := JoinWith(pieces, c);
      assert j == pieces[0] + ([c] + JoinWith(pieces[1..], c));
    }
  }

  function DecodeParam(piece: string): Option<Param>
  {
    match IndexOf(piece, '=')
    case None => None
    case Some(i) =>
      match (UnquotePlus(piece[..i]), UnquotePlus(piece[i + 1..]))
      case (Some(k), Some(v)) => Some((k, v))
      case _ => None
  }

  function DecodeParams(pieces: seq<string>): Option<seq<Param>>
    decreases |pieces|
  {
    if pieces == [] then Some([])
    else match (DecodeParam(pieces[0]), DecodeParams(pieces[1..]))
      case (Some(p), Some(rest)) => Some([p] + rest)
      case _ => None
  }

  /** Read a query string back into its parameters. */
  function ParseQuery(q: string): Option<seq<Param>>
  {
    if q == [] then Some([]) else DecodeParams(SplitOn(q, '&'))
  }

  lemma DecodeParamRoundTrip(p: Param)
    ensures DecodeParam(EncodeParam(p)) == Some(p)
  {
    var k := QuotePlus(p.0);
    var v := QuotePlus(p.1);
    var piece := k + "=" + v;
    assert piece[..|k|] == k;
    assert piece[|k| + 1..] == v;
    assert piece[|k|] == '=';
    assert IndexOf(piece, '=') == Some(|k|);
    QuotePlusRoundTrip(p.0);
    QuotePlusRoundTrip(p.1);
  }

  lemma {:induction false} DecodeParamsRoundTrip(ps: seq<Param>)
    ensures DecodeParams(EncodedParams(ps)) == Some(ps)
    decreases |ps|
  {
    if ps != [] {
      DecodeParamRoundTrip(ps[0]);
      assert EncodedParams(ps)[1..] == EncodedParams(ps[1..]);
      DecodeParamsRoundTrip(ps[1..]);
      assert [ps[0]] + ps[1..] == ps;
    }
  }

  /** Every parameter list survives urlencode: parsing the query gives the same list back. */
  lemma QueryRoundTrip(ps: seq<Param>)
    ensures ParseQuery(UrlEncode(ps)) == Some(ps)
  {
    if ps != [] {
      var pieces := EncodedParams(ps);
      forall k | 0 <= k < |pieces|
        ensures '&' !in pieces[k]
      {
        assert pieces[k] == QuotePlus(ps[k].0) + "=" + QuotePlus(ps[k].1);
      }
      SplitJoin(pieces, '&');
      DecodeParamsRoundTrip(ps);
    }
  }
}
