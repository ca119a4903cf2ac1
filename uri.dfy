/** `encodeURIComponent`: every character outside the unreserved set is
    written as the `%XX` escapes of its UTF-8 bytes, with upper-case hex
    digits. A reference decoder (percent-unescaping followed by UTF-8
    decoding) is its partner: decoding an encoded string gives it back. */
module Uri {
  import opened Wrappers
  import opened Text

  /** The characters `encodeURIComponent` leaves alone: ASCII letters,
      digits and `- _ . ! ~ * ' ( )`. */
  predicate IsUnreserved(c: char) {
    || 'A' <= c <= 'Z' || 'a' <= c <= 'z' || '0' <= c <= '9'
    || c == '-' || c == '_' || c == '.' || c == '!' || c == '~'
    || c == '*' || c == '\'' || c == '(' || c == ')'
  }

  predicate IsByte(b: int) {
    0 <= b < 256
  }

  predicate AllBytes(bs: seq<int>) {
    forall i :: 0 <= i < |bs| ==> IsByte(bs[i])
  }

  /** The UTF-8 encoding of one Unicode scalar value. */
  function Utf8(c: char): (bs: seq<int>)
    ensures 1 <= |bs| <= 4 && AllBytes(bs)
  {
    var cp := c as int;
    if cp < 0x80 then [cp]
    else if cp < 0x800 then [0xC0 + cp / 64, 0x80 + cp % 64]
    else if cp < 0x10000 then [0xE0 + cp / 4096, 0x80 + (cp / 64) % 64, 0x80 + cp % 64]
    else [0xF0 + cp / 0x40000, 0x80 + (cp / 4096) % 64, 0x80 + (cp / 64) % 64, 0x80 + cp % 64]
  }

  function Utf8Encode(s: string): (bs: seq<int>)
    ensures AllBytes(bs)
  {
    if s == [] then [] else Utf8(s[0]) + Utf8Encode(s[1..])
  }

  function HexUpper(d: nat): (c: char)
    requires d < 16
    ensures IsHexDigit(c) && IsUnreserved(c) && HexDigitValue(c) == d
  {
    "0123456789ABCDEF"[d]
  }

  function PercentBytes(bs: seq<int>): (r: string)
    requires AllBytes(bs)
    ensures |r| == 3 * |bs|
  {
    if bs == [] then []
    else ['%', HexUpper(bs[0] / 16), HexUpper(bs[0] % 16)] + PercentBytes(bs[1..])
  }

  /** The `i`-th byte is written at `3 * i` as `%` and two hex digits whose
      value is that byte. */
  lemma {:induction false} PercentBytesShape(bs: seq<int>, i: nat)
    requires AllBytes(bs) && i < |bs|
    ensures var r := PercentBytes(bs);
      && r[3 * i] == '%' && IsHexDigit(r[3 * i + 1]) && IsHexDigit(r[3 * i + 2])
      && HexDigitValue(r[3 * i + 1]) * 16 + HexDigitValue(r[3 * i + 2]) == bs[i]
    decreases i
  {
    if i > 0 {
      PercentBytesShape(bs[1..], i - 1);
      var head := ['%', HexUpper(bs[0] / 16), HexUpper(bs[0] % 16)];
      var tail := PercentBytes(bs[1..]);
      assert PercentBytes(bs) == head + tail;
      assert 3 * i == 3 * (i - 1) + 3;
    }
  }

  function EncodeChar(c: char): string {
    if IsUnreserved(c) then [c] else PercentBytes(Utf8(c))
  }

  /** `encodeURIComponent(s)`. */
  function EncodeUriComponent(s: string): (r: string)
    ensures forall i :: 0 <= i < |r| ==> IsUnreserved(r[i]) || r[i] == '%'
  {
    if s == [] then []
    else
      var e := EncodeChar(s[0]);
      assert forall i :: 0 <= i < |e| ==> IsUnreserved(e[i]) || e[i] == '%' by {
        if !IsUnreserved(s[0]) { PercentBytesSafe(Utf8(s[0])); }
      }
      e + EncodeUriComponent(s[1..])
  }

  lemma {:induction false} PercentBytesSafe(bs: seq<int>)
    requires AllBytes(bs)
    ensures forall i :: 0 <= i < |PercentBytes(bs)| ==>
      IsUnreserved(PercentBytes(bs)[i]) || PercentBytes(bs)[i] == '%'
  {
    if bs != [] {
      PercentBytesSafe(bs[1..]);
      var head := ['%', HexUpper(bs[0] / 16), HexUpper(bs[0] % 16)];
      var tail := PercentBytes(bs[1..]);
      assert PercentBytes(bs) == head + tail;
      forall i | 0 <= i < |head + tail|
        ensures IsUnreserved((head + tail)[i]) || (head + tail)[i] == '%'
      {
        if i >= 3 { assert (head + tail)[i] == tail[i - 3]; }
      }
    }
  }

  /** The encoding leaves no query delimiter in place: a country name such
      as "Trinidad & Tobago" cannot end the `country` parameter early. */
  lemma NoQueryDelimiters(s: string)
    ensures var r := EncodeUriComponent(s);
      forall i :: 0 <= i < |r| ==> r[i] !in {'&', '=', '#', '?', '+', ' ', '/'}
  {
  }

  /** A string made only of unreserved characters is sent as it is. */
  lemma {:induction false} EncodeUnreservedIdentity(s: string)
    requires forall i :: 0 <= i < |s| ==> IsUnreserved(s[i])
    ensures EncodeUriComponent(s) == s
  {
    if s != [] {
      EncodeUnreservedIdentity(s[1..]);
    }
  }

  // ---------------------------------------------------------------------
  // Reference decoder
  // ---------------------------------------------------------------------

  /** Percent-unescaping into bytes; a literal character must be ASCII. */
  function Unescape(s: string): Option<seq<int>>
  {
    if s == [] then Some([])
    else if s[0] == '%' then
      if |s| >= 3 && IsHexDigit(s[1]) && IsHexDigit(s[2]) then
        match Unescape(s[3..])
        case None => None
        case Some(rest) => Some([HexDigitValue(s[1]) * 16 + HexDigitValue(s[2])] + rest)
      else None
    else if s[0] as int < 0x80 then
      match Unescape(s[1..])
      case None => None
      case Some(rest) => Some([s[0] as int] + rest)
    else None
  }

  /** The number of bytes announced by a UTF-8 leading byte, 0 if invalid. */
  function SequenceLength(b: int): nat {
    if 0 <= b < 0x80 then 1
    else if 0xC0 <= b < 0xE0 then 2
    else if 0xE0 <= b < 0xF0 then 3
    else if 0xF0 <= b < 0xF8 then 4
    else 0
  }

  predicate IsContinuation(b: int) {
    0x80 <= b < 0xC0
  }

  function CodePoint(bs: seq<int>): int
    requires 1 <= |bs| <= 4
  {
    if |bs| == 1 then bs[0]
    else if |bs| == 2 then (bs[0] - 0xC0) * 64 + (bs[1] - 0x80)
    else if |bs| == 3 then (bs[0] - 0xE0) * 4096 + (bs[1] - 0x80) * 64 + (bs[2] - 0x80)
    else (bs[0] - 0xF0) * 0x40000 + (bs[1] - 0x80) * 4096 + (bs[2] - 0x80) * 64 + (bs[3] - 0x80)
  }

  predicate IsScalar(cp: int) {
    (0 <= cp < 0xD800) || (0xE000 <= cp < 0x11_0000)
  }

  function Utf8Decode(bs: seq<int>): Option<string>
  {
    if bs == [] then Some([])
    else
      var n := SequenceLength(bs[0]);
      if n == 0 || |bs| < n || exists i :: 1 <= i < n && !IsContinuation(bs[i]) then None
      else
        var cp := CodePoint(bs[..n]);
        if !IsScalar(cp) then None
        else match Utf8Decode(bs[n..])
          case None => None
          case Some(rest) => Some([cp as char] + rest)
  }

  function DecodeUriComponent(s: string): Option<string> {
    match Unescape(s)
    case None => None
    case Some(bs) => Utf8Decode(bs)
  }

  /** One escape followed by more text unescapes to its byte in front. */
  lemma UnescapeOneByte(b: int, s: string)
    requires IsByte(b)
    ensures Unescape(s).None? ==> Unescape(['%', HexUpper(b / 16), HexUpper(b % 16)] + s).None?
    ensures Unescape(s).Some? ==>
      Unescape(['%', HexUpper(b / 16), HexUpper(b % 16)] + s) == Some([b] + Unescape(s).value)
  {
    var t := ['%', HexUpper(b / 16), HexUpper(b % 16)] + s;
    assert t[3..] == s;
    assert HexDigitValue(t[1]) * 16 + HexDigitValue(t[2]) == b;
  }

  lemma {:induction false} UnescapePercentBytes(bs: seq<int>, s: string)
    requires AllBytes(bs)
    ensures Unescape(s).None? ==> Unescape(PercentBytes(bs) + s).None?
    ensures Unescape(s).Some? ==> Unescape(PercentBytes(bs) + s) == Some(bs + Unescape(s).value)
  {
    if bs == [] {
      assert PercentBytes(bs) + s == s;
      assert Unescape(s).Some? ==> bs + Unescape(s).value == Unescape(s).value;
    } else {
      var head := ['%', HexUpper(bs[0] / 16), HexUpper(bs[0] % 16)];
      var tail := PercentBytes(bs[1..]);
      assert PercentBytes(bs) + s == head + (tail + s);
      UnescapePercentBytes(bs[1..], s);
      UnescapeOneByte(bs[0], tail + s);
      if Unescape(s).Some? {
        var rest := Unescape(s).value;
        assert [bs[0]] + (bs[1..] + rest) == bs + rest;
      }
    }
  }

  /** Unescaping an encoded string gives back its UTF-8 bytes. */
  lemma {:induction false} UnescapeEncode(s: string)
    ensures Unescape(EncodeUriComponent(s)) == Some(Utf8Encode(s))
  {
    if s != [] {
      UnescapeEncode(s[1..]);
      var rest := EncodeUriComponent(s[1..]);
      if IsUnreserved(s[0]) {
        assert ([s[0]] + rest)[1..] == rest;
      } else {
        UnescapePercentBytes(Utf8(s[0]), rest);
      }
    }
  }

  lemma Utf8CharShape(c: char)
    ensures var bs := Utf8(c);
      && SequenceLength(bs[0]) == |bs|
      && (forall i :: 1 <= i < |bs| ==> IsContinuation(bs[i]))
      && CodePoint(bs) == c as int
  {
    var cp := c as int;
    assert cp == cp / 64 * 64 + cp % 64;
    assert cp / 64 == cp / 4096 * 64 + (cp / 64) % 64;
    assert cp / 4096 == cp / 0x40000 * 64 + (cp / 4096) % 64;
  }

  lemma {:induction false} Utf8RoundTrip(s: string)
    ensures Utf8Decode(Utf8Encode(s)) == Some(s)
  {
    if s != [] {
      var bs := Utf8(s[0]);
      var all := bs + Utf8Encode(s[1..]);
      Utf8CharShape(s[0]);
      assert all[0] == bs[0];
      assert all[..|bs|] == bs;
      assert all[|bs|..] == Utf8Encode(s[1..]);
      assert forall i :: 1 <= i < |bs| ==> all[i] == bs[i];
      Utf8RoundTrip(s[1..]);
      assert s == [s[0]] + s[1..];
    }
  }

  /** Decoding an encoded component gives back the original text. */
  lemma EncodeRoundTrip(s: string)
    ensures DecodeUriComponent(EncodeUriComponent(s)) == Some(s)
  {
    UnescapeEncode(s);
    Utf8RoundTrip(s);
  }
}
