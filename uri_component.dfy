/**
  encodeURIComponent and decodeURIComponent, as section 19.2.6 of ECMA-262
  (2023 edition) defines them through its Encode and Decode operations.

  A Dafny `char` is a Unicode scalar value, so every `string` here is a
  well-formed string: the URIError that encodeURIComponent raises on a lone
  surrogate cannot arise.
*/
module UriComponent {
  import opened Wrappers

  type Byte = b: int | 0 <= b < 256

  /** The unescaped set of encodeURIComponent: letters, digits and `-_.!~*'()`. */
  predicate IsUnreserved(c: char) {
    || ('A' <= c <= 'Z') || ('a' <= c <= 'z') || ('0' <= c <= '9')
    || c == '-' || c == '_' || c == '.' || c == '!' || c == '~'
    || c == '*' || c == '\'' || c == '(' || c == ')'
  }

  /** The digits the encoder writes: upper-case hexadecimal. */
  predicate IsUpperHex(c: char) {
    ('0' <= c <= '9') || ('A' <= c <= 'F')
  }

  /** The digits the decoder accepts: hexadecimal in either case. */
  predicate IsHex(c: char) {
    IsUpperHex(c) || ('a' <= c <= 'f')
  }

  function HexValue(c: char): (n: int)
    requires IsHex(c)
    ensures 0 <= n < 16
  {
    if '0' <= c <= '9' then c as int - '0' as int
    else if 'A' <= c <= 'F' then c as int - 'A' as int + 10
    else c as int - 'a' as int + 10
  }

  function HexDigit(n: int): (c: char)
    requires 0 <= n < 16
    ensures IsUpperHex(c) && HexValue(c) == n
  {
    if n < 10 then ('0' as int + n) as char else ('A' as int + n - 10) as char
  }

  /** The octet written by two hexadecimal digits (ParseHexOctet). */
  function Octet(hi: char, lo: char): Byte
    requires IsHex(hi) && IsHex(lo)
  {
    16 * HexValue(hi) + HexValue(lo)
  }

  /** The number of leading 1 bits of an octet. */
  function LeadingOnes(b: Byte): (n: nat)
    ensures n <= 8
  {
    if b < 0x80 then 0
    else if b < 0xC0 then 1
    else if b < 0xE0 then 2
    else if b < 0xF0 then 3
    else if b < 0xF8 then 4
    else if b < 0xFC then 5
    else if b < 0xFE then 6
    else if b < 0xFF then 7
    else 8
  }

  /** The UTF-8 encoding of a code point (RFC 3629, section 3). */
  function Utf8Encode(c: char): (bs: seq<Byte>)
    ensures 1 <= |bs| <= 4
    ensures |bs| == 1 <==> c as int < 0x80
    ensures LeadingOnes(bs[0]) == if |bs| == 1 then 0 else |bs|
    ensures forall i :: 1 <= i < |bs| ==> IsContinuation(bs[i])
  {
    var v := c as int;
    if v < 0x80 then [v]
    else if v < 0x800 then [0xC0 + v / 0x40, 0x80 + v % 0x40]
    else if v < 0x10000 then [0xE0 + v / 0x1000, 0x80 + v / 0x40 % 0x40, 0x80 + v % 0x40]
    else [0xF0 + v / 0x40000, 0x80 + v / 0x1000 % 0x40, 0x80 + v / 0x40 % 0x40, 0x80 + v % 0x40]
  }

  /** An octet of the form 10xxxxxx. */
  predicate IsContinuation(b: Byte) {
    0x80 <= b < 0xC0
  }

  /** The code point a well-formed UTF-8 sequence of two to four octets
      encodes; `None` for a sequence that is not well formed (wrong lead
      octet, an octet that is not a continuation, an overlong form, a
      surrogate, or a value above U+10FFFF). */
  function Utf8Decode(oc: seq<Byte>): Option<char>
  {
    var n := |oc|;
    var o: seq<int> := oc;
    if n < 2 || n > 4 || LeadingOnes(oc[0]) != n then None
    else if !IsContinuation(oc[1]) || (n >= 3 && !IsContinuation(oc[2])) || (n == 4 && !IsContinuation(oc[3])) then None
    else
      var v :=
        if n == 2 then (o[0] - 0xC0) * 0x40 + (o[1] - 0x80)
        else if n == 3 then (o[0] - 0xE0) * 0x1000 + (o[1] - 0x80) * 0x40 + (o[2] - 0x80)
        else (o[0] - 0xF0) * 0x40000 + (o[1] - 0x80) * 0x1000 + (o[2] - 0x80) * 0x40 + (o[3] - 0x80);
      var least: int := if n == 2 then 0x80 else if n == 3 then 0x800 else 0x10000;
      if v < least || v > 0x10FFFF || (0xD800 <= v < 0xE000) then None
      else Some(v as char)
  }

  /** `%XX` for each octet, with upper-case digits. */
  function PercentEncode(bs: seq<Byte>): (t: string)
    ensures |t| == 3 * |bs|
  {
    if bs == [] then []
    else ['%', HexDigit(bs[0] / 16), HexDigit(bs[0] % 16)] + PercentEncode(bs[1..])
  }

  function EncodeChar(c: char): (t: string)
    ensures 1 <= |t| <= 12
  {
    if IsUnreserved(c) then [c] else PercentEncode(Utf8Encode(c))
  }

  /** encodeURIComponent: unreserved characters stay, every other character
      becomes the `%XX` triplets of its UTF-8 octets. */
  function EncodeURIComponent(s: string): (t: string)
    ensures |s| <= |t| <= 12 * |s|
  {
    if s == [] then [] else EncodeChar(s[0]) + EncodeURIComponent(s[1..])
  }

  /** Reads `k` consecutive `%XX` triplets at the start of `t`. */
  function ReadOctets(t: string, k: nat): (r: Option<seq<Byte>>)
    ensures r.Some? ==> |r.value| == k && 3 * k <= |t|
    decreases k
  {
    if k == 0 then Some([])
    else if |t| < 3 || t[0] != '%' || !IsHex(t[1]) || !IsHex(t[2]) then None
    else match ReadOctets(t[3..], k - 1)
      case None => None
      case Some(more) => Some([Octet(t[1], t[2])] + more)
  }

  function Cons(c: char, r: Option<string>): Option<string> {
    match r
    case None => None
    case Some(s) => Some([c] + s)
  }

  /** decodeURIComponent; `None` where it throws URIError. Its reserved set
      is empty, so every escape is decoded. */
  function DecodeURIComponent(t: string): (r: Option<string>)
    ensures r.Some? ==> |r.value| <= |t|
    decreases |t|
  {
    if t == [] then Some([])
    else if t[0] != '%' then Cons(t[0], DecodeURIComponent(t[1..]))
    else if |t| < 3 || !IsHex(t[1]) || !IsHex(t[2]) then None
    else
      var b := Octet(t[1], t[2]);
      var n := LeadingOnes(b);
      if n == 0 then Cons(b as char, DecodeURIComponent(t[3..]))
      else if n == 1 || n > 4 then None
      else match ReadOctets(t[3..], n - 1)
        case None => None
        case Some(more) =>
          match Utf8Decode([b] + more)
          case None => None
          case Some(c) => Cons(c, DecodeURIComponent(t[3 * n..]))
  }

  /** Every character of `t` is unreserved or belongs to a `%XX` triplet with
      upper-case digits, reading from left to right. */
  predicate IsEscaped(t: string)
    decreases |t|
  {
    if t == [] then true
    else if IsUnreserved(t[0]) then IsEscaped(t[1..])
    else |t| >= 3 && t[0] == '%' && IsUpperHex(t[1]) && IsUpperHex(t[2]) && IsEscaped(t[3..])
  }

  // ---------------------------------------------------------------------
  // UTF-8

  lemma Utf8RoundTrip(c: char)
    requires c as int >= 0x80
    ensures Utf8Decode(Utf8Encode(c)) == Some(c)
  {
    var v := c as int;
    var bs: seq<int> := Utf8Encode(c);
    var q1, r1 := v / 0x40, v % 0x40;
    assert v == 0x40 * q1 + r1;
    if v < 0x800 {
      assert bs == [0xC0 + q1, 0x80 + r1];
    } else {
      var q2, r2 := q1 / 0x40, q1 % 0x40;
      assert q1 == 0x40 * q2 + r2;
      assert v / 0x1000 == q2 by {
        assert v == 0x1000 * q2 + (0x40 * r2 + r1);
      }
      if v < 0x10000 {
        assert bs == [0xE0 + q2, 0x80 + r2, 0x80 + r1];
        assert (bs[0] - 0xE0) * 0x1000 + (bs[1] - 0x80) * 0x40 + (bs[2] - 0x80) == v;
      } else {
        var q3, r3 := q2 / 0x40, q2 % 0x40;
        assert q2 == 0x40 * q3 + r3;
        assert v / 0x40000 == q3 by {
          assert v == 0x40000 * q3 + (0x1000 * r3 + 0x40 * r2 + r1);
        }
        assert bs == [0xF0 + q3, 0x80 + r3, 0x80 + r2, 0x80 + r1];
        assert (bs[0] - 0xF0) * 0x40000 + (bs[1] - 0x80) * 0x1000 + (bs[2] - 0x80) * 0x40 + (bs[3] - 0x80) == v;
      }
    }
  }

  // ---------------------------------------------------------------------
  // Round trip

  lemma {:induction false} ReadPercentEncoded(bs: seq<Byte>, rest: string)
    ensures ReadOctets(PercentEncode(bs) + rest, |bs|) == Some(bs)
  {
    if bs != [] {
      var b := bs[0];
      var triplet := ['%', HexDigit(b / 16), HexDigit(b % 16)];
      var t := PercentEncode(bs) + rest;
      assert t == triplet + (PercentEncode(bs[1..]) + rest);
      assert t[0] == '%' && t[1] == triplet[1] && t[2] == triplet[2];
      assert Octet(t[1], t[2]) == b;
      assert t[3..] == PercentEncode(bs[1..]) + rest;
      ReadPercentEncoded(bs[1..], rest);
      assert [b] + bs[1..] == bs;
    }
  }

  lemma DecodeEncodeChar(c: char, rest: string)
    ensures DecodeURIComponent(EncodeChar(c) + rest) == Cons(c, DecodeURIComponent(rest))
  {
    var t := EncodeChar(c) + rest;
    if IsUnreserved(c) {
      assert t[0] == c && t[1..] == rest;
    } else {
      var bs := Utf8Encode(c);
      var b := bs[0];
      assert t == PercentEncode(bs) + rest;
      assert t[0] == '%';
      assert Octet(t[1], t[2]) == b;
      assert t[3..] == PercentEncode(bs[1..]) + rest;
      if |bs| == 1 {
        assert b as char == c;
      } else {
        DecodeEncodeMultiOctet(c, bs, t, rest);
      }
    }
  }

  /** The escaped octets of a character outside ASCII decode back to it. */
  lemma DecodeEncodeMultiOctet(c: char, bs: seq<Byte>, t: string, rest: string)
    requires bs == Utf8Encode(c) && |bs| > 1
    requires |t| >= 3 && t[0] == '%' && IsHex(t[1]) && IsHex(t[2]) && Octet(t[1], t[2]) == bs[0]
    requires t[3..] == PercentEncode(bs[1..]) + rest
    ensures DecodeURIComponent(t) == Cons(c, DecodeURIComponent(rest))
  {
    var n := |bs|;
    ReadPercentEncoded(bs[1..], rest);
    assert ReadOctets(t[3..], n - 1) == Some(bs[1..]);
    assert [bs[0]] + bs[1..] == bs;
    Utf8RoundTrip(c);
    assert Utf8Decode([bs[0]] + bs[1..]) == Some(c);
    assert t[3 * n..] == rest;
  }


  /** decodeURIComponent undoes encodeURIComponent. */
  lemma {:induction false} DecodeEncode(s: string)
    ensures DecodeURIComponent(EncodeURIComponent(s)) == Some(s)
  {
    if s != [] {
      DecodeEncode(s[1..]);
      DecodeEncodeChar(s[0], EncodeURIComponent(s[1..]));
      assert [s[0]] + s[1..] == s;
    }
  }

  // ---------------------------------------------------------------------
  // Alphabet of the encoded form

  lemma {:induction false} EscapedConcat(a: string, b: string)
    requires IsEscaped(a) && IsEscaped(b)
    ensures IsEscaped(a + b)
    decreases |a|
  {
    if a == [] {
      assert a + b == b;
    } else {
      assert (a + b)[0] == a[0];
      if IsUnreserved(a[0]) {
        assert (a + b)[1..] == a[1..] + b;
        EscapedConcat(a[1..], b);
      } else {
        assert (a + b)[1] == a[1] && (a + b)[2] == a[2];
        assert (a + b)[3..] == a[3..] + b;
        EscapedConcat(a[3..], b);
      }
    }
  }

  lemma {:induction false} PercentEncodeEscaped(bs: seq<Byte>)
    ensures IsEscaped(PercentEncode(bs))
  {
    if bs != [] {
      var t := PercentEncode(bs);
      PercentEncodeEscaped(bs[1..]);
      assert t[3..] == PercentEncode(bs[1..]);
    }
  }

  /** The output of encodeURIComponent consists of unreserved characters and
      `%XX` triplets only. */
  lemma {:induction false} EncodedIsEscaped(s: string)
    ensures IsEscaped(EncodeURIComponent(s))
  {
    if s != [] {
      EncodedIsEscaped(s[1..]);
      if IsUnreserved(s[0]) {
        assert IsEscaped(EncodeChar(s[0])) by {
          assert EncodeChar(s[0])[1..] == [];
        }
      } else {
        PercentEncodeEscaped(Utf8Encode(s[0]));
      }
      EscapedConcat(EncodeChar(s[0]), EncodeURIComponent(s[1..]));
    }
  }

  /** An escaped string holds no character outside the unreserved set, `%`
      and the upper-case hexadecimal digits; in particular no `&`, `=`, `#`,
      `+` or space that would end or split a query parameter. */
  lemma {:induction false} EscapedAlphabet(t: string)
    requires IsEscaped(t)
    ensures forall i :: 0 <= i < |t| ==> IsUnreserved(t[i]) || t[i] == '%' || IsUpperHex(t[i])
    decreases |t|
  {
    if t != [] {
      if IsUnreserved(t[0]) {
        EscapedAlphabet(t[1..]);
        assert forall i :: 1 <= i < |t| ==> t[i] == t[1..][i - 1];
      } else {
        EscapedAlphabet(t[3..]);
        assert forall i :: 3 <= i < |t| ==> t[i] == t[3..][i - 3];
      }
    }
  }

  /** A string of unreserved characters only is left as it is. */
  lemma {:induction false} UnreservedUnchanged(s: string)
    requires forall i :: 0 <= i < |s| ==> IsUnreserved(s[i])
    ensures EncodeURIComponent(s) == s
  {
    if s != [] {
      UnreservedUnchanged(s[1..]);
      assert [s[0]] + s[1..] == s;
    }
  }

  /** encodeURIComponent works character by character, so it distributes
      over concatenation. */
  lemma {:induction false} EncodeConcat(a: string, b: string)
    ensures EncodeURIComponent(a + b) == EncodeURIComponent(a) + EncodeURIComponent(b)
    decreases |a|
  {
    if a == [] {
      assert a + b == b;
    } else {
      assert (a + b)[0] == a[0] && (a + b)[1..] == a[1..] + b;
      EncodeConcat(a[1..], b);
    }
  }

  /** What a caller placing encodeURIComponent(s) in a query parameter relies
      on: it decodes back to s and cannot hold a `&` or `#` that would end
      the parameter. */
  lemma EncodedComponent(s: string)
    ensures DecodeURIComponent(EncodeURIComponent(s)) == Some(s)
    ensures IsEscaped(EncodeURIComponent(s))
    ensures '&' !in EncodeURIComponent(s) && '#' !in EncodeURIComponent(s)
  {
    var t := EncodeURIComponent(s);
    DecodeEncode(s);
    EncodedIsEscaped(s);
    EscapedAlphabet(t);
    forall i | 0 <= i < |t|
      ensures t[i] != '&' && t[i] != '#'
    {
      var ch := t[i];
      assert IsUnreserved(ch) || ch == '%' || IsUpperHex(ch);
    }
  }
}
