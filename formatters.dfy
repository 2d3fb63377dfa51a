/** `genderLabel` and `generateWhatsAppURL`, with `encodeURIComponent`
    (section 19.2.6.5 of ECMA-262: UTF-8 octets written as uppercase `%XX`
    escapes, RFC 3986 section 2.1) and its inverse `decodeURIComponent`. */
module Formatters {
  import opened Types
  import opened Messages

  // ---- genderLabel ----

  /** `genderLabel(gender)`: the switch over the `Gender` enum, with UNISEX,
      `undefined` and every unlisted number falling to the default. */
  function GenderLabel(gender: Option<int>): (text: string)
    ensures text == GENDER_MALE_TEXT <==> gender == Some(MALE)
    ensures text == GENDER_FEMALE_TEXT <==> gender == Some(FEMALE)
    ensures text == GENDER_UNISEX_TEXT <==> gender != Some(MALE) && gender != Some(FEMALE)
  {
    match gender
    case Some(g) =>
      if g == MALE then GENDER_MALE_TEXT
      else if g == FEMALE then GENDER_FEMALE_TEXT
      else GENDER_UNISEX_TEXT
    case None => GENDER_UNISEX_TEXT
  }

  // ---- encodeURIComponent ----

  /** The characters `encodeURIComponent` leaves as they are: ASCII letters,
      digits and the marks `- _ . ! ~ * ' ( )`. */
  predicate Unreserved(c: char)
  {
    ('A' <= c <= 'Z') || ('a' <= c <= 'z') || ('0' <= c <= '9') ||
    c == '-' || c == '_' || c == '.' || c == '!' || c == '~' ||
    c == '*' || c == '\'' || c == '(' || c == ')'
  }

  predicate IsByte(b: int)
  {
    0 <= b < 256
  }

  predicate AllBytes(bs: seq<int>)
  {
    forall i :: 0 <= i < |bs| ==> IsByte(bs[i])
  }

  /** The uppercase hexadecimal digit of a value below 16. */
  function HexDigit(v: int): (c: char)
    requires 0 <= v < 16
    ensures IsUpperHex(c)
  {
    if v < 10 then ('0' as int + v) as char else ('A' as int + v - 10) as char
  }

  predicate IsUpperHex(c: char)
  {
    ('0' <= c <= '9') || ('A' <= c <= 'F')
  }

  /** The value of a hexadecimal digit of either case. */
  function HexValue(c: char): (v: Option<int>)
    ensures v.Some? ==> 0 <= v.value < 16
    ensures IsUpperHex(c) ==> v.Some?
  {
    if '0' <= c <= '9' then Some(c as int - '0' as int)
    else if 'A' <= c <= 'F' then Some(c as int - 'A' as int + 10)
    else if 'a' <= c <= 'f' then Some(c as int - 'a' as int + 10)
    else None
  }

  /** One octet as `%XX`. */
  function PercentByte(b: int): string
    requires IsByte(b)
  {
    ['%', HexDigit(b / 16), HexDigit(b % 16)]
  }

  function Escapes(bs: seq<int>): (t: string)
    requires AllBytes(bs)
    ensures |t| == 3 * |bs|
  {
    if bs == [] then [] else PercentByte(bs[0]) + Escapes(bs[1..])
  }

  /** The UTF-8 octets of a code point (RFC 3629 section 3). */
  function Utf8(c: char): (bs: seq<int>)
    ensures 1 <= |bs| <= 4 && AllBytes(bs)
  {
    var v := c as int;
    if v < 0x80 then [v]
    else if v < 0x800 then [0xC0 + v / 64, 0x80 + v % 64]
    else if v < 0x10000 then [0xE0 + v / 4096, 0x80 + v / 64 % 64, 0x80 + v % 64]
    else [0xF0 + v / 262144, 0x80 + v / 4096 % 64, 0x80 + v / 64 % 64, 0x80 + v % 64]
  }

  function EncodeChar(c: char): string
  {
    if Unreserved(c) then [c] else Escapes(Utf8(c))
  }

  /** `encodeURIComponent(s)`. */
  function EncodeURIComponent(s: string): string
  {
    if s == [] then [] else EncodeChar(s[0]) + EncodeURIComponent(s[1..])
  }

  /** A text made only of unreserved characters and `%XX` escapes with
      uppercase digits. */
  predicate UnreservedOrEscaped(t: string)
    decreases |t|
  {
    t == [] ||
    (Unreserved(t[0]) && UnreservedOrEscaped(t[1..])) ||
    (|t| >= 3 && t[0] == '%' && IsUpperHex(t[1]) && IsUpperHex(t[2]) && UnreservedOrEscaped(t[3..]))
  }

  // ---- decodeURIComponent ----

  /** The octet of a `%XX` escape at the front of `t`. */
  function EscapedByte(t: string): (b: Option<int>)
    ensures b.Some? ==> |t| >= 3 && t[0] == '%' && IsByte(b.value)
  {
    if |t| >= 3 && t[0] == '%' && HexValue(t[1]).Some? && HexValue(t[2]).Some?
    then Some(16 * HexValue(t[1]).value + HexValue(t[2]).value)
    else None
  }

  /** The octets of `n` escapes in a row at the front of `t`. */
  function EscapedBytes(t: string, n: nat): (bs: Option<seq<int>>)
    ensures bs.Some? ==> |t| >= 3 * n && |bs.value| == n && AllBytes(bs.value)
    ensures bs.Some? && n > 0 ==> EscapedByte(t) == Some(bs.value[0])
  {
    if n == 0 then Some([])
    else match EscapedByte(t)
      case None => None
      case Some(b) =>
        match EscapedBytes(t[3..], n - 1)
        case None => None
        case Some(rest) => Some([b] + rest)
  }

  /** The number of leading one bits of a lead octet; 5 stands for any
      number above 4. */
  function SequenceLength(b: int): nat
  {
    if b < 0x80 then 0
    else if b < 0xC0 then 1
    else if b < 0xE0 then 2
    else if b < 0xF0 then 3
    else if b < 0xF8 then 4
    else 5
  }

  predicate IsContinuation(b: int)
  {
    0x80 <= b < 0xC0
  }

  /** The code point a lead octet and its continuation octets carry. */
  function CodePoint(bs: seq<int>): int
    requires 2 <= |bs| <= 4
  {
    if |bs| == 2 then (bs[0] - 0xC0) * 64 + (bs[1] - 0x80)
    else if |bs| == 3 then (bs[0] - 0xE0) * 4096 + (bs[1] - 0x80) * 64 + (bs[2] - 0x80)
    else (bs[0] - 0xF0) * 262144 + (bs[1] - 0x80) * 4096 + (bs[2] - 0x80) * 64 + (bs[3] - 0x80)
  }

  /** The character a multi-octet UTF-8 sequence encodes, or None when a
      continuation octet is malformed, the encoding is overlong, or it names a
      surrogate or a value above U+10FFFF. */
  function Utf8Decode(bs: seq<int>): (c: Option<char>)
    requires 2 <= |bs| <= 4
    ensures c.Some? ==> c.value as int >= 0x80
  {
    if !(forall i | 1 <= i < |bs| :: IsContinuation(bs[i])) then None
    else
      var v := CodePoint(bs);
      var least := if |bs| == 2 then 0x80 else if |bs| == 3 then 0x800 else 0x10000;
      if v < least || (0xD800 <= v < 0xE000) || v > 0x10FFFF then None
      else Some(v as char)
  }

  /** The character the escapes at the front of `t` encode, and how many
      characters of `t` they take. */
  function DecodeEscape(t: string): (r: Option<(char, nat)>)
    ensures r.Some? ==> 3 <= r.value.1 <= |t|
  {
    match EscapedByte(t)
    case None => None
    case Some(b0) =>
      if b0 < 0x80 then Some((b0 as char, 3))
      else
        var n := SequenceLength(b0);
        if n == 1 || n > 4 then None
        else match EscapedBytes(t, n)
          case None => None
          case Some(bs) =>
            match Utf8Decode(bs)
            case None => None
            case Some(c) => Some((c, 3 * n))
  }

  /** `decodeURIComponent(t)`, None where it throws a URIError. */
  function DecodeURIComponent(t: string): (s: Option<string>)
    decreases |t|
  {
    if t == [] then Some([])
    else if t[0] != '%' then
      match DecodeURIComponent(t[1..])
      case None => None
      case Some(rest) => Some([t[0]] + rest)
    else
      match DecodeEscape(t)
      case None => None
      case Some((c, n)) =>
        match DecodeURIComponent(t[n..])
        case None => None
        case Some(rest) => Some([c] + rest)
  }

  // ---- the round trip ----

  /** The escape of an octet reads back as that octet. */
  lemma PercentByteReads(b: int, rest: string)
    requires IsByte(b)
    ensures EscapedByte(PercentByte(b) + rest) == Some(b)
    ensures (PercentByte(b) + rest)[3..] == rest
  {
    var t := PercentByte(b) + rest;
    assert HexValue(t[1]) == Some(b / 16);
    assert HexValue(t[2]) == Some(b % 16);
  }

  /** A run of escapes reads back as its octets. */
  lemma {:induction false} EscapesRead(bs: seq<int>, rest: string)
    requires AllBytes(bs)
    ensures EscapedBytes(Escapes(bs) + rest, |bs|) == Some(bs)
  {
    if bs != [] {
      var tail := Escapes(bs[1..]) + rest;
      assert Escapes(bs) + rest == PercentByte(bs[0]) + tail;
      PercentByteReads(bs[0], tail);
      EscapesRead(bs[1..], rest);
      assert [bs[0]] + bs[1..] == bs;
    }
  }

  lemma TwoOctets(v: int)
    requires 0x80 <= v < 0x800
    ensures CodePoint([0xC0 + v / 64, 0x80 + v % 64]) == v
  {
  }

  lemma ThreeOctets(v: int)
    requires 0x800 <= v < 0x10000
    ensures CodePoint([0xE0 + v / 4096, 0x80 + v / 64 % 64, 0x80 + v % 64]) == v
  {
    assert v / 64 == (v / 4096) * 64 + v / 64 % 64;
  }

  lemma FourOctets(v: int)
    requires 0x10000 <= v < 0x110000
    ensures CodePoint([0xF0 + v / 262144, 0x80 + v / 4096 % 64, 0x80 + v / 64 % 64, 0x80 + v % 64]) == v
  {
    assert v / 64 == (v / 4096) * 64 + v / 64 % 64;
    assert v / 4096 == (v / 262144) * 64 + v / 4096 % 64;
  }

  /** UTF-8 decoding undoes UTF-8 encoding, and the lead octet announces the
      length of the sequence. */
  lemma Utf8RoundTrip(c: char)
    ensures c as int < 0x80 ==> Utf8(c) == [c as int]
    ensures c as int >= 0x80 ==>
      2 <= |Utf8(c)| && SequenceLength(Utf8(c)[0]) == |Utf8(c)| && Utf8Decode(Utf8(c)) == Some(c)
  {
    var v := c as int;
    if 0x80 <= v < 0x800 {
      TwoOctets(v);
    } else if 0x800 <= v < 0x10000 {
      ThreeOctets(v);
    } else if 0x10000 <= v {
      FourOctets(v);
    }
  }

  /** The escapes of a reserved character decode back to it. */
  lemma DecodeEscapeOfChar(c: char, rest: string)
    requires !Unreserved(c)
    ensures DecodeEscape(EncodeChar(c) + rest) == Some((c, |EncodeChar(c)|))
  {
    var bs := Utf8(c);
    assert EncodeChar(c) == Escapes(bs);
    EscapesRead(bs, rest);
    Utf8RoundTrip(c);
  }

  /** `decodeURIComponent(encodeURIComponent(s)) == s` for every string. */
  lemma {:induction false} DecodeEncode(s: string)
    ensures DecodeURIComponent(EncodeURIComponent(s)) == Some(s)
  {
    if s != [] {
      var rest := EncodeURIComponent(s[1..]);
      var t := EncodeChar(s[0]) + rest;
      assert EncodeURIComponent(s) == t;
      DecodeEncode(s[1..]);
      if Unreserved(s[0]) {
        assert t[1..] == rest;
      } else {
        DecodeEscapeOfChar(s[0], rest);
        assert t[0] == '%';
        assert t[|EncodeChar(s[0])|..] == rest;
      }
      assert [s[0]] + s[1..] == s;
    }
  }

  /** A well-escaped text stays well-escaped behind one unreserved character. */
  lemma UnreservedCons(c: char, t: string)
    requires Unreserved(c) && UnreservedOrEscaped(t)
    ensures UnreservedOrEscaped([c] + t)
  {
    assert ([c] + t)[1..] == t;
  }

  /** A well-escaped text stays well-escaped behind one `%XX` escape. */
  lemma EscapeCons(h: string, t: string)
    requires |h| == 3 && h[0] == '%' && IsUpperHex(h[1]) && IsUpperHex(h[2])
    requires UnreservedOrEscaped(t)
    ensures UnreservedOrEscaped(h + t)
  {
    assert (h + t)[3..] == t;
  }

  /** Concatenating two well-escaped texts gives a well-escaped text. */
  lemma {:induction false} UnreservedOrEscapedAppend(a: string, b: string)
    requires UnreservedOrEscaped(a) && UnreservedOrEscaped(b)
    ensures UnreservedOrEscaped(a + b)
    decreases |a|, 1
  {
    if a == [] {
      assert a + b == b;
    } else if Unreserved(a[0]) && UnreservedOrEscaped(a[1..]) {
      AppendAfterUnreserved(a, b);
    } else {
      AppendAfterEscape(a, b);
    }
  }

  /** The step of `UnreservedOrEscapedAppend` for a leading unreserved character. */
  lemma {:induction false} AppendAfterUnreserved(a: string, b: string)
    requires a != [] && Unreserved(a[0]) && UnreservedOrEscaped(a[1..]) && UnreservedOrEscaped(b)
    ensures UnreservedOrEscaped(a + b)
    decreases |a|, 0
  {
    UnreservedOrEscapedAppend(a[1..], b);
    assert a + b == [a[0]] + (a[1..] + b);
    UnreservedCons(a[0], a[1..] + b);
  }

  /** The step of `UnreservedOrEscapedAppend` for a leading `%XX` escape. */
  lemma {:induction false} AppendAfterEscape(a: string, b: string)
    requires |a| >= 3 && a[0] == '%' && IsUpperHex(a[1]) && IsUpperHex(a[2])
    requires UnreservedOrEscaped(a[3..]) && UnreservedOrEscaped(b)
    ensures UnreservedOrEscaped(a + b)
    decreases |a|, 0
  {
    UnreservedOrEscapedAppend(a[3..], b);
    assert a + b == a[..3] + (a[3..] + b);
    EscapeCons(a[..3], a[3..] + b);
  }

  lemma {:induction false} EscapesWellFormed(bs: seq<int>)
    requires AllBytes(bs)
    ensures UnreservedOrEscaped(Escapes(bs))
  {
    if bs != [] {
      EscapesWellFormed(bs[1..]);
      assert Escapes(bs)[3..] == Escapes(bs[1..]);
    }
  }

  /** `encodeURIComponent` writes only unreserved characters and `%XX`
      escapes. */
  lemma {:induction false} EncodeWellFormed(s: string)
    ensures UnreservedOrEscaped(EncodeURIComponent(s))
  {
    if s != [] {
      EncodeWellFormed(s[1..]);
      if Unreserved(s[0]) {
        assert ([s[0]] + EncodeURIComponent(s[1..]))[1..] == EncodeURIComponent(s[1..]);
      } else {
        EscapesWellFormed(Utf8(s[0]));
        UnreservedOrEscapedAppend(EncodeChar(s[0]), EncodeURIComponent(s[1..]));
      }
    }
  }

  /** Every character of a well-escaped text is unreserved, `%` or an
      uppercase hexadecimal digit; in particular none is a space or one of the
      delimiters `& # ? = +` of a query string. */
  lemma {:induction false} WellEscapedChars(t: string)
    requires UnreservedOrEscaped(t)
    ensures forall i :: 0 <= i < |t| ==> Unreserved(t[i]) || t[i] == '%' || IsUpperHex(t[i])
    ensures forall i :: 0 <= i < |t| ==> t[i] !in {' ', '&', '#', '?', '=', '+'}
    decreases |t|
  {
    if t != [] {
      if Unreserved(t[0]) && UnreservedOrEscaped(t[1..]) {
        WellEscapedChars(t[1..]);
        assert forall i :: 1 <= i < |t| ==> t[i] == t[1..][i - 1];
      } else {
        WellEscapedChars(t[3..]);
        assert forall i :: 3 <= i < |t| ==> t[i] == t[3..][i - 3];
      }
    }
  }

  // ---- generateWhatsAppURL ----

  const WHATSAPP_PHONE: string := "5581999999999"
  const WHATSAPP_URL_PREFIX: string := "https://wa.me/" + WHATSAPP_PHONE + "?text="

  /** `generateWhatsAppURL(productName, productSlug)`. */
  function WhatsAppUrl(productName: string, productSlug: string): string
  {
    WHATSAPP_URL_PREFIX + EncodeURIComponent(MessageTemplate(productName, productSlug))
  }

  /** The URL is the fixed prefix followed by a `text` value that holds no
      raw space, `&`, `#`, `?`, `=` or `+`, is made only of unreserved
      characters and escapes, and decodes back to the template message. */
  lemma WhatsAppUrlCarriesMessage(productName: string, productSlug: string)
    ensures var url := WhatsAppUrl(productName, productSlug);
      |url| >= |WHATSAPP_URL_PREFIX| && url[..|WHATSAPP_URL_PREFIX|] == WHATSAPP_URL_PREFIX &&
      var text := url[|WHATSAPP_URL_PREFIX|..];
      UnreservedOrEscaped(text) &&
      (forall i :: 0 <= i < |text| ==> text[i] !in {' ', '&', '#', '?', '=', '+'}) &&
      DecodeURIComponent(text) == Some(MessageTemplate(productName, productSlug))
  {
    var encoded := EncodeURIComponent(MessageTemplate(productName, productSlug));
    var url := WhatsAppUrl(productName, productSlug);
    assert url[..|WHATSAPP_URL_PREFIX|] == WHATSAPP_URL_PREFIX;
    assert url[|WHATSAPP_URL_PREFIX|..] == encoded;
    EncodeWellFormed(MessageTemplate(productName, productSlug));
    WellEscapedChars(encoded);
    DecodeEncode(MessageTemplate(productName, productSlug));
  }
}
