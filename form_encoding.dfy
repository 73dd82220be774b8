/** `URI.encode_www_form` and `URI.encode_www_form_component` (the
    application/x-www-form-urlencoded serializer of section 5.2 of the WHATWG
    URL Standard, as Ruby implements it): each component is taken as its
    UTF-8 bytes; the bytes `*-._0-9A-Za-z` stay, a space becomes `+`, every
    other byte becomes `%XX` with upper-case hex digits. */
module FormEncoding {
  import opened Wrappers
  import opened Text

  /** The UTF-8 encoding of one character. */
  function Utf8(c: char): (bs: seq<nat>)
    ensures 1 <= |bs| <= 4
    ensures forall i :: 0 <= i < |bs| ==> bs[i] < 256
    ensures c as int < 0x80 <==> bs == [c as int]
  {
    var n := c as int;
    if n < 0x80 then [n]
    else if n < 0x800 then [0xC0 + n / 64, 0x80 + n % 64]
    else if n < 0x10000 then [0xE0 + n / 4096, 0x80 + (n / 64) % 64, 0x80 + n % 64]
    else [0xF0 + n / 262144, 0x80 + (n / 4096) % 64, 0x80 + (n / 64) % 64, 0x80 + n % 64]
  }

  function Utf8String(s: string): (bs: seq<nat>)
    ensures forall i :: 0 <= i < |bs| ==> bs[i] < 256
  {
    if s == [] then [] else Utf8(s[0]) + Utf8String(s[1..])
  }

  /** The bytes `encode_www_form_component` leaves as they are. */
  predicate IsUnreservedByte(b: nat) {
    b == '*' as int || b == '-' as int || b == '.' as int || b == '_' as int
    || ('0' as int <= b <= '9' as int) || ('A' as int <= b <= 'Z' as int) || ('a' as int <= b <= 'z' as int)
  }

  /** The characters an encoded component is made of. */
  predicate IsEncodedChar(c: char) {
    IsUnreservedByte(c as int) || c == '+' || c == '%'
  }

  function HexDigit(d: nat): (c: char)
    requires d < 16
    ensures IsEncodedChar(c)
  {
    if d < 10 then ('0' as int + d) as char else ('A' as int + d - 10) as char
  }

  function EncodeByte(b: nat): (r: string)
    requires b < 256
    ensures forall i :: 0 <= i < |r| ==> IsEncodedChar(r[i])
  {
    if IsUnreservedByte(b) then [b as char]
    else if b == 0x20 then "+"
    else "%" + [HexDigit(b / 16), HexDigit(b % 16)]
  }

  function EncodeBytes(bs: seq<nat>): (r: string)
    requires forall i :: 0 <= i < |bs| ==> bs[i] < 256
    ensures forall i :: 0 <= i < |r| ==> IsEncodedChar(r[i])
  {
    if bs == [] then [] else EncodeByte(bs[0]) + EncodeBytes(bs[1..])
  }

  /** `URI.encode_www_form_component`. */
  function EncodeComponent(s: string): (r: string)
    ensures forall i :: 0 <= i < |r| ==> IsEncodedChar(r[i])
    ensures '&' !in r && '=' !in r
  {
    var r := EncodeBytes(Utf8String(s));
    assert !IsEncodedChar('&') && !IsEncodedChar('=');
    r
  }

  function EncodePair(p: (string, string)): (r: string)
    ensures '&' !in r
  {
    EncodeComponent(p.0) + "=" + EncodeComponent(p.1)
  }

  function EncodePairs(ps: seq<(string, string)>): (r: seq<string>)
    ensures |r| == |ps|
    ensures forall i :: 0 <= i < |r| ==> r[i] == EncodePair(ps[i])
  {
    if ps == [] then [] else [EncodePair(ps[0])] + EncodePairs(ps[1..])
  }

  /** `URI.encode_www_form` of key/value pairs, in their order. */
  function EncodeForm(ps: seq<(string, string)>): string {
    Join(EncodePairs(ps), "&")
  }

  /** The query string is empty exactly when there are no pairs. */
  lemma EncodeFormEmptyIff(ps: seq<(string, string)>)
    ensures EncodeForm(ps) == "" <==> ps == []
  {
    if ps != [] {
      var xs := EncodePairs(ps);
      assert '=' in xs[0];
      if |xs| == 1 {
        assert EncodeForm(ps) == xs[0];
      } else {
        assert |EncodeForm(ps)| >= |xs[0]|;
      }
    }
  }

  /** The pairs can be read back by splitting on `&`: no encoded key or value
      contains `&` or `=`. */
  lemma EncodeFormSplits(ps: seq<(string, string)>)
    requires ps != []
    ensures Split(EncodeForm(ps), '&') == EncodePairs(ps)
  {
    assert "&" == ['&'];
    SplitJoin(EncodePairs(ps), '&');
  }

  // ---------------------------------------------------------------------------
  // Decoding, to show that nothing is lost

  function HexValue(c: char): Option<nat> {
    if '0' <= c <= '9' then Some(c as int - '0' as int)
    else if 'A' <= c <= 'F' then Some(c as int - 'A' as int + 10)
    else None
  }

  /** Percent-decoding of a form component back to bytes (`+` is a space). */
  function DecodeBytes(s: string): Option<seq<nat>> {
    if s == [] then Some([])
    else if s[0] == '+' then
      match DecodeBytes(s[1..])
      case Some(rest) => Some([0x20] + rest)
      case None => None
    else if s[0] == '%' then
      if |s| < 3 || HexValue(s[1]).None? || HexValue(s[2]).None? then None
      else
        match DecodeBytes(s[3..])
        case Some(rest) => Some([HexValue(s[1]).value * 16 + HexValue(s[2]).value] + rest)
        case None => None
    else
      match DecodeBytes(s[1..])
      case Some(rest) => Some([s[0] as int] + rest)
      case None => None
  }

  lemma DecodeByteCons(b: nat, t: string)
    requires b < 256
    ensures DecodeBytes(EncodeByte(b) + t) ==
      match DecodeBytes(t)
      case Some(rest) => Some([b] + rest)
      case None => None
  {
    var s := EncodeByte(b) + t;
    if IsUnreservedByte(b) {
      assert s[0] == b as char && s[1..] == t;
    } else if b == 0x20 {
      assert s[0] == '+' && s[1..] == t;
    } else {
      assert s[0] == '%' && s[1] == HexDigit(b / 16) && s[2] == HexDigit(b % 16) && s[3..] == t;
      assert HexValue(s[1]) == Some(b / 16);
      assert HexValue(s[2]) == Some(b % 16);
    }
  }

  /** Round trip: decoding an encoded byte string gives the bytes back. */
  lemma {:induction false} DecodeEncodeBytes(bs: seq<nat>)
    requires forall i :: 0 <= i < |bs| ==> bs[i] < 256
    ensures DecodeBytes(EncodeBytes(bs)) == Some(bs)
  {
    if bs != [] {
      DecodeEncodeBytes(bs[1..]);
      DecodeByteCons(bs[0], EncodeBytes(bs[1..]));
      assert [bs[0]] + bs[1..] == bs;
    }
  }

  /** Round trip on a component: its UTF-8 bytes come back unchanged. */
  lemma DecodeEncodeComponent(s: string)
    ensures DecodeBytes(EncodeComponent(s)) == Some(Utf8String(s))
  {
    DecodeEncodeBytes(Utf8String(s));
  }
}
