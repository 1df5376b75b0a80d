/**
 Percent-encoding (section 2.1 of RFC 3986) as net/url does it.  A Go string is
 a sequence of bytes; here each byte is one char below 256.
 */
module PercentEncoding {
  import opened Options
  import opened Strings

  predicate Bytes(s: string) {
    forall i | 0 <= i < |s| :: s[i] as int < 256
  }

  /** The bytes that url.QueryEscape leaves alone. */
  predicate Unreserved(c: char) {
    '0' <= c <= '9' || 'A' <= c <= 'Z' || 'a' <= c <= 'z' || c == '-' || c == '_' || c == '.' || c == '~'
  }

  function HexChar(d: nat): char
    requires d < 16
  {
    if d < 10 then ('0' as int + d) as char else ('A' as int + d - 10) as char
  }

  predicate IsHex(c: char) {
    '0' <= c <= '9' || 'A' <= c <= 'F' || 'a' <= c <= 'f'
  }

  function HexValue(c: char): (d: nat)
    requires IsHex(c)
    ensures d < 16
  {
    if c <= '9' then c as int - '0' as int
    else if c <= 'F' then c as int - 'A' as int + 10
    else c as int - 'a' as int + 10
  }

  function HexByte(hi: char, lo: char): char
    requires IsHex(hi) && IsHex(lo)
  {
    (16 * HexValue(hi) + HexValue(lo)) as char
  }

  function EscapeByte(c: char): string
    requires c as int < 256
  {
    if Unreserved(c) then [c]
    else if c == ' ' then "+"
    else ['%', HexChar(c as int / 16), HexChar(c as int % 16)]
  }

  /** url.QueryEscape. */
  function Escape(s: string): string
    requires Bytes(s)
  {
    if s == "" then "" else EscapeByte(s[0]) + Escape(s[1..])
  }

  /** net/url's unescape; plus tells whether '+' stands for a space, as it does in queries. */
  function Decode(s: string, plus: bool): Option<string> {
    if s == "" then Some("")
    else if s[0] == '%' then
      if |s| < 3 || !IsHex(s[1]) || !IsHex(s[2]) then None
      else Prepend([HexByte(s[1], s[2])], Decode(s[3..], plus))
    else Prepend([if s[0] == '+' && plus then ' ' else s[0]], Decode(s[1..], plus))
  }

  function Prepend(a: string, rest: Option<string>): Option<string> {
    match rest
    case None => None
    case Some(b) => Some(a + b)
  }

  lemma HexRoundTrip(c: char)
    requires c as int < 256
    ensures IsHex(HexChar(c as int / 16)) && IsHex(HexChar(c as int % 16))
    ensures HexByte(HexChar(c as int / 16), HexChar(c as int % 16)) == c
  {
    var hi, lo := c as int / 16, c as int % 16;
    assert HexValue(HexChar(hi)) == hi && HexValue(HexChar(lo)) == lo;
  }

  lemma PrependTwice(a: string, b: string, rest: Option<string>)
    ensures Prepend(a, Prepend(b, rest)) == Prepend(a + b, rest)
  {
    if rest.Some? { assert a + (b + rest.value) == a + b + rest.value; }
  }

  lemma PrependNothing(rest: Option<string>)
    ensures Prepend("", rest) == rest
  {
    if rest.Some? { assert "" + rest.value == rest.value; }
  }

  lemma DecodeByte(c: char, tail: string)
    requires c as int < 256
    ensures Decode(EscapeByte(c) + tail, true) == Prepend([c], Decode(tail, true))
  {
    var s := EscapeByte(c) + tail;
    if Unreserved(c) || c == ' ' {
      assert s[1..] == tail;
    } else {
      HexRoundTrip(c);
      assert s[3..] == tail;
    }
  }

  /** Whatever follows, decoding an escaped value gives the value back. */
  lemma {:induction false} DecodeEscaped(v: string, rest: string)
    requires Bytes(v)
    ensures Decode(Escape(v) + rest, true) == Prepend(v, Decode(rest, true))
  {
    if v == "" {
      assert Escape(v) + rest == rest;
      PrependNothing(Decode(rest, true));
    } else {
      var tail := Escape(v[1..]) + rest;
      DecodeEscaped(v[1..], rest);
      assert Escape(v) + rest == EscapeByte(v[0]) + tail;
      DecodeByte(v[0], tail);
      PrependTwice([v[0]], v[1..], Decode(rest, true));
      assert [v[0]] + v[1..] == v;
    }
  }

  /** url.QueryUnescape undoes url.QueryEscape. */
  lemma EscapeRoundTrip(v: string)
    requires Bytes(v)
    ensures Decode(Escape(v), true) == Some(v)
  {
    DecodeEscaped(v, "");
    assert Escape(v) + "" == Escape(v) && v + "" == v;
  }

  /** A byte that the query escaper can produce. */
  predicate Escapable(c: char) {
    Unreserved(c) || c == '%' || c == '+'
  }

  /** Escaped values consist of unreserved bytes, '%' and '+' only. */
  lemma {:induction false} EscapeAlphabet(v: string)
    requires Bytes(v)
    ensures forall i | 0 <= i < |Escape(v)| :: Escapable(Escape(v)[i])
  {
    if v != "" {
      EscapeAlphabet(v[1..]);
    }
  }

  /** Text without '%' and '+' decodes to itself. */
  lemma {:induction false} DecodePlain(w: string, rest: string, plus: bool)
    requires '%' !in w && '+' !in w
    ensures Decode(w + rest, plus) == Prepend(w, Decode(rest, plus))
  {
    if w == "" {
      assert w + rest == rest;
      PrependNothing(Decode(rest, plus));
    } else {
      DecodePlain(w[1..], rest, plus);
      assert (w + rest)[1..] == w[1..] + rest;
      PrependTwice([w[0]], w[1..], Decode(rest, plus));
      assert [w[0]] + w[1..] == w;
    }
  }

  // ------------------------------------------------------- byte by byte

  const HEX: string := "0123456789ABCDEF"
  const LOWERHEX: string := "0123456789abcdef"

  lemma HexCharIsListed(d: nat)
    requires d < 16
    ensures HexChar(d) == HEX[d]
    ensures IsHex(HEX[d]) && HexValue(HEX[d]) == d && IsHex(LOWERHEX[d]) && HexValue(LOWERHEX[d]) == d
  {
  }

  lemma HexIsListed(c: char)
    ensures IsHex(c) <==> c in HEX || c in LOWERHEX
  {
    if IsHex(c) {
      var d := HexValue(c);
      assert c == HEX[d] || c == LOWERHEX[d];
    }
    if d: nat :| d < 16 && (c == HEX[d] || c == LOWERHEX[d]) { HexCharIsListed(d); }
  }

  /** How each byte is escaped: itself, "+" for a space, or "%" and two upper-case hexadecimal digits. */
  lemma EscapeExact(c: char)
    requires c as int < 256
    ensures Escape([c]) ==
              if c in DECIMALS || c in UPPERS || c in LOWERS || c in "-_.~" then [c]
              else if c == ' ' then "+"
              else "%" + [HEX[c as int / 16], HEX[c as int % 16]]
  {
    DigitIsDecimal(c);
    UpperIsListed(c);
    LowerIsListed(c);
    HexCharIsListed(c as int / 16);
    HexCharIsListed(c as int % 16);
    hide DECIMALS, UPPERS, LOWERS, HEX, HexChar;
    assert [c][1..] == "" && EscapeByte(c) + "" == EscapeByte(c);
  }

  /** Texts are escaped byte by byte. */
  lemma {:induction false} EscapeConcat(a: string, b: string)
    requires Bytes(a) && Bytes(b) && Bytes(a + b)
    ensures Escape(a + b) == Escape(a) + Escape(b)
  {
    hide EscapeByte;
    if a == "" {
      assert a + b == b && Escape(a) + Escape(b) == Escape(b);
    } else {
      var rest := a[1..];
      assert (a + b)[1..] == rest + b && (a + b)[0] == a[0];
      EscapeConcat(rest, b);
      var e := EscapeByte(a[0]);
      assert e + (Escape(rest) + Escape(b)) == e + Escape(rest) + Escape(b);
    }
  }

  /** A percent sign that two hexadecimal digits do not follow. */
  predicate Malformed(s: string, i: nat) {
    && i < |s| && s[i] == '%'
    && (i + 2 >= |s| || !(s[i + 1] in HEX || s[i + 1] in LOWERHEX) || !(s[i + 2] in HEX || s[i + 2] in LOWERHEX))
  }

  lemma MalformedLater(s: string, n: nat, i: nat)
    requires n <= i
    ensures i < |s| ==> (Malformed(s, i) <==> Malformed(s[n..], i - n))
  {
  }

  /** A text decodes unless it holds a percent sign that two hexadecimal digits do not follow. */
  lemma {:induction false} DecodesIffWellFormed(s: string, plus: bool)
    ensures Decode(s, plus).None? <==> exists i: nat :: Malformed(s, i)
  {
    hide HEX, LOWERHEX, IsHex, HexByte;
    if s != "" {
      var n := if s[0] == '%' then 3 else 1;
      if |s| > 1 { HexIsListed(s[1]); }
      if |s| > 2 { HexIsListed(s[2]); }
      if Malformed(s, 0) {
        assert Decode(s, plus).None?;
      } else {
        DecodesIffWellFormed(s[n..], plus);
        if i: nat :| Malformed(s, i) {
          HexIsListed('%');
          NoPercentInHex();
          MalformedLater(s, n, i);
        }
        if i: nat :| Malformed(s[n..], i) { MalformedLater(s, n, i + n); }
      }
    }
  }

  lemma NoPercentInHex()
    ensures '%' !in HEX && '%' !in LOWERHEX
  {
  }

  /** "%" and two hexadecimal digits, of either case, decode to the byte they spell. */
  lemma DecodeEscape(i: nat, j: nat, x: char, y: char, rest: string, plus: bool)
    requires i < 16 && j < 16 && (x == HEX[i] || x == LOWERHEX[i]) && (y == HEX[j] || y == LOWERHEX[j])
    ensures Decode(['%', x, y] + rest, plus) == Prepend([(16 * i + j) as char], Decode(rest, plus))
  {
    HexCharIsListed(i);
    HexCharIsListed(j);
    hide HEX, LOWERHEX, IsHex, HexValue;
    assert (['%', x, y] + rest)[3..] == rest;
  }

  /** Any other byte decodes to itself, but for '+' where it stands for a space. */
  lemma DecodeOther(c: char, rest: string, plus: bool)
    requires c != '%'
    ensures Decode("", plus) == Some("")
    ensures Decode([c] + rest, plus) == Prepend([if c == '+' && plus then ' ' else c], Decode(rest, plus))
  {
    assert ([c] + rest)[1..] == rest;
  }
}
