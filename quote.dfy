// `urllib.parse.quote_plus` on ASCII text, and the decoding that inverts it.
//
// `quote_plus(s)` keeps the unreserved characters of section 2.3 of RFC 3986
// (letters, digits, `-`, `.`, `_`, `~`), turns a space into `+`, and writes
// every other byte as `%` followed by two upper-case hexadecimal digits
// (section 2.1 of RFC 3986). Non-ASCII text, which Python first encodes as
// UTF-8, is outside this model.
module Quote {
  import opened Strings

  /** The unreserved characters of RFC 3986, section 2.3. */
  predicate IsUnreserved(c: char) {
    'A' <= c <= 'Z' || 'a' <= c <= 'z' || '0' <= c <= '9' || c == '-' || c == '.' || c == '_' || c == '~'
  }

  /** A hexadecimal digit, in either case (as accepted when decoding). */
  predicate IsHex(c: char) {
    '0' <= c <= '9' || 'A' <= c <= 'F' || 'a' <= c <= 'f'
  }

  /** The characters `quote_plus` can produce: an encoded value cannot close
      a query parameter or start a new one. */
  predicate UrlSafe(s: string) {
    forall i :: 0 <= i < |s| ==> IsUnreserved(s[i]) || s[i] == '%' || s[i] == '+'
  }

  /** The upper-case hexadecimal digit of `d`. */
  function HexChar(d: nat): (c: char)
    requires d < 16
    ensures IsHex(c) && !('a' <= c <= 'f')
  {
    if d < 10 then ('0' as int + d) as char else ('A' as int + d - 10) as char
  }

  function HexValue(c: char): (d: nat)
    requires IsHex(c)
    ensures d < 16
  {
    if '0' <= c <= '9' then c as int - '0' as int
    else if 'A' <= c <= 'F' then c as int - 'A' as int + 10
    else c as int - 'a' as int + 10
  }

  lemma HexRoundTrip(d: nat)
    requires d < 16
    ensures HexValue(HexChar(d)) == d
  {
  }

  /** How `quote_plus` writes one ASCII character. */
  function EncodeChar(c: char): (e: string)
    requires c as int < 128
    ensures UrlSafe(e)
    ensures |e| == 1 || |e| == 3
  {
    if IsUnreserved(c) then [c]
    else if c == ' ' then "+"
    else "%" + [HexChar(c as int / 16), HexChar(c as int % 16)]
  }

  /** `quote_plus(s)` for ASCII `s`: the result is URL-safe and at least as
      long as `s`. */
  function QuotePlus(s: string): (r: string)
    requires IsAscii(s)
    ensures UrlSafe(r)
    ensures |r| >= |s|
  {
    if s == [] then []
    else
      var e := EncodeChar(s[0]);
      var rest := QuotePlus(s[1..]);
      assert forall i :: 0 <= i < |e + rest| ==> (e + rest)[i] == if i < |e| then e[i] else rest[i - |e|];
      e + rest
  }

  /** Decoding: `+` is a space and `%XY` is the character with hexadecimal
      code XY; everything else stands for itself. */
  function UnquotePlus(t: string): string
    decreases |t|
  {
    if t == [] then []
    else if t[0] == '+' then " " + UnquotePlus(t[1..])
    else if t[0] == '%' && |t| >= 3 && IsHex(t[1]) && IsHex(t[2]) then
      [(16 * HexValue(t[1]) + HexValue(t[2])) as char] + UnquotePlus(t[3..])
    else [t[0]] + UnquotePlus(t[1..])
  }

  lemma UnquoteEncodeChar(c: char, rest: string)
    requires c as int < 128
    ensures UnquotePlus(EncodeChar(c) + rest) == [c] + UnquotePlus(rest)
  {
    var t := EncodeChar(c) + rest;
    if IsUnreserved(c) {
      assert t[0] == c && t[1..] == rest;
    } else if c == ' ' {
      assert t[0] == '+' && t[1..] == rest;
    } else {
      var hi, lo := c as int / 16, c as int % 16;
      assert t[0] == '%' && t[1] == HexChar(hi) && t[2] == HexChar(lo) && t[3..] == rest;
      HexRoundTrip(hi);
      HexRoundTrip(lo);
      assert 16 * hi + lo == c as int;
    }
  }

  /** Decoding undoes `quote_plus`: different values never encode alike. */
  lemma {:induction false} QuotePlusRoundTrip(s: string)
    requires IsAscii(s)
    ensures UnquotePlus(QuotePlus(s)) == s
  {
    if s != [] {
      QuotePlusRoundTrip(s[1..]);
      UnquoteEncodeChar(s[0], QuotePlus(s[1..]));
      assert [s[0]] + s[1..] == s;
    }
  }

  lemma QuotePlusInjective(a: string, b: string)
    requires IsAscii(a) && IsAscii(b)
    requires QuotePlus(a) == QuotePlus(b)
    ensures a == b
  {
    QuotePlusRoundTrip(a);
    QuotePlusRoundTrip(b);
  }

  /** Encoding works character by character, so it distributes over
      concatenation. */
  lemma {:induction false} QuotePlusConcat(a: string, b: string)
    requires IsAscii(a) && IsAscii(b)
    ensures IsAscii(a + b)
    ensures QuotePlus(a + b) == QuotePlus(a) + QuotePlus(b)
  {
    AsciiConcat(a, b);
    if a == [] {
      assert a + b == b;
    } else {
      assert (a + b)[0] == a[0];
      assert (a + b)[1..] == a[1..] + b;
      QuotePlusConcat(a[1..], b);
    }
  }

  /** `quote_plus` leaves a string alone exactly when every character is
      unreserved. */
  lemma {:induction false} QuotePlusIdentity(s: string)
    requires IsAscii(s)
    ensures QuotePlus(s) == s <==> forall i :: 0 <= i < |s| ==> IsUnreserved(s[i])
  {
    if s != [] {
      QuotePlusIdentity(s[1..]);
      var e := EncodeChar(s[0]);
      var rest := QuotePlus(s[1..]);
      assert QuotePlus(s) == e + rest;
      if QuotePlus(s) == s {
        assert |e| == 1;
        assert e[0] == s[0];
        assert IsUnreserved(s[0]);
        assert rest == s[1..];
      }
      if forall i :: 0 <= i < |s| ==> IsUnreserved(s[i]) {
        assert IsUnreserved(s[0]);
        assert forall i :: 0 <= i < |s[1..]| ==> IsUnreserved(s[1..][i]) by {
          forall i | 0 <= i < |s[1..]| ensures IsUnreserved(s[1..][i]) {
            assert s[1..][i] == s[i + 1];
          }
        }
        assert [s[0]] + s[1..] == s;
      }
    }
  }
}
