// `repr` of an ASCII string, and `str` of a list of strings and of a small
// dictionary of strings, as Python 3 writes them. The text report prints the
// subject's lists and its birth record this way.
module Repr {
  import opened Strings

  /** Characters `repr` never writes as themselves: the C0 controls and
      DEL. */
  predicate IsControl(c: char) {
    c as int < 32 || c as int == 127
  }

  predicate NoControl(s: string) {
    forall i :: 0 <= i < |s| ==> !IsControl(s[i])
  }

  /** The quote `repr` chooses: a single quote, unless the text contains a
      single quote and no double quote. */
  function QuoteOf(s: string): (q: char)
    ensures q == '\'' || q == '"'
    ensures q == '"' <==> '\'' in s && '"' !in s
  {
    if '\'' in s && '"' !in s then '"' else '\''
  }

  predicate IsLowerHex(c: char) {
    '0' <= c <= '9' || 'a' <= c <= 'f'
  }

  function LowerHex(d: nat): (c: char)
    requires d < 16
    ensures IsLowerHex(c)
  {
    if d < 10 then ('0' as int + d) as char else ('a' as int + d - 10) as char
  }

  function LowerHexValue(c: char): (d: nat)
    requires IsLowerHex(c)
    ensures d < 16
  {
    if '0' <= c <= '9' then c as int - '0' as int else c as int - 'a' as int + 10
  }

  /** How `repr` writes one ASCII character between quotes `q`: the quote
      and the backslash get a backslash, tab, newline and carriage return
      their letter escapes, other controls a `\x` escape with two lower-case
      hexadecimal digits, and everything else stands for itself. */
  function EscapeChar(c: char, q: char): (e: string)
    requires c as int < 128 && (q == '\'' || q == '"')
    ensures NoControl(e) && IsAscii(e)
    ensures |e| == 1 <==> e == [c]
  {
    if c == q || c == '\\' then ['\\', c]
    else if c == '\t' then "\\t"
    else if c == '\n' then "\\n"
    else if c == '\r' then "\\r"
    else if IsControl(c) then ['\\', 'x', LowerHex(c as int / 16), LowerHex(c as int % 16)]
    else [c]
  }

  function Escape(s: string, q: char): (r: string)
    requires IsAscii(s) && (q == '\'' || q == '"')
    ensures NoControl(r) && IsAscii(r)
    ensures |r| >= |s|
  {
    if s == [] then []
    else
      var e := EscapeChar(s[0], q);
      var rest := Escape(s[1..], q);
      CleanConcat(e, rest);
      e + rest
  }

  lemma CleanConcat(a: string, b: string)
    requires NoControl(a) && IsAscii(a) && NoControl(b) && IsAscii(b)
    ensures NoControl(a + b) && IsAscii(a + b)
  {
    assert forall i :: 0 <= i < |a + b| ==> (a + b)[i] == if i < |a| then a[i] else b[i - |a|];
  }

  /** `repr(s)`: quoted, escaped, and with no control character left, so
      it never spans two lines. */
  function StrRepr(s: string): (r: string)
    requires IsAscii(s)
    ensures NoControl(r) && '\n' !in r && IsAscii(r)
    ensures |r| >= |s| + 2 && r[0] == QuoteOf(s) && r[|r| - 1] == QuoteOf(s)
  {
    var q := QuoteOf(s);
    var body := Escape(s, q);
    var r := [q] + body + [q];
    assert forall i :: 0 <= i < |body| ==> r[i + 1] == body[i];
    r
  }

  /** Reading escapes back: a backslash followed by `t`, `n`, `r` or
      `x` and two hexadecimal digits stands for that character; a backslash
      followed by anything else stands for what follows it. */
  function Unescape(t: string): string
    decreases |t|
  {
    if t == [] then []
    else if t[0] == '\\' && |t| >= 2 then
      if t[1] == 't' then "\t" + Unescape(t[2..])
      else if t[1] == 'n' then "\n" + Unescape(t[2..])
      else if t[1] == 'r' then "\r" + Unescape(t[2..])
      else if t[1] == 'x' && |t| >= 4 && IsLowerHex(t[2]) && IsLowerHex(t[3]) then
        [(16 * LowerHexValue(t[2]) + LowerHexValue(t[3])) as char] + Unescape(t[4..])
      else [t[1]] + Unescape(t[2..])
    else [t[0]] + Unescape(t[1..])
  }

  /** The text between the quotes of a `repr`, unescaped. */
  function Unrepr(r: string): string
    requires |r| >= 2
  {
    Unescape(r[1..|r| - 1])
  }

  lemma UnescapeChar(c: char, q: char, rest: string)
    requires c as int < 128 && (q == '\'' || q == '"')
    ensures Unescape(EscapeChar(c, q) + rest) == [c] + Unescape(rest)
  {
    var t := EscapeChar(c, q) + rest;
    if c == q || c == '\\' {
      assert t[0] == '\\' && t[1] == c && t[2..] == rest;
    } else if c == '\t' || c == '\n' || c == '\r' {
      assert t[2..] == rest;
    } else if IsControl(c) {
      var hi, lo := c as int / 16, c as int % 16;
      assert t[0] == '\\' && t[1] == 'x' && t[2] == LowerHex(hi) && t[3] == LowerHex(lo) && t[4..] == rest;
      assert 16 * hi + lo == c as int;
    } else {
      assert t[0] == c && t[1..] == rest;
    }
  }

  lemma {:induction false} UnescapeEscape(s: string, q: char)
    requires IsAscii(s) && (q == '\'' || q == '"')
    ensures Unescape(Escape(s, q)) == s
  {
    if s != [] {
      UnescapeEscape(s[1..], q);
      UnescapeChar(s[0], q, Escape(s[1..], q));
      assert [s[0]] + s[1..] == s;
    }
  }

  /** Unquoting and unescaping a `repr` gives the text back, so different
      texts are printed differently. */
  lemma StrReprRoundTrip(s: string)
    requires IsAscii(s)
    ensures Unrepr(StrRepr(s)) == s
  {
    var q := QuoteOf(s);
    var r := StrRepr(s);
    assert r[1..|r| - 1] == Escape(s, q);
    UnescapeEscape(s, q);
  }

  lemma StrReprInjective(a: string, b: string)
    requires IsAscii(a) && IsAscii(b) && StrRepr(a) == StrRepr(b)
    ensures a == b
  {
    StrReprRoundTrip(a);
    StrReprRoundTrip(b);
  }

  /** Text with no quote, backslash or control character is printed
      between single quotes as it is. */
  predicate Plain(s: string) {
    IsAscii(s) && NoControl(s) && forall i :: 0 <= i < |s| ==> s[i] != '\'' && s[i] != '"' && s[i] != '\\'
  }

  lemma {:induction false} EscapePlain(s: string)
    requires Plain(s)
    ensures Escape(s, '\'') == s
  {
    if s != [] {
      assert Plain(s[1..]) by {
        forall i | 0 <= i < |s[1..]| ensures s[1..][i] == s[i + 1] { }
      }
      EscapePlain(s[1..]);
      assert s == [s[0]] + s[1..];
    }
  }

  lemma StrReprPlain(s: string)
    requires Plain(s)
    ensures StrRepr(s) == "'" + s + "'"
  {
    assert '\'' !in s;
    EscapePlain(s);
  }

  /** `", ".join(repr(x) for x in ss)` */
  function JoinReprs(ss: seq<string>): (r: string)
    requires forall i :: 0 <= i < |ss| ==> IsAscii(ss[i])
    ensures '\n' !in r && IsAscii(r)
  {
    if ss == [] then []
    else if |ss| == 1 then StrRepr(ss[0])
    else
      AsciiConcat(StrRepr(ss[0]), ", ");
      AsciiConcat(StrRepr(ss[0]) + ", ", JoinReprs(ss[1..]));
      StrRepr(ss[0]) + ", " + JoinReprs(ss[1..])
  }

  /** `str(ss)` for a list of strings. */
  function ListStr(ss: seq<string>): (r: string)
    requires forall i :: 0 <= i < |ss| ==> IsAscii(ss[i])
    ensures |r| >= 2 && '\n' !in r && r[0] == '[' && r[|r| - 1] == ']'
    ensures IsAscii(r)
  {
    AsciiConcat("[", JoinReprs(ss));
    AsciiConcat("[" + JoinReprs(ss), "]");
    "[" + JoinReprs(ss) + "]"
  }

  /** `", ".join(repr(k) + ": " + repr(v) for k, v in pairs)` */
  function JoinItems(pairs: seq<(string, string)>): (r: string)
    requires forall i :: 0 <= i < |pairs| ==> IsAscii(pairs[i].0) && IsAscii(pairs[i].1)
    ensures '\n' !in r && IsAscii(r)
  {
    if pairs == [] then []
    else
      var item := StrRepr(pairs[0].0) + ": " + StrRepr(pairs[0].1);
      AsciiConcat(StrRepr(pairs[0].0), ": ");
      AsciiConcat(StrRepr(pairs[0].0) + ": ", StrRepr(pairs[0].1));
      if |pairs| == 1 then item
      else
        AsciiConcat(item, ", ");
        AsciiConcat(item + ", ", JoinItems(pairs[1..]));
        item + ", " + JoinItems(pairs[1..])
  }

  /** `str(d)` for a dictionary of strings, given its items in order. */
  function DictStr(pairs: seq<(string, string)>): (r: string)
    requires forall i :: 0 <= i < |pairs| ==> IsAscii(pairs[i].0) && IsAscii(pairs[i].1)
    ensures |r| >= 2 && '\n' !in r && r[0] == '{' && r[|r| - 1] == '}'
    ensures IsAscii(r)
  {
    AsciiConcat("{", JoinItems(pairs));
    AsciiConcat("{" + JoinItems(pairs), "}");
    "{" + JoinItems(pairs) + "}"
  }

  // A reader of these texts stops a quoted string at the first quote that
  // is not escaped. Each `repr` ends exactly there, so a list or dictionary
  // printed this way determines its items.

  /** How far a reader gets through escaped text before the first quote `q`
      that is not escaped. */
  function BodyLen(t: string, q: char): (n: nat)
    ensures n <= |t|
    decreases |t|
  {
    if t == [] || t[0] == q then 0
    else if t[0] == '\\' && |t| >= 2 then 2 + BodyLen(t[2..], q)
    else 1 + BodyLen(t[1..], q)
  }

  lemma BodyLenChar(c: char, q: char, t: string)
    requires c as int < 128 && (q == '\'' || q == '"')
    ensures BodyLen(EscapeChar(c, q) + t, q) == |EscapeChar(c, q)| + BodyLen(t, q)
  {
    var e := EscapeChar(c, q);
    var w := e + t;
    if c == q || c == '\\' || c == '\t' || c == '\n' || c == '\r' {
      assert w[0] == '\\' && w[2..] == t;
    } else if IsControl(c) {
      var u := w[2..];
      assert w[0] == '\\' && u == e[2..] + t;
      assert u[0] == e[2] && IsLowerHex(u[0]);
      assert u[1..] == [e[3]] + t && IsLowerHex(e[3]);
      assert u[1..][1..] == t;
      assert BodyLen(w, q) == 2 + BodyLen(u, q);
      assert BodyLen(u, q) == 1 + BodyLen(u[1..], q);
      assert BodyLen(u[1..], q) == 1 + BodyLen(t, q);
    } else {
      assert w[0] == c && w[1..] == t;
    }
  }

  lemma {:induction false} BodyLenEscape(s: string, q: char, t: string)
    requires IsAscii(s) && (q == '\'' || q == '"')
    ensures BodyLen(Escape(s, q) + t, q) == |Escape(s, q)| + BodyLen(t, q)
  {
    if s != [] {
      var e, rest := EscapeChar(s[0], q), Escape(s[1..], q);
      assert Escape(s, q) == e + rest;
      assert Escape(s, q) + t == e + (rest + t);
      BodyLenChar(s[0], q, rest + t);
      BodyLenEscape(s[1..], q, t);
      assert |Escape(s, q)| == |e| + |rest|;
    } else {
      assert Escape(s, q) + t == t;
    }
  }

  /** No `repr` followed by more text reads as another `repr` followed by
      other text. */
  lemma StrReprPrefix(a: string, b: string, x: string, y: string)
    requires IsAscii(a) && IsAscii(b) && StrRepr(a) + x == StrRepr(b) + y
    ensures a == b && x == y
  {
    var q := QuoteOf(a);
    var ra, rb := StrRepr(a), StrRepr(b);
    assert (ra + x)[0] == ra[0] && (rb + y)[0] == rb[0];
    var ea, eb := Escape(a, q), Escape(b, q);
    var ta, tb := ea + ([q] + x), eb + ([q] + y);
    assert ra + x == [q] + ta;
    assert rb + y == [q] + tb;
    assert ta == (ra + x)[1..] == tb;
    BodyLenEscape(a, q, [q] + x);
    BodyLenEscape(b, q, [q] + y);
    assert ea == ta[..|ea|] && eb == tb[..|eb|];
    assert [q] + x == ta[|ea|..] && [q] + y == tb[|eb|..];
    assert x == ([q] + x)[1..] && y == ([q] + y)[1..];
    UnescapeEscape(a, q);
    UnescapeEscape(b, q);
  }

  lemma JoinReprsNil()
    ensures JoinReprs([]) == []
  {
  }

  lemma JoinReprsCons(ss: seq<string>)
    requires |ss| >= 1 && forall i :: 0 <= i < |ss| ==> IsAscii(ss[i])
    ensures JoinReprs(ss) == StrRepr(ss[0]) + (if |ss| == 1 then "" else ", " + JoinReprs(ss[1..]))
    ensures |JoinReprs(ss)| > 0 && JoinReprs(ss)[0] == StrRepr(ss[0])[0]
  {
  }

  /** Reading the first `repr` of two non-empty joined lists. */
  lemma JoinReprsHead(a: seq<string>, b: seq<string>, t: string, u: string)
    requires |a| >= 1 && |b| >= 1
    requires forall i :: 0 <= i < |a| ==> IsAscii(a[i])
    requires forall i :: 0 <= i < |b| ==> IsAscii(b[i])
    requires |t| > 0 && |u| > 0 && t[0] == ']' && u[0] == ']'
    requires JoinReprs(a) + t == JoinReprs(b) + u
    ensures a[0] == b[0] && (|a| == 1 <==> |b| == 1)
    ensures |a| == 1 ==> t == u
    ensures |a| > 1 ==> JoinReprs(a[1..]) + t == JoinReprs(b[1..]) + u
  {
    hide JoinReprs, StrRepr;
    var x := if |a| == 1 then t else ", " + (JoinReprs(a[1..]) + t);
    var y := if |b| == 1 then u else ", " + (JoinReprs(b[1..]) + u);
    JoinReprsFollowed(a, t);
    JoinReprsFollowed(b, u);
    StrReprPrefix(a[0], b[0], x, y);
    if |a| > 1 && |b| > 1 {
      assert JoinReprs(a[1..]) + t == x[2..] == y[2..] == JoinReprs(b[1..]) + u;
    }
  }

  lemma JoinReprsStart(a: seq<string>, t: string)
    requires |a| >= 1 && forall i :: 0 <= i < |a| ==> IsAscii(a[i])
    ensures (JoinReprs(a) + t)[0] == '\'' || (JoinReprs(a) + t)[0] == '"'
  {
    hide StrRepr;
    JoinReprsCons(a);
  }

  lemma ReprAssoc(x: string, y: string, t: string)
    ensures x + (", " + y) + t == x + (", " + (y + t))
  {
  }

  lemma JoinReprsFollowed(a: seq<string>, t: string)
    requires |a| >= 1 && forall i :: 0 <= i < |a| ==> IsAscii(a[i])
    ensures JoinReprs(a) + t == StrRepr(a[0]) + (if |a| == 1 then t else ", " + (JoinReprs(a[1..]) + t))
  {
    hide StrRepr, JoinReprs;
    JoinReprsCons(a);
    var x := StrRepr(a[0]);
    if |a| == 1 {
      assert JoinReprs(a) == x + "" == x;
    } else {
      var y := JoinReprs(a[1..]);
      assert JoinReprs(a) == x + (", " + y);
      ReprAssoc(x, y, t);
    }
  }

  /** A joined list of `repr`s followed by a closing bracket reads back as
      that list. */
  lemma {:induction false} JoinReprsPrefix(a: seq<string>, b: seq<string>, t: string, u: string)
    requires forall i :: 0 <= i < |a| ==> IsAscii(a[i])
    requires forall i :: 0 <= i < |b| ==> IsAscii(b[i])
    requires |t| > 0 && |u| > 0 && t[0] == ']' && u[0] == ']'
    requires JoinReprs(a) + t == JoinReprs(b) + u
    ensures a == b && t == u
    decreases |a|
  {
    hide JoinReprs, StrRepr;
    JoinReprsNil();
    if a == [] && b == [] {
      assert JoinReprs(a) + t == t && JoinReprs(b) + u == u;
    } else if a == [] {
      JoinReprsStart(b, u);
      assert false;
    } else if b == [] {
      JoinReprsStart(a, t);
      assert false;
    } else {
      JoinReprsHead(a, b, t, u);
      if |a| > 1 {
        JoinReprsPrefix(a[1..], b[1..], t, u);
        assert a == [a[0]] + a[1..] && b == [b[0]] + b[1..];
      } else {
        assert a == [a[0]] && b == [b[0]];
      }
    }
  }

  /** Different lists of strings print differently. */
  lemma ListStrInjective(a: seq<string>, b: seq<string>)
    requires forall i :: 0 <= i < |a| ==> IsAscii(a[i])
    requires forall i :: 0 <= i < |b| ==> IsAscii(b[i])
    requires ListStr(a) == ListStr(b)
    ensures a == b
  {
    hide JoinReprs;
    var x, y := JoinReprs(a), JoinReprs(b);
    assert ListStr(a) == "[" + x + "]" && ("[" + x + "]")[1..] == x + "]";
    assert ListStr(b) == "[" + y + "]" && ("[" + y + "]")[1..] == y + "]";
    JoinReprsPrefix(a, b, "]", "]");
  }

  lemma JoinItemsNil()
    ensures JoinItems([]) == []
  {
  }

  lemma JoinItemsCons(pairs: seq<(string, string)>)
    requires |pairs| >= 1 && forall i :: 0 <= i < |pairs| ==> IsAscii(pairs[i].0) && IsAscii(pairs[i].1)
    ensures JoinItems(pairs) == StrRepr(pairs[0].0) + (": " + (StrRepr(pairs[0].1)
      + (if |pairs| == 1 then "" else ", " + JoinItems(pairs[1..]))))
    ensures |JoinItems(pairs)| > 0 && JoinItems(pairs)[0] == StrRepr(pairs[0].0)[0]
  {
  }

  /** Reading the first item of two non-empty joined item lists. */
  lemma JoinItemsHead(a: seq<(string, string)>, b: seq<(string, string)>, t: string, u: string)
    requires |a| >= 1 && |b| >= 1
    requires forall i :: 0 <= i < |a| ==> IsAscii(a[i].0) && IsAscii(a[i].1)
    requires forall i :: 0 <= i < |b| ==> IsAscii(b[i].0) && IsAscii(b[i].1)
    requires |t| > 0 && |u| > 0 && t[0] == '}' && u[0] == '}'
    requires JoinItems(a) + t == JoinItems(b) + u
    ensures a[0] == b[0] && (|a| == 1 <==> |b| == 1)
    ensures |a| == 1 ==> t == u
    ensures |a| > 1 ==> JoinItems(a[1..]) + t == JoinItems(b[1..]) + u
  {
    hide JoinItems, StrRepr;
    var x := if |a| == 1 then t else ", " + (JoinItems(a[1..]) + t);
    var y := if |b| == 1 then u else ", " + (JoinItems(b[1..]) + u);
    var xa, yb := StrRepr(a[0].1) + x, StrRepr(b[0].1) + y;
    JoinItemsFollowed(a, t);
    JoinItemsFollowed(b, u);
    assert JoinItems(a) + t == StrRepr(a[0].0) + (": " + xa);
    assert JoinItems(b) + u == StrRepr(b[0].0) + (": " + yb);
    StrReprPrefix(a[0].0, b[0].0, ": " + xa, ": " + yb);
    assert xa == (": " + xa)[2..] && yb == (": " + yb)[2..];
    StrReprPrefix(a[0].1, b[0].1, x, y);
    if |a| > 1 && |b| > 1 {
      assert JoinItems(a[1..]) + t == x[2..] == y[2..] == JoinItems(b[1..]) + u;
    }
  }

  lemma JoinItemsStart(a: seq<(string, string)>, t: string)
    requires |a| >= 1 && forall i :: 0 <= i < |a| ==> IsAscii(a[i].0) && IsAscii(a[i].1)
    ensures (JoinItems(a) + t)[0] == '\'' || (JoinItems(a) + t)[0] == '"'
  {
    hide StrRepr;
    JoinItemsCons(a);
  }

  lemma JoinItemsFollowed(a: seq<(string, string)>, t: string)
    requires |a| >= 1 && forall i :: 0 <= i < |a| ==> IsAscii(a[i].0) && IsAscii(a[i].1)
    ensures |a| == 1 ==> JoinItems(a) + t == StrRepr(a[0].0) + (": " + (StrRepr(a[0].1) + t))
    ensures |a| > 1 ==>
      JoinItems(a) + t == StrRepr(a[0].0) + (": " + (StrRepr(a[0].1) + (", " + (JoinItems(a[1..]) + t))))
  {
    hide StrRepr, JoinItems;
    JoinItemsCons(a);
    if |a| == 1 {
      JoinItemsOne(a, t);
    } else {
      JoinItemsMore(a, t);
    }
  }

  lemma JoinItemsOne(a: seq<(string, string)>, t: string)
    requires |a| == 1 && IsAscii(a[0].0) && IsAscii(a[0].1)
    requires JoinItems(a) == StrRepr(a[0].0) + (": " + StrRepr(a[0].1))
    ensures JoinItems(a) + t == StrRepr(a[0].0) + (": " + (StrRepr(a[0].1) + t))
  {
    hide StrRepr, JoinItems;
  }

  lemma ItemAssoc(k: string, v: string, r: string, t: string)
    ensures (k + (": " + (v + (", " + r)))) + t == k + (": " + (v + (", " + (r + t))))
  {
  }

  lemma JoinItemsMore(a: seq<(string, string)>, t: string)
    requires |a| > 1 && forall i :: 0 <= i < |a| ==> IsAscii(a[i].0) && IsAscii(a[i].1)
    requires JoinItems(a) == StrRepr(a[0].0) + (": " + (StrRepr(a[0].1) + (", " + JoinItems(a[1..]))))
    ensures JoinItems(a) + t == StrRepr(a[0].0) + (": " + (StrRepr(a[0].1) + (", " + (JoinItems(a[1..]) + t))))
  {
    hide StrRepr, JoinItems;
    ItemAssoc(StrRepr(a[0].0), StrRepr(a[0].1), JoinItems(a[1..]), t);
  }

  /** Joined items followed by a closing brace read back as those items. */
  lemma {:induction false} JoinItemsPrefix(a: seq<(string, string)>, b: seq<(string, string)>, t: string, u: string)
    requires forall i :: 0 <= i < |a| ==> IsAscii(a[i].0) && IsAscii(a[i].1)
    requires forall i :: 0 <= i < |b| ==> IsAscii(b[i].0) && IsAscii(b[i].1)
    requires |t| > 0 && |u| > 0 && t[0] == '}' && u[0] == '}'
    requires JoinItems(a) + t == JoinItems(b) + u
    ensures a == b && t == u
    decreases |a|
  {
    hide JoinItems, StrRepr;
    JoinItemsNil();
    if a == [] && b == [] {
      assert JoinItems(a) + t == t && JoinItems(b) + u == u;
    } else if a == [] {
      JoinItemsStart(b, u);
      assert false;
    } else if b == [] {
      JoinItemsStart(a, t);
      assert false;
    } else {
      JoinItemsHead(a, b, t, u);
      if |a| > 1 {
        JoinItemsPrefix(a[1..], b[1..], t, u);
        assert a == [a[0]] + a[1..] && b == [b[0]] + b[1..];
      } else {
        assert a == [a[0]] && b == [b[0]];
      }
    }
  }

  /** Different dictionaries of strings (as item sequences) print
      differently. */
  lemma DictStrInjective(a: seq<(string, string)>, b: seq<(string, string)>)
    requires forall i :: 0 <= i < |a| ==> IsAscii(a[i].0) && IsAscii(a[i].1)
    requires forall i :: 0 <= i < |b| ==> IsAscii(b[i].0) && IsAscii(b[i].1)
    requires DictStr(a) == DictStr(b)
    ensures a == b
  {
    hide JoinItems;
    var x, y := JoinItems(a), JoinItems(b);
    assert DictStr(a) == "{" + x + "}" && ("{" + x + "}")[1..] == x + "}";
    assert DictStr(b) == "{" + y + "}" && ("{" + y + "}")[1..] == y + "}";
    JoinItemsPrefix(a, b, "}", "}");
  }
}
