// Character classes and the small string operations of the Python standard
// library that the tool relies on: `str.lower`, `str.upper`, `str.strip`,
// `str.split()` (on whitespace), `str.split(sep)`, `str.replace` of one
// character, `re.sub(r'\D', '', s)` and `str(n)` for a natural number.
// Characters are Dafny `char`s; only the ASCII behaviour of the Python
// functions is modelled.
module Strings {

  /** Every character of `s` is 7-bit ASCII. */
  predicate IsAscii(s: string) {
    forall i :: 0 <= i < |s| ==> s[i] as int < 128
  }

  /** Python's `str.isspace` restricted to ASCII: space, \t \n \v \f \r and the
      four separators \x1c .. \x1f. */
  predicate IsSpace(c: char) {
    c == ' ' || 9 <= c as int <= 13 || 28 <= c as int <= 31
  }

  predicate IsDigit(c: char) {
    '0' <= c <= '9'
  }

  predicate IsUpper(c: char) {
    'A' <= c <= 'Z'
  }

  predicate IsLower(c: char) {
    'a' <= c <= 'z'
  }

  predicate AllSpace(s: string) {
    forall i :: 0 <= i < |s| ==> IsSpace(s[i])
  }

  predicate NoSpace(s: string) {
    forall i :: 0 <= i < |s| ==> !IsSpace(s[i])
  }

  predicate AllDigits(s: string) {
    forall i :: 0 <= i < |s| ==> IsDigit(s[i])
  }

  lemma AsciiConcat(a: string, b: string)
    requires IsAscii(a) && IsAscii(b)
    ensures IsAscii(a + b)
  {
    forall i | 0 <= i < |a + b| ensures (a + b)[i] as int < 128 {
      if i >= |a| { assert (a + b)[i] == b[i - |a|]; }
    }
  }

  // ---------------------------------------------------------------------------
  // Case mapping (`str.lower`, `str.upper` on ASCII letters)

  function LowerChar(c: char): char {
    if IsUpper(c) then (c as int + 32) as char else c
  }

  function UpperChar(c: char): char {
    if IsLower(c) then (c as int - 32) as char else c
  }

  /** `s.lower()`: same length, no upper-case letter left, every other
      character kept, ASCII stays ASCII. */
  function Lower(s: string): (r: string)
    ensures |r| == |s|
    ensures forall i :: 0 <= i < |r| ==> r[i] == LowerChar(s[i])
    ensures forall i :: 0 <= i < |r| ==> !IsUpper(r[i])
    ensures forall i :: 0 <= i < |r| && !IsUpper(s[i]) ==> r[i] == s[i]
    ensures IsAscii(s) ==> IsAscii(r)
  {
    seq(|s|, i requires 0 <= i < |s| => LowerChar(s[i]))
  }

  /** `s.upper()`: same length, no lower-case letter left, every other
      character kept. */
  function Upper(s: string): (r: string)
    ensures |r| == |s|
    ensures forall i :: 0 <= i < |r| ==> r[i] == UpperChar(s[i])
    ensures forall i :: 0 <= i < |r| ==> !IsLower(r[i])
    ensures forall i :: 0 <= i < |r| && !IsLower(s[i]) ==> r[i] == s[i]
  {
    seq(|s|, i requires 0 <= i < |s| => UpperChar(s[i]))
  }

  lemma {:induction false} LowerIdempotent(s: string)
    ensures Lower(Lower(s)) == Lower(s)
  {
    var l := Lower(s);
    forall i | 0 <= i < |l| ensures Lower(l)[i] == l[i] {
      assert !IsUpper(l[i]);
    }
  }

  /** Lower-casing leaves a string without capitals unchanged. */
  lemma LowerUnchanged(s: string)
    requires forall i :: 0 <= i < |s| ==> !IsUpper(s[i])
    ensures Lower(s) == s
  {
  }

  /** `s.replace(a, b)` for single characters `a` and `b`. */
  function ReplaceChar(s: string, a: char, b: char): (r: string)
    ensures |r| == |s|
    ensures a != b ==> forall i :: 0 <= i < |r| ==> r[i] != a
    ensures forall i :: 0 <= i < |r| ==> r[i] == (if s[i] == a then b else s[i])
  {
    seq(|s|, i requires 0 <= i < |s| => if s[i] == a then b else s[i])
  }

  // ---------------------------------------------------------------------------
  // Digit filtering: `re.sub(r'\D', '', s)`

  /** The digits of `s`, in their original order. */
  function Digits(s: string): (r: string)
    ensures AllDigits(r)
    ensures |r| <= |s|
  {
    if s == [] then []
    else (if IsDigit(s[0]) then [s[0]] else []) + Digits(s[1..])
  }

  /** Filtering distributes over concatenation, so the digits keep the order
      in which they occur. */
  lemma {:induction false} DigitsConcat(a: string, b: string)
    ensures Digits(a + b) == Digits(a) + Digits(b)
  {
    if a != [] {
      assert (a + b)[1..] == a[1..] + b;
      DigitsConcat(a[1..], b);
    } else {
      assert a + b == b;
    }
  }

  /** A string of digits is left as it is. */
  lemma {:induction false} DigitsOfDigits(s: string)
    requires AllDigits(s)
    ensures Digits(s) == s
  {
    if s != [] {
      DigitsOfDigits(s[1..]);
      assert [s[0]] + s[1..] == s;
    }
  }

  /** Cleaning twice is cleaning once. */
  lemma DigitsIdempotent(s: string)
    ensures Digits(Digits(s)) == Digits(s)
  {
    DigitsOfDigits(Digits(s));
  }

  /** Digits(s) == s exactly when s is all digits. */
  lemma DigitsFixpoint(s: string)
    ensures Digits(s) == s <==> AllDigits(s)
  {
    if AllDigits(s) { DigitsOfDigits(s); }
  }

  /** No digit is lost: every digit occurs as often in Digits(s) as in s. */
  lemma {:induction false} DigitsKeepsEveryDigit(s: string, c: char)
    requires IsDigit(c)
    ensures multiset(Digits(s))[c] == multiset(s)[c]
  {
    if s != [] {
      DigitsKeepsEveryDigit(s[1..], c);
      assert s == [s[0]] + s[1..];
      assert multiset(s) == multiset([s[0]]) + multiset(s[1..]);
    }
  }

  // ---------------------------------------------------------------------------
  // `str.strip()`

  /** Drops the leading whitespace. */
  function TrimLeft(s: string): (r: string)
    ensures |r| <= |s| && r == s[|s| - |r|..]
    ensures AllSpace(s[..|s| - |r|])
    ensures r == [] || !IsSpace(r[0])
    decreases |s|
  {
    if s != [] && IsSpace(s[0]) then TrimLeft(s[1..]) else s
  }

  /** Drops the trailing whitespace. */
  function TrimRight(s: string): (r: string)
    ensures |r| <= |s| && r == s[..|r|]
    ensures AllSpace(s[|r|..])
    ensures r == [] || !IsSpace(r[|r| - 1])
    decreases |s|
  {
    if s != [] && IsSpace(s[|s| - 1]) then
      var r := TrimRight(s[..|s| - 1]);
      assert s[|r|..] == s[..|s| - 1][|r|..] + [s[|s| - 1]];
      r
    else s
  }

  /** `s.strip()`: the result neither starts nor ends with whitespace. */
  function Strip(s: string): (r: string)
    ensures |r| <= |s|
    ensures Trimmed(r)
  {
    TrimRight(TrimLeft(s))
  }

  /** Stripping removes characters; it never adds one. */
  lemma StripSubset(s: string, c: char)
    ensures c in Strip(s) ==> c in s
  {
    hide TrimLeft, TrimRight;
    var t := TrimLeft(s);
    var r := TrimRight(t);
    if c in r {
      var j :| 0 <= j < |r| && r[j] == c;
      assert t[j] == c;
      assert s[|s| - |t| + j] == c;
    }
  }

  lemma StripIdempotent(s: string)
    ensures Strip(Strip(s)) == Strip(s)
  {
    var r := Strip(s);
    assert r == [] || !IsSpace(r[0]);
    assert TrimLeft(r) == r;
    assert r == [] || !IsSpace(r[|r| - 1]);
    assert TrimRight(r) == r;
  }

  // ---------------------------------------------------------------------------
  // `str.split()` with no argument: the maximal runs of non-whitespace

  /** The longest prefix of `s` without whitespace. */
  function TakeWord(s: string): (w: string)
    ensures |w| <= |s| && w == s[..|w|] && NoSpace(w)
    ensures |w| == |s| || IsSpace(s[|w|])
    decreases |s|
  {
    if s == [] || IsSpace(s[0]) then [] else [s[0]] + TakeWord(s[1..])
  }

  /** `s.split()`: never more words than characters. */
  function Words(s: string): (r: seq<string>)
    ensures |r| <= |s|
    decreases |s|
  {
    var t := TrimLeft(s);
    if t == [] then []
    else
      var w := TakeWord(t);
      assert |w| >= 1;
      [w] + Words(t[|w|..])
  }

  /** The characters of `s` that are not whitespace, in order. */
  function RemoveSpaces(s: string): string {
    if s == [] then [] else (if IsSpace(s[0]) then [] else [s[0]]) + RemoveSpaces(s[1..])
  }

  function Concat(ws: seq<string>): string {
    if ws == [] then [] else ws[0] + Concat(ws[1..])
  }

  lemma {:induction false} ConcatSnoc(ws: seq<string>)
    requires ws != []
    ensures Concat(ws) == Concat(ws[..|ws| - 1]) + ws[|ws| - 1]
    decreases |ws|
  {
    if |ws| > 1 {
      ConcatSnoc(ws[1..]);
      assert ws[1..][..|ws[1..]| - 1] == ws[..|ws| - 1][1..];
      assert ws[1..][|ws[1..]| - 1] == ws[|ws| - 1];
    } else {
      assert ws[..0] == [];
    }
  }

  lemma {:induction false} RemoveSpacesConcat(a: string, b: string)
    ensures RemoveSpaces(a + b) == RemoveSpaces(a) + RemoveSpaces(b)
  {
    if a != [] {
      assert (a + b)[1..] == a[1..] + b;
      RemoveSpacesConcat(a[1..], b);
    } else {
      assert a + b == b;
    }
  }

  lemma {:induction false} RemoveSpacesAll(s: string)
    ensures AllSpace(s) ==> RemoveSpaces(s) == []
    ensures NoSpace(s) ==> RemoveSpaces(s) == s
  {
    if s != [] {
      RemoveSpacesAll(s[1..]);
      assert AllSpace(s) ==> AllSpace(s[1..]);
      assert NoSpace(s) ==> NoSpace(s[1..]);
      assert [s[0]] + s[1..] == s;
    }
  }

  /** One step of `Words`: the first word, then the words of what follows it. */
  lemma WordsStep(s: string)
    requires TrimLeft(s) != []
    ensures TakeWord(TrimLeft(s)) != []
    ensures Words(s) == [TakeWord(TrimLeft(s))] + Words(TrimLeft(s)[|TakeWord(TrimLeft(s))|..])
  {
  }

  /** Leading whitespace contributes nothing but the words of the rest. */
  lemma RemoveSpacesTrimLeft(s: string)
    ensures RemoveSpaces(s) == RemoveSpaces(TrimLeft(s))
  {
    var t := TrimLeft(s);
    var lead := s[..|s| - |t|];
    assert s == lead + t;
    RemoveSpacesConcat(lead, t);
    RemoveSpacesAll(lead);
  }

  /** The words of `s` are non-empty and contain no whitespace. */
  lemma {:induction false} WordsAreWords(s: string)
    ensures forall w :: w in Words(s) ==> w != [] && NoSpace(w)
    decreases |s|
  {
    var t := TrimLeft(s);
    if t != [] {
      var w := TakeWord(t);
      var rest := t[|w|..];
      WordsStep(s);
      WordsAreWords(rest);
      var ws := Words(rest);
      assert Words(s) == [w] + ws;
      forall x | x in [w] + ws ensures x != [] && NoSpace(x) {
        if x != w { assert x in ws; }
      }
    }
  }

  /** Together the words are exactly the non-whitespace characters of `s`,
      in order. */
  lemma {:induction false} WordsConcat(s: string)
    ensures Concat(Words(s)) == RemoveSpaces(s)
    decreases |s|
  {
    var t := TrimLeft(s);
    RemoveSpacesTrimLeft(s);
    if t != [] {
      var w := TakeWord(t);
      var rest := t[|w|..];
      assert t == w + rest;
      WordsStep(s);
      WordsConcat(rest);
      RemoveSpacesConcat(w, rest);
      RemoveSpacesAll(w);
      assert Concat([w] + Words(rest)) == w + Concat(Words(rest));
    } else {
      assert RemoveSpaces(t) == [];
    }
  }

  /** A string without whitespace is one word (or none when it is empty). */
  lemma WordsOfWord(s: string)
    requires NoSpace(s)
    ensures Words(s) == if s == [] then [] else [s]
  {
    if s != [] {
      assert TrimLeft(s) == s;
      var w := TakeWord(s);
      assert |w| == |s|;
      assert w == s;
      WordsStep(s);
      assert s[|w|..] == [];
      assert TrimLeft([]) == [];
    }
  }

  // ---------------------------------------------------------------------------
  // `str.split(sep)` with a one-character separator, and its inverse `sep.join`

  /** `s.split(sep)`: the pieces between separators, keeping empty pieces. */
  function SplitOn(s: string, sep: char): (parts: seq<string>)
    ensures |parts| >= 1
    ensures forall p :: p in parts ==> sep !in p
    decreases |s|
  {
    if s == [] then [[]]
    else
      var rest := SplitOn(s[1..], sep);
      if s[0] == sep then [[]] + rest
      else
        assert rest[0] in rest;
        assert forall p :: p in rest[1..] ==> p in rest;
        [[s[0]] + rest[0]] + rest[1..]
  }

  /** `sep.join(parts)`. */
  function Join(parts: seq<string>, sep: char): string
    requires |parts| >= 1
    decreases |parts|
  {
    if |parts| == 1 then parts[0] else parts[0] + [sep] + Join(parts[1..], sep)
  }

  lemma {:induction false} JoinConsHead(x: string, ps: seq<string>, sep: char)
    requires |ps| >= 1
    ensures Join([x + ps[0]] + ps[1..], sep) == x + Join(ps, sep)
  {
    var qs := [x + ps[0]] + ps[1..];
    assert qs[1..] == ps[1..];
  }

  /** Joining the pieces restores the string. */
  lemma {:induction false} JoinSplit(s: string, sep: char)
    ensures Join(SplitOn(s, sep), sep) == s
    decreases |s|
  {
    if s != [] {
      var rest := SplitOn(s[1..], sep);
      JoinSplit(s[1..], sep);
      if s[0] == sep {
        assert ([[]] + rest)[1..] == rest;
      } else {
        JoinConsHead([s[0]], rest, sep);
      }
      assert [s[0]] + s[1..] == s;
    }
  }

  lemma {:induction false} SplitOnPrefix(a: string, t: string, sep: char)
    requires sep !in a
    ensures SplitOn(a + t, sep) == [a + SplitOn(t, sep)[0]] + SplitOn(t, sep)[1..]
    decreases |a|
  {
    if a != [] {
      assert (a + t)[0] == a[0];
      assert (a + t)[1..] == a[1..] + t;
      SplitOnPrefix(a[1..], t, sep);
      assert [a[0]] + (a[1..] + SplitOn(t, sep)[0]) == a + SplitOn(t, sep)[0];
    } else {
      assert a + t == t;
      var p := SplitOn(t, sep);
      assert a + p[0] == p[0];
      assert [p[0]] + p[1..] == p;
    }
  }

  /** Splitting a join of separator-free pieces gives the pieces back. */
  lemma {:induction false} SplitJoin(parts: seq<string>, sep: char)
    requires |parts| >= 1
    requires forall p :: p in parts ==> sep !in p
    ensures SplitOn(Join(parts, sep), sep) == parts
    decreases |parts|
  {
    if |parts| == 1 {
      SplitOnPrefix(parts[0], [], sep);
      assert parts[0] + [] == parts[0];
      assert SplitOn([], sep) == [[]];
      assert [parts[0] + []] + [] == parts;
    } else {
      var tail := Join(parts[1..], sep);
      assert forall p :: p in parts[1..] ==> p in parts;
      SplitJoin(parts[1..], sep);
      SplitOnPrefix(parts[0], [sep] + tail, sep);
      assert parts[0] + [sep] + tail == parts[0] + ([sep] + tail);
      assert ([sep] + tail)[1..] == tail;
      var q := SplitOn([sep] + tail, sep);
      assert q == [[]] + SplitOn(tail, sep);
      assert q[0] == [] && q[1..] == parts[1..];
      assert parts[0] + q[0] == parts[0];
      assert [parts[0]] + parts[1..] == parts;
    }
  }

  /** A string that neither starts nor ends with whitespace. */
  predicate Trimmed(s: string) {
    s == [] || (!IsSpace(s[0]) && !IsSpace(s[|s| - 1]))
  }

  lemma StripTrimmed(s: string)
    requires Trimmed(s)
    ensures Strip(s) == s
  {
    assert TrimLeft(s) == s;
    assert TrimRight(s) == s;
  }

  /** Joining trimmed pieces with a non-space separator gives a trimmed
      string. */
  lemma {:induction false} JoinTrimmed(parts: seq<string>, sep: char)
    requires |parts| >= 1 && !IsSpace(sep)
    requires forall p :: p in parts ==> Trimmed(p)
    ensures Trimmed(Join(parts, sep))
    decreases |parts|
  {
    assert parts[0] in parts;
    if |parts| > 1 {
      assert forall p :: p in parts[1..] ==> p in parts;
      JoinTrimmed(parts[1..], sep);
      var j := Join(parts, sep);
      var tail := Join(parts[1..], sep);
      assert j == parts[0] + [sep] + tail;
      assert j[0] == if parts[0] == [] then sep else parts[0][0];
      assert j[|j| - 1] == if tail == [] then sep else tail[|tail| - 1];
    }
  }

  /** There is one more piece than there are separators. */
  lemma {:induction false} SplitOnCount(s: string, sep: char)
    ensures |SplitOn(s, sep)| == multiset(s)[sep] + 1
    decreases |s|
  {
    if s != [] {
      SplitOnCount(s[1..], sep);
      assert s == [s[0]] + s[1..];
      assert multiset(s) == multiset([s[0]]) + multiset(s[1..]);
    }
  }

  /** `split()` finds no word exactly when the text is blank. */
  lemma WordsBlank(s: string)
    ensures Words(s) == [] <==> AllSpace(s)
  {
    var t := TrimLeft(s);
    if t == [] {
      assert s[..|s|] == s;
    } else {
      WordsStep(s);
      assert s[|s| - |t|] == t[0] && !IsSpace(s[|s| - |t|]);
    }
  }

  lemma AsciiFrom(s: string, k: nat)
    requires IsAscii(s) && k <= |s|
    ensures IsAscii(s[k..])
  {
    forall i | 0 <= i < |s[k..]| ensures s[k..][i] as int < 128 { assert s[k..][i] == s[k + i]; }
  }

  lemma AsciiUpTo(s: string, k: nat)
    requires IsAscii(s) && k <= |s|
    ensures IsAscii(s[..k])
  {
    forall i | 0 <= i < k ensures s[..k][i] as int < 128 { assert s[..k][i] == s[i]; }
  }

  lemma AsciiCons(w: string, ws: seq<string>)
    requires IsAscii(w) && forall x :: x in ws ==> IsAscii(x)
    ensures forall x :: x in [w] + ws ==> IsAscii(x)
  {
    forall x | x in [w] + ws ensures IsAscii(x) {
      if x != w { assert x in ws; }
    }
  }

  /** The words of an ASCII string are ASCII. */
  lemma {:induction false} WordsAscii(s: string)
    requires IsAscii(s)
    ensures forall w :: w in Words(s) ==> IsAscii(w)
    decreases |s|
  {
    hide Words, TrimLeft, TakeWord;
    var t := TrimLeft(s);
    if t != [] {
      var w := TakeWord(t);
      var rest := t[|w|..];
      AsciiFrom(s, |s| - |t|);
      AsciiUpTo(t, |w|);
      AsciiFrom(t, |w|);
      WordsStep(s);
      WordsAscii(rest);
      AsciiCons(w, Words(rest));
    } else {
      WordsNone(s);
    }
  }

  lemma WordsNone(s: string)
    requires TrimLeft(s) == []
    ensures Words(s) == []
  {
  }

  /** `s.split(sep)[-1]`: the text after the last separator (all of `s` when
      there is none). */
  function LastPiece(s: string, sep: char): (r: string)
    ensures sep !in r
  {
    var parts := SplitOn(s, sep);
    parts[|parts| - 1]
  }

  /** The last piece of `s` from the last piece of `s[1..]`. */
  lemma LastPieceStep(s: string, sep: char)
    ensures s == [] ==> LastPiece(s, sep) == []
    ensures s != [] ==>
      LastPiece(s, sep) ==
        if s[0] == sep || |SplitOn(s[1..], sep)| > 1 then LastPiece(s[1..], sep)
        else [s[0]] + LastPiece(s[1..], sep)
  {
    if s != [] {
      var rest := SplitOn(s[1..], sep);
      if s[0] == sep {
        assert SplitOn(s, sep) == [[]] + rest;
      } else if |rest| > 1 {
        assert SplitOn(s, sep) == [[s[0]] + rest[0]] + rest[1..];
      } else {
        assert SplitOn(s, sep) == [[s[0]] + rest[0]];
      }
    }
  }

  /** The last piece is the suffix of `s` that follows its last separator. */
  lemma {:induction false} LastPieceSuffix(s: string, sep: char)
    ensures |LastPiece(s, sep)| <= |s|
    ensures s[|s| - |LastPiece(s, sep)|..] == LastPiece(s, sep)
    ensures sep !in LastPiece(s, sep)
    ensures sep in s <==> |LastPiece(s, sep)| < |s|
    ensures sep in s ==> s[|s| - |LastPiece(s, sep)| - 1] == sep
    decreases |s|
  {
    hide SplitOn;
    var d := LastPiece(s, sep);
    assert d in SplitOn(s, sep);
    LastPieceStep(s, sep);
    if s != [] {
      LastPieceSuffix(s[1..], sep);
      var d' := LastPiece(s[1..], sep);
      assert s[1..][|s[1..]| - |d'|..] == s[|s| - |d'|..];
      SplitOnCount(s[1..], sep);
      if s[0] == sep {
        assert d == d';
      } else if |SplitOn(s[1..], sep)| > 1 {
        assert d == d';
        assert sep in s[1..] by {
          assert multiset(s[1..])[sep] > 0;
        }
        assert sep in s;
      } else {
        assert d == [s[0]] + d';
        assert sep !in s[1..] by {
          assert multiset(s[1..])[sep] == 0;
        }
        assert s == [s[0]] + s[1..];
        assert sep !in s;
      }
    }
  }

  // ---------------------------------------------------------------------------
  // `str(n)` for a natural number

  function DigitChar(d: nat): char
    requires d < 10
  {
    ('0' as int + d) as char
  }

  function DigitValue(c: char): nat
    requires IsDigit(c)
  {
    c as int - '0' as int
  }

  /** The decimal numeral of `n`, without leading zeros. */
  function Decimal(n: nat): (r: string)
    ensures |r| >= 1 && AllDigits(r)
    ensures |r| > 1 ==> r[0] != '0'
  {
    if n < 10 then [DigitChar(n)] else Decimal(n / 10) + [DigitChar(n % 10)]
  }

  /** The value of a string of decimal digits. */
  function DecimalValue(s: string): nat
    requires AllDigits(s)
  {
    if s == [] then 0 else 10 * DecimalValue(s[..|s| - 1]) + DigitValue(s[|s| - 1])
  }

  /** Reading the numeral back gives the number. */
  lemma {:induction false} DecimalRoundTrip(n: nat)
    ensures DecimalValue(Decimal(n)) == n
  {
    if n >= 10 {
      DecimalRoundTrip(n / 10);
      var r := Decimal(n);
      assert r[..|r| - 1] == Decimal(n / 10);
    } else {
      assert Decimal(n)[..0] == [];
    }
  }
}
