// The subject record (`results["subject_info"]`) and the small input rules
// that build it: comma-separated lists, the output format, and the yes/no
// answers.
module Subjects {
  import opened Strings

  /** How the record was filled in. The two paths insert the record's keys
      in different orders, which the text report shows. */
  datatype Origin = Interactive | CommandLine

  /** The description of a person. An empty string or an empty list stands
      for a field that was not given, as Python's truthiness tests treat
      both alike. */
  datatype Subject = Subject(
    origin: Origin,
    name: string,
    birthDate: string,
    birthPlace: string,
    addresses: seq<string>,
    phones: seq<string>,
    emails: seq<string>,
    usernames: seq<string>,
    employers: seq<string>,
    education: seq<string>,
    relatives: seq<string>,
    photoPath: string)

  predicate AllAscii(ss: seq<string>) {
    forall i :: 0 <= i < |ss| ==> IsAscii(ss[i])
  }

  /** A username is put into a URL template that is afterwards passed to
      `str.format`; without braces that second step changes nothing. */
  predicate NoBraces(s: string) {
    '{' !in s && '}' !in s
  }

  /** The records this model covers: ASCII text throughout, and usernames
      without format braces. */
  predicate WellFormed(s: Subject) {
    && IsAscii(s.name) && IsAscii(s.birthDate) && IsAscii(s.birthPlace)
    && AllAscii(s.addresses) && AllAscii(s.phones) && AllAscii(s.emails)
    && AllAscii(s.usernames) && AllAscii(s.employers) && AllAscii(s.education)
    && AllAscii(s.relatives) && IsAscii(s.photoPath)
    && (forall i :: 0 <= i < |s.usernames| ==> NoBraces(s.usernames[i]))
  }

  /** The record has a `birth` entry when a date or a place was given. */
  predicate HasBirth(s: Subject) {
    s.birthDate != [] || s.birthPlace != []
  }

  /** The order in which each path inserts the keys of `subject_info`: the
      interactive path asks for phones before emails, the command line sets
      emails first. */
  const InteractiveOrder: seq<string> :=
    ["name", "birth", "addresses", "phones", "emails", "usernames", "employers", "education", "relatives", "photo_path"]
  const CommandLineOrder: seq<string> :=
    ["name", "birth", "addresses", "emails", "phones", "usernames", "employers", "education", "relatives", "photo_path"]

  function KeyOrder(o: Origin): seq<string> {
    if o == Interactive then InteractiveOrder else CommandLineOrder
  }

  /** The key is stored: `name` always, every other key only when it was
      given. */
  predicate Present(s: Subject, key: string) {
    match key
    case "name" => true
    case "birth" => HasBirth(s)
    case "addresses" => s.addresses != []
    case "phones" => s.phones != []
    case "emails" => s.emails != []
    case "usernames" => s.usernames != []
    case "employers" => s.employers != []
    case "education" => s.education != []
    case "relatives" => s.relatives != []
    case "photo_path" => s.photoPath != []
    case _ => false
  }

  /** The keys of `keys` that are stored, in order. */
  function Select(s: Subject, keys: seq<string>): (r: seq<string>)
    ensures forall k :: k in r <==> k in keys && Present(s, k)
    ensures keys != [] && Present(s, keys[0]) ==> r != [] && r[0] == keys[0]
  {
    if keys == [] then []
    else (if Present(s, keys[0]) then [keys[0]] else []) + Select(s, keys[1..])
  }

  /** The keys of `subject_info`, in insertion order. */
  function InfoKeys(s: Subject): (r: seq<string>)
    ensures |r| >= 1 && r[0] == "name"
    ensures forall k :: k in r <==> k in KeyOrder(s.origin) && Present(s, k)
  {
    Select(s, KeyOrder(s.origin))
  }

  /** A comma-separated answer: `[x.strip() for x in raw.strip().split(",")]`,
      or no list at all when the answer is blank. */
  function ParseList(raw: string): (r: seq<string>)
    ensures Strip(raw) == [] <==> r == []
    ensures forall i :: 0 <= i < |r| ==> ',' !in r[i] && Trimmed(r[i])
  {
    var t := Strip(raw);
    if t == [] then []
    else
      var parts := SplitOn(t, ',');
      var r := seq(|parts|, i requires 0 <= i < |parts| => Strip(parts[i]));
      assert forall i :: 0 <= i < |r| ==> ',' !in r[i] by {
        forall i | 0 <= i < |r| ensures ',' !in r[i] {
          assert parts[i] in parts;
          StripSubset(parts[i], ',');
        }
      }
      r
  }

  /** One item per comma, each the stripped piece between two commas. */
  lemma ParseListPieces(raw: string)
    requires Strip(raw) != []
    ensures |ParseList(raw)| == multiset(Strip(raw))[','] + 1
    ensures forall i :: 0 <= i < |ParseList(raw)| ==>
      ParseList(raw)[i] == Strip(SplitOn(Strip(raw), ',')[i])
  {
    hide Strip, SplitOn;
    SplitOnCount(Strip(raw), ',');
  }

  /** Joining trimmed, comma-free items with commas and parsing the result
      gives the items back (a single empty item reads as no answer). */
  lemma ParseListRoundTrip(items: seq<string>)
    requires |items| >= 1 && items != [[]]
    requires forall i :: 0 <= i < |items| ==> ',' !in items[i] && Trimmed(items[i])
    ensures ParseList(Join(items, ',')) == items
  {
    var j := Join(items, ',');
    assert forall p :: p in items ==> ',' !in p && Trimmed(p);
    JoinTrimmed(items, ',');
    SplitJoin(items, ',');
    assert SplitOn([], ',') == [[]];
    ParseTrimmedList(j, items);
  }

  lemma ParseTrimmedList(raw: string, items: seq<string>)
    requires raw != [] && Trimmed(raw) && SplitOn(raw, ',') == items
    requires forall i :: 0 <= i < |items| ==> Trimmed(items[i])
    ensures ParseList(raw) == items
  {
    StripTrimmed(raw);
    var r := ParseList(raw);
    forall i | 0 <= i < |items| ensures r[i] == items[i] {
      StripTrimmed(items[i]);
    }
  }

  /** The interactive output format: the answer, stripped and lower-cased,
      when it is "json" or "txt", and "json" otherwise. */
  function NormalizeFormat(raw: string): (r: string)
    ensures r == "json" || r == "txt"
    ensures r == "txt" <==> Lower(Strip(raw)) == "txt"
  {
    var f := Lower(Strip(raw));
    if f == "json" || f == "txt" then f else "json"
  }

  lemma JsonNormal()
    ensures NormalizeFormat("json") == "json"
  {
    StripTrimmed("json");
    LowerUnchanged("json");
  }

  lemma TxtNormal()
    ensures NormalizeFormat("txt") == "txt"
  {
    StripTrimmed("txt");
    LowerUnchanged("txt");
  }

  /** Normalising an already normalised format changes nothing. */
  lemma NormalizeFormatIdempotent(raw: string)
    ensures NormalizeFormat(NormalizeFormat(raw)) == NormalizeFormat(raw)
  {
    hide Lower, Strip;
    if NormalizeFormat(raw) == "json" { JsonNormal(); } else { TxtNormal(); }
  }

  /** Lower-casing gives "y" only for "y" and "Y". */
  lemma LowerIsY(x: string)
    ensures Lower(x) == "y" <==> x == "y" || x == "Y"
  {
    if Lower(x) == "y" {
      assert |x| == 1 && LowerChar(x[0]) == 'y';
      assert x == [x[0]];
    }
    if x == "y" || x == "Y" {
      assert Lower(x) == [LowerChar(x[0])];
    }
  }

  /** The "open in browser" preference: the stripped, lower-cased answer is
      "y". */
  function WantsBrowser(raw: string): (r: bool)
    ensures r <==> Strip(raw) == "y" || Strip(raw) == "Y"
  {
    LowerIsY(Strip(raw));
    Lower(Strip(raw)) == "y"
  }

  /** The confirmation before opening tabs is lower-cased but not
      stripped. */
  function Confirms(raw: string): (r: bool)
    ensures r <==> raw == "y" || raw == "Y"
  {
    LowerIsY(raw);
    Lower(raw) == "y"
  }

  /** Every confirming answer also sets the preference. */
  lemma ConfirmsImpliesWantsBrowser(raw: string)
    requires Confirms(raw)
    ensures WantsBrowser(raw)
  {
    var l := Lower(raw);
    assert |raw| == 1 && l[0] == 'y';
    assert !IsSpace(raw[0]);
    StripTrimmed(raw);
  }

  lemma YTrimsLeft()
    ensures TrimLeft("y") == "y"
  {
  }

  lemma PaddedYTrimsLeft()
    ensures TrimLeft(" y") == "y"
  {
    YTrimsLeft();
  }

  lemma YTrimsRight()
    ensures TrimRight("y") == "y"
  {
  }

  lemma PaddedYesStrips()
    ensures Strip(" y") == "y"
  {
    PaddedYTrimsLeft();
    YTrimsRight();
  }

  /** The converse fails: a padded " y" sets the preference and is then
      refused as a confirmation, so no tab is opened. */
  lemma PaddedYesNotConfirmed()
    ensures WantsBrowser(" y") && !Confirms(" y")
  {
    PaddedYesStrips();
    LowerUnchanged("y");
    assert |Lower(" y")| == 2;
  }
}
