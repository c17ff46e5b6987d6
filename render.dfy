// The text report `save_results` writes when the output format is not
// "json": a header, the subject record one line per key, then the catalog
// grouped by category, one block per search record.
module Render {
  import opened Strings
  import opened Repr
  import opened Subjects
  import opened Catalog
  import opened Grouping

  /** The bullet that opens every record block (U+2022), the one
      character of the report outside ASCII. */
  const Bullet: char := '\U{2022}'

  /** `"-" * 40` */
  const Rule: string := "----------------------------------------"

  /** `s.capitalize()` on ASCII: the first character upper-cased, the rest
      lower-cased. */
  function Capitalize(s: string): (r: string)
    ensures |r| == |s|
    ensures |s| > 0 ==> r[0] == UpperChar(s[0]) && r[1..] == Lower(s[1..])
  {
    if s == [] then [] else [UpperChar(s[0])] + Lower(s[1..])
  }

  /** The items of the `birth` dictionary, in insertion order. */
  function BirthItems(s: Subject): seq<(string, string)> {
    (if s.birthDate != [] then [("date", s.birthDate)] else [])
    + (if s.birthPlace != [] then [("place", s.birthPlace)] else [])
  }

  /** `str(value)` for the value stored under `key`. */
  function InfoValue(s: Subject, key: string): string
    requires WellFormed(s)
  {
    match key
    case "name" => s.name
    case "birth" => DictStr(BirthItems(s))
    case "addresses" => ListStr(s.addresses)
    case "phones" => ListStr(s.phones)
    case "emails" => ListStr(s.emails)
    case "usernames" => ListStr(s.usernames)
    case "employers" => ListStr(s.employers)
    case "education" => ListStr(s.education)
    case "relatives" => ListStr(s.relatives)
    case _ => s.photoPath
  }

  /** One line of the subject section: the photo path under the label
      "Photo", every other key capitalised. */
  function InfoLine(s: Subject, key: string): string
    requires WellFormed(s)
  {
    if key == "photo_path" then "Photo: " + s.photoPath + "\n"
    else Capitalize(key) + ": " + InfoValue(s, key) + "\n"
  }

  /** The subject section: one line per key, in the order of `keys`. */
  function InfoLines(s: Subject, keys: seq<string>): string
    requires WellFormed(s)
  {
    if keys == [] then [] else InfoLine(s, keys[0]) + InfoLines(s, keys[1..])
  }

  const TitleLabel: string := "OSINT SEARCH RESULTS FOR: "
  const DateLabel: string := "\nGenerated on: "
  const CountLabel: string := "\nTotal Searches: "
  const SubjectTitle: string := "SUBJECT INFORMATION\n==================\n"
  const ResultsTitle: string := "\nSEARCH RESULTS\n=============\n"

  /** The header: the title line naming the subject and the date line
      first, the count line and a blank line last. */
  function Header(name: string, timestamp: string, count: nat): (r: string)
    ensures TitleLabel + name + DateLabel + timestamp <= r
    ensures |r| >= |CountLabel| + |Decimal(count)| + 2
    ensures r[|r| - |CountLabel| - |Decimal(count)| - 2..] == CountLabel + Decimal(count) + "\n\n"
  {
    var lines := TitleLabel + name + DateLabel + timestamp;
    var last := CountLabel + Decimal(count) + "\n\n";
    assert lines + CountLabel + Decimal(count) + "\n\n" == lines + last;
    lines + CountLabel + Decimal(count) + "\n\n"
  }

  const UrlLabel: string := "\n  URL: "
  const InfoLabel: string := "\n  Info: "

  /** The block of one search record: the bullet, then the display name,
      the URL and the info line. */
  function Block(e: Entry): (r: string)
    ensures |r| > 0 && r[0] == Bullet
    ensures [Bullet, ' '] + e.0 + UrlLabel + e.1.url <= r
    ensures |r| >= |e.1.info| + 2 && r[|r| - |e.1.info| - 2..] == e.1.info + "\n\n"
  {
    var head := [Bullet, ' '] + e.0 + UrlLabel + e.1.url + InfoLabel;
    assert [Bullet] + BlockBody(e) == head + (e.1.info + "\n\n");
    [Bullet] + BlockBody(e)
  }

  function BlockBody(e: Entry): string {
    " " + e.0 + UrlLabel + e.1.url + InfoLabel + e.1.info + "\n\n"
  }

  /** The blocks of the records `es`, one after another in their order. */
  function Blocks(es: seq<Entry>): string {
    if es == [] then [] else Block(es[0]) + Blocks(es[1..])
  }

  /** The heading of a category: its name upper-cased and its size. */
  function Heading(category: string, n: nat): (r: string)
    ensures "\n" + Upper(category) + " (" + Decimal(n) + " searches)\n" <= r
    ensures |r| >= |Rule| + 1 && r[|r| - |Rule| - 1..] == Rule + "\n"
  {
    var line := "\n" + Upper(category) + " (" + Decimal(n) + " searches)\n";
    assert line + Rule + "\n" == line + (Rule + "\n");
    line + Rule + "\n"
  }

  function Section(g: (string, seq<Entry>)): string {
    Heading(g.0, |g.1|) + Blocks(g.1)
  }

  /** One section per group, a heading and its blocks, in group order. */
  function Sections(gs: seq<(string, seq<Entry>)>): string {
    if gs == [] then [] else Section(gs[0]) + Sections(gs[1..])
  }

  /** Everything before the first category heading. */
  function Preamble(s: Subject, timestamp: string, count: nat): (r: string)
    requires WellFormed(s)
    ensures Header(s.name, timestamp, count) + SubjectTitle <= r
    ensures |r| >= |ResultsTitle| && r[|r| - |ResultsTitle|..] == ResultsTitle
  {
    Header(s.name, timestamp, count) + SubjectTitle + InfoLines(s, InfoKeys(s)) + ResultsTitle
  }

  /** The whole text report for the subject `s`, the timestamp and count of
      the metadata, and the catalog entries `items`. */
  function TextReport(s: Subject, timestamp: string, count: nat, items: seq<Entry>): (r: string)
    requires WellFormed(s)
    ensures Preamble(s, timestamp, count) <= r
    ensures items == [] ==> r == Preamble(s, timestamp, count)
    ensures items != [] ==>
      "\n" + Upper(items[0].1.category) + " (" <= r[|Preamble(s, timestamp, count)|..]
  {
    var pre := Preamble(s, timestamp, count);
    if items == [] then
      assert Groups(items) == [];
      pre + []
    else
      FirstSection(items);
      pre + Sections(Groups(items))
  }

  /** The first section is the first record's category. */
  lemma FirstSection(items: seq<Entry>)
    requires items != []
    ensures |Groups(items)| > 0 && Groups(items)[0].0 == items[0].1.category
    ensures "\n" + Upper(items[0].1.category) + " (" <= Sections(Groups(items))
  {
    CategoriesPrefix(items, 1);
    assert items[..1] == [] + [items[0]];
    CategoriesSnoc([], items[0]);
    var g := Groups(items);
    assert Sections(g) == Heading(g[0].0, |g[0].1|) + Blocks(g[0].1) + Sections(g[1..]);
  }

  // ---------------------------------------------------------------------------
  // Every record is listed exactly once

  /** The number of bullets in `t`. */
  function Bullets(t: string): nat {
    if t == [] then 0 else (if t[0] == Bullet then 1 else 0) + Bullets(t[1..])
  }

  lemma {:induction false} BulletsConcat(a: string, b: string)
    ensures Bullets(a + b) == Bullets(a) + Bullets(b)
  {
    if a != [] {
      BulletsConcat(a[1..], b);
      assert (a + b)[1..] == a[1..] + b;
    } else {
      assert a + b == b;
    }
  }

  lemma {:induction false} AsciiNoBullet(s: string)
    requires IsAscii(s)
    ensures Bullets(s) == 0
  {
    if s != [] {
      assert IsAscii(s[1..]) by {
        assert forall i :: 0 <= i < |s[1..]| ==> s[1..][i] == s[i + 1];
      }
      AsciiNoBullet(s[1..]);
    }
  }

  /** The strings of a record are ASCII, as they are for every record the
      generators build from a well-formed subject. */
  predicate AsciiEntry(e: Entry) {
    IsAscii(e.0) && IsAscii(e.1.url) && IsAscii(e.1.info) && IsAscii(e.1.category)
  }

  predicate AsciiEntries(items: seq<Entry>) {
    forall i :: 0 <= i < |items| ==> AsciiEntry(items[i])
  }

  /** Seven bullet-free pieces joined hold no bullet. */
  lemma Bullets7(a: string, b: string, c: string, d: string, e: string, f: string, g: string)
    requires Bullets(a) == 0 && Bullets(b) == 0 && Bullets(c) == 0 && Bullets(d) == 0
    requires Bullets(e) == 0 && Bullets(f) == 0 && Bullets(g) == 0
    ensures Bullets(a + b + c + d + e + f + g) == 0
  {
    BulletsConcat(a, b);
    BulletsConcat(a + b, c);
    BulletsConcat(a + b + c, d);
    BulletsConcat(a + b + c + d, e);
    BulletsConcat(a + b + c + d + e, f);
    BulletsConcat(a + b + c + d + e + f, g);
  }

  lemma LabelsAscii()
    ensures IsAscii(" ") && IsAscii(UrlLabel) && IsAscii(InfoLabel) && IsAscii("\n\n")
    ensures IsAscii("\n") && IsAscii(" (") && IsAscii(" searches)\n") && IsAscii(Rule)
  {
  }

  /** The fixed lines of the header and the subject section are ASCII. */
  lemma TitlesAscii()
    ensures IsAscii(TitleLabel) && IsAscii(DateLabel) && IsAscii(CountLabel)
    ensures IsAscii(SubjectTitle) && IsAscii(ResultsTitle) && IsAscii("Photo: ") && IsAscii(": ")
  {
  }

  /** A record's block holds one bullet, at its start. */
  lemma BlockBullets(e: Entry)
    requires AsciiEntry(e)
    ensures Bullets(Block(e)) == 1
  {
    LabelsAscii();
    AsciiNoBullet(" ");
    AsciiNoBullet(e.0);
    AsciiNoBullet(UrlLabel);
    AsciiNoBullet(e.1.url);
    AsciiNoBullet(InfoLabel);
    AsciiNoBullet(e.1.info);
    AsciiNoBullet("\n\n");
    Bullets7(" ", e.0, UrlLabel, e.1.url, InfoLabel, e.1.info, "\n\n");
    BulletsConcat([Bullet], BlockBody(e));
  }

  lemma {:induction false} BlocksBullets(es: seq<Entry>)
    requires AsciiEntries(es)
    ensures Bullets(Blocks(es)) == |es|
  {
    if es != [] {
      BlockBullets(es[0]);
      assert AsciiEntries(es[1..]) by {
        assert forall i :: 0 <= i < |es[1..]| ==> es[1..][i] == es[i + 1];
      }
      BlocksBullets(es[1..]);
      BulletsConcat(Block(es[0]), Blocks(es[1..]));
    }
  }

  lemma HeadingBullets(category: string, n: nat)
    requires IsAscii(category)
    ensures Bullets(Heading(category, n)) == 0
  {
    LabelsAscii();
    AsciiNoBullet("\n");
    AsciiNoBullet(Upper(category));
    AsciiNoBullet(" (");
    AsciiNoBullet(Decimal(n));
    AsciiNoBullet(" searches)\n");
    AsciiNoBullet(Rule);
    Bullets7("\n", Upper(category), " (", Decimal(n), " searches)\n", Rule, "\n");
  }

  /** The bullets of a list of groups: one per record in it. */
  lemma {:induction false} SectionsBullets(gs: seq<(string, seq<Entry>)>)
    requires forall i :: 0 <= i < |gs| ==> IsAscii(gs[i].0) && AsciiEntries(gs[i].1)
    ensures Bullets(Sections(gs)) == |EntriesOf(gs)|
  {
    if gs != [] {
      HeadingBullets(gs[0].0, |gs[0].1|);
      BlocksBullets(gs[0].1);
      BulletsConcat(Heading(gs[0].0, |gs[0].1|), Blocks(gs[0].1));
      SectionsBullets(gs[1..]);
      BulletsConcat(Section(gs[0]), Sections(gs[1..]));
    }
  }

  lemma Bullets3(a: string, b: string, c: string)
    requires Bullets(a) == 0 && Bullets(b) == 0 && Bullets(c) == 0
    ensures Bullets(a + b + c) == 0
  {
    BulletsConcat(a, b);
    BulletsConcat(a + b, c);
  }

  lemma Bullets4(a: string, b: string, c: string, d: string)
    requires Bullets(a) == 0 && Bullets(b) == 0 && Bullets(c) == 0 && Bullets(d) == 0
    ensures Bullets(a + b + c + d) == 0
  {
    Bullets3(a, b, c);
    BulletsConcat(a + b + c, d);
  }

  lemma InfoLineBullets(s: Subject, key: string)
    requires WellFormed(s) && IsAscii(key)
    ensures Bullets(InfoLine(s, key)) == 0
  {
    LabelsAscii();
    TitlesAscii();
    AsciiNoBullet("\n");
    if key == "photo_path" {
      AsciiNoBullet("Photo: ");
      AsciiNoBullet(s.photoPath);
      Bullets3("Photo: ", s.photoPath, "\n");
    } else {
      AsciiNoBullet(": ");
      assert IsAscii(Capitalize(key));
      AsciiNoBullet(Capitalize(key));
      AsciiNoBullet(InfoValue(s, key));
      BulletsConcat(Capitalize(key) + ": " + InfoValue(s, key), "\n");
      Bullets3(Capitalize(key), ": ", InfoValue(s, key));
    }
  }

  lemma {:induction false} InfoLinesBullets(s: Subject, keys: seq<string>)
    requires WellFormed(s) && forall i :: 0 <= i < |keys| ==> IsAscii(keys[i])
    ensures Bullets(InfoLines(s, keys)) == 0
  {
    if keys != [] {
      InfoLineBullets(s, keys[0]);
      InfoLinesBullets(s, keys[1..]);
      BulletsConcat(InfoLine(s, keys[0]), InfoLines(s, keys[1..]));
    }
  }

  lemma OrdersAscii()
    ensures forall i :: 0 <= i < |InteractiveOrder| ==> IsAscii(InteractiveOrder[i])
    ensures forall i :: 0 <= i < |CommandLineOrder| ==> IsAscii(CommandLineOrder[i])
  {
  }

  lemma InfoKeysAscii(s: Subject)
    ensures forall i :: 0 <= i < |InfoKeys(s)| ==> IsAscii(InfoKeys(s)[i])
  {
    OrdersAscii();
    var ks := InfoKeys(s);
    forall i | 0 <= i < |ks| ensures IsAscii(ks[i]) {
      assert ks[i] in KeyOrder(s.origin);
    }
  }

  lemma HeaderBullets(name: string, timestamp: string, count: nat)
    requires IsAscii(name) && IsAscii(timestamp)
    ensures Bullets(Header(name, timestamp, count)) == 0
  {
    LabelsAscii();
    TitlesAscii();
    AsciiNoBullet(TitleLabel);
    AsciiNoBullet(name);
    AsciiNoBullet(DateLabel);
    AsciiNoBullet(timestamp);
    AsciiNoBullet(CountLabel);
    DecimalAscii(count);
    AsciiNoBullet(Decimal(count));
    AsciiNoBullet("\n\n");
    Bullets7(TitleLabel, name, DateLabel, timestamp, CountLabel, Decimal(count), "\n\n");
    assert Header(name, timestamp, count) == TitleLabel + name + DateLabel + timestamp + CountLabel + Decimal(count) + "\n\n";
  }

  lemma SubjectLinesBullets(s: Subject)
    requires WellFormed(s)
    ensures Bullets(InfoLines(s, InfoKeys(s))) == 0
  {
    InfoKeysAscii(s);
    InfoLinesBullets(s, InfoKeys(s));
  }

  lemma TitlesBullets()
    ensures Bullets(SubjectTitle) == 0 && Bullets(ResultsTitle) == 0
  {
    TitlesAscii();
    AsciiNoBullet(SubjectTitle);
    AsciiNoBullet(ResultsTitle);
  }

  lemma PreambleBullets(s: Subject, timestamp: string, count: nat)
    requires WellFormed(s) && IsAscii(timestamp)
    ensures Bullets(Preamble(s, timestamp, count)) == 0
  {
    HeaderBullets(s.name, timestamp, count);
    TitlesBullets();
    SubjectLinesBullets(s);
    Bullets4(Header(s.name, timestamp, count), SubjectTitle, InfoLines(s, InfoKeys(s)), ResultsTitle);
  }

  lemma DecimalAscii(n: nat)
    ensures IsAscii(Decimal(n))
  {
  }

  /** The groups of an ASCII catalog have ASCII categories and entries. */
  lemma GroupsAscii(items: seq<Entry>)
    requires AsciiEntries(items)
    ensures forall i :: 0 <= i < |Groups(items)| ==> IsAscii(Groups(items)[i].0) && AsciiEntries(Groups(items)[i].1)
  {
    var gs := Groups(items);
    forall i | 0 <= i < |gs| ensures IsAscii(gs[i].0) && AsciiEntries(gs[i].1) {
      var c := Categories(items)[i];
      assert Occurs(items, c);
      var j :| 0 <= j < |items| && items[j].1.category == c;
      assert AsciiEntry(items[j]);
      forall k | 0 <= k < |gs[i].1| ensures AsciiEntry(gs[i].1[k]) {
        assert gs[i].1[k] in Members(items, c);
        var m :| 0 <= m < |items| && items[m] == gs[i].1[k];
        assert AsciiEntry(items[m]);
      }
    }
  }

  /** The report has one bullet per catalog record: bullets open record
      blocks and nothing else in the report is outside ASCII. */
  lemma ReportBullets(s: Subject, timestamp: string, count: nat, items: seq<Entry>)
    requires WellFormed(s) && IsAscii(timestamp) && AsciiEntries(items)
    ensures Bullets(TextReport(s, timestamp, count, items)) == |items|
  {
    PreambleBullets(s, timestamp, count);
    GroupsAscii(items);
    SectionsBullets(Groups(items));
    GroupsArePermutation(items);
    BulletsConcat(Preamble(s, timestamp, count), Sections(Groups(items)));
  }

  // ---------------------------------------------------------------------------
  // Every record and every category appears

  /** `p` occurs in `t` as a contiguous piece. */
  predicate Infix(p: string, t: string) {
    exists i :: 0 <= i <= |t| && p <= t[i..]
  }

  lemma InfixLeft(p: string, a: string, b: string)
    requires Infix(p, a)
    ensures Infix(p, a + b)
  {
    var i :| 0 <= i <= |a| && p <= a[i..];
    assert (a + b)[i..] == a[i..] + b;
  }

  lemma InfixRight(p: string, a: string, b: string)
    requires Infix(p, b)
    ensures Infix(p, a + b)
  {
    var i :| 0 <= i <= |b| && p <= b[i..];
    assert (a + b)[|a| + i..] == b[i..];
  }

  lemma InfixStart(p: string, b: string)
    ensures Infix(p, p + b)
  {
    assert (p + b)[0..] == p + b;
  }

  lemma InfixEnd(a: string, p: string)
    ensures Infix(p, a + p)
  {
    assert (a + p)[|a|..] == p;
  }

  lemma {:induction false} BlockInBlocks(e: Entry, es: seq<Entry>)
    requires e in es
    ensures Infix(Block(e), Blocks(es))
  {
    if e == es[0] {
      InfixStart(Block(e), Blocks(es[1..]));
    } else {
      assert e in es[1..];
      BlockInBlocks(e, es[1..]);
      InfixRight(Block(e), Block(es[0]), Blocks(es[1..]));
    }
  }

  lemma {:induction false} SectionInSections(g: (string, seq<Entry>), gs: seq<(string, seq<Entry>)>)
    requires g in gs
    ensures Infix(Section(g), Sections(gs))
  {
    if g == gs[0] {
      InfixStart(Section(g), Sections(gs[1..]));
    } else {
      assert g in gs[1..];
      SectionInSections(g, gs[1..]);
      InfixRight(Section(g), Section(gs[0]), Sections(gs[1..]));
    }
  }

  lemma InfixTrans(p: string, q: string, t: string)
    requires Infix(p, q) && Infix(q, t)
    ensures Infix(p, t)
  {
    var i :| 0 <= i <= |q| && p <= q[i..];
    var j :| 0 <= j <= |t| && q <= t[j..];
    assert q[i..] <= t[j..][i..];
    assert t[j..][i..] == t[j + i..];
  }

  /** The group of a category that occurs is one of the report's
      sections. */
  lemma GroupListed(items: seq<Entry>, c: string)
    requires c in Categories(items)
    ensures Infix(Section((c, Members(items, c))), Sections(Groups(items)))
  {
    var cats := Categories(items);
    var i :| 0 <= i < |cats| && cats[i] == c;
    assert Groups(items)[i] == (c, Members(items, c));
    SectionInSections((c, Members(items, c)), Groups(items));
  }

  /** Every category is announced with the number of its records. */
  lemma ReportListsCategory(s: Subject, timestamp: string, count: nat, items: seq<Entry>, c: string)
    requires WellFormed(s) && c in Categories(items)
    ensures Infix(Heading(c, |Members(items, c)|), TextReport(s, timestamp, count, items))
  {
    var sec := Section((c, Members(items, c)));
    GroupListed(items, c);
    InfixStart(Heading(c, |Members(items, c)|), Blocks(Members(items, c)));
    InfixTrans(Heading(c, |Members(items, c)|), sec, Sections(Groups(items)));
    InfixRight(Heading(c, |Members(items, c)|), Preamble(s, timestamp, count), Sections(Groups(items)));
  }

  /** Every catalog record has its block in the report. */
  lemma ReportListsEntry(s: Subject, timestamp: string, count: nat, items: seq<Entry>, e: Entry)
    requires WellFormed(s) && e in items
    ensures Infix(Block(e), TextReport(s, timestamp, count, items))
  {
    var c := e.1.category;
    var i :| 0 <= i < |items| && items[i] == e;
    assert Occurs(items, c);
    MembersComplete(items, e);
    GroupListed(items, c);
    BlockInBlocks(e, Members(items, c));
    InfixEnd(Heading(c, |Members(items, c)|), Blocks(Members(items, c)));
    InfixTrans(Block(e), Blocks(Members(items, c)), Section((c, Members(items, c))));
    InfixTrans(Block(e), Section((c, Members(items, c))), Sections(Groups(items)));
    InfixRight(Block(e), Preamble(s, timestamp, count), Sections(Groups(items)));
  }

  // ---------------------------------------------------------------------------
  // The subject block and the order of the sections

  lemma {:induction false} InfoLinesAppend(s: Subject, a: seq<string>, b: seq<string>)
    requires WellFormed(s)
    ensures InfoLines(s, a + b) == InfoLines(s, a) + InfoLines(s, b)
  {
    if a == [] {
      assert a + b == b;
    } else {
      assert (a + b)[0] == a[0] && (a + b)[1..] == a[1..] + b;
      InfoLinesAppend(s, a[1..], b);
    }
  }

  lemma {:induction false} InfoLineInLines(s: Subject, keys: seq<string>, k: string)
    requires WellFormed(s) && k in keys
    ensures Infix(InfoLine(s, k), InfoLines(s, keys))
  {
    if k == keys[0] {
      InfixStart(InfoLine(s, k), InfoLines(s, keys[1..]));
    } else {
      assert k in keys[1..];
      InfoLineInLines(s, keys[1..], k);
      InfixRight(InfoLine(s, k), InfoLine(s, keys[0]), InfoLines(s, keys[1..]));
    }
  }

  /** The subject block writes the line of the `i`-th present key after the
      lines of the keys before it and before the lines of the keys after it. */
  lemma SubjectBlockOrder(s: Subject, timestamp: string, count: nat, i: nat)
    requires WellFormed(s) && i < |InfoKeys(s)|
    ensures Preamble(s, timestamp, count)
      == Header(s.name, timestamp, count) + SubjectTitle
         + InfoLines(s, InfoKeys(s)[..i]) + InfoLine(s, InfoKeys(s)[i]) + InfoLines(s, InfoKeys(s)[i + 1..])
         + ResultsTitle
  {
    hide InfoLines, InfoLine, Header, InfoKeys;
    var ks := InfoKeys(s);
    assert ks == ks[..i] + ks[i..];
    InfoLinesAppend(s, ks[..i], ks[i..]);
    InfoLinesCons(s, ks[i..]);
    assert ks[i..][0] == ks[i] && ks[i..][1..] == ks[i + 1..];
    Regroup(Header(s.name, timestamp, count) + SubjectTitle, InfoLines(s, ks[..i]), InfoLine(s, ks[i]),
            InfoLines(s, ks[i + 1..]), ResultsTitle);
  }

  lemma InfoLinesCons(s: Subject, keys: seq<string>)
    requires WellFormed(s) && keys != []
    ensures InfoLines(s, keys) == InfoLine(s, keys[0]) + InfoLines(s, keys[1..])
  {
  }

  lemma Regroup(h: string, a: string, m: string, b: string, t: string)
    ensures h + (a + (m + b)) + t == h + a + m + b + t
  {
  }

  /** The report is the preamble followed by the sections of the groups. */
  lemma ReportLayout(s: Subject, timestamp: string, count: nat, items: seq<Entry>)
    requires WellFormed(s)
    ensures TextReport(s, timestamp, count, items) == Preamble(s, timestamp, count) + Sections(Groups(items))
  {
    if items == [] {
      assert Groups(items) == [];
    }
  }

  /** Every present field of the subject has its line in the report. */
  lemma ReportListsSubjectField(s: Subject, timestamp: string, count: nat, items: seq<Entry>, k: string)
    requires WellFormed(s) && k in InfoKeys(s)
    ensures Infix(InfoLine(s, k), TextReport(s, timestamp, count, items))
  {
    var head := Header(s.name, timestamp, count) + SubjectTitle;
    var lines := InfoLines(s, InfoKeys(s));
    InfoLineInLines(s, InfoKeys(s), k);
    InfixRight(InfoLine(s, k), head, lines);
    InfixLeft(InfoLine(s, k), head + lines, ResultsTitle);
    assert Preamble(s, timestamp, count) == head + lines + ResultsTitle;
    ReportLayout(s, timestamp, count, items);
    InfixLeft(InfoLine(s, k), Preamble(s, timestamp, count), Sections(Groups(items)));
  }

  lemma {:induction false} SectionsAppend(a: seq<(string, seq<Entry>)>, b: seq<(string, seq<Entry>)>)
    ensures Sections(a + b) == Sections(a) + Sections(b)
  {
    if a == [] {
      assert a + b == b;
    } else {
      assert (a + b)[0] == a[0] && (a + b)[1..] == a[1..] + b;
      SectionsAppend(a[1..], b);
    }
  }

  /** The sections follow the groups' order: the section of the `i`-th
      category comes after those of the categories seen before it and
      before those of the categories seen after it. */
  lemma ReportSectionOrder(s: Subject, timestamp: string, count: nat, items: seq<Entry>, i: nat)
    requires WellFormed(s) && i < |Groups(items)|
    ensures TextReport(s, timestamp, count, items)
      == Preamble(s, timestamp, count)
         + Sections(Groups(items)[..i]) + Section(Groups(items)[i]) + Sections(Groups(items)[i + 1..])
  {
    hide Sections, Section, Preamble, Groups, TextReport;
    var g := Groups(items);
    ReportLayout(s, timestamp, count, items);
    assert g == g[..i] + g[i..];
    SectionsAppend(g[..i], g[i..]);
    SectionsCons(g[i..]);
    assert g[i..][0] == g[i] && g[i..][1..] == g[i + 1..];
    Regroup(Preamble(s, timestamp, count), Sections(g[..i]), Section(g[i]), Sections(g[i + 1..]), []);
  }

  lemma SectionsCons(gs: seq<(string, seq<Entry>)>)
    requires gs != []
    ensures Sections(gs) == Section(gs[0]) + Sections(gs[1..])
  {
  }
}
