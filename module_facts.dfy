// What the module-level generators write: `perform_google_dorking`,
// `search_dark_web_indicators` and `search_professional_networks`. Each
// writes fixed entries and entries per employer, school, email or phone; the
// display names are titles completed by the item, so a repeated item writes
// its names again with the same records and adds nothing.
module ModuleFacts {
  import opened Strings
  import opened Quote
  import opened OrderedMap
  import opened Subjects
  import opened Catalog
  import opened Generators
  import opened GeneratorFacts
  import opened ArchiveFacts

  // ---------------------------------------------------------------------------
  // perform_google_dorking

  const DorkInfo := "Advanced Google search: "

  function FixedDorkKeys(name: string): (r: seq<string>)
    ensures |r| == 10
  {
    seq(10, i requires 0 <= i < 10 => DorkTitles[i] + name)
  }

  /** The display names `perform_google_dorking` writes: the ten fixed
      dorks, two per employer and one per school. */
  function DorkKeys(s: Subject, name: string): set<string> {
    Elems(FixedDorkKeys(name))
    + Prefixed(EmployerDorkTitles[0], Elems(s.employers)) + Prefixed(EmployerDorkTitles[1], Elems(s.employers))
    + Prefixed(SchoolDorkTitle, Elems(s.education))
  }

  /** The heads of the ten fixed dork titles. */
  const DorkHeads: seq<string> := ["Docu", "Cont", "Soci", "Foru", "Pers", "Acad", "Pres", "Publ", "Emai", "News"]

  lemma DorkTitleHeadsAre()
    ensures forall i :: 0 <= i < 10 ==> |DorkTitles[i]| >= 4 && Head(DorkTitles[i]) == DorkHeads[i]
  {
    assert forall i :: 0 <= i < 10 ==> Head(DorkTitles[i]) == DorkTitles[i][..4];
    assert DorkTitles[0][..4] == "Docu";
    assert DorkTitles[1][..4] == "Cont";
    assert DorkTitles[2][..4] == "Soci";
    assert DorkTitles[3][..4] == "Foru";
    assert DorkTitles[4][..4] == "Pers";
    assert DorkTitles[5][..4] == "Acad";
    assert DorkTitles[6][..4] == "Pres";
    assert DorkTitles[7][..4] == "Publ";
    assert DorkTitles[8][..4] == "Emai";
    assert DorkTitles[9][..4] == "News";
  }

  /** The fixed dork titles have heads distinct from each other and from
      the company and school titles. */
  lemma DorkTitleHeads()
    ensures forall i :: 0 <= i < 10 ==> |DorkTitles[i]| >= 4
    ensures forall i, j :: 0 <= i < j < 10 ==> Head(DorkTitles[i]) != Head(DorkTitles[j])
    ensures forall i :: 0 <= i < 10 ==> Head(DorkTitles[i]) != "Comp" && Head(DorkTitles[i]) != "Scho"
  {
    DorkTitleHeadsAre();
    assert forall i, j :: 0 <= i < j < 10 ==> DorkHeads[i] != DorkHeads[j];
    assert "Comp" !in DorkHeads && "Scho" !in DorkHeads;
  }

  lemma DorkFamilyHeads()
    ensures |EmployerDorkTitles[0]| >= 9 && |EmployerDorkTitles[1]| >= 9 && |SchoolDorkTitle| >= 4
    ensures Head(EmployerDorkTitles[0]) == "Comp" && Head(EmployerDorkTitles[1]) == "Comp"
    ensures Head(SchoolDorkTitle) == "Scho"
    ensures EmployerDorkTitles[0][8] != EmployerDorkTitles[1][8]
  {
    assert EmployerDorkTitles[0][..4] == "Comp" && EmployerDorkTitles[1][..4] == "Comp";
    assert SchoolDorkTitle[..4] == "Scho";
  }

  lemma FixedDorkFirsts(name: string)
    requires IsAscii(name)
    ensures Firsts(FixedDorks(name)) == FixedDorkKeys(name)
  {
    hide QuotePlus, FirstLast;
  }

  lemma FixedDorkKeysDistinct(name: string)
    ensures NoDup(FixedDorkKeys(name))
    ensures forall i :: 0 <= i < 10 ==> Head(FixedDorkKeys(name)[i]) == Head(DorkTitles[i])
  {
    DorkTitleHeads();
    DorkFamilyHeads();
    forall i | 0 <= i < 10 ensures Head(FixedDorkKeys(name)[i]) == Head(DorkTitles[i]) {
      HeadOf(DorkTitles[i], name);
    }
  }

  /** The per-employer and per-school rows are title families. */
  lemma DorkFamilies(name: string, s: Subject)
    requires WellFormed(s) && IsAscii(name)
    ensures TwoPerItem(EmployerDorks(name, s.employers), EmployerDorkTitles[0], EmployerDorkTitles[1], s.employers)
    ensures forall j :: 0 <= j < |s.employers| * 2 ==>
      EmployerDorks(name, s.employers)[j] == EmployerDork(name, s.employers[j / 2], j % 2)
    ensures forall j :: 0 <= j < |s.education| ==> SchoolDorks(name, s.education)[j] == SchoolDork(name, s.education[j])
    ensures forall j :: 0 <= j < |s.education| ==> SchoolDorks(name, s.education)[j].0 == SchoolDorkTitle + s.education[j]
  {
    hide QuotePlus;
  }

  lemma DorkRowsLength(s: Subject, name: string)
    requires WellFormed(s) && IsAscii(name)
    ensures |DorkRows(s, name)| == 10 + 2 * |s.employers| + |s.education|
  {
    hide FixedDorks, EmployerDorks, SchoolDorks, QuotePlus, FirstLast;
  }

  lemma DorkRowKeys(s: Subject, name: string)
    requires WellFormed(s) && IsAscii(name)
    ensures KeysOf(DorkRows(s, name)) == DorkKeys(s, name)
  {
    hide FixedDorks, EmployerDorks, SchoolDorks, Tag, QuotePlus, FirstLast, EmployerDork, SchoolDork;
    var f, e, c := FixedDorks(name), EmployerDorks(name, s.employers), SchoolDorks(name, s.education);
    assert DorkRows(s, name) == Tag(f + e + c, "Google Dorks", DorkInfo);
    TagKeys(f + e + c, "Google Dorks", DorkInfo);
    KeysOfConcat(f + e, c);
    KeysOfConcat(f, e);
    FixedDorkFirsts(name);
    assert KeysOf(f) == Elems(FixedDorkKeys(name)) by {
      forall k | k in Elems(FixedDorkKeys(name)) ensures k in KeysOf(f) {
        var i :| 0 <= i < 10 && FixedDorkKeys(name)[i] == k;
        assert f[i].0 == k;
      }
    }
    DorkFamilies(name, s);
    TwoPerItemKeys(e, EmployerDorkTitles[0], EmployerDorkTitles[1], s.employers);
    OnePerItemKeys(c, SchoolDorkTitle, s.education);
  }

  /** The two employer titles differ at position 8. */
  lemma EmployerDorkTitlesApart(es: set<string>)
    ensures Prefixed(EmployerDorkTitles[0], es) * Prefixed(EmployerDorkTitles[1], es) == {}
  {
    DorkFamilyHeads();
    forall k | k in Prefixed(EmployerDorkTitles[0], es) ensures k !in Prefixed(EmployerDorkTitles[1], es) {
      var u :| u in es && k == EmployerDorkTitles[0] + u;
      forall v | v in es ensures k != EmployerDorkTitles[1] + v {
        TitlesDiffer(EmployerDorkTitles[0], EmployerDorkTitles[1], u, v, 8);
      }
    }
  }

  /** No fixed dork name is made from the company or school titles. */
  lemma FixedDorksApart(name: string, es: set<string>, cs: set<string>)
    ensures forall k :: k in Elems(FixedDorkKeys(name)) ==>
      k !in Prefixed(EmployerDorkTitles[0], es) && k !in Prefixed(EmployerDorkTitles[1], es)
      && k !in Prefixed(SchoolDorkTitle, cs)
  {
    DorkTitleHeads();
    DorkFamilyHeads();
    FixedDorkKeysDistinct(name);
    forall k | k in Elems(FixedDorkKeys(name))
      ensures k !in Prefixed(EmployerDorkTitles[0], es) && k !in Prefixed(EmployerDorkTitles[1], es)
      ensures k !in Prefixed(SchoolDorkTitle, cs)
    {
      var i :| 0 <= i < 10 && FixedDorkKeys(name)[i] == k;
      HeadApart(k, EmployerDorkTitles[0], es);
      HeadApart(k, EmployerDorkTitles[1], es);
      HeadApart(k, SchoolDorkTitle, cs);
    }
  }

  /** The fixed names and the three title families are pairwise disjoint,
      so their union counts each family in full. */
  lemma DorkKeysCard(name: string, es: set<string>, cs: set<string>)
    ensures |Elems(FixedDorkKeys(name)) + Prefixed(EmployerDorkTitles[0], es) + Prefixed(EmployerDorkTitles[1], es)
             + Prefixed(SchoolDorkTitle, cs)| == 10 + 2 * |es| + |cs|
  {
    hide FixedDorkKeys, Prefixed, Elems;
    var fixed := Elems(FixedDorkKeys(name));
    var a, b, c := Prefixed(EmployerDorkTitles[0], es), Prefixed(EmployerDorkTitles[1], es), Prefixed(SchoolDorkTitle, cs);
    DorkFamilyHeads();
    FixedDorkKeysDistinct(name);
    ElemsCard(FixedDorkKeys(name));
    PrefixedCard(EmployerDorkTitles[0], es);
    PrefixedCard(EmployerDorkTitles[1], es);
    PrefixedCard(SchoolDorkTitle, cs);
    FixedDorksApart(name, es, cs);
    EmployerDorkTitlesApart(es);
    PrefixedApart(EmployerDorkTitles[0], SchoolDorkTitle, es, cs);
    PrefixedApart(EmployerDorkTitles[1], SchoolDorkTitle, es, cs);
    DisjointCard(a, b);
    DisjointCard(a + b, c);
    assert fixed * (a + b + c) == {};
    DisjointCard(fixed, a + b + c);
    assert fixed + a + b + c == fixed + (a + b + c);
  }

  /** `perform_google_dorking` writes exactly the fixed dorks, two names per
      distinct employer and one per distinct school, and returns their
      number: repeated employers and schools add nothing. */
  lemma DorkCount(s: Subject, name: string)
    requires WellFormed(s) && IsAscii(name)
    ensures GoogleDorks(s, name).values.Keys == DorkKeys(s, name)
    ensures |GoogleDorks(s, name).keys| == 10 + 2 * |Elems(s.employers)| + |Elems(s.education)|
  {
    hide DorkRows, FixedDorkKeys, Prefixed, Elems, PutAll, FixedDorks, EmployerDorks, SchoolDorks, QuotePlus, FirstLast, Tag;
    DorkRowKeys(s, name);
    DorkKeysCard(name, Elems(s.employers), Elems(s.education));
  }

  /** The dictionary is the fixed dorks with the employer and school dorks
      written over them. */
  lemma DorkSplit(s: Subject, name: string)
    requires WellFormed(s) && IsAscii(name)
    ensures GoogleDorks(s, name) == PutAll(FromPairs(Tag(FixedDorks(name), "Google Dorks", DorkInfo)),
      Tag(EmployerDorks(name, s.employers) + SchoolDorks(name, s.education), "Google Dorks", DorkInfo))
  {
    hide FixedDorks, EmployerDorks, SchoolDorks, Tag, QuotePlus, FirstLast;
    var f, e, c := FixedDorks(name), EmployerDorks(name, s.employers), SchoolDorks(name, s.education);
    assert f + e + c == f + (e + c);
    TagConcat(f, e + c, "Google Dorks", DorkInfo);
    PutAllAppend(Empty(), Tag(f, "Google Dorks", DorkInfo), Tag(e + c, "Google Dorks", DorkInfo));
  }

  /** The keys the employer and school dorks write. */
  lemma DorkExtraKeys(s: Subject, name: string)
    requires WellFormed(s) && IsAscii(name)
    ensures KeysOf(Tag(EmployerDorks(name, s.employers) + SchoolDorks(name, s.education), "Google Dorks", DorkInfo))
      == Prefixed(EmployerDorkTitles[0], Elems(s.employers)) + Prefixed(EmployerDorkTitles[1], Elems(s.employers))
         + Prefixed(SchoolDorkTitle, Elems(s.education))
  {
    hide EmployerDorks, SchoolDorks, Tag, QuotePlus, EmployerDork, SchoolDork;
    var e, c := EmployerDorks(name, s.employers), SchoolDorks(name, s.education);
    TagKeys(e + c, "Google Dorks", DorkInfo);
    KeysOfConcat(e, c);
    DorkFamilies(name, s);
    TwoPerItemKeys(e, EmployerDorkTitles[0], EmployerDorkTitles[1], s.employers);
    OnePerItemKeys(c, SchoolDorkTitle, s.education);
  }

  /** The ten fixed dorks come first, in the order of the literal, and keep
      their records: no employer or school dork has their names. */
  lemma DorkFixedEntries(s: Subject, name: string)
    requires WellFormed(s) && IsAscii(name)
    ensures |GoogleDorks(s, name).keys| >= 10
    ensures forall i :: 0 <= i < 10 ==>
      && GoogleDorks(s, name).keys[i] == DorkTitles[i] + name
      && DorkTitles[i] + name in GoogleDorks(s, name).values
      && GoogleDorks(s, name).values[DorkTitles[i] + name]
         == Target(FixedDorks(name)[i].1, "Google Dorks", DorkInfo + (DorkTitles[i] + name))
  {
    hide GoogleDorks, DorkRows, FixedDorks, EmployerDorks, SchoolDorks, QuotePlus, FirstLast, Tag, FromPairs, PutAll;
    DorkFixedEntry(s, name, 0);
    forall i | 0 <= i < 10
      ensures GoogleDorks(s, name).keys[i] == DorkTitles[i] + name
      ensures DorkTitles[i] + name in GoogleDorks(s, name).values
      ensures GoogleDorks(s, name).values[DorkTitles[i] + name]
              == Target(FixedDorks(name)[i].1, "Google Dorks", DorkInfo + (DorkTitles[i] + name))
    {
      DorkFixedEntry(s, name, i);
    }
  }

  lemma DorkFixedEntry(s: Subject, name: string, i: nat)
    requires WellFormed(s) && IsAscii(name) && i < 10
    ensures |GoogleDorks(s, name).keys| >= 10
    ensures GoogleDorks(s, name).keys[i] == DorkTitles[i] + name
    ensures DorkTitles[i] + name in GoogleDorks(s, name).values
    ensures GoogleDorks(s, name).values[DorkTitles[i] + name]
            == Target(FixedDorks(name)[i].1, "Google Dorks", DorkInfo + (DorkTitles[i] + name))
  {
    hide GoogleDorks, FixedDorks, EmployerDorks, SchoolDorks, QuotePlus, FirstLast, Prefixed, Elems, Tag;
    var f := FixedDorks(name);
    var tf, rest := Tag(f, "Google Dorks", DorkInfo), Tag(EmployerDorks(name, s.employers) + SchoolDorks(name, s.education), "Google Dorks", DorkInfo);
    var d := FromPairs(tf);
    var k := DorkTitles[i] + name;
    DorkSplit(s, name);
    DorkExtraKeys(s, name);
    FixedDorkFirsts(name);
    FixedDorkKeysDistinct(name);
    assert Firsts(tf) == Firsts(f);
    FromPairsAt(tf, i);
    assert FixedDorkKeys(name)[i] == k;
    ElemsOf(FixedDorkKeys(name), i);
    FixedDorksApart(name, Elems(s.employers), Elems(s.education));
    assert tf[i] == (k, Target(f[i].1, "Google Dorks", DorkInfo + k));
    PutAllUntouched(d, rest, k);
  }

  /** The Email Patterns dork searches the encoded first and last word of
      the name, or the whole name twice when it has fewer than two words. */
  lemma EmailPatternsDork(s: Subject, name: string)
    requires WellFormed(s) && IsAscii(name)
    ensures DorkTitles[8] + name in GoogleDorks(s, name).values
    ensures |Words(name)| >= 2 ==> (GoogleDorks(s, name).values[DorkTitles[8] + name].url
      == Google + EmailPatternQuery + QuotePlus(Words(name)[0]) + "+" + QuotePlus(Words(name)[|Words(name)| - 1]))
    ensures |Words(name)| < 2 ==> (GoogleDorks(s, name).values[DorkTitles[8] + name].url
      == Google + EmailPatternQuery + QuotePlus(name) + "+" + QuotePlus(name))
  {
    hide GoogleDorks, DorkRows, FixedDorks, EmployerDorks, SchoolDorks, QuotePlus, FirstLast, Tag, FromPairs, PutAll;
    DorkFixedEntry(s, name, 8);
    EmailPatternsRow(name);
  }

  lemma EmailPatternsRow(name: string)
    requires IsAscii(name)
    ensures FixedDorks(name)[8].1
      == Google + EmailPatternQuery + QuotePlus(FirstLast(name).0) + "+" + QuotePlus(FirstLast(name).1)
  {
    hide QuotePlus;
  }

  /** Row `j` of the dork rows, by the part it falls in. */
  lemma DorkRowAt(s: Subject, name: string, j: nat)
    requires WellFormed(s) && IsAscii(name) && j < |DorkRows(s, name)|
    ensures j < 10 ==> DorkRows(s, name)[j].0 == FixedDorkKeys(name)[j]
    ensures 10 <= j < 10 + 2 * |s.employers| ==>
      DorkRows(s, name)[j].0 == EmployerDorks(name, s.employers)[j - 10].0
      && DorkRows(s, name)[j].1.url == EmployerDorks(name, s.employers)[j - 10].1
    ensures 10 + 2 * |s.employers| <= j ==>
      DorkRows(s, name)[j] == (SchoolDorkTitle + s.education[j - 10 - 2 * |s.employers|],
        Target(SchoolDork(name, s.education[j - 10 - 2 * |s.employers|]).1, "Google Dorks",
               DorkInfo + (SchoolDorkTitle + s.education[j - 10 - 2 * |s.employers|])))
  {
    hide FixedDorks, EmployerDorks, SchoolDorks, QuotePlus, FirstLast, EmployerDork, SchoolDork;
    var f, e, c := FixedDorks(name), EmployerDorks(name, s.employers), SchoolDorks(name, s.education);
    FixedDorkFirsts(name);
    DorkFamilies(name, s);
    assert DorkRows(s, name)[j] == ((f + e + c)[j].0, Target((f + e + c)[j].1, "Google Dorks", DorkInfo + (f + e + c)[j].0));
    if j >= 10 + |e| {
      assert (f + e + c)[j] == c[j - 10 - |e|];
    }
  }

  /** Each employer gets its two dorks, however often it is listed: Company
      Documents carries the encoded employer and name, Company Email Format
      only the encoded employer. */
  lemma EmployerDorkEntry(s: Subject, name: string, d: string, p: nat)
    requires WellFormed(s) && IsAscii(name) && d in s.employers && p < 2
    ensures EmployerDorkTitles[p] + d in GoogleDorks(s, name).values
    ensures p == 0 ==> (GoogleDorks(s, name).values[EmployerDorkTitles[p] + d].url
      == Google + "site:" + QuotePlus(d) + "+intext:" + QuotePlus(name) + CompanyDocumentsQuery)
    ensures p == 1 ==> (GoogleDorks(s, name).values[EmployerDorkTitles[p] + d].url
      == Google + "site:" + QuotePlus(d) + "+\"@" + QuotePlus(d) + "\"+email+format")
    ensures GoogleDorks(s, name).values[EmployerDorkTitles[p] + d].category == "Google Dorks"
  {
    hide FixedDorks, EmployerDorks, SchoolDorks, QuotePlus, FirstLast, SchoolDork, DorkRows, FixedDorkKeys, Tag,
         GoogleDorks, EmployerDork;
    var rows := DorkRows(s, name);
    var e := EmployerDorks(name, s.employers);
    var key := EmployerDorkTitles[p] + d;
    assert IsAscii(d);
    var url := EmployerDork(name, d, p).1;
    var i :| 0 <= i < |s.employers| && s.employers[i] == d;
    DorkFamilies(name, s);
    assert (2 * i + p) / 2 == i && (2 * i + p) % 2 == p;
    assert e[2 * i + p].0 == key;
    DorkRowsLength(s, name);
    DorkRowAt(s, name, 10 + 2 * i + p);
    forall j | 0 <= j < |rows| && rows[j].0 == key ensures rows[j].1.url == url {
      EmployerDorkRow(s, name, d, p, j);
    }
    DorkKeyUrl(s, name, key, url);
    EmployerDorkUrl(name, d, p);
  }

  lemma EmployerDorkUrl(name: string, d: string, p: nat)
    requires IsAscii(name) && IsAscii(d) && p < 2
    ensures p == 0 ==> (EmployerDork(name, d, p).1
      == Google + "site:" + QuotePlus(d) + "+intext:" + QuotePlus(name) + CompanyDocumentsQuery)
    ensures p == 1 ==> (EmployerDork(name, d, p).1
      == Google + "site:" + QuotePlus(d) + "+\"@" + QuotePlus(d) + "\"+email+format")
  {
    hide QuotePlus;
  }

  /** Only the rows of `d`'s `p`-th employer dork write its name. */
  lemma EmployerDorkRow(s: Subject, name: string, d: string, p: nat, j: nat)
    requires WellFormed(s) && IsAscii(name) && d in s.employers && p < 2
    requires j < |DorkRows(s, name)| && DorkRows(s, name)[j].0 == EmployerDorkTitles[p] + d
    ensures IsAscii(d) && DorkRows(s, name)[j].1.url == EmployerDork(name, d, p).1
  {
    hide FixedDorks, EmployerDorks, SchoolDorks, QuotePlus, FirstLast, SchoolDork, DorkRows, FixedDorkKeys, Tag,
         GoogleDorks, EmployerDork;
    var e := EmployerDorks(name, s.employers);
    var key := EmployerDorkTitles[p] + d;
    DorkFamilies(name, s);
    DorkTitleHeads();
    DorkFamilyHeads();
    FixedDorkKeysDistinct(name);
    HeadOf(EmployerDorkTitles[p], d);
    DorkRowsLength(s, name);
    DorkRowAt(s, name, j);
    if j < 10 {
      assert false;
    } else if j < 10 + 2 * |s.employers| {
      TwoPerItemRow(e, EmployerDorkTitles[0], EmployerDorkTitles[1], s.employers, d, p, j - 10, 8);
    } else {
      HeadOf(SchoolDorkTitle, s.education[j - 10 - 2 * |s.employers|]);
      assert false;
    }
  }

  /** A key whose every write carries one URL ends with that URL. */
  lemma DorkKeyUrl(s: Subject, name: string, key: string, url: string)
    requires WellFormed(s) && IsAscii(name)
    requires key in KeysOf(DorkRows(s, name))
    requires forall j :: 0 <= j < |DorkRows(s, name)| && DorkRows(s, name)[j].0 == key ==> DorkRows(s, name)[j].1.url == url
    ensures key in GoogleDorks(s, name).values
    ensures GoogleDorks(s, name).values[key] == Target(url, "Google Dorks", DorkInfo + key)
  {
    hide FixedDorks, EmployerDorks, SchoolDorks, QuotePlus, FirstLast, DorkRows;
    var rows := DorkRows(s, name);
    var v := Target(url, "Google Dorks", DorkInfo + key);
    forall j | 0 <= j < |rows| && rows[j].0 == key ensures rows[j].1 == v {
      DorkRowRecord(s, name, j);
    }
    PutAllConsistent(Empty(), rows, key, v);
  }

  lemma DorkRowRecord(s: Subject, name: string, j: nat)
    requires WellFormed(s) && IsAscii(name) && j < |DorkRows(s, name)|
    ensures DorkRows(s, name)[j].1.category == "Google Dorks"
    ensures DorkRows(s, name)[j].1.info == DorkInfo + DorkRows(s, name)[j].0
  {
    hide FixedDorks, EmployerDorks, SchoolDorks, QuotePlus, FirstLast;
  }

  /** Each school's dork carries the encoded school and name. */
  lemma SchoolDorkEntry(s: Subject, name: string, d: string)
    requires WellFormed(s) && IsAscii(name) && d in s.education
    ensures SchoolDorkTitle + d in GoogleDorks(s, name).values
    ensures GoogleDorks(s, name).values[SchoolDorkTitle + d]
      == Target(Google + "site:" + QuotePlus(d) + "+intext:" + QuotePlus(name) + SchoolRecordsQuery,
                "Google Dorks", DorkInfo + (SchoolDorkTitle + d))
  {
    hide FixedDorks, EmployerDorks, SchoolDorks, QuotePlus, FirstLast, EmployerDork, DorkRows, FixedDorkKeys, Tag;
    var rows := DorkRows(s, name);
    var key := SchoolDorkTitle + d;
    assert IsAscii(d);
    var url := SchoolDork(name, d).1;
    var i :| 0 <= i < |s.education| && s.education[i] == d;
    DorkFamilies(name, s);
    DorkTitleHeads();
    DorkFamilyHeads();
    FixedDorkKeysDistinct(name);
    HeadOf(SchoolDorkTitle, d);
    DorkRowsLength(s, name);
    DorkRowAt(s, name, 10 + 2 * |s.employers| + i);
    forall j | 0 <= j < |rows| && rows[j].0 == key ensures rows[j].1.url == url {
      DorkRowAt(s, name, j);
      if j < 10 {
        assert false;
      } else if j < 10 + 2 * |s.employers| {
        var e := EmployerDorks(name, s.employers);
        var q := j - 10;
        assert e[q].0 == Pick(q, EmployerDorkTitles[0], EmployerDorkTitles[1]) + s.employers[q / 2];
        HeadOf(Pick(q, EmployerDorkTitles[0], EmployerDorkTitles[1]), s.employers[q / 2]);
        assert false;
      } else {
        SameTitle(SchoolDorkTitle, s.education[j - 10 - 2 * |s.employers|], d);
      }
    }
    DorkKeyUrl(s, name, key, url);
  }

  // ---------------------------------------------------------------------------
  // search_dark_web_indicators: the reference pages

  /** The five reference pages have distinct names. */
  lemma DarkWebNamesDistinct()
    ensures NoDup(Firsts(DarkWebSites))
  {
    var ns := Firsts(DarkWebSites);
    assert ns[0][0] == 'D' && ns[1][0] == 'B' && ns[2][0] == 'I' && ns[3][0] == 'B' && ns[4][0] == 'H';
    assert ns[1][6] == 'D' && ns[3][6] == ' ';
  }

  lemma DarkWebFirsts(name: string)
    ensures Firsts(DarkWebRows(name)) == Firsts(DarkWebSites)
  {
  }

  /** The five reference pages come in the order of the literal, with their
      fixed URLs. */
  lemma DarkWebEntries(name: string)
    ensures DarkWebSearches(name).keys == Firsts(DarkWebSites)
    ensures forall i :: 0 <= i < 5 ==>
      && DarkWebSites[i].0 in DarkWebSearches(name).values
      && DarkWebSearches(name).values[DarkWebSites[i].0]
         == Target(DarkWebSites[i].1, "Data Breach Resources",
                   "Check " + DarkWebSites[i].0 + " manually for breached data related to " + name)
  {
    hide FromPairs;
    var rows := DarkWebRows(name);
    DarkWebFirsts(name);
    DarkWebNamesDistinct();
    FromPairsDistinct(rows);
  }

  // ---------------------------------------------------------------------------
  // search_dark_web_indicators: the breach indicators

  const BreachInfo := "Search for breach indicators: "

  /** The display names the breach indicators write: two for the name, one
      per distinct email and one per distinct phone as typed. */
  function BreachKeys(s: Subject): set<string> {
    {BreachTitles[0] + s.name, BreachTitles[1] + s.name}
    + Prefixed(EmailBreachTitle, Elems(s.emails)) + Prefixed(PhoneBreachTitle, Elems(s.phones))
  }

  lemma BreachHeads()
    ensures |BreachTitles[0]| >= 4 && |BreachTitles[1]| >= 4 && |EmailBreachTitle| >= 4 && |PhoneBreachTitle| >= 4
    ensures Head(BreachTitles[0]) == "Data" && Head(BreachTitles[1]) == "Cred"
    ensures Head(EmailBreachTitle) == "Emai" && Head(PhoneBreachTitle) == "Phon"
  {
    assert BreachTitles[0][..4] == "Data" && BreachTitles[1][..4] == "Cred";
    assert EmailBreachTitle[..4] == "Emai" && PhoneBreachTitle[..4] == "Phon";
  }

  lemma BreachFamilies(s: Subject)
    requires WellFormed(s)
    ensures forall j :: 0 <= j < |s.emails| ==>
      EmailBreaches(s.emails)[j] == EmailBreach(s.emails[j]) && EmailBreaches(s.emails)[j].0 == EmailBreachTitle + s.emails[j]
    ensures forall j :: 0 <= j < |s.phones| ==>
      PhoneBreaches(s.phones)[j] == PhoneBreach(s.phones[j]) && PhoneBreaches(s.phones)[j].0 == PhoneBreachTitle + s.phones[j]
  {
    hide QuotePlus;
  }

  lemma BreachNameKeys(name: string)
    requires IsAscii(name)
    ensures Firsts(BreachNamePairs(name)) == [BreachTitles[0] + name, BreachTitles[1] + name]
    ensures NoDup(Firsts(BreachNamePairs(name)))
    ensures Head(BreachTitles[0] + name) == "Data" && Head(BreachTitles[1] + name) == "Cred"
  {
    hide QuotePlus;
    BreachHeads();
    HeadOf(BreachTitles[0], name);
    HeadOf(BreachTitles[1], name);
  }

  lemma BreachExtraKeys(s: Subject)
    requires WellFormed(s)
    ensures KeysOf(EmailBreaches(s.emails) + PhoneBreaches(s.phones))
      == Prefixed(EmailBreachTitle, Elems(s.emails)) + Prefixed(PhoneBreachTitle, Elems(s.phones))
  {
    hide EmailBreaches, PhoneBreaches, QuotePlus, EmailBreach, PhoneBreach;
    BreachFamilies(s);
    KeysOfConcat(EmailBreaches(s.emails), PhoneBreaches(s.phones));
    OnePerItemKeys(EmailBreaches(s.emails), EmailBreachTitle, s.emails);
    OnePerItemKeys(PhoneBreaches(s.phones), PhoneBreachTitle, s.phones);
  }

  /** The name searches are not overwritten by an email or phone search. */
  lemma BreachNamesApart(s: Subject, q: nat)
    requires WellFormed(s) && q < 2
    ensures BreachTitles[q] + s.name !in Prefixed(EmailBreachTitle, Elems(s.emails)) + Prefixed(PhoneBreachTitle, Elems(s.phones))
  {
    BreachHeads();
    HeadOf(BreachTitles[q], s.name);
    HeadApart(BreachTitles[q] + s.name, EmailBreachTitle, Elems(s.emails));
    HeadApart(BreachTitles[q] + s.name, PhoneBreachTitle, Elems(s.phones));
  }

  /** The breach indicators hold exactly the two name searches, one search
      per distinct email and one per distinct phone. */
  lemma BreachCount(s: Subject)
    requires WellFormed(s)
    ensures BreachIndicators(s).values.Keys == BreachKeys(s)
    ensures |BreachIndicators(s).keys| == 2 + |Elems(s.emails)| + |Elems(s.phones)|
  {
    hide QuotePlus, EmailBreaches, PhoneBreaches, BreachNamePairs, Tag, Prefixed, Elems, FromPairs;
    var f, rest := BreachNamePairs(s.name), EmailBreaches(s.emails) + PhoneBreaches(s.phones);
    var a, b := Prefixed(EmailBreachTitle, Elems(s.emails)), Prefixed(PhoneBreachTitle, Elems(s.phones));
    var names := {BreachTitles[0] + s.name, BreachTitles[1] + s.name};
    assert f + EmailBreaches(s.emails) + PhoneBreaches(s.phones) == f + rest;
    TagKeys(f + rest, "Data Breach Indicators", BreachInfo);
    KeysOfConcat(f, rest);
    BreachNameKeys(s.name);
    assert KeysOf(f) == names by {
      assert f[0].0 == Firsts(f)[0] && f[1].0 == Firsts(f)[1];
    }
    BreachExtraKeys(s);
    BreachHeads();
    PrefixedCard(EmailBreachTitle, Elems(s.emails));
    PrefixedCard(PhoneBreachTitle, Elems(s.phones));
    PrefixedApart(EmailBreachTitle, PhoneBreachTitle, Elems(s.emails), Elems(s.phones));
    DisjointCard(a, b);
    BreachNamesApart(s, 0);
    BreachNamesApart(s, 1);
    assert |names| == 2;
    DisjointCard(names, a + b);
  }

  /** The two name searches come first, in order, with the encoded name. */
  lemma BreachNameEntries(s: Subject)
    requires WellFormed(s)
    ensures |BreachIndicators(s).keys| >= 2
    ensures BreachIndicators(s).keys[0] == BreachTitles[0] + s.name
    ensures BreachIndicators(s).keys[1] == BreachTitles[1] + s.name
    ensures forall q :: 0 <= q < 2 ==> BreachTitles[q] + s.name in BreachIndicators(s).values
    ensures BreachIndicators(s).values[BreachTitles[0] + s.name]
      == Target(Google + QuotePlus(s.name) + BreachQuery, "Data Breach Indicators", BreachInfo + (BreachTitles[0] + s.name))
    ensures BreachIndicators(s).values[BreachTitles[1] + s.name]
      == Target(Google + QuotePlus(s.name) + LeakQuery, "Data Breach Indicators", BreachInfo + (BreachTitles[1] + s.name))
  {
    hide QuotePlus, EmailBreaches, PhoneBreaches, Tag, Prefixed, Elems, FromPairs;
    var f, rest := BreachNamePairs(s.name), EmailBreaches(s.emails) + PhoneBreaches(s.phones);
    assert f + EmailBreaches(s.emails) + PhoneBreaches(s.phones) == f + rest;
    BreachNameKeys(s.name);
    BreachExtraKeys(s);
    BreachNamesApart(s, 0);
    BreachNamesApart(s, 1);
    TagFixedEntry(f, rest, "Data Breach Indicators", BreachInfo, 0);
    TagFixedEntry(f, rest, "Data Breach Indicators", BreachInfo, 1);
  }

  /** Which pair of the breach indicators writes an email's name. */
  lemma EmailBreachPair(s: Subject, e: string, j: nat)
    requires WellFormed(s) && e in s.emails
    requires j < |BreachNamePairs(s.name) + EmailBreaches(s.emails) + PhoneBreaches(s.phones)|
    requires (BreachNamePairs(s.name) + EmailBreaches(s.emails) + PhoneBreaches(s.phones))[j].0 == EmailBreachTitle + e
    ensures IsAscii(e)
    ensures (BreachNamePairs(s.name) + EmailBreaches(s.emails) + PhoneBreaches(s.phones))[j] == EmailBreach(e)
  {
    hide QuotePlus, EmailBreaches, PhoneBreaches, BreachNamePairs, EmailBreach, PhoneBreach;
    var f, m, ph := BreachNamePairs(s.name), EmailBreaches(s.emails), PhoneBreaches(s.phones);
    BreachHeads();
    BreachNameKeys(s.name);
    BreachFamilies(s);
    HeadOf(EmailBreachTitle, e);
    if j < 2 {
      assert false;
    } else if j < 2 + |m| {
      OnePerItemRow(m, EmailBreachTitle, s.emails, e, j - 2);
    } else {
      HeadOf(PhoneBreachTitle, s.phones[j - 2 - |m|]);
      assert false;
    }
  }

  /** Each email's breach search carries the encoded email. */
  lemma EmailBreachEntry(s: Subject, e: string)
    requires WellFormed(s) && e in s.emails
    ensures EmailBreachTitle + e in BreachIndicators(s).values
    ensures BreachIndicators(s).values[EmailBreachTitle + e]
      == Target(Google + QuotePlus(e) + EmailBreachQuery, "Data Breach Indicators", BreachInfo + (EmailBreachTitle + e))
  {
    hide QuotePlus, EmailBreaches, PhoneBreaches, BreachNamePairs, Tag, FromPairs, PhoneBreach;
    var pairs := BreachNamePairs(s.name) + EmailBreaches(s.emails) + PhoneBreaches(s.phones);
    var key := EmailBreachTitle + e;
    var i :| 0 <= i < |s.emails| && s.emails[i] == e;
    BreachFamilies(s);
    assert pairs[2 + i] == EmailBreaches(s.emails)[i];
    forall j | 0 <= j < |pairs| && pairs[j].0 == key ensures pairs[j].1 == EmailBreach(e).1 {
      EmailBreachPair(s, e, j);
    }
    TagWrites(pairs, "Data Breach Indicators", BreachInfo, key, EmailBreach(e).1);
  }

  /** Which pair of the breach indicators writes a phone's name. */
  lemma PhoneBreachPair(s: Subject, ph: string, j: nat)
    requires WellFormed(s) && ph in s.phones
    requires j < |BreachNamePairs(s.name) + EmailBreaches(s.emails) + PhoneBreaches(s.phones)|
    requires (BreachNamePairs(s.name) + EmailBreaches(s.emails) + PhoneBreaches(s.phones))[j].0 == PhoneBreachTitle + ph
    ensures (BreachNamePairs(s.name) + EmailBreaches(s.emails) + PhoneBreaches(s.phones))[j] == PhoneBreach(ph)
  {
    hide QuotePlus, EmailBreaches, PhoneBreaches, BreachNamePairs, EmailBreach, PhoneBreach;
    var f, m, p := BreachNamePairs(s.name), EmailBreaches(s.emails), PhoneBreaches(s.phones);
    BreachHeads();
    BreachNameKeys(s.name);
    BreachFamilies(s);
    HeadOf(PhoneBreachTitle, ph);
    if j < 2 {
      assert false;
    } else if j < 2 + |m| {
      HeadOf(EmailBreachTitle, s.emails[j - 2]);
      assert false;
    } else {
      OnePerItemRow(p, PhoneBreachTitle, s.phones, ph, j - 2 - |m|);
    }
  }

  /** Each phone's breach search is named by the phone as typed and
      searches its digits only. */
  lemma PhoneBreachEntry(s: Subject, ph: string)
    requires WellFormed(s) && ph in s.phones
    ensures PhoneBreachTitle + ph in BreachIndicators(s).values
    ensures BreachIndicators(s).values[PhoneBreachTitle + ph]
      == Target(Google + Digits(ph) + PhoneBreachQuery, "Data Breach Indicators", BreachInfo + (PhoneBreachTitle + ph))
  {
    hide QuotePlus, EmailBreaches, PhoneBreaches, BreachNamePairs, Tag, FromPairs, EmailBreach;
    var pairs := BreachNamePairs(s.name) + EmailBreaches(s.emails) + PhoneBreaches(s.phones);
    var key := PhoneBreachTitle + ph;
    var i :| 0 <= i < |s.phones| && s.phones[i] == ph;
    BreachFamilies(s);
    assert pairs[2 + |s.emails| + i] == PhoneBreaches(s.phones)[i];
    forall j | 0 <= j < |pairs| && pairs[j].0 == key ensures pairs[j].1 == PhoneBreach(ph).1 {
      PhoneBreachPair(s, ph, j);
    }
    TagWrites(pairs, "Data Breach Indicators", BreachInfo, key, PhoneBreach(ph).1);
  }

  /** `search_dark_web_indicators` returns the five reference pages plus
      the distinct breach indicators. */
  lemma DarkWebIndicatorCount(s: Subject)
    requires WellFormed(s)
    ensures |DarkWebSearches(s.name).keys| + |BreachIndicators(s).keys| == 7 + |Elems(s.emails)| + |Elems(s.phones)|
  {
    hide DarkWebSearches, BreachIndicators;
    DarkWebEntries(s.name);
    BreachCount(s);
  }

  // ---------------------------------------------------------------------------
  // search_professional_networks

  const ProfessionalInfo := "Professional information search: "

  /** The display names `search_professional_networks` writes: the seven
      fixed searches and two per distinct employer. */
  function ProfessionalKeys(s: Subject): set<string> {
    Elems(ProfessionalNames)
    + Prefixed(CompanyTitles[0], Elems(s.employers)) + Prefixed(CompanyTitles[1], Elems(s.employers))
  }

  /** The heads of the seven fixed professional searches. */
  const ProfessionalHeads: seq<string> := ["Link", "GitH", "GitL", "Medi", "Slid", "Spea", "Conf"]

  lemma ProfessionalHeadsAre()
    ensures forall i :: 0 <= i < 7 ==> |ProfessionalNames[i]| >= 4 && Head(ProfessionalNames[i]) == ProfessionalHeads[i]
  {
    assert forall i :: 0 <= i < 7 ==> Head(ProfessionalNames[i]) == ProfessionalNames[i][..4];
    assert ProfessionalNames[0][..4] == "Link";
    assert ProfessionalNames[1][..4] == "GitH";
    assert ProfessionalNames[2][..4] == "GitL";
    assert ProfessionalNames[3][..4] == "Medi";
    assert ProfessionalNames[4][..4] == "Slid";
    assert ProfessionalNames[5][..4] == "Spea";
    assert ProfessionalNames[6][..4] == "Conf";
  }

  /** The fixed names have heads distinct from each other and from the two
      company titles. */
  lemma ProfessionalNameHeads()
    ensures NoDup(ProfessionalNames)
    ensures forall i :: 0 <= i < 7 ==> Head(ProfessionalNames[i]) != "Comp" && Head(ProfessionalNames[i]) != "Corp"
    ensures |CompanyTitles[0]| >= 4 && |CompanyTitles[1]| >= 4
    ensures Head(CompanyTitles[0]) == "Comp" && Head(CompanyTitles[1]) == "Corp"
  {
    ProfessionalHeadsAre();
    assert forall i, j :: 0 <= i < j < 7 ==> ProfessionalHeads[i] != ProfessionalHeads[j];
    assert "Comp" !in ProfessionalHeads && "Corp" !in ProfessionalHeads;
    assert CompanyTitles[0][..4] == "Comp" && CompanyTitles[1][..4] == "Corp";
  }

  lemma ProfessionalFamilies(s: Subject)
    requires WellFormed(s)
    ensures Firsts(FixedProfessional(s.name)) == ProfessionalNames
    ensures TwoPerItem(CompanyProfessional(s.name, s.employers), CompanyTitles[0], CompanyTitles[1], s.employers)
    ensures forall j :: 0 <= j < 2 * |s.employers| ==>
      CompanyProfessional(s.name, s.employers)[j] == CompanySearch(s.name, s.employers[j / 2], j % 2)
  {
    hide QuotePlus;
  }

  /** No company search has a fixed search's name. */
  lemma ProfessionalApart(es: set<string>)
    ensures forall k :: k in Elems(ProfessionalNames) ==>
      k !in Prefixed(CompanyTitles[0], es) && k !in Prefixed(CompanyTitles[1], es)
    ensures Prefixed(CompanyTitles[0], es) * Prefixed(CompanyTitles[1], es) == {}
  {
    ProfessionalNameHeads();
    forall k | k in Elems(ProfessionalNames)
      ensures k !in Prefixed(CompanyTitles[0], es) && k !in Prefixed(CompanyTitles[1], es)
    {
      var i :| 0 <= i < 7 && ProfessionalNames[i] == k;
      HeadApart(k, CompanyTitles[0], es);
      HeadApart(k, CompanyTitles[1], es);
    }
    PrefixedApart(CompanyTitles[0], CompanyTitles[1], es, es);
  }

  lemma CompanyKeys(s: Subject)
    requires WellFormed(s)
    ensures KeysOf(CompanyProfessional(s.name, s.employers))
      == Prefixed(CompanyTitles[0], Elems(s.employers)) + Prefixed(CompanyTitles[1], Elems(s.employers))
  {
    hide CompanyProfessional, CompanySearch, QuotePlus, FixedProfessional;
    ProfessionalFamilies(s);
    TwoPerItemKeys(CompanyProfessional(s.name, s.employers), CompanyTitles[0], CompanyTitles[1], s.employers);
  }

  lemma ProfessionalFixedKeys(name: string)
    requires IsAscii(name)
    ensures KeysOf(FixedProfessional(name)) == Elems(ProfessionalNames)
  {
    hide QuotePlus;
    var f := FixedProfessional(name);
    forall k | k in Elems(ProfessionalNames) ensures k in KeysOf(f) {
      var i :| 0 <= i < 7 && ProfessionalNames[i] == k;
      assert f[i].0 == k;
    }
  }

  /** `search_professional_networks` writes exactly the seven fixed
      searches and two per distinct employer, and returns their number. */
  lemma ProfessionalCount(s: Subject)
    requires WellFormed(s)
    ensures ProfessionalSearches(s).values.Keys == ProfessionalKeys(s)
    ensures |ProfessionalSearches(s).keys| == 7 + 2 * |Elems(s.employers)|
  {
    hide CompanyProfessional, CompanySearch, QuotePlus, FixedProfessional, Tag, Prefixed, Elems, FromPairs;
    var f, c := FixedProfessional(s.name), CompanyProfessional(s.name, s.employers);
    var es := Elems(s.employers);
    var a, b := Prefixed(CompanyTitles[0], es), Prefixed(CompanyTitles[1], es);
    TagKeys(f + c, "Professional Networks", ProfessionalInfo);
    KeysOfConcat(f, c);
    ProfessionalFamilies(s);
    ProfessionalFixedKeys(s.name);
    CompanyKeys(s);
    ProfessionalNameHeads();
    ElemsCard(ProfessionalNames);
    PrefixedCard(CompanyTitles[0], es);
    PrefixedCard(CompanyTitles[1], es);
    ProfessionalApart(es);
    DisjointCard(a, b);
    DisjointCard(Elems(ProfessionalNames), a + b);
  }

  /** The seven fixed searches come first, in the order of the literal, and
      keep their records. */
  lemma ProfessionalFixedEntry(s: Subject, i: nat)
    requires WellFormed(s) && i < 7
    ensures |ProfessionalSearches(s).keys| > i
    ensures ProfessionalSearches(s).keys[i] == ProfessionalNames[i]
    ensures ProfessionalNames[i] in ProfessionalSearches(s).values
    ensures ProfessionalSearches(s).values[ProfessionalNames[i]]
      == Target(FixedProfessional(s.name)[i].1, "Professional Networks", ProfessionalInfo + ProfessionalNames[i])
  {
    hide CompanyProfessional, CompanySearch, QuotePlus, FixedProfessional, Tag, Prefixed, Elems, FromPairs;
    var f, c := FixedProfessional(s.name), CompanyProfessional(s.name, s.employers);
    ProfessionalFamilies(s);
    ProfessionalNameHeads();
    CompanyKeys(s);
    ElemsOf(ProfessionalNames, i);
    ProfessionalApart(Elems(s.employers));
    assert f[i].0 == Firsts(f)[i];
    TagFixedEntry(f, c, "Professional Networks", ProfessionalInfo, i);
  }

  /** The URLs of the seven fixed searches, each with the encoded name. */
  lemma FixedProfessionalUrls(name: string)
    requires IsAscii(name)
    ensures FixedProfessional(name)[0].1 == Google + LinkedInAdvancedQuery + QuotePlus(name)
    ensures FixedProfessional(name)[1].1 == "https://github.com/search?q=" + QuotePlus(name) + "&type=users"
    ensures FixedProfessional(name)[2].1 == Google + "site:gitlab.com+" + QuotePlus(name)
    ensures FixedProfessional(name)[3].1 == "https://medium.com/search?q=" + QuotePlus(name)
    ensures FixedProfessional(name)[4].1 == "https://www.slideshare.net/search/slideshow?q=" + QuotePlus(name)
    ensures FixedProfessional(name)[5].1 == "https://speakerdeck.com/search?q=" + QuotePlus(name)
    ensures FixedProfessional(name)[6].1 == Google + QuotePlus(name) + SpeakerQuery
  {
    hide QuotePlus;
  }

  /** Which company search writes an employer's `p`-th name. */
  lemma CompanyPair(s: Subject, d: string, p: nat, j: nat)
    requires WellFormed(s) && d in s.employers && p < 2
    requires j < |FixedProfessional(s.name) + CompanyProfessional(s.name, s.employers)|
    requires (FixedProfessional(s.name) + CompanyProfessional(s.name, s.employers))[j].0 == CompanyTitles[p] + d
    ensures IsAscii(d)
    ensures (FixedProfessional(s.name) + CompanyProfessional(s.name, s.employers))[j] == CompanySearch(s.name, d, p)
  {
    hide CompanyProfessional, CompanySearch, QuotePlus, FixedProfessional;
    var f, c := FixedProfessional(s.name), CompanyProfessional(s.name, s.employers);
    ProfessionalFamilies(s);
    ProfessionalNameHeads();
    HeadOf(CompanyTitles[p], d);
    if j < 7 {
      assert false;
    } else {
      TwoPerItemRow(c, CompanyTitles[0], CompanyTitles[1], s.employers, d, p, j - 7, 2);
    }
  }

  /** Each employer's two searches carry the encoded name and employer,
      however often the employer is listed. */
  lemma CompanyEntry(s: Subject, d: string, p: nat)
    requires WellFormed(s) && d in s.employers && p < 2
    ensures CompanyTitles[p] + d in ProfessionalSearches(s).values
    ensures p == 0 ==> (ProfessionalSearches(s).values[CompanyTitles[p] + d].url
      == Google + "site:linkedin.com+" + QuotePlus(s.name) + "+" + QuotePlus(d))
    ensures p == 1 ==> (ProfessionalSearches(s).values[CompanyTitles[p] + d].url
      == Google + "site:" + QuotePlus(d) + "+" + QuotePlus(s.name) + BioQuery)
    ensures ProfessionalSearches(s).values[CompanyTitles[p] + d].info == ProfessionalInfo + (CompanyTitles[p] + d)
  {
    hide CompanyProfessional, QuotePlus, FixedProfessional, Tag, FromPairs;
    var pairs := FixedProfessional(s.name) + CompanyProfessional(s.name, s.employers);
    var key := CompanyTitles[p] + d;
    var i :| 0 <= i < |s.employers| && s.employers[i] == d;
    assert IsAscii(d);
    ProfessionalFamilies(s);
    assert (2 * i + p) / 2 == i && (2 * i + p) % 2 == p;
    assert pairs[7 + 2 * i + p] == CompanyProfessional(s.name, s.employers)[2 * i + p];
    forall j | 0 <= j < |pairs| && pairs[j].0 == key ensures pairs[j].1 == CompanySearch(s.name, d, p).1 {
      CompanyPair(s, d, p, j);
    }
    TagWrites(pairs, "Professional Networks", ProfessionalInfo, key, CompanySearch(s.name, d, p).1);
  }
}
