// The two `search_person` orchestrations as the sequence of catalog writes
// their generator calls make, call by call.
module Plans {
  import opened Strings
  import opened OrderedMap
  import opened Subjects
  import opened Catalog
  import opened Generators
  import opened GeneratorFacts

  // ---------------------------------------------------------------------------
  // What each generator call writes: the items of its local dictionaries

  function SocialMediaWrites(s: Subject): seq<Entry>
    requires WellFormed(s)
  {
    Items(SocialMediaSearches(s))
  }

  /** The person finders first, then the public records. */
  function DirectoryWrites(s: Subject): seq<Entry>
    requires WellFormed(s)
  {
    Items(PersonFinderSearches(s)) + Items(PublicRecordSearches(s))
  }

  function ImageWrites(photoPath: string): seq<Entry> {
    Items(ImageSearches(photoPath))
  }

  function DorkWrites(s: Subject, name: string): seq<Entry>
    requires WellFormed(s) && IsAscii(name)
  {
    Items(GoogleDorks(s, name))
  }

  /** The breach reference pages first, then the indicator searches. */
  function BreachWrites(s: Subject): seq<Entry>
    requires WellFormed(s)
  {
    Items(DarkWebSearches(s.name)) + Items(BreachIndicators(s))
  }

  function ArchiveWrites(s: Subject, order: seq<string>): seq<Entry>
    requires WellFormed(s) && Enumerates(order, EmailDomains(s.emails))
  {
    Items(ArchiveSearches(s, order))
  }

  function ProfessionalWrites(s: Subject): seq<Entry>
    requires WellFormed(s)
  {
    Items(ProfessionalSearches(s))
  }

  /** The profile lists whose generators are called once per element:
      `search_by_email`, `search_by_phone`, `search_by_username`,
      `search_by_employer`, `search_by_education`, `search_by_relative`. */
  datatype Field = Emails | Phones | Usernames | Employers | Schools | Relatives

  /** The writes of one per-element call, for the subject named `name`. */
  function FieldWrites(name: string, f: Field, x: string): seq<Entry>
    requires IsAscii(name) && IsAscii(x)
  {
    match f
    case Emails => Items(EmailSearches(x))
    case Phones => Items(PhoneSearches(x))
    case Usernames => Items(UsernameSearches(x))
    case Employers => Items(EmployerSearches(name, x))
    case Schools => Items(EducationSearches(name, x))
    case Relatives => Items(RelativeSearches(name, x))
  }

  /** `for x in xs: search_by_...(x)`, call by call. */
  function FieldBatches(name: string, f: Field, xs: seq<string>): (r: seq<seq<Entry>>)
    requires IsAscii(name) && AllAscii(xs)
    ensures |r| == |xs| && forall i :: 0 <= i < |xs| ==> r[i] == FieldWrites(name, f, xs[i])
  {
    seq(|xs|, i requires 0 <= i < |xs| => FieldWrites(name, f, xs[i]))
  }

  /** One more element of the list is one more call. */
  lemma FieldBatchesSnoc(name: string, f: Field, xs: seq<string>, i: nat)
    requires IsAscii(name) && AllAscii(xs) && i < |xs|
    ensures AllAscii(xs[..i]) && AllAscii(xs[..i + 1]) && IsAscii(xs[i])
    ensures FieldBatches(name, f, xs[..i + 1]) == FieldBatches(name, f, xs[..i]) + [FieldWrites(name, f, xs[i])]
  {
    hide FieldWrites;
    assert forall j :: 0 <= j < i + 1 ==> xs[..i + 1][j] == xs[j];
    assert forall j :: 0 <= j < i ==> xs[..i][j] == xs[j];
    assert IsAscii(xs[i]);
  }

  // ---------------------------------------------------------------------------
  // The orchestrations

  /** Batches of writes laid end to end, as the catalog receives them. */
  function Flat(bs: seq<seq<Entry>>): seq<Entry> {
    if bs == [] then [] else bs[0] + Flat(bs[1..])
  }

  /** Both orchestrations start with social media and the directories. */
  function Opening(s: Subject): seq<seq<Entry>>
    requires WellFormed(s)
  {
    [SocialMediaWrites(s), DirectoryWrites(s)]
  }

  /** The calls both orchestrations end with: one per email, phone,
      username, employer and school, the image search when a photo was
      given, then one per relative. The `if` guards of the source only skip
      loops over empty lists. */
  function ProfileBatches(s: Subject): (r: seq<seq<Entry>>)
    requires WellFormed(s)
    ensures |r| == |s.emails| + |s.phones| + |s.usernames| + |s.employers| + |s.education|
                   + (if s.photoPath != [] then 1 else 0) + |s.relatives|
  {
    FieldBatches(s.name, Emails, s.emails)
    + FieldBatches(s.name, Phones, s.phones)
    + FieldBatches(s.name, Usernames, s.usernames)
    + FieldBatches(s.name, Employers, s.employers)
    + FieldBatches(s.name, Schools, s.education)
    + (if s.photoPath != [] then [ImageWrites(s.photoPath)] else [])
    + FieldBatches(s.name, Relatives, s.relatives)
  }

  /** `search_person` as the class defines it: social media and the
      directories, then one call per list item and one for the photo. */
  function ClassBatches(s: Subject): (r: seq<seq<Entry>>)
    requires WellFormed(s)
    ensures |r| == 2 + |s.emails| + |s.phones| + |s.usernames| + |s.employers| + |s.education|
                     + (if s.photoPath != [] then 1 else 0) + |s.relatives|
  {
    hide SocialMediaWrites, DirectoryWrites, ProfileBatches;
    Opening(s) + ProfileBatches(s)
  }

  /** The calls the module-level `search_person` adds after the directories:
      dorking on the name, breach indicators, archives (visiting the email
      domains in `order`) and professional networks. */
  function ModuleExtras(s: Subject, order: seq<string>): seq<seq<Entry>>
    requires WellFormed(s) && Enumerates(order, EmailDomains(s.emails))
  {
    [DorkWrites(s, s.name), BreachWrites(s), ArchiveWrites(s, order), ProfessionalWrites(s)]
  }

  /** `search_person` as the module defines it: the class sequence with
      the dorking, breach, archive and professional calls inserted after the
      directories. */
  function ModuleBatches(s: Subject, order: seq<string>): (r: seq<seq<Entry>>)
    requires WellFormed(s) && Enumerates(order, EmailDomains(s.emails))
    ensures |r| == |ClassBatches(s)| + 4
  {
    hide SocialMediaWrites, DirectoryWrites, DorkWrites, BreachWrites, ArchiveWrites, ProfessionalWrites, ProfileBatches;
    var o, x, p := Opening(s), ModuleExtras(s, order), ProfileBatches(s);
    o + x + p
  }

  /** The module sequence is the class sequence with the dorking, breach,
      archive and professional calls inserted after the directories. */
  lemma ModuleBatchesInsert(s: Subject, order: seq<string>)
    requires WellFormed(s) && Enumerates(order, EmailDomains(s.emails))
    ensures |ModuleBatches(s, order)| == |ClassBatches(s)| + 4
    ensures ModuleBatches(s, order)[..2] + ModuleBatches(s, order)[6..] == ClassBatches(s)
    ensures ModuleBatches(s, order)[2..6] == ModuleExtras(s, order)
  {
    hide SocialMediaWrites, DirectoryWrites, DorkWrites, BreachWrites, ArchiveWrites, ProfessionalWrites, ProfileBatches, FieldBatches;
    var o, x, p := Opening(s), ModuleExtras(s, order), ProfileBatches(s);
    assert ModuleBatches(s, order) == o + x + p;
    assert ClassBatches(s) == o + p;
    assert (o + x + p)[..2] == o && (o + x + p)[2..6] == x && (o + x + p)[6..] == p;
  }

  // ---------------------------------------------------------------------------
  // Writing batches one after another

  lemma {:induction false} FlatAppend(a: seq<seq<Entry>>, b: seq<seq<Entry>>)
    ensures Flat(a + b) == Flat(a) + Flat(b)
  {
    if a != [] {
      assert (a + b)[0] == a[0];
      assert (a + b)[1..] == a[1..] + b;
      FlatAppend(a[1..], b);
    } else {
      assert a + b == b;
    }
  }

  /** Writing the batches `a`, then the batches `b`, is writing `a + b`. */
  lemma LogAppend(d: OMap<Target>, a: seq<seq<Entry>>, b: seq<seq<Entry>>)
    ensures PutAll(PutAll(d, Flat(a)), Flat(b)) == PutAll(d, Flat(a + b))
  {
    FlatAppend(a, b);
    PutAllAppend(d, Flat(a), Flat(b));
  }

  /** One more call. */
  lemma LogSnoc(d: OMap<Target>, a: seq<seq<Entry>>, w: seq<Entry>)
    ensures PutAll(PutAll(d, Flat(a)), w) == PutAll(d, Flat(a + [w]))
  {
    assert [w][1..] == [];
    assert Flat([w]) == w + [];
    assert w + [] == w;
    LogAppend(d, a, [w]);
  }

  /** Two calls in a row. */
  lemma TwoCalls(d: OMap<Target>, a: seq<Entry>, b: seq<Entry>)
    ensures PutAll(PutAll(d, a), b) == PutAll(d, Flat([a, b]))
  {
    assert Flat([b]) == b by {
      assert [b][0] == b && [b][1..] == [];
      assert b + [] == b;
    }
    assert Flat([a, b]) == a + Flat([b]) by {
      assert [a, b][0] == a && [a, b][1..] == [b];
    }
    PutAllAppend(d, a, b);
  }

  /** Four calls in a row. */
  lemma FourCalls(d: OMap<Target>, a: seq<Entry>, b: seq<Entry>, c: seq<Entry>, e: seq<Entry>)
    ensures PutAll(PutAll(PutAll(PutAll(d, a), b), c), e) == PutAll(d, Flat([a, b, c, e]))
  {
    TwoCalls(d, a, b);
    LogSnoc(d, [a, b], c);
    assert [a, b] + [c] == [a, b, c];
    LogSnoc(d, [a, b, c], e);
    assert [a, b, c] + [e] == [a, b, c, e];
  }

  // ---------------------------------------------------------------------------
  // Categories

  /** Every record of `es` belongs to one of the categories `cs`. */
  predicate Within(es: seq<Entry>, cs: set<string>) {
    forall e :: e in es ==> e.1.category in cs
  }

  lemma {:induction false} FlatWithin(bs: seq<seq<Entry>>, cs: set<string>)
    requires AllWithin(bs, cs)
    ensures Within(Flat(bs), cs)
  {
    if bs != [] {
      assert bs[0] in bs;
      FlatWithin(bs[1..], cs);
    }
  }

  lemma ItemsWithin(d: OMap<Target>, c: string, cs: set<string>)
    requires InCategory(d, c) && c in cs
    ensures Within(Items(d), cs)
  {
  }

  /** The categories of the generators the class defines. */
  const ClassCategories: set<string> :=
    {"Social Media", "People Directories", "Public Records", "Email", "Phone",
     "Username", "Employment", "Education", "Image Search", "Relatives"}

  /** The categories of the generators only the module-level orchestration
      calls. */
  const ModuleCategories: set<string> :=
    {"Google Dorks", "Data Breach Resources", "Data Breach Indicators", "Web Archives", "Professional Networks"}

  lemma CategoriesDisjoint()
    ensures ClassCategories !! ModuleCategories
  {
  }

  lemma FieldWithin(name: string, f: Field, x: string)
    requires IsAscii(name) && IsAscii(x)
    ensures Within(FieldWrites(name, f, x), ClassCategories)
  {
    hide EmailSearches, PhoneSearches, UsernameSearches, EmployerSearches, EducationSearches, RelativeSearches;
    match f
    case Emails => ItemsWithin(EmailSearches(x), "Email", ClassCategories);
    case Phones => ItemsWithin(PhoneSearches(x), "Phone", ClassCategories);
    case Usernames => ItemsWithin(UsernameSearches(x), "Username", ClassCategories);
    case Employers => ItemsWithin(EmployerSearches(name, x), "Employment", ClassCategories);
    case Schools => ItemsWithin(EducationSearches(name, x), "Education", ClassCategories);
    case Relatives => ItemsWithin(RelativeSearches(name, x), "Relatives", ClassCategories);
  }

  lemma FieldBatchesWithin(name: string, f: Field, xs: seq<string>)
    requires IsAscii(name) && AllAscii(xs)
    ensures AllWithin(FieldBatches(name, f, xs), ClassCategories)
  {
    hide FieldWrites;
    forall b | b in FieldBatches(name, f, xs) ensures Within(b, ClassCategories) {
      var i :| 0 <= i < |xs| && FieldBatches(name, f, xs)[i] == b;
      assert IsAscii(xs[i]);
      FieldWithin(name, f, xs[i]);
    }
  }

  lemma SocialMediaWithin(s: Subject)
    requires WellFormed(s)
    ensures Within(SocialMediaWrites(s), ClassCategories)
  {
    hide SocialMediaSearches;
    ItemsWithin(SocialMediaSearches(s), "Social Media", ClassCategories);
  }

  lemma DirectoryWithin(s: Subject)
    requires WellFormed(s)
    ensures Within(DirectoryWrites(s), ClassCategories)
  {
    hide PersonFinderSearches, PublicRecordSearches;
    ItemsWithin(PersonFinderSearches(s), "People Directories", ClassCategories);
    ItemsWithin(PublicRecordSearches(s), "Public Records", ClassCategories);
  }

  lemma OpeningWithin(s: Subject)
    requires WellFormed(s)
    ensures AllWithin(Opening(s), ClassCategories)
  {
    hide SocialMediaWrites, DirectoryWrites, SocialMediaSearches, PersonFinderSearches, PublicRecordSearches, EmailSearches, PhoneSearches, UsernameSearches, EmployerSearches, EducationSearches, RelativeSearches, ImageSearches, GoogleDorks, DarkWebSearches, BreachIndicators, ArchiveSearches, ProfessionalSearches;
    SocialMediaWithin(s);
    DirectoryWithin(s);
  }

  /** Every batch of `bs` lies within `cs`. */
  predicate AllWithin(bs: seq<seq<Entry>>, cs: set<string>) {
    forall b :: b in bs ==> Within(b, cs)
  }

  lemma ConcatWithin(a: seq<seq<Entry>>, b: seq<seq<Entry>>, cs: set<string>)
    requires AllWithin(a, cs) && AllWithin(b, cs)
    ensures AllWithin(a + b, cs)
  {
  }

  lemma ProfileWithin(s: Subject)
    requires WellFormed(s)
    ensures AllWithin(ProfileBatches(s), ClassCategories)
  {
    hide FieldBatches, FieldWrites, SocialMediaSearches, PersonFinderSearches, PublicRecordSearches, EmailSearches, PhoneSearches, UsernameSearches, EmployerSearches, EducationSearches, RelativeSearches, ImageSearches, GoogleDorks, DarkWebSearches, BreachIndicators, ArchiveSearches, ProfessionalSearches;
    var n := s.name;
    var p1, p2, p3 := FieldBatches(n, Emails, s.emails), FieldBatches(n, Phones, s.phones), FieldBatches(n, Usernames, s.usernames);
    var p4, p5 := FieldBatches(n, Employers, s.employers), FieldBatches(n, Schools, s.education);
    var p6 := if s.photoPath != [] then [ImageWrites(s.photoPath)] else [];
    var p7 := FieldBatches(n, Relatives, s.relatives);
    FieldBatchesWithin(n, Emails, s.emails);
    FieldBatchesWithin(n, Phones, s.phones);
    FieldBatchesWithin(n, Usernames, s.usernames);
    FieldBatchesWithin(n, Employers, s.employers);
    FieldBatchesWithin(n, Schools, s.education);
    FieldBatchesWithin(n, Relatives, s.relatives);
    ItemsWithin(ImageSearches(s.photoPath), "Image Search", ClassCategories);
    ConcatWithin(p1, p2, ClassCategories);
    ConcatWithin(p1 + p2, p3, ClassCategories);
    ConcatWithin(p1 + p2 + p3, p4, ClassCategories);
    ConcatWithin(p1 + p2 + p3 + p4, p5, ClassCategories);
    ConcatWithin(p1 + p2 + p3 + p4 + p5, p6, ClassCategories);
    ConcatWithin(p1 + p2 + p3 + p4 + p5 + p6, p7, ClassCategories);
  }

  lemma ClassWithin(s: Subject)
    requires WellFormed(s)
    ensures Within(Flat(ClassBatches(s)), ClassCategories)
  {
    hide Opening, ProfileBatches, SocialMediaSearches, PersonFinderSearches, PublicRecordSearches, EmailSearches, PhoneSearches, UsernameSearches, EmployerSearches, EducationSearches, RelativeSearches, ImageSearches, GoogleDorks, DarkWebSearches, BreachIndicators, ArchiveSearches, ProfessionalSearches;
    OpeningWithin(s);
    ProfileWithin(s);
    ConcatWithin(Opening(s), ProfileBatches(s), ClassCategories);
    FlatWithin(ClassBatches(s), ClassCategories);
  }

  /** The class `search_person`, run on an empty catalog, leaves only
      records of the class's own generators in it, and so no dorking,
      breach, archive or professional-network record: those generators are
      defined outside the class and never called. */
  lemma ClassSearchOmitsModuleGenerators(s: Subject, k: string)
    requires WellFormed(s)
    requires k in PutAll(Empty(), Flat(ClassBatches(s))).values
    ensures PutAll(Empty(), Flat(ClassBatches(s))).values[k].category in ClassCategories
    ensures PutAll(Empty(), Flat(ClassBatches(s))).values[k].category !in ModuleCategories
  {
    hide ClassBatches, SocialMediaSearches, PersonFinderSearches, PublicRecordSearches, EmailSearches, PhoneSearches, UsernameSearches, EmployerSearches, EducationSearches, RelativeSearches, ImageSearches, GoogleDorks, DarkWebSearches, BreachIndicators, ArchiveSearches, ProfessionalSearches;
    var run := Flat(ClassBatches(s));
    ClassWithin(s);
    PutAllValueFrom(Empty(), run, k);
    var i :| 0 <= i < |run| && run[i] == (k, PutAll(Empty(), run).values[k]);
    assert run[i] in run;
    CategoriesDisjoint();
  }

  // ---------------------------------------------------------------------------
  // Counts

  lemma ItemsKeys(d: OMap<Target>)
    requires OrderedMap.Valid(d)
    ensures KeysOf(Items(d)) == d.values.Keys
  {
    forall k | k in d.values ensures k in KeysOf(Items(d)) {
      var i :| 0 <= i < |d.keys| && d.keys[i] == k;
      assert Items(d)[i].0 == k;
    }
  }

  lemma SubsetCard(a: set<string>, b: set<string>)
    requires a <= b
    ensures |a| <= |b|
  {
    assert b == a + (b - a);
  }

  /** On an empty catalog, one entry per distinct display name written. */
  lemma FreshCount(t: seq<Entry>)
    ensures |PutAll(Empty(), t).keys| == |KeysOf(t)|
  {
    PutAllCount(Empty(), t);
    assert Empty<Target>().values.Keys + KeysOf(t) == KeysOf(t);
  }

  /** Writing `bs` on an empty catalog makes at least as many entries as
      the first batch has distinct display names. */
  lemma FirstBatchCount(bs: seq<seq<Entry>>)
    requires bs != []
    ensures |PutAll(Empty(), Flat(bs)).keys| >= |KeysOf(bs[0])|
  {
    KeysOfConcat(bs[0], Flat(bs[1..]));
    FreshCount(Flat(bs));
    SubsetCard(KeysOf(bs[0]), KeysOf(Flat(bs)));
  }

  /** Inserting the batches `x` in the middle of `o + p` keeps every display
      name and so every entry. */
  lemma InsertionCovers(o: seq<seq<Entry>>, x: seq<seq<Entry>>, p: seq<seq<Entry>>)
    ensures KeysOf(Flat(o + p)) <= KeysOf(Flat(o + x + p))
    ensures |PutAll(Empty(), Flat(o + p)).keys| <= |PutAll(Empty(), Flat(o + x + p)).keys|
  {
    FlatAppend(o, p);
    FlatAppend(o, x);
    FlatAppend(o + x, p);
    KeysOfConcat(Flat(o), Flat(p));
    KeysOfConcat(Flat(o), Flat(x));
    KeysOfConcat(Flat(o + x), Flat(p));
    FreshCount(Flat(o + p));
    FreshCount(Flat(o + x + p));
    SubsetCard(KeysOf(Flat(o + p)), KeysOf(Flat(o + x + p)));
  }

  /** `search_count` after the class search on an empty catalog: at least
      the eight fixed platform searches and three profile searches per
      distinct username. */
  lemma ClassSearchCount(s: Subject)
    requires WellFormed(s)
    ensures |PutAll(Empty(), Flat(ClassBatches(s))).keys| >= 8 + 3 * |Elems(s.usernames)|
  {
    hide ProfileBatches, SocialMediaSearches, PersonFinderSearches, PublicRecordSearches, EmailSearches, PhoneSearches, UsernameSearches, EmployerSearches, EducationSearches, RelativeSearches, ImageSearches, GoogleDorks, DarkWebSearches, BreachIndicators, ArchiveSearches, ProfessionalSearches;
    var social := SocialMediaSearches(s);
    assert ClassBatches(s)[0] == Items(social);
    FirstBatchCount(ClassBatches(s));
    ItemsKeys(social);
    ValidCount(social);
    SocialKeyCount(s);
  }

  /** The module-level `search_person` would write every display name the
      class one writes, so its count can only be larger. */
  lemma ModuleSearchCoversClass(s: Subject, order: seq<string>)
    requires WellFormed(s) && Enumerates(order, EmailDomains(s.emails))
    ensures KeysOf(Flat(ClassBatches(s))) <= KeysOf(Flat(ModuleBatches(s, order)))
    ensures |PutAll(Empty(), Flat(ClassBatches(s))).keys| <= |PutAll(Empty(), Flat(ModuleBatches(s, order))).keys|
  {
    hide Opening, ModuleExtras, ProfileBatches, SocialMediaSearches, PersonFinderSearches, PublicRecordSearches, EmailSearches, PhoneSearches, UsernameSearches, EmployerSearches, EducationSearches, RelativeSearches, ImageSearches, GoogleDorks, DarkWebSearches, BreachIndicators, ArchiveSearches, ProfessionalSearches;
    InsertionCovers(Opening(s), ModuleExtras(s, order), ProfileBatches(s));
  }
}
