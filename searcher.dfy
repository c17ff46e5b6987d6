// The searcher object: the subject record, the metadata and the shared
// catalog, the generator methods that fill the catalog, the text report it
// saves, the browser step and the two `search_person` orchestrations.
module Searcher {
  import opened Strings
  import opened OrderedMap
  import opened Subjects
  import opened Catalog
  import opened Generators
  import opened Plans
  import opened Grouping
  import opened Render
  import opened Browser

  datatype Option<T> = None | Some(value: T)

  /** What `save_results` writes: the file name, and for the text format
      the report. The JSON dump's layout is not modelled. */
  datatype Saved = JsonFile(filename: string) | TextFile(filename: string, contents: string)

  /** What a `search_person` run did: refused for a missing name, or
      searched, saved and possibly opened tabs. */
  datatype SearchOutcome = NameMissing | Finished(saved: Saved, browser: Option<Outcome>)

  /** The default `limit` of `open_results_in_browser`. */
  const DefaultLimit: int := 10

  class OSINTSearcher {
    /** `results["subject_info"]`, gathered before the search. */
    const subject: Subject
    /** `results["metadata"]["timestamp"]`, taken when the object is made. */
    const timestamp: string
    const outputFile: string
    /** `results["metadata"]["output_format"]` */
    const outputFormat: string
    /** `results["metadata"]["open_browser"]` */
    const openBrowser: bool
    /** `results["search_results"]` */
    const results: ResultCatalog
    /** `results["metadata"]["search_count"]` */
    var searchCount: nat

    ghost predicate Valid()
      reads this, results
    {
      results.Valid() && WellFormed(subject)
    }

    /** `__init__` followed by the input step: an empty catalog and a count
        of zero. */
    constructor(subject: Subject, timestamp: string, outputFile: string, outputFormat: string, openBrowser: bool)
      requires WellFormed(subject)
      ensures Valid() && fresh(results)
      ensures this.subject == subject && this.timestamp == timestamp
      ensures this.outputFile == outputFile && this.outputFormat == outputFormat
      ensures this.openBrowser == openBrowser
      ensures results.Model() == Empty() && searchCount == 0
    {
      this.subject := subject;
      this.timestamp := timestamp;
      this.outputFile := outputFile;
      this.outputFormat := outputFormat;
      this.openBrowser := openBrowser;
      results := new ResultCatalog();
      searchCount := 0;
    }

    // -------------------------------------------------------------------------
    // The generator methods of the class

    method SearchSocialMedia()
      requires Valid()
      modifies results
      ensures Valid()
      ensures results.Model() == PutAll(old(results.Model()), SocialMediaWrites(subject))
    {
      hide SocialMediaSearches;
      results.PutAll(SocialMediaSearches(subject));
    }

    /** The person finders are written first, then the public records. */
    method SearchPeopleDirectories()
      requires Valid()
      modifies results
      ensures Valid()
      ensures results.Model() == PutAll(old(results.Model()), DirectoryWrites(subject))
    {
      hide PersonFinderSearches, PublicRecordSearches;
      ghost var start := results.Model();
      var finders := PersonFinderSearches(subject);
      var records := PublicRecordSearches(subject);
      results.PutAll(finders);
      results.PutAll(records);
      PutAllAppend(start, Items(finders), Items(records));
    }

    method SearchByEmail(email: string)
      requires Valid() && IsAscii(email)
      modifies results
      ensures Valid()
      ensures results.Model() == PutAll(old(results.Model()), FieldWrites(subject.name, Emails, email))
    {
      hide EmailSearches;
      var local := EmailSearches(email);
      assert FieldWrites(subject.name, Emails, email) == Items(local);
      results.PutAll(local);
    }

    method SearchByPhone(phone: string)
      requires Valid() && IsAscii(phone)
      modifies results
      ensures Valid()
      ensures results.Model() == PutAll(old(results.Model()), FieldWrites(subject.name, Phones, phone))
    {
      hide PhoneSearches;
      var local := PhoneSearches(phone);
      assert FieldWrites(subject.name, Phones, phone) == Items(local);
      results.PutAll(local);
    }

    method SearchByUsername(username: string)
      requires Valid() && IsAscii(username)
      modifies results
      ensures Valid()
      ensures results.Model() == PutAll(old(results.Model()), FieldWrites(subject.name, Usernames, username))
    {
      hide UsernameSearches;
      var local := UsernameSearches(username);
      assert FieldWrites(subject.name, Usernames, username) == Items(local);
      results.PutAll(local);
    }

    method SearchByEmployer(employer: string)
      requires Valid() && IsAscii(employer)
      modifies results
      ensures Valid()
      ensures results.Model() == PutAll(old(results.Model()), FieldWrites(subject.name, Employers, employer))
    {
      hide EmployerSearches;
      var local := EmployerSearches(subject.name, employer);
      assert FieldWrites(subject.name, Employers, employer) == Items(local);
      results.PutAll(local);
    }

    method SearchByEducation(school: string)
      requires Valid() && IsAscii(school)
      modifies results
      ensures Valid()
      ensures results.Model() == PutAll(old(results.Model()), FieldWrites(subject.name, Schools, school))
    {
      hide EducationSearches;
      var local := EducationSearches(subject.name, school);
      assert FieldWrites(subject.name, Schools, school) == Items(local);
      results.PutAll(local);
    }

    method SearchByRelative(relative: string)
      requires Valid() && IsAscii(relative)
      modifies results
      ensures Valid()
      ensures results.Model() == PutAll(old(results.Model()), FieldWrites(subject.name, Relatives, relative))
    {
      hide RelativeSearches;
      var local := RelativeSearches(subject.name, relative);
      assert FieldWrites(subject.name, Relatives, relative) == Items(local);
      results.PutAll(local);
    }

    method ReverseImageSearch()
      requires Valid()
      modifies results
      ensures Valid()
      ensures results.Model() == PutAll(old(results.Model()), ImageWrites(subject.photoPath))
    {
      hide ImageSearches;
      results.PutAll(ImageSearches(subject.photoPath));
    }

    /** The per-element generator for the list `f`. */
    method SearchBy(f: Field, x: string)
      requires Valid() && IsAscii(x)
      modifies results
      ensures Valid()
      ensures results.Model() == PutAll(old(results.Model()), FieldWrites(subject.name, f, x))
    {
      hide EmailSearches, PhoneSearches, UsernameSearches, EmployerSearches, EducationSearches, RelativeSearches;
      match f
      case Emails => SearchByEmail(x);
      case Phones => SearchByPhone(x);
      case Usernames => SearchByUsername(x);
      case Employers => SearchByEmployer(x);
      case Schools => SearchByEducation(x);
      case Relatives => SearchByRelative(x);
    }

    /** `for x in xs: self.search_by_...(x)` */
    method SearchEach(f: Field, xs: seq<string>)
      requires Valid() && AllAscii(xs)
      modifies results
      ensures Valid()
      ensures results.Model() == PutAll(old(results.Model()), Flat(FieldBatches(subject.name, f, xs)))
    {
      hide SocialMediaSearches, PersonFinderSearches, PublicRecordSearches, EmailSearches, PhoneSearches, UsernameSearches, EmployerSearches, EducationSearches, RelativeSearches, ImageSearches, GoogleDorks, DarkWebSearches, BreachIndicators, ArchiveSearches, ProfessionalSearches;
      hide FieldWrites, FieldBatches;
      ghost var start := results.Model();
      assert FieldBatches(subject.name, f, xs[..0]) == [];
      for i := 0 to |xs|
        invariant Valid()
        invariant results.Model() == PutAll(start, Flat(FieldBatches(subject.name, f, xs[..i])))
      {
        FieldBatchesSnoc(subject.name, f, xs, i);
        ghost var before := FieldBatches(subject.name, f, xs[..i]);
        SearchBy(f, xs[i]);
        LogSnoc(start, before, FieldWrites(subject.name, f, xs[i]));
      }
      assert xs[..|xs|] == xs;
    }

    /** The calls both orchestrations end with, in the order of the source:
        emails, phones, usernames, employers, schools, the photo, relatives. */
    method SearchProfile()
      requires Valid()
      modifies results
      ensures Valid()
      ensures results.Model() == PutAll(old(results.Model()), Flat(ProfileBatches(subject)))
    {
      hide SocialMediaSearches, PersonFinderSearches, PublicRecordSearches, EmailSearches, PhoneSearches, UsernameSearches, EmployerSearches, EducationSearches, RelativeSearches, ImageSearches, GoogleDorks, DarkWebSearches, BreachIndicators, ArchiveSearches, ProfessionalSearches;
      ghost var start := results.Model();
      var s := subject;
      SearchEach(Emails, s.emails);
      ghost var done := FieldBatches(s.name, Emails, s.emails);
      ProfileStep(start, done, Phones, s.phones);
      done := done + FieldBatches(s.name, Phones, s.phones);
      ProfileStep(start, done, Usernames, s.usernames);
      done := done + FieldBatches(s.name, Usernames, s.usernames);
      ProfileStep(start, done, Employers, s.employers);
      done := done + FieldBatches(s.name, Employers, s.employers);
      ProfileStep(start, done, Schools, s.education);
      done := done + FieldBatches(s.name, Schools, s.education);
      if s.photoPath != [] {
        ReverseImageSearch();
        LogSnoc(start, done, ImageWrites(s.photoPath));
      } else {
        assert done + [] == done;
      }
      done := done + (if s.photoPath != [] then [ImageWrites(s.photoPath)] else []);
      ProfileStep(start, done, Relatives, s.relatives);
    }

    /** One more list of the profile, after the batches `done`. */
    method ProfileStep(ghost start: OMap<Target>, ghost done: seq<seq<Entry>>, f: Field, xs: seq<string>)
      requires Valid() && AllAscii(xs)
      requires results.Model() == PutAll(start, Flat(done))
      modifies results
      ensures Valid()
      ensures results.Model() == PutAll(start, Flat(done + FieldBatches(subject.name, f, xs)))
    {
      SearchEach(f, xs);
      LogAppend(start, done, FieldBatches(subject.name, f, xs));
    }

    // -------------------------------------------------------------------------
    // The module-level generators. Each takes the searcher as `self` and
    // returns the number of searches it generated (the size of its local
    // dictionaries); the class never binds them, so only the module-level
    // orchestration below reaches them.

    method PerformGoogleDorking(name: string) returns (n: nat)
      requires Valid() && IsAscii(name)
      modifies results
      ensures Valid()
      ensures results.Model() == PutAll(old(results.Model()), DorkWrites(subject, name))
      ensures n == |GoogleDorks(subject, name).keys|
    {
      hide GoogleDorks;
      var dorks := GoogleDorks(subject, name);
      results.PutAll(dorks);
      n := |dorks.keys|;
    }

    /** The breach reference pages are written first, then the indicator
        searches; the count adds both. */
    method SearchDarkWebIndicators() returns (n: nat)
      requires Valid()
      modifies results
      ensures Valid()
      ensures results.Model() == PutAll(old(results.Model()), BreachWrites(subject))
      ensures n == |DarkWebSearches(subject.name).keys| + |BreachIndicators(subject).keys|
    {
      hide DarkWebSearches, BreachIndicators;
      ghost var start := results.Model();
      var pages := DarkWebSearches(subject.name);
      var indicators := BreachIndicators(subject);
      results.PutAll(pages);
      results.PutAll(indicators);
      PutAllAppend(start, Items(pages), Items(indicators));
      n := |pages.keys| + |indicators.keys|;
    }

    /** `order` is the iteration order of the set of email domains. */
    method SearchArchivedContent(order: seq<string>) returns (n: nat)
      requires Valid() && Enumerates(order, EmailDomains(subject.emails))
      modifies results
      ensures Valid()
      ensures results.Model() == PutAll(old(results.Model()), ArchiveWrites(subject, order))
      ensures n == |ArchiveSearches(subject, order).keys|
    {
      hide ArchiveSearches;
      var archives := ArchiveSearches(subject, order);
      results.PutAll(archives);
      n := |archives.keys|;
    }

    method SearchProfessionalNetworks() returns (n: nat)
      requires Valid()
      modifies results
      ensures Valid()
      ensures results.Model() == PutAll(old(results.Model()), ProfessionalWrites(subject))
      ensures n == |ProfessionalSearches(subject).keys|
    {
      hide ProfessionalSearches;
      var searches := ProfessionalSearches(subject);
      results.PutAll(searches);
      n := |searches.keys|;
    }

    // -------------------------------------------------------------------------
    // Saving and opening

    /** `save_results`: the file is named after the output name and the
        format; "json" dumps the whole results dictionary, any other format
        writes the text report of the catalog as it stands. */
    function SaveResults(): (f: Saved)
      reads this, results
      requires Valid()
      ensures f.filename == outputFile + "." + outputFormat
      ensures f.JsonFile? <==> outputFormat == "json"
      ensures f.TextFile? ==> f.contents == TextReport(subject, timestamp, searchCount, Items(results.Model()))
    {
      var filename := outputFile + "." + outputFormat;
      if outputFormat == "json" then JsonFile(filename)
      else TextFile(filename, TextReport(subject, timestamp, searchCount, Items(results.Model())))
    }

    /** `open_results_in_browser(limit)`, with `answer` the reply to its
        confirmation prompt. The catalog is grouped by category; the first
        loop opens the first record of each category and the second the
        remaining records category by category, each stopping once `limit`
        tabs are open. */
    method OpenResultsInBrowser(answer: string, limit: int) returns (o: Outcome)
      requires Valid()
      ensures o == Decide(results.Model(), Confirms(answer), limit)
    {
      if |results.keys| == 0 {
        return NoResults;
      }
      if !Confirms(answer) {
        return Cancelled;
      }
      o := OpenTabs(results.Model(), limit);
    }

    // -------------------------------------------------------------------------
    // The orchestrations

    /** `search_person` as the class defines it: nothing happens without a
        name; otherwise the class's generators run in order, the count is
        set to the catalog size, the results are saved and, when asked for,
        tabs are opened with the default limit. */
    method SearchPerson(answer: string) returns (r: SearchOutcome)
      requires Valid()
      modifies this, results
      ensures Valid()
      ensures subject.name == [] ==>
        r == NameMissing && results.Model() == old(results.Model()) && searchCount == old(searchCount)
      ensures subject.name != [] ==>
        && results.Model() == PutAll(old(results.Model()), Flat(ClassBatches(subject)))
        && searchCount == results.Count()
        && r == Finished(SaveResults(),
                         if openBrowser then Some(Decide(results.Model(), Confirms(answer), DefaultLimit)) else None)
    {
      hide SocialMediaSearches, PersonFinderSearches, PublicRecordSearches, EmailSearches, PhoneSearches, UsernameSearches, EmployerSearches, EducationSearches, RelativeSearches, ImageSearches, GoogleDorks, DarkWebSearches, BreachIndicators, ArchiveSearches, ProfessionalSearches;
      if subject.name == [] {
        return NameMissing;
      }
      ghost var start := results.Model();
      SearchSocialMedia();
      SearchPeopleDirectories();
      TwoCalls(start, SocialMediaWrites(subject), DirectoryWrites(subject));
      SearchProfile();
      LogAppend(start, Opening(subject), ProfileBatches(subject));
      r := Finish(answer);
    }

    /** `search_person` as the module defines it: the same, with dorking on
        the name, breach indicators, archives and professional networks
        between the directories and the profile searches. `order` is the
        iteration order of the set of email domains. */
    method ModuleSearchPerson(order: seq<string>, answer: string) returns (r: SearchOutcome)
      requires Valid() && Enumerates(order, EmailDomains(subject.emails))
      modifies this, results
      ensures Valid()
      ensures subject.name == [] ==>
        r == NameMissing && results.Model() == old(results.Model()) && searchCount == old(searchCount)
      ensures subject.name != [] ==>
        && results.Model() == PutAll(old(results.Model()), Flat(ModuleBatches(subject, order)))
        && searchCount == results.Count()
        && r == Finished(SaveResults(),
                         if openBrowser then Some(Decide(results.Model(), Confirms(answer), DefaultLimit)) else None)
    {
      hide SocialMediaSearches, PersonFinderSearches, PublicRecordSearches, EmailSearches, PhoneSearches, UsernameSearches, EmployerSearches, EducationSearches, RelativeSearches, ImageSearches, GoogleDorks, DarkWebSearches, BreachIndicators, ArchiveSearches, ProfessionalSearches;
      if subject.name == [] {
        return NameMissing;
      }
      ghost var start := results.Model();
      SearchSocialMedia();
      SearchPeopleDirectories();
      TwoCalls(start, SocialMediaWrites(subject), DirectoryWrites(subject));
      ghost var mid := results.Model();
      var dorkCount := PerformGoogleDorking(subject.name);
      var breachCount := SearchDarkWebIndicators();
      var archiveCount := SearchArchivedContent(order);
      var professionalCount := SearchProfessionalNetworks();
      FourCalls(mid, DorkWrites(subject, subject.name), BreachWrites(subject), ArchiveWrites(subject, order), ProfessionalWrites(subject));
      LogAppend(start, Opening(subject), ModuleExtras(subject, order));
      SearchProfile();
      LogAppend(start, Opening(subject) + ModuleExtras(subject, order), ProfileBatches(subject));
      r := Finish(answer);
    }

    /** The common end of both orchestrations: count, save, open. */
    method Finish(answer: string) returns (r: SearchOutcome)
      requires Valid()
      modifies this
      ensures Valid() && results.Model() == old(results.Model())
      ensures searchCount == results.Count()
      ensures r == Finished(SaveResults(),
                            if openBrowser then Some(Decide(results.Model(), Confirms(answer), DefaultLimit)) else None)
    {
      searchCount := results.Count();
      var saved := SaveResults();
      var browser: Option<Outcome> := None;
      if openBrowser {
        var o := OpenResultsInBrowser(answer, DefaultLimit);
        browser := Some(o);
      }
      r := Finished(saved, browser);
    }
  }

  /** The confirmed part of `open_results_in_browser` over the catalog `d`:
      group by category, open the first record of each category, then the
      remaining records category by category, each pass stopping once
      `limit` tabs are open, and count the records left unopened. */
  method OpenTabs(d: OMap<Target>, limit: int) returns (o: Outcome)
    requires OrderedMap.Valid(d) && d.keys != []
    ensures o == Decide(d, true, limit)
  {
    hide Items, Groups, GroupsOf, Categories, Members, Heads, Tails, Take, Selection, EntriesOf, Flatten;
    var items := Items(d);
    var groups := GroupByCategory(items);
    var g := Items(groups);
    CandidatesArePermutation(items);
    var tabs, tabCount := OpenFirsts(g, limit);
    tabs, tabCount := OpenRest(g, limit, tabs, tabCount);
    SelectionSize(items, limit);
    assert |items| == |d.keys|;
    o := Opened(tabs, if tabCount == limit && |d.keys| > limit then |d.keys| - limit else 0);
  }
}
