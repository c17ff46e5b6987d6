// The search generators. Each one builds a local dictionary from display
// name to URL and then copies it into the shared catalog with a fixed
// category and an info line. Here the local dictionary is modelled as a
// dictionary value whose records already carry the category and the info
// line; `Searcher` copies it into the catalog with `ResultCatalog.PutAll`.
module Generators {
  import opened Strings
  import opened Quote
  import opened OrderedMap
  import opened Subjects
  import opened Catalog

  const Google: string := "https://www.google.com/search?q="

  /** Gives every (display name, URL) pair the same category and an info line
      made of a fixed prefix and the display name. */
  function Tag(pairs: seq<(string, string)>, category: string, prefix: string): (r: seq<Entry>)
    ensures |r| == |pairs|
    ensures forall i :: 0 <= i < |r| ==> r[i] == (pairs[i].0, Target(pairs[i].1, category, prefix + pairs[i].0))
  {
    seq(|pairs|, i requires 0 <= i < |pairs| => (pairs[i].0, Target(pairs[i].1, category, prefix + pairs[i].0)))
  }

  /** Every record of a dictionary literal whose pairs all carry category
      `c` carries `c`. */
  lemma FromPairsCategory(rows: seq<Entry>, c: string)
    requires forall i :: 0 <= i < |rows| ==> rows[i].1.category == c
    ensures forall k :: k in FromPairs(rows).values ==> FromPairs(rows).values[k].category == c
  {
    forall k | k in FromPairs(rows).values ensures FromPairs(rows).values[k].category == c {
      FromPairsValueFrom(rows, k);
    }
  }

  /** The records of a local dictionary all belong to category `c`. */
  ghost predicate InCategory(d: OMap<Target>, c: string) {
    OrderedMap.Valid(d) && forall k :: k in d.values ==> d.values[k].category == c
  }

  // ---------------------------------------------------------------------------
  // Helpers

  /** `name.replace(" ", "-").lower()`, the name as the directories spell it
      in a path: no spaces, no capitals, one character per character. */
  function NameSlug(name: string): (r: string)
    ensures |r| == |name|
    ensures forall i :: 0 <= i < |r| ==> r[i] != ' ' && !IsUpper(r[i])
    ensures forall i :: 0 <= i < |r| ==> r[i] == LowerChar(if name[i] == ' ' then '-' else name[i])
    ensures IsAscii(name) ==> IsAscii(r)
  {
    Lower(ReplaceChar(name, ' ', '-'))
  }

  /** `name.split()`'s first and last word, or the whole name twice when it
      has fewer than two words. */
  function FirstLast(name: string): (r: (string, string))
    ensures |Words(name)| >= 2 ==> r == (Words(name)[0], Words(name)[|Words(name)| - 1])
    ensures |Words(name)| < 2 ==> r == (name, name)
    ensures IsAscii(name) ==> IsAscii(r.0) && IsAscii(r.1)
  {
    var ws := Words(name);
    if |ws| >= 2 then
      NameWordsAscii(name);
      (ws[0], ws[|ws| - 1])
    else (name, name)
  }

  lemma NameWordsAscii(name: string)
    ensures IsAscii(name) ==> forall i :: 0 <= i < |Words(name)| ==> IsAscii(Words(name)[i])
  {
    if IsAscii(name) {
      WordsAscii(name);
    }
  }

  /** The text after the last `@` of an email address. */
  function EmailDomain(email: string): (d: string)
    ensures |d| <= |email| && email[|email| - |d|..] == d
    ensures '@' !in d
    ensures '@' in email ==> |d| < |email| && email[|email| - |d| - 1] == '@'
    ensures '@' !in email ==> d == email
    ensures IsAscii(email) ==> IsAscii(d)
  {
    LastPieceSuffix(email, '@');
    LastPiece(email, '@')
  }

  /** `search_by_email` adds a domain lookup when the address has an `@` and
      something after the last one. */
  predicate HasDomainLookup(email: string) {
    '@' in email && EmailDomain(email) != []
  }

  // ---------------------------------------------------------------------------
  // search_social_media

  /** The eight platforms and the part of each URL template before `{}`. */
  const SocialPlatforms: seq<(string, string)> := [
    ("Facebook", "https://www.facebook.com/search/top/?q="),
    ("LinkedIn", "https://www.google.com/search?q=site:linkedin.com+"),
    ("Twitter", "https://twitter.com/search?q="),
    ("Instagram", "https://www.google.com/search?q=site:instagram.com+"),
    ("TikTok", "https://www.google.com/search?q=site:tiktok.com+"),
    ("YouTube", "https://www.youtube.com/results?search_query="),
    ("Reddit", "https://www.reddit.com/search/?q="),
    ("Pinterest", "https://www.pinterest.com/search/pins/?q=")
  ]

  function SocialRow(platform: string, url: string, name: string): Entry {
    (platform, Target(url, "Social Media", "Potential " + platform + " profile for " + name))
  }

  /** The eight fixed platforms; GeneratorFacts.SocialFixedEntries states
      their URLs and info lines. */
  function SocialFixedRows(name: string): (r: seq<Entry>)
    requires IsAscii(name)
    ensures |r| == 8
  {
    var q := QuotePlus(name);
    seq(8, i requires 0 <= i < 8 => SocialRow(SocialPlatforms[i].0, SocialPlatforms[i].1 + q, name))
  }

  /** Three profile links per username, in the order the usernames are
      given. Their templates hold no `{}`, so formatting them with the name
      leaves them as they are. */
  function UsernameProfileRows(name: string, usernames: seq<string>): (r: seq<Entry>)
    ensures |r| == 3 * |usernames|
    ensures forall i :: 0 <= i < |r| ==> r[i].1.category == "Social Media"
  {
    if usernames == [] then []
    else ProfileRows(name, usernames[0]) + UsernameProfileRows(name, usernames[1..])
  }

  /** The three profile keys' prefixes and URL prefixes; the username
      completes both. */
  const ProfileSites: seq<(string, string)> := [
    ("Twitter @", "https://twitter.com/"),
    ("Instagram @", "https://www.instagram.com/"),
    ("TikTok @", "https://www.tiktok.com/@")
  ]

  function ProfileRows(name: string, u: string): (r: seq<Entry>)
    ensures |r| == 3
  {
    seq(3, i requires 0 <= i < 3 => SocialRow(ProfileSites[i].0 + u, ProfileSites[i].1 + u, name))
  }

  function SocialRows(s: Subject): (r: seq<Entry>)
    requires WellFormed(s)
    ensures forall i :: 0 <= i < |r| ==> r[i].1.category == "Social Media"
  {
    SocialFixedRows(s.name) + UsernameProfileRows(s.name, s.usernames)
  }

  /** The platform dictionary of `search_social_media`. */
  function SocialMediaSearches(s: Subject): (r: OMap<Target>)
    requires WellFormed(s)
    ensures InCategory(r, "Social Media")
  {
    FromPairsCategory(SocialRows(s), "Social Media");
    FromPairs(SocialRows(s))
  }

  // ---------------------------------------------------------------------------
  // search_people_directories

  /** The first address, or "" when there is none. */
  function LocationTerm(s: Subject): string {
    if s.addresses != [] then s.addresses[0] else ""
  }

  /** The name, then " born <date>" and " <place>" for the parts of the birth
      record that were given. */
  function SearchTerm(s: Subject): (r: string)
    ensures |r| == |s.name| + (if s.birthDate != [] then 6 + |s.birthDate| else 0)
                             + (if s.birthPlace != [] then 1 + |s.birthPlace| else 0)
    ensures r[..|s.name|] == s.name
    ensures s.birthDate != [] ==> r[|s.name|..|s.name| + 6 + |s.birthDate|] == " born " + s.birthDate
    ensures s.birthPlace != [] ==> r[|r| - 1 - |s.birthPlace|..] == " " + s.birthPlace
    ensures WellFormed(s) ==> IsAscii(r)
  {
    var d := if s.birthDate != [] then " born " + s.birthDate else "";
    var p := if s.birthPlace != [] then " " + s.birthPlace else "";
    ThreeParts(s.name, d, p);
    s.name + d + p
  }

  /** Where each of three joined parts sits, and that ASCII parts join to
      ASCII. */
  lemma ThreeParts(n: string, d: string, p: string)
    ensures (n + d + p)[..|n|] == n
    ensures (n + d + p)[|n|..|n| + |d|] == d
    ensures (n + d + p)[|n| + |d|..] == p
    ensures IsAscii(n) && IsAscii(d) && IsAscii(p) ==> IsAscii(n + d + p)
  {
    if IsAscii(n) && IsAscii(d) && IsAscii(p) {
      AsciiConcat(n, d);
      AsciiConcat(n + d, p);
    }
  }

  /** The seven finder sites that take the slug: name, URL before and after
      the `{}`. */
  const PersonFinderSites: seq<(string, string, string)> := [
    ("WhitePages", "https://www.whitepages.com/name/", ""),
    ("Spokeo", "https://www.spokeo.com/", ""),
    ("BeenVerified", "https://www.beenverified.com/people/", "/"),
    ("TruePeopleSearch", "https://www.truepeoplesearch.com/results?name=", ""),
    ("Intelius", "https://www.intelius.com/people-search/", ""),
    ("PeopleFinders", "https://www.peoplefinders.com/people/", ""),
    ("Radaris", "https://radaris.com/#!search/", "")
  ]

  function FinderRow(site: string, url: string): Entry {
    (site, Target(url, "People Directories", "Potential records on " + site))
  }

  /** A finder URL: the template around the encoded slug, with the encoded
      first address appended for TruePeopleSearch. */
  function FinderUrl(s: Subject, i: nat): string
    requires WellFormed(s) && i < 7
  {
    var site := PersonFinderSites[i];
    var url := site.1 + QuotePlus(NameSlug(s.name)) + site.2;
    var loc := LocationTerm(s);
    if site.0 == "TruePeopleSearch" && loc != [] then url + "&citystatezip=" + QuotePlus(loc) else url
  }

  /** MyLife takes the first and the last word of the name separately. */
  function MyLifeUrl(name: string): string
    requires IsAscii(name)
  {
    var (first, last) := FirstLast(name);
    "https://www.mylife.com/search/?searchFirstName=" + QuotePlus(first) + "&searchLastName=" + QuotePlus(last)
  }

  /** The eight finder sites; GeneratorFacts.PersonFinderKeys,
      TruePeopleSearchUrl and MyLifeEntry state their contents. */
  function PersonFinderRows(s: Subject): (r: seq<Entry>)
    requires WellFormed(s)
    ensures |r| == 8
    ensures forall i :: 0 <= i < |r| ==> r[i].1.category == "People Directories"
  {
    hide FinderUrl, MyLifeUrl;
    var fixed := seq(7, i requires 0 <= i < 7 => FinderRow(PersonFinderSites[i].0, FinderUrl(s, i)));
    var r := fixed + [FinderRow("MyLife", MyLifeUrl(s.name))];
    assert forall i :: 0 <= i < 7 ==> r[i] == fixed[i];
    r
  }

  /** The person-finder dictionary of `search_people_directories`. */
  function PersonFinderSearches(s: Subject): (r: OMap<Target>)
    requires WellFormed(s)
    ensures InCategory(r, "People Directories")
  {
    FromPairsCategory(PersonFinderRows(s), "People Directories");
    FromPairs(PersonFinderRows(s))
  }

  function RecordRow(title: string, url: string, name: string): Entry {
    (title, Target(url, "Public Records", title + " search for " + name))
  }

  /** The five record searches; GeneratorFacts.PublicRecordKeys,
      PublicRecordsTerm and PropertyRecordsUrl state their contents. */
  function PublicRecordRows(s: Subject): (r: seq<Entry>)
    requires WellFormed(s)
    ensures |r| == 5
    ensures forall i :: 0 <= i < |r| ==> r[i].1.category == "Public Records"
  {
    RecordRows(s.name, QuotePlus(SearchTerm(s)), QuotePlus(s.name))
  }

  /** The five record searches for the name `name`, with `term` the encoded
      search term and `n` the encoded name. */
  function RecordRows(name: string, term: string, n: string): (r: seq<Entry>)
    ensures |r| == 5
    ensures forall i :: 0 <= i < |r| ==> r[i].1.category == "Public Records"
  {
    [RecordRow("Google Public Records", Google + term + "+public+records", name),
     RecordRow("Court Records", Google + n + "+court+records", name),
     RecordRow("Property Records", Google + n + "+property+records", name),
     RecordRow("Marriage Records", Google + n + "+marriage+records", name),
     RecordRow("Obituaries", Google + n + "+obituary", name)]
  }

  /** The public-records dictionary: the literal, after which the property
      search is rewritten with the encoded first address when there is
      one. */
  function PublicRecordSearches(s: Subject): (r: OMap<Target>)
    requires WellFormed(s)
    ensures InCategory(r, "Public Records")
  {
    var base := PublicRecordRows(s);
    FromPairsCategory(base, "Public Records");
    var loc := LocationTerm(s);
    if loc != [] then OrderedMap.Put(FromPairs(base), "Property Records", LocatedProperty(s))
    else FromPairs(base)
  }

  /** The property search rewritten with the first address. */
  function LocatedProperty(s: Subject): Target
    requires WellFormed(s)
  {
    RecordRow("Property Records", Google + QuotePlus(s.name) + "+property+records+" + QuotePlus(LocationTerm(s)), s.name).1
  }

  // ---------------------------------------------------------------------------
  // search_by_email, search_by_phone, search_by_username

  function EmailRow(title: string, url: string, email: string): Entry {
    (title, Target(url, "Email", "Information linked to email: " + email))
  }

  /** The e-mail searches; GeneratorFacts.EmailSearchKeys and
      DomainLookupUrl state their keys and URLs. */
  function EmailRows(email: string): (r: seq<Entry>)
    requires IsAscii(email)
    ensures |r| == if HasDomainLookup(email) then 5 else 4
    ensures forall i :: 0 <= i < |r| ==> r[i].1.category == "Email"
    ensures forall i :: 0 <= i < |r| ==> r[i].1.info == "Information linked to email: " + email
  {
    var q := QuotePlus(email);
    var d := EmailDomain(email);
    var fixed := [EmailRow("Email Lookup (" + email + ")", "https://thatsthem.com/email/" + q, email),
                  EmailRow("Have I Been Pwned (" + email + ")", "https://haveibeenpwned.com/account/" + q, email),
                  EmailRow("Google Email Search (" + email + ")", Google + q, email),
                  EmailRow("Hunter.io (" + email + ")", "https://hunter.io/email-verifier/" + q, email)];
    var extra := if HasDomainLookup(email)
                 then [EmailRow("Domain Lookup (" + d + ")", Google + QuotePlus(d) + "+company+information", email)]
                 else [];
    assert forall i :: 0 <= i < |fixed + extra| ==> (fixed + extra)[i] == if i < 4 then fixed[i] else extra[i - 4];
    fixed + extra
  }

  /** The dictionary of `search_by_email(email)`. */
  function EmailSearches(email: string): (r: OMap<Target>)
    requires IsAscii(email)
    ensures InCategory(r, "Email")
  {
    FromPairsCategory(EmailRows(email), "Email");
    FromPairs(EmailRows(email))
  }

  function PhoneRow(title: string, url: string, phone: string): Entry {
    (title, Target(url, "Phone", "Information linked to phone: " + phone))
  }

  /** The look-up sites take the digits of the number; the free-text search
      takes the number as typed. GeneratorFacts.PhoneSearchUrls states the
      URLs. */
  function PhoneRows(phone: string): (r: seq<Entry>)
    requires IsAscii(phone)
    ensures |r| == 4
    ensures forall i :: 0 <= i < |r| ==> r[i].1.category == "Phone"
  {
    var clean := Digits(phone);
    [PhoneRow("Truecaller (" + phone + ")", "https://www.truecaller.com/search/" + clean, phone),
     PhoneRow("Google Phone Search (" + phone + ")", Google + QuotePlus(phone), phone),
     PhoneRow("WhitePages Phone (" + phone + ")", "https://www.whitepages.com/phone/" + clean, phone),
     PhoneRow("Spokeo Phone (" + phone + ")", "https://www.spokeo.com/phone/" + clean, phone)]
  }

  /** The dictionary of `search_by_phone(phone)`. */
  function PhoneSearches(phone: string): (r: OMap<Target>)
    requires IsAscii(phone)
    ensures InCategory(r, "Phone")
  {
    FromPairsCategory(PhoneRows(phone), "Phone");
    FromPairs(PhoneRows(phone))
  }

  /** The six username searches; AttributeFacts.UsernameSearchUrls states
      their URLs and info lines. */
  function UsernameRows(u: string): (r: seq<Entry>)
    requires IsAscii(u)
    ensures |r| == 6
    ensures forall i :: 0 <= i < |r| ==> r[i].1.category == "Username"
  {
    var q := QuotePlus(u);
    var info := "Accounts linked to username: " + u;
    [("KnowEm (" + u + ")", Target("https://knowem.com/checkusernames.php?u=" + q, "Username", info)),
     ("NameChk (" + u + ")", Target("https://namechk.com/search/" + q, "Username", info)),
     ("GitHub (" + u + ")", Target("https://github.com/" + q, "Username", info)),
     ("Twitter (" + u + ")", Target("https://twitter.com/" + q, "Username", info)),
     ("Instagram (" + u + ")", Target("https://www.instagram.com/" + q + "/", "Username", info)),
     ("Google Username Search (" + u + ")", Target(Google + q + "+profile+OR+account", "Username", info))]
  }

  /** The dictionary of `search_by_username(u)`. */
  function UsernameSearches(u: string): (r: OMap<Target>)
    requires IsAscii(u)
    ensures InCategory(r, "Username")
  {
    FromPairsCategory(UsernameRows(u), "Username");
    FromPairs(UsernameRows(u))
  }

  // ---------------------------------------------------------------------------
  // search_by_employer, search_by_education, search_by_relative,
  // reverse_image_search

  /** The three employer searches; AttributeFacts.EmployerSearchUrls states
      their URLs and info lines. */
  function EmployerRows(name: string, employer: string): (r: seq<Entry>)
    requires IsAscii(name) && IsAscii(employer)
    ensures |r| == 3
    ensures forall i :: 0 <= i < |r| ==> r[i].1.category == "Employment"
  {
    var e, n := QuotePlus(employer), QuotePlus(name);
    var info := "Employment information: " + name + " at " + employer;
    [(employer + " Employee Directory", Target(Google + e + "+employee+directory+" + n, "Employment", info)),
     (employer + " LinkedIn", Target(Google + "site:linkedin.com+" + e + "+" + n, "Employment", info)),
     (employer + " Contact", Target(Google + e + "+contact+" + n, "Employment", info))]
  }

  /** The dictionary of `search_by_employer(employer)`. */
  function EmployerSearches(name: string, employer: string): (r: OMap<Target>)
    requires IsAscii(name) && IsAscii(employer)
    ensures InCategory(r, "Employment")
  {
    FromPairsCategory(EmployerRows(name, employer), "Employment");
    FromPairs(EmployerRows(name, employer))
  }

  /** The three school searches; AttributeFacts.EducationSearchUrls states
      their URLs and info lines. */
  function EducationRows(name: string, school: string): (r: seq<Entry>)
    requires IsAscii(name) && IsAscii(school)
    ensures |r| == 3
    ensures forall i :: 0 <= i < |r| ==> r[i].1.category == "Education"
  {
    var e, n := QuotePlus(school), QuotePlus(name);
    var info := "Educational information: " + name + " at " + school;
    [(school + " Alumni", Target(Google + e + "+alumni+" + n, "Education", info)),
     (school + " Yearbook", Target(Google + e + "+yearbook+" + n, "Education", info)),
     (school + " Graduation", Target(Google + e + "+graduation+" + n, "Education", info))]
  }

  /** The dictionary of `search_by_education(school)`. */
  function EducationSearches(name: string, school: string): (r: OMap<Target>)
    requires IsAscii(name) && IsAscii(school)
    ensures InCategory(r, "Education")
  {
    FromPairsCategory(EducationRows(name, school), "Education");
    FromPairs(EducationRows(name, school))
  }

  /** The two relative searches; AttributeFacts.RelativeSearchUrls states
      their URLs and info lines. */
  function RelativeRows(name: string, relative: string): (r: seq<Entry>)
    requires IsAscii(name) && IsAscii(relative)
    ensures |r| == 2
    ensures forall i :: 0 <= i < |r| ==> r[i].1.category == "Relatives"
  {
    var q, n := QuotePlus(relative), QuotePlus(name);
    var info := "Information about relative: " + relative + " related to " + name;
    [("Family Search (" + relative + ")", Target(Google + n + "+related+to+" + q, "Relatives", info)),
     ("Social Media (" + relative + ")", Target(Google + q + "+social+media+" + n, "Relatives", info))]
  }

  /** The dictionary of `search_by_relative(relative)`. */
  function RelativeSearches(name: string, relative: string): (r: OMap<Target>)
    requires IsAscii(name) && IsAscii(relative)
    ensures InCategory(r, "Relatives")
  {
    FromPairsCategory(RelativeRows(name, relative), "Relatives");
    FromPairs(RelativeRows(name, relative))
  }

  /** The four upload pages; AttributeFacts.ImageSearchUrls states their
      URLs and info lines. */
  function ImageRows(photoPath: string): (r: seq<Entry>)
    ensures |r| == 4
    ensures forall i :: 0 <= i < |r| ==> r[i].1.category == "Image Search"
  {
    var info := "Upload the image at " + photoPath + " to this service";
    [("Google Reverse Image", Target("https://images.google.com/searchbyimage", "Image Search", info)),
     ("TinEye Reverse Image", Target("https://tineye.com/", "Image Search", info)),
     ("Yandex Reverse Image", Target("https://yandex.com/images/search", "Image Search", info)),
     ("Bing Visual Search", Target("https://www.bing.com/visualsearch", "Image Search", info))]
  }

  /** The dictionary of `reverse_image_search`: fixed upload pages, with the
      photo's path only in the info line. */
  function ImageSearches(photoPath: string): (r: OMap<Target>)
    ensures InCategory(r, "Image Search")
  {
    FromPairsCategory(ImageRows(photoPath), "Image Search");
    FromPairs(ImageRows(photoPath))
  }

  // ---------------------------------------------------------------------------
  // perform_google_dorking

  // The query text of each dork after the encoded name (or around it).
  const DocumentQuery := "+filetype:pdf+OR+filetype:doc+OR+filetype:docx+OR+filetype:xlsx+OR+filetype:pptx"
  const ContactQuery := "+\"phone\"+(\"home\"+OR+\"cell\"+OR+\"mobile\")+\"address\"+(\"email\"+OR+\"mail\")"
  const ProfilesQuery := "+intext:\"profile\"+site:facebook.com+OR+site:twitter.com+OR+site:linkedin.com+OR+site:instagram.com"
  const ForumQuery := "+site:reddit.com+OR+site:quora.com+OR+site:stackoverflow.com+OR+site:forums.*"
  const AboutMeQuery := "intitle:\"about\"+intitle:\"me\"+"
  const AcademicQuery := "+site:academia.edu+OR+site:researchgate.net+OR+site:scholar.google.com"
  const PresentationsQuery := "+site:slideshare.net+OR+site:prezi.com+OR+filetype:ppt+OR+filetype:pptx"
  const DirectoriesQuery := "+inurl:directory+OR+inurl:staff+OR+inurl:employees+OR+inurl:team"
  const EmailPatternQuery := "\"*@*\"+"
  const NewsQuery := "+site:news.*+OR+site:*.news+OR+site:*.com/news"
  const CompanyDocumentsQuery := "+filetype:pdf+OR+filetype:doc+OR+filetype:docx"
  const SchoolRecordsQuery := "+student+OR+alumni+OR+graduate"

  /** The titles of the ten fixed dorks; the name completes each one. */
  const DorkTitles: seq<string> := [
    "Document Search - ", "Contact Information - ", "Social Media Profiles - ", "Forum Posts - ",
    "Personal Information - ", "Academic Publications - ", "Presentations - ", "Public Directories - ",
    "Email Patterns - ", "News Articles - "
  ]

  /** The ten fixed dorks; ModuleFacts.DorkFixedEntries states their names
      and URLs. */
  function FixedDorks(name: string): (r: seq<(string, string)>)
    requires IsAscii(name)
    ensures |r| == 10
  {
    var n := QuotePlus(name);
    var (first, last) := FirstLast(name);
    [(DorkTitles[0] + name, Google + n + DocumentQuery),
     (DorkTitles[1] + name, Google + n + ContactQuery),
     (DorkTitles[2] + name, Google + n + ProfilesQuery),
     (DorkTitles[3] + name, Google + n + ForumQuery),
     (DorkTitles[4] + name, Google + AboutMeQuery + n),
     (DorkTitles[5] + name, Google + n + AcademicQuery),
     (DorkTitles[6] + name, Google + n + PresentationsQuery),
     (DorkTitles[7] + name, Google + n + DirectoriesQuery),
     (DorkTitles[8] + name, Google + EmailPatternQuery + QuotePlus(first) + "+" + QuotePlus(last)),
     (DorkTitles[9] + name, Google + n + NewsQuery)]
  }

  /** The titles of the two dorks written per employer. */
  const EmployerDorkTitles: seq<string> := ["Company Documents - ", "Company Email Format - "]

  /** The `p`-th dork of one employer. */
  function EmployerDork(name: string, employer: string, p: nat): (string, string)
    requires IsAscii(name) && IsAscii(employer) && p < 2
  {
    var e, n := QuotePlus(employer), QuotePlus(name);
    if p == 0 then (EmployerDorkTitles[0] + employer, Google + "site:" + e + "+intext:" + n + CompanyDocumentsQuery)
    else (EmployerDorkTitles[1] + employer, Google + "site:" + e + "+\"@" + e + "\"+email+format")
  }

  /** Two company dorks per employer, in order: row `2 i + p` is the `p`-th
      dork of the `i`-th employer; ModuleFacts.EmployerDorkEntry states the
      URLs. */
  function EmployerDorks(name: string, employers: seq<string>): (r: seq<(string, string)>)
    requires IsAscii(name) && AllAscii(employers)
    ensures |r| == 2 * |employers|
  {
    seq(2 * |employers|, j requires 0 <= j < 2 * |employers| => EmployerDork(name, employers[j / 2], j % 2))
  }

  const SchoolDorkTitle := "School Records - "

  function SchoolDork(name: string, school: string): (string, string)
    requires IsAscii(name) && IsAscii(school)
  {
    (SchoolDorkTitle + school, Google + "site:" + QuotePlus(school) + "+intext:" + QuotePlus(name) + SchoolRecordsQuery)
  }

  /** One records dork per school, in order; ModuleFacts.SchoolDorkEntry
      states the URL. */
  function SchoolDorks(name: string, schools: seq<string>): (r: seq<(string, string)>)
    requires IsAscii(name) && AllAscii(schools)
    ensures |r| == |schools|
  {
    seq(|schools|, j requires 0 <= j < |schools| => SchoolDork(name, schools[j]))
  }

  function DorkRows(s: Subject, name: string): (r: seq<Entry>)
    requires WellFormed(s) && IsAscii(name)
    ensures forall i :: 0 <= i < |r| ==> r[i].1.category == "Google Dorks"
  {
    Tag(FixedDorks(name) + EmployerDorks(name, s.employers) + SchoolDorks(name, s.education),
        "Google Dorks", "Advanced Google search: ")
  }

  /** The dork dictionary of `perform_google_dorking(name)`; the function
      returns its size. */
  function GoogleDorks(s: Subject, name: string): (r: OMap<Target>)
    requires WellFormed(s) && IsAscii(name)
    ensures InCategory(r, "Google Dorks")
  {
    FromPairsCategory(DorkRows(s, name), "Google Dorks");
    FromPairs(DorkRows(s, name))
  }

  // ---------------------------------------------------------------------------
  // search_dark_web_indicators

  const DarkWebSites: seq<(string, string)> := [
    ("DeHashed Search", "https://dehashed.com/search?query="),
    ("BreachDirectory", "https://breachdirectory.org/"),
    ("Intelligence X", "https://intelx.io/"),
    ("Breach Forums Search", "https://breachforums.is/"),
    ("HaveIBeenPwned", "https://haveibeenpwned.com/")
  ]

  /** The five reference pages; ModuleFacts.DarkWebEntries states their URLs
      and info lines. */
  function DarkWebRows(name: string): (r: seq<Entry>)
    ensures |r| == 5
    ensures forall i :: 0 <= i < |r| ==> r[i].1.category == "Data Breach Resources"
  {
    seq(5, i requires 0 <= i < 5 =>
      (DarkWebSites[i].0, Target(DarkWebSites[i].1, "Data Breach Resources",
        "Check " + DarkWebSites[i].0 + " manually for breached data related to " + name)))
  }

  /** The reference pages of `search_dark_web_indicators`. */
  function DarkWebSearches(name: string): (r: OMap<Target>)
    ensures InCategory(r, "Data Breach Resources")
  {
    FromPairsCategory(DarkWebRows(name), "Data Breach Resources");
    FromPairs(DarkWebRows(name))
  }

  const BreachQuery := "+\"data+breach\"+OR+\"leaked\"+OR+\"compromised\"+OR+\"exposed\""
  const LeakQuery := "+\"password\"+\"leak\"+OR+\"credential\"+OR+\"database\""
  const EmailBreachQuery := "+\"breach\"+OR+\"leaked\"+OR+\"compromised\"+OR+\"dump\""
  const PhoneBreachQuery := "+\"breach\"+OR+\"leaked\"+OR+\"compromised\""

  const EmailBreachTitle := "Email Breach - "
  const PhoneBreachTitle := "Phone Breach - "

  function EmailBreach(email: string): (string, string)
    requires IsAscii(email)
  {
    (EmailBreachTitle + email, Google + QuotePlus(email) + EmailBreachQuery)
  }

  /** One breach search per email, in order; ModuleFacts.EmailBreachEntry
      states the URL. */
  function EmailBreaches(emails: seq<string>): (r: seq<(string, string)>)
    requires AllAscii(emails)
    ensures |r| == |emails|
  {
    seq(|emails|, j requires 0 <= j < |emails| => EmailBreach(emails[j]))
  }

  /** The phone's digits, not the number as typed, go into the query. */
  function PhoneBreach(phone: string): (string, string) {
    (PhoneBreachTitle + phone, Google + Digits(phone) + PhoneBreachQuery)
  }

  /** One breach search per phone, in order; ModuleFacts.PhoneBreachEntry
      states the URL. */
  function PhoneBreaches(phones: seq<string>): (r: seq<(string, string)>)
    ensures |r| == |phones|
  {
    seq(|phones|, j requires 0 <= j < |phones| => PhoneBreach(phones[j]))
  }

  /** The titles of the two name searches for breach indicators. */
  const BreachTitles: seq<string> := ["Data Breach Indicators - ", "Credential Leaks - "]

  /** The two name searches for breach indicators. */
  function BreachNamePairs(name: string): (r: seq<(string, string)>)
    requires IsAscii(name)
    ensures |r| == 2
  {
    var n := QuotePlus(name);
    [(BreachTitles[0] + name, Google + n + BreachQuery), (BreachTitles[1] + name, Google + n + LeakQuery)]
  }

  function BreachRows(s: Subject): (r: seq<Entry>)
    requires WellFormed(s)
    ensures forall i :: 0 <= i < |r| ==> r[i].1.category == "Data Breach Indicators"
  {
    Tag(BreachNamePairs(s.name) + EmailBreaches(s.emails) + PhoneBreaches(s.phones),
        "Data Breach Indicators", "Search for breach indicators: ")
  }

  /** The breach-indicator dictionary of `search_dark_web_indicators`. */
  function BreachIndicators(s: Subject): (r: OMap<Target>)
    requires WellFormed(s)
    ensures InCategory(r, "Data Breach Indicators")
  {
    FromPairsCategory(BreachRows(s), "Data Breach Indicators");
    FromPairs(BreachRows(s))
  }

  // ---------------------------------------------------------------------------
  // search_archived_content

  /** The set of domains taken from the emails that contain an `@` (the
      domain may be empty). */
  function EmailDomains(emails: seq<string>): set<string> {
    set i | 0 <= i < |emails| && '@' in emails[i] :: EmailDomain(emails[i])
  }

  /** `order` lists the elements of `d`, each once: one of the orders in
      which Python may iterate the set. */
  predicate Enumerates(order: seq<string>, d: set<string>) {
    NoDup(order) && (set i | 0 <= i < |order| :: order[i]) == d
  }

  /** Three archive searches per username, in order; ArchiveFacts.ArchiveKeys
      counts them with the rest of the archive dictionary. */
  function UsernameArchives(usernames: seq<string>): (r: seq<(string, string)>)
    requires AllAscii(usernames)
    ensures |r| == 3 * |usernames|
  {
    if usernames == [] then []
    else
      var u := usernames[0];
      var q := QuotePlus(u);
      [("Wayback - Twitter/" + u, "https://web.archive.org/web/*/twitter.com/" + q),
       ("Wayback - Instagram/" + u, "https://web.archive.org/web/*/instagram.com/" + q),
       ("Wayback - Facebook/" + u, "https://web.archive.org/web/*/facebook.com/" + q)]
      + UsernameArchives(usernames[1..])
  }

  /** Two archive searches per domain, in the order given. The domain goes
      into the URL unencoded; ArchiveFacts.ArchiveDomainEntry states the
      URLs. */
  function DomainArchives(order: seq<string>): (r: seq<(string, string)>)
    ensures |r| == 2 * |order|
  {
    if order == [] then []
    else DomainArchivePair(order[0]) + DomainArchives(order[1..])
  }

  /** The display-name and URL prefixes of the two searches of a domain. */
  const DomainSites: seq<(string, string)> := [
    ("Wayback - ", "https://web.archive.org/web/*/"),
    ("Archive.today - ", "https://archive.ph/domain/")
  ]

  function DomainArchivePair(d: string): (r: seq<(string, string)>)
    ensures |r| == 2
  {
    seq(2, i requires 0 <= i < 2 => (DomainSites[i].0 + d, DomainSites[i].1 + d))
  }

  function ArchiveRows(s: Subject, order: seq<string>): (r: seq<Entry>)
    requires WellFormed(s)
    ensures forall i :: 0 <= i < |r| ==> r[i].1.category == "Web Archives"
  {
    Tag(ArchiveFixedPairs(s) + DomainArchives(order), "Web Archives", ArchiveInfo)
  }

  const ArchiveInfo := "Archived content search: "

  /** The name searches and the username searches, before the domains. */
  function ArchiveFixedPairs(s: Subject): (r: seq<(string, string)>)
    requires WellFormed(s)
  {
    var n := QuotePlus(s.name);
    [("Wayback Machine Name Search", "https://web.archive.org/web/*/" + n),
     ("Archive.today Name Search", "https://archive.ph/?q=" + n)]
    + UsernameArchives(s.usernames)
  }

  /** The archive dictionary of `search_archived_content`, with the email
      domains visited in `order`. */
  function ArchiveSearches(s: Subject, order: seq<string>): (r: OMap<Target>)
    requires WellFormed(s) && Enumerates(order, EmailDomains(s.emails))
    ensures InCategory(r, "Web Archives")
  {
    FromPairsCategory(ArchiveRows(s, order), "Web Archives");
    FromPairs(ArchiveRows(s, order))
  }

  // ---------------------------------------------------------------------------
  // search_professional_networks

  const LinkedInAdvancedQuery := "site:linkedin.com+inurl:in+OR+inurl:pub+-inurl:dir+"
  const SpeakerQuery := "+\"speaker\"+OR+\"presenter\"+OR+\"panelist\"+filetype:pdf"
  const BioQuery := "+\"biography\"+OR+\"profile\"+OR+\"about\""

  /** The seven fixed professional searches. */
  const ProfessionalNames: seq<string> := [
    "LinkedIn Advanced", "GitHub Profile", "GitLab Profile", "Medium Articles",
    "SlideShare Presentations", "Speaker Deck", "Conference Speakers"
  ]

  function FixedProfessional(name: string): (r: seq<(string, string)>)
    requires IsAscii(name)
    ensures |r| == 7
  {
    var n := QuotePlus(name);
    [(ProfessionalNames[0], Google + LinkedInAdvancedQuery + n),
     (ProfessionalNames[1], "https://github.com/search?q=" + n + "&type=users"),
     (ProfessionalNames[2], Google + "site:gitlab.com+" + n),
     (ProfessionalNames[3], "https://medium.com/search?q=" + n),
     (ProfessionalNames[4], "https://www.slideshare.net/search/slideshow?q=" + n),
     (ProfessionalNames[5], "https://speakerdeck.com/search?q=" + n),
     (ProfessionalNames[6], Google + n + SpeakerQuery)]
  }

  /** The titles of the two searches written per employer. */
  const CompanyTitles: seq<string> := ["Company Connection - ", "Corporate Bio - "]

  /** The `p`-th professional search of one employer. */
  function CompanySearch(name: string, employer: string, p: nat): (string, string)
    requires IsAscii(name) && IsAscii(employer) && p < 2
  {
    var e, n := QuotePlus(employer), QuotePlus(name);
    if p == 0 then (CompanyTitles[0] + employer, Google + "site:linkedin.com+" + n + "+" + e)
    else (CompanyTitles[1] + employer, Google + "site:" + e + "+" + n + BioQuery)
  }

  /** Two searches per employer, in order: row `2 i + p` is the `p`-th
      search of the `i`-th employer; ModuleFacts.CompanyEntry states the
      URLs. */
  function CompanyProfessional(name: string, employers: seq<string>): (r: seq<(string, string)>)
    requires IsAscii(name) && AllAscii(employers)
    ensures |r| == 2 * |employers|
  {
    seq(2 * |employers|, j requires 0 <= j < 2 * |employers| => CompanySearch(name, employers[j / 2], j % 2))
  }

  function ProfessionalRows(s: Subject): (r: seq<Entry>)
    requires WellFormed(s)
    ensures forall i :: 0 <= i < |r| ==> r[i].1.category == "Professional Networks"
  {
    Tag(FixedProfessional(s.name) + CompanyProfessional(s.name, s.employers),
        "Professional Networks", "Professional information search: ")
  }

  /** The dictionary of `search_professional_networks`. */
  function ProfessionalSearches(s: Subject): (r: OMap<Target>)
    requires WellFormed(s)
    ensures InCategory(r, "Professional Networks")
  {
    FromPairsCategory(ProfessionalRows(s), "Professional Networks");
    FromPairs(ProfessionalRows(s))
  }
}
