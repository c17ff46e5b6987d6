# OSINT search catalog, modelled in Dafny

`osinttool.py` takes a description of a person and builds a catalog of search
URLs: an insertion-ordered dictionary from a display name to a record
`{url, category, info}`. Every generator (social media, people directories,
e-mail, phone, username, employer, school, relative, reverse image, and the
module-level dorking, breach, archive and professional generators) builds a
local dictionary of URLs and copies it into the catalog. Afterwards
`search_person` counts the entries, renders a text report
grouped by category, and opens the first few entries in a browser, one per
category first.

The model follows that structure module by module:

- `Strings`, `Quote`, `Repr`: the string primitives the generators and the
  report use, over ASCII text. These are `lower`/`upper`, digit filtering
  (`re.sub(r'\D', '', …)`), `strip`, `split()`/`split(',')`, the last piece
  after `@`, decimal printing, `quote_plus` with its inverse, and Python's
  `repr` of strings, lists and dictionaries.
- `OrderedMap`: a Python dictionary as a value, a key sequence plus a map.
  `Put` is `d[k] = v`: it replaces the value, keeps the key's position, or
  appends a new key. `FromPairs` is a dictionary literal and `Items` is
  `.items()`.
- `Subjects`: the subject record (`subject_info`), the order in which each
  input path inserts its keys, comma-list parsing, format normalisation and
  the yes/no answers.
- `Catalog`: the search record `Target` and the class `ResultCatalog`. This
  is the shared `search_results` dictionary, updated in place.
- `Generators`: every generator's local dictionary as a function of the
  subject.
- `GeneratorFacts`, `AttributeFacts`, `ModuleFacts`, `ArchiveFacts`: the
  facts about each dictionary's keys, URLs, info lines and size.
  `GeneratorFacts` covers the social, directory, e-mail and phone
  generators. `AttributeFacts` covers the username, employer, school,
  relative and image generators. `ModuleFacts` covers dorking, breach
  indicators and professional networks. `ArchiveFacts` covers the archives.
- `Grouping`: the loop that groups the catalog by category, and its
  definition by first-seen categories and per-category members.
- `Render`: the text report `save_results` writes, as a pure function.
- `Browser`: the two-pass tab selection of `open_results_in_browser`, as the
  two loops and as the function they are proved to compute.
- `Plans`: the complete write sequence each orchestration performs, and the
  facts about it (categories, counts).
- `Searcher`: the class `OSINTSearcher`, which models
  `EnhancedOSINTSearcher`. It has one method per generator, both
  `search_person` orchestrations, `save_results` and
  `open_results_in_browser`.

The module-level functions at osinttool.py:568-838 take `self`, but they are
never attached to the class: the class body ends at osinttool.py:565. So the
`search_person` that `main` calls is the class one, which never runs the
dorking, breach, archive or professional generators. Both orchestrations
are modelled. `Plans.ClassSearchOmitsModuleGenerators` states the
consequence, and `Plans.ModuleSearchCoversClass` relates the two.

## Model

| member | source | states |
|---|---|---|
| Strings.Lower | osinttool.py:99 | `str.lower()` keeps the length, maps each upper-case letter to lower case and keeps every other character |
| Strings.LowerIdempotent | osinttool.py:99 | lower-casing twice is the same as lower-casing once |
| Strings.Upper | osinttool.py:501 | `str.upper()` keeps the length, maps each lower-case letter to upper case and keeps every other character |
| Strings.ReplaceChar | osinttool.py:219 | `replace(a, b)` keeps the length, changes exactly the occurrences of `a` and leaves no `a` behind |
| Strings.Digits | osinttool.py:327 | phone cleaning yields only digits and is never longer than its input |
| Strings.DigitsIdempotent | osinttool.py:327 | cleaning a cleaned phone number changes nothing |
| Strings.DigitsFixpoint | osinttool.py:327 | cleaning leaves a string unchanged exactly when it is all digits |
| Strings.DigitsKeepsEveryDigit | osinttool.py:327 | every digit occurs in the cleaned string as often as in the input |
| Strings.DigitsConcat | osinttool.py:327 | cleaning distributes over concatenation, so digits keep their order |
| Strings.Strip | osinttool.py:37 | `strip()` returns a piece with no leading or trailing white space, never longer than the input |
| Strings.TrimLeft | osinttool.py:37 | the left trim removes exactly a prefix of white space and stops at a non-space |
| Strings.TrimRight | osinttool.py:37 | the right trim removes exactly a suffix of white space and stops at a non-space |
| Strings.StripIdempotent | osinttool.py:55 | stripping twice is stripping once |
| Strings.StripSubset | osinttool.py:55 | every character of the stripped text occurs in the input |
| Strings.TakeWord | osinttool.py:251 | a word is the longest space-free prefix |
| Strings.Words | osinttool.py:251 | `split()` never yields more words than the text has characters |
| Strings.WordsBlank | osinttool.py:251 | `split()` yields no word exactly when the text is all white space |
| Strings.WordsAreWords | osinttool.py:251 | every piece of `split()` is non-empty and contains no white space |
| Strings.WordsConcat | osinttool.py:251 | the pieces of `split()` concatenate to the input with its white space removed |
| Strings.SplitOn | osinttool.py:55 | `split(sep)` yields at least one piece and no piece contains the separator |
| Strings.JoinSplit | osinttool.py:55 | joining the pieces of `split(sep)` with `sep` gives back the input |
| Strings.SplitJoin | osinttool.py:55 | splitting a join of separator-free pieces gives back the pieces |
| Strings.SplitOnCount | osinttool.py:55 | `split(sep)` yields one piece more than there are separators |
| Strings.LastPiece | osinttool.py:312 | `split(sep)[-1]` contains no separator |
| Strings.LastPieceSuffix | osinttool.py:312 | `split('@')[-1]` is the suffix after the last `@` and contains no `@`; it is shorter than the input exactly when an `@` occurs |
| Strings.Decimal | osinttool.py:478 | decimal printing yields digits with no leading zero |
| Strings.DecimalRoundTrip | osinttool.py:478 | reading the printed decimal back gives the number |
| Quote.HexRoundTrip | osinttool.py:208 | the value of an upper-case hex digit is the digit's value |
| Quote.EncodeChar | osinttool.py:208 | one encoded character is itself or a three-character escape, all URL-safe |
| Quote.QuotePlus | osinttool.py:208 | `quote_plus` output holds only unreserved characters, `%` and `+` and is never shorter than its input |
| Quote.QuotePlusRoundTrip | osinttool.py:208 | decoding `quote_plus` output gives back the input |
| Quote.QuotePlusInjective | osinttool.py:208 | distinct inputs encode to distinct outputs |
| Quote.QuotePlusConcat | osinttool.py:208 | encoding distributes over concatenation |
| Quote.QuotePlusIdentity | osinttool.py:208 | encoding changes nothing exactly when every character is unreserved |
| Repr.QuoteOf | osinttool.py:486 | `repr` quotes with `"` exactly when the text contains `'` and no `"` |
| Repr.EscapeChar | osinttool.py:486 | an escaped character has no control character and is one character long only when unchanged |
| Repr.Escape | osinttool.py:486 | the escaped body of a string holds no control character and is never shorter |
| Repr.StrRepr | osinttool.py:486 | `repr(s)` is one line, free of control characters, opened and closed by the chosen quote |
| Repr.UnescapeEscape | osinttool.py:486 | unescaping an escaped body gives back the text |
| Repr.StrReprRoundTrip | osinttool.py:486 | reading a `repr` back gives the string |
| Repr.StrReprInjective | osinttool.py:486 | distinct strings have distinct `repr`s |
| Repr.StrReprPlain | osinttool.py:486 | text without quotes, backslashes or control characters is shown between single quotes unchanged |
| Repr.StrReprPrefix | osinttool.py:486 | a `repr` followed by anything can be split back uniquely: equal texts that start with two `repr`s start with the same one |
| Repr.ListStrInjective | osinttool.py:486 | distinct lists of strings print differently, so the report line of a list determines the list |
| Repr.DictStrInjective | osinttool.py:486 | distinct dictionaries of strings print differently, so the `Birth` line determines the birth record |
| Repr.ListStr | osinttool.py:486 | `str(list)` is one ASCII line between `[` and `]` |
| Repr.DictStr | osinttool.py:486 | `str(dict)` is one ASCII line between `{` and `}` |
| OrderedMap.Empty | osinttool.py:17 | `{}` has no keys |
| OrderedMap.Put | osinttool.py:209 | `d[k] = v` stores `v` under `k`, leaves every other key and value alone, keeps the key order when `k` is present and appends `k` otherwise |
| OrderedMap.PutAll | osinttool.py:207-213 | a run of writes keeps the old keys in front and holds exactly the old keys plus the written ones |
| OrderedMap.FromPairs | osinttool.py:188-197 | a dictionary literal holds exactly its distinct keys |
| OrderedMap.Items | osinttool.py:446 | `.items()` lists the pairs in key order |
| OrderedMap.PutAllAppend | osinttool.py:207-213 | writing `s` then `t` is writing `s + t` |
| OrderedMap.PutAllLastWrite | osinttool.py:316-322 | the last write to a key decides its value |
| OrderedMap.PutAllConsistent | osinttool.py:316-322 | a key written only with one value ends with that value |
| OrderedMap.PutAllUntouched | osinttool.py:316-322 | a key not written keeps its value |
| OrderedMap.PutAllValueFrom | osinttool.py:316-322 | every value after the writes is the old value or one of the written pairs |
| OrderedMap.PutAllCount | osinttool.py:170 | the number of keys after the writes is the number of distinct old and written keys, not the number of writes |
| OrderedMap.PutAllFreshKeys | osinttool.py:207-213 | writing distinct new keys appends them in writing order |
| OrderedMap.FromPairsDistinct | osinttool.py:188-197 | a literal with distinct keys keeps their order and values |
| OrderedMap.ItemsRoundTrip | osinttool.py:446 | rebuilding a dictionary from its `.items()` gives the same dictionary |
| OrderedMap.NoDupCard | osinttool.py:170 | distinct keys are as many as the key list is long |
| Subjects.Select | osinttool.py:482 | the stored keys of a record are exactly the given keys that are present, in order |
| Subjects.InfoKeys | osinttool.py:482 | `subject_info` starts with `name` and holds exactly the present keys of its input path |
| Subjects.ParseList | osinttool.py:53-85 | a comma list is empty exactly when the answer is blank; its items are comma-free and stripped |
| Subjects.ParseListPieces | osinttool.py:55 | a non-blank answer yields one stripped item per comma-separated piece |
| Subjects.ParseListRoundTrip | osinttool.py:55 | parsing a join of stripped, comma-free items gives back the items |
| Subjects.NormalizeFormat | osinttool.py:99-102 | the format is `json` or `txt`, and `txt` exactly when the stripped, lower-cased answer is `txt` |
| Subjects.NormalizeFormatIdempotent | osinttool.py:99-102 | normalising a normalised format changes nothing |
| Subjects.WantsBrowser | osinttool.py:105-106 | the browser preference holds exactly when the stripped answer is `y` or `Y` |
| Subjects.Confirms | osinttool.py:524-527 | the confirmation holds exactly when the raw answer is `y` or `Y` |
| Subjects.ConfirmsImpliesWantsBrowser | osinttool.py:524-527 | an answer that confirms opening the tabs also sets the browser preference |
| Subjects.PaddedYesNotConfirmed | osinttool.py:524-527 | `" y"` sets the preference but does not confirm, since the confirmation is not stripped |
| Catalog.ResultCatalog.constructor | osinttool.py:17 | the catalog starts empty |
| Catalog.ResultCatalog.Count | osinttool.py:170 | `len(search_results)` is the number of distinct keys |
| Catalog.ResultCatalog.Put | osinttool.py:209 | one write updates the catalog as a dictionary assignment |
| Catalog.ResultCatalog.PutAll | osinttool.py:207-213 | copying a local dictionary writes its items in order |
| Generators.Tag | osinttool.py:207-213 | each written record carries the generator's category and its info text |
| Generators.FromPairsCategory | osinttool.py:207-213 | every record of a generator dictionary has the generator's category |
| Generators.NameSlug | osinttool.py:219 | the slug has the name's length, no spaces, no upper case, and spaces become `-` |
| Generators.FirstLast | osinttool.py:251-260 | two or more words give the first and the last word; fewer give the whole name twice; ASCII in, ASCII out |
| Generators.EmailDomain | osinttool.py:312-314 | the domain is the suffix after the last `@`, contains no `@`, and is the whole text when there is no `@` |
| Generators.SocialFixedRows | osinttool.py:188-197 | there are eight fixed platforms |
| Generators.UsernameProfileRows | osinttool.py:200-204 | three profile entries per username, all Social Media |
| Generators.SocialMediaSearches | osinttool.py:184-214 | every social entry has category Social Media |
| Generators.SearchTerm | osinttool.py:222-230 | the term is the name, then ` born ` and the date when a date is given, then a space and the place when a place is given |
| Generators.PersonFinderRows | osinttool.py:239-278 | eight people finders, all People Directories |
| Generators.PersonFinderSearches | osinttool.py:239-278 | every finder entry has category People Directories |
| Generators.PublicRecordRows | osinttool.py:281-300 | five public-record searches, all Public Records |
| Generators.PublicRecordSearches | osinttool.py:281-300 | every record entry has category Public Records |
| Generators.EmailRows | osinttool.py:304-314 | five e-mail searches when the address has a non-empty domain and four otherwise, all Email, all with the info line naming the address |
| Generators.EmailSearches | osinttool.py:302-322 | every e-mail entry has category Email |
| Generators.PhoneRows | osinttool.py:324-342 | four phone searches, all Phone |
| Generators.PhoneSearches | osinttool.py:324-342 | every phone entry has category Phone |
| Generators.UsernameRows | osinttool.py:344-361 | six username searches, all Username |
| Generators.UsernameSearches | osinttool.py:344-361 | every username entry has category Username; AttributeFacts.UsernameSearchKeys and UsernameSearchUrls state its keys and URLs |
| Generators.EmployerRows | osinttool.py:363-379 | three employer searches, all Employment |
| Generators.EmployerSearches | osinttool.py:363-379 | every employer entry has category Employment; AttributeFacts.EmployerSearchKeys and EmployerSearchUrls state its keys and URLs |
| Generators.EducationRows | osinttool.py:381-397 | three school searches, all Education |
| Generators.EducationSearches | osinttool.py:381-397 | every school entry has category Education; AttributeFacts.EducationSearchKeys and EducationSearchUrls state its keys and URLs |
| Generators.RelativeRows | osinttool.py:399-414 | two relative searches, all Relatives |
| Generators.RelativeSearches | osinttool.py:399-414 | every relative entry has category Relatives; AttributeFacts.RelativeSearchUrls states its keys and URLs |
| Generators.ImageRows | osinttool.py:416-432 | four reverse-image services, all Image Search |
| Generators.ImageSearches | osinttool.py:416-432 | every reverse-image entry has category Image Search; AttributeFacts.ImageSearchUrls states its keys and URLs |
| Generators.EmployerDorks | osinttool.py:600-604 | two dorks per employer |
| Generators.SchoolDorks | osinttool.py:606-609 | one dork per school |
| Generators.FixedDorks | osinttool.py:586-597 | ten fixed dorks |
| Generators.GoogleDorks | osinttool.py:586-620 | every dork entry has category Google Dorks; ModuleFacts.DorkCount and the dork entry lemmas state its keys, URLs and size |
| Generators.DarkWebRows | osinttool.py:630-645 | five breach resources, all Data Breach Resources |
| Generators.DarkWebSearches | osinttool.py:630-645 | every breach resource has category Data Breach Resources; ModuleFacts.DarkWebEntries states its keys and URLs |
| Generators.EmailBreaches | osinttool.py:654-657 | one breach search per e-mail |
| Generators.PhoneBreaches | osinttool.py:660-663 | one breach search per phone |
| Generators.BreachIndicators | osinttool.py:648-672 | every breach indicator has category Data Breach Indicators; ModuleFacts.BreachCount and the breach entry lemmas state its keys, URLs and size |
| Generators.UsernameArchives | osinttool.py:690-695 | three archive searches per username |
| Generators.DomainArchives | osinttool.py:705-707 | two archive searches per domain |
| Generators.ArchiveSearches | osinttool.py:676-718 | every archive entry has category Web Archives |
| Generators.CompanyProfessional | osinttool.py:739-743 | two professional searches per employer |
| Generators.ProfessionalSearches | osinttool.py:728-752 | every professional entry has category Professional Networks; ModuleFacts.ProfessionalCount and the professional entry lemmas state its keys, URLs and size |
| GeneratorFacts.EmailSearchKeys | osinttool.py:304-314 | the e-mail generator writes the four fixed keys, then `Domain Lookup (d)` exactly when an `@` occurs and the text after the last one is non-empty |
| GeneratorFacts.EmailKeysDistinct | osinttool.py:304-314 | the five e-mail key names are distinct |
| GeneratorFacts.DomainLookupUrl | osinttool.py:312-314 | the domain lookup searches Google for the encoded domain plus `company information` |
| GeneratorFacts.SocialKeyCount | osinttool.py:188-213 | the social generator writes 8 + 3 × (distinct usernames) keys |
| GeneratorFacts.SocialFixedEntries | osinttool.py:188-213 | the first eight keys are the fixed platforms in order, each with its template applied to the encoded name |
| GeneratorFacts.SocialProfileUrl | osinttool.py:200-204 | each username's Twitter, Instagram and TikTok entries point at the profile URL built from the unencoded username |
| GeneratorFacts.PersonFinderKeys | osinttool.py:239-278 | the finder keys are the eight sites in table order |
| GeneratorFacts.TruePeopleSearchUrl | osinttool.py:263-271 | TruePeopleSearch gets `&citystatezip=` plus the encoded first address exactly when there is one |
| GeneratorFacts.MyLifeEntry | osinttool.py:250-260 | MyLife searches the encoded first and last word of the name when it has two or more words, and the encoded whole name twice otherwise |
| GeneratorFacts.FinderAddressIndependent | osinttool.py:233-278 | no finder entry other than TruePeopleSearch depends on the addresses |
| GeneratorFacts.PublicRecordKeys | osinttool.py:281-300 | the public-record keys are the five searches in table order |
| GeneratorFacts.PropertyRecordsUrl | osinttool.py:284-291 | Property Records gets `+` and the encoded first address exactly when there is one |
| GeneratorFacts.PublicRecordsTerm | osinttool.py:222-282 | the Google public-records search is the encoded name, then `+born+` and the encoded date when given, then `+` and the encoded place when given, then `+public+records` |
| GeneratorFacts.SearchTermEncoded | osinttool.py:222-230 | encoding the search term encodes the name, the date and the place separately, with each space as `+` |
| GeneratorFacts.RecordAddressIndependent | osinttool.py:233-300 | no record entry other than Property Records depends on the addresses |
| GeneratorFacts.PhoneSearchKeys | osinttool.py:329-334 | the four phone keys are written with their table records |
| GeneratorFacts.PhoneSearchUrls | osinttool.py:327-334 | three phone URLs use the cleaned digits, the Google one uses the encoded raw phone |
| GeneratorFacts.PhoneSpellings | osinttool.py:327-334 | two spellings of one number agree on the digit URLs and differ on the Google URL |
| GeneratorFacts.PhoneExample | osinttool.py:327 | `(555) 123-4567` and `5551234567` both clean to `5551234567` |
| AttributeFacts.UsernameSearchKeys | osinttool.py:344-361 | the username generator writes its six names in table order, each once, with its table record |
| AttributeFacts.UsernameSearchUrls | osinttool.py:344-361 | six entries; KnowEm, NameChk, GitHub, Twitter, Instagram and Google each get the encoded username in their URL; every info line names the username |
| AttributeFacts.EmployerSearchKeys | osinttool.py:363-379 | the employer generator writes its three names in table order, each once |
| AttributeFacts.EmployerSearchUrls | osinttool.py:363-379 | three entries; the directory, LinkedIn and contact searches combine the encoded employer and name; the info line names both |
| AttributeFacts.EducationSearchKeys | osinttool.py:381-397 | the school generator writes its three names in table order, each once |
| AttributeFacts.EducationSearchUrls | osinttool.py:381-397 | three entries; the alumni, yearbook and graduation searches combine the encoded school and name; the info line names both |
| AttributeFacts.RelativeSearchUrls | osinttool.py:399-414 | the family search puts the encoded subject first, the social search the encoded relative; the info line names both |
| AttributeFacts.ImageSearchUrls | osinttool.py:416-432 | the four fixed upload pages in table order; the photo path appears only in the info line |
| ModuleFacts.DorkCount | osinttool.py:586-620 | the dork keys are the ten fixed names plus two per distinct employer and one per distinct school, so the count is 10 + 2 × employers + schools |
| ModuleFacts.DorkFixedEntries | osinttool.py:586-597 | the ten fixed dorks come first in literal order, each with its URL and the info line `Advanced Google search: ` plus its name |
| ModuleFacts.DorkFixedEntry | osinttool.py:586-617 | the `i`-th fixed dork keeps its place and its URL |
| ModuleFacts.EmailPatternsDork | osinttool.py:573-595 | the Email Patterns dork searches the encoded first and last word, or the encoded name twice for a one-word name |
| ModuleFacts.EmployerDorkEntry | osinttool.py:600-604 | each employer gets its two dorks, however often it is listed: Company Documents carries the encoded employer and name; Company Email Format carries only the encoded employer |
| ModuleFacts.SchoolDorkEntry | osinttool.py:606-609 | each school gets its School Records dork with the encoded school and name |
| ModuleFacts.DarkWebEntries | osinttool.py:630-645 | the five reference pages in literal order, each with its fixed URL and the info line naming the page and the subject |
| ModuleFacts.BreachCount | osinttool.py:648-672 | the breach indicators are the two name searches plus one per distinct e-mail and one per distinct phone |
| ModuleFacts.BreachNameEntries | osinttool.py:648-651 | the two name searches come first, in order, with the encoded name |
| ModuleFacts.EmailBreachEntry | osinttool.py:654-657 | each e-mail gets its breach search with the encoded e-mail |
| ModuleFacts.PhoneBreachEntry | osinttool.py:660-663 | each phone gets its breach search, named by the phone as typed and searching its digits |
| ModuleFacts.DarkWebIndicatorCount | osinttool.py:622-674 | the returned count is 7 + distinct e-mails + distinct phones |
| ModuleFacts.ProfessionalCount | osinttool.py:728-754 | the professional searches are the seven fixed ones plus two per distinct employer |
| ModuleFacts.ProfessionalFixedEntry | osinttool.py:728-752 | the seven fixed searches come first, in literal order, with their URLs |
| ModuleFacts.FixedProfessionalUrls | osinttool.py:728-736 | each of the seven fixed URLs carries the encoded name |
| ModuleFacts.CompanyEntry | osinttool.py:739-743 | each employer gets its Company Connection and Corporate Bio searches with the encoded name and employer |
| ArchiveFacts.ArchiveKeys | osinttool.py:698-707 | the archive keys are the fixed ones plus exactly two per distinct domain |
| ArchiveFacts.ArchiveDomainEntry | osinttool.py:705-707 | each domain gets its Wayback and Archive.today entries with the domain's URLs |
| ArchiveFacts.ArchiveOrderIrrelevant | osinttool.py:698-707 | the set iteration order changes neither the records nor their number |
| ArchiveFacts.ArchiveSameEntry | osinttool.py:698-707 | a key has the same record under every iteration order |
| ArchiveFacts.ArchiveFixedEntry | osinttool.py:684-695 | a key that is not a domain key is one of the name or username archive entries |
| ArchiveFacts.EmptyDomainArchived | osinttool.py:698-707 | an e-mail ending in `@` gets no domain lookup but does get a `Wayback - ` entry for the empty domain |
| Grouping.Categories | osinttool.py:492-497 | the categories are distinct and are exactly those that occur |
| Grouping.Members | osinttool.py:492-497 | a category's members are catalog entries of that category |
| Grouping.GroupsOf | osinttool.py:492-497 | each group pairs a category with its members |
| Grouping.Groups | osinttool.py:492-497 | one group per first-seen category, in that order, holding the category's members; never more groups than records |
| Grouping.GroupByCategory | osinttool.py:492-497 | the grouping loop builds a dictionary whose keys are the first-seen categories and whose lists are the members in catalog order |
| Grouping.OccursSnoc | osinttool.py:492-497 | a category occurs after an entry exactly when it occurred before or is that entry's |
| Grouping.CategoriesSnoc | osinttool.py:495-496 | a new category is added at the end, a known one changes nothing |
| Grouping.MembersSnoc | osinttool.py:497 | an entry is appended to its own category's list only |
| Grouping.GroupsPartition | osinttool.py:492-497 | the groups together are a permutation of the catalog |
| Grouping.GroupsSize | osinttool.py:492-497 | group sizes sum to the catalog size |
| Grouping.GroupsArePermutation | osinttool.py:492-497 | the entries of the groups, in order, are a permutation of the catalog entries |
| Grouping.CategoriesPrefix | osinttool.py:492-497 | categories are listed in first-seen order: a prefix of the catalog yields a prefix of the categories |
| Grouping.NewCategoryPosition | osinttool.py:492-497 | an entry whose category has not been seen yet puts that category at the next position |
| Grouping.MembersPrefix | osinttool.py:492-497 | members keep catalog order: a prefix of the catalog yields a prefix of each group |
| Grouping.GroupsNonEmpty | osinttool.py:492-497 | every group is non-empty and holds only its own category |
| Grouping.MembersPresent | osinttool.py:492-497 | an occurring category has members |
| Grouping.MembersComplete | osinttool.py:492-497 | every catalog entry is in its category's group |
| Render.Capitalize | osinttool.py:486 | `capitalize()` upper-cases the first character and lower-cases the rest |
| Render.Header | osinttool.py:476-478 | the header opens with the title naming the subject and the date line and closes with the count line and a blank line |
| Render.Heading | osinttool.py:500-501 | a category heading shows the upper-cased category and its size, then the 40-dash rule |
| Render.Block | osinttool.py:503-506 | a record block opens with the bullet and the display name, then the URL, and closes with the info and a blank line |
| Render.Preamble | osinttool.py:476-490 | everything before the first category starts with the header and the subject title and ends with the SEARCH RESULTS title; Render.SubjectBlockOrder states the subject lines between them |
| Render.TextReport | osinttool.py:476-507 | the report starts with the preamble; an empty catalog writes nothing after it; otherwise the first section is the first record's category |
| Render.HeaderBullets | osinttool.py:476-478 | the header holds no bullet |
| Render.HeadingBullets | osinttool.py:500-501 | a category heading holds no bullet |
| Render.BlockBullets | osinttool.py:503-506 | a record block holds exactly one bullet |
| Render.ReportBullets | osinttool.py:476-507 | the report has one bullet per catalog entry |
| Render.ReportListsCategory | osinttool.py:500-502 | the report shows each category's heading with its size |
| Render.ReportListsEntry | osinttool.py:503-507 | the report shows each catalog entry's block |
| Render.BlocksBullets | osinttool.py:503-507 | the blocks of a group have one bullet per entry |
| Render.SectionsBullets | osinttool.py:500-507 | the sections have one bullet per grouped entry |
| Render.PreambleBullets | osinttool.py:476-490 | nothing before the first heading carries a bullet |
| Render.InfoLinesAppend | osinttool.py:482-486 | the subject lines of two key lists written one after the other are the lines of the joined list |
| Render.InfoLineInLines | osinttool.py:482-486 | every key of the list has its line in the subject lines |
| Render.SubjectBlockOrder | osinttool.py:480-490 | the preamble writes one line per present subject key, in key order, between the SUBJECT INFORMATION and SEARCH RESULTS titles |
| Render.ReportListsSubjectField | osinttool.py:482-486 | every present subject field has its line (`Photo: path`, or the capitalised key and `str(value)`) in the report |
| Render.ReportLayout | osinttool.py:476-507 | the report is the preamble followed by the sections of the groups |
| Render.SectionsAppend | osinttool.py:500-507 | the sections of two group lists written one after the other are the sections of the joined list |
| Render.ReportSectionOrder | osinttool.py:500-507 | the sections appear in the first-seen order of their categories |
| Browser.Heads | osinttool.py:538-546 | the first pass takes the first entry of each group, in group order |
| Browser.Take | osinttool.py:538-561 | stopping at the limit keeps a prefix of at most the limit |
| Browser.Budget | osinttool.py:538-561 | the budget is the least count at which `opened >= limit` holds |
| Browser.Selection | osinttool.py:538-561 | the tabs are a prefix of the candidates, never more than the budget, and all of them when the budget is not reached |
| Browser.Decide | osinttool.py:514-561 | nothing for an empty catalog, cancelled exactly for a non-empty catalog and a refused prompt; otherwise at most the budget of tabs, with a limit message exactly when 0 ≤ limit < N |
| Browser.HeadsTailsPermutation | osinttool.py:538-561 | the first entries then the remaining entries are a permutation of the groups |
| Browser.CandidatesArePermutation | osinttool.py:530-561 | the two passes would visit every catalog entry once |
| Browser.SelectionSize | osinttool.py:538-561 | the number of tabs opened is min(limit, N), counting a negative limit as 0 |
| Browser.SelectionFromCatalog | osinttool.py:538-561 | every opened tab is a catalog entry |
| Browser.SelectionFirstPass | osinttool.py:538-546 | the first min(limit, #categories) tabs are the first record of each category, in category order; when the limit is at most #categories nothing else is opened |
| Browser.SelectionDistinct | osinttool.py:538-561 | no key is opened twice |
| Browser.BrowserPolicy | osinttool.py:514-565 | no tabs when the catalog is empty; cancelled when unconfirmed; otherwise min(limit, N) distinct catalog entries, all of them when N ≤ limit, the first record of each category opened before any second record, and N − opened reported as not opened exactly when 0 ≤ limit < N |
| Browser.OpenFirsts | osinttool.py:538-546 | the first loop opens the first entries of the groups up to the limit |
| Browser.OpenRest | osinttool.py:549-561 | the second loop completes the selection |
| Browser.OpenTail | osinttool.py:553-558 | the inner loop opens one group's remaining entries up to the limit |
| Plans.FieldBatches | osinttool.py:129-168 | one write batch per list item, in list order |
| Plans.ClassBatches | osinttool.py:110-168 | the class orchestration makes two opening calls, one call per list item and one for the photo |
| Plans.ModuleBatches | osinttool.py:756-838 | the module orchestration makes four calls more than the class one |
| Plans.ModuleBatchesInsert | osinttool.py:756-838 | the module sequence is the class sequence with the dorking, breach, archive and professional calls inserted after the directories |
| Plans.FlatAppend | osinttool.py:129-168 | the writes of consecutive batches concatenate |
| Plans.LogAppend | osinttool.py:129-168 | performing two runs of batches is performing their concatenation |
| Plans.CategoriesDisjoint | osinttool.py:568-754 | the module-level generators use none of the class generators' categories |
| Plans.ClassWithin | osinttool.py:110-182 | every write of the class orchestration uses a class generator's category |
| Plans.ClassSearchOmitsModuleGenerators | osinttool.py:110-182 | the class orchestration stores no dorking, breach, archive or professional entry |
| Plans.FreshCount | osinttool.py:170 | the count of a catalog built from nothing is the number of distinct written keys |
| Plans.ClassSearchCount | osinttool.py:110-182 | the class orchestration stores at least 8 + 3 × (distinct usernames) entries |
| Plans.ModuleSearchCoversClass | osinttool.py:756-838 | the module-level orchestration writes every key the class one writes and so stores at least as many entries |
| Searcher.OSINTSearcher.constructor | osinttool.py:14-26 | a new searcher holds its subject and output settings, an empty catalog and a zero count |
| Searcher.OSINTSearcher.SearchSocialMedia | osinttool.py:184-214 | the catalog receives the social writes |
| Searcher.OSINTSearcher.SearchPeopleDirectories | osinttool.py:216-300 | the catalog receives the finder then the record writes |
| Searcher.OSINTSearcher.SearchByEmail | osinttool.py:302-322 | the catalog receives the e-mail writes |
| Searcher.OSINTSearcher.SearchByPhone | osinttool.py:324-342 | the catalog receives the phone writes |
| Searcher.OSINTSearcher.SearchByUsername | osinttool.py:344-361 | the catalog receives the username writes |
| Searcher.OSINTSearcher.SearchByEmployer | osinttool.py:363-379 | the catalog receives the employer writes |
| Searcher.OSINTSearcher.SearchByEducation | osinttool.py:381-397 | the catalog receives the school writes |
| Searcher.OSINTSearcher.SearchByRelative | osinttool.py:399-414 | the catalog receives the relative writes |
| Searcher.OSINTSearcher.ReverseImageSearch | osinttool.py:416-432 | the catalog receives the image writes |
| Searcher.OSINTSearcher.SearchEach | osinttool.py:129-168 | one generator run per list item, in list order |
| Searcher.OSINTSearcher.SearchProfile | osinttool.py:129-168 | the e-mail, phone, username, employer, school, photo and relative generators run in that order |
| Searcher.OSINTSearcher.PerformGoogleDorking | osinttool.py:568-620 | the dorks are written and their number is returned |
| Searcher.OSINTSearcher.SearchDarkWebIndicators | osinttool.py:622-674 | the resources then the indicators are written and their sizes' sum is returned |
| Searcher.OSINTSearcher.SearchArchivedContent | osinttool.py:676-718 | the archive searches are written and their number is returned |
| Searcher.OSINTSearcher.SearchProfessionalNetworks | osinttool.py:720-754 | the professional searches are written and their number is returned |
| Searcher.OSINTSearcher.SaveResults | osinttool.py:465-512 | the file is `output.format`; JSON exactly when the format is `json`, otherwise the text report of the subject, timestamp, count and catalog |
| Searcher.OSINTSearcher.OpenResultsInBrowser | osinttool.py:514-565 | the tabs opened are the selection policy's decision for the catalog, the answer and the limit |
| Searcher.OSINTSearcher.SearchPerson | osinttool.py:110-182 | without a name nothing changes; otherwise the catalog receives the class write sequence, the count is the number of distinct keys, the file is saved, and the browser policy runs with limit 10 when requested |
| Searcher.OSINTSearcher.ModuleSearchPerson | osinttool.py:756-838 | the same for the module-level sequence, which adds the dorking, breach, archive and professional generators after the directories |
| Searcher.OSINTSearcher.Finish | osinttool.py:170-182 | the count is set to the number of distinct keys and the file and browser outcomes follow from the catalog |
| Searcher.OpenTabs | osinttool.py:529-561 | the two loops open exactly the selection policy's tabs for a confirmed, non-empty catalog |

## Left out

- Input and output: the `input()` prompts are parameters (the subject record, the format and the answers), and the file writing, `json.dump` layout, `display_results` console listing and every `print` are not modelled. `SaveResults` returns what would be written instead of writing it.
- Argument parsing and `main` (osinttool.py:840-926) are not modelled; the command-line path appears only as the `CommandLine` key order of the subject record, which carries a birth date and no birth place. The flags set at osinttool.py:917-920 are never read.
- The default output file name (osinttool.py:93, :907) depends on `time.time()`; the output name is a parameter.
- `datetime.now()` is replaced by a timestamp parameter; `webbrowser.open` and `time.sleep` are replaced by the list of tabs that would be opened.
- `os.path.exists` for the photo is decided by the caller: the record holds a photo path only when it exists.
- `requests`, `BeautifulSoup` and the request headers are imported or set but never used.
- Non-ASCII text: every string in the record is ASCII, so `lower`, `quote_plus` and `repr` are modelled for ASCII only.
- Braces in usernames: the record holds usernames without `{` or `}`, so the second `str.format` applied at osinttool.py:208 does not change the profile URLs and its format errors are not modelled.
- Set iteration order: the archive generator takes the order of its email domains as a parameter (any enumeration of the set); `ArchiveOrderIrrelevant` shows that the order changes nothing except the keys' positions.
- The `try`/`except` around file writing only prints; no error path is modelled.
- Searcher.OSINTSearcher: the subject and the output settings are fixed when it is built, whereas the source fills `subject_info` and `metadata` in place before the search.
- Searcher.OSINTSearcher.SearchProfile: the class and module orchestrations share the loops from e-mail to relatives, so one method models both copies (osinttool.py:129-168 and osinttool.py:791-823).
- Quirks the code has and the model keeps:
  - An e-mail ending in `@` gets no domain lookup, but the archive generator still writes `Wayback - ` and `Archive.today - ` for its empty domain (`EmptyDomainArchived`).
  - Any format other than `json` writes the text report.
  - The tab confirmation is lower-cased but not stripped, unlike the browser preference (`PaddedYesNotConfirmed`).
  - A negative limit opens no tab.
  - When two writes share a display name (a repeated e-mail, phone or username), the later record replaces the earlier one and keeps its position.
