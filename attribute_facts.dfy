// What the per-attribute generators write: `search_by_username`,
// `search_by_employer`, `search_by_education`, `search_by_relative` and
// `reverse_image_search`. Each writes a fixed number of display names, all
// distinct, in the order of its dictionary literal; the attribute is part of
// every name and, encoded, of every URL.
module AttributeFacts {
  import opened Strings
  import opened Quote
  import opened OrderedMap
  import opened Catalog
  import opened Generators
  import opened GeneratorFacts

  // ---------------------------------------------------------------------------
  // search_by_username

  function UsernameKeys(u: string): seq<string> {
    ["KnowEm (" + u + ")", "NameChk (" + u + ")", "GitHub (" + u + ")", "Twitter (" + u + ")",
     "Instagram (" + u + ")", "Google Username Search (" + u + ")"]
  }

  lemma UsernameKeysDistinct(u: string)
    ensures NoDup(UsernameKeys(u))
  {
    var ks := UsernameKeys(u);
    assert ks[0][0] == 'K' && ks[1][0] == 'N' && ks[2][0] == 'G' && ks[3][0] == 'T' && ks[4][0] == 'I' && ks[5][0] == 'G';
    assert ks[2][1] == 'i' && ks[5][1] == 'o';
  }

  /** `search_by_username` writes its six names in order, each once. */
  lemma UsernameSearchKeys(u: string)
    requires IsAscii(u)
    ensures UsernameSearches(u).keys == UsernameKeys(u)
    ensures forall i :: 0 <= i < 6 ==>
      UsernameKeys(u)[i] in UsernameSearches(u).values
      && UsernameSearches(u).values[UsernameKeys(u)[i]] == UsernameRows(u)[i].1
  {
    hide QuotePlus;
    var rows := UsernameRows(u);
    assert Firsts(rows) == UsernameKeys(u);
    UsernameKeysDistinct(u);
    FromPairsDistinct(rows);
  }

  /** Every username page gets the encoded username; every record carries
      the same info line. */
  lemma UsernameSearchUrls(u: string)
    requires IsAscii(u)
    ensures |UsernameSearches(u).keys| == 6
    ensures forall i :: 0 <= i < 6 ==> UsernameKeys(u)[i] in UsernameSearches(u).values
    ensures UsernameSearches(u).values[UsernameKeys(u)[0]].url == "https://knowem.com/checkusernames.php?u=" + QuotePlus(u)
    ensures UsernameSearches(u).values[UsernameKeys(u)[1]].url == "https://namechk.com/search/" + QuotePlus(u)
    ensures UsernameSearches(u).values[UsernameKeys(u)[2]].url == "https://github.com/" + QuotePlus(u)
    ensures UsernameSearches(u).values[UsernameKeys(u)[3]].url == "https://twitter.com/" + QuotePlus(u)
    ensures UsernameSearches(u).values[UsernameKeys(u)[4]].url == "https://www.instagram.com/" + QuotePlus(u) + "/"
    ensures UsernameSearches(u).values[UsernameKeys(u)[5]].url == Google + QuotePlus(u) + "+profile+OR+account"
    ensures forall i :: 0 <= i < 6 ==>
      UsernameSearches(u).values[UsernameKeys(u)[i]].info == "Accounts linked to username: " + u
  {
    hide QuotePlus, UsernameSearches;
    UsernameSearchKeys(u);
  }

  // ---------------------------------------------------------------------------
  // search_by_employer

  function EmployerKeys(employer: string): seq<string> {
    [employer + " Employee Directory", employer + " LinkedIn", employer + " Contact"]
  }

  /** The three names differ just after the employer. */
  lemma EmployerKeysDistinct(employer: string)
    ensures NoDup(EmployerKeys(employer))
  {
    var ks, n := EmployerKeys(employer), |employer|;
    assert ks[0][n + 1] == 'E' && ks[1][n + 1] == 'L' && ks[2][n + 1] == 'C';
  }

  /** `search_by_employer` writes its three names in order, each once. */
  lemma EmployerSearchKeys(name: string, employer: string)
    requires IsAscii(name) && IsAscii(employer)
    ensures EmployerSearches(name, employer).keys == EmployerKeys(employer)
    ensures forall i :: 0 <= i < 3 ==>
      EmployerKeys(employer)[i] in EmployerSearches(name, employer).values
      && EmployerSearches(name, employer).values[EmployerKeys(employer)[i]] == EmployerRows(name, employer)[i].1
  {
    hide QuotePlus;
    var rows := EmployerRows(name, employer);
    assert Firsts(rows) == EmployerKeys(employer);
    EmployerKeysDistinct(employer);
    FromPairsDistinct(rows);
  }

  /** The employer pages search the encoded employer with the encoded name,
      and the info line names both as typed. */
  lemma EmployerSearchUrls(name: string, employer: string)
    requires IsAscii(name) && IsAscii(employer)
    ensures |EmployerSearches(name, employer).keys| == 3
    ensures forall i :: 0 <= i < 3 ==> EmployerKeys(employer)[i] in EmployerSearches(name, employer).values
    ensures EmployerSearches(name, employer).values[EmployerKeys(employer)[0]].url
      == Google + QuotePlus(employer) + "+employee+directory+" + QuotePlus(name)
    ensures EmployerSearches(name, employer).values[EmployerKeys(employer)[1]].url
      == Google + "site:linkedin.com+" + QuotePlus(employer) + "+" + QuotePlus(name)
    ensures EmployerSearches(name, employer).values[EmployerKeys(employer)[2]].url
      == Google + QuotePlus(employer) + "+contact+" + QuotePlus(name)
    ensures forall i :: 0 <= i < 3 ==>
      EmployerSearches(name, employer).values[EmployerKeys(employer)[i]].info
      == "Employment information: " + name + " at " + employer
  {
    hide QuotePlus, EmployerSearches;
    EmployerSearchKeys(name, employer);
  }

  // ---------------------------------------------------------------------------
  // search_by_education

  function EducationKeys(school: string): seq<string> {
    [school + " Alumni", school + " Yearbook", school + " Graduation"]
  }

  lemma EducationKeysDistinct(school: string)
    ensures NoDup(EducationKeys(school))
  {
    var ks, n := EducationKeys(school), |school|;
    assert ks[0][n + 1] == 'A' && ks[1][n + 1] == 'Y' && ks[2][n + 1] == 'G';
  }

  /** `search_by_education` writes its three names in order, each once. */
  lemma EducationSearchKeys(name: string, school: string)
    requires IsAscii(name) && IsAscii(school)
    ensures EducationSearches(name, school).keys == EducationKeys(school)
    ensures forall i :: 0 <= i < 3 ==>
      EducationKeys(school)[i] in EducationSearches(name, school).values
      && EducationSearches(name, school).values[EducationKeys(school)[i]] == EducationRows(name, school)[i].1
  {
    hide QuotePlus;
    var rows := EducationRows(name, school);
    assert Firsts(rows) == EducationKeys(school);
    EducationKeysDistinct(school);
    FromPairsDistinct(rows);
  }

  /** The school pages search the encoded school with the encoded name. */
  lemma EducationSearchUrls(name: string, school: string)
    requires IsAscii(name) && IsAscii(school)
    ensures |EducationSearches(name, school).keys| == 3
    ensures forall i :: 0 <= i < 3 ==> EducationKeys(school)[i] in EducationSearches(name, school).values
    ensures EducationSearches(name, school).values[EducationKeys(school)[0]].url
      == Google + QuotePlus(school) + "+alumni+" + QuotePlus(name)
    ensures EducationSearches(name, school).values[EducationKeys(school)[1]].url
      == Google + QuotePlus(school) + "+yearbook+" + QuotePlus(name)
    ensures EducationSearches(name, school).values[EducationKeys(school)[2]].url
      == Google + QuotePlus(school) + "+graduation+" + QuotePlus(name)
    ensures forall i :: 0 <= i < 3 ==>
      EducationSearches(name, school).values[EducationKeys(school)[i]].info
      == "Educational information: " + name + " at " + school
  {
    hide QuotePlus, EducationSearches;
    EducationSearchKeys(name, school);
  }

  // ---------------------------------------------------------------------------
  // search_by_relative

  function RelativeKeys(relative: string): seq<string> {
    ["Family Search (" + relative + ")", "Social Media (" + relative + ")"]
  }

  /** `search_by_relative` writes its two names in order; the family search
      puts the subject's name first, the social search the relative's. */
  lemma RelativeSearchUrls(name: string, relative: string)
    requires IsAscii(name) && IsAscii(relative)
    ensures RelativeSearches(name, relative).keys == RelativeKeys(relative)
    ensures forall i :: 0 <= i < 2 ==> RelativeKeys(relative)[i] in RelativeSearches(name, relative).values
    ensures RelativeSearches(name, relative).values[RelativeKeys(relative)[0]].url
      == Google + QuotePlus(name) + "+related+to+" + QuotePlus(relative)
    ensures RelativeSearches(name, relative).values[RelativeKeys(relative)[1]].url
      == Google + QuotePlus(relative) + "+social+media+" + QuotePlus(name)
    ensures forall i :: 0 <= i < 2 ==>
      RelativeSearches(name, relative).values[RelativeKeys(relative)[i]].info
      == "Information about relative: " + relative + " related to " + name
  {
    hide QuotePlus;
    var rows := RelativeRows(name, relative);
    var ks := RelativeKeys(relative);
    assert ks[0][0] == 'F' && ks[1][0] == 'S';
    assert Firsts(rows) == ks;
    FromPairsDistinct(rows);
  }

  // ---------------------------------------------------------------------------
  // reverse_image_search

  const ImageKeys: seq<string> :=
    ["Google Reverse Image", "TinEye Reverse Image", "Yandex Reverse Image", "Bing Visual Search"]

  /** `reverse_image_search` writes four fixed upload pages in order; the
      photo's path appears only in their info line. */
  lemma ImageSearchUrls(photoPath: string)
    ensures ImageSearches(photoPath).keys == ImageKeys
    ensures forall i :: 0 <= i < 4 ==> ImageKeys[i] in ImageSearches(photoPath).values
    ensures ImageSearches(photoPath).values[ImageKeys[0]].url == "https://images.google.com/searchbyimage"
    ensures ImageSearches(photoPath).values[ImageKeys[1]].url == "https://tineye.com/"
    ensures ImageSearches(photoPath).values[ImageKeys[2]].url == "https://yandex.com/images/search"
    ensures ImageSearches(photoPath).values[ImageKeys[3]].url == "https://www.bing.com/visualsearch"
    ensures forall i :: 0 <= i < 4 ==>
      ImageSearches(photoPath).values[ImageKeys[i]].info == "Upload the image at " + photoPath + " to this service"
  {
    var rows := ImageRows(photoPath);
    assert ImageKeys[0][0] == 'G' && ImageKeys[1][0] == 'T' && ImageKeys[2][0] == 'Y' && ImageKeys[3][0] == 'B';
    assert Firsts(rows) == ImageKeys;
    FromPairsDistinct(rows);
  }
}
