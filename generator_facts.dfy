// What the generators write: exact key lists, counts of distinct keys, the
// URLs that depend on a given field and those that do not.
module GeneratorFacts {
  import opened Strings
  import opened Quote
  import opened OrderedMap
  import opened Subjects
  import opened Catalog
  import opened Generators

  // ---------------------------------------------------------------------------
  // search_by_email

  function EmailKeys(email: string): seq<string> {
    ["Email Lookup (" + email + ")", "Have I Been Pwned (" + email + ")",
     "Google Email Search (" + email + ")", "Hunter.io (" + email + ")"]
  }

  function DomainKey(email: string): string {
    "Domain Lookup (" + EmailDomain(email) + ")"
  }

  lemma EmailRowKeys(email: string)
    requires IsAscii(email)
    ensures Firsts(EmailRows(email)) == EmailKeys(email) + (if HasDomainLookup(email) then [DomainKey(email)] else [])
  {
  }

  lemma EmailKeysDistinct(email: string)
    ensures NoDup(EmailKeys(email) + [DomainKey(email)])
  {
    var a, b, c, d := "Email Lookup (" + email + ")", "Have I Been Pwned (" + email + ")",
      "Google Email Search (" + email + ")", "Hunter.io (" + email + ")";
    var e := DomainKey(email);
    assert a[0] == 'E' && b[0] == 'H' && c[0] == 'G' && d[0] == 'H' && e[0] == 'D';
    assert b[1] == 'a' && d[1] == 'u';
    assert EmailKeys(email) + [e] == [a, b, c, d, e];
  }

  /** `search_by_email` writes the four fixed look-ups of the address, in
      order, then `Domain Lookup (d)` exactly when the address has an `@`
      followed by a non-empty domain `d`, the text after the last `@`. */
  lemma EmailSearchKeys(email: string)
    requires IsAscii(email)
    ensures EmailSearches(email).keys
      == EmailKeys(email) + (if HasDomainLookup(email) then [DomainKey(email)] else [])
  {
    var rows := EmailRows(email);
    EmailRowKeys(email);
    EmailKeysDistinct(email);
    assert NoDup(Firsts(rows)) by {
      var all := EmailKeys(email) + [DomainKey(email)];
      if !HasDomainLookup(email) {
        assert Firsts(rows) == all[..4];
      } else {
        assert Firsts(rows) == all;
      }
    }
    FromPairsDistinct(rows);
  }

  /** The domain look-up searches the company behind the encoded domain. */
  lemma DomainLookupUrl(email: string)
    requires IsAscii(email) && HasDomainLookup(email)
    ensures DomainKey(email) in EmailSearches(email).values
    ensures EmailSearches(email).values[DomainKey(email)].url
      == Google + QuotePlus(EmailDomain(email)) + "+company+information"
  {
    var rows := EmailRows(email);
    EmailSearchKeys(email);
    EmailRowKeys(email);
    FromPairsDistinct(rows);
    assert rows[4].0 == DomainKey(email);
  }

  // ---------------------------------------------------------------------------
  // search_social_media

  /** The distinct elements of a list. */
  function Elems(us: seq<string>): set<string> {
    set i | 0 <= i < |us| :: us[i]
  }

  /** Each name with `p` in front. */
  function Prefixed(p: string, names: set<string>): set<string> {
    set u | u in names :: p + u
  }

  lemma {:induction false} PrefixedCard(p: string, names: set<string>)
    ensures |Prefixed(p, names)| == |names|
    decreases names
  {
    if names != {} {
      var x :| x in names;
      var rest := names - {x};
      PrefixedCard(p, rest);
      assert Prefixed(p, names) == Prefixed(p, rest) + {p + x};
      assert p + x !in Prefixed(p, rest) by {
        forall y | y in rest ensures p + y != p + x {
          assert (p + y)[|p|..] == y;
          assert (p + x)[|p|..] == x;
        }
      }
    }
  }

  lemma PrefixedMarks(p: string, names: set<string>, k: string)
    requires k in Prefixed(p, names)
    ensures |k| >= |p| && forall j :: 0 <= j < |p| ==> k[j] == p[j]
  {
    var u :| u in names && k == p + u;
  }

  /** Names with prefixes that differ at position `j` never coincide. */
  lemma PrefixedDiffer(p: string, q: string, names: set<string>, k: string, j: nat)
    requires j < |p| && j < |q| && p[j] != q[j]
    requires k in Prefixed(p, names)
    ensures k !in Prefixed(q, names)
  {
    PrefixedMarks(p, names, k);
    forall u | u in names ensures k != q + u {
      assert (q + u)[j] == q[j];
    }
  }

  /** A list without repeats has as many distinct items as entries. */
  lemma ElemsCard(us: seq<string>)
    requires NoDup(us)
    ensures |Elems(us)| == |us|
  {
    NoDupCard(us);
  }

  lemma ElemsOf(us: seq<string>, i: nat)
    requires i < |us|
    ensures us[i] in Elems(us)
  {
  }

  lemma ElemsCons(us: seq<string>)
    requires us != []
    ensures Elems(us) == {us[0]} + Elems(us[1..])
  {
    forall x | x in Elems(us) ensures x in {us[0]} + Elems(us[1..]) {
      var i :| 0 <= i < |us| && us[i] == x;
      if i > 0 { assert us[1..][i - 1] == x; }
    }
    forall x | x in Elems(us[1..]) ensures x in Elems(us) {
      var i :| 0 <= i < |us[1..]| && us[1..][i] == x;
      assert us[i + 1] == x;
    }
  }

  lemma PrefixedCons(p: string, x: string, names: set<string>)
    ensures Prefixed(p, {x} + names) == {p + x} + Prefixed(p, names)
  {
  }

  // Title families. A generator's display names are titles completed by an
  // item; titles that differ in their first four characters never produce
  // the same display name.

  /** The first four characters of a display name. */
  function Head(k: string): string {
    if |k| < 4 then k else k[..4]
  }

  lemma HeadOf(t: string, u: string)
    requires |t| >= 4
    ensures Head(t + u) == Head(t)
  {
    assert (t + u)[..4] == t[..4];
  }

  lemma PrefixedHead(t: string, names: set<string>, k: string)
    requires |t| >= 4 && k in Prefixed(t, names)
    ensures Head(k) == Head(t)
  {
    var u :| u in names && k == t + u;
    HeadOf(t, u);
  }

  /** A name whose head differs from a title's head is not made from that
      title. */
  lemma HeadApart(k: string, t: string, names: set<string>)
    requires |t| >= 4 && Head(k) != Head(t)
    ensures k !in Prefixed(t, names)
  {
    if k in Prefixed(t, names) { PrefixedHead(t, names, k); }
  }

  lemma PrefixedApart(t1: string, t2: string, a: set<string>, b: set<string>)
    requires |t1| >= 4 && |t2| >= 4 && Head(t1) != Head(t2)
    ensures Prefixed(t1, a) * Prefixed(t2, b) == {}
  {
    forall k | k in Prefixed(t1, a) ensures k !in Prefixed(t2, b) {
      PrefixedHead(t1, a, k);
      HeadApart(k, t2, b);
    }
  }

  /** Names from titles that differ at position `at` differ. */
  lemma TitlesDiffer(p: string, q: string, a: string, b: string, at: nat)
    requires at < |p| && at < |q| && p[at] != q[at]
    ensures p + a != q + b
  {
    assert (p + a)[at] == p[at];
    assert (q + b)[at] == q[at];
  }

  lemma SameTitle(t: string, a: string, b: string)
    requires t + a == t + b
    ensures a == b
  {
    assert (t + a)[|t|..] == a;
    assert (t + b)[|t|..] == b;
  }

  /** Rows whose `j`-th key is the title completed by the `j`-th item write
      the title completed by each distinct item. */
  lemma OnePerItemKeys<V>(rows: seq<(string, V)>, t: string, items: seq<string>)
    requires |rows| == |items|
    requires forall j :: 0 <= j < |rows| ==> rows[j].0 == t + items[j]
    ensures KeysOf(rows) == Prefixed(t, Elems(items))
  {
    forall k | k in Prefixed(t, Elems(items)) ensures k in KeysOf(rows) {
      var u :| u in Elems(items) && k == t + u;
      var j :| 0 <= j < |items| && items[j] == u;
      assert rows[j].0 == k;
    }
  }

  /** Which item a row of a one-per-item family was written for. */
  lemma OnePerItemRow<V>(rows: seq<(string, V)>, t: string, items: seq<string>, d: string, j: nat)
    requires |rows| == |items|
    requires forall j :: 0 <= j < |rows| ==> rows[j].0 == t + items[j]
    requires j < |rows| && rows[j].0 == t + d
    ensures items[j] == d
  {
    SameTitle(t, items[j], d);
  }

  /** The title of the `p`-th row of an item in a two-per-item family. */
  function Pick(p: nat, t0: string, t1: string): string {
    if p % 2 == 0 then t0 else t1
  }

  /** Rows `2 i` and `2 i + 1` complete the titles `t0` and `t1` with the
      `i`-th item. */
  predicate TwoPerItem<V>(rows: seq<(string, V)>, t0: string, t1: string, items: seq<string>) {
    |rows| == 2 * |items| && forall j :: 0 <= j < |rows| ==> rows[j].0 == Pick(j, t0, t1) + items[j / 2]
  }

  lemma TwoPerItemKeys<V>(rows: seq<(string, V)>, t0: string, t1: string, items: seq<string>)
    requires TwoPerItem(rows, t0, t1, items)
    ensures KeysOf(rows) == Prefixed(t0, Elems(items)) + Prefixed(t1, Elems(items))
  {
    forall k | k in KeysOf(rows) ensures k in Prefixed(t0, Elems(items)) + Prefixed(t1, Elems(items)) {
      var j :| 0 <= j < |rows| && rows[j].0 == k;
      assert items[j / 2] in Elems(items);
    }
    forall k | k in Prefixed(t0, Elems(items)) + Prefixed(t1, Elems(items)) ensures k in KeysOf(rows) {
      var p := if k in Prefixed(t0, Elems(items)) then 0 else 1;
      var u :| u in Elems(items) && k == Pick(p, t0, t1) + u;
      var i :| 0 <= i < |items| && items[i] == u;
      assert (2 * i + p) / 2 == i;
      assert rows[2 * i + p].0 == k;
    }
  }

  /** Which item, and which of its two rows, a row was written for. */
  lemma TwoPerItemRow<V>(rows: seq<(string, V)>, t0: string, t1: string, items: seq<string>,
                         d: string, p: nat, j: nat, at: nat)
    requires TwoPerItem(rows, t0, t1, items)
    requires at < |t0| && at < |t1| && t0[at] != t1[at]
    requires p < 2 && j < |rows| && rows[j].0 == Pick(p, t0, t1) + d
    ensures j % 2 == p && items[j / 2] == d
  {
    if j % 2 != p {
      TitlesDiffer(Pick(j, t0, t1), Pick(p, t0, t1), items[j / 2], d, at);
    }
    SameTitle(Pick(p, t0, t1), items[j / 2], d);
  }

  /** The cardinality of two disjoint title families. */
  lemma DisjointCard(a: set<string>, b: set<string>)
    requires a * b == {}
    ensures |a + b| == |a| + |b|
  {
  }

  function ProfileKeys(usernames: seq<string>): set<string> {
    Prefixed("Twitter @", Elems(usernames)) + Prefixed("Instagram @", Elems(usernames))
    + Prefixed("TikTok @", Elems(usernames))
  }

  lemma ProfileKeysCons(us: seq<string>)
    requires us != []
    ensures ProfileKeys(us) == {"Twitter @" + us[0], "Instagram @" + us[0], "TikTok @" + us[0]} + ProfileKeys(us[1..])
  {
    var u, e := us[0], Elems(us[1..]);
    ElemsCons(us);
    PrefixedCons("Twitter @", u, e);
    PrefixedCons("Instagram @", u, e);
    PrefixedCons("TikTok @", u, e);
  }

  /** The profile rows write three names per distinct username. */
  lemma {:induction false} ProfileRowKeys(name: string, usernames: seq<string>)
    ensures KeysOf(UsernameProfileRows(name, usernames)) == ProfileKeys(usernames)
    decreases |usernames|
  {
    if usernames == [] {
      assert Elems(usernames) == {};
    } else {
      var u := usernames[0];
      var head := ProfileRows(name, u);
      ProfileRowKeys(name, usernames[1..]);
      KeysOfConcat(head, UsernameProfileRows(name, usernames[1..]));
      ProfileHeadKeys(name, u);
      ProfileKeysCons(usernames);
    }
  }

  lemma ProfileHeadKeys(name: string, u: string)
    ensures KeysOf(ProfileRows(name, u)) == {"Twitter @" + u, "Instagram @" + u, "TikTok @" + u}
  {
    var head := ProfileRows(name, u);
    KeysOfCons(head);
    KeysOfCons(head[1..]);
    KeysOfCons(head[2..]);
    assert KeysOf(head[3..]) == {};
  }

  function SocialPlatformNames(): seq<string> {
    Firsts(SocialPlatforms)
  }

  lemma SocialFixedFirsts(name: string)
    requires IsAscii(name)
    ensures Firsts(SocialFixedRows(name)) == SocialPlatformNames()
  {
  }

  lemma SocialPlatformNamesDistinct()
    ensures NoDup(SocialPlatformNames())
    ensures forall i :: 0 <= i < 8 ==> '@' !in SocialPlatformNames()[i]
  {
    assert SocialPlatformNames() == ["Facebook", "LinkedIn", "Twitter", "Instagram", "TikTok", "YouTube", "Reddit", "Pinterest"];
  }

  /** The eight platform names are eight distinct keys. */
  lemma SocialFixedKeys(name: string)
    requires IsAscii(name)
    ensures KeysOf(SocialFixedRows(name)) == Elems(SocialPlatformNames())
    ensures |KeysOf(SocialFixedRows(name))| == 8
  {
    var rows := SocialFixedRows(name);
    SocialFixedFirsts(name);
    SocialPlatformNamesDistinct();
    FromPairsDistinct(rows);
    assert KeysOf(rows) == Elems(SocialPlatformNames()) by {
      forall k ensures k in KeysOf(rows) <==> k in Elems(SocialPlatformNames()) {
        if k in KeysOf(rows) {
          var i :| 0 <= i < |rows| && rows[i].0 == k;
          assert SocialPlatformNames()[i] == k;
        }
        if k in Elems(SocialPlatformNames()) {
          var i :| 0 <= i < 8 && SocialPlatformNames()[i] == k;
          assert rows[i].0 == k;
        }
      }
    }
  }

  lemma ProfileKeysDisjoint(usernames: seq<string>)
    ensures Elems(SocialPlatformNames()) * ProfileKeys(usernames) == {}
    ensures Prefixed("Twitter @", Elems(usernames)) * Prefixed("Instagram @", Elems(usernames)) == {}
    ensures (Prefixed("Twitter @", Elems(usernames)) + Prefixed("Instagram @", Elems(usernames)))
            * Prefixed("TikTok @", Elems(usernames)) == {}
  {
    var e := Elems(usernames);
    SocialPlatformNamesDistinct();
    forall k | k in ProfileKeys(usernames) ensures k !in Elems(SocialPlatformNames()) {
      var p := if k in Prefixed("Twitter @", e) then "Twitter @"
               else if k in Prefixed("Instagram @", e) then "Instagram @" else "TikTok @";
      PrefixedMarks(p, e, k);
      assert k[|p| - 1] == '@';
      forall i | 0 <= i < 8 ensures SocialPlatformNames()[i] != k {
      }
    }
    forall k | k in Prefixed("Twitter @", e) ensures k !in Prefixed("Instagram @", e) && k !in Prefixed("TikTok @", e) {
      PrefixedDiffer("Twitter @", "Instagram @", e, k, 0);
      PrefixedDiffer("Twitter @", "TikTok @", e, k, 1);
    }
    forall k | k in Prefixed("Instagram @", e) ensures k !in Prefixed("TikTok @", e) {
      PrefixedDiffer("Instagram @", "TikTok @", e, k, 0);
    }
  }

  /** `search_social_media` writes the eight platform keys and three profile
      keys per distinct username: repeated usernames add nothing. */
  lemma SocialKeyCount(s: Subject)
    requires WellFormed(s)
    ensures |SocialMediaSearches(s).keys| == 8 + 3 * |Elems(s.usernames)|
  {
    var e := Elems(s.usernames);
    var fixed := SocialFixedRows(s.name);
    var profiles := UsernameProfileRows(s.name, s.usernames);
    KeysOfConcat(fixed, profiles);
    SocialFixedKeys(s.name);
    ProfileRowKeys(s.name, s.usernames);
    ProfileKeysDisjoint(s.usernames);
    PrefixedCard("Twitter @", e);
    PrefixedCard("Instagram @", e);
    PrefixedCard("TikTok @", e);
    var t, g, k := Prefixed("Twitter @", e), Prefixed("Instagram @", e), Prefixed("TikTok @", e);
    assert |t + g| == |t| + |g|;
    assert |t + g + k| == |t| + |g| + |k|;
    assert |ProfileKeys(s.usernames)| == 3 * |e|;
    assert |KeysOf(fixed + profiles)| == 8 + 3 * |e|;
  }

  /** The first eight keys are the platforms, in the order of the literal,
      each searching the encoded name. */
  lemma SocialFixedEntries(s: Subject)
    requires WellFormed(s)
    ensures |SocialMediaSearches(s).keys| >= 8
    ensures forall i :: 0 <= i < 8 ==>
      && SocialMediaSearches(s).keys[i] == SocialPlatforms[i].0
      && SocialMediaSearches(s).values[SocialPlatforms[i].0].url == SocialPlatforms[i].1 + QuotePlus(s.name)
  {
    var fixed := SocialFixedRows(s.name);
    var profiles := UsernameProfileRows(s.name, s.usernames);
    var d := FromPairs(fixed);
    var r := SocialMediaSearches(s);
    PutAllAppend(Empty(), fixed, profiles);
    assert r == PutAll(d, profiles);
    SocialFixedDict(s.name);
    forall i | 0 <= i < 8
      ensures r.keys[i] == SocialPlatforms[i].0
      ensures r.values[SocialPlatforms[i].0].url == SocialPlatforms[i].1 + QuotePlus(s.name)
    {
      var k := SocialPlatforms[i].0;
      assert d.keys[i] == k;
      assert k in d.values;
      SocialPlatformUntouched(s.name, s.usernames, i);
      PutAllUntouched(d, profiles, k);
    }
  }

  /** The platform literal on its own. */
  lemma SocialFixedDict(name: string)
    requires IsAscii(name)
    ensures FromPairs(SocialFixedRows(name)).keys == SocialPlatformNames()
    ensures forall i :: 0 <= i < 8 ==> SocialPlatforms[i].0 == SocialPlatformNames()[i]
    ensures forall i :: 0 <= i < 8 ==>
      FromPairs(SocialFixedRows(name)).values[SocialPlatforms[i].0].url == SocialPlatforms[i].1 + QuotePlus(name)
  {
    var fixed := SocialFixedRows(name);
    SocialFixedFirsts(name);
    SocialPlatformNamesDistinct();
    FromPairsDistinct(fixed);
  }

  lemma SocialPlatformUntouched(name: string, usernames: seq<string>, i: nat)
    requires i < 8
    ensures SocialPlatforms[i].0 !in KeysOf(UsernameProfileRows(name, usernames))
  {
    ProfileRowKeys(name, usernames);
    ProfileKeysDisjoint(usernames);
    var k := SocialPlatforms[i].0;
    assert k == SocialPlatformNames()[i];
    assert k in Elems(SocialPlatformNames());
    assert k !in Elems(SocialPlatformNames()) * ProfileKeys(usernames);
  }

  lemma ProfileSitesDiffer()
    ensures forall a, b :: 0 <= a < 3 && 0 <= b < 3 && a != b ==> ProfileSites[a].0[..2] != ProfileSites[b].0[..2]
    ensures forall a :: 0 <= a < 3 ==> |ProfileSites[a].0| >= 2 && ProfileSites[a].0[|ProfileSites[a].0| - 1] == '@'
  {
    assert ProfileSites[0].0[..2] == "Tw";
    assert ProfileSites[1].0[..2] == "In";
    assert ProfileSites[2].0[..2] == "Ti";
  }

  /** Row `3 i + p` is the `p`-th profile of the `i`-th username. */
  lemma {:induction false} ProfileRowAt(name: string, us: seq<string>, i: nat, p: nat)
    requires i < |us| && p < 3
    ensures UsernameProfileRows(name, us)[3 * i + p]
      == SocialRow(ProfileSites[p].0 + us[i], ProfileSites[p].1 + us[i], name)
    decreases i
  {
    var rest := UsernameProfileRows(name, us[1..]);
    assert UsernameProfileRows(name, us) == ProfileRows(name, us[0]) + rest;
    if i > 0 {
      ProfileRowAt(name, us[1..], i - 1, p);
      assert us[1..][i - 1] == us[i];
    }
  }

  /** A profile key is only ever written with its own URL. */
  lemma {:induction false} ProfileRowWrite(name: string, us: seq<string>, u: string, p: nat, j: nat)
    requires p < 3 && j < |UsernameProfileRows(name, us)|
    requires UsernameProfileRows(name, us)[j].0 == ProfileSites[p].0 + u
    ensures UsernameProfileRows(name, us)[j]
      == SocialRow(ProfileSites[p].0 + u, ProfileSites[p].1 + u, name)
    decreases |us|
  {
    var rest := UsernameProfileRows(name, us[1..]);
    assert UsernameProfileRows(name, us) == ProfileRows(name, us[0]) + rest;
    if j < 3 {
      var k := ProfileSites[j].0 + us[0];
      var key := ProfileSites[p].0 + u;
      ProfileSitesDiffer();
      assert k[..2] == ProfileSites[j].0[..2];
      assert key[..2] == ProfileSites[p].0[..2];
      assert j == p;
      assert k[|ProfileSites[p].0|..] == us[0];
      assert key[|ProfileSites[p].0|..] == u;
    } else {
      ProfileRowWrite(name, us[1..], u, p, j - 3);
    }
  }

  /** Each username gets its three profile links, with the username put into
      the URL as given (not encoded). */
  lemma SocialProfileUrl(s: Subject, u: string, p: nat)
    requires WellFormed(s) && u in s.usernames && p < 3
    ensures ProfileSites[p].0 + u in SocialMediaSearches(s).values
    ensures SocialMediaSearches(s).values[ProfileSites[p].0 + u].url == ProfileSites[p].1 + u
  {
    var fixed := SocialFixedRows(s.name);
    var profiles := UsernameProfileRows(s.name, s.usernames);
    var rows := fixed + profiles;
    var key := ProfileSites[p].0 + u;
    var v := SocialRow(key, ProfileSites[p].1 + u, s.name).1;
    var i :| 0 <= i < |s.usernames| && s.usernames[i] == u;
    ProfileRowAt(s.name, s.usernames, i, p);
    assert rows[8 + 3 * i + p].0 == key;
    SocialFixedFirsts(s.name);
    SocialPlatformNamesDistinct();
    ProfileSitesDiffer();
    assert key[|ProfileSites[p].0| - 1] == '@';
    forall j | 0 <= j < 8 ensures rows[j].0 != key {
      assert rows[j].0 == SocialPlatformNames()[j];
    }
    forall j | 8 <= j < |rows| && rows[j].0 == key ensures rows[j].1 == v {
      assert rows[j] == profiles[j - 8];
      ProfileRowWrite(s.name, s.usernames, u, p, j - 8);
    }
    PutAllConsistent(Empty(), rows, key, v);
  }

  // ---------------------------------------------------------------------------
  // search_people_directories

  function FinderNames(): seq<string> {
    seq(7, i requires 0 <= i < 7 => PersonFinderSites[i].0) + ["MyLife"]
  }

  lemma FinderNamesDistinct()
    ensures FinderNames() == ["WhitePages", "Spokeo", "BeenVerified", "TruePeopleSearch",
                              "Intelius", "PeopleFinders", "Radaris", "MyLife"]
    ensures NoDup(FinderNames())
  {
  }

  lemma FinderRowKeys(s: Subject)
    requires WellFormed(s)
    ensures Firsts(PersonFinderRows(s)) == FinderNames()
  {
  }

  /** The eight sites, in the order of the literal, each once. */
  lemma PersonFinderKeys(s: Subject)
    requires WellFormed(s)
    ensures PersonFinderSearches(s).keys == FinderNames()
    ensures forall i :: 0 <= i < 8 ==> PersonFinderSearches(s).values[FinderNames()[i]] == PersonFinderRows(s)[i].1
  {
    FinderRowKeys(s);
    FinderNamesDistinct();
    FromPairsDistinct(PersonFinderRows(s));
  }

  lemma FinderNameAt()
    ensures FinderNames()[3] == "TruePeopleSearch" && FinderNames()[7] == "MyLife"
  {
    FinderNamesDistinct();
  }

  lemma TruePeopleSearchFinderUrl(s: Subject)
    requires WellFormed(s)
    ensures FinderUrl(s, 3) == "https://www.truepeoplesearch.com/results?name=" + QuotePlus(NameSlug(s.name))
         + (if LocationTerm(s) != [] then "&citystatezip=" + QuotePlus(LocationTerm(s)) else "")
  {
    assert PersonFinderSites[3] == ("TruePeopleSearch", "https://www.truepeoplesearch.com/results?name=", "");
  }

  /** TruePeopleSearch searches the encoded slug, narrowed by the encoded
      first address when there is a non-empty one. */
  lemma TruePeopleSearchUrl(s: Subject)
    requires WellFormed(s)
    ensures "TruePeopleSearch" in PersonFinderSearches(s).values
    ensures PersonFinderSearches(s).values["TruePeopleSearch"].url
      == "https://www.truepeoplesearch.com/results?name=" + QuotePlus(NameSlug(s.name))
         + (if LocationTerm(s) != [] then "&citystatezip=" + QuotePlus(LocationTerm(s)) else "")
  {
    var rows := PersonFinderRows(s);
    FinderRowKeys(s);
    FinderNamesDistinct();
    FinderNameAt();
    FromPairsAt(rows, 3);
    assert rows[3].1.url == FinderUrl(s, 3);
    TruePeopleSearchFinderUrl(s);
  }

  /** MyLife gets the encoded first and last words of the name, or the
      whole name twice when it has fewer than two words. */
  lemma MyLifeEntry(s: Subject)
    requires WellFormed(s)
    ensures "MyLife" in PersonFinderSearches(s).values
    ensures |Words(s.name)| >= 2 ==> IsAscii(Words(s.name)[0]) && IsAscii(Words(s.name)[|Words(s.name)| - 1])
    ensures |Words(s.name)| >= 2 ==> (PersonFinderSearches(s).values["MyLife"].url
      == "https://www.mylife.com/search/?searchFirstName=" + QuotePlus(Words(s.name)[0])
         + "&searchLastName=" + QuotePlus(Words(s.name)[|Words(s.name)| - 1]))
    ensures |Words(s.name)| < 2 ==> (PersonFinderSearches(s).values["MyLife"].url
      == "https://www.mylife.com/search/?searchFirstName=" + QuotePlus(s.name) + "&searchLastName=" + QuotePlus(s.name))
  {
    hide PersonFinderSearches, MyLifeUrl, Words, QuotePlus;
    MyLifeRow(s);
    MyLifeUrlSplit(s.name);
  }

  lemma MyLifeRow(s: Subject)
    requires WellFormed(s)
    ensures "MyLife" in PersonFinderSearches(s).values
    ensures PersonFinderSearches(s).values["MyLife"].url == MyLifeUrl(s.name)
  {
    hide MyLifeUrl;
    var rows := PersonFinderRows(s);
    FinderRowKeys(s);
    FinderNamesDistinct();
    FinderNameAt();
    FromPairsAt(rows, 7);
    assert rows[7].1.url == MyLifeUrl(s.name);
  }

  lemma MyLifeUrlSplit(name: string)
    requires IsAscii(name)
    ensures |Words(name)| >= 2 ==> IsAscii(Words(name)[0]) && IsAscii(Words(name)[|Words(name)| - 1])
    ensures |Words(name)| >= 2 ==> (MyLifeUrl(name)
      == "https://www.mylife.com/search/?searchFirstName=" + QuotePlus(Words(name)[0])
         + "&searchLastName=" + QuotePlus(Words(name)[|Words(name)| - 1]))
    ensures |Words(name)| < 2 ==> (MyLifeUrl(name)
      == "https://www.mylife.com/search/?searchFirstName=" + QuotePlus(name) + "&searchLastName=" + QuotePlus(name))
  {
    hide Words, QuotePlus;
    var fl := FirstLast(name);
  }

  /** The subject `s` with other addresses. */
  predicate SameButAddresses(s: Subject, t: Subject) {
    s.(addresses := t.addresses) == t
  }

  lemma FinderRowSame(s: Subject, t: Subject, i: nat)
    requires WellFormed(s) && WellFormed(t) && SameButAddresses(s, t)
    requires i < 8 && i != 3
    ensures PersonFinderRows(s)[i] == PersonFinderRows(t)[i]
  {
    if i < 7 {
      FinderNamesDistinct();
      assert FinderNames()[i] == PersonFinderSites[i].0;
      assert FinderUrl(s, i) == FinderUrl(t, i);
    }
  }

  /** Of the finder entries, the addresses change only TruePeopleSearch. */
  lemma FinderAddressIndependent(s: Subject, t: Subject)
    requires WellFormed(s) && WellFormed(t) && SameButAddresses(s, t)
    ensures PersonFinderSearches(s).keys == PersonFinderSearches(t).keys
    ensures forall k :: k in PersonFinderSearches(s).values && k != "TruePeopleSearch" ==>
      PersonFinderSearches(s).values[k] == PersonFinderSearches(t).values[k]
  {
    FinderRowKeys(s);
    FinderRowKeys(t);
    FinderNamesDistinct();
    FinderNameAt();
    FromPairsDistinct(PersonFinderRows(s));
    FromPairsDistinct(PersonFinderRows(t));
    forall k | k in PersonFinderSearches(s).values && k != "TruePeopleSearch"
      ensures PersonFinderSearches(s).values[k] == PersonFinderSearches(t).values[k]
    {
      var i :| 0 <= i < 8 && FinderNames()[i] == k;
      FromPairsAt(PersonFinderRows(s), i);
      FromPairsAt(PersonFinderRows(t), i);
      FinderRowSame(s, t, i);
    }
  }

  function RecordNames(): seq<string> {
    ["Google Public Records", "Court Records", "Property Records", "Marriage Records", "Obituaries"]
  }

  lemma RecordNamesDistinct(s: Subject)
    requires WellFormed(s)
    ensures Firsts(PublicRecordRows(s)) == RecordNames()
    ensures NoDup(RecordNames())
  {
  }

  /** The five record searches keep the order of the literal, the property
      search included: rewriting a key keeps its place. */
  lemma PublicRecordKeys(s: Subject)
    requires WellFormed(s)
    ensures PublicRecordSearches(s).keys == RecordNames()
    ensures forall i :: 0 <= i < 5 && i != 2 ==> PublicRecordSearches(s).values[RecordNames()[i]] == PublicRecordRows(s)[i].1
  {
    hide QuotePlus, SearchTerm, RecordRows, PublicRecordRows;
    var base := PublicRecordRows(s);
    RecordNamesDistinct(s);
    FromPairsDistinct(base);
    if LocationTerm(s) != [] {
      assert RecordNames()[2] == "Property Records";
      assert PublicRecordSearches(s) == OrderedMap.Put(FromPairs(base), "Property Records", LocatedProperty(s));
    }
  }

  /** The property search carries the encoded first address, separated by
      `+`, when there is a non-empty one. */
  lemma PropertyRecordsUrl(s: Subject)
    requires WellFormed(s)
    ensures "Property Records" in PublicRecordSearches(s).values
    ensures LocationTerm(s) != [] ==>
      PublicRecordSearches(s).values["Property Records"].url
        == Google + QuotePlus(s.name) + "+property+records+" + QuotePlus(LocationTerm(s))
    ensures LocationTerm(s) == [] ==>
      PublicRecordSearches(s).values["Property Records"].url == Google + QuotePlus(s.name) + "+property+records"
  {
    if LocationTerm(s) == [] { PropertyWithoutAddress(s); }
  }

  lemma PropertyWithoutAddress(s: Subject)
    requires WellFormed(s) && LocationTerm(s) == []
    ensures "Property Records" in PublicRecordSearches(s).values
    ensures PublicRecordSearches(s).values["Property Records"].url
      == Google + QuotePlus(s.name) + "+property+records"
  {
    var base := PublicRecordRows(s);
    RecordNamesDistinct(s);
    FromPairsAt(base, 2);
    PropertyBase(s);
    assert PublicRecordSearches(s) == FromPairs(base);
  }

  lemma PropertyBase(s: Subject)
    requires WellFormed(s)
    ensures PublicRecordRows(s)[2].0 == "Property Records"
    ensures PublicRecordRows(s)[2].1.url == Google + QuotePlus(s.name) + "+property+records"
  {
  }

  /** The public-records search looks for the encoded name, then `+born+`
      and the encoded birth date when one was given, then `+` and the
      encoded birth place when one was given. */
  lemma PublicRecordsTerm(s: Subject)
    requires WellFormed(s)
    ensures "Google Public Records" in PublicRecordSearches(s).values
    ensures PublicRecordSearches(s).values["Google Public Records"].url
      == Google + QuotePlus(s.name)
         + (if s.birthDate != [] then "+born+" + QuotePlus(s.birthDate) else "")
         + (if s.birthPlace != [] then "+" + QuotePlus(s.birthPlace) else "")
         + "+public+records"
  {
    hide PublicRecordSearches, QuotePlus, SearchTerm;
    PublicRecordsSearchTerm(s);
    SearchTermEncoded(s);
  }

  lemma PublicRecordsSearchTerm(s: Subject)
    requires WellFormed(s)
    ensures "Google Public Records" in PublicRecordSearches(s).values
    ensures PublicRecordSearches(s).values["Google Public Records"].url == Google + QuotePlus(SearchTerm(s)) + "+public+records"
  {
    PublicRecordKeys(s);
    assert RecordNames()[0] == "Google Public Records";
  }

  lemma SearchTermEncoded(s: Subject)
    requires WellFormed(s)
    ensures QuotePlus(SearchTerm(s))
      == QuotePlus(s.name)
         + (if s.birthDate != [] then "+born+" + QuotePlus(s.birthDate) else "")
         + (if s.birthPlace != [] then "+" + QuotePlus(s.birthPlace) else "")
  {
    hide QuotePlus;
    var a := if s.birthDate != [] then " born " + s.birthDate else "";
    var b := if s.birthPlace != [] then " " + s.birthPlace else "";
    assert SearchTerm(s) == s.name + a + b;
    PartEncoded(" born ", "+born+", s.birthDate);
    PartEncoded(" ", "+", s.birthPlace);
    QuotePlusConcat(s.name, a);
    QuotePlusConcat(s.name + a, b);
  }

  /** An optional part `lead + v` of the search term, encoded: ASCII, and
      `QuotePlus(v)` after the encoded lead. */
  lemma PartEncoded(lead: string, encoded: string, v: string)
    requires lead in {" born ", " "} && encoded == (if lead == " " then "+" else "+born+")
    requires IsAscii(v)
    ensures IsAscii(if v != [] then lead + v else "")
    ensures QuotePlus(if v != [] then lead + v else "") == if v != [] then encoded + QuotePlus(v) else ""
  {
    if v != [] {
      SpaceEncoded();
      assert IsAscii(" born ") && IsAscii(" ");
      QuotePlusConcat(lead, v);
    }
  }

  /** The encodings of the pieces of " born ". */
  lemma BornPieces()
    ensures QuotePlus(" ") == "+" && QuotePlus("born") == "born"
  {
    QuotePlusIdentity("born");
  }

  lemma SpaceEncoded()
    ensures QuotePlus(" ") == "+" && QuotePlus(" born ") == "+born+"
  {
    hide QuotePlus;
    BornPieces();
    assert " born" == " " + "born" && " born " == " born" + " ";
    QuotePlusConcat(" ", "born");
    QuotePlusConcat(" born", " ");
  }

  /** Of the record entries, the addresses change only the property search. */
  lemma RecordAddressIndependent(s: Subject, t: Subject)
    requires WellFormed(s) && WellFormed(t) && SameButAddresses(s, t)
    ensures PublicRecordSearches(s).keys == PublicRecordSearches(t).keys
    ensures forall k :: k in PublicRecordSearches(s).values && k != "Property Records" ==>
      PublicRecordSearches(s).values[k] == PublicRecordSearches(t).values[k]
  {
    PublicRecordKeys(s);
    PublicRecordKeys(t);
    assert PublicRecordRows(s) == PublicRecordRows(t);
    forall k | k in PublicRecordSearches(s).values && k != "Property Records"
      ensures PublicRecordSearches(s).values[k] == PublicRecordSearches(t).values[k]
    {
      var i :| 0 <= i < 5 && RecordNames()[i] == k;
    }
  }

  // ---------------------------------------------------------------------------
  // search_by_phone

  function PhoneKeys(phone: string): seq<string> {
    ["Truecaller (" + phone + ")", "Google Phone Search (" + phone + ")",
     "WhitePages Phone (" + phone + ")", "Spokeo Phone (" + phone + ")"]
  }

  lemma PhoneRowKeys(phone: string)
    requires IsAscii(phone)
    ensures Firsts(PhoneRows(phone)) == PhoneKeys(phone)
    ensures NoDup(PhoneKeys(phone))
  {
    var ks := PhoneKeys(phone);
    assert ks[0][0] == 'T' && ks[1][0] == 'G' && ks[2][0] == 'W' && ks[3][0] == 'S';
  }

  lemma PhoneSearchKeys(phone: string)
    requires IsAscii(phone)
    ensures PhoneSearches(phone).keys == PhoneKeys(phone)
    ensures forall i :: 0 <= i < 4 ==> PhoneKeys(phone)[i] in PhoneSearches(phone).values
    ensures forall i :: 0 <= i < 4 ==> PhoneSearches(phone).values[PhoneKeys(phone)[i]] == PhoneRows(phone)[i].1
  {
    var rows := PhoneRows(phone);
    PhoneRowKeys(phone);
    FromPairsDistinct(rows);
    forall i | 0 <= i < 4
      ensures PhoneKeys(phone)[i] in PhoneSearches(phone).values
      ensures PhoneSearches(phone).values[PhoneKeys(phone)[i]] == rows[i].1
    {
      FromPairsAt(rows, i);
    }
  }

  /** `search_by_phone` writes its four keys in order; the three look-up
      sites get the digits of the number, the Google search the number as
      typed, encoded. */
  lemma PhoneSearchUrls(phone: string)
    requires IsAscii(phone)
    ensures PhoneSearches(phone).keys == PhoneKeys(phone)
    ensures forall i :: 0 <= i < 4 ==> PhoneKeys(phone)[i] in PhoneSearches(phone).values
    ensures PhoneSearches(phone).values[PhoneKeys(phone)[0]].url == "https://www.truecaller.com/search/" + Digits(phone)
    ensures PhoneSearches(phone).values[PhoneKeys(phone)[1]].url == Google + QuotePlus(phone)
    ensures PhoneSearches(phone).values[PhoneKeys(phone)[2]].url == "https://www.whitepages.com/phone/" + Digits(phone)
    ensures PhoneSearches(phone).values[PhoneKeys(phone)[3]].url == "https://www.spokeo.com/phone/" + Digits(phone)
  {
    PhoneSearchKeys(phone);
  }

  /** Two spellings of one number with the same digits reach the same three
      look-up pages, while their Google searches differ. */
  lemma PhoneSpellings(p: string, q: string)
    requires IsAscii(p) && IsAscii(q) && Digits(p) == Digits(q) && p != q
    ensures forall i :: 0 <= i < 4 ==> PhoneKeys(p)[i] in PhoneSearches(p).values && PhoneKeys(q)[i] in PhoneSearches(q).values
    ensures forall i :: 0 <= i < 4 && i != 1 ==>
      PhoneSearches(p).values[PhoneKeys(p)[i]].url == PhoneSearches(q).values[PhoneKeys(q)[i]].url
    ensures PhoneSearches(p).values[PhoneKeys(p)[1]].url != PhoneSearches(q).values[PhoneKeys(q)[1]].url
  {
    PhoneSearchKeys(p);
    PhoneSearchKeys(q);
    PhoneRowsAgree(p, q);
  }

  lemma PhoneRowsAgree(p: string, q: string)
    requires IsAscii(p) && IsAscii(q) && Digits(p) == Digits(q) && p != q
    ensures forall i :: 0 <= i < 4 && i != 1 ==> PhoneRows(p)[i].1.url == PhoneRows(q)[i].1.url
    ensures PhoneRows(p)[1].1.url != PhoneRows(q)[1].1.url
  {
    if Google + QuotePlus(p) == Google + QuotePlus(q) {
      assert (Google + QuotePlus(p))[|Google|..] == QuotePlus(p);
      assert (Google + QuotePlus(q))[|Google|..] == QuotePlus(q);
      QuotePlusInjective(p, q);
    }
  }

  /** The example spellings of one number, written piece by piece:
      "(555) 123-4567" and "5551234567" both clean to "5551234567". */
  lemma PhoneExample()
    ensures Digits("(" + "555" + ") " + "123" + "-" + "4567") == "555" + "123" + "4567"
    ensures Digits("555" + "123" + "4567") == "555" + "123" + "4567"
  {
    DigitsConcat("(" + "555" + ") " + "123" + "-", "4567");
    DigitsConcat("(" + "555" + ") " + "123", "-");
    DigitsConcat("(" + "555" + ") ", "123");
    DigitsConcat("(" + "555", ") ");
    DigitsConcat("(", "555");
    DigitsConcat("555" + "123", "4567");
    DigitsConcat("555", "123");
    NoDigits("(");
    NoDigits(") ");
    NoDigits("-");
    AllDigitsKept("555");
    AllDigitsKept("123");
    AllDigitsKept("4567");
  }

  lemma NoDigits(s: string)
    requires s == "(" || s == ") " || s == "-"
    ensures Digits(s) == []
  {
    if s == ") " { assert s[1..] == " "; }
  }

  lemma AllDigitsKept(s: string)
    requires s == "555" || s == "123" || s == "4567"
    ensures Digits(s) == s
  {
    DigitsOfDigits(s);
  }
}
