// What `search_archived_content` writes for the email domains: two entries
// per distinct domain, whatever order the set of domains is visited in.
module ArchiveFacts {
  import opened Strings
  import opened OrderedMap
  import opened Subjects
  import opened Catalog
  import opened Generators
  import opened GeneratorFacts

  /** The display names written for a set of domains. */
  function DomainKeys(domains: set<string>): set<string> {
    Prefixed(DomainSites[0].0, domains) + Prefixed(DomainSites[1].0, domains)
  }

  lemma DomainKeysCons(order: seq<string>)
    requires order != []
    ensures DomainKeys(Elems(order)) == KeysOf(DomainArchivePair(order[0])) + DomainKeys(Elems(order[1..]))
  {
    var d, e := order[0], Elems(order[1..]);
    var pair := DomainArchivePair(d);
    ElemsCons(order);
    PrefixedCons(DomainSites[0].0, d, e);
    PrefixedCons(DomainSites[1].0, d, e);
    KeysOfCons(pair);
    KeysOfCons(pair[1..]);
    assert KeysOf(pair[2..]) == {};
  }

  lemma {:induction false} DomainArchiveKeys(order: seq<string>)
    ensures KeysOf(DomainArchives(order)) == DomainKeys(Elems(order))
    decreases |order|
  {
    if order == [] {
      assert Elems(order) == {};
    } else {
      DomainArchiveKeys(order[1..]);
      KeysOfConcat(DomainArchivePair(order[0]), DomainArchives(order[1..]));
      DomainKeysCons(order);
    }
  }

  /** Two display names per distinct domain. */
  lemma DomainKeysCard(domains: set<string>)
    ensures |DomainKeys(domains)| == 2 * |domains|
  {
    var w, a := Prefixed(DomainSites[0].0, domains), Prefixed(DomainSites[1].0, domains);
    PrefixedCard(DomainSites[0].0, domains);
    PrefixedCard(DomainSites[1].0, domains);
    assert DomainSites[0].0[0] == 'W' && DomainSites[1].0[0] == 'A';
    forall k | k in w ensures k !in a {
      PrefixedDiffer(DomainSites[0].0, DomainSites[1].0, domains, k, 0);
    }
    assert w * a == {};
  }

  /** A domain-search display name is only ever written with its own URL. */
  lemma {:induction false} DomainArchiveWrite(order: seq<string>, d: string, p: nat, j: nat)
    requires p < 2 && j < |DomainArchives(order)|
    requires DomainArchives(order)[j].0 == DomainSites[p].0 + d
    ensures DomainArchives(order)[j].1 == DomainSites[p].1 + d
    decreases |order|
  {
    var rest := DomainArchives(order[1..]);
    assert DomainArchives(order) == DomainArchivePair(order[0]) + rest;
    if j < 2 {
      var k := DomainSites[j].0 + order[0];
      var key := DomainSites[p].0 + d;
      assert DomainSites[0].0[0] == 'W' && DomainSites[1].0[0] == 'A';
      assert k[0] == DomainSites[j].0[0];
      assert key[0] == DomainSites[p].0[0];
      assert j == p;
      assert k[|DomainSites[p].0|..] == order[0];
      assert key[|DomainSites[p].0|..] == d;
    } else {
      DomainArchiveWrite(order[1..], d, p, j - 2);
    }
  }

  lemma TagConcat(a: seq<(string, string)>, b: seq<(string, string)>, c: string, p: string)
    ensures Tag(a + b, c, p) == Tag(a, c, p) + Tag(b, c, p)
  {
    var l, r := Tag(a + b, c, p), Tag(a, c, p) + Tag(b, c, p);
    assert |l| == |r|;
    forall i | 0 <= i < |l| ensures l[i] == r[i] {
      if i >= |a| { assert (a + b)[i] == b[i - |a|]; }
    }
  }

  lemma TagKeys(pairs: seq<(string, string)>, c: string, p: string)
    ensures KeysOf(Tag(pairs, c, p)) == KeysOf(pairs)
  {
    var t := Tag(pairs, c, p);
    forall k | k in KeysOf(pairs) ensures k in KeysOf(t) {
      var i :| 0 <= i < |pairs| && pairs[i].0 == k;
      assert t[i].0 == k;
    }
  }

  /** A name every write of which carries `url` ends with that URL, however
      often it is written. */
  lemma TagWrites(pairs: seq<(string, string)>, c: string, p: string, key: string, url: string)
    requires key in KeysOf(pairs)
    requires forall j :: 0 <= j < |pairs| && pairs[j].0 == key ==> pairs[j].1 == url
    ensures key in FromPairs(Tag(pairs, c, p)).values
    ensures FromPairs(Tag(pairs, c, p)).values[key] == Target(url, c, p + key)
  {
    var t := Tag(pairs, c, p);
    TagKeys(pairs, c, p);
    PutAllConsistent(Empty(), t, key, Target(url, c, p + key));
  }

  /** A fixed pair written first keeps its place and its record when the
      later pairs do not write its name. */
  lemma TagFixedEntry(f: seq<(string, string)>, rest: seq<(string, string)>, c: string, p: string, i: nat)
    requires NoDup(Firsts(f)) && i < |f| && f[i].0 !in KeysOf(rest)
    ensures |FromPairs(Tag(f + rest, c, p)).keys| > i
    ensures FromPairs(Tag(f + rest, c, p)).keys[i] == f[i].0
    ensures f[i].0 in FromPairs(Tag(f + rest, c, p)).values
    ensures FromPairs(Tag(f + rest, c, p)).values[f[i].0] == Target(f[i].1, c, p + f[i].0)
  {
    var tf, tr := Tag(f, c, p), Tag(rest, c, p);
    TagConcat(f, rest, c, p);
    assert Firsts(tf) == Firsts(f);
    FromPairsAt(tf, i);
    TagKeys(rest, c, p);
    PutAllAppend(Empty(), tf, tr);
    PutAllUntouched(FromPairs(tf), tr, f[i].0);
  }

  function FixedArchives(s: Subject): OMap<Target>
    requires WellFormed(s)
  {
    FromPairs(Tag(ArchiveFixedPairs(s), "Web Archives", ArchiveInfo))
  }

  /** The dictionary is the fixed searches with the domain searches written
      over them. */
  lemma ArchiveSplit(s: Subject, order: seq<string>)
    requires WellFormed(s) && Enumerates(order, EmailDomains(s.emails))
    ensures ArchiveSearches(s, order) == PutAll(FixedArchives(s), Tag(DomainArchives(order), "Web Archives", ArchiveInfo))
    ensures Elems(order) == EmailDomains(s.emails)
  {
    var a, b := ArchiveFixedPairs(s), DomainArchives(order);
    TagConcat(a, b, "Web Archives", ArchiveInfo);
    PutAllAppend(Empty(), Tag(a, "Web Archives", ArchiveInfo), Tag(b, "Web Archives", ArchiveInfo));
  }

  /** Each domain's two searches carry the domain, unencoded, whatever the
      order the domains are visited in. */
  lemma ArchiveDomainEntry(s: Subject, order: seq<string>, d: string, p: nat)
    requires WellFormed(s) && Enumerates(order, EmailDomains(s.emails))
    requires d in EmailDomains(s.emails) && p < 2
    ensures DomainSites[p].0 + d in ArchiveSearches(s, order).values
    ensures ArchiveSearches(s, order).values[DomainSites[p].0 + d]
      == Target(DomainSites[p].1 + d, "Web Archives", ArchiveInfo + (DomainSites[p].0 + d))
  {
    var key := DomainSites[p].0 + d;
    var v := Target(DomainSites[p].1 + d, "Web Archives", ArchiveInfo + key);
    var pairs := DomainArchives(order);
    var t := Tag(pairs, "Web Archives", ArchiveInfo);
    ArchiveSplit(s, order);
    DomainArchiveKeys(order);
    TagKeys(pairs, "Web Archives", ArchiveInfo);
    assert key in Prefixed(DomainSites[p].0, Elems(order));
    assert key in DomainKeys(Elems(order)) by {
      if p == 0 {
        assert key in Prefixed(DomainSites[0].0, Elems(order));
      } else {
        assert key in Prefixed(DomainSites[1].0, Elems(order));
      }
    }
    assert key in KeysOf(t);
    forall j | 0 <= j < |t| && t[j].0 == key ensures t[j].1 == v {
      assert t[j] == (pairs[j].0, Target(pairs[j].1, "Web Archives", ArchiveInfo + pairs[j].0));
      DomainArchiveWrite(order, d, p, j);
    }
    PutAllConsistent(FixedArchives(s), t, key, v);
  }

  /** `search_archived_content`'s keys are its fixed searches and two
      searches per distinct domain; a repeated domain adds nothing, and the
      domain searches number exactly twice the domains. */
  lemma ArchiveKeys(s: Subject, order: seq<string>)
    requires WellFormed(s) && Enumerates(order, EmailDomains(s.emails))
    ensures ArchiveSearches(s, order).values.Keys
      == KeysOf(ArchiveFixedPairs(s)) + DomainKeys(EmailDomains(s.emails))
    ensures |DomainKeys(EmailDomains(s.emails))| == 2 * |EmailDomains(s.emails)|
  {
    var pairs := DomainArchives(order);
    ArchiveSplit(s, order);
    DomainArchiveKeys(order);
    TagKeys(pairs, "Web Archives", ArchiveInfo);
    TagKeys(ArchiveFixedPairs(s), "Web Archives", ArchiveInfo);
    DomainKeysCard(EmailDomains(s.emails));
  }

  /** Any two orders of visiting the domains give the same entries; only
      the iteration order of the domain keys may differ. */
  lemma ArchiveOrderIrrelevant(s: Subject, o1: seq<string>, o2: seq<string>)
    requires WellFormed(s)
    requires Enumerates(o1, EmailDomains(s.emails)) && Enumerates(o2, EmailDomains(s.emails))
    ensures ArchiveSearches(s, o1).values == ArchiveSearches(s, o2).values
    ensures |ArchiveSearches(s, o1).keys| == |ArchiveSearches(s, o2).keys|
  {
    var m1, m2 := ArchiveSearches(s, o1).values, ArchiveSearches(s, o2).values;
    ArchiveKeys(s, o1);
    ArchiveKeys(s, o2);
    assert m1.Keys == m2.Keys;
    forall k | k in m1 ensures m1[k] == m2[k] {
      ArchiveSameEntry(s, o1, o2, k);
    }
    MapsEqual(m1, m2);
    ValidCount(ArchiveSearches(s, o1));
    ValidCount(ArchiveSearches(s, o2));
  }

  lemma ArchiveSameEntry(s: Subject, o1: seq<string>, o2: seq<string>, k: string)
    requires WellFormed(s)
    requires Enumerates(o1, EmailDomains(s.emails)) && Enumerates(o2, EmailDomains(s.emails))
    requires k in ArchiveSearches(s, o1).values && k in ArchiveSearches(s, o2).values
    ensures ArchiveSearches(s, o1).values[k] == ArchiveSearches(s, o2).values[k]
  {
    var domains := EmailDomains(s.emails);
    if k in Prefixed(DomainSites[0].0, domains) {
      var d :| d in domains && k == DomainSites[0].0 + d;
      ArchiveDomainEntry(s, o1, d, 0);
      ArchiveDomainEntry(s, o2, d, 0);
    } else if k in Prefixed(DomainSites[1].0, domains) {
      var d :| d in domains && k == DomainSites[1].0 + d;
      ArchiveDomainEntry(s, o1, d, 1);
      ArchiveDomainEntry(s, o2, d, 1);
    } else {
      ArchiveFixedEntry(s, o1, k);
      ArchiveFixedEntry(s, o2, k);
    }
  }

  /** The entries no domain search writes keep their fixed values. */
  lemma ArchiveFixedEntry(s: Subject, order: seq<string>, k: string)
    requires WellFormed(s) && Enumerates(order, EmailDomains(s.emails))
    requires k in ArchiveSearches(s, order).values && k !in DomainKeys(EmailDomains(s.emails))
    ensures k in FixedArchives(s).values
    ensures ArchiveSearches(s, order).values[k] == FixedArchives(s).values[k]
  {
    var pairs := DomainArchives(order);
    ArchiveSplit(s, order);
    DomainArchiveKeys(order);
    TagKeys(pairs, "Web Archives", ArchiveInfo);
    PutAllUntouched(FixedArchives(s), Tag(pairs, "Web Archives", ArchiveInfo), k);
  }

  /** An address ending in `@` gets no domain look-up from `search_by_email`,
      yet the archive search still writes a `Wayback - ` entry for its empty
      domain. */
  lemma EmptyDomainArchived(s: Subject, order: seq<string>, i: nat)
    requires WellFormed(s) && Enumerates(order, EmailDomains(s.emails))
    requires i < |s.emails| && s.emails[i] != [] && s.emails[i][|s.emails[i]| - 1] == '@'
    ensures !HasDomainLookup(s.emails[i])
    ensures DomainSites[0].0 in ArchiveSearches(s, order).values
    ensures ArchiveSearches(s, order).values[DomainSites[0].0].url == DomainSites[0].1
  {
    var e := s.emails[i];
    var d := EmailDomain(e);
    assert '@' in e;
    assert d == [];
    assert d in EmailDomains(s.emails);
    ArchiveDomainEntry(s, order, d, 0);
    assert DomainSites[0].0 + d == DomainSites[0].0;
    assert DomainSites[0].1 + d == DomainSites[0].1;
  }
}
