// Which search records `open_results_in_browser` opens, and in what order:
// first one record from each category, then the remaining records category
// by category, never more than the limit.
module Browser {
  import opened OrderedMap
  import opened Catalog
  import opened Grouping

  /** What the browser step did: nothing for an empty catalog, nothing when
      the confirmation was refused, or the records whose URLs were opened,
      in order, with the number the limit message reports (0 when there is
      no such message). */
  datatype Outcome = NoResults | Cancelled | Opened(tabs: seq<Entry>, notOpened: nat)

  predicate NonEmptyGroups(g: seq<(string, seq<Entry>)>) {
    forall i :: 0 <= i < |g| ==> |g[i].1| > 0
  }

  /** The first record of every group. */
  function Heads(g: seq<(string, seq<Entry>)>): (r: seq<Entry>)
    requires NonEmptyGroups(g)
    ensures |r| == |g|
    ensures forall i :: 0 <= i < |g| ==> r[i] == g[i].1[0]
  {
    if g == [] then [] else [g[0].1[0]] + Heads(g[1..])
  }

  /** The records after the first of every group, group by group. */
  function Tails(g: seq<(string, seq<Entry>)>): seq<Entry>
    requires NonEmptyGroups(g)
  {
    if g == [] then [] else g[0].1[1..] + Tails(g[1..])
  }

  /** How many tabs a limit allows: the least count at which the source's
      `opened >= limit` test stops, so a limit of zero or less allows none. */
  function Budget(limit: int): (r: nat)
    ensures r >= limit
    ensures r == 0 || r - 1 < limit
  {
    if limit < 0 then 0 else limit
  }

  /** The first `n` elements, or all of them when there are fewer. */
  function Take<T>(s: seq<T>, n: nat): (r: seq<T>)
    ensures |r| == if n < |s| then n else |s|
    ensures r <= s
  {
    if n < |s| then s[..n] else s
  }

  /** The records opened for the grouping `g`: the candidates in opening
      order, cut off once the budget is spent. */
  function Selection(g: seq<(string, seq<Entry>)>, limit: int): (r: seq<Entry>)
    requires NonEmptyGroups(g)
    ensures |r| <= Budget(limit)
    ensures r <= Heads(g) + Tails(g)
    ensures |r| < Budget(limit) ==> r == Heads(g) + Tails(g)
  {
    Take(Heads(g) + Tails(g), Budget(limit))
  }

  function Min(a: int, b: int): int {
    if a < b then a else b
  }

  /** Heads first, tails after: the same records as the groups laid end to
      end. */
  lemma {:induction false} HeadsTailsPermutation(g: seq<(string, seq<Entry>)>)
    requires NonEmptyGroups(g)
    ensures multiset(Heads(g) + Tails(g)) == multiset(EntriesOf(g))
  {
    if g != [] {
      var x, rest := g[0].1[0], g[0].1[1..];
      var h, t := Heads(g[1..]), Tails(g[1..]);
      HeadsTailsPermutation(g[1..]);
      assert Heads(g) == [x] + h;
      assert Tails(g) == rest + t;
      assert EntriesOf(g) == ([x] + rest) + EntriesOf(g[1..]);
      Regroup(multiset([x]), multiset(h), multiset(rest), multiset(t));
    }
  }

  /** The candidates, in opening order, are a permutation of the catalog. */
  lemma CandidatesArePermutation(items: seq<Entry>)
    ensures NonEmptyGroups(Groups(items))
    ensures multiset(Heads(Groups(items)) + Tails(Groups(items))) == multiset(items)
    ensures |Heads(Groups(items)) + Tails(Groups(items))| == |items|
  {
    GroupsNonEmpty(items);
    HeadsTailsPermutation(Groups(items));
    GroupsArePermutation(items);
    var c := Heads(Groups(items)) + Tails(Groups(items));
    assert |multiset(c)| == |multiset(items)|;
  }

  /** As many tabs as the limit allows and the catalog has. */
  lemma SelectionSize(items: seq<Entry>, limit: int)
    ensures NonEmptyGroups(Groups(items))
    ensures |Selection(Groups(items), limit)| == Min(Budget(limit), |items|)
  {
    CandidatesArePermutation(items);
  }

  /** Every opened record is a catalog record. */
  lemma SelectionFromCatalog(items: seq<Entry>, limit: int)
    ensures NonEmptyGroups(Groups(items))
    ensures forall e :: e in Selection(Groups(items), limit) ==> e in items
  {
    CandidatesArePermutation(items);
    var c := Heads(Groups(items)) + Tails(Groups(items));
    forall e | e in Selection(Groups(items), limit) ensures e in items {
      assert e in c;
      assert e in multiset(c);
    }
  }

  /** The first pass: the first records of the first categories are opened
      first, one per category in category order, as many as the limit
      allows; when the limit is at most the number of categories nothing
      else is opened. */
  lemma SelectionFirstPass(items: seq<Entry>, limit: int)
    ensures NonEmptyGroups(Groups(items))
    ensures var cats := Categories(items);
      var sel := Selection(Groups(items), limit);
      && (Budget(limit) <= |cats| ==> |sel| == Budget(limit))
      && (|cats| < Budget(limit) ==> |cats| <= |sel|)
      && forall i :: 0 <= i < Min(Budget(limit), |cats|) ==>
           sel[i] == Groups(items)[i].1[0] && sel[i].1.category == cats[i]
  {
    GroupsNonEmpty(items);
    var g := Groups(items);
    var sel := Selection(g, limit);
    forall i | 0 <= i < Min(Budget(limit), |g|)
      ensures sel[i] == g[i].1[0] && sel[i].1.category == Categories(items)[i]
    {
      assert sel[i] == (Heads(g) + Tails(g))[i] == Heads(g)[i] == g[i].1[0];
    }
  }

  /** A sequence has no repeated element exactly when no element occurs
      twice in its multiset. */
  lemma {:induction false} NoDupCounts(s: seq<Entry>)
    ensures NoDup(s) <==> forall x :: multiset(s)[x] <= 1
  {
    if s != [] {
      var a, r := s[0], s[1..];
      assert s == [a] + r;
      NoDupCounts(r);
      if NoDup(s) {
        assert NoDup(r) by {
          forall i, j | 0 <= i < j < |r| ensures r[i] != r[j] { assert r[i] == s[i + 1] && r[j] == s[j + 1]; }
        }
        assert a !in r by {
          forall j | 0 <= j < |r| ensures r[j] != a { assert r[j] == s[j + 1]; }
        }
        forall x ensures multiset(s)[x] <= 1 {
          assert multiset(s)[x] == multiset(r)[x] + (if x == a then 1 else 0);
        }
      }
      if forall x :: multiset(s)[x] <= 1 {
        forall x ensures multiset(r)[x] <= 1 {
          assert multiset(s)[x] == multiset(r)[x] + (if x == a then 1 else 0);
        }
        assert multiset(r)[a] == 0 by {
          assert multiset(s)[a] == multiset(r)[a] + 1;
        }
        forall i, j | 0 <= i < j < |s| ensures s[i] != s[j] {
          if i == 0 {
            assert s[j] == r[j - 1];
            assert s[j] in r;
          } else {
            assert s[i] == r[i - 1] && s[j] == r[j - 1];
          }
        }
      }
    }
  }

  /** Records of a valid catalog with the same display name are the same
      record. */
  lemma ItemsKeyed(d: OMap<Target>, i: int, j: int)
    requires OrderedMap.Valid(d) && 0 <= i < |Items(d)| && 0 <= j < |Items(d)|
    requires Items(d)[i].0 == Items(d)[j].0
    ensures i == j
  {
  }

  lemma ItemsDistinct(d: OMap<Target>)
    requires OrderedMap.Valid(d)
    ensures NoDup(Items(d))
  {
    var items := Items(d);
    forall i, j | 0 <= i < j < |items| ensures items[i] != items[j] {
      assert items[i].0 == d.keys[i] && items[j].0 == d.keys[j];
    }
  }

  lemma PermutationNoDup(s: seq<Entry>, t: seq<Entry>)
    requires multiset(s) == multiset(t) && NoDup(s)
    ensures NoDup(t)
  {
    NoDupCounts(s);
    NoDupCounts(t);
  }

  /** The candidates hold each catalog record once. */
  lemma CandidatesDistinct(d: OMap<Target>)
    requires OrderedMap.Valid(d)
    ensures NonEmptyGroups(Groups(Items(d)))
    ensures NoDup(Heads(Groups(Items(d))) + Tails(Groups(Items(d))))
  {
    ItemsDistinct(d);
    CandidatesArePermutation(Items(d));
    PermutationNoDup(Items(d), Heads(Groups(Items(d))) + Tails(Groups(Items(d))));
  }

  /** No display name is opened twice. */
  lemma SelectionDistinct(d: OMap<Target>, limit: int)
    requires OrderedMap.Valid(d)
    ensures NonEmptyGroups(Groups(Items(d)))
    ensures NoDup(Firsts(Selection(Groups(Items(d)), limit)))
  {
    var items := Items(d);
    CandidatesDistinct(d);
    SelectionFromCatalog(items, limit);
    var c := Heads(Groups(items)) + Tails(Groups(items));
    var sel := Selection(Groups(items), limit);
    forall i, j | 0 <= i < j < |sel| ensures sel[i].0 != sel[j].0 {
      assert sel[i] == c[i] && sel[j] == c[j];
      assert sel[i] in sel && sel[j] in sel;
      var p :| 0 <= p < |items| && items[p] == sel[i];
      var q :| 0 <= q < |items| && items[q] == sel[j];
      if sel[i].0 == sel[j].0 {
        ItemsKeyed(d, p, q);
      }
    }
  }

  // ---------------------------------------------------------------------------
  // The whole step

  /** What `open_results_in_browser(limit)` does with the catalog `d`, given
      whether the confirmation prompt was answered "y": nothing for an empty
      catalog (checked first), nothing when refused, and otherwise the
      selection, with the count the limit message reports. */
  function Decide(d: OMap<Target>, confirmed: bool, limit: int): (r: Outcome)
    requires OrderedMap.Valid(d)
    ensures r == NoResults <==> d.keys == []
    ensures r == Cancelled <==> d.keys != [] && !confirmed
    ensures r.Opened? ==> |r.tabs| <= Budget(limit) && (r.notOpened > 0 <==> 0 <= limit < |d.keys|)
  {
    if d.keys == [] then NoResults
    else if !confirmed then Cancelled
    else
      CandidatesArePermutation(Items(d));
      Opened(Selection(Groups(Items(d)), limit), if 0 <= limit < |d.keys| then |d.keys| - limit else 0)
  }

  /** The browser step's promises: an empty catalog and a refused prompt
      open nothing; otherwise at most `limit` catalog records are opened,
      each at most once, all of them when the limit allows, the first
      record of each category before any second record, and the message
      reports exactly the records left unopened, or is absent. */
  lemma BrowserPolicy(d: OMap<Target>, confirmed: bool, limit: int)
    requires OrderedMap.Valid(d)
    ensures NonEmptyGroups(Groups(Items(d)))
    ensures Decide(d, confirmed, limit) == NoResults <==> d.keys == []
    ensures Decide(d, confirmed, limit) == Cancelled <==> d.keys != [] && !confirmed
    ensures var o := Decide(d, confirmed, limit);
      o.Opened? ==>
        && |o.tabs| == Min(Budget(limit), |d.keys|)
        && NoDup(Firsts(o.tabs))
        && (forall e :: e in o.tabs ==> e in Items(d))
        && (|d.keys| <= limit ==> multiset(o.tabs) == multiset(Items(d)))
        && (o.notOpened > 0 <==> 0 <= limit < |d.keys|)
        && (o.notOpened > 0 ==> o.notOpened == |d.keys| - |o.tabs|)
        && (forall i :: 0 <= i < Min(Budget(limit), |Categories(Items(d))|) ==>
              o.tabs[i] == Groups(Items(d))[i].1[0])
  {
    GroupsNonEmpty(Items(d));
    if d.keys != [] && confirmed {
      var items := Items(d);
      SelectionSize(items, limit);
      SelectionDistinct(d, limit);
      SelectionFromCatalog(items, limit);
      CandidatesArePermutation(items);
      SelectionFirstPass(items, limit);
    }
  }

  // ---------------------------------------------------------------------------
  // Facts the two loops of `open_results_in_browser` need

  lemma {:induction false} TailsAppend(a: seq<(string, seq<Entry>)>, b: seq<(string, seq<Entry>)>)
    requires NonEmptyGroups(a) && NonEmptyGroups(b)
    ensures NonEmptyGroups(a + b)
    ensures Tails(a + b) == Tails(a) + Tails(b)
  {
    if a != [] {
      assert (a + b)[0] == a[0];
      assert (a + b)[1..] == a[1..] + b;
      TailsAppend(a[1..], b);
      assert Tails(a + b) == a[0].1[1..] + (Tails(a[1..]) + Tails(b));
    } else {
      assert a + b == b;
    }
  }

  /** One more group's tail. */
  lemma TailsSnoc(g: seq<(string, seq<Entry>)>, j: nat)
    requires NonEmptyGroups(g) && j < |g|
    ensures Tails(g[..j + 1]) == Tails(g[..j]) + g[j].1[1..]
  {
    assert g[..j + 1] == g[..j] + [g[j]];
    TailsAppend(g[..j], [g[j]]);
  }

  /** The tails of the first groups start the tails of all groups. */
  lemma TailsPrefix(g: seq<(string, seq<Entry>)>, j: nat)
    requires NonEmptyGroups(g) && j <= |g|
    ensures Tails(g[..j]) <= Tails(g)
  {
    assert g == g[..j] + g[j..];
    TailsAppend(g[..j], g[j..]);
  }

  /** Once the budget is used up, what follows cannot change the choice. */
  lemma TakeExtend<T>(p: seq<T>, q: seq<T>, n: nat)
    requires p <= q && |Take(p, n)| == n
    ensures Take(p, n) == Take(q, n)
  {
  }

  /** Below the budget, the next candidate is taken. */
  lemma TakeGrow<T>(p: seq<T>, x: T, n: nat)
    requires |Take(p, n)| < n
    ensures Take(p, n) == p && Take(p + [x], n) == p + [x]
  {
  }

  // ---------------------------------------------------------------------------
  // The loops of `open_results_in_browser`

  /** The first loop: the first record of each category, in category
      order, until `limit` tabs are open. `count` is the source's `opened`. */
  method OpenFirsts(g: seq<(string, seq<Entry>)>, limit: int) returns (tabs: seq<Entry>, count: int)
    requires NonEmptyGroups(g)
    ensures count == |tabs| && tabs == Take(Heads(g), Budget(limit))
  {
    tabs, count := [], 0;
    var j := 0;
    while j < |g|
      invariant 0 <= j <= |g|
      invariant count == j == |tabs| <= Budget(limit)
      invariant tabs == Heads(g)[..j]
    {
      if count >= limit {
        break;
      }
      assert Heads(g)[j] == g[j].1[0];
      assert Heads(g)[..j + 1] == Heads(g)[..j] + [Heads(g)[j]];
      tabs := tabs + [g[j].1[0]];
      count := count + 1;
      j := j + 1;
    }
    if j == |g| {
      assert Heads(g)[..j] == Heads(g);
    }
  }

  /** The second loop: after the first pass `tabs0`, the remaining records
      category by category, until `limit` tabs are open. */
  method OpenRest(g: seq<(string, seq<Entry>)>, limit: int, tabs0: seq<Entry>, count0: int)
      returns (tabs: seq<Entry>, count: int)
    requires NonEmptyGroups(g) && count0 == |tabs0| && tabs0 == Take(Heads(g), Budget(limit))
    ensures count == |tabs| && tabs == Selection(g, limit)
  {
    tabs, count := tabs0, count0;
    assert g[..0] == [];
    assert Heads(g) + Tails(g[..0]) == Heads(g);
    var k := 0;
    while k < |g|
      invariant 0 <= k <= |g|
      invariant count == |tabs| <= Budget(limit)
      invariant tabs == Take(Heads(g) + Tails(g[..k]), Budget(limit))
    {
      if count >= limit {
        break;
      }
      tabs, count := OpenTail(Heads(g) + Tails(g[..k]), g[k].1, limit, tabs, count);
      GroupStep(g, k);
      k := k + 1;
    }
    RestDone(g, k, tabs, Budget(limit));
  }

  /** The inner loop over one category's records after its first. */
  method OpenTail(ghost p: seq<Entry>, members: seq<Entry>, limit: int, tabs0: seq<Entry>, count0: int)
      returns (tabs: seq<Entry>, count: int)
    requires |members| > 0 && count0 == |tabs0| <= Budget(limit) && tabs0 == Take(p, Budget(limit))
    ensures count == |tabs| <= Budget(limit) && tabs == Take(p + members[1..], Budget(limit))
  {
    tabs, count := tabs0, count0;
    assert p + members[1..1] == p;
    var m := 1;
    while m < |members|
      invariant 1 <= m <= |members|
      invariant count == |tabs| <= Budget(limit)
      invariant tabs == Take(p + members[1..m], Budget(limit))
    {
      if count >= limit {
        break;
      }
      OpenNext(p, members, m, tabs, Budget(limit));
      tabs := tabs + [members[m]];
      count := count + 1;
      m := m + 1;
    }
    TailDone(p, members, m, tabs, Budget(limit));
  }

  /** Below the budget, the next record of the category is opened. */
  lemma OpenNext(p: seq<Entry>, members: seq<Entry>, m: nat, tabs: seq<Entry>, b: nat)
    requires 1 <= m < |members| && tabs == Take(p + members[1..m], b) && |tabs| < b
    ensures tabs + [members[m]] == Take(p + members[1..m + 1], b)
  {
    TakeGrow(p + members[1..m], members[m], b);
    assert members[1..m + 1] == members[1..m] + [members[m]];
    assert p + members[1..m + 1] == p + members[1..m] + [members[m]];
  }

  /** The inner loop ends with the category done or the budget spent. */
  lemma TailDone(p: seq<Entry>, members: seq<Entry>, m: nat, tabs: seq<Entry>, b: nat)
    requires 1 <= m <= |members| && tabs == Take(p + members[1..m], b)
    requires m == |members| || |tabs| == b
    ensures tabs == Take(p + members[1..], b)
  {
    assert members[1..] == members[1..m] + members[m..];
    assert p + members[1..] == p + members[1..m] + members[m..];
    if m < |members| {
      TakeExtend(p + members[1..m], p + members[1..], b);
    } else {
      assert members[m..] == [];
    }
  }

  /** The candidates after category `k` has been done. */
  lemma GroupStep(g: seq<(string, seq<Entry>)>, k: nat)
    requires NonEmptyGroups(g) && k < |g|
    ensures Heads(g) + Tails(g[..k + 1]) == Heads(g) + Tails(g[..k]) + g[k].1[1..]
  {
    TailsSnoc(g, k);
  }

  /** The outer loop ends with every category done or the budget spent. */
  lemma RestDone(g: seq<(string, seq<Entry>)>, k: nat, tabs: seq<Entry>, b: nat)
    requires NonEmptyGroups(g) && k <= |g|
    requires tabs == Take(Heads(g) + Tails(g[..k]), b)
    requires k == |g| || |tabs| == b
    ensures tabs == Take(Heads(g) + Tails(g), b)
  {
    TailsPrefix(g, k);
    if k < |g| {
      TakeExtend(Heads(g) + Tails(g[..k]), Heads(g) + Tails(g), b);
    } else {
      assert g[..k] == g;
    }
  }
}
