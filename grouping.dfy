// Grouping the catalog by category, as `display_results`, `save_results`
// and `open_results_in_browser` each do with the same loop: a dictionary
// from category to the list of (display name, record) pairs of that
// category, the categories in the order they are first seen.
module Grouping {
  import opened OrderedMap
  import opened Catalog

  /** Some entry of `items` has category `c`. */
  predicate Occurs(items: seq<Entry>, c: string) {
    exists i :: 0 <= i < |items| && items[i].1.category == c
  }

  lemma OccursSnoc(items: seq<Entry>, e: Entry, c: string)
    ensures Occurs(items + [e], c) <==> Occurs(items, c) || e.1.category == c
  {
    var s := items + [e];
    if Occurs(s, c) && e.1.category != c {
      var i :| 0 <= i < |s| && s[i].1.category == c;
      assert s[i] == items[i];
    }
    if Occurs(items, c) {
      var i :| 0 <= i < |items| && items[i].1.category == c;
      assert s[i] == items[i];
    }
    assert s[|items|] == e;
  }

  /** The categories of `items`, each once, in the order of first
      occurrence. */
  function Categories(items: seq<Entry>): (r: seq<string>)
    ensures NoDup(r) && |r| <= |items|
    ensures forall c :: c in r <==> Occurs(items, c)
  {
    if items == [] then []
    else
      var init := items[..|items| - 1];
      var e := items[|items| - 1];
      assert items == init + [e];
      forall c ensures Occurs(items, c) <==> Occurs(init, c) || e.1.category == c {
        OccursSnoc(init, e, c);
      }
      Categories(init) + (if e.1.category in Categories(init) then [] else [e.1.category])
  }

  /** The entries of category `c`, in catalog order. */
  function Members(items: seq<Entry>, c: string): (r: seq<Entry>)
    ensures |r| <= |items|
    ensures forall e :: e in r ==> e in items && e.1.category == c
  {
    if items == [] then []
    else
      var last := items[|items| - 1];
      Members(items[..|items| - 1], c) + (if last.1.category == c then [last] else [])
  }

  /** The groups of the categories `cats`, one after another. */
  function Flatten(items: seq<Entry>, cats: seq<string>): seq<Entry> {
    if cats == [] then [] else Members(items, cats[0]) + Flatten(items, cats[1..])
  }

  /** The groups of the categories `cats`, as (category, entries) pairs. */
  function GroupsOf(items: seq<Entry>, cats: seq<string>): (r: seq<(string, seq<Entry>)>)
    ensures |r| == |cats|
    ensures forall i :: 0 <= i < |r| ==> r[i] == (cats[i], Members(items, cats[i]))
  {
    if cats == [] then [] else [(cats[0], Members(items, cats[0]))] + GroupsOf(items, cats[1..])
  }

  /** The list of groups, in category order: one per first-seen category,
      holding that category's records in catalog order. */
  function Groups(items: seq<Entry>): (r: seq<(string, seq<Entry>)>)
    ensures |r| == |Categories(items)| <= |items|
    ensures forall i :: 0 <= i < |r| ==> r[i].0 == Categories(items)[i] && r[i].1 == Members(items, r[i].0)
  {
    GroupsOf(items, Categories(items))
  }

  /** The entries of a list of groups, one group after another. */
  function EntriesOf(groups: seq<(string, seq<Entry>)>): seq<Entry> {
    if groups == [] then [] else groups[0].1 + EntriesOf(groups[1..])
  }

  /** `groups` is the grouping dictionary of `items`. */
  ghost predicate Matches(groups: OMap<seq<Entry>>, items: seq<Entry>) {
    && OrderedMap.Valid(groups)
    && groups.keys == Categories(items)
    && forall c :: c in groups.values ==> groups.values[c] == Members(items, c)
  }

  /** The grouping loop. The dictionary iterates the categories in
      first-seen order and maps each to its entries in catalog order. */
  method GroupByCategory(items: seq<Entry>) returns (groups: OMap<seq<Entry>>)
    ensures OrderedMap.Valid(groups)
    ensures groups.keys == Categories(items)
    ensures forall c :: c in groups.values ==> groups.values[c] == Members(items, c)
    ensures Items(groups) == Groups(items)
  {
    groups := Empty();
    for i := 0 to |items|
      invariant Matches(groups, items[..i])
    {
      var c := items[i].1.category;
      assert items[..i + 1] == items[..i] + [items[i]];
      Prepare(groups, items[..i], items[i]);
      if c !in groups.values {
        groups := OrderedMap.Put(groups, c, []);
      }
      AppendEntry(groups, items[..i], items[i]);
      groups := OrderedMap.Put(groups, c, groups.values[c] + [items[i]]);
    }
    assert items[..|items|] == items;
    GroupsOfDict(items, groups);
  }

  lemma GroupsOfDict(items: seq<Entry>, groups: OMap<seq<Entry>>)
    requires Matches(groups, items)
    ensures Items(groups) == Groups(items)
  {
  }

  /** The dictionary just before `e` is appended: its keys already those of
      the longer catalog, its lists still those of the shorter one. */
  ghost predicate Prepared(g: OMap<seq<Entry>>, items: seq<Entry>, e: Entry) {
    && OrderedMap.Valid(g)
    && g.keys == Categories(items + [e])
    && e.1.category in g.values
    && forall c :: c in g.values ==> g.values[c] == Members(items, c)
  }

  /** A category seen for the first time enters the dictionary with an
      empty list. */
  lemma Prepare(groups: OMap<seq<Entry>>, items: seq<Entry>, e: Entry)
    requires Matches(groups, items)
    ensures var c := e.1.category;
      Prepared(if c in groups.values then groups else Put(groups, c, []), items, e)
  {
    CategoriesSnoc(items, e);
    if e.1.category !in groups.values {
      MembersAbsent(items, e.1.category);
    }
  }

  /** Appending an entry to its category's list keeps the dictionary the
      grouping of the longer catalog. */
  lemma AppendEntry(g: OMap<seq<Entry>>, items: seq<Entry>, e: Entry)
    requires Prepared(g, items, e)
    ensures Matches(Put(g, e.1.category, g.values[e.1.category] + [e]), items + [e])
  {
    var r := Put(g, e.1.category, g.values[e.1.category] + [e]);
    forall c | c in r.values ensures r.values[c] == Members(items + [e], c) {
      MembersSnoc(items, e, c);
    }
  }

  lemma CategoriesSnoc(items: seq<Entry>, e: Entry)
    ensures Categories(items + [e]) ==
      Categories(items) + (if e.1.category in Categories(items) then [] else [e.1.category])
  {
    assert (items + [e])[..|items|] == items;
  }

  lemma MembersSnoc(items: seq<Entry>, e: Entry, c: string)
    ensures Members(items + [e], c) == Members(items, c) + (if e.1.category == c then [e] else [])
  {
    assert (items + [e])[..|items|] == items;
  }

  /** A category not seen yet has no entries. */
  lemma {:induction false} MembersAbsent(items: seq<Entry>, c: string)
    requires c !in Categories(items)
    ensures Members(items, c) == []
    decreases |items|
  {
    if items != [] {
      var init := items[..|items| - 1];
      assert c !in Categories(init);
      MembersAbsent(init, c);
    }
  }

  lemma {:induction false} FlattenSnoc(items: seq<Entry>, e: Entry, cats: seq<string>)
    requires NoDup(cats)
    ensures multiset(Flatten(items + [e], cats)) ==
      multiset(Flatten(items, cats)) + (if e.1.category in cats then multiset{e} else multiset{})
  {
    if cats != [] {
      var h, t := cats[0], cats[1..];
      NoDupTail(cats);
      FlattenSnoc(items, e, t);
      MembersSnoc(items, e, h);
      var d1: seq<Entry> := if e.1.category == h then [e] else [];
      var d2: multiset<Entry> := if e.1.category in t then multiset{e} else multiset{};
      var m, f, f' := Members(items, h), Flatten(items, t), Flatten(items + [e], t);
      assert Flatten(items + [e], cats) == (m + d1) + f';
      assert Flatten(items, cats) == m + f;
      assert multiset(d1) + d2 == (if e.1.category in cats then multiset{e} else multiset{}) by {
        HeadTail(cats, e.1.category);
      }
      Regroup(multiset(m), multiset(d1), multiset(f), d2);
    }
  }

  /** Multiset sums regrouped. */
  lemma Regroup<T>(a: multiset<T>, b: multiset<T>, c: multiset<T>, d: multiset<T>)
    ensures a + b + (c + d) == (a + c) + (b + d)
  {
  }

  lemma NoDupTail(cats: seq<string>)
    requires cats != [] && NoDup(cats)
    ensures NoDup(cats[1..]) && cats[0] !in cats[1..]
  {
    forall i, j | 0 <= i < j < |cats[1..]| ensures cats[1..][i] != cats[1..][j] {
      assert cats[1..][i] == cats[i + 1] && cats[1..][j] == cats[j + 1];
    }
    forall j | 0 <= j < |cats[1..]| ensures cats[1..][j] != cats[0] {
      assert cats[1..][j] == cats[j + 1];
    }
  }

  lemma HeadTail(cats: seq<string>, c: string)
    requires cats != []
    ensures c in cats <==> c == cats[0] || c in cats[1..]
  {
    assert cats == [cats[0]] + cats[1..];
  }

  lemma {:induction false} FlattenAppend(items: seq<Entry>, cats: seq<string>, c: string)
    ensures Flatten(items, cats + [c]) == Flatten(items, cats) + Members(items, c)
  {
    if cats == [] {
      assert [c][1..] == [];
    } else {
      assert (cats + [c])[1..] == cats[1..] + [c];
      FlattenAppend(items, cats[1..], c);
    }
  }

  /** The groups, laid end to end, hold exactly the catalog's entries: no
      entry is lost or repeated. */
  lemma {:induction false} GroupsPartition(items: seq<Entry>)
    ensures multiset(Flatten(items, Categories(items))) == multiset(items)
    decreases |items|
  {
    if items != [] {
      var init := items[..|items| - 1];
      var e := items[|items| - 1];
      assert items == init + [e];
      assert multiset(items) == multiset(init) + multiset{e};
      GroupsPartition(init);
      var cats := Categories(init);
      CategoriesSnoc(init, e);
      FlattenSnoc(init, e, cats);
      var whole := Flatten(init + [e], Categories(init + [e]));
      if e.1.category in cats {
        assert Categories(init + [e]) == cats + [] == cats;
        assert multiset(whole) == multiset(Flatten(init, cats)) + multiset{e};
      } else {
        NewGroup(init, e);
        var rest := Flatten(init + [e], cats);
        assert whole == rest + [e];
        assert multiset(rest) == multiset(init);
        assert multiset(whole) == multiset(rest) + multiset([e]);
      }
    }
  }

  /** A new category adds a one-entry group at the end. */
  lemma NewGroup(init: seq<Entry>, e: Entry)
    requires e.1.category !in Categories(init)
    ensures Flatten(init + [e], Categories(init + [e])) == Flatten(init + [e], Categories(init)) + [e]
  {
    CategoriesSnoc(init, e);
    FlattenAppend(init + [e], Categories(init), e.1.category);
    MembersSnoc(init, e, e.1.category);
    MembersAbsent(init, e.1.category);
  }

  /** Hence the group sizes add up to the catalog size. */
  lemma GroupsSize(items: seq<Entry>)
    ensures |Flatten(items, Categories(items))| == |items|
  {
    GroupsPartition(items);
    assert |multiset(Flatten(items, Categories(items)))| == |multiset(items)|;
  }

  /** First-seen order: the categories of a prefix of the catalog are a
      prefix of the catalog's categories. */
  lemma {:induction false} CategoriesPrefix(items: seq<Entry>, k: nat)
    requires k <= |items|
    ensures Categories(items[..k]) <= Categories(items)
    decreases |items| - k
  {
    if k < |items| {
      CategoriesPrefix(items, k + 1);
      assert items[..k + 1] == items[..k] + [items[k]];
      CategoriesSnoc(items[..k], items[k]);
    } else {
      assert items[..k] == items;
    }
  }

  /** An entry whose category has not occurred before it opens the next
      group. */
  lemma NewCategoryPosition(items: seq<Entry>, k: nat)
    requires k < |items| && !Occurs(items[..k], items[k].1.category)
    ensures var n := |Categories(items[..k])|;
      n < |Categories(items)| && Categories(items)[n] == items[k].1.category
  {
    CategoriesPrefix(items, k + 1);
    assert items[..k + 1] == items[..k] + [items[k]];
    CategoriesSnoc(items[..k], items[k]);
  }

  /** Within a group the entries keep their catalog order: the group of a
      prefix is a prefix of the group. */
  lemma {:induction false} MembersPrefix(items: seq<Entry>, k: nat, c: string)
    requires k <= |items|
    ensures Members(items[..k], c) <= Members(items, c)
    decreases |items| - k
  {
    if k < |items| {
      MembersPrefix(items, k + 1, c);
      assert items[..k + 1] == items[..k] + [items[k]];
      MembersSnoc(items[..k], items[k], c);
    } else {
      assert items[..k] == items;
    }
  }

  lemma {:induction false} EntriesOfGroupsOf(items: seq<Entry>, cats: seq<string>)
    ensures EntriesOf(GroupsOf(items, cats)) == Flatten(items, cats)
  {
    if cats != [] {
      EntriesOfGroupsOf(items, cats[1..]);
      assert GroupsOf(items, cats)[1..] == GroupsOf(items, cats[1..]);
    }
  }

  /** Every group has at least one entry and holds only its category. */
  lemma GroupsNonEmpty(items: seq<Entry>)
    ensures forall i :: 0 <= i < |Groups(items)| ==> |Groups(items)[i].1| > 0
    ensures forall i, j :: 0 <= i < |Groups(items)| && 0 <= j < |Groups(items)[i].1| ==>
      Groups(items)[i].1[j].1.category == Groups(items)[i].0
  {
    var cats := Categories(items);
    forall i | 0 <= i < |cats| ensures |Members(items, cats[i])| > 0 {
      MembersPresent(items, cats[i]);
    }
  }

  /** A category that occurs has entries. */
  lemma {:induction false} MembersPresent(items: seq<Entry>, c: string)
    requires Occurs(items, c)
    ensures |Members(items, c)| > 0
    decreases |items|
  {
    var init := items[..|items| - 1];
    var e := items[|items| - 1];
    assert items == init + [e];
    OccursSnoc(init, e, c);
    if e.1.category != c {
      MembersPresent(init, c);
    }
  }

  /** The groups, laid end to end, are a permutation of the catalog. */
  lemma GroupsArePermutation(items: seq<Entry>)
    ensures multiset(EntriesOf(Groups(items))) == multiset(items)
    ensures |EntriesOf(Groups(items))| == |items|
  {
    EntriesOfGroupsOf(items, Categories(items));
    GroupsPartition(items);
    GroupsSize(items);
  }

  /** Every entry is in the group of its category. */
  lemma {:induction false} MembersComplete(items: seq<Entry>, e: Entry)
    requires e in items
    ensures e in Members(items, e.1.category)
    decreases |items|
  {
    var init := items[..|items| - 1];
    var last := items[|items| - 1];
    assert items == init + [last];
    MembersSnoc(init, last, e.1.category);
    if e != last {
      assert e in init;
      MembersComplete(init, e);
    }
  }
}
