// `results["search_results"]`: the dictionary every generator writes into,
// from display name to search record.
module Catalog {
  import opened OrderedMap

  /** One search record: `{"url": ..., "category": ..., "info": ...}`. */
  datatype Target = Target(url: string, category: string, info: string)

  /** A catalog entry: display name and record, as `dict.items()` yields it. */
  type Entry = (string, Target)

  /** The shared catalog, updated in place. `keys` is the iteration order and
      `entries` the records; a write replaces a record whole. */
  class ResultCatalog {
    var keys: seq<string>
    var entries: map<string, Target>

    ghost predicate Valid()
      reads this
    {
      OrderedMap.Valid(Model())
    }

    /** The catalog as a dictionary value. */
    function Model(): OMap<Target>
      reads this
    {
      OMap(keys, entries)
    }

    /** `{}` */
    constructor()
      ensures Valid() && Model() == Empty()
    {
      keys := [];
      entries := map[];
    }

    /** `len(search_results)`: the number of distinct display names. */
    function Count(): (n: nat)
      reads this
      requires Valid()
      ensures n == |entries.Keys|
    {
      ValidCount(Model());
      |keys|
    }

    /** `search_results[k] = t`. */
    method Put(k: string, t: Target)
      requires Valid()
      modifies this
      ensures Valid()
      ensures Model() == OrderedMap.Put(old(Model()), k, t)
    {
      if k !in entries {
        keys := keys + [k];
      }
      entries := entries[k := t];
    }

    /** `for k, t in local.items(): search_results[k] = t`, the loop every
        generator ends with. */
    method PutAll(local: OMap<Target>)
      requires Valid() && OrderedMap.Valid(local)
      modifies this
      ensures Valid()
      ensures Model() == OrderedMap.PutAll(old(Model()), Items(local))
    {
      ghost var start := Model();
      ghost var items := Items(local);
      var i := 0;
      while i < |local.keys|
        invariant 0 <= i <= |items|
        invariant Valid()
        invariant Model() == OrderedMap.PutAll(start, items[..i])
      {
        var k := local.keys[i];
        PutAllPrefixStep(start, items, i);
        Put(k, local.values[k]);
        i := i + 1;
      }
      assert items[..i] == items;
    }
  }
}
