// The value semantics of a Python `dict` with string keys: a mapping that
// remembers the order in which keys were first inserted. Writing a key that
// is already present replaces its value and leaves the key where it was;
// writing a new key appends it. `len(d)` is the number of distinct keys.
module OrderedMap {

  /** `keys` is the iteration order, `values` the mapping. */
  datatype OMap<V> = OMap(keys: seq<string>, values: map<string, V>)

  predicate NoDup<T(==)>(s: seq<T>) {
    forall i, j :: 0 <= i < j < |s| ==> s[i] != s[j]
  }

  /** The keys are distinct and are exactly the domain of the mapping. */
  ghost predicate Valid<V>(d: OMap<V>) {
    NoDup(d.keys) && (forall k :: k in d.values <==> k in d.keys)
  }

  /** `{}` */
  function Empty<V>(): (d: OMap<V>)
    ensures Valid(d) && |d.keys| == 0
  {
    OMap([], map[])
  }

  /** `d[k] = v`: afterwards `k` maps to `v` and every other key is as it was;
      keys already present keep their position, and the count grows only
      when `k` is new, by appending it. */
  function Put<V>(d: OMap<V>, k: string, v: V): (r: OMap<V>)
    ensures Valid(d) ==> Valid(r)
    ensures k in r.values && r.values[k] == v
    ensures forall k' :: k' != k ==> (k' in r.values <==> k' in d.values)
    ensures forall k' :: k' != k && k' in d.values ==> r.values[k'] == d.values[k']
    ensures d.keys <= r.keys
    ensures Valid(d) ==> (k in d.values <==> r.keys == d.keys)
    ensures k !in d.values ==> r.keys == d.keys + [k]
  {
    if k in d.values then OMap(d.keys, d.values[k := v]) else OMap(d.keys + [k], d.values[k := v])
  }

  /** The keys written by a sequence of pairs. */
  function KeysOf<V>(s: seq<(string, V)>): set<string> {
    set i | 0 <= i < |s| :: s[i].0
  }

  function Firsts<V>(s: seq<(string, V)>): (r: seq<string>)
    ensures |r| == |s| && forall i :: 0 <= i < |s| ==> r[i] == s[i].0
  {
    seq(|s|, i requires 0 <= i < |s| => s[i].0)
  }

  lemma KeysOfConcat<V>(s: seq<(string, V)>, t: seq<(string, V)>)
    ensures KeysOf(s + t) == KeysOf(s) + KeysOf(t)
  {
    forall k | k in KeysOf(s + t) ensures k in KeysOf(s) + KeysOf(t) {
      var i :| 0 <= i < |s + t| && (s + t)[i].0 == k;
      if i >= |s| { assert t[i - |s|].0 == k; }
    }
    forall k | k in KeysOf(s) + KeysOf(t) ensures k in KeysOf(s + t) {
      if k in KeysOf(s) {
        var i :| 0 <= i < |s| && s[i].0 == k;
        assert (s + t)[i].0 == k;
      } else {
        var i :| 0 <= i < |t| && t[i].0 == k;
        assert (s + t)[|s| + i].0 == k;
      }
    }
  }

  lemma KeysOfCons<V>(s: seq<(string, V)>)
    requires s != []
    ensures KeysOf(s) == {s[0].0} + KeysOf(s[1..])
  {
    assert s == [s[0]] + s[1..];
    KeysOfConcat([s[0]], s[1..]);
    assert KeysOf([s[0]]) == {s[0].0};
  }

  /** Writing the pairs of `s` one after another, as a loop of `d[k] = v`
      does. The keys present before keep their positions; afterwards the keys
      are those present before together with those written. */
  function PutAll<V>(d: OMap<V>, s: seq<(string, V)>): (r: OMap<V>)
    ensures Valid(d) ==> Valid(r)
    ensures d.keys <= r.keys
    ensures forall k :: k in r.values <==> k in d.values || k in KeysOf(s)
    decreases |s|
  {
    if s == [] then d
    else
      KeysOfCons(s);
      PutAll(Put(d, s[0].0, s[0].1), s[1..])
  }

  /** A dictionary built from nothing by writing the pairs of `s`. */
  function FromPairs<V>(s: seq<(string, V)>): (r: OMap<V>)
    ensures Valid(r)
    ensures forall k :: k in r.values <==> k in KeysOf(s)
    ensures |r.keys| == |KeysOf(s)|
  {
    var r := PutAll(Empty(), s);
    ValidCount(r);
    assert r.values.Keys == KeysOf(s);
    r
  }

  /** `list(d.items())`. */
  function Items<V>(d: OMap<V>): (r: seq<(string, V)>)
    requires Valid(d)
    ensures |r| == |d.keys|
    ensures forall i :: 0 <= i < |r| ==> r[i].0 == d.keys[i] && r[i].1 == d.values[d.keys[i]]
  {
    seq(|d.keys|, i requires 0 <= i < |d.keys| => (d.keys[i], d.values[d.keys[i]]))
  }

  // ---------------------------------------------------------------------------
  // Lemmas

  lemma {:induction false} NoDupCard(ks: seq<string>)
    requires NoDup(ks)
    ensures |set i | 0 <= i < |ks| :: ks[i]| == |ks|
  {
    if ks != [] {
      var init := ks[..|ks| - 1];
      NoDupCard(init);
      var a := set i | 0 <= i < |init| :: init[i];
      var b := set i | 0 <= i < |ks| :: ks[i];
      assert b == a + {ks[|ks| - 1]} by {
        forall k | k in b ensures k in a + {ks[|ks| - 1]} {
          var i :| 0 <= i < |ks| && ks[i] == k;
          if i < |ks| - 1 { assert init[i] == k; }
        }
        forall k | k in a ensures k in b {
          var i :| 0 <= i < |init| && init[i] == k;
          assert ks[i] == k;
        }
      }
      assert ks[|ks| - 1] !in a;
    }
  }

  /** `len(d)`: the number of keys equals the number of entries. */
  lemma ValidCount<V>(d: OMap<V>)
    requires Valid(d)
    ensures |d.keys| == |d.values.Keys|
  {
    NoDupCard(d.keys);
    assert d.values.Keys == set i | 0 <= i < |d.keys| :: d.keys[i] by {
      forall k | k in d.values.Keys ensures k in set i | 0 <= i < |d.keys| :: d.keys[i] {
        var i :| 0 <= i < |d.keys| && d.keys[i] == k;
      }
    }
  }

  /** Writing `s + t` is writing `s`, then `t`. */
  lemma {:induction false} PutAllAppend<V>(d: OMap<V>, s: seq<(string, V)>, t: seq<(string, V)>)
    ensures PutAll(d, s + t) == PutAll(PutAll(d, s), t)
    decreases |s|
  {
    if s == [] {
      assert s + t == t;
    } else {
      assert (s + t)[0] == s[0];
      assert (s + t)[1..] == s[1..] + t;
      PutAllAppend(Put(d, s[0].0, s[0].1), s[1..], t);
    }
  }

  lemma PutAllSnoc<V>(d: OMap<V>, s: seq<(string, V)>, k: string, v: V)
    ensures PutAll(d, s + [(k, v)]) == Put(PutAll(d, s), k, v)
  {
    PutAllAppend(d, s, [(k, v)]);
    assert [(k, v)][1..] == [];
  }

  /** A key that `s` does not write keeps its value. */
  lemma {:induction false} PutAllUntouched<V>(d: OMap<V>, s: seq<(string, V)>, k: string)
    requires k !in KeysOf(s) && k in d.values
    ensures k in PutAll(d, s).values && PutAll(d, s).values[k] == d.values[k]
    decreases |s|
  {
    if s != [] {
      KeysOfCons(s);
      PutAllUntouched(Put(d, s[0].0, s[0].1), s[1..], k);
    }
  }

  /** Last write wins: the value of a key is the one its final write wrote. */
  lemma PutAllLastWrite<V>(d: OMap<V>, s: seq<(string, V)>, i: nat)
    requires i < |s|
    requires forall j :: i < j < |s| ==> s[j].0 != s[i].0
    ensures s[i].0 in PutAll(d, s).values && PutAll(d, s).values[s[i].0] == s[i].1
  {
    var pre, post := s[..i + 1], s[i + 1..];
    assert s == pre + post;
    PutAllAppend(d, pre, post);
    assert pre == s[..i] + [s[i]];
    PutAllSnoc(d, s[..i], s[i].0, s[i].1);
    assert s[i].0 !in KeysOf(post) by {
      forall j | 0 <= j < |post| ensures post[j].0 != s[i].0 {
        assert post[j] == s[i + 1 + j];
      }
    }
    PutAllUntouched(PutAll(d, pre), post, s[i].0);
  }

  /** When every write of `k` in `s` writes the same `v`, the result maps `k`
      to `v`, whatever the order. */
  lemma {:induction false} PutAllConsistent<V>(d: OMap<V>, s: seq<(string, V)>, k: string, v: V)
    requires k in KeysOf(s)
    requires forall j :: 0 <= j < |s| && s[j].0 == k ==> s[j].1 == v
    ensures k in PutAll(d, s).values && PutAll(d, s).values[k] == v
    decreases |s|
  {
    KeysOfCons(s);
    var d' := Put(d, s[0].0, s[0].1);
    if k in KeysOf(s[1..]) {
      forall j | 0 <= j < |s[1..]| && s[1..][j].0 == k ensures s[1..][j].1 == v {
        assert s[1..][j] == s[j + 1];
      }
      PutAllConsistent(d', s[1..], k, v);
    } else {
      PutAllUntouched(d', s[1..], k);
    }
  }

  /** `len` after the writes is the number of distinct keys present before or
      written, not the number of writes. */
  lemma PutAllCount<V>(d: OMap<V>, s: seq<(string, V)>)
    requires Valid(d)
    ensures |PutAll(d, s).keys| == |d.values.Keys + KeysOf(s)|
  {
    var r := PutAll(d, s);
    ValidCount(r);
    assert r.values.Keys == d.values.Keys + KeysOf(s);
  }

  lemma FirstsCons<V>(s: seq<(string, V)>)
    requires s != []
    ensures Firsts(s) == [s[0].0] + Firsts(s[1..])
  {
  }

  lemma AppendAssoc<T>(a: seq<T>, b: seq<T>, c: seq<T>)
    ensures a + (b + c) == (a + b) + c
  {
  }

  lemma FreshTail<V>(d: OMap<V>, s: seq<(string, V)>)
    requires s != [] && NoDup(Firsts(s))
    requires forall i :: 0 <= i < |s| ==> s[i].0 !in d.values
    ensures NoDup(Firsts(s[1..]))
    ensures forall i :: 0 <= i < |s[1..]| ==> s[1..][i].0 !in Put(d, s[0].0, s[0].1).values
  {
    var t := s[1..];
    forall i, j | 0 <= i < j < |t| ensures Firsts(t)[i] != Firsts(t)[j] {
      assert Firsts(s)[i + 1] != Firsts(s)[j + 1];
    }
    forall i | 0 <= i < |t| ensures t[i].0 !in Put(d, s[0].0, s[0].1).values {
      assert Firsts(s)[i + 1] != Firsts(s)[0];
    }
  }

  /** Writing distinct new keys appends them in the order written. */
  lemma {:induction false} PutAllFreshKeys<V>(d: OMap<V>, s: seq<(string, V)>)
    requires NoDup(Firsts(s))
    requires forall i :: 0 <= i < |s| ==> s[i].0 !in d.values
    ensures PutAll(d, s).keys == d.keys + Firsts(s)
    decreases |s|
  {
    if s == [] {
      assert d.keys + Firsts(s) == d.keys;
    } else {
      var d' := Put(d, s[0].0, s[0].1);
      var t := s[1..];
      assert PutAll(d, s) == PutAll(d', t);
      assert PutAll(d', t).keys == d'.keys + Firsts(t) by {
        FreshTail(d, s);
        PutAllFreshKeys(d', t);
      }
      assert d'.keys == d.keys + [s[0].0];
      FirstsCons(s);
      AppendAssoc(d.keys, [s[0].0], Firsts(t));
    }
  }

  /** With distinct keys, every pair's value is the one stored. */
  lemma PutAllDistinctValues<V>(d: OMap<V>, s: seq<(string, V)>)
    requires NoDup(Firsts(s))
    ensures forall i :: 0 <= i < |s| ==> PutAll(d, s).values[s[i].0] == s[i].1
  {
    forall i | 0 <= i < |s| ensures PutAll(d, s).values[s[i].0] == s[i].1 {
      forall j | i < j < |s| ensures s[j].0 != s[i].0 {
        assert Firsts(s)[i] != Firsts(s)[j];
      }
      PutAllLastWrite(d, s, i);
    }
  }

  /** A dictionary literal with distinct keys iterates in the order written. */
  lemma FromPairsDistinct<V>(s: seq<(string, V)>)
    requires NoDup(Firsts(s))
    ensures FromPairs(s).keys == Firsts(s)
    ensures forall i :: 0 <= i < |s| ==> FromPairs(s).values[s[i].0] == s[i].1
  {
    PutAllFreshKeys(Empty(), s);
    PutAllDistinctValues(Empty(), s);
    assert Empty<V>().keys + Firsts(s) == Firsts(s);
  }

  /** `dict(d.items()) == d`. */
  lemma ItemsRoundTrip<V>(d: OMap<V>)
    requires Valid(d)
    ensures FromPairs(Items(d)) == d
  {
    var it := Items(d);
    assert Firsts(it) == d.keys;
    FromPairsDistinct(it);
    var r := FromPairs(it);
    assert r.values.Keys == d.values.Keys by {
      forall k ensures k in r.values <==> k in d.values {
        if k in d.values {
          var i :| 0 <= i < |d.keys| && d.keys[i] == k;
          assert it[i].0 == k;
        }
      }
    }
    forall k | k in d.values ensures r.values[k] == d.values[k] {
      var i :| 0 <= i < |d.keys| && d.keys[i] == k;
    }
    assert r.values == d.values;
  }

  /** Writing `d`'s own items into `c` brings every entry of `d` into `c`. */
  lemma PutAllItems<V>(c: OMap<V>, d: OMap<V>, k: string)
    requires Valid(d) && k in d.values
    ensures k in PutAll(c, Items(d)).values && PutAll(c, Items(d)).values[k] == d.values[k]
  {
    var it := Items(d);
    var i :| 0 <= i < |d.keys| && d.keys[i] == k;
    forall j | i < j < |it| ensures it[j].0 != it[i].0 { }
    PutAllLastWrite(c, it, i);
  }

  /** Every value after the writes was there before or was written by one of
      the pairs. */
  lemma {:induction false} PutAllValueFrom<V>(d: OMap<V>, s: seq<(string, V)>, k: string)
    requires k in PutAll(d, s).values
    ensures (k in d.values && PutAll(d, s).values[k] == d.values[k])
            || exists i :: 0 <= i < |s| && s[i] == (k, PutAll(d, s).values[k])
    decreases |s|
  {
    if s != [] {
      var d' := Put(d, s[0].0, s[0].1);
      var v := PutAll(d, s).values[k];
      assert PutAll(d, s) == PutAll(d', s[1..]);
      PutAllValueFrom(d', s[1..], k);
      if exists i :: 0 <= i < |s[1..]| && s[1..][i] == (k, v) {
        var i :| 0 <= i < |s[1..]| && s[1..][i] == (k, v);
        assert s[i + 1] == (k, v);
      } else if k == s[0].0 {
        assert s[0] == (k, v);
      }
    }
  }

  /** Every value of a dictionary literal is one of its pairs' values. */
  lemma FromPairsValueFrom<V>(s: seq<(string, V)>, k: string)
    requires k in FromPairs(s).values
    ensures exists i :: 0 <= i < |s| && s[i] == (k, FromPairs(s).values[k])
  {
    PutAllValueFrom(Empty(), s, k);
  }

  /** One more step of a loop over `s`. */
  lemma PutAllPrefixStep<V>(d: OMap<V>, s: seq<(string, V)>, i: nat)
    requires i < |s|
    ensures PutAll(d, s[..i + 1]) == Put(PutAll(d, s[..i]), s[i].0, s[i].1)
  {
    assert s[..i + 1] == s[..i] + [(s[i].0, s[i].1)];
    PutAllSnoc(d, s[..i], s[i].0, s[i].1);
  }

  /** One pair of a dictionary literal with distinct keys. */
  lemma FromPairsAt<V>(s: seq<(string, V)>, i: nat)
    requires NoDup(Firsts(s)) && i < |s|
    ensures |FromPairs(s).keys| == |s| && FromPairs(s).keys[i] == s[i].0
    ensures s[i].0 in FromPairs(s).values && FromPairs(s).values[s[i].0] == s[i].1
  {
    FromPairsDistinct(s);
  }

  /** Two maps with the same keys and the same value at every key are equal. */
  lemma MapsEqual<V>(m1: map<string, V>, m2: map<string, V>)
    requires m1.Keys == m2.Keys
    requires forall k :: k in m1 ==> m1[k] == m2[k]
    ensures m1 == m2
  {
  }
}
