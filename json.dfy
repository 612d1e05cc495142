/** JSON values as Python's `json` module and pydantic hand them around,
    and the `sort_keys=True` canonical form that `json.dumps` writes.

    A Python dict is modelled as a sequence of key/value pairs in insertion
    order (`Fields`). Reading a key follows the way Python builds a dict from
    pairs: a later pair for the same key replaces an earlier one. */
module Json {
  import opened Results

  datatype Json =
    | Null
    | Bool(b: bool)
    | Int(i: int)
    | Str(s: string)
    | Arr(items: seq<Json>)
    | Obj(fields: Fields)

  type Fields = seq<(string, Json)>

  /** The keys of a dict, in insertion order. */
  function Keys(fs: Fields): (ks: seq<string>)
    ensures |ks| == |fs|
    ensures forall i :: 0 <= i < |fs| ==> ks[i] == fs[i].0
  {
    if fs == [] then [] else [fs[0].0] + Keys(fs[1..])
  }

  /** A dict literal: the keys `ks` bound to the values `vs`, in order. */
  function Zip(ks: seq<string>, vs: seq<Json>): (fs: Fields)
    requires |ks| == |vs|
    ensures |fs| == |ks|
    ensures forall i :: 0 <= i < |fs| ==> fs[i] == (ks[i], vs[i])
  {
    if ks == [] then [] else [(ks[0], vs[0])] + Zip(ks[1..], vs[1..])
  }

  lemma ZipKeys(ks: seq<string>, vs: seq<Json>)
    requires |ks| == |vs|
    ensures Keys(Zip(ks, vs)) == ks
  {
  }

  predicate Distinct(ks: seq<string>) {
    ks == [] || (ks[0] !in ks[1..] && Distinct(ks[1..]))
  }

  /** What every real Python dict satisfies: no key occurs twice. */
  predicate UniqueKeys(fs: Fields) {
    Distinct(Keys(fs))
  }

  /** `d.get(k)`: the value of the last pair with key `k`, if any. */
  function Lookup(fs: Fields, k: string): (r: Option<Json>)
  {
    if fs == [] then None
    else
      var later := Lookup(fs[1..], k);
      if later.Some? then later
      else if fs[0].0 == k then Some(fs[0].1)
      else None
  }

  lemma {:induction false} LookupAbsent(fs: Fields, k: string)
    ensures Lookup(fs, k).None? <==> k !in Keys(fs)
  {
    if fs != [] {
      LookupAbsent(fs[1..], k);
      assert Keys(fs) == [fs[0].0] + Keys(fs[1..]);
    }
  }

  /** A pair added at the end wins for its own key and hides nothing else. */
  lemma {:induction false} LookupAppend(fs: Fields, p: (string, Json), k: string)
    ensures Lookup(fs + [p], k) == if p.0 == k then Some(p.1) else Lookup(fs, k)
  {
    if fs == [] {
      assert [p][1..] == [];
    } else {
      assert (fs + [p])[1..] == fs[1..] + [p];
      LookupAppend(fs[1..], p, k);
    }
  }

  /** In a dict without repeated keys, `d[k]` is the value stored beside `k`. */
  lemma {:induction false} LookupAt(fs: Fields, i: int)
    requires UniqueKeys(fs)
    requires 0 <= i < |fs|
    ensures Lookup(fs, fs[i].0) == Some(fs[i].1)
  {
    assert Keys(fs)[1..] == Keys(fs[1..]);
    if i == 0 {
      LookupAbsent(fs[1..], fs[0].0);
    } else {
      LookupAt(fs[1..], i - 1);
    }
  }

  /** Lookup in a dict literal built by `Zip` from distinct keys. */
  lemma LookupZip(ks: seq<string>, vs: seq<Json>, i: int)
    requires |ks| == |vs| && Distinct(ks)
    requires 0 <= i < |ks|
    ensures Lookup(Zip(ks, vs), ks[i]) == Some(vs[i])
  {
    var fs := Zip(ks, vs);
    assert Keys(fs) == ks;
    LookupAt(fs, i);
  }

  /** The first key of `fs` outside `declared`, the one pydantic's
      `extra="forbid"` reports. */
  function FirstUndeclared(fs: Fields, declared: set<string>): (r: Option<string>)
    ensures r.None? <==> forall i :: 0 <= i < |fs| ==> fs[i].0 in declared
    ensures r.Some? ==> r.value in Keys(fs) && r.value !in declared
  {
    if fs == [] then None
    else if fs[0].0 !in declared then Some(fs[0].0)
    else FirstUndeclared(fs[1..], declared)
  }

  // ---------------------------------------------------------------------
  // Key order: Python's `<` on `str`, lexicographic by code point.

  predicate Below(a: string, b: string) {
    if a == [] then b != []
    else if b == [] then false
    else a[0] < b[0] || (a[0] == b[0] && Below(a[1..], b[1..]))
  }

  lemma {:induction false} BelowIrreflexive(a: string)
    ensures !Below(a, a)
  {
    if a != [] {
      BelowIrreflexive(a[1..]);
    }
  }

  lemma {:induction false} BelowTransitive(a: string, b: string, c: string)
    requires Below(a, b) && Below(b, c)
    ensures Below(a, c)
  {
    if a != [] && a[0] == b[0] && b[0] == c[0] {
      BelowTransitive(a[1..], b[1..], c[1..]);
    }
  }

  lemma {:induction false} BelowTotal(a: string, b: string)
    ensures a == b || Below(a, b) || Below(b, a)
  {
    if a != [] && b != [] && a[0] == b[0] {
      BelowTotal(a[1..], b[1..]);
      if a[1..] == b[1..] {
        assert a == [a[0]] + a[1..] && b == [b[0]] + b[1..];
      }
    }
  }

  lemma BelowAsymmetric(a: string, b: string)
    ensures !(Below(a, b) && Below(b, a))
  {
    if Below(a, b) && Below(b, a) {
      BelowTransitive(a, b, a);
      BelowIrreflexive(a);
    }
  }

  /** `a <= b` on Python strings is transitive. */
  lemma AtMostTransitive(a: string, b: string, c: string)
    requires !Below(b, a) && !Below(c, b)
    ensures !Below(c, a)
  {
    BelowTotal(a, b);
    BelowTotal(b, c);
    if Below(c, a) {
      if a == b {
      } else if b == c {
      } else {
        BelowTransitive(a, b, c);
        BelowAsymmetric(a, c);
      }
    }
  }

  // ---------------------------------------------------------------------
  // Sorting the pairs of a dict by key, as `sort_keys=True` does.

  predicate SortedByKey(fs: Fields) {
    forall i, j :: 0 <= i < j < |fs| ==> !Below(fs[j].0, fs[i].0)
  }

  predicate StrictlySortedByKey(fs: Fields) {
    forall i, j :: 0 <= i < j < |fs| ==> Below(fs[i].0, fs[j].0)
  }

  /** Places `p` before the first pair whose key is not below `p`'s. */
  function InsertByKey(p: (string, Json), fs: Fields): Fields {
    if fs == [] || !Below(fs[0].0, p.0) then [p] + fs
    else [fs[0]] + InsertByKey(p, fs[1..])
  }

  /** A stable sort of the pairs by key. */
  function SortByKey(fs: Fields): Fields {
    if fs == [] then [] else InsertByKey(fs[0], SortByKey(fs[1..]))
  }

  lemma {:induction false} InsertByKeyPerm(p: (string, Json), fs: Fields)
    ensures multiset(InsertByKey(p, fs)) == multiset(fs) + multiset{p}
  {
    if fs == [] || !Below(fs[0].0, p.0) {
      assert InsertByKey(p, fs) == [p] + fs;
    } else {
      InsertByKeyPerm(p, fs[1..]);
      assert fs == [fs[0]] + fs[1..];
      assert InsertByKey(p, fs) == [fs[0]] + InsertByKey(p, fs[1..]);
    }
  }

  /** Inserting a pair keeps a lower bound that every key respects. */
  lemma InsertByKeyLowerBound(p: (string, Json), fs: Fields, b: string)
    requires forall i :: 0 <= i < |fs| ==> !Below(fs[i].0, b)
    requires !Below(p.0, b)
    ensures forall j :: 0 <= j < |InsertByKey(p, fs)| ==> !Below(InsertByKey(p, fs)[j].0, b)
  {
    var r := InsertByKey(p, fs);
    InsertByKeyPerm(p, fs);
    forall j | 0 <= j < |r| ensures !Below(r[j].0, b) {
      assert r[j] in multiset(r);
      if r[j] != p {
        assert r[j] in multiset(fs);
        var k :| 0 <= k < |fs| && fs[k] == r[j];
      }
    }
  }

  lemma {:induction false} InsertByKeySorted(p: (string, Json), fs: Fields)
    requires SortedByKey(fs)
    ensures SortedByKey(InsertByKey(p, fs))
  {
    var r := InsertByKey(p, fs);
    if fs == [] || !Below(fs[0].0, p.0) {
      assert r == [p] + fs;
      forall i, j | 0 <= i < j < |r| ensures !Below(r[j].0, r[i].0) {
        if i == 0 {
          assert r[j] == fs[j - 1];
          if j >= 2 {
            AtMostTransitive(p.0, fs[0].0, fs[j - 1].0);
          }
        } else {
          assert r[i] == fs[i - 1] && r[j] == fs[j - 1];
        }
      }
    } else {
      var rest := fs[1..];
      assert SortedByKey(rest) by {
        forall i, j | 0 <= i < j < |rest| ensures !Below(rest[j].0, rest[i].0) {
          assert rest[i] == fs[i + 1] && rest[j] == fs[j + 1];
        }
      }
      var tail := InsertByKey(p, rest);
      InsertByKeySorted(p, rest);
      BelowAsymmetric(fs[0].0, p.0);
      assert forall k :: 0 <= k < |rest| ==> !Below(rest[k].0, fs[0].0) by {
        forall k | 0 <= k < |rest| ensures !Below(rest[k].0, fs[0].0) {
          assert rest[k] == fs[k + 1];
        }
      }
      InsertByKeyLowerBound(p, rest, fs[0].0);
      assert r == [fs[0]] + tail;
      forall i, j | 0 <= i < j < |r| ensures !Below(r[j].0, r[i].0) {
        if i == 0 {
          assert r[j] == tail[j - 1];
        } else {
          assert r[i] == tail[i - 1] && r[j] == tail[j - 1];
        }
      }
    }
  }

  /** Inserting into a sorted list keeps it sorted and adds just `p`. */
  lemma InsertByKeyCorrect(p: (string, Json), fs: Fields)
    requires SortedByKey(fs)
    ensures multiset(InsertByKey(p, fs)) == multiset(fs) + multiset{p}
    ensures SortedByKey(InsertByKey(p, fs))
  {
    InsertByKeyPerm(p, fs);
    InsertByKeySorted(p, fs);
  }

  /** `SortByKey` returns a sorted rearrangement of its input. */
  lemma {:induction false} SortByKeyCorrect(fs: Fields)
    ensures multiset(SortByKey(fs)) == multiset(fs)
    ensures SortedByKey(SortByKey(fs))
  {
    if fs != [] {
      SortByKeyCorrect(fs[1..]);
      InsertByKeyCorrect(fs[0], SortByKey(fs[1..]));
      assert fs == [fs[0]] + fs[1..];
    }
  }

  // ---------------------------------------------------------------------
  // Keys stay unique through the sort, so the sorted pairs are strictly
  // ascending, and a strictly ascending listing of a dict is unique.

  lemma {:induction false} DistinctPairwise(ks: seq<string>)
    requires Distinct(ks)
    ensures forall i, j :: 0 <= i < j < |ks| ==> ks[i] != ks[j]
  {
    if ks != [] {
      DistinctPairwise(ks[1..]);
      forall i, j | 0 <= i < j < |ks| ensures ks[i] != ks[j] {
        if i == 0 {
          assert ks[j] == ks[1..][j - 1];
        } else {
          assert ks[i] == ks[1..][i - 1] && ks[j] == ks[1..][j - 1];
        }
      }
    }
  }

  /** The converse: keys that differ pairwise are distinct. A literal list
      of names is shown distinct this way. */
  lemma {:induction false} PairwiseDistinct(ks: seq<string>)
    requires forall i, j :: 0 <= i < j < |ks| ==> ks[i] != ks[j]
    ensures Distinct(ks)
  {
    if ks != [] {
      forall i, j | 0 <= i < j < |ks[1..]| ensures ks[1..][i] != ks[1..][j] {
        assert ks[1..][i] == ks[i + 1] && ks[1..][j] == ks[j + 1];
      }
      PairwiseDistinct(ks[1..]);
    }
  }

  /** A cheap fingerprint of a name: its length and first character.
      Names with different fingerprints differ. */
  function NameTag(s: string): int {
    if s == [] then 0 else |s| * 256 + s[0] as int
  }

  /** A new key in front of distinct keys keeps them distinct. */
  lemma DistinctCons(k: string, ks: seq<string>)
    requires Distinct(ks) && k !in ks
    ensures Distinct([k] + ks)
  {
    assert ([k] + ks)[1..] == ks;
  }

  /** A list of names whose fingerprints differ pairwise is distinct;
      long literal lists are shown distinct this way, comparing numbers
      instead of strings. */
  lemma TagsDistinct(ks: seq<string>)
    requires forall i, j :: 0 <= i < j < |ks| ==> NameTag(ks[i]) != NameTag(ks[j])
    ensures Distinct(ks)
  {
    PairwiseDistinct(ks);
  }

  lemma {:induction false} InsertByKeyUnique(p: (string, Json), fs: Fields)
    requires UniqueKeys(fs) && p.0 !in Keys(fs)
    ensures UniqueKeys(InsertByKey(p, fs))
    ensures forall k :: k in Keys(InsertByKey(p, fs)) <==> k == p.0 || k in Keys(fs)
  {
    assert Keys([p] + fs) == [p.0] + Keys(fs);
    if fs != [] && Below(fs[0].0, p.0) {
      assert Keys(fs) == [fs[0].0] + Keys(fs[1..]);
      InsertByKeyUnique(p, fs[1..]);
      var tail := InsertByKey(p, fs[1..]);
      assert Keys([fs[0]] + tail) == [fs[0].0] + Keys(tail);
    }
  }

  lemma {:induction false} SortByKeyUnique(fs: Fields)
    requires UniqueKeys(fs)
    ensures UniqueKeys(SortByKey(fs))
    ensures forall k :: k in Keys(SortByKey(fs)) <==> k in Keys(fs)
  {
    if fs != [] {
      assert Keys(fs) == [fs[0].0] + Keys(fs[1..]);
      SortByKeyUnique(fs[1..]);
      InsertByKeyUnique(fs[0], SortByKey(fs[1..]));
    }
  }

  lemma SortedUniqueIsStrict(fs: Fields)
    requires SortedByKey(fs) && UniqueKeys(fs)
    ensures StrictlySortedByKey(fs)
  {
    DistinctPairwise(Keys(fs));
    forall i, j | 0 <= i < j < |fs| ensures Below(fs[i].0, fs[j].0) {
      assert Keys(fs)[i] != Keys(fs)[j];
      BelowTotal(fs[i].0, fs[j].0);
    }
  }

  lemma HeadIsMember(b: Fields)
    requires b != []
    ensures b[0] in b
  {
  }

  /** Two strictly ascending listings of the same pairs are the same listing. */
  lemma {:induction false} StrictListingUnique(a: Fields, b: Fields)
    requires StrictlySortedByKey(a) && StrictlySortedByKey(b)
    requires forall p :: p in a <==> p in b
    ensures a == b
  {
    if a == [] {
      if b != [] {
        HeadIsMember(b);
        assert false;
      }
    } else {
      assert a[0] in b;
      assert b != [];
      assert b[0] in a;
      var i :| 0 <= i < |a| && a[i] == b[0];
      var j :| 0 <= j < |b| && b[j] == a[0];
      if i != 0 {
        if j != 0 {
          BelowAsymmetric(a[0].0, b[0].0);
        } else {
          BelowIrreflexive(a[0].0);
        }
      }
      assert a[0] == b[0];
      forall p ensures p in a[1..] <==> p in b[1..] {
        if p in a[1..] {
          var k :| 1 <= k < |a| && a[k] == p;
          BelowIrreflexive(a[0].0);
          assert p != a[0];
          assert p in b;
        }
        if p in b[1..] {
          var k :| 1 <= k < |b| && b[k] == p;
          BelowIrreflexive(b[0].0);
          assert p != b[0];
          assert p in a;
        }
      }
      StrictListingUnique(a[1..], b[1..]);
      assert a == [a[0]] + a[1..] && b == [b[0]] + b[1..];
    }
  }

  // ---------------------------------------------------------------------
  // The canonical form `json.dumps(..., sort_keys=True)` writes: every
  // object, at every depth, has its pairs sorted by key.

  function SortKeys(j: Json): (r: Json)
    decreases j, 1
  {
    match j
    case Arr(items) => Arr(SortItems(items))
    case Obj(fs) => Obj(SortByKey(SortValues(fs)))
    case _ => j
  }

  function SortItems(items: seq<Json>): (r: seq<Json>)
    decreases Arr(items), 0
    ensures |r| == |items|
    ensures forall i :: 0 <= i < |items| ==> r[i] == SortKeys(items[i])
  {
    seq(|items|, i requires 0 <= i < |items| => SortKeys(items[i]))
  }

  /** The pairs of `fs` with every value put in canonical form. */
  function SortValues(fs: Fields): (r: Fields)
    decreases Obj(fs), 0
    ensures |r| == |fs|
    ensures forall i :: 0 <= i < |fs| ==> r[i] == (fs[i].0, SortKeys(fs[i].1))
  {
    seq(|fs|, i requires 0 <= i < |fs| => (fs[i].0, SortKeys(fs[i].1)))
  }

  /** Every object, at every depth, lists its pairs in key order. */
  predicate KeysSorted(j: Json) {
    match j
    case Arr(items) => forall i :: 0 <= i < |items| ==> KeysSorted(items[i])
    case Obj(fs) => SortedByKey(fs) && forall i :: 0 <= i < |fs| ==> KeysSorted(fs[i].1)
    case _ => true
  }

  /** The text `sort_keys=True` writes is in canonical form at every depth. */
  lemma {:induction false} SortKeysSorted(j: Json)
    ensures KeysSorted(SortKeys(j))
  {
    match j
    case Arr(items) =>
      forall i | 0 <= i < |items| ensures KeysSorted(SortKeys(items[i])) {
        SortKeysSorted(items[i]);
      }
    case Obj(fs) =>
      var vs := SortValues(fs);
      var r := SortByKey(vs);
      SortByKeyCorrect(vs);
      forall i | 0 <= i < |r| ensures KeysSorted(r[i].1) {
        assert r[i] in multiset(vs);
        var k :| 0 <= k < |vs| && vs[k] == r[i];
        SortKeysSorted(fs[k].1);
      }
    case _ =>
  }

  /** Python's `==` on decoded JSON values: dicts (without repeated keys)
      are equal when they have the same keys and, under each key, equal
      values, whatever their insertion order; lists are equal item by item;
      other values when identical. (`True == 1` holds in Python, but
      `json.dumps` writes the two differently, so the scalars are compared
      as JSON values.) */
  ghost predicate PyEq(a: Json, b: Json)
    decreases a
  {
    match a
    case Arr(xs) => b.Arr? && |xs| == |b.items| && forall i :: 0 <= i < |xs| ==> PyEq(xs[i], b.items[i])
    case Obj(fs) =>
      && b.Obj? && UniqueKeys(fs) && UniqueKeys(b.fields)
      && (forall k :: k in Keys(fs) <==> k in Keys(b.fields))
      && forall i :: 0 <= i < |fs| ==>
           Lookup(b.fields, fs[i].0).Some? && PyEq(fs[i].1, Lookup(b.fields, fs[i].0).value)
    case _ => a == b
  }

  lemma SortValuesKeys(fs: Fields)
    ensures Keys(SortValues(fs)) == Keys(fs)
  {
  }

  /** Sorting the keys of a dict without repeated keys gives a strictly
      ascending listing of the same pairs. */
  lemma SortByKeyStrict(fs: Fields)
    requires UniqueKeys(fs)
    ensures StrictlySortedByKey(SortByKey(fs))
    ensures forall p :: p in SortByKey(fs) <==> p in fs
  {
    SortByKeyCorrect(fs);
    SortByKeyUnique(fs);
    SortedUniqueIsStrict(SortByKey(fs));
    forall p ensures p in SortByKey(fs) <==> p in fs {
      assert p in SortByKey(fs) <==> p in multiset(SortByKey(fs));
      assert p in fs <==> p in multiset(fs);
    }
  }

  /** Values equal in Python's sense are written as the same text: the
      serialisation depends on no insertion order, at any depth. */
  lemma {:induction false} PyEqSameText(a: Json, b: Json)
    requires PyEq(a, b)
    ensures SortKeys(a) == SortKeys(b)
    decreases a
  {
    match a
    case Arr(xs) =>
      forall i | 0 <= i < |xs| ensures SortKeys(xs[i]) == SortKeys(b.items[i]) {
        PyEqSameText(xs[i], b.items[i]);
      }
      assert SortItems(xs) == SortItems(b.items);
    case Obj(fs) =>
      var gs := b.fields;
      forall i | 0 <= i < |fs| ensures SortKeys(fs[i].1) == SortKeys(Lookup(gs, fs[i].0).value) {
        PyEqSameText(fs[i].1, Lookup(gs, fs[i].0).value);
      }
      SameDictSameText(fs, gs);
    case _ =>
  }

  /** Two dicts with the same keys whose values under each key have the
      same canonical form have the same canonical form. */
  lemma SameDictSameText(fs: Fields, gs: Fields)
    requires UniqueKeys(fs) && UniqueKeys(gs)
    requires forall k :: k in Keys(fs) <==> k in Keys(gs)
    requires forall i :: 0 <= i < |fs| ==>
      Lookup(gs, fs[i].0).Some? && SortKeys(fs[i].1) == SortKeys(Lookup(gs, fs[i].0).value)
    ensures SortKeys(Obj(fs)) == SortKeys(Obj(gs))
  {
    var va, vb := SortValues(fs), SortValues(gs);
    SortValuesKeys(fs);
    SortValuesKeys(gs);
    forall p | p in va ensures p in vb {
      SortedPairFound(fs, gs, p);
    }
    forall p | p in vb ensures p in va {
      SortedPairFoundBack(fs, gs, p);
    }
    SortByKeyStrict(va);
    SortByKeyStrict(vb);
    StrictListingUnique(SortByKey(va), SortByKey(vb));
  }

  lemma SortedPairFound(fs: Fields, gs: Fields, p: (string, Json))
    requires UniqueKeys(gs)
    requires forall i :: 0 <= i < |fs| ==>
      Lookup(gs, fs[i].0).Some? && SortKeys(fs[i].1) == SortKeys(Lookup(gs, fs[i].0).value)
    requires p in SortValues(fs)
    ensures p in SortValues(gs)
  {
    var va, vb := SortValues(fs), SortValues(gs);
    var i :| 0 <= i < |va| && va[i] == p;
    var k := fs[i].0;
    LookupAbsent(gs, k);
    var j :| 0 <= j < |gs| && Keys(gs)[j] == k;
    LookupAt(gs, j);
    assert vb[j] == p;
  }

  lemma SortedPairFoundBack(fs: Fields, gs: Fields, p: (string, Json))
    requires UniqueKeys(gs)
    requires forall k :: k in Keys(fs) <==> k in Keys(gs)
    requires forall i :: 0 <= i < |fs| ==>
      Lookup(gs, fs[i].0).Some? && SortKeys(fs[i].1) == SortKeys(Lookup(gs, fs[i].0).value)
    requires p in SortValues(gs)
    ensures p in SortValues(fs)
  {
    var va, vb := SortValues(fs), SortValues(gs);
    var j :| 0 <= j < |vb| && vb[j] == p;
    var k := gs[j].0;
    assert k in Keys(gs) by { assert Keys(gs)[j] == k; }
    assert k in Keys(fs);
    var i :| 0 <= i < |Keys(fs)| && Keys(fs)[i] == k;
    assert fs[i].0 == k;
    LookupAt(gs, j);
    assert Lookup(gs, k) == Some(gs[j].1);
    assert SortKeys(fs[i].1) == SortKeys(gs[j].1);
    assert va[i] == (k, SortKeys(fs[i].1));
    assert vb[j] == (k, SortKeys(gs[j].1));
  }

  // ---------------------------------------------------------------------
  // Sorting keeps the content: the canonical form is the same value.

  /** No dict at any depth repeats a key, as holds for every dict Python
      builds (`json.loads` keeps only the last of a repeated key). */
  predicate DeepUnique(j: Json) {
    match j
    case Arr(items) => forall i :: 0 <= i < |items| ==> DeepUnique(items[i])
    case Obj(fs) => UniqueKeys(fs) && forall i :: 0 <= i < |fs| ==> DeepUnique(fs[i].1)
    case _ => true
  }

  /** Sorting the keys, at every depth, leaves a value equal to the one
      sorted: the same keys, each holding an equal value, and the same
      items in the same order. */
  lemma {:induction false} SortKeysKeeps(j: Json)
    requires DeepUnique(j)
    ensures PyEq(SortKeys(j), j)
    decreases j
  {
    match j
    case Arr(items) =>
      forall i | 0 <= i < |items| ensures PyEq(SortKeys(items[i]), items[i]) {
        SortKeysKeeps(items[i]);
      }
    case Obj(fs) =>
      var vs := SortValues(fs);
      var r := SortByKey(vs);
      SortValuesKeys(fs);
      SortByKeyCorrect(vs);
      SortByKeyUnique(vs);
      forall i | 0 <= i < |r| ensures Lookup(fs, r[i].0).Some? && PyEq(r[i].1, Lookup(fs, r[i].0).value) {
        assert r[i] in multiset(vs);
        var k :| 0 <= k < |vs| && vs[k] == r[i];
        LookupAt(fs, k);
        SortKeysKeeps(fs[k].1);
      }
    case _ =>
  }
}
