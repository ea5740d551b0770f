/** `AddPrecompiledViews`: the factory that loads the `precompiledviews`
    assembly and indexes its exported types by the path of their
    `ViewPath` attributes, with `ToDictionary` and its default (ordinal,
    case-sensitive) string comparer. */
module PrecompiledViews {
  import opened Wrappers

  type TypeName = string

  /** An exported type and the `Path` of each of its `ViewPath` attributes. */
  datatype ExportedType = ExportedType(name: TypeName, viewPaths: seq<string>)

  /** One `select new { attribute.Path, type }` row. */
  datatype ViewEntry = ViewEntry(path: string, typeName: TypeName)

  datatype IndexError =
      // `Assembly.Load(new AssemblyName("precompiledviews"))` threw
    | AssemblyLoadFailed
      // `ToDictionary` met a key a second time and threw
    | DuplicateKey(path: string)

  const ArtifactAssemblyName: string := "precompiledviews"

  /** The rows of one type, one per attribute, in attribute order. */
  function TypeEntries(t: ExportedType): (r: seq<ViewEntry>)
    ensures |r| == |t.viewPaths|
    ensures forall i :: 0 <= i < |r| ==> r[i] == ViewEntry(t.viewPaths[i], t.name)
  {
    seq(|t.viewPaths|, i requires 0 <= i < |t.viewPaths| => ViewEntry(t.viewPaths[i], t.name))
  }

  /** The query: every type, then every attribute of it. */
  function ViewEntries(types: seq<ExportedType>): (r: seq<ViewEntry>)
    ensures forall e :: e in r ==>
      exists k :: 0 <= k < |types| && e.typeName == types[k].name && e.path in types[k].viewPaths
  {
    if types == [] then []
    else
      var init := types[..|types| - 1];
      var t := types[|types| - 1];
      assert forall k :: 0 <= k < |init| ==> init[k] == types[k];
      assert forall e :: e in TypeEntries(t) ==> e.typeName == t.name && e.path in t.viewPaths;
      ViewEntries(init) + TypeEntries(t)
  }

  predicate DistinctKeys(entries: seq<ViewEntry>) {
    forall i, j :: 0 <= i < j < |entries| ==> entries[i].path != entries[j].path
  }

  function EntryKeys(entries: seq<ViewEntry>): set<string> {
    set e | e in entries :: e.path
  }

  lemma DistinctKeysSnoc(init: seq<ViewEntry>, e: ViewEntry)
    ensures DistinctKeys(init + [e]) <==> DistinctKeys(init) && e.path !in EntryKeys(init)
  {
    var entries := init + [e];
    if DistinctKeys(entries) {
      forall i | 0 <= i < |init|
        ensures init[i].path != e.path
      {
        assert init[i] == entries[i] && e == entries[|init|];
      }
      assert forall x | x in init :: x.path != e.path;
      forall i, j | 0 <= i < j < |init|
        ensures init[i].path != init[j].path
      {
        assert init[i] == entries[i] && init[j] == entries[j];
      }
    }
    if DistinctKeys(init) && e.path !in EntryKeys(init) {
      forall i, j | 0 <= i < j < |entries|
        ensures entries[i].path != entries[j].path
      {
        if j == |init| {
          assert entries[i] in init;
        } else {
          assert entries[i] == init[i] && entries[j] == init[j];
        }
      }
    }
  }

  /** `ToDictionary`: add the rows in order; a key met twice is an error, and
      an entry is never overwritten. */
  function ToDictionary(entries: seq<ViewEntry>): (r: Result<map<string, TypeName>, IndexError>)
    ensures r.Ok? <==> DistinctKeys(entries)
    ensures r.Ok? ==> r.value.Keys == EntryKeys(entries)
    ensures r.Ok? ==> forall i :: 0 <= i < |entries| ==> r.value[entries[i].path] == entries[i].typeName
    ensures r.Err? ==> r.error.DuplicateKey? && r.error.path in EntryKeys(entries)
  {
    if entries == [] then Ok(map[])
    else
      var init := entries[..|entries| - 1];
      var e := entries[|entries| - 1];
      assert entries == init + [e];
      DistinctKeysSnoc(init, e);
      assert EntryKeys(entries) == EntryKeys(init) + {e.path};
      match ToDictionary(init)
      case Err(err) => Err(err)
      case Ok(m) =>
        if e.path in m then Err(DuplicateKey(e.path))
        else Ok(m[e.path := e.typeName])
  }

  /** The key `ToDictionary` reports is one that two rows share. */
  lemma {:induction false} ToDictionaryReportsRepeatedKey(entries: seq<ViewEntry>)
    requires ToDictionary(entries).Err?
    ensures exists i, j :: (0 <= i < j < |entries| && entries[i].path == ToDictionary(entries).error.path &&
                            entries[j].path == ToDictionary(entries).error.path)
  {
    var init := entries[..|entries| - 1];
    var e := entries[|entries| - 1];
    assert entries == init + [e];
    var p := ToDictionary(entries).error.path;
    if ToDictionary(init).Err? {
      ToDictionaryReportsRepeatedKey(init);
      var i, j :| 0 <= i < j < |init| && init[i].path == p && init[j].path == p;
      assert entries[i] == init[i] && entries[j] == init[j];
    } else {
      assert p == e.path && p in EntryKeys(init);
      var i :| 0 <= i < |init| && init[i].path == p;
      assert entries[i] == init[i];
    }
  }

  /** A row of a successful dictionary is one of its entries. */
  lemma ToDictionaryHas(entries: seq<ViewEntry>, e: ViewEntry)
    requires ToDictionary(entries).Ok? && e in entries
    ensures e.path in ToDictionary(entries).value && ToDictionary(entries).value[e.path] == e.typeName
  {
    var k :| 0 <= k < |entries| && entries[k] == e;
  }

  /** Every key of a successful dictionary comes from a row holding its type. */
  lemma ToDictionaryRow(entries: seq<ViewEntry>, p: string) returns (e: ViewEntry)
    requires ToDictionary(entries).Ok? && p in ToDictionary(entries).value
    ensures e in entries && e.path == p && ToDictionary(entries).value[p] == e.typeName
  {
    var i :| 0 <= i < |entries| && entries[i].path == p;
    e := entries[i];
  }

  /** The index built from the exported types of a loaded assembly. */
  function BuildIndex(types: seq<ExportedType>): (r: Result<map<string, TypeName>, IndexError>)
    ensures r.Ok? <==> DistinctKeys(ViewEntries(types))
    ensures r.Err? ==>
      r.error.DuplicateKey? && exists k :: 0 <= k < |types| && r.error.path in types[k].viewPaths
  {
    var r := ToDictionary(ViewEntries(types));
    assert r.Err? ==> exists e :: e in ViewEntries(types) && e.path == r.error.path;
    r
  }

  /** The factory registered by `AddPrecompiledViews`: it loads the assembly
      named `precompiledviews`, and a failed load escapes it, as there is no
      fallback. `load` maps an assembly name to `None` when `Assembly.Load`
      throws and otherwise to the assembly's exported types. */
  function PrecompiledIndex(load: string -> Option<seq<ExportedType>>): (r: Result<map<string, TypeName>, IndexError>)
    ensures load(ArtifactAssemblyName).None? ==> r == Err(AssemblyLoadFailed)
    ensures load(ArtifactAssemblyName).Some? ==> r == BuildIndex(load(ArtifactAssemblyName).value)
  {
    match load(ArtifactAssemblyName)
    case None => Err(AssemblyLoadFailed)
    case Some(types) => BuildIndex(types)
  }

  lemma {:induction false} ViewEntriesAppend(a: seq<ExportedType>, b: seq<ExportedType>)
    ensures ViewEntries(a + b) == ViewEntries(a) + ViewEntries(b)
    decreases |b|
  {
    if b == [] {
      assert a + b == a;
    } else {
      var b' := b[..|b| - 1];
      var t := b[|b| - 1];
      var ab := a + b;
      assert ab[..|ab| - 1] == a + b' && ab[|ab| - 1] == t;
      assert ViewEntries(ab) == ViewEntries(a + b') + TypeEntries(t);
      assert ViewEntries(b) == ViewEntries(b') + TypeEntries(t);
      ViewEntriesAppend(a, b');
      assert ViewEntries(a) + ViewEntries(b') + TypeEntries(t) == ViewEntries(a) + (ViewEntries(b') + TypeEntries(t));
    }
  }

  /** Every attribute of every type gives a row; with `ViewEntries`' own
      contract, the rows are exactly the (path, type) pairs of the tags. */
  lemma {:induction false} ViewEntriesComplete(types: seq<ExportedType>)
    ensures forall k, p :: 0 <= k < |types| && p in types[k].viewPaths ==> ViewEntry(p, types[k].name) in ViewEntries(types)
  {
    if types != [] {
      var init := types[..|types| - 1];
      var t := types[|types| - 1];
      ViewEntriesComplete(init);
      forall k, p | 0 <= k < |types| && p in types[k].viewPaths
        ensures ViewEntry(p, types[k].name) in ViewEntries(types)
      {
        if k < |types| - 1 {
          assert types[k] == init[k];
        } else {
          var i :| 0 <= i < |t.viewPaths| && t.viewPaths[i] == p;
          assert TypeEntries(t)[i] == ViewEntry(p, t.name);
        }
      }
    }
  }

  lemma {:induction false} DistinctKeysCount(entries: seq<ViewEntry>)
    requires DistinctKeys(entries)
    ensures |EntryKeys(entries)| == |entries|
  {
    if entries != [] {
      var init := entries[..|entries| - 1];
      var e := entries[|entries| - 1];
      assert entries == init + [e];
      DistinctKeysSnoc(init, e);
      DistinctKeysCount(init);
      assert EntryKeys(entries) == EntryKeys(init) + {e.path};
    }
  }

  /** A successful index has one entry per (type, attribute) pair, maps each
      attribute's path to its type, and has no other keys. */
  lemma IndexLookup(types: seq<ExportedType>)
    requires BuildIndex(types).Ok?
    ensures |BuildIndex(types).value| == |ViewEntries(types)|
    ensures var index := BuildIndex(types).value;
      forall k, p :: 0 <= k < |types| && p in types[k].viewPaths ==> p in index && index[p] == types[k].name
    ensures var index := BuildIndex(types).value;
      forall p :: p in index ==> exists k :: 0 <= k < |types| && p in types[k].viewPaths && index[p] == types[k].name
  {
    var entries := ViewEntries(types);
    var index := BuildIndex(types).value;
    DistinctKeysCount(entries);
    ViewEntriesComplete(types);
    forall k, p | 0 <= k < |types| && p in types[k].viewPaths
      ensures p in index && index[p] == types[k].name
    {
      ToDictionaryHas(entries, ViewEntry(p, types[k].name));
    }
    forall p | p in index
      ensures exists k :: 0 <= k < |types| && p in types[k].viewPaths && index[p] == types[k].name
    {
      var e := ToDictionaryRow(entries, p);
      var k :| 0 <= k < |types| && e.typeName == types[k].name && e.path in types[k].viewPaths;
    }
  }

  /** A type without a `ViewPath` attribute, wherever it stands among the
      exported types, changes nothing. */
  lemma UntaggedTypeIgnored(types: seq<ExportedType>, k: nat, t: ExportedType)
    requires k <= |types| && t.viewPaths == []
    ensures BuildIndex(types[..k] + [t] + types[k..]) == BuildIndex(types)
  {
    UntaggedTypeNoEntries(types[..k], t, types[k..]);
    assert types[..k] + types[k..] == types;
  }

  lemma UntaggedTypeNoEntries(front: seq<ExportedType>, t: ExportedType, back: seq<ExportedType>)
    requires t.viewPaths == []
    ensures ViewEntries(front + [t] + back) == ViewEntries(front + back)
  {
    ViewEntriesAppend(front + [t], back);
    assert (front + [t])[..|front + [t]| - 1] == front;
    assert ViewEntries(front + [t]) == ViewEntries(front) + TypeEntries(t);
    ViewEntriesAppend(front, back);
  }

  /** A key that occurs in both halves is repeated in the whole. */
  lemma RepeatedKeyNotDistinct(a: seq<ViewEntry>, b: seq<ViewEntry>, x: ViewEntry, y: ViewEntry)
    requires x in a && y in b && x.path == y.path
    ensures !DistinctKeys(a + b)
  {
    var i :| 0 <= i < |a| && a[i] == x;
    var j :| 0 <= j < |b| && b[j] == y;
    assert (a + b)[i] == x && (a + b)[|a| + j] == y;
  }

  /** Two types whose `ViewPath` attributes carry the same path make the
      factory fail; the later one never replaces the earlier. */
  lemma DuplicatePathFails(types: seq<ExportedType>, k1: nat, k2: nat, p: string)
    requires k1 < k2 < |types| && p in types[k1].viewPaths && p in types[k2].viewPaths
    ensures BuildIndex(types).Err?
  {
    var front, back := types[..k2], types[k2..];
    assert types == front + back;
    ViewEntriesAppend(front, back);
    assert front[k1] == types[k1] && back[0] == types[k2];
    ViewEntriesComplete(front);
    ViewEntriesComplete(back);
    var x, y := ViewEntry(p, types[k1].name), ViewEntry(p, types[k2].name);
    assert x in ViewEntries(front);
    assert y in ViewEntries(back);
    RepeatedKeyNotDistinct(ViewEntries(front), ViewEntries(back), x, y);
  }

  /** Keys are compared as exact strings: two types tagged with paths that
      differ in any character, letter case included (`/Views/Home/Index.cshtml`
      and `/Views/home/index.cshtml`), get two entries, not a duplicate. */
  lemma KeysAreCaseSensitive(home: TypeName, p: string, other: TypeName, q: string)
    requires p != q
    ensures BuildIndex([ExportedType(home, [p]), ExportedType(other, [q])]) == Ok(map[p := home, q := other])
  {
    var first, second := ExportedType(home, [p]), ExportedType(other, [q]);
    var types := [first, second];
    assert types[..1] == [first] && [first][..0] == [];
    assert ViewEntries([first]) == [ViewEntry(p, home)];
    var entries := ViewEntries(types);
    assert entries == [ViewEntry(p, home), ViewEntry(q, other)];
    assert EntryKeys(entries) == {p, q};
    var index := BuildIndex(types).value;
    assert index[p] == home && index[q] == other by {
      assert entries[0].path == p && entries[1].path == q;
    }
    assert index == map[p := home, q := other];
  }
}
