/** The path invariant across the two phases: a view's relative path becomes
    its syntax tree's path, the rewriter copies the tree's path into the
    `ViewPath` attribute of the tree's page classes, and the runtime factory
    indexes the compiled types by that attribute's path.

    `Emit` is a library call; this module takes as given that every class of
    the rewritten trees becomes an exported type of the same name carrying the
    paths of its `ViewPath` attributes (`CompiledTypes`). */
module Artifact {
  import opened Wrappers
  import opened ViewPathRewriter
  import opened PrecompiledViews

  function ClassTypes(c: ClassDecl): seq<ExportedType>
    decreases c
  {
    [ExportedType(c.name, AttributePaths(c.attributeLists))] + MembersTypes(c.members)
  }

  function MemberTypes(m: Member): seq<ExportedType>
    decreases m
  {
    match m
    case ClassMember(c) => ClassTypes(c)
    case NamespaceMember(_, ms) => MembersTypes(ms)
    case OtherMember(_) => []
  }

  function MembersTypes(ms: seq<Member>): seq<ExportedType>
    decreases ms
  {
    if ms == [] then [] else MemberTypes(ms[0]) + MembersTypes(ms[1..])
  }

  /** The exported types of one tree's classes, outer before nested. */
  function TreeTypes(t: SyntaxTree): seq<ExportedType> {
    MembersTypes(t.root)
  }

  /** The exported types of the compiled assembly, tree by tree. */
  function CompiledTypes(trees: seq<SyntaxTree>): seq<ExportedType> {
    if trees == [] then [] else CompiledTypes(trees[..|trees| - 1]) + TreeTypes(trees[|trees| - 1])
  }

  /** The index rows one tree contributes. */
  function TreeEntries(t: SyntaxTree): seq<ViewEntry> {
    ViewEntries(TreeTypes(t))
  }

  lemma {:induction false} ClassEntriesAreTags(c: ClassDecl)
    ensures forall e :: e in ViewEntries(ClassTypes(c)) ==> e.path in ClassTags(c)
    decreases c
  {
    var own := ExportedType(c.name, AttributePaths(c.attributeLists));
    ViewEntriesAppend([own], MembersTypes(c.members));
    assert [own][..0] == [];
    assert ViewEntries([own]) == TypeEntries(own);
    MembersEntriesAreTags(c.members);
  }

  lemma {:induction false} MemberEntriesAreTags(m: Member)
    ensures forall e :: e in ViewEntries(MemberTypes(m)) ==> e.path in MemberTags(m)
    decreases m
  {
    match m
    case ClassMember(c) => ClassEntriesAreTags(c);
    case NamespaceMember(_, ms) => MembersEntriesAreTags(ms);
    case OtherMember(_) =>
  }

  lemma {:induction false} MembersEntriesAreTags(ms: seq<Member>)
    ensures forall e :: e in ViewEntries(MembersTypes(ms)) ==> e.path in MembersTags(ms)
    decreases ms
  {
    if ms != [] {
      ViewEntriesAppend(MemberTypes(ms[0]), MembersTypes(ms[1..]));
      MemberEntriesAreTags(ms[0]);
      MembersEntriesAreTags(ms[1..]);
    }
  }

  /** The rows of the named page classes of one view, in order. */
  function PageEntries(path: string, names: seq<string>): seq<ViewEntry> {
    seq(|names|, i requires 0 <= i < |names| => ViewEntry(path, names[i]))
  }

  lemma PageEntriesAppend(path: string, a: seq<string>, b: seq<string>)
    ensures PageEntries(path, a + b) == PageEntries(path, a) + PageEntries(path, b)
  {
  }

  /** Without tags, no rows. */
  lemma NoTagsNoEntries(types: seq<ExportedType>, tags: set<string>)
    ensures tags == {} && (forall e :: e in ViewEntries(types) ==> e.path in tags) ==> ViewEntries(types) == []
  {
    var v := ViewEntries(types);
    if v != [] {
      assert v[0] in v;
    }
  }

  lemma NoTagsNoPaths(lists: seq<AttributeList>)
    ensures AttributeTags(lists) == {} ==> AttributePaths(lists) == []
  {
    var v := AttributePaths(lists);
    if v != [] {
      assert v[0] in AttributeTags(lists);
    }
  }

  /** A class without tags, once visited, contributes exactly one row per
      page class the visitor reached in it, keyed by the tree's path and
      naming that class, in visit order. */
  lemma {:induction false} VisitedClassEntries(c: ClassDecl, path: string, isPage: TypeRef -> bool)
    requires VisitClass(c, path, isPage).Ok? && ClassTags(c) == {}
    ensures ViewEntries(ClassTypes(VisitClass(c, path, isPage).value)) == PageEntries(path, ClassPages(c, isPage))
    decreases c
  {
    var v := VisitClass(c, path, isPage).value;
    var own := ExportedType(c.name, AttributePaths(v.attributeLists));
    ViewEntriesAppend([own], MembersTypes(v.members));
    assert [own][..0] == [];
    assert ViewEntries([own]) == TypeEntries(own);
    NoTagsNoPaths(c.attributeLists);
    if HasPageBase(c.baseList.value, isPage) {
      AttributePathsAppend(c.attributeLists, path);
      MembersEntriesAreTags(c.members);
      NoTagsNoEntries(MembersTypes(c.members), MembersTags(c.members));
      assert TypeEntries(own) == [ViewEntry(path, c.name)];
    } else {
      assert TypeEntries(own) == [];
      VisitedMembersEntries(c.members, path, isPage);
    }
  }

  lemma {:induction false} VisitedMemberEntries(m: Member, path: string, isPage: TypeRef -> bool)
    requires VisitMember(m, path, isPage).Ok? && MemberTags(m) == {}
    ensures ViewEntries(MemberTypes(VisitMember(m, path, isPage).value)) == PageEntries(path, MemberPages(m, isPage))
    decreases m
  {
    match m
    case ClassMember(c) => VisitedClassEntries(c, path, isPage);
    case NamespaceMember(_, ms) => VisitedMembersEntries(ms, path, isPage);
    case OtherMember(_) =>
  }

  lemma {:induction false} VisitedMembersEntries(ms: seq<Member>, path: string, isPage: TypeRef -> bool)
    requires VisitMembers(ms, path, isPage).Ok? && MembersTags(ms) == {}
    ensures ViewEntries(MembersTypes(VisitMembers(ms, path, isPage).value)) == PageEntries(path, MembersPages(ms, isPage))
    decreases ms
  {
    if ms != [] {
      var r := VisitMembers(ms, path, isPage).value;
      assert r[0] == VisitMember(ms[0], path, isPage).value;
      assert r[1..] == VisitMembers(ms[1..], path, isPage).value;
      ViewEntriesAppend(MemberTypes(r[0]), MembersTypes(r[1..]));
      VisitedMemberEntries(ms[0], path, isPage);
      VisitedMembersEntries(ms[1..], path, isPage);
      PageEntriesAppend(path, MemberPages(ms[0], isPage), MembersPages(ms[1..], isPage));
    }
  }

  /** The rows a rewritten tree contributes, when the tree held no `ViewPath`
      attribute before: one per reached page class, each keyed by the tree's
      path and naming that class. */
  lemma RewrittenTreeEntries(t: SyntaxTree, isPage: TypeRef -> bool)
    requires RewriteTree(t, isPage).Ok? && TreeTags(t) == {}
    ensures TreeEntries(RewriteTree(t, isPage).value) == PageEntries(t.filePath, MembersPages(t.root, isPage))
    ensures forall e :: e in TreeEntries(RewriteTree(t, isPage).value) ==> e.path == t.filePath
  {
    VisitedMembersEntries(t.root, t.filePath, isPage);
  }

  lemma DistinctKeysConcat(a: seq<ViewEntry>, b: seq<ViewEntry>)
    requires forall x, y :: x in a && y in b ==> x.path != y.path
    ensures DistinctKeys(a + b) <==> DistinctKeys(a) && DistinctKeys(b)
  {
    var ab := a + b;
    if DistinctKeys(ab) {
      forall i, j | 0 <= i < j < |b|
        ensures b[i].path != b[j].path
      {
        assert b[i] == ab[|a| + i] && b[j] == ab[|a| + j];
      }
      forall i, j | 0 <= i < j < |a|
        ensures a[i].path != a[j].path
      {
        assert a[i] == ab[i] && a[j] == ab[j];
      }
    }
    if DistinctKeys(a) && DistinctKeys(b) {
      forall i, j | 0 <= i < j < |ab|
        ensures ab[i].path != ab[j].path
      {
        if j < |a| {
          assert ab[i] == a[i] && ab[j] == a[j];
        } else if i >= |a| {
          assert ab[i] == b[i - |a|] && ab[j] == b[j - |a|];
        } else {
          assert ab[i] in a && ab[j] in b;
        }
      }
    }
  }

  /** Rows sharing one key are distinct exactly when there is at most one. */
  lemma SameKeyDistinct(b: seq<ViewEntry>, p: string)
    requires forall e :: e in b ==> e.path == p
    ensures DistinctKeys(b) <==> |b| <= 1
  {
    if |b| > 1 {
      assert b[0].path == b[1].path;
    }
  }

  lemma CompiledTypesSnoc(trees: seq<SyntaxTree>)
    requires trees != []
    ensures ViewEntries(CompiledTypes(trees)) ==
      ViewEntries(CompiledTypes(trees[..|trees| - 1])) + TreeEntries(trees[|trees| - 1])
  {
    ViewEntriesAppend(CompiledTypes(trees[..|trees| - 1]), TreeTypes(trees[|trees| - 1]));
  }

  /** The trees' paths, in order. */
  function TreePaths(trees: seq<SyntaxTree>): seq<string> {
    seq(|trees|, i requires 0 <= i < |trees| => trees[i].filePath)
  }

  /** Every row of every tree carries that tree's key. */
  predicate KeyedBy(trees: seq<SyntaxTree>, paths: seq<string>) {
    |trees| == |paths| && forall i, e :: 0 <= i < |trees| && e in TreeEntries(trees[i]) ==> e.path == paths[i]
  }

  predicate PairwiseDistinct(paths: seq<string>) {
    forall i, j :: 0 <= i < j < |paths| ==> paths[i] != paths[j]
  }

  predicate AtMostOneRowEach(trees: seq<SyntaxTree>) {
    forall i :: 0 <= i < |trees| ==> |TreeEntries(trees[i])| <= 1
  }

  lemma PrefixFacts(trees: seq<SyntaxTree>, paths: seq<string>)
    requires KeyedBy(trees, paths) && trees != []
    ensures KeyedBy(trees[..|trees| - 1], paths[..|trees| - 1])
    ensures PairwiseDistinct(paths) ==> PairwiseDistinct(paths[..|trees| - 1])
    ensures AtMostOneRowEach(trees) <==>
      AtMostOneRowEach(trees[..|trees| - 1]) && |TreeEntries(trees[|trees| - 1])| <= 1
  {
    var n := |trees| - 1;
    assert forall i :: 0 <= i < n ==> trees[..n][i] == trees[i] && paths[..n][i] == paths[i];
  }

  lemma PrefixMember(paths: seq<string>, n: nat, x: string)
    requires n <= |paths| && x in paths[..n]
    ensures x in paths
  {
    var k :| 0 <= k < n && paths[..n][k] == x;
    assert paths[k] == x;
  }

  /** Every row of the assembly is a row of one of its trees. */
  lemma {:induction false} CompiledEntriesKeys(trees: seq<SyntaxTree>, paths: seq<string>)
    requires KeyedBy(trees, paths)
    ensures forall e :: e in ViewEntries(CompiledTypes(trees)) ==> e.path in paths
  {
    if trees != [] {
      var n := |trees| - 1;
      CompiledTypesSnoc(trees);
      PrefixFacts(trees, paths);
      CompiledEntriesKeys(trees[..n], paths[..n]);
      forall e | e in ViewEntries(CompiledTypes(trees))
        ensures e.path in paths
      {
        if e in ViewEntries(CompiledTypes(trees[..n])) {
          assert e.path in paths[..n];
          PrefixMember(paths, n, e.path);
        } else {
          assert e in TreeEntries(trees[n]);
          assert paths[n] in paths;
        }
      }
    }
  }

  /** Every row of a tree is a row of the assembly. */
  lemma {:induction false} TreeEntriesInCompiled(trees: seq<SyntaxTree>, i: nat)
    requires i < |trees|
    ensures forall e :: e in TreeEntries(trees[i]) ==> e in ViewEntries(CompiledTypes(trees))
  {
    var n := |trees| - 1;
    CompiledTypesSnoc(trees);
    if i < n {
      TreeEntriesInCompiled(trees[..n], i);
      assert trees[..n][i] == trees[i];
    }
  }

  /** Every row of the assembly is a row of one of its trees. */
  lemma {:induction false} CompiledEntryTree(trees: seq<SyntaxTree>, e: ViewEntry)
    requires e in ViewEntries(CompiledTypes(trees))
    ensures exists j :: 0 <= j < |trees| && e in TreeEntries(trees[j])
  {
    var n := |trees| - 1;
    CompiledTypesSnoc(trees);
    if e !in TreeEntries(trees[n]) {
      CompiledEntryTree(trees[..n], e);
      var j :| 0 <= j < n && e in TreeEntries(trees[..n][j]);
      assert trees[..n][j] == trees[j];
    }
  }

  /** The rewrite loop's output is keyed by the views' paths: when no tree
      held a `ViewPath` attribute before, every row a rewritten tree
      contributes carries that tree's own path. */
  lemma RewrittenKeyedBy(trees: seq<SyntaxTree>, rewritten: seq<SyntaxTree>, isPage: TypeRef -> bool)
    requires RewrittenFrom(trees, rewritten, isPage)
    ensures KeyedBy(rewritten, TreePaths(trees))
  {
    forall i, e | 0 <= i < |rewritten| && e in TreeEntries(rewritten[i])
      ensures e.path == TreePaths(trees)[i]
    {
      RewrittenTreeEntries(trees[i], isPage);
      assert RewriteTree(trees[i], isPage).value == rewritten[i];
      assert TreePaths(trees)[i] == trees[i].filePath;
    }
  }

  /** The rows of the last tree share no key with the rows before it. */
  lemma LastTreeApart(trees: seq<SyntaxTree>, paths: seq<string>)
    requires KeyedBy(trees, paths) && PairwiseDistinct(paths) && trees != []
    ensures var n := |trees| - 1;
      forall x, y :: x in ViewEntries(CompiledTypes(trees[..n])) && y in TreeEntries(trees[n]) ==> x.path != y.path
  {
    var n := |trees| - 1;
    PrefixFacts(trees, paths);
    CompiledEntriesKeys(trees[..n], paths[..n]);
    forall x, y | x in ViewEntries(CompiledTypes(trees[..n])) && y in TreeEntries(trees[n])
      ensures x.path != y.path
    {
      var k :| 0 <= k < n && paths[..n][k] == x.path;
      assert paths[k] == x.path && y.path == paths[n];
    }
  }

  /** With pairwise different tree keys, the rows have distinct keys exactly
      when no tree contributes two rows. */
  lemma {:induction false} CompiledDistinctKeys(trees: seq<SyntaxTree>, paths: seq<string>)
    requires KeyedBy(trees, paths) && PairwiseDistinct(paths)
    ensures DistinctKeys(ViewEntries(CompiledTypes(trees))) <==> AtMostOneRowEach(trees)
  {
    if trees != [] {
      var n := |trees| - 1;
      var a, b := ViewEntries(CompiledTypes(trees[..n])), TreeEntries(trees[n]);
      CompiledTypesSnoc(trees);
      PrefixFacts(trees, paths);
      CompiledDistinctKeys(trees[..n], paths[..n]);
      LastTreeApart(trees, paths);
      DistinctKeysConcat(a, b);
      SameKeyDistinct(b, paths[n]);
    }
  }

  /** Trees whose rows all carry their own tree's key, with keys pairwise
      different: the index builds exactly when no tree contributes two rows,
      and then each tree's row maps its key to its type, and every key is one
      of the trees' keys. */
  lemma IndexOfTrees(trees: seq<SyntaxTree>, paths: seq<string>)
    requires KeyedBy(trees, paths) && PairwiseDistinct(paths)
    ensures BuildIndex(CompiledTypes(trees)).Ok? <==> AtMostOneRowEach(trees)
    ensures BuildIndex(CompiledTypes(trees)).Ok? ==> forall i :: 0 <= i < |trees| && |TreeEntries(trees[i])| == 1 ==>
      paths[i] in BuildIndex(CompiledTypes(trees)).value &&
      BuildIndex(CompiledTypes(trees)).value[paths[i]] == TreeEntries(trees[i])[0].typeName
    ensures BuildIndex(CompiledTypes(trees)).Ok? ==> forall p :: p in BuildIndex(CompiledTypes(trees)).value ==> p in paths
  {
    var entries := ViewEntries(CompiledTypes(trees));
    CompiledDistinctKeys(trees, paths);
    CompiledEntriesKeys(trees, paths);
    if ToDictionary(entries).Ok? {
      var index := ToDictionary(entries).value;
      forall i | 0 <= i < |trees| && |TreeEntries(trees[i])| == 1
        ensures paths[i] in index && index[paths[i]] == TreeEntries(trees[i])[0].typeName
      {
        var e := TreeEntries(trees[i])[0];
        TreeEntriesInCompiled(trees, i);
        ToDictionaryHas(entries, e);
      }
      forall p | p in index
        ensures p in paths
      {
        var k :| 0 <= k < |entries| && entries[k].path == p;
      }
    }
  }

  /** The rewrite loop's input and output, tree by tree. */
  predicate RewrittenFrom(trees: seq<SyntaxTree>, rewritten: seq<SyntaxTree>, isPage: TypeRef -> bool) {
    |trees| == |rewritten| &&
    forall i :: 0 <= i < |trees| ==> RewriteTree(trees[i], isPage) == Ok(rewritten[i]) && TreeTags(trees[i]) == {}
  }

  predicate AtMostOnePageEach(trees: seq<SyntaxTree>, isPage: TypeRef -> bool) {
    forall i :: 0 <= i < |trees| ==> |MembersPages(trees[i].root, isPage)| <= 1
  }

  lemma RowsArePages(trees: seq<SyntaxTree>, rewritten: seq<SyntaxTree>, isPage: TypeRef -> bool)
    requires RewrittenFrom(trees, rewritten, isPage)
    ensures forall i :: 0 <= i < |trees| ==>
      TreeEntries(rewritten[i]) == PageEntries(trees[i].filePath, MembersPages(trees[i].root, isPage))
    ensures AtMostOneRowEach(rewritten) <==> AtMostOnePageEach(trees, isPage)
  {
    forall i | 0 <= i < |trees|
      ensures TreeEntries(rewritten[i]) == PageEntries(trees[i].filePath, MembersPages(trees[i].root, isPage))
    {
      RewrittenTreeEntries(trees[i], isPage);
    }
  }

  /** From the views' syntax trees to the runtime index. Rewrite every tree of
      views whose paths are pairwise different and whose generated code holds
      no `ViewPath` attribute, and compile the rewritten trees: the index
      builds exactly when no view holds two reachable page classes; then a
      view holding one maps its path to that class, and every key of the
      index is the path of such a view. */
  lemma IndexOfRewrittenTrees(trees: seq<SyntaxTree>, rewritten: seq<SyntaxTree>, isPage: TypeRef -> bool)
    requires RewrittenFrom(trees, rewritten, isPage)
    requires PairwiseDistinct(TreePaths(trees))
    ensures BuildIndex(CompiledTypes(rewritten)).Ok? <==> AtMostOnePageEach(trees, isPage)
    ensures BuildIndex(CompiledTypes(rewritten)).Ok? ==>
      forall i :: 0 <= i < |trees| && |MembersPages(trees[i].root, isPage)| == 1 ==>
        trees[i].filePath in BuildIndex(CompiledTypes(rewritten)).value &&
        BuildIndex(CompiledTypes(rewritten)).value[trees[i].filePath] == MembersPages(trees[i].root, isPage)[0]
    ensures BuildIndex(CompiledTypes(rewritten)).Ok? ==>
      forall p :: p in BuildIndex(CompiledTypes(rewritten)).value ==>
        exists i :: 0 <= i < |trees| && trees[i].filePath == p && |MembersPages(trees[i].root, isPage)| == 1
  {
    var paths := TreePaths(trees);
    RewrittenKeyedBy(trees, rewritten, isPage);
    IndexOfTrees(rewritten, paths);
    RowsArePages(trees, rewritten, isPage);
    var entries := ViewEntries(CompiledTypes(rewritten));
    if ToDictionary(entries).Ok? {
      var index := ToDictionary(entries).value;
      forall i | 0 <= i < |trees| && |MembersPages(trees[i].root, isPage)| == 1
        ensures trees[i].filePath in index && index[trees[i].filePath] == MembersPages(trees[i].root, isPage)[0]
      {
        assert |TreeEntries(rewritten[i])| == 1;
        assert paths[i] == trees[i].filePath;
        assert TreeEntries(rewritten[i])[0].typeName == MembersPages(trees[i].root, isPage)[0];
      }
      forall p | p in index
        ensures exists i :: 0 <= i < |trees| && trees[i].filePath == p && |MembersPages(trees[i].root, isPage)| == 1
      {
        var k :| 0 <= k < |entries| && entries[k].path == p;
        CompiledEntryTree(rewritten, entries[k]);
        var j :| 0 <= j < |rewritten| && entries[k] in TreeEntries(rewritten[j]);
        assert trees[j].filePath == p;
      }
    }
  }
}
