/** `GetMetadataReferences`: the compilation's reference list, built from the
    published application's dependency context. Paths are compared through
    `fold`, an abstract key function standing for the ordinal ignore-case
    comparer of the `HashSet`: two paths are equal to the set exactly when
    their keys are. */
module References {
  import opened Wrappers
  import opened Paths
  import opened ProjectLayout

  /** A compile-time library and the paths `ResolveReferencePaths` gives it. */
  datatype CompileLibrary = CompileLibrary(name: string, referencePaths: seq<string>)

  /** The part of a `DependencyContext` the tool reads. */
  datatype DependencyContext = DependencyContext(compileLibraries: seq<CompileLibrary>)

  /** What loading the application assembly and asking `DependencyContext.Load`
      for its context gives: a failed load throws, and a loaded assembly may
      have no context (`null`). */
  datatype AssemblyLoad = LoadFailed | Loaded(dependencyContext: Option<DependencyContext>)

  datatype ReferenceError =
    | ApplicationLoadFailed(applicationPath: string)
      // `DependencyContext.Load` returned null and `CompileLibraries` was read from it
    | MissingDependencyContext(applicationPath: string)

  /** Every reference path, library by library and path by path. */
  function AllReferencePaths(libraries: seq<CompileLibrary>): (r: seq<string>)
    ensures forall i, p :: 0 <= i < |libraries| && p in libraries[i].referencePaths ==> p in r
  {
    if libraries == [] then []
    else AllReferencePaths(libraries[..|libraries| - 1]) + libraries[|libraries| - 1].referencePaths
  }

  lemma AllReferencePathsStep(libraries: seq<CompileLibrary>, i: nat)
    requires i < |libraries|
    ensures AllReferencePaths(libraries[..i + 1]) == AllReferencePaths(libraries[..i]) + libraries[i].referencePaths
  {
    assert libraries[..i + 1][..i] == libraries[..i];
  }

  /** The keys of a list of paths. */
  function Keys(ps: seq<string>, fold: string -> string): set<string> {
    set p | p in ps :: fold(p)
  }

  /** No two entries share a key. */
  predicate NoFoldDuplicates(ps: seq<string>, fold: string -> string) {
    forall i, j :: 0 <= i < j < |ps| ==> fold(ps[i]) != fold(ps[j])
  }

  /** The paths of `ps` that are the first with their key, in order. */
  function FirstOccurrences(ps: seq<string>, fold: string -> string): (r: seq<string>)
    ensures Keys(r, fold) == Keys(ps, fold)
    ensures forall p :: p in r ==> p in ps
    ensures NoFoldDuplicates(r, fold)
  {
    if ps == [] then []
    else
      var init := ps[..|ps| - 1];
      var p := ps[|ps| - 1];
      assert ps == init + [p];
      KeysAppend(init, p, fold);
      if fold(p) in Keys(init, fold) then FirstOccurrences(init, fold)
      else
        KeysAppend(FirstOccurrences(init, fold), p, fold);
        FirstOccurrences(init, fold) + [p]
  }

  /** The position of the first path of `ps` with key `key`. */
  function IndexOfKey(ps: seq<string>, key: string, fold: string -> string): (r: nat)
    requires key in Keys(ps, fold)
    ensures r < |ps| && fold(ps[r]) == key
    ensures forall j :: 0 <= j < r ==> fold(ps[j]) != key
  {
    var init := ps[..|ps| - 1];
    assert ps == init + [ps[|ps| - 1]];
    if key in Keys(init, fold) then IndexOfKey(init, key, fold) else |ps| - 1
  }

  lemma KeysAppend(ps: seq<string>, p: string, fold: string -> string)
    ensures Keys(ps + [p], fold) == Keys(ps, fold) + {fold(p)}
  {
    assert forall q :: q in ps + [p] <==> q in ps || q == p;
  }

  /** The list holds one path per distinct key. */
  lemma {:induction false} FirstOccurrencesLength(ps: seq<string>, fold: string -> string)
    ensures |FirstOccurrences(ps, fold)| == |Keys(ps, fold)|
  {
    if ps != [] {
      var init := ps[..|ps| - 1];
      var p := ps[|ps| - 1];
      assert ps == init + [p];
      FirstOccurrencesLength(init, fold);
      KeysAppend(init, p, fold);
      if fold(p) !in Keys(init, fold) {
        assert Keys(ps, fold) - {fold(p)} == Keys(init, fold);
      }
    }
  }

  /** One more path: the first occurrences grow by it exactly when its key is new. */
  lemma FirstOccurrencesAppend(ps: seq<string>, p: string, fold: string -> string)
    ensures FirstOccurrences(ps + [p], fold) ==
      if fold(p) in Keys(ps, fold) then FirstOccurrences(ps, fold) else FirstOccurrences(ps, fold) + [p]
  {
    assert (ps + [p])[..|ps|] == ps;
  }

  /** One more path does not move the first position of a key already met. */
  lemma IndexOfKeyAppend(ps: seq<string>, p: string, key: string, fold: string -> string)
    requires key in Keys(ps, fold)
    ensures key in Keys(ps + [p], fold)
    ensures IndexOfKey(ps + [p], key, fold) == IndexOfKey(ps, key, fold)
  {
    KeysAppend(ps, p, fold);
    assert (ps + [p])[..|ps|] == ps;
  }

  /** Each entry of `r` is the first path of `ps` with its key. */
  predicate FirstWithKey(ps: seq<string>, r: seq<string>, fold: string -> string) {
    forall k :: 0 <= k < |r| ==> fold(r[k]) in Keys(ps, fold) && r[k] == ps[IndexOfKey(ps, fold(r[k]), fold)]
  }

  /** The entries of `r` appear in the order their keys are first met in `ps`. */
  predicate InKeyOrder(ps: seq<string>, r: seq<string>, fold: string -> string)
    requires forall k :: 0 <= k < |r| ==> fold(r[k]) in Keys(ps, fold)
  {
    forall k1, k2 :: 0 <= k1 < k2 < |r| ==> IndexOfKey(ps, fold(r[k1]), fold) < IndexOfKey(ps, fold(r[k2]), fold)
  }

  /** Each entry is the first path of the input with its key, and entries
      appear in the order their keys are first met. */
  lemma {:induction false} FirstOccurrencesInOrder(ps: seq<string>, fold: string -> string)
    ensures FirstWithKey(ps, FirstOccurrences(ps, fold), fold)
    ensures InKeyOrder(ps, FirstOccurrences(ps, fold), fold)
  {
    if ps != [] {
      var init := ps[..|ps| - 1];
      var p := ps[|ps| - 1];
      assert ps == init + [p];
      FirstOccurrencesInOrder(init, fold);
      StepFirstWithKey(init, p, fold);
      StepInKeyOrder(init, p, fold);
    }
  }

  /** Appending a path moves no key already met. */
  lemma IndexStable(init: seq<string>, p: string, fold: string -> string)
    requires FirstWithKey(init, FirstOccurrences(init, fold), fold)
    ensures var ri := FirstOccurrences(init, fold);
      forall k :: 0 <= k < |ri| ==> (fold(ri[k]) in Keys(init + [p], fold) &&
        IndexOfKey(init + [p], fold(ri[k]), fold) == IndexOfKey(init, fold(ri[k]), fold) < |init|)
  {
    var ri := FirstOccurrences(init, fold);
    forall k | 0 <= k < |ri|
      ensures fold(ri[k]) in Keys(init + [p], fold)
      ensures IndexOfKey(init + [p], fold(ri[k]), fold) == IndexOfKey(init, fold(ri[k]), fold) < |init|
    {
      IndexOfKeyAppend(init, p, fold(ri[k]), fold);
    }
  }

  lemma StepFirstWithKey(init: seq<string>, p: string, fold: string -> string)
    requires FirstWithKey(init, FirstOccurrences(init, fold), fold)
    ensures FirstWithKey(init + [p], FirstOccurrences(init + [p], fold), fold)
  {
    var ps := init + [p];
    var ri := FirstOccurrences(init, fold);
    var r := FirstOccurrences(ps, fold);
    FirstOccurrencesAppend(init, p, fold);
    IndexStable(init, p, fold);
    KeysAppend(init, p, fold);
    var isNew := fold(p) !in Keys(init, fold);
    assert r == if isNew then ri + [p] else ri;
    forall k | 0 <= k < |r|
      ensures fold(r[k]) in Keys(ps, fold) && r[k] == ps[IndexOfKey(ps, fold(r[k]), fold)]
    {
      if k < |ri| {
        var i := IndexOfKey(init, fold(ri[k]), fold);
        assert r[k] == ri[k] == init[i] == ps[i];
      } else {
        assert r[k] == p && IndexOfKey(ps, fold(p), fold) == |init|;
      }
    }
  }

  lemma StepInKeyOrder(init: seq<string>, p: string, fold: string -> string)
    requires FirstWithKey(init, FirstOccurrences(init, fold), fold)
    requires InKeyOrder(init, FirstOccurrences(init, fold), fold)
    ensures FirstWithKey(init + [p], FirstOccurrences(init + [p], fold), fold)
    ensures InKeyOrder(init + [p], FirstOccurrences(init + [p], fold), fold)
  {
    StepFirstWithKey(init, p, fold);
    var ps := init + [p];
    var ri := FirstOccurrences(init, fold);
    var r := FirstOccurrences(ps, fold);
    FirstOccurrencesAppend(init, p, fold);
    IndexStable(init, p, fold);
    if fold(p) !in Keys(init, fold) {
      KeysAppend(init, p, fold);
      assert r == ri + [p];
      assert IndexOfKey(ps, fold(p), fold) == |init|;
    }
  }

  /** The reference list handed to the compiler: the first occurrences, then
      the tool's own assembly, which is not checked against the others. */
  lemma ReferenceListShape(ps: seq<string>, fold: string -> string, toolAssembly: string)
    ensures var r := FirstOccurrences(ps, fold) + [toolAssembly];
      |r| == |Keys(ps, fold)| + 1 && r[|r| - 1] == toolAssembly &&
      NoFoldDuplicates(r[..|r| - 1], fold) &&
      (NoFoldDuplicates(r, fold) <==> fold(toolAssembly) !in Keys(ps, fold))
  {
    var firsts := FirstOccurrences(ps, fold);
    var r := firsts + [toolAssembly];
    FirstOccurrencesLength(ps, fold);
    assert r[..|r| - 1] == firsts;
    if fold(toolAssembly) in Keys(ps, fold) {
      var q :| q in firsts && fold(q) == fold(toolAssembly);
      var k :| 0 <= k < |firsts| && firsts[k] == q;
      assert fold(r[k]) == fold(r[|r| - 1]);
    }
  }

  lemma ExtendSeen(done: seq<string>, paths: seq<string>, j: nat)
    requires j < |paths|
    ensures done + paths[..j + 1] == (done + paths[..j]) + [paths[j]]
  {
    assert paths[..j + 1] == paths[..j] + [paths[j]];
  }

  lemma LibraryDone(libraries: seq<CompileLibrary>, i: nat, walked: seq<string>)
    requires i < |libraries| && walked == libraries[i].referencePaths[..|libraries[i].referencePaths|]
    ensures AllReferencePaths(libraries[..i]) + walked == AllReferencePaths(libraries[..i + 1])
  {
    assert walked == libraries[i].referencePaths;
    AllReferencePathsStep(libraries, i);
  }

  /** The published application assembly whose dependency context lists the references. */
  function ApplicationPath(publishFolder: string, project: ProjectContext): string {
    Combine(publishFolder, ApplicationFileName(project.outputName, project.isDesktop, project.portable))
  }

  /** What `GetMetadataReferences` returns: a failed load and a missing
      dependency context are errors naming the application path; otherwise
      the first occurrence of every reference path of every compile library,
      in walk order, and the tool's own assembly last. */
  function MetadataReferences(
    publishFolder: string, project: ProjectContext,
    loadAssembly: string -> AssemblyLoad, fold: string -> string, toolAssembly: string)
    : Result<seq<string>, ReferenceError>
  {
    var applicationPath := ApplicationPath(publishFolder, project);
    match loadAssembly(applicationPath)
    case LoadFailed => Err(ApplicationLoadFailed(applicationPath))
    case Loaded(None) => Err(MissingDependencyContext(applicationPath))
    case Loaded(Some(context)) => Ok(FirstOccurrences(AllReferencePaths(context.compileLibraries), fold) + [toolAssembly])
  }

  /** `GetMetadataReferences`: the nested loop over the compile libraries and
      their paths, with a case-insensitive set of the paths already seen. */
  method GetMetadataReferences(
    publishFolder: string, project: ProjectContext,
    loadAssembly: string -> AssemblyLoad, fold: string -> string, toolAssembly: string)
    returns (r: Result<seq<string>, ReferenceError>)
    ensures r == MetadataReferences(publishFolder, project, loadAssembly, fold, toolAssembly)
  {
    var applicationName := ApplicationFileName(project.outputName, project.isDesktop, project.portable);
    var applicationPath := Combine(publishFolder, applicationName);
    var loaded := loadAssembly(applicationPath);
    if loaded.LoadFailed? {
      return Err(ApplicationLoadFailed(applicationPath));
    }
    if loaded.dependencyContext.None? {
      return Err(MissingDependencyContext(applicationPath));
    }
    var libraries := loaded.dependencyContext.value.compileLibraries;
    var libraryPaths: set<string> := {};
    var references: seq<string> := [];
    var i := 0;
    while i < |libraries|
      invariant i <= |libraries|
      invariant references == FirstOccurrences(AllReferencePaths(libraries[..i]), fold)
      invariant libraryPaths == Keys(AllReferencePaths(libraries[..i]), fold)
    {
      var paths := libraries[i].referencePaths;
      ghost var done := AllReferencePaths(libraries[..i]);
      var j := 0;
      assert done + paths[..j] == done;
      while j < |paths|
        invariant j <= |paths|
        invariant references == FirstOccurrences(done + paths[..j], fold)
        invariant libraryPaths == Keys(done + paths[..j], fold)
      {
        var path := paths[j];
        ghost var seen := done + paths[..j];
        ExtendSeen(done, paths, j);
        KeysAppend(seen, path, fold);
        FirstOccurrencesAppend(seen, path, fold);
        if fold(path) !in libraryPaths {
          libraryPaths := libraryPaths + {fold(path)};
          references := references + [path];
        }
        j := j + 1;
      }
      LibraryDone(libraries, i, paths[..j]);
      i := i + 1;
    }
    assert libraries[..i] == libraries;
    references := references + [toolAssembly];
    return Ok(references);
  }
}
