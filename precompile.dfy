/** `PrecompileViewsCommand.Run`: the build-time pipeline. It resolves the
    project, collects the compilation's references, discovers the views,
    generates and parses one syntax tree per view, tags every tree's Razor
    page classes with their view path, emits the assembly and only then writes
    `precompiledviews.dll` into the publish folder.

    The libraries the pipeline drives are the fields of `Environment`: the
    project model, the assembly loader, the file-system globber and
    `Directory.Exists`, the Razor host's `GenerateCode`, Roslyn's parser, its
    semantic model (reduced to `isPage`) and its `Emit`. */
module Precompile {
  import opened Wrappers
  import opened Paths
  import opened ProjectLayout
  import opened References
  import opened Reports
  import opened ViewPathRewriter
  import opened PrecompiledViews
  import opened Artifact

  type Byte = bv8

  const ArtifactFileName: string := "precompiledviews.dll"

  /** What `GenerateCode` returns for one view. */
  datatype GeneratorResults = GeneratorResults(success: bool, generatedCode: string, parserErrors: seq<string>)

  /** What `Emit` returns: whether it succeeded, its diagnostics' messages and
      the assembly image it wrote to the stream. */
  datatype EmitResult = EmitResult(success: bool, diagnostics: seq<string>, image: seq<Byte>)

  datatype Environment = Environment(
    fullPath: string -> string,
    currentDirectory: string,
    // `GetProjectContext` on the `project.json` path, for the framework and configuration
    readProject: (string, string, Option<string>) -> Result<ProjectContext, string>,
    loadAssembly: string -> AssemblyLoad,
    // the key of the ordinal ignore-case comparer
    fold: string -> string,
    // `typeof(PrecompileViewsCommand).GetTypeInfo().Assembly.Location`
    toolAssembly: string,
    directoryExists: string -> bool,
    // the glob matches under a directory, as relative paths
    glob: (string, string) -> seq<string>,
    // `GenerateCode(relativePath, File.OpenRead(absolutePath))`
    generate: (string, string) -> GeneratorResults,
    parse: string -> seq<Member>,
    isPage: TypeRef -> bool,
    emit: (seq<SyntaxTree>, seq<string>) -> EmitResult)

  /** The command's options; the publish folder and framework are never null
      here, as the command line refuses to start without them. */
  datatype PrecompileCommand = PrecompileCommand(
    publishFolder: string, framework: string, configuration: Option<string>, projectPath: Option<string>)

  datatype BuildError =
    | ProjectLoadFailed(message: string)
    | ReferencesFailed(referenceError: ReferenceError)
    | SyntaxTreesFailed(report: string)
    | RewriteFailed(rewriteError: RewriteError)
    | CompilationFailed(report: string)

  /** What a successful build computed, besides the file it wrote. */
  datatype BuildSummary = BuildSummary(
    references: seq<string>, webRoot: string, views: seq<ViewPathTuple>,
    trees: seq<SyntaxTree>, rewritten: seq<SyntaxTree>, image: seq<Byte>)

  /** The file system the artifact is written to: file contents by path. */
  class FileSystem {
    var files: map<string, seq<Byte>>

    constructor (files: map<string, seq<Byte>>)
      ensures this.files == files
    {
      this.files := files;
    }

    /** Writes the whole content of a file. */
    method Write(path: string, contents: seq<Byte>)
      modifies this
      ensures files == old(files)[path := contents]
    {
      files := files[path := contents];
    }

    /** `File.OpenWrite` followed by a copy of `contents`: the stream opens
        the existing file at offset 0 without truncating it. */
    method OpenWriteCopy(path: string, contents: seq<Byte>)
      modifies this
      ensures files == old(files)[path := OpenWriteContents(if path in old(files) then Some(old(files)[path]) else None, contents)]
    {
      var existing := if path in files then Some(files[path]) else None;
      files := files[path := OpenWriteContents(existing, contents)];
    }
  }

  /** The content of a file after `written` is copied into a stream that
      `File.OpenWrite` opened on it: the written bytes at the front, and
      whatever the old file held past their end. */
  function OpenWriteContents(existing: Option<seq<Byte>>, written: seq<Byte>): (r: seq<Byte>)
    ensures |written| <= |r| && r[..|written|] == written
    ensures existing.Some? ==> |r| == if |existing.value| <= |written| then |written| else |existing.value|
    ensures existing.Some? ==> forall i :: |written| <= i < |r| ==> r[i] == existing.value[i]
    ensures existing.None? ==> r == written
  {
    if existing.Some? && |existing.value| > |written| then written + existing.value[|written|..] else written
  }

  /** The file holds exactly the new image only when there was no file, or
      the old one was no longer than the new image. */
  lemma OpenWriteExact(existing: Option<seq<Byte>>, written: seq<Byte>)
    ensures OpenWriteContents(existing, written) == written <==> existing.None? || |existing.value| <= |written|
  {
    if existing.Some? && |existing.value| > |written| {
      assert |OpenWriteContents(existing, written)| > |written|;
    }
  }

  /** Republishing after a change that shrinks the assembly: a three-byte
      image left by an earlier build, then a one-byte image, leaves a file
      that is not the new image. */
  lemma StaleTailAfterRebuild()
    ensures OpenWriteContents(Some([1, 2, 3]), [9]) == [9, 2, 3]
    ensures OpenWriteContents(Some([1, 2, 3]), [9]) != [9]
  {
    assert [9 as Byte] + [1 as Byte, 2, 3][1..] == [9, 2, 3];
  }

  function Generate(view: ViewPathTuple, generate: (string, string) -> GeneratorResults): GeneratorResults {
    generate(view.relativePath, view.absolutePath)
  }

  /** The rewrite loop of `Run`: each tree of the compilation is replaced, in
      place, by its rewritten version; the first tree the rewriter fails on
      stops everything. */
  method RewriteTrees(trees: seq<SyntaxTree>, isPage: TypeRef -> bool) returns (r: Result<seq<SyntaxTree>, RewriteError>)
    ensures r.Ok? <==> forall i :: 0 <= i < |trees| ==> RewriteTree(trees[i], isPage).Ok?
    ensures r.Ok? ==> |r.value| == |trees| && forall i :: 0 <= i < |trees| ==> RewriteTree(trees[i], isPage) == Ok(r.value[i])
    ensures r.Err? ==> exists k :: (0 <= k < |trees| && RewriteTree(trees[k], isPage).Err? &&
                                    (forall j :: 0 <= j < k ==> RewriteTree(trees[j], isPage).Ok?) &&
                                    r.error == RewriteTree(trees[k], isPage).error)
  {
    var compilation := trees;
    for i := 0 to |trees|
      invariant |compilation| == |trees|
      invariant forall j :: 0 <= j < i ==> RewriteTree(trees[j], isPage) == Ok(compilation[j])
      invariant forall j :: i <= j < |trees| ==> compilation[j] == trees[j]
    {
      var tree := trees[i];
      var rewritten := RewriteTree(tree, isPage);
      if rewritten.Err? {
        return Err(rewritten.error);
      }
      compilation := compilation[i := rewritten.value];
    }
    return Ok(compilation);
  }

  // ---------------------------------------------------------------------
  // What `Run` computes, step by step, as functions of its inputs.

  /** The project context `Run` loads, from the `project.json` of the base path. */
  function ProjectOf(command: PrecompileCommand, env: Environment): Result<ProjectContext, string> {
    var basePath := ApplicationBasePath(command.projectPath, env.fullPath, env.currentDirectory);
    env.readProject(Combine(basePath, ProjectFileName), command.framework, command.configuration)
  }

  /** What `GetMetadataReferences` returns for the project, in the environment's terms. */
  function ReferencesOf(command: PrecompileCommand, env: Environment, project: ProjectContext): Result<seq<string>, ReferenceError> {
    MetadataReferences(command.publishFolder, project, env.loadAssembly, env.fold, env.toolAssembly)
  }

  /** The views discovered under the project directory. */
  function ViewsOf(env: Environment, project: ProjectContext): seq<ViewPathTuple> {
    ViewFilePaths(project.projectDirectory, env.glob(project.projectDirectory, ViewGlob))
  }

  predicate Generates(env: Environment, view: ViewPathTuple) {
    Generate(view, env.generate).success
  }

  /** The syntax tree of a view's generated code, named by its relative path. */
  function ParsedTree(env: Environment, view: ViewPathTuple): SyntaxTree {
    SyntaxTree(view.relativePath, env.parse(Generate(view, env.generate).generatedCode))
  }

  predicate Rewrites(env: Environment, view: ViewPathTuple) {
    RewriteTree(ParsedTree(env, view), env.isPage).Ok?
  }

  predicate AllGenerate(env: Environment, views: seq<ViewPathTuple>) {
    forall i :: 0 <= i < |views| ==> Generates(env, views[i])
  }

  predicate AllRewrite(env: Environment, views: seq<ViewPathTuple>) {
    forall i :: 0 <= i < |views| ==> Rewrites(env, views[i])
  }

  /** `k` is the first view the Razor host fails on. */
  predicate FirstFailingView(env: Environment, views: seq<ViewPathTuple>, k: int) {
    0 <= k < |views| && !Generates(env, views[k]) && forall j :: 0 <= j < k ==> Generates(env, views[j])
  }

  /** `k` is the first view whose tree the rewriter fails on. */
  predicate FirstFailingRewrite(env: Environment, views: seq<ViewPathTuple>, k: int) {
    0 <= k < |views| && !Rewrites(env, views[k]) && forall j :: 0 <= j < k ==> Rewrites(env, views[j])
  }

  function ParsedTrees(env: Environment, views: seq<ViewPathTuple>): seq<SyntaxTree> {
    seq(|views|, i requires 0 <= i < |views| => ParsedTree(env, views[i]))
  }

  function RewrittenTrees(env: Environment, views: seq<ViewPathTuple>): seq<SyntaxTree>
    requires AllRewrite(env, views)
  {
    seq(|views|, i requires 0 <= i < |views| => RewriteTree(ParsedTree(env, views[i]), env.isPage).value)
  }

  /** `GetSyntaxTrees`: one tree per view, in order, whose path is the view's
      relative path; the first view the Razor host fails on stops everything
      with a report of that view's parser errors. */
  method GetSyntaxTrees(env: Environment, views: seq<ViewPathTuple>) returns (r: Result<seq<SyntaxTree>, string>)
    ensures r.Ok? <==> AllGenerate(env, views)
    ensures r.Ok? ==> r.value == ParsedTrees(env, views)
    ensures r.Err? ==> exists k :: (FirstFailingView(env, views, k) &&
      r.error == Report(SyntaxTreesHeader, Generate(views[k], env.generate).parserErrors))
  {
    var trees: seq<SyntaxTree> := [];
    for i := 0 to |views|
      invariant AllGenerate(env, views[..i])
      invariant trees == ParsedTrees(env, views[..i])
    {
      var file := views[i];
      var result := env.generate(file.relativePath, file.absolutePath);
      if !result.success {
        var report := BuildReport(SyntaxTreesHeader, result.parserErrors);
        assert FirstFailingView(env, views, i) by {
          assert forall j :: 0 <= j < i ==> views[..i][j] == views[j];
        }
        return Err(report);
      }
      var tree := SyntaxTree(file.relativePath, env.parse(result.generatedCode));
      assert views[..i + 1] == views[..i] + [file];
      trees := trees + [tree];
    }
    assert views[..|views|] == views;
    return Ok(trees);
  }

  /** There is only one first failure. */
  lemma FirstFailingViewUnique(env: Environment, views: seq<ViewPathTuple>, k: int)
    requires FirstFailingView(env, views, k)
    ensures forall k' :: FirstFailingView(env, views, k') ==> k' == k
  {
  }

  lemma FirstFailingRewriteUnique(env: Environment, views: seq<ViewPathTuple>, k: int)
    requires FirstFailingRewrite(env, views, k)
    ensures forall k' :: FirstFailingRewrite(env, views, k') ==> k' == k
  {
  }

  /** The rewrite loop's first failure, read back on the views. */
  lemma ParsedFirstFailingRewrite(env: Environment, views: seq<ViewPathTuple>, k: int)
    requires 0 <= k < |views|
    requires RewriteTree(ParsedTrees(env, views)[k], env.isPage).Err?
    requires forall j :: 0 <= j < k ==> RewriteTree(ParsedTrees(env, views)[j], env.isPage).Ok?
    ensures FirstFailingRewrite(env, views, k)
    ensures forall k' :: FirstFailingRewrite(env, views, k') ==> k' == k
  {
    assert forall j :: 0 <= j <= k ==> ParsedTrees(env, views)[j] == ParsedTree(env, views[j]);
    FirstFailingRewriteUnique(env, views, k);
  }

  /** The rewrite loop's output, read back on the views. */
  lemma ParsedAllRewrite(env: Environment, views: seq<ViewPathTuple>, rewritten: seq<SyntaxTree>)
    requires |rewritten| == |views|
    requires forall i :: 0 <= i < |views| ==> RewriteTree(ParsedTrees(env, views)[i], env.isPage) == Ok(rewritten[i])
    ensures AllRewrite(env, views) && rewritten == RewrittenTrees(env, views)
  {
    assert forall j :: 0 <= j < |views| ==> ParsedTrees(env, views)[j] == ParsedTree(env, views[j]);
  }

  /** Every step of the build succeeds: the project loads, the application's
      dependency context is found, every view generates, every tree is
      rewritten and the compilation emits. */
  predicate Succeeds(command: PrecompileCommand, env: Environment) {
    ProjectOf(command, env).Ok? &&
    ReferencesOf(command, env, ProjectOf(command, env).value).Ok? &&
    AllGenerate(env, ViewsOf(env, ProjectOf(command, env).value)) &&
    AllRewrite(env, ViewsOf(env, ProjectOf(command, env).value)) &&
    var views := ViewsOf(env, ProjectOf(command, env).value);
    env.emit(RewrittenTrees(env, views), ReferencesOf(command, env, ProjectOf(command, env).value).value).success
  }

  /** The part of `Run` after the references are known: the syntax trees of
      the views, the rewrite loop and the emit, each stopping the build on
      failure. On success it yields the trees, the rewritten trees and the
      emitted image. */
  method Compile(env: Environment, views: seq<ViewPathTuple>, references: seq<string>)
    returns (r: Result<(seq<SyntaxTree>, seq<SyntaxTree>, seq<Byte>), BuildError>)
    ensures r.Ok? <==> (AllGenerate(env, views) && AllRewrite(env, views) &&
      env.emit(RewrittenTrees(env, views), references).success)
    ensures forall k :: FirstFailingView(env, views, k) ==>
      r == Err(SyntaxTreesFailed(Report(SyntaxTreesHeader, Generate(views[k], env.generate).parserErrors)))
    ensures AllGenerate(env, views) ==> forall k :: FirstFailingRewrite(env, views, k) ==>
      r == Err(RewriteFailed(RewriteTree(ParsedTree(env, views[k]), env.isPage).error))
    ensures AllGenerate(env, views) && AllRewrite(env, views) ==>
      var result := env.emit(RewrittenTrees(env, views), references);
      (!result.success ==> r == Err(CompilationFailed(Report(CompilationHeader, result.diagnostics)))) &&
      (result.success ==> r == Ok((ParsedTrees(env, views), RewrittenTrees(env, views), result.image)))
  {
    var syntaxTrees := GetSyntaxTrees(env, views);
    if syntaxTrees.Err? {
      ghost var k :| FirstFailingView(env, views, k) &&
        syntaxTrees.error == Report(SyntaxTreesHeader, Generate(views[k], env.generate).parserErrors);
      FirstFailingViewUnique(env, views, k);
      return Err(SyntaxTreesFailed(syntaxTrees.error));
    }
    var compilation := RewriteTrees(syntaxTrees.value, env.isPage);
    if compilation.Err? {
      ghost var k :| 0 <= k < |syntaxTrees.value| && RewriteTree(syntaxTrees.value[k], env.isPage).Err? &&
        (forall j :: 0 <= j < k ==> RewriteTree(syntaxTrees.value[j], env.isPage).Ok?) &&
        compilation.error == RewriteTree(syntaxTrees.value[k], env.isPage).error;
      ParsedFirstFailingRewrite(env, views, k);
      return Err(RewriteFailed(compilation.error));
    }
    ParsedAllRewrite(env, views, compilation.value);
    var result := env.emit(compilation.value, references);
    if !result.success {
      var report := BuildReport(CompilationHeader, result.diagnostics);
      return Err(CompilationFailed(report));
    }
    return Ok((syntaxTrees.value, compilation.value, result.image));
  }

  /** `Run`: the steps in the source's order, each stopping the build on
      failure; the artifact is written only after a successful emit, so a
      failed build leaves the file system as it was. */
  method Run(command: PrecompileCommand, env: Environment, fs: FileSystem) returns (r: Result<BuildSummary, BuildError>)
    modifies fs
    ensures r.Ok? <==> Succeeds(command, env)
    ensures r.Err? ==> fs.files == old(fs.files)
    ensures r.Ok? ==> fs.files == old(fs.files)[Combine(command.publishFolder, ArtifactFileName) := r.value.image]
    ensures ProjectOf(command, env).Err? ==> r == Err(ProjectLoadFailed(ProjectOf(command, env).error))
    ensures ProjectOf(command, env).Ok? ==>
      var project := ProjectOf(command, env).value;
      ReferencesOf(command, env, project).Err? ==> r == Err(ReferencesFailed(ReferencesOf(command, env, project).error))
    ensures ProjectOf(command, env).Ok? && ReferencesOf(command, env, ProjectOf(command, env).value).Ok? ==>
      var views := ViewsOf(env, ProjectOf(command, env).value);
      forall k :: FirstFailingView(env, views, k) ==>
        r == Err(SyntaxTreesFailed(Report(SyntaxTreesHeader, Generate(views[k], env.generate).parserErrors)))
    ensures ProjectOf(command, env).Ok? && ReferencesOf(command, env, ProjectOf(command, env).value).Ok? ==>
      var views := ViewsOf(env, ProjectOf(command, env).value);
      AllGenerate(env, views) ==> forall k :: FirstFailingRewrite(env, views, k) ==>
        r == Err(RewriteFailed(RewriteTree(ParsedTree(env, views[k]), env.isPage).error))
    ensures ProjectOf(command, env).Ok? && ReferencesOf(command, env, ProjectOf(command, env).value).Ok? ==>
      var project := ProjectOf(command, env).value;
      var references := ReferencesOf(command, env, project).value;
      var views := ViewsOf(env, project);
      AllGenerate(env, views) && AllRewrite(env, views) ==>
        var result := env.emit(RewrittenTrees(env, views), references);
        (!result.success ==> r == Err(CompilationFailed(Report(CompilationHeader, result.diagnostics)))) &&
        (result.success ==> r == Ok(BuildSummary(references, WebRootPath(project.projectDirectory, env.directoryExists),
                                                 views, ParsedTrees(env, views), RewrittenTrees(env, views), result.image)))
  {
    var applicationBasePath := ApplicationBasePath(command.projectPath, env.fullPath, env.currentDirectory);
    var projectContext := env.readProject(Combine(applicationBasePath, ProjectFileName), command.framework, command.configuration);
    if projectContext.Err? {
      return Err(ProjectLoadFailed(projectContext.error));
    }
    var project := projectContext.value;
    var metadataReferences := GetMetadataReferences(command.publishFolder, project, env.loadAssembly, env.fold, env.toolAssembly);
    assert metadataReferences == ReferencesOf(command, env, project);
    if metadataReferences.Err? {
      return Err(ReferencesFailed(metadataReferences.error));
    }
    var webRoot := WebRootPath(project.projectDirectory, env.directoryExists);
    var viewPaths := ViewFilePaths(project.projectDirectory, env.glob(project.projectDirectory, ViewGlob));
    var compiled := Compile(env, viewPaths, metadataReferences.value);
    if compiled.Err? {
      return Err(compiled.error);
    }
    var (trees, rewritten, image) := compiled.value;
    fs.Write(Combine(command.publishFolder, ArtifactFileName), image);
    return Ok(BuildSummary(metadataReferences.value, webRoot, viewPaths, trees, rewritten, image));
  }

  /** The rewrite loop's input and output, read on the views. */
  lemma ParsedRewrittenFrom(env: Environment, views: seq<ViewPathTuple>)
    requires AllRewrite(env, views)
    requires forall i :: 0 <= i < |views| ==> TreeTags(ParsedTrees(env, views)[i]) == {}
    ensures RewrittenFrom(ParsedTrees(env, views), RewrittenTrees(env, views), env.isPage)
    ensures TreePaths(ParsedTrees(env, views)) == RelativePaths(views)
    ensures forall i :: 0 <= i < |views| ==> ParsedTrees(env, views)[i].filePath == views[i].relativePath
  {
    var trees := ParsedTrees(env, views);
    assert forall i :: 0 <= i < |views| ==> trees[i] == ParsedTree(env, views[i]);
  }

  /** What the runtime index makes of a successful build. When the views'
      relative paths are pairwise different and their generated code holds no
      `ViewPath` attribute, the index of the emitted assembly builds exactly
      when no view holds two reachable page classes; then every view holding
      one maps its relative path to that class, and every key is such a
      view's relative path. */
  lemma PublishedViewsIndexed(command: PrecompileCommand, env: Environment)
    requires Succeeds(command, env)
    requires forall i :: 0 <= i < |ViewsOf(env, ProjectOf(command, env).value)| ==>
      TreeTags(ParsedTrees(env, ViewsOf(env, ProjectOf(command, env).value))[i]) == {}
    requires PairwiseDistinct(RelativePaths(ViewsOf(env, ProjectOf(command, env).value)))
    ensures var views := ViewsOf(env, ProjectOf(command, env).value);
      var trees := ParsedTrees(env, views);
      var index := BuildIndex(CompiledTypes(RewrittenTrees(env, views)));
      (forall i :: 0 <= i < |views| ==> trees[i].filePath == views[i].relativePath) &&
      (index.Ok? <==> AtMostOnePageEach(trees, env.isPage)) &&
      (index.Ok? ==> forall i :: 0 <= i < |trees| && |MembersPages(trees[i].root, env.isPage)| == 1 ==>
        trees[i].filePath in index.value && index.value[trees[i].filePath] == MembersPages(trees[i].root, env.isPage)[0]) &&
      (index.Ok? ==> forall p :: p in index.value ==>
        exists i :: 0 <= i < |trees| && trees[i].filePath == p && |MembersPages(trees[i].root, env.isPage)| == 1)
  {
    var views := ViewsOf(env, ProjectOf(command, env).value);
    ParsedRewrittenFrom(env, views);
    IndexOfRewrittenTrees(ParsedTrees(env, views), RewrittenTrees(env, views), env.isPage);
  }
}
