# dotnet-precompile-views, modelled in Dafny

`dotnet-precompile-views` precompiles the Razor views (`*.cshtml`) of an
ASP.NET Core application when it is published. Its build-time command finds
the views under the project directory. The Razor host turns each view into C#,
and Roslyn parses the result. A syntax rewriter tags every Razor page class
with a `ViewPath` attribute holding the view's relative path. The command then
compiles everything against the published application's own references and
writes `precompiledviews.dll` into the publish folder. At run time, the
application loads that assembly and indexes its exported types by the path in
their `ViewPath` attribute. An outer dispatcher command reads the project and
re-invokes the tool under the project's first target framework.

The model covers these parts, one Dafny module each:

- `Paths`: the `Path.Combine`, `Path.GetFileName` and `Path.GetDirectoryName` behaviour the command relies on.
- `ProjectLayout`: the application base path, the application file name, the web-root fallback and view discovery.
- `References`: the `GetMetadataReferences` loop, which keeps the first occurrence of each path under an ordinal ignore-case comparer and then appends the tool's own assembly.
- `Reports`: the `StringBuilder` error reports. They round-trip: splitting a report into lines gives back the header and the messages.
- `ViewPathRewriter`: the `VisitClassDeclaration` tagging rule, over a small class/namespace syntax tree, with a separate account of which page classes the visitor reaches and which class without a base list makes it fail.
- `Precompile`: the pipeline `Run`, with `GetSyntaxTrees` and the rewrite loop as methods. The artifact is written to a `FileSystem` object.
- `PrecompiledViews`: the runtime `ToDictionary` index from view path to type.
- `Artifact`: the link between the two phases. Every row of the runtime index carries the path of the tree its type came from. The index builds exactly when no view holds two page classes the rewriter reaches; each view holding one is then found under its relative path.
- `Dispatcher`: the `dispatchArgs` list with its parse round trip, `TryResolveFramework`, and the dispatcher's `Run` up to starting the child process.

Calls into libraries are parameters or fields of `Precompile.Environment`:

- `Path.GetFullPath` and the current directory;
- the project reader;
- the assembly loader together with `DependencyContext.Load`;
- `Directory.Exists` and the glob matcher;
- the Razor host's `GenerateCode`;
- Roslyn's parser, its semantic model and `Emit`.

The semantic model is reduced to a predicate `isPage`, which says whether a base type implements `IRazorPage`. The ordinal ignore-case comparer is a key function `fold`, and two paths are the same entry when their keys are equal.

In three places the code does less than a precompilation tool is usually expected to do. The model follows the code:

- `GetSyntaxTrees` does not collect the template errors of every view. It stops at the first view the Razor host fails on and reports only that view's errors.
- There is no fallback when the dependency context is missing, and none when the artifact cannot be loaded at run time. A missing dependency context fails the build (`References.ReferenceError.MissingDependencyContext`). A failed load fails the index (`PrecompiledViews.IndexError.AssemblyLoadFailed`).
- Duplicate view paths are not detected during the build. They only fail at run time, when `ToDictionary` meets the same path twice, and paths are compared case-sensitively there.

## Model

| member | source | states |
|---|---|---|
| Paths.Combine | src/dotnet-precompile-views/PrecompileViewsCommand.cs:147 | An empty second part gives the first. An empty first part or a rooted second part gives the second. Otherwise the result is the first part, a separator unless the first part already ends with one, and the second part. |
| Paths.LastSeparator | src/dotnet-precompile-views/PrecompileViewsCommand.cs:157-158 | Returns the position of the last separator, with no separator after it, or None exactly when the path has no separator. |
| Paths.FileName | src/dotnet-precompile-views/PrecompileViewsCommand.cs:157 | The file name is everything after the last separator: a suffix of the path that holds no separator and is either the whole path or preceded by a separator. |
| Paths.DirectoryName | src/dotnet-precompile-views/PrecompileViewsCommand.cs:158 | The directory name is empty exactly when the path has no separator. Otherwise it is a prefix of the path. Past it there is no further separator, and when it is longer than the root it is followed by the separator it stops at. `Paths.SplitAtLastSeparator` puts it together with the file name. |
| Paths.SplitAtLastSeparator | src/dotnet-precompile-views/PrecompileViewsCommand.cs:157-158 | The path is its directory name, a separator and its file name. When the last separator is the leading one, the directory name is the root and the separator is not repeated. A path without a separator is all file name, with an empty directory name. |
| ProjectLayout.ApplicationBasePath | src/dotnet-precompile-views/PrecompileViewsCommand.cs:151-163 | A null or empty project path gives the current directory. A full path whose file name is not `project.json` is returned as is. Otherwise the result is the directory holding `project.json`: the root `/` for `/project.json`, the part before `/project.json` for a deeper path, and empty for a bare `project.json`. |
| ProjectLayout.ApplicationFileName | src/dotnet-precompile-views/PrecompileViewsCommand.cs:193-195 | The result is the output name followed by a four-character extension. The extension is `.dll` exactly when the project is portable and not a desktop one, and `.exe` exactly otherwise. |
| ProjectLayout.WebRootPath | src/dotnet-precompile-views/PrecompileViewsCommand.cs:168-175 | The web root is `wwwroot` under the content root when that directory exists, and the content root otherwise. |
| ProjectLayout.ViewFilePaths | src/dotnet-precompile-views/PrecompileViewsCommand.cs:134-149 | Gives one tuple per glob match, in order. The relative path is the match and the absolute path is the match combined with the project directory. A relative match ends up under the project directory. |
| ProjectLayout.ViewFilePathsKeepMatches | src/dotnet-precompile-views/PrecompileViewsCommand.cs:144-148 | Discovery keeps exactly the glob's matches, in order, as relative paths. |
| References.AllReferencePaths | src/dotnet-precompile-views/PrecompileViewsCommand.cs:205-207 | Every reference path of every compile library is among the paths walked. |
| References.AllReferencePathsStep | src/dotnet-precompile-views/PrecompileViewsCommand.cs:205-207 | Walking one more library appends that library's paths. |
| References.FirstOccurrences | src/dotnet-precompile-views/PrecompileViewsCommand.cs:202-214 | The kept paths have the same case-folded keys as the walked ones, are drawn from them, and never repeat a key. |
| References.KeysAppend | src/dotnet-precompile-views/PrecompileViewsCommand.cs:209 | Adding a path to the set adds exactly its key. |
| References.FirstOccurrencesLength | src/dotnet-precompile-views/PrecompileViewsCommand.cs:202-214 | One reference is kept per distinct case-folded key. |
| References.FirstOccurrencesAppend | src/dotnet-precompile-views/PrecompileViewsCommand.cs:207-212 | A new path is appended exactly when `HashSet.Add` succeeds, that is, when its key is new. |
| References.IndexOfKeyAppend | src/dotnet-precompile-views/PrecompileViewsCommand.cs:209 | Walking further does not move a key's first occurrence. |
| References.FirstOccurrencesInOrder | src/dotnet-precompile-views/PrecompileViewsCommand.cs:202-214 | Each kept reference is the first walked path with its key, and the kept references follow walk order. |
| References.IndexStable | src/dotnet-precompile-views/PrecompileViewsCommand.cs:209 | One more walked path moves no key already kept. |
| References.StepFirstWithKey | src/dotnet-precompile-views/PrecompileViewsCommand.cs:207-212 | One loop step keeps every kept reference the first walked path with its key. |
| References.StepInKeyOrder | src/dotnet-precompile-views/PrecompileViewsCommand.cs:207-212 | One loop step keeps the kept references in the order their keys were first met. |
| References.ReferenceListShape | src/dotnet-precompile-views/PrecompileViewsCommand.cs:202-218 | The list holds one reference per key and then the tool assembly last. Its entries before the last are pairwise different. The whole list has no duplicate key exactly when the tool assembly's key is not already present. |
| References.GetMetadataReferences | src/dotnet-precompile-views/PrecompileViewsCommand.cs:191-219 | The nested loop returns `MetadataReferences`. It loads `<output name>.dll` or `.exe` from the publish folder. A failed load or a missing dependency context is an error. Otherwise the result is the first occurrence of every reference path, in walk order, followed by the tool assembly. `FirstOccurrencesInOrder` and `ReferenceListShape` state what that list holds. |
| Reports.Report | src/dotnet-precompile-views/PrecompileViewsCommand.cs:114-119 | A report starts with its header line. |
| Reports.AppendedLinesSnoc | src/dotnet-precompile-views/PrecompileViewsCommand.cs:116-119 | Each `AppendLine` adds the message and a newline at the end. |
| Reports.BuildReport | src/dotnet-precompile-views/PrecompileViewsCommand.cs:81-86 | The `StringBuilder` loop produces the header line followed by one line per message. |
| Reports.LineEndAfter | src/dotnet-precompile-views/PrecompileViewsCommand.cs:114-119 | The first line of `line + newline + rest` ends after `line`. |
| Reports.FirstLine | src/dotnet-precompile-views/PrecompileViewsCommand.cs:114-119 | Splitting `line + newline + rest` gives `line` and then the lines of `rest`. |
| Reports.AppendedLinesSplit | src/dotnet-precompile-views/PrecompileViewsCommand.cs:116-119 | Splitting the appended messages gives back the messages. |
| Reports.ReportLines | src/dotnet-precompile-views/PrecompileViewsCommand.cs:114-121 | When no message contains a newline, splitting a report gives back the header and every message, in order. |
| ViewPathRewriter.FindPageBase | src/dotnet-precompile-views/ViewPathAttributeSyntaxRewriter.cs:20-26 | Finds the first base type that implements `IRazorPage`, or None exactly when there is none. |
| ViewPathRewriter.VisitClass | src/dotnet-precompile-views/ViewPathAttributeSyntaxRewriter.cs:18-44 | A class without a base list fails, as `node.BaseList.Types` throws there. A page class gets one `dotnet_precompile_views.ViewPathAttribute(path)` list appended, and its members are not visited. Any other class succeeds exactly when its members are visited without failure; it then has its members replaced by their visited versions, and otherwise fails with their error. |
| ViewPathRewriter.VisitMembers | src/dotnet-precompile-views/ViewPathAttributeSyntaxRewriter.cs:43 | The members are visited in order. The visit succeeds exactly when every member does, and then each member is replaced by its visited version. Otherwise it fails with the error of the first member that fails. |
| ViewPathRewriter.VisitMember | src/dotnet-precompile-views/ViewPathAttributeSyntaxRewriter.cs:43 | The base visitor on one member. A member that is neither a class nor a namespace is returned unchanged and never fails. A successful visit keeps the kind of member, a class's name and base list, and a namespace's name and member count. `VisitMemberOutcome` and `VisitMemberEffect` state when it fails and what it adds. |
| ViewPathRewriter.RewriteTree | src/dotnet-precompile-views/ViewPathAttributeSyntaxRewriter.cs:18-44 | A tree fails exactly when the visitor reaches a class without a base list, with the first such class as the error. Otherwise the tree keeps its path and shape, gains one attribute list per page class the visitor reaches, and its tags gain its own path exactly when it holds such a class. |
| ViewPathRewriter.VisitClassOutcome | src/dotnet-precompile-views/ViewPathAttributeSyntaxRewriter.cs:18-44 | Visiting a class fails exactly when the visitor reaches a class without a base list, and the error names the first one. Page classes are not descended into; other classes are. |
| ViewPathRewriter.VisitMemberOutcome | src/dotnet-precompile-views/ViewPathAttributeSyntaxRewriter.cs:43 | The same holds for a member, through namespaces and nested classes. |
| ViewPathRewriter.VisitMembersOutcome | src/dotnet-precompile-views/ViewPathAttributeSyntaxRewriter.cs:43 | The same holds for a list of members, in order. |
| ViewPathRewriter.ViewPathListPaths | src/dotnet-precompile-views/ViewPathAttributeSyntaxRewriter.cs:28-39 | The attribute list the rewriter builds carries exactly one path, the tree's. |
| ViewPathRewriter.AttributePathsAppend | src/dotnet-precompile-views/ViewPathAttributeSyntaxRewriter.cs:28-39 | The added attribute list contributes exactly its path. |
| ViewPathRewriter.AttributeTagsAppend | src/dotnet-precompile-views/ViewPathAttributeSyntaxRewriter.cs:39 | The added attribute list adds exactly its path to the class's tags. |
| ViewPathRewriter.VisitClassEffect | src/dotnet-precompile-views/ViewPathAttributeSyntaxRewriter.cs:18-44 | Visiting a class changes nothing but attribute lists. It adds one list per page class it reaches, and its tags gain the tree's path exactly when it holds a reached page class. |
| ViewPathRewriter.VisitMemberEffect | src/dotnet-precompile-views/ViewPathAttributeSyntaxRewriter.cs:43 | The same holds for a member, through namespaces and nested classes. |
| ViewPathRewriter.VisitMembersEffect | src/dotnet-precompile-views/ViewPathAttributeSyntaxRewriter.cs:43 | The same holds for a list of members. |
| Precompile.FileSystem.Write | src/dotnet-precompile-views/PrecompileViewsCommand.cs:94-98 | Writing replaces the file's content with exactly the new bytes and leaves other files alone. |
| Precompile.FileSystem.OpenWriteCopy | src/dotnet-precompile-views/PrecompileViewsCommand.cs:94-98 | Copying into a stream from `File.OpenWrite` leaves the file as `OpenWriteContents` describes. |
| Precompile.OpenWriteContents | src/dotnet-precompile-views/PrecompileViewsCommand.cs:94-98 | The new bytes come first. Past their end, the old file's bytes remain, and the length is the larger of the two lengths. |
| Precompile.OpenWriteExact | src/dotnet-precompile-views/PrecompileViewsCommand.cs:94-98 | The file holds exactly the new image if and only if there was no old file or the old one was no longer. |
| Precompile.StaleTailAfterRebuild | src/dotnet-precompile-views/PrecompileViewsCommand.cs:94 | A 3-byte old artifact overwritten by a 1-byte image leaves `[9, 2, 3]`, not the image. |
| Precompile.GetSyntaxTrees | src/dotnet-precompile-views/PrecompileViewsCommand.cs:104-132 | Succeeds exactly when every view generates. Then it gives one tree per view, in order, with the view's relative path and the parse of its code. Otherwise the error is the report of the first failing view's parser errors. |
| Precompile.RewriteTrees | src/dotnet-precompile-views/PrecompileViewsCommand.cs:61-71 | Succeeds exactly when every tree rewrites. Then it gives every tree replaced by its rewrite, in place. Otherwise the error is the first failing tree's. |
| Precompile.Compile | src/dotnet-precompile-views/PrecompileViewsCommand.cs:52-89 | Succeeds exactly when every view generates, every tree is rewritten and the emit succeeds. The first view that fails to generate gives its syntax-tree report. Otherwise the first tree that fails to rewrite gives its error. Otherwise a failed emit gives the compilation report of its diagnostics. A success gives the parsed trees, the rewritten trees and the image. |
| Precompile.ParsedFirstFailingRewrite | src/dotnet-precompile-views/PrecompileViewsCommand.cs:61-71 | The rewrite loop's first failing tree is the first view whose tree fails to rewrite, and there is only one such view. |
| Precompile.ParsedAllRewrite | src/dotnet-precompile-views/PrecompileViewsCommand.cs:61-71 | A complete rewrite loop means every view's tree rewrites, and its output is those rewrites in view order. |
| Precompile.Run | src/dotnet-precompile-views/PrecompileViewsCommand.cs:41-102 | The build succeeds exactly when every step does. Its error is exact for each step, given that every earlier step succeeded: the project reader's message; the reference error; the report of the first view that fails to generate; the error of the first tree that fails to rewrite; the compilation report of the emit's diagnostics. A success returns the references, web root, views, parsed and rewritten trees, and image, and writes the image to `precompiledviews.dll` in the publish folder. A failure leaves the file system unchanged. |
| Precompile.PublishedViewsIndexed | src/dotnet-precompile-views/PrecompiledViewsServiceCollectionExtensions.cs:14-26 | Assume a successful build, views whose relative paths are pairwise different, and generated code with no `ViewPath` attribute. Then the runtime index of the emitted assembly builds exactly when no view holds two reachable page classes. A view holding one maps its relative path to that class, and every key is such a view's path. |
| PrecompiledViews.TypeEntries | src/dotnet-precompile-views/PrecompiledViewsServiceCollectionExtensions.cs:18-19 | A type contributes one row per `ViewPath` attribute, in order, each mapping that path to the type. |
| PrecompiledViews.DistinctKeysSnoc | src/dotnet-precompile-views/PrecompiledViewsServiceCollectionExtensions.cs:26 | Adding a row keeps the keys distinct exactly when its path is new. |
| PrecompiledViews.ToDictionary | src/dotnet-precompile-views/PrecompiledViewsServiceCollectionExtensions.cs:26 | Succeeds exactly when the paths are pairwise different. Then the keys are exactly the rows' paths and every row's path maps to its type. Otherwise the error names a duplicated path. |
| PrecompiledViews.ToDictionaryReportsRepeatedKey | src/dotnet-precompile-views/PrecompiledViewsServiceCollectionExtensions.cs:26 | The reported path occurs in two different rows. |
| PrecompiledViews.ToDictionaryHas | src/dotnet-precompile-views/PrecompiledViewsServiceCollectionExtensions.cs:26 | A successful index maps every row's path to that row's type. |
| PrecompiledViews.ToDictionaryRow | src/dotnet-precompile-views/PrecompiledViewsServiceCollectionExtensions.cs:26 | Every key of a successful index comes from a row whose type it maps to. |
| PrecompiledViews.RepeatedKeyNotDistinct | src/dotnet-precompile-views/PrecompiledViewsServiceCollectionExtensions.cs:26 | A path with a row in each of two lists is repeated in their concatenation. |
| PrecompiledViews.PrecompiledIndex | src/dotnet-precompile-views/PrecompiledViewsServiceCollectionExtensions.cs:14-26 | Loads the assembly named `precompiledviews`. When `Assembly.Load` fails, the index fails. Otherwise it is the index of the assembly's exported types. |
| PrecompiledViews.ViewEntriesAppend | src/dotnet-precompile-views/PrecompiledViewsServiceCollectionExtensions.cs:16-25 | The query's rows for two lists of types are the rows of the first list followed by those of the second. |
| PrecompiledViews.ViewEntries | src/dotnet-precompile-views/PrecompiledViewsServiceCollectionExtensions.cs:16-25 | The query over the exported types. Every row pairs a type of the assembly with one of that type's `ViewPath` paths; `ViewEntriesComplete` gives the converse. |
| PrecompiledViews.ViewEntriesComplete | src/dotnet-precompile-views/PrecompiledViewsServiceCollectionExtensions.cs:16-25 | There is a row for a path and type if and only if that type carries a `ViewPath` attribute with that path. |
| PrecompiledViews.DistinctKeysCount | src/dotnet-precompile-views/PrecompiledViewsServiceCollectionExtensions.cs:26 | With distinct keys, there are as many keys as rows. |
| PrecompiledViews.IndexLookup | src/dotnet-precompile-views/PrecompiledViewsServiceCollectionExtensions.cs:16-26 | A successful index has one key per row. Each tagged path maps to its type, and every key is the tag of the type it maps to. |
| PrecompiledViews.BuildIndex | src/dotnet-precompile-views/PrecompiledViewsServiceCollectionExtensions.cs:16-26 | `ToDictionary` over the query's rows. It succeeds exactly when no two rows share a path. Otherwise it fails with `DuplicateKey` of a path that some exported type carries. `IndexLookup` and `DuplicatePathFails` give the contents and the failing case. |
| PrecompiledViews.UntaggedTypeIgnored | src/dotnet-precompile-views/PrecompiledViewsServiceCollectionExtensions.cs:18-19 | Inserting a type without a `ViewPath` attribute anywhere leaves the index unchanged. |
| PrecompiledViews.UntaggedTypeNoEntries | src/dotnet-precompile-views/PrecompiledViewsServiceCollectionExtensions.cs:18-19 | A type without a `ViewPath` attribute contributes no row. |
| PrecompiledViews.DuplicatePathFails | src/dotnet-precompile-views/PrecompiledViewsServiceCollectionExtensions.cs:26 | Two types tagged with the same path make the index fail. |
| PrecompiledViews.KeysAreCaseSensitive | src/dotnet-precompile-views/PrecompiledViewsServiceCollectionExtensions.cs:26 | Any two different paths, including ones that differ only in case, index two separate types. |
| Artifact.ClassEntriesAreTags | src/dotnet-precompile-views/PrecompiledViewsServiceCollectionExtensions.cs:18-19 | Every index row that comes from a class or its nested classes carries one of that class's tags. |
| Artifact.MemberEntriesAreTags | src/dotnet-precompile-views/PrecompiledViewsServiceCollectionExtensions.cs:18-19 | The same holds for a member. |
| Artifact.MembersEntriesAreTags | src/dotnet-precompile-views/PrecompiledViewsServiceCollectionExtensions.cs:18-19 | The same holds for a list of members. |
| Artifact.VisitedClassEntries | src/dotnet-precompile-views/ViewPathAttributeSyntaxRewriter.cs:18-44 | A class without tags, once visited, contributes exactly one row per page class reached in it, keyed by the tree's path and naming the class. |
| Artifact.VisitedMemberEntries | src/dotnet-precompile-views/ViewPathAttributeSyntaxRewriter.cs:43 | The same holds for a member. |
| Artifact.VisitedMembersEntries | src/dotnet-precompile-views/ViewPathAttributeSyntaxRewriter.cs:43 | The same holds for a list of members, in order. |
| Artifact.RewrittenTreeEntries | src/dotnet-precompile-views/ViewPathAttributeSyntaxRewriter.cs:18-44 | When a tree had no tags before the rewrite, its rewrite contributes exactly one row per reached page class, in visit order. Each row has the tree's file path as key and names that class. |
| Artifact.CompiledEntriesKeys | src/dotnet-precompile-views/PrecompiledViewsServiceCollectionExtensions.cs:16-25 | Every row of the compiled assembly has one of the trees' paths as key. |
| Artifact.TreeEntriesInCompiled | src/dotnet-precompile-views/PrecompiledViewsServiceCollectionExtensions.cs:16-25 | Every row of a tree is a row of the compiled assembly. |
| Artifact.CompiledEntryTree | src/dotnet-precompile-views/PrecompiledViewsServiceCollectionExtensions.cs:16-25 | Every row of the compiled assembly is a row of one of its trees. |
| Artifact.RewrittenKeyedBy | src/dotnet-precompile-views/PrecompileViewsCommand.cs:61-71 | After the rewrite loop, every row of each rewritten tree carries that tree's original path, when no tree was tagged before. |
| Artifact.LastTreeApart | src/dotnet-precompile-views/PrecompiledViewsServiceCollectionExtensions.cs:26 | With pairwise different tree paths, the last tree's rows share no key with the rows of the trees before it. |
| Artifact.CompiledDistinctKeys | src/dotnet-precompile-views/PrecompiledViewsServiceCollectionExtensions.cs:26 | With pairwise different tree paths, the assembly's rows have distinct keys if and only if no tree contributes two rows. |
| Artifact.IndexOfTrees | src/dotnet-precompile-views/PrecompiledViewsServiceCollectionExtensions.cs:16-26 | With pairwise different view paths, the runtime index builds if and only if no view contributes two tagged types. Then each view's single tagged type is found under the view's path, and every key is a view path. |
| Artifact.RowsArePages | src/dotnet-precompile-views/PrecompileViewsCommand.cs:61-71 | After the rewrite loop, each rewritten tree's rows are the rows of its reached page classes. So no tree contributes two rows exactly when no tree holds two reached page classes. |
| Artifact.IndexOfRewrittenTrees | src/dotnet-precompile-views/PrecompiledViewsServiceCollectionExtensions.cs:16-26 | Rewrite untagged trees with pairwise different paths. Then the index builds exactly when no tree holds two reached page classes. A tree with one maps its path to that class, and every key is the path of such a tree. |
| Dispatcher.OptionArgs | src/dotnet-precompile-views/DispatcherCommand.cs:42-46 | A null or empty option adds no argument. Any other option adds two: the flag and its value. |
| Dispatcher.ParseOptionPair | src/dotnet-precompile-views/DispatcherCommand.cs:42-58 | Parsing one flag/value pair sets exactly that option. |
| Dispatcher.DispatchArgsRoundTrip | src/dotnet-precompile-views/DispatcherCommand.cs:37-58 | Parsing the argument list gives back the project directory and exactly the options that were given. |
| Dispatcher.BuildDispatchArgs | src/dotnet-precompile-views/DispatcherCommand.cs:37-58 | The list is the project directory followed by `-p`, `-f` and `-c` pairs for the given options. It starts with the directory, and parsing it recovers every option. |
| Dispatcher.TryResolveFramework | src/dotnet-precompile-views/DispatcherCommand.cs:78-84 | Fails exactly when there is no framework, as `First()` throws. Otherwise it returns true and the first framework. |
| Dispatcher.Run | src/dotnet-precompile-views/DispatcherCommand.cs:24-76 | Reads the project from the project path, with null read as empty. A read failure or an empty framework list is an error. Otherwise the child always runs under the first framework, in the project directory, with the configuration. Its arguments are exactly the project directory followed by the `-p`, `-f` and `-c` pairs of the given options, and they parse back to those options. The `return 0` branch is never taken. |

## Left out

- I/O is abstracted. Reading view files, loading assemblies, globbing and `Directory.Exists` are function parameters. `CreateMetadataReference` (PrecompileViewsCommand.cs:221-230) is not modelled: a reference is just its path, and no metadata is read.
- `Path.GetFullPath` is an uninterpreted function. `Paths.Combine`, `Paths.FileName` and `Paths.DirectoryName` use only the POSIX separator `/`, and leave out Windows separators, drive roots and path normalisation.
- `References.GetMetadataReferences` models the ordinal ignore-case comparer as an arbitrary key function `fold`. It does not model .NET's actual case-folding tables.
- `Precompile.Run` treats these as oracles: the Razor host, Roslyn's parser, its semantic model (reduced to `isPage`) and `Emit`. The compilation's assembly name, its options, the debug-symbol stream and the `Console.WriteLine` of the diagnostic count are not modelled. Neither are the service provider built with the web root (only the web-root path is computed) or the stream positioning. `GetSyntaxTrees` is a lazy iterator in the code; the model runs it eagerly at the point where `CSharpCompilation.Create` enumerates it.
- Some failures throw without being modelled, so the model has no `Err` for them: `ResolveReferencePaths` (PrecompileViewsCommand.cs:207), `File.OpenRead` of a reference (PrecompileViewsCommand.cs:223), and `File.OpenRead` of a view (PrecompileViewsCommand.cs:108). The exceptions that are modelled become `Err` values: a failed project read, a failed application load, a missing dependency context, a failed view generation, a class without a base list and a failed emit. `Program.cs`'s exit codes and argument parsing are not part of this model.
- `Artifact.CompiledTypes` gives each class only the `ViewPath` attributes written on it. `GetCustomAttributes<ViewPathAttribute>()` also returns inherited ones, since `ViewPathAttribute` keeps the default `Inherited = true` (ViewPathAttribute.cs:5). So a class deriving from a tagged page class would add a row with that page's path; the model has no such row. Likewise, `ViewPathRewriter.ViewPathOf` recognises a tag only in the exact form the rewriter writes, `dotnet_precompile_views.ViewPathAttribute("<literal>")`. Generated code that already carried `[ViewPath("x")]`, a `global::`-qualified name or a constant-expression argument would count as untagged in the model. It would then meet the untagged hypothesis of `Artifact.IndexOfRewrittenTrees` and `Precompile.PublishedViewsIndexed`, yet still add an index row in the running program. What `Emit` really exports is not modelled either: every class of the rewritten trees is taken to become an exported type.
- `ViewPathRewriter.VisitMember` treats anything that is not a class or a namespace as an opaque `OtherMember`. Classes nested in structs or interfaces are therefore never visited, whereas Roslyn's base visitor would reach and tag them.
- `Reports.BuildReport` ends each line with "\n", the POSIX value of `Environment.NewLine` used by `AppendLine`. The Windows "\r\n" is not modelled.
- `Dispatcher.Run` stops at the dispatch it would start. It does not model the child process, its forwarded output or its exit code.
- The runtime cache (`PrecompiledViewsCache`, `PrecompiledViewsCacheProvider`), the dependency-injection registration and the thread safety of the singleton factory are not part of this model. Only the index they are given is.
- `Precompile.Run` writes the artifact with `FileSystem.Write`, a full replacement. The behaviour of the code as written is kept apart in `FileSystem.OpenWriteCopy` (see Findings).

## Findings

| source | as written | input that shows it | evidently intended | confidence | as-written member | corrected member |
|---|---|---|---|---|---|---|
| src/dotnet-precompile-views/PrecompileViewsCommand.cs:94 | `File.OpenWrite` opens an existing `precompiledviews.dll` at offset 0 without truncating it, so the copy overwrites only the first bytes. | An earlier artifact of bytes `[1, 2, 3]` and a new image `[9]` leave the file as `[9, 2, 3]`. | The artifact holds exactly the new image, since every publish is a full rebuild. | not executed; high: documented `File.OpenWrite` semantics | Precompile.StaleTailAfterRebuild | Precompile.FileSystem.Write |
