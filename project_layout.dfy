/** The pure path and name computations of the precompile command: where the
    project lives, which file of the publish folder is the application, where
    the web root is, and which view files are compiled. */
module ProjectLayout {
  import opened Wrappers
  import opened Paths

  const ProjectFileName: string := "project.json"
  const WebRootFolder: string := "wwwroot"
  const ViewGlob: string := "**/*.cshtml"
  const PortableExtension: string := ".dll"
  const DesktopExtension: string := ".exe"

  /** What the project model reports about the project being published:
      its directory, the output name of its compiler options, whether its
      target framework is the desktop one and whether it is portable. */
  datatype ProjectContext = ProjectContext(
    projectDirectory: string, outputName: string, isDesktop: bool, portable: bool)

  /** `GetApplicationBasePath`: a project path naming a `project.json` file
      resolves to the directory holding that file, any other non-empty path to
      its full form, and a null or empty one to the current directory.
      `fullPath` stands for `Path.GetFullPath`. */
  function ApplicationBasePath(projectPath: Option<string>, fullPath: string -> string, currentDirectory: string): (r: string)
    ensures IsNullOrEmpty(projectPath) ==> r == currentDirectory
    ensures !IsNullOrEmpty(projectPath) && FileName(fullPath(projectPath.value)) != ProjectFileName ==>
      r == fullPath(projectPath.value)
    ensures !IsNullOrEmpty(projectPath) && FileName(fullPath(projectPath.value)) == ProjectFileName ==>
      var full := fullPath(projectPath.value);
      (LastSeparator(full).None? ==> r == "") &&
      (LastSeparator(full).Some? && LastSeparator(full).value == 0 ==> r == "/" && r + ProjectFileName == full) &&
      (LastSeparator(full).Some? && LastSeparator(full).value > 0 ==> r + "/" + ProjectFileName == full)
  {
    if !IsNullOrEmpty(projectPath) then
      var full := fullPath(projectPath.value);
      if FileName(full) == ProjectFileName then
        SplitAtLastSeparator(full);
        DirectoryName(full)
      else
        full
    else
      currentDirectory
  }

  /** The `isPortable` flag of `GetMetadataReferences`: only a project that is
      portable and does not target the desktop framework counts. */
  predicate IsPortable(isDesktop: bool, portableProject: bool) {
    !isDesktop && portableProject
  }

  /** The application file name: the output name with `.dll` for a portable
      application and `.exe` otherwise. */
  function ApplicationFileName(outputName: string, isDesktop: bool, portableProject: bool): (r: string)
    ensures |r| == |outputName| + 4 && r[..|outputName|] == outputName
    ensures r[|outputName|..] == PortableExtension <==> !isDesktop && portableProject
    ensures r[|outputName|..] == DesktopExtension <==> isDesktop || !portableProject
  {
    outputName + (if IsPortable(isDesktop, portableProject) then PortableExtension else DesktopExtension)
  }

  /** The web root of `BuildServiceProvider`: `wwwroot` under the content root
      when that directory exists, the content root itself otherwise.
      `directoryExists` stands for `Directory.Exists`. */
  function WebRootPath(contentRoot: string, directoryExists: string -> bool): (r: string)
    ensures r == contentRoot || (directoryExists(r) && r == Combine(contentRoot, WebRootFolder))
    ensures directoryExists(Combine(contentRoot, WebRootFolder)) ==> r == Combine(contentRoot, WebRootFolder)
    ensures !directoryExists(Combine(contentRoot, WebRootFolder)) ==> r == contentRoot
  {
    var candidate := Combine(contentRoot, WebRootFolder);
    if !directoryExists(candidate) then contentRoot else candidate
  }

  /** A discovered view: its path relative to the project directory and its
      path on disk. */
  datatype ViewPathTuple = ViewPathTuple(relativePath: string, absolutePath: string)

  /** `GetViewFilePaths`: one tuple per glob match, in match order, keeping the
      match as the relative path and placing it under the project directory for
      the absolute one. */
  function ViewFilePaths(projectDirectory: string, matches: seq<string>): (r: seq<ViewPathTuple>)
    ensures |r| == |matches|
    ensures forall i :: 0 <= i < |r| ==> r[i].relativePath == matches[i]
    ensures forall i :: 0 <= i < |r| ==> r[i].absolutePath == Combine(projectDirectory, matches[i])
    ensures forall i :: 0 <= i < |r| && projectDirectory != "" && matches[i] != "" && !IsRooted(matches[i]) ==>
      IsPrefix(projectDirectory, r[i].absolutePath) && IsSuffix("/" + matches[i], r[i].absolutePath)
  {
    seq(|matches|, i requires 0 <= i < |matches| => ViewPathTuple(matches[i], Combine(projectDirectory, matches[i])))
  }

  /** The relative paths of a list of views, in order. */
  function RelativePaths(views: seq<ViewPathTuple>): seq<string> {
    seq(|views|, i requires 0 <= i < |views| => views[i].relativePath)
  }

  /** Discovery keeps the glob's matches, in order, as the relative paths. */
  lemma ViewFilePathsKeepMatches(projectDirectory: string, matches: seq<string>)
    ensures RelativePaths(ViewFilePaths(projectDirectory, matches)) == matches
  {
  }
}
