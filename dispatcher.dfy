/** `DispatcherCommand`: the outer invocation reads the project, picks its
    target framework and re-runs the tool under it, passing the project
    directory and the options it was given. Running the child process is left
    out; `Run` returns what the child is started with. */
module Dispatcher {
  import opened Wrappers
  import opened Paths

  /** A target framework name, as the project file lists it. */
  type Framework = string

  /** What `ProjectReader.GetProject` gives: the project's directory and its
      target frameworks, in the order the project file lists them. */
  datatype ProjectFile = ProjectFile(projectDirectory: string, targetFrameworks: seq<Framework>)

  /** The command's options; `None` is a null string. */
  datatype DispatcherCommand = DispatcherCommand(
    publishFolder: Option<string>, framework: Option<string>, configuration: Option<string>, projectPath: Option<string>)

  datatype DispatchError =
      // `ProjectReader.GetProject` threw
    | ProjectReadFailed(message: string)
      // `First()` on a project with no target framework threw
    | NoTargetFramework

  /** The child invocation: its argument list, the framework it runs under,
      the configuration, and its project directory. `NotDispatched` is the
      `return 0` taken when no framework resolves. */
  datatype Dispatch =
    | Dispatched(args: seq<string>, framework: Framework, configuration: Option<string>, projectDirectory: string)
    | NotDispatched

  const PublishFolderFlag: string := "-p"
  const FrameworkFlag: string := "-f"
  const ConfigurationFlag: string := "-c"

  /** A flag and its value when the value is neither null nor empty. */
  function OptionArgs(flag: string, value: Option<string>): (r: seq<string>)
    ensures |r| == if IsNullOrEmpty(value) then 0 else 2
  {
    if IsNullOrEmpty(value) then [] else [flag, value.value]
  }

  /** The option as the child sees it: a null and an empty value are both absent. */
  function Given(value: Option<string>): Option<string> {
    if IsNullOrEmpty(value) then None else value
  }

  /** The options the child's command line carries. */
  datatype ParsedArgs = ParsedArgs(
    projectPath: string, publishFolder: Option<string>, framework: Option<string>, configuration: Option<string>)

  /** Reads flag/value pairs into `acc`, a later flag replacing an earlier
      value; an unknown flag or a flag without a value is rejected. */
  function ParseOptions(rest: seq<string>, acc: ParsedArgs): Option<ParsedArgs>
    decreases |rest|
  {
    if rest == [] then Some(acc)
    else if |rest| < 2 then None
    else if rest[0] == PublishFolderFlag then ParseOptions(rest[2..], acc.(publishFolder := Some(rest[1])))
    else if rest[0] == FrameworkFlag then ParseOptions(rest[2..], acc.(framework := Some(rest[1])))
    else if rest[0] == ConfigurationFlag then ParseOptions(rest[2..], acc.(configuration := Some(rest[1])))
    else None
  }

  /** The child's view of its arguments: the project path first, then options. */
  function ParseDispatchArgs(args: seq<string>): Option<ParsedArgs> {
    if args == [] then None else ParseOptions(args[1..], ParsedArgs(args[0], None, None, None))
  }

  lemma ParseOptionPair(flag: string, value: Option<string>, rest: seq<string>, acc: ParsedArgs)
    requires flag in {PublishFolderFlag, FrameworkFlag, ConfigurationFlag}
    ensures ParseOptions(OptionArgs(flag, value) + rest, acc) ==
      if IsNullOrEmpty(value) then ParseOptions(rest, acc)
      else if flag == PublishFolderFlag then ParseOptions(rest, acc.(publishFolder := value))
      else if flag == FrameworkFlag then ParseOptions(rest, acc.(framework := value))
      else ParseOptions(rest, acc.(configuration := value))
  {
    if !IsNullOrEmpty(value) {
      var args := OptionArgs(flag, value) + rest;
      assert args[0] == flag && args[1] == value.value && args[2..] == rest;
    } else {
      assert OptionArgs(flag, value) + rest == rest;
    }
  }

  /** The child gets back the project directory and exactly the options that
      were neither null nor empty. */
  lemma DispatchArgsRoundTrip(projectDirectory: string, publishFolder: Option<string>, framework: Option<string>, configuration: Option<string>)
    ensures ParseDispatchArgs([projectDirectory] + OptionArgs(PublishFolderFlag, publishFolder) +
      OptionArgs(FrameworkFlag, framework) + OptionArgs(ConfigurationFlag, configuration))
      == Some(ParsedArgs(projectDirectory, Given(publishFolder), Given(framework), Given(configuration)))
  {
    var p, f, c := OptionArgs(PublishFolderFlag, publishFolder), OptionArgs(FrameworkFlag, framework),
      OptionArgs(ConfigurationFlag, configuration);
    var args := [projectDirectory] + p + f + c;
    assert args[1..] == p + (f + c);
    var acc0 := ParsedArgs(projectDirectory, None, None, None);
    ParseOptionPair(PublishFolderFlag, publishFolder, f + c, acc0);
    var acc1 := acc0.(publishFolder := Given(publishFolder));
    ParseOptionPair(FrameworkFlag, framework, c, acc1);
    var acc2 := acc1.(framework := Given(framework));
    ParseOptionPair(ConfigurationFlag, configuration, [], acc2);
    assert c + [] == c;
  }

  /** The `dispatchArgs` list of `Run`: the project directory, then `-p`, `-f`
      and `-c` pairs for the options that are neither null nor empty. */
  method BuildDispatchArgs(projectDirectory: string, publishFolder: Option<string>, framework: Option<string>, configuration: Option<string>)
    returns (args: seq<string>)
    ensures args == [projectDirectory] + OptionArgs(PublishFolderFlag, publishFolder) +
      OptionArgs(FrameworkFlag, framework) + OptionArgs(ConfigurationFlag, configuration)
    ensures |args| == 1 + |OptionArgs(PublishFolderFlag, publishFolder)| + |OptionArgs(FrameworkFlag, framework)| +
      |OptionArgs(ConfigurationFlag, configuration)|
    ensures args[0] == projectDirectory
    ensures ParseDispatchArgs(args) == Some(ParsedArgs(projectDirectory, Given(publishFolder), Given(framework), Given(configuration)))
  {
    args := [projectDirectory];
    if !IsNullOrEmpty(publishFolder) {
      args := args + [PublishFolderFlag];
      args := args + [publishFolder.value];
    }
    if !IsNullOrEmpty(framework) {
      args := args + [FrameworkFlag];
      args := args + [framework.value];
    }
    if !IsNullOrEmpty(configuration) {
      args := args + [ConfigurationFlag];
      args := args + [configuration.value];
    }
    DispatchArgsRoundTrip(projectDirectory, publishFolder, framework, configuration);
  }

  /** `TryResolveFramework`: always succeeds with the first framework; an
      empty list makes `First()` throw. */
  function TryResolveFramework(availableFrameworks: seq<Framework>): (r: Result<(bool, Framework), DispatchError>)
    ensures availableFrameworks == [] <==> r == Err(NoTargetFramework)
    ensures r.Ok? ==> r.value.0 && r.value.1 == availableFrameworks[0]
  {
    if availableFrameworks == [] then Err(NoTargetFramework) else Ok((true, availableFrameworks[0]))
  }

  /** `Run`, up to starting the child: a null project path reads as the empty
      one, and the child runs under the project's first framework with the
      dispatch argument list. The early `return 0` is never taken. */
  method Run(command: DispatcherCommand, readProject: string -> Result<ProjectFile, string>)
    returns (r: Result<Dispatch, DispatchError>)
    ensures var project := readProject(command.projectPath.GetOr(""));
      match project
      case Err(message) => r == Err(ProjectReadFailed(message))
      case Ok(file) =>
        (file.targetFrameworks == [] <==> r == Err(NoTargetFramework)) &&
        (file.targetFrameworks != [] ==>
          r.Ok? && r.value.Dispatched? &&
          r.value.framework == file.targetFrameworks[0] &&
          r.value.projectDirectory == file.projectDirectory &&
          r.value.configuration == command.configuration &&
          r.value.args == [file.projectDirectory] + OptionArgs(PublishFolderFlag, command.publishFolder) +
            OptionArgs(FrameworkFlag, command.framework) + OptionArgs(ConfigurationFlag, command.configuration) &&
          ParseDispatchArgs(r.value.args) == Some(ParsedArgs(file.projectDirectory,
            Given(command.publishFolder), Given(command.framework), Given(command.configuration))))
  {
    var projectFile := readProject(command.projectPath.GetOr(""));
    if projectFile.Err? {
      return Err(ProjectReadFailed(projectFile.error));
    }
    var targetFrameworks := projectFile.value.targetFrameworks;
    var resolved := TryResolveFramework(targetFrameworks);
    if resolved.Err? {
      return Err(resolved.error);
    }
    if !resolved.value.0 {
      return Ok(NotDispatched);
    }
    var dispatchArgs := BuildDispatchArgs(projectFile.value.projectDirectory,
      command.publishFolder, command.framework, command.configuration);
    return Ok(Dispatched(dispatchArgs, resolved.value.1, command.configuration, projectFile.value.projectDirectory));
  }
}
