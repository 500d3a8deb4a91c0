/** The abstract world the project-admin script acts on, the answers the
    foreign code it calls gives back, and its parsed command-line options. */
module Model {

  datatype Option<T> = None | Some(value: T)

  /** Python truthiness of an optional string: present and not empty. */
  predicate Truthy(s: Option<string>) {
    s.Some? && s.value != ""
  }

  /** Why a run ended early. The first eight come from the operations, the
      rest from the driver. */
  datatype Fault =
    | CommandFailed              // exec_command: not finished, or non-zero return code
    | CopyDenied                 // install_config: PermissionError
    | CopyFailed                 // install_config: any other OSError
    | ConfigMissing              // config_refresh: the live configuration file is not a file
    | FetchFailed                // config_refresh: no configuration came back from the webapp
    | MissingProject             // project_delete: empty project name
    | EmptySourceRoot            // project_delete: sourceRoot empty
    | RemoveFailed               // project_delete: rmtree of a directory that is not there
    | SourceDeleteWithoutDelete  // main: --nosourcedelete given without --delete
    | BaseNotDir                 // main: the instance base is not a directory
    | RoConfigMissing            // main: the read-only configuration is not a file
    | NoConfigMerge              // main: the config merge program cannot be found
    | NoJar                      // main: no --jar for the config merge program
    | NoUri                      // main: empty webapp URI
    | NoOperation                // main: none of --add, --delete, --refresh
    | AlreadyRunning             // main: the lock is held by another invocation
    | UploadConfigMissing        // main: nothing to upload
    | PushFailed                 // main: the webapp refused the uploaded configuration

  /** `Exited` is sys.exit(1); `Raised` is an exception nothing catches,
      which makes the interpreter exit with status 1 as well. */
  datatype Status = Running | Exited(fault: Fault) | Raised(raised: Fault)

  /** What the foreign code was asked to do, in order. A copy is recorded
      only when it succeeds; a failed one ends the run instead. */
  datatype Event =
    | Fetch                           // get_configuration
    | Push(data: string)              // set_configuration
    | AddProject(name: string)        // add_project
    | DeleteProject(name: string)     // delete_project
    | GetValue(key: string)           // get_config_value
    | Execute(cmd: seq<string>)       // Command.execute
    | Copy(dst: string, data: string) // shutil.copyfile, successful
    | RemoveTree(dir: string)         // shutil.rmtree

  /** The state the script sees and changes. `files` are the regular files
      on disk with their content, `dirs` the directories; `registry` the
      projects the webapp knows and `remoteConfig` the configuration it
      serves (what get_configuration returns when the webapp answers, and
      what set_configuration replaces); `locked` whether this invocation
      holds the lock. */
  datatype World = World(
    files: map<string, string>,
    dirs: set<string>,
    registry: set<string>,
    remoteConfig: string,
    locked: bool,
    trace: seq<Event>,
    status: Status)

  datatype CmdState = NotRun | Finished | Failed

  /** What a Command gives back once executed. */
  datatype CommandResult = CommandResult(state: CmdState, retcode: int, out: seq<string>, err: seq<string>)

  datatype CopyOutcome = Copied | PermissionError | OSError

  /** The answers of everything projadm.py calls but does not define, for
      one invocation: whether get_configuration reaches the webapp (when it
      does, it returns the served configuration), the name tempfile gives
      the staged file, the merge program's result, whether shutil.copyfile succeeds, the projects the webapp
      will not add or delete (the helpers log that and return; the script
      goes on), the sourceRoot value, whether set_configuration succeeds,
      whether the lock is free, and what get_command resolves the merge
      program to. */
  datatype Oracle = Oracle(
    fetchOk: bool,
    tempName: string,
    merge: CommandResult,
    copy: CopyOutcome,
    addRefused: set<string>,
    deleteRefused: set<string>,
    sourceRoot: Option<string>,
    pushOk: bool,
    lockFree: bool,
    configMergePath: Option<string>)

  /** The parsed command line. An empty string stands for an option that
      was not given where the script only tests its truthiness; `jar` is
      tested against None, so it stays optional. An empty `add` or
      `delete` list means the option was not given (argparse's nargs='+'
      never yields an empty list). */
  datatype Options = Options(
    debug: bool,
    base: string,
    roconfig: string,
    uri: string,
    java: string,
    jar: Option<string>,
    upload: bool,
    noop: bool,
    nosourcedelete: bool,
    add: seq<string>,
    delete: seq<string>,
    refresh: bool)

  /** ''.join(lines) */
  function Concat(lines: seq<string>): string {
    if lines == [] then "" else lines[0] + Concat(lines[1..])
  }

  /** Number of `Fetch` events in a trace. */
  function Fetches(t: seq<Event>): nat {
    if t == [] then 0 else (if t[0].Fetch? then 1 else 0) + Fetches(t[1..])
  }
}
