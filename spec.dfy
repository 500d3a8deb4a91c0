/** What each function of the project-admin script does to the world, as a
    function from the world before to the world after. The methods of
    ProjAdm.Host are proved to compute exactly these; the lemmas of module
    Properties prove what the script promises about them. */
module Spec {
  import opened Model
  import opened Paths

  function Log(w: World, e: Event): World {
    w.(trace := w.trace + [e])
  }

  function Exit(w: World, f: Fault): World {
    w.(status := Exited(f))
  }

  function Raise(w: World, f: Fault): World {
    w.(status := Raised(f))
  }

  /** The accept rule of exec_command. */
  predicate Accepted(r: CommandResult) {
    r.state == Finished && r.retcode == 0
  }

  /** exec_command: in dry-run only log the command; otherwise run it, and
      exit unless it finished with return code 0, returning its output. */
  function ExecCommand(w: World, doit: bool, cmd: seq<string>, r: CommandResult): (World, Option<seq<string>>) {
    if !doit then (w, None)
    else if !Accepted(r) then (Exit(Log(w, Execute(cmd)), CommandFailed), None)
    else (Log(w, Execute(cmd)), Some(r.out))
  }

  /** install_config: in dry-run nothing; otherwise copy the staged content
      over `dst`, exiting on a permission or I/O failure. */
  function InstallConfig(w: World, doit: bool, data: string, dst: string, outcome: CopyOutcome): World {
    if !doit then w
    else match outcome
      case Copied => Log(w, Copy(dst, data)).(files := w.files[dst := data])
      case PermissionError => Exit(w, CopyDenied)
      case OSError => Exit(w, CopyFailed)
  }

  /** The merge command config_refresh builds by extending `configmerge`. */
  function MergeCommand(configmerge: seq<string>, jar: string, roconfig: string, staged: string, java: string): seq<string> {
    configmerge + ["-a", jar, roconfig, staged] + (if java != "" then ["-j", java] else [])
  }

  /** config_refresh. */
  function ConfigRefresh(w: World, doit: bool, base: string, configmerge: seq<string>, jar: string,
                         roconfig: string, java: string, o: Oracle): World
  {
    var cfg := ConfigFile(base);
    if cfg !in w.files then Exit(w, ConfigMissing)
    else if doit && !Truthy(Fetched(w, o)) then Exit(Log(w, Fetch), FetchFailed)
    else
      var w1 := if doit then Log(w, Fetch) else w;
      var staged := if doit then w.remoteConfig else "";
      if roconfig == "" then InstallConfig(w1, doit, staged, cfg, o.copy)
      else
        var (w2, merged) := ExecCommand(w1, doit, MergeCommand(configmerge, jar, roconfig, o.tempName, java), o.merge);
        if doit && w2.status.Running? then InstallConfig(w2, doit, Concat(merged.value), cfg, o.copy)
        else w2
  }

  /** The configuration get_configuration returns: the one the webapp
      serves, when the webapp answers. */
  function Fetched(w: World, o: Oracle): Option<string> {
    if o.fetchOk then Some(w.remoteConfig) else None
  }

  /** project_add: register the project with the webapp, unless dry-run. */
  function ProjectAdd(w: World, doit: bool, project: string, o: Oracle): World {
    if !doit then w
    else Log(w, AddProject(project)).(registry := if project in o.addRefused then w.registry else w.registry + {project})
  }

  /** The sourceRoot value as text ("" for None). */
  function SourceRoot(o: Oracle): string {
    if o.sourceRoot.Some? then o.sourceRoot.value else ""
  }

  /** The directories left once the tree at `d` is removed. */
  function DirsOutside(dirs: set<string>, d: string): set<string> {
    set x | x in dirs && !Within(x, d)
  }

  /** The files left once the tree at `d` is removed. */
  function FilesOutside(files: map<string, string>, d: string): map<string, string> {
    map x | x in files && !Within(x, d) :: files[x]
  }

  /** project_delete; shutil.rmtree takes the whole tree at the source
      directory, and raises when that is not a directory. */
  function ProjectDelete(w: World, doit: bool, deletesource: bool, project: string, o: Oracle): World {
    if project == "" then Raise(w, MissingProject)
    else
      var w1 := if !doit then w
                else Log(w, DeleteProject(project)).(registry := if project in o.deleteRefused then w.registry else w.registry - {project});
      if !deletesource then w1
      else
        var w2 := Log(w1, GetValue("sourceRoot"));
        if !Truthy(o.sourceRoot) then Raise(w2, EmptySourceRoot)
        else
          var dir := Join(SourceRoot(o), project);
          if !doit then w2
          else if dir in w2.dirs then
            Log(w2, RemoveTree(dir)).(dirs := DirsOutside(w2.dirs, dir), files := FilesOutside(w2.files, dir))
          else Raise(Log(w2, RemoveTree(dir)), RemoveFailed)
  }

  /** The add loop of main, over a prefix of the project list. */
  function AddProjects(w: World, doit: bool, ps: seq<string>, o: Oracle): World
    decreases |ps|
  {
    if ps == [] then w
    else ProjectAdd(AddProjects(w, doit, ps[..|ps| - 1], o), doit, ps[|ps| - 1], o)
  }

  /** The delete loop of main; an exception ends it. */
  function DeleteProjects(w: World, doit: bool, deletesource: bool, ps: seq<string>, o: Oracle): World
    decreases |ps|
  {
    if ps == [] then w
    else
      var v := DeleteProjects(w, doit, deletesource, ps[..|ps| - 1], o);
      if v.status.Running? then ProjectDelete(v, doit, deletesource, ps[|ps| - 1], o) else v
  }

  /** The configmerge list main builds once the merge program is found. */
  function ConfigMergePrefix(opts: Options, o: Oracle): seq<string> {
    if opts.roconfig != "" && o.configMergePath.Some? then
      [o.configMergePath.value] + (if opts.debug then ["-D"] else [])
    else []
  }

  function JarOf(opts: Options): string {
    if opts.jar.Some? then opts.jar.value else ""
  }

  /** config_refresh as main calls it. */
  function Refresh(w: World, opts: Options, o: Oracle): World {
    ConfigRefresh(w, !opts.noop, opts.base, ConfigMergePrefix(opts, o), JarOf(opts), opts.roconfig, opts.java, o)
  }

  /** The checks main makes before it takes the lock, in order. */
  function Validate(w: World, opts: Options, o: Oracle): Option<Fault> {
    if opts.nosourcedelete && opts.delete == [] then Some(SourceDeleteWithoutDelete)
    else if opts.base != "" && opts.base !in w.dirs then Some(BaseNotDir)
    else if opts.roconfig != "" && opts.roconfig !in w.files then Some(RoConfigMissing)
    else if opts.roconfig != "" && o.configMergePath.None? then Some(NoConfigMerge)
    else if opts.roconfig != "" && opts.jar.None? then Some(NoJar)
    else if opts.uri == "" then Some(NoUri)
    else None
  }

  /** The one workflow main runs under the lock. */
  function Workflow(w: World, opts: Options, o: Oracle): World {
    var doit := !opts.noop;
    if opts.add != [] then Refresh(AddProjects(w, doit, opts.add, o), opts, o)
    else if opts.delete != [] then
      var v := DeleteProjects(w, doit, !opts.nosourcedelete, opts.delete, o);
      if v.status.Running? then Refresh(v, opts, o) else v
    else if opts.refresh then Refresh(w, opts, o)
    else Exit(w, NoOperation)
  }

  /** The upload step of main. */
  function Upload(w: World, doit: bool, base: string, o: Oracle): World {
    var cfg := ConfigFile(base);
    if cfg !in w.files then Exit(w, UploadConfigMissing)
    else if !doit then w
    else
      var w1 := Log(w, Push(w.files[cfg]));
      if o.pushOk then w1.(remoteConfig := w.files[cfg]) else Exit(w1, PushFailed)
  }

  /** main, after argument parsing: validate, take the lock or exit, run the
      workflow and the optional upload, and release the lock on every path
      out of the locked region. */
  function ProjAdm(w: World, opts: Options, o: Oracle): World {
    match Validate(w, opts, o)
    case Some(f) => Exit(w, f)
    case None =>
      if !o.lockFree then Exit(w, AlreadyRunning)
      else
        var v := Workflow(w.(locked := true), opts, o);
        var u := if v.status.Running? && opts.upload then Upload(v, !opts.noop, opts.base, o) else v;
        u.(locked := false)
  }
}
