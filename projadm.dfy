/** The project-admin script over a mutable host: each method follows its
    Python counterpart step by step and is proved to leave the host in the
    state module Spec prescribes. sys.exit and an uncaught exception set
    `status` and return; every caller returns as soon as `status` is no
    longer Running, as the Python stack unwinds. */
module ProjAdm {
  import opened Model
  import opened Paths
  import Spec

  /** The list config_refresh hands to the merge program: the caller's
      configmerge list extended with the merge arguments, and the java
      option when one is given. */
  method BuildMergeCommand(configmerge: seq<string>, jar: string, roconfig: string, staged: string, java: string)
    returns (cmd: seq<string>)
    ensures cmd == Spec.MergeCommand(configmerge, jar, roconfig, staged, java)
  {
    cmd := configmerge;
    cmd := cmd + ["-a", jar, roconfig, staged];
    if java != "" {
      cmd := cmd + ["-j"];
      cmd := cmd + [java];
    }
  }

  class Host {
    var files: map<string, string>
    var dirs: set<string>
    var registry: set<string>
    var remoteConfig: string
    var locked: bool
    var trace: seq<Event>
    var status: Status

    function State(): World
      reads this
    {
      World(files, dirs, registry, remoteConfig, locked, trace, status)
    }

    constructor (w: World)
      ensures State() == w
    {
      files, dirs, registry, remoteConfig := w.files, w.dirs, w.registry, w.remoteConfig;
      locked, trace, status := w.locked, w.trace, w.status;
    }

    method ExecCommand(doit: bool, cmd: seq<string>, r: CommandResult) returns (out: Option<seq<string>>)
      modifies this
      ensures (State(), out) == Spec.ExecCommand(old(State()), doit, cmd, r)
    {
      if !doit {
        return None;
      }
      trace := trace + [Execute(cmd)];
      if r.state != Finished || r.retcode != 0 {
        status := Exited(CommandFailed);
        return None;
      }
      out := Some(r.out);
    }

    method InstallConfig(doit: bool, src: string, dst: string, outcome: CopyOutcome)
      modifies this
      ensures State() == Spec.InstallConfig(old(State()), doit, src, dst, outcome)
    {
      if !doit {
        return;
      }
      match outcome
      case Copied =>
        files := files[dst := src];
        trace := trace + [Copy(dst, src)];
      case PermissionError =>
        status := Exited(CopyDenied);
      case OSError =>
        status := Exited(CopyFailed);
    }

    method ConfigRefresh(doit: bool, base: string, configmerge: seq<string>, jar: string,
                         roconfig: string, java: string, o: Oracle)
      modifies this
      ensures State() == Spec.ConfigRefresh(old(State()), doit, base, configmerge, jar, roconfig, java, o)
    {
      var mainConfig := ConfigFile(base);
      if mainConfig !in files {
        status := Exited(ConfigMissing);
        return;
      }
      var current: Option<string> := None;
      if doit {
        trace := trace + [Fetch];
        current := if o.fetchOk then Some(remoteConfig) else None;
        if !Truthy(current) {
          status := Exited(FetchFailed);
          return;
        }
      }
      // The staged file: written only when not in dry-run.
      var staged := "";
      if doit {
        staged := current.value;
      }
      if roconfig == "" {
        InstallConfig(doit, staged, mainConfig, o.copy);
      } else {
        var cmd := BuildMergeCommand(configmerge, jar, roconfig, o.tempName, java);
        var merged := ExecCommand(doit, cmd, o.merge);
        if status != Running {
          return;
        }
        if doit {
          InstallConfig(doit, Concat(merged.value), mainConfig, o.copy);
        }
      }
    }

    method ProjectAdd(doit: bool, project: string, o: Oracle)
      modifies this
      ensures State() == Spec.ProjectAdd(old(State()), doit, project, o)
    {
      if doit {
        trace := trace + [AddProject(project)];
        if project !in o.addRefused {
          registry := registry + {project};
        }
      }
    }

    method ProjectDelete(doit: bool, deletesource: bool, project: string, o: Oracle)
      modifies this
      ensures State() == Spec.ProjectDelete(old(State()), doit, deletesource, project, o)
    {
      if project == "" {
        status := Raised(MissingProject);
        return;
      }
      if doit {
        trace := trace + [DeleteProject(project)];
        if project !in o.deleteRefused {
          registry := registry - {project};
        }
      }
      if deletesource {
        trace := trace + [GetValue("sourceRoot")];
        var srcRoot := o.sourceRoot;
        if !Truthy(srcRoot) {
          status := Raised(EmptySourceRoot);
          return;
        }
        var sourcedir := Join(srcRoot.value, project);
        if doit {
          trace := trace + [RemoveTree(sourcedir)];
          if sourcedir in dirs {
            RemoveSourceTree(sourcedir);
          } else {
            status := Raised(RemoveFailed);
          }
        }
      }
    }

    /** shutil.rmtree of an existing directory: the directory and every
        file and directory below it are gone. */
    method RemoveSourceTree(dir: string)
      modifies this
      ensures State() == old(State()).(dirs := Spec.DirsOutside(old(dirs), dir), files := Spec.FilesOutside(old(files), dir))
    {
      dirs := set d | d in dirs && !Within(d, dir);
      files := map f | f in files && !Within(f, dir) :: files[f];
    }

    method AddAll(doit: bool, ps: seq<string>, o: Oracle)
      modifies this
      ensures State() == Spec.AddProjects(old(State()), doit, ps, o)
    {
      var i := 0;
      while i < |ps|
        invariant 0 <= i <= |ps|
        invariant State() == Spec.AddProjects(old(State()), doit, ps[..i], o)
      {
        assert ps[..i + 1][..i] == ps[..i];
        ProjectAdd(doit, ps[i], o);
        i := i + 1;
      }
      assert ps[..i] == ps;
    }

    method DeleteAll(doit: bool, deletesource: bool, ps: seq<string>, o: Oracle)
      modifies this
      ensures State() == Spec.DeleteProjects(old(State()), doit, deletesource, ps, o)
    {
      ghost var w0 := State();
      var i := 0;
      while i < |ps| && status == Running
        invariant 0 <= i <= |ps|
        invariant State() == Spec.DeleteProjects(w0, doit, deletesource, ps[..i], o)
      {
        assert ps[..i + 1][..i] == ps[..i];
        ProjectDelete(doit, deletesource, ps[i], o);
        i := i + 1;
      }
      if i < |ps| {
        DeleteProjectsStopped(w0, doit, deletesource, ps, o, i);
      }
      assert ps[..|ps|] == ps;
    }

    method Refresh(opts: Options, o: Oracle)
      modifies this
      ensures State() == Spec.Refresh(old(State()), opts, o)
    {
      var jar := if opts.jar.Some? then opts.jar.value else "";
      ConfigRefresh(!opts.noop, opts.base, Spec.ConfigMergePrefix(opts, o), jar, opts.roconfig, opts.java, o);
    }

    /** main, from the validation of the parsed options on. */
    method Run(opts: Options, o: Oracle)
      modifies this
      ensures State() == Spec.ProjAdm(old(State()), opts, o)
    {
      if opts.nosourcedelete && opts.delete == [] {
        status := Exited(SourceDeleteWithoutDelete);
        return;
      }
      if opts.base != "" && opts.base !in dirs {
        status := Exited(BaseNotDir);
        return;
      }
      if opts.roconfig != "" {
        if opts.roconfig !in files {
          status := Exited(RoConfigMissing);
          return;
        }
        if o.configMergePath.None? {
          status := Exited(NoConfigMerge);
          return;
        }
        if opts.jar.None? {
          status := Exited(NoJar);
          return;
        }
      }
      if opts.uri == "" {
        status := Exited(NoUri);
        return;
      }
      if !o.lockFree {
        status := Exited(AlreadyRunning);
        return;
      }
      locked := true;
      Locked(opts, o);
      locked := false;
    }

    /** The body of main's `with lock.acquire(...)` block. */
    method Locked(opts: Options, o: Oracle)
      modifies this
      ensures var v := Spec.Workflow(old(State()), opts, o);
              State() == if v.status.Running? && opts.upload then Spec.Upload(v, !opts.noop, opts.base, o) else v
    {
      var doit := !opts.noop;
      if opts.add != [] {
        AddAll(doit, opts.add, o);
        Refresh(opts, o);
      } else if opts.delete != [] {
        DeleteAll(doit, !opts.nosourcedelete, opts.delete, o);
        if status != Running {
          return;
        }
        Refresh(opts, o);
      } else if opts.refresh {
        Refresh(opts, o);
      } else {
        status := Exited(NoOperation);
        return;
      }
      if status == Running && opts.upload {
        UploadConfig(doit, opts.base, o);
      }
    }

    /** The upload step of main: push the live configuration file. */
    method UploadConfig(doit: bool, base: string, o: Oracle)
      modifies this
      ensures State() == Spec.Upload(old(State()), doit, base, o)
    {
      var mainConfig := ConfigFile(base);
      if mainConfig in files {
        if doit {
          var configData := files[mainConfig];
          trace := trace + [Push(configData)];
          if o.pushOk {
            remoteConfig := configData;
          } else {
            status := Exited(PushFailed);
          }
        }
      } else {
        status := Exited(UploadConfigMissing);
      }
    }
  }

  /** Once a delete raises, the remaining projects of the loop are skipped. */
  lemma {:induction false} DeleteProjectsStopped(w: World, doit: bool, deletesource: bool, ps: seq<string>, o: Oracle, i: nat)
    requires i <= |ps|
    requires !Spec.DeleteProjects(w, doit, deletesource, ps[..i], o).status.Running?
    ensures Spec.DeleteProjects(w, doit, deletesource, ps, o) == Spec.DeleteProjects(w, doit, deletesource, ps[..i], o)
    decreases |ps| - i
  {
    if i < |ps| {
      assert ps[..i + 1][..i] == ps[..i];
      DeleteProjectsStopped(w, doit, deletesource, ps, o, i + 1);
    } else {
      assert ps[..i] == ps;
    }
  }
}
