/** What the project-admin script promises, proved about the functions of
    module Spec (and so, through their ensures, about the methods of
    ProjAdm.Host). */
module Properties {
  import opened Model
  import opened Paths
  import opened Spec

  // ---------------------------------------------------------------- exec_command

  /** Dry-run runs nothing and returns no output; otherwise the command is
      run, and the run exits unless it finished with return code 0, in
      which case its output comes back and nothing else changes. */
  lemma ExecCommandRule(w: World, doit: bool, cmd: seq<string>, r: CommandResult)
    ensures !doit ==> ExecCommand(w, doit, cmd, r) == (w, None)
    ensures doit && Accepted(r) ==> ExecCommand(w, doit, cmd, r) == (w.(trace := w.trace + [Execute(cmd)]), Some(r.out))
    ensures doit && !Accepted(r) ==>
              ExecCommand(w, doit, cmd, r).0 == w.(trace := w.trace + [Execute(cmd)], status := Exited(CommandFailed))
  {
  }

  // ---------------------------------------------------------------- install_config

  /** Dry-run leaves the world as it is; otherwise either `dst` now holds
      exactly the source content, or the run has exited and no file changed. */
  lemma InstallConfigRule(w: World, doit: bool, data: string, dst: string, outcome: CopyOutcome)
    ensures !doit ==> InstallConfig(w, doit, data, dst, outcome) == w
    ensures doit ==>
              var r := InstallConfig(w, doit, data, dst, outcome);
              (r.status == w.status && r.files == w.files[dst := data] && outcome == Copied) ||
              (r.status.Exited? && r.files == w.files && outcome != Copied)
  {
  }

  // ---------------------------------------------------------------- config_refresh

  /** A missing live configuration file ends the refresh before anything is
      fetched, in dry-run as well. */
  lemma RefreshNeedsConfigFile(w: World, doit: bool, base: string, configmerge: seq<string>, jar: string,
                               roconfig: string, java: string, o: Oracle)
    requires ConfigFile(base) !in w.files
    ensures ConfigRefresh(w, doit, base, configmerge, jar, roconfig, java, o) == w.(status := Exited(ConfigMissing))
  {
  }

  /** No answer, or an empty one, from the webapp is fatal and the live
      configuration is left alone. */
  lemma RefreshFetchFailure(w: World, base: string, configmerge: seq<string>, jar: string,
                            roconfig: string, java: string, o: Oracle)
    requires ConfigFile(base) in w.files
    requires !o.fetchOk || w.remoteConfig == ""
    ensures var r := ConfigRefresh(w, true, base, configmerge, jar, roconfig, java, o);
            r.files == w.files && r.status == Exited(FetchFailed) && r.trace == w.trace + [Fetch]
  {
  }

  /** Without a read-only configuration the live configuration becomes
      exactly the one the webapp serves. */
  lemma RefreshInstallsFetched(w: World, base: string, configmerge: seq<string>, jar: string,
                               java: string, o: Oracle)
    requires ConfigFile(base) in w.files
    requires o.fetchOk && w.remoteConfig != "" && o.copy == Copied
    ensures var r := ConfigRefresh(w, true, base, configmerge, jar, "", java, o);
            r.files == w.files[ConfigFile(base) := w.remoteConfig] && r.status == w.status &&
            r.trace == w.trace + [Fetch, Copy(ConfigFile(base), w.remoteConfig)]
  {
  }

  /** With a read-only configuration the merge program is run with exactly
      `configmerge ++ [-a, jar, roconfig, staged] (++ [-j, java])` and the
      live configuration becomes its output, not the fetched content. */
  lemma RefreshInstallsMerged(w: World, base: string, configmerge: seq<string>, jar: string,
                              roconfig: string, java: string, o: Oracle)
    requires w.status.Running? && ConfigFile(base) in w.files
    requires o.fetchOk && w.remoteConfig != "" && roconfig != "" && Accepted(o.merge) && o.copy == Copied
    ensures var r := ConfigRefresh(w, true, base, configmerge, jar, roconfig, java, o);
            var cmd := configmerge + ["-a", jar, roconfig, o.tempName] + (if java != "" then ["-j", java] else []);
            r.files == w.files[ConfigFile(base) := Concat(o.merge.out)] && r.status == w.status &&
            r.trace == w.trace + [Fetch, Execute(cmd), Copy(ConfigFile(base), Concat(o.merge.out))]
  {
  }

  /** A failed merge exits before any install: the live configuration is
      the one there was before. */
  lemma MergeFailureKeepsLiveConfig(w: World, base: string, configmerge: seq<string>, jar: string,
                                    roconfig: string, java: string, o: Oracle)
    requires roconfig != "" && !Accepted(o.merge)
    ensures var r := ConfigRefresh(w, true, base, configmerge, jar, roconfig, java, o);
            r.files == w.files && r.status.Exited? &&
            forall k :: |w.trace| <= k < |r.trace| ==> !r.trace[k].Copy?
  {
  }

  /** Dry-run refresh checks the configuration file and changes nothing. */
  lemma RefreshDryRun(w: World, base: string, configmerge: seq<string>, jar: string,
                      roconfig: string, java: string, o: Oracle)
    ensures ConfigRefresh(w, false, base, configmerge, jar, roconfig, java, o) ==
            if ConfigFile(base) in w.files then w else w.(status := Exited(ConfigMissing))
  {
  }

  // ---------------------------------------------------------------- project_add

  /** The project is registered only when not in dry-run. */
  lemma ProjectAddRule(w: World, doit: bool, project: string, o: Oracle)
    ensures !doit ==> ProjectAdd(w, doit, project, o) == w
    ensures doit ==>
              var r := ProjectAdd(w, doit, project, o);
              r.trace == w.trace + [AddProject(project)] && r.files == w.files && r.dirs == w.dirs &&
              r.status == w.status && (project !in o.addRefused ==> project in r.registry)
  {
  }

  // ---------------------------------------------------------------- project_delete

  /** An empty project name raises at once, whatever the flags, before any
      remote call. */
  lemma DeleteRejectsEmptyName(w: World, doit: bool, deletesource: bool, o: Oracle)
    ensures ProjectDelete(w, doit, deletesource, "", o) == w.(status := Raised(MissingProject))
  {
  }

  /** Deregistration is the first remote call and comes before the
      sourceRoot lookup. */
  lemma DeleteDeregistersBeforeLookup(w: World, project: string, o: Oracle)
    requires project != ""
    ensures var r := ProjectDelete(w, true, true, project, o);
            |r.trace| >= |w.trace| + 2 &&
            r.trace[..|w.trace| + 2] == w.trace + [DeleteProject(project), GetValue("sourceRoot")]
  {
  }

  /** In dry-run sourceRoot is still read, an empty one still raises, and
      nothing is deregistered or removed. */
  lemma DeleteDryRun(w: World, project: string, o: Oracle)
    requires project != ""
    ensures ProjectDelete(w, false, true, project, o) ==
            var w1 := w.(trace := w.trace + [GetValue("sourceRoot")]);
            if Truthy(o.sourceRoot) then w1 else w1.(status := Raised(EmptySourceRoot))
  {
  }

  /** The only tree that can disappear is the one at
      `join(sourceRoot, project)`, all of it, and only when not in dry-run
      and source deletion is asked for. */
  lemma DeleteRemovesOnlySourceDir(w: World, doit: bool, deletesource: bool, project: string, o: Oracle)
    ensures var r := ProjectDelete(w, doit, deletesource, project, o);
            (r.dirs == w.dirs && r.files == w.files) ||
            (doit && deletesource && project != "" && Truthy(o.sourceRoot) &&
             Join(SourceRoot(o), project) in w.dirs && r.status == w.status &&
             r.dirs == DirsOutside(w.dirs, Join(SourceRoot(o), project)) &&
             r.files == FilesOutside(w.files, Join(SourceRoot(o), project)))
  {
  }

  /** For a project name that is a single path component, the directory
      removed is the entry of that name directly inside the source root
      (os.path.split gives back both). A name starting with a separator is
      not inside the root at all: join then yields the name itself. Neither
      is `.` (the root itself) nor `..` (its parent). */
  lemma RemovedDirIsProjectUnderRoot(root: string, project: string)
    requires NoSep(project) && project != "." && project != ".."
    requires root != "" && !AllSep(root)
    ensures Split(Join(root, project)) == (RStripSep(root), project)
  {
    JoinSplit(root, project);
  }

  // ---------------------------------------------------------------- the loops of main

  function AddCalls(ps: seq<string>): seq<Event>
    decreases |ps|
  {
    if ps == [] then [] else AddCalls(ps[..|ps| - 1]) + [AddProject(ps[|ps| - 1])]
  }

  lemma {:induction false} AddProjectsDryRun(w: World, ps: seq<string>, o: Oracle)
    ensures AddProjects(w, false, ps, o) == w
    decreases |ps|
  {
    if ps != [] {
      AddProjectsDryRun(w, ps[..|ps| - 1], o);
    }
  }

  /** The add loop calls add_project once per name, in order, and the
      webapp then knows every name it did not refuse; nothing on disk
      changes. */
  lemma {:induction false} AddProjectsRegisters(w: World, ps: seq<string>, o: Oracle)
    ensures var r := AddProjects(w, true, ps, o);
            r.registry == w.registry + (set p | p in ps && p !in o.addRefused) &&
            r.trace == w.trace + AddCalls(ps) &&
            r == w.(registry := r.registry, trace := r.trace)
    decreases |ps|
  {
    if ps != [] {
      var q := ps[..|ps| - 1];
      AddProjectsRegisters(w, q, o);
      assert forall p :: p in ps <==> p in q || p == ps[|ps| - 1] by {
        assert ps == q + [ps[|ps| - 1]];
      }
    }
  }

  /** The delete loop in dry-run touches nothing but the trace, where only
      sourceRoot lookups appear. */
  lemma {:induction false} DeleteProjectsDryRun(w: World, deletesource: bool, ps: seq<string>, o: Oracle)
    ensures Quiet(w, DeleteProjects(w, false, deletesource, ps, o))
    decreases |ps|
  {
    if ps != [] {
      var q := ps[..|ps| - 1];
      var v := DeleteProjects(w, false, deletesource, q, o);
      DeleteProjectsDryRun(w, deletesource, q, o);
      if v.status.Running? {
        QuietTrans(w, v, ProjectDelete(v, false, deletesource, ps[|ps| - 1], o));
      }
    }
  }

  /** One project_delete that is not a dry run and does not end the run. */
  lemma ProjectDeleteStep(v: World, deletesource: bool, x: string, o: Oracle)
    requires ProjectDelete(v, true, deletesource, x, o).status.Running?
    ensures var r := ProjectDelete(v, true, deletesource, x, o);
            x != "" &&
            r.registry == (if x in o.deleteRefused then v.registry else v.registry - {x}) &&
            r.dirs == (if deletesource then DirsOutside(v.dirs, Join(SourceRoot(o), x)) else v.dirs) &&
            r.files == (if deletesource then FilesOutside(v.files, Join(SourceRoot(o), x)) else v.files) &&
            r.remoteConfig == v.remoteConfig && r.locked == v.locked
  {
  }

  /** `x` lies in the source tree of one of the projects `ps`. */
  ghost predicate InSourceTrees(x: string, root: string, ps: seq<string>) {
    exists p :: p in ps && Within(x, Join(root, p))
  }

  /** The names and source trees of a list grown by one name. */
  lemma NamesOfAppended(q: seq<string>, x: string, refused: set<string>, root: string)
    ensures (set p | p in q + [x] && p !in refused) ==
            (set p | p in q && p !in refused) + (if x in refused then {} else {x})
    ensures forall y :: InSourceTrees(y, root, q + [x]) <==> InSourceTrees(y, root, q) || Within(y, Join(root, x))
  {
    assert forall p :: p in q + [x] <==> p in q || p == x;
  }

  /** A delete loop that ran to the end deregistered every name the webapp
      did not refuse, had only non-empty names, and removed exactly their
      source trees. */
  lemma {:induction false} DeleteProjectsDeregisters(w: World, deletesource: bool, ps: seq<string>, o: Oracle)
    ensures var r := DeleteProjects(w, true, deletesource, ps, o);
            r.status.Running? ==>
              r.registry == w.registry - (set p | p in ps && p !in o.deleteRefused) &&
              (forall k :: 0 <= k < |ps| ==> ps[k] != "") &&
              r.dirs == (if deletesource then set y | y in w.dirs && !InSourceTrees(y, SourceRoot(o), ps) else w.dirs) &&
              r.files == (if deletesource then map y | y in w.files && !InSourceTrees(y, SourceRoot(o), ps) :: w.files[y]
                          else w.files) &&
              r.remoteConfig == w.remoteConfig && r.locked == w.locked
    decreases |ps|
  {
    if ps != [] {
      var q := ps[..|ps| - 1];
      var x := ps[|ps| - 1];
      var v := DeleteProjects(w, true, deletesource, q, o);
      var r := DeleteProjects(w, true, deletesource, ps, o);
      if r.status.Running? {
        assert v.status.Running?;
        assert r == ProjectDelete(v, true, deletesource, x, o);
        DeleteProjectsDeregisters(w, deletesource, q, o);
        ProjectDeleteStep(v, deletesource, x, o);
        assert ps == q + [x];
        NamesOfAppended(q, x, o.deleteRefused, SourceRoot(o));
        assert forall k :: 0 <= k < |q| ==> q[k] == ps[k];
      }
    }
  }

  // ---------------------------------------------------------------- main

  /** A failed check exits before the lock is taken and before any remote
      call or command: nothing but the status changes. This covers a
      read-only configuration given while the merge program cannot be
      found. */
  lemma ValidationFailsFirst(w: World, opts: Options, o: Oracle, f: Fault)
    requires Validate(w, opts, o) == Some(f)
    ensures ProjAdm(w, opts, o) == w.(status := Exited(f))
  {
  }

  /** The order of the roconfig checks, once the earlier ones pass: the
      read-only file first, then the merge program, then the jar; each
      failure is reported before the URI is looked at. */
  lemma ValidationOrder(w: World, opts: Options, o: Oracle)
    requires !opts.nosourcedelete || opts.delete != []
    requires opts.base == "" || opts.base in w.dirs
    requires opts.roconfig != ""
    ensures opts.roconfig !in w.files ==> Validate(w, opts, o) == Some(RoConfigMissing)
    ensures opts.roconfig in w.files && o.configMergePath.None? ==> Validate(w, opts, o) == Some(NoConfigMerge)
    ensures opts.roconfig in w.files && o.configMergePath.Some? && opts.jar.None? ==> Validate(w, opts, o) == Some(NoJar)
  {
  }

  /** --nosourcedelete without --delete exits before the lock is taken. */
  lemma NoSourceDeleteNeedsDelete(w: World, opts: Options, o: Oracle)
    requires opts.nosourcedelete && opts.delete == []
    ensures ProjAdm(w, opts, o) == w.(status := Exited(SourceDeleteWithoutDelete))
  {
  }

  /** When the lock is held elsewhere the run exits and does nothing else. */
  lemma LockBusyRunsNothing(w: World, opts: Options, o: Oracle)
    requires Validate(w, opts, o) == None && !o.lockFree
    ensures ProjAdm(w, opts, o) == w.(status := Exited(AlreadyRunning))
  {
  }

  /** Asking for no operation exits, with the lock released. */
  lemma NoOperationExits(w: World, opts: Options, o: Oracle)
    requires Validate(w, opts, o) == None && o.lockFree && !w.locked
    requires opts.add == [] && opts.delete == [] && !opts.refresh
    ensures ProjAdm(w, opts, o) == w.(status := Exited(NoOperation))
  {
  }

  /** The lock is never left held, whichever way the run ends. */
  lemma LockReleased(w: World, opts: Options, o: Oracle)
    requires !w.locked
    ensures !ProjAdm(w, opts, o).locked
  {
  }

  /** Upload: a missing configuration file exits even in dry-run; the push
      happens only when not in dry-run, and a refused push exits. */
  lemma UploadRule(w: World, doit: bool, base: string, o: Oracle)
    ensures ConfigFile(base) !in w.files ==> Upload(w, doit, base, o) == w.(status := Exited(UploadConfigMissing))
    ensures ConfigFile(base) in w.files && !doit ==> Upload(w, doit, base, o) == w
    ensures ConfigFile(base) in w.files && doit ==>
              var r := Upload(w, doit, base, o);
              r.trace == w.trace + [Push(w.files[ConfigFile(base)])] &&
              (if o.pushOk then r.remoteConfig == w.files[ConfigFile(base)] && r.status == w.status
               else r.status == Exited(PushFailed))
  {
  }

  /** Nothing changes except the trace, which gains only sourceRoot
      lookups. */
  ghost predicate Quiet(w: World, r: World) {
    && r.files == w.files && r.dirs == w.dirs && r.registry == w.registry
    && r.remoteConfig == w.remoteConfig && r.locked == w.locked
    && |w.trace| <= |r.trace| && r.trace[..|w.trace|] == w.trace
    && forall k :: |w.trace| <= k < |r.trace| ==> r.trace[k] == GetValue("sourceRoot")
  }

  lemma QuietTrans(a: World, b: World, c: World)
    requires Quiet(a, b) && Quiet(b, c)
    ensures Quiet(a, c)
  {
    assert c.trace[..|a.trace|] == c.trace[..|b.trace|][..|a.trace|];
  }

  lemma WorkflowDryRun(w: World, opts: Options, o: Oracle)
    requires opts.noop
    ensures Quiet(w, Workflow(w, opts, o))
  {
    if opts.add != [] {
      AddProjectsDryRun(w, opts.add, o);
      RefreshDryRun(w, opts.base, ConfigMergePrefix(opts, o), JarOf(opts), opts.roconfig, opts.java, o);
    } else if opts.delete != [] {
      var d := DeleteProjects(w, false, !opts.nosourcedelete, opts.delete, o);
      DeleteProjectsDryRun(w, !opts.nosourcedelete, opts.delete, o);
      if d.status.Running? {
        RefreshDryRun(d, opts.base, ConfigMergePrefix(opts, o), JarOf(opts), opts.roconfig, opts.java, o);
        QuietTrans(w, d, Refresh(d, opts, o));
      }
    } else if opts.refresh {
      RefreshDryRun(w, opts.base, ConfigMergePrefix(opts, o), JarOf(opts), opts.roconfig, opts.java, o);
    }
  }

  /** A dry run (--noop) changes no file, no directory, nothing on the
      webapp, and leaves no lock behind; the only remote calls it makes are
      sourceRoot lookups. */
  lemma DryRunChangesNothing(w: World, opts: Options, o: Oracle)
    requires opts.noop && !w.locked
    ensures Quiet(w, ProjAdm(w, opts, o))
  {
    if Validate(w, opts, o) == None && o.lockFree {
      var w0 := w.(locked := true);
      var v := Workflow(w0, opts, o);
      WorkflowDryRun(w0, opts, o);
      var u := if v.status.Running? && opts.upload then Upload(v, false, opts.base, o) else v;
      assert u == v || u == v.(status := Exited(UploadConfigMissing));
      assert Quiet(w, u.(locked := false));
    }
  }

  // ---------------------------------------------------------------- one refresh per run

  lemma {:induction false} FetchesAppend(a: seq<Event>, b: seq<Event>)
    ensures Fetches(a + b) == Fetches(a) + Fetches(b)
    decreases |a|
  {
    if a != [] {
      assert (a + b)[1..] == a[1..] + b;
      FetchesAppend(a[1..], b);
    } else {
      assert a + b == b;
    }
  }

  lemma {:induction false} AddProjectsNoFetch(w: World, doit: bool, ps: seq<string>, o: Oracle)
    ensures var r := AddProjects(w, doit, ps, o);
            Fetches(r.trace) == Fetches(w.trace) && r.status == w.status
    decreases |ps|
  {
    if ps != [] {
      var v := AddProjects(w, doit, ps[..|ps| - 1], o);
      AddProjectsNoFetch(w, doit, ps[..|ps| - 1], o);
      FetchesAppend(v.trace, [AddProject(ps[|ps| - 1])]);
    }
  }

  lemma ProjectDeleteNoFetch(w: World, doit: bool, deletesource: bool, project: string, o: Oracle)
    ensures Fetches(ProjectDelete(w, doit, deletesource, project, o).trace) == Fetches(w.trace)
  {
    if project != "" {
      var r := ProjectDelete(w, doit, deletesource, project, o);
      var t1 := if doit then w.trace + [DeleteProject(project)] else w.trace;
      var t2 := t1 + [GetValue("sourceRoot")];
      FetchesAppend(w.trace, [DeleteProject(project)]);
      FetchesAppend(t1, [GetValue("sourceRoot")]);
      FetchesAppend(t2, [RemoveTree(Join(SourceRoot(o), project))]);
      assert r.trace == w.trace || r.trace == t1 || r.trace == t2 || r.trace == t2 + [RemoveTree(Join(SourceRoot(o), project))];
    }
  }

  lemma {:induction false} DeleteProjectsNoFetch(w: World, doit: bool, deletesource: bool, ps: seq<string>, o: Oracle)
    ensures Fetches(DeleteProjects(w, doit, deletesource, ps, o).trace) == Fetches(w.trace)
    decreases |ps|
  {
    if ps != [] {
      var v := DeleteProjects(w, doit, deletesource, ps[..|ps| - 1], o);
      DeleteProjectsNoFetch(w, doit, deletesource, ps[..|ps| - 1], o);
      ProjectDeleteNoFetch(v, doit, deletesource, ps[|ps| - 1], o);
    }
  }

  /** Appending one event adds one fetch exactly when it is a fetch. */
  lemma FetchesOfOne(t: seq<Event>, e: Event)
    ensures Fetches(t + [e]) == Fetches(t) + (if e.Fetch? then 1 else 0)
  {
    FetchesAppend(t, [e]);
    assert [e][1..] == [];
  }

  /** The trace a refresh that is not a dry run leaves: nothing new, or one
      fetch followed by events that are not fetches. */
  lemma ConfigRefreshTrace(w: World, base: string, configmerge: seq<string>, jar: string,
                           roconfig: string, java: string, o: Oracle)
    ensures var r := ConfigRefresh(w, true, base, configmerge, jar, roconfig, java, o);
            (r.trace == w.trace && !r.status.Running?) ||
            Fetches(r.trace) == Fetches(w.trace) + 1
  {
    var cfg := ConfigFile(base);
    var t := w.trace + [Fetch];
    FetchesOfOne(w.trace, Fetch);
    if cfg in w.files && Truthy(Fetched(w, o)) {
      if roconfig == "" {
        FetchesOfOne(t, Copy(cfg, w.remoteConfig));
      } else {
        var cmd := MergeCommand(configmerge, jar, roconfig, o.tempName, java);
        FetchesOfOne(t, Execute(cmd));
        FetchesOfOne(t + [Execute(cmd)], Copy(cfg, Concat(o.merge.out)));
      }
    }
  }

  /** A refresh that is not a dry run fetches at most once, and exactly once
      when it completes. */
  lemma RefreshFetchesOnce(w: World, opts: Options, o: Oracle)
    requires !opts.noop
    ensures var r := Refresh(w, opts, o);
            Fetches(r.trace) <= Fetches(w.trace) + 1 &&
            (r.status.Running? ==> Fetches(r.trace) == Fetches(w.trace) + 1)
  {
    ConfigRefreshTrace(w, opts.base, ConfigMergePrefix(opts, o), JarOf(opts), opts.roconfig, opts.java, o);
  }

  /** Each run that is not a dry run fetches the webapp configuration at
      most once: one refresh follows the add loop or the delete loop, or
      runs alone; and a run that completes has fetched exactly once. */
  lemma OneRefreshPerRun(w: World, opts: Options, o: Oracle)
    requires !opts.noop && w.status.Running?
    ensures var r := ProjAdm(w, opts, o);
            Fetches(r.trace) <= Fetches(w.trace) + 1 &&
            (r.status.Running? ==> Fetches(r.trace) == Fetches(w.trace) + 1)
  {
    if Validate(w, opts, o) == None && o.lockFree {
      var w0 := w.(locked := true);
      var v := Workflow(w0, opts, o);
      if opts.add != [] {
        var a := AddProjects(w0, true, opts.add, o);
        AddProjectsNoFetch(w0, true, opts.add, o);
        RefreshFetchesOnce(a, opts, o);
      } else if opts.delete != [] {
        var d := DeleteProjects(w0, true, !opts.nosourcedelete, opts.delete, o);
        DeleteProjectsNoFetch(w0, true, !opts.nosourcedelete, opts.delete, o);
        RefreshFetchesOnce(d, opts, o);
      } else if opts.refresh {
        RefreshFetchesOnce(w0, opts, o);
      }
      if v.status.Running? && opts.upload {
        var cfg := ConfigFile(opts.base);
        if cfg in v.files {
          FetchesAppend(v.trace, [Push(v.files[cfg])]);
        }
      }
    }
  }

  // ---------------------------------------------------------------- end to end

  /** Adding one project with a reachable webapp: the project is registered
      and the live configuration equals the one the webapp serves. */
  lemma AddThenRefresh(w: World, opts: Options, o: Oracle, project: string)
    requires w.status.Running? && !w.locked
    requires opts.add == [project] && !opts.noop && !opts.upload && opts.roconfig == ""
    requires Validate(w, opts, o) == None && o.lockFree
    requires project !in o.addRefused && ConfigFile(opts.base) in w.files
    requires o.fetchOk && w.remoteConfig != "" && o.copy == Copied
    ensures var r := ProjAdm(w, opts, o);
            r.status.Running? && !r.locked && project in r.registry &&
            r.files == w.files[ConfigFile(opts.base) := w.remoteConfig]
  {
    var w0 := w.(locked := true);
    assert opts.add[..|opts.add| - 1] == [];
    assert AddProjects(w0, true, [], o) == w0;
    var a := AddProjects(w0, true, opts.add, o);
    assert a == ProjectAdd(w0, true, project, o);
    RefreshInstallsFetched(a, opts.base, ConfigMergePrefix(opts, o), JarOf(opts), opts.java, o);
  }

  /** The delete loop of main over one project that deletes its source. */
  lemma DeleteOne(w0: World, o: Oracle, project: string)
    requires w0.status.Running?
    ensures DeleteProjects(w0, true, true, [project], o) == ProjectDelete(w0, true, true, project, o)
  {
    var ps := [project];
    assert ps[..|ps| - 1] == [];
    assert DeleteProjects(w0, true, true, [], o) == w0;
    assert ps[|ps| - 1] == project;
  }

  /** Deleting one project with its source: the webapp forgets it, the whole
      tree under its source directory is removed, and the live configuration,
      kept outside that tree, is refreshed. */
  lemma DeleteThenRefresh(w: World, opts: Options, o: Oracle, project: string)
    requires w.status.Running? && !w.locked
    requires opts.add == [] && opts.delete == [project] && project != ""
    requires !opts.noop && !opts.nosourcedelete
    requires !opts.upload && opts.roconfig == ""
    requires Validate(w, opts, o) == None && o.lockFree
    requires project !in o.deleteRefused && Truthy(o.sourceRoot)
    requires Join(SourceRoot(o), project) in w.dirs
    requires !Within(ConfigFile(opts.base), Join(SourceRoot(o), project))
    requires ConfigFile(opts.base) in w.files && o.fetchOk && w.remoteConfig != "" && o.copy == Copied
    ensures var r := ProjAdm(w, opts, o);
            var dir := Join(SourceRoot(o), project);
            r.status.Running? && !r.locked && project !in r.registry &&
            r.dirs == DirsOutside(w.dirs, dir) &&
            r.files == FilesOutside(w.files, dir)[ConfigFile(opts.base) := w.remoteConfig]
  {
    var w0 := w.(locked := true);
    DeleteOne(w0, o, project);
    var d := ProjectDelete(w0, true, true, project, o);
    var dir := Join(SourceRoot(o), project);
    assert d.status.Running? && d.files == FilesOutside(w.files, dir);
    assert ConfigFile(opts.base) in d.files;
    assert Workflow(w0, opts, o) == Refresh(d, opts, o);
    RefreshInstallsFetched(d, opts.base, ConfigMergePrefix(opts, o), JarOf(opts), opts.java, o);
  }

  /** When the live configuration lies in the removed source tree (an
      absolute project name naming the instance base, say), the refresh
      that follows finds no configuration file and the run exits, with
      the project deregistered and its tree gone. */
  lemma DeletingTheLiveConfigFails(w: World, opts: Options, o: Oracle, project: string)
    requires w.status.Running? && !w.locked
    requires opts.add == [] && opts.delete == [project] && project != ""
    requires !opts.noop && !opts.nosourcedelete
    requires Validate(w, opts, o) == None && o.lockFree
    requires project !in o.deleteRefused && Truthy(o.sourceRoot)
    requires Join(SourceRoot(o), project) in w.dirs
    requires Within(ConfigFile(opts.base), Join(SourceRoot(o), project))
    ensures var r := ProjAdm(w, opts, o);
            r.status == Exited(ConfigMissing) && !r.locked && project !in r.registry &&
            ConfigFile(opts.base) !in r.files && Join(SourceRoot(o), project) !in r.dirs
  {
    var w0 := w.(locked := true);
    DeleteOne(w0, o, project);
    var d := ProjectDelete(w0, true, true, project, o);
    assert d.status.Running? && ConfigFile(opts.base) !in d.files;
    assert Workflow(w0, opts, o) == Refresh(d, opts, o);
    RefreshNeedsConfigFile(d, true, opts.base, ConfigMergePrefix(opts, o), JarOf(opts), opts.roconfig, opts.java, o);
  }

  /** A refresh followed by an upload, without a read-only configuration:
      the live file becomes the served configuration and the same text is
      pushed back, so the webapp serves what it served before. */
  lemma RefreshThenUpload(w: World, opts: Options, o: Oracle)
    requires w.status.Running? && !w.locked
    requires opts.add == [] && opts.delete == [] && opts.refresh
    requires !opts.noop && opts.upload && opts.roconfig == ""
    requires Validate(w, opts, o) == None && o.lockFree
    requires ConfigFile(opts.base) in w.files && o.fetchOk && w.remoteConfig != "" && o.copy == Copied && o.pushOk
    ensures var r := ProjAdm(w, opts, o);
            var cfg := ConfigFile(opts.base);
            r.status.Running? && !r.locked && r.remoteConfig == w.remoteConfig &&
            r.files == w.files[cfg := w.remoteConfig] &&
            r.trace == w.trace + [Fetch, Copy(cfg, w.remoteConfig), Push(w.remoteConfig)]
  {
    var w0 := w.(locked := true);
    var cfg := ConfigFile(opts.base);
    RefreshInstallsFetched(w0, opts.base, ConfigMergePrefix(opts, o), JarOf(opts), opts.java, o);
    var v := Refresh(w0, opts, o);
    assert v.files[cfg] == w.remoteConfig;
  }
}
