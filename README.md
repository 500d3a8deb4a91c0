# OpenGrok project administration, modelled in Dafny

This project models `projadm.py` from the OpenGrok tools. The script adds
projects to a running OpenGrok webapp or deletes them. Afterwards it
refreshes the instance's live configuration file
(`<base>/etc/configuration.xml`) from the configuration the webapp serves,
merging in a read-only configuration first when one is given. Optionally it
uploads the file back to the webapp. All of this runs under a host-local
lock, and a dry-run mode (`--noop`) takes the same path without changing
anything.

The model works over an abstract world (`Model.World`) that holds:

- the local files with their content, and the directories;
- the projects the webapp has registered, and the configuration it serves.
  `get_configuration` returns that configuration when the webapp answers,
  and `set_configuration` replaces it;
- whether this invocation holds the lock;
- a trace of the requests made to foreign code, in order: webapp calls,
  commands, tree removals, and successful copies. A failed copy ends the
  run and leaves no event;
- a status: still running, exited through `sys.exit(1)`, or ended by an
  uncaught exception.

Every foreign call takes its answer from an `Model.Oracle` value. There is one
field per call: whether the webapp answers the fetch, the merge program's result, the
copy outcome, the project names the webapp refuses, the `sourceRoot` value,
the push outcome, whether the lock is free, the resolved merge-program path,
and the temporary file's name.

Files:

- `paths.dfy`: `os.path.join` and `os.path.split` as posixpath defines
  them, plus `get_config_file`.
- `model.dfy`: the world, the oracle, the parsed options, faults and
  events.
- `spec.dfy`: one function per function of the script, from the world
  before to the world after.
- `projadm.dfy`: class `Host`, whose fields are the world. Its methods follow
  the script statement by statement, including the two `for` loops of
  `main`. Each method is proved to produce exactly the state the matching
  `Spec` function gives.
- `properties.dfy`: the script's promises, proved as lemmas about the
  `Spec` functions.

Notes on the script as written:

- Lock contention exits with status 1 (line 362), like every other failure.
- A dry-run delete with source deletion still asks the webapp for
  `sourceRoot` (line 192); only the removal is gated by `doit` (line 198).
  `DeleteDryRun` and `DryRunChangesNothing` state this.
- The read-only configuration and the merge program are checked in `main`
  (lines 276-297), not in `config_refresh`.
- The only guard on a project name is that it is not empty (line 183).
  `os.path.join` (line 196) then gives three cases where the directory
  removed is not inside the source root. A name starting with `/` yields
  the name itself (`Paths.JoinShape`). The name `.` yields the source root,
  and `..` yields its parent. An absolute name equal to the instance base
  removes the tree holding the live configuration
  (`Paths.AbsoluteNameTakesConfig`). The refresh that follows then exits
  with status 1 (`Properties.DeletingTheLiveConfigFails`).

## Model

| member | source | states |
|---|---|---|
| ProjAdm.BuildMergeCommand | opengrok-tools/src/main/python/opengrok_tools/projadm.py:141-145 | the merge command is the caller's configmerge list, then `-a jar roconfig staged`, then `-j java` only when java is given |
| ProjAdm.Host.ExecCommand | opengrok-tools/src/main/python/opengrok_tools/projadm.py:52-70 | host state and returned output are those of `Spec.ExecCommand` (the accept rule: finished and return code 0) |
| ProjAdm.Host.InstallConfig | opengrok-tools/src/main/python/opengrok_tools/projadm.py:81-103 | host state is that of `Spec.InstallConfig`: copy gated by doit, permission and I/O failures fatal |
| ProjAdm.Host.ConfigRefresh | opengrok-tools/src/main/python/opengrok_tools/projadm.py:106-155 | host state is that of `Spec.ConfigRefresh`: config file check, fetch, stage, then direct install or merge and install |
| ProjAdm.Host.ProjectAdd | opengrok-tools/src/main/python/opengrok_tools/projadm.py:158-169 | host state is that of `Spec.ProjectAdd`: registration only when doit |
| ProjAdm.Host.ProjectDelete | opengrok-tools/src/main/python/opengrok_tools/projadm.py:172-200 | host state is that of `Spec.ProjectDelete`: empty-name guard, deregistration, sourceRoot lookup, removal of `join(sourceRoot, project)` |
| ProjAdm.Host.AddAll | opengrok-tools/src/main/python/opengrok_tools/projadm.py:308-312 | the add loop leaves the host as `Spec.AddProjects` over the whole list |
| ProjAdm.Host.DeleteAll | opengrok-tools/src/main/python/opengrok_tools/projadm.py:321-326 | the delete loop leaves the host as `Spec.DeleteProjects`, stopping at the first exception |
| ProjAdm.DeleteProjectsStopped | opengrok-tools/src/main/python/opengrok_tools/projadm.py:321-326 | once a delete has raised, the remaining names of the loop change nothing |
| ProjAdm.Host.Refresh | opengrok-tools/src/main/python/opengrok_tools/projadm.py:314-342 | the refresh main runs is `config_refresh` with main's configmerge list, jar, roconfig and java |
| ProjAdm.Host.Run | opengrok-tools/src/main/python/opengrok_tools/projadm.py:257-362 | host state is that of `Spec.ProjAdm`: validation in order, lock or exit, one workflow, optional upload, lock released |
| ProjAdm.Host.Locked | opengrok-tools/src/main/python/opengrok_tools/projadm.py:307-359 | under the lock, exactly one of: add loop then refresh, delete loop then refresh, refresh alone, or exit; then the upload if the run is still going |
| ProjAdm.Host.UploadConfig | opengrok-tools/src/main/python/opengrok_tools/projadm.py:347-359 | host state is that of `Spec.Upload` |
| Paths.JoinShape | opengrok-tools/src/main/python/opengrok_tools/projadm.py:196 | the project name always ends the joined path; a relative name keeps the root in front, an absolute name replaces it |
| Paths.JoinSplit | opengrok-tools/src/main/python/opengrok_tools/projadm.py:196 | splitting `join(a, b)` for a single component b gives back b and a (without trailing separators unless a is the root) |
| Paths.ConfigFileSplit | opengrok-tools/src/main/python/opengrok_tools/projadm.py:73-78 | the live configuration is the file `configuration.xml` inside `join(base, "etc")`, and that directory is named `etc` |
| Properties.ExecCommandRule | opengrok-tools/src/main/python/opengrok_tools/projadm.py:57-70 | dry-run runs nothing and returns nothing; otherwise the command is run, and the run is fatal unless it finished with return code 0, in which case its output is returned |
| Properties.InstallConfigRule | opengrok-tools/src/main/python/opengrok_tools/projadm.py:85-103 | dry-run changes nothing; otherwise either dst now holds the source content or the run has exited with no file changed |
| Properties.RefreshNeedsConfigFile | opengrok-tools/src/main/python/opengrok_tools/projadm.py:117-120 | a missing live configuration file exits before any fetch, in dry-run too |
| Properties.RefreshFetchFailure | opengrok-tools/src/main/python/opengrok_tools/projadm.py:122-125 | no answer or an empty configuration from the webapp is fatal and leaves every file alone |
| Properties.RefreshInstallsFetched | opengrok-tools/src/main/python/opengrok_tools/projadm.py:129-137 | without roconfig the live configuration becomes exactly the configuration the webapp serves, and only it changes |
| Properties.RefreshInstallsMerged | opengrok-tools/src/main/python/opengrok_tools/projadm.py:138-155 | with roconfig the exact merge argument list is run and the live configuration becomes the merge output, not the fetched content |
| Properties.MergeFailureKeepsLiveConfig | opengrok-tools/src/main/python/opengrok_tools/projadm.py:146-155 | a failed merge exits with every file, the live configuration included, as it was, and no copy made |
| Properties.RefreshDryRun | opengrok-tools/src/main/python/opengrok_tools/projadm.py:117-155 | a dry-run refresh only checks the configuration file and otherwise changes nothing |
| Properties.ProjectAddRule | opengrok-tools/src/main/python/opengrok_tools/projadm.py:166-169 | registration happens only when doit; then the webapp knows the project unless it refused it |
| Properties.DeleteRejectsEmptyName | opengrok-tools/src/main/python/opengrok_tools/projadm.py:182-184 | an empty project name raises, whatever doit and deletesource, with no remote call |
| Properties.DeleteDeregistersBeforeLookup | opengrok-tools/src/main/python/opengrok_tools/projadm.py:188-192 | deregistration is the first call, and the sourceRoot lookup comes right after it |
| Properties.DeleteDryRun | opengrok-tools/src/main/python/opengrok_tools/projadm.py:188-200 | in dry-run sourceRoot is still read and an empty one still raises; nothing is deregistered or removed |
| Properties.ProjectDeleteStep | opengrok-tools/src/main/python/opengrok_tools/projadm.py:183-200 | a delete that is not a dry run and does not end the run had a non-empty name, deregistered it unless refused, removed the whole tree at its source directory when asked to, and left the webapp's configuration and the lock alone |
| Properties.DeleteRemovesOnlySourceDir | opengrok-tools/src/main/python/opengrok_tools/projadm.py:191-200 | either no file or directory goes, or, only with doit and deletesource, exactly the tree at the existing directory `join(sourceRoot, project)` goes |
| Properties.RemovedDirIsProjectUnderRoot | opengrok-tools/src/main/python/opengrok_tools/projadm.py:196 | for a single-component name other than `.` and `..` the removed directory is the entry of that name directly inside the source root |
| ProjAdm.Host.RemoveSourceTree | opengrok-tools/src/main/python/opengrok_tools/projadm.py:200 | `shutil.rmtree`: the directory and every file and directory below it are gone, nothing else changes |
| Paths.JoinWithin | opengrok-tools/src/main/python/opengrok_tools/projadm.py:196 | a non-empty relative name joined to a directory lies in that directory's tree |
| Paths.ConfigFileWithinBase | opengrok-tools/src/main/python/opengrok_tools/projadm.py:73-78 | the live configuration lies in the tree of the instance base |
| Paths.AbsoluteNameTakesConfig | opengrok-tools/src/main/python/opengrok_tools/projadm.py:196 | a project named by the absolute instance base has the base as source directory, with the live configuration in its tree |
| Properties.AddProjectsDryRun | opengrok-tools/src/main/python/opengrok_tools/projadm.py:308-312 | a dry-run add loop changes nothing |
| Properties.AddProjectsRegisters | opengrok-tools/src/main/python/opengrok_tools/projadm.py:308-312 | the add loop calls add_project once per name in order and only the webapp's registry changes, gaining every name not refused |
| Properties.DeleteProjectsDryRun | opengrok-tools/src/main/python/opengrok_tools/projadm.py:321-326 | a dry-run delete loop changes nothing but adds sourceRoot lookups to the trace |
| Properties.DeleteProjectsDeregisters | opengrok-tools/src/main/python/opengrok_tools/projadm.py:321-326 | a delete loop that completes had only non-empty names, deregistered every name not refused, and removed exactly the files and directories in their source trees |
| Properties.ValidationFailsFirst | opengrok-tools/src/main/python/opengrok_tools/projadm.py:257-302 | a failed check exits before the lock, any remote call or any command |
| Properties.ValidationOrder | opengrok-tools/src/main/python/opengrok_tools/projadm.py:276-297 | the roconfig checks run in order: read-only file, merge program, jar |
| Properties.NoSourceDeleteNeedsDelete | opengrok-tools/src/main/python/opengrok_tools/projadm.py:257-259 | `--nosourcedelete` without `--delete` exits before the lock is taken |
| Properties.LockBusyRunsNothing | opengrok-tools/src/main/python/opengrok_tools/projadm.py:304-362 | when the lock is not acquired the run exits and no workflow runs |
| Properties.NoOperationExits | opengrok-tools/src/main/python/opengrok_tools/projadm.py:343-345 | with no operation selected the run exits with the lock released and nothing else changed |
| Properties.LockReleased | opengrok-tools/src/main/python/opengrok_tools/projadm.py:306-362 | the lock is released on every path out of the locked region |
| Properties.UploadRule | opengrok-tools/src/main/python/opengrok_tools/projadm.py:347-359 | a missing config file exits even in dry-run; the push happens only with doit, and a failed push exits |
| Properties.WorkflowDryRun | opengrok-tools/src/main/python/opengrok_tools/projadm.py:307-345 | in dry-run the locked workflow changes nothing but adds sourceRoot lookups |
| Properties.DryRunChangesNothing | opengrok-tools/src/main/python/opengrok_tools/projadm.py:243-362 | a whole dry run leaves files, directories, the webapp and the lock unchanged; its only remote calls are sourceRoot lookups |
| Properties.RefreshFetchesOnce | opengrok-tools/src/main/python/opengrok_tools/projadm.py:122-125 | a refresh that is not a dry run fetches at most once, and exactly once when it completes |
| Properties.OneRefreshPerRun | opengrok-tools/src/main/python/opengrok_tools/projadm.py:307-342 | a run that is not a dry run fetches at most once, and exactly once when it completes: a single refresh follows each loop |
| Properties.AddThenRefresh | opengrok-tools/src/main/python/opengrok_tools/projadm.py:308-320 | adding one project: the webapp knows it, and the live configuration equals the one the webapp serves |
| Properties.DeleteThenRefresh | opengrok-tools/src/main/python/opengrok_tools/projadm.py:321-334 | deleting one project with its source: the webapp forgets it, the tree at `join(sourceRoot, project)` is removed, and the live configuration, outside that tree, becomes the served one |
| Properties.DeletingTheLiveConfigFails | opengrok-tools/src/main/python/opengrok_tools/projadm.py:191-200 | when the removed tree holds the live configuration, the refresh after the delete exits with the project deregistered and the file gone |
| Properties.RefreshThenUpload | opengrok-tools/src/main/python/opengrok_tools/projadm.py:335-359 | refresh then upload without roconfig: the live file becomes the served configuration and that same text is pushed, so the webapp serves what it did before |

## Left out

- Argument parsing with argparse (lines 204-242) is left out. `Model.Options` is the parsed result. argparse makes `--add`, `--delete` and `--refresh` mutually exclusive; the model does not assume this and follows main's `if`/`elif` order.
- Logging setup and all log output are left out. Log lines change no state.
- The Python version check (lines 44-47) is left out.
- The internals of `Command`, `FileLock`, `get_configuration`, `set_configuration`, `add_project`, `delete_project`, `get_config_value` and `get_command` are left out. They are foreign code: subprocesses, REST calls, and a cross-process file lock. Each appears only as one `Model.Oracle` field holding its answer for the run.
- `Model.CmdState` has the three states not run, finished and failed. The script tests only for finished.
- The merge output is installed as the concatenation of its lines. Whether those lines keep their line terminators is up to `Command`.
- The webapp URI is not recorded in trace events. Every call of a run goes to the same URI, which main checks is non-empty.
- The model does not cover the lifetime of `tempfile.NamedTemporaryFile`, UTF-8 encoding, or how `shutil.copyfile` and `shutil.rmtree` work internally. Staged files are values. Only the temporary file's name reaches the model, as a merge argument.
- Spec.InstallConfig: does not model that a copy failing partway may have already truncated the destination. A failed copy leaves every file as it was.
- Spec.ProjectDelete: models `rmtree` as removing every file and directory whose path is the source directory or starts with it followed by `/`. It raises when the source directory is not a directory. Paths are compared as text, so `..` components and symbolic links are not resolved. A failure partway through the removal is not modelled.
- The configuration the webapp serves is a field of the world, separate from its registry. Adding or deleting a project changes the registry only. How the webapp's configuration reflects its projects happens inside the webapp and is not modelled.
- ProjAdm.BuildMergeCommand: `configmerge_cmd = configmerge` extends the caller's list in place. The model returns the resulting sequence and does not claim the caller's list stays unchanged. main runs one refresh per invocation, so main never sees the aliasing.
- Removing temporary files on every exit path is not modelled, because staged files are values here.
