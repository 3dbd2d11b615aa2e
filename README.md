# ds: a verified model of the docker snapshot tool

`ds` snapshots the data directory of a running Docker container (the *target*)
and later restores it. It starts a *helper* container that shares the target's
volumes and has a snapshot volume mounted at `/mnt/ds`. Inside the helper it
copies the directory with `rsync -aAHX --delete` into `/mnt/ds/<uuid>`. It keeps a
JSON list of snapshot records (uuid, name, size, file count, creation time) in
`db.json`, next to the copies. The commands are: list, create, delete, restore
(the latest one when no name is given), and prune (delete all of them after a
prompt).

The project models three revisions of the core:

* **Current revision** (`src/docker_snapshot/`).
  * `Container` covers the helper's lifecycle. `alloc` gets or creates the image,
    the volume and the helper, then starts it. `dealloc` force-removes the helper.
    It also covers the shell commands run in the helper and the
    stop/copy/start freeze around a copy.
  * `Progress` folds rsync's progress stream into progress-bar updates.
  * `ShellQuote` models `shlex.quote` and proves that it round-trips through
    the shell.
  * `Snapshot` is the record store and the create, delete, restore and stats
    operations.
  * `Settings` covers the option override, the loader and the cached `get`.
  * `Utils` is `pluralize`.
  * `Cli` covers the completion of names, `create`, `delete`, `restore`,
    `prune`, and each command's allocation and release of the helper.
* **Intermediate revision** (`docker_snapshot/`): `ContainerV2` and `SnapshotV2`.
  Every id is read from the settings. `dealloc` stops the helper instead of
  removing it. Neither `sh` nor `dealloc` checks the handle. Records have no
  file count.
* **Earliest revision** (root `container.py` and `snapshot.py`): `ContainerV1`
  and `SnapshotV1`. There is no handle: every shell command calls `init`, which
  runs the helper with the target's volumes. The copy taken by `create` is made
  while the target keeps running. The click progress bar ends with
  `bar.update(100)`.

The Docker engine is one object, `Docker.Engine`. It holds:
* the images and volumes;
* the containers, each with a running flag;
* the paused containers;
* the module-level helper handle;
* the helper's files, keyed by path;
* the trace of state-changing engine calls.

Each engine operation is a method with a `modifies` clause, and each Python
function over module globals is a method on that object. A snapshot copy is
represented by the directory node it mirrors. `db.json` is a node holding the
list of JSON elements. Several values are inputs to the methods rather than
computed:
* what `du`, `find | wc -l` and rsync print;
* the values that `uuid4()`, the name generator and the clock draw;
* the answer to prune's prompt.

Two behaviours of the code shape the model:

* `file_write` runs `echo`, so the file holds the content followed by a newline,
  and `file_read` gives back that extra newline (`Docker.EchoThenCat`).
* `requires_helper_container` has no `try`/`finally`. When `alloc` or the
  command raises, `dealloc` never runs and the helper stays allocated.
  `Cli.Create`, `Cli.Restore` and `Cli.Prune` state this.

## Model

| member | source | states |
|---|---|---|
| Docker.Engine.constructor | src/docker_snapshot/container.py:31-32 | A new client sees the given images, volumes, containers and files. Nothing is paused, the helper handle is None and no call has been made. |
| Docker.BuildImage | src/docker_snapshot/container.py:78-82 | Building adds the tag to the images and records one build call. |
| Docker.CreateVolume | src/docker_snapshot/container.py:85-87 | Creating adds the volume and records one call. |
| Docker.CreateContainer | src/docker_snapshot/container.py:90-106 | The helper is created stopped and takes its volumes from the target. Only the new name is added. |
| Docker.RunContainer | container.py:41-52 | Run creates and starts the helper. A missing `volumes_from` target is the engine's "no such container" error, and then nothing changes. |
| Docker.StartContainer | src/docker_snapshot/container.py:137 | Start succeeds exactly when the container is not paused; a paused one is the engine's conflict and nothing changes. Otherwise the container runs afterwards, including one that was already running. |
| Docker.StopContainer | src/docker_snapshot/container.py:240 | The container is stopped and no longer paused. |
| Docker.RemoveContainer | src/docker_snapshot/container.py:149 | A forced remove deletes the container, running or not. |
| Docker.PauseContainer | snapshot.py:103 | Pause succeeds exactly when the container runs and is not paused. Otherwise it is a conflict and nothing changes. |
| Docker.UnpauseContainer | snapshot.py:108 | Unpause succeeds exactly when the container is paused. |
| Docker.ExecRun | src/docker_snapshot/container.py:159-161 | Exec is refused for a missing, stopped or paused container, and then changes nothing. Otherwise it returns the command's output and applies its effect to the files. |
| Docker.EchoThenCat | src/docker_snapshot/container.py:165-171 | Running `echo` with the word `shlex.quote` makes of the content, then `cat`, gives back the content plus a newline. |
| Container.GetImageId | src/docker_snapshot/container.py:66-67 | The image tag is "ds-" followed by the namespace. |
| Container.GetVolumeId | src/docker_snapshot/container.py:70-71 | The volume name is "ds-" followed by the namespace. |
| Container.GetContainerId | src/docker_snapshot/container.py:74-75 | The helper name is "ds-" followed by the namespace. |
| Container.NamespacesIsolated | src/docker_snapshot/container.py:66-75 | Different namespaces never share an image, a volume or a helper. |
| Container.Exists | src/docker_snapshot/container.py:253-258 | Raises the client's `NullResource` exactly when the name is empty (the default `container_name`). Otherwise true exactly when a container of that name exists. |
| Container.IsRunning | src/docker_snapshot/container.py:261-265 | Raises `NullResource` exactly when the name is empty. Otherwise true exactly when the container exists, runs and is not paused; a missing, stopped or paused one is not "running". |
| Container.GetOrBuildImage | src/docker_snapshot/container.py:112-116 | Afterwards the image exists. A build is recorded only when it was missing. |
| Container.GetOrCreateVolume | src/docker_snapshot/container.py:119-122 | Afterwards the volume exists. A create is recorded only when it was missing. |
| Container.MissingTarget | src/docker_snapshot/container.py:125-129 | Without a helper, an empty target name is `NullResource` from `exists`, any other is "target not found". |
| Container.Alloc | src/docker_snapshot/container.py:109-137 | Succeeds exactly when the helper or the target exists and the helper is not paused. On success the handle is the helper, the helper runs and the calls are get-or-create then start. With neither the helper nor the target the error is "target not found", or `NullResource` for an empty target name, raised after the image and volume were made, and neither the containers nor the handle change. A paused helper makes `start` raise the engine's conflict after the handle was set. |
| Container.Dealloc | src/docker_snapshot/container.py:140-149 | With no handle it does nothing. Otherwise it force-removes the helper and keeps the now-dangling handle, so the next shell command fails with "no such container". |
| Container.Sh | src/docker_snapshot/container.py:152-161 | A missing handle raises before any engine call. Otherwise the result is the engine's exec result. |
| Container.FileRead | src/docker_snapshot/container.py:165-166 | Returns the file's text, or "" for a missing path or a directory. Nothing changes. |
| Container.FileWrite | src/docker_snapshot/container.py:170-171 | The content reaches `echo` as the one word `shlex.quote` makes of it, and the file afterwards holds exactly the content plus a newline, whatever quotes or blanks the content holds. |
| Container.DirectoryRemove | src/docker_snapshot/container.py:175-176 | The path is gone afterwards, whether or not it existed. |
| Container.SizeFromDiskUsage | src/docker_snapshot/container.py:180-183 | A size read from `du` is a multiple of 1024. A first field that is not a number is an error. |
| Container.DiskUsageReadsBlocks | src/docker_snapshot/container.py:180-183 | For du's `<blocks>\t<path>` line, the size read is blocks × 1024. |
| Container.FileCountReadsBack | src/docker_snapshot/container.py:187-191 | wc's padded count reads back as that count. Empty output reads as 0. |
| Container.DirectorySize | src/docker_snapshot/container.py:180-183 | Runs `du -s`. The size comes from its output, and the files are unchanged. |
| Container.DirectoryFilecount | src/docker_snapshot/container.py:187-191 | Runs `find \| wc -l` and gives 0 when the output is not a number. The files are unchanged. |
| Container.Sync | src/docker_snapshot/container.py:195-234 | The destination becomes a copy of the source directory. The reports are the progress fold ending with `completed=100`. A missing handle fails before the copy. |
| Container.NotFoundError | src/docker_snapshot/container.py:237-250 | The engine's `NotFound` becomes "not found"; an empty name is the client's `NullResource`, which is not caught. |
| Container.Stop | src/docker_snapshot/container.py:237-242 | A missing container, or an empty name, fails and nothing changes. Otherwise it is stopped. |
| Container.Start | src/docker_snapshot/container.py:245-250 | A missing container, or an empty name, fails and nothing changes. A paused one is the engine's conflict, which is not caught, and nothing changes. Otherwise it runs. |
| Container.FrozenSync | src/docker_snapshot/container.py:46-59 | The target is stopped before the copy and started after it, even when the copy fails. When the stop fails, nothing is copied or started. |
| Progress.Search | src/docker_snapshot/container.py:221 | Finds the first position where `\d+%` matches, with no earlier match. |
| Progress.PercentInIsLeftmostMatch | src/docker_snapshot/container.py:221-226 | The percentage read from a chunk is the number in the leftmost `\d+%` match. It is None exactly when there is no match. |
| Progress.TrackAdvances | src/docker_snapshot/container.py:217-233 | The loop reports exactly the specified advances, one per strictly higher percentage. |
| Progress.TrackProgress | src/docker_snapshot/container.py:217-234 | The advances are followed by `completed=100`. |
| Progress.TrackProgressBar | container.py:118-130 | The advances are followed by a further advance of 100. |
| Progress.PeakIsMaximum | src/docker_snapshot/container.py:217-233 | The final percentage is the maximum of 0 and every percentage found, and is one of them when positive. |
| Progress.AdvancesPositive | src/docker_snapshot/container.py:227-233 | Every advance is positive, so the bar never moves back. |
| Progress.AdvancesSumToPeak | src/docker_snapshot/container.py:217-233 | The advances add up to the highest percentage seen. |
| Progress.CompletesAtHundred | src/docker_snapshot/container.py:234 | After the stream the bar reads 100. |
| Progress.FinalStepMonotone | src/docker_snapshot/container.py:234 | The final step moves the bar back exactly when some chunk reported more than 100%. |
| Progress.BarOvershoots | container.py:130 | With click's bar the total is the peak plus 100; it reaches 200 after a full copy. |
| ShellQuote.Escape | src/docker_snapshot/container.py:171 | The escaped text is never shorter than the original. |
| ShellQuote.Quote | src/docker_snapshot/container.py:171 | The empty string quotes as `''`. A word of safe characters is left as it is. |
| ShellQuote.EscapedRun | src/docker_snapshot/container.py:171 | The escaped body inside single quotes expands back to the original text. |
| ShellQuote.SafeWord | src/docker_snapshot/container.py:171 | A word of safe characters expands to itself. |
| ShellQuote.QuoteRoundTrip | src/docker_snapshot/container.py:171 | The quoted text is one shell word, and quote removal gives back exactly the original. |
| Text.FirstField | src/docker_snapshot/container.py:182 | `split("\t")[0]` is the longest prefix without a tab. |
| Text.ParseShowNat | src/docker_snapshot/container.py:189 | `int()` reads back the decimal form of a number, whatever white space surrounds it. |
| Text.FirstFieldOfDigits | src/docker_snapshot/container.py:182 | The first tab field of `<digits>\t<rest>` is the digits. |
| Settings.OverrideFields | src/docker_snapshot/settings.py:63-68 | Each field comes from the option exactly when that option is given and non-empty; otherwise it keeps the original. |
| Settings.OverrideNothing | src/docker_snapshot/settings.py:63-68 | No option given leaves the settings unchanged. |
| Settings.OverrideIdempotent | src/docker_snapshot/settings.py:63-68 | Overriding twice with the same options is the same as overriding once. |
| Settings.OverrideKeepsNonEmpty | src/docker_snapshot/settings.py:63-68 | A field that is non-empty stays non-empty. |
| Settings.LoadWithoutFile | src/docker_snapshot/settings.py:37-72 | Without ds.yaml, `load` gives the defaults ("", "/", "ds") with the options applied. Directory and namespace are never empty. |
| Settings.LoadFileUnlessOverridden | src/docker_snapshot/settings.py:71-72 | With ds.yaml and no options, `load` gives the file's settings. |
| Settings.SettingsCache.constructor | src/docker_snapshot/settings.py:34 | The cache starts empty. |
| Settings.SettingsCache.Get | src/docker_snapshot/settings.py:84-93 | A filled cache answers without reading. Otherwise a missing file raises and leaves the cache empty, and a present file fills the cache and answers from it. |
| Settings.GetReadsFileOnce | src/docker_snapshot/settings.py:84-93 | After one successful `get`, later answers come from the cache whatever the file then holds. |
| Utils.PluralizeOne | src/docker_snapshot/utils.py:38-39 | For exactly one, the word is returned unchanged. |
| Utils.PluralizePluralFirst | src/docker_snapshot/utils.py:41-42 | For any other count, a given plural wins over a suffix. |
| Utils.PluralizeSuffix | src/docker_snapshot/utils.py:44-45 | Without a plural, the result is the word followed by the suffix. |
| Utils.PluralizeFails | src/docker_snapshot/utils.py:38-47 | Fails exactly when the count is not one and neither form is given. |
| Snapshot.SnapshotPath | src/docker_snapshot/snapshot.py:24-25 | The path is `/mnt/ds/` followed by the suffix. |
| Snapshot.PathsDistinct | src/docker_snapshot/snapshot.py:24-25 | Distinct uuids give distinct directories, and none of them is db.json. |
| Snapshot.FromElement | src/docker_snapshot/snapshot.py:45-59 | A non-object element raises "expected dict". Otherwise a falsy field takes its default, and with drawn values every record is complete. |
| Snapshot.Encode | src/docker_snapshot/snapshot.py:64-66 | Every record becomes an object, and a complete record is rebuilt from its object whatever defaults are drawn. |
| Snapshot.SaveLoadRoundTrip | src/docker_snapshot/snapshot.py:51-66 | Loading what was saved gives the list back exactly when every record is complete. |
| Snapshot.NothingPrintedIsEmptyStore | src/docker_snapshot/snapshot.py:52-54 | An absent or empty db.json, or a directory in its place, loads as an empty store. |
| Snapshot.StoredDrawsNothing | src/docker_snapshot/snapshot.py:45-61 | Every load draws its defaults afresh. Whether a load succeeds, and its error, do not depend on the draws, and neither does what it yields once no stored object has a falsy uuid, name or timestamp. |
| Snapshot.UnsettledLoadsDiffer | src/docker_snapshot/snapshot.py:45-61 | An object stored with an empty name loads under a different name with each draw. |
| Snapshot.SavedCompleteIsSettled | src/docker_snapshot/snapshot.py:64-66 | Saving complete records leaves no falsy field in the document, so later loads draw nothing they keep. |
| Snapshot.SnapshotDirectoriesAsideFromStore | src/docker_snapshot/snapshot.py:88-91 | Copying into, or removing, a snapshot directory leaves the store as it was. |
| Snapshot.NamedMembers | src/docker_snapshot/snapshot.py:81-84 | The name filter keeps exactly the records of that name. |
| Snapshot.WithoutMembers | src/docker_snapshot/snapshot.py:124 | `filterfalse` keeps exactly the records of any other name. |
| Snapshot.NamedWithoutPartition | src/docker_snapshot/snapshot.py:115-124 | The two filters partition the store as a multiset. |
| Snapshot.NamedKeepsOrder | src/docker_snapshot/snapshot.py:115 | Filtering by name keeps the store's order. |
| Snapshot.WithoutKeepsOrder | src/docker_snapshot/snapshot.py:124 | Removing a name keeps the store's order. |
| Snapshot.NoneNamed | src/docker_snapshot/snapshot.py:119-120 | With no record of that name, nothing is selected. |
| Snapshot.UniqueNamesNamedAtMostOne | src/docker_snapshot/snapshot.py:116-117 | With unique names, the "2 snapshots with the same name" branch cannot occur. |
| Snapshot.NoneWithout | src/docker_snapshot/snapshot.py:124 | With no record of that name, removing it keeps everything. |
| Snapshot.DeleteFirstOfUnique | src/docker_snapshot/snapshot.py:109-128 | With unique names, the first record is found, and deleting its name leaves exactly the records after it. |
| Snapshot.DeleteFirstStored | src/docker_snapshot/snapshot.py:109-128 | After deleting the first record of a store with unique names, the saved document loads as exactly the remaining records. |
| Snapshot.StoredRecordsComplete | src/docker_snapshot/snapshot.py:45-61 | Every loaded record is complete. |
| Snapshot.WithoutKeepsUniqueNames | src/docker_snapshot/snapshot.py:124-128 | Delete keeps the names unique. |
| Snapshot.AppendKeepsUniqueNames | src/docker_snapshot/snapshot.py:84-105 | Appending a record with an unused name keeps the names unique. |
| Snapshot.Lookup | src/docker_snapshot/snapshot.py:115-122 | Succeeds exactly when one record has the name, and returns that record. More than one is a duplicate error, none is "No snapshot found". |
| Snapshot.LookupUniqueNames | src/docker_snapshot/snapshot.py:115-122 | With unique names, the lookup succeeds exactly for the stored names. |
| Snapshot.DrawnNameMayRepeat | src/docker_snapshot/snapshot.py:84-105 | A drawn name equal to a stored one is still appended, and that name can then no longer be looked up. |
| Snapshot.LoadDatabase | src/docker_snapshot/snapshot.py:51-71 | Returns what the stored document decodes to, and changes no file. |
| Snapshot.SaveDatabase | src/docker_snapshot/snapshot.py:64-66 | db.json afterwards holds exactly the given list. |
| Snapshot.CopyAndRecord | src/docker_snapshot/snapshot.py:87-105 | With the helper answering, it succeeds exactly when the target exists, is not the helper, and `du` prints a number. The frozen copy is then made to /mnt/ds/uuid, size and file count are read from it, and the record is appended to the stored list. |
| Snapshot.MeasureAndSave | src/docker_snapshot/snapshot.py:94-105 | Succeeds exactly when the size can be read, and then saves the list with the new record. |
| Snapshot.SnapshotCreate | src/docker_snapshot/snapshot.py:74-106 | Succeeds exactly when the helper answers, the store loads, a requested name is not stored, the target exists and is not the helper, and the size can be read. A requested name already stored is refused before anything changes. On success the store is the old list plus the new record, and the copy mirrors the source. A failure never changes the store. |
| Snapshot.SnapshotDelete | src/docker_snapshot/snapshot.py:109-128 | Lookup errors change nothing. On success the snapshot's directory is gone and db.json holds the records of other names. |
| Snapshot.SnapshotRestore | src/docker_snapshot/snapshot.py:131-147 | Succeeds exactly when the helper answers, the store loads, exactly one record has the name, and the target exists and is not the helper. Lookup errors change nothing. On success the destination mirrors the snapshot's copy and the store is never written, as long as the destination is apart from /mnt/ds. |
| Snapshot.SnapshotPresentStats | src/docker_snapshot/snapshot.py:150-154 | The record holds the live directory's file count and size; the file count is read first. |
| Cli.CompletionsMembers | src/docker_snapshot/cli/__init__.py:42-46 | The completions are exactly the names that start with the typed text. |
| Cli.CompletionsKeepOrder | src/docker_snapshot/cli/__init__.py:42-46 | Completion keeps the store's order. |
| Cli.CompletionsOfNothing | src/docker_snapshot/cli/__init__.py:42-46 | Empty typed text completes to every name. |
| Cli.GetNames | src/docker_snapshot/cli/__init__.py:28-46 | Succeeds exactly when alloc succeeds (the helper or the target exists and the helper is not paused) and the store loads. It then returns the completions of the stored names and removes the helper. A paused helper is the engine's conflict, with the handle set. |
| Cli.Create | src/docker_snapshot/cli/__init__.py:100-115 | Neither helper nor target is "target not found" and changes nothing; a paused helper is the engine's conflict, with the handle set. An empty target name makes `is_target_container_running` raise `NullResource`, which escapes and leaves the helper allocated. Any other target that is not running is reported and the helper is removed. "Created" is said exactly when the target runs and is not the helper, the store loads, a given name is not stored and the size can be read; the store then gained a record with the requested or drawn name. A failure after alloc leaves the helper allocated and the store unchanged. |
| Cli.Delete | src/docker_snapshot/cli/__init__.py:122-131 | Neither helper nor target is "target not found"; a paused helper is the engine's conflict, escaping with the handle set. Once alloc succeeds every deletion error is reported and the helper is released. "Deleted" is said exactly when the store loads and the lookup succeeds. |
| Cli.RestoreLatest | src/docker_snapshot/cli/__init__.py:143-146 | With no name and unique names, the latest record is found. With an empty store, "" is looked up and not found. |
| Cli.RestoreResolved | src/docker_snapshot/cli/__init__.py:143-164 | The name resolved from the listing (its own load) is restored with a second load; "Restored" exactly when both loads succeed and the name is found once in the second. Only a failed listing escapes. |
| Cli.Restore | src/docker_snapshot/cli/__init__.py:134-164 | Neither helper nor target is "target not found"; a paused helper is the engine's conflict with the handle set. An empty target name raises `NullResource` after alloc and leaves the helper. Any other target that is not running is reported. Otherwise "Restored" is said exactly when, with the target not the helper, both loads succeed and the resolved name is found once; the directory then mirrors the copy. With no name, a settled store and unique names, the latest record is restored. A failed listing escapes and leaves the helper. |
| Cli.PruneAsWritten | src/docker_snapshot/cli/__init__.py:167-169 | Every prune fails with a missing positional argument before any engine call. |
| Cli.PruneWithSettings | src/docker_snapshot/cli/__init__.py:169-175 | Neither helper nor target is "target not found", and a paused helper is the engine's conflict. An empty store says "Nothing to prune". Otherwise the call fails on the missing `utils.format_size` and leaves the helper allocated. |
| Cli.DeleteNext | src/docker_snapshot/cli/__init__.py:181-185 | With unique names and a settled store, deleting record i of the listing with a fresh load finds it and leaves the store settled, holding the records after it. |
| Cli.DeleteEach | src/docker_snapshot/cli/__init__.py:180-190 | The names deleted form a prefix of the listing, and all of them when nothing failed. Each deletion reloads the store with fresh draws; with unique names and a settled store nothing fails and the store ends empty. |
| Cli.Prune | src/docker_snapshot/cli/__init__.py:167-190 | Neither helper nor target is "target not found"; a paused helper is the engine's conflict. "Nothing to prune" exactly when alloc succeeds and the store is empty, and declining changes nothing. A store that fails to load escapes with its error and leaves the helper allocated. When confirmed with unique names and a settled store, everything is pruned and the store ends empty. |
| ContainerV2.IdsFromSettings | docker_snapshot/container.py:45-57 | The image, volume and helper ids are all "ds-" followed by the configured namespace. |
| ContainerV2.ShStatusAgrees | docker_snapshot/container.py:116-119 | The same engine checks as the current revision. A missing handle is an attribute error on None rather than a guard. |
| ContainerV2.Alloc | docker_snapshot/container.py:83-109 | Succeeds exactly when the helper or the configured target exists and the helper is not paused. It then sets the handle to the running helper. With neither the error is "target not found" (`NullResource` for an empty name); a paused helper is the engine's conflict, with the handle set. |
| ContainerV2.Dealloc | docker_snapshot/container.py:112-113 | Stops the helper but keeps it. With no handle it fails on None. |
| ContainerV2.AllocDeallocAlloc | docker_snapshot/container.py:83-113 | After alloc and dealloc, the next alloc finds the stopped helper and restarts it, and no container is added. |
| ContainerV2.Sh | docker_snapshot/container.py:116-119 | Runs the command in the handle's container with no guard. |
| ContainerV2.DirectorySize | docker_snapshot/container.py:134-137 | The size from `du` is a multiple of 1024, and the files are unchanged. |
| ContainerV2.Sync | docker_snapshot/container.py:140-171 | The destination mirrors the source, and the fold ends with `completed=100`. |
| ContainerV2.FrozenSync | docker_snapshot/container.py:30-38 | The configured target is stopped around the copy and started after it. |
| SnapshotV2.FromElement | docker_snapshot/snapshot.py:16-23 | Falsy uuid, name or timestamp is drawn. A `file_count` key is an unexpected keyword, and a non-object is not a mapping. The earliest revision's record (snapshot.py:17-24) is built the same way. |
| SnapshotV2.Encode | docker_snapshot/snapshot.py:45-49 | Every record becomes an object without a file count, and a complete record without a file count is rebuilt from it whatever is drawn. |
| SnapshotV2.DecodeFrom | docker_snapshot/snapshot.py:40-42 | Each element is built in order, and the first one that cannot be built raises. |
| SnapshotV2.CurrentDocumentRefused | docker_snapshot/snapshot.py:40-42 | A non-empty document written by the current revision cannot be loaded. |
| SnapshotV2.SaveLoadRoundTrip | docker_snapshot/snapshot.py:35-49 | Loading what was saved gives the list back exactly when every record is complete and has no file count. |
| SnapshotV2.DecodeExact | docker_snapshot/snapshot.py:40-42 | Complete records decode to themselves. |
| SnapshotV2.StoredRecordsComplete | docker_snapshot/snapshot.py:16-23 | Every loaded record is complete and has no file count. |
| SnapshotV2.SnapshotDirectoriesAsideFromStore | docker_snapshot/snapshot.py:29-31 | Snapshot directories never touch the store. |
| SnapshotV2.LoadDatabase | docker_snapshot/snapshot.py:35-42 | Returns what the stored document decodes to. |
| SnapshotV2.SaveDatabase | docker_snapshot/snapshot.py:45-49 | db.json afterwards holds the list. |
| SnapshotV2.MeasureAndSave | docker_snapshot/snapshot.py:71-75 | Succeeds exactly when the size can be read, and then saves the list with the new record. |
| SnapshotV2.SnapshotCreate | docker_snapshot/snapshot.py:57-73 | Succeeds exactly when the helper answers, the store loads, a requested name is not stored, the configured target exists and is not the helper, and the size can be read. A requested name already stored is refused. On success the configured directory is mirrored to /mnt/ds/uuid with the target frozen, and the store gains the record. |
| SnapshotV2.SnapshotDelete | docker_snapshot/snapshot.py:76-92 | Lookup errors change nothing. On success the directory is gone and the other names are saved. |
| SnapshotV2.SnapshotRestore | docker_snapshot/snapshot.py:95-108 | Succeeds exactly when the helper answers, the store loads, exactly one record has the name, and the configured target exists and is not the helper. Lookup errors change nothing. On success the configured directory mirrors the copy, and the store is never written, as long as the directory is apart from /mnt/ds. |
| ContainerV1.ReadyIdempotent | container.py:70-75 | A second `init` finds the helper and changes nothing. |
| ContainerV1.Init | container.py:55-75 | Succeeds exactly when the helper or the target exists; a missing target is the engine's error from `run`. An existing helper is not started. |
| ContainerV1.InitAgain | container.py:55-75 | After a successful `init`, a second one makes no engine call. |
| ContainerV1.StoppedHelperStaysStopped | container.py:70-84 | A helper that exists but is stopped is never started, so every command fails. |
| ContainerV1.Sh | container.py:78-84 | Runs `init` and then the command. The command reaches the files exactly when `init` succeeds and the helper accepts exec. |
| ContainerV1.DirectorySize | container.py:99-102 | The size from `du` is a multiple of 1024. |
| ContainerV1.Sync | container.py:105-130 | The destination mirrors the source, and the bar's total is the peak plus 100. |
| ContainerV1.Pause | snapshot.py:103 | The `pause` the restore calls: a missing target is reported by name, an empty name is `NullResource`, otherwise the engine pauses it. |
| ContainerV1.Unpause | snapshot.py:108 | The matching `unpause`. |
| SnapshotV1.LoadDatabase | snapshot.py:31-38 | Returns what the stored document decodes to, and leaves the helper ready. |
| SnapshotV1.SaveDatabase | snapshot.py:41-45 | db.json afterwards holds the list. |
| SnapshotV1.MeasureAndSave | snapshot.py:64-67 | Succeeds exactly when the size can be read, and then saves the list with the new record. |
| SnapshotV1.SnapshotCreate | snapshot.py:53-68 | Succeeds exactly when `init` leaves a helper that accepts exec, the store loads, a requested name is not stored and the size can be read. A requested name already stored is refused. On success the copy is made with the target untouched, the store gains the record, and the bar's total is the peak plus 100. |
| SnapshotV1.SnapshotDelete | snapshot.py:71-88 | Lookup errors change nothing. On success the directory is gone and the other names are saved. |
| SnapshotV1.RestoreAsWritten | snapshot.py:91-103 | Every restore fails and no file changes. A found snapshot ends in the missing `pause`. |
| SnapshotV1.PausedCopy | snapshot.py:103-108 | Pauses the target, empties the directory, mirrors the copy onto it and unpauses the target, which ends as it was. |
| SnapshotV1.ClearAndMirror | snapshot.py:105-106 | The directory afterwards is exactly the mirror of the source. |
| SnapshotV1.SnapshotRestore | snapshot.py:91-108 | On success the directory mirrors the snapshot's copy and the target is no longer paused. A running target other than the helper always succeeds. |

## Left out

- The JSON text of db.json. `json.dumps` and `json.loads` are not modelled: the document is the list of elements itself, and its text is a fixed non-empty stand-in.
- Text.ParseInt: `int()`'s acceptance of underscores between digits and of non-ASCII Unicode decimal digits is not modelled; only ASCII digits are read.
- Progress.PercentIn: Python's `\d` also matches non-ASCII Unicode decimal digits; the model matches ASCII digits only.
- Container.Sh: output that is not valid UTF-8 makes `.decode("utf-8")` raise `UnicodeDecodeError`; the model's output is text, so that error is not modelled.
- Container.Sync: the same `UnicodeDecodeError` on rsync's progress stream is not modelled.
- The YAML parsing of ds.yaml. The file is either absent or holds settings.
- The message texts of the engine's and the commands' errors. Click's and rich's rendering of tables, colours and bars is also left out: the bar is the list of updates it receives.
- `ls`. It is a table rendering of `snapshot_list` and `snapshot_present_stats`, both of which are modelled. It too calls the missing `utils.format_size`.
- `settings.init`, which writes a default ds.yaml.
- `sizeof_fmt`, which uses floating-point formatting.
- The name generator, `uuid4()` and the clock. They are inputs: each load of the store draws its own defaults (one generator per load), and the values drawn are never empty.
- The prune prompt. It is an input.
- What `du`, `find | wc -l` and rsync print. These are inputs. rsync's copy is the whole source directory node placed at the destination.
- Container.FileWrite: content that `echo` takes as an option (such as `-n` or `-e`) and backslash escapes that `echo` interprets are not modelled; `echo` is taken to print its argument and a newline.
- The helper's exit codes and `exec_run` streaming. A command the engine accepts always succeeds.
- Stop timeouts, `auto_remove` and `tty`.
- Paths in the helper's file system are independent keys of a map: no path lies inside another. A configured directory that contains /mnt/ds or lies inside it is outside the model, and that includes the default "/". There the source's `rsync --delete` onto the directory, or `rm -rf` of it, also reaches db.json and the other copies under /mnt/ds. The model keeps those apart.
- Snapshot.SnapshotRestore: "the store is never written" holds only for a directory apart from /mnt/ds. With the default "/" the mirror's `--delete` reaches db.json, and the model does not capture that.
- SnapshotV2.SnapshotRestore: the same holds for the configured directory of the intermediate revision.
- Snapshot.SnapshotCreate: copying a directory that contains /mnt/ds (the default "/") into /mnt/ds/uuid would copy the store and earlier copies too. The model treats the source as one node apart from the store.
- SnapshotV1.PausedCopy: `rm -rf` of a directory that contains /mnt/ds removes the store and the copy being restored. The model removes only the directory's own key.
- SnapshotV1.ClearAndMirror: the same overlap is not modelled.
- ContainerV1.Init: the engine's answer to `volumes_from` naming an empty container is taken to be "no such container", like any name it does not hold.
- `ContainerV2.Alloc`: the intermediate revision's `settings.get` failure on a missing ds.yaml is not modelled. Its settings are a parameter.
- `ContainerV1.Init`: the earliest revision's `settings.get` failure is not modelled, for the same reason.
- The intermediate revision's `requires_helper_container` (docker_snapshot/container.py:19-27). It only brackets that revision's command-line functions, which are not part of this model.
- The earlier revisions' `file_read`, `file_write` and `directory_remove`. They are modelled as the shell commands they run, inside the load, save and delete operations.
- `find_root_settings` and `pass_settings` are not part of this model. The settings they pass are parameters.

## Findings

| source | as written | input that shows it | evidently intended | confidence | as-written member | corrected member |
|---|---|---|---|---|---|---|
| src/docker_snapshot/cli/__init__.py:167-169 | `prune` has `requires_helper_container` but not `pass_settings`. Click calls the wrapper with no arguments, and the wrapper's positional `settings` parameter is missing. | `ds prune`, with any store | `prune` receives the settings like the other commands | not executed | Cli.PruneAsWritten | Cli.Prune |
| src/docker_snapshot/cli/__init__.py:174 | `prune` calls `utils.format_size`, which `utils` does not define (it defines `sizeof_fmt`). | `ds prune` with at least one stored snapshot | the total size is formatted, and the prompt and deletions follow | not executed | Cli.PruneWithSettings | Cli.Prune |
| snapshot.py:103 | `snapshot_restore` calls `container.pause` and `container.unpause`, which container.py does not define. | restore of any stored name | pause the target, replace the directory with the copy, unpause the target | not executed | SnapshotV1.RestoreAsWritten | SnapshotV1.SnapshotRestore |
