/**
 * The helper-environment manager of the current revision: names derived from the
 * namespace, allocation and release of the helper container, the shell commands run
 * inside it, the mirror copy with its progress fold, and the freeze of the target.
 */
module Container {
  import opened Wrappers
  import opened Errors
  import opened Docker
  import opened Text
  import Progress
  import ShellQuote

  /** Where the snapshot volume is mounted inside the helper, and its working directory. */
  const HelperBasePath := "/mnt/ds"

  /** The image tag of the helper for a namespace. */
  function GetImageId(namespace: string): (id: string)
    ensures StartsWith(id, "ds-") && id[3..] == namespace
  {
    "ds-" + namespace
  }

  /** The volume holding the snapshots of a namespace. */
  function GetVolumeId(namespace: string): (id: string)
    ensures StartsWith(id, "ds-") && id[3..] == namespace
  {
    "ds-" + namespace
  }

  /** The helper container of a namespace. */
  function GetContainerId(namespace: string): (id: string)
    ensures StartsWith(id, "ds-") && id[3..] == namespace
  {
    "ds-" + namespace
  }

  /** Different namespaces never share an image, a volume or a helper container. */
  lemma NamespacesIsolated(a: string, b: string)
    requires a != b
    ensures GetImageId(a) != GetImageId(b)
    ensures GetVolumeId(a) != GetVolumeId(b)
    ensures GetContainerId(a) != GetContainerId(b)
  {
    assert GetContainerId(a)[3..] == a;
    assert GetContainerId(b)[3..] == b;
  }

  /** Whether a shell command can run: the handle is set and its container accepts `exec_run`. */
  function ShStatus(helper: Option<string>, containers: map<string, bool>, paused: set<string>): Outcome<Error> {
    if helper.None? then Fail(HandleNotSet) else ExecStatus(containers, paused, helper.value)
  }

  /**
   * Whether `client.containers.get(name)` finds a container. The client refuses an
   * empty name itself, with `NullResource`, before it asks the engine; that error is
   * not the `NotFound` that `exists` and `is_running` catch.
   */
  predicate Found(containers: map<string, bool>, name: string) {
    name != "" && name in containers
  }

  /** `exists`: an empty name raises instead of answering. */
  method Exists(e: Engine, containerName: string) returns (r: Result<bool, Error>)
    ensures r.Failure? <==> containerName == ""
    ensures r.Failure? ==> r.error == NullResource
    ensures r.Success? ==> (r.value <==> Found(e.containers, containerName))
  {
    if containerName == "" {
      return Failure(NullResource);
    }
    r := Success(containerName in e.containers);
  }

  /**
   * `is_running`, and `is_target_container_running`, which delegates to it: the
   * status is "running", which a stopped, a paused or a missing container is not.
   * An empty name raises instead of answering.
   */
  method IsRunning(e: Engine, containerName: string) returns (r: Result<bool, Error>)
    ensures r.Failure? <==> containerName == ""
    ensures r.Failure? ==> r.error == NullResource
    ensures r.Success? ==>
      (r.value <==> Found(e.containers, containerName) && e.containers[containerName] && containerName !in e.paused)
  {
    if containerName == "" {
      return Failure(NullResource);
    }
    r := Success(containerName in e.containers && e.containers[containerName] && containerName !in e.paused);
  }

  /**
   * Whether `alloc` succeeds: the helper exists, or the target it is created from
   * does, and the helper is not paused, since the engine refuses to start a paused one.
   */
  predicate AllocSucceeds(containers: map<string, bool>, paused: set<string>, containerName: string, namespace: string) {
    (GetContainerId(namespace) in containers || Found(containers, containerName)) && GetContainerId(namespace) !in paused
  }

  /** What `alloc` raises when neither the helper nor the target is found: `exists` raises for an empty name. */
  function MissingTarget(containerName: string): (err: Error)
    ensures err == NullResource <==> containerName == ""
  {
    if containerName == "" then NullResource else TargetNotFound(containerName)
  }

  /** The calls `alloc` makes, in order, from a given engine state. */
  function AllocCalls(images: set<string>, volumes: set<string>, containers: map<string, bool>, paused: set<string>,
                      containerName: string, namespace: string): seq<Call>
  {
    var id := GetContainerId(namespace);
    var start := if id in paused then [] else [Started(id)];
    (if GetImageId(namespace) in images then [] else [ImageBuilt(GetImageId(namespace))])
    + (if GetVolumeId(namespace) in volumes then [] else [VolumeCreated(GetVolumeId(namespace))])
    + (if id in containers then start
       else if Found(containers, containerName) then [ContainerCreated(id, containerName)] + start
       else [])
  }

  /** The first step of `alloc`: get the helper image, or build it when it is missing. */
  method GetOrBuildImage(e: Engine, namespace: string)
    modifies e`images, e`trace
    ensures e.images == old(e.images) + {GetImageId(namespace)}
    ensures e.trace == old(e.trace)
      + (if GetImageId(namespace) in old(e.images) then [] else [ImageBuilt(GetImageId(namespace))])
  {
    var image := GetImageId(namespace);
    if image !in e.images {
      BuildImage(e, image);
    }
  }

  /** The second step of `alloc`: get the snapshot volume, or create it when it is missing. */
  method GetOrCreateVolume(e: Engine, namespace: string)
    modifies e`volumes, e`trace
    ensures e.volumes == old(e.volumes) + {GetVolumeId(namespace)}
    ensures e.trace == old(e.trace)
      + (if GetVolumeId(namespace) in old(e.volumes) then [] else [VolumeCreated(GetVolumeId(namespace))])
  {
    var volume := GetVolumeId(namespace);
    if volume !in e.volumes {
      CreateVolume(e, volume);
    }
  }

  /**
   * `alloc`: get or build the image, get or create the volume, get the helper or
   * create it with the target's volumes, then start it. Without a helper and without
   * a target it fails, after the image and the volume have been made. A paused
   * helper is refused by `start`, after the handle has been set. Without a helper,
   * an empty target name makes `exists` raise.
   */
  method Alloc(e: Engine, containerName: string, namespace: string) returns (r: Outcome<Error>)
    modifies e`images, e`volumes, e`containers, e`helper, e`trace
    ensures e.images == old(e.images) + {GetImageId(namespace)}
    ensures e.volumes == old(e.volumes) + {GetVolumeId(namespace)}
    ensures r.Pass? <==> AllocSucceeds(old(e.containers), e.paused, containerName, namespace)
    ensures r.Pass? ==>
      e.helper == Some(GetContainerId(namespace))
      && e.containers == old(e.containers)[GetContainerId(namespace) := true]
    ensures GetContainerId(namespace) !in old(e.containers) && !Found(old(e.containers), containerName) ==>
      r == Fail(MissingTarget(containerName)) && e.helper == old(e.helper) && e.containers == old(e.containers)
    ensures (GetContainerId(namespace) in old(e.containers) || Found(old(e.containers), containerName))
            && GetContainerId(namespace) in e.paused ==>
      r == Fail(Conflict(GetContainerId(namespace))) && e.helper == Some(GetContainerId(namespace))
      && e.containers == if GetContainerId(namespace) in old(e.containers) then old(e.containers)
                         else old(e.containers)[GetContainerId(namespace) := false]
    ensures e.trace == old(e.trace)
      + AllocCalls(old(e.images), old(e.volumes), old(e.containers), e.paused, containerName, namespace)
  {
    GetOrBuildImage(e, namespace);
    GetOrCreateVolume(e, namespace);
    var id := GetContainerId(namespace);
    if id !in e.containers {
      var present := Exists(e, containerName);
      if present.Failure? {
        return Fail(present.error);
      }
      if !present.value {
        return Fail(TargetNotFound(containerName));
      }
      CreateContainer(e, id, containerName);
    }
    e.helper := Some(id);
    r := StartContainer(e, id);
  }

  /**
   * `dealloc`: force-remove the helper if the handle is set. The handle is not
   * reset, so a later shell command fails with the engine's "no such container".
   */
  method Dealloc(e: Engine) returns (r: Outcome<Error>)
    modifies e`containers, e`paused, e`trace
    ensures old(e.helper).None? ==>
      r == Pass && e.containers == old(e.containers) && e.paused == old(e.paused) && e.trace == old(e.trace)
    ensures old(e.helper).Some? && old(e.helper).value !in old(e.containers) ==>
      r == Fail(NoSuchContainer(old(e.helper).value))
      && e.containers == old(e.containers) && e.paused == old(e.paused) && e.trace == old(e.trace)
    ensures old(e.helper).Some? && old(e.helper).value in old(e.containers) ==>
      r == Pass && e.containers == old(e.containers) - {old(e.helper).value}
      && e.paused == old(e.paused) - {old(e.helper).value}
      && e.trace == old(e.trace) + [Removed(old(e.helper).value)]
    ensures old(e.helper).Some? ==> ShStatus(e.helper, e.containers, e.paused) == Fail(NoSuchContainer(old(e.helper).value))
  {
    if e.helper.None? {
      return Pass;
    }
    var id := e.helper.value;
    if id !in e.containers {
      return Fail(NoSuchContainer(id));
    }
    RemoveContainer(e, id);
    r := Pass;
  }

  /** `sh`: run a command in the helper and return what it printed. */
  method Sh(e: Engine, command: Command, toolOutput: string) returns (r: Result<string, Error>)
    modifies e`fs, e`trace
    ensures ShStatus(e.helper, e.containers, e.paused).Fail? ==>
      r == Failure(ShStatus(e.helper, e.containers, e.paused).error) && e.fs == old(e.fs) && e.trace == old(e.trace)
    ensures ShStatus(e.helper, e.containers, e.paused).Pass? ==>
      r == Success(Output(old(e.fs), command, toolOutput))
      && e.fs == Effect(old(e.fs), command) && e.trace == old(e.trace) + [Exec(e.helper.value, command)]
  {
    if e.helper.None? {
      return Failure(HandleNotSet);
    }
    r := ExecRun(e, e.helper.value, command, toolOutput);
  }

  /** `file_read`: the file's text, or nothing when the path is missing or not a file. */
  method FileRead(e: Engine, path: string) returns (r: Result<string, Error>)
    modifies e`fs, e`trace
    ensures e.fs == old(e.fs)
    ensures ShStatus(e.helper, e.containers, e.paused).Fail? ==>
      r == Failure(ShStatus(e.helper, e.containers, e.paused).error) && e.trace == old(e.trace)
    ensures ShStatus(e.helper, e.containers, e.paused).Pass? ==>
      r == Success(TextAt(e.fs, path)) && e.trace == old(e.trace) + [Exec(e.helper.value, Cat(path))]
  {
    r := Sh(e, Cat(path), "");
  }

  /**
   * `file_write`: the content reaches `echo` as the one word `shlex.quote` makes of
   * it, which the shell expands back to the content, so the file then holds the
   * content followed by a newline.
   */
  method FileWrite(e: Engine, path: string, content: string) returns (r: Result<string, Error>)
    modifies e`fs, e`trace
    ensures ShStatus(e.helper, e.containers, e.paused).Fail? ==>
      r == Failure(ShStatus(e.helper, e.containers, e.paused).error) && e.fs == old(e.fs) && e.trace == old(e.trace)
    ensures ShStatus(e.helper, e.containers, e.paused).Pass? ==>
      r == Success("") && e.fs == old(e.fs)[path := File(content + "\n")]
      && TextAt(e.fs, path) == content + "\n"
      && e.trace == old(e.trace) + [Exec(e.helper.value, Echo(ShellQuote.Quote(content), path))]
  {
    EchoThenCat(e.fs, content, path);
    r := Sh(e, Echo(ShellQuote.Quote(content), path), "");
  }

  /** `directory_remove`: `rm -rf`, which succeeds whether or not the path exists. */
  method DirectoryRemove(e: Engine, path: string) returns (r: Result<string, Error>)
    modifies e`fs, e`trace
    ensures ShStatus(e.helper, e.containers, e.paused).Fail? ==>
      r == Failure(ShStatus(e.helper, e.containers, e.paused).error) && e.fs == old(e.fs) && e.trace == old(e.trace)
    ensures ShStatus(e.helper, e.containers, e.paused).Pass? ==>
      r == Success("") && e.fs == old(e.fs) - {path} && path !in e.fs
      && e.trace == old(e.trace) + [Exec(e.helper.value, RemoveTree(path))]
  {
    r := Sh(e, RemoveTree(path), "");
  }

  /** The size in bytes `directory_size` reads from `du -s`: the first tab field, in 1024-byte blocks. */
  function SizeFromDiskUsage(output: string): (r: Result<int, Error>)
    ensures r.Success? ==> r.value % 1024 == 0
  {
    match ParseInt(FirstField(output))
    case None => Failure(NotAnInteger(FirstField(output)))
    case Some(blocks) => Success(blocks * 1024)
  }

  /** du's "<blocks>\t<path>" line gives back the block count, times 1024. */
  lemma DiskUsageReadsBlocks(blocks: nat, path: string)
    ensures SizeFromDiskUsage(ShowNat(blocks) + "\t" + path + "\n") == Success(blocks * 1024)
  {
    BlocksField(ShowNat(blocks), path);
    ParseShowNat(blocks, "", "");
    assert "" + ShowNat(blocks) + "" == ShowNat(blocks);
  }

  lemma BlocksField(digits: string, path: string)
    requires AllDigits(digits)
    ensures FirstField(digits + "\t" + path + "\n") == digits
  {
    assert digits + "\t" + path + "\n" == digits + "\t" + (path + "\n");
    FirstFieldOfDigits(digits, path + "\n");
  }

  /** The count `directory_filecount` reads from `find | wc -l`: 0 when the output is not a number. */
  function FileCountFromOutput(output: string): int {
    ParseInt(output).GetOr(0)
  }

  /** wc's padded "<count>\n" gives back the count; output that is no number gives 0. */
  lemma FileCountReadsBack(count: nat, padding: string)
    requires AllSpace(padding)
    ensures FileCountFromOutput(padding + ShowNat(count) + "\n") == count
    ensures FileCountFromOutput("") == 0
  {
    assert AllSpace("\n");
    ParseShowNat(count, padding, "\n");
  }

  /** `directory_size`; the output of `du -s` is a parameter. */
  method DirectorySize(e: Engine, path: string, duOutput: string) returns (r: Result<int, Error>)
    modifies e`fs, e`trace
    ensures e.fs == old(e.fs)
    ensures ShStatus(e.helper, e.containers, e.paused).Fail? ==>
      r == Failure(ShStatus(e.helper, e.containers, e.paused).error) && e.trace == old(e.trace)
    ensures ShStatus(e.helper, e.containers, e.paused).Pass? ==>
      r == SizeFromDiskUsage(duOutput) && e.trace == old(e.trace) + [Exec(e.helper.value, DiskUsage(path))]
  {
    var out := Sh(e, DiskUsage(path), duOutput);
    if out.Failure? {
      return Failure(out.error);
    }
    r := SizeFromDiskUsage(out.value);
  }

  /** `directory_filecount`; the output of `find | wc -l` is a parameter. */
  method DirectoryFilecount(e: Engine, path: string, findOutput: string) returns (r: Result<int, Error>)
    modifies e`fs, e`trace
    ensures e.fs == old(e.fs)
    ensures ShStatus(e.helper, e.containers, e.paused).Fail? ==>
      r == Failure(ShStatus(e.helper, e.containers, e.paused).error) && e.trace == old(e.trace)
    ensures ShStatus(e.helper, e.containers, e.paused).Pass? ==>
      r == Success(FileCountFromOutput(findOutput)) && e.trace == old(e.trace) + [Exec(e.helper.value, CountFiles(path))]
  {
    var out := Sh(e, CountFiles(path), findOutput);
    if out.Failure? {
      return Failure(out.error);
    }
    r := Success(FileCountFromOutput(out.value));
  }

  /**
   * `sync`: mirror `source/` onto the destination in the helper, folding the
   * copy tool's output chunks into progress reports.
   */
  method Sync(e: Engine, source: string, destination: string, chunks: seq<string>)
    returns (r: Outcome<Error>, reports: seq<Progress.Report>)
    modifies e`fs, e`trace
    ensures ShStatus(e.helper, e.containers, e.paused).Fail? ==>
      r == ShStatus(e.helper, e.containers, e.paused) && reports == []
      && e.fs == old(e.fs) && e.trace == old(e.trace)
    ensures ShStatus(e.helper, e.containers, e.paused).Pass? ==>
      r == Pass && reports == Progress.Advances(chunks) + [Progress.Complete(100)]
      && e.fs == Mirrored(old(e.fs), source, destination)
      && e.trace == old(e.trace) + [Exec(e.helper.value, Mirror(source, destination))]
  {
    var status := ShStatus(e.helper, e.containers, e.paused);
    if status.Fail? {
      return status, [];
    }
    var _ := ExecRun(e, e.helper.value, Mirror(source, destination), "");
    reports := Progress.TrackProgress(chunks);
    r := Pass;
  }

  /**
   * What `stop` and `start` raise when `containers.get` finds nothing: the engine's
   * `NotFound` becomes "not found", the client's `NullResource` escapes as it is.
   */
  function NotFoundError(containerName: string): (err: Error)
    ensures err == NullResource <==> containerName == ""
  {
    if containerName == "" then NullResource else ContainerMissing(containerName)
  }

  /** `stop`: stop the target, or fail when there is no container by that name. */
  method Stop(e: Engine, containerName: string) returns (r: Outcome<Error>)
    modifies e`containers, e`paused, e`trace
    ensures !Found(old(e.containers), containerName) ==>
      r == Fail(NotFoundError(containerName))
      && e.containers == old(e.containers) && e.paused == old(e.paused) && e.trace == old(e.trace)
    ensures Found(old(e.containers), containerName) ==>
      r == Pass && e.containers == old(e.containers)[containerName := false]
      && e.paused == old(e.paused) - {containerName} && e.trace == old(e.trace) + [Stopped(containerName)]
  {
    if containerName == "" {
      return Fail(NullResource);
    }
    if containerName !in e.containers {
      return Fail(ContainerMissing(containerName));
    }
    StopContainer(e, containerName);
    r := Pass;
  }

  /**
   * `start`: start the target, or fail when there is no container by that name; the
   * engine's conflict for a paused target is not caught.
   */
  method Start(e: Engine, containerName: string) returns (r: Outcome<Error>)
    modifies e`containers, e`trace
    ensures !Found(old(e.containers), containerName) ==>
      r == Fail(NotFoundError(containerName)) && e.containers == old(e.containers) && e.trace == old(e.trace)
    ensures Found(old(e.containers), containerName) && containerName in e.paused ==>
      r == Fail(Conflict(containerName)) && e.containers == old(e.containers) && e.trace == old(e.trace)
    ensures Found(old(e.containers), containerName) && containerName !in e.paused ==>
      r == Pass && e.containers == old(e.containers)[containerName := true]
      && e.trace == old(e.trace) + [Started(containerName)]
  {
    if containerName == "" {
      return Fail(NullResource);
    }
    if containerName !in e.containers {
      return Fail(ContainerMissing(containerName));
    }
    r := StartContainer(e, containerName);
  }

  /**
   * `with freeze_target_container(target): sync(source, destination)`: the target is
   * stopped on entry and started again on exit, also when the copy fails; when the
   * stop fails, nothing is copied and nothing is started.
   */
  method FrozenSync(e: Engine, target: string, source: string, destination: string, chunks: seq<string>)
    returns (r: Outcome<Error>, reports: seq<Progress.Report>)
    modifies e`containers, e`paused, e`fs, e`trace
    ensures !Found(old(e.containers), target) ==>
      r == Fail(NotFoundError(target)) && reports == []
      && e.containers == old(e.containers) && e.paused == old(e.paused)
      && e.fs == old(e.fs) && e.trace == old(e.trace)
    ensures Found(old(e.containers), target) ==>
      var status := ShStatus(e.helper, old(e.containers)[target := false], old(e.paused) - {target});
      r == status
      && e.containers == old(e.containers)[target := true] && e.paused == old(e.paused) - {target}
      && (status.Fail? ==> reports == [] && e.fs == old(e.fs)
                           && e.trace == old(e.trace) + [Stopped(target), Started(target)])
      && (status.Pass? ==> reports == Progress.Advances(chunks) + [Progress.Complete(100)]
                           && e.fs == Mirrored(old(e.fs), source, destination)
                           && e.trace == old(e.trace) + [Stopped(target), Exec(e.helper.value, Mirror(source, destination)), Started(target)])
  {
    r := Stop(e, target);
    if r.Fail? {
      return r, [];
    }
    r, reports := Sync(e, source, destination, chunks);
    var restarted := Start(e, target);
  }
}
