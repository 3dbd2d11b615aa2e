/**
 * The helper environment of the intermediate revision (the docker_snapshot package).
 * Ids, get-or-create and the progress fold are those of the current revision; what
 * differs is that the settings are read for every id, that `dealloc` stops the helper
 * instead of removing it, and that neither `dealloc` nor `sh` guards a missing handle.
 */
module ContainerV2 {
  import opened Wrappers
  import opened Errors
  import opened Docker
  import Container
  import Settings
  import Progress

  /** `get_image_id`, `get_volume_id` and `get_container_id` all read the namespace setting. */
  lemma IdsFromSettings(s: Settings.Settings)
    ensures Container.GetImageId(s.namespace) == Container.GetVolumeId(s.namespace)
      == Container.GetContainerId(s.namespace) == "ds-" + s.namespace
  {
  }

  /**
   * Whether a command reaches the helper: without a handle, `container.exec_run`
   * is an attribute lookup on None; otherwise the engine decides.
   */
  function ShStatus(helper: Option<string>, containers: map<string, bool>, paused: set<string>): (r: Outcome<Error>)
  {
    if helper.None? then Fail(NoneHandle("exec_run")) else ExecStatus(containers, paused, helper.value)
  }

  /** Only the missing handle is reported differently from the current revision's guard. */
  lemma ShStatusAgrees(helper: Option<string>, containers: map<string, bool>, paused: set<string>)
    ensures helper.Some? ==> ShStatus(helper, containers, paused) == Container.ShStatus(helper, containers, paused)
    ensures helper.None? ==>
      ShStatus(helper, containers, paused) == Fail(NoneHandle("exec_run"))
      && Container.ShStatus(helper, containers, paused) == Fail(HandleNotSet)
  {
  }

  /**
   * `alloc`: the same get-or-create as the current revision, with the target name and
   * the namespace read from the settings; a paused helper is refused by `start`.
   */
  method Alloc(e: Engine, s: Settings.Settings) returns (r: Outcome<Error>)
    modifies e`images, e`volumes, e`containers, e`helper, e`trace
    ensures Container.GetImageId(s.namespace) in e.images && Container.GetVolumeId(s.namespace) in e.volumes
    ensures r.Pass? <==> Container.AllocSucceeds(old(e.containers), e.paused, s.containerName, s.namespace)
    ensures r.Pass? ==>
      e.helper == Some(Container.GetContainerId(s.namespace))
      && e.containers == old(e.containers)[Container.GetContainerId(s.namespace) := true]
    ensures Container.GetContainerId(s.namespace) !in old(e.containers) && !Container.Found(old(e.containers), s.containerName) ==>
      r == Fail(Container.MissingTarget(s.containerName)) && e.helper == old(e.helper) && e.containers == old(e.containers)
    ensures (Container.GetContainerId(s.namespace) in old(e.containers) || Container.Found(old(e.containers), s.containerName))
            && Container.GetContainerId(s.namespace) in e.paused ==>
      r == Fail(Conflict(Container.GetContainerId(s.namespace)))
      && e.helper == Some(Container.GetContainerId(s.namespace))
  {
    r := Container.Alloc(e, s.containerName, s.namespace);
  }

  /**
   * `dealloc`: `container.stop(timeout=0)`. The helper is stopped, not removed, so
   * the next `alloc` finds and restarts it; without a handle the call fails.
   */
  method Dealloc(e: Engine) returns (r: Outcome<Error>)
    modifies e`containers, e`paused, e`trace
    ensures e.helper.None? ==>
      r == Fail(NoneHandle("stop")) && e.containers == old(e.containers) && e.paused == old(e.paused)
      && e.trace == old(e.trace)
    ensures e.helper.Some? && e.helper.value !in old(e.containers) ==>
      r == Fail(NoSuchContainer(e.helper.value)) && e.containers == old(e.containers)
      && e.paused == old(e.paused) && e.trace == old(e.trace)
    ensures e.helper.Some? && e.helper.value in old(e.containers) ==>
      r == Pass && e.containers == old(e.containers)[e.helper.value := false]
      && e.paused == old(e.paused) - {e.helper.value} && e.trace == old(e.trace) + [Stopped(e.helper.value)]
      && e.helper.value in e.containers && e.containers.Keys == old(e.containers).Keys
  {
    if e.helper.None? {
      return Fail(NoneHandle("stop"));
    }
    if e.helper.value !in e.containers {
      return Fail(NoSuchContainer(e.helper.value));
    }
    StopContainer(e, e.helper.value);
    r := Pass;
  }

  /** After `alloc` and `dealloc` the helper still exists, stopped, and the next `alloc` restarts it. */
  method AllocDeallocAlloc(e: Engine, s: Settings.Settings) returns (first: Outcome<Error>, second: Outcome<Error>)
    modifies e`images, e`volumes, e`containers, e`paused, e`helper, e`trace
    ensures first.Pass? ==> second.Pass? && e.containers.Keys == old(e.containers).Keys + {Container.GetContainerId(s.namespace)}
    ensures first.Pass? ==> e.helper == Some(Container.GetContainerId(s.namespace)) && e.containers[e.helper.value]
  {
    first := Alloc(e, s);
    if first.Fail? {
      return first, first;
    }
    var _ := Dealloc(e);
    second := Alloc(e, s);
  }

  /** `sh`: `container.exec_run`, with no check of the handle. */
  method Sh(e: Engine, command: Command, toolOutput: string) returns (r: Result<string, Error>)
    modifies e`fs, e`trace
    ensures ShStatus(e.helper, e.containers, e.paused).Fail? ==>
      r == Failure(ShStatus(e.helper, e.containers, e.paused).error) && e.fs == old(e.fs) && e.trace == old(e.trace)
    ensures ShStatus(e.helper, e.containers, e.paused).Pass? ==>
      r == Success(Output(old(e.fs), command, toolOutput))
      && e.fs == Effect(old(e.fs), command) && e.trace == old(e.trace) + [Exec(e.helper.value, command)]
  {
    if e.helper.None? {
      return Failure(NoneHandle("exec_run"));
    }
    r := ExecRun(e, e.helper.value, command, toolOutput);
  }

  /** `directory_size`: 1024 times the first tab field of `du -s`, whose output is a parameter. */
  method DirectorySize(e: Engine, path: string, duOutput: string) returns (r: Result<int, Error>)
    modifies e`fs, e`trace
    ensures e.fs == old(e.fs)
    ensures ShStatus(e.helper, e.containers, e.paused).Fail? ==>
      r == Failure(ShStatus(e.helper, e.containers, e.paused).error) && e.trace == old(e.trace)
    ensures ShStatus(e.helper, e.containers, e.paused).Pass? ==>
      r == Container.SizeFromDiskUsage(duOutput) && e.trace == old(e.trace) + [Exec(e.helper.value, DiskUsage(path))]
    ensures r.Success? ==> r.value % 1024 == 0
  {
    var out := Sh(e, DiskUsage(path), duOutput);
    if out.Failure? {
      return Failure(out.error);
    }
    r := Container.SizeFromDiskUsage(out.value);
  }

  /** `sync`: the same copy and the same progress fold as the current revision. */
  method Sync(e: Engine, source: string, destination: string, chunks: seq<string>)
    returns (r: Outcome<Error>, reports: seq<Progress.Report>)
    modifies e`fs, e`trace
    ensures ShStatus(e.helper, e.containers, e.paused).Fail? ==>
      r == ShStatus(e.helper, e.containers, e.paused) && reports == []
      && e.fs == old(e.fs) && e.trace == old(e.trace)
    ensures ShStatus(e.helper, e.containers, e.paused).Pass? ==>
      r == Pass && reports == Progress.Advances(chunks) + [Progress.Complete(100)]
      && e.fs == Mirrored(old(e.fs), source, destination)
      && e.trace == old(e.trace) + [Exec(e.helper.value, Mirror(source, destination))]
  {
    var status := ShStatus(e.helper, e.containers, e.paused);
    if status.Fail? {
      return status, [];
    }
    var _ := ExecRun(e, e.helper.value, Mirror(source, destination), "");
    reports := Progress.TrackProgress(chunks);
    r := Pass;
  }

  /**
   * `with freeze_target_container(): sync(source, destination)`: the target named in
   * the settings is stopped on entry and started on every exit; when the stop fails,
   * nothing is copied and nothing is started.
   */
  method FrozenSync(e: Engine, s: Settings.Settings, source: string, destination: string, chunks: seq<string>)
    returns (r: Outcome<Error>, reports: seq<Progress.Report>)
    modifies e`containers, e`paused, e`fs, e`trace
    ensures !Container.Found(old(e.containers), s.containerName) ==>
      r == Fail(Container.NotFoundError(s.containerName)) && reports == []
      && e.containers == old(e.containers) && e.paused == old(e.paused)
      && e.fs == old(e.fs) && e.trace == old(e.trace)
    ensures Container.Found(old(e.containers), s.containerName) ==>
      var status := ShStatus(e.helper, old(e.containers)[s.containerName := false], old(e.paused) - {s.containerName});
      r == status
      && e.containers == old(e.containers)[s.containerName := true] && e.paused == old(e.paused) - {s.containerName}
      && (status.Fail? ==> reports == [] && e.fs == old(e.fs)
                           && e.trace == old(e.trace) + [Stopped(s.containerName), Started(s.containerName)])
      && (status.Pass? ==> reports == Progress.Advances(chunks) + [Progress.Complete(100)]
                           && e.fs == Mirrored(old(e.fs), source, destination)
                           && e.trace == old(e.trace) + [Stopped(s.containerName), Exec(e.helper.value, Mirror(source, destination)),
                                                         Started(s.containerName)])
  {
    r := Container.Stop(e, s.containerName);
    if r.Fail? {
      return r, [];
    }
    r, reports := Sync(e, source, destination, chunks);
    var _ := Container.Start(e, s.containerName);
  }
}
