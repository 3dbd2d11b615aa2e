/**
 * The helper environment of the earliest revision (the root-level scripts). There is
 * no module-level handle: `init` gets or creates the image, the volume and a helper
 * that is run, started, with the target's volumes, and every shell command calls
 * `init` again first. An existing helper is used as it is, running or not.
 */
module ContainerV1 {
  import opened Wrappers
  import opened Errors
  import opened Docker
  import Container
  import Settings
  import Progress

  /** Whether `init` succeeds: the helper exists, or the target it is run with does. */
  predicate InitSucceeds(containers: map<string, bool>, s: Settings.Settings) {
    Container.GetContainerId(s.namespace) in containers || s.containerName in containers
  }

  /** The containers after a successful `init`: a missing helper is run, an existing one left alone. */
  function Ready(containers: map<string, bool>, s: Settings.Settings): map<string, bool> {
    var id := Container.GetContainerId(s.namespace);
    if id in containers then containers else containers[id := true]
  }

  /** A second `init` finds everything it needs and changes nothing. */
  lemma ReadyIdempotent(containers: map<string, bool>, s: Settings.Settings)
    requires InitSucceeds(containers, s)
    ensures InitSucceeds(Ready(containers, s), s)
    ensures Ready(Ready(containers, s), s) == Ready(containers, s)
    ensures Container.GetContainerId(s.namespace) in Ready(containers, s)
  {
  }

  /** The calls `init` makes, in order, from a given engine state. */
  function InitCalls(images: set<string>, volumes: set<string>, containers: map<string, bool>, s: Settings.Settings): seq<Call> {
    var id := Container.GetContainerId(s.namespace);
    (if Container.GetImageId(s.namespace) in images then [] else [ImageBuilt(Container.GetImageId(s.namespace))])
    + (if Container.GetVolumeId(s.namespace) in volumes then [] else [VolumeCreated(Container.GetVolumeId(s.namespace))])
    + (if id in containers || s.containerName !in containers then [] else [ContainerRun(id, s.containerName)])
  }

  /**
   * `init`: get or build the image, get or create the volume, get the helper or run
   * it with the target's volumes. The target is not checked first: a missing one is
   * the engine's "no such container" from the run, after the image and volume are made.
   */
  method Init(e: Engine, s: Settings.Settings) returns (r: Outcome<Error>)
    modifies e`images, e`volumes, e`containers, e`trace
    ensures Container.GetImageId(s.namespace) in e.images && Container.GetVolumeId(s.namespace) in e.volumes
    ensures e.images == old(e.images) + {Container.GetImageId(s.namespace)}
    ensures e.volumes == old(e.volumes) + {Container.GetVolumeId(s.namespace)}
    ensures r.Pass? <==> InitSucceeds(old(e.containers), s)
    ensures r.Pass? ==> e.containers == Ready(old(e.containers), s)
    ensures r.Fail? ==> r == Fail(NoSuchContainer(s.containerName)) && e.containers == old(e.containers)
    ensures e.trace == old(e.trace) + InitCalls(old(e.images), old(e.volumes), old(e.containers), s)
  {
    Container.GetOrBuildImage(e, s.namespace);
    Container.GetOrCreateVolume(e, s.namespace);
    var id := Container.GetContainerId(s.namespace);
    if id !in e.containers {
      r := RunContainer(e, id, s.containerName);
    } else {
      r := Pass;
    }
  }

  /** Once `init` has succeeded, calling it again makes no engine call. */
  method InitAgain(e: Engine, s: Settings.Settings) returns (first: Outcome<Error>, second: Outcome<Error>)
    modifies e`images, e`volumes, e`containers, e`trace
    ensures first.Pass? ==>
      second.Pass? && e.containers == Ready(old(e.containers), s)
      && e.trace == old(e.trace) + InitCalls(old(e.images), old(e.volumes), old(e.containers), s)
  {
    first := Init(e, s);
    if first.Pass? {
      ReadyIdempotent(old(e.containers), s);
    }
    second := Init(e, s);
  }

  /** Whether a shell command reaches the helper: `init` first, then the engine's exec checks. */
  function ShStatus(containers: map<string, bool>, paused: set<string>, s: Settings.Settings): Outcome<Error> {
    if !InitSucceeds(containers, s) then Fail(NoSuchContainer(s.containerName))
    else ExecStatus(Ready(containers, s), paused, Container.GetContainerId(s.namespace))
  }

  /** An existing helper that is stopped is not started by `init`, so every command fails. */
  lemma StoppedHelperStaysStopped(containers: map<string, bool>, paused: set<string>, s: Settings.Settings)
    requires Container.GetContainerId(s.namespace) in containers && !containers[Container.GetContainerId(s.namespace)]
    ensures ShStatus(containers, paused, s) == Fail(ContainerNotRunning(Container.GetContainerId(s.namespace)))
  {
  }

  /** `sh(input)` without a container: `init`, then `exec_run` in the container it returned. */
  method Sh(e: Engine, s: Settings.Settings, command: Command, toolOutput: string) returns (r: Result<string, Error>)
    modifies e`images, e`volumes, e`containers, e`fs, e`trace
    ensures e.images == old(e.images) + {Container.GetImageId(s.namespace)}
    ensures e.volumes == old(e.volumes) + {Container.GetVolumeId(s.namespace)}
    ensures e.containers == if InitSucceeds(old(e.containers), s) then Ready(old(e.containers), s) else old(e.containers)
    ensures ShStatus(old(e.containers), e.paused, s).Fail? ==>
      r == Failure(ShStatus(old(e.containers), e.paused, s).error) && e.fs == old(e.fs)
    ensures ShStatus(old(e.containers), e.paused, s).Pass? ==>
      r == Success(Output(old(e.fs), command, toolOutput)) && e.fs == Effect(old(e.fs), command)
      && e.trace == old(e.trace) + InitCalls(old(e.images), old(e.volumes), old(e.containers), s)
         + [Exec(Container.GetContainerId(s.namespace), command)]
  {
    var ready := Init(e, s);
    if ready.Fail? {
      return Failure(ready.error);
    }
    r := ExecRun(e, Container.GetContainerId(s.namespace), command, toolOutput);
  }

  /** `directory_size`: 1024 times the first tab field of `du -s`, whose output is a parameter. */
  method DirectorySize(e: Engine, s: Settings.Settings, path: string, duOutput: string) returns (r: Result<int, Error>)
    modifies e`images, e`volumes, e`containers, e`fs, e`trace
    ensures e.images == old(e.images) + {Container.GetImageId(s.namespace)}
    ensures e.volumes == old(e.volumes) + {Container.GetVolumeId(s.namespace)}
    ensures e.fs == old(e.fs)
    ensures e.containers == if InitSucceeds(old(e.containers), s) then Ready(old(e.containers), s) else old(e.containers)
    ensures ShStatus(old(e.containers), e.paused, s).Fail? ==> r == Failure(ShStatus(old(e.containers), e.paused, s).error)
    ensures ShStatus(old(e.containers), e.paused, s).Pass? ==> r == Container.SizeFromDiskUsage(duOutput)
    ensures r.Success? ==> r.value % 1024 == 0
  {
    var out := Sh(e, s, DiskUsage(path), duOutput);
    if out.Failure? {
      return Failure(out.error);
    }
    r := Container.SizeFromDiskUsage(out.value);
  }

  /**
   * `sync`: `init`, the copy, and the progress fold of the later revisions, ended by
   * `bar.update(100)`, which advances the bar by a further 100 (see Progress.BarOvershoots).
   */
  method Sync(e: Engine, s: Settings.Settings, source: string, destination: string, chunks: seq<string>)
    returns (r: Outcome<Error>, reports: seq<Progress.Report>)
    modifies e`images, e`volumes, e`containers, e`fs, e`trace
    ensures e.images == old(e.images) + {Container.GetImageId(s.namespace)}
    ensures e.volumes == old(e.volumes) + {Container.GetVolumeId(s.namespace)}
    ensures e.containers == if InitSucceeds(old(e.containers), s) then Ready(old(e.containers), s) else old(e.containers)
    ensures ShStatus(old(e.containers), e.paused, s).Fail? ==>
      r == ShStatus(old(e.containers), e.paused, s) && reports == [] && e.fs == old(e.fs)
    ensures ShStatus(old(e.containers), e.paused, s).Pass? ==>
      r == Pass && reports == Progress.Advances(chunks) + [Progress.Advance(100)]
      && Progress.Completed(reports) == Progress.Peak(chunks) + 100
      && e.fs == Mirrored(old(e.fs), source, destination)
      && e.trace == old(e.trace) + InitCalls(old(e.images), old(e.volumes), old(e.containers), s)
         + [Exec(Container.GetContainerId(s.namespace), Mirror(source, destination))]
  {
    var ready := Init(e, s);
    if ready.Fail? {
      return ready, [];
    }
    var id := Container.GetContainerId(s.namespace);
    var status := ExecStatus(e.containers, e.paused, id);
    if status.Fail? {
      return status, [];
    }
    var _ := ExecRun(e, id, Mirror(source, destination), "");
    reports := Progress.TrackProgressBar(chunks);
    Progress.BarOvershoots(chunks);
    r := Pass;
  }

  /**
   * The `pause` that this revision's restore calls and its container module does not
   * define, written the way `stop` is: a missing target is reported by name (an
   * empty name is the client's `NullResource`), and otherwise the engine pauses it.
   */
  method Pause(e: Engine, containerName: string) returns (r: Outcome<Error>)
    modifies e`paused, e`trace
    ensures !Container.Found(e.containers, containerName) ==>
      r == Fail(Container.NotFoundError(containerName)) && e.paused == old(e.paused) && e.trace == old(e.trace)
    ensures Container.Found(e.containers, containerName) ==>
      (r.Pass? <==> e.containers[containerName] && containerName !in old(e.paused))
      && (r.Pass? ==> e.paused == old(e.paused) + {containerName} && e.trace == old(e.trace) + [Paused(containerName)])
      && (r.Fail? ==> r == Fail(Conflict(containerName)) && e.paused == old(e.paused) && e.trace == old(e.trace))
  {
    if containerName == "" {
      return Fail(NullResource);
    }
    if containerName !in e.containers {
      return Fail(ContainerMissing(containerName));
    }
    r := PauseContainer(e, containerName);
  }

  /** The matching `unpause`, written the way `start` is. */
  method Unpause(e: Engine, containerName: string) returns (r: Outcome<Error>)
    modifies e`paused, e`trace
    ensures !Container.Found(e.containers, containerName) ==>
      r == Fail(Container.NotFoundError(containerName)) && e.paused == old(e.paused) && e.trace == old(e.trace)
    ensures Container.Found(e.containers, containerName) ==>
      (r.Pass? <==> containerName in old(e.paused))
      && (r.Pass? ==> e.paused == old(e.paused) - {containerName} && e.trace == old(e.trace) + [Unpaused(containerName)])
      && (r.Fail? ==> r == Fail(Conflict(containerName)) && e.paused == old(e.paused) && e.trace == old(e.trace))
  {
    if containerName == "" {
      return Fail(NullResource);
    }
    if containerName !in e.containers {
      return Fail(ContainerMissing(containerName));
    }
    r := UnpauseContainer(e, containerName);
  }
}
