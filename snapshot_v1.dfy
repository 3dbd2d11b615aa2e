/**
 * The snapshot store of the earliest revision (the root-level scripts). Its records
 * and its metadata document are those of the intermediate revision; what differs is
 * that every shell command goes through `init`, that the copy taken by
 * `snapshot_create` is made with the target running, and that `snapshot_restore`
 * calls a `pause` the container module does not define.
 */
module SnapshotV1 {
  import opened Wrappers
  import opened Errors
  import opened Docker
  import Container
  import Snapshot
  import SnapshotV2
  import ContainerV1
  import Settings
  import Progress

  type Record = Snapshot.Snapshot

  /** The helper, its image and its volume all exist, so `init` makes no engine call. */
  predicate Initialized(e: Engine, s: Settings.Settings)
    reads e
  {
    Container.GetImageId(s.namespace) in e.images && Container.GetVolumeId(s.namespace) in e.volumes
    && Container.GetContainerId(s.namespace) in e.containers
  }

  /** `load_database`: `file_read("db.json")`, decoded as in the intermediate revision. */
  method LoadDatabase(e: Engine, s: Settings.Settings, gen: nat -> Snapshot.Fresh) returns (r: Result<seq<Record>, Error>)
    modifies e`images, e`volumes, e`containers, e`fs, e`trace
    ensures e.fs == old(e.fs)
    ensures e.containers == if ContainerV1.InitSucceeds(old(e.containers), s) then ContainerV1.Ready(old(e.containers), s) else old(e.containers)
    ensures ContainerV1.ShStatus(old(e.containers), e.paused, s).Fail? ==>
      r == Failure(ContainerV1.ShStatus(old(e.containers), e.paused, s).error)
    ensures ContainerV1.ShStatus(old(e.containers), e.paused, s).Pass? ==>
      r == SnapshotV2.Stored(e.fs, gen) && Initialized(e, s) && ContainerV1.ShStatus(e.containers, e.paused, s).Pass?
  {
    var text := ContainerV1.Sh(e, s, Cat(DatabaseFile), "");
    if ContainerV1.InitSucceeds(old(e.containers), s) {
      ContainerV1.ReadyIdempotent(old(e.containers), s);
    }
    if text.Failure? {
      return Failure(text.error);
    }
    if text.value == "" {
      return Success([]);
    }
    match e.fs[DatabaseFile]
    case Database(els) => r := SnapshotV2.DecodeFrom(els, gen, 0);
    case _ => r := Failure(MalformedJson);
  }

  /** `save_database`: `file_write("db.json", json.dumps(...))`. */
  method SaveDatabase(e: Engine, s: Settings.Settings, xs: seq<Record>) returns (r: Outcome<Error>)
    modifies e`images, e`volumes, e`containers, e`fs, e`trace
    ensures ContainerV1.ShStatus(old(e.containers), e.paused, s).Fail? ==>
      r == ContainerV1.ShStatus(old(e.containers), e.paused, s) && e.fs == old(e.fs)
    ensures ContainerV1.ShStatus(old(e.containers), e.paused, s).Pass? ==>
      r == Pass && e.fs == old(e.fs)[DatabaseFile := Database(SnapshotV2.Encode(xs))]
    ensures e.containers == if ContainerV1.InitSucceeds(old(e.containers), s) then ContainerV1.Ready(old(e.containers), s) else old(e.containers)
  {
    var written := ContainerV1.Sh(e, s, WriteDatabase(SnapshotV2.Encode(xs)), "");
    if written.Failure? {
      return Fail(written.error);
    }
    r := Pass;
  }

  /**
   * The end of `snapshot_create`, after the copy: read the size of the copy, append
   * the record and save. Only an unreadable size fails.
   */
  method MeasureAndSave(e: Engine, s: Settings.Settings, stored: seq<Record>, chosen: string,
                        draw: Snapshot.Fresh, duOutput: string)
    returns (r: Result<Record, Error>)
    requires Initialized(e, s) && ContainerV1.ShStatus(e.containers, e.paused, s).Pass?
    modifies e`images, e`volumes, e`containers, e`fs, e`trace
    ensures e.containers == old(e.containers)
    ensures r.Success? <==> Container.SizeFromDiskUsage(duOutput).Success?
    ensures r.Success? ==>
      r.value == Snapshot.Snapshot(draw.uuid, chosen, Container.SizeFromDiskUsage(duOutput).value, 0, draw.created)
      && e.fs == old(e.fs)[DatabaseFile := Database(SnapshotV2.Encode(stored + [r.value]))]
    ensures r.Failure? ==> e.fs == old(e.fs)
  {
    var size := ContainerV1.DirectorySize(e, s, Snapshot.SnapshotPath(draw.uuid), duOutput);
    if size.Failure? {
      return Failure(size.error);
    }
    var snapshot := Snapshot.Snapshot(draw.uuid, chosen, size.value, 0, draw.created);
    var _ := SaveDatabase(e, s, stored + [snapshot]);
    r := Success(snapshot);
  }

  /**
   * `snapshot_create(name)`: a requested name already stored is refused before
   * anything is copied; otherwise the configured directory is copied to
   * /mnt/ds/<uuid> while the target keeps running, the size is read, and the record
   * is appended and saved. The bar ends at the furthest percentage plus 100.
   */
  method SnapshotCreate(e: Engine, s: Settings.Settings, name: Option<string>, draw: Snapshot.Fresh,
                        gen: nat -> Snapshot.Fresh, chunks: seq<string>, duOutput: string)
    returns (r: Result<Record, Error>, reports: seq<Progress.Report>)
    modifies e`images, e`volumes, e`containers, e`fs, e`trace
    ensures e.containers == if ContainerV1.InitSucceeds(old(e.containers), s) then ContainerV1.Ready(old(e.containers), s) else old(e.containers)
    ensures ContainerV1.ShStatus(old(e.containers), e.paused, s).Fail? ==>
      r == Failure(ContainerV1.ShStatus(old(e.containers), e.paused, s).error) && e.fs == old(e.fs)
    ensures (ContainerV1.ShStatus(old(e.containers), e.paused, s).Pass? && SnapshotV2.Stored(old(e.fs), gen).Success?
             && name.Some? && Snapshot.Named(SnapshotV2.Stored(old(e.fs), gen).value, name.value) != []) ==>
      r == Failure(AlreadyExists) && e.fs == old(e.fs)
    ensures r.Success? ==>
      SnapshotV2.Stored(old(e.fs), gen).Success?
      && (var stored := SnapshotV2.Stored(old(e.fs), gen).value;
          (name.Some? ==> Snapshot.Named(stored, name.value) == [])
          && Container.SizeFromDiskUsage(duOutput).Success?
          && r.value == Snapshot.Snapshot(draw.uuid, Snapshot.ChosenName(name, draw),
                                          Container.SizeFromDiskUsage(duOutput).value, 0, draw.created)
          && e.fs == Mirrored(old(e.fs), s.directory, Snapshot.SnapshotPath(draw.uuid))[DatabaseFile := Database(SnapshotV2.Encode(stored + [r.value]))]
          && Progress.Completed(reports) == Progress.Peak(chunks) + 100)
    ensures r.Success? <==>
      ContainerV1.ShStatus(old(e.containers), e.paused, s).Pass? && SnapshotV2.Stored(old(e.fs), gen).Success?
      && (name.Some? ==> Snapshot.Named(SnapshotV2.Stored(old(e.fs), gen).value, name.value) == [])
      && Container.SizeFromDiskUsage(duOutput).Success?
    ensures r.Failure? ==> SnapshotV2.Stored(e.fs, gen) == SnapshotV2.Stored(old(e.fs), gen)
  {
    reports := [];
    var stored := LoadDatabase(e, s, gen);
    if stored.Failure? {
      return Failure(stored.error), reports;
    }
    if name.Some? && Snapshot.Named(stored.value, name.value) != [] {
      return Failure(AlreadyExists), reports;
    }
    ghost var fs1 := e.fs;
    var chosen := Snapshot.ChosenName(name, draw);
    var path := Snapshot.SnapshotPath(draw.uuid);
    var copied;
    copied, reports := ContainerV1.Sync(e, s, s.directory, path, chunks);
    // the load has just passed through `init`, so the copy cannot be refused
    assert copied.Pass?;
    SnapshotV2.SnapshotDirectoriesAsideFromStore(fs1, s.directory, draw.uuid, gen);
    r := MeasureAndSave(e, s, stored.value, chosen, draw, duOutput);
  }

  /**
   * `snapshot_delete(name)`: the lookup errors come before any change; then the
   * snapshot's directory is removed and the records of other names are saved.
   */
  method SnapshotDelete(e: Engine, s: Settings.Settings, name: string, gen: nat -> Snapshot.Fresh) returns (r: Outcome<Error>)
    modifies e`images, e`volumes, e`containers, e`fs, e`trace
    ensures e.containers == if ContainerV1.InitSucceeds(old(e.containers), s) then ContainerV1.Ready(old(e.containers), s) else old(e.containers)
    ensures ContainerV1.ShStatus(old(e.containers), e.paused, s).Fail? ==>
      r == ContainerV1.ShStatus(old(e.containers), e.paused, s) && e.fs == old(e.fs)
    ensures ContainerV1.ShStatus(old(e.containers), e.paused, s).Pass? && SnapshotV2.Stored(old(e.fs), gen).Failure? ==>
      r == Fail(SnapshotV2.Stored(old(e.fs), gen).error) && e.fs == old(e.fs)
    ensures ContainerV1.ShStatus(old(e.containers), e.paused, s).Pass? && SnapshotV2.Stored(old(e.fs), gen).Success? ==>
      var stored := SnapshotV2.Stored(old(e.fs), gen).value;
      var found := Snapshot.Lookup(stored, name);
      (found.Failure? ==> r == Fail(found.error) && e.fs == old(e.fs))
      && (found.Success? ==>
        r == Pass
        && e.fs == (old(e.fs) - {Snapshot.Path(found.value)})[DatabaseFile := Database(SnapshotV2.Encode(Snapshot.Without(stored, name)))])
  {
    var before := LoadDatabase(e, s, gen);
    if before.Failure? {
      return Fail(before.error);
    }
    var found := Snapshot.Lookup(before.value, name);
    if found.Failure? {
      return Fail(found.error);
    }
    var after := Snapshot.Without(before.value, name);
    var _ := ContainerV1.Sh(e, s, RemoveTree(Snapshot.Path(found.value)), "");
    r := SaveDatabase(e, s, after);
  }

  /**
   * `snapshot_restore(name)` as written: after the load and the lookup it calls
   * `container.pause`, which the container module does not define, so every restore
   * that finds its snapshot ends in an attribute error and nothing is restored.
   */
  method RestoreAsWritten(e: Engine, s: Settings.Settings, name: string, gen: nat -> Snapshot.Fresh) returns (r: Outcome<Error>)
    modifies e`images, e`volumes, e`containers, e`fs, e`trace
    ensures r.Fail? && e.fs == old(e.fs)
    ensures ContainerV1.ShStatus(old(e.containers), e.paused, s).Fail? ==> r == ContainerV1.ShStatus(old(e.containers), e.paused, s)
    ensures ContainerV1.ShStatus(old(e.containers), e.paused, s).Pass? && SnapshotV2.Stored(old(e.fs), gen).Failure? ==>
      r == Fail(SnapshotV2.Stored(old(e.fs), gen).error)
    ensures ContainerV1.ShStatus(old(e.containers), e.paused, s).Pass? && SnapshotV2.Stored(old(e.fs), gen).Success? ==>
      var found := Snapshot.Lookup(SnapshotV2.Stored(old(e.fs), gen).value, name);
      r == if found.Failure? then Fail(found.error) else Fail(MissingModuleAttribute("pause"))
  {
    var before := LoadDatabase(e, s, gen);
    if before.Failure? {
      return Fail(before.error);
    }
    var found := Snapshot.Lookup(before.value, name);
    if found.Failure? {
      return Fail(found.error);
    }
    r := Fail(MissingModuleAttribute("pause"));
  }

  /**
   * The copy `snapshot_restore` evidently means to make: pause the target, empty the
   * configured directory, mirror `source` onto it, unpause the target. An error ends
   * the sequence where it happens, as an exception would; in particular a target that
   * is the helper itself stays paused and is never reached.
   */
  method PausedCopy(e: Engine, s: Settings.Settings, source: string, chunks: seq<string>)
    returns (r: Outcome<Error>, reports: seq<Progress.Report>)
    requires Initialized(e, s) && ContainerV1.ShStatus(e.containers, e.paused, s).Pass?
    modifies e`images, e`volumes, e`containers, e`paused, e`fs, e`trace
    ensures e.containers == old(e.containers)
    ensures !Container.Found(e.containers, s.containerName) ==>
      r == Fail(Container.NotFoundError(s.containerName)) && e.paused == old(e.paused) && e.fs == old(e.fs)
    ensures Container.Found(e.containers, s.containerName) && !(e.containers[s.containerName] && s.containerName !in old(e.paused)) ==>
      r == Fail(Conflict(s.containerName)) && e.paused == old(e.paused) && e.fs == old(e.fs)
    ensures Container.Found(e.containers, s.containerName) && e.containers[s.containerName] && s.containerName !in old(e.paused)
            && s.containerName == Container.GetContainerId(s.namespace) ==>
      r == Fail(ContainerPaused(s.containerName)) && e.paused == old(e.paused) + {s.containerName} && e.fs == old(e.fs)
    ensures Container.Found(e.containers, s.containerName) && e.containers[s.containerName] && s.containerName !in old(e.paused)
            && s.containerName != Container.GetContainerId(s.namespace) ==>
      r == Pass && e.paused == old(e.paused)
      && e.fs == Mirrored(old(e.fs) - {s.directory}, source, s.directory)
      && reports == Progress.Advances(chunks) + [Progress.Advance(100)]
      && e.trace == old(e.trace) + [Paused(s.containerName),
                                    Exec(Container.GetContainerId(s.namespace), RemoveTree(s.directory)),
                                    Exec(Container.GetContainerId(s.namespace), Mirror(source, s.directory)),
                                    Unpaused(s.containerName)]
  {
    reports := [];
    r := ContainerV1.Pause(e, s.containerName);
    if r.Fail? {
      return r, reports;
    }
    r, reports := ClearAndMirror(e, s, source, chunks);
    if r.Fail? {
      return r, reports;
    }
    r := ContainerV1.Unpause(e, s.containerName);
  }

  /** `directory_remove(directory)` then `sync(source, directory)`, both in the ready helper. */
  method ClearAndMirror(e: Engine, s: Settings.Settings, source: string, chunks: seq<string>)
    returns (r: Outcome<Error>, reports: seq<Progress.Report>)
    requires Initialized(e, s)
    modifies e`images, e`volumes, e`containers, e`fs, e`trace
    ensures e.containers == old(e.containers) && Initialized(e, s)
    ensures ContainerV1.ShStatus(e.containers, e.paused, s).Fail? ==>
      r == ContainerV1.ShStatus(e.containers, e.paused, s) && e.fs == old(e.fs)
    ensures ContainerV1.ShStatus(e.containers, e.paused, s).Pass? ==>
      r == Pass && e.fs == Mirrored(old(e.fs) - {s.directory}, source, s.directory)
      && reports == Progress.Advances(chunks) + [Progress.Advance(100)]
      && e.trace == old(e.trace) + [Exec(Container.GetContainerId(s.namespace), RemoveTree(s.directory)),
                                    Exec(Container.GetContainerId(s.namespace), Mirror(source, s.directory))]
  {
    reports := [];
    var removed := ContainerV1.Sh(e, s, RemoveTree(s.directory), "");
    if removed.Failure? {
      return Fail(removed.error), reports;
    }
    r, reports := ContainerV1.Sync(e, s, source, s.directory, chunks);
  }

  /**
   * `snapshot_restore(name)` with the pause it evidently intends: the lookup errors
   * come before the target is touched; a restore that succeeds leaves the configured
   * directory equal to the snapshot's copy and the target unpaused, and never writes
   * the store.
   */
  method SnapshotRestore(e: Engine, s: Settings.Settings, name: string, gen: nat -> Snapshot.Fresh, chunks: seq<string>)
    returns (r: Outcome<Error>, reports: seq<Progress.Report>)
    modifies e`images, e`volumes, e`containers, e`paused, e`fs, e`trace
    ensures e.containers == if ContainerV1.InitSucceeds(old(e.containers), s) then ContainerV1.Ready(old(e.containers), s) else old(e.containers)
    ensures ContainerV1.ShStatus(old(e.containers), old(e.paused), s).Fail? ==>
      r == ContainerV1.ShStatus(old(e.containers), old(e.paused), s) && e.fs == old(e.fs) && e.paused == old(e.paused)
    ensures (ContainerV1.ShStatus(old(e.containers), old(e.paused), s).Pass? && SnapshotV2.Stored(old(e.fs), gen).Success?
             && Snapshot.Lookup(SnapshotV2.Stored(old(e.fs), gen).value, name).Failure?) ==>
      r == Fail(Snapshot.Lookup(SnapshotV2.Stored(old(e.fs), gen).value, name).error)
      && e.fs == old(e.fs) && e.paused == old(e.paused)
    ensures (ContainerV1.ShStatus(old(e.containers), old(e.paused), s).Pass? && SnapshotV2.Stored(old(e.fs), gen).Success?
             && Snapshot.Lookup(SnapshotV2.Stored(old(e.fs), gen).value, name).Success?
             && Container.Found(old(e.containers), s.containerName) && old(e.containers)[s.containerName]
             && s.containerName !in old(e.paused) && s.containerName != Container.GetContainerId(s.namespace)) ==>
      r.Pass?
    ensures r.Pass? ==>
      SnapshotV2.Stored(old(e.fs), gen).Success? && Snapshot.Lookup(SnapshotV2.Stored(old(e.fs), gen).value, name).Success?
      && e.fs == Mirrored(old(e.fs) - {s.directory},
                          Snapshot.Path(Snapshot.Lookup(SnapshotV2.Stored(old(e.fs), gen).value, name).value), s.directory)
      && e.paused == old(e.paused)
      && Progress.Completed(reports) == Progress.Peak(chunks) + 100
  {
    reports := [];
    var before := LoadDatabase(e, s, gen);
    if before.Failure? {
      return Fail(before.error), reports;
    }
    var found := Snapshot.Lookup(before.value, name);
    if found.Failure? {
      return Fail(found.error), reports;
    }
    r, reports := PausedCopy(e, s, Snapshot.Path(found.value), chunks);
    if r.Pass? {
      Progress.BarOvershoots(chunks);
    }
  }
}
