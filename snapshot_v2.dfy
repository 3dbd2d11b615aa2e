/**
 * The snapshot store of the intermediate revision (the docker_snapshot package).
 * Its records have no file count; they are kept here as the current revision's
 * records with a file count of 0, and their documents carry no file_count key.
 * Records are built with `Snapshot(**data)`, whose `__post_init__` draws a uuid,
 * a name and a timestamp for whichever of those is falsy.
 */
module SnapshotV2 {
  import opened Wrappers
  import opened Errors
  import opened Docker
  import Container
  import Snapshot
  import ContainerV2
  import Settings
  import Progress

  type Record = Snapshot.Snapshot

  /** A record this revision can hold: it has no file count. */
  predicate Plain(s: Record) {
    s.fileCount == 0
  }

  /** `Snapshot(**data)` with its `__post_init__`. */
  function FromElement(element: Element, draw: Snapshot.Fresh): (r: Result<Record, Error>)
    ensures element.NotAnObject? ==> r == Failure(NotAMapping)
    ensures element.Record? && element.fileCount.Some? ==> r == Failure(UnexpectedKeyword("file_count"))
    ensures r.Success? ==> Plain(r.value) && r.value.size == element.size
    ensures r.Success? && Snapshot.Drawn(draw) ==> Snapshot.Complete(r.value)
  {
    match element
    case NotAnObject => Failure(NotAMapping)
    case Record(uuid, name, size, fileCount, created) =>
      if fileCount.Some? then Failure(UnexpectedKeyword("file_count"))
      else Success(Snapshot.Snapshot(
        if uuid != "" then uuid else draw.uuid,
        if name != "" then name else draw.name,
        size,
        0,
        if created != 0 then created else draw.created))
  }

  /** `dataclasses.asdict` of this revision's record: no file_count key. */
  function ToElement(s: Record): Element {
    Record(s.uuid, s.name, s.size, None, s.created)
  }

  /**
   * The list `save_database` serialises: one object per record, without a file count,
   * from which a complete record is rebuilt whatever is drawn.
   */
  function Encode(xs: seq<Record>): (els: seq<Element>)
    ensures |els| == |xs|
    ensures forall i :: 0 <= i < |xs| ==> els[i].Record? && els[i].fileCount.None?
    ensures forall i, draw :: 0 <= i < |xs| && Snapshot.Complete(xs[i]) && Plain(xs[i]) ==>
      FromElement(els[i], draw) == Success(xs[i])
  {
    seq(|xs|, i requires 0 <= i < |xs| => ToElement(xs[i]))
  }

  /**
   * `list(map(lambda d: Snapshot(**d), elements))` from element `k` on: the first
   * element that cannot be built raises, and element i draws from `gen(i)`.
   */
  function DecodeFrom(els: seq<Element>, gen: nat -> Snapshot.Fresh, k: nat): (r: Result<seq<Record>, Error>)
    requires k <= |els|
    ensures r.Success? ==> |r.value| == |els| - k
    ensures r.Success? ==> forall i :: k <= i < |els| ==> FromElement(els[i], gen(i)) == Success(r.value[i - k])
    ensures r.Failure? ==> exists i :: k <= i < |els| && FromElement(els[i], gen(i)).Failure?
    decreases |els| - k
  {
    if k == |els| then Success([])
    else match FromElement(els[k], gen(k))
      case Failure(error) => Failure(error)
      case Success(x) =>
        match DecodeFrom(els, gen, k + 1)
        case Failure(error) => Failure(error)
        case Success(rest) => Success([x] + rest)
  }

  /** `load_database` on the helper's files: nothing printed is an empty store. */
  function Stored(fs: map<string, Node>, gen: nat -> Snapshot.Fresh): Result<seq<Record>, Error> {
    if TextAt(fs, DatabaseFile) == "" then Success([])
    else match fs[DatabaseFile]
      case Database(els) => DecodeFrom(els, gen, 0)
      case _ => Failure(MalformedJson)
  }

  /** A document written by the current revision, which records file counts, cannot be loaded. */
  lemma CurrentDocumentRefused(fs: map<string, Node>, xs: seq<Snapshot.Snapshot>, gen: nat -> Snapshot.Fresh)
    requires xs != []
    ensures Stored(Effect(fs, WriteDatabase(Snapshot.Encode(xs))), gen).Failure?
  {
    var els := Snapshot.Encode(xs);
    var fs' := Effect(fs, WriteDatabase(els));
    assert TextAt(fs', DatabaseFile) == DocumentText;
    assert FromElement(els[0], gen(0)).Failure?;
  }

  /**
   * Saving and loading gives the list back exactly when every record has a truthy
   * uuid, name and timestamp and no file count.
   */
  lemma SaveLoadRoundTrip(fs: map<string, Node>, xs: seq<Record>, gen: nat -> Snapshot.Fresh)
    requires forall i: nat :: Snapshot.Drawn(gen(i))
    ensures Stored(Effect(fs, WriteDatabase(Encode(xs))), gen) == Success(xs)
      <==> forall i :: 0 <= i < |xs| ==> Snapshot.Complete(xs[i]) && Plain(xs[i])
  {
    var els := Encode(xs);
    var fs' := Effect(fs, WriteDatabase(els));
    assert TextAt(fs', DatabaseFile) == DocumentText;
    if forall i :: 0 <= i < |xs| ==> Snapshot.Complete(xs[i]) && Plain(xs[i]) {
      DecodeExact(els, xs, gen, 0);
    } else {
      var i :| 0 <= i < |xs| && !(Snapshot.Complete(xs[i]) && Plain(xs[i]));
      var r := DecodeFrom(els, gen, 0);
      if r.Success? {
        assert FromElement(els[i], gen(i)) == Success(r.value[i]);
        assert r.value[i] != xs[i];
      }
    }
  }

  lemma {:induction false} DecodeExact(els: seq<Element>, xs: seq<Record>, gen: nat -> Snapshot.Fresh, k: nat)
    requires k <= |xs| && els == Encode(xs)
    requires forall i :: 0 <= i < |xs| ==> Snapshot.Complete(xs[i]) && Plain(xs[i])
    ensures DecodeFrom(els, gen, k) == Success(xs[k..])
    decreases |xs| - k
  {
    if k < |xs| {
      DecodeExact(els, xs, gen, k + 1);
      assert FromElement(els[k], gen(k)) == Success(xs[k]);
      assert [xs[k]] + xs[k + 1..] == xs[k..];
    } else {
      assert |els| == |xs| && xs[k..] == [];
    }
  }

  /** Every record a load yields is complete and plain, since drawn values are never falsy. */
  lemma StoredRecordsComplete(fs: map<string, Node>, gen: nat -> Snapshot.Fresh)
    requires forall i: nat :: Snapshot.Drawn(gen(i))
    requires Stored(fs, gen).Success?
    ensures forall k :: 0 <= k < |Stored(fs, gen).value| ==>
      Snapshot.Complete(Stored(fs, gen).value[k]) && Plain(Stored(fs, gen).value[k])
  {
    if TextAt(fs, DatabaseFile) != "" {
      var els := fs[DatabaseFile].elements;
      forall k | 0 <= k < |Stored(fs, gen).value|
        ensures Snapshot.Complete(Stored(fs, gen).value[k]) && Plain(Stored(fs, gen).value[k])
      {
        assert FromElement(els[k], gen(k)) == Success(Stored(fs, gen).value[k]);
      }
    }
  }

  /** Copying into, or removing, a snapshot directory leaves the store as it was. */
  lemma SnapshotDirectoriesAsideFromStore(fs: map<string, Node>, source: string, uuid: string, gen: nat -> Snapshot.Fresh)
    ensures Stored(Mirrored(fs, source, Snapshot.SnapshotPath(uuid)), gen) == Stored(fs, gen)
    ensures Stored(fs - {Snapshot.SnapshotPath(uuid)}, gen) == Stored(fs, gen)
  {
    Snapshot.PathsDistinct(uuid, uuid);
    var copied := Mirrored(fs, source, Snapshot.SnapshotPath(uuid));
    var removed := fs - {Snapshot.SnapshotPath(uuid)};
    assert DatabaseFile in copied <==> DatabaseFile in fs;
    assert DatabaseFile in removed <==> DatabaseFile in fs;
    if DatabaseFile in fs {
      assert copied[DatabaseFile] == fs[DatabaseFile];
      assert removed[DatabaseFile] == fs[DatabaseFile];
    }
  }

  /** `load_database`. */
  method LoadDatabase(e: Engine, gen: nat -> Snapshot.Fresh) returns (r: Result<seq<Record>, Error>)
    modifies e`fs, e`trace
    ensures e.fs == old(e.fs)
    ensures ContainerV2.ShStatus(e.helper, e.containers, e.paused).Fail? ==>
      r == Failure(ContainerV2.ShStatus(e.helper, e.containers, e.paused).error) && e.trace == old(e.trace)
    ensures ContainerV2.ShStatus(e.helper, e.containers, e.paused).Pass? ==>
      r == Stored(e.fs, gen) && e.trace == old(e.trace) + [Exec(e.helper.value, Cat(DatabaseFile))]
  {
    var text := ContainerV2.Sh(e, Cat(DatabaseFile), "");
    if text.Failure? {
      return Failure(text.error);
    }
    if text.value == "" {
      return Success([]);
    }
    match e.fs[DatabaseFile]
    case Database(els) => r := DecodeFrom(els, gen, 0);
    case _ => r := Failure(MalformedJson);
  }

  /** `save_database`: `file_write("db.json", json.dumps(...))`. */
  method SaveDatabase(e: Engine, xs: seq<Record>) returns (r: Outcome<Error>)
    modifies e`fs, e`trace
    ensures ContainerV2.ShStatus(e.helper, e.containers, e.paused).Fail? ==>
      r == ContainerV2.ShStatus(e.helper, e.containers, e.paused) && e.fs == old(e.fs) && e.trace == old(e.trace)
    ensures ContainerV2.ShStatus(e.helper, e.containers, e.paused).Pass? ==>
      r == Pass && e.fs == old(e.fs)[DatabaseFile := Database(Encode(xs))]
      && e.trace == old(e.trace) + [Exec(e.helper.value, WriteDatabase(Encode(xs)))]
  {
    var written := ContainerV2.Sh(e, WriteDatabase(Encode(xs)), "");
    if written.Failure? {
      return Fail(written.error);
    }
    r := Pass;
  }

  /**
   * The end of `snapshot_create`, after the frozen copy: read the size of the copy,
   * append the record and save. Only an unreadable size fails.
   */
  method MeasureAndSave(e: Engine, stored: seq<Record>, chosen: string, draw: Snapshot.Fresh, duOutput: string)
    returns (r: Result<Record, Error>)
    requires ContainerV2.ShStatus(e.helper, e.containers, e.paused).Pass?
    modifies e`fs, e`trace
    ensures r.Success? <==> Container.SizeFromDiskUsage(duOutput).Success?
    ensures r.Success? ==>
      r.value == Snapshot.Snapshot(draw.uuid, chosen, Container.SizeFromDiskUsage(duOutput).value, 0, draw.created)
      && e.fs == old(e.fs)[DatabaseFile := Database(Encode(stored + [r.value]))]
    ensures r.Failure? ==> e.fs == old(e.fs)
  {
    var path := Snapshot.SnapshotPath(draw.uuid);
    var size := ContainerV2.DirectorySize(e, path, duOutput);
    if size.Failure? {
      return Failure(size.error);
    }
    var snapshot := Snapshot.Snapshot(draw.uuid, chosen, size.value, 0, draw.created);
    var _ := SaveDatabase(e, stored + [snapshot]);
    r := Success(snapshot);
  }

  /**
   * `snapshot_create(name)`: a requested name already stored is refused before the
   * record is built or anything is copied; otherwise the target is frozen around the
   * copy to /mnt/ds/<uuid>, the size is read, and the record is appended and saved.
   * A missing or empty name is drawn and not checked. No file count is recorded.
   */
  method SnapshotCreate(e: Engine, s: Settings.Settings, name: Option<string>, draw: Snapshot.Fresh,
                        gen: nat -> Snapshot.Fresh, chunks: seq<string>, duOutput: string)
    returns (r: Result<Record, Error>, reports: seq<Progress.Report>)
    modifies e`containers, e`paused, e`fs, e`trace
    ensures ContainerV2.ShStatus(old(e.helper), old(e.containers), old(e.paused)).Fail? ==>
      r == Failure(ContainerV2.ShStatus(old(e.helper), old(e.containers), old(e.paused)).error)
      && e.fs == old(e.fs) && e.containers == old(e.containers)
    ensures (ContainerV2.ShStatus(old(e.helper), old(e.containers), old(e.paused)).Pass? && Stored(old(e.fs), gen).Success?
             && name.Some? && Snapshot.Named(Stored(old(e.fs), gen).value, name.value) != []) ==>
      r == Failure(AlreadyExists) && e.fs == old(e.fs) && e.containers == old(e.containers)
    ensures r.Success? ==>
      Stored(old(e.fs), gen).Success?
      && (var stored := Stored(old(e.fs), gen).value;
          (name.Some? ==> Snapshot.Named(stored, name.value) == [])
          && Container.SizeFromDiskUsage(duOutput).Success?
          && r.value == Snapshot.Snapshot(draw.uuid, Snapshot.ChosenName(name, draw),
                                          Container.SizeFromDiskUsage(duOutput).value, 0, draw.created)
          && e.fs == Mirrored(old(e.fs), s.directory, Snapshot.SnapshotPath(draw.uuid))[DatabaseFile := Database(Encode(stored + [r.value]))]
          && e.containers == old(e.containers)[s.containerName := true])
    ensures r.Success? <==>
      ContainerV2.ShStatus(e.helper, old(e.containers), old(e.paused)).Pass? && Stored(old(e.fs), gen).Success?
      && (name.Some? ==> Snapshot.Named(Stored(old(e.fs), gen).value, name.value) == [])
      && Container.Found(old(e.containers), s.containerName) && s.containerName != e.helper.value
      && Container.SizeFromDiskUsage(duOutput).Success?
    ensures r.Failure? ==> Stored(e.fs, gen) == Stored(old(e.fs), gen)
  {
    reports := [];
    var stored := LoadDatabase(e, gen);
    if stored.Failure? {
      return Failure(stored.error), reports;
    }
    if name.Some? && Snapshot.Named(stored.value, name.value) != [] {
      return Failure(AlreadyExists), reports;
    }
    ghost var fs1 := e.fs;
    var chosen := Snapshot.ChosenName(name, draw);
    var path := Snapshot.SnapshotPath(draw.uuid);
    var copied;
    copied, reports := ContainerV2.FrozenSync(e, s, s.directory, path, chunks);
    SnapshotDirectoriesAsideFromStore(fs1, s.directory, draw.uuid, gen);
    if copied.Fail? {
      return Failure(copied.error), reports;
    }
    r := MeasureAndSave(e, stored.value, chosen, draw, duOutput);
  }

  /**
   * `snapshot_delete(name)`: the lookup errors come before any change; then the
   * snapshot's directory is removed and the records of other names are saved.
   */
  method SnapshotDelete(e: Engine, name: string, gen: nat -> Snapshot.Fresh) returns (r: Outcome<Error>)
    modifies e`fs, e`trace
    ensures ContainerV2.ShStatus(e.helper, e.containers, e.paused).Fail? ==>
      r == ContainerV2.ShStatus(e.helper, e.containers, e.paused) && e.fs == old(e.fs)
    ensures ContainerV2.ShStatus(e.helper, e.containers, e.paused).Pass? && Stored(old(e.fs), gen).Failure? ==>
      r == Fail(Stored(old(e.fs), gen).error) && e.fs == old(e.fs)
    ensures ContainerV2.ShStatus(e.helper, e.containers, e.paused).Pass? && Stored(old(e.fs), gen).Success? ==>
      var stored := Stored(old(e.fs), gen).value;
      var found := Snapshot.Lookup(stored, name);
      (found.Failure? ==> r == Fail(found.error) && e.fs == old(e.fs))
      && (found.Success? ==>
        r == Pass
        && e.fs == (old(e.fs) - {Snapshot.Path(found.value)})[DatabaseFile := Database(Encode(Snapshot.Without(stored, name)))]
        && e.trace == old(e.trace) + [Exec(e.helper.value, Cat(DatabaseFile)),
                                      Exec(e.helper.value, RemoveTree(Snapshot.Path(found.value))),
                                      Exec(e.helper.value, WriteDatabase(Encode(Snapshot.Without(stored, name))))])
  {
    var before := LoadDatabase(e, gen);
    if before.Failure? {
      return Fail(before.error);
    }
    var found := Snapshot.Lookup(before.value, name);
    if found.Failure? {
      return Fail(found.error);
    }
    var after := Snapshot.Without(before.value, name);
    var _ := ContainerV2.Sh(e, RemoveTree(Snapshot.Path(found.value)), "");
    r := SaveDatabase(e, after);
  }

  /**
   * `snapshot_restore(name)`: the lookup errors come before the freeze; then the
   * snapshot's directory is mirrored onto the configured directory with the target
   * frozen. The store is never written.
   */
  method SnapshotRestore(e: Engine, s: Settings.Settings, name: string, gen: nat -> Snapshot.Fresh, chunks: seq<string>)
    returns (r: Outcome<Error>, reports: seq<Progress.Report>)
    modifies e`containers, e`paused, e`fs, e`trace
    ensures ContainerV2.ShStatus(old(e.helper), old(e.containers), old(e.paused)).Fail? ==>
      r == ContainerV2.ShStatus(old(e.helper), old(e.containers), old(e.paused))
      && e.fs == old(e.fs) && e.containers == old(e.containers)
    ensures (ContainerV2.ShStatus(old(e.helper), old(e.containers), old(e.paused)).Pass? && Stored(old(e.fs), gen).Success?
             && Snapshot.Lookup(Stored(old(e.fs), gen).value, name).Failure?) ==>
      r == Fail(Snapshot.Lookup(Stored(old(e.fs), gen).value, name).error)
      && e.fs == old(e.fs) && e.containers == old(e.containers)
    ensures r.Pass? ==>
      Stored(old(e.fs), gen).Success? && Snapshot.Lookup(Stored(old(e.fs), gen).value, name).Success?
      && e.fs == Mirrored(old(e.fs), Snapshot.Path(Snapshot.Lookup(Stored(old(e.fs), gen).value, name).value), s.directory)
      && e.containers == old(e.containers)[s.containerName := true]
    ensures r.Pass? <==>
      ContainerV2.ShStatus(e.helper, old(e.containers), old(e.paused)).Pass? && Stored(old(e.fs), gen).Success?
      && Snapshot.Lookup(Stored(old(e.fs), gen).value, name).Success?
      && Container.Found(old(e.containers), s.containerName) && s.containerName != e.helper.value
    ensures r.Fail? ==> e.fs == old(e.fs)
    ensures |old(e.trace)| <= |e.trace| && e.trace[..|old(e.trace)|] == old(e.trace)
    ensures forall c :: c in e.trace[|old(e.trace)|..] ==> !(c.Exec? && c.command.WriteDatabase?)
  {
    reports := [];
    var before := LoadDatabase(e, gen);
    if before.Failure? {
      return Fail(before.error), reports;
    }
    var found := Snapshot.Lookup(before.value, name);
    if found.Failure? {
      return Fail(found.error), reports;
    }
    r, reports := ContainerV2.FrozenSync(e, s, Snapshot.Path(found.value), s.directory, chunks);
  }
}
