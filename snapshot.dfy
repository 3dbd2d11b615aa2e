/**
 * The snapshot store of the current revision: an ordered list of records kept as a
 * JSON array in db.json inside the helper, each record's copy kept under
 * /mnt/ds/<uuid>, and the create, delete, restore and present-stats operations.
 */
module Snapshot {
  import opened Wrappers
  import opened Errors
  import opened Docker
  import opened Text
  import opened Container
  import Progress

  /** Values drawn afresh: `uuid4()`, a readable random name, the current time. */
  datatype Fresh = Fresh(uuid: string, name: string, created: int)

  /** Drawn values are never falsy. */
  predicate Drawn(f: Fresh) {
    f.uuid != "" && f.name != "" && f.created != 0
  }

  /** The dataclass `Snapshot`. */
  datatype Snapshot = Snapshot(uuid: string, name: string, size: int, fileCount: int, created: int)

  /** A record that `_create_snapshot` would keep field for field: none of the defaulted fields is falsy. */
  predicate Complete(s: Snapshot) {
    s.uuid != "" && s.name != "" && s.created != 0
  }

  /** `_get_snapshot_path`. */
  function SnapshotPath(suffix: string): (p: string)
    ensures StartsWith(p, HelperBasePath + "/") && p[|HelperBasePath| + 1..] == suffix
  {
    HelperBasePath + "/" + suffix
  }

  /** The `path` property: recomputed from the uuid, never stored. */
  function Path(s: Snapshot): string {
    SnapshotPath(s.uuid)
  }

  /** Distinct uuids give distinct directories, none of which is the metadata document. */
  lemma PathsDistinct(a: string, b: string)
    ensures SnapshotPath(a) == SnapshotPath(b) <==> a == b
    ensures SnapshotPath(a) != DatabaseFile
  {
    var n := |HelperBasePath| + 1;
    assert SnapshotPath(a)[n..] == a && SnapshotPath(b)[n..] == b;
    assert SnapshotPath(a)[0] == '/' != DatabaseFile[0];
  }

  /**
   * `_create_snapshot(**element)`: falsy fields are dropped and take their defaults,
   * drawn afresh for uuid, name and created, 0 for size and file count.
   */
  function FromElement(element: Element, draw: Fresh): (r: Result<Snapshot, Error>)
    ensures r.Failure? <==> element.NotAnObject?
    ensures r.Failure? ==> r.error == ExpectedDict
    ensures Drawn(draw) && r.Success? ==> Complete(r.value)
  {
    match element
    case NotAnObject => Failure(ExpectedDict)
    case Record(uuid, name, size, fileCount, created) =>
      Success(Snapshot(
        if uuid != "" then uuid else draw.uuid,
        if name != "" then name else draw.name,
        size,
        fileCount.GetOr(0),
        if created != 0 then created else draw.created))
  }

  /** `dataclasses.asdict`. */
  function ToElement(s: Snapshot): Element {
    Record(s.uuid, s.name, s.size, Some(s.fileCount), s.created)
  }

  /**
   * The list `save_database` serialises: one object per record, from which a complete
   * record is rebuilt whatever is drawn.
   */
  function Encode(xs: seq<Snapshot>): (els: seq<Element>)
    ensures |els| == |xs|
    ensures forall i :: 0 <= i < |xs| ==> els[i].Record?
    ensures forall i, draw :: 0 <= i < |xs| && Complete(xs[i]) ==> FromElement(els[i], draw) == Success(xs[i])
  {
    seq(|xs|, i requires 0 <= i < |xs| => ToElement(xs[i]))
  }

  /** `list(map(_transform, elements))`: element i draws its defaults from `gen(i)`. */
  function Decode(els: seq<Element>, gen: nat -> Fresh): Result<seq<Snapshot>, Error> {
    if exists i :: 0 <= i < |els| && els[i].NotAnObject? then Failure(ExpectedDict)
    else Success(seq(|els|, i requires 0 <= i < |els| => FromElement(els[i], gen(i)).value))
  }

  /** What `load_database` makes of the helper's files: nothing printed is an empty store. */
  function Stored(fs: map<string, Node>, gen: nat -> Fresh): Result<seq<Snapshot>, Error> {
    if TextAt(fs, DatabaseFile) == "" then Success([])
    else match fs[DatabaseFile]
      case Database(els) => Decode(els, gen)
      case _ => Failure(MalformedJson)
  }

  /**
   * Saving and loading gives the list back exactly when every record is complete:
   * a falsy uuid, name or timestamp is replaced by a drawn one.
   */
  lemma SaveLoadRoundTrip(fs: map<string, Node>, xs: seq<Snapshot>, gen: nat -> Fresh)
    requires forall i: nat :: Drawn(gen(i))
    ensures Stored(Effect(fs, WriteDatabase(Encode(xs))), gen) == Success(xs)
      <==> forall i :: 0 <= i < |xs| ==> Complete(xs[i])
  {
    var fs' := Effect(fs, WriteDatabase(Encode(xs)));
    assert TextAt(fs', DatabaseFile) == DocumentText;
    var r := Decode(Encode(xs), gen);
    assert r.Success?;
    if forall i :: 0 <= i < |xs| ==> Complete(xs[i]) {
      forall i | 0 <= i < |xs|
        ensures r.value[i] == xs[i]
      {
        assert FromElement(ToElement(xs[i]), gen(i)) == Success(xs[i]);
      }
      assert r.value == xs;
    } else {
      var i :| 0 <= i < |xs| && !Complete(xs[i]);
      assert Complete(r.value[i]);
    }
  }

  /** No stored object has a falsy uuid, name or timestamp, so a load draws nothing it keeps. */
  predicate Settled(fs: map<string, Node>) {
    DatabaseFile in fs && fs[DatabaseFile].Database? ==>
      forall k :: 0 <= k < |fs[DatabaseFile].elements| ==> SettledElement(fs[DatabaseFile].elements[k])
  }

  predicate SettledElement(element: Element) {
    element.Record? ==> element.uuid != "" && element.name != "" && element.created != 0
  }

  /**
   * Every load draws its defaults afresh. Whether it succeeds, and how it fails, does
   * not depend on the draws; what it yields does not either once the store is settled.
   */
  lemma StoredDrawsNothing(fs: map<string, Node>, gen1: nat -> Fresh, gen2: nat -> Fresh)
    ensures Stored(fs, gen1).Success? <==> Stored(fs, gen2).Success?
    ensures Stored(fs, gen1).Failure? ==> Stored(fs, gen1) == Stored(fs, gen2)
    ensures Settled(fs) ==> Stored(fs, gen1) == Stored(fs, gen2)
  {
    if TextAt(fs, DatabaseFile) != "" && fs[DatabaseFile].Database? && Settled(fs) {
      var els := fs[DatabaseFile].elements;
      if Decode(els, gen1).Success? {
        var a, b := Decode(els, gen1).value, Decode(els, gen2).value;
        forall k | 0 <= k < |els|
          ensures a[k] == b[k]
        {
          assert SettledElement(els[k]);
          assert a[k] == FromElement(els[k], gen1(k)).value && b[k] == FromElement(els[k], gen2(k)).value;
        }
        assert a == b;
      }
    }
  }

  /** A load with one draw can differ from a load with another while the store is not settled. */
  lemma UnsettledLoadsDiffer(uuid: string, gen1: nat -> Fresh, gen2: nat -> Fresh)
    requires gen1(0).name != gen2(0).name
    ensures var fs := map[DatabaseFile := Database([Record(uuid, "", 0, None, 1)])];
      !Settled(fs) && Stored(fs, gen1) != Stored(fs, gen2)
  {
    var els := [Record(uuid, "", 0, None, 1)];
    var fs := map[DatabaseFile := Database(els)];
    assert !SettledElement(fs[DatabaseFile].elements[0]);
    assert TextAt(fs, DatabaseFile) == DocumentText != "";
    assert Decode(els, gen1).value[0] == FromElement(els[0], gen1(0)).value;
    assert Decode(els, gen2).value[0] == FromElement(els[0], gen2(0)).value;
  }

  /** A saved list of complete records is settled: every later load yields it whatever is drawn. */
  lemma SavedCompleteIsSettled(fs: map<string, Node>, xs: seq<Snapshot>)
    requires forall i :: 0 <= i < |xs| ==> Complete(xs[i])
    ensures Settled(fs[DatabaseFile := Database(Encode(xs))])
  {
    var els := Encode(xs);
    forall k | 0 <= k < |els|
      ensures SettledElement(els[k])
    {
      assert Complete(xs[k]);
    }
  }

  /** An empty or absent db.json, or one that is a directory, loads as the empty store. */
  lemma NothingPrintedIsEmptyStore(fs: map<string, Node>, gen: nat -> Fresh)
    requires DatabaseFile !in fs || fs[DatabaseFile] == File("") || fs[DatabaseFile].Directory?
    ensures Stored(fs, gen) == Success([])
  {
  }

  /** Copying into, or removing, a snapshot directory leaves the store as it was. */
  lemma SnapshotDirectoriesAsideFromStore(fs: map<string, Node>, source: string, uuid: string, gen: nat -> Fresh)
    ensures Stored(Mirrored(fs, source, SnapshotPath(uuid)), gen) == Stored(fs, gen)
    ensures Stored(fs - {SnapshotPath(uuid)}, gen) == Stored(fs, gen)
  {
    PathsDistinct(uuid, uuid);
    var copied := Mirrored(fs, source, SnapshotPath(uuid));
    var removed := fs - {SnapshotPath(uuid)};
    assert DatabaseFile in copied <==> DatabaseFile in fs;
    assert DatabaseFile in removed <==> DatabaseFile in fs;
    if DatabaseFile in fs {
      assert copied[DatabaseFile] == fs[DatabaseFile];
      assert removed[DatabaseFile] == fs[DatabaseFile];
    }
  }

  /** The records of that name, in store order. */
  function Named(xs: seq<Snapshot>, name: string): (r: seq<Snapshot>)
    ensures |r| <= |xs|
  {
    if xs == [] then []
    else (if xs[0].name == name then [xs[0]] else []) + Named(xs[1..], name)
  }

  /** The records of any other name, in store order: what delete saves. */
  function Without(xs: seq<Snapshot>, name: string): (r: seq<Snapshot>)
    ensures |r| <= |xs|
  {
    if xs == [] then []
    else (if xs[0].name != name then [xs[0]] else []) + Without(xs[1..], name)
  }

  /** Exactly the records of that name are kept. */
  lemma {:induction false} NamedMembers(xs: seq<Snapshot>, name: string)
    ensures forall s :: s in Named(xs, name) <==> s in xs && s.name == name
  {
    if xs != [] {
      NamedMembers(xs[1..], name);
      assert xs == [xs[0]] + xs[1..];
    }
  }

  /** Exactly the records of any other name are kept. */
  lemma {:induction false} WithoutMembers(xs: seq<Snapshot>, name: string)
    ensures forall s :: s in Without(xs, name) <==> s in xs && s.name != name
  {
    if xs != [] {
      WithoutMembers(xs[1..], name);
      assert xs == [xs[0]] + xs[1..];
    }
  }

  /** Filtering by name splits the store in two: nothing is lost, nothing duplicated. */
  lemma {:induction false} NamedWithoutPartition(xs: seq<Snapshot>, name: string)
    ensures multiset(Named(xs, name)) + multiset(Without(xs, name)) == multiset(xs)
    ensures |Named(xs, name)| + |Without(xs, name)| == |xs|
  {
    if xs != [] {
      NamedWithoutPartition(xs[1..], name);
      assert xs == [xs[0]] + xs[1..];
    }
  }

  /** Filtering keeps the store's order: it distributes over concatenation. */
  lemma {:induction false} NamedKeepsOrder(a: seq<Snapshot>, b: seq<Snapshot>, name: string)
    ensures Named(a + b, name) == Named(a, name) + Named(b, name)
  {
    if a == [] {
      assert a + b == b;
    } else {
      var c := a + b;
      assert c[0] == a[0] && c[1..] == a[1..] + b;
      NamedKeepsOrder(a[1..], b, name);
      var head := if a[0].name == name then [a[0]] else [];
      assert Named(c, name) == head + Named(a[1..] + b, name);
      assert Named(a, name) == head + Named(a[1..], name);
    }
  }

  /** The same for the records delete keeps. */
  lemma {:induction false} WithoutKeepsOrder(a: seq<Snapshot>, b: seq<Snapshot>, name: string)
    ensures Without(a + b, name) == Without(a, name) + Without(b, name)
  {
    if a == [] {
      assert a + b == b;
    } else {
      var c := a + b;
      assert c[0] == a[0] && c[1..] == a[1..] + b;
      WithoutKeepsOrder(a[1..], b, name);
      var head := if a[0].name != name then [a[0]] else [];
      assert Without(c, name) == head + Without(a[1..] + b, name);
      assert Without(a, name) == head + Without(a[1..], name);
    }
  }

  predicate UniqueNames(xs: seq<Snapshot>) {
    forall i, j :: 0 <= i < j < |xs| ==> xs[i].name != xs[j].name
  }

  /** Without a record of that name, nothing is selected. */
  lemma {:induction false} NoneNamed(xs: seq<Snapshot>, name: string)
    requires forall s :: s in xs ==> s.name != name
    ensures Named(xs, name) == []
  {
    if xs != [] {
      assert xs[0] in xs;
      assert forall s :: s in xs[1..] ==> s in xs;
      NoneNamed(xs[1..], name);
    }
  }

  /** In a store with unique names at most one record carries a name. */
  lemma {:induction false} UniqueNamesNamedAtMostOne(xs: seq<Snapshot>, name: string)
    requires UniqueNames(xs)
    ensures |Named(xs, name)| <= 1
  {
    if xs != [] {
      UniqueNamesNamedAtMostOne(xs[1..], name);
      if xs[0].name == name {
        forall s | s in xs[1..]
          ensures s.name != name
        {
          var k :| 0 <= k < |xs[1..]| && xs[1..][k] == s;
          assert xs[k + 1] == s;
        }
        NoneNamed(xs[1..], name);
      }
    }
  }

  /** Without a record of that name, nothing is removed. */
  lemma {:induction false} NoneWithout(xs: seq<Snapshot>, name: string)
    requires forall s :: s in xs ==> s.name != name
    ensures Without(xs, name) == xs
  {
    if xs != [] {
      assert xs[0] in xs;
      assert forall s :: s in xs[1..] ==> s in xs;
      NoneWithout(xs[1..], name);
      assert [xs[0]] + xs[1..] == xs;
    }
  }

  /**
   * In a store with unique names the first record is found by its name, and
   * deleting that name leaves exactly the records after it.
   */
  lemma DeleteFirstOfUnique(xs: seq<Snapshot>)
    requires UniqueNames(xs) && xs != []
    ensures Lookup(xs, xs[0].name) == Success(xs[0])
    ensures Without(xs, xs[0].name) == xs[1..]
    ensures UniqueNames(xs[1..])
  {
    var name := xs[0].name;
    forall s | s in xs[1..]
      ensures s.name != name
    {
      var k :| 0 <= k < |xs[1..]| && xs[1..][k] == s;
      assert xs[k + 1] == s;
    }
    NoneNamed(xs[1..], name);
    NoneWithout(xs[1..], name);
    assert Named(xs, name) == [xs[0]] + Named(xs[1..], name);
  }

  /**
   * Deleting the first record of a loaded store with unique names finds it, and the
   * document written afterwards loads as exactly the records after it.
   */
  lemma DeleteFirstStored(fs: map<string, Node>, xs: seq<Snapshot>, gen: nat -> Fresh)
    requires forall i: nat :: Drawn(gen(i))
    requires Stored(fs, gen) == Success(xs) && xs != [] && UniqueNames(xs)
    ensures Lookup(xs, xs[0].name) == Success(xs[0]) && Without(xs, xs[0].name) == xs[1..]
    ensures UniqueNames(xs[1..])
    ensures Stored((fs - {Path(xs[0])})[DatabaseFile := Database(Encode(xs[1..]))], gen) == Success(xs[1..])
  {
    DeleteFirstOfUnique(xs);
    StoredRecordsComplete(fs, gen);
    SaveLoadRoundTrip(fs - {Path(xs[0])}, xs[1..], gen);
  }

  /** Every record a load yields is complete, since drawn values are never falsy. */
  lemma StoredRecordsComplete(fs: map<string, Node>, gen: nat -> Fresh)
    requires forall i: nat :: Drawn(gen(i))
    requires Stored(fs, gen).Success?
    ensures forall k :: 0 <= k < |Stored(fs, gen).value| ==> Complete(Stored(fs, gen).value[k])
  {
    if TextAt(fs, DatabaseFile) != "" {
      var els := fs[DatabaseFile].elements;
      forall k | 0 <= k < |Stored(fs, gen).value|
        ensures Complete(Stored(fs, gen).value[k])
      {
        assert Success(Stored(fs, gen).value[k]) == FromElement(els[k], gen(k));
      }
    }
  }

  /** Removing every record of a name keeps the remaining names unique. */
  lemma {:induction false} WithoutKeepsUniqueNames(xs: seq<Snapshot>, name: string)
    requires UniqueNames(xs)
    ensures UniqueNames(Without(xs, name))
  {
    if xs != [] {
      WithoutKeepsUniqueNames(xs[1..], name);
      var rest := Without(xs[1..], name);
      if xs[0].name != name {
        forall j | 0 <= j < |rest|
          ensures xs[0].name != rest[j].name
        {
          WithoutMembers(xs[1..], name);
          assert rest[j] in rest;
          var k :| 0 <= k < |xs[1..]| && xs[1..][k] == rest[j];
          assert xs[k + 1] == rest[j];
        }
      }
    }
  }

  /** Appending a record whose name is not stored keeps the names unique. */
  lemma AppendKeepsUniqueNames(xs: seq<Snapshot>, s: Snapshot)
    requires UniqueNames(xs) && Named(xs, s.name) == []
    ensures UniqueNames(xs + [s])
  {
    NamedMembers(xs, s.name);
    forall i | 0 <= i < |xs|
      ensures xs[i].name != s.name
    {
      assert xs[i] in xs;
    }
  }

  /** The lookup of delete and restore: more than one match is reported before none. */
  function Lookup(xs: seq<Snapshot>, name: string): (r: Result<Snapshot, Error>)
    ensures r.Success? <==> |Named(xs, name)| == 1
    ensures r.Success? ==> r.value in xs && r.value.name == name && Named(xs, name) == [r.value]
    ensures |Named(xs, name)| > 1 ==> r == Failure(DuplicateName)
    ensures Named(xs, name) == [] ==> r == Failure(NoSnapshotFound)
  {
    NamedMembers(xs, name);
    var matches := Named(xs, name);
    if |matches| > 1 then Failure(DuplicateName)
    else if matches == [] then Failure(NoSnapshotFound)
    else assert matches[0] in matches; Success(matches[0])
  }

  /** In a store with unique names the lookup finds exactly the stored names. */
  lemma LookupUniqueNames(xs: seq<Snapshot>, name: string)
    requires UniqueNames(xs)
    ensures Lookup(xs, name).Success? <==> exists i :: 0 <= i < |xs| && xs[i].name == name
    ensures Lookup(xs, name).Failure? ==> Lookup(xs, name).error == NoSnapshotFound
  {
    UniqueNamesNamedAtMostOne(xs, name);
    NamedMembers(xs, name);
    if i :| 0 <= i < |xs| && xs[i].name == name {
      assert xs[i] in Named(xs, name);
    }
  }

  /**
   * The uniqueness check looks only at a requested name: a drawn name equal to a
   * stored one is appended all the same, and that name can then no longer be looked up.
   */
  lemma DrawnNameMayRepeat(stored: Snapshot, made: Snapshot)
    requires made.name == stored.name
    ensures UniqueNames([stored]) && !UniqueNames([stored] + [made])
    ensures Lookup([stored] + [made], made.name) == Failure(DuplicateName)
  {
    var xs := [stored] + [made];
    assert xs[1..] == [made] && xs[1..][1..] == [];
    assert Named(xs, made.name) == [stored, made];
  }

  /** `load_database`, which `snapshot_list` returns unchanged. */
  method LoadDatabase(e: Engine, gen: nat -> Fresh) returns (r: Result<seq<Snapshot>, Error>)
    modifies e`fs, e`trace
    ensures e.fs == old(e.fs)
    ensures ShStatus(e.helper, e.containers, e.paused).Fail? ==>
      r == Failure(ShStatus(e.helper, e.containers, e.paused).error) && e.trace == old(e.trace)
    ensures ShStatus(e.helper, e.containers, e.paused).Pass? ==>
      r == Stored(e.fs, gen) && e.trace == old(e.trace) + [Exec(e.helper.value, Cat(DatabaseFile))]
  {
    var text := FileRead(e, DatabaseFile);
    if text.Failure? {
      return Failure(text.error);
    }
    if text.value == "" {
      return Success([]);
    }
    match e.fs[DatabaseFile]
    case Database(els) =>
      r := Decode(els, gen);
    case _ =>
      r := Failure(MalformedJson);
  }

  /** `save_database`: the list replaces the document. */
  method SaveDatabase(e: Engine, xs: seq<Snapshot>) returns (r: Outcome<Error>)
    modifies e`fs, e`trace
    ensures ShStatus(e.helper, e.containers, e.paused).Fail? ==>
      r == ShStatus(e.helper, e.containers, e.paused) && e.fs == old(e.fs) && e.trace == old(e.trace)
    ensures ShStatus(e.helper, e.containers, e.paused).Pass? ==>
      r == Pass && e.fs == old(e.fs)[DatabaseFile := Database(Encode(xs))]
      && e.trace == old(e.trace) + [Exec(e.helper.value, WriteDatabase(Encode(xs)))]
  {
    var written := Sh(e, WriteDatabase(Encode(xs)), "");
    if written.Failure? {
      return Fail(written.error);
    }
    r := Pass;
  }

  /** `name or _generate_name()`. */
  function ChosenName(name: Option<string>, draw: Fresh): string {
    if name.Some? && name.value != "" then name.value else draw.name
  }

  /** The engine calls of a successful copy and record, in order. */
  function RecordCalls(id: string, target: string, source: string, path: string, elements: seq<Element>): seq<Call> {
    [Stopped(target), Exec(id, Mirror(source, path)), Started(target),
     Exec(id, DiskUsage(path)), Exec(id, CountFiles(path)), Exec(id, WriteDatabase(elements))]
  }

  /**
   * The second half of `snapshot_create`, once the name has been checked: the target
   * is frozen around the copy to /mnt/ds/<uuid>, size and file count are read from
   * the copy, and the record is appended to the stored list.
   */
  method CopyAndRecord(e: Engine, stored: seq<Snapshot>, chosen: string, source: string, containerName: string,
                       draw: Fresh, chunks: seq<string>, duOutput: string, findOutput: string)
    returns (r: Result<Snapshot, Error>, reports: seq<Progress.Report>)
    modifies e`containers, e`paused, e`fs, e`trace
    ensures ShStatus(e.helper, old(e.containers), old(e.paused)).Pass? ==>
      (r.Success? <==> Found(old(e.containers), containerName) && containerName != e.helper.value
                       && SizeFromDiskUsage(duOutput).Success?)
    ensures r.Success? ==>
      var path := SnapshotPath(draw.uuid);
      SizeFromDiskUsage(duOutput).Success?
      && r.value == Snapshot(draw.uuid, chosen, SizeFromDiskUsage(duOutput).value,
                             FileCountFromOutput(findOutput), draw.created)
      && e.fs == Mirrored(old(e.fs), source, path)[DatabaseFile := Database(Encode(stored + [r.value]))]
      && e.containers == old(e.containers)[containerName := true]
      && e.helper.Some?
      && e.trace == old(e.trace) + RecordCalls(e.helper.value, containerName, source, path, Encode(stored + [r.value]))
    ensures r.Failure? ==> e.fs == old(e.fs) || e.fs == Mirrored(old(e.fs), source, SnapshotPath(draw.uuid))
    ensures e.containers.Keys == old(e.containers).Keys
  {
    ghost var trace0 := e.trace;
    var path := SnapshotPath(draw.uuid);
    var copied;
    copied, reports := FrozenSync(e, containerName, source, path, chunks);
    if copied.Fail? {
      return Failure(copied.error), reports;
    }
    ghost var id := e.helper.value;
    assert e.trace == trace0 + [Stopped(containerName), Exec(id, Mirror(source, path)), Started(containerName)];
    r := MeasureAndSave(e, stored, chosen, path, draw, duOutput, findOutput);
  }

  /**
   * The end of `snapshot_create`, once the copy is made: read its size and file
   * count and append the record to the stored list. Only an unreadable size fails,
   * since the helper has just answered the first command.
   */
  method MeasureAndSave(e: Engine, stored: seq<Snapshot>, chosen: string, path: string, draw: Fresh,
                        duOutput: string, findOutput: string) returns (r: Result<Snapshot, Error>)
    requires ShStatus(e.helper, e.containers, e.paused).Pass?
    modifies e`fs, e`trace
    ensures r.Success? <==> SizeFromDiskUsage(duOutput).Success?
    ensures r.Success? ==>
      r.value == Snapshot(draw.uuid, chosen, SizeFromDiskUsage(duOutput).value, FileCountFromOutput(findOutput), draw.created)
      && e.fs == old(e.fs)[DatabaseFile := Database(Encode(stored + [r.value]))]
      && e.trace == old(e.trace) + [Exec(e.helper.value, DiskUsage(path)), Exec(e.helper.value, CountFiles(path)),
                                    Exec(e.helper.value, WriteDatabase(Encode(stored + [r.value])))]
    ensures r.Failure? ==> e.fs == old(e.fs)
  {
    var size := DirectorySize(e, path, duOutput);
    if size.Failure? {
      return Failure(size.error);
    }
    // the helper has just answered, so neither the count nor the save can be refused
    var fileCount := DirectoryFilecount(e, path, findOutput);
    var snapshot := Snapshot(draw.uuid, chosen, size.value, fileCount.value, draw.created);
    var saved := SaveDatabase(e, stored + [snapshot]);
    r := Success(snapshot);
  }

  /**
   * `snapshot_create`. A requested name already stored is refused before anything
   * else happens; otherwise the snapshot is copied and recorded. A failure never
   * leaves the store changed, though a copy already made stays behind.
   */
  method SnapshotCreate(e: Engine, name: Option<string>, source: string, containerName: string,
                        draw: Fresh, gen: nat -> Fresh, chunks: seq<string>, duOutput: string, findOutput: string)
    returns (r: Result<Snapshot, Error>, reports: seq<Progress.Report>)
    modifies e`containers, e`paused, e`fs, e`trace
    ensures ShStatus(old(e.helper), old(e.containers), old(e.paused)).Fail? ==>
      r == Failure(ShStatus(old(e.helper), old(e.containers), old(e.paused)).error)
      && e.fs == old(e.fs) && e.containers == old(e.containers) && e.trace == old(e.trace)
    ensures (ShStatus(old(e.helper), old(e.containers), old(e.paused)).Pass? && Stored(old(e.fs), gen).Success?
             && name.Some? && Named(Stored(old(e.fs), gen).value, name.value) != []) ==>
      r == Failure(AlreadyExists) && e.fs == old(e.fs) && e.containers == old(e.containers)
      && e.trace == old(e.trace) + [Exec(e.helper.value, Cat(DatabaseFile))]
    ensures r.Success? ==>
      Stored(old(e.fs), gen).Success?
      && (var stored := Stored(old(e.fs), gen).value;
          var path := SnapshotPath(draw.uuid);
          (name.Some? ==> Named(stored, name.value) == [])
          && SizeFromDiskUsage(duOutput).Success?
          && r.value == Snapshot(draw.uuid, ChosenName(name, draw), SizeFromDiskUsage(duOutput).value,
                                 FileCountFromOutput(findOutput), draw.created)
          && e.fs == Mirrored(old(e.fs), source, path)[DatabaseFile := Database(Encode(stored + [r.value]))]
          && e.containers == old(e.containers)[containerName := true]
          && e.trace == old(e.trace) + [Exec(e.helper.value, Cat(DatabaseFile))]
                        + RecordCalls(e.helper.value, containerName, source, path, Encode(stored + [r.value])))
    ensures r.Success? <==>
      ShStatus(e.helper, old(e.containers), old(e.paused)).Pass? && Stored(old(e.fs), gen).Success?
      && (name.Some? ==> Named(Stored(old(e.fs), gen).value, name.value) == [])
      && Found(old(e.containers), containerName) && containerName != e.helper.value
      && SizeFromDiskUsage(duOutput).Success?
    ensures r.Failure? ==> Stored(e.fs, gen) == Stored(old(e.fs), gen)
    ensures e.containers.Keys == old(e.containers).Keys
  {
    reports := [];
    var snapshots := LoadDatabase(e, gen);
    if snapshots.Failure? {
      return Failure(snapshots.error), reports;
    }
    if name.Some? && Named(snapshots.value, name.value) != [] {
      return Failure(AlreadyExists), reports;
    }
    ghost var fs1, trace1 := e.fs, e.trace;
    var chosen := ChosenName(name, draw);
    r, reports := CopyAndRecord(e, snapshots.value, chosen, source, containerName, draw, chunks, duOutput, findOutput);
    SnapshotDirectoriesAsideFromStore(fs1, source, draw.uuid, gen);
  }

  /**
   * `snapshot_delete`: look the name up, then remove the record's directory, then
   * save the store without every record of that name.
   */
  method SnapshotDelete(e: Engine, name: string, gen: nat -> Fresh) returns (r: Outcome<Error>)
    modifies e`fs, e`trace
    ensures ShStatus(e.helper, e.containers, e.paused).Fail? ==>
      r == ShStatus(e.helper, e.containers, e.paused) && e.fs == old(e.fs) && e.trace == old(e.trace)
    ensures ShStatus(e.helper, e.containers, e.paused).Pass? && Stored(old(e.fs), gen).Failure? ==>
      r == Fail(Stored(old(e.fs), gen).error) && e.fs == old(e.fs)
    ensures ShStatus(e.helper, e.containers, e.paused).Pass? && Stored(old(e.fs), gen).Success? ==>
      var stored := Stored(old(e.fs), gen).value;
      var found := Lookup(stored, name);
      (found.Failure? ==>
        r == Fail(found.error) && e.fs == old(e.fs)
        && e.trace == old(e.trace) + [Exec(e.helper.value, Cat(DatabaseFile))])
      && (found.Success? ==>
        r == Pass
        && e.fs == (old(e.fs) - {Path(found.value)})[DatabaseFile := Database(Encode(Without(stored, name)))]
        && e.trace == old(e.trace) + [Exec(e.helper.value, Cat(DatabaseFile)),
                                      Exec(e.helper.value, RemoveTree(Path(found.value))),
                                      Exec(e.helper.value, WriteDatabase(Encode(Without(stored, name))))])
  {
    var before := LoadDatabase(e, gen);
    if before.Failure? {
      return Fail(before.error);
    }
    var found := Lookup(before.value, name);
    if found.Failure? {
      return Fail(found.error);
    }
    var after := Without(before.value, name);
    var removed := DirectoryRemove(e, Path(found.value));
    r := SaveDatabase(e, after);
  }

  /**
   * `snapshot_restore`: look the name up, then mirror the record's directory onto
   * the destination with the target frozen. The store is never written.
   */
  method SnapshotRestore(e: Engine, name: string, destination: string, containerName: string,
                         gen: nat -> Fresh, chunks: seq<string>)
    returns (r: Outcome<Error>, reports: seq<Progress.Report>)
    modifies e`containers, e`paused, e`fs, e`trace
    ensures ShStatus(old(e.helper), old(e.containers), old(e.paused)).Fail? ==>
      r == ShStatus(old(e.helper), old(e.containers), old(e.paused))
      && e.fs == old(e.fs) && e.containers == old(e.containers) && e.trace == old(e.trace)
    ensures ShStatus(old(e.helper), old(e.containers), old(e.paused)).Pass? && Stored(old(e.fs), gen).Failure? ==>
      r == Fail(Stored(old(e.fs), gen).error) && e.fs == old(e.fs) && e.containers == old(e.containers)
    ensures (ShStatus(old(e.helper), old(e.containers), old(e.paused)).Pass? && Stored(old(e.fs), gen).Success?
             && Lookup(Stored(old(e.fs), gen).value, name).Failure?) ==>
      r == Fail(Lookup(Stored(old(e.fs), gen).value, name).error)
      && e.fs == old(e.fs) && e.containers == old(e.containers)
      && e.trace == old(e.trace) + [Exec(e.helper.value, Cat(DatabaseFile))]
    ensures r.Pass? ==>
      var found := Lookup(Stored(old(e.fs), gen).value, name);
      Stored(old(e.fs), gen).Success? && found.Success?
      && e.fs == Mirrored(old(e.fs), Path(found.value), destination)
      && e.containers == old(e.containers)[containerName := true]
      && e.trace == old(e.trace) + [Exec(e.helper.value, Cat(DatabaseFile)), Stopped(containerName),
                                    Exec(e.helper.value, Mirror(Path(found.value), destination)),
                                    Started(containerName)]
    ensures r.Pass? <==>
      ShStatus(e.helper, old(e.containers), old(e.paused)).Pass? && Stored(old(e.fs), gen).Success?
      && Lookup(Stored(old(e.fs), gen).value, name).Success?
      && Found(old(e.containers), containerName) && containerName != e.helper.value
    ensures r.Fail? ==> e.fs == old(e.fs)
    ensures e.containers.Keys == old(e.containers).Keys
  {
    reports := [];
    var before := LoadDatabase(e, gen);
    if before.Failure? {
      return Fail(before.error), reports;
    }
    var found := Lookup(before.value, name);
    if found.Failure? {
      return Fail(found.error), reports;
    }
    r, reports := FrozenSync(e, containerName, Path(found.value), destination, chunks);
  }

  function Stats(draw: Fresh, fileCount: int, size: Result<int, Error>): Result<Snapshot, Error> {
    match size
    case Failure(error) => Failure(error)
    case Success(bytes) => Success(Snapshot(draw.uuid, draw.name, bytes, fileCount, draw.created))
  }

  /** `snapshot_present_stats`: a draw record for the live directory, file count read before size. */
  method SnapshotPresentStats(e: Engine, path: string, draw: Fresh, findOutput: string, duOutput: string)
    returns (r: Result<Snapshot, Error>)
    modifies e`fs, e`trace
    ensures e.fs == old(e.fs)
    ensures ShStatus(e.helper, e.containers, e.paused).Fail? ==>
      r == Failure(ShStatus(e.helper, e.containers, e.paused).error) && e.trace == old(e.trace)
    ensures ShStatus(e.helper, e.containers, e.paused).Pass? ==>
      e.trace == old(e.trace) + [Exec(e.helper.value, CountFiles(path)), Exec(e.helper.value, DiskUsage(path))]
      && r == Stats(draw, FileCountFromOutput(findOutput), SizeFromDiskUsage(duOutput))
  {
    var fileCount := DirectoryFilecount(e, path, findOutput);
    if fileCount.Failure? {
      return Failure(fileCount.error);
    }
    var size := DirectorySize(e, path, duOutput);
    if size.Failure? {
      return Failure(size.error);
    }
    r := Success(Snapshot(draw.uuid, draw.name, size.value, fileCount.value, draw.created));
  }
}
