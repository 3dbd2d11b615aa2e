/**
 * The decisions of the command-line interface of the current revision: name
 * completion, the running-target guard of create and restore, restoring the latest
 * snapshot when no name is given, and the prune loop. Every command is bracketed by
 * `requires_helper_container`: the helper is allocated first and removed after the
 * command body, and the removal is skipped when the allocation or the body raises.
 */
module Cli {
  import opened Wrappers
  import opened Errors
  import opened Docker
  import opened Text
  import opened Container
  import opened Snapshot
  import Settings
  import Progress

  /** What a command reports to the user; an exception that escapes is a `Failure` instead. */
  datatype Said =
    | TargetNotRunning(containerName: string)  // "Target container `…` is not running."
    | Created(snapshot: Snapshot)      // "Created `…`"
    | Deleted(name: string)                     // "Deleted `…`"
    | Restored(name: string)                    // "Restored `…`"
    | Reported(error: Error)                    // an exception caught and printed by `error`
    | NothingToPrune                            // "Nothing to prune"
    | Declined                                  // the prune prompt was answered no
    | Pruned(count: nat)                        // "Pruned <n> snapshot(s)"

  /** The names of the records, in store order. */
  function Names(xs: seq<Snapshot>): seq<string> {
    seq(|xs|, i requires 0 <= i < |xs| => xs[i].name)
  }

  /** `filter(lambda n: n.startswith(incomplete), names)`. */
  function Completions(names: seq<string>, incomplete: string): seq<string> {
    if names == [] then []
    else (if StartsWith(names[0], incomplete) then [names[0]] else []) + Completions(names[1..], incomplete)
  }

  /** The completions are exactly the names that start with what was typed. */
  lemma {:induction false} CompletionsMembers(names: seq<string>, incomplete: string)
    ensures forall n :: n in Completions(names, incomplete) <==> n in names && StartsWith(n, incomplete)
  {
    if names != [] {
      CompletionsMembers(names[1..], incomplete);
      assert names == [names[0]] + names[1..];
    }
  }

  /** Completion keeps the store's order: it distributes over concatenation. */
  lemma {:induction false} CompletionsKeepOrder(a: seq<string>, b: seq<string>, incomplete: string)
    ensures Completions(a + b, incomplete) == Completions(a, incomplete) + Completions(b, incomplete)
  {
    if a == [] {
      assert a + b == b;
    } else {
      var c := a + b;
      assert c[0] == a[0] && c[1..] == a[1..] + b;
      CompletionsKeepOrder(a[1..], b, incomplete);
      var head := if StartsWith(a[0], incomplete) then [a[0]] else [];
      assert Completions(c, incomplete) == head + Completions(a[1..] + b, incomplete);
      assert Completions(a, incomplete) == head + Completions(a[1..], incomplete);
    }
  }

  /** Nothing typed yet completes to every stored name. */
  lemma {:induction false} CompletionsOfNothing(names: seq<string>)
    ensures Completions(names, "") == names
  {
    if names != [] {
      assert StartsWith(names[0], "");
      CompletionsOfNothing(names[1..]);
      assert [names[0]] + names[1..] == names;
    }
  }

  /** Whether `alloc` hands over a started helper (see `Container.AllocSucceeds`). */
  predicate Allocates(containers: map<string, bool>, paused: set<string>, s: Settings.Settings) {
    AllocSucceeds(containers, paused, s.containerName, s.namespace)
  }

  /** Whether `alloc` finds the helper, or the target to create it from. */
  predicate HelperOrTarget(containers: map<string, bool>, s: Settings.Settings) {
    GetContainerId(s.namespace) in containers || Found(containers, s.containerName)
  }

  /**
   * `get_names`, the shell completion of snapshot names: allocate the helper, list
   * the store, release the helper, and keep the names that start with what was typed.
   */
  method GetNames(e: Engine, s: Settings.Settings, incomplete: string, gen: nat -> Fresh)
    returns (r: Result<seq<string>, Error>)
    modifies e`images, e`volumes, e`containers, e`paused, e`helper, e`fs, e`trace
    ensures e.fs == old(e.fs)
    ensures !HelperOrTarget(old(e.containers), s) ==>
      r == Failure(MissingTarget(s.containerName)) && e.helper == old(e.helper) && e.containers == old(e.containers)
    ensures HelperOrTarget(old(e.containers), s) && GetContainerId(s.namespace) in old(e.paused) ==>
      r == Failure(Conflict(GetContainerId(s.namespace))) && e.helper == Some(GetContainerId(s.namespace))
    ensures r.Success? <==> Allocates(old(e.containers), old(e.paused), s) && Stored(old(e.fs), gen).Success?
    ensures r.Success? ==>
      r.value == Completions(Names(Stored(old(e.fs), gen).value), incomplete)
      && e.containers == old(e.containers) - {GetContainerId(s.namespace)}
    ensures Allocates(old(e.containers), old(e.paused), s) && r.Failure? ==>
      e.containers == old(e.containers)[GetContainerId(s.namespace) := true]
  {
    var ready := Alloc(e, s.containerName, s.namespace);
    if ready.Fail? {
      return Failure(ready.error);
    }
    var listed := LoadDatabase(e, gen);
    if listed.Failure? {
      return Failure(listed.error);
    }
    var _ := Dealloc(e);
    r := Success(Completions(Names(listed.value), incomplete));
  }

  /** Whether the target runs once `alloc` has started the helper: "running" is neither stopped nor paused. */
  predicate TargetRunning(containers: map<string, bool>, paused: set<string>, s: Settings.Settings) {
    var after := containers[GetContainerId(s.namespace) := true];
    Found(after, s.containerName) && after[s.containerName] && s.containerName !in paused
  }

  /**
   * `create`: after the helper is allocated, a target that is not running is
   * reported and nothing is copied; otherwise the snapshot is created under the
   * requested name, or a drawn one when the name is empty. An exception from the
   * creation escapes, and the helper is then not released.
   */
  method Create(e: Engine, s: Settings.Settings, name: string, draw: Fresh, gen: nat -> Fresh,
                chunks: seq<string>, duOutput: string, findOutput: string)
    returns (r: Result<Said, Error>, reports: seq<Progress.Report>)
    modifies e`images, e`volumes, e`containers, e`paused, e`helper, e`fs, e`trace
    ensures !HelperOrTarget(old(e.containers), s) ==>
      r == Failure(MissingTarget(s.containerName)) && e.helper == old(e.helper)
      && e.containers == old(e.containers) && e.fs == old(e.fs)
    ensures HelperOrTarget(old(e.containers), s) && GetContainerId(s.namespace) in old(e.paused) ==>
      r == Failure(Conflict(GetContainerId(s.namespace))) && e.helper == Some(GetContainerId(s.namespace))
      && e.fs == old(e.fs)
    ensures Allocates(old(e.containers), old(e.paused), s) && s.containerName == "" ==>
      r == Failure(NullResource) && GetContainerId(s.namespace) in e.containers && e.fs == old(e.fs)
    ensures Allocates(old(e.containers), old(e.paused), s) && s.containerName != ""
            && !TargetRunning(old(e.containers), old(e.paused), s) ==>
      r == Success(TargetNotRunning(s.containerName)) && e.fs == old(e.fs)
      && e.containers == old(e.containers) - {GetContainerId(s.namespace)}
      && e.trace == old(e.trace)
        + AllocCalls(old(e.images), old(e.volumes), old(e.containers), old(e.paused), s.containerName, s.namespace)
        + [Removed(GetContainerId(s.namespace))]
    ensures r.Success? && r.value.Created? <==>
      Allocates(old(e.containers), old(e.paused), s) && TargetRunning(old(e.containers), old(e.paused), s)
      && s.containerName != GetContainerId(s.namespace)
      && Stored(old(e.fs), gen).Success?
      && (name != "" ==> Named(Stored(old(e.fs), gen).value, name) == [])
      && SizeFromDiskUsage(duOutput).Success?
    ensures r.Success? ==> r.value.TargetNotRunning? || r.value.Created?
    ensures r.Success? && r.value.Created? ==>
      Stored(old(e.fs), gen).Success?
      && (name != "" ==> r.value.snapshot.name == name)
      && (name == "" ==> r.value.snapshot.name == draw.name)
      && r.value.snapshot.uuid == draw.uuid
      && DatabaseFile in e.fs
      && e.fs[DatabaseFile] == Database(Encode(Stored(old(e.fs), gen).value + [r.value.snapshot]))
      && GetContainerId(s.namespace) !in e.containers
    ensures Allocates(old(e.containers), old(e.paused), s) && r.Failure? ==>
      GetContainerId(s.namespace) in e.containers && Stored(e.fs, gen) == Stored(old(e.fs), gen)
  {
    reports := [];
    var ready := Alloc(e, s.containerName, s.namespace);
    if ready.Fail? {
      return Failure(ready.error), reports;
    }
    var running := IsRunning(e, s.containerName);
    if running.Failure? {
      return Failure(running.error), reports;
    }
    if !running.value {
      var _ := Dealloc(e);
      return Success(TargetNotRunning(s.containerName)), reports;
    }
    var requested := if name != "" then Some(name) else None;
    var made;
    made, reports := SnapshotCreate(e, requested, s.directory, s.containerName, draw, gen, chunks, duOutput, findOutput);
    if made.Failure? {
      return Failure(made.error), reports;
    }
    var _ := Dealloc(e);
    r := Success(Created(made.value));
  }

  /**
   * `delete`: every error of the deletion is caught and reported, so the helper is
   * always released once it was allocated.
   */
  method Delete(e: Engine, s: Settings.Settings, name: string, gen: nat -> Fresh) returns (r: Result<Said, Error>)
    modifies e`images, e`volumes, e`containers, e`paused, e`helper, e`fs, e`trace
    ensures !HelperOrTarget(old(e.containers), s) ==>
      r == Failure(MissingTarget(s.containerName)) && e.helper == old(e.helper)
      && e.containers == old(e.containers) && e.fs == old(e.fs)
    ensures HelperOrTarget(old(e.containers), s) && GetContainerId(s.namespace) in old(e.paused) ==>
      r == Failure(Conflict(GetContainerId(s.namespace))) && e.helper == Some(GetContainerId(s.namespace))
      && e.fs == old(e.fs)
    ensures Allocates(old(e.containers), old(e.paused), s) ==>
      r.Success? && e.containers == old(e.containers) - {GetContainerId(s.namespace)}
    ensures Allocates(old(e.containers), old(e.paused), s) ==>
      (r == Success(Deleted(name)) <==>
        Stored(old(e.fs), gen).Success? && Lookup(Stored(old(e.fs), gen).value, name).Success?)
    ensures r == Success(Deleted(name)) ==>
      Stored(old(e.fs), gen).Success? &&
      var stored := Stored(old(e.fs), gen).value;
      e.fs == (old(e.fs) - {Path(Lookup(stored, name).value)})[DatabaseFile := Database(Encode(Without(stored, name)))]
    ensures r.Success? && r.value.Reported? ==> e.fs == old(e.fs)
    ensures r.Success? ==> r.value == Deleted(name) || r.value.Reported?
  {
    var ready := Alloc(e, s.containerName, s.namespace);
    if ready.Fail? {
      return Failure(ready.error);
    }
    var deleted := SnapshotDelete(e, name, gen);
    var _ := Dealloc(e);
    r := if deleted.Pass? then Success(Deleted(name)) else Success(Reported(deleted.error));
  }

  /** The name `restore` looks up: the given one, else the latest stored, else "". */
  function RestoreName(name: string, stored: seq<Snapshot>): string {
    if name != "" then name
    else if stored != [] then stored[|stored| - 1].name
    else ""
  }

  /**
   * Without a name the latest snapshot is restored when the names are unique; with
   * an empty store the empty name is looked up and not found.
   */
  lemma RestoreLatest(name: string, stored: seq<Snapshot>)
    ensures name != "" ==> RestoreName(name, stored) == name
    ensures name == "" && stored != [] && UniqueNames(stored) ==>
      Lookup(stored, RestoreName(name, stored)) == Success(stored[|stored| - 1])
    ensures name == "" && stored == [] ==> Lookup(stored, RestoreName(name, stored)) == Failure(NoSnapshotFound)
  {
    if name == "" && stored != [] && UniqueNames(stored) {
      var latest := stored[|stored| - 1];
      LookupUniqueNames(stored, latest.name);
      NamedMembers(stored, latest.name);
      assert latest in Named(stored, latest.name);
    }
  }

  /**
   * The body of `restore` once the helper answers and the target is running: resolve
   * the name, listing the store (drawing from `genList`) when none is given, then
   * restore it (its load drawing from `gen`), catching and reporting its errors.
   */
  method RestoreResolved(e: Engine, s: Settings.Settings, name: string, genList: nat -> Fresh, gen: nat -> Fresh,
                         chunks: seq<string>)
    returns (r: Result<Said, Error>, reports: seq<Progress.Report>)
    requires ShStatus(e.helper, e.containers, e.paused).Pass? && Found(e.containers, s.containerName)
    modifies e`containers, e`paused, e`fs, e`trace
    ensures s.containerName != e.helper.value ==>
      (r.Success? && r.value.Restored? <==>
        Stored(old(e.fs), gen).Success? && Stored(old(e.fs), genList).Success?
        && Lookup(Stored(old(e.fs), gen).value, RestoreName(name, Stored(old(e.fs), genList).value)).Success?)
    ensures r.Success? ==> r.value.Restored? || r.value.Reported?
    ensures r.Success? && r.value.Restored? ==>
      Stored(old(e.fs), gen).Success? && Stored(old(e.fs), genList).Success? &&
      var stored := Stored(old(e.fs), gen).value;
      r.value.name == RestoreName(name, Stored(old(e.fs), genList).value)
      && Lookup(stored, r.value.name).Success?
      && e.fs == Mirrored(old(e.fs), Path(Lookup(stored, r.value.name).value), s.directory)
    ensures Settled(old(e.fs)) && name == "" && s.containerName != e.helper.value
            && Stored(old(e.fs), gen).Success? && Stored(old(e.fs), gen).value != []
            && UniqueNames(Stored(old(e.fs), gen).value) ==>
      r == Success(Restored(Stored(old(e.fs), gen).value[|Stored(old(e.fs), gen).value| - 1].name))
    ensures r.Success? && r.value.Reported? ==> e.fs == old(e.fs)
    ensures r.Failure? ==> name == "" && e.fs == old(e.fs) && e.containers == old(e.containers)
    ensures e.containers.Keys == old(e.containers).Keys
  {
    reports := [];
    StoredDrawsNothing(e.fs, genList, gen);
    if Stored(e.fs, gen).Success? {
      RestoreLatest(name, Stored(e.fs, gen).value);
    }
    var chosen := name;
    if name == "" {
      var listed := LoadDatabase(e, genList);
      if listed.Failure? {
        return Failure(listed.error), reports;
      }
      if listed.value != [] {
        chosen := listed.value[|listed.value| - 1].name;
      }
    }
    var restored;
    restored, reports := SnapshotRestore(e, chosen, s.directory, s.containerName, gen, chunks);
    r := if restored.Pass? then Success(Restored(chosen)) else Success(Reported(restored.error));
  }

  /**
   * `restore`: after the helper is allocated, a target that is not running is
   * reported; otherwise the name is resolved and restored. Only a failure of the
   * listing escapes, leaving the helper allocated. The listing draws its defaults
   * from `genList`, the load of the restore itself from `gen`.
   */
  method Restore(e: Engine, s: Settings.Settings, name: string, genList: nat -> Fresh, gen: nat -> Fresh,
                 chunks: seq<string>)
    returns (r: Result<Said, Error>, reports: seq<Progress.Report>)
    modifies e`images, e`volumes, e`containers, e`paused, e`helper, e`fs, e`trace
    ensures !HelperOrTarget(old(e.containers), s) ==>
      r == Failure(MissingTarget(s.containerName)) && e.helper == old(e.helper)
      && e.containers == old(e.containers) && e.fs == old(e.fs)
    ensures HelperOrTarget(old(e.containers), s) && GetContainerId(s.namespace) in old(e.paused) ==>
      r == Failure(Conflict(GetContainerId(s.namespace))) && e.helper == Some(GetContainerId(s.namespace))
      && e.fs == old(e.fs)
    ensures Allocates(old(e.containers), old(e.paused), s) && s.containerName == "" ==>
      r == Failure(NullResource) && GetContainerId(s.namespace) in e.containers && e.fs == old(e.fs)
    ensures Allocates(old(e.containers), old(e.paused), s) && s.containerName != ""
            && !TargetRunning(old(e.containers), old(e.paused), s) ==>
      r == Success(TargetNotRunning(s.containerName)) && e.fs == old(e.fs)
      && e.containers == old(e.containers) - {GetContainerId(s.namespace)}
      && e.trace == old(e.trace)
        + AllocCalls(old(e.images), old(e.volumes), old(e.containers), old(e.paused), s.containerName, s.namespace)
        + [Removed(GetContainerId(s.namespace))]
    ensures Allocates(old(e.containers), old(e.paused), s) && TargetRunning(old(e.containers), old(e.paused), s)
            && s.containerName != GetContainerId(s.namespace) ==>
      (r.Success? && r.value.Restored? <==>
        Stored(old(e.fs), gen).Success? && Stored(old(e.fs), genList).Success?
        && Lookup(Stored(old(e.fs), gen).value, RestoreName(name, Stored(old(e.fs), genList).value)).Success?)
    ensures r.Success? ==> r.value.TargetNotRunning? || r.value.Restored? || r.value.Reported?
    ensures r.Success? && r.value.Restored? ==>
      Stored(old(e.fs), gen).Success? && Stored(old(e.fs), genList).Success? &&
      var stored := Stored(old(e.fs), gen).value;
      r.value.name == RestoreName(name, Stored(old(e.fs), genList).value)
      && Lookup(stored, r.value.name).Success?
      && e.fs == Mirrored(old(e.fs), Path(Lookup(stored, r.value.name).value), s.directory)
    ensures Settled(old(e.fs)) && name == "" && Stored(old(e.fs), gen).Success?
            && Stored(old(e.fs), gen).value != [] && UniqueNames(Stored(old(e.fs), gen).value)
            && Allocates(old(e.containers), old(e.paused), s) && TargetRunning(old(e.containers), old(e.paused), s)
            && s.containerName != GetContainerId(s.namespace) ==>
      r == Success(Restored(Stored(old(e.fs), gen).value[|Stored(old(e.fs), gen).value| - 1].name))
    ensures r.Success? && !r.value.TargetNotRunning? ==>
      GetContainerId(s.namespace) !in e.containers
    ensures r.Success? && r.value.Reported? ==> e.fs == old(e.fs)
    ensures Allocates(old(e.containers), old(e.paused), s) && s.containerName != "" && r.Failure? ==>
      name == "" && GetContainerId(s.namespace) in e.containers && e.fs == old(e.fs)
  {
    reports := [];
    var ready := Alloc(e, s.containerName, s.namespace);
    if ready.Fail? {
      return Failure(ready.error), reports;
    }
    var running := IsRunning(e, s.containerName);
    if running.Failure? {
      return Failure(running.error), reports;
    }
    if !running.value {
      var _ := Dealloc(e);
      return Success(TargetNotRunning(s.containerName)), reports;
    }
    r, reports := RestoreResolved(e, s, name, genList, gen, chunks);
    if r.Failure? {
      return r, reports;
    }
    var _ := Dealloc(e);
  }

  /**
   * `prune` as written: without `pass_settings`, click calls the wrapper of
   * `requires_helper_container` with no positional argument, so the call fails
   * before the helper is allocated and nothing reaches the engine.
   */
  method PruneAsWritten(e: Engine) returns (r: Result<Said, Error>)
    ensures r == Failure(MissingArgument("settings"))
  {
    r := Failure(MissingArgument("settings"));
  }

  /**
   * `prune` given its settings but otherwise as written: it asks `utils` for
   * `format_size`, which that module does not define, as soon as there is anything
   * to prune. That error escapes after the listing and leaves the helper allocated.
   */
  method PruneWithSettings(e: Engine, s: Settings.Settings, gen: nat -> Fresh) returns (r: Result<Said, Error>)
    modifies e`images, e`volumes, e`containers, e`paused, e`helper, e`fs, e`trace
    ensures e.fs == old(e.fs)
    ensures !HelperOrTarget(old(e.containers), s) ==> r == Failure(MissingTarget(s.containerName))
    ensures HelperOrTarget(old(e.containers), s) && GetContainerId(s.namespace) in old(e.paused) ==>
      r == Failure(Conflict(GetContainerId(s.namespace)))
    ensures r == Success(NothingToPrune) <==>
      Allocates(old(e.containers), old(e.paused), s) && Stored(old(e.fs), gen) == Success([])
    ensures r.Success? ==> r == Success(NothingToPrune)
    ensures (Allocates(old(e.containers), old(e.paused), s)
             && Stored(old(e.fs), gen).Success? && Stored(old(e.fs), gen).value != []) ==>
      r == Failure(MissingModuleAttribute("format_size")) && GetContainerId(s.namespace) in e.containers
  {
    var ready := Alloc(e, s.containerName, s.namespace);
    if ready.Fail? {
      return Failure(ready.error);
    }
    var listed := LoadDatabase(e, gen);
    if listed.Failure? {
      return Failure(listed.error);
    }
    if listed.value == [] {
      var _ := Dealloc(e);
      return Success(NothingToPrune);
    }
    r := Failure(MissingModuleAttribute("format_size"));
  }

  /**
   * One step of the `prune` loop: delete the record at `i` of the listing, by its
   * name, with a load that draws from `gen`. With unique names and a settled store
   * it is found, and the store then holds the records after it and stays settled.
   */
  method DeleteNext(e: Engine, list: seq<Snapshot>, i: nat, gen: nat -> Fresh) returns (r: Outcome<Error>)
    requires forall k: nat :: Drawn(gen(k))
    requires ShStatus(e.helper, e.containers, e.paused).Pass?
    requires i < |list|
    modifies e`fs, e`trace
    ensures UniqueNames(list) && Settled(old(e.fs)) && Stored(old(e.fs), gen) == Success(list[i..]) ==>
      r.Pass? && Settled(e.fs) && Stored(e.fs, gen) == Success(list[i + 1..])
  {
    if UniqueNames(list) && Settled(e.fs) && Stored(e.fs, gen) == Success(list[i..]) {
      assert UniqueNames(list[i..]) by {
        forall a, b | 0 <= a < b < |list[i..]|
          ensures list[i..][a].name != list[i..][b].name
        {
          assert list[i..][a] == list[i + a] && list[i..][b] == list[i + b];
        }
      }
      DeleteFirstStored(e.fs, list[i..], gen);
      assert list[i..][1..] == list[i + 1..];
      StoredRecordsComplete(e.fs, gen);
      SavedCompleteIsSettled(e.fs - {Path(list[i])}, list[i + 1..]);
    }
    r := SnapshotDelete(e, list[i].name, gen);
  }

  /**
   * The loop of `prune`: delete the listed snapshots one by one, by name, stopping
   * at the first error; deletion i reloads the store drawing from `reloads(i)`.
   * `deleted` holds the names deleted, in order. When the names are unique and the
   * store is settled every deletion finds its record and the store ends empty.
   */
  method DeleteEach(e: Engine, list: seq<Snapshot>, gen: nat -> Fresh, reloads: nat -> nat -> Fresh)
    returns (failure: Option<Error>, deleted: seq<string>)
    requires forall i: nat, k: nat :: Drawn(reloads(i)(k))
    requires ShStatus(e.helper, e.containers, e.paused).Pass?
    requires Stored(e.fs, gen) == Success(list)
    modifies e`fs, e`trace
    ensures deleted <= Names(list)
    ensures failure.None? ==> deleted == Names(list)
    ensures failure.Some? ==> |deleted| < |list|
    ensures UniqueNames(list) && Settled(old(e.fs)) ==>
      failure.None? && Settled(e.fs) && Stored(e.fs, gen) == Success([])
  {
    deleted := [];
    var i := 0;
    failure := None;
    ghost var names := Names(list);
    ghost var settled := UniqueNames(list) && Settled(e.fs);
    while i < |list| && failure.None?
      invariant 0 <= i <= |list|
      invariant deleted == names[..i]
      invariant failure.Some? ==> i < |list|
      invariant settled ==> failure.None? && Settled(e.fs) && Stored(e.fs, gen) == Success(list[i..])
      decreases |list| - i, if failure.None? then 1 else 0
    {
      if settled {
        StoredDrawsNothing(e.fs, gen, reloads(i));
      }
      var outcome := DeleteNext(e, list, i, reloads(i));
      if outcome.Fail? {
        failure := Some(outcome.error);
      } else {
        assert names[..i + 1] == names[..i] + [list[i].name];
        deleted := deleted + [list[i].name];
        i := i + 1;
        if settled {
          StoredDrawsNothing(e.fs, gen, reloads(i - 1));
        }
      }
    }
    if failure.None? {
      assert list[i..] == [] && names[..i] == names;
    }
  }

  /**
   * `prune` with its settings and with the size left unformatted: list the store;
   * with nothing stored say so; unless the prompt is confirmed do nothing; otherwise
   * delete every listed snapshot, catching and reporting the first error. The
   * helper is released in every case but a failed listing. The listing draws from
   * `gen`, the reload of deletion i from `reloads(i)`.
   */
  method Prune(e: Engine, s: Settings.Settings, gen: nat -> Fresh, reloads: nat -> nat -> Fresh, confirmed: bool)
    returns (r: Result<Said, Error>, deleted: seq<string>)
    requires forall i: nat, k: nat :: Drawn(reloads(i)(k))
    modifies e`images, e`volumes, e`containers, e`paused, e`helper, e`fs, e`trace
    ensures !HelperOrTarget(old(e.containers), s) ==>
      r == Failure(MissingTarget(s.containerName)) && e.fs == old(e.fs)
    ensures HelperOrTarget(old(e.containers), s) && GetContainerId(s.namespace) in old(e.paused) ==>
      r == Failure(Conflict(GetContainerId(s.namespace))) && e.helper == Some(GetContainerId(s.namespace))
      && e.fs == old(e.fs)
    ensures r.Success? ==>
      Stored(old(e.fs), gen).Success? && GetContainerId(s.namespace) !in e.containers
      && (r.value.NothingToPrune? || r.value.Declined? || r.value.Pruned? || r.value.Reported?)
      && deleted <= Names(Stored(old(e.fs), gen).value)
    ensures r == Success(NothingToPrune) <==>
      Allocates(old(e.containers), old(e.paused), s) && Stored(old(e.fs), gen) == Success([])
    ensures Allocates(old(e.containers), old(e.paused), s) && Stored(old(e.fs), gen).Failure? ==>
      r == Failure(Stored(old(e.fs), gen).error) && GetContainerId(s.namespace) in e.containers
      && e.fs == old(e.fs)
    ensures r == Success(Declined) ==> !confirmed && e.fs == old(e.fs)
    ensures r.Success? && r.value.Pruned? ==>
      r.value.count == |Stored(old(e.fs), gen).value| && deleted == Names(Stored(old(e.fs), gen).value)
    ensures r.Success? && r.value.Reported? ==> |deleted| < |Stored(old(e.fs), gen).value|
    ensures (Allocates(old(e.containers), old(e.paused), s) && Settled(old(e.fs))
             && Stored(old(e.fs), gen).Success? && Stored(old(e.fs), gen).value != []
             && UniqueNames(Stored(old(e.fs), gen).value) && confirmed) ==>
      r == Success(Pruned(|Stored(old(e.fs), gen).value|)) && Stored(e.fs, gen) == Success([])
  {
    deleted := [];
    var ready := Alloc(e, s.containerName, s.namespace);
    if ready.Fail? {
      return Failure(ready.error), deleted;
    }
    var listed := LoadDatabase(e, gen);
    if listed.Failure? {
      return Failure(listed.error), deleted;
    }
    var list := listed.value;
    if list == [] {
      var _ := Dealloc(e);
      return Success(NothingToPrune), deleted;
    }
    if !confirmed {
      var _ := Dealloc(e);
      return Success(Declined), deleted;
    }
    var failure;
    failure, deleted := DeleteEach(e, list, gen, reloads);
    var _ := Dealloc(e);
    r := if failure.Some? then Success(Reported(failure.value)) else Success(Pruned(|list|));
  }
}
