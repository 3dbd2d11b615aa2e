/**
 * The container engine as the tool sees it: images, volumes and containers by name,
 * the files visible inside the helper container, and the list of engine calls made,
 * in order. Each method is one engine call the tool issues through the Docker SDK.
 */
module Docker {
  import opened Wrappers
  import opened Errors
  import ShellQuote

  /**
   * One element of the JSON array stored in db.json. A key that is absent, null or
   * falsy is recorded as "" or 0: the loaders treat all three alike. `fileCount` is
   * None when the key is absent, as in the documents the earlier revisions write.
   */
  datatype Element =
    | Record(uuid: string, name: string, size: int, fileCount: Option<int>, created: int)
    | NotAnObject

  /** A path as seen from inside the helper container. */
  datatype Node =
    | File(text: string)
    | Directory(files: map<string, string>)  // relative path -> contents
    | Database(elements: seq<Element>)       // db.json, as `save_database` serialises it

  /** A shell command run through `exec_run`. */
  datatype Command =
    | Cat(path: string)                          // cat <path> 2>/dev/null
    | Echo(word: string, path: string)           // echo <word> > <path>, the word as the tool quoted it
    | WriteDatabase(elements: seq<Element>)      // echo <quoted json.dumps(...)> > db.json
    | RemoveTree(path: string)                   // rm -rf <path>
    | DiskUsage(path: string)                    // du -s <path>
    | CountFiles(path: string)                   // find <path> -type f | wc -l
    | Mirror(source: string, destination: string) // rsync -aAHX --delete --info=progress2 <source>/ <destination>

  /** An engine call that changes engine state. */
  datatype Call =
    | ImageBuilt(tag: string)
    | VolumeCreated(name: string)
    | ContainerCreated(name: string, volumesFrom: string)
    | ContainerRun(name: string, volumesFrom: string)
    | Started(name: string)
    | Stopped(name: string)
    | Removed(name: string)
    | Paused(name: string)
    | Unpaused(name: string)
    | Exec(container: string, command: Command)

  /** The metadata document, relative to the helper's working directory. */
  const DatabaseFile := "db.json"

  /** rsync's mirror copy of `source/` onto `destination`; nothing is copied if the source is not a directory. */
  function Mirrored(fs: map<string, Node>, source: string, destination: string): map<string, Node> {
    if source in fs && fs[source].Directory? then fs[destination := fs[source]] else fs
  }

  /**
   * What a command does to the files. `echo` prints the field its word expands to,
   * followed by a newline; a word outside the modelled part of the shell's grammar
   * writes nothing.
   */
  function Effect(fs: map<string, Node>, command: Command): map<string, Node> {
    match command
    case Echo(word, path) =>
      (match ShellQuote.Expand(word)
       case Some(text) => fs[path := File(text + "\n")]
       case None => fs)
    case WriteDatabase(elements) => fs[DatabaseFile := Database(elements)]
    case RemoveTree(path) => fs - {path}
    case Mirror(source, destination) => Mirrored(fs, source, destination)
    case _ => fs
  }

  /** The stand-in for the JSON text of the metadata document, whose serialisation is not modelled. */
  const DocumentText := "[...]"

  /**
   * What `cat <path> 2>/dev/null` prints: a file's text, the document's (never empty)
   * JSON text, and nothing for a missing path or a directory.
   */
  function TextAt(fs: map<string, Node>, path: string): string {
    if path !in fs then ""
    else match fs[path]
      case File(text) => text
      case Directory(_) => ""
      case Database(_) => DocumentText
  }

  /**
   * What a command prints. cat and the redirected echo and rm are modelled; the
   * output of du, find | wc and rsync is supplied as `toolOutput`.
   */
  function Output(fs: map<string, Node>, command: Command, toolOutput: string): string {
    match command
    case Cat(path) => TextAt(fs, path)
    case Echo(_, _) => ""
    case WriteDatabase(_) => ""
    case RemoveTree(_) => ""
    case _ => toolOutput
  }

  /** Whether the engine accepts `exec_run` in the container `id`. */
  function ExecStatus(containers: map<string, bool>, paused: set<string>, id: string): Outcome<Error> {
    if id !in containers then Fail(NoSuchContainer(id))
    else if !containers[id] then Fail(ContainerNotRunning(id))
    else if id in paused then Fail(ContainerPaused(id))
    else Pass
  }

  class Engine {
    var images: set<string>
    var volumes: set<string>
    var containers: map<string, bool>  // container name -> running
    var paused: set<string>
    var helper: Option<string>         // the module-level `container` handle of the tool
    var fs: map<string, Node>
    var trace: seq<Call>

    constructor (images: set<string>, volumes: set<string>, containers: map<string, bool>, fs: map<string, Node>)
      ensures this.images == images && this.volumes == volumes && this.containers == containers
      ensures this.fs == fs && paused == {} && helper == None && trace == []
    {
      this.images := images;
      this.volumes := volumes;
      this.containers := containers;
      this.fs := fs;
      paused := {};
      helper := None;
      trace := [];
    }
  }

  /** `client.images.build(tag=tag)`. */
  method BuildImage(e: Engine, tag: string)
    modifies e`images, e`trace
    ensures e.images == old(e.images) + {tag}
    ensures e.trace == old(e.trace) + [ImageBuilt(tag)]
  {
    e.images := e.images + {tag};
    e.trace := e.trace + [ImageBuilt(tag)];
  }

  /** `client.volumes.create(name=name)`. */
  method CreateVolume(e: Engine, name: string)
    modifies e`volumes, e`trace
    ensures e.volumes == old(e.volumes) + {name}
    ensures e.trace == old(e.trace) + [VolumeCreated(name)]
  {
    e.volumes := e.volumes + {name};
    e.trace := e.trace + [VolumeCreated(name)];
  }

  /** `client.containers.create(name=name, volumes_from=…)`: created, not started. */
  method CreateContainer(e: Engine, name: string, volumesFrom: string)
    requires name !in e.containers && volumesFrom in e.containers
    modifies e`containers, e`trace
    ensures e.containers == old(e.containers)[name := false]
    ensures e.trace == old(e.trace) + [ContainerCreated(name, volumesFrom)]
  {
    e.containers := e.containers[name := false];
    e.trace := e.trace + [ContainerCreated(name, volumesFrom)];
  }

  /** `client.containers.run(name=name, volumes_from=[…], detach=True)`: created and started. */
  method RunContainer(e: Engine, name: string, volumesFrom: string) returns (r: Outcome<Error>)
    requires name !in e.containers
    modifies e`containers, e`trace
    ensures volumesFrom !in old(e.containers) ==>
      r == Fail(NoSuchContainer(volumesFrom)) && e.containers == old(e.containers) && e.trace == old(e.trace)
    ensures volumesFrom in old(e.containers) ==>
      r == Pass && e.containers == old(e.containers)[name := true]
      && e.trace == old(e.trace) + [ContainerRun(name, volumesFrom)]
  {
    if volumesFrom !in e.containers {
      return Fail(NoSuchContainer(volumesFrom));
    }
    e.containers := e.containers[name := true];
    e.trace := e.trace + [ContainerRun(name, volumesFrom)];
    r := Pass;
  }

  /**
   * `container.start()`: the engine refuses to start a paused container (a conflict);
   * starting a running one changes nothing but is still a call.
   */
  method StartContainer(e: Engine, name: string) returns (r: Outcome<Error>)
    requires name in e.containers
    modifies e`containers, e`trace
    ensures r.Pass? <==> name !in e.paused
    ensures r.Pass? ==> e.containers == old(e.containers)[name := true] && e.trace == old(e.trace) + [Started(name)]
    ensures r.Fail? ==> r == Fail(Conflict(name)) && e.containers == old(e.containers) && e.trace == old(e.trace)
  {
    if name in e.paused {
      return Fail(Conflict(name));
    }
    e.containers := e.containers[name := true];
    e.trace := e.trace + [Started(name)];
    r := Pass;
  }

  /** `container.stop(timeout=…)`; the timeout is not modelled. */
  method StopContainer(e: Engine, name: string)
    requires name in e.containers
    modifies e`containers, e`paused, e`trace
    ensures e.containers == old(e.containers)[name := false]
    ensures e.paused == old(e.paused) - {name}
    ensures e.trace == old(e.trace) + [Stopped(name)]
  {
    e.containers := e.containers[name := false];
    e.paused := e.paused - {name};
    e.trace := e.trace + [Stopped(name)];
  }

  /** `container.remove(force=True)`. */
  method RemoveContainer(e: Engine, name: string)
    requires name in e.containers
    modifies e`containers, e`paused, e`trace
    ensures e.containers == old(e.containers) - {name}
    ensures e.paused == old(e.paused) - {name}
    ensures e.trace == old(e.trace) + [Removed(name)]
  {
    e.containers := e.containers - {name};
    e.paused := e.paused - {name};
    e.trace := e.trace + [Removed(name)];
  }

  /** `container.pause()`: refused unless the container runs and is not paused. */
  method PauseContainer(e: Engine, name: string) returns (r: Outcome<Error>)
    requires name in e.containers
    modifies e`paused, e`trace
    ensures r.Pass? <==> old(e.containers[name]) && name !in old(e.paused)
    ensures r.Pass? ==> e.paused == old(e.paused) + {name} && e.trace == old(e.trace) + [Paused(name)]
    ensures r.Fail? ==> r.error == Conflict(name) && e.paused == old(e.paused) && e.trace == old(e.trace)
  {
    if !e.containers[name] || name in e.paused {
      return Fail(Conflict(name));
    }
    e.paused := e.paused + {name};
    e.trace := e.trace + [Paused(name)];
    r := Pass;
  }

  /** `container.unpause()`: refused unless the container is paused. */
  method UnpauseContainer(e: Engine, name: string) returns (r: Outcome<Error>)
    requires name in e.containers
    modifies e`paused, e`trace
    ensures r.Pass? <==> name in old(e.paused)
    ensures r.Pass? ==> e.paused == old(e.paused) - {name} && e.trace == old(e.trace) + [Unpaused(name)]
    ensures r.Fail? ==> r.error == Conflict(name) && e.paused == old(e.paused) && e.trace == old(e.trace)
  {
    if name !in e.paused {
      return Fail(Conflict(name));
    }
    e.paused := e.paused - {name};
    e.trace := e.trace + [Unpaused(name)];
    r := Pass;
  }

  /** `container.exec_run(["sh", "-c", line])`, returning what the command printed. */
  method ExecRun(e: Engine, id: string, command: Command, toolOutput: string) returns (r: Result<string, Error>)
    modifies e`fs, e`trace
    ensures ExecStatus(e.containers, e.paused, id).Fail? ==>
      r == Failure(ExecStatus(e.containers, e.paused, id).error) && e.fs == old(e.fs) && e.trace == old(e.trace)
    ensures ExecStatus(e.containers, e.paused, id).Pass? ==>
      r == Success(Output(old(e.fs), command, toolOutput))
      && e.fs == Effect(old(e.fs), command) && e.trace == old(e.trace) + [Exec(id, command)]
  {
    var status := ExecStatus(e.containers, e.paused, id);
    if status.Fail? {
      return Failure(status.error);
    }
    r := Success(Output(e.fs, command, toolOutput));
    e.fs := Effect(e.fs, command);
    e.trace := e.trace + [Exec(id, command)];
  }

  /**
   * `echo` of the quoted content writes exactly the content followed by echo's
   * newline, whatever quotes or blanks it holds, and `cat` prints that back.
   */
  lemma EchoThenCat(fs: map<string, Node>, content: string, path: string)
    ensures Effect(fs, Echo(ShellQuote.Quote(content), path)) == fs[path := File(content + "\n")]
    ensures Output(Effect(fs, Echo(ShellQuote.Quote(content), path)), Cat(path), "") == content + "\n"
  {
    ShellQuote.QuoteRoundTrip(content);
  }
}
