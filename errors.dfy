/** The exceptions the snapshot tool raises, one constructor per kind. */
module Errors {

  datatype Error =
    | HandleNotSet                   // RuntimeError("container global not set")
    | NoneHandle(attribute: string)  // AttributeError: the handle is None and has no `attribute`
    | NoSuchContainer(id: string)    // docker.errors.NotFound raised by the engine
    | NullResource                   // docker.errors.NullResource: `containers.get` of an empty name
    | ContainerNotRunning(id: string) // docker.errors.APIError (409): exec into a stopped container
    | ContainerPaused(id: string)     // docker.errors.APIError (409): exec into a paused container
    | Conflict(id: string)            // docker.errors.APIError (409): pause/unpause in the wrong state
    | TargetNotFound(name: string)    // "Target container with name … not found."
    | ContainerMissing(name: string)  // "Container `…` not found"
    | AlreadyExists                   // "A snapshot with that name already exists"
    | DuplicateName                   // "This shouldn't happen - 2 snapshots with the same name"
    | NoSnapshotFound                 // "No snapshot found"
    | ExpectedDict                    // RuntimeError("expected dict from json")
    | NotAMapping                     // TypeError: Snapshot(**x) with x not a dict
    | UnexpectedKeyword(key: string)  // TypeError: Snapshot(**x) with a key the record lacks
    | MalformedJson                   // json.JSONDecodeError
    | NotAnInteger(text: string)      // ValueError raised by int()
    | SettingsFileMissing             // FileNotFoundError("Didn't find 'ds.yaml'. …")
    | MissingArgument(name: string)   // TypeError: a required positional argument was not passed
    | MissingModuleAttribute(name: string) // AttributeError: module has no attribute `name`
    | NeitherSuffixNorPlural          // ValueError("either `suffix` or `plural` must be non-null")

  /** The text of the message a user sees for the errors the tool raises itself. */
  function Message(e: Error): string {
    match e
    case HandleNotSet => "container global not set"
    case TargetNotFound(name) => "Target container with name " + name + " not found."
    case ContainerMissing(name) => "Container `" + name + "` not found"
    case AlreadyExists => "A snapshot with that name already exists"
    case DuplicateName => "This shouldn't happen - 2 snapshots with the same name"
    case NoSnapshotFound => "No snapshot found"
    case ExpectedDict => "expected dict from json"
    case SettingsFileMissing => "Didn't find 'ds.yaml'. Run init and try again."
    case NeitherSuffixNorPlural => "either `suffix` or `plural` must be non-null"
    case _ => ""
  }
}
