/**
 * The tool's settings: a target container name, the directory inside it that is
 * snapshotted, and the namespace the helper resources are named after. They come
 * from ds.yaml, fall back to defaults when that file is missing, and are overridden
 * field by field by the command-line options.
 */
module Settings {
  import opened Wrappers
  import opened Errors

  /** The dataclass `Settings`. */
  datatype Settings = Settings(containerName: string, directory: string, namespace: string)

  /** The command-line options: an option not given is None. */
  datatype Overrides = Overrides(containerName: Option<string>, directory: Option<string>, namespace: Option<string>)

  /** ds.yaml as the loader sees it; the YAML text and its parsing are not modelled. */
  datatype SettingsFile = Missing | Present(settings: Settings)

  /** The attributes `get` is asked for. */
  datatype Attribute = ContainerName | Directory | Namespace

  /** `get_default_settings`. */
  function DefaultSettings(): Settings {
    Settings("", "/", "ds")
  }

  /** `replacement or original` for an optional string: None and "" are falsy. */
  function Pick(replacement: Option<string>, original: string): string {
    if replacement.Some? && replacement.value != "" then replacement.value else original
  }

  /** `_override`: each field is the replacement when it is truthy, otherwise the original. */
  function Override(original: Settings, replacement: Overrides): Settings {
    Settings(
      Pick(replacement.containerName, original.containerName),
      Pick(replacement.directory, original.directory),
      Pick(replacement.namespace, original.namespace))
  }

  /** An option that was given and is not empty. */
  predicate Given(o: Option<string>) {
    o.Some? && o.value != ""
  }

  /** Each field comes from the replacement exactly when that option is given, else from the original. */
  lemma OverrideFields(original: Settings, replacement: Overrides)
    ensures Given(replacement.containerName) ==> Override(original, replacement).containerName == replacement.containerName.value
    ensures !Given(replacement.containerName) ==> Override(original, replacement).containerName == original.containerName
    ensures Given(replacement.directory) ==> Override(original, replacement).directory == replacement.directory.value
    ensures !Given(replacement.directory) ==> Override(original, replacement).directory == original.directory
    ensures Given(replacement.namespace) ==> Override(original, replacement).namespace == replacement.namespace.value
    ensures !Given(replacement.namespace) ==> Override(original, replacement).namespace == original.namespace
  {
  }

  /** Options that are all absent or empty leave the settings as they were. */
  lemma OverrideNothing(original: Settings, replacement: Overrides)
    requires !Given(replacement.containerName) && !Given(replacement.directory) && !Given(replacement.namespace)
    ensures Override(original, replacement) == original
  {
  }

  /** Overriding twice with the same options is overriding once. */
  lemma OverrideIdempotent(original: Settings, replacement: Overrides)
    ensures Override(Override(original, replacement), replacement) == Override(original, replacement)
  {
  }

  /** A field that is non-empty before the override is non-empty after it. */
  lemma OverrideKeepsNonEmpty(original: Settings, replacement: Overrides)
    ensures original.containerName != "" ==> Override(original, replacement).containerName != ""
    ensures original.directory != "" ==> Override(original, replacement).directory != ""
    ensures original.namespace != "" ==> Override(original, replacement).namespace != ""
  {
  }

  /** `_load`: the file's settings, or the defaults when the file is missing. */
  function LoadOrDefault(file: SettingsFile): Settings {
    match file
    case Missing => DefaultSettings()
    case Present(s) => s
  }

  /** `load(**kwargs)`. */
  function Load(file: SettingsFile, options: Overrides): Settings {
    Override(LoadOrDefault(file), options)
  }

  /**
   * Without ds.yaml the settings are the defaults with the options applied: the
   * directory is "/" and the namespace "ds" unless overridden, and neither is ever empty.
   */
  lemma LoadWithoutFile(options: Overrides)
    ensures Load(Missing, options).containerName == Pick(options.containerName, "")
    ensures Load(Missing, options).directory == Pick(options.directory, "/")
    ensures Load(Missing, options).namespace == Pick(options.namespace, "ds")
    ensures Load(Missing, options).directory != "" && Load(Missing, options).namespace != ""
  {
    OverrideKeepsNonEmpty(DefaultSettings(), options);
  }

  /** With ds.yaml present, options that are not given leave its settings as written. */
  lemma LoadFileUnlessOverridden(s: Settings, options: Overrides)
    requires !Given(options.containerName) && !Given(options.directory) && !Given(options.namespace)
    ensures Load(Present(s), options) == s
  {
    OverrideNothing(s, options);
  }

  function Field(s: Settings, attribute: Attribute): string {
    match attribute
    case ContainerName => s.containerName
    case Directory => s.directory
    case Namespace => s.namespace
  }

  /** The module-level `_data` cache behind `get`. */
  class SettingsCache {
    var data: Option<Settings>

    constructor ()
      ensures data == None
    {
      data := None;
    }

    /**
     * `get`: the file is read only while nothing is cached, and then cached. Unlike
     * `_load`, a missing file is an error and not the defaults; the cache then stays
     * empty. A `Settings` instance is always truthy, so a cached value is always used.
     */
    method Get(file: SettingsFile, attribute: Attribute) returns (r: Result<string, Error>)
      modifies this
      ensures old(data).Some? ==> r == Success(Field(old(data).value, attribute)) && data == old(data)
      ensures old(data).None? && file.Missing? ==> r == Failure(SettingsFileMissing) && data == None
      ensures old(data).None? && file.Present? ==>
        r == Success(Field(file.settings, attribute)) && data == Some(file.settings)
    {
      if data.Some? {
        return Success(Field(data.value, attribute));
      }
      if file.Missing? {
        return Failure(SettingsFileMissing);
      }
      data := Some(file.settings);
      r := Success(Field(data.value, attribute));
    }
  }

  /**
   * Once one `get` has succeeded, every later one answers from the cache, whatever
   * the file then holds.
   */
  method GetReadsFileOnce(cache: SettingsCache, first: SettingsFile, second: SettingsFile, a: Attribute, b: Attribute)
    returns (x: Result<string, Error>, y: Result<string, Error>)
    modifies cache
    ensures x.Success? ==> cache.data.Some? && y == Success(Field(cache.data.value, b))
    ensures old(cache.data).None? && first.Present? ==> y == Success(Field(first.settings, b))
  {
    x := cache.Get(first, a);
    y := cache.Get(second, b);
  }
}
