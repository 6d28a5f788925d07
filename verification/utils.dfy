/**
 * Path and configuration helpers shared by the commands. A path is the sequence of
 * its components below the filesystem root (the root itself is the empty sequence);
 * the filesystem is the set of paths that exist; the configuration file holds a
 * JSON value.
 */
module Utils {
  import opened Wrappers

  type Path = seq<string>

  /** Directory below the home directory that holds the tool's global data. */
  const GlobalDataDir: string := ".devtools-cli"

  /** Name of the per-project configuration file. */
  const LocalConfigFile: string := ".devtools"

  /** A change a call asks of the filesystem. */
  datatype Effect = MakeDirs(dir: Path) | Touch(file: Path)

  /** `get_data_storage_path`: the data directory below `home`, then the subdirectory and
      the file name when they are not empty; with `create`, the directory and the file
      are made. */
  function DataStoragePath(home: Path, subdir: string, filename: string, create: bool): (r: (Path, seq<Effect>))
    ensures home + [GlobalDataDir] <= r.0
    ensures |r.0| == |home| + 1 + (if subdir != "" then 1 else 0) + (if filename != "" then 1 else 0)
    ensures forall i :: |home| < i < |r.0| ==> r.0[i] != ""
    ensures subdir != "" ==> r.0[|home| + 1] == subdir
    ensures filename != "" ==> r.0[|r.0| - 1] == filename
    ensures !create ==> r.1 == []
    ensures forall e :: e in r.1 ==> (e.MakeDirs? && e.dir <= r.0) || (e.Touch? && e.file == r.0)
    ensures create && subdir != "" ==> MakeDirs(home + [GlobalDataDir, subdir]) in r.1
    ensures create && filename != "" ==> Touch(r.0) in r.1
    ensures |r.1| == (if create && subdir != "" then 1 else 0) + (if create && filename != "" then 1 else 0)
    ensures subdir == "" ==> forall e :: e in r.1 ==> e.Touch?
    ensures filename == "" ==> forall e :: e in r.1 ==> e.MakeDirs?
  {
    (StoragePath(home, subdir, filename), StorageEffects(home, subdir, filename, create))
  }

  /** The path part of `get_data_storage_path`. */
  function StoragePath(home: Path, subdir: string, filename: string): (p: Path)
    ensures home + [GlobalDataDir] <= p
    ensures subdir != "" ==> home + [GlobalDataDir, subdir] <= p
    ensures |p| == |home| + 1 + (if subdir != "" then 1 else 0) + (if filename != "" then 1 else 0)
    ensures forall i :: |home| < i < |p| ==> p[i] != ""
    ensures subdir != "" ==> p[|home| + 1] == subdir
    ensures filename != "" ==> p[|p| - 1] == filename
  {
    var base := home + [GlobalDataDir];
    var dir := if subdir != "" then base + [subdir] else base;
    var path := if filename != "" then dir + [filename] else dir;
    assert dir <= path;
    assert forall i :: |home| < i < |path| ==> path[i] in [GlobalDataDir, subdir, filename];
    path
  }

  /** What `get_data_storage_path` makes: the subdirectory, then the file, each only
      when it is named and `create` is set. */
  function StorageEffects(home: Path, subdir: string, filename: string, create: bool): (es: seq<Effect>)
    ensures !create ==> es == []
    ensures forall e :: e in es ==>
      (e.MakeDirs? && e.dir <= StoragePath(home, subdir, filename)) || (e.Touch? && e.file == StoragePath(home, subdir, filename))
    ensures create && subdir != "" ==> MakeDirs(home + [GlobalDataDir, subdir]) in es
    ensures create && filename != "" ==> Touch(StoragePath(home, subdir, filename)) in es
    ensures |es| == (if create && subdir != "" then 1 else 0) + (if create && filename != "" then 1 else 0)
    ensures subdir == "" ==> forall e :: e in es ==> e.Touch?
    ensures filename == "" ==> forall e :: e in es ==> e.MakeDirs?
  {
    var dirEffects := if subdir != "" && create then [MakeDirs(home + [GlobalDataDir, subdir])] else [];
    var fileEffects := if filename != "" && create then [Touch(StoragePath(home, subdir, filename))] else [];
    dirEffects + fileEffects
  }

  /** The file's path is its directory's path with the file name added, and asking for
      creation changes only what is made, never the path. */
  lemma DataStoragePathParent(home: Path, subdir: string, filename: string, create: bool)
    requires filename != ""
    ensures DataStoragePath(home, subdir, filename, create).0 ==
      DataStoragePath(home, subdir, "", false).0 + [filename]
  {
  }

  /** The deepest directory from `cwd` upward, the root excluded, that holds the
      configuration file: its depth, or `None` when there is none. */
  function NearestConfig(cwd: Path, existing: set<Path>): (r: Option<nat>)
    ensures r.Some? ==> 0 < r.value <= |cwd| && cwd[..r.value] + [LocalConfigFile] in existing
    ensures r.Some? ==> forall k :: r.value < k <= |cwd| ==> cwd[..k] + [LocalConfigFile] !in existing
    ensures r.None? ==> forall k :: 0 < k <= |cwd| ==> cwd[..k] + [LocalConfigFile] !in existing
    decreases |cwd|
  {
    if |cwd| == 0 then None
    else if cwd + [LocalConfigFile] in existing then
      assert cwd[..|cwd|] == cwd;
      Some(|cwd|)
    else
      var parent := cwd[..|cwd| - 1];
      assert forall k :: 0 < k <= |parent| ==> parent[..k] == cwd[..k];
      assert cwd[..|cwd|] == cwd;
      NearestConfig(parent, existing)
  }

  /** `find_local_config_file`: climbs from `cwd` towards the root, which it does not
      look in, and returns the first configuration file it meets; without one it returns
      the file in `cwd` and touches it. */
  method FindLocalConfig(cwd: Path, existing: set<Path>) returns (path: Path, touched: bool)
    ensures match NearestConfig(cwd, existing)
      case Some(k) => path == cwd[..k] + [LocalConfigFile] && !touched
      case None => path == cwd + [LocalConfigFile] && touched
  {
    var current := cwd;
    while current != []
      invariant |current| <= |cwd| && current == cwd[..|current|]
      invariant forall k :: |current| < k <= |cwd| ==> cwd[..k] + [LocalConfigFile] !in existing
      decreases |current|
    {
      var candidate := current + [LocalConfigFile];
      if candidate in existing {
        return candidate, false;
      }
      current := current[..|current| - 1];
    }
    return cwd + [LocalConfigFile], true;
  }

  /** A configuration file at the filesystem root is never found: the file in `cwd` is
      used instead. */
  lemma RootConfigIgnored(cwd: Path)
    ensures NearestConfig(cwd, {[LocalConfigFile]}).None?
  {
    forall k | 0 < k <= |cwd| ensures cwd[..k] + [LocalConfigFile] != [LocalConfigFile] {
      assert |cwd[..k] + [LocalConfigFile]| == k + 1;
    }
  }

  /** The two errors `check_model_type` raises. */
  datatype CheckError = TypeError | ValueError

  /** What the subclass and instance tests answer for an argument. A test of something
      that is not a class raises `TypeError`, the error a failed test raises, so it
      counts as a failed test. */
  datatype ModelArg = ModelArg(isSubclass: bool, isInstance: bool)

  /** `check_model_type`: `"class"` asks for a model class, `"object"` for a model
      instance, and anything else is a `ValueError`. */
  function CheckModelType(arg: ModelArg, kind: string): (r: Result<(), CheckError>)
    ensures r.Ok? <==> (kind == "class" && arg.isSubclass) || (kind == "object" && arg.isInstance)
    ensures r == Err(ValueError) <==> kind != "class" && kind != "object"
  {
    if kind == "class" then
      if !arg.isSubclass then Err(TypeError) else Ok(())
    else if kind == "object" then
      if !arg.isInstance then Err(TypeError) else Ok(())
    else Err(ValueError)
  }

  /** A JSON value: an object, or any other value, kept as its text. */
  datatype Json = JObject(fields: map<string, Json>) | JOther(text: string)

  /** The configuration file as the loader sees it. */
  datatype Stored = Empty | Malformed | Holds(value: Json)

  /** Why reading or writing the configuration fails: the argument check, a file that is
      not JSON, or a value where an object is needed. */
  datatype ConfigError = Check(e: CheckError) | DecodeError | NotAnObject

  /** `read_local_config_file`: the fields the model class is built from. An empty file
      reads as `{}`; a non-empty section selects that member, `{}` when it is absent. The
      empty string stands for both the missing and the empty section argument. */
  function ReadLocalConfig(cls: ModelArg, stored: Stored, section: string): (r: Result<map<string, Json>, ConfigError>)
    ensures !cls.isSubclass ==> r == Err(Check(TypeError))
    ensures cls.isSubclass && stored.Malformed? ==> r == Err(DecodeError)
    ensures cls.isSubclass && stored.Empty? ==> r == Ok(map[])
    ensures cls.isSubclass && section == "" && stored.Holds? && stored.value.JObject? ==>
      r == Ok(stored.value.fields)
    ensures (cls.isSubclass && section != "" && stored.Holds? && stored.value.JObject? &&
      section !in stored.value.fields) ==> r == Ok(map[])
    ensures (cls.isSubclass && section != "" && stored.Holds? && stored.value.JObject? &&
      section in stored.value.fields) ==>
      r == (if stored.value.fields[section].JObject? then Ok(stored.value.fields[section].fields) else Err(NotAnObject))
    ensures cls.isSubclass && stored.Holds? && stored.value.JOther? ==> r == Err(NotAnObject)
  {
    match CheckModelType(cls, "class")
    case Err(e) => Err(Check(e))
    case Ok(_) =>
      match stored
      case Malformed => Err(DecodeError)
      case Empty => Selected(JObject(map[]), section)
      case Holds(v) => Selected(v, section)
  }

  /** The section of a loaded value, as keyword arguments. */
  function Selected(data: Json, section: string): Result<map<string, Json>, ConfigError> {
    if section != "" then
      match data
      case JOther(_) => Err(NotAnObject)
      case JObject(fs) =>
        var chosen := if section in fs then fs[section] else JObject(map[]);
        if chosen.JObject? then Ok(chosen.fields) else Err(NotAnObject)
    else if data.JObject? then Ok(data.fields)
    else Err(NotAnObject)
  }

  /** A model instance: whether it passes the instance test, all of its fields, and the
      names its class declares. */
  datatype ModelObj = ModelObj(isInstance: bool, fields: map<string, Json>, declared: set<string>)

  /** `to_dict`: only the declared fields. */
  function ToDict(obj: ModelObj): (r: map<string, Json>)
    ensures r.Keys == obj.fields.Keys * obj.declared
    ensures forall k :: k in r ==> r[k] == obj.fields[k]
  {
    map k | k in obj.fields.Keys * obj.declared :: obj.fields[k]
  }

  /** The base model class itself, which the sectioned write reads the whole file into. */
  const BaseModelClass: ModelArg := ModelArg(true, false)

  /** `write_local_config_file`: the value written. Without a section the file becomes the
      model's declared fields; with one, the whole file is read and only that member is
      replaced by the model's fields. */
  function WriteLocalConfig(obj: ModelObj, stored: Stored, section: string): (r: Result<Json, ConfigError>)
    ensures !obj.isInstance ==> r == Err(Check(TypeError))
    ensures obj.isInstance && section == "" ==> r == Ok(JObject(ToDict(obj)))
    ensures obj.isInstance && section != "" ==>
      (r.Ok? <==> ReadLocalConfig(BaseModelClass, stored, "").Ok?)
  {
    match CheckModelType(ModelArg(false, obj.isInstance), "object")
    case Err(e) => Err(Check(e))
    case Ok(_) =>
      if section != "" then
        match ReadLocalConfig(BaseModelClass, stored, "")
        case Err(e) => Err(e)
        case Ok(whole) => Ok(JObject(whole[section := JObject(obj.fields)]))
      else Ok(JObject(ToDict(obj)))
  }

  /** Reading back the section just written gives the model's fields. */
  lemma WriteThenReadSection(cls: ModelArg, obj: ModelObj, stored: Stored, section: string)
    requires cls.isSubclass && section != ""
    requires WriteLocalConfig(obj, stored, section).Ok?
    ensures ReadLocalConfig(cls, Holds(WriteLocalConfig(obj, stored, section).value), section) == Ok(obj.fields)
  {
  }

  /** A sectioned write leaves every other section as it was. */
  lemma WriteKeepsOtherSections(cls: ModelArg, obj: ModelObj, stored: Stored, section: string, other: string)
    requires cls.isSubclass && section != "" && other != "" && other != section
    requires WriteLocalConfig(obj, stored, section).Ok?
    ensures ReadLocalConfig(cls, Holds(WriteLocalConfig(obj, stored, section).value), other) ==
      ReadLocalConfig(cls, stored, other)
  {
    match stored
    case Empty =>
    case Holds(v) =>
    case Malformed =>
  }

  /** A write without a section replaces the whole file: reading it back gives the
      declared fields only. */
  lemma WriteWholeThenRead(cls: ModelArg, obj: ModelObj, stored: Stored)
    requires cls.isSubclass && obj.isInstance
    ensures ReadLocalConfig(cls, Holds(WriteLocalConfig(obj, stored, "").value), "") == Ok(ToDict(obj))
  {
  }
}
