/**
 * Loading and saving the two-level configuration (src/core/config/store.rs).
 *
 * The filesystem is a map from path to file contents. JSON parsing and
 * printing and `fs::canonicalize` are collaborators this model cannot see,
 * so they are passed in as functions; the properties that need anything of
 * them say so in their `requires`.
 */
module ConfigStore {
  import opened Outcomes
  import opened Errors
  import opened ConfigModel
  import opened Workspaces
  import opened MaestroModel

  /** The fixed pointer file, standing for its canonical name in the working directory. */
  const PointerFile := "maestro.json"

  /** File contents by canonical path. */
  type Files = map<string, string>

  /** `serde_json` as the store uses it. */
  datatype Serde = Serde(
    parseConfig: string -> Option<Config>,
    printConfig: Config -> string,
    parseMaestro: string -> Option<Maestro>)

  /** `fs::canonicalize`, given the filesystem it runs against. */
  type Canonicalizer = (Files, string) -> Option<string>

  /** What `to_writer_pretty` writes, `from_reader` reads back. */
  ghost predicate ConfigRoundTrip(serde: Serde) {
    forall c: Config :: serde.parseConfig(serde.printConfig(c)) == Some(c)
  }

  /** An empty file is not a Config (serde_json fails at end of input). */
  predicate RejectsEmpty(serde: Serde) {
    serde.parseConfig("").None?
  }

  /**
   * The second half of `load_config` (store.rs:53-71): open the user file at
   * `path`, parse it as a Maestro, validate it. Only a Maestro that parsed
   * from that very file and whose every workspace is accepted is returned.
   */
  function FollowPointer(serde: Serde, rule: WorkspaceRule, files: Files, path: string)
    : (r: Result<Maestro, MaestroError>)
    ensures r.Ok? ==> path in files && serde.parseMaestro(files[path]) == Some(r.value)
    ensures r.Ok? ==> forall i :: 0 <= i < |r.value.workspaces| ==> Accepts(rule, r.value.workspaces[i])
  {
    if path !in files then Err(ConfigError(LoadUserConfig))
    else match serde.parseMaestro(files[path])
      case None => Err(SerdeError(ParseUserConfig))
      case Some(maestro) =>
        match ValidateWorkspaces(rule, maestro.workspaces)
        case Err(e) => Err(e)
        case Ok(_) => Ok(maestro)
  }

  /**
   * `load_config` (store.rs:36-72) over a snapshot of the filesystem: read the
   * pointer file, parse it, then follow the path it holds. A success is the
   * user file's parsed, fully validated contents, never a part of them.
   */
  function LoadConfig(serde: Serde, rule: WorkspaceRule, files: Files): (r: Result<Maestro, MaestroError>)
    ensures r.Ok? ==> PointerFile in files && serde.parseConfig(files[PointerFile]).Some?
    ensures r.Ok? ==> var path := serde.parseConfig(files[PointerFile]).value.configFilePath;
                      path in files && serde.parseMaestro(files[path]) == Some(r.value)
    ensures r.Ok? ==> ValidateWorkspaces(rule, r.value.workspaces).Ok?
  {
    if PointerFile !in files then Err(ConfigError(LoadMaestroConfig))
    else match serde.parseConfig(files[PointerFile])
      case None => Err(SerdeError(ParseMaestroConfig))
      case Some(config) => FollowPointer(serde, rule, files, config.configFilePath)
  }

  /** store.rs:37-43: no pointer file, no configuration; nothing else matters. */
  lemma LoadWithoutPointerFile(serde: Serde, rule: WorkspaceRule, files: Files)
    requires PointerFile !in files
    ensures LoadConfig(serde, rule, files) == Err(ConfigError(LoadMaestroConfig))
  {
  }

  /** store.rs:45-51: a pointer file that is not a Config. */
  lemma LoadMalformedPointer(serde: Serde, rule: WorkspaceRule, files: Files)
    requires PointerFile in files && serde.parseConfig(files[PointerFile]).None?
    ensures LoadConfig(serde, rule, files) == Err(SerdeError(ParseMaestroConfig))
  {
  }

  /** store.rs:53-58: maestro.json holds the path of a missing file. */
  lemma LoadMissingUserFile(serde: Serde, rule: WorkspaceRule, files: Files, config: Config)
    requires PointerFile in files && serde.parseConfig(files[PointerFile]) == Some(config)
    requires config.configFilePath !in files
    ensures LoadConfig(serde, rule, files) == Err(ConfigError(LoadUserConfig))
  {
  }

  /** store.rs:61-66: the user file is not a Maestro. */
  lemma LoadMalformedUserFile(serde: Serde, rule: WorkspaceRule, files: Files, config: Config)
    requires PointerFile in files && serde.parseConfig(files[PointerFile]) == Some(config)
    requires config.configFilePath in files
    requires serde.parseMaestro(files[config.configFilePath]).None?
    ensures LoadConfig(serde, rule, files) == Err(SerdeError(ParseUserConfig))
  {
  }

  /**
   * store.rs:69: a rejected workspace makes the load fail with the first
   * rejected workspace's error, unchanged.
   */
  lemma LoadRejectedWorkspace(serde: Serde, rule: WorkspaceRule, files: Files,
                              config: Config, maestro: Maestro, k: int)
    requires PointerFile in files && serde.parseConfig(files[PointerFile]) == Some(config)
    requires config.configFilePath in files
    requires serde.parseMaestro(files[config.configFilePath]) == Some(maestro)
    requires FirstRejected(rule, maestro.workspaces, k)
    ensures LoadConfig(serde, rule, files) == Err(ValidationError(rule(maestro.workspaces[k]).value))
  {
  }

  /**
   * store.rs:36-72: the load succeeds exactly when every stage does and every
   * workspace is accepted, and then returns the parsed user file as it is.
   */
  lemma LoadSucceedsIff(serde: Serde, rule: WorkspaceRule, files: Files, m: Maestro)
    ensures LoadConfig(serde, rule, files) == Ok(m)
        <==> && PointerFile in files
             && serde.parseConfig(files[PointerFile]).Some?
             && var path := serde.parseConfig(files[PointerFile]).value.configFilePath;
             && path in files
             && serde.parseMaestro(files[path]) == Some(m)
             && forall i :: 0 <= i < |m.workspaces| ==> Accepts(rule, m.workspaces[i])
  {
  }

  /**
   * The error kinds of a load, each tied to the filesystem states that give
   * it: ConfigError covers both files that can be missing, SerdeError both
   * files that can be malformed, ValidationError a rejected workspace.
   */
  lemma LoadErrorKinds(serde: Serde, rule: WorkspaceRule, files: Files)
    ensures var r := LoadConfig(serde, rule, files);
      && (r.Err? && r.error.ConfigError? <==>
            || PointerFile !in files
            || (serde.parseConfig(files[PointerFile]).Some? &&
                serde.parseConfig(files[PointerFile]).value.configFilePath !in files))
      && (r.Err? && r.error.SerdeError? <==>
            && PointerFile in files
            && (|| serde.parseConfig(files[PointerFile]).None?
                || (var path := serde.parseConfig(files[PointerFile]).value.configFilePath;
                    path in files && serde.parseMaestro(files[path]).None?)))
      && (r.Err? && r.error.ValidationError? <==>
            && PointerFile in files
            && serde.parseConfig(files[PointerFile]).Some?
            && var path := serde.parseConfig(files[PointerFile]).value.configFilePath;
            && path in files
            && serde.parseMaestro(files[path]).Some?
            && exists k :: FirstRejected(rule, serde.parseMaestro(files[path]).value.workspaces, k))
  {
  }

  /**
   * A load reads two files and nothing else: filesystems that agree on the
   * pointer file and on the file it names give the same result.
   */
  lemma LoadReadsOnlyTwoFiles(serde: Serde, rule: WorkspaceRule, files: Files, other: Files)
    requires PointerFile in files <==> PointerFile in other
    requires PointerFile in files ==> files[PointerFile] == other[PointerFile]
    requires PointerFile in files && serde.parseConfig(files[PointerFile]).Some? ==>
               var path := serde.parseConfig(files[PointerFile]).value.configFilePath;
               (path in files <==> path in other) && (path in files ==> files[path] == other[path])
    ensures LoadConfig(serde, rule, files) == LoadConfig(serde, rule, other)
  {
  }

  /** The filesystem after a save has written the pointer to `path`. */
  function PointerWritten(serde: Serde, files: Files, path: string): Files {
    files[PointerFile := serde.printConfig(New(path))]
  }

  /**
   * Save then load (store.rs:109-118 and 53): once the pointer to `path` is
   * written, a load follows `path`, and when `path` is not the pointer file
   * itself it reads the user file as it was before the save.
   */
  lemma SaveThenLoad(serde: Serde, rule: WorkspaceRule, files: Files, path: string)
    requires ConfigRoundTrip(serde)
    ensures LoadConfig(serde, rule, PointerWritten(serde, files, path))
         == FollowPointer(serde, rule, PointerWritten(serde, files, path), path)
    ensures path != PointerFile ==>
              (LoadConfig(serde, rule, PointerWritten(serde, files, path))
               == FollowPointer(serde, rule, files, path))
  {
  }

  /**
   * store.rs:128-168: the user file holds WorkspaceA and WorkspaceB; after the
   * save, the load returns both, in file order.
   */
  lemma SaveAndLoadScenario(serde: Serde, rule: WorkspaceRule, files: Files, path: string)
    requires ConfigRoundTrip(serde) && AgreesWithTests(rule)
    requires path != PointerFile && path in files
    requires serde.parseMaestro(files[path]) == Some(Maestro([ExampleA, ExampleB]))
    ensures LoadConfig(serde, rule, PointerWritten(serde, files, path)) == Ok(Maestro([ExampleA, ExampleB]))
  {
  }

  /**
   * store.rs:209-249: the user file holds "WorkspaceA" then "Workspace B";
   * the load fails with the validation error of "Workspace B".
   */
  lemma InvalidWorkspaceScenario(serde: Serde, rule: WorkspaceRule, files: Files, path: string)
    requires ConfigRoundTrip(serde) && AgreesWithTests(rule)
    requires path != PointerFile && path in files
    requires serde.parseMaestro(files[path]) == Some(Maestro([ExampleA, ExampleSpaced]))
    ensures LoadConfig(serde, rule, PointerWritten(serde, files, path))
         == Err(ValidationError(rule(ExampleSpaced).value))
  {
    SaveThenLoad(serde, rule, files, path);
    InvalidWorkspaceExample(rule);
  }

  /**
   * A pointer file left empty does not load, whatever it pointed to before:
   * the state a failed save leaves behind (see Disk.SaveUserConfigFile).
   */
  lemma EmptiedPointerDoesNotLoad(serde: Serde, rule: WorkspaceRule, files: Files)
    requires RejectsEmpty(serde)
    ensures LoadConfig(serde, rule, files[PointerFile := ""]) == Err(SerdeError(ParseMaestroConfig))
  {
  }

  /**
   * The working directory's files and the two ways the OS can refuse a
   * write: paths that `File::create` cannot open, and a device that takes
   * no more bytes.
   */
  class Disk {
    var files: Files
    var readOnly: set<string>
    var noSpace: bool

    constructor (files: Files, readOnly: set<string>, noSpace: bool)
      ensures this.files == files && this.readOnly == readOnly && this.noSpace == noSpace
    {
      this.files := files;
      this.readOnly := readOnly;
      this.noSpace := noSpace;
    }

    /**
     * `save_user_config_file` (store.rs:94-119) as written: it creates or
     * truncates maestro.json first, then canonicalises the user path against
     * the filesystem as it now is, then writes a Config holding the canonical
     * path and returns that path. A failure after the truncation leaves
     * maestro.json empty.
     */
    method SaveUserConfigFile(serde: Serde, canonicalize: Canonicalizer, userPath: string)
      returns (r: Result<string, MaestroError>)
      modifies this`files
      ensures PointerFile in readOnly ==>
                r == Err(ConfigError(ConfigureMaestro)) && files == old(files)
      ensures PointerFile !in readOnly ==>
                var truncated := old(files)[PointerFile := ""];
                match canonicalize(truncated, userPath)
                case None =>
                  r == Err(ConfigError(CanonicalizePath)) && files == truncated
                case Some(path) =>
                  if noSpace then r == Err(SerdeError(WriteMaestroConfig)) && files == truncated
                  else r == Ok(path) && files == PointerWritten(serde, old(files), path)
    {
      if PointerFile in readOnly {
        return Err(ConfigError(ConfigureMaestro));
      }
      files := files[PointerFile := ""];
      var absolutePath := canonicalize(files, userPath);
      if absolutePath.None? {
        return Err(ConfigError(CanonicalizePath));
      }
      var config := New(absolutePath.value);
      if noSpace {
        return Err(SerdeError(WriteMaestroConfig));
      }
      files := files[PointerFile := serde.printConfig(config)];
      return Ok(absolutePath.value);
    }

    /**
     * The save with the path resolved before maestro.json is touched: a path
     * that does not resolve leaves every file as it was, so a configuration
     * that loaded before still loads. Otherwise it behaves as the save above.
     */
    method SaveUserConfigFileResolvedFirst(serde: Serde, canonicalize: Canonicalizer, userPath: string)
      returns (r: Result<string, MaestroError>)
      modifies this`files
      ensures canonicalize(old(files), userPath).None? ==>
                r == Err(ConfigError(CanonicalizePath)) && files == old(files)
      ensures canonicalize(old(files), userPath).Some? && PointerFile in readOnly ==>
                r == Err(ConfigError(ConfigureMaestro)) && files == old(files)
      ensures canonicalize(old(files), userPath).Some? && PointerFile !in readOnly ==>
                var path := canonicalize(old(files), userPath).value;
                if noSpace then r == Err(SerdeError(WriteMaestroConfig)) && files == old(files)[PointerFile := ""]
                else r == Ok(path) && files == PointerWritten(serde, old(files), path)
      ensures r.Err? && r.error.stage != WriteMaestroConfig ==> files == old(files)
    {
      var absolutePath := canonicalize(files, userPath);
      if absolutePath.None? {
        return Err(ConfigError(CanonicalizePath));
      }
      if PointerFile in readOnly {
        return Err(ConfigError(ConfigureMaestro));
      }
      files := files[PointerFile := ""];
      var config := New(absolutePath.value);
      if noSpace {
        return Err(SerdeError(WriteMaestroConfig));
      }
      files := files[PointerFile := serde.printConfig(config)];
      return Ok(absolutePath.value);
    }
  }

  /**
   * The finding, on a concrete disk: a working configuration, a save whose
   * path does not resolve, and a load that no longer succeeds afterwards,
   * while the corrected save leaves the configuration loadable.
   */
  method FailedSaveScenario(serde: Serde, rule: WorkspaceRule, canonicalize: Canonicalizer,
                            files: Files, badPath: string)
    returns (before: Result<Maestro, MaestroError>, afterAsWritten: Result<Maestro, MaestroError>,
             afterResolvedFirst: Result<Maestro, MaestroError>)
    requires RejectsEmpty(serde)
    requires PointerFile in files
    requires canonicalize(files, badPath).None? && canonicalize(files[PointerFile := ""], badPath).None?
    ensures before == LoadConfig(serde, rule, files)
    ensures afterAsWritten == Err(SerdeError(ParseMaestroConfig))
    ensures afterResolvedFirst == before
  {
    before := LoadConfig(serde, rule, files);
    var disk := new Disk(files, {}, false);
    var r := disk.SaveUserConfigFile(serde, canonicalize, badPath);
    EmptiedPointerDoesNotLoad(serde, rule, files);
    afterAsWritten := LoadConfig(serde, rule, disk.files);
    var fixed := new Disk(files, {}, false);
    r := fixed.SaveUserConfigFileResolvedFirst(serde, canonicalize, badPath);
    afterResolvedFirst := LoadConfig(serde, rule, fixed.files);
  }
}
