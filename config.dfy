/**
 * The config loader of github/github.py: choose the folder that holds
 * `conf/config.properties`, read it, and take the API base URL from the
 * `github.url` key of its `DEFAULT` section.
 *
 * The process environment, the interpreter's location, the module's own
 * location and the file system are inputs (an `Environment`); the file system
 * is a map from every path that exists, taken literally, to the INI document
 * that reading it yields. A path that exists but cannot be read (a directory,
 * a file without read permission) maps to the empty document.
 */
module Config {
  import opened Wrappers
  import PosixPath

  /** One INI section: option name to value. */
  type Section = map<string, string>

  /** A parsed INI document: section name to section. */
  type Ini = map<string, Section>

  const ConfigRelPath: string := "/conf/config.properties"
  const DefaultSection: string := "DEFAULT"
  const UrlKey: string := "github.url"

  datatype Environment = Environment(
    pythonHome: Option<string>,   // the PYTHONHOME variable, when set
    executable: string,           // the path of the running interpreter
    moduleFile: string,           // the path of the module's own source file
    files: map<string, Ini>)      // the config paths that exist, each with what reading it yields

  /** The only failure of the loader: the key is not in the default section. */
  datatype ConfigError = KeyError(key: string)

  function ConfigFile(folder: string): string {
    folder + ConfigRelPath
  }

  predicate Exists(env: Environment, path: string) {
    path in env.files
  }

  /** The first candidate folder: PYTHONHOME, else the parent of the interpreter's directory. */
  function InstallRoot(env: Environment): string {
    match env.pythonHome
    case Some(home) => home
    case None => PosixPath.Dirname(PosixPath.Dirname(env.executable))
  }

  /** The fallback folder: the module's directory followed by `/../`. */
  function ModuleFallback(env: Environment): string {
    PosixPath.Dirname(env.moduleFile) + "/../"
  }

  /** The folder `__get_config` settles on. */
  function ConfigFolder(env: Environment): string {
    var folder := InstallRoot(env);
    if !Exists(env, ConfigFile(folder)) then ModuleFallback(env) else folder
  }

  /** `ConfigParser.read`: a file that cannot be read contributes nothing. */
  function ReadConfig(env: Environment, path: string): Ini {
    if Exists(env, path) then env.files[path] else map[]
  }

  /** Look up `key` in the default section, which a parser always has (possibly empty). */
  function DefaultValue(ini: Ini, key: string): (r: Result<string, ConfigError>)
    ensures r.Success? <==> DefaultSection in ini && key in ini[DefaultSection]
    ensures r.Success? ==> r.value == ini[DefaultSection][key]
    ensures r.Failure? ==> r.error == KeyError(key)
  {
    var defaults := if DefaultSection in ini then ini[DefaultSection] else map[];
    if key in defaults then Success(defaults[key]) else Failure(KeyError(key))
  }

  /** `get_urls`: the base URL of the API. */
  function GetUrls(env: Environment): Result<string, ConfigError> {
    DefaultValue(ReadConfig(env, ConfigFile(ConfigFolder(env))), UrlKey)
  }

  /** The file `GetUrls` reads holds `url` as `github.url` in its default section. */
  predicate Configures(env: Environment, folder: string, url: string) {
    var path := ConfigFile(folder);
    Exists(env, path) && DefaultSection in env.files[path]
    && UrlKey in env.files[path][DefaultSection]
    && env.files[path][DefaultSection][UrlKey] == url
  }

  /** The folder always holds the file that is read, or is the module fallback. */
  lemma FolderHoldsConfigOrFallsBack(env: Environment)
    ensures var folder := ConfigFolder(env);
      Exists(env, ConfigFile(folder)) || folder == ModuleFallback(env)
    ensures Exists(env, ConfigFile(InstallRoot(env))) ==> ConfigFolder(env) == InstallRoot(env)
    ensures !Exists(env, ConfigFile(InstallRoot(env))) ==> ConfigFolder(env) == ModuleFallback(env)
  {
  }

  /** A URL is returned exactly when the chosen file defines it. */
  lemma UrlComesFromChosenFile(env: Environment, url: string)
    ensures GetUrls(env) == Success(url) <==> Configures(env, ConfigFolder(env), url)
  {
  }

  /** PYTHONHOME wins when its folder holds a config file. */
  lemma PythonHomeConfigUsed(env: Environment, home: string, url: string)
    requires env.pythonHome == Some(home)
    requires Configures(env, home, url)
    ensures ConfigFolder(env) == home
    ensures GetUrls(env) == Success(url)
  {
  }

  /**
   * Without PYTHONHOME, an interpreter at `root/bin/exe` makes the loader read
   * `root/conf/config.properties`.
   */
  lemma InterpreterRootConfigUsed(env: Environment, root: string, bin: string, exe: string, url: string)
    requires env.pythonHome.None?
    requires root != [] && root[|root| - 1] != '/'
    requires bin != [] && '/' !in bin && '/' !in exe
    requires env.executable == root + "/" + bin + "/" + exe
    requires Configures(env, root, url)
    ensures ConfigFolder(env) == root
    ensures GetUrls(env) == Success(url)
  {
    PosixPath.GrandparentOf(root, bin, exe);
  }

  /**
   * Without PYTHONHOME, an interpreter directly under a top-level directory,
   * at `/bin/exe`, makes the loader read `//conf/config.properties`.
   */
  lemma InterpreterAtTopLevelConfigUsed(env: Environment, bin: string, exe: string, url: string)
    requires env.pythonHome.None?
    requires bin != [] && '/' !in bin && '/' !in exe
    requires env.executable == "/" + bin + "/" + exe
    requires Configures(env, "/", url)
    ensures ConfigFolder(env) == "/"
    ensures GetUrls(env) == Success(url)
  {
    PosixPath.DirnameOfChild("/" + bin, exe);
    PosixPath.DirnameOfRootChild(bin);
  }

  /**
   * When the first candidate has no config file, a module at `pkg/name`
   * makes the loader read `pkg/..//conf/config.properties`.
   */
  lemma ModuleFallbackUsed(env: Environment, pkg: string, name: string, url: string)
    requires !Exists(env, ConfigFile(InstallRoot(env)))
    requires pkg != [] && pkg[|pkg| - 1] != '/' && '/' !in name
    requires env.moduleFile == pkg + "/" + name
    requires Configures(env, pkg + "/../", url)
    ensures ConfigFolder(env) == pkg + "/../"
    ensures GetUrls(env) == Success(url)
  {
    PosixPath.DirnameOfChild(pkg, name);
  }

  /** With no config file at either candidate the lookup raises KeyError('github.url'). */
  lemma MissingConfigRaises(env: Environment)
    requires !Exists(env, ConfigFile(InstallRoot(env)))
    requires !Exists(env, ConfigFile(ModuleFallback(env)))
    ensures GetUrls(env) == Failure(KeyError(UrlKey))
  {
  }

  /** A config file without the key raises KeyError('github.url') too. */
  lemma MissingKeyRaises(env: Environment)
    requires Exists(env, ConfigFile(ConfigFolder(env)))
    requires var ini := env.files[ConfigFile(ConfigFolder(env))];
      DefaultSection !in ini || UrlKey !in ini[DefaultSection]
    ensures GetUrls(env) == Failure(KeyError(UrlKey))
  {
  }
}
