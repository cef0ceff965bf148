/** The pointer record stored in maestro.json (src/core/config/model.rs). */
module ConfigModel {

  /** The only field is the path of the user's configuration file. */
  datatype Config = Config(configFilePath: string)

  /** `Config::new`: stores the path as given, with no check on it. */
  function New(configFilePath: string): (c: Config)
    ensures c.configFilePath == configFilePath
  {
    Config(configFilePath)
  }

  /** `Default for Config`. */
  function Default(): (c: Config)
    ensures c.configFilePath == "default.json"
  {
    Config("default.json")
  }

  /**
   * A Config holds nothing but its path: rebuilding one from its path gives
   * the same record back, so `New` and the field are inverse to each other.
   */
  lemma NewFromFieldIsIdentity(c: Config)
    ensures New(c.configFilePath) == c
  {
  }

  /** Different paths give different records: `New` loses nothing. */
  lemma NewIsInjective(p: string, q: string)
    ensures New(p) == New(q) <==> p == q
  {
  }
}
