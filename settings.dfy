/**
  `Aliyun::Mns.configuration` and `Aliyun::Mns.configure`
  (lib/aliyun/mns.rb): a configuration built from the environment on first
  use and kept for the life of the process.
*/
module Settings {
  import opened Wrappers

  /** The environment variables the first configuration is read from. */
  datatype Environment = Environment(ossAccessId: Option<string>, ossAccessKey: Option<string>, mnsHost: Option<string>)

  /** The OpenStruct with `access_id`, `key` and `host`; nil where the variable is unset. */
  class Configuration {
    var accessId: Option<string>
    var key: Option<string>
    var host: Option<string>

    constructor (env: Environment)
      ensures accessId == env.ossAccessId && key == env.ossAccessKey && host == env.mnsHost
    {
      accessId, key, host := env.ossAccessId, env.ossAccessKey, env.mnsHost;
    }
  }

  /** The state of the `Aliyun::Mns` module: its memoised `@configuration`. */
  class Mns {
    var configuration: Configuration?
    /** How many configuration objects have been built so far. */
    ghost var built: nat

    ghost predicate Valid()
      reads this
    {
      built <= 1 && (configuration == null <==> built == 0)
    }

    constructor ()
      ensures Valid() && configuration == null && built == 0
    {
      configuration, built := null, 0;
    }

    /** `configuration`: `@configuration ||= OpenStruct.new(...)`. */
    method GetConfiguration(env: Environment) returns (c: Configuration)
      requires Valid()
      modifies this
      ensures Valid() && configuration == c && built == 1
      ensures old(configuration) != null ==> c == old(configuration)
      ensures old(configuration) == null ==>
                fresh(c) && c.accessId == env.ossAccessId && c.key == env.ossAccessKey && c.host == env.mnsHost
    {
      if configuration == null {
        configuration := new Configuration(env);
        built := built + 1;
      }
      c := configuration;
    }

    /**
      `configure { |config| ... }` with the block every caller in the
      repository passes: it assigns access_id, key and host.
    */
    method Configure(env: Environment, accessId: string, key: string, host: string)
      requires Valid()
      modifies this, configuration
      ensures Valid() && configuration != null && built == 1
      ensures old(configuration) != null ==> configuration == old(configuration)
      ensures configuration.accessId == Some(accessId) && configuration.key == Some(key) && configuration.host == Some(host)
    {
      var c := GetConfiguration(env);
      c.accessId, c.key, c.host := Some(accessId), Some(key), Some(host);
    }
  }

  /**
    What `configure` sets is what every later `configuration` call returns,
    and the object is built only once.
  */
  method ConfigureThenRead(m: Mns, env: Environment, accessId: string, key: string, host: string)
    returns (first: Configuration, later: Configuration)
    requires m.Valid()
    modifies m, m.configuration
    ensures first == later && m.built == 1
    ensures later.accessId == Some(accessId) && later.key == Some(key) && later.host == Some(host)
  {
    m.Configure(env, accessId, key, host);
    first := m.GetConfiguration(env);
    later := m.GetConfiguration(env);
  }
}
