/** The deployment configuration (config.yaml after loading) and
    `KTPDeployer._load_config` (deploy/deploy.py), which lets environment
    variables override cluster credentials and notification settings. */
module DeployConfig {
  import opened Options
  import opened Text
  import opened DotEnv

  /** One entry of `paths.<component>`: an artifact, where it goes below a
      server directory, and an optional octal mode. */
  datatype PathSpec = PathSpec(source: string, dest: string, chmod: Option<string>)

  /** One entry of `clusters`. A string setting that is absent is the empty
      string. `password` is only ever tested for truth, so an absent key and
      an empty value behave alike. `host` and `user` are read by subscript
      when a step connects (deploy.py:193-195, 277, 381, 447): an absent one
      raises inside the step's `try` and the step fails, which the model
      leaves to the caller-supplied connection outcome. `hostname` and
      `server_name_prefix` have defaults that apply only when absent, so they
      stay optional. */
  datatype Cluster = Cluster(
    host: string,
    user: string,
    password: string,
    ports: seq<int>,
    hostname: Option<string>,
    serverNamePrefix: Option<string>,
    testCluster: bool)

  /** The loaded configuration. `clusters` keeps the file's order (a Python
      dict keeps insertion order), so it is a list of named entries. The
      names come from the keys of a YAML mapping, so a parsed configuration
      never repeats one (`NamesDistinct`); loading keeps them distinct. */
  datatype Config = Config(
    clusters: seq<(string, Cluster)>,
    paths: map<string, seq<PathSpec>>,
    dataServerIp: string,
    relayUrl: string,
    relaySecret: string,
    channelId: string)

  /** Cluster names are keys of a mapping, so they are distinct. */
  predicate NamesDistinct(config: Config) {
    forall i, j :: 0 <= i < j < |config.clusters| ==> config.clusters[i].0 != config.clusters[j].0
  }

  /** `config["clusters"].get(name)`. */
  function Lookup(clusters: seq<(string, Cluster)>, name: string): Option<Cluster>
    decreases |clusters|
  {
    if |clusters| == 0 then None
    else if clusters[0].0 == name then Some(clusters[0].1)
    else Lookup(clusters[1..], name)
  }

  /** A name is found exactly when some cluster has it, and what is found
      is that name's cluster. */
  lemma {:induction false} LookupFinds(clusters: seq<(string, Cluster)>, name: string)
    ensures Lookup(clusters, name).Some? <==> exists i :: 0 <= i < |clusters| && clusters[i].0 == name
    ensures Lookup(clusters, name).Some? ==> exists i :: 0 <= i < |clusters| && clusters[i] == (name, Lookup(clusters, name).value)
    decreases |clusters|
  {
    if |clusters| > 0 && clusters[0].0 != name {
      LookupFinds(clusters[1..], name);
      assert forall i :: 1 <= i < |clusters| ==> clusters[i] == clusters[1..][i - 1];
      if exists i :: 0 <= i < |clusters| && clusters[i].0 == name {
        var i :| 0 <= i < |clusters| && clusters[i].0 == name;
        assert clusters[1..][i - 1].0 == name;
      }
    }
  }

  /** `KTP_<NAME-UPPERCASE>_<FIELD>` */
  function EnvKey(clusterName: string, field: string): string {
    "KTP_" + Upper(clusterName) + "_" + field
  }

  /** `v = os.environ.get(key); if v: current = v` */
  function Override(env: Env, key: string, current: string): (r: string)
    ensures key in env && env[key] != "" ==> r == env[key]
    ensures key !in env || env[key] == "" ==> r == current
  {
    if key in env && env[key] != "" then env[key] else current
  }

  /** The cluster after its overrides: only `host`, `user` and `password`
      can change. */
  function OverrideCluster(name: string, c: Cluster, env: Env): Cluster {
    c.(host := Override(env, EnvKey(name, "HOST"), c.host),
       user := Override(env, EnvKey(name, "USER"), c.user),
       password := Override(env, EnvKey(name, "PASSWORD"), c.password))
  }

  /** What `_load_config` promises of its result: the same clusters in the
      same order, each overridden by its own variables, the four global
      settings overridden by theirs, and everything else as parsed. */
  predicate Overridden(parsed: Config, config: Config, env: Env) {
    && |config.clusters| == |parsed.clusters|
    && (forall i :: 0 <= i < |parsed.clusters| ==>
          config.clusters[i] == (parsed.clusters[i].0, OverrideCluster(parsed.clusters[i].0, parsed.clusters[i].1, env)))
    && config.paths == parsed.paths
    && config.dataServerIp == Override(env, "KTP_DATA_SERVER_IP", parsed.dataServerIp)
    && config.relayUrl == Override(env, "KTP_DISCORD_RELAY_URL", parsed.relayUrl)
    && config.relaySecret == Override(env, "KTP_DISCORD_RELAY_SECRET", parsed.relaySecret)
    && config.channelId == Override(env, "KTP_DISCORD_CHANNEL_ID", parsed.channelId)
  }

  /** `_load_config`: `parsed` is the YAML document; the loop updates each
      cluster's settings in place. */
  method LoadConfig(parsed: Config, env: Env) returns (config: Config)
    requires NamesDistinct(parsed)
    ensures Overridden(parsed, config, env)
    ensures NamesDistinct(config)
  {
    var clusters := parsed.clusters;
    var i := 0;
    while i < |clusters|
      invariant 0 <= i <= |clusters| == |parsed.clusters|
      invariant forall j :: 0 <= j < i ==>
        clusters[j] == (parsed.clusters[j].0, OverrideCluster(parsed.clusters[j].0, parsed.clusters[j].1, env))
      invariant forall j :: i <= j < |clusters| ==> clusters[j] == parsed.clusters[j]
    {
      var (name, c) := clusters[i];
      var prefix := "KTP_" + Upper(name) + "_";
      if prefix + "HOST" in env && env[prefix + "HOST"] != "" {
        c := c.(host := env[prefix + "HOST"]);
      }
      if prefix + "USER" in env && env[prefix + "USER"] != "" {
        c := c.(user := env[prefix + "USER"]);
      }
      if prefix + "PASSWORD" in env && env[prefix + "PASSWORD"] != "" {
        c := c.(password := env[prefix + "PASSWORD"]);
      }
      assert prefix + "HOST" == EnvKey(name, "HOST");
      assert prefix + "USER" == EnvKey(name, "USER");
      assert prefix + "PASSWORD" == EnvKey(name, "PASSWORD");
      clusters := clusters[i := (name, c)];
      i := i + 1;
    }
    config := parsed.(clusters := clusters);
    if "KTP_DATA_SERVER_IP" in env && env["KTP_DATA_SERVER_IP"] != "" {
      config := config.(dataServerIp := env["KTP_DATA_SERVER_IP"]);
    }
    if "KTP_DISCORD_RELAY_URL" in env && env["KTP_DISCORD_RELAY_URL"] != "" {
      config := config.(relayUrl := env["KTP_DISCORD_RELAY_URL"]);
    }
    if "KTP_DISCORD_RELAY_SECRET" in env && env["KTP_DISCORD_RELAY_SECRET"] != "" {
      config := config.(relaySecret := env["KTP_DISCORD_RELAY_SECRET"]);
    }
    if "KTP_DISCORD_CHANNEL_ID" in env && env["KTP_DISCORD_CHANNEL_ID"] != "" {
      config := config.(channelId := env["KTP_DISCORD_CHANNEL_ID"]);
    }
    OverriddenKeepsNames(parsed, config, env);
  }

  /** An override changes a cluster setting exactly when its variable is set
      and non-empty; the ports, names and test flag never change. */
  lemma OverrideClusterFields(name: string, c: Cluster, env: Env)
    ensures var r := OverrideCluster(name, c, env);
      && (r.host != c.host ==> EnvKey(name, "HOST") in env && r.host == env[EnvKey(name, "HOST")] != "")
      && (r.user != c.user ==> EnvKey(name, "USER") in env && r.user == env[EnvKey(name, "USER")] != "")
      && (r.password != c.password ==> EnvKey(name, "PASSWORD") in env && r.password == env[EnvKey(name, "PASSWORD")] != "")
      && r.ports == c.ports && r.hostname == c.hostname
      && r.serverNamePrefix == c.serverNamePrefix && r.testCluster == c.testCluster
  {
  }

  /** Loading is idempotent: overriding an already overridden configuration
      with the same environment changes nothing. */
  lemma OverriddenIdempotent(parsed: Config, once: Config, twice: Config, env: Env)
    requires Overridden(parsed, once, env) && Overridden(once, twice, env)
    ensures twice == once
  {
    assert twice.clusters == once.clusters;
  }

  /** Loading preserves distinct cluster names. */
  lemma OverriddenKeepsNames(parsed: Config, config: Config, env: Env)
    requires Overridden(parsed, config, env) && NamesDistinct(parsed)
    ensures NamesDistinct(config)
    ensures forall name :: Lookup(config.clusters, name).Some? <==> Lookup(parsed.clusters, name).Some?
  {
    forall name
      ensures Lookup(config.clusters, name).Some? <==> Lookup(parsed.clusters, name).Some?
    {
      LookupFinds(config.clusters, name);
      LookupFinds(parsed.clusters, name);
    }
  }
}
