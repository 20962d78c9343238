/**
 * The cluster registry of mcp_kafka/core.py: the `Core` object that holds the server's
 * configuration, the named Kafka cluster definitions read from the clusters file, and a
 * lazily filled cache of one admin client per cluster name.
 *
 * The admin client is an opaque handle: `AdminClient` records the settings it was built
 * from and a serial number (how many clients had been built before it), so that the model
 * can count constructions and tell handles apart. Closing a client is recorded in the
 * `closed` log of the registry.
 */
module McpCore {
  import opened Wrappers

  // ---------------------------------------------------------------------------
  // Cluster definitions

  /** The `ssl` block of a cluster definition; every path is optional. */
  datatype SslConfig = SslConfig(caFile: Option<string>, certfile: Option<string>, keyfile: Option<string>)

  /**
   * One named cluster of the clusters file. `ssl` is `None` when the definition leaves the
   * block out: the field's default `{}` is not validated, so it stays a plain dictionary
   * rather than becoming an `SslConfig`.
   */
  datatype ClusterConfig = ClusterConfig(
    bootstrapServers: seq<string>,
    ssl: Option<SslConfig>,
    securityProtocol: string,
    saslMechanism: Option<string>,
    saslPlainUsername: Option<string>,
    saslPlainPassword: Option<string>)

  /** A cluster definition that gives only its bootstrap servers; the rest take their defaults. */
  function DeclaredCluster(servers: seq<string>): ClusterConfig
  {
    ClusterConfig(servers, None, "PLAINTEXT", None, None, None)
  }

  /** The keyword arguments an admin client is built with. */
  datatype AdminSettings = AdminSettings(
    bootstrapServers: seq<string>,
    securityProtocol: string,
    saslMechanism: Option<string>,
    saslPlainUsername: Option<string>,
    saslPlainPassword: Option<string>,
    sslCafile: Option<string>,
    sslCertfile: Option<string>,
    sslKeyfile: Option<string>)

  /** The SSL block as it is evidently meant to be read: a block left out has no paths. */
  function SslOf(c: ClusterConfig): SslConfig
  {
    if c.ssl.Some? then c.ssl.value else SslConfig(None, None, None)
  }

  /**
   * The settings of the admin client for cluster `c`, as evidently intended: the top-level
   * fields are copied as they are and the three SSL paths come from the nested `ssl`
   * block, a block left out giving no paths.
   */
  function SettingsFor(c: ClusterConfig): AdminSettings
  {
    var ssl := SslOf(c);
    AdminSettings(c.bootstrapServers, c.securityProtocol, c.saslMechanism, c.saslPlainUsername,
                  c.saslPlainPassword, ssl.caFile, ssl.certfile, ssl.keyfile)
  }

  /**
   * The `kafka_config` dictionary as the registry builds it: reading `ssl.ca_file` from a
   * block left at its `{}` default raises `AttributeError`, so no settings come out.
   */
  function KafkaConfig(c: ClusterConfig): (r: Option<AdminSettings>)
    ensures r.Some? <==> c.ssl.Some?
    ensures r.Some? ==> r.value == SettingsFor(c)
  {
    match c.ssl
    case None => None
    case Some(ssl) =>
      Some(AdminSettings(c.bootstrapServers, c.securityProtocol, c.saslMechanism, c.saslPlainUsername,
                         c.saslPlainPassword, ssl.caFile, ssl.certfile, ssl.keyfile))
  }

  /** The cluster definition that admin settings `s` were built from. */
  function DefinitionOf(s: AdminSettings): ClusterConfig
  {
    ClusterConfig(s.bootstrapServers, Some(SslConfig(s.sslCafile, s.sslCertfile, s.sslKeyfile)),
                  s.securityProtocol, s.saslMechanism, s.saslPlainUsername, s.saslPlainPassword)
  }

  /**
   * Building the settings loses nothing: the definition can be read back from them, and
   * two definitions that both yield settings yield different ones.
   */
  lemma SettingsKeepDefinition(c: ClusterConfig)
    ensures KafkaConfig(c).Some? ==> DefinitionOf(KafkaConfig(c).value) == c
    ensures forall d :: KafkaConfig(d).Some? && KafkaConfig(d) == KafkaConfig(c) ==> d == c
  {
    forall d | KafkaConfig(d).Some? && KafkaConfig(d) == KafkaConfig(c)
      ensures d == c
    {
      assert DefinitionOf(KafkaConfig(d).value) == d;
    }
  }

  /**
   * As written, a cluster declared with its bootstrap servers only gets no admin client:
   * its `ssl` is the raw `{}` default, and reading `ca_file` from it raises.
   */
  lemma DeclaredClusterNotBuilt(servers: seq<string>)
    ensures KafkaConfig(DeclaredCluster(servers)).None?
    ensures KafkaConfig(DeclaredCluster(servers)) != Some(SettingsFor(DeclaredCluster(servers)))
  {
  }

  /**
   * As intended, a cluster declared with its bootstrap servers only is reached in plain
   * text, with no SASL mechanism or credentials and no SSL files, exactly as if it had
   * given an empty `ssl` block.
   */
  lemma DeclaredClusterSettings(servers: seq<string>)
    ensures SettingsFor(DeclaredCluster(servers)) ==
            AdminSettings(servers, "PLAINTEXT", None, None, None, None, None, None)
    ensures SettingsFor(DeclaredCluster(servers)) ==
            KafkaConfig(DeclaredCluster(servers).(ssl := Some(SslConfig(None, None, None)))).value
  {
  }

  // ---------------------------------------------------------------------------
  // Configuration values

  /** A value of the configuration dictionary. */
  datatype ConfigValue =
    | Flag(b: bool)
    | Number(n: int)
    | Text(s: string)
    | Null
    | ClusterTable(clusters: map<string, ClusterConfig>)

  /** Python truthiness of a configuration value: only false, zero, empty and null are falsy. */
  function Truthy(v: ConfigValue): (r: bool)
    ensures !r <==> v == Flag(false) || v == Number(0) || v == Text("") || v == Null || v == ClusterTable(map[])
  {
    match v
    case Flag(b) => b
    case Number(n) => n != 0
    case Text(s) => s != []
    case Null => false
    case ClusterTable(m) => m != map[]
  }

  const UseSseKey: string := "use_sse"
  const PortKey: string := "port"
  const ClustersFileKey: string := "clusters_config_file"
  const ClustersKey: string := "clusters"

  /** The defaults every configuration starts from. */
  const DefaultConfig: map<string, ConfigValue> :=
    map[UseSseKey := Flag(false), PortKey := Number(8888), ClustersFileKey := Text("")]

  /**
   * The defaults name exactly the three settings: no SSE, port 8888, and a clusters file
   * setting that is falsy, so that by default no clusters are loaded.
   */
  lemma DefaultsLoadNoClusters()
    ensures DefaultConfig.Keys == {UseSseKey, PortKey, ClustersFileKey}
    ensures DefaultConfig[UseSseKey] == Flag(false) && DefaultConfig[PortKey] == Number(8888)
    ensures !Truthy(DefaultConfig[ClustersFileKey]) && ClustersKey !in DefaultConfig
  {
  }

  /** Why a cluster lookup fails: no clusters file was loaded, or the name is not in it. */
  datatype LookupError = NoClusters | ClusterNotFound(name: string)

  /**
   * Why no admin client is handed out: the lookup failed (`KeyError`), or the definition's
   * `ssl` block was left at its `{}` default (`AttributeError`).
   */
  datatype ClientError = Lookup(lookup: LookupError) | SslNotParsed(name: string)

  /** An admin client handle: the settings it was built with and its construction number. */
  datatype AdminClient = AdminClient(serial: nat, settings: AdminSettings)

  /** The clients of `cache` in the order of `names`. */
  function ClientsInOrder(names: seq<string>, cache: map<string, AdminClient>): (r: seq<AdminClient>)
    requires forall k :: 0 <= k < |names| ==> names[k] in cache
    ensures |r| == |names|
  {
    if names == [] then [] else [cache[names[0]]] + ClientsInOrder(names[1..], cache)
  }

  /** No name appears twice. */
  predicate Distinct(names: seq<string>)
  {
    forall i, j :: 0 <= i < j < |names| ==> names[i] != names[j]
  }

  /** No two names of the cache share a client. */
  predicate Unshared(cache: map<string, AdminClient>)
  {
    forall a, b :: a in cache && b in cache && a != b ==> cache[a] != cache[b]
  }

  /**
   * Walking the cache in the order of `names`, each client whose name is listed comes up
   * exactly once and no other client comes up.
   */
  lemma {:induction false} ClientsInOrderOnce(names: seq<string>, cache: map<string, AdminClient>, n: string)
    requires forall k :: 0 <= k < |names| ==> names[k] in cache
    requires Distinct(names) && Unshared(cache) && n in cache
    ensures multiset(ClientsInOrder(names, cache))[cache[n]] == if n in names then 1 else 0
  {
    if names != [] {
      var rest := names[1..];
      assert Distinct(rest) by {
        forall i, j | 0 <= i < j < |rest| ensures rest[i] != rest[j] {
          assert rest[i] == names[i + 1] && rest[j] == names[j + 1];
        }
      }
      ClientsInOrderOnce(rest, cache, n);
      assert names == [names[0]] + rest;
      if names[0] == n {
        assert n !in rest by {
          forall j | 0 <= j < |rest| ensures rest[j] != n {
            assert rest[j] == names[j + 1];
          }
        }
      }
    }
  }

  /** Every client handed out by `ClientsInOrder` is a client of the cache. */
  lemma {:induction false} ClientsInOrderFromCache(names: seq<string>, cache: map<string, AdminClient>)
    requires forall k :: 0 <= k < |names| ==> names[k] in cache
    ensures forall x :: x in ClientsInOrder(names, cache) ==> exists m :: m in names && cache[m] == x
  {
    if names != [] {
      ClientsInOrderFromCache(names[1..], cache);
    }
  }

  // ---------------------------------------------------------------------------
  // The registry

  class Core {
    /** The configuration dictionary: the three settings, plus `clusters` once a file is loaded. */
    var config: map<string, ConfigValue>
    /** The admin client cache, by cluster name. */
    var adminClients: map<string, AdminClient>
    /** The cache's names in the order they were inserted, which is the order it is walked in. */
    var order: seq<string>
    /** How many admin clients have been constructed. */
    var built: nat
    /** The clients `close()` has been called on, in call order. */
    var closed: seq<AdminClient>

    /** The loaded cluster table, if any. */
    function Definitions(): (r: Option<map<string, ClusterConfig>>)
      reads this
      ensures r.Some? ==> ClustersKey in config
    {
      if ClustersKey in config && config[ClustersKey].ClusterTable? then Some(config[ClustersKey].clusters)
      else None
    }

    predicate Valid()
      reads this
    {
      UseSseKey in config && PortKey in config && ClustersFileKey in config &&
      (ClustersKey in config ==> config[ClustersKey].ClusterTable?) &&
      (forall n :: n in adminClients ==>
         Definitions().Some? && n in Definitions().value &&
         KafkaConfig(Definitions().value[n]) == Some(adminClients[n].settings) &&
         adminClients[n].serial < built) &&
      (forall a, b :: a in adminClients && b in adminClients && a != b ==>
         adminClients[a].serial != adminClients[b].serial) &&
      Distinct(order) &&
      (forall n :: n in order ==> n in adminClients) &&
      (forall n :: n in adminClients ==> n in order)
    }

    /**
     * `Core(**configs)`: any keyword outside the three settings is refused and reported
     * before anything is built. Otherwise the configuration is the defaults overridden by
     * the given keywords; when the clusters file setting is truthy, `fileClusters` (the
     * table that file yields) is stored under `clusters`. The cache starts empty.
     */
    static method Create(configs: map<string, ConfigValue>, fileClusters: map<string, ClusterConfig>)
      returns (r: Result<Core, set<string>>)
      ensures r.Failure? <==> !(configs.Keys <= DefaultConfig.Keys)
      ensures r.Failure? ==> r.error == configs.Keys - DefaultConfig.Keys
      ensures r.Success? ==> fresh(r.value) && r.value.Valid()
      ensures r.Success? ==> r.value.adminClients == map[] && r.value.order == [] &&
                             r.value.built == 0 && r.value.closed == []
      ensures r.Success? ==> forall k :: k in DefaultConfig ==>
                               r.value.config[k] == if k in configs then configs[k] else DefaultConfig[k]
      ensures r.Success? ==> (ClustersKey in r.value.config <==> Truthy(r.value.config[ClustersFileKey]))
      ensures r.Success? ==> r.value.config.Keys <= DefaultConfig.Keys + {ClustersKey}
      ensures r.Success? && ClustersKey in r.value.config ==>
                r.value.Definitions() == Some(fileClusters)
    {
      var extra := configs.Keys - DefaultConfig.Keys;
      if extra != {} {
        return Failure(extra);
      }
      assert configs.Keys <= DefaultConfig.Keys by {
        forall k | k in configs.Keys ensures k in DefaultConfig.Keys {
          assert k !in extra;
        }
      }
      assert DefaultConfig.Keys == {UseSseKey, PortKey, ClustersFileKey};
      var core := new Core.Empty(DefaultConfig);
      core.Update(configs);
      if Truthy(core.config[ClustersFileKey]) {
        core.LoadClusters(fileClusters);
      }
      r := Success(core);
    }

    /** A registry holding `config` and an empty cache. */
    constructor Empty(config: map<string, ConfigValue>)
      ensures this.config == config && adminClients == map[] && order == [] && built == 0 && closed == []
    {
      this.config := config;
      adminClients := map[];
      order := [];
      built := 0;
      closed := [];
    }

    /** `self.config.update(configs)`: the given keys take the given values. */
    method Update(configs: map<string, ConfigValue>)
      requires adminClients == map[] && order == []
      requires ClustersKey !in configs && ClustersKey !in config
      modifies this
      ensures config.Keys == old(config.Keys) + configs.Keys
      ensures forall k :: k in config ==> config[k] == if k in configs then configs[k] else old(config[k])
      ensures adminClients == old(adminClients) && order == old(order)
      ensures built == old(built) && closed == old(closed)
    {
      config := config + configs;
    }

    /** `self.config['clusters'] = ...`: store the cluster table read from the file. */
    method LoadClusters(fileClusters: map<string, ClusterConfig>)
      requires adminClients == map[] && order == []
      modifies this
      ensures config == old(config)[ClustersKey := ClusterTable(fileClusters)]
      ensures Definitions() == Some(fileClusters)
      ensures adminClients == old(adminClients) && order == old(order)
      ensures built == old(built) && closed == old(closed)
    {
      config := config[ClustersKey := ClusterTable(fileClusters)];
    }

    /** The `use_sse` setting. */
    function UseSse(): (r: ConfigValue)
      reads this
      requires Valid()
      ensures UseSseKey in config && r == config[UseSseKey]
    {
      config[UseSseKey]
    }

    /** The `port` setting. */
    function Port(): (r: ConfigValue)
      reads this
      requires Valid()
      ensures PortKey in config && r == config[PortKey]
    {
      config[PortKey]
    }

    /** The names of the loaded clusters; none when no clusters file was loaded. */
    function Clusters(): (r: set<string>)
      reads this
      ensures forall n :: n in r <==> GetClusterConfig(n).Success?
    {
      match Definitions()
      case None => {}
      case Some(m) => m.Keys
    }

    /**
     * The definition of the named cluster, unchanged; `NoClusters` when no clusters file
     * was loaded and `ClusterNotFound` when the name is not in it.
     */
    function GetClusterConfig(name: string): (r: Result<ClusterConfig, LookupError>)
      reads this
      ensures r.Failure? <==> Definitions().None? || name !in Definitions().value
      ensures Definitions().None? ==> r == Failure(NoClusters)
      ensures Definitions().Some? && name !in Definitions().value ==> r == Failure(ClusterNotFound(name))
      ensures r.Success? ==> r.value == Definitions().value[name]
    {
      match Definitions()
      case None => Failure(NoClusters)
      case Some(m) => if name in m then Success(m[name]) else Failure(ClusterNotFound(name))
    }

    /**
     * `kafka_admin_client(name)`: a cached name gives its cached client and builds nothing.
     * Otherwise the name is looked up: an unknown name fails with the lookup's error and
     * changes nothing, and so does a definition whose `ssl` block was left out. Any other
     * known name gets exactly one new client, built from its definition, which is stored
     * under that name while every other cache entry stays as it was.
     */
    method KafkaAdminClient(name: string) returns (r: Result<AdminClient, ClientError>)
      requires Valid()
      modifies this
      ensures Valid()
      ensures config == old(config) && closed == old(closed)
      ensures name in old(adminClients) ==>
                r == Success(old(adminClients)[name]) &&
                adminClients == old(adminClients) && order == old(order) && built == old(built)
      ensures name !in old(adminClients) && name !in Clusters() ==>
                r == Failure(Lookup(GetClusterConfig(name).error)) &&
                adminClients == old(adminClients) && order == old(order) && built == old(built)
      ensures name !in old(adminClients) && name in Clusters() &&
              KafkaConfig(GetClusterConfig(name).value).None? ==>
                r == Failure(SslNotParsed(name)) &&
                adminClients == old(adminClients) && order == old(order) && built == old(built)
      ensures name !in old(adminClients) && name in Clusters() &&
              KafkaConfig(GetClusterConfig(name).value).Some? ==>
                r.Success? &&
                r.value == AdminClient(old(built), KafkaConfig(GetClusterConfig(name).value).value) &&
                built == old(built) + 1 &&
                adminClients == old(adminClients)[name := r.value] &&
                order == old(order) + [name]
    {
      if name !in adminClients {
        var definition := GetClusterConfig(name);
        if definition.Failure? {
          return Failure(Lookup(definition.error));
        }
        var settings := KafkaConfig(definition.value);
        if settings.None? {
          return Failure(SslNotParsed(name));
        }
        var client := AdminClient(built, settings.value);
        built := built + 1;
        adminClients := adminClients[name := client];
        order := order + [name];
        forall i, j | 0 <= i < j < |order| ensures order[i] != order[j] {
          if j == |order| - 1 {
            assert order[i] == old(order)[i] && old(order)[i] in old(adminClients);
          } else {
            assert order[i] == old(order)[i] && order[j] == old(order)[j];
          }
        }
      }
      r := Success(adminClients[name]);
    }

    /**
     * `close()`: `close()` is called on every cached client, in cache order, then the cache
     * is emptied. The configuration and the cluster definitions stay as they were; on an
     * empty cache nothing is closed.
     */
    method Close()
      requires Valid()
      modifies this
      ensures Valid()
      ensures closed == old(closed) + ClientsInOrder(old(order), old(adminClients))
      ensures adminClients == map[] && order == []
      ensures config == old(config) && built == old(built)
    {
      var names, cache := order, adminClients;
      assert forall k :: 0 <= k < |names| ==> names[k] in cache;
      var i := 0;
      while i < |names|
        modifies this`closed
        invariant 0 <= i <= |names|
        invariant closed == old(closed) + ClientsInOrder(names[..i], cache)
        decreases |names| - i
      {
        ClientsInOrderStep(names, i, cache);
        closed := closed + [cache[names[i]]];
        i := i + 1;
      }
      assert names[..i] == names;
      adminClients := map[];
      order := [];
    }
  }

  lemma {:induction false} ClientsInOrderStep(names: seq<string>, i: nat, cache: map<string, AdminClient>)
    requires i < |names| && forall k :: 0 <= k < |names| ==> names[k] in cache
    ensures ClientsInOrder(names[..i + 1], cache) == ClientsInOrder(names[..i], cache) + [cache[names[i]]]
  {
    assert names[..i + 1] == names[..i] + [names[i]];
    ClientsInOrderAppend(names[..i], names[i], cache);
  }

  lemma {:induction false} ClientsInOrderAppend(names: seq<string>, n: string, cache: map<string, AdminClient>)
    requires forall k :: 0 <= k < |names| ==> names[k] in cache
    requires n in cache
    ensures ClientsInOrder(names + [n], cache) == ClientsInOrder(names, cache) + [cache[n]]
  {
    if names != [] {
      assert (names + [n])[1..] == names[1..] + [n];
      ClientsInOrderAppend(names[1..], n, cache);
    }
  }

  /**
   * What `close()` closes, for a valid registry: one `close()` per cached client, each
   * cached client exactly once, and nothing that was not cached.
   */
  lemma {:induction false} CloseCoversCache(core: Core)
    requires core.Valid()
    ensures |ClientsInOrder(core.order, core.adminClients)| == |core.adminClients|
    ensures forall n :: n in core.adminClients ==>
              multiset(ClientsInOrder(core.order, core.adminClients))[core.adminClients[n]] == 1
    ensures forall x :: x in ClientsInOrder(core.order, core.adminClients) ==> x in core.adminClients.Values
  {
    var cache := core.adminClients;
    assert Unshared(cache);
    forall n | n in cache
      ensures multiset(ClientsInOrder(core.order, cache))[cache[n]] == 1
    {
      ClientsInOrderOnce(core.order, cache, n);
    }
    ClientsInOrderFromCache(core.order, cache);
    DistinctKeysCount(core.order, cache.Keys);
  }

  /** A duplicate-free listing of exactly the names in `keys` is as long as `keys` is large. */
  lemma {:induction false} DistinctKeysCount(names: seq<string>, keys: set<string>)
    requires Distinct(names)
    requires forall n :: n in names <==> n in keys
    ensures |names| == |keys|
    decreases |names|
  {
    if names == [] {
      assert keys == {};
    } else {
      var n := names[|names| - 1];
      var rest := names[..|names| - 1];
      DropLastName(names);
      DistinctKeysCount(rest, keys - {n});
    }
  }

  /** Without its last name, a duplicate-free listing lists every other name it had and no more. */
  lemma {:induction false} DropLastName(names: seq<string>)
    requires Distinct(names) && names != []
    ensures var rest := names[..|names| - 1];
            Distinct(rest) && forall m :: m in rest <==> m in names && m != names[|names| - 1]
  {
    var rest := names[..|names| - 1];
    forall i, j | 0 <= i < j < |rest| ensures rest[i] != rest[j] {
      assert rest[i] == names[i] && rest[j] == names[j];
    }
    forall m | m in rest ensures m in names && m != names[|names| - 1] {
      var k :| 0 <= k < |rest| && rest[k] == m;
      assert names[k] == m;
    }
    forall m | m in names && m != names[|names| - 1] ensures m in rest {
      var k :| 0 <= k < |names| && names[k] == m;
      assert rest[k] == m;
    }
  }

}
