/** The collection of device configurations and the cache in front of it (device-configs/device-configs.service.ts). */
module ConfigSync {
  import opened Options
  import opened Strings
  import opened DeviceConfigs

  datatype Key = Key(brand: string, deviceType: string, protocol: string)

  datatype ParsedConfig = ParsedConfig(
    key: Key, strict: Option<bool>, commands: seq<Item>, controls: seq<Item>, measurements: seq<Item>)

  function HashConfigKey(key: Key): string {
    Join([key.brand, key.deviceType, key.protocol], ':')
  }

  /** Brands, types and protocols are enumerated words without a colon. */
  ghost predicate ValidKey(key: Key) {
    Free(key.brand, ':') && Free(key.deviceType, ':') && Free(key.protocol, ':')
  }

  lemma HashIsInjective(a: Key, b: Key)
    requires ValidKey(a) && ValidKey(b) && HashConfigKey(a) == HashConfigKey(b)
    ensures a == b
  {
    SplitOfJoin([a.brand, a.deviceType, a.protocol], ':');
    SplitOfJoin([b.brand, b.deviceType, b.protocol], ':');
    var parts := Split(HashConfigKey(a), ':');
    assert parts[0] == a.brand == b.brand && parts[1] == a.deviceType == b.deviceType
           && parts[2] == a.protocol == b.protocol;
  }

  function Stored(parsed: ParsedConfig): Config {
    Config(Some(parsed.strict != Some(false)), Some(parsed.commands), Some(parsed.controls), Some(parsed.measurements))
  }

  function Lookup(collection: map<Key, Config>, key: Key): Option<Config> {
    if key in collection then Some(collection[key]) else None
  }

  /** The collection after upserting all configurations in order. */
  function Upserted(collection: map<Key, Config>, parsed: seq<ParsedConfig>): map<Key, Config> {
    if parsed == [] then collection
    else
      var last := parsed[|parsed| - 1];
      Upserted(collection, parsed[..|parsed| - 1])[last.key := Stored(last)]
  }

  function KeysOf(parsed: seq<ParsedConfig>): set<Key> {
    set p | p in parsed :: p.key
  }

  function Pruned(collection: map<Key, Config>, keys: set<Key>): map<Key, Config> {
    map key | key in collection && key in keys :: collection[key]
  }

  function Synced(collection: map<Key, Config>, parsed: seq<ParsedConfig>): map<Key, Config> {
    Pruned(Upserted(collection, parsed), KeysOf(parsed))
  }

  class DeviceConfigsService {
    var collection: map<Key, Config>
    var configsCache: map<string, Option<Config>>

    ghost predicate Valid()
      reads this
    {
      CacheAgrees(collection, configsCache)
    }

    constructor (collection: map<Key, Config>)
      ensures Valid() && this.collection == collection
    {
      this.collection, this.configsCache := collection, map[];
    }

    method GetConfig(key: Key) returns (config: Option<Config>)
      requires Valid() && ValidKey(key)
      modifies this
      ensures Valid() && collection == old(collection)
      ensures config == Lookup(collection, key)
      ensures configsCache == old(configsCache)[HashConfigKey(key) := config]
    {
      var cacheKey := HashConfigKey(key);
      if cacheKey in configsCache {
        assert configsCache[cacheKey] == Lookup(collection, key);
        assert configsCache[cacheKey := configsCache[cacheKey]] == configsCache;
        return configsCache[cacheKey];
      }
      config := if key in collection then Some(collection[key]) else None;
      configsCache := configsCache[cacheKey := config];
      CachingKeepsAgreement(collection, old(configsCache), key);
    }

    method UpsertConfig(config: ParsedConfig) returns (key: Key)
      modifies this
      ensures collection == old(collection)[config.key := Stored(config)] && configsCache == old(configsCache)
      ensures key == config.key
    {
      key := config.key;
      collection := collection[key := Stored(config)];
    }

    method SyncToDatabase(parsed: seq<ParsedConfig>)
      modifies this
      ensures Valid() && configsCache == map[]
      ensures collection == Synced(old(collection), parsed)
    {
      var keys: set<Key> := {};
      for i := 0 to |parsed|
        invariant collection == Upserted(old(collection), parsed[..i]) && keys == KeysOf(parsed[..i])
      {
        assert parsed[..i + 1][..i] == parsed[..i] && parsed[..i + 1] == parsed[..i] + [parsed[i]];
        var key := UpsertConfig(parsed[i]);
        keys := keys + {key};
      }
      assert parsed[..|parsed|] == parsed;
      if keys == {} {
        collection := map[];
      } else {
        collection := map key | key in collection && key in keys :: collection[key];
      }
      configsCache := map[];
    }
  }

  /** Every cached entry, misses included, is what the database would answer. */
  ghost predicate CacheAgrees(collection: map<Key, Config>, cache: map<string, Option<Config>>) {
    forall key :: ValidKey(key) && HashConfigKey(key) in cache ==> cache[HashConfigKey(key)] == Lookup(collection, key)
  }

  lemma CachingKeepsAgreement(collection: map<Key, Config>, cache: map<string, Option<Config>>, key: Key)
    requires CacheAgrees(collection, cache) && ValidKey(key)
    ensures CacheAgrees(collection, cache[HashConfigKey(key) := Lookup(collection, key)])
  {
    forall other | ValidKey(other) && HashConfigKey(other) == HashConfigKey(key)
      ensures other == key
    {
      HashIsInjective(other, key);
    }
  }

  lemma {:induction false} UpsertedValue(collection: map<Key, Config>, parsed: seq<ParsedConfig>, key: Key)
    ensures key in Upserted(map[], parsed) <==> key in KeysOf(parsed)
    ensures key in KeysOf(parsed) ==>
              key in Upserted(collection, parsed) && Upserted(collection, parsed)[key] == Upserted(map[], parsed)[key]
    ensures key !in KeysOf(parsed) ==> Lookup(Upserted(collection, parsed), key) == Lookup(collection, key)
  {
    if parsed == [] {
    } else {
      var front, last := parsed[..|parsed| - 1], parsed[|parsed| - 1];
      UpsertedValue(collection, front, key);
      assert parsed == front + [last];
      assert KeysOf(parsed) == KeysOf(front) + {last.key};
    }
  }

  /** After a sync the collection depends on the parsed configurations alone, and syncing again changes nothing. */
  lemma SyncForgetsThePast(collection: map<Key, Config>, parsed: seq<ParsedConfig>)
    ensures Synced(collection, parsed) == Upserted(map[], parsed)
    ensures Synced(Synced(collection, parsed), parsed) == Synced(collection, parsed)
  {
    forall key
      ensures Lookup(Synced(collection, parsed), key) == Lookup(Upserted(map[], parsed), key)
    {
      UpsertedValue(collection, parsed, key);
    }
    SameLookups(Synced(collection, parsed), Upserted(map[], parsed));
    var once := Synced(collection, parsed);
    forall key
      ensures Lookup(Synced(once, parsed), key) == Lookup(Upserted(map[], parsed), key)
    {
      UpsertedValue(once, parsed, key);
    }
    SameLookups(Synced(once, parsed), Upserted(map[], parsed));
  }

  lemma SameLookups(a: map<Key, Config>, b: map<Key, Config>)
    requires forall key :: Lookup(a, key) == Lookup(b, key)
    ensures a == b
  {
    forall key
      ensures key in a <==> key in b
      ensures key in a ==> a[key] == b[key]
    {
      assert Lookup(a, key) == Lookup(b, key);
    }
  }

  /** With distinct keys the order of the upserts does not matter either: the answers are those of the parsed files. */
  lemma {:induction false} SyncedAnswer(parsed: seq<ParsedConfig>, i: nat)
    requires i < |parsed|
    requires forall j, k :: 0 <= j < k < |parsed| ==> parsed[j].key != parsed[k].key
    ensures Lookup(Upserted(map[], parsed), parsed[i].key) == Some(Stored(parsed[i]))
  {
    var n := |parsed|;
    if i < n - 1 {
      SyncedAnswer(parsed[..n - 1], i);
      assert parsed[i].key != parsed[n - 1].key;
    }
  }

  /** The answer has the sections of the file under their own names, and is strict unless the file says it is not. */
  ghost predicate Answers(config: Config, p: ParsedConfig) {
    && config.commands == Some(p.commands) && config.controls == Some(p.controls)
    && config.measurements == Some(p.measurements)
    && config.strict == Some(if p.strict == Some(false) then false else true)
  }

  /** A synced service answers every query from the parsed files, and a key they do not declare with nothing. */
  lemma SyncedAnswers(collection: map<Key, Config>, parsed: seq<ParsedConfig>, key: Key)
    requires forall j, k :: 0 <= j < k < |parsed| ==> parsed[j].key != parsed[k].key
    ensures var answer := Lookup(Synced(collection, parsed), key);
            && (forall p :: p in parsed && p.key == key ==> answer.Some? && Answers(answer.value, p))
            && (answer.Some? <==> exists p :: p in parsed && p.key == key)
  {
    SyncForgetsThePast(collection, parsed);
    UpsertedValue(map[], parsed, key);
    forall p | p in parsed && p.key == key
      ensures Lookup(Upserted(map[], parsed), key) == Some(Stored(p))
    {
      var i :| 0 <= i < |parsed| && parsed[i] == p;
      SyncedAnswer(parsed, i);
    }
  }
}
