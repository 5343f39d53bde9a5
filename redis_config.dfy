/** The Redis connection module: the namespaced key of a Defect hash, the
    client handle through which the routers read and write hashes, and the
    module-level connection state (`redis_conn` and `Defect.Meta.database`)
    with its connect / close / get operations. The network I/O itself
    (creating the client, ping, close) is not modelled: its failures are
    injected as parameters. */
module RedisConfig {
  import opened Wrappers
  import opened DefectModel

  /** `f"{Defect.__module__}.{Defect.__name__}:"`; Defect lives in module
      `models.defect_model`, which is how this module imports it. */
  const DefectNamespace: string := "models.defect_model.Defect:"

  /** The Redis key of the Defect hash whose primary key is `pk`. */
  function DefectKey(pk: string): (key: string)
    ensures |key| == |DefectNamespace| + |pk|
    ensures key[..|DefectNamespace|] == DefectNamespace
    ensures key[|DefectNamespace|..] == pk
  {
    DefectNamespace + pk
  }

  /** Inverse of DefectKey: the primary key of a namespaced key. */
  function StripNamespace(key: string): Option<string> {
    if |DefectNamespace| <= |key| && key[..|DefectNamespace|] == DefectNamespace
    then Some(key[|DefectNamespace|..])
    else None
  }

  lemma DefectKeyRoundTrip(pk: string)
    ensures StripNamespace(DefectKey(pk)) == Some(pk)
  {
  }

  /** Equal primary keys give equal Redis keys and different ones different keys. */
  lemma DefectKeyInjective(pk1: string, pk2: string)
    ensures DefectKey(pk1) == DefectKey(pk2) <==> pk1 == pk2
  {
    if DefectKey(pk1) == DefectKey(pk2) {
      DefectKeyRoundTrip(pk1);
      DefectKeyRoundTrip(pk2);
    }
  }

  /** A Redis client handle. `hashes` stands for the Defect hashes held by the
      server behind it, keyed by namespaced key. */
  class RedisClient {
    var hashes: map<string, Defect>

    constructor (initial: map<string, Defect>)
      ensures hashes == initial
    {
      hashes := initial;
    }

    /** `hgetall(key)`: the stored record, None when the key is missing (Redis
        answers an empty dict), or the command's error message. */
    method HGetAll(key: string, failure: Option<string>) returns (r: Result<Option<Defect>, string>)
      ensures failure.Some? ==> r == Failure(failure.value)
      ensures failure.None? && key !in hashes ==> r == Success(None)
      ensures failure.None? && key in hashes ==> r == Success(Some(hashes[key]))
    {
      if failure.Some? {
        return Failure(failure.value);
      }
      r := Success(if key in hashes then Some(hashes[key]) else None);
    }

    /** `hset(key, mapping=...)` with all seven fields: the record at `key`
        is replaced as a whole, or, when the command fails, nothing changes. */
    method HSet(key: string, value: Defect, failure: Option<string>) returns (r: Result<(), string>)
      modifies this
      ensures failure.Some? ==> r == Failure(failure.value) && hashes == old(hashes)
      ensures failure.None? ==> r == Success(()) && hashes == old(hashes)[key := value]
    {
      if failure.Some? {
        return Failure(failure.value);
      }
      hashes := hashes[key := value];
      r := Success(());
    }
  }

  /** Where connecting can fail: creating the client, or the ping that follows. */
  datatype ConnectFault = ClientCreationFailed(msg: string) | PingFailed(msg: string)

  /** The `ConnectionError` raised by `get_redis_instance`. */
  datatype ConnectionError = ConnectionError(msg: string)

  const NotConnectedMessage: string :=
    "Redis is not connected. The application might not have started correctly."

  /** The module-level connection state. */
  class RedisConfig {
    /** `redis_conn`; null until a client has been created. */
    var redisConn: RedisClient?
    /** `Defect.Meta.database`; only declared, never assigned, until a connect. */
    var defectDatabase: RedisClient?

    constructor ()
      ensures redisConn == null && defectDatabase == null
    {
      redisConn := null;
      defectDatabase := null;
    }

    /** `connect_to_redis`: once the client exists it is stored in both
        `redis_conn` and `Defect.Meta.database`, and only then pinged, so a
        failed ping re-raises but leaves both set. */
    method ConnectToRedis(client: RedisClient, fault: Option<ConnectFault>) returns (r: Result<(), ConnectFault>)
      modifies this
      ensures fault.Some? && fault.value.ClientCreationFailed? ==>
        r == Failure(fault.value) && redisConn == old(redisConn) && defectDatabase == old(defectDatabase)
      ensures !(fault.Some? && fault.value.ClientCreationFailed?) ==>
        redisConn == client && defectDatabase == client
      ensures fault.None? ==> r == Success(())
      ensures fault.Some? ==> r == Failure(fault.value)
    {
      if fault.Some? && fault.value.ClientCreationFailed? {
        return Failure(fault.value);
      }
      redisConn := client;
      defectDatabase := redisConn;
      if fault.Some? {
        return Failure(fault.value);
      }
      r := Success(());
    }

    /** `close_redis_connection`: closes the client if there is one (the
        result says whether close was issued) and does not clear `redis_conn`.
        A failing close is not caught, so its error is returned. */
    method CloseRedisConnection(failure: Option<string>) returns (r: Result<bool, string>)
      ensures redisConn == null ==> r == Success(false)
      ensures redisConn != null && failure.None? ==> r == Success(true)
      ensures redisConn != null && failure.Some? ==> r == Failure(failure.value)
    {
      if redisConn == null {
        return Success(false);
      }
      if failure.Some? {
        return Failure(failure.value);
      }
      r := Success(true);
    }

    /** `get_redis_instance`: the stored client, or ConnectionError when none was ever set. */
    method GetRedisInstance() returns (r: Result<RedisClient, ConnectionError>)
      ensures redisConn == null ==> r == Failure(ConnectionError(NotConnectedMessage))
      ensures redisConn != null ==> r == Success(redisConn)
    {
      if redisConn == null {
        return Failure(ConnectionError(NotConnectedMessage));
      }
      r := Success(redisConn);
    }
  }

  /** The application lifespan followed by a late request: connect, close,
      then ask for the instance. Because close does not reset `redis_conn`,
      the closed client is still handed out. */
  method InstanceAfterClose(client: RedisClient, closeFailure: Option<string>)
    returns (closed: Result<bool, string>, r: Result<RedisClient, ConnectionError>)
    ensures closeFailure.None? ==> closed == Success(true)
    ensures r == Success(client)
  {
    var config := new RedisConfig();
    var connected := config.ConnectToRedis(client, None);
    closed := config.CloseRedisConnection(closeFailure);
    r := config.GetRedisInstance();
  }
}
