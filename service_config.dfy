/**
 * The connection service's configuration and its validation
 * (services/connection-service/config/config.go).
 *
 * Reading the file and the environment is left out; the decoded configuration is
 * the input. Go's nil-able section pointers are `Option`s.
 */
module ServiceConfig {
  import opened Wrappers

  /** `RedisInstanceConfig`: one Redis node. */
  datatype RedisInstanceConfig = RedisInstanceConfig(id: string, host: string, port: int)

  /** `ConsulConfig`: where Consul is, and the service name Redis nodes register under. */
  datatype ConsulConfig = ConsulConfig(host: string, port: int, redisServiceName: string)

  /** `RedisClusterConfig`. */
  datatype RedisClusterConfig = RedisClusterConfig(consul: ConsulConfig)

  /** `RedisConfig`: the user topic prefix and the two alternative bus set-ups. */
  datatype RedisConfig = RedisConfig(
    userTopic: string,
    single: Option<RedisInstanceConfig>,
    cluster: Option<RedisClusterConfig>)

  /** `WsConfig`: the durations in nanoseconds, the sizes in bytes and messages. */
  datatype WsConfig = WsConfig(timeout: int, pingInterval: int, readLimit: int, bufferSize: int)

  datatype NotificationBusConfig = NotificationBusConfig(redis: RedisConfig)

  /** `Config`: the application port, the WebSocket settings and the bus settings. */
  datatype Config = Config(appPort: int, ws: WsConfig, notificationBus: NotificationBusConfig)

  const NoRedisConfigMsg: string := "No defined config for redis bus, should be either single or cluster"

  /**
   * `RedisConfig.validate()`: an error exactly when neither a single node nor a
   * cluster is configured; one of them, or both, is fine.
   */
  function ValidateRedis(rc: RedisConfig): (err: Option<string>)
    ensures err.Some? <==> rc.single.None? && rc.cluster.None?
    ensures err.Some? ==> err.value == NoRedisConfigMsg
  {
    if rc.single.None? && rc.cluster.None? then Some(NoRedisConfigMsg) else None
  }

  /**
   * `validateConfig(config)`: the Redis section's verdict and nothing else; the
   * application and WebSocket sections are never looked at.
   */
  function ValidateConfig(config: Config): (err: Option<string>)
    ensures err == ValidateRedis(config.notificationBus.redis)
  {
    match ValidateRedis(config.notificationBus.redis)
    case Some(e) => Some(e)
    case None => None
  }
}
