/** The context every handler works in (endpoint/endpoint.go): the routing store,
    the proxy manager and the namespace filter. */
module Context {
  import opened RoutingStore
  import opened Proxy
  import opened Namespace

  class Endpoint {
    const redisClient: Client
    const atsManager: FakeATSManager
    const nsManager: NsManager

    constructor (redisClient: Client, atsManager: FakeATSManager, nsManager: NsManager)
      ensures this.redisClient == redisClient && this.atsManager == atsManager
      ensures this.nsManager == nsManager
    {
      this.redisClient := redisClient;
      this.atsManager := atsManager;
      this.nsManager := nsManager;
    }
  }
}
