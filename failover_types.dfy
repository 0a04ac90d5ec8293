/**
 * The data of the mock Hetzner Robot failover daemon
 * (failover-daemon/cmd/failover-daemon/main.go and ips.go): the configuration
 * file's shape, a server, and the per-failover-IP state.
 */
module FailoverTypes {
  import opened Wrappers
  import opened NetAddr

  /** main.go IPSet: one IPv4 and one IPv6 address. */
  datatype IPSet = IPSet(v4: Addr, v6: Addr)

  /** main.go ServerConfig: the server's API token, its main addresses and its failover addresses. */
  datatype ServerConfig = ServerConfig(token: string, main: IPSet, failover: IPSet)

  /** main.go Config: the listen address and the servers by id. */
  datatype Config = Config(listen: string, servers: map<int, ServerConfig>)

  /** ips.go Server: an id and its two main addresses. */
  datatype Server = Server(id: int, v4: Addr, v6: Addr)

  /**
   * ips.go IPState: the owning server and its token, the server the failover
   * IP is routed to (nil as None), and whether its mutex is held.
   */
  datatype IPState = IPState(token: string, server: Server, targetServer: Option<Server>, locked: bool)

  /** The server's main address of the same family as `ip`. */
  function MainAddrFor(s: Server, ip: Addr): Addr {
    if ip.Is4() then s.v4 else s.v6
  }

  function MainAddrs(sc: ServerConfig): set<Addr> {
    {sc.main.v4, sc.main.v6}
  }

  function FailoverAddrs(sc: ServerConfig): set<Addr> {
    {sc.failover.v4, sc.failover.v6}
  }
}
