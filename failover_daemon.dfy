/**
 * The mock failover daemon of failover-daemon/cmd/failover-daemon/ips.go as
 * objects whose fields change: the Daemon's tables, filled by Init and
 * updated by the handlers, and the routing backend behind the Routing
 * interface of routing.go. Each handler is proved to do what the matching
 * function of FailoverApi says.
 */
module FailoverDaemon {
  import opened Wrappers
  import opened NetAddr
  import opened FailoverTypes
  import opened FailoverInit
  import opened FailoverApi
  import IPRoute

  /**
   * The routing backend (the Routing interface, implemented by IPRoute2).
   * `routes` is the kernel's table as `ip route get` reports it: the
   * gateway a failover address is routed via. Route commands for the
   * addresses in `broken` fail. `changes` lists the route-changing command
   * lines issued, as IPRoute spells them.
   */
  class Router {
    var routes: map<Addr, Addr>
    const broken: set<Addr>
    var changes: seq<string>

    constructor (routes0: map<Addr, Addr>, broken: set<Addr>)
      ensures routes == routes0 && this.broken == broken && changes == []
    {
      routes := routes0;
      this.broken := broken;
      changes := [];
    }

    /** ReplaceRoute: route the failover address via the target. */
    method ReplaceRoute(failoverIP: Addr, targetIP: Addr) returns (err: Option<string>)
      modifies this
      ensures err.None? <==> failoverIP !in broken
      ensures routes == if failoverIP in broken then old(routes) else old(routes)[failoverIP := targetIP]
      ensures changes == old(changes) + [IPRoute.ReplaceRouteCmd(failoverIP, targetIP)]
    {
      changes := changes + [IPRoute.ReplaceRouteCmd(failoverIP, targetIP)];
      if failoverIP in broken {
        err := Some("route replace failed");
      } else {
        routes := routes[failoverIP := targetIP];
        err := None;
      }
    }

    /** RemoveRoute: drop the failover address's route. */
    method RemoveRoute(failoverIP: Addr) returns (err: Option<string>)
      modifies this
      ensures err.None? <==> failoverIP !in broken
      ensures routes == if failoverIP in broken then old(routes) else old(routes) - {failoverIP}
      ensures changes == old(changes) + [IPRoute.RemoveRouteCmd(failoverIP)]
    {
      changes := changes + [IPRoute.RemoveRouteCmd(failoverIP)];
      if failoverIP in broken {
        err := Some("route delete failed");
      } else {
        routes := routes - {failoverIP};
        err := None;
      }
    }

    /** GetRoute: the gateway the failover address is routed via, None when there is none. */
    method GetRoute(failoverIP: Addr) returns (r: Result<Option<Addr>, string>)
      ensures r.Failure? <==> failoverIP in broken
      ensures r.Success? ==> (r.value.Some? <==> failoverIP in routes)
      ensures r.Success? && r.value.Some? ==> r.value.value == routes[failoverIP]
    {
      if failoverIP in broken {
        r := Failure("route get failed");
      } else if failoverIP in routes {
        r := Success(Some(routes[failoverIP]));
      } else {
        r := Success(None);
      }
    }
  }

  /** ips.go Daemon: the failover IPs, the servers by id and by main address, and its routing and library. */
  class Daemon {
    var ips: map<Addr, IPState>
    var servers: map<int, Server>
    var serverIPs: map<Addr, Server>
    const routing: Router
    const lib: Lib

    /** The owner and the target of every failover IP, and every server found by main address, is a configured server. */
    ghost predicate Valid()
      reads this
    {
      && (forall a :: a in ips ==> Known(ips[a].server))
      && (forall a :: a in ips && ips[a].targetServer.Some? ==> Known(ips[a].targetServer.value))
      && (forall m :: m in serverIPs ==> Known(serverIPs[m]) && (serverIPs[m].v4 == m || serverIPs[m].v6 == m))
    }

    ghost predicate Known(s: Server)
      reads this
    {
      s.id in servers && servers[s.id] == s
    }

    constructor (routing: Router, lib: Lib)
      ensures ips == map[] && servers == map[] && serverIPs == map[]
      ensures this.routing == routing && this.lib == lib
      ensures Valid()
    {
      ips := map[];
      servers := map[];
      serverIPs := map[];
      this.routing := routing;
      this.lib := lib;
    }

    /**
     * The first loop of Init: every configured server, in an order Go does
     * not specify (`order`), enters the three tables.
     */
    method LoadServers(config: Config) returns (ghost order: seq<int>)
      requires ips == map[] && servers == map[] && serverIPs == map[]
      modifies this
      ensures IsEnumeration(order, config.servers.Keys)
      ensures servers == ServerTable(config, config.servers.Keys)
      ensures serverIPs == MainTable(config, order)
      ensures ips == FailoverTable(config, order)
      ensures forall a :: a in ips ==> ips[a].targetServer.None? && !ips[a].locked
      ensures Valid()
    {
      var remaining := config.servers.Keys;
      order := [];
      while remaining != {}
        invariant remaining <= config.servers.Keys
        invariant forall k :: 0 <= k < |order| ==> order[k] in config.servers && order[k] !in remaining
        invariant forall i, j :: 0 <= i < j < |order| ==> order[i] != order[j]
        invariant forall id :: id in config.servers && id !in remaining ==> id in order
        invariant servers == ServerTable(config, config.servers.Keys - remaining)
        invariant serverIPs == MainTable(config, order)
        invariant ips == FailoverTable(config, order)
        invariant forall a :: a in ips ==> ips[a].targetServer.None? && !ips[a].locked
        invariant Valid()
        decreases remaining
      {
        var id :| id in remaining;
        AddServer(config, id);
        MainTableSnoc(config, order, id);
        FailoverTableSnoc(config, order, id);
        assert ServerTable(config, config.servers.Keys - (remaining - {id}))
            == ServerTable(config, config.servers.Keys - remaining)[id := MakeServer(id, config.servers[id])];
        order := order + [id];
        remaining := remaining - {id};
      }
    }

    /** One iteration of Init's first loop: the server, its main addresses and its failover addresses enter the tables. */
    method AddServer(config: Config, id: int)
      requires id in config.servers && Valid()
      requires forall a :: a in ips ==> ips[a].targetServer.None? && !ips[a].locked
      modifies this
      ensures var sc := config.servers[id];
        var server := MakeServer(id, sc);
        && servers == old(servers)[id := server]
        && serverIPs == old(serverIPs)[server.v4 := server][server.v6 := server]
        && ips == old(ips)[sc.failover.v4 := FreshState(id, sc)][sc.failover.v6 := FreshState(id, sc)]
      ensures id !in old(servers) ==> Valid()
      ensures forall a :: a in ips ==> ips[a].targetServer.None? && !ips[a].locked
    {
      var sc := config.servers[id];
      var server := Server(id, sc.main.v4, sc.main.v6);
      servers := servers[id := server];
      serverIPs := serverIPs[server.v4 := server];
      serverIPs := serverIPs[server.v6 := server];
      ips := ips[sc.failover.v4 := IPState(sc.token, server, None, false)];
      ips := ips[sc.failover.v6 := IPState(sc.token, server, None, false)];
    }

    /**
     * The second loop of Init: each failover IP whose current route runs via
     * a server's main address gets that server as its target. A failing
     * route lookup is returned as the error (Go stops there; the daemon is
     * then discarded).
     */
    method ImportRoutes() returns (err: Option<string>)
      requires Valid()
      modifies this
      ensures err.Some? <==> old(ips).Keys * routing.broken != {}
      ensures err.None? ==> ips == Imported(old(ips), serverIPs, routing.routes)
      ensures servers == old(servers) && serverIPs == old(serverIPs)
      ensures Valid()
    {
      ghost var ips0 := ips;
      var remaining := ips.Keys;
      while remaining != {}
        invariant remaining <= ips.Keys && ips.Keys == ips0.Keys
        invariant forall a :: a in ips0 && a !in remaining ==> a !in routing.broken
        invariant forall a :: a in ips ==>
          ips[a] == if a in remaining then ips0[a] else ImportOne(ips0[a], a, serverIPs, routing.routes)
        invariant servers == old(servers) && serverIPs == old(serverIPs)
        invariant Valid()
        decreases remaining
      {
        var ip :| ip in remaining;
        var current := routing.GetRoute(ip);
        if current.Failure? {
          assert ip in ips0.Keys * routing.broken;
          return Some(current.error);
        }
        if current.value.Some? && current.value.value in serverIPs {
          ips := ips[ip := ips[ip].(targetServer := Some(serverIPs[current.value.value]))];
        }
        remaining := remaining - {ip};
      }
      assert ips == Imported(ips0, serverIPs, routing.routes);
      err := None;
    }

    /** sync.Mutex TryLock on a failover IP's state. */
    method TryLock(ip: Addr) returns (ok: bool)
      requires ip in ips
      modifies this
      ensures ok == !old(ips[ip].locked)
      ensures ips == old(ips)[ip := old(ips[ip]).(locked := true)]
      ensures servers == old(servers) && serverIPs == old(serverIPs)
    {
      ok := !ips[ip].locked;
      ips := ips[ip := ips[ip].(locked := true)];
    }

    /** sync.Mutex Unlock; the handlers only unlock what they locked. */
    method Unlock(ip: Addr)
      requires ip in ips && ips[ip].locked
      modifies this
      ensures ips == old(ips)[ip := old(ips[ip]).(locked := false)]
      ensures servers == old(servers) && serverIPs == old(serverIPs)
    {
      ips := ips[ip := ips[ip].(locked := false)];
    }

    /** The GET /{ip} handler: it answers as GetResponse says and leaves the state as it was. */
    method HandleGet(req: Request) returns (resp: Response)
      requires Valid()
      modifies this
      ensures resp == GetResponse(old(ips), lib, req)
      ensures ips == old(ips) && servers == old(servers) && serverIPs == old(serverIPs)
      ensures resp.Ok? && resp.failover.activeServerIp.Some? ==>
        && lib.parseAddr(req.pathIp).Some? && lib.parseAddr(req.pathIp).value in ips
        && ips[lib.parseAddr(req.pathIp).value].targetServer.Some?
        && Known(ips[lib.parseAddr(req.pathIp).value].targetServer.value)
    {
      var h := CommonHandleIP(ips, lib, req);
      if h.Failure? {
        return h.error;
      }
      var ip := h.value.ip;
      var state := ips[ip];
      var res := MakeCommonRes(ip, state);
      if state.targetServer.Some? {
        if ip.Is4() {
          res := res.(activeServerIp := Some(state.targetServer.value.v4.text));
        } else {
          res := res.(activeServerIp := Some(state.targetServer.value.v6.text));
        }
      }
      var lockSuccess := TryLock(ip);
      if lockSuccess {
        Unlock(ip);
        assert ips == old(ips);
      } else {
        assert ips == old(ips);
        res := res.(status := "processing");
      }
      resp := Ok(res);
    }

    /**
     * The POST /{ip} handler: table, routes and response are those of
     * ApplyPost; the route command is issued exactly when the target was
     * switched, and the IP's lock is released again.
     */
    method HandlePost(req: Request) returns (resp: Response)
      requires Valid()
      modifies this, routing
      ensures Valid()
      ensures Outcome(ips, routing.routes, resp) == ApplyPost(old(ips), serverIPs, old(routing.routes), routing.broken, lib, req)
      ensures servers == old(servers) && serverIPs == old(serverIPs)
      ensures (resp.Ok? || resp.Plain?) ==>
        routing.changes == old(routing.changes) + [IPRoute.ReplaceRouteCmd(lib.parseAddr(req.pathIp).value,
                                                                           lib.parseAddr(FormValue(req.form.value, "active_server_ip")).value)]
      ensures !(resp.Ok? || resp.Plain?) ==> routing.changes == old(routing.changes)
    {
      if req.form.None? {
        return BadRequest("No valid form data");
      }
      var h := CommonHandleIP(ips, lib, req);
      if h.Failure? {
        return h.error;
      }
      var ip := h.value.ip;
      var newTarget := FormValue(req.form.value, "active_server_ip");
      if newTarget == "" {
        return BadRequest("No target IP provided");
      }
      var parsed := lib.parseAddr(newTarget);
      if parsed.None? {
        return BadRequest("Target IP not valid IP");
      }
      var newTargetIP := parsed.value;
      if newTargetIP !in serverIPs {
        return BadRequest("Target IP not a valid server");
      }
      var newTargetServer := serverIPs[newTargetIP];
      if ips[ip].targetServer.Some? && ips[ip].targetServer.value.id == newTargetServer.id {
        return AlreadyRouted();
      }
      var state0 := ips[ip];
      var lockSuccess := TryLock(ip);
      if !lockSuccess {
        assert ips == old(ips);
        return Locked();
      }
      ips := ips[ip := ips[ip].(targetServer := Some(newTargetServer))];
      var res := MakeCommonRes(ip, ips[ip]);
      if ip.Is4() {
        res := res.(activeServerIp := Some(newTargetServer.v4.text));
      } else {
        res := res.(activeServerIp := Some(newTargetServer.v6.text));
      }
      var err := routing.ReplaceRoute(ip, newTargetIP);
      Unlock(ip);
      assert ips == old(ips)[ip := state0.(targetServer := Some(newTargetServer))];
      if err.Some? {
        return Plain(500, "Could not replace route");
      }
      resp := Ok(res);
    }

    /**
     * The DELETE /{ip} handler: table, routes and response are those of
     * ApplyDelete; the route command is issued exactly when the target was
     * cleared.
     */
    method HandleDelete(req: Request) returns (resp: Response)
      requires Valid()
      modifies this, routing
      ensures Valid()
      ensures Outcome(ips, routing.routes, resp) == ApplyDelete(old(ips), old(routing.routes), routing.broken, lib, req)
      ensures servers == old(servers) && serverIPs == old(serverIPs)
      ensures (resp.Ok? || resp.Plain?) ==> routing.changes == old(routing.changes) + [IPRoute.RemoveRouteCmd(lib.parseAddr(req.pathIp).value)]
      ensures !(resp.Ok? || resp.Plain?) ==> routing.changes == old(routing.changes)
    {
      var h := CommonHandleIP(ips, lib, req);
      if h.Failure? {
        return h.error;
      }
      var ip := h.value.ip;
      var state0 := ips[ip];
      var lockSuccess := TryLock(ip);
      if !lockSuccess {
        assert ips == old(ips);
        return Locked();
      }
      ips := ips[ip := ips[ip].(targetServer := None)];
      var res := MakeCommonRes(ip, ips[ip]);
      var err := routing.RemoveRoute(ip);
      Unlock(ip);
      assert ips == old(ips)[ip := state0.(targetServer := None)];
      if err.Some? {
        return Plain(500, "Could not remove route");
      }
      resp := Ok(res);
    }
  }

  /**
   * ips.go Init: load the configured servers, then import the current
   * routes. It fails exactly when a route lookup for some failover IP fails.
   */
  method Init(config: Config, routing: Router, lib: Lib) returns (r: Result<Daemon, string>, ghost order: seq<int>)
    ensures IsEnumeration(order, config.servers.Keys)
    ensures r.Success? <==> FailoverTable(config, order).Keys * routing.broken == {}
    ensures r.Success? ==>
      && fresh(r.value) && r.value.Valid()
      && r.value.routing == routing && r.value.lib == lib
      && r.value.servers == ServerTable(config, config.servers.Keys)
      && r.value.serverIPs == MainTable(config, order)
      && r.value.ips == Imported(FailoverTable(config, order), MainTable(config, order), routing.routes)
  {
    var d := new Daemon(routing, lib);
    order := d.LoadServers(config);
    var err := d.ImportRoutes();
    if err.Some? {
      return Failure(err.value), order;
    }
    r := Success(d);
  }
}
