/**
 * What Init in failover-daemon/cmd/failover-daemon/ips.go builds from the
 * configuration. Go visits the servers map in an unspecified order; the
 * tables are given here as functions of that order (a sequence of ids), and
 * the lemmas say what holds whatever the order is.
 */
module FailoverInit {
  import opened Wrappers
  import opened NetAddr
  import opened FailoverTypes

  function MakeServer(id: int, sc: ServerConfig): Server {
    Server(id, sc.main.v4, sc.main.v6)
  }

  /** The state Init gives each failover address of the server: owner and token, no target, unlocked. */
  function FreshState(id: int, sc: ServerConfig): IPState {
    IPState(sc.token, MakeServer(id, sc), None, false)
  }

  predicate InServers(cfg: Config, order: seq<int>) {
    forall k :: 0 <= k < |order| ==> order[k] in cfg.servers
  }

  /** `order` lists every server id exactly once: one visiting order of the map. */
  predicate IsEnumeration(order: seq<int>, ids: set<int>) {
    && (forall i, j :: 0 <= i < j < |order| ==> order[i] != order[j])
    && (forall k :: 0 <= k < |order| ==> order[k] in ids)
    && (forall id :: id in ids ==> id in order)
  }

  /** No failover address is listed by two different servers. */
  predicate UniqueFailover(cfg: Config) {
    forall i, j :: i in cfg.servers && j in cfg.servers && i != j ==>
      FailoverAddrs(cfg.servers[i]) !! FailoverAddrs(cfg.servers[j])
  }

  /** No main address is held by two different servers. */
  predicate UniqueMain(cfg: Config) {
    forall i, j :: i in cfg.servers && j in cfg.servers && i != j ==>
      MainAddrs(cfg.servers[i]) !! MainAddrs(cfg.servers[j])
  }

  /** d.servers after the first loop has visited `ids`. */
  function ServerTable(cfg: Config, ids: set<int>): map<int, Server>
    requires ids <= cfg.servers.Keys
  {
    map id | id in ids :: MakeServer(id, cfg.servers[id])
  }

  /** d.serverIPs after the first loop has visited `order`: both main addresses to their server. */
  function MainTable(cfg: Config, order: seq<int>): map<Addr, Server>
    requires InServers(cfg, order)
  {
    if order == [] then map[]
    else
      var id := order[|order| - 1];
      var s := MakeServer(id, cfg.servers[id]);
      MainTable(cfg, order[..|order| - 1])[s.v4 := s][s.v6 := s]
  }

  /** d.ips after the first loop has visited `order`: both failover addresses to a fresh state. */
  function FailoverTable(cfg: Config, order: seq<int>): map<Addr, IPState>
    requires InServers(cfg, order)
  {
    if order == [] then map[]
    else
      var id := order[|order| - 1];
      var sc := cfg.servers[id];
      FailoverTable(cfg, order[..|order| - 1])[sc.failover.v4 := FreshState(id, sc)][sc.failover.v6 := FreshState(id, sc)]
  }

  /** The second loop of Init: a target is set only where the route points at a known main address. */
  function ImportOne(st: IPState, a: Addr, serverIPs: map<Addr, Server>, routes: map<Addr, Addr>): IPState {
    if a in routes && routes[a] in serverIPs then st.(targetServer := Some(serverIPs[routes[a]])) else st
  }

  function Imported(ips: map<Addr, IPState>, serverIPs: map<Addr, Server>, routes: map<Addr, Addr>): map<Addr, IPState> {
    map a | a in ips :: ImportOne(ips[a], a, serverIPs, routes)
  }

  /** Visiting one more server adds its two main addresses. */
  lemma MainTableSnoc(cfg: Config, order: seq<int>, id: int)
    requires InServers(cfg, order) && id in cfg.servers
    ensures InServers(cfg, order + [id])
    ensures var s := MakeServer(id, cfg.servers[id]);
      MainTable(cfg, order + [id]) == MainTable(cfg, order)[s.v4 := s][s.v6 := s]
  {
    assert (order + [id])[..|order|] == order;
  }

  /** Visiting one more server adds its two failover addresses with fresh states. */
  lemma FailoverTableSnoc(cfg: Config, order: seq<int>, id: int)
    requires InServers(cfg, order) && id in cfg.servers
    ensures InServers(cfg, order + [id])
    ensures var sc := cfg.servers[id];
      FailoverTable(cfg, order + [id]) == FailoverTable(cfg, order)[sc.failover.v4 := FreshState(id, sc)][sc.failover.v6 := FreshState(id, sc)]
  {
    assert (order + [id])[..|order|] == order;
  }

  /** The failover table holds exactly the failover addresses of the servers visited. */
  lemma {:induction false} FailoverTableKeys(cfg: Config, order: seq<int>, a: Addr)
    requires InServers(cfg, order)
    ensures a in FailoverTable(cfg, order) <==> exists k :: 0 <= k < |order| && a in FailoverAddrs(cfg.servers[order[k]])
  {
    if order != [] {
      var init := order[..|order| - 1];
      FailoverTableKeys(cfg, init, a);
      if a in FailoverTable(cfg, order) && a !in FailoverAddrs(cfg.servers[order[|order| - 1]]) {
        var k :| 0 <= k < |init| && a in FailoverAddrs(cfg.servers[init[k]]);
        assert order[k] == init[k];
      }
      if exists k :: 0 <= k < |order| && a in FailoverAddrs(cfg.servers[order[k]]) {
        var k :| 0 <= k < |order| && a in FailoverAddrs(cfg.servers[order[k]]);
        if k < |init| {
          assert init[k] == order[k];
        }
      }
    }
  }

  /**
   * Every entry of the failover table is the fresh state of a visited server
   * holding that failover address (the last such server in the order).
   */
  lemma {:induction false} FailoverTableEntry(cfg: Config, order: seq<int>, a: Addr)
    requires InServers(cfg, order)
    requires a in FailoverTable(cfg, order)
    ensures exists k :: 0 <= k < |order| && a in FailoverAddrs(cfg.servers[order[k]])
                        && FailoverTable(cfg, order)[a] == FreshState(order[k], cfg.servers[order[k]])
  {
    var last := |order| - 1;
    if a !in FailoverAddrs(cfg.servers[order[last]]) {
      var init := order[..last];
      FailoverTableEntry(cfg, init, a);
      var k :| 0 <= k < |init| && a in FailoverAddrs(cfg.servers[init[k]])
               && FailoverTable(cfg, init)[a] == FreshState(init[k], cfg.servers[init[k]]);
      assert order[k] == init[k];
    } else {
      assert FailoverTable(cfg, order)[a] == FreshState(order[last], cfg.servers[order[last]]);
    }
  }

  /** Every entry of the main-address table is a visited server holding that main address. */
  lemma {:induction false} MainTableEntry(cfg: Config, order: seq<int>, a: Addr)
    requires InServers(cfg, order)
    requires a in MainTable(cfg, order)
    ensures exists k :: 0 <= k < |order| && a in MainAddrs(cfg.servers[order[k]])
                        && MainTable(cfg, order)[a] == MakeServer(order[k], cfg.servers[order[k]])
  {
    var last := |order| - 1;
    if a !in MainAddrs(cfg.servers[order[last]]) {
      var init := order[..last];
      MainTableEntry(cfg, init, a);
      var k :| 0 <= k < |init| && a in MainAddrs(cfg.servers[init[k]])
               && MainTable(cfg, init)[a] == MakeServer(init[k], cfg.servers[init[k]]);
      assert order[k] == init[k];
    } else {
      assert MainTable(cfg, order)[a] == MakeServer(order[last], cfg.servers[order[last]]);
    }
  }

  /**
   * When no failover address is shared, the visiting order does not matter:
   * each failover address maps to a fresh state of the server that lists it.
   */
  lemma {:induction false} FailoverTableOwner(cfg: Config, order: seq<int>, k: nat, a: Addr)
    requires InServers(cfg, order) && UniqueFailover(cfg)
    requires k < |order| && a in FailoverAddrs(cfg.servers[order[k]])
    ensures a in FailoverTable(cfg, order)
    ensures FailoverTable(cfg, order)[a] == FreshState(order[k], cfg.servers[order[k]])
  {
    var last := |order| - 1;
    if k < last {
      var init := order[..last];
      assert init[k] == order[k];
      FailoverTableOwner(cfg, init, k, a);
      if order[last] != order[k] {
        assert a !in FailoverAddrs(cfg.servers[order[last]]);
      }
    }
  }

  /** When no main address is shared, each main address maps to the server that lists it. */
  lemma {:induction false} MainTableOwner(cfg: Config, order: seq<int>, k: nat, a: Addr)
    requires InServers(cfg, order) && UniqueMain(cfg)
    requires k < |order| && a in MainAddrs(cfg.servers[order[k]])
    ensures a in MainTable(cfg, order)
    ensures MainTable(cfg, order)[a] == MakeServer(order[k], cfg.servers[order[k]])
  {
    var last := |order| - 1;
    if k < last {
      var init := order[..last];
      assert init[k] == order[k];
      MainTableOwner(cfg, init, k, a);
      if order[last] != order[k] {
        assert a !in MainAddrs(cfg.servers[order[last]]);
      }
    }
  }

  /**
   * Route import changes only targets, and sets one exactly where the
   * current route of the address is some server's main address.
   */
  lemma ImportedTargets(ips: map<Addr, IPState>, serverIPs: map<Addr, Server>, routes: map<Addr, Addr>, a: Addr)
    requires a in ips
    ensures a in Imported(ips, serverIPs, routes)
    ensures var st := Imported(ips, serverIPs, routes)[a];
      st.(targetServer := ips[a].targetServer) == ips[a]
      && (st.targetServer != ips[a].targetServer ==> a in routes && routes[a] in serverIPs)
      && (a in routes && routes[a] in serverIPs ==> st.targetServer == Some(serverIPs[routes[a]]))
  {
  }
}
