/**
 * The request handling of the mock Hetzner Robot failover API
 * (failover-daemon/cmd/failover-daemon/ips.go), as functions of the IP table:
 * the authentication and validation chain shared by all handlers, the
 * response record, and what GET, POST and DELETE answer and change. The
 * daemon class in FailoverDaemon runs these steps in place.
 *
 * The endpoints follow Hetzner's Robot webservice failover API: GET, POST
 * and DELETE on /{ip}, HTTP Basic authentication (section 2 of RFC 7617)
 * with the user-id "<server id>" and the password "<token>".
 */
module FailoverApi {
  import opened Wrappers
  import opened Text
  import opened NetAddr
  import opened FailoverTypes

  /** The Go library the handlers call and that is not modelled: netip.ParseAddr and base64 StdEncoding decoding. */
  datatype Lib = Lib(parseAddr: string -> Option<Addr>, decodeBase64: string -> Option<string>)

  /**
   * What a handler reads of an HTTP request: the {ip} path segment, the
   * Authorization header ("" when absent) and the parsed form (None when
   * ParseForm fails).
   */
  datatype Request = Request(pathIp: string, authorization: string, form: Option<map<string, string>>)

  /** ips.go CommonResponse; active_server_ip is null as None. */
  datatype CommonResponse = CommonResponse(
    ip: string,
    netmask: string,
    status: string,
    serverIp: string,
    serverIpv6Net: string,
    serverNumber: int,
    activeServerIp: Option<string>)

  /**
   * What a handler sends: 200 with {"failover": ...}; a JSON error message;
   * a plain-text body with a status; or nothing, when the handler panics.
   */
  datatype Response =
    | Ok(failover: CommonResponse)
    | Err(status: int, code: string, message: string)
    | Plain(status: int, body: string)
    | Aborted

  /** Table, routing table and response after one request. */
  datatype Outcome = Outcome(ips: map<Addr, IPState>, routes: map<Addr, Addr>, resp: Response)

  const AuthBasic: string := "Basic "

  function BadRequest(why: string): Response {
    Err(400, "BAD_REQUEST", why)
  }

  function NotFound(): Response {
    Err(404, "NOT_FOUND", "Not Found")
  }

  function Unauthorized(why: string): Response {
    Err(401, "UNAUTHORIZED", why)
  }

  function Conflict(code: string, why: string): Response {
    Err(409, code, why)
  }

  function AlreadyRouted(): Response {
    Conflict("FAILOVER_ALREADY_ROUTED", "The failover ip is already routed to the selected server")
  }

  function Locked(): Response {
    Conflict("FAILOVER_LOCKED", "The failover ip can not be set up due to an active lock.")
  }

  /** The host netmask of the address's family. */
  function Netmask(ip: Addr): string {
    if ip.Is4() then "255.255.255.255" else "ffff:ffff:ffff:ffff::"
  }

  /** MakeCommonRes: the response fields that come from the failover IP and its owning server. */
  function MakeCommonRes(ip: Addr, state: IPState): CommonResponse {
    CommonResponse(ip.text, Netmask(ip), "ready", state.server.v4.text, state.server.v6.text, state.server.id, None)
  }

  /** The only credential accepted for an IP: "<owning server id>:<token>". */
  function Credential(id: int, token: string): string {
    IntToString(id) + ":" + token
  }

  /** A request that passed commonHandleIP: the parsed IP and its state. */
  datatype Accepted = Accepted(ip: Addr, state: IPState)

  /** All checks of commonHandleIP pass. */
  predicate Authorized(ips: map<Addr, IPState>, lib: Lib, req: Request) {
    var auth := req.authorization;
    && lib.parseAddr(req.pathIp).Some?
    && lib.parseAddr(req.pathIp).value in ips
    && |auth| >= |AuthBasic|
    && auth[..|AuthBasic|] == AuthBasic
    && lib.decodeBase64(auth[|AuthBasic|..])
       == Some(Credential(ips[lib.parseAddr(req.pathIp).value].server.id, ips[lib.parseAddr(req.pathIp).value].token))
  }

  /**
   * commonHandleIP: the checks in their order. An Authorization header
   * shorter than "Basic " makes the Go slice expression panic.
   */
  function CommonHandleIP(ips: map<Addr, IPState>, lib: Lib, req: Request): (r: Result<Accepted, Response>)
    ensures r.Success? <==> Authorized(ips, lib, req)
    ensures r.Success? ==> r.value.ip == lib.parseAddr(req.pathIp).value && r.value.state == ips[r.value.ip]
    ensures r.Failure? ==> r.error.Aborted? || (r.error.Err? && r.error.status in {400, 401, 404})
  {
    match lib.parseAddr(req.pathIp)
    case None => Failure(BadRequest("No valid IP"))
    case Some(ip) =>
      if ip !in ips then Failure(NotFound())
      else
        var state := ips[ip];
        var auth := req.authorization;
        if auth == "" then Failure(Unauthorized("Auth empty"))
        else if |auth| < |AuthBasic| then Failure(Aborted)
        else if auth[..|AuthBasic|] != AuthBasic then Failure(Unauthorized("Auth not basic"))
        else
          match lib.decodeBase64(auth[|AuthBasic|..])
          case None => Failure(Unauthorized("Auth decode failed"))
          case Some(creds) =>
            if Credential(state.server.id, state.token) != creds then Failure(Unauthorized("Auth wrong"))
            else Success(Accepted(ip, state))
  }

  /** active_server_ip for a target: its main address of the failover IP's family. */
  function ActiveServerIp(ip: Addr, target: Option<Server>): Option<string> {
    match target
    case None => None
    case Some(s) => Some(MainAddrFor(s, ip).text)
  }

  /** The GET /{ip} handler. */
  function GetResponse(ips: map<Addr, IPState>, lib: Lib, req: Request): Response {
    match CommonHandleIP(ips, lib, req)
    case Failure(e) => e
    case Success(Accepted(ip, state)) =>
      var res := MakeCommonRes(ip, state).(activeServerIp := ActiveServerIp(ip, state.targetServer));
      Ok(if state.locked then res.(status := "processing") else res)
  }

  /** r.Form.Get: the value of the field, "" when absent. */
  function FormValue(form: map<string, string>, key: string): string {
    if key in form then form[key] else ""
  }

  /**
   * The POST /{ip} handler. The routing backend fails for the addresses in
   * `broken`; otherwise it routes the failover IP via the target IP.
   */
  function ApplyPost(ips: map<Addr, IPState>, serverIPs: map<Addr, Server>, routes: map<Addr, Addr>,
                     broken: set<Addr>, lib: Lib, req: Request): Outcome
  {
    if req.form.None? then Outcome(ips, routes, BadRequest("No valid form data"))
    else
      match CommonHandleIP(ips, lib, req)
      case Failure(e) => Outcome(ips, routes, e)
      case Success(Accepted(ip, state)) =>
        var newTarget := FormValue(req.form.value, "active_server_ip");
        if newTarget == "" then Outcome(ips, routes, BadRequest("No target IP provided"))
        else
          match lib.parseAddr(newTarget)
          case None => Outcome(ips, routes, BadRequest("Target IP not valid IP"))
          case Some(newTargetIP) =>
            if newTargetIP !in serverIPs then Outcome(ips, routes, BadRequest("Target IP not a valid server"))
            else
              var newServer := serverIPs[newTargetIP];
              if state.targetServer.Some? && state.targetServer.value.id == newServer.id then
                Outcome(ips, routes, AlreadyRouted())
              else if state.locked then Outcome(ips, routes, Locked())
              else
                var ips' := ips[ip := state.(targetServer := Some(newServer))];
                var res := MakeCommonRes(ip, ips'[ip]).(activeServerIp := Some(MainAddrFor(newServer, ip).text));
                if ip in broken then Outcome(ips', routes, Plain(500, "Could not replace route"))
                else Outcome(ips', routes[ip := newTargetIP], Ok(res))
  }

  /** The DELETE /{ip} handler. */
  function ApplyDelete(ips: map<Addr, IPState>, routes: map<Addr, Addr>, broken: set<Addr>, lib: Lib, req: Request): Outcome {
    match CommonHandleIP(ips, lib, req)
    case Failure(e) => Outcome(ips, routes, e)
    case Success(Accepted(ip, state)) =>
      if state.locked then Outcome(ips, routes, Locked())
      else
        var ips' := ips[ip := state.(targetServer := None)];
        var res := MakeCommonRes(ip, ips'[ip]);
        if ip in broken then Outcome(ips', routes, Plain(500, "Could not remove route"))
        else Outcome(ips', routes - {ip}, Ok(res))
  }

  // ---------------------------------------------------------------------
  // Authentication

  /** Two credentials are equal only for the same server id and the same token. */
  lemma CredentialInjective(id1: int, token1: string, id2: int, token2: string)
    requires Credential(id1, token1) == Credential(id2, token2)
    ensures id1 == id2 && token1 == token2
  {
    assert Credential(id1, token1) == IntToString(id1) + [':'] + token1;
    assert Credential(id2, token2) == IntToString(id2) + [':'] + token2;
    SplitAtFirst(':', IntToString(id1), token1, IntToString(id2), token2);
    IntToStringInjective(id1, id2);
  }

  /**
   * A request accepted for an IP carries the owner's credential and no
   * other: whatever "<id>:<token>" it decodes to names the owning server and
   * its token, never the target server or another server.
   */
  lemma OnlyOwnerCredentialAccepted(ips: map<Addr, IPState>, lib: Lib, req: Request, id: int, token: string)
    requires CommonHandleIP(ips, lib, req).Success?
    requires lib.decodeBase64(req.authorization[|AuthBasic|..]) == Some(Credential(id, token))
    ensures var st := CommonHandleIP(ips, lib, req).value.state;
      id == st.server.id && token == st.token
  {
    var st := CommonHandleIP(ips, lib, req).value.state;
    CredentialInjective(id, token, st.server.id, st.token);
  }

  /** The owner's credential, Basic-encoded, is accepted on any known IP. */
  lemma OwnerCredentialAccepted(ips: map<Addr, IPState>, lib: Lib, ip: Addr, enc: string, req: Request)
    requires ip in ips && lib.parseAddr(req.pathIp) == Some(ip)
    requires req.authorization == AuthBasic + enc
    requires lib.decodeBase64(enc) == Some(Credential(ips[ip].server.id, ips[ip].token))
    ensures CommonHandleIP(ips, lib, req) == Success(Accepted(ip, ips[ip]))
  {
    assert req.authorization[..|AuthBasic|] == AuthBasic;
    assert req.authorization[|AuthBasic|..] == enc;
  }

  /** The order of the checks: the first one that fails gives the response. */
  lemma ValidationOrder(ips: map<Addr, IPState>, lib: Lib, req: Request)
    ensures var r := CommonHandleIP(ips, lib, req);
      var ip := lib.parseAddr(req.pathIp);
      var auth := req.authorization;
      && (ip.None? ==> r == Failure(BadRequest("No valid IP")))
      && (ip.Some? && ip.value !in ips ==> r == Failure(NotFound()))
      && (ip.Some? && ip.value in ips && auth == "" ==> r == Failure(Unauthorized("Auth empty")))
      && (ip.Some? && ip.value in ips && 0 < |auth| < |AuthBasic| ==> r == Failure(Aborted))
      && ((ip.Some? && ip.value in ips && |auth| >= |AuthBasic| && auth[..|AuthBasic|] != AuthBasic)
          ==> r == Failure(Unauthorized("Auth not basic")))
      && ((ip.Some? && ip.value in ips && |auth| >= |AuthBasic| && auth[..|AuthBasic|] == AuthBasic
           && lib.decodeBase64(auth[|AuthBasic|..]).None?)
          ==> r == Failure(Unauthorized("Auth decode failed")))
      && ((ip.Some? && ip.value in ips && |auth| >= |AuthBasic| && auth[..|AuthBasic|] == AuthBasic
           && lib.decodeBase64(auth[|AuthBasic|..]).Some?
           && lib.decodeBase64(auth[|AuthBasic|..]).value != Credential(ips[ip.value].server.id, ips[ip.value].token))
          ==> r == Failure(Unauthorized("Auth wrong")))
  {
  }

  /** Two tables that agree on keys, owners and tokens accept and reject the same requests. */
  predicate SameCredentials(ips: map<Addr, IPState>, ips': map<Addr, IPState>) {
    ips.Keys == ips'.Keys
    && forall a :: a in ips ==> ips[a].server == ips'[a].server && ips[a].token == ips'[a].token
  }

  lemma HandleIPSameCredentials(ips: map<Addr, IPState>, ips': map<Addr, IPState>, lib: Lib, req: Request)
    requires SameCredentials(ips, ips')
    ensures CommonHandleIP(ips, lib, req).Success? == CommonHandleIP(ips', lib, req).Success?
    ensures CommonHandleIP(ips, lib, req).Failure? ==> CommonHandleIP(ips', lib, req) == CommonHandleIP(ips, lib, req)
    ensures CommonHandleIP(ips, lib, req).Success? ==>
      CommonHandleIP(ips', lib, req).value.ip == CommonHandleIP(ips, lib, req).value.ip
  {
  }

  // ---------------------------------------------------------------------
  // GET

  /**
   * An accepted GET reports the owning server (never the target) with the
   * family's host netmask; active_server_ip is absent exactly when there is
   * no target and is otherwise the target's main address of the failover
   * IP's family; status is "processing" exactly when the lock is held.
   */
  lemma GetReport(ips: map<Addr, IPState>, lib: Lib, req: Request)
    requires Authorized(ips, lib, req)
    ensures var ip := lib.parseAddr(req.pathIp).value;
      var st := ips[ip];
      var r := GetResponse(ips, lib, req);
      && r.Ok?
      && r.failover.ip == ip.text
      && r.failover.netmask == (if ip.Is4() then "255.255.255.255" else "ffff:ffff:ffff:ffff::")
      && r.failover.serverNumber == st.server.id
      && r.failover.serverIp == st.server.v4.text
      && r.failover.serverIpv6Net == st.server.v6.text
      && (r.failover.activeServerIp.None? <==> st.targetServer.None?)
      && (st.targetServer.Some? ==> r.failover.activeServerIp == Some(MainAddrFor(st.targetServer.value, ip).text))
      && (r.failover.status == "processing" <==> st.locked)
      && (!st.locked ==> r.failover.status == "ready")
  {
  }

  /** A rejected GET answers with the check's error. */
  lemma GetRejected(ips: map<Addr, IPState>, lib: Lib, req: Request)
    requires !Authorized(ips, lib, req)
    ensures GetResponse(ips, lib, req) == CommonHandleIP(ips, lib, req).error
    ensures !GetResponse(ips, lib, req).Ok?
  {
  }

  // ---------------------------------------------------------------------
  // POST

  /** Form data is checked first: a bad form gives 400 whatever the IP and the credentials. */
  lemma PostBadFormFirst(ips: map<Addr, IPState>, serverIPs: map<Addr, Server>, routes: map<Addr, Addr>,
                         broken: set<Addr>, lib: Lib, req: Request)
    requires req.form.None?
    ensures ApplyPost(ips, serverIPs, routes, broken, lib, req) == Outcome(ips, routes, BadRequest("No valid form data"))
  {
  }

  /**
   * Every POST that neither switches the target nor reaches the routing
   * backend leaves the table and the routes as they were: the error
   * responses (400, 401, 404, 409) and the panic.
   */
  lemma PostRejectionsChangeNothing(ips: map<Addr, IPState>, serverIPs: map<Addr, Server>, routes: map<Addr, Addr>,
                                    broken: set<Addr>, lib: Lib, req: Request)
    ensures var out := ApplyPost(ips, serverIPs, routes, broken, lib, req);
      (out.resp.Err? || out.resp.Aborted?) ==> out.ips == ips && out.routes == routes
    ensures var out := ApplyPost(ips, serverIPs, routes, broken, lib, req);
      out.resp.Err? ==> out.resp.status in {400, 401, 404, 409}
  {
  }

  /** After the checks, the target is validated: present, an address, and some server's main address. */
  lemma PostTargetChecks(ips: map<Addr, IPState>, serverIPs: map<Addr, Server>, routes: map<Addr, Addr>,
                         broken: set<Addr>, lib: Lib, req: Request)
    requires req.form.Some? && Authorized(ips, lib, req)
    ensures var out := ApplyPost(ips, serverIPs, routes, broken, lib, req);
      var t := FormValue(req.form.value, "active_server_ip");
      && (t == "" ==> out.resp == BadRequest("No target IP provided"))
      && (t != "" && lib.parseAddr(t).None? ==> out.resp == BadRequest("Target IP not valid IP"))
      && (t != "" && lib.parseAddr(t).Some? && lib.parseAddr(t).value !in serverIPs
          ==> out.resp == BadRequest("Target IP not a valid server"))
  {
  }

  /**
   * A POST naming the server the IP already points to gives 409
   * FAILOVER_ALREADY_ROUTED, whether or not the lock is held; otherwise a
   * held lock gives 409 FAILOVER_LOCKED.
   */
  lemma PostConflicts(ips: map<Addr, IPState>, serverIPs: map<Addr, Server>, routes: map<Addr, Addr>,
                      broken: set<Addr>, lib: Lib, req: Request)
    requires req.form.Some? && Authorized(ips, lib, req)
    requires var t := FormValue(req.form.value, "active_server_ip");
      t != "" && lib.parseAddr(t).Some? && lib.parseAddr(t).value in serverIPs
    ensures var out := ApplyPost(ips, serverIPs, routes, broken, lib, req);
      var st := ips[lib.parseAddr(req.pathIp).value];
      var s := serverIPs[lib.parseAddr(FormValue(req.form.value, "active_server_ip")).value];
      && (st.targetServer.Some? && st.targetServer.value.id == s.id ==> out.resp == AlreadyRouted())
      && (!(st.targetServer.Some? && st.targetServer.value.id == s.id) && st.locked ==> out.resp == Locked())
  {
  }

  /**
   * A POST that passes every check sets this IP's target, and nothing else
   * in the table, to the server owning the given main address; it answers
   * with that server's main address of the IP's family. When the routing
   * backend then fails, the answer is 500 and the target stays set.
   */
  lemma PostSwitch(ips: map<Addr, IPState>, serverIPs: map<Addr, Server>, routes: map<Addr, Addr>,
                   broken: set<Addr>, lib: Lib, req: Request)
    requires var out := ApplyPost(ips, serverIPs, routes, broken, lib, req); out.resp.Ok? || out.resp.Plain?
    ensures req.form.Some? && Authorized(ips, lib, req)
    ensures var out := ApplyPost(ips, serverIPs, routes, broken, lib, req);
      var ip := lib.parseAddr(req.pathIp).value;
      var via := lib.parseAddr(FormValue(req.form.value, "active_server_ip")).value;
      var s := serverIPs[via];
      && !ips[ip].locked
      && !(ips[ip].targetServer.Some? && ips[ip].targetServer.value.id == s.id)
      && out.ips == ips[ip := ips[ip].(targetServer := Some(s))]
      && (ip in broken <==> out.resp.Plain?)
      && (out.resp.Plain? ==> out.resp == Plain(500, "Could not replace route") && out.routes == routes)
      && (out.resp.Ok? ==> out.routes == routes[ip := via]
                           && out.resp.failover.activeServerIp == Some(MainAddrFor(s, ip).text)
                           && out.resp.failover.serverNumber == ips[ip].server.id)
  {
  }

  /**
   * Every check of the POST handler passes: form data, commonHandleIP, a
   * target that is present, parses and is a server's main address, an IP
   * not already routed to that server, and a free lock.
   */
  predicate PostPasses(ips: map<Addr, IPState>, serverIPs: map<Addr, Server>, lib: Lib, req: Request) {
    && req.form.Some?
    && Authorized(ips, lib, req)
    && FormValue(req.form.value, "active_server_ip") != ""
    && lib.parseAddr(FormValue(req.form.value, "active_server_ip")).Some?
    && lib.parseAddr(FormValue(req.form.value, "active_server_ip")).value in serverIPs
    && !ips[lib.parseAddr(req.pathIp).value].locked
    && !(ips[lib.parseAddr(req.pathIp).value].targetServer.Some?
         && ips[lib.parseAddr(req.pathIp).value].targetServer.value.id
            == serverIPs[lib.parseAddr(FormValue(req.form.value, "active_server_ip")).value].id)
  }

  /**
   * A POST reaches the switch (answering 200, or 500 when the route command
   * fails) exactly when every check passes; which of the two depends only on
   * the routing backend.
   */
  lemma PostPassesSwitches(ips: map<Addr, IPState>, serverIPs: map<Addr, Server>, routes: map<Addr, Addr>,
                           broken: set<Addr>, lib: Lib, req: Request)
    ensures var out := ApplyPost(ips, serverIPs, routes, broken, lib, req);
      (out.resp.Ok? || out.resp.Plain?) <==> PostPasses(ips, serverIPs, lib, req)
    ensures PostPasses(ips, serverIPs, lib, req) ==>
      (ApplyPost(ips, serverIPs, routes, broken, lib, req).resp.Plain? <==> lib.parseAddr(req.pathIp).value in broken)
  {
  }

  /** A GET after a successful POST reports the target that POST answered with. */
  lemma PostThenGet(ips: map<Addr, IPState>, serverIPs: map<Addr, Server>, routes: map<Addr, Addr>,
                    broken: set<Addr>, lib: Lib, req: Request, get: Request)
    requires ApplyPost(ips, serverIPs, routes, broken, lib, req).resp.Ok?
    requires get.pathIp == req.pathIp && get.authorization == req.authorization
    ensures var out := ApplyPost(ips, serverIPs, routes, broken, lib, req);
      GetResponse(out.ips, lib, get) == out.resp
  {
    var out := ApplyPost(ips, serverIPs, routes, broken, lib, req);
    PostSwitch(ips, serverIPs, routes, broken, lib, req);
    assert SameCredentials(ips, out.ips);
    HandleIPSameCredentials(ips, out.ips, lib, req);
    HandleIPSameCredentials(ips, out.ips, lib, get);
  }

  /** The same POST twice: the second finds the IP already routed and changes nothing. */
  lemma PostTwiceAlreadyRouted(ips: map<Addr, IPState>, serverIPs: map<Addr, Server>, routes: map<Addr, Addr>,
                               broken: set<Addr>, lib: Lib, req: Request)
    requires var out := ApplyPost(ips, serverIPs, routes, broken, lib, req); out.resp.Ok? || out.resp.Plain?
    ensures var out := ApplyPost(ips, serverIPs, routes, broken, lib, req);
      ApplyPost(out.ips, serverIPs, out.routes, broken, lib, req) == Outcome(out.ips, out.routes, AlreadyRouted())
  {
    var out := ApplyPost(ips, serverIPs, routes, broken, lib, req);
    PostSwitch(ips, serverIPs, routes, broken, lib, req);
    assert SameCredentials(ips, out.ips);
    HandleIPSameCredentials(ips, out.ips, lib, req);
  }

  // ---------------------------------------------------------------------
  // DELETE

  /**
   * An accepted DELETE gives 409 FAILOVER_LOCKED while the lock is held and
   * changes nothing; otherwise it clears this IP's target (and nothing else)
   * and answers with the owner's data and no active_server_ip, or with 500
   * when the routing backend fails.
   */
  lemma DeleteClears(ips: map<Addr, IPState>, routes: map<Addr, Addr>, broken: set<Addr>, lib: Lib, req: Request)
    requires Authorized(ips, lib, req)
    ensures var out := ApplyDelete(ips, routes, broken, lib, req);
      var ip := lib.parseAddr(req.pathIp).value;
      && (ips[ip].locked ==> out == Outcome(ips, routes, Locked()))
      && (!ips[ip].locked ==>
            && out.ips == ips[ip := ips[ip].(targetServer := None)]
            && (ip in broken ==> out.resp == Plain(500, "Could not remove route") && out.routes == routes)
            && (ip !in broken ==> out.routes == routes - {ip} && out.resp.Ok?
                                  && out.resp.failover.activeServerIp.None?
                                  && out.resp.failover.serverNumber == ips[ip].server.id))
  {
  }

  /** A rejected DELETE changes nothing. */
  lemma DeleteRejected(ips: map<Addr, IPState>, routes: map<Addr, Addr>, broken: set<Addr>, lib: Lib, req: Request)
    requires !Authorized(ips, lib, req)
    ensures ApplyDelete(ips, routes, broken, lib, req) == Outcome(ips, routes, CommonHandleIP(ips, lib, req).error)
  {
  }

  /** DELETE is idempotent: a second identical DELETE gives the same table, routes and response. */
  lemma DeleteIdempotent(ips: map<Addr, IPState>, routes: map<Addr, Addr>, broken: set<Addr>, lib: Lib, req: Request)
    ensures var out := ApplyDelete(ips, routes, broken, lib, req);
      ApplyDelete(out.ips, out.routes, broken, lib, req) == out
  {
    var out := ApplyDelete(ips, routes, broken, lib, req);
    if Authorized(ips, lib, req) {
      var ip := lib.parseAddr(req.pathIp).value;
      if !ips[ip].locked {
        assert SameCredentials(ips, out.ips);
        HandleIPSameCredentials(ips, out.ips, lib, req);
        assert out.ips[ip := out.ips[ip].(targetServer := None)] == out.ips;
      }
    }
  }

  /** A GET after a successful DELETE reports no active server. */
  lemma DeleteThenGet(ips: map<Addr, IPState>, routes: map<Addr, Addr>, broken: set<Addr>, lib: Lib, req: Request, get: Request)
    requires ApplyDelete(ips, routes, broken, lib, req).resp.Ok?
    requires get.pathIp == req.pathIp && get.authorization == req.authorization
    ensures var out := ApplyDelete(ips, routes, broken, lib, req);
      GetResponse(out.ips, lib, get) == out.resp && out.resp.failover.activeServerIp.None?
  {
    var out := ApplyDelete(ips, routes, broken, lib, req);
    assert SameCredentials(ips, out.ips);
    HandleIPSameCredentials(ips, out.ips, lib, req);
    HandleIPSameCredentials(ips, out.ips, lib, get);
  }
}
