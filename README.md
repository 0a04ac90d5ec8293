# Hetzner failover for keepalived: a Dafny model

The repository has two parts.

- **robot_failover.py** is a keepalived notify script. On a VRRP state change it removes the floating addresses of router 2 from the local interface (BACKUP, FAULT) or adds them (MASTER). On MASTER it also asks the Hetzner Robot failover API to route them to this router: a POST naming this router's address, or a DELETE when this router is router 2 itself.
- **failover-daemon** is a Go mock of that API. It keeps a table from failover IP to its owning server, that server's token, the server the IP is currently routed to, and a per-IP lock. It serves GET, POST and DELETE on `/{ip}` with HTTP Basic authentication (section 2 of RFC 7617, user-id = server number, password = token). It switches the kernel route through an iproute2 backend.

The model's modules follow the program:

| module | file | models |
|---|---|---|
| `Wrappers` | wrappers.dfy | `Option`, `Result` |
| `Text` | text.dfy | splitting a command line into words, `strconv.Itoa` and its inverse |
| `NetAddr` | netaddr.dfy | an address: family and canonical text |
| `IPRoute` | iproute.dfy | iproute.go: the `ip route` command lines, the argument vector, reading the gateway |
| `FailoverTypes` | failover_types.dfy | main.go's configuration shapes, `Server`, `IPState` |
| `FailoverInit` | failover_init.dfy | the tables `Init` builds, as functions of Go's map visiting order |
| `FailoverApi` | failover_api.dfy | ips.go's checks, responses and handler effects as functions |
| `FailoverDaemon` | failover_daemon.dfy | ips.go's `Daemon` as a class whose maps the methods update, and the routing backend as a class |
| `RobotFailover` | robot_failover.dfy | the notify script: command strings, dispatch on the endstate, header, job planning |

The handler methods of `FailoverDaemon.Daemon` are proved against the functions of `FailoverApi`. The lemmas of `FailoverApi` state what those functions promise. `RobotFailover.Notify` keeps the script's two loops and is proved equal to the function `Planned`, and the lemmas about `Planned` state what the script does. Effects are returned as values: shell commands as strings, HTTP requests as `Action`s, started processes as `Job`s. Go's random map order is ghost `order` or `:|` choice, and every lemma holds for any order.

What the code does and does not do:

- The daemon has no retry on 409, no polling of `processing`, no recheck pass, no parking interface and no owner override.
- The script takes its own addresses (`our_v4`, `our_v6`) from the `floating_ips` entries of this router.
- routing.go declares `GetRoute` as returning an address. Its callers (iproute.go, ips.go) use an address that may be nil, so the model uses an `Option`.

## Model

| member | source | states |
|---|---|---|
| `Text.IntToStringInjective` | failover-daemon/cmd/failover-daemon/ips.go:228 | different server numbers have different decimal texts, so the credential prefix names one server |
| `Text.ParseIntOfIntToString` | failover-daemon/cmd/failover-daemon/ips.go:228 | the decimal text of a server number reads back as that number |
| `IPRoute.Fmt` | failover-daemon/cmd/failover-daemon/iproute.go:27-33 | the command line of a route command; its words are stated by `IPRoute.FmtWords` |
| `IPRoute.ReplaceRouteCmd` | failover-daemon/cmd/failover-daemon/iproute.go:35-41 | the replace command line; its words are stated by `IPRoute.ReplaceRouteWords` |
| `IPRoute.RemoveRouteCmd` | failover-daemon/cmd/failover-daemon/iproute.go:43-49 | the delete command line; its words are stated by `IPRoute.RemoveRouteWords` |
| `IPRoute.GetRouteCmd` | failover-daemon/cmd/failover-daemon/iproute.go:51-55 | the get command line; its words are stated by `IPRoute.GetRouteWords` |
| `IPRoute.GetRouteAsWritten` | failover-daemon/cmd/failover-daemon/iproute.go:57-67 | GetRoute as written; `IPRoute.GetRouteAsWrittenAlwaysFails` states that it always errs |
| `IPRoute.GetRoute` | failover-daemon/cmd/failover-daemon/iproute.go:57-67 | GetRoute as evidently intended; `IPRoute.GetRouteFindsGateway` and `IPRoute.GetRouteNoGateway` state what it returns |
| `IPRoute.FmtWords` | failover-daemon/cmd/failover-daemon/iproute.go:27-33 | a command line is `ip` then `-6` exactly for a non-IPv4 address, then the command's own words |
| `IPRoute.ReplaceRouteWords` | failover-daemon/cmd/failover-daemon/iproute.go:35-41 | ReplaceRoute runs `ip [-6] route replace <failover> via <target>`; the family flag follows the failover address only |
| `IPRoute.RemoveRouteWords` | failover-daemon/cmd/failover-daemon/iproute.go:43-49 | RemoveRoute runs `ip [-6] route delete <failover>` |
| `IPRoute.GetRouteWords` | failover-daemon/cmd/failover-daemon/iproute.go:51-55 | GetRoute runs `ip [-6] route get <failover>` |
| `IPRoute.ArgvAsWrittenNamesNoProgram` | failover-daemon/cmd/failover-daemon/iproute.go:18-25 | for all three route commands the program name is not `ip` and holds a space |
| `IPRoute.ArgvRunsIp` | failover-daemon/cmd/failover-daemon/iproute.go:57 | split into words, every route command runs the program `ip` |
| `IPRoute.RunLength` | failover-daemon/cmd/failover-daemon/iproute.go:16 | the greedy `+` run: every character in it is in the class and the next one is not |
| `IPRoute.Search` | failover-daemon/cmd/failover-daemon/iproute.go:62 | the leftmost match of `via <class>`: it matches there and at no earlier position, or matches nowhere |
| `IPRoute.FindMatchKeepsVia` | failover-daemon/cmd/failover-daemon/iproute.go:62-63 | for an output routed via a gateway, the string handed to the parser is `via <gateway>` |
| `IPRoute.GetRouteAsWrittenAlwaysFails` | failover-daemon/cmd/failover-daemon/iproute.go:57-67 | as written, GetRoute returns an error for every output, given only that the parser rejects the empty text and every text starting with `via ` |
| `IPRoute.ViaClassAsWrittenCutsIPv6` | failover-daemon/cmd/failover-daemon/iproute.go:16 | as written, an IPv6 gateway is cut at its first `:` |
| `IPRoute.ViaClassKeepsIPv6` | failover-daemon/cmd/failover-daemon/iproute.go:16 | with `:` in the class, the capture group is the whole IPv6 gateway |
| `IPRoute.GetRouteFindsGateway` | failover-daemon/cmd/failover-daemon/iproute.go:57-67 | the corrected GetRoute returns the parsed gateway of `via <gateway>`, or the parse error |
| `IPRoute.GetRouteNoGateway` | failover-daemon/cmd/failover-daemon/iproute.go:57-67 | the corrected GetRoute reports no gateway (nil) exactly when no `via ` followed by a gateway character appears anywhere in the output |
| `FailoverInit.MainTable` | failover-daemon/cmd/failover-daemon/ips.go:159-164 | `d.serverIPs` after the first loop, for a visiting order; stated by `FailoverInit.MainTableEntry` and `FailoverInit.MainTableOwner` |
| `FailoverInit.FailoverTable` | failover-daemon/cmd/failover-daemon/ips.go:166-176 | `d.ips` after the first loop, for a visiting order; stated by `FailoverInit.FailoverTableKeys`, `FailoverInit.FailoverTableEntry` and `FailoverInit.FailoverTableOwner` |
| `FailoverInit.Imported` | failover-daemon/cmd/failover-daemon/ips.go:179-193 | `d.ips` after the second loop; stated by `FailoverInit.ImportedTargets` |
| `FailoverInit.FailoverTableKeys` | failover-daemon/cmd/failover-daemon/ips.go:166-176 | after the first loop, the IP table's keys are exactly the failover addresses of the configured servers |
| `FailoverInit.FailoverTableEntry` | failover-daemon/cmd/failover-daemon/ips.go:166-176 | every entry is a fresh state (owner, its token, no target, unlocked) of some server listing that address |
| `FailoverInit.FailoverTableOwner` | failover-daemon/cmd/failover-daemon/ips.go:155-177 | when no failover address is listed by two servers (main addresses may be shared), each maps to its own server's fresh state, whatever the visiting order |
| `FailoverInit.MainTableEntry` | failover-daemon/cmd/failover-daemon/ips.go:159-164 | every entry of the main-address table is a server holding that main address |
| `FailoverInit.MainTableOwner` | failover-daemon/cmd/failover-daemon/ips.go:159-164 | when no main address is held by two servers (failover addresses may be shared), both main addresses map back to their server, whatever the order |
| `FailoverInit.MainTableSnoc` | failover-daemon/cmd/failover-daemon/ips.go:163-164 | visiting one more server adds exactly its two main addresses |
| `FailoverInit.FailoverTableSnoc` | failover-daemon/cmd/failover-daemon/ips.go:166-176 | visiting one more server adds exactly its two failover addresses, and overwrites them if already present |
| `FailoverInit.ImportedTargets` | failover-daemon/cmd/failover-daemon/ips.go:179-193 | route import changes only targets; a target is set exactly when the current route runs via some server's main address |
| `FailoverApi.MakeCommonRes` | failover-daemon/cmd/failover-daemon/ips.go:111-126 | the common response of an IP; its fields are stated by `FailoverApi.GetReport` and `FailoverApi.DeleteClears` |
| `FailoverApi.GetResponse` | failover-daemon/cmd/failover-daemon/ips.go:240-265 | the GET handler's answer; stated by `FailoverApi.GetReport` and `FailoverApi.GetRejected` |
| `FailoverApi.ApplyPost` | failover-daemon/cmd/failover-daemon/ips.go:266-328 | the POST handler's table, routes and answer; stated by the `FailoverApi.Post…` lemmas |
| `FailoverApi.ApplyDelete` | failover-daemon/cmd/failover-daemon/ips.go:329-355 | the DELETE handler's table, routes and answer; stated by the `FailoverApi.Delete…` lemmas |
| `FailoverApi.CommonHandleIP` | failover-daemon/cmd/failover-daemon/ips.go:195-235 | a request is accepted exactly when all checks pass; every rejection is a 400, 401 or 404, or the panic |
| `FailoverApi.ValidationOrder` | failover-daemon/cmd/failover-daemon/ips.go:195-235 | the first failing check decides: bad IP 400, unknown IP 404, empty 401, short header panic, not Basic 401, undecodable 401, wrong credential 401 |
| `FailoverApi.CredentialInjective` | failover-daemon/cmd/failover-daemon/ips.go:228-232 | two credentials `<id>:<token>` are equal only for the same id and the same token |
| `FailoverApi.OnlyOwnerCredentialAccepted` | failover-daemon/cmd/failover-daemon/ips.go:222-234 | an accepted credential names the owning server and its token, so no other server (the target included) is accepted |
| `FailoverApi.OwnerCredentialAccepted` | failover-daemon/cmd/failover-daemon/ips.go:211-234 | the owner's Basic credential is accepted on each of its failover IPs |
| `FailoverApi.HandleIPSameCredentials` | failover-daemon/cmd/failover-daemon/ips.go:195-235 | the checks depend only on the keys, owners and tokens of the table |
| `FailoverApi.GetReport` | failover-daemon/cmd/failover-daemon/ips.go:240-262 | GET reports the owner's data (not the target's) with the family netmask; active_server_ip is absent exactly without a target and is otherwise the target's main address of the IP's family; status is `processing` exactly under the lock, else `ready` |
| `FailoverApi.GetRejected` | failover-daemon/cmd/failover-daemon/ips.go:240-242 | a rejected GET answers with the check's error |
| `FailoverApi.PostBadFormFirst` | failover-daemon/cmd/failover-daemon/ips.go:267-271 | bad form data gives 400 before any IP or auth check, and changes nothing |
| `FailoverApi.PostRejectionsChangeNothing` | failover-daemon/cmd/failover-daemon/ips.go:266-302 | every error answer of POST (400, 401, 404, 409) and the panic leave table and routes unchanged |
| `FailoverApi.PostTargetChecks` | failover-daemon/cmd/failover-daemon/ips.go:274-290 | a missing, unparsable or unknown target gives its own 400 |
| `FailoverApi.PostConflicts` | failover-daemon/cmd/failover-daemon/ips.go:292-302 | the current target gives 409 FAILOVER_ALREADY_ROUTED, checked before the lock; otherwise a held lock gives 409 FAILOVER_LOCKED |
| `FailoverApi.PostSwitch` | failover-daemon/cmd/failover-daemon/ips.go:304-326 | a POST that passes changes only this IP's target, to the server owning the given main address. The answer names that server's main address of the IP's family, and the route is set via the given address. When the route command fails the answer is 500, the route is unchanged and the target stays updated |
| `FailoverApi.PostPassesSwitches` | failover-daemon/cmd/failover-daemon/ips.go:266-326 | a POST reaches the switch (200, or 500 when the route command fails) exactly when the form, commonHandleIP, target, already-routed and lock checks all pass; it is 500 exactly when the backend fails for the IP |
| `FailoverApi.PostThenGet` | failover-daemon/cmd/failover-daemon/ips.go:304-326 | a GET after a successful POST gives exactly the POST's answer |
| `FailoverApi.PostTwiceAlreadyRouted` | failover-daemon/cmd/failover-daemon/ips.go:292-296 | repeating a switching POST gives 409 FAILOVER_ALREADY_ROUTED and changes nothing |
| `FailoverApi.DeleteClears` | failover-daemon/cmd/failover-daemon/ips.go:332-353 | DELETE gives 409 FAILOVER_LOCKED under the lock and changes nothing. Otherwise it clears only this IP's target and answers with the owner's data and no active server, or with 500 when the route command fails |
| `FailoverApi.DeleteRejected` | failover-daemon/cmd/failover-daemon/ips.go:329-331 | a rejected DELETE changes nothing |
| `FailoverApi.DeleteIdempotent` | failover-daemon/cmd/failover-daemon/ips.go:338-340 | a second identical DELETE gives the same table, routes and answer |
| `FailoverApi.DeleteThenGet` | failover-daemon/cmd/failover-daemon/ips.go:340-352 | a GET after a successful DELETE gives exactly the DELETE's answer, with no active server |
| `FailoverDaemon.Router.ReplaceRoute` | failover-daemon/cmd/failover-daemon/iproute.go:35-41 | issues the replace command line; sets the route unless the backend fails for that address |
| `FailoverDaemon.Router.RemoveRoute` | failover-daemon/cmd/failover-daemon/iproute.go:43-49 | issues the delete command line; drops the route unless the backend fails for that address |
| `FailoverDaemon.Router.GetRoute` | failover-daemon/cmd/failover-daemon/iproute.go:51-67 | an error exactly when the backend fails for the address; otherwise the current gateway, or none |
| `FailoverDaemon.Daemon.constructor` | failover-daemon/cmd/failover-daemon/ips.go:142-145 | the three tables start empty |
| `FailoverDaemon.Daemon.AddServer` | failover-daemon/cmd/failover-daemon/ips.go:156-176 | one iteration of the first loop enters the server, its main addresses and its failover addresses |
| `FailoverDaemon.Daemon.LoadServers` | failover-daemon/cmd/failover-daemon/ips.go:155-177 | the first loop leaves the tables the functions of FailoverInit give for its visiting order, with no targets and no locks |
| `FailoverDaemon.Daemon.ImportRoutes` | failover-daemon/cmd/failover-daemon/ips.go:179-193 | the second loop fails exactly when some failover IP's route lookup fails; otherwise it sets the targets route import gives |
| `FailoverDaemon.Daemon.TryLock` | failover-daemon/cmd/failover-daemon/ips.go:298-302 | succeeds exactly when the IP's lock was free; the lock is held afterwards |
| `FailoverDaemon.Daemon.Unlock` | failover-daemon/cmd/failover-daemon/ips.go:304 | releases the IP's lock and changes nothing else |
| `FailoverDaemon.Daemon.HandleGet` | failover-daemon/cmd/failover-daemon/ips.go:240-265 | answers as GetResponse and leaves every table as it was; an answer with an active server means the requested IP has a target that is a configured server |
| `FailoverDaemon.Daemon.HandlePost` | failover-daemon/cmd/failover-daemon/ips.go:266-328 | new table, routes and answer are ApplyPost's. The replace command is issued exactly when the target was switched. Every owner and target stays a configured server |
| `FailoverDaemon.Daemon.HandleDelete` | failover-daemon/cmd/failover-daemon/ips.go:329-355 | new table, routes and answer are ApplyDelete's. The delete command is issued exactly when the target was cleared. Every owner and target stays a configured server |
| `FailoverDaemon.Init` | failover-daemon/cmd/failover-daemon/ips.go:141-193 | Init fails exactly when a route lookup for a failover IP fails. Otherwise the daemon's tables are those of FailoverInit after route import |
| `RobotFailover.AddrCmd` | robot_failover.py:15-26 | the shared shape of del_ip and add_ip; its words are stated by `RobotFailover.AddrCmdWords` |
| `RobotFailover.DelIp` | robot_failover.py:15-19 | del_ip; stated by `RobotFailover.DelIpWords` |
| `RobotFailover.AddIp` | robot_failover.py:22-26 | add_ip; stated by `RobotFailover.AddIpWords` |
| `RobotFailover.Format` | robot_failover.py:88 | `str.format` on automatically numbered fields, None for the IndexError; stated by `RobotFailover.FormatOneField` |
| `RobotFailover.OwnAddresses` | robot_failover.py:75-82 | the first loop of main; stated by `RobotFailover.OwnAddressesLast` |
| `RobotFailover.JobFor` | robot_failover.py:85-104 | one iteration of the second loop; stated by `RobotFailover.JobFields` |
| `RobotFailover.JobsFrom` | robot_failover.py:84-104 | the second loop of main; stated by `RobotFailover.JobsFromSelected` and `RobotFailover.JobsErrorStays` |
| `RobotFailover.Planned` | robot_failover.py:57-104 | what main does; stated by `RobotFailover.PlanJobs` and the lemmas after it |
| `RobotFailover.AddrCmdWords` | robot_failover.py:15-26 | an address command is `<bin> [-6] addr <verb> <ip>/<len> dev <if>`, with `-6` and /128 exactly when the literal contains `:`, else /32 |
| `RobotFailover.DelIpWords` | robot_failover.py:15-19 | del_ip runs `<bin> [-6] addr del <ip>/128 or /32 dev <if>` by family |
| `RobotFailover.AddIpWords` | robot_failover.py:22-26 | add_ip runs `<bin> [-6] addr add <ip>/128 or /32 dev <if>` by family |
| `RobotFailover.ChangeRequest` | robot_failover.py:29-54 | one or two actions: an address command or the error first, then at most HTTP requests |
| `RobotFailover.DemotionOnlyRemoves` | robot_failover.py:30-33 | BACKUP and FAULT only remove the address and send no request |
| `RobotFailover.MasterRequests` | robot_failover.py:35-52 | a request is sent exactly on MASTER with a header, after adding the address. It is a POST with the payload exactly when the payload is truthy, else a DELETE, to the job's URL with the job's header |
| `RobotFailover.OtherEndstateOnlyErrors` | robot_failover.py:53-54 | any other endstate only prints the error: no address change and no request |
| `RobotFailover.StopIsUnhandled` | robot_failover.py:53-54 | STOP falls into the error branch |
| `RobotFailover.FormatOneField` | robot_failover.py:88 | `str.format` substitutes its one argument for a lone `{}` field when the rest of the template holds no brace |
| `RobotFailover.PayloadText` | robot_failover.py:101 | the payload is `active_server_ip=` followed by the own address's text |
| `RobotFailover.PayloadWithoutOwnAddress` | robot_failover.py:90-101 | without an own address of the family, the payload reads `active_server_ip=None` |
| `RobotFailover.AuthHeader` | robot_failover.py:65-71 | no header exactly when use_private_ips is present and true. Otherwise `Basic <robot_password>`, or `Basic <robot_passwords["2"]>` when robot_password is absent, or a KeyError when both are absent |
| `RobotFailover.VirtualRouterKey` | robot_failover.py:63-70 | the robot_passwords key looked up is `"2"` |
| `RobotFailover.OwnAddressesLast` | robot_failover.py:75-82 | our_v4 and our_v6 are the last entries of this router of each family, in configuration order, and None when there are none |
| `RobotFailover.Selected` | robot_failover.py:84-85 | only entries of router 2 are selected |
| `RobotFailover.SelectedExactly` | robot_failover.py:84-85 | an entry is selected exactly when it is listed and belongs to router 2 |
| `RobotFailover.SelectedAppend` | robot_failover.py:84-85 | selection keeps configuration order and multiplicity: selecting from `a + b` gives the selection of `a` followed by that of `b` |
| `RobotFailover.JobsFromSelected` | robot_failover.py:84-104 | one job per router-2 entry, in order, unless formatting the URL fails for one of them |
| `RobotFailover.JobsErrorStays` | robot_failover.py:84-104 | an exception in the loop ends main: the jobs started before it are all that happen |
| `RobotFailover.JobFields` | robot_failover.py:85-104 | a job's URL is the template formatted with the entry's own literal. Its local command uses that literal. It carries a payload exactly when this router is not router 2 |
| `RobotFailover.PlanJobs` | robot_failover.py:57-104 | main's plan: a KeyError before any job, or one job per router-2 entry with URL, header and payload as above |
| `RobotFailover.PlanIgnoresSuffix` | robot_failover.py:88-93 | the value of ipv6_suffix has no effect on the plan: URLs, commands, headers and payloads are the same for any value |
| `RobotFailover.SelectionIgnoresOwnId` | robot_failover.py:63-85 | which IPs get a job does not depend on this router's id: router 2 is fixed |
| `RobotFailover.DemotionPlanSendsNothing` | robot_failover.py:29-104 | on BACKUP or FAULT no started job sends a request |
| `RobotFailover.PrivateIpsSendNothing` | robot_failover.py:65-71 | with use_private_ips true no job sends a request, whatever the endstate |
| `RobotFailover.Notify` | robot_failover.py:57-104 | main's loops produce exactly the plan `Planned` states |

## Left out

- Every effect of the programs. This covers process creation, `os.system`, HTTP requests and responses, JSON encoding and decoding, `exec.Command`, file reading, `http.ListenAndServe` and all printing and logging. Their inputs are returned as values, or their outcomes are inputs.
- Concurrency. Goroutines serving requests in parallel, the `sync.Mutex` per IP and the mutex in `IPRoute2` are not modelled. A request runs atomically, and the per-IP lock is a boolean that a concurrent request holding it would have set, taken and released with `TryLock` and `Unlock`.
- routing-slow.go: it only delays the route commands and adds locking, both timing and concurrency.
- main.go's `main`: file reading, JSON and the listener are I/O. Only the `Config`, `ServerConfig` and `IPSet` shapes are kept.
- `netip.ParseAddr`, `Addr.String` and base64 decoding are library functions. They are parameters (`FailoverApi.Lib`), and an address is its family plus its canonical text.
- The routing backend in `FailoverDaemon` is the Routing interface: a route table plus the set of addresses for which route commands fail. Its link to the iproute2 backend is the command lines it records. With the iproute2 backend as written, that set is every address (see Findings), so `Init` fails for any configuration with a server.
- `RobotFailover.Format` models only automatically numbered `{}` fields. Numbered and named fields, `{{`, `}}` and format specifications are not modelled.
- JSON truthiness of `use_private_ips` is reduced to a boolean. A `robot_password` that is present but not a string (a TypeError in the script) is not modelled. A missing `robot_passwords` key is treated like a missing entry: an exception before any job either way.
- The script's `arg_type` and `arg_name` are unused by the script and are accepted and ignored.
- The configuration keys other than `use_private_ips`, `robot_password` and `robot_passwords` are assumed present with the right types (`NotifyConfig`). The script reads `ipv6_suffix`, `url_floating` and the others only inside the loops, so a missing key there is an AttributeError after earlier jobs have started; that is not modelled.
- Go strings stand for byte strings, one character per byte. The `len(authBasic)` slice of the Authorization header (failover-daemon/cmd/failover-daemon/ips.go:217) counts bytes in Go, and `req.authorization` counts characters in the model, so the two agree only on headers whose characters are single bytes (ASCII). UTF-8 text is not modelled.
- DeleteIdempotent: the same answer for a second DELETE rests on route-command failure being the fixed set `broken`, independent of the route table. A real iproute2 backend makes `ip route delete` fail for an absent route, so there the second DELETE would answer 500.
- Go's zero `netip.Addr`, which a configuration without a `v4` or `v6` entry yields (failover-daemon/cmd/failover-daemon/ips.go:159-160), has no counterpart: `NetAddr.Addr` always has a family and a text, so every configured server is taken to have both main and both failover addresses.

## Findings

| source | as written | input that shows it | evidently intended | confidence | as-written member | corrected member |
|---|---|---|---|---|---|---|
| failover-daemon/cmd/failover-daemon/iproute.go:62-63 | `findVia.Find(out)` gives the whole match, `via <gateway>`, and that text is parsed as an address | output `1.2.3.4 via 10.0.0.1 dev eth0` makes GetRoute parse `via 10.0.0.1`, which fails; output without `via` parses the empty string, which fails too | parse the first capture group, and report no gateway when nothing matches | high, not executed | `IPRoute.GetRouteAsWrittenAlwaysFails` | `IPRoute.GetRouteFindsGateway` |
| failover-daemon/cmd/failover-daemon/iproute.go:16 | the class `[0-9a-f\[.;]` holds `;` and not `:` | output `... via fe80::1 dev eth0` matches only `via fe80` | `:` in the class, so that IPv6 gateways are read whole | medium, not executed | `IPRoute.ViaClassAsWrittenCutsIPv6` | `IPRoute.ViaClassKeepsIPv6` |
| failover-daemon/cmd/failover-daemon/iproute.go:18-25 | `exec.Command(cmdstr)` takes the whole command line as the program name | `ip route replace 1.2.3.4 via 5.6.7.8` is looked up as one program name, found nowhere, so the command fails | run `ip` with the remaining words as arguments | high, not executed | `IPRoute.ArgvAsWrittenNamesNoProgram` | `IPRoute.ArgvRunsIp` |
