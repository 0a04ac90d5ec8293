/**
 * The keepalived notify script robot_failover.py. keepalived calls it on a
 * VRRP state change; it adds or removes the floating addresses on the local
 * interface and, on becoming MASTER, asks the Robot failover API to route
 * them to this router. Starting processes, running shell commands and
 * sending HTTP requests are not performed here: the script's plan (one job
 * per floating IP) and each job's actions are returned as values.
 */
module RobotFailover {
  import opened Wrappers
  import opened Text

  /** The VRRP router whose floating IPs are switched; fixed in the script. */
  const VirtualRouterId: int := 2

  /** An entry of `floating_ips`: the address literal and the router it belongs to. */
  datatype FloatingIp = FloatingIp(ip: string, router: int)

  /**
   * The configuration file as the script reads it. `usePrivateIps` is None
   * when the key is absent and otherwise its truth value; `robotPassword`
   * is None when the key is absent.
   */
  datatype NotifyConfig = NotifyConfig(
    usePrivateIps: Option<bool>,
    robotPassword: Option<string>,
    robotPasswords: map<string, string>,
    thisRouterId: int,
    floatingIps: seq<FloatingIp>,
    urlFloating: string,
    ipv6Suffix: string,
    iproute2Bin: string,
    iface: string)

  /** The HTTP header dictionary the script builds. */
  datatype Header = Header(contentType: string, authorization: string)

  /** The arguments one change_request process is started with. */
  datatype Job = Job(
    endstate: string,
    url: string,
    header: Option<Header>,
    payload: Option<string>,
    ipBinPath: string,
    floatingIp: string,
    iface: string)

  /** What a change_request does: a shell command, an HTTP request, or the error message it prints. */
  datatype Action =
    | RunCmd(cmd: string)
    | Post(url: string, header: Header, payload: string)
    | Delete(url: string, header: Header)
    | Error(msg: string)

  /** The jobs started, in order, and the exception that ended the script early, if any. */
  datatype Plan = Plan(jobs: seq<Job>, error: Option<string>)

  /** The address family is read off the literal. */
  predicate IsV6(ip: string) {
    ':' in ip
  }

  // ---------------------------------------------------------------------
  // Local address commands

  /** The `ip addr` command line both del_ip and add_ip build, for the verb `del` or `add`. */
  function AddrCmd(ipBinPath: string, verb: string, ip: string, iface: string): string {
    if IsV6(ip) then ipBinPath + " -6 addr " + verb + " " + ip + "/128 dev " + iface
    else ipBinPath + " addr " + verb + " " + ip + "/32 dev " + iface
  }

  function DelIp(ipBinPath: string, ip: string, iface: string): string {
    AddrCmd(ipBinPath, "del", ip, iface)
  }

  function AddIp(ipBinPath: string, ip: string, iface: string): string {
    AddrCmd(ipBinPath, "add", ip, iface)
  }

  /** The words between the binary and the verb: the family flag. */
  function FamilyFlag(ip: string): seq<string> {
    if IsV6(ip) then ["-6"] else []
  }

  /** The host prefix length of the family. */
  function HostPrefix(ip: string): string {
    if IsV6(ip) then "/128" else "/32"
  }

  /** The words after the binary and the family flag. */
  lemma AddrTailJoin(verb: string, host: string, iface: string)
    ensures Join(["addr", verb, host, "dev", iface]) == "addr " + verb + " " + host + " dev " + iface
  {
    var tail := ["addr", verb, host, "dev", iface];
    JoinCons("dev", [iface]);
    assert tail[3..] == ["dev", iface];
    JoinCons(host, tail[3..]);
    assert tail[2..] == [host] + tail[3..];
    JoinCons(verb, tail[2..]);
    assert tail[1..] == [verb] + tail[2..];
    JoinCons("addr", tail[1..]);
    assert tail == ["addr"] + tail[1..];
  }

  lemma AddrCmdText6(bin: string, verb: string, ip: string, iface: string)
    ensures bin + " -6 addr " + verb + " " + ip + "/128 dev " + iface
         == bin + " " + ("-6" + " " + ("addr " + verb + " " + (ip + "/128") + " dev " + iface))
  {
  }

  lemma AddrCmdText4(bin: string, verb: string, ip: string, iface: string)
    ensures bin + " addr " + verb + " " + ip + "/32 dev " + iface == bin + " " + ("addr " + verb + " " + (ip + "/32") + " dev " + iface)
  {
  }

  /** The command line is the words of the command separated by single spaces. */
  lemma AddrCmdJoin(bin: string, verb: string, ip: string, iface: string)
    ensures AddrCmd(bin, verb, ip, iface) == Join([bin] + FamilyFlag(ip) + ["addr", verb, ip + HostPrefix(ip), "dev", iface])
  {
    var host := ip + HostPrefix(ip);
    var tail := ["addr", verb, host, "dev", iface];
    AddrTailJoin(verb, host, iface);
    if IsV6(ip) {
      AddrCmdText6(bin, verb, ip, iface);
      JoinCons("-6", tail);
      JoinCons(bin, ["-6"] + tail);
      assert [bin] + FamilyFlag(ip) + tail == [bin] + (["-6"] + tail);
    } else {
      AddrCmdText4(bin, verb, ip, iface);
      JoinCons(bin, tail);
      assert [bin] + FamilyFlag(ip) + tail == [bin] + tail;
    }
  }

  lemma AddrWordsAreWords(bin: string, verb: string, ip: string, iface: string)
    requires IsWord(bin) && IsWord(verb) && IsWord(ip) && IsWord(iface)
    ensures var ws := [bin] + FamilyFlag(ip) + ["addr", verb, ip + HostPrefix(ip), "dev", iface];
      forall k :: 0 <= k < |ws| ==> IsWord(ws[k])
  {
    assert IsWord(ip + HostPrefix(ip)) by {
      assert ' ' !in HostPrefix(ip);
    }
    assert IsWord("addr") && IsWord("dev") && IsWord("-6");
  }

  /**
   * As the shell splits it, the command runs `<bin> [-6] addr <verb>
   * <ip>/<prefix> dev <interface>`: the flag and the /128 prefix exactly
   * for an address containing ':', else no flag and /32.
   */
  lemma AddrCmdWords(bin: string, verb: string, ip: string, iface: string)
    requires IsWord(bin) && IsWord(verb) && IsWord(ip) && IsWord(iface)
    ensures Words(AddrCmd(bin, verb, ip, iface)) == [bin] + FamilyFlag(ip) + ["addr", verb, ip + HostPrefix(ip), "dev", iface]
  {
    AddrCmdJoin(bin, verb, ip, iface);
    AddrWordsAreWords(bin, verb, ip, iface);
    WordsOfJoin([bin] + FamilyFlag(ip) + ["addr", verb, ip + HostPrefix(ip), "dev", iface]);
  }

  /** del_ip in words. */
  lemma DelIpWords(ipBinPath: string, ip: string, iface: string)
    requires IsWord(ipBinPath) && IsWord(ip) && IsWord(iface)
    ensures Words(DelIp(ipBinPath, ip, iface))
         == [ipBinPath] + FamilyFlag(ip) + ["addr", "del", ip + HostPrefix(ip), "dev", iface]
  {
    AddrCmdWords(ipBinPath, "del", ip, iface);
  }

  /** add_ip in words. */
  lemma AddIpWords(ipBinPath: string, ip: string, iface: string)
    requires IsWord(ipBinPath) && IsWord(ip) && IsWord(iface)
    ensures Words(AddIp(ipBinPath, ip, iface))
         == [ipBinPath] + FamilyFlag(ip) + ["addr", "add", ip + HostPrefix(ip), "dev", iface]
  {
    AddrCmdWords(ipBinPath, "add", ip, iface);
  }

  // ---------------------------------------------------------------------
  // change_request

  predicate IsHttp(a: Action) {
    a.Post? || a.Delete?
  }

  /** Python truthiness of the payload: a non-empty string. */
  predicate Truthy(payload: Option<string>) {
    payload.Some? && payload.value != ""
  }

  const EndstateError: string := "Error: Endstate not defined!"

  /** change_request: what the job does for the endstate keepalived reports. */
  function ChangeRequest(job: Job): (actions: seq<Action>)
    ensures 1 <= |actions| <= 2
    ensures actions[0].RunCmd? || actions[0].Error?
    ensures forall k :: 1 <= k < |actions| ==> IsHttp(actions[k])
  {
    if job.endstate == "BACKUP" then
      [RunCmd(DelIp(job.ipBinPath, job.floatingIp, job.iface))]
    else if job.endstate == "FAULT" then
      [RunCmd(DelIp(job.ipBinPath, job.floatingIp, job.iface))]
    else if job.endstate == "MASTER" then
      [RunCmd(AddIp(job.ipBinPath, job.floatingIp, job.iface))]
      + (if job.header.None? then []
         else if Truthy(job.payload) then [Post(job.url, job.header.value, job.payload.value)]
         else [Delete(job.url, job.header.value)])
    else
      [Error(EndstateError)]
  }

  predicate SendsHttp(actions: seq<Action>) {
    exists k :: 0 <= k < |actions| && IsHttp(actions[k])
  }

  /** BACKUP and FAULT only remove the floating address; they never talk to the API. */
  lemma DemotionOnlyRemoves(job: Job)
    requires job.endstate == "BACKUP" || job.endstate == "FAULT"
    ensures ChangeRequest(job) == [RunCmd(DelIp(job.ipBinPath, job.floatingIp, job.iface))]
    ensures !SendsHttp(ChangeRequest(job))
  {
  }

  /**
   * An HTTP request is sent exactly on MASTER with a header; it is a POST
   * with the payload exactly when the payload is truthy, otherwise a
   * DELETE, and in both cases it goes to the job's URL with the job's
   * header, after the address has been added.
   */
  lemma MasterRequests(job: Job)
    ensures SendsHttp(ChangeRequest(job)) <==> job.endstate == "MASTER" && job.header.Some?
    ensures job.endstate == "MASTER" ==> ChangeRequest(job)[0] == RunCmd(AddIp(job.ipBinPath, job.floatingIp, job.iface))
    ensures job.endstate == "MASTER" && job.header.Some? ==>
      && |ChangeRequest(job)| == 2
      && (ChangeRequest(job)[1].Post? <==> Truthy(job.payload))
      && ChangeRequest(job)[1].url == job.url
      && ChangeRequest(job)[1].header == job.header.value
      && (ChangeRequest(job)[1].Post? ==> ChangeRequest(job)[1].payload == job.payload.value)
  {
    var acts := ChangeRequest(job);
    if job.endstate == "MASTER" && job.header.Some? {
      assert IsHttp(acts[1]);
    }
  }

  /** Any other endstate, STOP included, only prints the error: no address change and no request. */
  lemma OtherEndstateOnlyErrors(job: Job)
    requires job.endstate !in {"BACKUP", "FAULT", "MASTER"}
    ensures ChangeRequest(job) == [Error(EndstateError)]
    ensures forall k :: 0 <= k < |ChangeRequest(job)| ==> !ChangeRequest(job)[k].RunCmd? && !IsHttp(ChangeRequest(job)[k])
  {
  }

  lemma StopIsUnhandled(job: Job)
    requires job.endstate == "STOP"
    ensures ChangeRequest(job) == [Error(EndstateError)]
  {
    OtherEndstateOnlyErrors(job);
  }

  // ---------------------------------------------------------------------
  // str.format and the payload

  /**
   * str.format with positional arguments for automatically numbered `{}`
   * fields: each field takes the next argument; running out of arguments
   * raises IndexError (None).
   */
  function Format(template: string, args: seq<string>): Option<string>
    decreases |template|
  {
    if |template| < 2 then Some(template)
    else if template[..2] == "{}" then
      if args == [] then None
      else
        match Format(template[2..], args[1..])
        case None => None
        case Some(rest) => Some(args[0] + rest)
    else
      match Format(template[1..], args)
      case None => None
      case Some(rest) => Some([template[0]] + rest)
  }

  lemma {:induction false} FormatNoField(template: string, args: seq<string>)
    requires '{' !in template
    ensures Format(template, args) == Some(template)
    decreases |template|
  {
    if |template| >= 2 {
      assert template[0] != '{';
      assert '{' !in template[1..];
      FormatNoField(template[1..], args);
      assert [template[0]] + template[1..] == template;
    }
  }

  /** A template with a single `{}` field substitutes the one argument there. */
  lemma {:induction false} FormatOneField(pre: string, post: string, x: string)
    requires '{' !in pre && '{' !in post && '}' !in pre && '}' !in post
    ensures Format(pre + "{}" + post, [x]) == Some(pre + x + post)
    decreases |pre|
  {
    var t := pre + "{}" + post;
    if pre == [] {
      assert |t| >= 2 && t[..2] == "{}" && t[2..] == post;
      FormatNoField(post, []);
      assert [x][1..] == [];
      assert Format(t, [x]) == Some(x + post);
      assert pre + x + post == x + post;
    } else {
      assert t[..2] != "{}" by {
        assert t[0] == pre[0] && pre[0] != '{';
      }
      assert t[1..] == pre[1..] + "{}" + post;
      assert '{' !in pre[1..] && '}' !in pre[1..];
      FormatOneField(pre[1..], post, x);
      assert [t[0]] + (pre[1..] + x + post) == pre + x + post;
    }
  }

  /** Python's str() of the optional own address: "None" when there is none. */
  function PyStr(s: Option<string>): string {
    match s
    case None => "None"
    case Some(v) => v
  }

  const PayloadTemplate: string := "active_server_ip={}"

  lemma PayloadTemplateShape()
    ensures '{' !in "active_server_ip=" && '}' !in "active_server_ip="
    ensures PayloadTemplate == "active_server_ip=" + "{}" + ""
    ensures forall x: string :: "active_server_ip=" + x + "" == "active_server_ip=" + x
  {
  }

  /** The form body the POST carries; on a missing own address it reads active_server_ip=None. */
  lemma PayloadText(our: Option<string>)
    ensures Format(PayloadTemplate, [PyStr(our)]) == Some("active_server_ip=" + PyStr(our))
  {
    PayloadTemplateShape();
    FormatOneField("active_server_ip=", "", PyStr(our));
  }

  // ---------------------------------------------------------------------
  // The header

  /** The Authorization credential is taken as stored; the script does not encode it. */
  function MakeHeader(password: string): Header {
    Header("application/json", "Basic " + password)
  }

  /**
   * The header, or the KeyError raised when neither `robot_password` nor
   * `robot_passwords["2"]` is there.
   */
  function AuthHeader(c: NotifyConfig): (r: Result<Option<Header>, string>)
    ensures r.Success? && r.value.None? <==> c.usePrivateIps == Some(true)
    ensures r.Success? && r.value.Some? && c.robotPassword.Some? ==> r.value.value == MakeHeader(c.robotPassword.value)
    ensures r.Success? && r.value.Some? && c.robotPassword.None? ==>
      IntToString(VirtualRouterId) in c.robotPasswords
      && r.value.value == MakeHeader(c.robotPasswords[IntToString(VirtualRouterId)])
    ensures r.Failure? <==>
      c.usePrivateIps != Some(true) && c.robotPassword.None? && IntToString(VirtualRouterId) !in c.robotPasswords
  {
    if c.usePrivateIps.Some? && c.usePrivateIps.value then Success(None)
    else if c.robotPassword.Some? then Success(Some(MakeHeader(c.robotPassword.value)))
    else
      var key := IntToString(VirtualRouterId);
      if key in c.robotPasswords then Success(Some(MakeHeader(c.robotPasswords[key])))
      else Failure("KeyError: '" + key + "'")
  }

  /** The key looked up in robot_passwords is the text "2". */
  lemma VirtualRouterKey()
    ensures IntToString(VirtualRouterId) == "2"
  {
    assert NatToString(2) == [DigitChar(2)];
  }

  // ---------------------------------------------------------------------
  // Own addresses

  /** The addresses of this router, as the first loop of main leaves them. */
  datatype Own = Own(v4: Option<string>, v6: Option<string>) {
    function Of(v6Family: bool): Option<string> {
      if v6Family then v6 else v4
    }
  }

  /** An entry of this router of the given family. */
  predicate Mine(f: FloatingIp, thisId: int, v6Family: bool) {
    f.router == thisId && IsV6(f.ip) == v6Family
  }

  function OwnAddresses(fips: seq<FloatingIp>, thisId: int): Own {
    if fips == [] then Own(None, None)
    else
      var o := OwnAddresses(fips[..|fips| - 1], thisId);
      var f := fips[|fips| - 1];
      if f.router != thisId then o
      else if IsV6(f.ip) then o.(v6 := Some(f.ip))
      else o.(v4 := Some(f.ip))
  }

  /** k is the last entry of this router of the family. */
  predicate LastMine(fips: seq<FloatingIp>, thisId: int, v6Family: bool, k: int) {
    && 0 <= k < |fips|
    && Mine(fips[k], thisId, v6Family)
    && forall j :: k < j < |fips| ==> !Mine(fips[j], thisId, v6Family)
  }

  /**
   * our_v4 and our_v6 are the last entries (in configuration order) of this
   * router of each family, and None when it has none.
   */
  lemma {:induction false} OwnAddressesLast(fips: seq<FloatingIp>, thisId: int, v6Family: bool)
    ensures OwnAddresses(fips, thisId).Of(v6Family).None? <==> forall k :: 0 <= k < |fips| ==> !Mine(fips[k], thisId, v6Family)
    ensures OwnAddresses(fips, thisId).Of(v6Family).Some? ==>
      exists k :: LastMine(fips, thisId, v6Family, k) && fips[k].ip == OwnAddresses(fips, thisId).Of(v6Family).value
  {
    if fips != [] {
      var init := fips[..|fips| - 1];
      var last := |fips| - 1;
      OwnAddressesLast(init, thisId, v6Family);
      assert forall k :: 0 <= k < |init| ==> init[k] == fips[k];
      if Mine(fips[last], thisId, v6Family) {
        assert LastMine(fips, thisId, v6Family, last);
      } else if OwnAddresses(init, thisId).Of(v6Family).Some? {
        var k :| LastMine(init, thisId, v6Family, k) && init[k].ip == OwnAddresses(init, thisId).Of(v6Family).value;
        assert LastMine(fips, thisId, v6Family, k);
      }
    }
  }

  // ---------------------------------------------------------------------
  // Jobs

  /** The POST body for the floating IP's family. */
  function PayloadFor(own: Own, ip: string, thisId: int): Option<string> {
    if VirtualRouterId != thisId then Some("active_server_ip=" + PyStr(own.Of(IsV6(ip)))) else None
  }

  /**
   * When this router has no address of the floating IP's family, the POST
   * still goes out, naming "None" as the target.
   */
  lemma PayloadWithoutOwnAddress(own: Own, ip: string, thisId: int)
    requires thisId != VirtualRouterId && own.Of(IsV6(ip)).None?
    ensures PayloadFor(own, ip, thisId) == Some("active_server_ip=None")
  {
    assert PyStr(own.Of(IsV6(ip))) == "None";
    NoneText();
  }

  lemma NoneText()
    ensures "active_server_ip=" + "None" == "active_server_ip=None"
  {
    var s := "active_server_ip=" + "None";
    assert |s| == |"active_server_ip=None"|;
    assert forall i :: 0 <= i < |s| ==> s[i] == "active_server_ip=None"[i];
  }

  const FormatError: string := "IndexError: Replacement index 1 out of range"

  /**
   * The job started for one entry of the second loop: none for another
   * router's entry, the format error when the URL template has two fields.
   * The suffixed address the loop computes is never used.
   */
  function JobFor(endstate: string, c: NotifyConfig, header: Option<Header>, own: Own, f: FloatingIp): Result<Option<Job>, string> {
    if f.router != VirtualRouterId then Success(None)
    else
      match Format(c.urlFloating, [f.ip])
      case None => Failure(FormatError)
      case Some(url) =>
        Success(Some(Job(endstate, url, header, PayloadFor(own, f.ip, c.thisRouterId), c.iproute2Bin, f.ip, c.iface)))
  }

  /** The jobs of the second loop over `fips`, stopping at the first error. */
  function JobsFrom(endstate: string, c: NotifyConfig, header: Option<Header>, own: Own, fips: seq<FloatingIp>): Plan {
    if fips == [] then Plan([], None)
    else
      var p := JobsFrom(endstate, c, header, own, fips[..|fips| - 1]);
      if p.error.Some? then p
      else
        match JobFor(endstate, c, header, own, fips[|fips| - 1])
        case Failure(e) => Plan(p.jobs, Some(e))
        case Success(None) => p
        case Success(Some(job)) => Plan(p.jobs + [job], None)
  }

  /** What main does with the configuration and the endstate. */
  function Planned(endstate: string, c: NotifyConfig): Plan {
    match AuthHeader(c)
    case Failure(e) => Plan([], Some(e))
    case Success(header) => JobsFrom(endstate, c, header, OwnAddresses(c.floatingIps, c.thisRouterId), c.floatingIps)
  }

  /** The entries of router 2, in order. */
  function Selected(fips: seq<FloatingIp>): (sel: seq<FloatingIp>)
    ensures forall k :: 0 <= k < |sel| ==> sel[k].router == VirtualRouterId
  {
    if fips == [] then []
    else
      var s := Selected(fips[..|fips| - 1]);
      if fips[|fips| - 1].router == VirtualRouterId then s + [fips[|fips| - 1]] else s
  }

  /** Every entry of router 2 is selected, and nothing else. */
  lemma {:induction false} SelectedExactly(fips: seq<FloatingIp>, f: FloatingIp)
    ensures f in Selected(fips) <==> f in fips && f.router == VirtualRouterId
    ensures |Selected(fips)| <= |fips|
  {
    if fips != [] {
      var init := fips[..|fips| - 1];
      assert fips == init + [fips[|fips| - 1]];
      SelectedExactly(init, f);
    }
  }

  /**
   * Selection keeps the order of the configuration: selecting from two
   * lists joined is joining what is selected from each, so an entry of
   * router 2 is selected once for each time it is listed, where it is listed.
   */
  lemma {:induction false} SelectedAppend(a: seq<FloatingIp>, b: seq<FloatingIp>)
    ensures Selected(a + b) == Selected(a) + Selected(b)
    decreases |b|
  {
    if b == [] {
      assert a + b == a;
    } else {
      var b' := b[..|b| - 1];
      assert (a + b)[..|a + b| - 1] == a + b';
      assert (a + b)[|a + b| - 1] == b[|b| - 1];
      SelectedAppend(a, b');
    }
  }

  /** The entries of router 2 whose URL the template cannot be formatted with. */
  predicate FormatFails(c: NotifyConfig, fips: seq<FloatingIp>) {
    exists k :: 0 <= k < |fips| && fips[k].router == VirtualRouterId && Format(c.urlFloating, [fips[k].ip]).None?
  }

  /**
   * The second loop starts one job per entry of router 2, in order, each
   * for that entry's own address literal, unless formatting the URL with
   * one of those addresses fails.
   */
  lemma {:induction false} JobsFromSelected(endstate: string, c: NotifyConfig, header: Option<Header>, own: Own, fips: seq<FloatingIp>)
    ensures var p := JobsFrom(endstate, c, header, own, fips);
      && (p.error.Some? <==> FormatFails(c, fips))
      && (p.error.None? ==>
            && |p.jobs| == |Selected(fips)|
            && forall k :: 0 <= k < |p.jobs| ==> JobFor(endstate, c, header, own, Selected(fips)[k]) == Success(Some(p.jobs[k])))
  {
    if fips != [] {
      var init := fips[..|fips| - 1];
      var f := fips[|fips| - 1];
      JobsFromSelected(endstate, c, header, own, init);
      assert forall k :: 0 <= k < |init| ==> init[k] == fips[k];
      var p := JobsFrom(endstate, c, header, own, init);
      if FormatFails(c, init) {
        var k :| 0 <= k < |init| && init[k].router == VirtualRouterId && Format(c.urlFloating, [init[k].ip]).None?;
        assert fips[k] == init[k];
      } else if f.router == VirtualRouterId && Format(c.urlFloating, [f.ip]).None? {
        assert FormatFails(c, fips);
      } else {
        assert !FormatFails(c, fips) by {
          forall k | 0 <= k < |fips| && fips[k].router == VirtualRouterId
            ensures Format(c.urlFloating, [fips[k].ip]).Some?
          {
            if k < |init| {
              assert fips[k] == init[k];
            }
          }
        }
      }
    }
  }

  /** Every job's URL, payload and commands, in terms of the configuration. */
  lemma JobFields(endstate: string, c: NotifyConfig, header: Option<Header>, own: Own, f: FloatingIp, job: Job)
    requires JobFor(endstate, c, header, own, f) == Success(Some(job))
    ensures f.router == VirtualRouterId
    ensures Some(job.url) == Format(c.urlFloating, [f.ip])
    ensures job.floatingIp == f.ip && job.endstate == endstate && job.header == header
    ensures job.ipBinPath == c.iproute2Bin && job.iface == c.iface
    ensures job.payload.Some? <==> c.thisRouterId != VirtualRouterId
    ensures job.payload.Some? ==> Some(job.payload.value) == Format(PayloadTemplate, [PyStr(own.Of(IsV6(f.ip)))])
  {
    PayloadText(own.Of(IsV6(f.ip)));
  }

  /**
   * The plan of main: a KeyError before any job when the credential is
   * missing; otherwise one job per router-2 entry, in order, whose URL is
   * formatted with the entry's address and whose payload names this
   * router's last address of the same family exactly when this router is
   * not router 2.
   */
  lemma PlanJobs(endstate: string, c: NotifyConfig)
    ensures AuthHeader(c).Failure? ==> Planned(endstate, c) == Plan([], Some(AuthHeader(c).error))
    ensures var p := Planned(endstate, c);
      AuthHeader(c).Success? && p.error.None? ==>
        && |p.jobs| == |Selected(c.floatingIps)|
        && forall k :: 0 <= k < |p.jobs| ==>
            var f := Selected(c.floatingIps)[k];
            && p.jobs[k].floatingIp == f.ip
            && Some(p.jobs[k].url) == Format(c.urlFloating, [f.ip])
            && p.jobs[k].header == AuthHeader(c).value
            && (p.jobs[k].payload.Some? <==> c.thisRouterId != VirtualRouterId)
            && (p.jobs[k].payload.Some? ==>
                  p.jobs[k].payload.value == "active_server_ip=" + PyStr(OwnAddresses(c.floatingIps, c.thisRouterId).Of(IsV6(f.ip))))
    ensures AuthHeader(c).Success? ==> (Planned(endstate, c).error.Some? <==> FormatFails(c, c.floatingIps))
  {
    if AuthHeader(c).Success? {
      var own := OwnAddresses(c.floatingIps, c.thisRouterId);
      JobsFromSelected(endstate, c, AuthHeader(c).value, own, c.floatingIps);
    }
  }

  /** The IPv6 suffix has no effect on what the script does. */
  lemma {:induction false} JobsIgnoreSuffix(endstate: string, c: NotifyConfig, header: Option<Header>, own: Own,
                                            fips: seq<FloatingIp>, suffix: string)
    ensures JobsFrom(endstate, c, header, own, fips) == JobsFrom(endstate, c.(ipv6Suffix := suffix), header, own, fips)
  {
    if fips != [] {
      JobsIgnoreSuffix(endstate, c, header, own, fips[..|fips| - 1], suffix);
    }
  }

  lemma PlanIgnoresSuffix(endstate: string, c: NotifyConfig, suffix: string)
    ensures Planned(endstate, c) == Planned(endstate, c.(ipv6Suffix := suffix))
  {
    if AuthHeader(c).Success? {
      JobsIgnoreSuffix(endstate, c, AuthHeader(c).value, OwnAddresses(c.floatingIps, c.thisRouterId), c.floatingIps, suffix);
    }
  }

  /** The addresses the jobs are for. */
  function JobIps(jobs: seq<Job>): seq<string> {
    if jobs == [] then [] else JobIps(jobs[..|jobs| - 1]) + [jobs[|jobs| - 1].floatingIp]
  }

  /**
   * Which IPs are switched does not depend on this router's id: router 2
   * is fixed in the script.
   */
  lemma {:induction false} SelectionIgnoresOwnId(endstate: string, c: NotifyConfig, header: Option<Header>, own: Own,
                                                 fips: seq<FloatingIp>, otherId: int)
    ensures var p := JobsFrom(endstate, c, header, own, fips);
      var q := JobsFrom(endstate, c.(thisRouterId := otherId), header, own, fips);
      p.error == q.error && JobIps(p.jobs) == JobIps(q.jobs)
  {
    if fips != [] {
      var init := fips[..|fips| - 1];
      SelectionIgnoresOwnId(endstate, c, header, own, init, otherId);
      var p := JobsFrom(endstate, c, header, own, init);
      var q := JobsFrom(endstate, c.(thisRouterId := otherId), header, own, init);
      var f := fips[|fips| - 1];
      if p.error.None? && f.router == VirtualRouterId && Format(c.urlFloating, [f.ip]).Some? {
        var jp := JobFor(endstate, c, header, own, f).value.value;
        var jq := JobFor(endstate, c.(thisRouterId := otherId), header, own, f).value.value;
        assert (p.jobs + [jp])[..|p.jobs|] == p.jobs;
        assert (q.jobs + [jq])[..|q.jobs|] == q.jobs;
      }
    }
  }

  /** On BACKUP or FAULT no job sends a request, whatever the configuration. */
  lemma DemotionPlanSendsNothing(endstate: string, c: NotifyConfig)
    requires endstate == "BACKUP" || endstate == "FAULT"
    ensures forall k :: 0 <= k < |Planned(endstate, c).jobs| ==> !SendsHttp(ChangeRequest(Planned(endstate, c).jobs[k]))
  {
    PlanEndstate(endstate, c);
    forall k | 0 <= k < |Planned(endstate, c).jobs|
      ensures !SendsHttp(ChangeRequest(Planned(endstate, c).jobs[k]))
    {
      DemotionOnlyRemoves(Planned(endstate, c).jobs[k]);
    }
  }

  /** With private IPs no job sends a request, whatever the endstate. */
  lemma PrivateIpsSendNothing(endstate: string, c: NotifyConfig)
    requires c.usePrivateIps == Some(true)
    ensures forall k :: 0 <= k < |Planned(endstate, c).jobs| ==> !SendsHttp(ChangeRequest(Planned(endstate, c).jobs[k]))
  {
    var p := Planned(endstate, c);
    JobsFromSelected(endstate, c, None, OwnAddresses(c.floatingIps, c.thisRouterId), c.floatingIps);
    forall k | 0 <= k < |p.jobs|
      ensures !SendsHttp(ChangeRequest(p.jobs[k]))
    {
      PlanJobHeader(endstate, c, k);
      MasterRequests(p.jobs[k]);
    }
  }

  /** Every job carries the endstate and the header of the run. */
  lemma PlanJobHeader(endstate: string, c: NotifyConfig, k: int)
    requires 0 <= k < |Planned(endstate, c).jobs|
    ensures AuthHeader(c).Success?
    ensures Planned(endstate, c).jobs[k].header == AuthHeader(c).value
    ensures Planned(endstate, c).jobs[k].endstate == endstate
  {
    PlanEndstate(endstate, c);
  }

  lemma PlanEndstate(endstate: string, c: NotifyConfig)
    ensures AuthHeader(c).Failure? ==> Planned(endstate, c).jobs == []
    ensures AuthHeader(c).Success? ==> forall k :: 0 <= k < |Planned(endstate, c).jobs| ==>
      Planned(endstate, c).jobs[k].endstate == endstate && Planned(endstate, c).jobs[k].header == AuthHeader(c).value
  {
    if AuthHeader(c).Success? {
      JobsCarry(endstate, c, AuthHeader(c).value, OwnAddresses(c.floatingIps, c.thisRouterId), c.floatingIps);
    }
  }

  lemma {:induction false} JobsCarry(endstate: string, c: NotifyConfig, header: Option<Header>, own: Own, fips: seq<FloatingIp>)
    ensures forall k :: 0 <= k < |JobsFrom(endstate, c, header, own, fips).jobs| ==>
      JobsFrom(endstate, c, header, own, fips).jobs[k].endstate == endstate
      && JobsFrom(endstate, c, header, own, fips).jobs[k].header == header
  {
    if fips != [] {
      var init := fips[..|fips| - 1];
      JobsCarry(endstate, c, header, own, init);
      var p := JobsFrom(endstate, c, header, own, init);
      var r := JobFor(endstate, c, header, own, fips[|fips| - 1]);
      if p.error.None? && r.Success? && r.value.Some? {
        var jobs := p.jobs + [r.value.value];
        assert r.value.value.endstate == endstate && r.value.value.header == header;
        assert JobsFrom(endstate, c, header, own, fips).jobs == jobs;
        forall k | 0 <= k < |jobs|
          ensures jobs[k].endstate == endstate && jobs[k].header == header
        {
          if k < |p.jobs| {
            assert jobs[k] == p.jobs[k];
          }
        }
      }
    }
  }

  // ---------------------------------------------------------------------
  // main

  /**
   * main(arg_type, arg_name, arg_endstate): the header, then the own
   * addresses, then one job per entry of router 2. arg_type and arg_name
   * are not used by the script.
   */
  method Notify(argType: string, argName: string, argEndstate: string, config: NotifyConfig) returns (plan: Plan)
    ensures plan == Planned(argEndstate, config)
  {
    var header: Option<Header> := None;
    if !(config.usePrivateIps.Some? && config.usePrivateIps.value) {
      if config.robotPassword.Some? {
        header := Some(MakeHeader(config.robotPassword.value));
      } else {
        var key := IntToString(VirtualRouterId);
        if key !in config.robotPasswords {
          return Plan([], Some("KeyError: '" + key + "'"));
        }
        header := Some(MakeHeader(config.robotPasswords[key]));
      }
    }
    assert AuthHeader(config) == Success(header);

    var fips := config.floatingIps;
    var ourV4: Option<string> := None;
    var ourV6: Option<string> := None;
    var i := 0;
    while i < |fips|
      invariant 0 <= i <= |fips|
      invariant Own(ourV4, ourV6) == OwnAddresses(fips[..i], config.thisRouterId)
    {
      var ip := fips[i];
      if ip.router == config.thisRouterId {
        if ':' in ip.ip {
          ourV6 := Some(ip.ip);
        } else {
          ourV4 := Some(ip.ip);
        }
      }
      assert fips[..i + 1][..i] == fips[..i];
      i := i + 1;
    }
    assert fips[..|fips|] == fips;
    ghost var own := Own(ourV4, ourV6);

    var jobs: seq<Job> := [];
    i := 0;
    while i < |fips|
      invariant 0 <= i <= |fips|
      invariant JobsFrom(argEndstate, config, header, own, fips[..i]) == Plan(jobs, None)
    {
      var ip := fips[i];
      assert fips[..i + 1][..i] == fips[..i];
      if ip.router == VirtualRouterId {
        var addr := ip.ip;
        var url := Format(config.urlFloating, [addr]);
        if url.None? {
          JobsErrorStays(argEndstate, config, header, own, fips, i + 1);
          return Plan(jobs, Some(FormatError));
        }
        var our := ourV4;
        if ':' in addr {
          addr := addr + config.ipv6Suffix;
          our := ourV6;
        }
        var payload: Option<string> := None;
        if VirtualRouterId != config.thisRouterId {
          payload := Some("active_server_ip=" + PyStr(our));
        }
        jobs := jobs + [Job(argEndstate, url.value, header, payload, config.iproute2Bin, ip.ip, config.iface)];
      }
      i := i + 1;
    }
    plan := Plan(jobs, None);
  }

  /** Once the loop has failed, later entries change nothing: the exception ends main. */
  lemma {:induction false} JobsErrorStays(endstate: string, c: NotifyConfig, header: Option<Header>, own: Own,
                                          fips: seq<FloatingIp>, i: nat)
    requires i <= |fips|
    requires JobsFrom(endstate, c, header, own, fips[..i]).error.Some?
    ensures JobsFrom(endstate, c, header, own, fips) == JobsFrom(endstate, c, header, own, fips[..i])
    decreases |fips| - i
  {
    if i < |fips| {
      assert fips[..i + 1][..i] == fips[..i];
      JobsErrorStays(endstate, c, header, own, fips, i + 1);
    } else {
      assert fips[..i] == fips;
    }
  }
}
