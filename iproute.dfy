/**
 * The iproute2 routing backend of the mock failover daemon
 * (failover-daemon/cmd/failover-daemon/iproute.go): the `ip route` command
 * lines it builds, the argument vector it hands to the operating system, and
 * how it reads the gateway out of `ip route get`. Running a command is not
 * modelled; its outcome (the output, or a failure) is an input.
 */
module IPRoute {
  import opened Wrappers
  import opened Text
  import opened NetAddr

  /** IPRoute2.fmt: the family prefix chosen by the address the command is about. */
  function Fmt(ip: Addr, cmdstr: string): string {
    if ip.Is4() then "ip " + cmdstr else "ip -6 " + cmdstr
  }

  /** The leading words Fmt puts in front of a command. */
  function FamilyWords(ip: Addr): seq<string> {
    if ip.Is4() then ["ip"] else ["ip", "-6"]
  }

  function ReplaceRouteCmd(failoverIP: Addr, targetIP: Addr): string {
    Fmt(failoverIP, "route replace " + failoverIP.text + " via " + targetIP.text)
  }

  function RemoveRouteCmd(failoverIP: Addr): string {
    Fmt(failoverIP, "route delete " + failoverIP.text)
  }

  function GetRouteCmd(failoverIP: Addr): string {
    Fmt(failoverIP, "route get " + failoverIP.text)
  }

  lemma FmtJoin(ip: Addr, ws: seq<string>)
    requires ws != []
    ensures Fmt(ip, Join(ws)) == Join(FamilyWords(ip) + ws)
  {
    var c := Join(ws);
    if ip.Is4() {
      JoinCons("ip", ws);
      assert "ip " + c == "ip" + " " + c;
      assert FamilyWords(ip) + ws == ["ip"] + ws;
    } else {
      JoinCons("-6", ws);
      JoinCons("ip", ["-6"] + ws);
      assert "ip -6 " + c == "ip" + " " + ("-6" + " " + c);
      assert FamilyWords(ip) + ws == ["ip"] + (["-6"] + ws);
    }
  }

  lemma PrefixedWords(fw: seq<string>, ws: seq<string>)
    requires forall k :: 0 <= k < |fw| ==> IsWord(fw[k])
    requires forall k :: 0 <= k < |ws| ==> IsWord(ws[k])
    ensures Words(Join(fw + ws)) == fw + ws
  {
    var xs := fw + ws;
    forall k | 0 <= k < |xs|
      ensures IsWord(xs[k])
    {
      if k < |fw| {
        assert xs[k] == fw[k];
      } else {
        assert xs[k] == ws[k - |fw|];
      }
    }
    WordsOfJoin(xs);
  }

  lemma FamilyWordsAreWords(ip: Addr)
    ensures forall k :: 0 <= k < |FamilyWords(ip)| ==> IsWord(FamilyWords(ip)[k])
  {
    assert IsWord("ip") && IsWord("-6");
  }

  lemma WordsOfFamilyJoin(ip: Addr, ws: seq<string>)
    requires ws != []
    requires forall k :: 0 <= k < |ws| ==> IsWord(ws[k])
    ensures Words(Join(FamilyWords(ip) + ws)) == FamilyWords(ip) + ws
  {
    FamilyWordsAreWords(ip);
    PrefixedWords(FamilyWords(ip), ws);
  }

  /** Fmt in words: the family flag, then the words of the command. */
  lemma FmtWords(ip: Addr, ws: seq<string>)
    requires ws != []
    requires forall k :: 0 <= k < |ws| ==> IsWord(ws[k])
    ensures Words(Fmt(ip, Join(ws))) == FamilyWords(ip) + ws
  {
    WordsOfFamilyJoin(ip, ws);
    FmtJoin(ip, ws);
  }

  /**
   * ReplaceRoute runs `ip [-6] route replace <failover> via <target>`; the
   * family flag follows the failover address alone, whatever the target's
   * family.
   */
  lemma ReplaceRouteWords(failoverIP: Addr, targetIP: Addr)
    requires IsWord(failoverIP.text) && IsWord(targetIP.text)
    ensures Words(ReplaceRouteCmd(failoverIP, targetIP))
         == FamilyWords(failoverIP) + ["route", "replace", failoverIP.text, "via", targetIP.text]
  {
    var f, t := failoverIP.text, targetIP.text;
    var ws := ["route", "replace", f, "via", t];
    assert Join(ws[4..]) == t;
    JoinCons("via", ws[4..]);
    assert ws[3..] == ["via"] + ws[4..];
    JoinCons(f, ws[3..]);
    assert ws[2..] == [f] + ws[3..];
    JoinCons("replace", ws[2..]);
    assert ws[1..] == ["replace"] + ws[2..];
    JoinCons("route", ws[1..]);
    assert ws == ["route"] + ws[1..];
    assert Join(ws) == "route replace " + f + " via " + t;
    FmtWords(failoverIP, ws);
  }

  /** RemoveRoute runs `ip [-6] route delete <failover>`. */
  lemma RemoveRouteWords(failoverIP: Addr)
    requires IsWord(failoverIP.text)
    ensures Words(RemoveRouteCmd(failoverIP)) == FamilyWords(failoverIP) + ["route", "delete", failoverIP.text]
  {
    var f := failoverIP.text;
    var ws := ["route", "delete", f];
    JoinCons("delete", [f]);
    assert ws[1..] == ["delete", f];
    JoinCons("route", ws[1..]);
    assert ws == ["route"] + ws[1..];
    assert Join(ws) == "route delete " + f;
    FmtWords(failoverIP, ws);
  }

  /** GetRoute runs `ip [-6] route get <failover>`. */
  lemma GetRouteWords(failoverIP: Addr)
    requires IsWord(failoverIP.text)
    ensures Words(GetRouteCmd(failoverIP)) == FamilyWords(failoverIP) + ["route", "get", failoverIP.text]
  {
    var f := failoverIP.text;
    var ws := ["route", "get", f];
    JoinCons("get", [f]);
    assert ws[1..] == ["get", f];
    JoinCons("route", ws[1..]);
    assert ws == ["route"] + ws[1..];
    assert Join(ws) == "route get " + f;
    FmtWords(failoverIP, ws);
  }

  // ---------------------------------------------------------------------
  // Running a command line: IPRoute2.exec and GetRoute both pass the whole
  // command line to exec.Command as its only argument.

  /**
   * The argument vector exec.Command(cmdstr) starts, as written: the program
   * name is the whole command line.
   */
  function ArgvAsWritten(cmdstr: string): seq<string> {
    [cmdstr]
  }

  /** The argument vector the command line evidently means: its words. */
  function Argv(cmdstr: string): seq<string> {
    Words(cmdstr)
  }

  /**
   * As written, the program looked up for every route command is not `ip`
   * but a name holding spaces, which no file on the search path carries, so
   * every ReplaceRoute, RemoveRoute and GetRoute call fails.
   */
  lemma ArgvAsWrittenNamesNoProgram(failoverIP: Addr, targetIP: Addr)
    ensures var cmds := [ReplaceRouteCmd(failoverIP, targetIP), RemoveRouteCmd(failoverIP), GetRouteCmd(failoverIP)];
      forall k :: 0 <= k < 3 ==> ArgvAsWritten(cmds[k])[0] != "ip" && ' ' in ArgvAsWritten(cmds[k])[0]
  {
    var cmds := [ReplaceRouteCmd(failoverIP, targetIP), RemoveRouteCmd(failoverIP), GetRouteCmd(failoverIP)];
    forall k | 0 <= k < 3
      ensures ArgvAsWritten(cmds[k])[0] != "ip" && ' ' in ArgvAsWritten(cmds[k])[0]
    {
      assert cmds[k][2] == ' ';
    }
  }

  /** With the command line split into words, `ip` is the program and the rest its arguments. */
  lemma ArgvRunsIp(failoverIP: Addr, targetIP: Addr)
    requires IsWord(failoverIP.text) && IsWord(targetIP.text)
    ensures Argv(ReplaceRouteCmd(failoverIP, targetIP))[0] == "ip"
    ensures Argv(RemoveRouteCmd(failoverIP))[0] == "ip"
    ensures Argv(GetRouteCmd(failoverIP))[0] == "ip"
  {
    ReplaceRouteWords(failoverIP, targetIP);
    RemoveRouteWords(failoverIP);
    GetRouteWords(failoverIP);
  }

  // ---------------------------------------------------------------------
  // Reading the gateway: findVia = `(?m)via ([0-9a-f\[.;]+)`.

  /** The character class of findVia as written: digits, a-f, '[', '.', ';'. */
  predicate ViaClassAsWritten(c: char) {
    '0' <= c <= '9' || 'a' <= c <= 'f' || c == '[' || c == '.' || c == ';'
  }

  /** The class evidently meant: ':' where ';' stands, so that IPv6 gateways match. */
  predicate ViaClass(c: char) {
    '0' <= c <= '9' || 'a' <= c <= 'f' || c == '[' || c == '.' || c == ':'
  }

  /** The length of the run of class characters starting at `i`. */
  function RunLength(s: string, i: nat, cls: char -> bool): (n: nat)
    requires i <= |s|
    ensures i + n <= |s|
    ensures forall k :: i <= k < i + n ==> cls(s[k])
    ensures i + n < |s| ==> !cls(s[i + n])
    decreases |s| - i
  {
    if i < |s| && cls(s[i]) then 1 + RunLength(s, i + 1, cls) else 0
  }

  /** The regular expression matches at `i`: "via " followed by a class character. */
  predicate MatchesAt(s: string, i: nat, cls: char -> bool) {
    i + 4 < |s| && s[i..i + 4] == "via " && cls(s[i + 4])
  }

  /** The leftmost position at or after `i` where the expression matches. */
  function Search(s: string, i: nat, cls: char -> bool): (r: Option<nat>)
    ensures r.Some? ==> i <= r.value && MatchesAt(s, r.value, cls)
    ensures r.Some? ==> forall k :: i <= k < r.value ==> !MatchesAt(s, k, cls)
    ensures r.None? ==> forall k :: i <= k ==> !MatchesAt(s, k, cls)
    decreases |s| - i
  {
    if i + 4 >= |s| then None
    else if MatchesAt(s, i, cls) then Some(i)
    else Search(s, i + 1, cls)
  }

  /** Regexp.Find on the output, converted to a string: the whole match, or "" when none. */
  function FindMatch(out: string, cls: char -> bool): string {
    match Search(out, 0, cls)
    case None => ""
    case Some(i) => out[i..i + 4 + RunLength(out, i + 4, cls)]
  }

  /** The first capture group of the leftmost match, when there is one. */
  function FindGroup(out: string, cls: char -> bool): Option<string> {
    match Search(out, 0, cls)
    case None => None
    case Some(i) => Some(out[i + 4..i + 4 + RunLength(out, i + 4, cls)])
  }

  /**
   * GetRoute as written: `out` is the output of `ip route get`, None when the
   * command failed; the string given to the address parser is the whole
   * match, "via " included, under the class as written.
   */
  function GetRouteAsWritten(out: Option<string>, parseAddr: string -> Option<Addr>): Result<Option<Addr>, string> {
    match out
    case None => Failure("command failed")
    case Some(o) =>
      match parseAddr(FindMatch(o, ViaClassAsWritten))
      case None => Failure("no valid IP")
      case Some(a) => Success(Some(a))
  }

  /**
   * GetRoute as evidently intended: the gateway is the capture group under
   * the corrected class; no "via" in the output means no gateway route, the
   * nil address the caller in Init tests for.
   */
  function GetRoute(out: Option<string>, parseAddr: string -> Option<Addr>): Result<Option<Addr>, string> {
    match out
    case None => Failure("command failed")
    case Some(o) =>
      match FindGroup(o, ViaClass)
      case None => Success(None)
      case Some(g) =>
        match parseAddr(g)
        case None => Failure("no valid IP")
        case Some(a) => Success(Some(a))
  }

  /** An output of `ip route get` with a gateway: no "via" before it, then "via <t>" and the rest. */
  predicate GatewayOutput(pre: string, t: string, post: string, cls: char -> bool) {
    'v' !in pre && t != [] && (forall k :: 0 <= k < |t| ==> cls(t[k])) && (post == [] || !cls(post[0]))
  }

  lemma {:induction false} LocateGateway(pre: string, t: string, post: string, cls: char -> bool)
    requires GatewayOutput(pre, t, post, cls)
    ensures var out := pre + "via " + t + post;
      Search(out, 0, cls) == Some(|pre|) && RunLength(out, |pre| + 4, cls) == |t|
      && out[|pre|..|pre| + 4 + |t|] == "via " + t && out[|pre| + 4..|pre| + 4 + |t|] == t
  {
    var out := pre + "via " + t + post;
    var i := |pre|;
    assert out[i..i + 4] == "via ";
    assert out[i + 4] == t[0];
    assert MatchesAt(out, i, cls);
    forall k | 0 <= k < i
      ensures !MatchesAt(out, k, cls)
    {
      assert out[k] == pre[k];
    }
    var r := Search(out, 0, cls);
    assert r.Some? && r.value <= i;
    assert r.value >= i;
    var n := RunLength(out, i + 4, cls);
    forall k | i + 4 <= k < i + 4 + |t|
      ensures cls(out[k])
    {
      assert out[k] == t[k - i - 4];
    }
    assert n >= |t|;
    assert i + 4 + |t| < |out| ==> out[i + 4 + |t|] == post[0];
    assert n == |t|;
    assert out[i..i + 4 + |t|] == "via " + t;
    assert out[i + 4..i + 4 + |t|] == t;
  }

  /**
   * As written, the parser is handed "via <gateway>" rather than the gateway:
   * for the output of a route through a gateway, the string parsed starts
   * with "via ".
   */
  lemma FindMatchKeepsVia(pre: string, t: string, post: string)
    requires GatewayOutput(pre, t, post, ViaClassAsWritten)
    ensures FindMatch(pre + "via " + t + post, ViaClassAsWritten) == "via " + t
  {
    LocateGateway(pre, t, post, ViaClassAsWritten);
  }

  /**
   * As written, GetRoute never returns an address: the string parsed is
   * either empty or starts with "via ", and no address literal does (the
   * requires state this of the parser).
   */
  lemma GetRouteAsWrittenAlwaysFails(out: Option<string>, parseAddr: string -> Option<Addr>)
    requires parseAddr("") == None
    requires forall s :: |s| >= 4 && s[..4] == "via " ==> parseAddr(s) == None
    ensures GetRouteAsWritten(out, parseAddr).Failure?
  {
    if out.Some? {
      var o := out.value;
      var m := FindMatch(o, ViaClassAsWritten);
      match Search(o, 0, ViaClassAsWritten)
      case None =>
      case Some(i) =>
        assert m[..4] == o[i..i + 4] == "via ";
    }
  }

  /**
   * As written, the class lacks ':', so an IPv6 gateway is cut at its first
   * colon: "via fe80::1" matches only as "via fe80".
   */
  lemma ViaClassAsWrittenCutsIPv6(pre: string, h: string, rest: string)
    requires GatewayOutput(pre, h, ":" + rest, ViaClassAsWritten)
    ensures FindMatch(pre + "via " + (h + ":" + rest), ViaClassAsWritten) == "via " + h
  {
    assert pre + "via " + (h + ":" + rest) == pre + "via " + h + (":" + rest);
    LocateGateway(pre, h, ":" + rest, ViaClassAsWritten);
  }

  /**
   * The corrected GetRoute reads the gateway of `ip route get`: with
   * "via <t>" in the output, it returns what the parser makes of t, IPv6
   * gateways included; without "via", it reports that there is no gateway.
   */
  lemma GetRouteFindsGateway(pre: string, t: string, post: string, parseAddr: string -> Option<Addr>)
    requires GatewayOutput(pre, t, post, ViaClass)
    ensures GetRoute(Some(pre + "via " + t + post), parseAddr)
         == match parseAddr(t) case Some(a) => Success(Some(a)) case None => Failure("no valid IP")
  {
    LocateGateway(pre, t, post, ViaClass);
  }

  /**
   * With ':' in the class, the capture group is the whole gateway, colons
   * included: "via fe80::1" yields "fe80::1".
   */
  lemma ViaClassKeepsIPv6(pre: string, t: string, post: string)
    requires GatewayOutput(pre, t, post, ViaClass) && ':' in t
    ensures FindGroup(pre + "via " + t + post, ViaClass) == Some(t)
  {
    LocateGateway(pre, t, post, ViaClass);
  }

  /**
   * The corrected GetRoute reports no gateway exactly when the output holds
   * no match: no "via " followed by a class character anywhere.
   */
  lemma GetRouteNoGateway(o: string, parseAddr: string -> Option<Addr>)
    ensures GetRoute(Some(o), parseAddr) == Success(None) <==> forall k: nat :: !MatchesAt(o, k, ViaClass)
  {
    if GetRoute(Some(o), parseAddr) != Success(None) {
      assert Search(o, 0, ViaClass).Some?;
    }
  }
}
