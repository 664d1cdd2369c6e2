/**
 * Classifying the two NATs and deciding how to punch the hole (pkg/nathole/classify.go,
 * pkg/nathole/controller.go).
 */
module NatHoles {
  import opened Prelude
  import opened HoleStrategies

  /** An address as `net.SplitHostPort` sees it. */
  datatype Addr = Malformed | HostPort(host: string, port: string)

  /** `strconv.Atoi`. */
  type Atoi = string -> Option<int>

  datatype ClassifyError = NotEnoughAddresses | BadAddress

  predicate WellFormed(a: Addr, atoi: Atoi) { a.HostPort? && atoi(a.port).Some? }

  ghost predicate AllWellFormed(addrs: seq<Addr>, atoi: Atoi) {
    forall i :: 0 <= i < |addrs| ==> WellFormed(addrs[i], atoi)
  }

  /** The addresses from the first one with a host on; an empty host counts as "no address seen yet". */
  function Trim(addrs: seq<Addr>): seq<Addr> {
    if addrs != [] && addrs[0].HostPort? && addrs[0].host == "" then Trim(addrs[1..]) else addrs
  }

  lemma {:induction false} TrimAppend(addrs: seq<Addr>, a: Addr)
    ensures Trim(addrs + [a]) == if Trim(addrs) == [] && a.HostPort? && a.host == "" then [] else Trim(addrs) + [a]
  {
    if addrs == [] {
      assert addrs + [a] == [a];
    } else if addrs[0].HostPort? && addrs[0].host == "" {
      assert (addrs + [a])[1..] == addrs[1..] + [a];
      TrimAppend(addrs[1..], a);
    }
  }

  /** Nothing is dropped exactly when the list does not start with an empty host. */
  lemma TrimKeepsHosts(addrs: seq<Addr>)
    ensures Trim(addrs) == addrs <==> !(addrs != [] && addrs[0].HostPort? && addrs[0].host == "")
  {
    if addrs != [] && addrs[0].HostPort? && addrs[0].host == "" { TrimShortens(addrs[1..]); }
  }

  lemma {:induction false} TrimShortens(addrs: seq<Addr>)
    ensures |Trim(addrs)| <= |addrs|
  {
    if addrs != [] && addrs[0].HostPort? && addrs[0].host == "" { TrimShortens(addrs[1..]); }
  }

  function PortAt(t: seq<Addr>, atoi: Atoi, i: nat): int
    requires i < |t| && WellFormed(t[i], atoi)
  {
    atoi(t[i].port).value
  }

  ghost predicate HostsAgree(t: seq<Addr>) {
    forall i :: 0 <= i < |t| ==> t[i].HostPort? && t[0].HostPort? && t[i].host == t[0].host
  }

  ghost predicate PortsAgree(t: seq<Addr>) {
    forall i :: 0 <= i < |t| ==> t[i].HostPort? && t[0].HostPort? && t[i].port == t[0].port
  }

  /** The smallest and the largest port number that occur. */
  ghost predicate Spread(t: seq<Addr>, atoi: Atoi, low: int, high: int)
    requires AllWellFormed(t, atoi)
  {
    && (exists i :: 0 <= i < |t| && PortAt(t, atoi, i) == low)
    && (exists i :: 0 <= i < |t| && PortAt(t, atoi, i) == high)
    && (forall i :: 0 <= i < |t| ==> low <= PortAt(t, atoi, i) <= high)
  }

  ghost predicate OnPublicNetwork(addrs: seq<Addr>, localIPs: seq<string>) {
    exists i :: 0 <= i < |addrs| && addrs[i].HostPort? && addrs[i].host in localIPs
  }

  /**
   * What the classification means: the NAT is easy exactly when all host and port texts agree; the port
   * changes are regular exactly when only the ports differ, by one to five in all.
   */
  ghost predicate Describes(f: NatFeature, addrs: seq<Addr>, localIPs: seq<string>, atoi: Atoi)
    requires AllWellFormed(Trim(addrs), atoi)
  {
    var t := Trim(addrs);
    && f.behavior == (if HostsAgree(t) then if PortsAgree(t) then NoChange else PortChanged
                      else if PortsAgree(t) then IPChanged else BothChanged)
    && (f.natType == EasyNAT <==> HostsAgree(t) && PortsAgree(t))
    && (f.behavior == PortChanged ==> exists low, high :: Spread(t, atoi, low, high) && f.portsDifference == high - low)
    && (f.behavior != PortChanged ==> f.portsDifference == 0)
    && (f.regular <==> f.behavior == PortChanged && 1 <= f.portsDifference <= 5)
    && (f.publicNetwork <==> OnPublicNetwork(addrs, localIPs))
  }

  lemma {:induction false} TrimIsSuffix(addrs: seq<Addr>, atoi: Atoi)
    requires AllWellFormed(addrs, atoi)
    ensures AllWellFormed(Trim(addrs), atoi)
  {
    if addrs != [] && addrs[0].host == "" {
      assert forall i :: 0 <= i < |addrs[1..]| ==> addrs[1..][i] == addrs[i + 1];
      TrimIsSuffix(addrs[1..], atoi);
    }
  }

  /** The classification is unambiguous. */
  lemma DescriptionIsUnique(f: NatFeature, g: NatFeature, addrs: seq<Addr>, localIPs: seq<string>, atoi: Atoi)
    requires AllWellFormed(Trim(addrs), atoi)
    requires Describes(f, addrs, localIPs, atoi) && Describes(g, addrs, localIPs, atoi)
    ensures f == g
  {
    var t := Trim(addrs);
    if f.behavior == PortChanged {
      var l1, h1 :| Spread(t, atoi, l1, h1) && f.portsDifference == h1 - l1;
      var l2, h2 :| Spread(t, atoi, l2, h2) && g.portsDifference == h2 - l2;
      assert l1 == l2 && h1 == h2;
    }
  }

  /** All addresses are the same. */
  ghost predicate Agree(addrs: seq<Addr>) { HostsAgree(addrs) && PortsAgree(addrs) }

  /**
   * When "easy" means that all addresses are the same: if the first one has a host, always. Behind a
   * first address without a host, exactly when the addresses from the first host on differ, or no
   * address has a host and all ports are the same.
   */
  lemma EasyMeansAgree(f: NatFeature, addrs: seq<Addr>, localIPs: seq<string>, atoi: Atoi)
    requires addrs != [] && AllWellFormed(addrs, atoi) && AllWellFormed(Trim(addrs), atoi)
    requires Describes(f, addrs, localIPs, atoi)
    ensures (f.natType == EasyNAT <==> Agree(addrs)) <==>
            (addrs[0].host == "" ==> if Trim(addrs) == [] then PortsAgree(addrs) else !Agree(Trim(addrs)))
  {
    TrimKeepsHosts(addrs);
    if addrs[0].host == "" { TrimHosts(addrs, atoi); }
  }

  /** What is kept starts with a host; nothing is kept exactly when there is none. */
  lemma {:induction false} TrimHosts(addrs: seq<Addr>, atoi: Atoi)
    requires AllWellFormed(addrs, atoi)
    ensures Trim(addrs) == [] <==> forall i :: 0 <= i < |addrs| ==> addrs[i].host == ""
  {
    if addrs != [] && addrs[0].host == "" {
      assert forall i :: 0 <= i < |addrs[1..]| ==> addrs[1..][i] == addrs[i + 1];
      TrimHosts(addrs[1..], atoi);
      assert addrs == [addrs[0]] + addrs[1..];
    }
  }

  /** Two different addresses that are classified as an easy NAT. */
  lemma EmptyHostIsPassedOver(atoi: Atoi, localIPs: seq<string>)
    requires atoi("80").Some? && atoi("90").Some?
    ensures var addrs := [HostPort("", "80"), HostPort("h", "90")];
            && AllWellFormed(addrs, atoi) && AllWellFormed(Trim(addrs), atoi) && !Agree(addrs)
            && forall f :: Describes(f, addrs, localIPs, atoi) ==> f.natType == EasyNAT
  {
    var addrs := [HostPort("", "80"), HostPort("h", "90")];
    TrimIsSuffix(addrs, atoi);
    assert addrs[1..] == [HostPort("h", "90")];
    assert Trim(addrs) == [HostPort("h", "90")];
    assert addrs[0].host != addrs[1].host;
    assert !HostsAgree(addrs);
  }

  /** What is kept is the rest of the list from the first address that has a host on. */
  lemma {:induction false} TrimIsRest(addrs: seq<Addr>) returns (k: nat)
    ensures k <= |addrs| && Trim(addrs) == addrs[k..]
    ensures forall i :: 0 <= i < k ==> addrs[i].HostPort? && addrs[i].host == ""
    ensures k < |addrs| ==> !(addrs[k].HostPort? && addrs[k].host == "")
  {
    if addrs != [] && addrs[0].HostPort? && addrs[0].host == "" {
      var j := TrimIsRest(addrs[1..]);
      k := j + 1;
      assert forall i :: 0 <= i < j ==> addrs[1..][i] == addrs[i + 1];
      assert addrs[1..][j..] == addrs[k..];
    } else {
      k := 0;
    }
  }

  /**
   * The verdict, pair by pair, for addresses that all have hosts. The NAT is easy exactly if any two
   * addresses are the same; the changes are regular exactly if any two hosts are, no two ports are more
   * than five apart, some are at least one apart, and the texts of some ports differ; and the side is on
   * a public network exactly if one of its own addresses was mapped.
   */
  lemma VerdictIs(f: NatFeature, addrs: seq<Addr>, localIPs: seq<string>, atoi: Atoi)
    requires addrs != [] && AllWellFormed(addrs, atoi) && AllWellFormed(Trim(addrs), atoi) && addrs[0].host != ""
    requires Describes(f, addrs, localIPs, atoi)
    ensures f.natType == EasyNAT <==>
              forall i, j :: 0 <= i < |addrs| && 0 <= j < |addrs| ==> addrs[i].host == addrs[j].host && addrs[i].port == addrs[j].port
    ensures f.regular <==>
              && (forall i, j :: 0 <= i < |addrs| && 0 <= j < |addrs| ==> addrs[i].host == addrs[j].host)
              && (forall i, j :: 0 <= i < |addrs| && 0 <= j < |addrs| ==> PortAt(addrs, atoi, i) - PortAt(addrs, atoi, j) <= 5)
              && (exists i, j :: 0 <= i < |addrs| && 0 <= j < |addrs| && PortAt(addrs, atoi, i) - PortAt(addrs, atoi, j) >= 1)
    ensures f.publicNetwork <==> exists i :: 0 <= i < |addrs| && addrs[i].host in localIPs
  {
    TrimKeepsHosts(addrs);
    assert f.natType == EasyNAT <==> HostsAgree(addrs) && PortsAgree(addrs);
    if HostsAgree(addrs) && !PortsAgree(addrs) {
      var low, high :| Spread(addrs, atoi, low, high) && f.portsDifference == high - low;
      var i :| 0 <= i < |addrs| && PortAt(addrs, atoi, i) == high;
      var j :| 0 <= j < |addrs| && PortAt(addrs, atoi, j) == low;
      assert PortAt(addrs, atoi, i) - PortAt(addrs, atoi, j) == f.portsDifference;
    }
  }

  /** Which changes are reported, for addresses that all have hosts: hosts differ, ports differ, both or neither. */
  lemma ChangeIs(f: NatFeature, addrs: seq<Addr>, localIPs: seq<string>, atoi: Atoi)
    requires addrs != [] && AllWellFormed(addrs, atoi) && AllWellFormed(Trim(addrs), atoi) && addrs[0].host != ""
    requires Describes(f, addrs, localIPs, atoi)
    ensures f.behavior == IPChanged || f.behavior == BothChanged <==>
              exists i, j :: 0 <= i < |addrs| && 0 <= j < |addrs| && addrs[i].host != addrs[j].host
    ensures f.behavior == PortChanged || f.behavior == BothChanged <==>
              exists i, j :: 0 <= i < |addrs| && 0 <= j < |addrs| && addrs[i].port != addrs[j].port
    ensures f.behavior == NoChange <==> f.natType == EasyNAT
  {
    TrimKeepsHosts(addrs);
    if !HostsAgree(addrs) { var i :| 0 <= i < |addrs| && addrs[i].host != addrs[0].host; }
    if !PortsAgree(addrs) { var i :| 0 <= i < |addrs| && addrs[i].port != addrs[0].port; }
  }

  /** Where the scan stands: nothing with a host seen yet, or the base and the flags, minimum and maximum since. */
  ghost predicate Scanned(t: seq<Addr>, atoi: Atoi, baseIP: string, basePort: string, low: int, high: int, ipChanged: bool, portChanged: bool) {
    && AllWellFormed(t, atoi)
    && (t == [] <==> baseIP == "")
    && (t == [] ==> !ipChanged && !portChanged)
    && (t != [] ==>
          && t[0].host == baseIP && t[0].port == basePort
          && (ipChanged <==> !HostsAgree(t)) && (portChanged <==> !PortsAgree(t))
          && Spread(t, atoi, low, high))
  }

  lemma ScanNext(t: seq<Addr>, a: Addr, atoi: Atoi, baseIP: string, basePort: string, low: int, high: int, ipChanged: bool, portChanged: bool)
    requires Scanned(t, atoi, baseIP, basePort, low, high, ipChanged, portChanged) && t != [] && WellFormed(a, atoi)
    ensures var p := atoi(a.port).value;
            Scanned(t + [a], atoi, baseIP, basePort, Min(low, p), Max(high, p), ipChanged || a.host != baseIP, portChanged || a.port != basePort)
  {
    var next, p := t + [a], atoi(a.port).value;
    assert forall i :: 0 <= i < |t| ==> next[i] == t[i];
    assert next[|t|] == a && PortAt(next, atoi, |t|) == p;
    assert HostsAgree(next) <==> HostsAgree(t) && a.host == baseIP;
    assert PortsAgree(next) <==> PortsAgree(t) && a.port == basePort;
    var i :| 0 <= i < |t| && PortAt(t, atoi, i) == low;
    var j :| 0 <= j < |t| && PortAt(t, atoi, j) == high;
    assert PortAt(next, atoi, i) == low && PortAt(next, atoi, j) == high;
    forall k | 0 <= k < |next| ensures Min(low, p) <= PortAt(next, atoi, k) <= Max(high, p) {
      if k < |t| { assert PortAt(next, atoi, k) == PortAt(t, atoi, k); }
    }
  }

  lemma ScanFirst(a: Addr, atoi: Atoi)
    requires WellFormed(a, atoi) && a.host != ""
    ensures Scanned([a], atoi, a.host, a.port, atoi(a.port).value, atoi(a.port).value, false, false)
  {
    assert PortAt([a], atoi, 0) == atoi(a.port).value;
  }

  method ClassifyNATFeature(addresses: seq<Addr>, localIPs: seq<string>, atoi: Atoi) returns (r: Result<NatFeature, ClassifyError>)
    ensures |addresses| <= 1 ==> r == Err(NotEnoughAddresses)
    ensures |addresses| > 1 && !AllWellFormed(addresses, atoi) ==> r == Err(BadAddress)
    ensures |addresses| > 1 && AllWellFormed(addresses, atoi) ==>
              && r.Ok? && AllWellFormed(Trim(addresses), atoi) && Describes(r.value, addresses, localIPs, atoi)
  {
    if |addresses| <= 1 {
      return Err(NotEnoughAddresses);
    }
    var ipChanged, portChanged, publicNetwork := false, false, false;
    var baseIP, basePort, portMax, portMin := "", "", 0, 0;
    var i := 0;
    while i < |addresses|
      invariant i <= |addresses| && AllWellFormed(addresses[..i], atoi)
      invariant publicNetwork <==> OnPublicNetwork(addresses[..i], localIPs)
      invariant Scanned(Trim(addresses[..i]), atoi, baseIP, basePort, portMin, portMax, ipChanged, portChanged)
    {
      var addr := addresses[i];
      if !WellFormed(addr, atoi) {
        return Err(BadAddress);
      }
      var ip, port, portNum := addr.host, addr.port, atoi(addr.port).value;
      assert addresses[..i + 1] == addresses[..i] + [addr];
      TrimAppend(addresses[..i], addr);
      PublicNext(addresses[..i], addr, localIPs);
      if ip in localIPs {
        publicNetwork := true;
      }
      if baseIP == "" {
        baseIP, basePort := ip, port;
        if ip != "" { ScanFirst(addr, atoi); assert [] + [addr] == [addr]; }
        portMax, portMin := portNum, portNum;
      } else {
        ScanNext(Trim(addresses[..i]), addr, atoi, baseIP, basePort, portMin, portMax, ipChanged, portChanged);
        if portNum > portMax {
          portMax := portNum;
        }
        if portNum < portMin {
          portMin := portNum;
        }
        if baseIP != ip {
          ipChanged := true;
        }
        if basePort != port {
          portChanged := true;
        }
      }
      i := i + 1;
    }
    assert addresses[..|addresses|] == addresses;

    var natType, behavior, difference, regular := HardNAT, BothChanged, 0, false;
    if ipChanged && portChanged {
      behavior := BothChanged;
    } else if ipChanged {
      behavior := IPChanged;
    } else if portChanged {
      behavior := PortChanged;
    } else {
      natType, behavior := EasyNAT, NoChange;
    }
    if behavior == PortChanged {
      difference := portMax - portMin;
      if difference <= 5 && difference >= 1 {
        regular := true;
      }
    }
    r := Ok(NatFeature(natType, behavior, difference, regular, publicNetwork));
  }

  lemma PublicNext(addrs: seq<Addr>, a: Addr, localIPs: seq<string>)
    requires a.HostPort?
    ensures OnPublicNetwork(addrs + [a], localIPs) <==> OnPublicNetwork(addrs, localIPs) || a.host in localIPs
  {
    assert (addrs + [a])[|addrs|] == a;
    if OnPublicNetwork(addrs, localIPs) {
      var i :| 0 <= i < |addrs| && addrs[i].HostPort? && addrs[i].host in localIPs;
      assert (addrs + [a])[i] == addrs[i];
    }
  }

  // ----- the decision -----

  datatype PortsRange = PortsRange(from: int, to: int)

  /** `getRangePorts`. */
  function GetRangePorts(addrs: seq<Addr>, difference: int, maxNumber: int, atoi: Atoi): Option<PortsRange> {
    if maxNumber <= 0 || addrs == [] then None
    else
      var last := addrs[|addrs| - 1];
      if last.Malformed? || atoi(last.port) == None then None
      else
        var port := atoi(last.port).value;
        Some(PortsRange(Max(Max(port - difference - 5, port - maxNumber), 1), Min(Min(port + difference + 5, port + maxNumber), 65535)))
  }

  /**
   * A range is guessed exactly if ports may be guessed at all. It holds exactly the port numbers that are
   * near the last mapped port: by at most the difference seen plus five, and at most the number allowed.
   */
  ghost predicate GoodRange(range: Option<PortsRange>, addrs: seq<Addr>, difference: int, maxNumber: int, atoi: Atoi)
    requires addrs != [] && WellFormed(addrs[|addrs| - 1], atoi)
  {
    var port := atoi(addrs[|addrs| - 1].port).value;
    && (range.Some? <==> maxNumber > 0)
    && (range.Some? ==> 1 <= range.value.from && range.value.to <= 65535)
    && (range.Some? ==> forall q: int :: InRange(range.value, q) <==>
          1 <= q <= 65535 && port - difference - 5 <= q <= port + difference + 5 && port - maxNumber <= q <= port + maxNumber)
  }

  predicate InRange(range: PortsRange, q: int) { range.from <= q <= range.to }

  lemma RangesAreGood(addrs: seq<Addr>, difference: int, maxNumber: int, atoi: Atoi)
    requires addrs != [] && WellFormed(addrs[|addrs| - 1], atoi) && difference >= 0
    ensures GoodRange(GetRangePorts(addrs, difference, maxNumber, atoi), addrs, difference, maxNumber, atoi)
  {
  }

  /**
   * A good range holds the last mapped port, if that is a port number, and exactly the port numbers no
   * further from it than the difference plus five and the number allowed; so it is narrow.
   */
  lemma RangesHold(addrs: seq<Addr>, difference: int, maxNumber: int, atoi: Atoi, port: int)
    requires addrs != [] && WellFormed(addrs[|addrs| - 1], atoi) && difference >= 0
    requires atoi(addrs[|addrs| - 1].port) == Some(port)
    ensures var range := GetRangePorts(addrs, difference, maxNumber, atoi);
            && (range == None <==> maxNumber <= 0)
            && (range.Some? ==>
                  && (forall q: int | 1 <= q <= 65535 ::
                        InRange(range.value, q) <==> -difference - 5 <= q - port <= difference + 5 && -maxNumber <= q - port <= maxNumber)
                  && 1 <= range.value.from && range.value.to <= 65535
                  && range.value.to - range.value.from <= 2 * (difference + 5) && range.value.to - range.value.from <= 2 * maxNumber
                  && (1 <= port <= 65535 ==> range.value.from <= port <= range.value.to))
  {
  }

  /** `lo.Uniq`: the first occurrence of every address. */
  function Uniq<T(==)>(s: seq<T>): seq<T> {
    if s == [] then []
    else
      var front := Uniq(s[..|s| - 1]);
      if s[|s| - 1] in front then front else front + [s[|s| - 1]]
  }

  lemma {:induction false} UniqElements<T>(s: seq<T>)
    ensures forall x :: x in Uniq(s) <==> x in s
    ensures forall i, j :: 0 <= i < j < |Uniq(s)| ==> Uniq(s)[i] != Uniq(s)[j]
  {
    if s != [] {
      UniqElements(s[..|s| - 1]);
      assert s == s[..|s| - 1] + [s[|s| - 1]];
    }
  }

  /** What one side reports. */
  datatype Side = Side(mapped: seq<Addr>, assisted: seq<Addr>)

  /** `parseIPs`. */
  function ParseIPs(addrs: seq<Addr>): seq<string> {
    if addrs == [] then [] else (if addrs[0].HostPort? then [addrs[0].host] else []) + ParseIPs(addrs[1..])
  }

  /** The hosts of exactly the well-formed addresses; the first of them comes first. */
  lemma {:induction false} ParsedIPs(addrs: seq<Addr>, host: string)
    ensures host in ParseIPs(addrs) <==> exists i :: 0 <= i < |addrs| && addrs[i].HostPort? && addrs[i].host == host
    ensures addrs != [] && addrs[0].HostPort? ==> ParseIPs(addrs) != [] && ParseIPs(addrs)[0] == addrs[0].host
  {
    if addrs != [] {
      ParsedIPs(addrs[1..], host);
      if i :| 0 <= i < |addrs| && addrs[i].HostPort? && addrs[i].host == host {
        if i > 0 { assert addrs[1..][i - 1] == addrs[i]; }
      }
    }
  }

  /** The response to one side: what it shall do, and the addresses and ports of the other side to try. */
  datatype Response = Response(mode: int, role: Role, ttl: int, sendDelayMs: int, readTimeoutMs: int, sendRandomPorts: int,
                               listenRandomPorts: int, candidatePorts: Option<PortsRange>, candidates: seq<Addr>, assisted: seq<Addr>)

  datatype Decision = Decision(mode: int, index: nat, cFeature: NatFeature, vFeature: NatFeature, key: Key, cResp: Response, vResp: Response)

  function FirstIP(addrs: seq<Addr>): string {
    var ips := ParseIPs(addrs);
    if ips == [] then "" else ips[0]
  }

  function KeyOf(cm: Side, vm: Side, c: NatFeature, v: NatFeature): Key {
    Key(FirstIP(vm.mapped), FeatureOf(v), FirstIP(cm.mapped), FeatureOf(c))
  }

  /** The key names the first mapped host of either side, and tells two pairs of features apart exactly if type, behaviour or regularity differ. */
  lemma KeyTellsApart(cm: Side, vm: Side, c: NatFeature, v: NatFeature, cm2: Side, vm2: Side, c2: NatFeature, v2: NatFeature)
    requires cm.mapped != [] && vm.mapped != [] && cm2.mapped != [] && vm2.mapped != []
    requires cm.mapped[0].HostPort? && vm.mapped[0].HostPort? && cm2.mapped[0].HostPort? && vm2.mapped[0].HostPort?
    ensures KeyOf(cm, vm, c, v) == KeyOf(cm2, vm2, c2, v2) <==>
              && cm.mapped[0].host == cm2.mapped[0].host && vm.mapped[0].host == vm2.mapped[0].host
              && c.natType == c2.natType && c.behavior == c2.behavior && c.regular == c2.regular
              && v.natType == v2.natType && v.behavior == v2.behavior && v.regular == v2.regular
    ensures KeyOf(cm, vm, c, v).cIP == cm.mapped[0].host && KeyOf(cm, vm, c, v).vIP == vm.mapped[0].host
  {
    ParsedIPs(cm.mapped, "");
    ParsedIPs(vm.mapped, "");
    ParsedIPs(cm2.mapped, "");
    ParsedIPs(vm2.mapped, "");
  }

  /** The instructions for a side: its own behaviour, and what is known of the other side. */
  function Respond(mode: int, own: Behavior, timeoutMs: int, other: Side, otherDifference: int, atoi: Atoi): Response {
    Response(mode, own.role, own.ttl, own.sendDelayMs, timeoutMs - own.sendDelayMs, own.portsRandomNumber, own.listenRandomPorts,
             GetRangePorts(other.mapped, otherDifference, own.portsRangeNumber, atoi), Uniq(other.mapped), Uniq(other.assisted))
  }

  /** The classification of a side, as the two sides' descriptions determine it. */
  ghost predicate Classified(f: NatFeature, s: Side, atoi: Atoi) {
    && |s.mapped| > 1 && AllWellFormed(s.mapped, atoi) && AllWellFormed(Trim(s.mapped), atoi)
    && Describes(f, s.mapped, ParseIPs(s.assisted), atoi)
  }

  /**
   * A sound decision: the features are right; one side sends and the other receives, as their NATs
   * demand; both sides give up at the same time, five seconds after the later one sends, or thirty-five
   * if one listens on random ports;
   * and each is told the other's addresses and a good range of the other's ports.
   */
  ghost predicate SoundDecision(d: Decision, cm: Side, vm: Side, atoi: Atoi) {
    && Classified(d.cFeature, cm, atoi) && Classified(d.vFeature, vm, atoi)
    && d.key == KeyOf(cm, vm, d.cFeature, d.vFeature)
    && (exists cb: Behavior, vb: Behavior ::
          && (cb, vb) == Assign(d.mode, d.cFeature, BehaviorAt(d.mode, d.index).0, BehaviorAt(d.mode, d.index).1)
          && GoodRoles(d.mode, d.cFeature, d.vFeature, cb, vb)
          && Carries(d.cResp, d.mode, cb, vm, d.vFeature, atoi) && Carries(d.vResp, d.mode, vb, cm, d.cFeature, atoi))
    && d.cResp.sendDelayMs + d.cResp.readTimeoutMs == d.vResp.sendDelayMs + d.vResp.readTimeoutMs
    && LastListens(d.cResp, d.vResp, if d.cResp.listenRandomPorts > 0 || d.vResp.listenRandomPorts > 0 then 35000 else 5000)
  }

  /** Both listen at least this long after sending, and the one that sends last exactly this long. */
  predicate LastListens(a: Response, b: Response, ms: int) {
    && a.readTimeoutMs >= ms && b.readTimeoutMs >= ms
    && (a.sendDelayMs >= b.sendDelayMs ==> a.readTimeoutMs == ms) && (b.sendDelayMs >= a.sendDelayMs ==> b.readTimeoutMs == ms)
  }

  /** The response carries a behaviour, and the addresses and a good port range of the other side. */
  ghost predicate Carries(r: Response, mode: int, own: Behavior, other: Side, otherFeature: NatFeature, atoi: Atoi) {
    && r.mode == mode && r.role == own.role && r.ttl == own.ttl && r.sendDelayMs == own.sendDelayMs
    && r.sendRandomPorts == own.portsRandomNumber && r.listenRandomPorts == own.listenRandomPorts
    && (forall x :: x in r.candidates <==> x in other.mapped) && (forall x :: x in r.assisted <==> x in other.assisted)
    && other.mapped != [] && WellFormed(other.mapped[|other.mapped| - 1], atoi)
    && GoodRange(r.candidatePorts, other.mapped, otherFeature.portsDifference, own.portsRangeNumber, atoi)
  }

  lemma ResponseCarries(mode: int, own: Behavior, timeoutMs: int, other: Side, f: NatFeature, atoi: Atoi)
    requires Classified(f, other, atoi)
    ensures Carries(Respond(mode, own, timeoutMs, other, f.portsDifference, atoi), mode, own, other, f, atoi)
  {
    UniqElements(other.mapped);
    UniqElements(other.assisted);
    RangesAreGood(other.mapped, f.portsDifference, own.portsRangeNumber, atoi);
  }

  /** What a sound decision tells the two sides. */
  lemma DecisionMeans(d: Decision, cm: Side, vm: Side, atoi: Atoi)
    requires SoundDecision(d, cm, vm, atoi)
    ensures (d.cResp.role == Sender && d.vResp.role == Receiver) || (d.cResp.role == Receiver && d.vResp.role == Sender)
    ensures d.mode == 1 ==> (if d.cResp.role == Sender then d.cFeature else d.vFeature).natType == HardNAT
    ensures d.mode == 2 ==> (if d.cResp.role == Sender then d.vFeature else d.cFeature).natType == HardNAT
    ensures d.mode == 4 ==> (if d.cResp.role == Sender then d.cFeature else d.vFeature).regular
    // Both stop listening at this time after the start.
    ensures var random := d.cResp.listenRandomPorts > 0 || d.vResp.listenRandomPorts > 0;
            var end := Max(d.cResp.sendDelayMs, d.vResp.sendDelayMs) + if random then 35000 else 5000;
            d.cResp.sendDelayMs + d.cResp.readTimeoutMs == end && d.vResp.sendDelayMs + d.vResp.readTimeoutMs == end
    ensures forall x :: x in d.cResp.candidates <==> x in vm.mapped
    ensures forall x :: x in d.vResp.candidates <==> x in cm.mapped
    ensures forall x :: x in d.cResp.assisted <==> x in vm.assisted
    ensures forall x :: x in d.vResp.assisted <==> x in cm.assisted
    ensures d.key.cIP == cm.mapped[0].host && d.key.vIP == vm.mapped[0].host
  {
    assert WellFormed(cm.mapped[0], atoi) && WellFormed(vm.mapped[0], atoi);
    ParsedIPs(cm.mapped, "");
    ParsedIPs(vm.mapped, "");
  }

  /** `Controller.analysis`. */
  method Analysis(analyzer: Analyzer, cm: Side, vm: Side, atoi: Atoi, now: int) returns (r: Result<Decision, ClassifyError>)
    requires analyzer.Valid()
    modifies analyzer, analyzer.records.Values
    ensures analyzer.Valid() && fresh(analyzer.records.Values - old(analyzer.records.Values))
    ensures r.Ok? <==> |cm.mapped| > 1 && |vm.mapped| > 1 && AllWellFormed(cm.mapped, atoi) && AllWellFormed(vm.mapped, atoi)
    ensures r.Ok? ==> SoundDecision(r.value, cm, vm, atoi)
    ensures r.Ok? ==> analyzer.Chose(old(analyzer.records), old(analyzer.ScoresAt(r.value.key, r.value.cFeature, r.value.vFeature)),
                                     r.value.key, r.value.mode, r.value.index)
    ensures r.Err? ==> analyzer.records == old(analyzer.records)
  {
    var c := ClassifyNATFeature(cm.mapped, ParseIPs(cm.assisted), atoi);
    if c.Err? {
      return Err(c.error);
    }
    var v := ClassifyNATFeature(vm.mapped, ParseIPs(vm.assisted), atoi);
    if v.Err? {
      return Err(v.error);
    }
    var cf, vf := c.value, v.value;
    var key := KeyOf(cm, vm, cf, vf);
    var mode, index, cb, vb := analyzer.GetRecommandBehaviors(key, cf, vf, now);
    var d := Decide(mode, index, cf, vf, key, cb, vb, cm, vm, atoi);
    r := Ok(d);
  }

  /** Delays in the tables are not negative. */
  lemma DelaysAreNatural(mode: int, index: nat)
    ensures BehaviorAt(mode, index).0.sendDelayMs >= 0 && BehaviorAt(mode, index).1.sendDelayMs >= 0
  {
  }

  method Decide(mode: int, index: nat, cf: NatFeature, vf: NatFeature, key: Key, cb: Behavior, vb: Behavior, cm: Side, vm: Side, atoi: Atoi)
    returns (d: Decision)
    requires Classified(cf, cm, atoi) && Classified(vf, vm, atoi) && key == KeyOf(cm, vm, cf, vf)
    requires (cb, vb) == Assign(mode, cf, BehaviorAt(mode, index).0, BehaviorAt(mode, index).1)
    requires GoodRoles(mode, cf, vf, cb, vb)
    ensures SoundDecision(d, cm, vm, atoi)
    ensures (d.mode, d.index, d.key, d.cFeature, d.vFeature) == (mode, index, key, cf, vf)
  {
    DelaysAreNatural(mode, index);
    var timeoutMs := Max(cb.sendDelayMs, vb.sendDelayMs) + 5000;
    if cb.listenRandomPorts > 0 || vb.listenRandomPorts > 0 {
      timeoutMs := timeoutMs + 30000;
    }
    ResponseCarries(mode, vb, timeoutMs, cm, cf, atoi);
    ResponseCarries(mode, cb, timeoutMs, vm, vf, atoi);
    d := Decision(mode, index, cf, vf, key,
                  Respond(mode, cb, timeoutMs, vm, vf.portsDifference, atoi), Respond(mode, vb, timeoutMs, cm, cf.portsDifference, atoi));
  }
}
