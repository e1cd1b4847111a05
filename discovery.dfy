/**
 * The SSDP side of the agent: reading advertisements, resolving new
 * devices from their description, the registry of devices keyed by uuid,
 * its timeout sweep, and the choice of listeners and search sources.
 * Sockets, HTTP fetches and XML decoding are outside the model: their
 * outcomes are the inputs of these operations.
 */
module Discovery {
  import opened Wrappers
  import opened GoStrings
  import opened NetUrl
  import opened DeviceRecord

  // ---------------------------------------------------------------------
  // SSDP constants and the M-SEARCH datagram

  const MulticastV4 := "239.255.255.250:1900"
  const MulticastV6 := "[ff02::c]:1900"

  /** Everything of the M-SEARCH datagram up to the HOST value. */
  const SearchHead := "M-SEARCH * HTTP/1.1\r\nHOST: "
  /** Everything of the M-SEARCH datagram after the HOST value. */
  const SearchTail := "\r\nMAN: \"ssdp:discover\"\r\nMX: 1\r\nST: ssdp:all\r\n\r\n"

  /** The M-SEARCH request (UPnP Device Architecture 1.1, section 1.3.2) with the given HOST. */
  function SearchMessage(host: string): string
  {
    SearchHead + host + SearchTail
  }

  /** The HOST value of an M-SEARCH request, read back from its text. */
  function SearchHost(msg: string): Option<string>
  {
    Between(msg, SearchHead, SearchTail)
  }

  /** The HOST written into an M-SEARCH request is the one read back. */
  lemma SearchHostRoundTrip(host: string)
    ensures SearchHost(SearchMessage(host)) == Some(host)
  {
    BetweenFramed(SearchHead, host, SearchTail);
  }

  /** Devices not advertised for longer than five minutes are swept. */
  const DeviceTimeout: Time := 5 * 60 * 1_000_000_000

  // ---------------------------------------------------------------------
  // Advertisements

  /**
   * HTTP headers as `http.Header` holds them: canonical names ("Usn",
   * "Location", "Server") mapped to their values in arrival order.
   */
  type Header = map<string, seq<string>>

  /** `http.Header.Get`: the first value of a canonical name, or "". */
  function HeaderGet(h: Header, name: string): (v: string)
    ensures name !in h || h[name] == [] ==> v == ""
    ensures name in h && h[name] != [] ==> v == h[name][0]
  {
    if name in h && h[name] != [] then h[name][0] else ""
  }

  /**
   * One datagram as the two parsers see it: the headers `http.ReadRequest`
   * yields (a NOTIFY), and those `http.ReadResponse` yields (a search reply),
   * each absent when that parser rejects the bytes.
   */
  datatype Packet = Packet(asRequest: Option<Header>, asResponse: Option<Header>)

  /** The headers `processPacket` hands on: request framing is tried first, then response framing. */
  function PacketHeader(p: Packet): (h: Option<Header>)
    ensures h.Some? <==> p.asRequest.Some? || p.asResponse.Some?
    ensures p.asRequest.Some? ==> h == p.asRequest
  {
    if p.asRequest.Some? then p.asRequest else p.asResponse
  }

  /**
   * The identity kept for a USN: the text before the first "::", or the
   * whole USN when it holds none.
   */
  function ExtractUuid(usn: string): (uuid: string)
    ensures uuid <= usn
    ensures forall i :: 0 <= i < |uuid| ==> !OccursAt(usn, "::", i)
    ensures uuid == usn || OccursAt(usn, "::", |uuid|)
  {
    SplitFirst(usn, "::")
  }

  /** No "::" starts inside the uuid part of `uuid::service`. */
  lemma NoSeparatorInUuid(uuid: string, service: string, i: int)
    requires forall j :: !OccursAt(uuid, "::", j)
    requires uuid == [] || uuid[|uuid| - 1] != ':'
    requires 0 <= i < |uuid|
    ensures !OccursAt(uuid + "::" + service, "::", i)
  {
    var usn := uuid + "::" + service;
    if i + 1 < |uuid| {
      assert usn[i..i + 2] == uuid[i..i + 2];
      assert !OccursAt(uuid, "::", i);
    } else {
      assert usn[i] == uuid[i];
      assert usn[i..i + 2][0] == usn[i];
    }
  }

  /** A USN of the usual form `uuid:<id>::<service>` yields `uuid:<id>`. */
  lemma ExtractUuidOfServiceUsn(uuid: string, service: string)
    requires !Contains(uuid, "::") && (uuid == [] || uuid[|uuid| - 1] != ':')
    ensures ExtractUuid(uuid + "::" + service) == uuid
  {
    var usn := uuid + "::" + service;
    assert usn[|uuid|..|uuid| + 2] == "::";
    forall i | 0 <= i < |uuid|
      ensures !OccursAt(usn, "::", i)
    {
      NoSeparatorInUuid(uuid, service, i);
    }
    assert usn[..|uuid|] == uuid;
    SplitFirstUnique(usn, "::", uuid);
  }

  /** A USN without "::" is kept whole. */
  lemma ExtractUuidOfBareUsn(usn: string)
    requires !Contains(usn, "::")
    ensures ExtractUuid(usn) == usn
  {
  }

  /** What an advertisement asks the registry to do about a device not yet known. */
  datatype Resolution = Resolution(uuid: string, location: string, server: string)

  /**
   * The candidate a set of advertisement headers names, or nothing when its
   * USN or Location is empty.
   */
  function Candidate(h: Header): (c: Option<Resolution>)
    ensures c.None? <==> HeaderGet(h, "Usn") == "" || HeaderGet(h, "Location") == ""
    ensures c.Some? ==>
      c.value == Resolution(ExtractUuid(HeaderGet(h, "Usn")), HeaderGet(h, "Location"), HeaderGet(h, "Server"))
  {
    var usn := HeaderGet(h, "Usn");
    var location := HeaderGet(h, "Location");
    if usn == "" || location == "" then None
    else Some(Resolution(ExtractUuid(usn), location, HeaderGet(h, "Server")))
  }

  // ---------------------------------------------------------------------
  // Description resolution

  /** One entry of a description's `serviceList`. */
  datatype Service = Service(serviceType: string, controlURL: string)

  /** The decoded part of a UPnP device description. */
  datatype Description = Description(friendlyName: string, services: seq<Service>)

  predicate IsAVTransport(svc: Service)
  {
    Contains(svc.serviceType, "AVTransport")
  }

  /** The index of the first AVTransport service, if there is one. */
  function FirstAVTransport(services: seq<Service>): (k: Option<nat>)
    ensures k.Some? ==> k.value < |services| && IsAVTransport(services[k.value])
    ensures k.Some? ==> forall j :: 0 <= j < k.value ==> !IsAVTransport(services[j])
    ensures k.None? ==> forall j :: 0 <= j < |services| ==> !IsAVTransport(services[j])
  {
    if |services| == 0 then None
    else if IsAVTransport(services[0]) then Some(0)
    else match FirstAVTransport(services[1..])
      case None => None
      case Some(k) => Some(k + 1)
  }

  /** The control URL the resolver takes: that of the first AVTransport service, or "". */
  function SelectedControlURL(services: seq<Service>): string
  {
    match FirstAVTransport(services)
    case None => ""
    case Some(k) => services[k].controlURL
  }

  /** The loop of `fetchDescription` that picks the control URL and stops at the first match. */
  method FindControlURL(services: seq<Service>) returns (controlURL: string)
    ensures controlURL == SelectedControlURL(services)
  {
    controlURL := "";
    var i := 0;
    while i < |services|
      invariant 0 <= i <= |services|
      invariant controlURL == ""
      invariant forall j :: 0 <= j < i ==> !IsAVTransport(services[j])
    {
      if Contains(services[i].serviceType, "AVTransport") {
        controlURL := services[i].controlURL;
        return;
      }
      i := i + 1;
    }
  }

  /**
   * Control URL normalisation: a URL starting with "http" is kept; one
   * starting with "/" is put after the Location's scheme and host; any
   * other is put after the Location cut at its last '/'.
   */
  function NormalizeControlURL(controlURL: string, location: string): (r: string)
    ensures |r| >= |controlURL| && r[|r| - |controlURL|..] == controlURL
    ensures "http" <= controlURL ==> r == controlURL
  {
    if "http" <= controlURL then
      controlURL
    else if "/" <= controlURL then
      var (scheme, host) := SchemeAndHost(location);
      scheme + "://" + RemoveEmptyPort(host) + controlURL
    else
      var slash := LastIndex(location, '/');
      var base := if slash != -1 then location[..slash] else location;
      base + "/" + controlURL
  }

  /**
   * An absolute-path control URL lands on the Location's scheme and host;
   * an empty port (a host ending in ':') is dropped on the way.
   */
  lemma NormalizeAbsolutePath(scheme: string, host: string, path: string, controlURL: string)
    requires IsLowerScheme(scheme) && IsHost(host) && IsPathPart(path)
    requires "/" <= controlURL
    ensures host == [] || host[|host| - 1] != ':' ==>
      NormalizeControlURL(controlURL, scheme + "://" + host + path) == scheme + "://" + host + controlURL
    ensures host != [] && host[|host| - 1] == ':' ==>
      NormalizeControlURL(controlURL, scheme + "://" + host + path) == scheme + "://" + host[..|host| - 1] + controlURL
  {
    ParsesComposedUrl(scheme, host, path);
    RemoveEmptyPortTrims(host);
  }

  /** A relative control URL replaces the last path segment of the Location. */
  lemma NormalizeRelative(dir: string, file: string, controlURL: string)
    requires '/' !in file
    requires !("http" <= controlURL) && !("/" <= controlURL)
    ensures NormalizeControlURL(controlURL, dir + "/" + file) == dir + "/" + controlURL
  {
    var location := dir + "/" + file;
    var slash := LastIndex(location, '/');
    assert location[|dir|] == '/';
    assert slash == |dir|;
    assert location[..slash] == dir;
  }

  /** `ctrl` against `http://10.0.0.5:80/dir/desc.xml` gives `http://10.0.0.5:80/dir/ctrl`. */
  lemma NormalizeRelativeExample(location: string)
    requires location == "http://10.0.0.5:80/dir/desc.xml"
    ensures NormalizeControlURL("ctrl", location) == "http://10.0.0.5:80/dir/ctrl"
  {
    assert "http://10.0.0.5:80/dir" + "/" + "desc.xml" == location;
    assert forall i | 0 <= i < |"desc.xml"| :: "desc.xml"[i] != '/';
    assert "ctrl"[0] == 'c';
    NormalizeRelative("http://10.0.0.5:80/dir", "desc.xml", "ctrl");
    assert "http://10.0.0.5:80/dir" + "/" + "ctrl" == "http://10.0.0.5:80/dir/ctrl";
  }

  /** A Location that `http.Get` can fetch: one with the "http" or "https" scheme. */
  predicate IsHttpLocation(location: string)
  {
    "http:" <= location || "https:" <= location
  }

  /** The scheme parsed from an http(s) Location starts with "http". */
  lemma HttpLocationScheme(location: string)
    requires IsHttpLocation(location)
    ensures "http" <= SchemeAndHost(location).0
  {
    var scheme := if "http:" <= location then "http" else "https";
    var n := |scheme|;
    assert location == scheme + ":" + location[n + 1..] by {
      assert location[..n + 1] == scheme + ":";
    }
    assert IsLowerScheme(scheme);
    SchemeOfSchemePrefix(scheme, location[n + 1..]);
  }

  /** Against an http(s) Location every control URL becomes absolute: the registry never stores a relative one. */
  lemma NormalizedIsAbsolute(controlURL: string, location: string)
    requires IsHttpLocation(location)
    ensures "http" <= NormalizeControlURL(controlURL, location)
  {
    if !("http" <= controlURL) {
      if "/" <= controlURL {
        HttpLocationScheme(location);
      } else {
        var slash := LastIndex(location, '/');
        assert "http" <= location;
        assert slash == -1 || slash >= 4 by {
          assert location[0] == 'h' && location[1] == 't' && location[2] == 't' && location[3] == 'p';
        }
        assert location[..4] == "http";
      }
    }
  }

  /** Normalising twice changes nothing for an http(s) Location. */
  lemma NormalizeIdempotent(controlURL: string, location: string)
    requires IsHttpLocation(location)
    ensures NormalizeControlURL(NormalizeControlURL(controlURL, location), location)
         == NormalizeControlURL(controlURL, location)
  {
    NormalizedIsAbsolute(controlURL, location);
  }

  /**
   * The device `fetchDescription` builds once the description is decoded,
   * or nothing when it names no AVTransport service with a control URL.
   */
  function ResolvedDevice(res: Resolution, desc: Description, now: Time): (d: Option<Device>)
    ensures d.None? <==> SelectedControlURL(desc.services) == ""
    ensures d.Some? ==> (d.value.usn == res.uuid && d.value.location == res.location
                     && d.value.server == res.server && d.value.friendlyName == desc.friendlyName
                     && d.value.lastSeen == now && d.value.controlURL != ""
                     && d.value.controlURL == NormalizeControlURL(SelectedControlURL(desc.services), res.location))
  {
    var controlURL := SelectedControlURL(desc.services);
    if controlURL == "" then None
    else Some(Device(res.uuid, res.location, res.server, desc.friendlyName, now,
                     NormalizeControlURL(controlURL, res.location)))
  }

  /** A description without any AVTransport service never yields a device. */
  lemma NoAVTransportNoDevice(res: Resolution, desc: Description, now: Time)
    requires forall j :: 0 <= j < |desc.services| ==> !IsAVTransport(desc.services[j])
    ensures ResolvedDevice(res, desc, now) == None
  {
    assert FirstAVTransport(desc.services) == None;
  }

  /** The first AVTransport service decides, even when a later one has a control URL. */
  lemma FirstAVTransportDecides(res: Resolution, desc: Description, now: Time, k: nat)
    requires k < |desc.services| && IsAVTransport(desc.services[k])
    requires forall j :: 0 <= j < k ==> !IsAVTransport(desc.services[j])
    ensures SelectedControlURL(desc.services) == desc.services[k].controlURL
  {
    var f := FirstAVTransport(desc.services);
    assert f.Some?;
    assert f.value == k;
  }

  /** A resolved device of an http(s) Location holds an absolute control URL. */
  lemma ResolvedControlURLAbsolute(res: Resolution, desc: Description, now: Time)
    requires IsHttpLocation(res.location)
    requires ResolvedDevice(res, desc, now).Some?
    ensures "http" <= ResolvedDevice(res, desc, now).value.controlURL
  {
    NormalizedIsAbsolute(SelectedControlURL(desc.services), res.location);
  }

  // ---------------------------------------------------------------------
  // The timeout sweep

  predicate Expired(d: Device, now: Time)
  {
    now - d.lastSeen > DeviceTimeout
  }

  /** The registry a sweep at `now` leaves: the entries not expired, unchanged. */
  function Survivors(devices: map<string, Device>, now: Time): (m: map<string, Device>)
    ensures forall u :: u in m <==> u in devices && !Expired(devices[u], now)
    ensures forall u :: u in m ==> m[u] == devices[u]
  {
    map u | u in devices && !Expired(devices[u], now) :: devices[u]
  }

  /** A device last seen exactly five minutes ago survives; one a nanosecond older does not. */
  lemma SweepBoundary(devices: map<string, Device>, u: string, now: Time)
    requires u in devices
    ensures devices[u].lastSeen == now - DeviceTimeout ==> u in Survivors(devices, now)
    ensures devices[u].lastSeen == now - DeviceTimeout - 1 ==> u !in Survivors(devices, now)
  {
  }

  /** Sweeping twice at the same time removes nothing more. */
  lemma SweepIdempotent(devices: map<string, Device>, now: Time)
    ensures Survivors(Survivors(devices, now), now) == Survivors(devices, now)
  {
  }

  /** A later sweep keeps no device an earlier one removed. */
  lemma SweepMonotone(devices: map<string, Device>, t1: Time, t2: Time)
    requires t1 <= t2
    ensures Survivors(devices, t2).Keys <= Survivors(devices, t1).Keys
  {
  }

  // ---------------------------------------------------------------------
  // Interfaces, bind selection and the search plan

  /** An IP address as the program sees it: its `String()` form, whether `To4()` is non-nil, and `IsLoopback()`. */
  datatype Ip = Ip(text: string, is4: bool, loopback: bool)

  /** What `Interface.Addrs` lists: an `*net.IPNet`, or an address of another kind. */
  datatype Addr = IpNet(ip: Ip) | OtherAddr

  /** A network interface: its flags and the result of asking for its addresses. */
  datatype Interface = Interface(name: string, up: bool, multicast: bool, addrs: Result<seq<Addr>, string>)

  /** What `net.ParseIP` makes of the bind setting. */
  datatype ParsedIp = NotAnIp | Parsed(ip: Ip)

  /** The bind setting that means every interface. */
  predicate BindsAll(bindIP: string)
  {
    bindIP == "" || bindIP == "0.0.0.0"
  }

  /** The IPs of the non-loopback `*net.IPNet` addresses, in order. */
  function NonLoopbackIps(addrs: seq<Addr>): seq<Ip>
  {
    if |addrs| == 0 then []
    else (if addrs[0].IpNet? && !addrs[0].ip.loopback then [addrs[0].ip] else [])
         + NonLoopbackIps(addrs[1..])
  }

  predicate Eligible(iface: Interface)
  {
    iface.up && iface.multicast && iface.addrs.Ok?
  }

  /** The search sources across interfaces, in order: those of up, multicast interfaces whose addresses could be read. */
  function EligibleIps(ifaces: seq<Interface>): seq<Ip>
  {
    if |ifaces| == 0 then []
    else (if Eligible(ifaces[0]) then NonLoopbackIps(ifaces[0].addrs.value) else [])
         + EligibleIps(ifaces[1..])
  }

  lemma {:induction false} NonLoopbackIpsMembers(addrs: seq<Addr>, ip: Ip)
    ensures ip in NonLoopbackIps(addrs) <==> !ip.loopback && IpNet(ip) in addrs
  {
    if |addrs| > 0 {
      NonLoopbackIpsMembers(addrs[1..], ip);
      assert addrs == [addrs[0]] + addrs[1..];
    }
  }

  /**
   * An IP is a search source exactly when some up, multicast interface
   * whose addresses could be read lists it as a non-loopback IPNet.
   */
  lemma {:induction false} EligibleIpsMembers(ifaces: seq<Interface>, ip: Ip)
    ensures ip in EligibleIps(ifaces) <==>
      !ip.loopback && exists i :: 0 <= i < |ifaces| && Eligible(ifaces[i]) && IpNet(ip) in ifaces[i].addrs.value
  {
    if |ifaces| > 0 {
      EligibleIpsMembers(ifaces[1..], ip);
      if Eligible(ifaces[0]) {
        NonLoopbackIpsMembers(ifaces[0].addrs.value, ip);
      }
      if exists i :: 0 <= i < |ifaces| && Eligible(ifaces[i]) && IpNet(ip) in ifaces[i].addrs.value {
        var i :| 0 <= i < |ifaces| && Eligible(ifaces[i]) && IpNet(ip) in ifaces[i].addrs.value;
        if i > 0 {
          assert ifaces[1..][i - 1] == ifaces[i];
        }
      }
      if exists i :: 0 <= i < |ifaces[1..]| && Eligible(ifaces[1..][i]) && IpNet(ip) in ifaces[1..][i].addrs.value {
        var i :| 0 <= i < |ifaces[1..]| && Eligible(ifaces[1..][i]) && IpNet(ip) in ifaces[1..][i].addrs.value;
        assert ifaces[i + 1] == ifaces[1..][i];
      }
    }
  }

  /** `getBindIPs`: the one parsed bind IP, an error for an unparseable one, or every eligible IP. */
  function BindIPs(bindIP: string, parsed: ParsedIp, ifaces: Result<seq<Interface>, string>): Result<seq<Ip>, string>
  {
    if !BindsAll(bindIP) then
      match parsed
      case NotAnIp => Err("invalid bind IP: " + bindIP)
      case Parsed(ip) => Ok([ip])
    else
      match ifaces
      case Err(e) => Err(e)
      case Ok(list) => Ok(EligibleIps(list))
  }

  /** Which multicast families to listen on. */
  datatype Families = Families(v4: bool, v6: bool)

  /** `listenMulticast`: both families, unless the bind setting parses as an IP, which keeps only its family. */
  function ListenFamilies(bindIP: string, parsed: ParsedIp): Families
  {
    if !BindsAll(bindIP) && parsed.Parsed? then
      if parsed.ip.is4 then Families(true, false) else Families(false, true)
    else
      Families(true, true)
  }

  /** An unparseable bind setting sends no search yet still starts both listeners. */
  lemma InvalidBindKeepsListening(bindIP: string, ifaces: Result<seq<Interface>, string>)
    requires !BindsAll(bindIP)
    ensures BindIPs(bindIP, NotAnIp, ifaces).Err?
    ensures ListenFamilies(bindIP, NotAnIp) == Families(true, true)
  {
  }

  /** Every search goes out on a family that is also listened on. */
  lemma SearchFamiliesAreListened(bindIP: string, parsed: ParsedIp, ifaces: Result<seq<Interface>, string>)
    requires BindIPs(bindIP, parsed, ifaces).Ok?
    ensures forall ip :: ip in BindIPs(bindIP, parsed, ifaces).value ==>
      if ip.is4 then ListenFamilies(bindIP, parsed).v4 else ListenFamilies(bindIP, parsed).v6
  {
  }

  /** The first interface listing an IPNet whose text is `text`. */
  function InterfaceWith(ifaces: seq<Interface>, text: string): (k: Option<nat>)
    ensures k.Some? ==> k.value < |ifaces| && HasAddress(ifaces[k.value], text)
    ensures k.Some? ==> forall j :: 0 <= j < k.value ==> !HasAddress(ifaces[j], text)
    ensures k.None? ==> forall j :: 0 <= j < |ifaces| ==> !HasAddress(ifaces[j], text)
  {
    if |ifaces| == 0 then None
    else if HasAddress(ifaces[0], text) then Some(0)
    else match InterfaceWith(ifaces[1..], text)
      case None => None
      case Some(k) => Some(k + 1)
  }

  /** The interface's addresses could be read and one is an IPNet printed as `text`. */
  predicate HasAddress(iface: Interface, text: string)
  {
    iface.addrs.Ok? && exists a :: a in iface.addrs.value && a.IpNet? && a.ip.text == text
  }

  /** `getInterface`: none for every interface, else the first interface holding the bind IP, else an error. */
  function BindInterface(bindIP: string, ifaces: Result<seq<Interface>, string>): Result<Option<Interface>, string>
  {
    if BindsAll(bindIP) then Ok(None)
    else match ifaces
      case Err(e) => Err(e)
      case Ok(list) =>
        match InterfaceWith(list, bindIP)
        case Some(k) => Ok(Some(list[k]))
        case None => Err("interface not found for IP " + bindIP)
  }

  /** A multicast socket a listener opens: network, group and the interface it joins on (none for the default). */
  datatype Listener = Listener(network: string, group: string, iface: Option<Interface>)

  /** One M-SEARCH datagram: the source IP, the network and group it goes to, and its text. */
  datatype Datagram = Datagram(source: Ip, network: string, group: string, payload: string)

  /** The datagram `sendSearch` writes from `ip`: to its family's group, with that group as HOST. */
  function SearchFrom(ip: Ip): Datagram
  {
    var group := if ip.is4 then MulticastV4 else MulticastV6;
    Datagram(ip, if ip.is4 then "udp4" else "udp6", group, SearchMessage(group))
  }

  /** The datagram from `ip` goes to its family's group and names that group as HOST. */
  lemma SearchFromGroup(ip: Ip)
    ensures var d := SearchFrom(ip);
      && d.source == ip && d.network == (if ip.is4 then "udp4" else "udp6")
      && d.group == (if ip.is4 then MulticastV4 else MulticastV6)
      && SearchHost(d.payload) == Some(d.group)
  {
    SearchHostRoundTrip(SearchFrom(ip).group);
  }

  /** The datagrams sent from `ips`, skipping those whose send socket cannot be opened. */
  function SearchPlan(ips: seq<Ip>, canOpen: Ip -> bool): seq<Datagram>
  {
    if |ips| == 0 then []
    else (if canOpen(ips[0]) then [SearchFrom(ips[0])] else []) + SearchPlan(ips[1..], canOpen)
  }

  /** One step of the plan: the datagram from the next IP, if its socket opens, then the rest. */
  lemma SearchPlanStep(ips: seq<Ip>, i: nat, canOpen: Ip -> bool)
    requires i < |ips|
    ensures SearchPlan(ips[i..], canOpen)
         == (if canOpen(ips[i]) then [SearchFrom(ips[i])] else []) + SearchPlan(ips[i + 1..], canOpen)
  {
    assert ips[i..][1..] == ips[i + 1..];
  }

  /** Each planned datagram leaves an IP that could open its socket, and carries its own group as HOST. */
  lemma {:induction false} SearchPlanDatagrams(ips: seq<Ip>, canOpen: Ip -> bool)
    ensures |SearchPlan(ips, canOpen)| <= |ips|
    ensures forall d :: d in SearchPlan(ips, canOpen) ==>
      d.source in ips && canOpen(d.source) && d == SearchFrom(d.source) && SearchHost(d.payload) == Some(d.group)
  {
    if |ips| > 0 {
      SearchPlanDatagrams(ips[1..], canOpen);
      SearchFromGroup(ips[0]);
    }
  }

  // ---------------------------------------------------------------------
  // The registry

  /**
   * What `handleHeaders` does to the registry `before`, leaving `after`
   * and handing on `pending`: headers naming no candidate change nothing;
   * a registered uuid has its `lastSeen` set to `now`; an unregistered one
   * is handed on.
   */
  predicate Handled(h: Header, now: Time, before: map<string, Device>, after: map<string, Device>,
                    pending: Option<Resolution>)
  {
    match Candidate(h)
    case None => after == before && pending == None
    case Some(c) =>
      if c.uuid in before then
        pending == None && after == before[c.uuid := before[c.uuid].(lastSeen := now)]
      else
        after == before && pending == Some(c)
  }

  /**
   * Handling headers never adds or removes a registry entry, changes
   * nothing of an entry but the `lastSeen` of the advertised uuid, and
   * hands on a candidate only when its uuid is not registered.
   */
  lemma HandledKeepsEntries(h: Header, now: Time, before: map<string, Device>, after: map<string, Device>,
                            pending: Option<Resolution>)
    requires Handled(h, now, before, after, pending)
    ensures after.Keys == before.Keys
    ensures forall u | u in after :: after[u] == before[u].(lastSeen := after[u].lastSeen)
    ensures forall u | u in after && after[u] != before[u] ::
      Candidate(h).Some? && u == Candidate(h).value.uuid && after[u].lastSeen == now
    ensures pending.Some? <==> Candidate(h).Some? && Candidate(h).value.uuid !in before
    ensures pending.Some? ==> pending == Candidate(h) && after == before
  {
  }

  /** The discovery service and the registry of devices it owns, keyed by uuid. */
  class DiscoveryService {
    var devices: map<string, Device>
    const bindIP: string
    /** What `net.ParseIP(bindIP)` yields. */
    const bindParsed: ParsedIp
    /** The search period; its scheduling is not modelled. */
    const interval: Time

    /** Each record is keyed by its own uuid and holds a control URL. */
    ghost predicate Valid()
      reads this
    {
      forall u | u in devices :: devices[u].usn == u && devices[u].controlURL != ""
    }

    constructor (bindIP: string, bindParsed: ParsedIp, interval: Time)
      ensures Valid() && devices == map[]
      ensures this.bindIP == bindIP && this.bindParsed == bindParsed && this.interval == interval
    {
      this.devices := map[];
      this.bindIP := bindIP;
      this.bindParsed := bindParsed;
      this.interval := interval;
    }

    /**
     * `handleHeaders`: a known uuid only has its `lastSeen` refreshed; an
     * unknown one is returned for resolution; headers without USN or
     * Location are ignored.
     */
    method HandleHeaders(h: Header, now: Time) returns (pending: Option<Resolution>)
      requires Valid()
      modifies this
      ensures Valid()
      ensures Handled(h, now, old(devices), devices, pending)
    {
      var usn := HeaderGet(h, "Usn");
      var location := HeaderGet(h, "Location");
      var server := HeaderGet(h, "Server");
      if usn == "" || location == "" {
        return None;
      }
      var uuid := ExtractUuid(usn);
      if uuid in devices {
        devices := devices[uuid := devices[uuid].(lastSeen := now)];
        return None;
      }
      pending := Some(Resolution(uuid, location, server));
    }

    /**
     * `processPacket`: the headers of whichever framing parses, request
     * first, handled as by `handleHeaders`; a packet neither accepts
     * changes nothing.
     */
    method ProcessPacket(p: Packet, now: Time) returns (pending: Option<Resolution>)
      requires Valid()
      modifies this
      ensures Valid()
      ensures PacketHeader(p).None? ==> devices == old(devices) && pending == None
      ensures PacketHeader(p).Some? ==> Handled(PacketHeader(p).value, now, old(devices), devices, pending)
    {
      if p.asRequest.Some? {
        pending := HandleHeaders(p.asRequest.value, now);
      } else if p.asResponse.Some? {
        pending := HandleHeaders(p.asResponse.value, now);
      } else {
        pending := None;
      }
    }

    /**
     * The part of `fetchDescription` after the description is decoded:
     * insert the resolved device unless its uuid is already registered,
     * so the first resolution wins.
     */
    method CompleteResolution(res: Resolution, desc: Description, now: Time) returns (added: bool)
      requires Valid()
      modifies this
      ensures Valid()
      ensures added <==> ResolvedDevice(res, desc, now).Some? && res.uuid !in old(devices)
      ensures added ==> devices == old(devices)[res.uuid := ResolvedDevice(res, desc, now).value]
      ensures !added ==> devices == old(devices)
    {
      var controlURL := FindControlURL(desc.services);
      if controlURL == "" {
        return false;
      }
      controlURL := NormalizeControlURL(controlURL, res.location);
      var dev := Device(res.uuid, res.location, res.server, desc.friendlyName, now, controlURL);
      if res.uuid !in devices {
        devices := devices[res.uuid := dev];
        added := true;
      } else {
        added := false;
      }
    }

    /** One pass of `cleanupLoop`: delete, while ranging over the registry, every device not seen for over five minutes. */
    method Sweep(now: Time)
      requires Valid()
      modifies this
      ensures Valid()
      ensures devices == Survivors(old(devices), now)
    {
      var pending := devices.Keys;
      while pending != {}
        invariant pending <= old(devices).Keys
        invariant devices == map u | u in old(devices) && (u in pending || !Expired(old(devices)[u], now)) :: old(devices)[u]
        decreases pending
      {
        var u :| u in pending;
        if now - devices[u].lastSeen > DeviceTimeout {
          devices := devices - {u};
        }
        pending := pending - {u};
      }
    }

    /** `GetDevices`: every registered device exactly once, in no particular order. */
    method GetDevices() returns (list: seq<Device>)
      requires Valid()
      ensures |list| == |devices|
      ensures forall i :: 0 <= i < |list| ==> list[i].usn in devices && devices[list[i].usn] == list[i]
      ensures forall u :: u in devices ==> devices[u] in list
      ensures forall i, j :: 0 <= i < j < |list| ==> list[i].usn != list[j].usn
    {
      list := [];
      var pending := devices.Keys;
      while pending != {}
        invariant pending <= devices.Keys
        invariant |list| + |pending| == |devices|
        invariant forall i :: 0 <= i < |list| ==> list[i].usn in devices && list[i].usn !in pending && devices[list[i].usn] == list[i]
        invariant forall u :: u in devices && u !in pending ==> devices[u] in list
        invariant forall i, j :: 0 <= i < j < |list| ==> list[i].usn != list[j].usn
        decreases pending
      {
        var u :| u in pending;
        list := list + [devices[u]];
        pending := pending - {u};
      }
    }

    /** `GetDevice`: the device registered under `usn`, if any. */
    function GetDevice(usn: string): (d: Option<Device>)
      requires Valid()
      reads this
      ensures d.Some? <==> usn in devices
      ensures d.Some? ==> d.value == devices[usn] && d.value.usn == usn && d.value.controlURL != ""
    {
      if usn in devices then Some(devices[usn]) else None
    }

    /** `getBindIPs`, over the interface list `net.Interfaces` returned. */
    method GetBindIPs(ifaces: Result<seq<Interface>, string>) returns (r: Result<seq<Ip>, string>)
      ensures r == BindIPs(bindIP, bindParsed, ifaces)
    {
      if bindIP != "0.0.0.0" && bindIP != "" {
        if bindParsed.NotAnIp? {
          return Err("invalid bind IP: " + bindIP);
        }
        return Ok([bindParsed.ip]);
      }
      if ifaces.Err? {
        return Err(ifaces.error);
      }
      var list := ifaces.value;
      var ips: seq<Ip> := [];
      var i := 0;
      while i < |list|
        invariant 0 <= i <= |list|
        invariant ips + EligibleIps(list[i..]) == EligibleIps(list)
      {
        var iface := list[i];
        assert list[i..][1..] == list[i + 1..];
        assert EligibleIps(list[i..])
            == (if Eligible(iface) then NonLoopbackIps(iface.addrs.value) else []) + EligibleIps(list[i + 1..]);
        if iface.up && iface.multicast && iface.addrs.Ok? {
          var addrs := iface.addrs.value;
          var j := 0;
          ghost var before := ips;
          while j < |addrs|
            invariant 0 <= j <= |addrs|
            invariant ips + NonLoopbackIps(addrs[j..]) == before + NonLoopbackIps(addrs)
          {
            assert addrs[j..] == [addrs[j]] + addrs[j + 1..];
            if addrs[j].IpNet? && !addrs[j].ip.loopback {
              ips := ips + [addrs[j].ip];
            }
            j := j + 1;
          }
          assert addrs[j..] == [];
          assert ips == before + NonLoopbackIps(addrs);
        }
        i := i + 1;
      }
      assert list[i..] == [];
      assert ips + [] == ips;
      return Ok(ips);
    }

    /** `getInterface`, over the interface list `net.Interfaces` returned. */
    method GetInterface(ifaces: Result<seq<Interface>, string>) returns (r: Result<Option<Interface>, string>)
      ensures r == BindInterface(bindIP, ifaces)
    {
      if bindIP == "0.0.0.0" || bindIP == "" {
        return Ok(None);
      }
      if ifaces.Err? {
        return Err(ifaces.error);
      }
      var list := ifaces.value;
      var i := 0;
      while i < |list|
        invariant 0 <= i <= |list|
        invariant forall k :: 0 <= k < i ==> !HasAddress(list[k], bindIP)
      {
        if list[i].addrs.Ok? {
          var addrs := list[i].addrs.value;
          var j := 0;
          while j < |addrs|
            invariant 0 <= j <= |addrs|
            invariant forall m :: 0 <= m < j ==> !(addrs[m].IpNet? && addrs[m].ip.text == bindIP)
          {
            if addrs[j].IpNet? && addrs[j].ip.text == bindIP {
              assert HasAddress(list[i], bindIP);
              assert InterfaceWith(list, bindIP) == Some(i);
              return Ok(Some(list[i]));
            }
            j := j + 1;
          }
        }
        i := i + 1;
      }
      return Err("interface not found for IP " + bindIP);
    }

    /**
     * `listenMulticast` and the set-up of `listenMulticastProto`: one
     * listener per chosen family, joined on the bind interface, or on the
     * default one when none is found (the lookup's error is ignored).
     */
    method ListenMulticast(ifaces: Result<seq<Interface>, string>) returns (listeners: seq<Listener>)
      ensures var f := ListenFamilies(bindIP, bindParsed);
        var joined := if BindInterface(bindIP, ifaces).Ok? then BindInterface(bindIP, ifaces).value else None;
        listeners == (if f.v4 then [Listener("udp4", MulticastV4, joined)] else [])
                   + (if f.v6 then [Listener("udp6", MulticastV6, joined)] else [])
    {
      var listenV4, listenV6 := true, true;
      if bindIP != "0.0.0.0" && bindIP != "" {
        if bindParsed.Parsed? {
          if bindParsed.ip.is4 {
            listenV6 := false;
          } else {
            listenV4 := false;
          }
        }
      }
      listeners := [];
      if listenV4 {
        var found := GetInterface(ifaces);
        listeners := listeners + [Listener("udp4", MulticastV4, if found.Ok? then found.value else None)];
      }
      if listenV6 {
        var found := GetInterface(ifaces);
        listeners := listeners + [Listener("udp6", MulticastV6, if found.Ok? then found.value else None)];
      }
    }

    /** `sendSearch`: one M-SEARCH per bind IP whose socket opens, none when the bind IPs cannot be had. */
    method SendSearch(ifaces: Result<seq<Interface>, string>, canOpen: Ip -> bool) returns (sent: seq<Datagram>)
      ensures BindIPs(bindIP, bindParsed, ifaces).Err? ==> sent == []
      ensures BindIPs(bindIP, bindParsed, ifaces).Ok? ==> sent == SearchPlan(BindIPs(bindIP, bindParsed, ifaces).value, canOpen)
    {
      var ips := GetBindIPs(ifaces);
      if ips.Err? {
        return [];
      }
      var list := ips.value;
      sent := [];
      var i := 0;
      while i < |list|
        invariant 0 <= i <= |list|
        invariant sent + SearchPlan(list[i..], canOpen) == SearchPlan(list, canOpen)
      {
        var ip := list[i];
        SearchPlanStep(list, i, canOpen);
        var group := if ip.is4 then MulticastV4 else MulticastV6;
        var network := if ip.is4 then "udp4" else "udp6";
        if canOpen(ip) {
          var d := Datagram(ip, network, group, SearchMessage(group));
          assert d == SearchFrom(ip);
          assert sent + [d] + SearchPlan(list[i + 1..], canOpen) == sent + ([d] + SearchPlan(list[i + 1..], canOpen));
          sent := sent + [d];
        } else {
          assert [] + SearchPlan(list[i + 1..], canOpen) == SearchPlan(list[i + 1..], canOpen);
        }
        i := i + 1;
      }
      assert list[i..] == [];
    }
  }
}
