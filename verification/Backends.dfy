/** The kernel and the userspace backend carry the same configuration. */
module Backends {
  import opened Core
  import opened WireGuard
  import opened Text
  import opened Inet
  import opened Address
  import Uapi
  import UapiRoundTrip
  import opened NlTree
  import opened NlBuild
  import opened NlParse
  import opened NlRoundTrip
  import Reassembly
  import Mnl

  /** Every address is spelt the way `inet_ntop` spells it. */
  predicate CanonicalPeer(p: PeerConfig) {
    && (p.endpoint.Some? ==> ParseEndpoint(p.endpoint.value).Ok? && FormatEndpoint(ParseEndpoint(p.endpoint.value).value) == p.endpoint.value)
    && forall i :: 0 <= i < |p.allowedIPs| ==> NetIp(p.allowedIPs[i]).ip == p.allowedIPs[i].ip
  }

  predicate Canonical(c: Config) {
    forall i :: 0 <= i < |c.peers| ==> CanonicalPeer(c.peers[i])
  }

  lemma {:induction false} PeerAgrees(p: PeerConfig)
    requires EndpointOk(p)
    ensures NetPeer(p) == UapiRoundTrip.Reported(p) <==> CanonicalPeer(p)
  {
    hide ParseEndpoint, FormatEndpoint, PrintAddress, IpBytes;
    var a, b := NetIps(p.allowedIPs), p.allowedIPs;
    if CanonicalPeer(p) {
      forall i | 0 <= i < |b|
        ensures a[i] == b[i]
      {
        assert NetIp(b[i]).ip == b[i].ip;
      }
      assert a == b;
    }
    if a == b {
      forall i | 0 <= i < |b|
        ensures NetIp(b[i]).ip == b[i].ip
      {
        assert a[i] == NetIp(b[i]);
      }
    }
  }

  lemma {:induction false} PeersAgree(peers: seq<PeerConfig>)
    requires AllEndpointsOk(peers)
    ensures NetPeers(peers) == UapiRoundTrip.ReportedAll(peers) <==> forall i :: 0 <= i < |peers| ==> CanonicalPeer(peers[i])
  {
    hide EndpointOk, NetPeer, UapiRoundTrip.Reported, CanonicalPeer;
    var a, b := NetPeers(peers), UapiRoundTrip.ReportedAll(peers);
    forall i | 0 <= i < |peers|
      ensures a[i] == b[i] <==> CanonicalPeer(peers[i])
    {
      assert EndpointOk(peers[i]);
      PeerAgrees(peers[i]);
    }
    if forall i :: 0 <= i < |peers| ==> CanonicalPeer(peers[i]) {
      assert a == b;
    }
  }

  /** The two backends agree. For a configuration both can carry (one-line texts, allowed ips
      that `ParseCIDR` returns, no neighbouring equal keys, no wrapping nest), reading the netlink
      message and reading the userspace request give the same name, private key, port and mark
      always, and the same peers if and only if every address is in canonical spelling: the
      kernel path rewrites addresses, the userspace path copies them. */
  lemma {:induction false} BackendsAgree(f: u16, s: u32, other: string, name: string, c: Config, derive: Key -> Key)
    requires IsByteText(name) && IsIfName(name) && EndpointsOk(c.peers) && NestsFit(c) && UapiRoundTrip.Clean(c)
    requires forall i :: 0 < i < |c.peers| ==> c.peers[i - 1].publicKey != c.peers[i].publicKey
    ensures FitsLength(name, c) && MessageOk(SetMessage(f, s, name, c))
    ensures Uapi.SetRequest(c).Ok?
    ensures var kernel := Parsed(SetMessage(f, s, name, c), BlankDevice(other, false));
            var user := Uapi.GetResponse(name, Uapi.SetRequest(c).value, derive);
            && user.Ok?
            && kernel.name == user.value.name
            && kernel.privateKey == user.value.privateKey
            && kernel.listenPort == user.value.listenPort
            && kernel.firewallMark == user.value.firewallMark
            && (kernel.peers == user.value.peers <==> Canonical(c))
  {
    hide EndpointsOk, NestsFit, UapiRoundTrip.Clean, SetMessage, MessageOk, Parsed, Uapi.GetResponse, DeviceTree, AllEndpointsOk;
    hide NetPeers, UapiRoundTrip.ReportedAll, CanonicalPeer;
    Reassembly.NetlinkRoundTripExact(f, s, other, name, c);
    UapiRoundTrip.UapiRoundTrip(name, c, derive);
    PeersAgree(c.peers);
  }

  // ----- canonical texts stay on one line -----

  lemma {:induction false} NoLineFeed(s: string)
    requires AddressText(s)
    ensures '\n' !in s
  {
  }

  lemma {:induction false} PrintedEndpoint(sa: SockAddr)
    ensures '\n' !in FormatEndpoint(sa)
  {
    hide Ntop4, Ntop6, Dec;
    match sa
    case In4(a, port) =>
      Ntop4Text(a);
      NoLineFeed(Ntop4(a));
    case In6(a, port) =>
      Ntop6Text(a);
      NoLineFeed(Ntop6(a));
  }

  lemma {:induction false} PrintedAddress(aip: AllowedIP)
    ensures '\n' !in NetIp(aip).ip
  {
    hide Ntop4, Ntop6, IpBytes, AddressText;
    var raw := IpBytes(aip);
    if aip.family == AF_INET6 {
      Ntop6Text(raw[..16]);
      NoLineFeed(Ntop6(raw[..16]));
    } else {
      Ntop4Text(raw[..4]);
      NoLineFeed(Ntop4(raw[..4]));
    }
  }

  /** Canonical spelling is enough for the userspace round trip. */
  lemma {:induction false} CanonicalIsClean(c: Config)
    requires Canonical(c) && UapiRoundTrip.AllPeersCidr(c.peers)
    ensures UapiRoundTrip.Clean(c)
  {
    hide IsCidr, ParseEndpoint, FormatEndpoint, NetIp;
    var ps := UapiRoundTrip.ReportedAll(c.peers);
    forall i | 0 <= i < |ps|
      ensures UapiRoundTrip.CleanPeer(ps[i])
    {
      var p := c.peers[i];
      assert CanonicalPeer(p) && UapiRoundTrip.AllCidr(p.allowedIPs);
      if p.endpoint.Some? {
        PrintedEndpoint(ParseEndpoint(p.endpoint.value).value);
      }
      forall k | 0 <= k < |p.allowedIPs|
        ensures UapiRoundTrip.CleanIp(p.allowedIPs[k])
      {
        PrintedAddress(p.allowedIPs[k]);
      }
    }
  }
}
