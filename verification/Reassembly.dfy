/** Peers that the kernel splits over several entries and messages, put together again. */
module Reassembly {
  import opened Core
  import opened WireGuard
  import opened Mnl
  import opened NlTree
  import opened NlParse
  import opened NlRoundTrip
  import opened Address
  import opened NlBuild

  // ----- the reference: maximal runs of one key -----

  /** Number of leading entries that share the first entry's key. */
  function RunLength(es: seq<Peer>): (n: nat)
    requires es != []
    ensures 1 <= n <= |es|
    ensures forall i :: 0 <= i < n ==> es[i].publicKey == es[0].publicKey
    ensures n < |es| ==> es[n].publicKey != es[0].publicKey
  {
    if |es| > 1 && es[1].publicKey == es[0].publicKey then 1 + RunLength(es[1..]) else 1
  }

  /** All allowed ips, in order. */
  function AllIps(es: seq<Peer>): seq<AllowedIP> {
    if es == [] then [] else es[0].allowedIPs + AllIps(es[1..])
  }

  /** One peer per maximal run: the fields of its first entry, the allowed ips of all of it. */
  function Runs(es: seq<Peer>): seq<Peer>
    decreases |es|
  {
    if es == [] then []
    else
      var n := RunLength(es);
      [es[0].(allowedIPs := AllIps(es[..n]))] + Runs(es[n..])
  }

  predicate NoNeighbours(ps: seq<Peer>) {
    forall i :: 0 < i < |ps| ==> ps[i - 1].publicKey != ps[i].publicKey
  }

  lemma {:induction false} AllIpsAppend(a: seq<Peer>, b: seq<Peer>)
    ensures AllIps(a + b) == AllIps(a) + AllIps(b)
    decreases |a|
  {
    if a == [] {
      assert a + b == b;
    } else {
      assert (a + b)[1..] == a[1..] + b;
      AllIpsAppend(a[1..], b);
    }
  }

  // ----- the merging loop computes the runs -----

  lemma {:induction false} RunIs(es: seq<Peer>, n: nat)
    requires 1 <= n <= |es|
    requires forall i :: 0 <= i < n ==> es[i].publicKey == es[0].publicKey
    requires n < |es| ==> es[n].publicKey != es[0].publicKey
    ensures RunLength(es) == n
  {
  }

  lemma {:induction false} RunOfTwo(q: Peer, e: Peer, rest: seq<Peer>)
    requires q.publicKey == e.publicKey
    ensures RunLength([q, e] + rest) == RunLength([q] + rest) + 1
  {
    hide RunLength;
    var one, two := [q] + rest, [q, e] + rest;
    var n := RunLength(one);
    forall i | 0 <= i < n + 1
      ensures two[i].publicKey == two[0].publicKey
    {
      if i >= 2 {
        assert two[i] == one[i - 1];
      }
    }
    assert n < |one| ==> two[n + 1] == one[n];
    RunIs(two, n + 1);
  }

  lemma {:induction false} RunKey(q: Peer, r: Peer, rest: seq<Peer>)
    requires q.publicKey == r.publicKey
    ensures RunLength([q] + rest) == RunLength([r] + rest)
  {
    var one, two := [q] + rest, [r] + rest;
    assert forall i :: 1 <= i < |one| ==> one[i] == rest[i - 1] && two[i] == rest[i - 1];
    RunIs(one, RunLength(two));
  }

  /** Two neighbouring entries of one key may be merged before the runs are taken. */
  lemma {:induction false} MergeTwo(q: Peer, e: Peer, rest: seq<Peer>)
    requires q.publicKey == e.publicKey
    ensures Runs([q.(allowedIPs := q.allowedIPs + e.allowedIPs)] + rest) == Runs([q, e] + rest)
  {
    hide Runs, RunLength;
    var r := q.(allowedIPs := q.allowedIPs + e.allowedIPs);
    var one, two := [r] + rest, [q, e] + rest;
    var n := RunLength(one);
    RunOfTwo(q, e, rest);
    RunKey(q, r, rest);
    TwoIps(q, e, rest, n);
    assert one[n..] == rest[n - 1..] && two[n + 1..] == rest[n - 1..];
    RunsCut(one);
    RunsCut(two);
  }

  lemma {:induction false} TwoIps(q: Peer, e: Peer, rest: seq<Peer>, n: nat)
    requires 1 <= n <= |rest| + 1
    ensures AllIps(([q.(allowedIPs := q.allowedIPs + e.allowedIPs)] + rest)[..n]) == AllIps(([q, e] + rest)[..n + 1])
  {
    hide AllIps;
    var r := q.(allowedIPs := q.allowedIPs + e.allowedIPs);
    var tail := rest[..n - 1];
    assert ([r] + rest)[..n] == [r] + tail && ([q, e] + rest)[..n + 1] == [q] + ([e] + tail);
    HeadIps(r, tail);
    HeadIps(q, [e] + tail);
    HeadIps(e, tail);
  }

  lemma {:induction false} HeadIps(q: Peer, rest: seq<Peer>)
    ensures AllIps([q] + rest) == q.allowedIPs + AllIps(rest)
  {
    assert ([q] + rest)[1..] == rest;
  }

  lemma {:induction false} RunsCut(es: seq<Peer>)
    requires es != []
    ensures var n := RunLength(es);
            Runs(es) == [es[0].(allowedIPs := AllIps(es[..n]))] + Runs(es[n..])
  {
  }

  lemma {:induction false} SingleRun(q: Peer, rest: seq<Peer>)
    requires rest != [] ==> rest[0].publicKey != q.publicKey
    ensures Runs([q] + rest) == [q] + Runs(rest)
  {
    hide Runs;
    var es := [q] + rest;
    RunIs(es, 1);
    assert es[..1] == [q] && es[1..] == rest;
    HeadIps(q, []);
    assert [q] + [] == [q] && q.allowedIPs + AllIps([]) == q.allowedIPs;
    RunsCut(es);
  }

  lemma {:induction false} MergeAllFrom(ps: seq<Peer>, q: Peer, es: seq<Peer>)
    ensures MergeAll(ps + [q], es) == ps + Runs([q] + es)
    decreases |es|
  {
    hide Runs, Merge;
    if es == [] {
      assert [q] + es == [q] + [];
      SingleRun(q, []);
      NoRuns();
      assert ps + ([q] + []) == ps + [q];
    } else {
      var e, rest := es[0], es[1..];
      MergeStep(ps, q, e);
      if e.publicKey == q.publicKey {
        var r := q.(allowedIPs := q.allowedIPs + e.allowedIPs);
        MergeAllFrom(ps, r, rest);
        MergeTwo(q, e, rest);
        assert [q, e] + rest == [q] + es;
      } else {
        MergeAllFrom(ps + [q], e, rest);
        assert [e] + rest == es;
        SingleRun(q, es);
        assert ps + [q] + Runs(es) == ps + ([q] + Runs(es));
      }
    }
  }

  lemma {:induction false} NoRuns()
    ensures Runs([]) == []
  {
  }

  lemma {:induction false} MergeStep(ps: seq<Peer>, q: Peer, e: Peer)
    ensures e.publicKey == q.publicKey ==> Merge(ps + [q], e) == ps + [q.(allowedIPs := q.allowedIPs + e.allowedIPs)]
    ensures e.publicKey != q.publicKey ==> Merge(ps + [q], e) == ps + [q] + [e]
  {
    assert (ps + [q])[..|ps|] == ps;
  }

  /** From an empty device, merging entry by entry yields exactly the runs. */
  lemma {:induction false} MergeIsRuns(es: seq<Peer>)
    ensures MergeAll([], es) == Runs(es)
  {
    hide Runs;
    if es == [] {
      NoRuns();
    } else {
      MergeAllFrom([], es[0], es[1..]);
      assert Merge([], es[0]) == [es[0]] && [] + [es[0]] == [es[0]];
      assert [es[0]] + es[1..] == es;
      assert [] + Runs(es) == Runs(es);
    }
  }

  // ----- what the runs look like -----

  lemma {:induction false} RunsHead(es: seq<Peer>)
    requires es != []
    ensures Runs(es) != [] && Runs(es)[0].publicKey == es[0].publicKey
  {
  }

  lemma {:induction false} NormalCons(p: Peer, ps: seq<Peer>)
    requires NoNeighbours(ps) && (ps != [] ==> ps[0].publicKey != p.publicKey)
    ensures NoNeighbours([p] + ps)
  {
    var all := [p] + ps;
    forall i | 0 < i < |all|
      ensures all[i - 1].publicKey != all[i].publicKey
    {
      if i > 1 {
        assert all[i - 1] == ps[i - 2] && all[i] == ps[i - 1];
        assert ps[(i - 1) - 1].publicKey != ps[i - 1].publicKey;
      }
    }
  }

  lemma {:induction false} RunsNormal(es: seq<Peer>)
    ensures NoNeighbours(Runs(es))
    decreases |es|
  {
    if es != [] {
      var n := RunLength(es);
      RunsNormal(es[n..]);
      if n < |es| {
        RunsHead(es[n..]);
      } else {
        NoRuns();
      }
      RunsCut(es);
      NormalCons(es[0].(allowedIPs := AllIps(es[..n])), Runs(es[n..]));
    }
  }

  lemma {:induction false} RunsConserve(es: seq<Peer>)
    ensures AllIps(Runs(es)) == AllIps(es)
    decreases |es|
  {
    if es != [] {
      var n := RunLength(es);
      RunsConserve(es[n..]);
      RunsCut(es);
      HeadIps(es[0].(allowedIPs := AllIps(es[..n])), Runs(es[n..]));
      AllIpsAppend(es[..n], es[n..]);
      assert es[..n] + es[n..] == es;
    }
  }

  lemma {:induction false} RunsOfNormal(ps: seq<Peer>)
    requires NoNeighbours(ps)
    ensures Runs(ps) == ps
    decreases |ps|
  {
    if ps != [] {
      var rest := ps[1..];
      assert forall i :: 0 < i < |rest| ==> rest[i - 1] == ps[i] && rest[i] == ps[i + 1];
      RunsOfNormal(rest);
      assert [ps[0]] + rest == ps;
      SingleRun(ps[0], rest);
    }
  }

  // ----- over whole dumps -----

  /** The peer entries of one message, each read alone. */
  function Entries(attrs: seq<Attr>): seq<Peer>
    requires DeviceOk(attrs)
    decreases |attrs|
  {
    if attrs == [] then []
    else
      var rest := Entries(attrs[1..]);
      if attrs[0].typ == WGDEVICE_A_PEERS then
        assert DeviceAttrOk(attrs[0]);
        PeerList(Walk(attrs[0].payload)) + rest
      else rest
  }

  predicate AllOk(msgs: seq<seq<byte>>) {
    forall i :: 0 <= i < |msgs| ==> MessageOk(msgs[i])
  }

  /** The fold of `FetchDeviceKernel` over the replies. */
  function Assemble(msgs: seq<seq<byte>>, d: Device): Device
    requires AllOk(msgs)
    decreases |msgs|
  {
    if msgs == [] then d else Assemble(msgs[1..], Parsed(msgs[0], d))
  }

  function AllEntries(msgs: seq<seq<byte>>): seq<Peer>
    requires AllOk(msgs)
  {
    if msgs == [] then [] else Entries(MessageAttrs(msgs[0])) + AllEntries(msgs[1..])
  }

  lemma {:induction false} MergeAllAppend(ps: seq<Peer>, a: seq<Peer>, b: seq<Peer>)
    ensures MergeAll(ps, a + b) == MergeAll(MergeAll(ps, a), b)
    decreases |a|
  {
    hide Merge;
    if a == [] {
      assert a + b == b;
    } else {
      assert (a + b)[1..] == a[1..] + b;
      MergeAllAppend(Merge(ps, a[0]), a[1..], b);
    }
  }

  lemma {:induction false} FoldPeers(attrs: seq<Attr>, d: Device)
    requires DeviceOk(attrs)
    ensures DeviceFold(attrs, d).peers == MergeAll(d.peers, Entries(attrs))
    decreases |attrs|
  {
    hide Merge, Walk, PeerList, PeerListOk, GetU16, GetU32, BytesText;
    if attrs != [] {
      var a := attrs[0];
      assert DeviceAttrOk(a);
      FoldPeers(attrs[1..], DeviceStep(a, d));
      if a.typ == WGDEVICE_A_PEERS {
        MergeAllAppend(d.peers, PeerList(Walk(a.payload)), Entries(attrs[1..]));
      }
    }
  }

  lemma {:induction false} AssemblePeers(msgs: seq<seq<byte>>, d: Device)
    requires AllOk(msgs)
    ensures Assemble(msgs, d).peers == MergeAll(d.peers, AllEntries(msgs))
    decreases |msgs|
  {
    hide Merge, DeviceFold, Entries, MessageAttrs, DeviceOk;
    if msgs != [] {
      assert MessageOk(msgs[0]);
      FoldPeers(MessageAttrs(msgs[0]), d);
      AssemblePeers(msgs[1..], Parsed(msgs[0], d));
      MergeAllAppend(d.peers, Entries(MessageAttrs(msgs[0])), AllEntries(msgs[1..]));
    }
  }

  /** Merge normal form: after any sequence of well-formed replies the peers are the runs of the
      entries received, no two neighbours share a key, and the allowed ips are those received,
      none lost, doubled or reordered. */
  lemma {:induction false} MergeNormalForm(msgs: seq<seq<byte>>, name: string)
    requires AllOk(msgs)
    ensures var peers := Assemble(msgs, BlankDevice(name, false)).peers;
            && peers == Runs(AllEntries(msgs))
            && NoNeighbours(peers)
            && AllIps(peers) == AllIps(AllEntries(msgs))
  {
    hide Runs, AllEntries, Assemble, MergeAll, AllIps, AllOk;
    AssemblePeers(msgs, BlankDevice(name, false));
    MergeIsRuns(AllEntries(msgs));
    RunsNormal(AllEntries(msgs));
    RunsConserve(AllEntries(msgs));
  }

  // ----- cutting a device into a dump -----

  /** A continuation entry: the key and more allowed ips, nothing else. */
  predicate Continuation(e: Peer, p: Peer) {
    e == BlankPeer(p.publicKey).(allowedIPs := e.allowedIPs)
  }

  /** The entries one peer is cut into: scalars in the first, the ips spread in order. */
  predicate FragmentsOf(es: seq<Peer>, p: Peer) {
    && es != []
    && es[0] == p.(allowedIPs := es[0].allowedIPs)
    && (forall i :: 1 <= i < |es| ==> Continuation(es[i], p))
    && AllIps(es) == p.allowedIPs
  }

  /** The entries of a whole dump: the fragments of each peer in turn. */
  ghost predicate IsCut(es: seq<Peer>, ps: seq<Peer>)
    decreases |ps|
  {
    if ps == [] then es == []
    else exists n :: 1 <= n <= |es| && FragmentsOf(es[..n], ps[0]) && IsCut(es[n..], ps[1..])
  }

  /** One group of fragments in front of a dump whose first key differs. */
  lemma {:induction false} GroupRun(group: seq<Peer>, rest: seq<Peer>, p: Peer)
    requires FragmentsOf(group, p) && (rest != [] ==> rest[0].publicKey != p.publicKey)
    ensures Runs(group + rest) == [p] + Runs(rest)
  {
    hide Runs, FragmentsOf;
    FragmentKeys(group, p);
    var es, n := group + rest, |group|;
    assert forall i :: 0 <= i < n ==> es[i] == group[i];
    assert es[..n] == group && es[n..] == rest && group != [] by {
      GroupShape(group, p);
    }
    RunIs(es, n);
    RunsCut(es);
    GroupShape(group, p);
  }

  lemma {:induction false} GroupShape(group: seq<Peer>, p: Peer)
    requires FragmentsOf(group, p)
    ensures group != [] && group[0].(allowedIPs := AllIps(group)) == p
  {
    hide AllIps;
  }

  lemma {:induction false} CutRuns(es: seq<Peer>, ps: seq<Peer>)
    requires IsCut(es, ps) && NoNeighbours(ps)
    ensures Runs(es) == ps
    decreases |ps|
  {
    hide Runs, FragmentsOf;
    if ps == [] {
      NoRuns();
    } else {
      var n :| 1 <= n <= |es| && FragmentsOf(es[..n], ps[0]) && IsCut(es[n..], ps[1..]);
      NormalTail(ps);
      CutRuns(es[n..], ps[1..]);
      CutHead(es[n..], ps[1..]);
      GroupRun(es[..n], es[n..], ps[0]);
      assert es[..n] + es[n..] == es;
    }
  }

  lemma {:induction false} NormalTail(ps: seq<Peer>)
    requires ps != [] && NoNeighbours(ps)
    ensures NoNeighbours(ps[1..]) && (|ps| > 1 ==> ps[1..][0].publicKey != ps[0].publicKey)
  {
    var rest := ps[1..];
    forall i | 0 < i < |rest|
      ensures rest[i - 1].publicKey != rest[i].publicKey
    {
      assert ps[(i + 1) - 1].publicKey != ps[i + 1].publicKey;
    }
  }

  lemma {:induction false} FragmentKeys(es: seq<Peer>, p: Peer)
    requires FragmentsOf(es, p)
    ensures forall i :: 0 <= i < |es| ==> es[i].publicKey == p.publicKey
  {
    hide AllIps;
    assert forall i :: 1 <= i < |es| ==> Continuation(es[i], p);
  }

  lemma {:induction false} CutHead(es: seq<Peer>, ps: seq<Peer>)
    requires IsCut(es, ps)
    ensures es == [] <==> ps == []
    ensures ps != [] ==> es[0].publicKey == ps[0].publicKey
  {
    if ps != [] {
      var n :| 1 <= n <= |es| && FragmentsOf(es[..n], ps[0]) && IsCut(es[n..], ps[1..]);
      hide AllIps;
      assert es[..n][0] == es[0];
    }
  }

  /** A message after the first: it carries peers and nothing else the parser looks at. */
  predicate PeersOnly(attrs: seq<Attr>) {
    forall i :: 0 <= i < |attrs| ==> attrs[i].typ == WGDEVICE_A_PEERS || attrs[i].typ > WGDEVICE_A_PEERS || attrs[i].typ < WGDEVICE_A_IFNAME
  }

  lemma {:induction false} PeersOnlyFold(attrs: seq<Attr>, d: Device)
    requires DeviceOk(attrs) && PeersOnly(attrs)
    ensures DeviceFold(attrs, d).(peers := []) == d.(peers := [])
    decreases |attrs|
  {
    hide MergeAll, Walk, PeerList, PeerListOk;
    if attrs != [] {
      assert DeviceAttrOk(attrs[0]);
      PeersOnlyFold(attrs[1..], DeviceStep(attrs[0], d));
    }
  }

  lemma {:induction false} PeersOnlyAssemble(msgs: seq<seq<byte>>, d: Device)
    requires AllOk(msgs) && forall i :: 0 <= i < |msgs| ==> PeersOnly(MessageAttrs(msgs[i]))
    ensures Assemble(msgs, d).(peers := []) == d.(peers := [])
    decreases |msgs|
  {
    hide DeviceFold, MessageAttrs, DeviceOk, PeersOnly;
    if msgs != [] {
      assert MessageOk(msgs[0]);
      PeersOnlyFold(MessageAttrs(msgs[0]), d);
      PeersOnlyAssemble(msgs[1..], Parsed(msgs[0], d));
    }
  }

  /** Reassembly inverts fragmentation: take any device in which no two neighbouring peers share
      a key, and any dump of it, as bytes: the device fields in the first message, the peers cut
      into entries in any way and the entries spread over any number of messages. Folding the
      parser over the messages gives the device back. */
  lemma {:induction false} ReassemblyInvertsCut(msgs: seq<seq<byte>>, d: Device, name: string)
    requires AllOk(msgs) && msgs != []
    requires Parsed(msgs[0], BlankDevice(name, false)).(peers := []) == d.(peers := [])
    requires forall i :: 1 <= i < |msgs| ==> PeersOnly(MessageAttrs(msgs[i]))
    requires NoNeighbours(d.peers) && IsCut(AllEntries(msgs), d.peers)
    ensures Assemble(msgs, BlankDevice(name, false)) == d
  {
    hide Runs, AllEntries, Parsed, PeersOnly, MessageOk, IsCut, NoNeighbours, AllIps;
    var d0 := BlankDevice(name, false);
    MergeNormalForm(msgs, name);
    CutRuns(AllEntries(msgs), d.peers);
    var rest := msgs[1..];
    assert forall i :: 0 <= i < |rest| ==> rest[i] == msgs[i + 1];
    PeersOnlyAssemble(rest, Parsed(msgs[0], d0));
  }

  /** With no neighbouring equal keys the byte-level round trip returns one peer per entry. */
  lemma {:induction false} NetlinkRoundTripExact(familyId: u16, seqno: u32, other: string, name: string, c: Config)
    requires IsByteText(name) && IsIfName(name) && EndpointsOk(c.peers) && NestsFit(c)
    requires forall i :: 0 < i < |c.peers| ==> c.peers[i - 1].publicKey != c.peers[i].publicKey
    ensures AllEndpointsOk(c.peers) && FitsLength(name, c)
    ensures var msg := SetMessage(familyId, seqno, name, c);
            MessageOk(msg) && Parsed(msg, BlankDevice(other, false)) == NetDevice(name, c).(peers := NetPeers(c.peers))
  {
    hide Runs, EncodeAll, DeviceTree, SetMessage, MessageOk, Parsed, EndpointsOk, EndpointOk, MergeAll;
    NetlinkRoundTrip(familyId, seqno, other, name, c);
    var ps := NetPeers(c.peers);
    assert forall i :: 0 <= i < |ps| ==> ps[i].publicKey == c.peers[i].publicKey;
    MergeIsRuns(ps);
    RunsOfNormal(ps);
  }
}
