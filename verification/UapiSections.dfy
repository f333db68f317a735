/** The cursor-driven GET parser is "cut the response at its public_key lines and parse each
    section alone"; what follows from that about single lines. */
module UapiSections {
  import opened Core
  import opened WireGuard
  import opened Text
  import opened KeyText
  import opened Uapi

  predicate StartsPeer(line: string) {
    FieldOf(line).Some? && NameOf(FieldOf(line).value.key) == PublicKeyName
  }

  /** Index of the first line that starts a peer section. */
  function HeaderLength(lines: seq<string>): (n: nat)
    ensures n <= |lines|
    ensures forall i :: 0 <= i < n ==> !StartsPeer(lines[i])
    ensures n < |lines| ==> StartsPeer(lines[n])
  {
    if lines == [] || StartsPeer(lines[0]) then 0 else 1 + HeaderLength(lines[1..])
  }

  /** Lines that begin with a section start, cut before every section start. */
  function Sections(lines: seq<string>): (secs: seq<seq<string>>)
    requires lines != [] ==> StartsPeer(lines[0])
    ensures forall i :: 0 <= i < |secs| ==> secs[i] != [] && StartsPeer(secs[i][0])
    decreases |lines|
  {
    if lines == [] then []
    else
      var n := 1 + HeaderLength(lines[1..]);
      [lines[..n]] + Sections(lines[n..])
  }

  // ----- parsing one piece alone -----

  function HeaderLine(d: Device, line: string): Result<Device> {
    match FieldOf(line)
    case None => Ok(d)
    case Some(f) =>
      if NameOf(f.key) == Errno then var _ :- CheckErrno(f.value); Ok(d)
      else var u :- ReadDeviceField(NameOf(f.key), f.value); Ok(UpdateDevice(d, u))
  }

  function Header(d: Device, lines: seq<string>): Result<Device>
    decreases |lines|
  {
    if lines == [] then Ok(d) else var d' :- HeaderLine(d, lines[0]); Header(d', lines[1..])
  }

  function PeerLine(q: Peer, line: string): Result<Peer> {
    match FieldOf(line)
    case None => Ok(q)
    case Some(f) =>
      if NameOf(f.key) == Errno then var _ :- CheckErrno(f.value); Ok(q)
      else var u :- ReadPeerField(NameOf(f.key), f.value); Ok(UpdatePeer(q, u))
  }

  function PeerBody(q: Peer, lines: seq<string>): Result<Peer>
    decreases |lines|
  {
    if lines == [] then Ok(q) else var q' :- PeerLine(q, lines[0]); PeerBody(q', lines[1..])
  }

  function Section(lines: seq<string>): Result<Peer>
    requires lines != [] && StartsPeer(lines[0])
  {
    var k :- HexKey(FieldOf(lines[0]).value.value);
    PeerBody(BlankPeer(k), lines[1..])
  }

  function SectionPeers(secs: seq<seq<string>>): Result<seq<Peer>>
    requires forall i :: 0 <= i < |secs| ==> secs[i] != [] && StartsPeer(secs[i][0])
  {
    if secs == [] then Ok([])
    else
      var p :- Section(secs[0]);
      var rest :- SectionPeers(secs[1..]);
      Ok([p] + rest)
  }

  /** The reference parser: no cursor, every piece on its own. */
  function BySections(name: string, lines: seq<string>): Result<Device> {
    var n := HeaderLength(lines);
    var d :- Header(BlankDevice(name, true), lines[..n]);
    var peers :- SectionPeers(Sections(lines[n..]));
    Ok(d.(peers := peers))
  }

  // ----- the cursor parser refines it -----

  lemma {:induction false} HeaderLineStep(d: Device, line: string)
    requires d.peers == [] && !StartsPeer(line)
    ensures ApplyLine(d, line) == HeaderLine(d, line)
    ensures HeaderLine(d, line).Ok? ==> HeaderLine(d, line).value.peers == []
  {
    hide ReadDeviceField, NameOf, CheckErrno;
  }

  lemma {:induction false} HeaderFirst(d: Device, header: seq<string>, rest: seq<string>)
    requires d.peers == [] && forall i :: 0 <= i < |header| ==> !StartsPeer(header[i])
    ensures ApplyLines(d, header + rest)
         == if Header(d, header).Err? then Err(Header(d, header).error) else ApplyLines(Header(d, header).value, rest)
    ensures Header(d, header).Ok? ==> Header(d, header).value.peers == []
    decreases |header|
  {
    hide ApplyLine, HeaderLine, StartsPeer;
    if header == [] {
      assert header + rest == rest;
    } else {
      HeaderLineStep(d, header[0]);
      assert (header + rest)[1..] == header[1..] + rest;
      if HeaderLine(d, header[0]).Ok? {
        HeaderFirst(HeaderLine(d, header[0]).value, header[1..], rest);
      }
    }
  }

  lemma {:induction false} PeerLineStep(d: Device, q: Peer, line: string)
    requires !StartsPeer(line)
    ensures ApplyLine(On(d, q), line)
         == if PeerLine(q, line).Err? then Err(PeerLine(q, line).error) else Ok(On(d, PeerLine(q, line).value))
  {
    hide ReadPeerField, UpdatePeer, NameOf, CheckErrno, FieldOf;
    var ps := On(d, q).peers;
    assert ps[..|ps| - 1] == d.peers && ps[|ps| - 1] == q;
  }

  lemma {:induction false} BodyFirst(d: Device, q: Peer, body: seq<string>, rest: seq<string>)
    requires forall i :: 0 <= i < |body| ==> !StartsPeer(body[i])
    ensures ApplyLines(On(d, q), body + rest)
         == if PeerBody(q, body).Err? then Err(PeerBody(q, body).error) else ApplyLines(On(d, PeerBody(q, body).value), rest)
    decreases |body|
  {
    hide ApplyLine, PeerLine, StartsPeer, On;
    if body == [] {
      assert body + rest == rest;
    } else {
      PeerLineStep(d, q, body[0]);
      assert (body + rest)[1..] == body[1..] + rest;
      if PeerLine(q, body[0]).Ok? {
        BodyFirst(d, PeerLine(q, body[0]).value, body[1..], rest);
      }
    }
  }

  lemma {:induction false} SectionFirst(d: Device, sec: seq<string>, rest: seq<string>)
    requires sec != [] && StartsPeer(sec[0]) && forall i :: 1 <= i < |sec| ==> !StartsPeer(sec[i])
    ensures ApplyLines(d, sec + rest)
         == if Section(sec).Err? then Err(Section(sec).error) else ApplyLines(On(d, Section(sec).value), rest)
  {
    hide NameOf, HexKey, PeerBody;
    var key := HexKey(FieldOf(sec[0]).value.value);
    assert (sec + rest)[0] == sec[0] && (sec + rest)[1..] == sec[1..] + rest;
    assert ApplyLine(d, sec[0]) == if key.Err? then Err(key.error) else Ok(On(d, BlankPeer(key.value)));
    if key.Ok? {
      BodyFirst(d, BlankPeer(key.value), sec[1..], rest);
    }
  }

  function AddPeers(d: Device, peers: Result<seq<Peer>>): Result<Device> {
    if peers.Err? then Err(peers.error) else Ok(d.(peers := d.peers + peers.value))
  }

  lemma {:induction false} SectionsCut(lines: seq<string>)
    requires lines != [] && StartsPeer(lines[0])
    ensures var n := 1 + HeaderLength(lines[1..]);
            && Sections(lines)[0] == lines[..n] && Sections(lines)[1..] == Sections(lines[n..])
            && forall i :: 1 <= i < n ==> !StartsPeer(lines[i])
  {
    hide StartsPeer;
    var n := 1 + HeaderLength(lines[1..]);
    assert forall i :: 1 <= i < n ==> lines[i] == lines[1..][i - 1];
  }

  lemma {:induction false} AddPeersFirst(d: Device, q: Peer, rest: Result<seq<Peer>>)
    ensures AddPeers(On(d, q), rest) == AddPeers(d, if rest.Err? then Err(rest.error) else Ok([q] + rest.value))
  {
    if rest.Ok? {
      assert d.peers + [q] + rest.value == d.peers + ([q] + rest.value);
    }
  }

  lemma {:induction false} AllSections(d: Device, lines: seq<string>)
    requires lines != [] ==> StartsPeer(lines[0])
    ensures ApplyLines(d, lines) == AddPeers(d, SectionPeers(Sections(lines)))
    decreases |lines|
  {
    hide StartsPeer, Section, AddPeers;
    if lines == [] {
      NoSections(d);
    } else {
      hide ApplyLines, Sections;
      var n := 1 + HeaderLength(lines[1..]);
      var sec, rest := lines[..n], lines[n..];
      SectionsCut(lines);
      assert sec + rest == lines;
      SectionFirst(d, sec, rest);
      if Section(sec).Ok? {
        AllSections(On(d, Section(sec).value), rest);
        AddPeersFirst(d, Section(sec).value, SectionPeers(Sections(rest)));
      } else {
        AddPeersError(d, Section(sec).error);
      }
    }
  }

  lemma {:induction false} NoSections(d: Device)
    ensures AddPeers(d, Ok([])) == Ok(d)
  {
    assert d.peers + [] == d.peers;
  }

  lemma {:induction false} AddPeersError(d: Device, e: Error)
    ensures AddPeers(d, Err(e)) == Err(e)
  {
  }

  /** Refinement: on every response, errors included, the parser with its current-peer cursor
      computes what the cursor-free reference computes section by section. */
  lemma {:induction false} CursorRefinesSections(name: string, lines: seq<string>)
    ensures ApplyLines(BlankDevice(name, true), lines) == BySections(name, lines)
  {
    hide ApplyLines, Header, SectionPeers, Sections, StartsPeer;
    var n := HeaderLength(lines);
    var d := BlankDevice(name, true);
    assert lines[..n] + lines[n..] == lines;
    HeaderFirst(d, lines[..n], lines[n..]);
    var h := Header(d, lines[..n]);
    if h.Ok? {
      AllSections(h.value, lines[n..]);
      var ps := SectionPeers(Sections(lines[n..]));
      assert ps.Ok? ==> [] + ps.value == ps.value;
    }
  }

  // ----- locality -----

  lemma {:induction false} SectionPeersEach(secs: seq<seq<string>>)
    requires forall i :: 0 <= i < |secs| ==> secs[i] != [] && StartsPeer(secs[i][0])
    requires SectionPeers(secs).Ok?
    ensures |SectionPeers(secs).value| == |secs|
    ensures forall i :: 0 <= i < |secs| ==> Section(secs[i]) == Ok(SectionPeers(secs).value[i])
    decreases |secs|
  {
    hide StartsPeer, Section;
    if secs != [] {
      SectionPeersEach(secs[1..]);
      var ps := SectionPeers(secs).value;
      forall i | 0 <= i < |secs|
        ensures Section(secs[i]) == Ok(ps[i])
      {
        if i > 0 {
          assert secs[1..][i - 1] == secs[i];
        }
      }
    }
  }

  /** A response that parses has one peer for each section, read from that section. */
  lemma {:induction false} PeersOfSections(name: string, lines: seq<string>)
    requires BySections(name, lines).Ok?
    ensures ApplyLines(BlankDevice(name, true), lines).Ok?
    ensures var d, secs := ApplyLines(BlankDevice(name, true), lines).value, Sections(lines[HeaderLength(lines)..]);
      |d.peers| == |secs| && forall i :: 0 <= i < |secs| ==> Section(secs[i]) == Ok(d.peers[i])
  {
    hide Header, SectionPeers, Sections, StartsPeer, ApplyLines, Section;
    CursorRefinesSections(name, lines);
    SectionPeersEach(Sections(lines[HeaderLength(lines)..]));
  }

  /** Two responses that parse and have equal headers give equal device fields, with any peers or
      none behind them. */
  lemma {:induction false} HeaderLocality(name: string, a: seq<string>, b: seq<string>)
    requires BySections(name, a).Ok? && BySections(name, b).Ok?
    requires a[..HeaderLength(a)] == b[..HeaderLength(b)]
    ensures var da, db := ApplyLines(BlankDevice(name, true), a), ApplyLines(BlankDevice(name, true), b);
      da.Ok? && db.Ok? && da.value.(peers := []) == db.value.(peers := [])
  {
    hide Header, SectionPeers, Sections, StartsPeer, ApplyLines, Section;
    CursorRefinesSections(name, a);
    CursorRefinesSections(name, b);
  }

  /** In two responses that parse, a peer section that occurs in both gives the same peer wherever
      it stands. */
  lemma {:induction false} SectionLocality(name: string, a: seq<string>, b: seq<string>, i: nat, j: nat)
    requires BySections(name, a).Ok? && BySections(name, b).Ok?
    requires i < |Sections(a[HeaderLength(a)..])| && j < |Sections(b[HeaderLength(b)..])|
    requires Sections(a[HeaderLength(a)..])[i] == Sections(b[HeaderLength(b)..])[j]
    ensures var da, db := ApplyLines(BlankDevice(name, true), a), ApplyLines(BlankDevice(name, true), b);
      da.Ok? && db.Ok? && i < |da.value.peers| && j < |db.value.peers| && da.value.peers[i] == db.value.peers[j]
  {
    hide BySections, Sections, StartsPeer, ApplyLines, Section;
    PeersOfSections(name, a);
    PeersOfSections(name, b);
  }

  // ----- single lines -----

  lemma {:induction false} ApplyLinesAppend(d: Device, a: seq<string>, b: seq<string>)
    ensures ApplyLines(d, a + b) == if ApplyLines(d, a).Err? then ApplyLines(d, a) else ApplyLines(ApplyLines(d, a).value, b)
    decreases |a|
  {
    hide ApplyLine;
    if a == [] {
      assert a + b == b;
    } else {
      assert (a + b)[1..] == a[1..] + b;
      var r := ApplyLine(d, a[0]);
      if r.Ok? {
        ApplyLinesAppend(r.value, a[1..], b);
      }
    }
  }

  /** A line without '=' or with a key the parser does not know. */
  predicate Ignored(line: string) {
    FieldOf(line).None? || NameOf(FieldOf(line).value.key) == OtherName
  }

  lemma {:induction false} IgnoredStep(d: Device, line: string)
    requires Ignored(line)
    ensures ApplyLine(d, line) == Ok(d)
  {
    hide NameOf, FieldOf;
    if d.peers != [] {
      var n := |d.peers|;
      assert d.peers[..n - 1] + [d.peers[n - 1]] == d.peers;
    }
  }

  /** Dropping a line with an unknown key changes no outcome, errors included. */
  lemma {:induction false} DropIgnored(d: Device, a: seq<string>, line: string, b: seq<string>)
    requires Ignored(line)
    ensures ApplyLines(d, a + [line] + b) == ApplyLines(d, a + b)
  {
    hide Ignored, ApplyLine;
    ApplyLinesAppend(d, a + [line], b);
    ApplyLinesAppend(d, a, [line]);
    ApplyLinesAppend(d, a, b);
    if ApplyLines(d, a).Ok? {
      var m := ApplyLines(d, a).value;
      IgnoredStep(m, line);
      assert [line][1..] == [];
    }
  }

  /** The name whose lines produce an update; OtherName for the update that does nothing. */
  function Source(u: PeerUpdate): Name {
    match u
    case SetPresharedKey(_) => PresharedKeyName
    case SetEndpoint(_) => EndpointName
    case SetHandshake(_) => HandshakeName
    case SetRx(_) => RxName
    case SetTx(_) => TxName
    case SetKeepalive(_) => KeepaliveName
    case AddAllowedIP(_) => AllowedIpName
    case SetProtocol(_) => ProtocolName
    case LeavePeer => OtherName
  }

  lemma {:induction false} UpdateSource(name: Name, value: string)
    requires ReadPeerField(name, value).Ok?
    ensures Source(ReadPeerField(name, value).value) == name || ReadPeerField(name, value).value == LeavePeer
  {
    hide HexKey, Stoll, Stoul, ParseUnsignedInRange;
  }

  lemma {:induction false} UpdatesCommute(q: Peer, u: PeerUpdate, x: PeerUpdate)
    requires Source(u) != Source(x) || u == LeavePeer
    ensures UpdatePeer(UpdatePeer(q, u), x) == UpdatePeer(UpdatePeer(q, x), u)
  {
    if !u.LeavePeer? && !x.LeavePeer? {
      match u
      case SetPresharedKey(_) =>
      case SetEndpoint(_) =>
      case SetHandshake(_) =>
      case SetRx(_) =>
      case SetTx(_) =>
      case SetKeepalive(_) =>
      case AddAllowedIP(_) =>
      case SetProtocol(_) =>
    }
  }

  lemma {:induction false} PeerUpdatesCommute(q: Peer, m: Name, n: Name, v: string, w: string)
    requires m != n || m == OtherName
    requires ReadPeerField(m, v).Ok? && ReadPeerField(n, w).Ok?
    ensures var u, x := ReadPeerField(m, v).value, ReadPeerField(n, w).value;
            UpdatePeer(UpdatePeer(q, u), x) == UpdatePeer(UpdatePeer(q, x), u)
  {
    var u, x := ReadPeerField(m, v).value, ReadPeerField(n, w).value;
    UpdateSource(m, v);
    UpdateSource(n, w);
    hide ReadPeerField, UpdatePeer;
    if u == LeavePeer || x == LeavePeer || Source(u) != Source(x) {
      if u == LeavePeer || Source(u) != Source(x) {
        UpdatesCommute(q, u, x);
      } else {
        UpdatesCommute(q, x, u);
      }
    }
  }

  lemma {:induction false} DeviceUpdatesCommute(d: Device, m: Name, n: Name, v: string, w: string)
    requires m != n || m == OtherName
    requires ReadDeviceField(m, v).Ok? && ReadDeviceField(n, w).Ok?
    ensures var u, x := ReadDeviceField(m, v).value, ReadDeviceField(n, w).value;
            && UpdateDevice(UpdateDevice(d, u), x) == UpdateDevice(UpdateDevice(d, x), u)
            && UpdateDevice(d, u).peers == d.peers
  {
    hide HexKey, ParseUnsignedInRange;
  }

  /** The one key with a name. */
  function KeyOf(name: Name): string {
    match name
    case Errno => "errno"
    case PublicKeyName => "public_key"
    case PresharedKeyName => "preshared_key"
    case EndpointName => "endpoint"
    case HandshakeName => "last_handshake_time_sec"
    case RxName => "rx_bytes"
    case TxName => "tx_bytes"
    case KeepaliveName => "persistent_keepalive_interval"
    case AllowedIpName => "allowed_ip"
    case ProtocolName => "protocol_version"
    case PrivateKeyName => "private_key"
    case ListenPortName => "listen_port"
    case FwmarkName => "fwmark"
    case OtherName => ""
  }

  lemma {:induction false} KeyOfName(key: string)
    requires NameOf(key) != OtherName
    ensures key == KeyOf(NameOf(key))
  {
    hide KeyOf;
    KeysOfNames();
  }

  lemma {:induction false} KeysOfNames()
    ensures KeyOf(Errno) == "errno" && KeyOf(PublicKeyName) == "public_key" && KeyOf(PresharedKeyName) == "preshared_key"
    ensures KeyOf(EndpointName) == "endpoint" && KeyOf(HandshakeName) == "last_handshake_time_sec"
    ensures KeyOf(RxName) == "rx_bytes" && KeyOf(TxName) == "tx_bytes" && KeyOf(KeepaliveName) == "persistent_keepalive_interval"
    ensures KeyOf(AllowedIpName) == "allowed_ip" && KeyOf(ProtocolName) == "protocol_version"
    ensures KeyOf(PrivateKeyName) == "private_key" && KeyOf(ListenPortName) == "listen_port" && KeyOf(FwmarkName) == "fwmark"
  {
  }

  lemma {:induction false} NameIsKey(a: string, b: string)
    requires NameOf(a) == NameOf(b) && NameOf(a) != OtherName
    ensures a == b
  {
    hide NameOf, KeyOf;
    KeyOfName(a);
    KeyOfName(b);
  }

  lemma {:induction false} PeerFieldsSwap(d: Device, f: Field, g: Field)
    requires d.peers != [] && f.key != g.key
    requires NameOf(f.key) != PublicKeyName && NameOf(g.key) != PublicKeyName
    requires NameOf(f.key) != Errno && NameOf(g.key) != Errno
    requires ApplyField(d, f).Ok? && ApplyField(ApplyField(d, f).value, g).Ok?
    ensures ApplyField(d, g).Ok? && ApplyField(ApplyField(d, g).value, f) == ApplyField(ApplyField(d, f).value, g)
  {
    var m, n := NameOf(f.key), NameOf(g.key);
    if m == n && m != OtherName {
      NameIsKey(f.key, g.key);
    }
    hide ReadPeerField, UpdatePeer, NameOf;
    var k := |d.peers| - 1;
    var front, q := d.peers[..k], d.peers[k];
    PeerUpdatesCommute(q, m, n, f.value, g.value);
    assert forall p: Peer :: ReplaceLast(front + [p], q) == front + [q];
    var q1 := UpdatePeer(q, ReadPeerField(m, f.value).value);
    var q2 := UpdatePeer(q, ReadPeerField(n, g.value).value);
    assert (front + [q1])[..k] == front && (front + [q2])[..k] == front;
  }

  lemma {:induction false} DeviceFieldsSwap(d: Device, f: Field, g: Field)
    requires d.peers == [] && f.key != g.key
    requires NameOf(f.key) != PublicKeyName && NameOf(g.key) != PublicKeyName
    requires NameOf(f.key) != Errno && NameOf(g.key) != Errno
    requires ApplyField(d, f).Ok? && ApplyField(ApplyField(d, f).value, g).Ok?
    ensures ApplyField(d, g).Ok? && ApplyField(ApplyField(d, g).value, f) == ApplyField(ApplyField(d, f).value, g)
  {
    var m, n := NameOf(f.key), NameOf(g.key);
    if m == n && m != OtherName {
      NameIsKey(f.key, g.key);
    }
    DeviceUpdatesCommute(d, m, n, f.value, g.value);
    DeviceUpdatesCommute(d, n, m, g.value, f.value);
    hide ReadDeviceField, UpdateDevice, NameOf;
  }

  lemma {:induction false} ErrnoSwap(d: Device, f: Field, g: Field)
    requires NameOf(f.key) == Errno || NameOf(g.key) == Errno
    requires NameOf(f.key) != PublicKeyName && NameOf(g.key) != PublicKeyName
    requires ApplyField(d, f).Ok? && ApplyField(ApplyField(d, f).value, g).Ok?
    ensures ApplyField(d, g).Ok? && ApplyField(ApplyField(d, g).value, f) == ApplyField(ApplyField(d, f).value, g)
  {
    hide ReadDeviceField, ReadPeerField, UpdateDevice, UpdatePeer, NameOf, CheckErrno, ReplaceLast;
  }

  lemma {:induction false} FieldsSwap(d: Device, f: Field, g: Field)
    requires f.key != g.key && NameOf(f.key) != PublicKeyName && NameOf(g.key) != PublicKeyName
    requires ApplyField(d, f).Ok? && ApplyField(ApplyField(d, f).value, g).Ok?
    ensures ApplyField(d, g).Ok? && ApplyField(ApplyField(d, g).value, f) == ApplyField(ApplyField(d, f).value, g)
  {
    hide ApplyField, NameOf;
    if NameOf(f.key) == Errno || NameOf(g.key) == Errno {
      ErrnoSwap(d, f, g);
    } else if d.peers == [] {
      DeviceFieldsSwap(d, f, g);
    } else {
      PeerFieldsSwap(d, f, g);
    }
  }

  /** Two neighbouring lines of one section with different keys may change places in any
      response that parses. */
  lemma {:induction false} SwapLines(d: Device, a: seq<string>, x: string, y: string, b: seq<string>)
    requires FieldOf(x).Some? && FieldOf(y).Some? && FieldOf(x).value.key != FieldOf(y).value.key
    requires !StartsPeer(x) && !StartsPeer(y)
    requires ApplyLines(d, a + [x, y] + b).Ok?
    ensures ApplyLines(d, a + [y, x] + b) == ApplyLines(d, a + [x, y] + b)
  {
    hide ApplyField, FieldOf, NameOf, ApplyLines;
    ApplyLinesAppend(d, a + [x, y], b);
    ApplyLinesAppend(d, a + [y, x], b);
    ApplyLinesAppend(d, a, [x, y]);
    ApplyLinesAppend(d, a, [y, x]);
    var m := ApplyLines(d, a).value;
    TwoLines(m, x, y);
    TwoLines(m, y, x);
    FieldsSwap(m, FieldOf(x).value, FieldOf(y).value);
  }

  lemma {:induction false} TwoLines(d: Device, x: string, y: string)
    ensures ApplyLines(d, [x, y])
         == if ApplyLine(d, x).Err? then ApplyLine(d, x) else ApplyLine(ApplyLine(d, x).value, y)
  {
    hide ApplyLine;
    assert [x, y][1..] == [y] && [y][1..] == [];
    var r := ApplyLine(d, x);
    if r.Ok? {
      var t := ApplyLine(r.value, y);
      assert ApplyLines(r.value, [y]) == if t.Err? then t else ApplyLines(t.value, []);
    }
  }
}
