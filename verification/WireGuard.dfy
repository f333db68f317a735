/** The plain data of src/WireGuardTypes.h: what a caller configures and what a dump reports. */
module WireGuard {
  import opened Core

  const KEY_LEN: nat := 32
  type Key = k: seq<byte> | |k| == KEY_LEN witness Zeros(KEY_LEN)

  const AF_INET: byte := 2
  const AF_INET6: byte := 10

  datatype AllowedIP = AllowedIP(ip: string, family: byte, cidr: byte)

  /** Peer status, as a device dump reports it. */
  datatype Peer = Peer(
    publicKey: Key,
    presharedKey: Option<Key>,
    endpoint: Option<string>,
    persistentKeepaliveInterval: u16,
    lastHandshakeTimeSec: i64,
    receiveBytes: u64,
    transmitBytes: u64,
    allowedIPs: seq<AllowedIP>,
    protocolVersion: u32)

  datatype Device = Device(
    name: string,
    userspace: bool,
    privateKey: Option<Key>,
    publicKey: Option<Key>,
    listenPort: u16,
    firewallMark: u32,
    peers: seq<Peer>)

  /** Peer configuration: None leaves a field unchanged, Some applies it, zero included. */
  datatype PeerConfig = PeerConfig(
    publicKey: Key,
    remove: bool,
    updateOnly: bool,
    presharedKey: Option<Key>,
    endpoint: Option<string>,
    persistentKeepaliveInterval: Option<u16>,
    replaceAllowedIPs: bool,
    allowedIPs: seq<AllowedIP>)

  datatype Config = Config(
    privateKey: Option<Key>,
    listenPort: Option<u16>,
    firewallMark: Option<u32>,
    replacePeers: bool,
    peers: seq<PeerConfig>)

  /** A default-constructed `wg::Peer`, its key aside. */
  function BlankPeer(key: Key): Peer {
    Peer(key, None, None, 0, 0, 0, 0, [], 0)
  }

  /** A default-constructed `wg::Device`, its name and origin aside. */
  function BlankDevice(name: string, userspace: bool): Device {
    Device(name, userspace, None, None, 0, 0, [])
  }
}
