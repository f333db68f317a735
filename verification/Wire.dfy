/** How integers and netlink headers lie in memory, byte by byte and with their numbers written out
    (`struct nlmsghdr` and `struct genlmsghdr` of linux/netlink.h and linux/genetlink.h on a
    little-endian host; ports and addresses in network order). */
module Wire {
  import opened Core

  function Le16(b: seq<byte>, at: nat): (n: nat)
    requires at + 2 <= |b|
    ensures n < 0x1_0000
  {
    b[at] as int + 256 * (b[at + 1] as int)
  }

  function Le32(b: seq<byte>, at: nat): (n: nat)
    requires at + 4 <= |b|
    ensures n < 0x1_0000_0000
  {
    b[at] as int + 256 * (b[at + 1] as int) + 65536 * (b[at + 2] as int) + 16777216 * (b[at + 3] as int)
  }

  function Le64(b: seq<byte>, at: nat): (n: nat)
    requires at + 8 <= |b|
    ensures n < 0x1_0000_0000_0000_0000
  {
    Le32(b, at) + 0x1_0000_0000 * Le32(b, at + 4)
  }

  function Be16(b: seq<byte>, at: nat): (n: nat)
    requires at + 2 <= |b|
    ensures n < 0x1_0000
  {
    256 * (b[at] as int) + b[at + 1] as int
  }

  /** A whole message: its own length, type, flags, number and port. */
  predicate MessageOnWire(b: seq<byte>, typ: nat, flags: nat, number: nat, pid: nat) {
    && |b| >= 16 && Le32(b, 0) == |b| && Le16(b, 4) == typ && Le16(b, 6) == flags
    && Le32(b, 8) == number && Le32(b, 12) == pid
  }

  /** A request to the kernel: from port 0, with a generic header of command and version 1. */
  predicate RequestOnWire(b: seq<byte>, typ: nat, flags: nat, number: nat, cmd: nat) {
    MessageOnWire(b, typ, flags, number, 0) && |b| >= 20 && b[16] == cmd && b[17] == 1 && b[18] == 0 && b[19] == 0
  }

  /** What the writers put and the readers take are these layouts. */
  lemma {:induction false} Layouts(m: u16, n: u32, rest: seq<byte>)
    ensures Le16(U16(m) + rest, 0) == m && Be16(BE16(m) + rest, 0) == m && Le32(U32(n) + rest, 0) == n
  {
    hide U32;
    U16RoundTrip(m, rest);
    U32RoundTrip(n, rest);
    ReadersRead(U16(m) + rest);
    ReadersRead(U32(n) + rest);
  }

  lemma {:induction false} WideLayouts(m: u64, n: i64, rest: seq<byte>)
    ensures Le64(U64(m) + rest, 0) == m
    ensures Le64(I64(n) + rest, 0) == if n >= 0 then n else n + 0x1_0000_0000_0000_0000
  {
    hide U64, GetU64;
    U64RoundTrip(m, rest);
    WideReaderReads(U64(m) + rest);
    var w := if n >= 0 then n else n + 0x1_0000_0000_0000_0000;
    U64RoundTrip(w, rest);
    WideReaderReads(U64(w) + rest);
  }

  lemma {:induction false} ReadersRead(b: seq<byte>)
    ensures |b| >= 2 ==> GetU16(b) == Le16(b, 0) && GetBE16(b) == Be16(b, 0)
    ensures |b| >= 4 ==> GetU32(b) == Le32(b, 0)
  {
  }

  lemma {:induction false} WideReaderReads(b: seq<byte>)
    requires |b| >= 8
    ensures GetU64(b) == Le64(b, 0)
  {
  }
}
