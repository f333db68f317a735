/** Concrete texts and bytes, written out. They fix the notation that printers and parsers share:
    digits, separators, byte order and defaults (src/crypto/Key.cpp, src/netlink/NlAttr.cpp,
    src/uapi/UapiCodec.cpp). */
module Vectors {
  import opened Core
  import opened WireGuard
  import opened Text
  import opened KeyText
  import opened Inet
  import opened Address
  import opened Mnl
  import opened NlParse
  import opened Uapi
  import opened UapiSetReader

  // ----- numbers -----

  lemma {:induction false} SmallDecimals()
    ensures Dec(0) == "0" && Dec(1) == "1" && Dec(2) == "2"
    ensures Dec(24) == "24" && Dec(192) == "192"
  {
    assert Dec(24) == Dec(2) + "4";
    assert Dec(192) == Dec(19) + "2" && Dec(19) == Dec(1) + "9";
  }

  lemma {:induction false} PortDecimal()
    ensures Dec(51820) == "51820"
  {
    hide Dec;
    DecStep(51820);
    DecStep(5182);
    DecStep(518);
    DecStep(51);
    DecStep(5);
  }

  lemma {:induction false} DecStep(n: nat)
    ensures Dec(n) == if n < 10 then [DigitChar(n)] else Dec(n / 10) + [DigitChar(n % 10)]
  {
  }

  lemma {:induction false} HexWords()
    ensures HexWord(0x2001) == "2001" && HexWord(0xdb8) == "db8" && HexWord(1) == "1"
  {
    hide HexWord;
    HexStep(0x2001);
    HexStep(0x200);
    HexStep(0x20);
    HexStep(2);
    HexStep(0xdb8);
    HexStep(0xdb);
    HexStep(0xd);
    HexStep(1);
  }

  lemma {:induction false} HexStep(w: nat)
    ensures HexWord(w) == if w < 16 then [HexDigit(w)] else HexWord(w / 16) + [HexDigit(w % 16)]
  {
  }

  // ----- keys -----

  /** The three bytes of "Man" and their four symbols, in front of any key. */
  lemma {:induction false} KeyTexts(key: Key)
    requires key[..3] == [77, 97, 110]
    ensures Base64Body(key)[..4] == "TWFu" && Hex(key)[..6] == "4d616e"
  {
    hide Hex, SymbolAt, Base64Char, HexChar;
    assert key[0] == key[..3][0] && key[1] == key[..3][1] && key[2] == key[..3][2];
    var s, h := Base64Body(key), Hex(key);
    FirstSymbols(key);
    FewSymbols();
    assert s[0] == 'T' && s[1] == 'W' && s[2] == 'F' && s[3] == 'u';
    assert h[2 * 0] == '4' && h[2 * 0 + 1] == 'd' && h[2 * 1] == '6' && h[2 * 1 + 1] == '1' && h[2 * 2] == '6' && h[2 * 2 + 1] == 'e';
  }

  lemma {:induction false} FirstSymbols(key: Key)
    requires key[0] == 77 && key[1] == 97 && key[2] == 110
    ensures SymbolAt(key, 0) == 19 && SymbolAt(key, 1) == 22 && SymbolAt(key, 2) == 5 && SymbolAt(key, 3) == 46
  {
  }

  lemma {:induction false} FewSymbols()
    ensures Base64Char(19) == 'T' && Base64Char(22) == 'W' && Base64Char(5) == 'F' && Base64Char(46) == 'u'
    ensures HexChar(4) == '4' && HexChar(13) == 'd' && HexChar(6) == '6' && HexChar(1) == '1' && HexChar(14) == 'e'
  {
  }

  // ----- addresses -----

  const HOST4: Addr4 := [192, 0, 2, 1]
  const HOST6: Addr6 := [0x20, 1, 0xd, 0xb8, 0, 0, 0, 0, 0, 0, 0, 0, 0, 0, 0, 1]

  lemma {:induction false} Text4()
    ensures Ntop4(HOST4) == "192.0.2.1" && Pton4("192.0.2.1") == Some([192, 0, 2, 1])
  {
    SmallDecimals();
    Pton4Ntop4(HOST4);
  }

  lemma {:induction false} Text6()
    ensures Ntop6(HOST6) == "2001:db8::1" && Pton6("2001:db8::1") == Some(HOST6)
  {
    hide Words6, BestRun, ZeroRun, Join, Pton6, HexWord, Dotted;
    HostWords();
    Runs6();
    Joins();
    Glued6();
    Pton6Ntop6(HOST6);
  }

  lemma {:induction false} HostWords()
    ensures var words := Words6(HOST6);
      words == GROUPS && words[..2] == [0x2001, 0xdb8] && words[7..] == [1]
  {
  }

  lemma {:induction false} Glued6()
    ensures "2001:db8" + "::" + "1" == "2001:db8::1" && "[" + "2001:db8::1" + "]:" + "51820" == "[2001:db8::1]:51820"
  {
  }

  lemma {:induction false} Joins()
    ensures Join([0x2001, 0xdb8]) == "2001:db8" && Join([1]) == "1"
  {
    hide HexWord;
    HexWords();
    assert [0x2001, 0xdb8][1..] == [0xdb8];
  }

  const GROUPS: seq<word> := [0x2001, 0xdb8, 0, 0, 0, 0, 0, 1]

  lemma {:induction false} Runs6()
    ensures BestRun(GROUPS, 0) == 2 && ZeroRun(GROUPS, 2) == 5
  {
    hide BestRun, ZeroRun;
    ZeroRuns();
    RunStep(8);
    RunStep(7);
    RunStep(6);
    RunStep(5);
    RunStep(4);
    RunStep(3);
    RunStep(2);
    RunStep(1);
    RunStep(0);
  }

  lemma {:induction false} RunStep(i: nat)
    requires i <= 8
    ensures BestRun(GROUPS, i)
         == if i == 8 then i
            else
              var b := BestRun(GROUPS, i + 1);
              if ZeroRun(GROUPS, i) >= ZeroRun(GROUPS, b) then i else b
  {
    hide ZeroRun;
  }

  lemma {:induction false} ZeroRuns()
    ensures ZeroRun(GROUPS, 8) == 0 && ZeroRun(GROUPS, 7) == 0 && ZeroRun(GROUPS, 6) == 1 && ZeroRun(GROUPS, 5) == 2
    ensures ZeroRun(GROUPS, 4) == 3 && ZeroRun(GROUPS, 3) == 4 && ZeroRun(GROUPS, 2) == 5
    ensures ZeroRun(GROUPS, 1) == 0 && ZeroRun(GROUPS, 0) == 0
  {
    hide ZeroRun;
    ZeroStep(8);
    ZeroStep(7);
    ZeroStep(6);
    ZeroStep(5);
    ZeroStep(4);
    ZeroStep(3);
    ZeroStep(2);
    ZeroStep(1);
    ZeroStep(0);
  }

  lemma {:induction false} ZeroStep(i: nat)
    requires i <= 8
    ensures ZeroRun(GROUPS, i) == if i < 8 && GROUPS[i] == 0 then 1 + ZeroRun(GROUPS, i + 1) else 0
  {
  }

  lemma {:induction false} EndpointText4()
    ensures FormatEndpoint(In4(HOST4, 51820)) == "192.0.2.1:51820"
    ensures ParseEndpoint("192.0.2.1:51820") == Ok(In4(HOST4, 51820))
  {
    hide Ntop4, Dec, ParseEndpoint, Pton4;
    Text4();
    PortDecimal();
    EndpointRoundTrip(In4(HOST4, 51820));
  }

  lemma {:induction false} EndpointText6()
    ensures FormatEndpoint(In6(HOST6, 51820)) == "[2001:db8::1]:51820"
    ensures ParseEndpoint("[2001:db8::1]:51820") == Ok(In6(HOST6, 51820))
  {
    hide Ntop6, Dec, ParseEndpoint, Pton6;
    Text6();
    PortDecimal();
    Glued6();
    EndpointRoundTrip(In6(HOST6, 51820));
  }

  lemma {:induction false} CidrText()
    ensures FormatCIDR(AllowedIP("192.0.2.1", 2, 24)) == "192.0.2.1/24"
    ensures ParseCIDR("192.0.2.1/24") == Ok(AllowedIP("192.0.2.1", 2, 24))
  {
    hide Dec, ParseCIDR, Pton4, Pton6;
    SmallDecimals();
    assert "192.0.2.1" + "/" + "24" == "192.0.2.1/24";
    Text4();
    NoText6();
    CidrRoundTrip(AllowedIP("192.0.2.1", 2, 24));
  }

  lemma {:induction false} NoText6()
    ensures CStr("192.0.2.1") == "192.0.2.1" && Pton6("192.0.2.1").None? && '/' !in "192.0.2.1"
  {
    hide Scan6, CStr;
    DottedOnly();
    NoColonNoScan("192.0.2.1", "192.0.2.1", 0, 0);
    Whole("192.0.2.1");
  }

  lemma {:induction false} DottedOnly()
    ensures var s := "192.0.2.1"; ':' !in s && '/' !in s && '\0' !in s
  {
  }

  lemma {:induction false} Whole(s: string)
    requires '\0' !in s
    ensures CStr(s) == s
  {
  }

  /** A text without a colon is no IPv6 address. */
  lemma {:induction false} NoColonNoScan(rest: string, token: string, digits: nat, val: nat)
    requires ':' !in rest && digits <= 4 && val < Power16(digits)
    ensures Scan6(rest, token, [], None, digits, val).None?
    decreases |rest|
  {
    hide Pton4, HexDecodeChar;
    if rest != "" && HexDecodeChar(rest[0]) >= 0 && digits < 4 {
      NoColonNoScan(rest[1..], token, digits + 1, 16 * val + HexDecodeChar(rest[0]));
    }
  }

  // ----- requests and replies -----

  /** A request that sets one port. */
  lemma {:induction false} PortRequest()
    ensures SetRequest(BlankConfig().(listenPort := Some(51820))) == Ok("set=1\nlisten_port=51820\n\n")
  {
    hide Dec, Render, LineOf;
    PortDecimal();
    PortFields();
    TwoLines(Field("set", "1"), Field("listen_port", "51820"));
    SetLine();
    PortLine();
    assert EndpointsOk([]);
    Glued();
  }

  lemma {:induction false} PortFields()
    ensures var c := BlankConfig().(listenPort := Some(51820));
      DeviceFields(c) + AllPeerFields([]) == [Field("set", "1"), Field("listen_port", Dec(51820))]
  {
    hide Dec;
  }

  lemma {:induction false} TwoLines(a: Field, b: Field)
    ensures Render([a, b]) == LineOf(a) + "\n" + (LineOf(b) + "\n")
  {
    hide LineOf;
    assert [a, b][..1] == [a] && [a][..0] == [];
    assert Render([]) == "";
    assert Render([a]) == "" + (LineOf(a) + "\n") == LineOf(a) + "\n";
  }

  lemma {:induction false} SetLine()
    ensures LineOf(Field("set", "1")) + "\n" == "set=1\n"
  {
  }

  lemma {:induction false} PortLine()
    ensures LineOf(Field("listen_port", "51820")) + "\n" == "listen_port=51820\n"
  {
  }

  lemma {:induction false} Glued()
    ensures "set=1\n" + "listen_port=51820\n" + "\n" == "set=1\nlisten_port=51820\n\n"
  {
  }

  /** A peer entry with nothing but a key has every other field at its default. */
  lemma {:induction false} KeyOnlyPeer(key: Key)
    ensures var attrs := [Attr(1, key)];
      PeerOk(attrs) && PeerOf(attrs) == Peer(key, None, None, 0, 0, 0, 0, [], 0)
  {
    var attrs := [Attr(1, key)];
    assert attrs[1..] == [];
    assert key[..32] == key;
    assert PeerFold([], BlankPeer(key)) == BlankPeer(key);
  }
}
