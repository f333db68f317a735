# A verified model of the WireGuard control client

The client drives WireGuard interfaces over two wire formats: nested netlink attributes for the
kernel module and `key=value` lines for userspace implementations. On top of the formats sit a
request/reply protocol over one netlink socket and a promise chain that lets one native call run
at a time. This project models all four layers and proves how they behave together.

- **Keys and text** (`Core`, `Text`, `WireGuard`, `KeyText`, `Inet`, `Address`, `Vectors`): base64
  and hex keys, the number parsers as `std::stoi` and `std::stoul` behave, `inet_pton`/`inet_ntop`,
  endpoints, CIDR texts, interface names, and concrete texts that fix the shared notation.
- **Userspace protocol** (`Uapi`, `UapiRoundTrip`, `UapiGet`, `UapiSections`, `UapiSetReader`): the
  request printer, the response parser with its current-peer cursor, and what a response says,
  line by line.
- **Netlink** (`Wire`, `Mnl`, `NlTree`, `NlBuild`, `NlParse`, `NlRoundTrip`, `Reassembly`,
  `NlReport`, `NlDump`, `NlInjective`, `KernelReader`): headers and integers byte by byte; an
  attribute tree as the specification; a class that writes into a fixed byte array with a length
  cursor and patches nest lengths afterwards; a strict reader of requests from the kernel's side;
  the callbacks that read replies and merge split peers; what a dump says, attribute by attribute,
  and one concrete layout of dumps. `Backends` compares the two formats.
- **Protocol** (`NlSocket`, `SignedWalk`, `Isolation`, `Endings`, `Frames`, `Client`): the receive
  loop over packed datagrams, what each message does to it from its bytes, its walk under a signed
  length test, runs of transactions, the cached family lookup, and what one native call does on the
  socket.
- **Queue and whole** (`CallQueue`, `EndToEnd`, `KernelDump`, `ReportRun`): the promise chain with
  explicit promises, reactions and jobs (sections 27.2.1 and 27.2.5.4 of ECMA-262), the machine
  that runs native calls, socket operations and promise jobs in every interleaving, a kernel's
  answers byte by byte, and one run from call to result.

Loops and updates in place are methods proved equal to functions, and the theorems are about those
functions. The end-to-end machine takes a native call apart into single socket operations;
`TurnIsSubmit` shows that these compute the function the client's methods are proved equal to.
`dafny verify dfyconfig.toml` checks everything.

## What the proofs found

- The comments at `src/netlink/NlAttr.cpp:20-22` and `src/uapi/UapiCodec.cpp:13-16` promise strict
  decimal parsers. `std::stoi` skips white space and takes a sign, so " 51820" is a port, and
  `std::stoul` takes "-18446744073709551615" for 1. `PortStrict` and `UnsignedStrict` give the
  condition under which the promise holds: the text starts with a digit. `PortLanguage` and
  `UnsignedLanguage` give everything that is accepted; `EndpointLanguage` and `CidrLanguage` do so
  for endpoints and allowed ips.
- An endpoint such as "1.2.3.4:" followed by a line feed and "80" therefore passes validation and
  splits its line in a userspace request (`LineFeedEndpoint`, `LineFeedBreaksRoundTrip`).
  `UapiRoundTrip` shows that line feeds in address texts, and allowed ips no text parses to, are the
  only things that break that round trip.
- The kernel path rewrites addresses into canonical spelling, the userspace path copies them;
  `BackendsAgree` shows that this is the only difference between the two.
- Of the estimate for a SET message, the 128 bytes per peer are reached exactly by a peer with
  every optional part and an IPv6 endpoint (`PeerBudgetIsTight`); the other terms have room.
- The second handler in `this.queue.then(task, task)` can never run: no queue promise is ever
  rejected (`QueueNeverRejects`).
- A zero-length datagram ends a transaction as if it were complete. One that stands unread when a
  request is sent makes that request read nothing: `device(name)` then resolves to a blank device
  (`EmptyDatagramBlanks`, `BlankRun`). `DeviceCall` and `DeviceCallReturnsDevice` show that nothing
  else can come between a call and its own replies.
- That the walk over a datagram ends rests on the message library. Where it compares lengths as
  signed numbers, a header of length 2^32 - 1 is met for ever (`ForeignStands`); `EndsIffAdvances`
  gives the headers on which the walk ends.
- The family and mask of an allowed ip start out uninitialised. `NoJunk` gives the entries for
  which that shows: those without a family or a mask, or whose last address precedes every family.
- A transaction that ends early leaves messages unread. They never reach a later handler; only a
  receive failure or an empty datagram left unread can end a later transaction, and then before
  anything is handed over (`TransactionIsolation`).

## Model

| member | source | states |
|---|---|---|
| KeyText.KeyToBase64 | src/crypto/Key.cpp:76-101 | the three-byte loop and its remainder print symbol i as bits 6i..6i+5 of the key, then one '=' |
| KeyText.KeyFromBase64 | src/crypto/Key.cpp:103-135 | accepts exactly a 43-symbol body with any number of '=' behind it, and stores bits 8j..8j+7 of the symbols as byte j |
| KeyText.DecodeBody | src/crypto/Key.cpp:112-134 | the wrapping 32-bit accumulator loop keeps 8*outPos + bits = 6*symbols, and neither output-length guard can fire |
| KeyText.PushLowBits | src/crypto/Key.cpp:121 | wrapping to 32 bits keeps the twelve low bits, the only ones read again |
| KeyText.WrapIsHarmless | src/crypto/Key.cpp:114-129 | every byte equals the one an accumulator that never wraps would give |
| KeyText.Base64RoundTrip | src/crypto/Key.cpp:76-135 | decoding an encoded key gives the key, for every key |
| KeyText.Base64Canonical | src/crypto/Key.cpp:103-135 | re-encoding an accepted text gives it back if and only if it is 44 characters long and the last symbol's two low bits are zero |
| KeyText.FourBodiesPerKey | src/crypto/Key.cpp:103-135 | a body decodes to a key if and only if it is one of four texts, which differ |
| KeyText.KeyToHex | src/crypto/Key.cpp:137-145 | the loop prints the two digits of each byte in order |
| KeyText.KeyFromHex | src/crypto/Key.cpp:147-161 | accepts exactly 64 hex digits, either case, and reads them pairwise |
| KeyText.HexRoundTrip | src/crypto/Key.cpp:137-161 | reading a printed key gives the key |
| KeyText.HexLowerCases | src/crypto/Key.cpp:137-161 | printing what an accepted text reads to gives the text lower-cased |
| KeyText.Base64Alphabet | src/crypto/Key.cpp:19 | the 64 symbols, written out |
| KeyText.HexAlphabet | src/crypto/Key.cpp:31-38 | the hex digits, written out, read in either case |
| Inet.Pton4Ntop4 | src/netlink/NlAttr.cpp:76-87 | every IPv4 address survives printing and parsing |
| Inet.Pton4Canonical | src/netlink/NlAttr.cpp:280 | a text parses to an IPv4 address if and only if it is that address's printed form |
| Inet.Pton6Ntop6 | src/netlink/NlAttr.cpp:60-90 | every IPv6 address survives printing and parsing, in all four shapes the printer picks |
| Address.PortStrict | src/netlink/NlAttr.cpp:20-38 | on texts that start with a digit the accepted ports are exactly the digit strings up to 65535 |
| Address.PortLanguage | src/netlink/NlAttr.cpp:20-38 | a text is accepted as port p if and only if it is blanks, an optional sign, and digits that stand for p, with a minus sign for zero only |
| Address.PortSkipsLeadingSpace | src/netlink/NlAttr.cpp:20-38 | a space in front of any port text is let by, against the comment |
| Address.LineFeedEndpoint | src/netlink/NlAttr.cpp:66-80 | "1.2.3.4:", a line feed and "80" parse as port 80 of 1.2.3.4 |
| Address.EndpointRoundTrip | src/netlink/NlAttr.cpp:40-92 | parsing a printed endpoint gives it back, for both families and every port |
| Address.EndpointLanguage | src/netlink/NlAttr.cpp:40-80 | a text is accepted as an endpoint if and only if it is "[", an IPv6 host without "]", "]:" and a port, or an IPv4 host that does not start with "[", ":" and a port without ":" |
| Address.CidrRoundTrip | src/netlink/NlAttr.cpp:250-295 | parsing a printed allowed ip gives it back if and only if it is a value the parser can return |
| Address.CidrValues | src/netlink/NlAttr.cpp:250-291 | every parsed allowed ip has no '/', a family that its text parses in, and a mask within that family |
| Address.CidrLanguage | src/netlink/NlAttr.cpp:250-291 | a text is accepted as an allowed ip if and only if it is an address without "/", "/", and a mask of blanks, an optional sign and digits and nothing behind, up to 128 with family 10 if the address is IPv6, else up to 32 with family 2 and an IPv4 address |
| Address.WhichEndpointsBuild | src/netlink/NlAttr.cpp:297-299 | the endpoint check of a configuration passes if and only if the endpoint of every peer that gives one parses |
| Address.NameBytes | src/helpers/IfName.cpp:8-25 | a name without NUL, stored with a NUL behind it, reads back as itself whatever follows |
| Address.RefusedNames | src/helpers/IfName.cpp:8-25 | a name is refused if and only if it is empty, longer than 15, ".", "..", or holds a "/" or a character up to the space |
| Uapi.UnsignedStrict | src/uapi/UapiCodec.cpp:13-32 | on texts that start with a digit the accepted numbers are exactly the digit strings up to the bound |
| Uapi.UnsignedLanguage | src/uapi/UapiCodec.cpp:13-32 | a text is accepted as n if and only if it is blanks, an optional sign, and digits of a value below 2^64 that is n, negated modulo 2^64 behind a minus sign, and n is within the bound |
| Uapi.UnsignedAcceptsNegative | src/uapi/UapiCodec.cpp:17-32 | a negative number is accepted exactly when its negation modulo 2^64 is within the bound |
| Uapi.ReadLine | src/uapi/UapiCodec.cpp:57-113 | one line with the cursor does what the line function says, and the cursor stays on the last peer |
| Uapi.ParseGetResponse | src/uapi/UapiCodec.cpp:48-120 | the loop computes the fold over the lines, first error included; the public key is the one derived from the private key if some byte of that is not zero, and left out otherwise |
| Uapi.PublicKeyDerived | src/uapi/UapiCodec.cpp:115-117 | so for every response that parses, which also keeps the name asked for and is marked userspace |
| Uapi.GetErrnoRaises | src/uapi/UapiCodec.cpp:67-73 | an errno line with a number that is not zero ends a GET response with that number, sign included, if the lines before it parse |
| Uapi.ParseSetResponse | src/uapi/UapiCodec.cpp:169-184 | accepted if and only if no errno line is malformed or non-zero; otherwise the first such line's error |
| Uapi.ErrnoComplains | src/uapi/UapiCodec.cpp:177-181 | an errno line of a SET response with a number complains with that number, sign included, unless it is zero |
| Uapi.ErrnoRaises | src/uapi/UapiCodec.cpp:68-71 | the number of an errno value is what blanks, a sign and digits at its start stand for, whatever no digit follows |
| Uapi.BuildSetRequest | src/uapi/UapiCodec.cpp:122-167 | the stream holds "set=1", the device fields and each peer's fields in the protocol's order; the build fails if and only if some peer's endpoint does not parse |
| UapiRoundTrip.UapiRoundTrip | src/uapi/UapiCodec.cpp:48-167 | a request that builds reads back as its device fields, the public key that goes with its private key, and one peer per entry, in order, if and only if address texts hold no line feed and allowed ips are values the parser returns |
| UapiRoundTrip.ParsedIpClean | src/netlink/NlAttr.cpp:250-291 | an allowed ip parsed from a one-line text meets that condition |
| UapiRoundTrip.ParseIsClean | src/uapi/UapiCodec.cpp:53-113 | so does every peer of a device that any response parses to |
| UapiRoundTrip.LineFeedBreaksRoundTrip | src/uapi/UapiCodec.cpp:150-153 | a configuration whose endpoint holds a line feed builds, and its request does not read back |
| UapiGet.SectionHeard | src/uapi/UapiCodec.cpp:75-103 | a peer section whose lines say a peer's fields, in any order, defaults left out at will and unknown lines between, is read as that peer |
| UapiGet.GetResponseHeard | src/uapi/UapiCodec.cpp:48-120 | a response whose header says a device's own fields and whose sections say its peers is read as that device, counters, signed handshake times, versions and the derived public key included |
| UapiGet.LinesOfUnlines | src/uapi/UapiCodec.cpp:54-56 | any list of lines is that of some response |
| UapiSections.CursorRefinesSections | src/uapi/UapiCodec.cpp:53-113 | the cursor parser equals a reference that cuts at public_key lines and parses each section alone, errors included |
| UapiSections.HeaderLocality | src/uapi/UapiCodec.cpp:53-113 | device fields depend only on the header, with any peers or none behind it |
| UapiSections.SectionLocality | src/uapi/UapiCodec.cpp:53-113 | a peer depends only on its own section, wherever it stands |
| UapiSections.DropIgnored | src/uapi/UapiCodec.cpp:60-113 | dropping a line without '=' or with an unknown key changes no outcome |
| UapiSections.SwapLines | src/uapi/UapiCodec.cpp:67-112 | neighbouring lines with different keys inside a section may change places in a response that parses |
| UapiSetReader.SetRequestReadsBack | src/uapi/UapiCodec.cpp:122-167 | a strict reader accepts every request of a clean configuration and recovers the whole configuration, flags and "omitted" against "zero" included |
| UapiSetReader.AcceptedIsStrict | src/uapi/UapiCodec.cpp:122-167 | the reader accepts only texts that start with "set=1" and a line feed, end with an empty line, and hold known keys in between, peer keys behind a public key, device keys before any, flags with the value "true" |
| UapiSetReader.SetRequestInjective | src/uapi/UapiCodec.cpp:122-167 | equal requests come from equal configurations |
| Mnl.WalkEncoded | src/netlink/NlAttr.cpp:94-246 | walking an encoded list visits each attribute once, in order, with its payload, and the lengths tile the bytes with no gap |
| Mnl.ReadsBackIffFits | src/netlink/NlAttr.cpp:110-112 | an attribute reads back with its whole payload if and only if its 16-bit length does not wrap |
| Mnl.FitTilesDeep | src/netlink/NlAttr.cpp:94-113 | in a nest whose lengths do not wrap the children of every nest, at every depth, tile it |
| NlTree.PeerBudgetIsTight | src/netlink/NlAttr.cpp:354-400 | the 128-byte and 64-byte terms cover a peer entry; the 128 bytes are reached exactly when the peer has flags, preshared key, keepalive, allowed ips and an IPv6 endpoint |
| NlTree.EstimateSetDeviceMessageSize | src/netlink/NlAttr.cpp:391-400 | the accumulating loop gives 512, plus 128 for each peer, plus 64 for each allowed ip |
| NlTree.MessageFitsEstimate | src/netlink/NlAttr.cpp:316-400 | a SET message is at least 408 bytes below its estimate, for any number of peers and allowed ips |
| NlBuild.MsgBuffer.Put | src/netlink/NlAttr.cpp:328-346 | one put writes length, type, payload and padding at the cursor kept in the header, advances it by the aligned length, stays in the buffer and leaves the rest alone |
| NlBuild.MsgBuffer.NestStart | src/netlink/NlAttr.cpp:95-98 | opening a nest reserves four bytes at the cursor and writes the type |
| NlBuild.MsgBuffer.NestEnd | src/netlink/NlAttr.cpp:110-112 | closing a nest stores the distance to the tail, modulo 2^16, in its own length field only |
| NlBuild.NestCloses | src/netlink/NlAttr.cpp:94-113 | open, write encoded children, close: the bytes are the encoded nest |
| NlBuild.PutAllowedIPs | src/netlink/NlAttr.cpp:94-113 | the loop appends exactly the encoded nest of allowed ips, at most 40 bytes each |
| NlBuild.PutPeers | src/netlink/NlAttr.cpp:348-382 | the loop appends exactly the encoded peers nest inside the room the estimate gives, or stops at the first invalid endpoint |
| NlBuild.BuildSetDeviceMessage | src/netlink/NlAttr.cpp:316-385 | it throws exactly for a bad name or endpoint; in any buffer as large as the estimate every write stays inside, even past the wrap of the 32-bit length, and below it the bytes are the header and the encoded tree |
| NlBuild.BuildGetDeviceMessage | src/netlink/NlAttr.cpp:301-314 | the bytes of the dump request for a valid name, an error for any other |
| NlBuild.SetOnWire | src/netlink/NlAttr.cpp:318-325 | byte by byte a SET message says its own length, the family, flags 5, its number, port 0, command 1 and version 1 |
| NlBuild.GetOnWire | src/netlink/NlAttr.cpp:303-310 | and a GET message its own length, the family, flags 0x305, its number, port 0, command 0 and version 1 |
| KernelReader.SetRequestRead | src/netlink/NlAttr.cpp:316-385 | a strict reader with the numbers of the uapi header accepts every SET message and recovers name, number and configuration: bits 1, 2 and 4 of peer attribute 3 as remove, replaceAllowedIPs and updateOnly, bit 1 of device attribute 5 as replacePeers, sockaddrs and addresses as bytes, nested bits where they belong |
| KernelReader.NamesAsked | src/netlink/NlAttr.cpp:312 | a GET message asks for the device by name under attribute 2, NUL-terminated, the lookup for "wireguard", and nothing else |
| NlBuild.SetRequestBytes | src/WireGuardClient.cpp:222-227 | a buffer of the larger of socket buffer and estimate suffices for every configuration, and holds the message if its length fits 32 bits |
| NlParse.NoJunk | src/netlink/NlAttr.cpp:115-147 | what the uninitialised family and mask held shows in an entry if and only if the entry gives no family or no mask, or its last address precedes every family |
| NlParse.ParseAllowedIP | src/netlink/NlAttr.cpp:115-147 | the callback walk reads one entry, whatever the family and mask held before |
| NlParse.ParsePeers | src/netlink/NlAttr.cpp:194-212 | the callback walk appends each entry, or merges it into the last peer when the keys agree |
| NlParse.DeviceBox.ParseDeviceMessage | src/netlink/NlAttr.cpp:214-246 | the device updated in place is the fold of the attributes over the old device |
| NlRoundTrip.NetlinkRoundTrip | src/netlink/NlAttr.cpp:94-389 | reading the bytes of a SET message gives the name, the device fields that were set, and the peers with canonical addresses, neighbours of one key merged; the lengths tile the message and every nest in it, down to each allowed ip |
| NlRoundTrip.OrderlyReadsBack | src/netlink/NlAttr.cpp:115-147 | an allowed-ip entry reads back in any order of its attributes, others between, as long as the family precedes the address |
| Reassembly.NetlinkRoundTripExact | src/netlink/NlAttr.cpp:194-389 | with no neighbouring equal keys the round trip gives one peer per entry |
| Reassembly.MergeIsRuns | src/netlink/NlAttr.cpp:194-212 | merging entry by entry gives one peer per maximal run of a key |
| Reassembly.MergeNormalForm | src/netlink/NlAttr.cpp:141-246 | after any well-formed replies no two neighbouring peers share a key, and the allowed ips are those received, none lost, doubled or reordered |
| Reassembly.ReassemblyInvertsCut | src/WireGuardClient.cpp:193-199 | folding the parser over any dump of a device, cut into entries and messages in any way, gives the device back |
| NlReport.PeerHeard | src/netlink/NlAttr.cpp:149-192 | an entry whose attributes say a peer's fields, in any order, with any numbering, defaults left out at will and others between, is read as that peer, signed handshake time and 64-bit counters included |
| NlReport.AnyDumpHeard | src/netlink/NlAttr.cpp:194-246 | for any device with no neighbouring equal keys, messages that say it, in any layout and any cut into entries and messages, fold to the device, every field of it |
| NlDump.DumpReadsBack | src/netlink/NlAttr.cpp:194-246 | every such device has dumps: one concrete encoding, for any cut, says the device and folds to it |
| NlInjective.SetMessageInjective | src/netlink/NlAttr.cpp:330-382 | equal messages come from one name and from configurations equal up to the spelling of addresses; no flags collide |
| NlInjective.SameMessageIffSameSpelling | src/netlink/NlAttr.cpp:330-382 | with the header given, two configurations build the same message if and only if they are equal up to the spelling of addresses |
| Backends.BackendsAgree | src/uapi/UapiCodec.cpp:48-167 | the netlink and the userspace form of a configuration read back with equal name, private key, port and mark, and with equal peers if and only if every address is canonical |
| Backends.CanonicalIsClean | src/uapi/UapiCodec.cpp:139-163 | canonical addresses meet the userspace condition |
| NlSocket.Socket.SendAndReceive | src/netlink/NlSocket.cpp:52-108 | the two loops hand over, end and leave unread exactly what the function of the queued events says |
| NlSocket.Socket.WalkDatagram | src/netlink/NlSocket.cpp:70-103 | with lengths compared as unsigned numbers, the inner walk ends on any bytes and equals the scan of the datagram's messages |
| SignedWalk.EndsIffAdvances | src/netlink/NlSocket.cpp:74-102 | with lengths compared as signed numbers and a 32-bit remainder, the walk over any bytes ends inside the datagram if and only if every header it steps over has an aligned length above zero and at most 2^31 above what remains |
| SignedWalk.ShortWalkScans | src/netlink/NlSocket.cpp:74-102 | that walk visits exactly the datagram's messages, and ends as their scan does, when every header it looks at has a length below 2^31 |
| SignedWalk.PackedWalkScans | src/netlink/NlSocket.cpp:74-102 | so it does on any packed well-formed messages |
| SignedWalk.ForeignStands | src/netlink/NlSocket.cpp:76-79 | the failing input: sixteen bytes that start with FF FF FF FF and bear another number; no turn changes the cursor or what remains |
| SignedWalk.OwnRepeats | src/netlink/NlSocket.cpp:94-102 | the same bytes with the own number and the multipart flag are handed over once at every turn |
| SignedWalk.WrapLeaves | src/netlink/NlSocket.cpp:76-79 | a length of 2^31 + 2^30 makes the remainder positive again with the cursor outside the datagram |
| NlSocket.Socket.NextSeq | src/netlink/NlSocket.h:35 | the counter grows by one modulo 2^32 |
| NlSocket.LookupOnWire | src/netlink/NlSocket.cpp:118-127 | the lookup goes to family 16 with flags 5, its number, port 0, command 3 and version 1 |
| NlSocket.RequestSeen | src/netlink/NlSocket.cpp:76-77 | the receive loop's own readers find in any such request the number its replies are matched by |
| Endings.ErrorEnds | src/netlink/NlSocket.cpp:80-86 | an own error message (type 2) with the two's complement of -code behind its header fails with that code and hands nothing over |
| Endings.NoDeviceEnds | src/netlink/NlSocket.cpp:80-86 | the framed answer -19 ends as errno 19 |
| Endings.AckEnds | src/netlink/NlSocket.cpp:80-88 | four zero bytes there complete the transaction |
| Endings.DoneEnds | src/netlink/NlSocket.cpp:90-93 | so does a message of type 3 |
| Endings.DataHandedOver | src/netlink/NlSocket.cpp:94-102 | any other own message is handed over, and the transaction goes on if and only if flag 2 is set and the handler agrees |
| Endings.OthersPass | src/netlink/NlSocket.cpp:76-79 | a message with another number or port is passed over |
| Endings.BreaksEnd | src/netlink/NlSocket.cpp:62-67 | a failed receive ends with its errno, an empty one completes |
| Endings.LastFamilyId | src/netlink/NlSocket.cpp:19-27 | the family id is the two bytes of the last attribute of type 1 |
| Endings.NoneFound | src/netlink/NlSocket.cpp:129-133 | replies without such an attribute give no id |
| Endings.NoIdFails | src/netlink/NlSocket.cpp:136-138 | a lookup that completes without an id fails with errno 19 and caches nothing |
| NlSocket.Socket.WireGuardFamilyId | src/netlink/NlSocket.cpp:110-141 | a cached id costs no transaction; otherwise the lookup request is built and sent under a new number, which it says on the wire, and its id is kept if there is one, ENODEV if there is none |
| NlSocket.PackingIndependence | src/netlink/NlSocket.cpp:60-107 | handler trace and outcome depend only on the flattened messages, not on how they are packed |
| NlSocket.MessagesOfPack | src/netlink/NlSocket.cpp:70-103 | the walk over any packed well-formed messages visits exactly these |
| Isolation.TransactionHandsOver | src/netlink/NlSocket.cpp:74-102 | a handler is handed its own request's messages, in order, up to the first terminator, non-multipart message or refusal, and the outcome is that end's |
| Isolation.TransactionIsolation | src/netlink/NlSocket.cpp:52-108 | in a run of fewer than 2^32 requests each goes as it would alone, whatever is left unread; a leftover failure or empty datagram ends it with nothing handed over |
| Isolation.FreshSocketIsolation | src/netlink/NlSocket.h:35-41 | on a fresh socket that receives only datagrams every transaction is exactly the one it would be alone |
| Isolation.EndsAtSingleReply | src/netlink/NlSocket.cpp:98-133 | the family lookup ends at its one reply and leaves everything behind that datagram, its acknowledgement included, unread |
| Client.FetchDeviceKernel | src/WireGuardClient.cpp:187-200 | lookup, number, the bytes of the dump request, which on the wire say that family, flags 0x305 and the number the replies are matched by, and the device assembled from exactly the messages handed over |
| Client.ApplyConfig | src/WireGuardClient.cpp:222-227 | lookup, number, and the SET message sent, which on the wire says that family, flags 5 and the number the replies are matched by; nothing is sent when it cannot be built |
| CallQueue.WireGuardClient.Enqueue | lib/index.ts:59-66 | the queue field moves to a new promise behind the caller's, chained behind everything before |
| CallQueue.PromisesRefineQueue | lib/index.ts:59-66 | every reachable heap of promises, reactions and jobs is the picture of a simple queue after the same steps |
| CallQueue.QueueSafety | lib/index.ts:55-66 | in every run native calls start once each, in call order, one at a time, and each caller's promise settles with its own call's outcome |
| CallQueue.QueueNeverRejects | lib/index.ts:60-64 | a settled queue promise is fulfilled with undefined, so the second handler passed to then never runs |
| CallQueue.QueueProgress | lib/index.ts:55-66 | while a caller waits, a job can run or exactly the head's native call is in flight; nothing is left to do if and only if every caller is settled |
| CallQueue.QueueDrains | lib/index.ts:56-58 | every step but a new call brings the end nearer, rejections included: at most five steps for each call |
| EndToEnd.CallsGetOwnReplies | lib/index.ts:59-66 | in every interleaving of fewer than 2^32 numbers a call that resolves gives the devices read from the replies to its own requests, or nothing for a request sent while a zero-length datagram stood unread; no two requests share a number |
| EndToEnd.DeviceCall | src/WireGuardClient.cpp:187-200 | a device(name) call that resolves gives the one device assembled from its own request's replies if no zero-length datagram stood unread when it was sent, and a blank one otherwise |
| EndToEnd.DumpServed | src/netlink/NlSocket.cpp:52-108 | a dump of a device in any layout, packed and cut in any way, is handed over whole and assembles to the device, whatever messages follow its end in the last datagram and whatever datagrams, empty ones and failures included, come behind |
| EndToEnd.ToldIsDump | src/WireGuardClient.cpp:193-199 | multipart messages that say a device attribute by attribute are such a dump |
| KernelDump.PackedDumpAnswers | src/netlink/NlSocket.cpp:70-103 | for any device and any cut, the framed bytes of its dump and of the end-of-dump message, packed into datagrams in any way with anything behind, are such an answer |
| EndToEnd.DeviceCallReturnsDevice | src/WireGuardClient.cpp:187-200 | a device(name) call answered with a dump of a device resolves to that device if and only if no zero-length datagram stood unread when it was sent, blank devices aside |
| EndToEnd.EmptyDatagramBlanks | src/netlink/NlSocket.cpp:65-67 | the failing input: an empty datagram behind the answer to the lookup makes the request read a blank device whatever the kernel answers |
| ReportRun.BlankRun | lib/index.ts:59-66 | the failing run, for every device: an honest kernel dumps the device, an empty datagram stands behind its answer to the lookup, and the call resolves to a blank device |
| ReportRun.DeviceRun | lib/index.ts:59-66 | the same run without the empty datagram: the call resolves to the device |
| ReportRun.BlankRunWg0 | lib/index.ts:59-66 | one concrete such run: the kernel reports port 51820 and the caller sees a blank device |
| Vectors.EndpointText4 | src/netlink/NlAttr.cpp:40-92 | 192.0.2.1 with port 51820 is "192.0.2.1:51820", printed and parsed |
| Vectors.EndpointText6 | src/netlink/NlAttr.cpp:40-92 | 2001:db8::1 with port 51820 is "[2001:db8::1]:51820", printed and parsed |
| Vectors.KeyTexts | src/crypto/Key.cpp:76-145 | the bytes of "Man" in front of a key are "TWFu" in base64 and "4d616e" in hex |
| Vectors.PortRequest | src/uapi/UapiCodec.cpp:122-167 | setting port 51820 is the text "set=1", "listen_port=51820" and an empty line |
| Vectors.KeyOnlyPeer | src/netlink/NlAttr.cpp:194-212 | an entry with nothing but a key is read with every other field zero or absent |
| EndToEnd.TurnIsSubmit | src/WireGuardClient.cpp:187-200 | the single socket operations of a native call compute what its methods compute in one piece |
| EndToEnd.WorldProgress | lib/index.ts:55-66 | while a caller waits, some step is enabled unless the one call in flight waits for the kernel |

## Left out

- NlRoundTrip.NetlinkRoundTrip: asks that the peers nest stays below 2^16 bytes; what is read from a message whose nest length wraps is not described beyond `Mnl.ReadsBackIffFits`.
- NlBuild.BuildSetDeviceMessage: what a message of 2^32 bytes or more holds is not described, only that its writes stay inside; `size_t` overflow of the estimate is not modelled.
- NlParse.DeviceBox.ParseDeviceMessage: asks for replies whose payloads are long enough and whose allowed-ip entries settle their fields; the source reads the others past their end or uninitialised, which has no defined result. `NoJunk` gives the exact condition on the entries.
- NlParse.ParseAllowedIP: the same for one entry.
- NlParse.ParsePeers: the same for a peers nest.
- NlReport.AnyDumpHeard: device fields come in the first message only, as a kernel sends them.
- NlSocket.Socket.WalkDatagram: takes the library's length test on unsigned numbers. libmnl is not part of this model's source, and a library that compares signed numbers differs on lengths of 2^31 and more; `SignedWalk` has its walk, with the exact condition under which it ends and visits the same messages. An error message too short for its code reads as code 0.
- NlSocket.Socket.WireGuardFamilyId: an id attribute too short to hold an id is passed over.
- NlSocket.MessagesOfPack: messages carry consistent length fields and padding, as a kernel writes them.
- Client.FetchDeviceKernel: asks for replies the parser may be given, as `ParseDeviceMessage` does; the handler is applied to the messages after the transaction instead of during it; it never stops early and has no other effect, so nothing else changes.
- EndToEnd.CallsGetOwnReplies: replies are queued whole when their request is sent, so waiting for a slow kernel is not a step of its own; for replies the parser may not be given, the device is unspecified.
- CallQueue.QueueSafety: values are never thenables, and what callers chain onto their own promises is left to the caller; `close()` is not a step, only its effect that later calls reject.
- The size of the receive buffer: a datagram is taken whole, however long.
- Byte order: integers are laid out as on a little-endian host.
- Text of exceptions: only their kind and error code are kept.
- The GET request of the userspace protocol: a constant text.
- Endings.ErrorEnds: negating the code -2^31 is undefined in the source; here it gives 2^31.
- System calls, timeouts, opening sockets and directory scans: received bytes and errors are arbitrary inputs.
- Key generation and X25519: the public-key derivation is an arbitrary function; scalar clamping is a bit fact.
- The JavaScript object conversions, argument checks and worker threads: the model starts from configurations and from calls that work or fail.
- The route netlink calls (create, delete, up, down, address): they use a socket of their own and appear only as calls without requests.
- Choice of backend by looking for a userspace socket, and the union of interface names in devices(): no logic of their own.
- What a kernel or a userspace daemon does with a SET request: not in the repository.
- IPv6 flow info and scope of endpoints: printed addresses do not show them.
