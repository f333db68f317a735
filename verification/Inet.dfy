/** Address text: `inet_pton` and `inet_ntop` for IPv4 and IPv6, as the usual C libraries
    implement them (section 2.2 of RFC 4291 and section 4 of RFC 5952 for the IPv6 forms). */
module Inet {
  import opened Core
  import opened Text

  type Addr4 = a: seq<byte> | |a| == 4 witness [0, 0, 0, 0]
  type Addr6 = a: seq<byte> | |a| == 16 witness Zeros(16)

  // ----- IPv4 -----

  /** `octets` holds the finished octets and, when `open`, the one being read. */
  function Scan4(s: string, octets: seq<byte>, open: bool): (r: Option<Addr4>)
    requires |octets| <= 4 && (open ==> octets != [])
  {
    if s == "" then (if |octets| == 4 && open then Some(octets) else None)
    else if IsDigit(s[0]) then
      var d := DigitVal(s[0]);
      if open then
        var last := octets[|octets| - 1];
        if last == 0 || 10 * (last as int) + d > 255 then None
        else Scan4(s[1..], octets[..|octets| - 1] + [10 * (last as int) + d], true)
      else if |octets| == 4 then None
      else Scan4(s[1..], octets + [d], true)
    else if s[0] == '.' && open && |octets| < 4 then Scan4(s[1..], octets, false)
    else None
  }

  /** `inet_pton(AF_INET, ...)`. */
  function Pton4(s: string): Option<Addr4> {
    Scan4(s, [], false)
  }

  /** `inet_ntop(AF_INET, ...)`. */
  function Ntop4(a: Addr4): string {
    Dec(a[0]) + "." + Dec(a[1]) + "." + Dec(a[2]) + "." + Dec(a[3])
  }

  lemma {:induction false} Scan4Digit(d: nat, rest: string, octets: seq<byte>)
    requires |octets| < 4 && d < 10
    ensures Scan4([DigitChar(d)] + rest, octets, false) == Scan4(rest, octets + [d], true)
  {
    assert ([DigitChar(d)] + rest)[1..] == rest;
  }

  lemma {:induction false} Scan4More(d: nat, rest: string, octets: seq<byte>, v: nat)
    requires |octets| < 4 && d < 10 && 0 < v && 10 * v + d < 256
    ensures Scan4([DigitChar(d)] + rest, octets + [v], true) == Scan4(rest, octets + [10 * v + d], true)
  {
    assert ([DigitChar(d)] + rest)[1..] == rest;
    assert (octets + [v])[..|octets|] + [10 * v + d] == octets + [10 * v + d];
  }

  lemma {:induction false} Scan4Ends(a: Addr4)
    ensures Scan4("", a, true) == Some(a)
  {
  }

  lemma {:induction false} Scan4Octet(n: byte, rest: string, octets: seq<byte>)
    requires |octets| < 4
    ensures Scan4(Dec(n) + rest, octets, false) == Scan4(rest, octets + [n], true)
    decreases n
  {
    hide Scan4, DigitChar;
    if n < 10 {
      Scan4Digit(n, rest, octets);
    } else {
      var c := [DigitChar(n % 10)];
      Scan4Octet(n / 10, c + rest, octets);
      assert Dec(n) + rest == Dec(n / 10) + (c + rest);
      Scan4More(n % 10, rest, octets, n / 10);
    }
  }

  lemma {:induction false} Scan4Dot(rest: string, octets: seq<byte>)
    requires 0 < |octets| < 4
    ensures Scan4("." + rest, octets, true) == Scan4(rest, octets, false)
  {
    assert ("." + rest)[1..] == rest;
  }

  lemma {:induction false} Ntop4Tail(octets: seq<byte>, a: Addr4, rest: string)
    requires |octets| < 3 && octets == a[..|octets|]
    ensures Scan4(Dec(a[|octets|]) + "." + rest, octets, false) == Scan4(rest, a[..|octets| + 1], false)
  {
    var n := a[|octets|];
    assert Dec(n) + "." + rest == Dec(n) + ("." + rest);
    Scan4Octet(n, "." + rest, octets);
    assert octets + [n] == a[..|octets| + 1];
    Scan4Dot(rest, octets + [n]);
  }

  lemma {:induction false} Pton4Ntop4(a: Addr4)
    ensures Pton4(Ntop4(a)) == Some(a)
  {
    hide Dec, Scan4;
    Scan4Ends(a);
    var t3 := Dec(a[3]);
    var t2 := Dec(a[2]) + "." + t3;
    var t1 := Dec(a[1]) + "." + t2;
    assert Ntop4(a) == Dec(a[0]) + "." + t1;
    Ntop4Tail([], a, t1);
    Ntop4Tail(a[..1], a, t2);
    Ntop4Tail(a[..2], a, t3);
    assert t3 + "" == t3;
    Scan4Octet(a[3], "", a[..3]);
    assert a[..3] + [a[3]] == a;
  }

  /** What the scanner has read so far, spelled out again. */
  function Spelled(octets: seq<byte>, open: bool): string {
    if octets == [] then ""
    else
      var last := Dec(octets[|octets| - 1]);
      Spelled(octets[..|octets| - 1], false) + (if open then last else last + ".")
  }

  lemma {:induction false} SpellMore(octets: seq<byte>, d: nat)
    requires octets != [] && d < 10 && 0 < octets[|octets| - 1] && 10 * (octets[|octets| - 1] as int) + d < 256
    ensures Spelled(octets[..|octets| - 1] + [10 * (octets[|octets| - 1] as int) + d], true)
         == Spelled(octets, true) + [DigitChar(d)]
  {
    var n := |octets|;
    var last: int := octets[n - 1];
    var next := octets[..n - 1] + [10 * last + d];
    assert next[..n - 1] == octets[..n - 1];
    assert (10 * last + d) / 10 == last && (10 * last + d) % 10 == d;
    assert Dec(10 * last + d) == Dec(last) + [DigitChar(d)];
  }

  lemma {:induction false} SpellNew(octets: seq<byte>, d: nat)
    requires d < 10
    ensures Spelled(octets + [d], true) == Spelled(octets, false) + [DigitChar(d)]
  {
    assert (octets + [d])[..|octets|] == octets;
  }

  lemma {:induction false} SpellDot(octets: seq<byte>)
    requires octets != []
    ensures Spelled(octets, false) == Spelled(octets, true) + "."
  {
  }

  lemma {:induction false} Scan4Spells(s: string, octets: seq<byte>, open: bool)
    requires |octets| <= 4 && (open ==> octets != [])
    requires Scan4(s, octets, open).Some?
    ensures Spelled(octets, open) + s == Spelled(Scan4(s, octets, open).value, true)
    decreases |s|
  {
    hide Spelled;
    if s == "" {
      assert Spelled(octets, open) + s == Spelled(octets, open);
    } else {
      var n, rest := |octets|, s[1..];
      var before := Spelled(octets, open);
      assert before + s == before + [s[0]] + rest;
      if !IsDigit(s[0]) {
        SpellDot(octets);
        Scan4Spells(rest, octets, false);
      } else if open {
        SpellMore(octets, DigitVal(s[0]));
        Scan4Spells(rest, octets[..n - 1] + [10 * (octets[n - 1] as int) + DigitVal(s[0])], true);
      } else {
        SpellNew(octets, DigitVal(s[0]));
        Scan4Spells(rest, octets + [DigitVal(s[0])], true);
      }
    }
  }

  lemma {:induction false} SpelledAll(a: Addr4)
    ensures Spelled(a, true) == Ntop4(a)
  {
    hide Dec;
    assert a[..3][..2] == a[..2] && a[..2][..1] == a[..1] && a[..1][..0] == [];
    assert Spelled(a[..1], false) == Dec(a[0]) + ".";
    assert Spelled(a[..2], false) == Spelled(a[..1], false) + (Dec(a[1]) + ".");
    assert Spelled(a[..3], false) == Spelled(a[..2], false) + (Dec(a[2]) + ".");
    assert Spelled(a, true) == Spelled(a[..3], false) + Dec(a[3]);
  }

  /** IPv4 spelling is unique: a text is accepted exactly when it is the printed form of the
      address it denotes. */
  lemma {:induction false} Pton4Canonical(s: string, a: Addr4)
    ensures Pton4(s) == Some(a) <==> s == Ntop4(a)
  {
    if Pton4(s) == Some(a) {
      Scan4Spells(s, [], false);
      SpelledAll(a);
      assert "" + s == s;
    }
    Pton4Ntop4(a);
  }

  // ----- IPv6 -----

  type word = u16

  function HexDigit(d: nat): (c: char)
    requires d < 16
    ensures HexDecodeChar(c) == d && c != ':' && c != '.'
  {
    if d < 10 then ('0' as int + d) as char else ('a' as int + (d - 10)) as char
  }

  /** `printf("%x")`. */
  function HexWord(w: nat): (s: string)
    ensures 1 <= |s|
    ensures w < 16 ==> |s| == 1
    ensures w < 256 ==> |s| <= 2
    ensures w < 4096 ==> |s| <= 3
    ensures w < 65536 ==> |s| <= 4
  {
    if w < 16 then [HexDigit(w)] else HexWord(w / 16) + [HexDigit(w % 16)]
  }

  function Power16(n: nat): nat
    requires n <= 4
  {
    if n == 0 then 1 else if n == 1 then 16 else if n == 2 then 256 else if n == 3 then 4096 else 65536
  }

  /** The end of an IPv6 scan: a group still open is closed, a gap is filled with zeros. */
  function Finish(words: seq<word>, gap: Option<nat>, digits: nat, val: nat): (r: Option<seq<word>>)
    requires |words| <= 8 && digits <= 4 && val < Power16(digits)
    requires gap.Some? ==> gap.value <= |words|
    ensures r.Some? ==> |r.value| == 8
  {
    if digits > 0 && |words| == 8 then None
    else
      var all := if digits > 0 then words + [val] else words;
      match gap
      case None => if |all| == 8 then Some(all) else None
      case Some(g) => if |all| == 8 then None else Some(all[..g] + Fill(8 - |all|) + all[g..])
  }

  function Fill(n: nat): (z: seq<word>)
    ensures |z| == n && forall i :: 0 <= i < n ==> z[i] == 0
  {
    seq(n, _ => 0)
  }

  /** `rest` is what remains to be read, `token` the text from the start of the current group,
      `words` the finished groups, `gap` the place of "::", `digits` and `val` the open group. */
  function Scan6(rest: string, token: string, words: seq<word>, gap: Option<nat>, digits: nat, val: nat): (r: Option<seq<word>>)
    requires |words| <= 8 && digits <= 4 && val < Power16(digits)
    requires gap.Some? ==> gap.value <= |words|
    ensures r.Some? ==> |r.value| == 8
    decreases |rest|
  {
    if rest == "" then Finish(words, gap, digits, val)
    else
      var c, next := rest[0], rest[1..];
      if HexDecodeChar(c) >= 0 then
        if digits == 4 then None else Scan6(next, token, words, gap, digits + 1, 16 * val + HexDecodeChar(c))
      else if c == ':' then
        if digits == 0 then
          if gap.Some? then None else Scan6(next, next, words, Some(|words|), 0, 0)
        else if next == "" || |words| == 8 then None
        else Scan6(next, next, words + [val], gap, 0, 0)
      else if c == '.' && |words| <= 6 then
        match Pton4(token)
        case None => None
        case Some(a) => Finish(words + TwoWords(a), gap, 0, 0)
      else None
  }

  function TwoWords(a: Addr4): (words: seq<word>)
    ensures |words| == 2
  {
    [256 * (a[0] as int) + a[1], 256 * (a[2] as int) + a[3]]
  }

  function Bytes6(words: seq<word>): (a: Addr6)
    requires |words| == 8
    ensures forall i :: 0 <= i < 8 ==> a[2 * i] == words[i] / 256 && a[2 * i + 1] == words[i] % 256
  {
    seq(16, i requires 0 <= i < 16 => if i % 2 == 0 then words[i / 2] / 256 else words[i / 2] % 256)
  }

  function Words6(a: Addr6): (words: seq<word>)
    ensures |words| == 8
    ensures forall i :: 0 <= i < 8 ==> words[i] == 256 * (a[2 * i] as int) + a[2 * i + 1]
  {
    seq(8, i requires 0 <= i < 8 => 256 * (a[2 * i] as int) + a[2 * i + 1])
  }

  /** `inet_pton(AF_INET6, ...)`. */
  function Pton6(s: string): Option<Addr6> {
    var r := if s == "" then None
             else if s[0] == ':' then
               if |s| < 2 || s[1] != ':' then None else Scan6(s[1..], s[1..], [], None, 0, 0)
             else Scan6(s, s, [], None, 0, 0);
    match r
    case None => None
    case Some(words) => Some(Bytes6(words))
  }

  /** Length of the run of zero groups that starts at i. */
  function ZeroRun(words: seq<word>, i: nat): (n: nat)
    requires i <= |words|
    ensures i + n <= |words|
    ensures forall k :: i <= k < i + n ==> words[k] == 0
    decreases |words| - i
  {
    if i < |words| && words[i] == 0 then 1 + ZeroRun(words, i + 1) else 0
  }

  /** Start of the first of the longest runs of zero groups at or after i. */
  function BestRun(words: seq<word>, i: nat): (b: nat)
    requires i <= |words|
    ensures i <= b <= |words|
    decreases |words| - i
  {
    if i == |words| then i
    else
      var b := BestRun(words, i + 1);
      if ZeroRun(words, i) >= ZeroRun(words, b) then i else b
  }

  /** Groups in hex, separated by colons. */
  function Join(words: seq<word>): string {
    if words == [] then ""
    else if |words| == 1 then HexWord(words[0])
    else HexWord(words[0]) + ":" + Join(words[1..])
  }

  /** The dotted form of the last four bytes. */
  function Dotted(a: Addr6): string {
    Ntop4(a[12..])
  }

  /** `inet_ntop(AF_INET6, ...)`: the longest run of two or more zero groups becomes "::", and
      an address that starts with six zero groups, or five and ffff, ends in dotted form. */
  function Ntop6(a: Addr6): string {
    var words := Words6(a);
    var b := BestRun(words, 0);
    var n := ZeroRun(words, b);
    if n < 2 then Join(words)
    else if b == 0 && n == 6 then "::" + Dotted(a)
    else if b == 0 && n == 5 && words[5] == 0xffff then "::" + HexWord(0xffff) + ":" + Dotted(a)
    else Join(words[..b]) + "::" + Join(words[b + n..])
  }

  // ----- IPv6 round trip -----

  lemma {:induction false} ScanHex(w: nat, rest: string, token: string, words: seq<word>, gap: Option<nat>)
    requires w < 65536 && |words| <= 8 && (gap.Some? ==> gap.value <= |words|)
    ensures var h := HexWord(w);
            && w < Power16(|h|)
            && Scan6(h + rest, token, words, gap, 0, 0) == Scan6(rest, token, words, gap, |h|, w)
    decreases w
  {
    hide Scan6, HexDigit;
    var h := HexWord(w);
    if w < 16 {
      ScanHexDigit(w, rest, token, words, gap, 0, 0);
    } else {
      var c := [HexDigit(w % 16)];
      ScanHex(w / 16, c + rest, token, words, gap);
      assert h + rest == HexWord(w / 16) + (c + rest);
      ScanHexDigit(w % 16, rest, token, words, gap, |h| - 1, w / 16);
    }
  }

  lemma {:induction false} ScanHexDigit(d: nat, rest: string, token: string, words: seq<word>, gap: Option<nat>, digits: nat, val: nat)
    requires d < 16 && digits < 4 && val < Power16(digits) && |words| <= 8 && (gap.Some? ==> gap.value <= |words|)
    ensures 16 * val + d < Power16(digits + 1)
    ensures Scan6([HexDigit(d)] + rest, token, words, gap, digits, val) == Scan6(rest, token, words, gap, digits + 1, 16 * val + d)
  {
    assert ([HexDigit(d)] + rest)[1..] == rest;
  }

  /** A group followed by a colon and more text moves on to the next group. */
  lemma {:induction false} ScanGroup(w: word, rest: string, token: string, words: seq<word>, gap: Option<nat>)
    requires |words| < 8 && (gap.Some? ==> gap.value <= |words|) && rest != ""
    ensures Scan6(HexWord(w) + ":" + rest, token, words, gap, 0, 0) == Scan6(rest, rest, words + [w], gap, 0, 0)
  {
    assert HexWord(w) + ":" + rest == HexWord(w) + (":" + rest);
    ScanHex(w, ":" + rest, token, words, gap);
    assert (":" + rest)[1..] == rest;
  }

  lemma {:induction false} JoinNonempty(words: seq<word>)
    requires words != []
    ensures Join(words) != ""
  {
  }

  /** Scanning joined groups to the end of the text collects them all. */
  lemma {:induction false} ScanJoin(ws: seq<word>, token: string, words: seq<word>, gap: Option<nat>)
    requires |words + ws| <= 8 && (gap.Some? ==> gap.value <= |words|)
    ensures Scan6(Join(ws), token, words, gap, 0, 0) == Finish(words + ws, gap, 0, 0)
    decreases |ws|
  {
    hide HexWord;
    if ws == [] {
      assert words + ws == words;
    } else if |ws| == 1 {
      ScanHex(ws[0], "", token, words, gap);
      assert HexWord(ws[0]) + "" == HexWord(ws[0]);
      assert words + ws == words + [ws[0]];
    } else {
      JoinNonempty(ws[1..]);
      ScanGroup(ws[0], Join(ws[1..]), token, words, gap);
      ScanJoin(ws[1..], Join(ws[1..]), words + [ws[0]], gap);
      assert words + ws == words + [ws[0]] + ws[1..];
    }
  }

  lemma {:induction false} ScanGap(rest: string, words: seq<word>)
    requires |words| <= 8
    ensures Scan6(":" + rest, ":" + rest, words, None, 0, 0) == Scan6(rest, rest, words, Some(|words|), 0, 0)
  {
    assert (":" + rest)[1..] == rest;
  }

  /** Scanning joined groups up to "::" collects them and notes the gap. */
  lemma {:induction false} ScanToGap(ws: seq<word>, rest: string, token: string, words: seq<word>)
    requires |words + ws| <= 8 && ws != []
    ensures Scan6(Join(ws) + "::" + rest, token, words, None, 0, 0)
         == Scan6(rest, rest, words + ws, Some(|words + ws|), 0, 0)
    decreases |ws|
  {
    hide HexWord, Scan6;
    var text := Join(ws) + "::" + rest;
    if |ws| == 1 {
      assert text == HexWord(ws[0]) + ":" + (":" + rest);
      ScanGroup(ws[0], ":" + rest, token, words, None);
      ScanGap(rest, words + [ws[0]]);
      assert words + ws == words + [ws[0]];
    } else {
      var next := Join(ws[1..]) + "::" + rest;
      assert text == HexWord(ws[0]) + ":" + next;
      ScanGroup(ws[0], next, token, words, None);
      ScanToGap(ws[1..], rest, next, words + [ws[0]]);
      assert words + ws == words + [ws[0]] + ws[1..];
    }
  }

  /** Up to four decimal digits are read as an open group, and the dot then hands the token to
      the IPv4 parser. */
  lemma {:induction false} ScanToDot(d: string, rest: string, token: string, words: seq<word>, gap: Option<nat>, digits: nat, val: nat)
    requires AllDigits(d) && |d| + digits <= 4 && val < Power16(digits)
    requires |words| <= 6 && (gap.Some? ==> gap.value <= |words|)
    requires Pton4(token).Some?
    ensures Scan6(d + "." + rest, token, words, gap, digits, val)
         == Finish(words + TwoWords(Pton4(token).value), gap, 0, 0)
    decreases |d|
  {
    var text := d + "." + rest;
    if d == "" {
      assert text == "." + rest;
    } else {
      assert IsDigit(d[0]);
      assert text[1..] == d[1..] + "." + rest;
      ScanToDot(d[1..], rest, token, words, gap, digits + 1, 16 * val + HexDecodeChar(d[0]));
    }
  }

  lemma {:induction false} LastWords(a: Addr6)
    ensures Words6(a)[6..] == TwoWords(a[12..])
  {
  }

  lemma {:induction false} ScanDotted(a: Addr6, words: seq<word>, gap: Option<nat>)
    requires |words| <= 6 && (gap.Some? ==> gap.value <= |words|)
    ensures Scan6(Dotted(a), Dotted(a), words, gap, 0, 0) == Finish(words + Words6(a)[6..], gap, 0, 0)
  {
    var q: Addr4 := a[12..];
    Pton4Ntop4(q);
    var rest := Dec(q[1]) + "." + Dec(q[2]) + "." + Dec(q[3]);
    assert Dotted(a) == Dec(q[0]) + "." + rest;
    ScanToDot(Dec(q[0]), rest, Dotted(a), words, gap, 0, 0);
    LastWords(a);
  }

  lemma {:induction false} GapFills(words: seq<word>, b: nat, n: nat)
    requires |words| == 8 && n > 0 && b + n <= 8
    requires forall k :: b <= k < b + n ==> words[k] == 0
    ensures Finish(words[..b] + words[b + n..], Some(b), 0, 0) == Some(words)
  {
    var all := words[..b] + words[b + n..];
    assert all[..b] + Fill(8 - |all|) + all[b..] == words;
  }

  lemma {:induction false} WordBytes(hi: byte, lo: byte)
    ensures (256 * (hi as int) + lo) / 256 == hi && (256 * (hi as int) + lo) % 256 == lo
  {
  }

  lemma {:induction false} Pairwise(r: Addr6, a: Addr6)
    requires forall k :: 0 <= k < 8 ==> r[2 * k] == a[2 * k] && r[2 * k + 1] == a[2 * k + 1]
    ensures r == a
  {
    forall i | 0 <= i < 16
      ensures r[i] == a[i]
    {
      var k := i / 2;
      assert r[2 * k] == a[2 * k] && r[2 * k + 1] == a[2 * k + 1];
    }
  }

  lemma {:induction false} BytesOfWords(a: Addr6)
    ensures Bytes6(Words6(a)) == a
  {
    var words := Words6(a);
    var r := Bytes6(words);
    forall k | 0 <= k < 8
      ensures r[2 * k] == a[2 * k] && r[2 * k + 1] == a[2 * k + 1]
    {
      WordBytes(a[2 * k], a[2 * k + 1]);
      assert words[k] == 256 * (a[2 * k] as int) + a[2 * k + 1];
    }
    Pairwise(r, a);
  }

  /** First characters that decide how `Pton6` starts. */
  lemma {:induction false} JoinHead(words: seq<word>)
    requires words != []
    ensures Join(words) != "" && Join(words)[0] != ':'
  {
    HexHead(words[0]);
  }

  lemma {:induction false} HexHead(w: nat)
    ensures HexDecodeChar(HexWord(w)[0]) >= 0
  {
    if w >= 16 {
      HexHead(w / 16);
    }
  }

  /** Text that opens with "::" is scanned with the gap before its first group. */
  lemma {:induction false} LeadingGap(rest: string)
    ensures var r := Scan6(rest, rest, [], Some(0), 0, 0);
            Pton6("::" + rest) == if r.None? then None else Some(Bytes6(r.value))
  {
    var s := "::" + rest;
    assert s[1..] == ":" + rest;
    assert (":" + rest)[1..] == rest;
  }

  lemma {:induction false} Pton6Full(a: Addr6)
    ensures Pton6(Join(Words6(a))) == Some(a)
  {
    var words := Words6(a);
    JoinHead(words);
    ScanJoin(words, Join(words), [], None);
    assert [] + words == words;
    BytesOfWords(a);
  }

  lemma {:induction false} ScanTail(a: Addr6, b: nat, n: nat)
    requires n > 0 && b + n <= 8
    requires forall k :: b <= k < b + n ==> Words6(a)[k] == 0
    ensures var words := Words6(a);
            var right := Join(words[b + n..]);
            Scan6(right, right, words[..b], Some(b), 0, 0) == Some(words)
  {
    var words := Words6(a);
    GapFills(words, b, n);
    ScanJoin(words[b + n..], Join(words[b + n..]), words[..b], Some(b));
  }

  lemma {:induction false} Pton6LeadingGap(a: Addr6, n: nat)
    requires 0 < n <= 8
    requires forall k :: 0 <= k < n ==> Words6(a)[k] == 0
    ensures Pton6("::" + Join(Words6(a)[n..])) == Some(a)
  {
    ScanTail(a, 0, n);
    assert Words6(a)[..0] == [];
    LeadingGap(Join(Words6(a)[n..]));
    BytesOfWords(a);
  }

  lemma {:induction false} Pton6InnerGap(a: Addr6, b: nat, n: nat)
    requires b > 0 && n > 0 && b + n <= 8
    requires forall k :: b <= k < b + n ==> Words6(a)[k] == 0
    ensures Pton6(Join(Words6(a)[..b]) + "::" + Join(Words6(a)[b + n..])) == Some(a)
  {
    var left, right := Words6(a)[..b], Join(Words6(a)[b + n..]);
    var s := Join(left) + "::" + right;
    JoinHead(left);
    assert s[0] == Join(left)[0];
    ScanToGap(left, right, s, []);
    assert [] + left == left;
    ScanTail(a, b, n);
    BytesOfWords(a);
  }

  lemma {:induction false} Pton6Compatible(a: Addr6)
    requires forall k :: 0 <= k < 6 ==> Words6(a)[k] == 0
    ensures Pton6("::" + Dotted(a)) == Some(a)
  {
    var words := Words6(a);
    LeadingGap(Dotted(a));
    ScanDotted(a, [], Some(0));
    assert [] + words[6..] == words[..0] + words[6..];
    GapFills(words, 0, 6);
    BytesOfWords(a);
  }

  lemma {:induction false} Pton6Mapped(a: Addr6)
    requires Words6(a)[5] == 0xffff
    requires forall k :: 0 <= k < 5 ==> Words6(a)[k] == 0
    ensures Pton6("::" + HexWord(0xffff) + ":" + Dotted(a)) == Some(a)
  {
    hide HexWord, Scan6;
    var words := Words6(a);
    var rest := HexWord(0xffff) + ":" + Dotted(a);
    assert "::" + HexWord(0xffff) + ":" + Dotted(a) == "::" + rest;
    LeadingGap(rest);
    ScanGroup(0xffff, Dotted(a), rest, [], Some(0));
    ScanDotted(a, [] + [0xffff], Some(0));
    assert [] + [0xffff] + words[6..] == words[..0] + words[5..];
    GapFills(words, 0, 5);
    BytesOfWords(a);
  }

  /** Printing an IPv6 address and reading it back gives the address, whichever of the four
      shapes the printer picks. */
  lemma {:induction false} Pton6Ntop6(a: Addr6)
    ensures Pton6(Ntop6(a)) == Some(a)
  {
    var words := Words6(a);
    var b := BestRun(words, 0);
    var n := ZeroRun(words, b);
    if n < 2 {
      Pton6Full(a);
    } else if b == 0 && n == 6 {
      Pton6Compatible(a);
    } else if b == 0 && n == 5 && words[5] == 0xffff {
      Pton6Mapped(a);
    } else if b == 0 {
      assert Join(words[..0]) + "::" + Join(words[n..]) == "::" + Join(words[n..]);
      Pton6LeadingGap(a, n);
    } else {
      Pton6InnerGap(a, b, n);
    }
  }

  // ----- the characters printed addresses are made of -----

  predicate AddressChar(c: char) {
    HexDecodeChar(c) >= 0 || c == ':' || c == '.'
  }

  predicate AddressText(s: string) {
    forall i :: 0 <= i < |s| ==> AddressChar(s[i])
  }

  lemma {:induction false} HexWordText(w: nat)
    ensures AddressText(HexWord(w))
  {
    if w >= 16 {
      HexWordText(w / 16);
    }
  }

  lemma {:induction false} JoinText(words: seq<word>)
    ensures AddressText(Join(words))
    decreases |words|
  {
    if words != [] {
      HexWordText(words[0]);
      if |words| > 1 {
        JoinText(words[1..]);
      }
    }
  }

  lemma {:induction false} Ntop4Text(a: Addr4)
    ensures AddressText(Ntop4(a)) && ':' !in Ntop4(a)
  {
    var s := Ntop4(a);
    assert forall i :: 0 <= i < |s| ==> IsDigit(s[i]) || s[i] == '.';
  }

  lemma {:induction false} GluedText(s: string, sep: string, t: string)
    requires AddressText(s) && AddressText(sep) && AddressText(t)
    ensures AddressText(s + sep + t)
  {
  }

  lemma {:induction false} Ntop6Text(a: Addr6)
    ensures AddressText(Ntop6(a))
  {
    hide AddressText, HexWord, Join, Dotted, BestRun, ZeroRun;
    var words := Words6(a);
    var b := BestRun(words, 0);
    var n := ZeroRun(words, b);
    SeparatorText();
    JoinText(words);
    if n >= 2 {
      JoinText(words[..b]);
      JoinText(words[b + n..]);
      GluedText(Join(words[..b]), "::", Join(words[b + n..]));
      DottedText(a);
      GluedText("", "::", Dotted(a));
      HexWordText(0xffff);
      GluedText("", "::", HexWord(0xffff));
      GluedText("::" + HexWord(0xffff), ":", Dotted(a));
      assert "" + "::" == "::";
    }
  }

  lemma {:induction false} SeparatorText()
    ensures AddressText("") && AddressText("::") && AddressText(":")
  {
  }

  lemma {:induction false} DottedText(a: Addr6)
    ensures AddressText(Dotted(a))
  {
    Ntop4Text(a[12..]);
  }

  /** The two families never print alike. */
  lemma {:induction false} Ntop6HasColon(a: Addr6)
    ensures ':' in Ntop6(a)
  {
    hide ZeroRun, BestRun, HexWord, Dotted;
    var words := Words6(a);
    var b := BestRun(words, 0);
    var n := ZeroRun(words, b);
    if n < 2 {
      assert |words| == 8;
      assert Join(words) == HexWord(words[0]) + ":" + Join(words[1..]);
      assert Join(words)[|HexWord(words[0])|] == ':';
    } else if b == 0 && n == 6 {
      assert Ntop6(a)[0] == ':';
    } else if b == 0 && n == 5 && words[5] == 0xffff {
      assert Ntop6(a)[0] == ':';
    } else {
      assert Ntop6(a)[|Join(words[..b])|] == ':';
    }
  }
}
