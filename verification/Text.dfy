/** Text primitives of the C and C++ libraries the codecs lean on: decimal printing,
    the `strtol` family behind `std::stoi` and its siblings, character search and
    C-string truncation. One `char` stands for one byte of a `std::string`. */
module Text {
  import opened Core

  // ----- decimal digits -----

  predicate IsDigit(c: char) {
    '0' <= c <= '9'
  }

  predicate AllDigits(s: string) {
    forall i :: 0 <= i < |s| ==> IsDigit(s[i])
  }

  function DigitVal(c: char): (d: nat)
    requires IsDigit(c)
    ensures d < 10
  {
    c as int - '0' as int
  }

  function DigitChar(d: nat): (c: char)
    requires d < 10
    ensures IsDigit(c) && DigitVal(c) == d
  {
    ('0' as int + d) as char
  }

  function DecVal(s: string): nat
    requires AllDigits(s)
  {
    if s == [] then 0 else 10 * DecVal(s[..|s| - 1]) + DigitVal(s[|s| - 1])
  }

  /** What `std::to_string` and `ostream <<` print for an unsigned number. */
  function Dec(n: nat): (s: string)
    ensures |s| >= 1 && AllDigits(s) && DecVal(s) == n
    ensures n > 0 ==> s[0] != '0'
    ensures n < 10 ==> |s| == 1
    ensures n < 1000 ==> |s| <= 3
  {
    if n < 10 then
      var s := [DigitChar(n)];
      assert s[..0] == [];
      s
    else
      var s := Dec(n / 10) + [DigitChar(n % 10)];
      assert s[..|s| - 1] == Dec(n / 10);
      s
  }

  // ----- strtol and friends -----

  /** The value of a hex digit, -1 for any other character. */
  function HexDecodeChar(c: char): (v: int)
    ensures -1 <= v < 16
  {
    if '0' <= c <= '9' then c as int - '0' as int
    else if 'a' <= c <= 'f' then c as int - 'a' as int + 10
    else if 'A' <= c <= 'F' then c as int - 'A' as int + 10
    else -1
  }

  predicate IsSpace(c: char) {
    c == ' ' || '\t' <= c <= '\r'
  }

  function SkipSpaces(s: string, i: nat): (j: nat)
    requires i <= |s|
    ensures i <= j <= |s|
    ensures forall k :: i <= k < j ==> IsSpace(s[k])
    ensures j < |s| ==> !IsSpace(s[j])
    decreases |s| - i
  {
    if i < |s| && IsSpace(s[i]) then SkipSpaces(s, i + 1) else i
  }

  function DigitsEnd(s: string, i: nat): (j: nat)
    requires i <= |s|
    ensures i <= j <= |s|
    ensures forall k :: i <= k < j ==> IsDigit(s[k])
    ensures j < |s| ==> !IsDigit(s[j])
    decreases |s| - i
  {
    if i < |s| && IsDigit(s[i]) then DigitsEnd(s, i + 1) else i
  }

  datatype Number = Number(negative: bool, magnitude: nat, consumed: nat)

  /** Base-10 `strtol` scan: optional white space, optional sign, then the longest
      run of digits; None when there is no digit. */
  function ScanNumber(s: string): Option<Number> {
    var i := SkipSpaces(s, 0);
    var signed := i < |s| && (s[i] == '-' || s[i] == '+');
    var start := if signed then i + 1 else i;
    var end := DigitsEnd(s, start);
    if start == end then None
    else Some(Number(signed && s[i] == '-', DecVal(s[start..end]), end))
  }

  datatype Scanned = Scanned(value: int, consumed: nat)

  function InRange(s: string, lo: int, hi: int): Result<Scanned> {
    match ScanNumber(s)
    case None => Err(InvalidArgument)
    case Some(n) =>
      var v := if n.negative then -(n.magnitude as int) else n.magnitude;
      if lo <= v <= hi then Ok(Scanned(v, n.consumed)) else Err(OutOfRange)
  }

  function Stoi(s: string): Result<Scanned> {
    InRange(s, -0x8000_0000, 0x7FFF_FFFF)
  }

  function Stoll(s: string): Result<Scanned> {
    InRange(s, -0x8000_0000_0000_0000, 0x7FFF_FFFF_FFFF_FFFF)
  }

  /** `std::stoul` and `std::stoull` on a 64-bit host: a minus sign negates modulo 2^64. */
  function Stoul(s: string): Result<Scanned> {
    match ScanNumber(s)
    case None => Err(InvalidArgument)
    case Some(n) =>
      if n.magnitude >= 0x1_0000_0000_0000_0000 then Err(OutOfRange)
      else
        var v := if n.negative && n.magnitude > 0 then 0x1_0000_0000_0000_0000 - n.magnitude else n.magnitude;
        Ok(Scanned(v, n.consumed))
  }

  lemma {:induction false} ScanDigits(s: string)
    requires s != [] && AllDigits(s)
    ensures ScanNumber(s) == Some(Number(false, DecVal(s), |s|))
  {
    assert SkipSpaces(s, 0) == 0;
    var end := DigitsEnd(s, 0);
    assert end == |s|;
    assert s[0..end] == s;
  }

  /** A scan that eats the whole text and starts on a digit saw digits only. */
  lemma {:induction false} ScanWhole(s: string)
    requires s != [] && IsDigit(s[0])
    requires ScanNumber(s).Some? && ScanNumber(s).value.consumed == |s|
    ensures AllDigits(s)
  {
    assert SkipSpaces(s, 0) == 0;
  }

  /** The three ways a number may begin: no sign, plus or minus. */
  predicate IsSign(sign: string) {
    sign == "" || sign == "+" || sign == "-"
  }

  /** A text of blanks (a space or the codes 9 to 13), a sign and decimal digits, and its parts. */
  predicate IsNumber(s: string, blanks: string, sign: string, digits: string) {
    && s == blanks + sign + digits
    && (forall k :: 0 <= k < |blanks| ==> blanks[k] == ' ' || 9 <= blanks[k] as int <= 13)
    && IsSign(sign) && digits != "" && AllDigits(digits)
  }

  /** A scan takes blanks, a sign and all the digits, and stops at what follows. */
  lemma {:induction false} ScanNumberPrefix(s: string, t: string, rest: string, blanks: string, sign: string, digits: string)
    requires s == t + rest && IsNumber(t, blanks, sign, digits) && (rest == "" || !IsDigit(rest[0]))
    ensures ScanNumber(s) == Some(Number(sign == "-", DecVal(digits), |t|))
  {
    hide DecVal, SkipSpaces, DigitsEnd, IsNumber;
    NumberPieces(s, t, rest, blanks, sign, digits);
    SpacesEnd(s, 0, |blanks|);
    DigitsStop(s, |blanks| + |sign|, |t|);
  }

  /** Where blanks, sign and digits stand. */
  lemma {:induction false} NumberPieces(s: string, t: string, rest: string, blanks: string, sign: string, digits: string)
    requires s == t + rest && IsNumber(t, blanks, sign, digits)
    ensures var i, start := |blanks|, |blanks| + |sign|;
      && start < |t| <= |s| && s[start..|t|] == digits && AllDigits(digits)
      && (rest == "" <==> |t| == |s|) && (rest != "" ==> s[|t|] == rest[0])
      && (forall k :: 0 <= k < i ==> IsSpace(s[k])) && (forall k :: start <= k < |t| ==> IsDigit(s[k]))
      && (if sign == "" then IsDigit(s[i]) else s[i] == sign[0] && start == i + 1)
      && IsSign(sign)
  {
    var i, start := |blanks|, |blanks| + |sign|;
    assert forall k :: 0 <= k < |t| ==> s[k] == t[k];
    assert forall k :: 0 <= k < i ==> t[k] == blanks[k];
    assert forall k :: start <= k < |t| ==> t[k] == digits[k - start];
  }

  /** A scan eats the whole text exactly when the text is blanks, a sign and digits. */
  lemma {:induction false} ScanNumberText(s: string, blanks: string, sign: string, digits: string)
    requires IsNumber(s, blanks, sign, digits)
    ensures ScanNumber(s) == Some(Number(sign == "-", DecVal(digits), |s|))
  {
    hide ScanNumber, DecVal, IsNumber;
    assert s == s + "";
    ScanNumberPrefix(s, s, "", blanks, sign, digits);
  }

  lemma {:induction false} SpacesEnd(s: string, i: nat, j: nat)
    requires i <= j < |s| && !IsSpace(s[j]) && forall k :: i <= k < j ==> IsSpace(s[k])
    ensures SkipSpaces(s, i) == j
  {
  }

  lemma {:induction false} DigitsStop(s: string, i: nat, j: nat)
    requires i <= j <= |s| && (forall k :: i <= k < j ==> IsDigit(s[k])) && (j < |s| ==> !IsDigit(s[j]))
    ensures DigitsEnd(s, i) == j
  {
  }

  lemma {:induction false} WholeScanIsNumber(s: string) returns (blanks: string, sign: string, digits: string)
    requires ScanNumber(s).Some? && ScanNumber(s).value.consumed == |s|
    ensures IsNumber(s, blanks, sign, digits)
  {
    hide DecVal;
    var i := SkipSpaces(s, 0);
    var start := if i < |s| && (s[i] == '-' || s[i] == '+') then i + 1 else i;
    blanks, sign, digits := s[..i], s[i..start], s[start..];
    assert IsSign(sign) by {
      assert start == i || sign == [s[i]];
    }
    assert DigitsEnd(s, start) == |s| && start < |s|;
    assert forall k :: 0 <= k < |blanks| ==> IsSpace(s[k]) && blanks[k] == s[k];
    assert AllDigits(digits) by {
      assert forall k :: 0 <= k < |digits| ==> digits[k] == s[start + k];
    }
    Joined(s, i, start);
  }

  lemma {:induction false} Joined(s: string, i: nat, j: nat)
    requires i <= j <= |s|
    ensures s[..i] + s[i..j] + s[j..] == s
  {
  }

  // ----- searching -----

  /** `std::string::find` for one character. */
  function Find(s: string, c: char): (r: Option<nat>)
    ensures r.Some? ==> r.value < |s| && s[r.value] == c && c !in s[..r.value]
    ensures r.None? ==> c !in s
  {
    if s == [] then None
    else if s[0] == c then Some(0)
    else
      match Find(s[1..], c)
      case None => None
      case Some(i) =>
        assert s[..i + 1] == [s[0]] + s[1..][..i];
        Some(i + 1)
  }

  /** `std::string::rfind` for one character. */
  function RFind(s: string, c: char): (r: Option<nat>)
    ensures r.Some? ==> r.value < |s| && s[r.value] == c && c !in s[r.value + 1..]
    ensures r.None? ==> c !in s
  {
    if s == [] then None
    else if s[|s| - 1] == c then Some(|s| - 1)
    else
      var t := s[..|s| - 1];
      match RFind(t, c)
      case None => None
      case Some(i) =>
        assert s[i + 1..] == t[i + 1..] + [s[|s| - 1]];
        Some(i)
  }

  lemma {:induction false} FindSplit(a: string, c: char, b: string)
    requires c !in a
    ensures Find(a + [c] + b, c) == Some(|a|)
  {
    var s := a + [c] + b;
    var i := Find(s, c).value;
    assert s[|a|] == c;
    assert forall k :: 0 <= k < i ==> s[..i][k] == s[k];
    assert forall k :: 0 <= k < |a| ==> s[k] == a[k];
  }

  lemma {:induction false} RFindSplit(a: string, c: char, b: string)
    requires c !in b
    ensures RFind(a + [c] + b, c) == Some(|a|)
    decreases |b|
  {
    var s := a + [c] + b;
    if b == "" {
      assert s[|s| - 1] == c;
    } else {
      var n := |b|;
      assert s[..|s| - 1] == a + [c] + b[..n - 1];
      assert s[|s| - 1] == b[n - 1];
      RFindSplit(a, c, b[..n - 1]);
    }
  }

  /** What a C function sees of a `std::string` handed over with `c_str()`. */
  function CStr(s: string): (t: string)
    ensures '\0' !in s ==> t == s
    ensures |t| <= |s| && t == s[..|t|] && '\0' !in t
    ensures |t| < |s| ==> s[|t|] == '\0'
  {
    match Find(s, '\0')
    case None => s
    case Some(i) => s[..i]
  }
}
