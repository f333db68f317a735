/** Base64 and hex forms of 32-byte keys (src/crypto/Key.cpp). */
module KeyText {
  import opened Core
  import opened WireGuard
  import Text

  type sextet = x: int | 0 <= x < 64
  type nibble = x: int | 0 <= x < 16

  // ----- alphabets -----

  /** The 6-bit value of a base64 character, -1 when it is none. */
  function Base64DecodeChar(c: char): (v: int)
    ensures -1 <= v < 64
  {
    if 'A' <= c <= 'Z' then c as int - 'A' as int
    else if 'a' <= c <= 'z' then c as int - 'a' as int + 26
    else if '0' <= c <= '9' then c as int - '0' as int + 52
    else if c == '+' then 62
    else if c == '/' then 63
    else -1
  }

  function Base64Char(v: sextet): char {
    if v < 26 then ('A' as int + v) as char
    else if v < 52 then ('a' as int + (v - 26)) as char
    else if v < 62 then ('0' as int + (v - 52)) as char
    else if v == 62 then '+'
    else '/'
  }

  function HexChar(v: nibble): char {
    if v < 10 then ('0' as int + v) as char else ('a' as int + (v - 10)) as char
  }

  lemma {:induction false} AlphabetsInvert()
    ensures forall v: sextet :: Base64DecodeChar(Base64Char(v)) == v && Base64Char(v) != '='
    ensures forall c: char :: Base64DecodeChar(c) >= 0 ==> Base64Char(Base64DecodeChar(c)) == c
    ensures forall v: nibble :: Text.HexDecodeChar(HexChar(v)) == v
  {
  }

  /** The base64 alphabet, written out sixteen at a time. */
  lemma {:induction false} Base64Alphabet(v: nibble)
    ensures Base64Char(v) == "ABCDEFGHIJKLMNOP"[v] && Base64Char(16 + v) == "QRSTUVWXYZabcdef"[v]
    ensures Base64Char(32 + v) == "ghijklmnopqrstuv"[v] && Base64Char(48 + v) == "wxyz0123456789+/"[v]
  {
  }

  /** The hex digits, written out; they are read in either case. */
  lemma {:induction false} HexAlphabet(v: nibble)
    ensures HexChar(v) == "0123456789abcdef"[v]
    ensures Text.HexDecodeChar("0123456789abcdef"[v]) == v && Text.HexDecodeChar("0123456789ABCDEF"[v]) == v
  {
  }

  /** No other character is a hex digit. */
  lemma {:induction false} HexDigitsOnly(c: char)
    requires Text.HexDecodeChar(c) >= 0
    ensures c in "0123456789abcdefABCDEF"
  {
    var v := Text.HexDecodeChar(c);
    var lower, upper := "0123456789abcdef", "0123456789ABCDEF";
    HexAlphabet(v);
    assert c == lower[v] || c == upper[v];
  }

  // ----- base64: what the two loops compute -----

  /** Byte j of the key, reading zero past its end. */
  function KeyByte(key: Key, j: nat): byte {
    if j < KEY_LEN then key[j] else 0
  }

  /** Symbol i of the encoding: bits 6i..6i+5 of the key, zero-extended. */
  function SymbolAt(key: Key, i: nat): sextet {
    var b := i / 4 * 3;
    if i % 4 == 0 then KeyByte(key, b) / 4
    else if i % 4 == 1 then KeyByte(key, b) % 4 * 16 + KeyByte(key, b + 1) / 16
    else if i % 4 == 2 then KeyByte(key, b + 1) % 16 * 4 + KeyByte(key, b + 2) / 64
    else KeyByte(key, b + 2) % 64
  }

  function Base64Body(key: Key): (s: string)
    ensures |s| == 43
    ensures forall i :: 0 <= i < 43 ==> s[i] == Base64Char(SymbolAt(key, i))
  {
    seq(43, i requires 0 <= i => Base64Char(SymbolAt(key, i)))
  }

  function TrimPadding(s: string): (t: string)
    ensures |t| <= |s| && t == s[..|t|]
    ensures t == [] || t[|t| - 1] != '='
    ensures forall i :: |t| <= i < |s| ==> s[i] == '='
  {
    if s != [] && s[|s| - 1] == '=' then TrimPadding(s[..|s| - 1]) else s
  }

  predicate IsBody(s: string) {
    |s| == 43 && forall i :: 0 <= i < 43 ==> Base64DecodeChar(s[i]) >= 0
  }

  /** Bits 8j..8j+7 of the symbols of a 43-symbol body. */
  function ByteAt(s: string, j: nat): byte
    requires IsBody(s) && j < KEY_LEN
  {
    var q := j / 3 * 4;
    assert q + j % 3 + 1 < 43;
    if j % 3 == 0 then Base64DecodeChar(s[q]) * 4 + Base64DecodeChar(s[q + 1]) / 16
    else if j % 3 == 1 then Base64DecodeChar(s[q + 1]) % 16 * 16 + Base64DecodeChar(s[q + 2]) / 4
    else Base64DecodeChar(s[q + 2]) % 4 * 64 + Base64DecodeChar(s[q + 3])
  }

  function BodyKey(s: string): (key: Key)
    requires IsBody(s)
    ensures forall j :: 0 <= j < KEY_LEN ==> key[j] == ByteAt(s, j)
  {
    seq(KEY_LEN, j requires 0 <= j < KEY_LEN => ByteAt(s, j))
  }

  function Base64Key(b64: string): Result<Key> {
    var s := TrimPadding(b64);
    if IsBody(s) then Ok(BodyKey(s)) else Err(InvalidArgument)
  }

  // ----- base64: the loops -----

  lemma {:induction false} Quotient4096(q: int, r: int)
    requires 0 <= r < 4096
    ensures (4096 * q + r) / 4096 == q && (4096 * q + r) % 4096 == r
  {
  }

  lemma {:induction false} Quotient262144(q: int, r: int)
    requires 0 <= r < 262144
    ensures (262144 * q + r) / 262144 == q
  {
  }

  lemma {:induction false} TopSymbols(a: byte, b: byte, c: byte)
    ensures (a as int * 65536 + b as int * 256 + c) / 262144 % 64 == a / 4
    ensures (a as int * 65536 + b as int * 256 + c) / 4096 % 64 == a % 4 * 16 + b / 16
  {
    var x, y, u, v := a / 4, a % 4, b / 16, b % 16;
    assert a == 4 * x + y && b == 16 * u + v;
    Quotient262144(x, y as int * 65536 + b as int * 256 + c);
    Quotient4096(64 * x + y * 16 + u, v as int * 256 + c);
    Quotient64(x, y * 16 + u);
  }

  lemma {:induction false} LowSymbols(a: byte, b: byte, c: byte)
    ensures (a as int * 65536 + b as int * 256 + c) / 64 % 64 == b % 16 * 4 + c / 64
    ensures (a as int * 65536 + b as int * 256 + c) % 64 == c % 64
  {
    var u, v, w, z := b / 16, b % 16, c / 64, c % 64;
    assert b == 16 * u + v && c == 64 * w + z;
    var h: int := a as int * 1024 + b as int * 4 + w;
    Quotient64(h, z);
    Quotient64(a as int * 16 + u, v * 4 + w);
  }

  /** The symbols the encoder cuts out of a 24-bit number. */
  function Quad(n: nat): (s: string)
    ensures |s| == 4
  {
    [Base64Char(n / 262144 % 64), Base64Char(n / 4096 % 64), Base64Char(n / 64 % 64), Base64Char(n % 64)]
  }

  lemma {:induction false} GroupQuad(a: byte, b: byte, c: byte)
    ensures Quad(a as int * 65536 + b as int * 256 + c) == GroupText(a, b, c)
  {
    TopSymbols(a, b, c);
    LowSymbols(a, b, c);
  }

  /** The four characters of one three-byte group. */
  function GroupText(a: byte, b: byte, c: byte): string {
    [Base64Char(a / 4), Base64Char(a % 4 * 16 + b / 16), Base64Char(b % 16 * 4 + c / 64), Base64Char(c % 64)]
  }

  lemma {:induction false} BodyGroup(key: Key, k: nat)
    requires k < 10
    ensures Base64Body(key)[..4 * k + 4]
         == Base64Body(key)[..4 * k] + Quad(key[3 * k] as int * 65536 + key[3 * k + 1] as int * 256 + key[3 * k + 2])
  {
    hide SymbolAt, Base64Char;
    GroupQuad(key[3 * k], key[3 * k + 1], key[3 * k + 2]);
    BlockSymbols(key, k);
  }

  lemma {:induction false} BodyEnd(key: Key)
    ensures Base64Body(key) == Base64Body(key)[..40] + Quad(key[30] as int * 65536 + key[31] as int * 256)[..3]
  {
    hide SymbolAt, Base64Char;
    GroupQuad(key[30], key[31], 0);
    BlockSymbols(key, 10);
  }

  method KeyToBase64(key: Key) returns (out: string)
    ensures out == Base64Body(key) + "="
  {
    hide Quad, SymbolAt, Base64Char;
    out := "";
    var i := 0;
    ghost var k := 0;
    while i + 3 <= KEY_LEN
      invariant i == 3 * k && 0 <= k <= 10
      invariant out == Base64Body(key)[..4 * k]
    {
      BodyGroup(key, k);
      out := out + Quad(key[i] as int * 65536 + key[i + 1] as int * 256 + key[i + 2]);
      i, k := i + 3, k + 1;
    }
    // 32 % 3 == 2: of the three possible remainders only this one occurs
    assert KEY_LEN - i == 2;
    BodyEnd(key);
    out := out + Quad(key[i] as int * 65536 + key[i + 1] as int * 256)[..3];
    out := out + "=";
  }

  /** Two's-complement wrap of an `int32_t`. */
  function Wrap32(x: int): (w: int)
    ensures -0x8000_0000 <= w < 0x8000_0000
  {
    (x + 0x8000_0000) % 0x1_0000_0000 - 0x8000_0000
  }

  /** Arithmetic right shift. */
  function Shr(x: int, n: nat): int {
    if n == 0 then x else Shr(x, n - 1) / 2
  }

  lemma {:induction false} ShrSmall(x: int)
    ensures Shr(x, 0) == x && Shr(x, 2) == x / 4 && Shr(x, 4) == x / 16
  {
    assert Shr(x, 2) == Shr(x, 1) / 2 && Shr(x, 1) == Shr(x, 0) / 2;
    assert Shr(x, 4) == Shr(x, 3) / 2 && Shr(x, 3) == Shr(x, 2) / 2;
  }

  /** `(buf << 6) | v`: the shifted-in low six bits are zero, so the or is a sum. */
  function Push(buf: int, v: sextet): int {
    Wrap32(buf * 64) + v
  }

  /** Only the low 12 bits of the accumulator are ever read again, and wrapping keeps them. */
  lemma {:induction false} PushLowBits(buf: int, v: sextet)
    ensures Push(buf, v) % 4096 == buf % 64 * 64 + v
    ensures -0x8000_0000 <= Push(buf, v) < 0x8000_0000
  {
    var x := buf * 64;
    var k := (x + 0x8000_0000) / 0x1_0000_0000;
    assert Wrap32(x) == x - k * 0x1_0000_0000;
    var q, r := buf / 64, buf % 64;
    assert buf == 64 * q + r;
    Quotient4096(q - k * 0x10_0000, r * 64 + v);
    WrapSpare(buf);
  }

  lemma {:induction false} WrapSpare(buf: int)
    ensures Wrap32(buf * 64) <= 0x7FFF_FFC0
  {
    var k := (buf * 64 + 0x8000_0000) / 0x1_0000_0000;
    assert Wrap32(buf * 64) == 64 * (buf - k * 0x400_0000);
  }

  lemma {:induction false} Quotient4(q: int, r: int)
    requires 0 <= r < 4
    ensures (4 * q + r) / 4 == q && (4 * q + r) % 4 == r
  {
  }

  lemma {:induction false} Quotient16(q: int, r: int)
    requires 0 <= r < 16
    ensures (16 * q + r) / 16 == q && (16 * q + r) % 16 == r
  {
  }

  lemma {:induction false} Quotient64(q: int, r: int)
    requires 0 <= r < 64
    ensures (64 * q + r) / 64 == q && (64 * q + r) % 64 == r
  {
  }

  lemma {:induction false} Quotient256(q: int, r: int)
    requires 0 <= r < 256
    ensures (256 * q + r) % 256 == r
  {
  }

  lemma {:induction false} MaskQuarter(h: int, l: nat)
    requires l < 4096
    ensures (4096 * h + l) / 4 % 256 == l / 4 % 256
  {
    var m := l / 4;
    Quotient4(1024 * h + m, l % 4);
    Quotient256(4 * h + m / 256, m % 256);
  }

  lemma {:induction false} MaskSixteenth(h: int, l: nat)
    requires l < 4096
    ensures (4096 * h + l) / 16 % 256 == l / 16 % 256
  {
    Quotient16(256 * h + l / 16, l % 16);
    Quotient256(h, l / 16);
  }

  lemma {:induction false} MaskWhole(h: int, l: nat)
    requires l < 4096
    ensures (4096 * h + l) % 256 == l % 256
  {
    Quotient256(16 * h + l / 256, l % 256);
  }

  lemma {:induction false} ShiftMask(x: int, bits: nat)
    requires bits == 0 || bits == 2 || bits == 4
    ensures Shr(x, bits) % 256 == Shr(x % 4096, bits) % 256
  {
    ShrSmall(x);
    ShrSmall(x % 4096);
    MaskQuarter(x / 4096, x % 4096);
    MaskSixteenth(x / 4096, x % 4096);
    MaskWhole(x / 4096, x % 4096);
  }

  /** The last two symbols before position i, as one 12-bit number. */
  function Tail(s: string, i: nat): (t: nat)
    requires IsBody(s) && i <= 43
    ensures t < 4096
  {
    (if i >= 2 then Base64DecodeChar(s[i - 2]) * 64 else 0) + (if i >= 1 then Base64DecodeChar(s[i - 1]) else 0)
  }

  lemma {:induction false} TailArithmetic(x: sextet, y: sextet)
    ensures (x * 64 + y) / 16 % 256 == x * 4 + y / 16
    ensures (x * 64 + y) / 4 % 256 == x % 16 * 16 + y / 4
    ensures (x * 64 + y) % 256 == x % 4 * 64 + y
  {
    Quotient16(x * 4 + y / 16, y % 16);
    Quotient4(x * 16 + y / 4, y % 4);
    Quotient256(x / 16, x % 16 * 16 + y / 4);
    Quotient256(x / 4, x % 4 * 64 + y);
  }

  /** Where symbol i and byte j meet when `bits` bits of symbol i remain. */
  lemma {:induction false} Alignment(i: nat, bits: nat, j: nat)
    requires bits <= 5 && 8 * j + 8 + bits == 6 * i
    ensures j % 3 == 0 ==> bits == 4 && i == j / 3 * 4 + 2
    ensures j % 3 == 1 ==> bits == 2 && i == j / 3 * 4 + 3
    ensures j % 3 == 2 ==> bits == 0 && i == j / 3 * 4 + 4
  {
    var q, m := j / 3, j % 3;
    assert j == 3 * q + m;
    assert 8 * m + 8 + bits == 6 * (i - 4 * q);
  }

  /** The byte the decoder stores when `bits` bits remain below it. */
  lemma {:induction false} TailByte(s: string, i: nat, bits: nat, j: nat)
    requires IsBody(s) && 2 <= i <= 43 && j < KEY_LEN && bits <= 5
    requires 8 * j + 8 + bits == 6 * i
    ensures Shr(Tail(s, i), bits) % 256 == ByteAt(s, j)
    ensures bits == 0 || bits == 2 || bits == 4
  {
    Alignment(i, bits, j);
    ShrSmall(Tail(s, i));
    TailArithmetic(Base64DecodeChar(s[i - 2]), Base64DecodeChar(s[i - 1]));
  }

  method KeyFromBase64(b64: string) returns (r: Result<Key>)
    ensures r == Base64Key(b64)
  {
    var s := b64;
    while s != [] && s[|s| - 1] == '='
      invariant TrimPadding(s) == TrimPadding(b64)
      decreases |s|
    {
      s := s[..|s| - 1];
    }
    if |s| != 43 {
      return Err(InvalidArgument);
    }
    r := DecodeBody(s);
  }

  /** What the decoding loop keeps after `i` symbols. */
  ghost predicate Decoding(s: string, i: nat, outPos: nat, bits: nat, buf: int)
    requires |s| == 43
  {
    && i <= 43 && outPos <= KEY_LEN
    && 8 * outPos + bits == 6 * i && bits <= 6
    && (forall k :: 0 <= k < i ==> Base64DecodeChar(s[k]) >= 0)
    && (IsBody(s) ==> buf % 4096 == Tail(s, i))
  }

  lemma {:induction false} TailLow(s: string, i: nat, buf: int)
    requires IsBody(s) && i < 43 && buf % 4096 == Tail(s, i)
    ensures buf % 64 * 64 + Base64DecodeChar(s[i]) == Tail(s, i + 1)
  {
    var y := if i >= 1 then Base64DecodeChar(s[i - 1]) else 0;
    var x := if i >= 2 then Base64DecodeChar(s[i - 2]) else 0;
    assert buf == 64 * (64 * (buf / 4096) + x) + y;
    Quotient64(64 * (buf / 4096) + x, y);
  }

  lemma {:induction false} PushSymbol(s: string, i: nat, outPos: nat, bits: nat, buf: int)
    requires |s| == 43 && i < 43 && Decoding(s, i, outPos, bits, buf) && Base64DecodeChar(s[i]) >= 0
    ensures var buf' := Push(buf, Base64DecodeChar(s[i]));
            && (IsBody(s) ==> buf' % 4096 == Tail(s, i + 1))
            && (bits >= 2 ==> outPos < KEY_LEN)
            && (IsBody(s) && bits >= 2 ==> Shr(buf', bits - 2) % 256 == ByteAt(s, outPos))
  {
    hide Push, Shr, ByteAt, Tail;
    var v := Base64DecodeChar(s[i]);
    PushLowBits(buf, v);
    if IsBody(s) {
      TailLow(s, i, buf);
      if bits >= 2 {
        TailByte(s, i + 1, bits - 2, outPos);
        ShiftMask(Push(buf, v), bits - 2);
      }
    }
  }

  /** The accumulator loop of `KeyFromBase64` on the 43 characters left after the padding. */
  method DecodeBody(s: string) returns (r: Result<Key>)
    requires |s| == 43
    ensures r == if IsBody(s) then Ok(BodyKey(s)) else Err(InvalidArgument)
  {
    hide Push, Shr, ByteAt, Base64DecodeChar;
    var key := new byte[KEY_LEN](_ => 0);
    var outPos, buf, bits := 0, 0, 0;
    var i := 0;
    while i < |s|
      invariant Decoding(s, i, outPos, bits, buf)
      invariant bits < 8
      invariant IsBody(s) ==> forall j :: 0 <= j < outPos ==> key[j] == ByteAt(s, j)
    {
      var v := Base64DecodeChar(s[i]);
      if v < 0 {
        return Err(InvalidArgument);
      }
      PushSymbol(s, i, outPos, bits, buf);
      buf := Push(buf, v);
      bits := bits + 6;
      i := i + 1;
      if bits >= 8 {
        bits := bits - 8;
        if outPos >= KEY_LEN {
          assert false; // 43 symbols hold 258 bits: the 33rd byte never completes
        }
        key[outPos] := Shr(buf, bits) % 256;
        outPos := outPos + 1;
      }
    }
    if outPos != KEY_LEN {
      assert false;
    }
    assert key[..] == BodyKey(s);
    r := Ok(key[..]);
  }

  /** An accumulator that never wraps, after the first i symbols. */
  function Unbounded(s: string, i: nat): int
    requires IsBody(s) && i <= 43
  {
    if i == 0 then 0 else Unbounded(s, i - 1) * 64 + Base64DecodeChar(s[i - 1])
  }

  lemma {:induction false} UnboundedTail(s: string, i: nat)
    requires IsBody(s) && i <= 43
    ensures Unbounded(s, i) % 4096 == Tail(s, i)
  {
    if i > 0 {
      UnboundedTail(s, i - 1);
      var u := Unbounded(s, i - 1);
      TailLow(s, i - 1, u);
      Quotient4096(u / 64, u % 64 * 64 + Base64DecodeChar(s[i - 1]));
    }
  }

  /** The wrapping accumulator loses nothing: byte j of the key is bits 8j..8j+7 of the whole
      symbol string read as one number. */
  lemma {:induction false} WrapIsHarmless(s: string, j: nat, i: nat)
    requires IsBody(s) && j < KEY_LEN && i <= 43
    requires 6 * i - 6 < 8 * j + 8 <= 6 * i
    ensures BodyKey(s)[j] == Shr(Unbounded(s, i), 6 * i - (8 * j + 8)) % 256
  {
    var bits := 6 * i - (8 * j + 8);
    UnboundedTail(s, i);
    TailByte(s, i, bits, j);
    ShiftMask(Unbounded(s, i), bits);
  }

  // ----- base64: round trip and canonical form -----

  lemma {:induction false} DecodedSymbols(key: Key)
    ensures IsBody(Base64Body(key))
    ensures forall i :: 0 <= i < 43 ==> Base64DecodeChar(Base64Body(key)[i]) == SymbolAt(key, i)
  {
    AlphabetsInvert();
  }

  lemma {:induction false} SplitBytes(a: byte, b: byte)
    ensures a / 4 * 4 + (a % 4 * 16 + b / 16) / 16 == a
    ensures (a % 4 * 16 + b / 16) % 16 * 16 + b % 16 * 4 / 4 == b
    ensures (b % 16 * 4 + a / 64) / 4 == b % 16 && (b % 16 * 4 + a / 64) % 4 * 64 + a % 64 == a
    ensures (a % 4 * 16 + b / 16) % 16 == b / 16
  {
  }

  /** The four symbols of block k, whose bytes are 3k..3k+2. */
  lemma {:induction false} BlockSymbols(key: Key, k: nat)
    ensures SymbolAt(key, 4 * k) == KeyByte(key, 3 * k) / 4
    ensures SymbolAt(key, 4 * k + 1) == KeyByte(key, 3 * k) % 4 * 16 + KeyByte(key, 3 * k + 1) / 16
    ensures SymbolAt(key, 4 * k + 2) == KeyByte(key, 3 * k + 1) % 16 * 4 + KeyByte(key, 3 * k + 2) / 64
    ensures SymbolAt(key, 4 * k + 3) == KeyByte(key, 3 * k + 2) % 64
  {
    Block4(k);
  }

  lemma {:induction false} Block4(k: nat)
    ensures forall m {:trigger 4 * k + m} :: 0 <= m < 4 ==> (4 * k + m) / 4 == k && (4 * k + m) % 4 == m
    ensures 4 * k / 4 == k && 4 * k % 4 == 0
  {
    forall m {:trigger 4 * k + m} | 0 <= m < 4
      ensures (4 * k + m) / 4 == k && (4 * k + m) % 4 == m
    {
      Quotient4(k, m);
    }
    Quotient4(k, 0);
  }

  lemma {:induction false} Quotient3(q: int, r: int)
    requires 0 <= r < 3
    ensures (3 * q + r) / 3 == q && (3 * q + r) % 3 == r
  {
  }

  /** Byte m of block k, from the symbols at 4k.. */
  lemma {:induction false} BlockByte(s: string, k: nat, m: nat)
    requires IsBody(s) && m < 3 && 3 * k + m < KEY_LEN
    ensures 4 * k + m + 1 < 43
    ensures m == 0 ==> ByteAt(s, 3 * k + m) == Base64DecodeChar(s[4 * k]) * 4 + Base64DecodeChar(s[4 * k + 1]) / 16
    ensures m == 1 ==> ByteAt(s, 3 * k + m) == Base64DecodeChar(s[4 * k + 1]) % 16 * 16 + Base64DecodeChar(s[4 * k + 2]) / 4
    ensures m == 2 ==> ByteAt(s, 3 * k + m) == Base64DecodeChar(s[4 * k + 2]) % 4 * 64 + Base64DecodeChar(s[4 * k + 3])
  {
    Quotient3(k, m);
  }

  lemma {:induction false} KeyByteInside(key: Key, j: nat)
    requires j < KEY_LEN
    ensures KeyByte(key, j) == key[j]
  {
  }

  lemma {:induction false} SymbolsGiveByte(key: Key, k: nat, m: nat)
    requires m < 3 && 3 * k + m < KEY_LEN
    ensures IsBody(Base64Body(key)) && ByteAt(Base64Body(key), 3 * k + m) == key[3 * k + m]
  {
    hide SymbolAt, ByteAt, Base64DecodeChar, Base64Char, KeyByte;
    DecodedSymbols(key);
    BlockSymbols(key, k);
    BlockByte(Base64Body(key), k, m);
    assert KeyByte(key, 3 * k + m) == key[3 * k + m] by {
      KeyByteInside(key, 3 * k + m);
    }
    if m < 2 {
      SplitBytes(KeyByte(key, 3 * k), KeyByte(key, 3 * k + 1));
    } else {
      SplitBytes(KeyByte(key, 3 * k + 2), KeyByte(key, 3 * k + 1));
    }
  }

  lemma {:induction false} SymbolsGiveBytes(key: Key, j: nat)
    requires j < KEY_LEN
    ensures IsBody(Base64Body(key)) && ByteAt(Base64Body(key), j) == key[j]
  {
    SymbolsGiveByte(key, j / 3, j % 3);
  }

  lemma {:induction false} TrimKeepsBody(s: string, pad: string)
    requires |s| > 0 && s[|s| - 1] != '=' && forall i :: 0 <= i < |pad| ==> pad[i] == '='
    ensures TrimPadding(s + pad) == s
  {
    var t := TrimPadding(s + pad);
    assert (s + pad)[|s| - 1] != '=';
    assert forall k :: |s| <= k < |s + pad| ==> (s + pad)[k] == '=';
    assert |t| > 0 ==> t[|t| - 1] == (s + pad)[|t| - 1];
    assert t == (s + pad)[..|s|];
  }

  lemma {:induction false} Base64RoundTrip(key: Key)
    ensures Base64Key(Base64Body(key) + "=") == Ok(key)
  {
    var s := Base64Body(key);
    DecodedSymbols(key);
    assert s[42] != '=';
    TrimKeepsBody(s, "=");
    forall j | 0 <= j < KEY_LEN
      ensures BodyKey(s)[j] == key[j]
    {
      SymbolsGiveBytes(key, j);
    }
    assert BodyKey(s) == key;
  }

  /** The symbols a body shares with the canonical encoding of the key it decodes to: all but
      the two low bits of the last one. */
  lemma {:induction false} FirstHalf(s: string, k: nat)
    requires IsBody(s) && 4 * k + 2 < 43
    ensures SymbolAt(BodyKey(s), 4 * k) == Base64DecodeChar(s[4 * k])
    ensures SymbolAt(BodyKey(s), 4 * k + 1) == Base64DecodeChar(s[4 * k + 1])
  {
    hide SymbolAt, ByteAt, Base64DecodeChar;
    BlockSymbols(BodyKey(s), k);
    BlockByte(s, k, 0);
    BlockByte(s, k, 1);
    JoinSymbols(Base64DecodeChar(s[4 * k]), Base64DecodeChar(s[4 * k + 1]), Base64DecodeChar(s[4 * k + 2]));
  }

  lemma {:induction false} SecondHalf(s: string, k: nat)
    requires IsBody(s) && k < 10
    ensures SymbolAt(BodyKey(s), 4 * k + 2) == Base64DecodeChar(s[4 * k + 2])
    ensures SymbolAt(BodyKey(s), 4 * k + 3) == Base64DecodeChar(s[4 * k + 3])
  {
    hide SymbolAt, ByteAt, Base64DecodeChar;
    BlockSymbols(BodyKey(s), k);
    BlockByte(s, k, 1);
    BlockByte(s, k, 2);
    JoinSymbols(Base64DecodeChar(s[4 * k + 1]), Base64DecodeChar(s[4 * k + 2]), Base64DecodeChar(s[4 * k + 3]));
  }

  lemma {:induction false} LastSymbol(s: string)
    requires IsBody(s)
    ensures SymbolAt(BodyKey(s), 42) == Base64DecodeChar(s[42]) / 4 * 4
  {
    hide SymbolAt, ByteAt, Base64DecodeChar;
    BlockSymbols(BodyKey(s), 10);
    BlockByte(s, 10, 1);
    JoinSymbols(Base64DecodeChar(s[41]), Base64DecodeChar(s[42]), 0);
  }

  lemma {:induction false} BytesGiveSymbols(s: string, i: nat)
    requires IsBody(s) && i < 43
    ensures i < 42 ==> SymbolAt(BodyKey(s), i) == Base64DecodeChar(s[i])
    ensures i == 42 ==> SymbolAt(BodyKey(s), i) == Base64DecodeChar(s[i]) / 4 * 4
  {
    var k, m := i / 4, i % 4;
    if i == 42 {
      LastSymbol(s);
    } else if m < 2 {
      FirstHalf(s, k);
      assert i == 4 * k || i == 4 * k + 1;
    } else {
      assert i == 4 * k + 2 || i == 4 * k + 3;
      SecondHalf(s, k);
    }
  }

  lemma {:induction false} JoinSymbols(x: sextet, y: sextet, z: sextet)
    ensures (x * 4 + y / 16) / 4 == x
    ensures (x * 4 + y / 16) % 4 * 16 + (y % 16 * 16 + z / 4) / 16 == y
    ensures (x % 16 * 16 + y / 4) % 16 * 4 == y / 4 * 4
    ensures (x % 16 * 16 + y / 4) % 16 * 4 + (y % 4 * 64 + z) / 64 == y
    ensures (y % 4 * 64 + z) % 64 == z
  {
    Quotient4(x, y / 16);
    Quotient16(y % 16, z / 4);
    Quotient16(x % 16, y / 4);
    Quotient64(y % 4, z);
  }

  /** An accepted text is the canonical encoding of its key exactly when it carries one '='
      and the two unused bits of its last symbol are zero. */
  lemma {:induction false} Base64Canonical(b64: string)
    requires Base64Key(b64).Ok?
    ensures Base64Body(Base64Key(b64).value) + "=" == b64
       <==> |b64| == 44 && Base64DecodeChar(b64[42]) % 4 == 0
  {
    var s := TrimPadding(b64);
    var out := Base64Body(Base64Key(b64).value);
    AlphabetsInvert();
    forall i | 0 <= i < 43
      ensures SymbolAt(BodyKey(s), i) == if i < 42 then Base64DecodeChar(s[i]) else Base64DecodeChar(s[i]) / 4 * 4
    {
      BytesGiveSymbols(s, i);
    }
    assert out[42] == Base64Char(Base64DecodeChar(s[42]) / 4 * 4);
    if |b64| == 44 && Base64DecodeChar(b64[42]) % 4 == 0 {
      assert out == s;
      assert b64 == s + [b64[43]];
    }
    assert out + "=" == b64 ==> b64[42] == out[42];
  }

  /** Body number r of the four that decode to `key`. */
  function Alias(key: Key, r: nat): (s: string)
    requires r < 4
    ensures |s| == 43
  {
    Base64Body(key)[..42] + [Base64Char(SymbolAt(key, 42) / 4 * 4 + r)]
  }

  lemma {:induction false} AliasesDecode(key: Key, r: nat)
    requires r < 4
    ensures IsBody(Alias(key, r)) && BodyKey(Alias(key, r)) == key
  {
    hide Base64Char, Base64DecodeChar, SymbolAt;
    AlphabetsInvert();
    var s, t := Alias(key, r), Base64Body(key);
    assert forall i :: 0 <= i < 42 ==> s[i] == t[i];
    assert IsBody(s) && IsBody(t);
    forall j | 0 <= j < KEY_LEN
      ensures ByteAt(s, j) == key[j]
    {
      SymbolsGiveBytes(key, j);
      var q := j / 3 * 4;
      if j == 31 {
        assert Base64DecodeChar(t[42]) == SymbolAt(key, 42) && Base64DecodeChar(s[42]) / 4 == Base64DecodeChar(t[42]) / 4;
      } else {
        assert q + j % 3 + 1 < 42;
      }
    }
  }

  lemma {:induction false} AliasesDiffer(key: Key, r: nat, t: nat)
    requires r < t < 4
    ensures Alias(key, r) != Alias(key, t)
  {
    AlphabetsInvert();
    assert Alias(key, r)[42] != Alias(key, t)[42];
  }

  lemma {:induction false} BodyIsAlias(s: string)
    requires IsBody(s)
    ensures s == Alias(BodyKey(s), Base64DecodeChar(s[42]) % 4)
  {
    hide SymbolAt, Base64DecodeChar, Base64Char, BodyKey;
    var t := Alias(BodyKey(s), Base64DecodeChar(s[42]) % 4);
    AlphabetsInvert();
    forall i | 0 <= i < 43
      ensures s[i] == t[i]
    {
      BytesGiveSymbols(s, i);
    }
  }

  /** Every key has exactly four accepted bodies: a body decodes to `key` if and only if it is
      one of `Alias(key, 0..3)`, and those four differ. */
  lemma {:induction false} FourBodiesPerKey(key: Key, s: string)
    ensures IsBody(s) && BodyKey(s) == key <==> exists r: nat :: r < 4 && s == Alias(key, r)
    ensures forall r: nat, t: nat :: r < t < 4 ==> Alias(key, r) != Alias(key, t)
  {
    hide Alias, IsBody, BodyKey;
    forall r: nat, t: nat | r < t < 4
      ensures Alias(key, r) != Alias(key, t)
    {
      AliasesDiffer(key, r, t);
    }
    if IsBody(s) && BodyKey(s) == key {
      BodyIsAlias(s);
    }
    if r: nat :| r < 4 && s == Alias(key, r) {
      AliasesDecode(key, r);
    }
  }

  // ----- hex -----

  function HexPair(b: byte): (s: string)
    ensures |s| == 2
  {
    [HexChar(b / 16), HexChar(b % 16)]
  }

  function Hex(key: seq<byte>): (s: string)
    ensures |s| == 2 * |key|
    ensures forall i :: 0 <= i < |key| ==> s[2 * i] == HexChar(key[i] / 16) && s[2 * i + 1] == HexChar(key[i] % 16)
  {
    if key == [] then "" else Hex(key[..|key| - 1]) + HexPair(key[|key| - 1])
  }

  predicate IsHexKey(s: string) {
    |s| == 64 && forall i :: 0 <= i < 64 ==> Text.HexDecodeChar(s[i]) >= 0
  }

  function HexKey(s: string): (r: Result<Key>)
    ensures r.Ok? <==> IsHexKey(s)
    ensures r.Ok? ==> forall i :: 0 <= i < KEY_LEN ==>
      r.value[i] == Text.HexDecodeChar(s[2 * i]) * 16 + Text.HexDecodeChar(s[2 * i + 1])
    ensures r.Err? ==> r.error == InvalidArgument
  {
    if IsHexKey(s) then
      Ok(seq(KEY_LEN, i requires 0 <= i < KEY_LEN => Text.HexDecodeChar(s[2 * i]) * 16 + Text.HexDecodeChar(s[2 * i + 1])))
    else Err(InvalidArgument)
  }

  lemma {:induction false} NoHex()
    ensures Hex([]) == ""
  {
  }

  lemma {:induction false} HexStep(key: Key, i: nat)
    requires i < KEY_LEN
    ensures Hex(key[..i + 1]) == Hex(key[..i]) + [HexChar(key[i] / 16)] + [HexChar(key[i] % 16)]
  {
    hide HexChar;
    assert key[..i + 1][..i] == key[..i];
  }

  method KeyToHex(key: Key) returns (out: string)
    ensures out == Hex(key)
  {
    hide Hex, HexChar;
    out := "";
    NoHex();
    var i := 0;
    assert key[..0] == [];
    while i < KEY_LEN
      invariant 0 <= i <= KEY_LEN && out == Hex(key[..i])
    {
      var b := key[i];
      out := out + [HexChar(b / 16)];
      out := out + [HexChar(b % 16)];
      HexStep(key, i);
      i := i + 1;
    }
    assert key[..KEY_LEN] == key;
  }

  method KeyFromHex(hex: string) returns (r: Result<Key>)
    ensures r == HexKey(hex)
  {
    if |hex| != KEY_LEN * 2 {
      return Err(InvalidArgument);
    }
    var key := new byte[KEY_LEN](_ => 0);
    var i := 0;
    while i < KEY_LEN
      invariant 0 <= i <= KEY_LEN
      invariant forall k :: 0 <= k < 2 * i ==> Text.HexDecodeChar(hex[k]) >= 0
      invariant forall k :: 0 <= k < i ==> key[k] == Text.HexDecodeChar(hex[2 * k]) * 16 + Text.HexDecodeChar(hex[2 * k + 1])
    {
      var hi := Text.HexDecodeChar(hex[i * 2]);
      var lo := Text.HexDecodeChar(hex[i * 2 + 1]);
      if hi < 0 || lo < 0 {
        return Err(InvalidArgument);
      }
      key[i] := hi * 16 + lo;
      i := i + 1;
    }
    r := Ok(key[..]);
    assert r.value == HexKey(hex).value;
  }

  function Lower(c: char): char {
    if 'A' <= c <= 'Z' then ('a' as int + (c as int - 'A' as int)) as char else c
  }

  lemma {:induction false} HexRoundTrip(key: Key)
    ensures HexKey(Hex(key)) == Ok(key)
  {
    AlphabetsInvert();
    var s := Hex(key);
    forall i | 0 <= i < 64
      ensures Text.HexDecodeChar(s[i]) >= 0
    {
      var k := i / 2;
      assert s[2 * k] == HexChar(key[k] / 16) && s[2 * k + 1] == HexChar(key[k] % 16);
    }
    forall k | 0 <= k < KEY_LEN
      ensures HexKey(s).value[k] == key[k]
    {
      assert s[2 * k] == HexChar(key[k] / 16) && s[2 * k + 1] == HexChar(key[k] % 16);
    }
    assert HexKey(s).value == key;
  }

  /** Re-encoding an accepted hex text lower-cases it and changes nothing else. */
  lemma {:induction false} HexLowerCases(s: string)
    requires IsHexKey(s)
    ensures |Hex(HexKey(s).value)| == 64
    ensures forall i :: 0 <= i < 64 ==> Hex(HexKey(s).value)[i] == Lower(s[i])
  {
    hide HexChar, Lower, Text.HexDecodeChar;
    var t := Hex(HexKey(s).value);
    forall i | 0 <= i < 64
      ensures t[i] == Lower(s[i])
    {
      HexPairLowerCases(s, i / 2);
    }
  }

  lemma {:induction false} DigitLowerCases(c: char)
    requires Text.HexDecodeChar(c) >= 0
    ensures HexChar(Text.HexDecodeChar(c)) == Lower(c)
  {
  }

  /** The two characters of byte k. */
  lemma {:induction false} HexPairLowerCases(s: string, k: nat)
    requires IsHexKey(s) && k < 32
    ensures var t := Hex(HexKey(s).value);
            |t| == 64 && t[2 * k] == Lower(s[2 * k]) && t[2 * k + 1] == Lower(s[2 * k + 1])
  {
    hide HexChar, Lower, Text.HexDecodeChar;
    var key := HexKey(s).value;
    assert Hex(key)[2 * k] == HexChar(key[k] / 16) && Hex(key)[2 * k + 1] == HexChar(key[k] % 16);
    assert key[k] / 16 == Text.HexDecodeChar(s[2 * k]) && key[k] % 16 == Text.HexDecodeChar(s[2 * k + 1]);
    DigitLowerCases(s[2 * k]);
    DigitLowerCases(s[2 * k + 1]);
  }

  predicate IsZeroKey(key: Key) {
    forall i :: 0 <= i < KEY_LEN ==> key[i] == 0
  }
}
