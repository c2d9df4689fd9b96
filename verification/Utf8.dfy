/** UTF-8 (RFC 3629) between Unicode scalar values and bytes. */
module Utf8 {

  type Byte = b: int | 0 <= b < 256

  const REPLACEMENT: char := '\U{FFFD}'

  /** Section 3: the shortest sequence of one to four bytes. */
  function Encode(c: char): (b: seq<Byte>)
    ensures b != []
    ensures forall i :: 0 <= i < |b| ==> if c as int < 128 then b[i] == c as int else b[i] >= 128
  {
    var n := c as int;
    if n < 0x80 then [n]
    else if n < 0x800 then [0xC0 + n / 64, 0x80 + n % 64]
    else if n < 0x10000 then [0xE0 + n / 4096, 0x80 + n / 64 % 64, 0x80 + n % 64]
    else [0xF0 + n / 262144, 0x80 + n / 4096 % 64, 0x80 + n / 64 % 64, 0x80 + n % 64]
  }

  predicate IsContinuation(b: Byte) {
    0x80 <= b < 0xC0
  }

  predicate IsScalar(n: int) {
    0 <= n < 0xD800 || 0xE000 <= n < 0x11_0000
  }

  function Two(a: int, b: int): int {
    (a - 0xC0) * 64 + (b - 0x80)
  }

  function Three(a: int, b: int, c: int): int {
    (a - 0xE0) * 4096 + (b - 0x80) * 64 + (c - 0x80)
  }

  function Four(a: int, b: int, c: int, d: int): int {
    (a - 0xF0) * 262144 + (b - 0x80) * 4096 + (c - 0x80) * 64 + (d - 0x80)
  }

  /** The first character and how many bytes it takes. Anything but the shortest form of a scalar
      value reads as a replacement character of one byte, as Go's decoder has it. */
  function DecodeFirst(b: seq<Byte>): (r: (char, nat))
    requires b != []
    ensures 1 <= r.1 <= |b|
  {
    if b[0] < 0x80 then (b[0] as char, 1)
    else if 0xC2 <= b[0] < 0xE0 && |b| >= 2 && IsContinuation(b[1]) then
      (Two(b[0], b[1]) as char, 2)
    else if 0xE0 <= b[0] < 0xF0 && |b| >= 3 && IsContinuation(b[1]) && IsContinuation(b[2]) then
      var n := Three(b[0], b[1], b[2]);
      if n >= 0x800 && IsScalar(n) then (n as char, 3) else (REPLACEMENT, 1)
    else if 0xF0 <= b[0] < 0xF5 && |b| >= 4 && IsContinuation(b[1]) && IsContinuation(b[2]) && IsContinuation(b[3]) then
      var n := Four(b[0], b[1], b[2], b[3]);
      if n >= 0x10000 && IsScalar(n) then (n as char, 4) else (REPLACEMENT, 1)
    else (REPLACEMENT, 1)
  }

  lemma PutTogether(n: int)
    requires 0 <= n < 0x11_0000
    ensures Two(0xC0 + n / 64, 0x80 + n % 64) == n
    ensures Three(0xE0 + n / 4096, 0x80 + n / 64 % 64, 0x80 + n % 64) == n
    ensures Four(0xF0 + n / 262144, 0x80 + n / 4096 % 64, 0x80 + n / 64 % 64, 0x80 + n % 64) == n
  {
  }

  /** Every character is read back, whatever follows it. */
  lemma DecodeEncode(c: char, rest: seq<Byte>)
    ensures DecodeFirst(Encode(c) + rest) == (c, |Encode(c)|)
  {
    var n := c as int;
    var e, b := Encode(c), Encode(c) + rest;
    assert forall i :: 0 <= i < |e| ==> b[i] == e[i];
    PutTogether(n);
    if n < 0x800 {
    } else if n < 0x10000 {
      assert IsContinuation(e[1]) && IsContinuation(e[2]);
    } else {
      assert IsContinuation(e[1]) && IsContinuation(e[2]) && IsContinuation(e[3]);
    }
  }

  /** Examples of the standard (section 7), one for each length. */
  lemma Examples()
    ensures Encode('A') == [0x41] && Encode('\U{0391}') == [0xCE, 0x91]
    ensures Encode('\U{2262}') == [0xE2, 0x89, 0xA2] && Encode('\U{233B4}') == [0xF0, 0xA3, 0x8E, 0xB4]
  {
  }
}
