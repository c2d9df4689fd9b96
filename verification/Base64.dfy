/** Base64 (RFC 4648, section 4), with padding. */
module Base64 {
  import opened Core
  import opened Utf8

  function Digit(n: int): (c: char)
    requires 0 <= n < 64
    ensures ValueOf(c) == Some(n)
    ensures 0x20 < c as int < 0x7F && c != '='
  {
    if n < 26 then ('A' as int + n) as char
    else if n < 52 then ('a' as int + n - 26) as char
    else if n < 62 then ('0' as int + n - 52) as char
    else if n == 62 then '+' else '/'
  }

  function ValueOf(c: char): (n: Option<int>)
    ensures n.Some? ==> 0 <= n.value < 64
  {
    if 'A' <= c <= 'Z' then Some(c as int - 'A' as int)
    else if 'a' <= c <= 'z' then Some(c as int - 'a' as int + 26)
    else if '0' <= c <= '9' then Some(c as int - '0' as int + 52)
    else if c == '+' then Some(62)
    else if c == '/' then Some(63)
    else None
  }

  // ---- Three bytes as four sextets ----

  function First(a: Byte): (n: int) ensures 0 <= n < 64 { a / 4 }

  function Second(a: Byte, b: Byte): (n: int) ensures 0 <= n < 64 { a % 4 * 16 + b / 16 }

  function Third(b: Byte, c: Byte): (n: int) ensures 0 <= n < 64 { b % 16 * 4 + c / 64 }

  function Fourth(c: Byte): (n: int) ensures 0 <= n < 64 { c % 64 }

  function Join(left: int, right: int, bits: int): (b: Byte)
    requires 0 <= left < 64 && 0 <= right < 64 && bits in {2, 4, 6}
  {
    if bits == 2 then left * 4 + right / 16
    else if bits == 4 then left % 16 * 16 + right / 4
    else left % 4 * 64 + right
  }

  lemma Sextets(a: Byte, b: Byte, c: Byte)
    ensures Join(First(a), Second(a, b), 2) == a
    ensures Join(Second(a, b), Third(b, c), 4) == b
    ensures Join(Third(b, c), Fourth(c), 6) == c
  {
  }

  // ---- Whole strings ----

  function Encode64(b: seq<Byte>): (s: string) {
    if b == [] then ""
    else if |b| == 1 then [Digit(First(b[0])), Digit(Second(b[0], 0))] + "=="
    else if |b| == 2 then [Digit(First(b[0])), Digit(Second(b[0], b[1])), Digit(Third(b[1], 0))] + "="
    else
      [Digit(First(b[0])), Digit(Second(b[0], b[1])), Digit(Third(b[1], b[2])), Digit(Fourth(b[2]))]
      + Encode64(b[3..])
  }

  function Decode64(s: string): Option<seq<Byte>>
    decreases |s|
  {
    if s == "" then Some([])
    else if |s| < 4 || ValueOf(s[0]).None? || ValueOf(s[1]).None? then None
    else
      var p, q := ValueOf(s[0]).value, ValueOf(s[1]).value;
      if s[2..] == "==" then Some([Join(p, q, 2)])
      else if ValueOf(s[2]).None? then None
      else
        var r := ValueOf(s[2]).value;
        if s[3..] == "=" then Some([Join(p, q, 2), Join(q, r, 4)])
        else if ValueOf(s[3]).None? then None
        else
          var t := ValueOf(s[3]).value;
          var more := Decode64(s[4..]);
          if more.None? then None else Some([Join(p, q, 2), Join(q, r, 4), Join(r, t, 6)] + more.value)
  }

  lemma DecodeOne(p: int, q: int)
    requires 0 <= p < 64 && 0 <= q < 64
    ensures Decode64([Digit(p), Digit(q)] + "==") == Some([Join(p, q, 2)])
  {
    assert ([Digit(p), Digit(q)] + "==")[2..] == "==";
  }

  lemma DecodeTwo(p: int, q: int, r: int)
    requires 0 <= p < 64 && 0 <= q < 64 && 0 <= r < 64
    ensures Decode64([Digit(p), Digit(q), Digit(r)] + "=") == Some([Join(p, q, 2), Join(q, r, 4)])
  {
    var s := [Digit(p), Digit(q), Digit(r)] + "=";
    assert s[3..] == "=" && s[2..][0] == Digit(r);
  }

  lemma DecodeThree(p: int, q: int, r: int, t: int, rest: string)
    requires 0 <= p < 64 && 0 <= q < 64 && 0 <= r < 64 && 0 <= t < 64
    ensures
      var more := Decode64(rest);
      Decode64([Digit(p), Digit(q), Digit(r), Digit(t)] + rest)
      == if more.None? then None else Some([Join(p, q, 2), Join(q, r, 4), Join(r, t, 6)] + more.value)
  {
    var s := [Digit(p), Digit(q), Digit(r), Digit(t)] + rest;
    assert s[2..][0] == Digit(r) && s[3..][0] == Digit(t) && s[4..] == rest;
  }

  lemma DecodeNext(a: Byte, b: Byte, c: Byte, rest: string, bytes: seq<Byte>)
    requires Decode64(rest) == Some(bytes)
    ensures Decode64([Digit(First(a)), Digit(Second(a, b)), Digit(Third(b, c)), Digit(Fourth(c))] + rest)
         == Some([a, b, c] + bytes)
  {
    DecodeThree(First(a), Second(a, b), Third(b, c), Fourth(c), rest);
    Sextets(a, b, c);
  }

  lemma DecodeShort(b: seq<Byte>)
    requires |b| <= 2
    ensures Decode64(Encode64(b)) == Some(b)
  {
    if |b| == 1 {
      DecodeOne(First(b[0]), Second(b[0], 0));
      Sextets(b[0], 0, 0);
      assert b == [b[0]];
    } else if |b| == 2 {
      DecodeTwo(First(b[0]), Second(b[0], b[1]), Third(b[1], 0));
      Sextets(b[0], b[1], 0);
      assert b == [b[0], b[1]];
    }
  }

  lemma {:induction false} DecodeEncode64(b: seq<Byte>)
    ensures Decode64(Encode64(b)) == Some(b)
    decreases |b|
  {
    if |b| <= 2 {
      DecodeShort(b);
    } else {
      DecodeEncode64(b[3..]);
      DecodeNext(b[0], b[1], b[2], Encode64(b[3..]), b[3..]);
      assert b == [b[0], b[1], b[2]] + b[3..];
    }
  }

  /** The first test vectors of the standard (section 10), and the two digits beyond letters and numbers. */
  lemma TestVectors()
    ensures Encode64([0x66]) == "Zg==" && Encode64([0x66, 0x6F]) == "Zm8=" && Encode64([0x66, 0x6F, 0x6F]) == "Zm9v"
    ensures Encode64([0xFB, 0xFF, 0xBF]) == "+/+/"
  {
    assert Encode64([0x66, 0x6F, 0x6F]) == "Zm9v" + Encode64([0x66, 0x6F, 0x6F][3..]);
    assert Encode64([0xFB, 0xFF, 0xBF]) == "+/+/" + Encode64([0xFB, 0xFF, 0xBF][3..]);
  }
}
