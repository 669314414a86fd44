/** The base64url encoding of section 5 of RFC 4648 without padding (section 3.2),
    as configured by the `URL_SAFE_NO_PAD` engine: encoding writes no `=`, and decoding
    rejects padding, symbols outside the alphabet, a length of 1 modulo 4, and
    non-zero trailing bits. */
module Base64Url {
  import opened Wrappers
  import opened Numbers

  /** The symbol of a 6-bit value (table 2 of RFC 4648). */
  function Symbol(v: int): char
    requires 0 <= v < 64
  {
    if v < 26 then ('A' as int + v) as char
    else if v < 52 then ('a' as int + (v - 26)) as char
    else if v < 62 then ('0' as int + (v - 52)) as char
    else if v == 62 then '-'
    else '_'
  }

  /** The 6-bit value of a symbol, or `None` for a character outside the alphabet
      (the padding character `=` included). */
  function SymbolValue(c: char): (r: Option<int>)
    ensures r.Some? ==> 0 <= r.value < 64 && Symbol(r.value) == c
  {
    if 'A' <= c <= 'Z' then Some(c as int - 'A' as int)
    else if 'a' <= c <= 'z' then Some(c as int - 'a' as int + 26)
    else if '0' <= c <= '9' then Some(c as int - '0' as int + 52)
    else if c == '-' then Some(62)
    else if c == '_' then Some(63)
    else None
  }

  lemma SymbolRoundTrip(v: int)
    requires 0 <= v < 64
    ensures SymbolValue(Symbol(v)) == Some(v)
  {
  }

  /** One group: three bytes give four symbols; a final one or two bytes give two or
      three symbols, the unused low bits set to zero. */
  function EncodeGroup(g: seq<byte>): (s: string)
    requires 1 <= |g| <= 3
    ensures |s| == |g| + 1
  {
    var b0: int := g[0];
    var b1: int := if |g| > 1 then g[1] else 0;
    var b2: int := if |g| > 2 then g[2] else 0;
    var s := [Symbol(b0 / 4), Symbol((b0 % 4) * 16 + b1 / 16), Symbol((b1 % 16) * 4 + b2 / 64), Symbol(b2 % 64)];
    s[..|g| + 1]
  }

  /** Encodes bytes three at a time; no padding is written. */
  function Encode(bs: seq<byte>): (s: string)
    ensures |s| == (4 * |bs| + 2) / 3
    decreases |bs|
  {
    if |bs| == 0 then []
    else
      var n := if |bs| < 3 then |bs| else 3;
      EncodeGroup(bs[..n]) + Encode(bs[n..])
  }

  /** One group of two to four symbols back to one to three bytes; a group whose
      unused low bits are not zero is rejected. */
  function DecodeGroup(s: string): (r: Option<seq<byte>>)
    requires 2 <= |s| <= 4
    ensures r.Some? ==> |r.value| == |s| - 1
  {
    var v0 := SymbolValue(s[0]);
    var v1 := SymbolValue(s[1]);
    var v2 := if |s| > 2 then SymbolValue(s[2]) else Some(0);
    var v3 := if |s| > 3 then SymbolValue(s[3]) else Some(0);
    if v0.None? || v1.None? || v2.None? || v3.None? then None
    else
      var c0, c1, c2, c3 := v0.value, v1.value, v2.value, v3.value;
      var bytes: seq<byte> := [c0 * 4 + c1 / 16, (c1 % 16) * 16 + c2 / 4, (c2 % 4) * 64 + c3];
      if |s| == 2 && c1 % 16 != 0 then None
      else if |s| == 3 && c2 % 4 != 0 then None
      else Some(bytes[..|s| - 1])
  }

  /** Decodes text, or `None` when it is not exactly what `Encode` writes. */
  function Decode(s: string): Option<seq<byte>>
    decreases |s|
  {
    if |s| == 0 then Some([])
    else if |s| == 1 then None
    else
      var n := if |s| < 4 then |s| else 4;
      match DecodeGroup(s[..n])
      case None => None
      case Some(head) =>
        match Decode(s[n..])
        case None => None
        case Some(tail) => Some(head + tail)
  }

  lemma GroupArithmetic(b0: int, b1: int, b2: int)
    requires 0 <= b0 < 256 && 0 <= b1 < 256 && 0 <= b2 < 256
    ensures var c0, c1, c2, c3 := b0 / 4, (b0 % 4) * 16 + b1 / 16, (b1 % 16) * 4 + b2 / 64, b2 % 64;
      && 0 <= c1 < 64 && 0 <= c2 < 64
      && c0 * 4 + c1 / 16 == b0 && (c1 % 16) * 16 + c2 / 4 == b1 && (c2 % 4) * 64 + c3 == b2
  {
    var c1 := (b0 % 4) * 16 + b1 / 16;
    var c2 := (b1 % 16) * 4 + b2 / 64;
    assert c1 / 16 == b0 % 4 && c1 % 16 == b1 / 16;
    assert c2 / 4 == b1 % 16 && c2 % 4 == b2 / 64;
  }

  lemma DecodeEncodeGroup(g: seq<byte>)
    requires 1 <= |g| <= 3
    ensures DecodeGroup(EncodeGroup(g)) == Some(g)
  {
    if |g| == 1 {
      DecodeEncodeOne(g);
    } else if |g| == 2 {
      DecodeEncodeTwo(g);
    } else {
      DecodeEncodeThree(g);
    }
  }

  lemma DecodeEncodeOne(g: seq<byte>)
    requires |g| == 1
    ensures DecodeGroup(EncodeGroup(g)) == Some(g)
  {
    var b0: int := g[0];
    var c0, c1 := b0 / 4, (b0 % 4) * 16;
    GroupArithmetic(b0, 0, 0);
    SymbolRoundTrip(c0);
    SymbolRoundTrip(c1);
    var s := [Symbol(c0), Symbol(c1)];
    assert EncodeGroup(g) == s;
    DecodeSymbols(s, c0, c1, 0, 0);
    var r := DecodeGroup(s).value;
    assert |r| == 1;
    assert r[0] == b0;
    assert g == [b0];
    assert r == g;
  }

  lemma DecodeEncodeTwo(g: seq<byte>)
    requires |g| == 2
    ensures DecodeGroup(EncodeGroup(g)) == Some(g)
  {
    var b0: int, b1: int := g[0], g[1];
    var c0, c1, c2 := b0 / 4, (b0 % 4) * 16 + b1 / 16, (b1 % 16) * 4;
    GroupArithmetic(b0, b1, 0);
    SymbolRoundTrip(c0);
    SymbolRoundTrip(c1);
    SymbolRoundTrip(c2);
    var s := [Symbol(c0), Symbol(c1), Symbol(c2)];
    assert EncodeGroup(g) == s;
    DecodeSymbols(s, c0, c1, c2, 0);
    var r := DecodeGroup(s).value;
    assert |r| == 2;
    assert r[0] == b0 && r[1] == b1;
    assert r == g;
  }

  lemma DecodeEncodeThree(g: seq<byte>)
    requires |g| == 3
    ensures DecodeGroup(EncodeGroup(g)) == Some(g)
  {
    var b0: int, b1: int, b2: int := g[0], g[1], g[2];
    var c0, c1, c2, c3 := b0 / 4, (b0 % 4) * 16 + b1 / 16, (b1 % 16) * 4 + b2 / 64, b2 % 64;
    GroupArithmetic(b0, b1, b2);
    SymbolRoundTrip(c0);
    SymbolRoundTrip(c1);
    SymbolRoundTrip(c2);
    SymbolRoundTrip(c3);
    var s := [Symbol(c0), Symbol(c1), Symbol(c2), Symbol(c3)];
    assert EncodeGroup(g) == s;
    DecodeSymbols(s, c0, c1, c2, c3);
    var r := DecodeGroup(s).value;
    assert |r| == 3;
    assert r[0] == b0 && r[1] == b1 && r[2] == b2;
    assert r == g;
  }

  /** A group of symbols with the given values decodes to the bytes they pack. */
  lemma DecodeSymbols(s: string, c0: int, c1: int, c2: int, c3: int)
    requires 2 <= |s| <= 4
    requires 0 <= c0 < 64 && 0 <= c1 < 64 && 0 <= c2 < 64 && 0 <= c3 < 64
    requires SymbolValue(s[0]) == Some(c0) && SymbolValue(s[1]) == Some(c1)
    requires |s| > 2 ==> SymbolValue(s[2]) == Some(c2)
    requires |s| > 3 ==> SymbolValue(s[3]) == Some(c3)
    requires |s| == 2 ==> c1 % 16 == 0 && c2 == 0 && c3 == 0
    requires |s| == 3 ==> c2 % 4 == 0 && c3 == 0
    ensures DecodeGroup(s) == Some([c0 * 4 + c1 / 16, (c1 % 16) * 16 + c2 / 4, (c2 % 4) * 64 + c3][..|s| - 1])
  {
  }

  /** Decoding what was encoded gives the bytes back. */
  lemma {:induction false} DecodeEncode(bs: seq<byte>)
    ensures Decode(Encode(bs)) == Some(bs)
    decreases |bs|
  {
    if |bs| > 0 {
      var n := if |bs| < 3 then |bs| else 3;
      var head := EncodeGroup(bs[..n]);
      var s := head + Encode(bs[n..]);
      DecodeEncodeGroup(bs[..n]);
      DecodeEncode(bs[n..]);
      assert s[..n + 1] == head;
      assert s[n + 1..] == Encode(bs[n..]);
      assert bs == bs[..n] + bs[n..];
    }
  }

  lemma GroupJoin(c0: int, c1: int, c2: int, c3: int)
    requires 0 <= c0 < 64 && 0 <= c1 < 64 && 0 <= c2 < 64 && 0 <= c3 < 64
    ensures var b0, b1, b2 := c0 * 4 + c1 / 16, (c1 % 16) * 16 + c2 / 4, (c2 % 4) * 64 + c3;
      && 0 <= b0 < 256 && 0 <= b1 < 256 && 0 <= b2 < 256
      && b0 / 4 == c0 && (b0 % 4) * 16 + b1 / 16 == c1 && (b1 % 16) * 4 + b2 / 64 == c2 && b2 % 64 == c3
  {
    var b0 := c0 * 4 + c1 / 16;
    var b1 := (c1 % 16) * 16 + c2 / 4;
    var b2 := (c2 % 4) * 64 + c3;
    assert b0 / 4 == c0 && b0 % 4 == c1 / 16;
    assert b1 / 16 == c1 % 16 && b1 % 16 == c2 / 4;
    assert b2 / 64 == c2 % 4 && b2 % 64 == c3;
  }

  lemma EncodeDecodeGroup(s: string)
    requires 2 <= |s| <= 4 && DecodeGroup(s).Some?
    ensures EncodeGroup(DecodeGroup(s).value) == s
  {
    if |s| == 2 {
      EncodeDecodeTwo(s);
    } else if |s| == 3 {
      EncodeDecodeThree(s);
    } else {
      EncodeDecodeFour(s);
    }
  }

  lemma EncodeDecodeTwo(s: string)
    requires |s| == 2 && DecodeGroup(s).Some?
    ensures EncodeGroup(DecodeGroup(s).value) == s
  {
    var c0, c1 := SymbolValue(s[0]).value, SymbolValue(s[1]).value;
    GroupJoin(c0, c1, 0, 0);
    assert s == [s[0], s[1]];
  }

  lemma EncodeDecodeThree(s: string)
    requires |s| == 3 && DecodeGroup(s).Some?
    ensures EncodeGroup(DecodeGroup(s).value) == s
  {
    var c0, c1, c2 := SymbolValue(s[0]).value, SymbolValue(s[1]).value, SymbolValue(s[2]).value;
    GroupJoin(c0, c1, c2, 0);
    assert s == [s[0], s[1], s[2]];
  }

  lemma EncodeDecodeFour(s: string)
    requires |s| == 4 && DecodeGroup(s).Some?
    ensures EncodeGroup(DecodeGroup(s).value) == s
  {
    var c0, c1, c2, c3 := SymbolValue(s[0]).value, SymbolValue(s[1]).value, SymbolValue(s[2]).value, SymbolValue(s[3]).value;
    GroupJoin(c0, c1, c2, c3);
    var b0, b1, b2 := c0 * 4 + c1 / 16, (c1 % 16) * 16 + c2 / 4, (c2 % 4) * 64 + c3;
    DecodeSymbols(s, c0, c1, c2, c3);
    assert DecodeGroup(s).value == [b0, b1, b2];
    EncodeThreeBytes(b0, b1, b2);
    assert s == [s[0], s[1], s[2], s[3]];
  }

  /** A full group of three bytes encodes to the four symbols of its 6-bit pieces. */
  lemma EncodeThreeBytes(b0: byte, b1: byte, b2: byte)
    ensures EncodeGroup([b0, b1, b2])
      == [Symbol(b0 as int / 4), Symbol((b0 as int % 4) * 16 + b1 as int / 16),
          Symbol((b1 as int % 16) * 4 + b2 as int / 64), Symbol(b2 as int % 64)]
  {
    var g: seq<byte> := [b0, b1, b2];
    assert g[0] == b0 && g[1] == b1 && g[2] == b2;
  }

  /** Decoding accepts only canonical text: whatever decodes is the encoding of its result. */
  lemma {:induction false} EncodeDecode(s: string)
    requires Decode(s).Some?
    ensures Encode(Decode(s).value) == s
    decreases |s|
  {
    if |s| > 0 {
      var n := if |s| < 4 then |s| else 4;
      var head := DecodeGroup(s[..n]).value;
      var tail := Decode(s[n..]).value;
      EncodeDecodeGroup(s[..n]);
      EncodeDecode(s[n..]);
      var bs := head + tail;
      assert bs[..n - 1] == head && bs[n - 1..] == tail;
      if n < 4 {
        assert |tail| == 0;
      }
      assert s == s[..n] + s[n..];
    }
  }
}
