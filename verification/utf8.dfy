/** UTF-8 (RFC 3629): Rust's `str::as_bytes` and the validation of `std::str::from_utf8`. */
module Utf8 {
  import opened Wrappers
  import opened Numbers

  predicate IsContinuation(b: int) {
    0x80 <= b <= 0xBF
  }

  /** The UTF-8 encoding of one character (section 3 of RFC 3629). */
  function EncodeChar(c: char): (bs: seq<byte>)
    ensures 1 <= |bs| <= 4
  {
    var cp := c as int;
    if cp < 0x80 then [cp]
    else if cp < 0x800 then [0xC0 + cp / 64, 0x80 + cp % 64]
    else if cp < 0x1_0000 then [0xE0 + cp / 4096, 0x80 + (cp / 64) % 64, 0x80 + cp % 64]
    else [0xF0 + cp / 262144, 0x80 + (cp / 4096) % 64, 0x80 + (cp / 64) % 64, 0x80 + cp % 64]
  }

  /** The UTF-8 encoding of a string (Rust's `str::as_bytes`). */
  function Encode(s: string): seq<byte>
  {
    if |s| == 0 then [] else EncodeChar(s[0]) + Encode(s[1..])
  }

  /** Decodes the first character of a non-empty byte string, accepting exactly the
      well-formed byte sequences of section 4 of RFC 3629 (no overlong forms, no
      surrogates, nothing above U+10FFFF). Returns the character and the bytes it used. */
  function DecodeFirst(bs: seq<byte>): (r: Option<(char, nat)>)
    requires |bs| > 0
    ensures r.Some? ==> 1 <= r.value.1 <= |bs| && r.value.1 <= 4
  {
    var b0: int := bs[0];
    if b0 < 0x80 then Some((b0 as char, 1))
    else if 0xC2 <= b0 <= 0xDF then
      if |bs| >= 2 && IsContinuation(bs[1]) then
        var b1: int := bs[1];
        Some((((b0 - 0xC0) * 64 + (b1 - 0x80)) as char, 2))
      else None
    else if 0xE0 <= b0 <= 0xEF then
      var lo := if b0 == 0xE0 then 0xA0 else 0x80;
      var hi := if b0 == 0xED then 0x9F else 0xBF;
      if |bs| >= 3 && lo <= bs[1] <= hi && IsContinuation(bs[2]) then
        var b1: int := bs[1];
        var b2: int := bs[2];
        Some((((b0 - 0xE0) * 4096 + (b1 - 0x80) * 64 + (b2 - 0x80)) as char, 3))
      else None
    else if 0xF0 <= b0 <= 0xF4 then
      var lo := if b0 == 0xF0 then 0x90 else 0x80;
      var hi := if b0 == 0xF4 then 0x8F else 0xBF;
      if |bs| >= 4 && lo <= bs[1] <= hi && IsContinuation(bs[2]) && IsContinuation(bs[3]) then
        var b1: int := bs[1];
        var b2: int := bs[2];
        var b3: int := bs[3];
        Some((((b0 - 0xF0) * 262144 + (b1 - 0x80) * 4096 + (b2 - 0x80) * 64 + (b3 - 0x80)) as char, 4))
      else None
    else None
  }

  /** `std::str::from_utf8`: the string the bytes encode, or `None` if they are not valid UTF-8. */
  function Decode(bs: seq<byte>): Option<string>
    decreases |bs|
  {
    if |bs| == 0 then Some([])
    else
      match DecodeFirst(bs)
      case None => None
      case Some((c, k)) =>
        match Decode(bs[k..])
        case None => None
        case Some(rest) => Some([c] + rest)
  }

  lemma Split3(cp: int)
    requires 0 <= cp < 0x1_0000
    ensures cp == (cp / 4096) * 4096 + ((cp / 64) % 64) * 64 + cp % 64
  {
    var m := cp / 64;
    assert cp == m * 64 + cp % 64;
    assert m == (m / 64) * 64 + m % 64;
    assert m / 64 == cp / 4096;
  }

  lemma Split4(cp: int)
    requires 0 <= cp <= 0x10FFFF
    ensures cp == (cp / 262144) * 262144 + ((cp / 4096) % 64) * 4096 + ((cp / 64) % 64) * 64 + cp % 64
  {
    var m := cp / 64;
    var n := m / 64;
    assert cp == m * 64 + cp % 64;
    assert m == n * 64 + m % 64;
    assert n == (n / 64) * 64 + n % 64;
    assert n == cp / 4096;
    assert n / 64 == cp / 262144;
  }

  lemma DecodeFirstOfEncodeChar(c: char, rest: seq<byte>)
    ensures DecodeFirst(EncodeChar(c) + rest) == Some((c, |EncodeChar(c)|))
  {
    var cp := c as int;
    if cp < 0x80 {
      assert (EncodeChar(c) + rest)[0] == cp;
    } else if cp < 0x800 {
      DecodeTwo(c, rest);
    } else if cp < 0x1_0000 {
      DecodeThree(c, rest);
    } else {
      DecodeFour(c, rest);
    }
  }

  lemma DecodeTwo(c: char, rest: seq<byte>)
    requires 0x80 <= c as int < 0x800
    ensures DecodeFirst(EncodeChar(c) + rest) == Some((c, 2))
  {
    var e := EncodeChar(c);
    var bs := e + rest;
    assert bs[0] == e[0] && bs[1] == e[1];
  }

  lemma DecodeThree(c: char, rest: seq<byte>)
    requires 0x800 <= c as int < 0x1_0000
    ensures DecodeFirst(EncodeChar(c) + rest) == Some((c, 3))
  {
    var e := EncodeChar(c);
    var bs := e + rest;
    assert bs[0] == e[0] && bs[1] == e[1] && bs[2] == e[2];
    Split3(c as int);
  }

  lemma DecodeFour(c: char, rest: seq<byte>)
    requires 0x1_0000 <= c as int
    ensures DecodeFirst(EncodeChar(c) + rest) == Some((c, 4))
  {
    var e := EncodeChar(c);
    var bs := e + rest;
    assert bs[0] == e[0] && bs[1] == e[1] && bs[2] == e[2] && bs[3] == e[3];
    Split4(c as int);
  }

  lemma Join3(b0: int, b1: int, b2: int)
    requires 0 <= b0 - 0xE0 < 16 && 0 <= b1 - 0x80 < 64 && 0 <= b2 - 0x80 < 64
    ensures var cp := (b0 - 0xE0) * 4096 + (b1 - 0x80) * 64 + (b2 - 0x80);
      cp / 4096 == b0 - 0xE0 && (cp / 64) % 64 == b1 - 0x80 && cp % 64 == b2 - 0x80
  {
    var cp := (b0 - 0xE0) * 4096 + (b1 - 0x80) * 64 + (b2 - 0x80);
    var m := (b0 - 0xE0) * 64 + (b1 - 0x80);
    assert cp == m * 64 + (b2 - 0x80);
    assert cp / 64 == m;
  }

  lemma Join4(b0: int, b1: int, b2: int, b3: int)
    requires 0 <= b0 - 0xF0 < 5 && 0 <= b1 - 0x80 < 64 && 0 <= b2 - 0x80 < 64 && 0 <= b3 - 0x80 < 64
    ensures var cp := (b0 - 0xF0) * 262144 + (b1 - 0x80) * 4096 + (b2 - 0x80) * 64 + (b3 - 0x80);
      cp / 262144 == b0 - 0xF0 && (cp / 4096) % 64 == b1 - 0x80 && (cp / 64) % 64 == b2 - 0x80 && cp % 64 == b3 - 0x80
  {
    var cp := (b0 - 0xF0) * 262144 + (b1 - 0x80) * 4096 + (b2 - 0x80) * 64 + (b3 - 0x80);
    var n := (b0 - 0xF0) * 64 + (b1 - 0x80);
    var m := n * 64 + (b2 - 0x80);
    assert cp == m * 64 + (b3 - 0x80);
    assert cp / 64 == m;
    assert m / 64 == n;
    assert cp / 4096 == n;
    assert cp / 262144 == n / 64;
  }

  lemma EncodeCharOfDecodeFirst(bs: seq<byte>)
    requires |bs| > 0 && DecodeFirst(bs).Some?
    ensures EncodeChar(DecodeFirst(bs).value.0) == bs[..DecodeFirst(bs).value.1]
  {
    var b0: int := bs[0];
    if b0 < 0x80 {
      assert bs[..1] == [bs[0]];
    } else if 0xC2 <= b0 <= 0xDF {
      EncodeTwo(bs);
    } else if 0xE0 <= b0 <= 0xEF {
      EncodeThree(bs);
    } else {
      EncodeFour(bs);
    }
  }

  lemma EncodeTwo(bs: seq<byte>)
    requires |bs| > 0 && DecodeFirst(bs).Some? && 0xC2 <= bs[0] <= 0xDF
    ensures EncodeChar(DecodeFirst(bs).value.0) == bs[..2]
  {
    assert bs[..2] == [bs[0], bs[1]];
  }

  lemma EncodeThree(bs: seq<byte>)
    requires |bs| > 0 && DecodeFirst(bs).Some? && 0xE0 <= bs[0] <= 0xEF
    ensures EncodeChar(DecodeFirst(bs).value.0) == bs[..3]
  {
    Join3(bs[0], bs[1], bs[2]);
    assert bs[..3] == [bs[0], bs[1], bs[2]];
  }

  lemma EncodeFour(bs: seq<byte>)
    requires |bs| > 0 && DecodeFirst(bs).Some? && 0xF0 <= bs[0]
    ensures EncodeChar(DecodeFirst(bs).value.0) == bs[..4]
  {
    Join4(bs[0], bs[1], bs[2], bs[3]);
    assert bs[..4] == [bs[0], bs[1], bs[2], bs[3]];
  }

  /** Decoding the encoding of a string gives the string back. */
  lemma {:induction false} DecodeEncode(s: string)
    ensures Decode(Encode(s)) == Some(s)
  {
    if |s| > 0 {
      var head := EncodeChar(s[0]);
      DecodeFirstOfEncodeChar(s[0], Encode(s[1..]));
      assert (head + Encode(s[1..]))[|head|..] == Encode(s[1..]);
      DecodeEncode(s[1..]);
      assert [s[0]] + s[1..] == s;
    }
  }

  /** A byte string that decodes is its first character's bytes followed by bytes that
      decode to the rest. */
  lemma DecodeCons(bs: seq<byte>)
    requires |bs| > 0 && Decode(bs).Some?
    ensures DecodeFirst(bs).Some?
    ensures var k := DecodeFirst(bs).value.1;
      && Decode(bs[k..]).Some?
      && Decode(bs).value == [DecodeFirst(bs).value.0] + Decode(bs[k..]).value
  {
  }

  lemma EncodeCons(s: string)
    requires |s| > 0
    ensures Encode(s) == EncodeChar(s[0]) + Encode(s[1..])
  {
  }

  lemma SplitAt<T>(xs: seq<T>, k: nat)
    requires k <= |xs|
    ensures xs == xs[..k] + xs[k..]
  {
  }

  /** A byte string that decodes is the encoding of what it decodes to: the decoder
      accepts nothing but canonical UTF-8. */
  lemma {:induction false} EncodeDecode(bs: seq<byte>)
    requires Decode(bs).Some?
    ensures Encode(Decode(bs).value) == bs
    decreases |bs|
  {
    if |bs| > 0 {
      DecodeCons(bs);
      var c := DecodeFirst(bs).value.0;
      var k := DecodeFirst(bs).value.1;
      var s := Decode(bs).value;
      EncodeCharOfDecodeFirst(bs);
      EncodeDecode(bs[k..]);
      EncodeCons(s);
      assert s[0] == c && s[1..] == Decode(bs[k..]).value;
      SplitAt(bs, k);
    }
  }
}
