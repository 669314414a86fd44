/** The poll cursor: a `CursorState` written as compact JSON, encoded as UTF-8, then
    as unpadded base64url. Decoding undoes the three layers in turn, and a failure at
    any layer is an invalid cursor naming that layer. */
module Cursor {
  import opened Wrappers
  import opened Strings
  import opened Numbers
  import opened Models
  import opened Errors
  import Utf8
  import Base64Url

  // ---------------------------------------------------------------------------
  // The JSON text of a cursor state
  // ---------------------------------------------------------------------------

  const OPEN := "{\"offsets\":["
  const CLOSE := "]}"
  const PARTITION_FIELD := "{\"partition\":"
  const OFFSET_FIELD := ",\"offset\":"

  /** One entry as serde_json writes it: fields in declaration order, no spaces. */
  function EntryJson(po: PartitionOffset): string {
    PARTITION_FIELD + Decimal(po.partition) + OFFSET_FIELD + Decimal(po.offset) + "}"
  }

  function EntriesJson(offsets: seq<PartitionOffset>): string
    decreases |offsets|
  {
    if |offsets| == 0 then ""
    else if |offsets| == 1 then EntryJson(offsets[0])
    else EntryJson(offsets[0]) + ("," + EntriesJson(offsets[1..]))
  }

  /** `serde_json::to_string` of a cursor state. */
  function CursorJson(c: CursorState): string {
    OPEN + EntriesJson(c.offsets) + CLOSE
  }

  /** The length of the run of ASCII digits that starts `s`. */
  function DigitRun(s: string): (n: nat)
    ensures n <= |s| && AllDigits(s[..n])
    ensures n < |s| ==> !IsDigit(s[n])
  {
    if |s| > 0 && IsDigit(s[0]) then
      var n := 1 + DigitRun(s[1..]);
      assert s[..n] == [s[0]] + s[1..][..n - 1];
      n
    else 0
  }

  /** A JSON number for an unsigned field of maximum `max`: digits without a leading
      zero (other than "0" itself), at most `max`; the value and what follows it. */
  function ParseNumber(s: string, max: nat): (r: Option<(nat, string)>)
    ensures r.Some? ==> r.value.0 <= max && |r.value.1| < |s|
  {
    var n := DigitRun(s);
    if n == 0 || (s[0] == '0' && n > 1) || ValueOf(s[..n]) > max then None
    else Some((ValueOf(s[..n]), s[n..]))
  }

  /** The rest of `s` after the literal `lit`, if `s` starts with it. */
  function Expect(s: string, lit: string): (r: Option<string>)
    ensures r.Some? ==> |r.value| == |s| - |lit|
  {
    if StartsWith(s, lit) then Some(s[|lit|..]) else None
  }

  /** One entry and the text after it. */
  function ParseEntry(s: string): (r: Option<(PartitionOffset, string)>)
    ensures r.Some? ==> |r.value.1| < |s|
  {
    match Expect(s, PARTITION_FIELD)
    case None => None
    case Some(a) =>
      match ParseNumber(a, U32_MAX)
      case None => None
      case Some((p, b)) =>
        match Expect(b, OFFSET_FIELD)
        case None => None
        case Some(c) =>
          match ParseNumber(c, U64_MAX)
          case None => None
          case Some((o, d)) =>
            match Expect(d, "}")
            case None => None
            case Some(e) => Some((PartitionOffset(p, o), e))
  }

  /** A non-empty comma-separated list of entries filling all of `s`. */
  function ParseEntryList(s: string): (r: Option<seq<PartitionOffset>>)
    decreases |s|
  {
    match ParseEntry(s)
    case None => None
    case Some((po, rest)) =>
      if rest == "" then Some([po])
      else if rest[0] != ',' then None
      else
        match ParseEntryList(rest[1..])
        case None => None
        case Some(more) => Some([po] + more)
  }

  /** A strict reader of cursor JSON: it accepts the compact layout `CursorJson`
      writes and rejects everything else. */
  function ParseCursorJson(s: string): (r: Option<CursorState>)
  {
    if |s| < |OPEN| + |CLOSE| || !StartsWith(s, OPEN) || !EndsWith(s, CLOSE) then None
    else
      var body := s[|OPEN|..|s| - |CLOSE|];
      if body == "" then Some(CursorState([]))
      else
        match ParseEntryList(body)
        case None => None
        case Some(offsets) => Some(CursorState(offsets))
  }

  lemma {:induction false} DigitRunOfDigits(d: string, rest: string)
    requires AllDigits(d)
    requires rest == "" || !IsDigit(rest[0])
    ensures DigitRun(d + rest) == |d|
    decreases |d|
  {
    if |d| > 0 {
      assert (d + rest)[1..] == d[1..] + rest;
      DigitRunOfDigits(d[1..], rest);
    } else {
      assert d + rest == rest;
    }
  }

  /** A number written by `Display` reads back, with the text after it untouched. */
  lemma ParseNumberDecimal(v: nat, max: nat, rest: string)
    requires v <= max
    requires rest == "" || !IsDigit(rest[0])
    ensures ParseNumber(Decimal(v) + rest, max) == Some((v, rest))
  {
    DecimalDigits(v);
    DigitRunOfDigits(Decimal(v), rest);
    var s := Decimal(v) + rest;
    assert s[..|Decimal(v)|] == Decimal(v);
    assert s[|Decimal(v)|..] == rest;
  }

  lemma ExpectLiteral(lit: string, rest: string)
    ensures Expect(lit + rest, lit) == Some(rest)
  {
    assert (lit + rest)[..|lit|] == lit;
    assert (lit + rest)[|lit|..] == rest;
  }

  lemma ParseEntryJson(po: PartitionOffset, rest: string)
    ensures ParseEntry(EntryJson(po) + rest) == Some((po, rest))
  {
    var e := "}" + rest;
    var d := Decimal(po.offset) + e;
    var c := OFFSET_FIELD + d;
    var b := Decimal(po.partition) + c;
    assert EntryJson(po) + rest == PARTITION_FIELD + b;
    ExpectLiteral(PARTITION_FIELD, b);
    ParseNumberDecimal(po.partition, U32_MAX, c);
    ExpectLiteral(OFFSET_FIELD, d);
    ParseNumberDecimal(po.offset, U64_MAX, e);
    ExpectLiteral("}", rest);
  }

  lemma ParseEntryListLast(s: string, po: PartitionOffset)
    requires ParseEntry(s) == Some((po, ""))
    ensures ParseEntryList(s) == Some([po])
  {
  }

  lemma ParseEntryListMore(s: string, po: PartitionOffset, tail: string, more: seq<PartitionOffset>)
    requires ParseEntry(s) == Some((po, "," + tail))
    requires ParseEntryList(tail) == Some(more)
    ensures ParseEntryList(s) == Some([po] + more)
  {
    assert ("," + tail)[1..] == tail;
  }

  lemma {:induction false} ParseEntriesJson(offsets: seq<PartitionOffset>)
    requires |offsets| > 0
    ensures ParseEntryList(EntriesJson(offsets)) == Some(offsets)
    decreases |offsets|
  {
    if |offsets| == 1 {
      ParseOneEntryJson(offsets);
    } else {
      var rest := offsets[1..];
      ParseEntriesJson(rest);
      EntriesJsonMore(offsets);
      ParseMoreEntriesJson(offsets[0], EntriesJson(rest), rest);
      ConsSplit(offsets);
    }
  }

  lemma ParseOneEntryJson(offsets: seq<PartitionOffset>)
    requires |offsets| == 1
    ensures ParseEntryList(EntriesJson(offsets)) == Some(offsets)
  {
    var s := EntriesJson(offsets);
    AppendEmpty(EntryJson(offsets[0]));
    ParseEntryJson(offsets[0], "");
    assert s == EntryJson(offsets[0]);
    ParseEntryListLast(s, offsets[0]);
    assert [offsets[0]] == offsets;
  }

  lemma ParseMoreEntriesJson(po: PartitionOffset, tail: string, more: seq<PartitionOffset>)
    requires ParseEntryList(tail) == Some(more)
    ensures ParseEntryList(EntryJson(po) + ("," + tail)) == Some([po] + more)
  {
    ParseEntryJson(po, "," + tail);
    ParseEntryListMore(EntryJson(po) + ("," + tail), po, tail, more);
  }

  lemma EntriesJsonMore(offsets: seq<PartitionOffset>)
    requires |offsets| > 1
    ensures EntriesJson(offsets) == EntryJson(offsets[0]) + ("," + EntriesJson(offsets[1..]))
  {
  }

  lemma ConsSplit<T>(xs: seq<T>)
    requires |xs| > 0
    ensures [xs[0]] + xs[1..] == xs
  {
  }

  lemma AppendEmpty(s: string)
    ensures s + "" == s
  {
  }

  /** The strict reader inverts the writer. */
  lemma ParseCursorJsonInverts(c: CursorState)
    ensures ParseCursorJson(CursorJson(c)) == Some(c)
  {
    var s := CursorJson(c);
    var body := EntriesJson(c.offsets);
    assert s[..|OPEN|] == OPEN;
    assert s[|s| - |CLOSE|..] == CLOSE;
    assert s[|OPEN|..|s| - |CLOSE|] == body;
    if |c.offsets| > 0 {
      ParseEntriesJson(c.offsets);
      assert body != "" by {
        assert body[0] == '{';
      }
    }
  }

  // ---------------------------------------------------------------------------
  // The token
  // ---------------------------------------------------------------------------

  /** The cursor token of `handle_poll`: base64url without padding of the JSON's UTF-8. */
  function EncodeCursor(c: CursorState): (token: string) {
    Base64Url.Encode(Utf8.Encode(CursorJson(c)))
  }

  /** The cursor decoding of `handle_commit`, with `parseJson` standing for serde_json's
      reader of a `CursorState`. Each layer that fails gives an invalid cursor that
      names it. */
  function DecodeCursor(token: string, parseJson: string -> Option<CursorState>): (r: Result<CursorState, Error>)
    ensures Base64Url.Decode(token).None? ==> r == Err(InvalidCursor("Invalid base64"))
    ensures Base64Url.Decode(token).Some? && Utf8.Decode(Base64Url.Decode(token).value).None? ==>
      r == Err(InvalidCursor("Invalid UTF-8"))
    ensures (Base64Url.Decode(token).Some? && Utf8.Decode(Base64Url.Decode(token).value).Some?
             && parseJson(Utf8.Decode(Base64Url.Decode(token).value).value).None?) ==>
      r == Err(InvalidCursor("Invalid JSON"))
    ensures r.Ok? ==> parseJson(Utf8.Decode(Base64Url.Decode(token).value).value) == Some(r.value)
    ensures r.Err? ==> r.error.InvalidCursor?
  {
    match Base64Url.Decode(token)
    case None => Err(InvalidCursor("Invalid base64"))
    case Some(bytes) =>
      match Utf8.Decode(bytes)
      case None => Err(InvalidCursor("Invalid UTF-8"))
      case Some(json) =>
        match parseJson(json)
        case None => Err(InvalidCursor("Invalid JSON"))
        case Some(c) => Ok(c)
  }

  /** Commit decoding inverts poll encoding, for any JSON reader that reads back what
      the writer wrote. */
  lemma CursorRoundTrip(c: CursorState, parseJson: string -> Option<CursorState>)
    requires parseJson(CursorJson(c)) == Some(c)
    ensures DecodeCursor(EncodeCursor(c), parseJson) == Ok(c)
  {
    Base64Url.DecodeEncode(Utf8.Encode(CursorJson(c)));
    Utf8.DecodeEncode(CursorJson(c));
  }

  /** With the strict reader the round trip holds for every cursor state. */
  lemma StrictCursorRoundTrip(c: CursorState)
    ensures DecodeCursor(EncodeCursor(c), ParseCursorJson) == Ok(c)
  {
    ParseCursorJsonInverts(c);
    CursorRoundTrip(c, ParseCursorJson);
  }

  /** A token of one character is never valid base64, so it is rejected at the first
      layer. */
  lemma OneCharacterTokenRejected(ch: char, parseJson: string -> Option<CursorState>)
    ensures DecodeCursor([ch], parseJson) == Err(InvalidCursor("Invalid base64"))
  {
  }
}
