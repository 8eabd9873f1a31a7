// internal/admin/server.go: the text form of a request cursor, 16 bytes in unpadded base64url
// (section 5 of RFC 4648).

module CursorCodec {
  import opened Text
  import opened Ordering
  import opened Requests

  type Byte = b: int | 0 <= b < 256
  type Sextet = v: int | 0 <= v < 64

  const TWO_63: int := 0x8000_0000_0000_0000
  const TWO_64: int := 0x1_0000_0000_0000_0000

  // ---------------------------------------------------------------- big-endian integers

  function Power256(n: nat): nat { if n == 0 then 1 else 256 * Power256(n - 1) }

  /** The n low bytes of v, most significant first. */
  function BigEndian(v: nat, n: nat): (r: seq<Byte>)
    ensures |r| == n
  {
    if n == 0 then [] else BigEndian(v / 256, n - 1) + [v % 256]
  }

  function Unsigned(bytes: seq<Byte>): nat {
    if bytes == [] then 0 else 256 * Unsigned(bytes[..|bytes| - 1]) + bytes[|bytes| - 1]
  }

  lemma {:induction false} BigEndianRoundTrip(v: nat, n: nat)
    requires v < Power256(n)
    ensures Unsigned(BigEndian(v, n)) == v
  {
    if n > 0 {
      BigEndianRoundTrip(v / 256, n - 1);
      assert BigEndian(v, n)[..n - 1] == BigEndian(v / 256, n - 1);
    }
  }

  lemma {:induction false} UnsignedBelow(bytes: seq<Byte>)
    ensures Unsigned(bytes) < Power256(|bytes|)
  {
    if bytes != [] {
      UnsignedBelow(bytes[..|bytes| - 1]);
    }
  }

  lemma EightBytes()
    ensures Power256(8) == TWO_64
  {
    assert Power256(4) == 0x1_0000_0000;
  }

  // int64(uint64) and back, in two's complement.
  function ToSigned(v: nat): int { if v >= TWO_63 then v - TWO_64 else v }

  function ToUnsigned(v: int): nat
    requires -TWO_63 <= v < TWO_63
  {
    if v < 0 then v + TWO_64 else v
  }

  // ---------------------------------------------------------------- base64url without padding

  function Letter(v: Sextet): char {
    if v < 26 then ('A' as int + v) as char
    else if v < 52 then ('a' as int + (v - 26)) as char
    else if v < 62 then ('0' as int + (v - 52)) as char
    else if v == 62 then '-' else '_'
  }

  function LetterValue(c: char): Option<Sextet> {
    if 'A' <= c <= 'Z' then Some(c as int - 'A' as int)
    else if 'a' <= c <= 'z' then Some(c as int - 'a' as int + 26)
    else if '0' <= c <= '9' then Some(c as int - '0' as int + 52)
    else if c == '-' then Some(62)
    else if c == '_' then Some(63)
    else None
  }

  lemma LetterRoundTrip(v: Sextet)
    ensures LetterValue(Letter(v)) == Some(v)
  {}

  // The four sextets that three bytes fill; a missing byte counts as zero.
  function Quad(a: Byte, b: Byte, c: Byte): seq<Sextet> {
    [a / 4, a % 4 * 16 + b / 16, b % 16 * 4 + c / 64, c % 64]
  }

  function Sextets(bytes: seq<Byte>): seq<Sextet> {
    if bytes == [] then []
    else if |bytes| == 1 then Quad(bytes[0], 0, 0)[..2]
    else if |bytes| == 2 then Quad(bytes[0], bytes[1], 0)[..3]
    else Quad(bytes[0], bytes[1], bytes[2]) + Sextets(bytes[3..])
  }

  function Encode(bytes: seq<Byte>): string { Letters(Sextets(bytes)) }

  function Letters(v: seq<Sextet>): string {
    seq(|v|, i requires 0 <= i < |v| => Letter(v[i]))
  }

  function Values(raw: string): Option<seq<Sextet>> {
    if raw == "" then Some([])
    else
      match (LetterValue(raw[0]), Values(raw[1..]))
      case (Some(v), Some(rest)) => Some([v] + rest)
      case _ => None
  }

  // The three bytes that four sextets spell.
  function High(a: Sextet, b: Sextet): Byte { a * 4 + b / 16 }
  function Middle(b: Sextet, c: Sextet): Byte { b % 16 * 16 + c / 4 }
  function Low(c: Sextet, d: Sextet): Byte { c % 4 * 64 + d }

  // The decoder is not strict: the bits left over in the last letter are dropped.
  function Octets(v: seq<Sextet>): Option<seq<Byte>> {
    if v == [] then Some([])
    else if |v| == 1 then None
    else if |v| == 2 then Some([High(v[0], v[1])])
    else if |v| == 3 then Some([High(v[0], v[1]), Middle(v[1], v[2])])
    else
      match Octets(v[4..])
      case None => None
      case Some(rest) => Some([High(v[0], v[1]), Middle(v[1], v[2]), Low(v[2], v[3])] + rest)
  }

  const NO_LINE_BREAK: char -> bool := (c: char) => c != '\r' && c != '\n'

  // The decoder skips line breaks.
  function Decode(raw: string): Option<seq<Byte>> {
    match Values(Kept(raw, NO_LINE_BREAK))
    case None => None
    case Some(v) => Octets(v)
  }

  lemma QuadRoundTrip(a: Byte, b: Byte, c: Byte)
    ensures var q := Quad(a, b, c); High(q[0], q[1]) == a && Middle(q[1], q[2]) == b && Low(q[2], q[3]) == c
  {}

  lemma {:induction false} OctetsOfSextets(bytes: seq<Byte>)
    ensures Octets(Sextets(bytes)) == Some(bytes)
    ensures |Sextets(bytes)| == (4 * |bytes| + 2) / 3
  {
    if bytes != [] {
      QuadRoundTrip(bytes[0], if |bytes| > 1 then bytes[1] else 0, if |bytes| > 2 then bytes[2] else 0);
    }
    if |bytes| == 1 {
      assert bytes == [bytes[0]];
    } else if |bytes| == 2 {
      assert bytes == [bytes[0], bytes[1]];
    } else if |bytes| >= 3 {
      OctetsOfSextets(bytes[3..]);
      assert Sextets(bytes)[4..] == Sextets(bytes[3..]);
      assert bytes == [bytes[0], bytes[1], bytes[2]] + bytes[3..];
    }
  }

  lemma DecodeEncoded(bytes: seq<Byte>)
    ensures Decode(Encode(bytes)) == Some(bytes)
    ensures |Encode(bytes)| == (4 * |bytes| + 2) / 3
    ensures '\r' !in Encode(bytes) && '\n' !in Encode(bytes)
  {
    OctetsOfSextets(bytes);
    ValuesOfLetters(Sextets(bytes));
    KeptAllOrNone(Encode(bytes), NO_LINE_BREAK);
  }

  lemma ValuesOfLetters(v: seq<Sextet>)
    ensures Values(Letters(v)) == Some(v)
    ensures '\r' !in Letters(v) && '\n' !in Letters(v)
  {
    if v != [] {
      ValuesOfLetters(v[1..]);
      LetterRoundTrip(v[0]);
      assert Letters(v)[1..] == Letters(v[1..]) && [v[0]] + v[1..] == v;
    }
  }

  // ---------------------------------------------------------------- cursors

  predicate Representable(c: Cursor) {
    -TWO_63 <= c.timestamp < TWO_63 && -TWO_63 <= c.id < TWO_63
  }

  function EncodeRequestCursor(c: Cursor): string
    requires Representable(c)
  {
    Encode(BigEndian(ToUnsigned(c.timestamp), 8) + BigEndian(ToUnsigned(c.id), 8))
  }

  datatype CursorError = InvalidEncoding | InvalidValues

  function DecodeRequestCursor(raw: string): Result<Cursor, CursorError> {
    if |raw| > 64 || '\r' in raw || '\n' in raw then Failure(InvalidEncoding)
    else
      match Decode(raw)
      case None => Failure(InvalidEncoding)
      case Some(buffer) =>
        if |buffer| != 16 then Failure(InvalidEncoding)
        else
          var timestamp, id := ToSigned(Unsigned(buffer[..8])), ToSigned(Unsigned(buffer[8..]));
          if timestamp <= 0 || id <= 0 then Failure(InvalidValues) else Success(Cursor(timestamp, id))
  }

  /** A cursor survives its text form just when both of its numbers are positive; otherwise it is refused. */
  lemma CursorRoundTrip(c: Cursor)
    requires Representable(c)
    ensures DecodeRequestCursor(EncodeRequestCursor(c)) ==
            if c.timestamp > 0 && c.id > 0 then Success(c) else Failure(InvalidValues)
    ensures |EncodeRequestCursor(c)| == 22
    ensures Decode(EncodeRequestCursor(c)) ==
            Some(BigEndian(ToUnsigned(c.timestamp), 8) + BigEndian(ToUnsigned(c.id), 8))
  {
    var t, i := BigEndian(ToUnsigned(c.timestamp), 8), BigEndian(ToUnsigned(c.id), 8);
    EightBytes();
    BigEndianRoundTrip(ToUnsigned(c.timestamp), 8);
    BigEndianRoundTrip(ToUnsigned(c.id), 8);
    DecodeEncoded(t + i);
    assert (t + i)[..8] == t && (t + i)[8..] == i;
  }

  lemma {:induction false} ValuesLength(raw: string)
    ensures Values(raw).Some? ==> |Values(raw).value| == |raw|
  {
    if raw != "" {
      ValuesLength(raw[1..]);
    }
  }

  lemma {:induction false} OctetsLength(v: seq<Sextet>)
    ensures Octets(v).Some? ==> |v| == (4 * |Octets(v).value| + 2) / 3
  {
    if |v| > 3 {
      OctetsLength(v[4..]);
    }
  }

  /** Whatever text is offered, a cursor that is accepted is positive and has a text form of its own, and the text has
      22 letters and no line break. */
  lemma AcceptedCursors(raw: string)
    requires DecodeRequestCursor(raw).Success?
    ensures |raw| == 22 && '\r' !in raw && '\n' !in raw
    ensures var c := DecodeRequestCursor(raw).value;
            0 < c.timestamp && 0 < c.id && Representable(c) && DecodeRequestCursor(EncodeRequestCursor(c)) == Success(c)
  {
    var buffer := Decode(raw).value;
    EightBytes();
    UnsignedBelow(buffer[..8]);
    UnsignedBelow(buffer[8..]);
    CursorRoundTrip(DecodeRequestCursor(raw).value);
    KeptAllOrNone(raw, NO_LINE_BREAK);
    ValuesLength(raw);
    OctetsLength(Values(raw).value);
  }

  // ---------------------------------------------------------------- known texts

  lemma Spells(v: seq<Sextet>, text: string)
    requires |v| == |text| && forall i :: 0 <= i < |v| ==> Letter(v[i]) == text[i]
    ensures Letters(v) == text
  {}

  lemma ShortTexts()
    ensures Encode([102]) == "Zg" && Encode([102, 111]) == "Zm8"
  {
    assert Sextets([102]) == [25, 32] && Sextets([102, 111]) == [25, 38, 60];
    Spells([25, 32], "Zg");
    Spells([25, 38, 60], "Zm8");
  }

  lemma FullText()
    ensures Encode([102, 111, 111]) == "Zm9v"
  {
    assert Quad(102, 111, 111) == [25, 38, 61, 47] && Sextets([]) == [] && [102, 111, 111][3..] == [];
    assert Sextets([102, 111, 111]) == Quad(102, 111, 111) + [];
    Spells([25, 38, 61, 47], "Zm9v");
  }

  lemma LastLetters()
    ensures Encode([251, 255]) == "-_8"
  {
    assert Sextets([251, 255]) == [62, 63, 60];
    Spells([62, 63, 60], "-_8");
  }

  /** The first vectors of section 10 of RFC 4648 and the two letters the URL alphabet has for itself. */
  lemma KnownTexts()
    ensures Encode([102]) == "Zg" && Encode([102, 111]) == "Zm8" && Encode([102, 111, 111]) == "Zm9v"
    ensures Encode([251, 255]) == "-_8"
  {
    ShortTexts();
    FullText();
    LastLetters();
  }

  /** The high byte comes first. */
  lemma HighByteFirst(high: Byte, low: Byte)
    ensures BigEndian(256 * high + low, 2) == [high, low]
  {
    assert BigEndian(256 * high + low, 2) == BigEndian(high, 1) + [low];
    assert BigEndian(high, 1) == BigEndian(0, 0) + [high];
  }
}
