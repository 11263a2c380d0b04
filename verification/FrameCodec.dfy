/**
 One control frame as one line of JSON: the encoder's escapes (section 7 of RFC 8259, with the
 HTML and line-separator characters escaped too) and a decoder for the lines it produces.
 Strings of the source that are valid UTF-8 are modelled by their code points.
 */
module FrameCodec {
  import opened Options
  import opened Utf8

  datatype Frame = Frame(kind: seq<rune>, content: seq<rune>, messageID: seq<rune>)

  const QUOTE: byte := 0x22
  const BACKSLASH: byte := 0x5C
  const NEWLINE: byte := 0x0A

  // ---------- strings ----------

  function HexDigit(n: int): byte
    requires 0 <= n < 16
  {
    if n < 10 then 0x30 + n else 0x61 + (n - 10)
  }

  /** The letter of a two-character escape, or 0. */
  function ShortEscape(r: rune): byte {
    if r == 0x22 || r == 0x5C then r
    else if r == 0x08 then 0x62
    else if r == 0x0C then 0x66
    else if r == 0x0A then 0x6E
    else if r == 0x0D then 0x72
    else if r == 0x09 then 0x74
    else 0
  }

  /** Control characters, <, >, & and the two line separators get a \u escape. */
  predicate NeedsU(r: rune) {
    r < 0x20 || r == 0x3C || r == 0x3E || r == 0x26 || r == 0x2028 || r == 0x2029
  }

  function EncodeChar(r: rune): seq<byte> {
    if ShortEscape(r) != 0 then [BACKSLASH, ShortEscape(r)]
    else if NeedsU(r) then
      [BACKSLASH, 0x75, HexDigit(r / 0x1000), HexDigit(r / 0x100 % 0x10), HexDigit(r / 0x10 % 0x10), HexDigit(r % 0x10)]
    else EncodeRune(r)
  }

  function EncodeText(t: seq<rune>): seq<byte> {
    if t == [] then [] else EncodeChar(t[0]) + EncodeText(t[1..])
  }

  function HexValue(b: byte): int {
    if 0x30 <= b < 0x3A then b - 0x30
    else if 0x61 <= b < 0x67 then b - 0x61 + 10
    else if 0x41 <= b < 0x47 then b - 0x41 + 10
    else -1
  }

  /** The value of four hex digits at s[i..i+4], or -1. */
  function Hex4(s: seq<byte>, i: nat): int {
    if |s| < i + 4 || HexValue(s[i]) < 0 || HexValue(s[i + 1]) < 0 || HexValue(s[i + 2]) < 0 || HexValue(s[i + 3]) < 0 then -1
    else HexValue(s[i]) * 0x1000 + HexValue(s[i + 1]) * 0x100 + HexValue(s[i + 2]) * 0x10 + HexValue(s[i + 3])
  }

  /** A \u escape at the front: a surrogate pair is one code point, a lone surrogate the replacement character. */
  function DecodeU(s: seq<byte>): Option<(rune, nat)>
    requires |s| >= 2
  {
    var u := Hex4(s, 2);
    if u < 0 then None
    else if u < 0xD800 || u >= 0xE000 then Some((u, 6))
    else
      var low := if |s| >= 12 && s[6] == BACKSLASH && s[7] == 0x75 then Hex4(s, 8) else -1;
      if u < 0xDC00 && 0xDC00 <= low < 0xE000 then Some((0x1_0000 + (u - 0xD800) * 0x400 + (low - 0xDC00), 12))
      else Some((REPLACEMENT, 6))
  }

  /** One character of a JSON string and how many bytes it takes; None when the string is malformed. */
  function DecodeChar(s: seq<byte>): (d: Option<(rune, nat)>)
    requires s != []
    ensures d.Some? ==> 1 <= d.value.1 <= |s|
  {
    if s[0] != BACKSLASH then
      if s[0] < 0x20 then None else Some(DecodeRune(s))
    else if |s| < 2 then None
    else if s[1] == QUOTE || s[1] == BACKSLASH || s[1] == 0x2F then Some((s[1], 2))
    else if s[1] == 0x62 then Some((0x08, 2))
    else if s[1] == 0x66 then Some((0x0C, 2))
    else if s[1] == 0x6E then Some((0x0A, 2))
    else if s[1] == 0x72 then Some((0x0D, 2))
    else if s[1] == 0x74 then Some((0x09, 2))
    else if s[1] == 0x75 then DecodeU(s)
    else None
  }

  /** A string up to its closing quote, and what follows it. */
  function DecodeText(s: seq<byte>): Option<(seq<rune>, seq<byte>)>
    decreases |s|
  {
    if s == [] then None
    else if s[0] == QUOTE then Some(([], s[1..]))
    else
      match DecodeChar(s)
      case None => None
      case Some((r, n)) =>
        match DecodeText(s[n..])
        case None => None
        case Some((t, rest)) => Some(([r] + t, rest))
  }

  /** Every byte of an encoded character is printable, and it never starts with a quote. */
  lemma EncodeCharShape(r: rune)
    ensures EncodeChar(r) != [] && EncodeChar(r)[0] != QUOTE
    ensures forall i :: 0 <= i < |EncodeChar(r)| ==> EncodeChar(r)[i] >= 0x20
  {
  }

  lemma DecodeEncodedChar(r: rune, rest: seq<byte>)
    ensures DecodeChar(EncodeChar(r) + rest) == Some((r, |EncodeChar(r)|))
  {
    var e := EncodeChar(r);
    var s := e + rest;
    assert forall i :: 0 <= i < |e| ==> s[i] == e[i];
    if ShortEscape(r) == 0 {
      if NeedsU(r) {
        DecodeEncodedU(r, s);
      } else {
        DecodeEncoded(r, rest);
        EncodeRuneShape(r);
      }
    }
  }

  lemma DecodeEncodedU(r: rune, s: seq<byte>)
    requires ShortEscape(r) == 0 && NeedsU(r) && EncodeChar(r) <= s
    ensures DecodeU(s) == Some((r, 6))
  {
    var d3, d2, d1, d0 := r / 0x1000, r / 0x100 % 0x10, r / 0x10 % 0x10, r % 0x10;
    assert EncodeChar(r)[2] == s[2] && EncodeChar(r)[3] == s[3] && EncodeChar(r)[4] == s[4] && EncodeChar(r)[5] == s[5];
    Hex4Value(s, d3, d2, d1, d0);
    assert d3 * 0x1000 + d2 * 0x100 + d1 * 0x10 + d0 == r;
  }

  lemma Hex4Value(s: seq<byte>, d3: int, d2: int, d1: int, d0: int)
    requires |s| >= 6 && 0 <= d3 < 16 && 0 <= d2 < 16 && 0 <= d1 < 16 && 0 <= d0 < 16
    requires s[2] == HexDigit(d3) && s[3] == HexDigit(d2) && s[4] == HexDigit(d1) && s[5] == HexDigit(d0)
    ensures Hex4(s, 2) == d3 * 0x1000 + d2 * 0x100 + d1 * 0x10 + d0
  {
    HexDigitValue(d3);
    HexDigitValue(d2);
    HexDigitValue(d1);
    HexDigitValue(d0);
  }

  lemma HexDigitValue(n: int)
    requires 0 <= n < 16
    ensures HexValue(HexDigit(n)) == n
  {
  }

  /** Reading a string back, whatever follows it on the line. */
  lemma {:induction false} DecodeEncodedText(t: seq<rune>, rest: seq<byte>)
    ensures DecodeText(EncodeText(t) + [QUOTE] + rest) == Some((t, rest))
  {
    var s := EncodeText(t) + [QUOTE] + rest;
    if t == [] {
      assert s == [QUOTE] + rest;
    } else {
      EncodeCharShape(t[0]);
      var e, tail := EncodeChar(t[0]), EncodeText(t[1..]) + [QUOTE] + rest;
      assert s == e + tail;
      DecodeEncodedChar(t[0], tail);
      assert s[0] == e[0] && s[|e|..] == tail;
      DecodeEncodedText(t[1..], rest);
      assert [t[0]] + t[1..] == t;
    }
  }

  lemma {:induction false} EncodeTextPrintable(t: seq<rune>)
    ensures forall i :: 0 <= i < |EncodeText(t)| ==> EncodeText(t)[i] >= 0x20
  {
    if t != [] {
      EncodeCharShape(t[0]);
      EncodeTextPrintable(t[1..]);
    }
  }

  // ---------- frames ----------

  const TYPE_FIELD := Ascii("{\"type\":\"")
  const CONTENT_FIELD := Ascii(",\"content\":\"")
  const ID_FIELD := Ascii(",\"message_id\":\"")
  const CLOSE := Ascii("}")

  /** A field with omitempty: nothing at all for the empty string. */
  function OptionalField(name: seq<byte>, t: seq<rune>): seq<byte> {
    if t == [] then [] else name + EncodeText(t) + [QUOTE]
  }

  function EncodeFrame(f: Frame): seq<byte> {
    TYPE_FIELD + EncodeText(f.kind) + [QUOTE]
    + OptionalField(CONTENT_FIELD, f.content) + OptionalField(ID_FIELD, f.messageID) + CLOSE
  }

  /** A field that may be missing, and what follows it. */
  function DecodeOptional(name: seq<byte>, s: seq<byte>): Option<(seq<rune>, seq<byte>)> {
    if name <= s then DecodeText(s[|name|..]) else Some(([], s))
  }

  function DecodeFrame(line: seq<byte>): Option<Frame> {
    if !(TYPE_FIELD <= line) then None
    else
      match DecodeText(line[|TYPE_FIELD|..])
      case None => None
      case Some((kind, s1)) =>
        match DecodeOptional(CONTENT_FIELD, s1)
        case None => None
        case Some((content, s2)) =>
          match DecodeOptional(ID_FIELD, s2)
          case None => None
          case Some((id, s3)) => if s3 == CLOSE then Some(Frame(kind, content, id)) else None
  }

  lemma DecodeEncodedOptional(name: seq<byte>, t: seq<rune>, rest: seq<byte>)
    requires t == [] ==> !(name <= rest)
    ensures DecodeOptional(name, OptionalField(name, t) + rest) == Some((t, rest))
  {
    if t == [] {
      assert OptionalField(name, t) + rest == rest;
    } else {
      var s := OptionalField(name, t) + rest;
      assert s == name + (EncodeText(t) + [QUOTE] + rest);
      DecodeEncodedText(t, rest);
    }
  }

  /** Encoding then decoding gives back the frame. */
  lemma FrameRoundTrip(f: Frame)
    ensures DecodeFrame(EncodeFrame(f)) == Some(f)
  {
    NotContent(f.messageID);
    assert |ID_FIELD| > |CLOSE|;
    DecodeParts(f, TYPE_FIELD, CONTENT_FIELD, ID_FIELD, CLOSE);
  }

  /** The same with the punctuation left open: it is enough that no field name can be mistaken for what follows it. */
  lemma DecodeParts(f: Frame, kindField: seq<byte>, contentField: seq<byte>, idField: seq<byte>, end: seq<byte>)
    requires !(contentField <= OptionalField(idField, f.messageID) + end) && !(idField <= end)
    ensures
      var s2 := OptionalField(idField, f.messageID) + end;
      var s1 := OptionalField(contentField, f.content) + s2;
      var line := kindField + EncodeText(f.kind) + [QUOTE]
        + OptionalField(contentField, f.content) + OptionalField(idField, f.messageID) + end;
      && kindField <= line && DecodeText(line[|kindField|..]) == Some((f.kind, s1))
      && DecodeOptional(contentField, s1) == Some((f.content, s2))
      && DecodeOptional(idField, s2) == Some((f.messageID, end))
  {
    var s2 := OptionalField(idField, f.messageID) + end;
    var s1 := OptionalField(contentField, f.content) + s2;
    LineParts(kindField, EncodeText(f.kind) + [QUOTE], OptionalField(contentField, f.content), OptionalField(idField, f.messageID), end);
    assert kindField + EncodeText(f.kind) + [QUOTE] == kindField + (EncodeText(f.kind) + [QUOTE]);
    DecodeEncodedText(f.kind, s1);
    DecodeEncodedOptional(contentField, f.content, s2);
    DecodeEncodedOptional(idField, f.messageID, end);
  }

  lemma LineParts(name: seq<byte>, kind: seq<byte>, content: seq<byte>, id: seq<byte>, end: seq<byte>)
    ensures var line := (name + kind) + content + id + end;
      name <= line && line[|name|..] == kind + (content + (id + end))
  {
  }

  /** What follows a content field never starts like one. */
  lemma NotContent(id: seq<rune>)
    ensures !(CONTENT_FIELD <= OptionalField(ID_FIELD, id) + CLOSE)
  {
    var s := OptionalField(ID_FIELD, id) + CLOSE;
    assert CONTENT_FIELD[2] == 0x63;
    if id != [] {
      assert s[2] == ID_FIELD[2] == 0x6D;
    }
  }

  /** An encoded frame is one line: no control byte, so no newline, and no carriage return at its end. */
  lemma EncodedFrameIsOneLine(f: Frame)
    ensures forall i :: 0 <= i < |EncodeFrame(f)| ==> EncodeFrame(f)[i] >= 0x20
    ensures EncodeFrame(f) != []
  {
    EncodeTextPrintable(f.kind);
    OptionalPrintable(CONTENT_FIELD, f.content);
    OptionalPrintable(ID_FIELD, f.messageID);
  }

  lemma OptionalPrintable(name: seq<byte>, t: seq<rune>)
    requires forall i :: 0 <= i < |name| ==> name[i] >= 0x20
    ensures forall i :: 0 <= i < |OptionalField(name, t)| ==> OptionalField(name, t)[i] >= 0x20
  {
    EncodeTextPrintable(t);
  }

  // ---------- the wire form ----------

  /** The two-character escapes. */
  lemma ShortEscapes()
    ensures EncodeChar(0x22) == Ascii("\\\"") && EncodeChar(0x5C) == Ascii("\\\\")
    ensures EncodeChar(0x08) == Ascii("\\b") && EncodeChar(0x0C) == Ascii("\\f") && EncodeChar(0x0A) == Ascii("\\n")
    ensures EncodeChar(0x0D) == Ascii("\\r") && EncodeChar(0x09) == Ascii("\\t")
  {
  }

  /** Characters escaped so that the text is safe inside HTML and scripts. */
  lemma HtmlEscapes()
    ensures EncodeChar(0x3C) == Ascii("\\u003c") && EncodeChar(0x3E) == Ascii("\\u003e") && EncodeChar(0x26) == Ascii("\\u0026")
  {
  }

  lemma SeparatorEscapes()
    ensures EncodeChar(0x2028) == Ascii("\\u2028") && EncodeChar(0x2029) == Ascii("\\u2029")
  {
  }

  /** Characters that are written as they are. */
  predicate IsPlain(r: rune) {
    r >= 0x20 && r !in {0x22, 0x5C, 0x26, 0x3C, 0x3E, 0x2028, 0x2029}
  }

  lemma {:induction false} PlainText(t: seq<rune>)
    requires forall i :: 0 <= i < |t| ==> IsPlain(t[i])
    ensures EncodeText(t) == Encode(t)
  {
    if t != [] {
      PlainText(t[1..]);
    }
  }

  /** A frame of plain fields is the JSON object with these three names in this order, empty optional fields left out. */
  lemma PlainFrame(f: Frame)
    requires forall i :: 0 <= i < |f.kind| ==> IsPlain(f.kind[i])
    requires forall i :: 0 <= i < |f.content| ==> IsPlain(f.content[i])
    requires forall i :: 0 <= i < |f.messageID| ==> IsPlain(f.messageID[i])
    ensures EncodeFrame(f) ==
      Ascii("{\"type\":\"") + Encode(f.kind) + Ascii("\"")
      + (if f.content == [] then [] else Ascii(",\"content\":\"") + Encode(f.content) + Ascii("\""))
      + (if f.messageID == [] then [] else Ascii(",\"message_id\":\"") + Encode(f.messageID) + Ascii("\""))
      + Ascii("}")
  {
    PlainText(f.kind);
    PlainText(f.content);
    PlainText(f.messageID);
    assert Ascii("\"") == [QUOTE];
  }
}
