/** Code points and their UTF-8 form (sections 3 and 4 of RFC 3629). */
module Utf8 {
  type byte = b: int | 0 <= b < 0x100

  /** A Unicode scalar value: a code point outside the surrogate range. */
  type rune = r: int | 0 <= r < 0xD800 || 0xE000 <= r < 0x11_0000

  const REPLACEMENT: rune := 0xFFFD

  /** The bytes of a printable ASCII literal. */
  function Ascii(s: string): (b: seq<byte>)
    requires forall i :: 0 <= i < |s| ==> ' ' <= s[i] < '\U{80}'
    ensures |b| == |s| && forall i :: 0 <= i < |s| ==> b[i] == s[i] as int && b[i] >= 0x20
  {
    seq(|s|, i requires 0 <= i < |s| => s[i] as int)
  }

  predicate IsContinuation(b: byte) { 0x80 <= b < 0xC0 }

  function EncodeRune(r: rune): seq<byte> {
    if r < 0x80 then [r]
    else if r < 0x800 then [0xC0 + r / 0x40, 0x80 + r % 0x40]
    else if r < 0x1_0000 then [0xE0 + r / 0x40 / 0x40, 0x80 + r / 0x40 % 0x40, 0x80 + r % 0x40]
    else [0xF0 + r / 0x40 / 0x40 / 0x40, 0x80 + r / 0x40 / 0x40 % 0x40, 0x80 + r / 0x40 % 0x40, 0x80 + r % 0x40]
  }

  function Encode(text: seq<rune>): seq<byte> {
    if text == [] then [] else EncodeRune(text[0]) + Encode(text[1..])
  }

  ghost predicate ValidUtf8(s: seq<byte>) {
    exists text :: Encode(text) == s
  }

  /** The size a lead byte announces and the range its second byte must lie in; 0 for a bad lead. */
  function Lead(b: byte): (nat, int, int) {
    if b < 0x80 then (1, 0, 0)
    else if b < 0xC2 then (0, 0, 0)
    else if b < 0xE0 then (2, 0x80, 0xC0)
    else if b == 0xE0 then (3, 0xA0, 0xC0)
    else if b == 0xED then (3, 0x80, 0xA0)
    else if b < 0xF0 then (3, 0x80, 0xC0)
    else if b == 0xF0 then (4, 0x90, 0xC0)
    else if b < 0xF4 then (4, 0x80, 0xC0)
    else if b == 0xF4 then (4, 0x80, 0x90)
    else (0, 0, 0)
  }

  /** Whether s starts with a well-formed sequence of the size its lead byte announces. */
  predicate WellFormed(s: seq<byte>)
    requires s != []
  {
    var (n, lo, hi) := Lead(s[0]);
    && n >= 1 && |s| >= n
    && (n >= 2 ==> lo <= s[1] < hi)
    && (n >= 3 ==> IsContinuation(s[2]))
    && (n >= 4 ==> IsContinuation(s[3]))
  }

  /** Six more bits from a continuation byte. */
  function Join(high: int, b: byte): int { high * 0x40 + (b as int - 0x80) }

  /** Decodes one code point: anything malformed is the replacement character, one byte long. */
  function DecodeRune(s: seq<byte>): (d: (rune, nat))
    requires s != []
    ensures 1 <= d.1 <= |s|
  {
    if !WellFormed(s) then (REPLACEMENT, 1)
    else
      var n := Lead(s[0]).0;
      if n == 1 then (s[0], 1)
      else if n == 2 then (Join(s[0] as int - 0xC0, s[1]), 2)
      else if n == 3 then (Join(Join(s[0] as int - 0xE0, s[1]), s[2]), 3)
      else (Join(Join(Join(s[0] as int - 0xF0, s[1]), s[2]), s[3]), 4)
  }

  lemma EncodeRuneShape(r: rune)
    ensures 1 <= |EncodeRune(r)| <= 4
    ensures !IsContinuation(EncodeRune(r)[0])
    ensures forall i :: 1 <= i < |EncodeRune(r)| ==> IsContinuation(EncodeRune(r)[i])
    ensures r >= 0x80 ==> forall i :: 0 <= i < |EncodeRune(r)| ==> EncodeRune(r)[i] >= 0x80
  {
  }

  /** Decoding undoes encoding, whatever follows. */
  lemma DecodeEncoded(r: rune, rest: seq<byte>)
    ensures DecodeRune(EncodeRune(r) + rest) == (r, |EncodeRune(r)|)
  {
  }

  lemma {:induction false} EncodeConcat(a: seq<rune>, b: seq<rune>)
    ensures Encode(a + b) == Encode(a) + Encode(b)
  {
    if a == [] {
      assert a + b == b;
    } else {
      assert (a + b)[1..] == a[1..] + b;
      EncodeConcat(a[1..], b);
    }
  }

  /** The first code point of a byte string is determined by it. */
  lemma SameFirst(x: rune, u: seq<byte>, y: rune, v: seq<byte>)
    requires EncodeRune(x) + u == EncodeRune(y) + v
    ensures x == y && u == v
  {
    DecodeEncoded(x, u);
    DecodeEncoded(y, v);
    assert (EncodeRune(x) + u)[|EncodeRune(x)|..] == u && (EncodeRune(y) + v)[|EncodeRune(y)|..] == v;
  }

  /** UTF-8 is a prefix code: one text's form starts another's only if the text does. */
  lemma {:induction false} PrefixOfText(a: seq<rune>, b: seq<rune>)
    requires Encode(a) <= Encode(b)
    ensures a <= b
  {
    if a != [] {
      EncodeRuneShape(a[0]);
      if b != [] {
        var rest := Encode(b)[|Encode(a)|..];
        assert Encode(b) == EncodeRune(a[0]) + (Encode(a[1..]) + rest);
        SameFirst(a[0], Encode(a[1..]) + rest, b[0], Encode(b[1..]));
        PrefixOfText(a[1..], b[1..]);
      }
    }
  }

  // ---------- truncation ----------

  /** The cut at limit, backed off past continuation bytes. */
  function CutAt(s: seq<byte>, cut: nat): (c: nat)
    requires cut < |s|
    ensures c <= cut
  {
    if cut > 0 && IsContinuation(s[cut]) then CutAt(s, cut - 1) else cut
  }

  function Truncated(s: seq<byte>, limit: nat): seq<byte> {
    if |s| <= limit then s else s[..CutAt(s, limit)]
  }

  /** Cuts s to at most limit bytes without splitting a code point. */
  method Truncate(s: seq<byte>, limit: nat) returns (r: seq<byte>)
    ensures r == Truncated(s, limit)
  {
    if |s| <= limit {
      return s;
    }
    var cut: nat := limit;
    while cut > 0 && IsContinuation(s[cut])
      invariant 0 <= cut <= limit && CutAt(s, cut) == CutAt(s, limit)
    {
      cut := cut - 1;
    }
    return s[..cut];
  }

  /** On any bytes: the longest prefix within limit that is followed by no continuation byte, or nothing. */
  lemma {:induction false} TruncationOfBytes(s: seq<byte>, limit: nat)
    ensures
      var r := Truncated(s, limit);
      && r <= s && |r| <= limit && (|s| <= limit ==> r == s)
      && (|s| > limit ==> (r == [] || !IsContinuation(s[|r|])) && forall i :: |r| < i <= limit ==> IsContinuation(s[i]))
  {
    if |s| > limit {
      CutStops(s, limit);
    }
  }

  lemma {:induction false} CutStops(s: seq<byte>, cut: nat)
    requires cut < |s|
    ensures CutAt(s, cut) == 0 || !IsContinuation(s[CutAt(s, cut)])
    ensures forall i :: CutAt(s, cut) < i <= cut ==> IsContinuation(s[i])
    decreases cut
  {
    if cut > 0 && IsContinuation(s[cut]) {
      CutStops(s, cut - 1);
    }
  }

  /** Where the cut lands in the form of a text: after its longest prefix that fits. */
  lemma {:induction false} CutOnBoundary(text: seq<rune>, limit: nat) returns (m: nat)
    requires limit < |Encode(text)|
    ensures m < |text| && CutAt(Encode(text), limit) == |Encode(text[..m])|
    ensures |Encode(text[..m])| <= limit < |Encode(text[..m + 1])|
    ensures limit - |Encode(text[..m])| <= 3
  {
    if limit < |EncodeRune(text[0])| {
      m := 0;
      CutInFirst(text, limit);
    } else {
      var k := CutOnBoundary(text[1..], limit - |EncodeRune(text[0])|);
      CutInRest(text, limit, k);
      m := k + 1;
    }
  }

  lemma CutInFirst(text: seq<rune>, limit: nat)
    requires text != [] && limit < |EncodeRune(text[0])|
    ensures CutAt(Encode(text), limit) == 0 && limit <= 3
    ensures |Encode(text[..0])| <= limit < |Encode(text[..1])|
  {
    EncodeRuneShape(text[0]);
    CutBackTo(EncodeRune(text[0]) + Encode(text[1..]), 0, limit);
    FirstOf(text, 0);
  }

  lemma CutInRest(text: seq<rune>, limit: nat, k: nat)
    requires |text| > k + 1 && limit >= |EncodeRune(text[0])|
    requires limit < |Encode(text)|
    requires CutAt(Encode(text[1..]), limit - |EncodeRune(text[0])|) == |Encode(text[1..][..k])|
    ensures CutAt(Encode(text), limit) == |Encode(text[..k + 1])|
    ensures |Encode(text[..k + 1])| == |EncodeRune(text[0])| + |Encode(text[1..][..k])|
    ensures |Encode(text[..k + 2])| == |EncodeRune(text[0])| + |Encode(text[1..][..k + 1])|
  {
    FirstOf(text, k);
    FirstOf(text, k + 1);
    EncodeRuneShape(text[1]);
    CutShift(EncodeRune(text[0]), Encode(text[1..]), limit - |EncodeRune(text[0])|);
  }

  lemma FirstOf(text: seq<rune>, k: nat)
    requires k < |text|
    ensures Encode(text[..k + 1]) == EncodeRune(text[0]) + Encode(text[1..][..k])
  {
    assert text[..k + 1][1..] == text[1..][..k];
  }

  /** All continuation bytes between a start and the cut: the cut backs off to the start. */
  lemma {:induction false} CutBackTo(s: seq<byte>, start: nat, cut: nat)
    requires start <= cut < |s| && (start == 0 || !IsContinuation(s[start]))
    requires forall i :: start < i <= cut ==> IsContinuation(s[i])
    ensures CutAt(s, cut) == start
    decreases cut - start
  {
    if start < cut {
      CutBackTo(s, start, cut - 1);
    }
  }

  lemma {:induction false} CutShift(head: seq<byte>, tail: seq<byte>, cut: nat)
    requires cut < |tail| && !IsContinuation(tail[0])
    ensures CutAt(head + tail, |head| + cut) == |head| + CutAt(tail, cut)
    decreases cut
  {
    assert (head + tail)[|head| + cut] == tail[cut];
    if cut > 0 && IsContinuation(tail[cut]) {
      CutShift(head, tail, cut - 1);
    }
  }

  lemma LongerTextLongerForm(a: seq<rune>, b: seq<rune>)
    requires a <= b
    ensures |Encode(a)| <= |Encode(b)|
  {
  }

  /**
   Of a valid string, truncation keeps the longest valid prefix of at most limit bytes, and
   gives up at most three bytes of the limit to do so.
   */
  lemma TruncationIsLongestValidPrefix(s: seq<byte>, limit: nat)
    requires ValidUtf8(s)
    ensures
      var r := Truncated(s, limit);
      && ValidUtf8(r) && r <= s && |r| <= limit
      && (forall p :: ValidUtf8(p) && p <= s && |p| <= limit ==> |p| <= |r|)
      && (|s| > limit ==> limit - |r| <= 3)
      && (|s| <= limit ==> r == s)
  {
    var text :| Encode(text) == s;
    if |s| > limit {
      var m := CutOnBoundary(text, limit);
      LongestFit(text, limit, m);
    }
  }

  /** The form of text[..m] is the longest valid prefix when one more code point is too many. */
  lemma LongestFit(text: seq<rune>, limit: nat, m: nat)
    requires m < |text| && |Encode(text[..m])| <= limit < |Encode(text[..m + 1])|
    ensures |Encode(text[..m])| <= |Encode(text)|
    ensures Encode(text[..m]) == Encode(text)[..|Encode(text[..m])|]
    ensures forall p :: ValidUtf8(p) && p <= Encode(text) && |p| <= limit ==> |p| <= |Encode(text[..m])|
  {
    EncodeConcat(text[..m], text[m..]);
    assert text == text[..m] + text[m..];
    forall p | ValidUtf8(p) && p <= Encode(text) && |p| <= limit ensures |p| <= |Encode(text[..m])| {
      var t :| Encode(t) == p;
      PrefixOfText(t, text);
      if |t| > m {
        LongerTextLongerForm(text[..m + 1], t);
      } else {
        LongerTextLongerForm(t, text[..m]);
      }
    }
  }
}
