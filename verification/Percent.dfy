/** Percent encoding of paths: the printer of the relay and the parser of the host. */
module Percent {
  import opened Bytes
  import opened Utf8

  const PERCENT: byte := 0x25
  const PLUS: byte := 0x2b

  /** Letters, digits, `-`, `.`, `_`, `~` and `/` stand for themselves. */
  predicate Plain(b: byte) {
    || 0x41 <= b <= 0x5a || 0x61 <= b <= 0x7a || 0x30 <= b <= 0x39
    || b == 0x2d || b == 0x2e || b == 0x5f || b == 0x7e || b == 0x2f
  }

  function HexDigit(n: int): byte
    requires 0 <= n < 16
  {
    if n < 10 then 0x30 + n else 0x37 + n
  }

  function EncodeByte(b: byte): seq<byte> {
    if Plain(b) then [b] else [PERCENT, HexDigit(b / 16), HexDigit(b % 16)]
  }

  function PercentEncode(path: seq<byte>): seq<byte> {
    if |path| == 0 then [] else EncodeByte(path[0]) + PercentEncode(path[1..])
  }

  function HexValue(b: byte): Option<int> {
    if 0x30 <= b <= 0x39 then Some(b - 0x30)
    else if 0x41 <= b <= 0x46 then Some(b - 0x37)
    else if 0x61 <= b <= 0x66 then Some(b - 0x57)
    else None
  }

  /** `u8::from_str_radix` on two characters: a leading plus sign is accepted. */
  function FromRadix16(a: byte, b: byte): (r: Option<byte>)
  {
    var high := if a == PLUS then Some(0) else HexValue(a);
    var low := HexValue(b);
    if high.None? || low.None? then None else Some(high.value * 16 + low.value)
  }

  function DecodeBytes(text: seq<byte>): Option<seq<byte>>
    decreases |text|
  {
    if |text| == 0 then Some([])
    else if text[0] == PERCENT then
      if |text| < 3 then None
      else
        var b := FromRadix16(text[1], text[2]);
        var rest := DecodeBytes(text[3..]);
        if b.None? || rest.None? then None else Some([b.value] + rest.value)
    else
      var rest := DecodeBytes(text[1..]);
      if rest.None? then None else Some([text[0]] + rest.value)
  }

  function PercentDecode(text: seq<byte>): Option<seq<byte>> {
    var out := DecodeBytes(text);
    if out.Some? && Valid(out.value) then out else None
  }

  /** The index-driven loop of the source. */
  method Decode(bytes: seq<byte>) returns (r: Option<seq<byte>>)
    ensures r == PercentDecode(bytes)
  {
    hide Valid;
    var out, at := [], 0;
    PrependNothing(bytes);
    while at < |bytes|
      invariant at <= |bytes|
      invariant DecodeBytes(bytes) == Prepend(out, DecodeBytes(bytes[at..]))
    {
      ghost var rest := bytes[at..];
      if bytes[at] == PERCENT {
        if at + 2 >= |bytes| { return None; }
        var b := FromRadix16(bytes[at + 1], bytes[at + 2]);
        if b.None? { return None; }
        DropDrop(bytes, at, 3);
        PrependMore(out, b.value, DecodeBytes(bytes[at + 3..]));
        out := out + [b.value];
        at := at + 3;
      } else {
        DropDrop(bytes, at, 1);
        PrependMore(out, bytes[at], DecodeBytes(bytes[at + 1..]));
        out := out + [bytes[at]];
        at := at + 1;
      }
    }
    assert out + [] == out;
    r := if Valid(out) then Some(out) else None;
  }

  function Prepend(out: seq<byte>, rest: Option<seq<byte>>): Option<seq<byte>> {
    if rest.None? then None else Some(out + rest.value)
  }

  lemma PrependNothing(bytes: seq<byte>)
    ensures DecodeBytes(bytes) == Prepend([], DecodeBytes(bytes[0..]))
  {
    assert bytes[0..] == bytes;
    var d := DecodeBytes(bytes);
    if d.Some? { assert [] + d.value == d.value; }
  }

  lemma PrependMore(out: seq<byte>, b: byte, rest: Option<seq<byte>>)
    ensures Prepend(out, Prepend([b], rest)) == Prepend(out + [b], rest)
  {
    if rest.Some? { AppendAssoc(out, [b], rest.value); }
  }

  lemma HexReadsBack(b: byte)
    ensures FromRadix16(HexDigit(b / 16), HexDigit(b % 16)) == Some(b)
    ensures HexDigit(b / 16) != PLUS
  {}

  lemma DecodeOne(b: byte, rest: seq<byte>)
    ensures DecodeBytes(EncodeByte(b) + rest) == Prepend([b], DecodeBytes(rest))
  {
    var e := EncodeByte(b);
    var x := e + rest;
    HexReadsBack(b);
    hide FromRadix16;
    assert x[|e|..] == rest;
  }

  lemma {:induction false} DecodeBytesInvertsEncode(path: seq<byte>)
    ensures DecodeBytes(PercentEncode(path)) == Some(path)
    decreases |path|
  {
    if |path| > 0 {
      hide DecodeBytes, EncodeByte;
      DecodeOne(path[0], PercentEncode(path[1..]));
      DecodeBytesInvertsEncode(path[1..]);
      assert [path[0]] + path[1..] == path;
    }
  }

  /** Decoding what the relay encodes gives the path back for every string, and nothing for bytes that are no
      string. */
  lemma RoundTrip(path: seq<byte>)
    ensures PercentDecode(PercentEncode(path)) == if Valid(path) then Some(path) else None
  {
    DecodeBytesInvertsEncode(path);
  }

  lemma EncodedByteIsPlain(p: byte)
    ensures forall b :: b in EncodeByte(p) ==> Plain(b) || b == PERCENT
  {
    assert Plain(HexDigit(p / 16)) && Plain(HexDigit(p % 16));
  }

  /** Encoded paths consist of plain characters and escapes only, so they need no further quoting. */
  lemma {:induction false} EncodedIsPlain(path: seq<byte>)
    ensures forall b :: b in PercentEncode(path) ==> Plain(b) || b == PERCENT
    decreases |path|
  {
    if |path| > 0 {
      hide EncodeByte, Plain;
      var e, rest := EncodeByte(path[0]), PercentEncode(path[1..]);
      EncodedByteIsPlain(path[0]);
      EncodedIsPlain(path[1..]);
      forall b | b in e + rest ensures Plain(b) || b == PERCENT {
        assert b in e || b in rest;
      }
    }
  }

  // Encoding after decoding

  predicate UpperHex(b: byte) { 0x30 <= b <= 0x39 || 0x41 <= b <= 0x46 }

  /** The escape `% a b` is one the printer writes: upper-case digits, and of no plain byte. */
  predicate CanonicalEscape(a: byte, b: byte) {
    UpperHex(a) && UpperHex(b) && !Plain(FromRadix16(a, b).value)
  }

  /** Plain bytes and canonical escapes only. */
  predicate Canonical(text: seq<byte>)
    decreases |text|
  {
    if |text| == 0 then true
    else if text[0] == PERCENT then |text| >= 3 && CanonicalEscape(text[1], text[2]) && Canonical(text[3..])
    else Plain(text[0]) && Canonical(text[1..])
  }

  lemma EscapeReadsBack(a: byte, b: byte)
    requires FromRadix16(a, b).Some?
    ensures EncodeByte(FromRadix16(a, b).value) == [PERCENT, a, b] <==> CanonicalEscape(a, b)
  {}

  lemma EncodeCons(b: byte, rest: seq<byte>)
    ensures PercentEncode([b] + rest) == EncodeByte(b) + PercentEncode(rest)
  {
    assert ([b] + rest)[1..] == rest;
  }

  /** Whether the first `k` bytes of `text` and the rest read back independently. */
  lemma SplitsAt(text: seq<byte>, k: nat, e: seq<byte>, rest: seq<byte>)
    requires 0 < k <= |text| && |e| > 0 && (|e| == k || e[0] != text[0])
    ensures e + rest == text <==> e == text[..k] && rest == text[k..]
  {
    if e + rest == text {
      assert (e + rest)[0] == text[0];
      assert (e + rest)[..k] == e && (e + rest)[k..] == rest;
    }
    if e == text[..k] && rest == text[k..] { assert text[..k] + text[k..] == text; }
  }

  lemma {:induction false} CanonicalBytesExactly(text: seq<byte>)
    requires DecodeBytes(text).Some?
    ensures PercentEncode(DecodeBytes(text).value) == text <==> Canonical(text)
    decreases |text|
  {
    if |text| > 0 {
      hide EncodeByte, FromRadix16, CanonicalEscape, PercentEncode, Plain;
      if text[0] == PERCENT {
        var b, rest := FromRadix16(text[1], text[2]).value, DecodeBytes(text[3..]).value;
        CanonicalBytesExactly(text[3..]);
        EncodeCons(b, rest);
        EscapeReadsBack(text[1], text[2]);
        EncodedHead(b);
        SplitsAt(text, 3, EncodeByte(b), PercentEncode(rest));
        assert text[..3] == [PERCENT, text[1], text[2]];
      } else {
        var rest := DecodeBytes(text[1..]).value;
        CanonicalBytesExactly(text[1..]);
        EncodeCons(text[0], rest);
        EncodedHead(text[0]);
        SplitsAt(text, 1, EncodeByte(text[0]), PercentEncode(rest));
        assert text[..1] == [text[0]];
      }
    }
  }

  lemma EncodedHead(b: byte)
    ensures if Plain(b) then EncodeByte(b) == [b] && b != PERCENT
            else |EncodeByte(b)| == 3 && EncodeByte(b)[0] == PERCENT
  {}

  /** Encoding inverts decoding on exactly the texts that hold plain bytes and canonical escapes only. */
  lemma EncodeInvertsExactly(text: seq<byte>)
    requires PercentDecode(text).Some?
    ensures PercentEncode(PercentDecode(text).value) == text <==> Canonical(text)
  {
    CanonicalBytesExactly(text);
  }

  /** Two texts that decode but do not read back: `%+9`, because a plus sign is taken for a digit, and
      `%61`, because a plain byte needs no escape. */
  lemma EncodeDoesNotAlwaysInvert()
    ensures var plus, plain := [PERCENT, PLUS, 0x39], [PERCENT, 0x36, 0x31];
      && PercentDecode(plus) == Some([9]) && PercentEncode([9]) != plus
      && PercentDecode(plain) == Some([0x61]) && PercentEncode([0x61]) != plain
  {
    assert FromRadix16(PLUS, 0x39) == Some(9) && FromRadix16(0x36, 0x31) == Some(0x61);
    OneEscape(PLUS, 0x39);
    OneEscape(0x36, 0x31);
    EncodeInvertsExactly([PERCENT, PLUS, 0x39]);
    EncodeInvertsExactly([PERCENT, 0x36, 0x31]);
  }

  lemma OneEscape(a: byte, b: byte)
    requires FromRadix16(a, b).Some? && FromRadix16(a, b).value < 0x80
    ensures PercentDecode([PERCENT, a, b]) == Some([FromRadix16(a, b).value])
  {
    hide FromRadix16;
    var text, v := [PERCENT, a, b], FromRadix16(a, b).value;
    assert text[3..] == [] && [v] + [] == [v];
    assert DecodeBytes(text) == Some([v] + []);
    var out := [v];
    assert First(out) == Char(v, 1) && out[1..] == [];
    assert Valid(out);
  }

  // The characters in question

  const CAPITALS := "ABCDEFGHIJKLMNOPQRSTUVWXYZ"
  const SMALLS := "abcdefghijklmnopqrstuvwxyz"
  const DIGITS := "0123456789"
  const UPPER := "0123456789ABCDEF"
  const LOWER := "0123456789abcdef"

  ghost predicate Among(b: byte, text: string) {
    exists i :: 0 <= i < |text| && text[i] as int == b
  }

  lemma RangeIs(b: byte, text: string, first: nat)
    requires forall i :: 0 <= i < |text| ==> text[i] as int == first + i
    ensures Among(b, text) <==> first <= b < first + |text|
  {
    if first <= b < first + |text| { assert text[b - first] as int == b; }
  }

  lemma MarksAre(b: byte)
    ensures Among(b, "-._~/") <==> b == 0x2d || b == 0x2e || b == 0x5f || b == 0x7e || b == 0x2f
  {
    var marks := "-._~/";
    assert marks[0] == '-' && marks[1] == '.' && marks[2] == '_' && marks[3] == '~' && marks[4] == '/';
  }

  /** The characters that stand for themselves (section 2.3 of RFC 3986), and the slash. */
  lemma PlainExactly(b: byte)
    ensures Plain(b) <==> Among(b, CAPITALS) || Among(b, SMALLS) || Among(b, DIGITS) || Among(b, "-._~/")
  {
    RangeIs(b, CAPITALS, 0x41);
    RangeIs(b, SMALLS, 0x61);
    RangeIs(b, DIGITS, 0x30);
    MarksAre(b);
  }

  /** Plain bytes stay, any other becomes a percent sign and two upper-case digits. */
  lemma ByteExactly(b: byte)
    ensures Plain(b) ==> EncodeByte(b) == [b]
    ensures !Plain(b) ==> EncodeByte(b) == [0x25, UPPER[b / 16] as int, UPPER[b % 16] as int]
  {}

  lemma {:induction false} EncodeAppend(a: seq<byte>, b: seq<byte>)
    ensures PercentEncode(a + b) == PercentEncode(a) + PercentEncode(b)
    decreases |a|
  {
    hide EncodeByte;
    if |a| == 0 {
      assert a + b == b;
    } else {
      assert (a + b)[1..] == a[1..] + b;
      EncodeAppend(a[1..], b);
    }
  }

  /** Digits of either case are read, and nothing else but a plus sign in front, which counts for nothing. */
  lemma DigitsExactly(i: nat, j: nat, c: byte)
    requires i < 16 && j < 16
    ensures forall a: byte, b: byte ::
      (a == UPPER[i] as int || a == LOWER[i] as int) && (b == UPPER[j] as int || b == LOWER[j] as int) ==>
      FromRadix16(a, b) == Some(16 * i + j)
    ensures HexValue(c).Some? <==> exists k :: 0 <= k < 16 && (UPPER[k] as int == c || LOWER[k] as int == c)
    ensures FromRadix16(0x2b, c) == HexValue(c)
    ensures forall a: byte :: FromRadix16(a, c).Some? <==> (a == 0x2b || HexValue(a).Some?) && HexValue(c).Some?
  {
    HexDigitsExactly(i);
    HexDigitsExactly(j);
    if HexValue(c).Some? { HexDigitsExactly(HexValue(c).value); }
    forall k | 0 <= k < 16 && (UPPER[k] as int == c || LOWER[k] as int == c) ensures HexValue(c).Some? {
      HexDigitsExactly(k);
    }
  }

  lemma HexDigitsExactly(k: nat)
    requires k < 16
    ensures forall c: byte :: HexValue(c) == Some(k) <==> c == UPPER[k] as int || c == LOWER[k] as int
    ensures UPPER[k] as int != PLUS && LOWER[k] as int != PLUS
  {}

  /** Decoding, piece by piece: an escape is one byte, any other character itself, and a broken escape or bytes
      that are no string spoil the whole text. */
  lemma DecodedExactly(a: byte, b: byte, c: byte, rest: seq<byte>)
    requires c != 0x25
    ensures DecodeBytes([0x25, a, b] + rest)
      == if FromRadix16(a, b).None? then None else Prepend([FromRadix16(a, b).value], DecodeBytes(rest))
    ensures DecodeBytes([c] + rest) == Prepend([c], DecodeBytes(rest))
    ensures DecodeBytes([0x25]) == DecodeBytes([0x25, a]) == None && DecodeBytes([]) == Some([])
    ensures PercentDecode(rest)
      == if DecodeBytes(rest).Some? && Valid(DecodeBytes(rest).value) then DecodeBytes(rest) else None
  {
    hide FromRadix16, Valid;
    assert ([0x25, a, b] + rest)[3..] == rest && ([c] + rest)[1..] == rest;
  }
}
