/** UTF-8 as `std::str::from_utf8` reads it: section 4 of RFC 3629 for what is well formed,
    and the `valid_up_to` / `error_len` pair of the standard library for what is not. */
module Utf8 {
  import opened Bytes

  /** A Unicode scalar value. */
  type Scalar = c: int | 0 <= c < 0xD800 || 0xE000 <= c < 0x110000
  const REPLACEMENT: Scalar := 0xFFFD

  // The reference printer

  function Encode(c: Scalar): (r: seq<byte>)
    ensures 1 <= |r| <= 4
  {
    if c < 0x80 then [c]
    else if c < 0x800 then [0xC0 + c / 64, 0x80 + c % 64]
    else if c < 0x10000 then [0xE0 + c / 64 / 64, 0x80 + c / 64 % 64, 0x80 + c % 64]
    else [0xF0 + c / 64 / 64 / 64, 0x80 + c / 64 / 64 % 64, 0x80 + c / 64 % 64, 0x80 + c % 64]
  }

  function EncodeAll(text: seq<Scalar>): seq<byte> {
    if |text| == 0 then [] else Encode(text[0]) + EncodeAll(text[1..])
  }

  // The parser

  /** What stands at the front of a non-empty buffer: a whole character, an ill-formed run whose
      `error_len` is `len`, or a character cut off by the end of the buffer. */
  datatype Front = Char(value: Scalar, len: nat) | Bad(len: nat) | Incomplete

  /** The payload of a continuation byte. */
  function Low(b: int): int { b - 0x80 }

  predicate Continuation(b: int) { 0x80 <= b < 0xC0 }

  /** Is `b` a possible second byte after the lead byte `lead` of three or four? */
  predicate Second(lead: int, b: int) {
    if lead == 0xE0 then 0xA0 <= b < 0xC0
    else if lead == 0xED then 0x80 <= b < 0xA0
    else if lead == 0xF0 then 0x90 <= b < 0xC0
    else if lead == 0xF4 then 0x80 <= b < 0x90
    else Continuation(b)
  }

  function First(x: seq<byte>): (f: Front)
    requires |x| > 0
    ensures f.Char? ==> 1 <= f.len <= |x|
    ensures f.Bad? ==> 1 <= f.len <= |x|
  {
    var lead: int := x[0];
    if lead < 0x80 then Char(lead, 1)
    else if 0xC2 <= lead < 0xE0 then
      if |x| == 1 then Incomplete
      else if !Continuation(x[1]) then Bad(1)
      else Char((lead - 0xC0) * 64 + Low(x[1]), 2)
    else if 0xE0 <= lead < 0xF0 then
      if |x| == 1 then Incomplete
      else if !Second(lead, x[1]) then Bad(1)
      else if |x| == 2 then Incomplete
      else if !Continuation(x[2]) then Bad(2)
      else Char(((lead - 0xE0) * 64 + Low(x[1])) * 64 + Low(x[2]), 3)
    else if 0xF0 <= lead < 0xF5 then
      if |x| == 1 then Incomplete
      else if !Second(lead, x[1]) then Bad(1)
      else if |x| == 2 then Incomplete
      else if !Continuation(x[2]) then Bad(2)
      else if |x| == 3 then Incomplete
      else if !Continuation(x[3]) then Bad(3)
      else Char((((lead - 0xF0) * 64 + Low(x[1])) * 64 + Low(x[2])) * 64 + Low(x[3]), 4)
    else Bad(1)
  }

  /** Text of a byte stream, every ill-formed run replaced, and the cut-off tail that is carried. */
  datatype Decoded = Decoded(text: seq<Scalar>, carry: seq<byte>)

  function Decode(x: seq<byte>): (d: Decoded)
    decreases |x|
  {
    if |x| == 0 then Decoded([], [])
    else match First(x)
      case Char(c, n) => var d := Decode(x[n..]); Decoded([c] + d.text, d.carry)
      case Bad(n) => var d := Decode(x[n..]); Decoded([REPLACEMENT] + d.text, d.carry)
      case Incomplete => Decoded([], x)
  }

  /** `String::from_utf8` succeeds. */
  predicate Valid(x: seq<byte>)
    decreases |x|
  {
    |x| == 0 || (First(x).Char? && Valid(x[First(x).len..]))
  }

  // Well-formedness against the reference printer

  lemma Digits(high: nat, low: nat)
    requires low < 64
    ensures (high * 64 + low) / 64 == high && (high * 64 + low) % 64 == low
  {}

  lemma CharIsEncoding(x: seq<byte>)
    requires |x| > 0 && First(x).Char?
    ensures x[..First(x).len] == Encode(First(x).value)
  {
    var n, lead: int := First(x).len, x[0];
    if n == 2 {
      Digits(lead - 0xC0, Low(x[1]));
    } else if n == 3 {
      Digits(lead - 0xE0, Low(x[1]));
      Digits((lead - 0xE0) * 64 + Low(x[1]), Low(x[2]));
    } else if n == 4 {
      Digits(lead - 0xF0, Low(x[1]));
      Digits((lead - 0xF0) * 64 + Low(x[1]), Low(x[2]));
      Digits(((lead - 0xF0) * 64 + Low(x[1])) * 64 + Low(x[2]), Low(x[3]));
    }
  }

  lemma EncodingIsChar(c: Scalar, rest: seq<byte>)
    ensures First(Encode(c) + rest) == Char(c, |Encode(c)|)
  {
    var e := Encode(c);
    assert forall i :: 0 <= i < |e| ==> (e + rest)[i] == e[i];
  }

  /** A complete answer is not revised by later bytes. */
  lemma FrontIsStable(x: seq<byte>, y: seq<byte>)
    requires |x| > 0 && !First(x).Incomplete?
    ensures First(x + y) == First(x)
  {
    var z := x + y;
    assert forall i :: 0 <= i < |x| ==> z[i] == x[i];
  }

  ghost predicate CutOff(x: seq<byte>) {
    exists c: Scalar :: x < Encode(c)
  }

  /** The least scalar whose encoding starts with the cut-off `x`. */
  function Completion(x: seq<byte>): Scalar
    requires |x| > 0 && First(x).Incomplete?
  {
    var lead: int := x[0];
    if lead < 0xE0 then (lead - 0xC0) * 64
    else if lead < 0xF0 then
      ((lead - 0xE0) * 64 + Second0(x)) * 64
    else
      (((lead - 0xF0) * 64 + Second0(x)) * 64 + (if |x| >= 3 then Low(x[2]) else 0)) * 64
  }

  /** The payload of the second byte, or the least one `Second` admits. */
  function Second0(x: seq<byte>): int
    requires |x| > 0
  {
    if |x| >= 2 then Low(x[1]) else if x[0] == 0xE0 then 0x20 else if x[0] == 0xF0 then 0x10 else 0
  }

  lemma PartOfEncoding(x: seq<byte>, c: Scalar)
    requires |x| > 0 && x <= Encode(c)
    ensures First(x) == if x == Encode(c) then Char(c, |x|) else Incomplete
  {
    var e := Encode(c);
    EncodingIsChar(c, []);
    assert e + [] == e;
    assert forall i :: 0 <= i < |x| ==> x[i] == e[i];
  }

  lemma CompletionExtends(x: seq<byte>)
    requires |x| > 0 && First(x).Incomplete?
    ensures x < Encode(Completion(x))
  {
    var lead: int := x[0];
    if lead < 0xE0 {
      Digits(lead - 0xC0, 0);
    } else if lead < 0xF0 {
      Digits(lead - 0xE0, Second0(x));
      Digits((lead - 0xE0) * 64 + Second0(x), 0);
    } else {
      var third := if |x| >= 3 then Low(x[2]) else 0;
      Digits(lead - 0xF0, Second0(x));
      Digits((lead - 0xF0) * 64 + Second0(x), third);
      Digits(((lead - 0xF0) * 64 + Second0(x)) * 64 + third, 0);
    }
  }

  /** `Incomplete` is exactly "a proper, non-empty part of some encoding". */
  lemma IncompleteIsCutOff(x: seq<byte>)
    requires |x| > 0
    ensures First(x).Incomplete? <==> CutOff(x)
  {
    if First(x).Incomplete? {
      CompletionExtends(x);
    }
    forall c: Scalar | x < Encode(c) ensures First(x).Incomplete? {
      PartOfEncoding(x, c);
    }
  }

  lemma BadOnPrefix(x: seq<byte>, m: nat)
    requires |x| > 0 && First(x).Bad? && First(x).len < m <= |x|
    ensures First(x[..m]).Bad?
  {}

  /** Maximal subpart (section 3.9 of the Unicode Standard): the replaced run is one byte or the
      start of some encoding, is no encoding itself, and one byte more is the start of none. */
  lemma BadIsMaximalSubpart(x: seq<byte>)
    requires |x| > 0 && First(x).Bad?
    ensures var n := First(x).len; n <= 3 && (n == 1 || CutOff(x[..n]))
    ensures forall c: Scalar :: x[..First(x).len] != Encode(c)
    ensures forall m, c: Scalar :: First(x).len < m <= |x| ==> !(x[..m] <= Encode(c))
  {
    var n := First(x).len;
    if n > 1 {
      IncompleteIsCutOff(x[..n]);
    }
    forall c: Scalar ensures x[..n] != Encode(c) {
      EncodingIsChar(c, x[n..]);
      assert x == x[..n] + x[n..];
    }
    forall m, c: Scalar | n < m <= |x| ensures !(x[..m] <= Encode(c)) {
      BadOnPrefix(x, m);
      if x[..m] <= Encode(c) { PartOfEncoding(x[..m], c); }
    }
  }

  // Chunking

  /** A whole character is decoded to its value, an ill-formed run to one replacement character. */
  lemma DecodeStep(x: seq<byte>)
    requires |x| > 0 && !First(x).Incomplete?
    ensures var f := First(x); var d := Decode(x[f.len..]);
      Decode(x) == Decoded([if f.Char? then f.value else 0xFFFD] + d.text, d.carry)
  {
    hide First;
  }

  lemma LastDecode(x: seq<byte>)
    ensures |x| == 0 ==> Decode(x) == Decoded([], [])
    ensures |x| > 0 && First(x).Incomplete? ==> Decode(x) == Decoded([], x)
  {
    hide First, FromUtf8;
  }

  lemma AppendNothing(text: seq<Scalar>)
    ensures [] + text == text
  {}

  lemma {:induction false} DecodeAppend(x: seq<byte>, y: seq<byte>)
    ensures var d := Decode(x); var e := Decode(d.carry + y);
      Decode(x + y) == Decoded(d.text + e.text, e.carry)
    decreases |x|
  {
    hide First, Decode;
    if |x| == 0 || First(x).Incomplete? {
      LastDecode(x);
      if |x| == 0 { assert x + y == y == [] + y; }
      AppendNothing(Decode(x + y).text);
    } else {
      var n := First(x).len;
      FrontIsStable(x, y);
      assert (x + y)[n..] == x[n..] + y;
      DecodeAppend(x[n..], y);
      DecodeStep(x);
      DecodeStep(x + y);
    }
  }

  lemma CutOffIsShort(x: seq<byte>)
    requires CutOff(x)
    ensures |x| <= 3
  {
    var c: Scalar :| x < Encode(c);
  }

  lemma {:induction false} CarryIsCutOff(x: seq<byte>)
    ensures var r := Decode(x).carry;
      |r| <= 3 && Decode(r) == Decoded([], r) && (r == [] || CutOff(r))
    decreases |x|
  {
    hide First, Decode, CutOff;
    LastDecode(x);
    if |x| > 0 {
      if First(x).Incomplete? {
        IncompleteIsCutOff(x);
        CutOffIsShort(x);
      } else {
        CarryIsCutOff(x[First(x).len..]);
        DecodeStep(x);
      }
    }
  }

  /** The text of chunks read one after the other, each with the carry the one before left. */
  function DecodeChunks(carry: seq<byte>, chunks: seq<seq<byte>>): Decoded
    decreases |chunks|
  {
    if |chunks| == 0 then Decoded([], carry)
    else
      var d := Decode(carry + chunks[0]);
      var e := DecodeChunks(d.carry, chunks[1..]);
      Decoded(d.text + e.text, e.carry)
  }

  /** However a stream is cut, the same text reaches the terminal and the same tail is carried. */
  lemma {:induction false} ChunkingIsInvisible(carry: seq<byte>, chunks: seq<seq<byte>>)
    requires Decode(carry) == Decoded([], carry)
    ensures DecodeChunks(carry, chunks) == Decode(carry + Concat(chunks))
    ensures |DecodeChunks(carry, chunks).carry| <= 3
    decreases |chunks|
  {
    hide Decode, First;
    if |chunks| == 0 {
      assert carry + Concat(chunks) == carry;
      CarryIsCutOff(carry);
    } else {
      var d := Decode(carry + chunks[0]);
      CarryIsCutOff(carry + chunks[0]);
      ChunkingIsInvisible(d.carry, chunks[1..]);
      DecodeAppend(carry + chunks[0], Concat(chunks[1..]));
      assert carry + Concat(chunks) == carry + chunks[0] + Concat(chunks[1..]);
    }
  }

  lemma {:induction false} DecodeEncodeAll(text: seq<Scalar>)
    ensures Decode(EncodeAll(text)) == Decoded(text, [])
    ensures Valid(EncodeAll(text))
    decreases |text|
  {
    if |text| > 0 {
      hide First, Decode, Encode;
      var e, rest := Encode(text[0]), EncodeAll(text[1..]);
      EncodingIsChar(text[0], rest);
      assert (e + rest)[|e|..] == rest;
      DecodeEncodeAll(text[1..]);
      DecodeStep(e + rest);
    }
  }

  lemma EncodeAllCons(c: Scalar, text: seq<Scalar>)
    ensures EncodeAll([c] + text) == Encode(c) + EncodeAll(text)
  {
    assert ([c] + text)[1..] == text;
  }

  lemma EncodingStep(x: seq<byte>)
    requires |x| > 0 && First(x).Char?
    requires EncodeAll(Decode(x[First(x).len..]).text) == x[First(x).len..]
    ensures EncodeAll(Decode(x).text) == x
  {
    hide First, Encode, EncodeAll, Decode;
    var f := First(x);
    CharIsEncoding(x);
    DecodeStep(x);
    EncodeAllCons(f.value, Decode(x[f.len..]).text);
    assert x == x[..f.len] + x[f.len..];
  }

  /** Valid bytes are the encoding of their text. */
  lemma {:induction false} ValidIsEncoding(x: seq<byte>)
    requires Valid(x)
    ensures Decode(x).carry == [] && EncodeAll(Decode(x).text) == x
    decreases |x|
  {
    if |x| == 0 {
      assert Decode(x) == Decoded([], []);
    } else {
      hide First, EncodeAll, Decode;
      ValidIsEncoding(x[First(x).len..]);
      DecodeStep(x);
      EncodingStep(x);
    }
  }

  /** `String::from_utf8` accepts exactly the encodings of texts. */
  lemma ValidExactly(x: seq<byte>)
    ensures Valid(x) <==> exists text :: EncodeAll(text) == x
  {
    hide Valid, EncodeAll, Decode;
    if Valid(x) { ValidIsEncoding(x); }
    forall text | EncodeAll(text) == x ensures Valid(x) { DecodeEncodeAll(text); }
  }

  // `std::str::from_utf8`

  datatype Stop = End | ErrorLen(len: nat) | UnexpectedEnd
  datatype Check = Check(text: seq<Scalar>, validUpTo: nat, stop: Stop)

  /** The longest valid prefix and why it ends. */
  function FromUtf8(x: seq<byte>): (c: Check)
    ensures c.validUpTo <= |x|
    ensures c.stop.End? <==> c.validUpTo == |x|
    ensures c.stop.ErrorLen? ==> 1 <= c.stop.len && c.validUpTo + c.stop.len <= |x|
    decreases |x|
  {
    if |x| == 0 then Check([], 0, End)
    else match First(x)
      case Char(c, n) => var r := FromUtf8(x[n..]); Check([c] + r.text, n + r.validUpTo, r.stop)
      case Bad(n) => Check([], 0, ErrorLen(n))
      case Incomplete => Check([], 0, UnexpectedEnd)
  }

  /** The whole decoding as the decoding loop goes on from a check: past the ill-formed run. */
  function GoOn(c: Check, x: seq<byte>): Decoded
    requires c.validUpTo <= |x|
    requires c.stop.ErrorLen? ==> c.validUpTo + c.stop.len <= |x|
  {
    match c.stop
    case End => Decoded(c.text, [])
    case UnexpectedEnd => Decoded(c.text, x[c.validUpTo..])
    case ErrorLen(n) =>
      var d := Decode(x[c.validUpTo + n..]);
      Decoded(c.text + ([REPLACEMENT] + d.text), d.carry)
  }

  lemma GoOnAfterChar(s: Scalar, n: nat, c: Check, x: seq<byte>)
    requires n <= |x| && c.validUpTo <= |x| - n
    requires c.stop.ErrorLen? ==> n + c.validUpTo + c.stop.len <= |x|
    ensures var d := GoOn(c, x[n..]);
      GoOn(Check([s] + c.text, n + c.validUpTo, c.stop), x) == Decoded([s] + d.text, d.carry)
  {
    hide First, Decode, FromUtf8;
    match c.stop {
      case End =>
      case UnexpectedEnd => DropDrop(x, n, c.validUpTo);
      case ErrorLen(m) =>
        DropDrop(x, n, c.validUpTo + m);
        AppendAssoc([s], c.text, [REPLACEMENT] + Decode(x[n..][c.validUpTo + m..]).text);
    }
  }

  lemma CharStep(x: seq<byte>)
    requires |x| > 0 && First(x).Char?
    ensures var f := First(x); var c := FromUtf8(x[f.len..]);
      FromUtf8(x) == Check([f.value] + c.text, f.len + c.validUpTo, c.stop)
  {
    hide First;
  }

  lemma LastCheck(x: seq<byte>)
    ensures |x| == 0 ==> FromUtf8(x) == Check([], 0, End)
    ensures |x| > 0 && First(x).Bad? ==> FromUtf8(x) == Check([], 0, ErrorLen(First(x).len))
    ensures |x| > 0 && First(x).Incomplete? ==> FromUtf8(x) == Check([], 0, UnexpectedEnd)
  {
    hide First, Decode;
  }

  lemma LastStep(x: seq<byte>)
    requires |x| > 0 ==> !First(x).Char?
    ensures Decode(x) == GoOn(FromUtf8(x), x)
  {
    hide First, Decode, FromUtf8;
    LastCheck(x);
    LastDecode(x);
    if |x| > 0 && First(x).Bad? {
      DecodeStep(x);
      AppendNothing([REPLACEMENT] + Decode(x[First(x).len..]).text);
    }
  }

  lemma {:induction false} FromUtf8Decodes(x: seq<byte>)
    ensures Decode(x) == GoOn(FromUtf8(x), x)
    decreases |x|
  {
    hide First, Decode, FromUtf8, GoOn;
    if |x| > 0 && First(x).Char? {
      var f := First(x);
      FromUtf8Decodes(x[f.len..]);
      CharStep(x);
      DecodeStep(x);
      GoOnAfterChar(f.value, f.len, FromUtf8(x[f.len..]), x);
    } else {
      LastStep(x);
    }
  }
}
