/** Envelopes of the end-to-end encryption: header, nonce, associated data, key derivation input,
    and the sender. The cipher itself is a parameter. */
module Crypto {
  import opened Bytes

  const SNAPSHOT: byte := 1
  const OUTPUT: byte := 2
  const INPUT: byte := 3
  const HEADER_LEN := 30
  const TAG_LEN := 16
  const MAX_ENCRYPTED_FRAME := 8 * 1024 * 1024
  const U64_MAX := 0xFFFF_FFFF_FFFF_FFFF

  /** `TCMP` and the format version. */
  const MAGIC: seq<byte> := [84, 67, 77, 80, 1]
  /** `tcomp-e2ee-v1` */
  const CONTEXT: seq<byte> := [116, 99, 111, 109, 112, 45, 101, 50, 101, 101, 45, 118, 49]
  const INPUT_LABEL: seq<byte> := [105, 110, 112, 117, 116]
  const OUTPUT_LABEL: seq<byte> := [111, 117, 116, 112, 117, 116]

  type Writer = w: seq<byte> | |w| == 16 witness [0, 0, 0, 0, 0, 0, 0, 0, 0, 0, 0, 0, 0, 0, 0, 0]
  type u64 = n: nat | n <= U64_MAX

  // Numbers as octets

  function BigEndian(n: nat, width: nat): (r: seq<byte>)
    ensures |r| == width
    decreases width
  {
    if width == 0 then [] else BigEndian(n / 256, width - 1) + [n % 256]
  }

  function FromBigEndian(s: seq<byte>): nat
    decreases |s|
  {
    if |s| == 0 then 0 else FromBigEndian(s[..|s| - 1]) * 256 + s[|s| - 1]
  }

  function Pow256(width: nat): nat {
    if width == 0 then 1 else 256 * Pow256(width - 1)
  }

  lemma {:induction false} BigEndianReadsBack(n: nat, width: nat)
    requires n < Pow256(width)
    ensures FromBigEndian(BigEndian(n, width)) == n
    decreases width
  {
    if width > 0 {
      BigEndianReadsBack(n / 256, width - 1);
      var r := BigEndian(n, width);
      assert r[..|r| - 1] == BigEndian(n / 256, width - 1);
    }
  }

  lemma {:induction false} FromBigEndianPrintsBack(s: seq<byte>)
    ensures FromBigEndian(s) < Pow256(|s|)
    ensures BigEndian(FromBigEndian(s), |s|) == s
    decreases |s|
  {
    if |s| > 0 {
      var high, low := FromBigEndian(s[..|s| - 1]), s[|s| - 1];
      FromBigEndianPrintsBack(s[..|s| - 1]);
      assert (high * 256 + low) / 256 == high && (high * 256 + low) % 256 == low;
    }
  }

  lemma Pow256Of8()
    ensures Pow256(8) == U64_MAX + 1
  {
    assert Pow256(4) == 0x1_0000_0000;
    assert Pow256(6) == 0x1_0000_0000_0000;
  }

  function U64Bytes(n: u64): (r: seq<byte>)
    ensures |r| == 8
  {
    BigEndian(n, 8)
  }

  function U64From(s: seq<byte>): u64
    requires |s| == 8
  {
    FromBigEndianPrintsBack(s);
    Pow256Of8();
    FromBigEndian(s)
  }

  lemma U64RoundTrip(n: u64)
    ensures U64From(U64Bytes(n)) == n
  {
    Pow256Of8();
    BigEndianReadsBack(n, 8);
  }

  lemma U64PrintsBack(s: seq<byte>)
    requires |s| == 8
    ensures U64Bytes(U64From(s)) == s
  {
    FromBigEndianPrintsBack(s);
  }

  // Header

  datatype Header = Header(kind: byte, writer: Writer, sequence: u64)

  datatype Error =
    | InvalidFrameSize | UnsupportedFrame | InvalidKind
    | WrongDirection | FrameTooLarge | CounterExhausted | AuthenticationFailed

  predicate KnownKind(kind: byte) { kind == SNAPSHOT || kind == OUTPUT || kind == INPUT }

  function PrintHeader(h: Header): (r: seq<byte>)
    ensures |r| == HEADER_LEN
  {
    MAGIC + [h.kind] + h.writer + U64Bytes(h.sequence)
  }

  function ParseHeader(frame: seq<byte>): Result<Header, Error> {
    if !(HEADER_LEN + TAG_LEN <= |frame| <= MAX_ENCRYPTED_FRAME) then Err(InvalidFrameSize)
    else if !(frame[..4] == MAGIC[..4] && frame[4] == 1) then Err(UnsupportedFrame)
    else if !KnownKind(frame[5]) then Err(InvalidKind)
    else Ok(Header(frame[5], frame[6..22], U64From(frame[22..30])))
  }

  /** A frame parses to `h` exactly when it has a legal size, starts with the octets of `h`, and `h`
      has a known kind. */
  lemma ParseInvertsPrint(frame: seq<byte>, h: Header)
    ensures ParseHeader(frame) == Ok(h) <==>
      && HEADER_LEN + TAG_LEN <= |frame| <= MAX_ENCRYPTED_FRAME
      && frame[..HEADER_LEN] == PrintHeader(h) && KnownKind(h.kind)
  {
    hide U64Bytes, U64From;
    if HEADER_LEN + TAG_LEN <= |frame| {
      HeaderFields(h);
      U64RoundTrip(h.sequence);
      var head := frame[..HEADER_LEN];
      assert head[..4] == frame[..4] && head[6..22] == frame[6..22] && head[22..30] == frame[22..30];
      U64PrintsBack(frame[22..30]);
      if ParseHeader(frame) == Ok(h) {
        assert frame[..4] == MAGIC[..4];
        assert MAGIC == MAGIC[..4] + [1];
        assert head == head[..4] + [head[4]] + [head[5]] + head[6..22] + head[22..30];
        assert PrintHeader(h) == (MAGIC[..4] + [1]) + [h.kind] + h.writer + U64Bytes(h.sequence);
      }
    }
  }

  lemma HeaderFields(h: Header)
    ensures var p := PrintHeader(h);
      p[..4] == MAGIC[..4] && p[4] == 1 && p[5] == h.kind && p[6..22] == h.writer && p[22..30] == U64Bytes(h.sequence)
  {
    hide U64Bytes;
    var p := PrintHeader(h);
    ThreeParts(MAGIC + [h.kind], h.writer, U64Bytes(h.sequence));
    assert p[22..30] == p[22..];
  }

  // Inputs of the cipher

  function Nonce(sequence: u64): (r: seq<byte>)
    ensures |r| == 12
  {
    [0, 0, 0, 0] + U64Bytes(sequence)
  }

  lemma NonceInjective(a: u64, b: u64)
    requires Nonce(a) == Nonce(b)
    ensures a == b
  {
    hide U64Bytes;
    assert U64Bytes(a) == Nonce(a)[4..] == Nonce(b)[4..] == U64Bytes(b);
    U64RoundTrip(a);
    U64RoundTrip(b);
  }

  function Aad(header: seq<byte>, session: seq<byte>): seq<byte> {
    CONTEXT + session + header
  }

  /** Header and session are both determined by the associated data, whatever the session. */
  lemma AadInjective(header: seq<byte>, session: seq<byte>, header': seq<byte>, session': seq<byte>)
    requires |header| == |header'| == HEADER_LEN
    requires Aad(header, session) == Aad(header', session')
    ensures header == header' && session == session'
  {
    ThreeParts(CONTEXT, session, header);
    ThreeParts(CONTEXT, session', header');
    assert |session| == |session'|;
  }

  function Direction(input: bool): seq<byte> {
    if input then INPUT_LABEL else OUTPUT_LABEL
  }

  /** The `info` of the key expansion. */
  function Info(writer: Writer, input: bool): seq<byte> {
    CONTEXT + Direction(input) + writer
  }

  lemma InfoInjective(writer: Writer, input: bool, writer': Writer, input': bool)
    requires Info(writer, input) == Info(writer', input')
    ensures writer == writer' && input == input'
  {
    assert |Info(writer, input)| == 29 + |Direction(input)|;
    assert |Info(writer', input')| == 29 + |Direction(input')|;
    assert |INPUT_LABEL| == 5 && |OUTPUT_LABEL| == 6;
    ThreeParts(CONTEXT, Direction(input), writer);
    ThreeParts(CONTEXT, Direction(input'), writer');
  }

  /** A derived key is what it was derived from: key material, salt and info. */
  datatype CipherKey = CipherKey(material: seq<byte>, salt: seq<byte>, info: seq<byte>)

  function Derive(material: seq<byte>, session: seq<byte>, writer: Writer, input: bool): CipherKey {
    CipherKey(material, session, Info(writer, input))
  }

  // The cipher

  /** An authenticated cipher: seal(key, nonce, aad, plaintext) and its partial inverse. */
  datatype Aead = Aead(
    seal: (CipherKey, seq<byte>, seq<byte>, seq<byte>) -> seq<byte>,
    open: (CipherKey, seq<byte>, seq<byte>, seq<byte>) -> Option<seq<byte>>)

  ghost predicate Correct(aead: Aead) {
    && (forall k, n, a, p :: |aead.seal(k, n, a, p)| == |p| + TAG_LEN)
    && (forall k, n, a, p :: aead.open(k, n, a, aead.seal(k, n, a, p)) == Some(p))
  }

  /** One call of `seal`: all that went in. */
  datatype Sealing = Sealing(key: CipherKey, nonce: seq<byte>, aad: seq<byte>, plain: seq<byte>)

  /** The laws of the cipher have a model, which of course keeps no secret. */
  lemma CorrectIsConsistent()
    ensures exists aead: Aead :: Correct(aead)
  {
    var tag: seq<byte> := [0, 0, 0, 0, 0, 0, 0, 0, 0, 0, 0, 0, 0, 0, 0, 0];
    var aead := Aead(
      (k: CipherKey, n: seq<byte>, a: seq<byte>, p: seq<byte>) => p + tag,
      (k: CipherKey, n: seq<byte>, a: seq<byte>, c: seq<byte>) =>
        if |c| < TAG_LEN then None else Some(c[..|c| - TAG_LEN]));
    assert forall p: seq<byte> :: (p + tag)[..|p + tag| - TAG_LEN] == p;
    assert Correct(aead);
  }

  // Sender

  datatype SenderState = SenderState(
    material: seq<byte>, session: seq<byte>, writer: Writer, sequence: u64, input: bool)
  {
    function Key(): CipherKey { Derive(material, session, writer, input) }
  }

  function NewSender(material: seq<byte>, session: seq<byte>, input: bool, writer: Writer): SenderState {
    SenderState(material, session, writer, 0, input)
  }

  /** Why a frame is not sealed, in the order of the checks. */
  function Refusal(s: SenderState, kind: byte, len: nat): Option<Error> {
    if !(KnownKind(kind) && (kind == INPUT) == s.input) then Some(WrongDirection)
    else if len > MAX_ENCRYPTED_FRAME - HEADER_LEN - TAG_LEN then Some(FrameTooLarge)
    else if s.sequence == U64_MAX then Some(CounterExhausted)
    else None
  }

  /** What is handed to the cipher for the next frame. */
  function NextSealing(s: SenderState, kind: byte, plain: seq<byte>): Sealing {
    Sealing(s.Key(), Nonce(s.sequence), Aad(PrintHeader(Header(kind, s.writer, s.sequence)), s.session), plain)
  }

  function SealFrame(aead: Aead, s: SenderState, kind: byte, plain: seq<byte>): Result<seq<byte>, Error> {
    if Refusal(s, kind, |plain|).Some? then Err(Refusal(s, kind, |plain|).value)
    else
      var c := NextSealing(s, kind, plain);
      Ok(PrintHeader(Header(kind, s.writer, s.sequence)) + aead.seal(c.key, c.nonce, c.aad, c.plain))
  }

  /** The sender after an attempt: only a sealed frame uses a sequence number. */
  function AfterSeal(s: SenderState, kind: byte, len: nat): SenderState {
    if Refusal(s, kind, len).Some? then s else s.(sequence := s.sequence + 1)
  }

  class Sender {
    const material: seq<byte>
    const session: seq<byte>
    const writer: Writer
    const input: bool
    var sequence: u64

    function State(): SenderState
      reads this
    {
      SenderState(material, session, writer, sequence, input)
    }

    constructor (material: seq<byte>, session: seq<byte>, input: bool, writer: Writer)
      ensures State() == NewSender(material, session, input, writer)
      ensures this.material == material && this.session == session && this.input == input
    {
      this.material := material;
      this.session := session;
      this.writer := writer;
      this.input := input;
      sequence := 0;
    }

    method Seal(aead: Aead, kind: byte, plain: seq<byte>) returns (r: Result<seq<byte>, Error>)
      modifies this
      ensures r == SealFrame(aead, old(State()), kind, plain)
      ensures State() == AfterSeal(old(State()), kind, |plain|)
    {
      hide PrintHeader, Nonce, Aad, Derive;
      if !(KnownKind(kind) && (kind == INPUT) == input) {
        return Err(WrongDirection);
      }
      if |plain| > MAX_ENCRYPTED_FRAME - HEADER_LEN - TAG_LEN {
        return Err(FrameTooLarge);
      }
      var number := sequence;
      if number == U64_MAX {
        return Err(CounterExhausted);
      }
      sequence := number + 1;
      var frame := PrintHeader(Header(kind, writer, number));
      var body := aead.seal(Derive(material, session, writer, input), Nonce(number), Aad(frame, session), plain);
      return Ok(frame + body);
    }
  }

  // Opening

  function OpenFrame(aead: Aead, material: seq<byte>, session: seq<byte>, frame: seq<byte>, input: bool)
    : Result<(Header, seq<byte>), Error>
  {
    var parsed := ParseHeader(frame);
    if parsed.Err? then Err(parsed.error)
    else
      var h := parsed.value;
      if (h.kind == INPUT) != input then Err(WrongDirection)
      else
        var cipher := Derive(material, session, h.writer, input);
        var plain := aead.open(cipher, Nonce(h.sequence), Aad(frame[..HEADER_LEN], session), frame[HEADER_LEN..]);
        if plain.None? then Err(AuthenticationFailed) else Ok((h, plain.value))
  }

  /** A sealed frame is 46 octets longer than its plaintext, its header reads back what was printed,
      and it opens, in the direction and session it was sealed for, to exactly its plaintext. */
  lemma SealedFrameOpens(aead: Aead, s: SenderState, kind: byte, plain: seq<byte>)
    requires Correct(aead) && SealFrame(aead, s, kind, plain).Ok?
    ensures var frame := SealFrame(aead, s, kind, plain).value;
      var h := Header(kind, s.writer, s.sequence);
      && |frame| == |plain| + HEADER_LEN + TAG_LEN
      && ParseHeader(frame) == Ok(h)
      && OpenFrame(aead, s.material, s.session, frame, s.input) == Ok((h, plain))
  {
    hide PrintHeader, Nonce, Aad, Derive, ParseHeader;
    var frame := SealFrame(aead, s, kind, plain).value;
    var h := Header(kind, s.writer, s.sequence);
    ParseInvertsPrint(frame, h);
    assert frame[..HEADER_LEN] == PrintHeader(h);
    var c := NextSealing(s, kind, plain);
    assert frame[HEADER_LEN..] == aead.seal(c.key, c.nonce, c.aad, c.plain);
  }

  /** What a frame that opens to `plain` claims to have been sealed with. */
  function Claimed(material: seq<byte>, session: seq<byte>, frame: seq<byte>, h: Header, input: bool,
      plain: seq<byte>): Sealing
    requires |frame| >= HEADER_LEN
  {
    Sealing(Derive(material, session, h.writer, input), Nonce(h.sequence), Aad(frame[..HEADER_LEN], session), plain)
  }

  /** Ideal authentication of one frame that is delivered: if it opens, what it opens to was sealed.
      Only frames that somebody delivers can be forgeries; a cipher would open the sealing of any
      plaintext, but without the key nobody can produce one. */
  ghost predicate Authentic(aead: Aead, sealed: set<Sealing>, material: seq<byte>, session: seq<byte>,
      frame: seq<byte>, input: bool)
  {
    var o := OpenFrame(aead, material, session, frame, input);
    o.Ok? ==> |frame| >= HEADER_LEN && Claimed(material, session, frame, o.value.0, input, o.value.1) in sealed
  }

  /** An authentic frame that opens was sealed by a sender of this session and direction, under the very
      header the frame carries. */
  lemma OpenedWasSealed(aead: Aead, sealed: set<Sealing>, material: seq<byte>, session: seq<byte>, frame: seq<byte>,
      input: bool)
    requires Authentic(aead, sealed, material, session, frame, input)
    requires OpenFrame(aead, material, session, frame, input).Ok?
    ensures var (h, plain) := OpenFrame(aead, material, session, frame, input).value;
      NextSealing(SenderState(material, session, h.writer, h.sequence, input), h.kind, plain) in sealed
  {
    hide PrintHeader, Nonce, Aad, Derive, ParseHeader;
    ParseInvertsPrint(frame, ParseHeader(frame).value);
  }

  /** What a sender seals is authentic wherever and however often it is delivered in its session. */
  lemma SealedIsAuthentic(aead: Aead, sealed: set<Sealing>, s: SenderState, kind: byte, plain: seq<byte>)
    requires Correct(aead) && SealFrame(aead, s, kind, plain).Ok? && NextSealing(s, kind, plain) in sealed
    ensures Authentic(aead, sealed, s.material, s.session, SealFrame(aead, s, kind, plain).value, s.input)
  {
    hide PrintHeader, Nonce, Aad, Derive, ParseHeader, OpenFrame;
    SealedFrameOpens(aead, s, kind, plain);
    var frame := SealFrame(aead, s, kind, plain).value;
    assert frame[..HEADER_LEN] == PrintHeader(Header(kind, s.writer, s.sequence));
  }

  // The octets in question

  lemma DivDiv(n: nat, p: nat)
    requires p > 0
    ensures n / 256 / p == n / (256 * p)
  {
    var q, a := n / 256, n / 256 / p;
    assert a * p <= q < (a + 1) * p;
    assert 256 * q <= n < 256 * (q + 1) && q + 1 <= (a + 1) * p;
    assert 256 * (a * p) <= n < 256 * ((a + 1) * p);
    DivIs(n, 256 * p, a);
  }

  lemma DivIs(n: nat, d: nat, a: nat)
    requires d > 0 && a * d <= n < (a + 1) * d
    ensures n / d == a
  {
    var q := n / d;
    assert q * d <= n < (q + 1) * d;
    Scales(q + 1, a, d);
    Scales(a + 1, q, d);
  }

  lemma Scales(x: nat, y: nat, d: nat)
    ensures x <= y ==> x * d <= y * d
  {}

  lemma Pow256Positive(width: nat)
    ensures Pow256(width) > 0
  {}

  /** The most significant octet comes first. */
  lemma {:induction false} BigEndianDigit(n: nat, width: nat, i: nat)
    requires i < width
    ensures Pow256(width - 1 - i) > 0 && BigEndian(n, width)[i] == n / Pow256(width - 1 - i) % 256
    decreases width
  {
    Pow256Positive(width - 1 - i);
    if i < width - 1 {
      BigEndianDigit(n / 256, width - 1, i);
      DivDiv(n, Pow256(width - 2 - i));
    }
  }

  /** The header: four letters, the version, the kind, the writer, and the number, most significant octet first. */
  lemma LayoutExactly(h: Header, i: nat)
    requires i < 8
    ensures var p := PrintHeader(h);
      && |p| == 30 && Spells(p[..4], "TCMP") && p[4] == 1 && p[5] == h.kind && p[6..22] == h.writer
      && Pow256(7 - i) > 0 && p[22 + i] == h.sequence / Pow256(7 - i) % 256
    ensures SNAPSHOT == 1 && OUTPUT == 2 && INPUT == 3
  {
    HeaderFields(h);
    BigEndianDigit(h.sequence, 8, i);
    hide PrintHeader, Pow256, BigEndian;
    assert PrintHeader(h)[22 + i] == PrintHeader(h)[22..30][i];
  }

  /** The nonce is four zeros and the number; the labels of key derivation and associated data. */
  lemma InputsExactly(n: u64, i: nat)
    requires i < 12
    ensures Pow256(11 - i) > 0 && Nonce(n)[i] == if i < 4 then 0 else n / Pow256(11 - i) % 256
    ensures Spells(CONTEXT, "tcomp-e2ee-v1") && Spells(Direction(true), "input") && Spells(Direction(false), "output")
  {
    hide BigEndian, Pow256;
    Pow256Positive(11 - i);
    if i >= 4 { BigEndianDigit(n, 8, i - 4); }
  }

  /** Which octets parse, and why others do not, in the order of the checks. */
  lemma ParseExactly(frame: seq<byte>)
    ensures var r := ParseHeader(frame);
      && (r == Err(InvalidFrameSize) <==> |frame| < 46 || |frame| > 0x80_0000)
      && (46 <= |frame| <= 0x80_0000 ==>
            && (r == Err(UnsupportedFrame) <==> !Spells(frame[..4], "TCMP") || frame[4] != 1)
            && (r == Err(InvalidKind) <==> Spells(frame[..4], "TCMP") && frame[4] == 1 && !(1 <= frame[5] <= 3))
            && (r.Ok? <==> Spells(frame[..4], "TCMP") && frame[4] == 1 && 1 <= frame[5] <= 3))
  {
    hide U64From;
    if |frame| >= 46 {
      var head := frame[..4];
      assert Spells(head, "TCMP") <==> head == MAGIC[..4];
    }
  }

  /** Which plaintexts are sealed, and why others are not, in the order of the checks; a number is used for
      those that are, and for no other. */
  lemma SealExactly(aead: Aead, s: SenderState, kind: byte, plain: seq<byte>)
    ensures var r, ok, fits := SealFrame(aead, s, kind, plain), if s.input then kind == 3 else kind == 1 || kind == 2,
                               |plain| + 46 <= 0x80_0000;
      && (r == Err(WrongDirection) <==> !ok) && (r == Err(FrameTooLarge) <==> ok && !fits)
      && (r == Err(CounterExhausted) <==> ok && fits && s.sequence == U64_MAX)
      && (r.Ok? <==> ok && fits && s.sequence < U64_MAX)
      && AfterSeal(s, kind, |plain|) == (if r.Ok? then s.(sequence := s.sequence + 1) else s)
  {
    hide PrintHeader, Nonce, Aad, Derive;
  }

  /** A frame opens if it parses, has the right direction and passes the cipher; otherwise the first of these
      that fails is the error. */
  lemma OpenExactly(aead: Aead, material: seq<byte>, session: seq<byte>, frame: seq<byte>, input: bool)
    ensures var r, h := OpenFrame(aead, material, session, frame, input), ParseHeader(frame);
      && (h.Err? ==> r == Err(h.error))
      && (h.Ok? ==>
            && (r == Err(WrongDirection) <==> (h.value.kind == 3) != input)
            && (r.Ok? || r == Err(AuthenticationFailed) <==> (h.value.kind == 3) == input)
            && (r.Ok? ==> r.value.0 == h.value))
  {
    hide ParseHeader, Nonce, Aad, Derive;
  }
}
