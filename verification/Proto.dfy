/** Payloads of encrypted frames and their JSON form, which stays a parameter. */
module Proto {
  import opened Bytes
  import opened Utf8
  import opened Sgr
  import opened Crypto
  import opened Terminal

  datatype Payload =
    | Snapshot(cols: nat, rows: nat, name: Text, cmd: Text, title: Option<Text>, cwd: Option<Text>, input: bool,
               epoch: Text, screen: Text, carry: seq<byte>, exit: Option<int>, checkpoint: bool)
    | Output(bytes: seq<byte>)
    | Input(epoch: Text, bytes: seq<byte>)

  datatype Codec = Codec(encode: Payload -> seq<byte>, decode: seq<byte> -> Option<Payload>)

  ghost predicate RoundTrips(codec: Codec) {
    forall p :: codec.decode(codec.encode(p)) == Some(p)
  }

  /** What stays the same while a session is shared: the emulator, the JSON codec, the cipher, the key
      material, the session id and the parameters of the host. */
  datatype Env<!V> = Env(emu: Emulator<V>, codec: Codec, aead: Aead, material: seq<byte>, session: seq<byte>,
                         name: Text, cmd: Text, input: bool)

  ghost predicate Honest<V(!new)>(env: Env<V>) {
    Lawful(env.emu) && RoundTrips(env.codec) && Correct(env.aead)
  }

  // Epochs are 32 random octets in base64url without padding.

  function Base64Char(n: int): Scalar
    requires 0 <= n < 64
  {
    if n < 26 then 0x41 + n
    else if n < 52 then 0x61 + (n - 26)
    else if n < 62 then 0x30 + (n - 52)
    else if n == 62 then 0x2d
    else 0x5f
  }

  function Base64Value(c: Scalar): Option<int> {
    if 0x41 <= c <= 0x5a then Some(c - 0x41)
    else if 0x61 <= c <= 0x7a then Some(c - 0x61 + 26)
    else if 0x30 <= c <= 0x39 then Some(c - 0x30 + 52)
    else if c == 0x2d then Some(62)
    else if c == 0x5f then Some(63)
    else None
  }

  function Encode64(raw: seq<byte>): Text
    decreases |raw|
  {
    if |raw| == 0 then []
    else if |raw| == 1 then [Base64Char(raw[0] / 4), Base64Char(raw[0] % 4 * 16)]
    else if |raw| == 2 then
      [Base64Char(raw[0] / 4), Base64Char(raw[0] % 4 * 16 + raw[1] / 16), Base64Char(raw[1] % 16 * 4)]
    else
      [Base64Char(raw[0] / 4), Base64Char(raw[0] % 4 * 16 + raw[1] / 16),
       Base64Char(raw[1] % 16 * 4 + raw[2] / 64), Base64Char(raw[2] % 64)] + Encode64(raw[3..])
  }

  /** The viewer's check of a key or an epoch: 43 characters of the alphabet, no stray low bits. */
  predicate ValidToken(t: Text) {
    && |t| == 43
    && (forall i :: 0 <= i < |t| ==> Base64Value(t[i]).Some?)
    && Base64Value(t[42]).value % 4 == 0
  }

  lemma Base64ReadsBack(n: int)
    requires 0 <= n < 64
    ensures Base64Value(Base64Char(n)) == Some(n)
  {}

  lemma {:induction false} EncodedToken(raw: seq<byte>)
    requires |raw| % 3 == 2
    ensures var t := Encode64(raw);
      && |t| == |raw| / 3 * 4 + 3
      && (forall i :: 0 <= i < |t| ==> Base64Value(t[i]).Some?)
      && Base64Value(t[|t| - 1]).value % 4 == 0
    decreases |raw|
  {
    if |raw| == 2 {
      Base64ReadsBack(raw[0] / 4);
      Base64ReadsBack(raw[0] % 4 * 16 + raw[1] / 16);
      Base64ReadsBack(raw[1] % 16 * 4);
    } else {
      EncodedToken(raw[3..]);
      Base64ReadsBack(raw[0] / 4);
      Base64ReadsBack(raw[0] % 4 * 16 + raw[1] / 16);
      Base64ReadsBack(raw[1] % 16 * 4 + raw[2] / 64);
      Base64ReadsBack(raw[2] % 64);
      hide Base64Char, Base64Value;
      var t, rest := Encode64(raw), Encode64(raw[3..]);
      assert forall i :: 4 <= i < |t| ==> t[i] == rest[i - 4];
    }
  }

  /** Every epoch a producer makes passes the viewer's check. */
  lemma EpochIsValid(raw: seq<byte>)
    requires |raw| == 32
    ensures ValidToken(Encode64(raw))
  {
    hide Encode64, Base64Value;
    EncodedToken(raw);
  }

  // Reading epochs back

  const CAPITALS := "ABCDEFGHIJKLMNOPQRSTUVWXYZ"
  const SMALLS := "abcdefghijklmnopqrstuvwxyz"
  const MARKS := "0123456789-_"

  /** The URL-safe alphabet of section 5 of RFC 4648. */
  lemma AlphabetExactly(n: nat, c: Scalar)
    requires n < 64
    ensures Base64Char(n) as char == if n < 26 then CAPITALS[n] else if n < 52 then SMALLS[n - 26] else MARKS[n - 52]
    ensures Base64Value(c) == Some(n) <==> c == Base64Char(n)
  {
    if n < 26 { CapitalsAre(n); } else if n < 52 { SmallsAre(n - 26); } else { MarksAre(n - 52); }
    hide CAPITALS, SMALLS, MARKS;
  }

  lemma CapitalsAre(i: nat)
    requires i < 26
    ensures CAPITALS[i] as int == 0x41 + i
  {}

  lemma SmallsAre(i: nat)
    requires i < 26
    ensures SMALLS[i] as int == 0x61 + i
  {}

  lemma MarksAre(i: nat)
    requires i < 12
    ensures MARKS[i] as int == if i < 10 then 0x30 + i else if i == 10 then 0x2d else 0x5f
  {}

  predicate Readable(t: Text) { forall i :: 0 <= i < |t| ==> Base64Value(t[i]).Some? }

  function Digit(t: Text, i: nat): (d: nat)
    requires Readable(t) && i < |t|
    ensures d < 64
  {
    Base64Value(t[i]).value
  }

  /** The octets of a text of 4n + 3 characters. */
  function Decode64(t: Text): seq<byte>
    requires Readable(t) && |t| % 4 == 3
    decreases |t|
  {
    var first := Digit(t, 0) * 4 + Digit(t, 1) / 16;
    var second := Digit(t, 1) % 16 * 16 + Digit(t, 2) / 4;
    if |t| == 3 then [first, second]
    else [first, second, Digit(t, 2) % 4 * 64 + Digit(t, 3)] + Decode64(t[4..])
  }

  /** Three octets against four digits of six bits. */
  lemma Sextets(a: byte, b: byte, c: byte)
    ensures var w, x, y, z := a / 4, a % 4 * 16 + b / 16, b % 16 * 4 + c / 64, c % 64;
      && 0 <= w < 64 && 0 <= x < 64 && 0 <= y < 64
      && w * 4 + x / 16 == a && x % 16 * 16 + y / 4 == b && y % 4 * 64 + z == c
  {
    assert a == a / 4 * 4 + a % 4 && b == b / 16 * 16 + b % 16 && c == c / 64 * 64 + c % 64;
  }

  function Quad(a: byte, b: byte, c: byte): Text {
    Sextets(a, b, c);
    [Base64Char(a / 4), Base64Char(a % 4 * 16 + b / 16), Base64Char(b % 16 * 4 + c / 64), Base64Char(c % 64)]
  }

  lemma DecodeTriple(t: Text, a: byte, b: byte, c: byte)
    requires Readable(t) && |t| % 4 == 3 && |t| > 3
    requires t[..4] == Quad(a, b, c)
    ensures Decode64(t) == [a, b, c] + Decode64(t[4..])
  {
    hide Base64Char, Base64Value;
    var quad := Quad(a, b, c);
    assert t[0] == quad[0] && t[1] == quad[1] && t[2] == quad[2] && t[3] == quad[3];
    Sextets(a, b, c);
    DigitOf(t, 0, a / 4);
    DigitOf(t, 1, a % 4 * 16 + b / 16);
    DigitOf(t, 2, b % 16 * 4 + c / 64);
    DigitOf(t, 3, c % 64);
  }

  lemma LongerByThree(n: nat)
    requires n > 2 && n % 3 == 2
    ensures (n - 3) % 3 == 2 && (n / 3 * 4 + 3) % 4 == 3 && n / 3 * 4 + 3 > 3
  {}

  lemma {:induction false} EncodingReadsBack(raw: seq<byte>)
    requires |raw| % 3 == 2
    ensures var t := Encode64(raw); Readable(t) && |t| % 4 == 3 && Decode64(t) == raw
    decreases |raw|
  {
    hide Base64Char, Base64Value;
    EncodedToken(raw);
    var t := Encode64(raw);
    if |raw| == 2 {
      Sextets(raw[0], raw[1], 0);
      DigitOf(t, 0, raw[0] / 4);
      DigitOf(t, 1, raw[0] % 4 * 16 + raw[1] / 16);
      DigitOf(t, 2, raw[1] % 16 * 4);
    } else {
      EncodingReadsBack(raw[3..]);
      assert raw == [raw[0], raw[1], raw[2]] + raw[3..];
      hide Decode64, Encode64;
      EncodeTriple(raw[0], raw[1], raw[2], raw[3..]);
      LongerByThree(|raw|);
      DecodeTriple(t, raw[0], raw[1], raw[2]);
    }
  }

  lemma DigitOf(t: Text, i: nat, d: nat)
    requires Readable(t) && i < |t| && d < 64 && t[i] == Base64Char(d)
    ensures Digit(t, i) == d
  {
    Base64ReadsBack(d);
  }

  lemma CharOf(t: Text, i: nat)
    requires Readable(t) && i < |t|
    ensures Base64Char(Digit(t, i)) == t[i]
  {}

  /** Four digits against three octets. */
  lemma Octets(w: nat, x: nat, y: nat, z: nat)
    requires w < 64 && x < 64 && y < 64 && z < 64
    ensures var a, b, c := w * 4 + x / 16, x % 16 * 16 + y / 4, y % 4 * 64 + z;
      && 0 <= a < 256 && 0 <= b < 256 && 0 <= c < 256
      && a / 4 == w && a % 4 * 16 + b / 16 == x && b % 16 * 4 + c / 64 == y && c % 64 == z
  {
    assert x == x / 16 * 16 + x % 16 && y == y / 4 * 4 + y % 4;
  }

  lemma EncodeTriple(a: byte, b: byte, c: byte, rest: seq<byte>)
    ensures Encode64([a, b, c] + rest) == Quad(a, b, c) + Encode64(rest)
  {
    hide Base64Char;
    var raw := [a, b, c] + rest;
    assert raw[3..] == rest;
  }

  lemma QuadIs(t: Text, a: byte, b: byte, c: byte)
    requires Readable(t) && |t| > 3
    requires a / 4 == Digit(t, 0) && a % 4 * 16 + b / 16 == Digit(t, 1)
    requires b % 16 * 4 + c / 64 == Digit(t, 2) && c % 64 == Digit(t, 3)
    ensures Quad(a, b, c) == t[..4]
  {
    CharOf(t, 0);
    CharOf(t, 1);
    CharOf(t, 2);
    CharOf(t, 3);
    hide Base64Char, Base64Value, Digit, Readable;
    var quad := Quad(a, b, c);
    assert quad[0] == t[0] && quad[1] == t[1] && quad[2] == t[2] && quad[3] == t[3];
  }

  lemma QuadOf(t: Text) returns (a: byte, b: byte, c: byte)
    requires Readable(t) && |t| % 4 == 3 && |t| > 3
    ensures Quad(a, b, c) == t[..4]
    ensures Decode64(t) == [a, b, c] + Decode64(t[4..])
  {
    hide Base64Char, Base64Value, Digit, Quad;
    var w, x, y, z := Digit(t, 0), Digit(t, 1), Digit(t, 2), Digit(t, 3);
    Octets(w, x, y, z);
    a, b, c := w * 4 + x / 16, x % 16 * 16 + y / 4, y % 4 * 64 + z;
    QuadIs(t, a, b, c);
  }

  /** The last three characters: sixteen bits, and two that must be zero. */
  lemma LastReadsBack(t: Text)
    requires Readable(t) && |t| == 3 && Digit(t, 2) % 4 == 0
    ensures |Decode64(t)| == 2 && Encode64(Decode64(t)) == t
  {
    hide Base64Char, Base64Value;
    CharOf(t, 0);
    CharOf(t, 1);
    CharOf(t, 2);
    Octets(Digit(t, 0), Digit(t, 1), Digit(t, 2), 0);
    assert Encode64(Decode64(t)) == [t[0], t[1], t[2]];
  }

  lemma {:induction false} TokenReadsBack(t: Text)
    requires Readable(t) && |t| % 4 == 3 && Digit(t, |t| - 1) % 4 == 0
    ensures Encode64(Decode64(t)) == t
    decreases |t|
  {
    if |t| == 3 {
      LastReadsBack(t);
    } else {
      var tail := t[4..];
      assert tail[|tail| - 1] == t[|t| - 1];
      TokenReadsBack(tail);
      var a, b, c := QuadOf(t);
      assert t == t[..4] + tail;
      EncodeTriple(a, b, c, Decode64(tail));
    }
  }

  lemma {:induction false} DecodedLength(t: Text)
    requires Readable(t) && |t| % 4 == 3
    ensures |Decode64(t)| == |t| / 4 * 3 + 2
    decreases |t|
  {
    if |t| > 3 { DecodedLength(t[4..]); }
  }

  /** The page takes exactly the texts that 32 octets are written as, and different octets are written
      differently. */
  lemma TokensExactly(t: Text)
    ensures ValidToken(t) <==> exists raw: seq<byte> :: |raw| == 32 && Encode64(raw) == t
    ensures forall a: seq<byte>, b: seq<byte> :: |a| == |b| == 32 && Encode64(a) == t == Encode64(b) ==> a == b
  {
    hide Encode64, Base64Value, Base64Char, Decode64;
    if ValidToken(t) {
      TokenReadsBack(t);
      DecodedLength(t);
      assert |Decode64(t)| == 32;
    }
    forall raw: seq<byte> | |raw| == 32 && Encode64(raw) == t ensures ValidToken(t) { EpochIsValid(raw); }
    forall a: seq<byte>, b: seq<byte> | |a| == |b| == 32 && Encode64(a) == t == Encode64(b) ensures a == b {
      EncodingReadsBack(a);
      EncodingReadsBack(b);
    }
  }
}
