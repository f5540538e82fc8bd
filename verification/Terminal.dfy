/** The terminal emulator as an opaque parameter, and what is fed to it. */
module Terminal {
  import opened Bytes
  import opened Utf8
  import opened Sgr

  /** An emulator whose screens have type `V`: text fed to it, its size, a hard reset, and a dump. */
  datatype Emulator<!V> = Emulator(
    feed: (V, Text) -> V,
    resize: (V, nat, nat) -> V,
    reset: V -> V,
    dump: V -> Text,
    size: V -> (nat, nat))

  const RESET: Text := [0x1b, 0x63]

  /** `dump_bytes`, as text. */
  function DumpText<V>(emu: Emulator<V>, v: V): Text {
    RESET + Normalize(emu.dump(v), 0)
  }

  /** An emulator reads a stream: only the text counts, not how it is cut into calls. */
  ghost predicate Streams<V(!new)>(emu: Emulator<V>) {
    && (forall v :: emu.feed(v, []) == v)
    && (forall v, a, b {:trigger emu.feed(emu.feed(v, a), b)} :: emu.feed(emu.feed(v, a), b) == emu.feed(v, a + b))
  }

  ghost predicate KeepsSizes<V(!new)>(emu: Emulator<V>) {
    && (forall v, c: nat, r: nat {:trigger emu.size(emu.resize(v, c, r))} :: emu.size(emu.resize(v, c, r)) == (c, r))
    && (forall v, a {:trigger emu.size(emu.feed(v, a))} :: emu.size(emu.feed(v, a)) == emu.size(v))
    && (forall v {:trigger emu.size(emu.reset(v))} :: emu.size(emu.reset(v)) == emu.size(v))
  }

  /** Fed to a reset screen of the same size, a dump restores the screen it was taken from. */
  ghost predicate DumpRestores<V(!new)>(emu: Emulator<V>) {
    forall v, w {:trigger emu.feed(emu.reset(w), DumpText(emu, v))} ::
      emu.size(v) == emu.size(w) ==> emu.feed(emu.reset(w), DumpText(emu, v)) == v
  }

  ghost predicate Lawful<V(!new)>(emu: Emulator<V>) {
    Streams(emu) && KeepsSizes(emu) && DumpRestores(emu)
  }

  /** A screen and the bytes of a character that is not complete yet. */
  datatype Display<V> = Display(vt: V, carry: seq<byte>)

  function Write<V>(emu: Emulator<V>, d: Display<V>, bytes: seq<byte>): Display<V> {
    var r := Decode(d.carry + bytes);
    Display(emu.feed(d.vt, r.text), r.carry)
  }

  /** What `decode_into` leaves behind: nothing complete. */
  predicate Settled(carry: seq<byte>) {
    Decode(carry) == Decoded([], carry)
  }

  lemma WriteSettles<V>(emu: Emulator<V>, d: Display<V>, bytes: seq<byte>)
    ensures Settled(Write(emu, d, bytes).carry) && |Write(emu, d, bytes).carry| <= 3
  {
    hide Decode;
    CarryIsCutOff(d.carry + bytes);
  }

  /** Two writes are one write of both. */
  lemma WriteAppend<V(!new)>(emu: Emulator<V>, d: Display<V>, a: seq<byte>, b: seq<byte>)
    requires Streams(emu)
    ensures Write(emu, Write(emu, d, a), b) == Write(emu, d, a + b)
  {
    hide Decode;
    DecodeAppend(d.carry + a, b);
    assert d.carry + a + b == d.carry + (a + b);
  }

  /** Reset, then the dump as UTF-8, then the cut-off character if there is one. */
  function Restored<V>(emu: Emulator<V>, w: V, text: Text, carry: seq<byte>): Display<V> {
    var redrawn := Write(emu, Display(emu.reset(w), []), EncodeAll(text));
    if |carry| > 0 then Write(emu, redrawn, carry) else redrawn
  }

  /** A screen of the right size that is reset and sent the dump and the carry becomes the original. */
  lemma RestoreIsExact<V(!new)>(emu: Emulator<V>, d: Display<V>, w: V)
    requires Lawful(emu) && emu.size(w) == emu.size(d.vt) && Settled(d.carry)
    ensures Restored(emu, w, DumpText(emu, d.vt), d.carry) == d
  {
    hide Decode, EncodeAll, DumpText;
    var text := DumpText(emu, d.vt);
    DecodeEncodeAll(text);
    assert [] + EncodeAll(text) == EncodeAll(text);
    assert [] + d.carry == d.carry;
  }

  lemma EmptyPrefix(x: seq<byte>)
    ensures FromUtf8(x).validUpTo == 0 <==> FromUtf8(x).text == []
  {
    hide First;
  }

  lemma FeedMore<V(!new)>(emu: Emulator<V>, vt: V, fed: Text, text: Text)
    requires Streams(emu)
    ensures emu.feed(emu.feed(vt, fed), text) == emu.feed(vt, fed + text)
    ensures text == [] ==> fed + text == fed
  {}

  /** What is left to decode once the text up to `check` has been fed. */
  lemma Turn(whole: seq<byte>, fed: Text, rest: seq<byte>)
    requires Decode(whole) == Decoded(fed + Decode(rest).text, Decode(rest).carry)
    ensures var check := FromUtf8(rest);
      match check.stop
      case End => Decode(whole) == Decoded(fed + check.text, [])
      case UnexpectedEnd => Decode(whole) == Decoded(fed + check.text, rest[check.validUpTo..])
      case ErrorLen(bad) =>
        var d := Decode(rest[check.validUpTo + bad..]);
        Decode(whole) == Decoded((fed + check.text + [REPLACEMENT]) + d.text, d.carry)
  {
    hide Decode, FromUtf8;
    FromUtf8Decodes(rest);
    var check := FromUtf8(rest);
    if check.stop.ErrorLen? {
      var d := Decode(rest[check.validUpTo + check.stop.len..]);
      AppendAssoc(fed, check.text, [REPLACEMENT] + d.text);
      AppendAssoc(fed + check.text, [REPLACEMENT], d.text);
    }
  }

  /** The loop of `decode_into`: feed the valid prefix, replace the ill-formed run, go on. */
  method DecodeInto<V(!new)>(emu: Emulator<V>, vt: V, carry: seq<byte>) returns (vt': V, carry': seq<byte>)
    requires Streams(emu)
    ensures vt' == emu.feed(vt, Decode(carry).text) && carry' == Decode(carry).carry
  {
    hide Decode, FromUtf8, Streams;
    vt', carry' := vt, carry;
    ghost var fed: Text := [];
    assert fed + Decode(carry).text == Decode(carry).text;
    assert vt == emu.feed(vt, fed) by { FeedNothing(emu, vt); }
    while true
      invariant vt' == emu.feed(vt, fed)
      invariant Decode(carry) == Decoded(fed + Decode(carry').text, Decode(carry').carry)
      decreases |carry'|
    {
      var check := FromUtf8(carry');
      Turn(carry, fed, carry');
      EmptyPrefix(carry');
      FeedMore(emu, vt, fed, check.text);
      if check.validUpTo > 0 {
        vt' := emu.feed(vt', check.text);
      }
      fed := fed + check.text;
      assert vt' == emu.feed(vt, fed);
      if check.stop.End? {
        carry' := [];
        break;
      } else if check.stop.ErrorLen? {
        FeedMore(emu, vt, fed, [REPLACEMENT]);
        vt' := emu.feed(vt', [REPLACEMENT]);
        fed := fed + [REPLACEMENT];
        carry' := carry'[check.validUpTo + check.stop.len..];
      } else {
        carry' := carry'[check.validUpTo..];
        break;
      }
    }
  }

  lemma FeedNothing<V(!new)>(emu: Emulator<V>, vt: V)
    requires Streams(emu)
    ensures emu.feed(vt, []) == vt
  {}

  /** A dump starts with the reset of the terminal. */
  lemma DumpResets<V>(emu: Emulator<V>, v: V)
    ensures var d := DumpText(emu, v); |d| >= 2 && d[0] == 0x1b && d[1] == 0x63
  {
    hide Normalize;
  }
}
