/** The laws that the theorems assume of emulator, codec and cipher can be met together: a small emulator,
    a plain serialisation of payloads and a cipher without secrecy meet them. */
module Consistency {
  import opened Bytes
  import opened Utf8
  import opened Sgr
  import opened Crypto
  import opened Terminal
  import opened Proto
  import Agreement
  import Producer
  import Replay
  import Sharing

  // An emulator that remembers its size and the last character

  datatype Tiny = Tiny(cols: nat, rows: nat, last: Scalar)

  const RESET_LAST: Scalar := 0x63

  function Emulate(): Emulator<Tiny> {
    Emulator(
      (v: Tiny, t: Text) => if |t| == 0 then v else v.(last := t[|t| - 1]),
      (v: Tiny, c: nat, r: nat) => v.(cols := c, rows := r),
      (v: Tiny) => v.(last := RESET_LAST),
      (v: Tiny) => [v.last],
      (v: Tiny) => (v.cols, v.rows))
  }

  lemma OneIsNormal(c: Scalar)
    ensures Normalize([c], 0) == [c]
  {
    assert FindCsi([c], 0) == 1;
    assert [c][0..] == [c];
  }

  lemma EmulatorIsLawful()
    ensures Lawful(Emulate())
  {
    hide Normalize;
    var emu := Emulate();
    forall v: Tiny, a: Text, b: Text ensures emu.feed(emu.feed(v, a), b) == emu.feed(v, a + b) {
      if |b| > 0 { assert (a + b)[|a + b| - 1] == b[|b| - 1]; } else { assert a + b == a; }
    }
    forall v: Tiny, w: Tiny | emu.size(v) == emu.size(w) ensures emu.feed(emu.reset(w), DumpText(emu, v)) == v {
      OneIsNormal(v.last);
      assert DumpText(emu, v) == RESET + [v.last];
    }
  }

  // Numbers as runs of zeros closed by a one

  function Run(n: nat): seq<byte> {
    if n == 0 then [1] else [0] + Run(n - 1)
  }

  function Runs(ns: seq<nat>): seq<byte> {
    if |ns| == 0 then [] else Run(ns[0]) + Runs(ns[1..])
  }

  /** Counts zeros on from `n`; a one ends a number. */
  function Numbers(x: seq<byte>, n: nat): seq<nat>
    decreases |x|
  {
    if |x| == 0 then [] else if x[0] == 1 then [n] + Numbers(x[1..], 0) else Numbers(x[1..], n + 1)
  }

  lemma {:induction false} RunReadsBack(m: nat, rest: seq<byte>, n: nat)
    ensures Numbers(Run(m) + rest, n) == [n + m] + Numbers(rest, 0)
    decreases m
  {
    var x := Run(m) + rest;
    if m == 0 {
      assert x[1..] == rest;
    } else {
      assert x[1..] == Run(m - 1) + rest;
      RunReadsBack(m - 1, rest, n + 1);
    }
  }

  lemma {:induction false} RunsReadBack(ns: seq<nat>)
    ensures Numbers(Runs(ns), 0) == ns
    decreases |ns|
  {
    if |ns| > 0 {
      RunReadsBack(ns[0], Runs(ns[1..]), 0);
      RunsReadBack(ns[1..]);
      assert [ns[0]] + ns[1..] == ns;
    }
  }

  // Fields, each with its length in front

  function Flat(fields: seq<seq<nat>>): seq<nat> {
    if |fields| == 0 then [] else [|fields[0]|] + fields[0] + Flat(fields[1..])
  }

  function Fields(x: seq<nat>): seq<seq<nat>>
    decreases |x|
  {
    if |x| == 0 || |x| < 1 + x[0] then [] else [x[1..1 + x[0]]] + Fields(x[1 + x[0]..])
  }

  lemma {:induction false} FieldsReadBack(fields: seq<seq<nat>>)
    ensures Fields(Flat(fields)) == fields
    decreases |fields|
  {
    if |fields| > 0 {
      hide Flat;
      ThreeParts([|fields[0]|], fields[0], Flat(fields[1..]));
      FlatCons(fields);
      FieldsReadBack(fields[1..]);
      assert [fields[0]] + fields[1..] == fields;
    }
  }

  lemma FlatCons(fields: seq<seq<nat>>)
    requires |fields| > 0
    ensures Flat(fields) == [|fields[0]|] + fields[0] + Flat(fields[1..])
  {}

  // Payloads as fields

  predicate IsText(x: seq<nat>) { forall i :: 0 <= i < |x| ==> x[i] < 0xD800 || 0xE000 <= x[i] < 0x110000 }

  predicate IsBytes(x: seq<nat>) { forall i :: 0 <= i < |x| ==> x[i] < 256 }

  function TextOf(x: seq<nat>): Text { if IsText(x) then x else [] }

  function BytesOf(x: seq<nat>): seq<byte> { if IsBytes(x) then x else [] }

  function FromOption(t: Option<Text>): seq<nat> { if t.None? then [] else [1] + t.value }

  function ToOption(x: seq<nat>): Option<Text> { if |x| == 0 then None else Some(TextOf(x[1..])) }

  function FromInt(e: Option<int>): seq<nat> {
    if e.None? then [] else if e.value < 0 then [1, -e.value] else [0, e.value]
  }

  function ToInt(x: seq<nat>): Option<int> {
    if |x| < 2 then None
    else
      var n: int := x[1];
      Some(if x[0] == 1 then -n else n)
  }

  function FromBool(b: bool): seq<nat> { if b then [1] else [] }

  function ToFields(p: Payload): seq<seq<nat>> {
    match p
    case Snapshot(cols, rows, name, cmd, title, cwd, input, epoch, screen, carry, exit, checkpoint) =>
      [[cols, rows], name, cmd, FromOption(title), FromOption(cwd), FromBool(input), epoch, screen, carry,
       FromInt(exit), FromBool(checkpoint)]
    case Output(bytes) => [bytes]
    case Input(epoch, bytes) => [epoch, bytes]
  }

  function OfFields(x: seq<seq<nat>>): Option<Payload> {
    if |x| == 1 then Some(Payload.Output(BytesOf(x[0])))
    else if |x| == 2 then Some(Payload.Input(TextOf(x[0]), BytesOf(x[1])))
    else if |x| == 11 && |x[0]| == 2 then
      Some(Payload.Snapshot(x[0][0], x[0][1], TextOf(x[1]), TextOf(x[2]), ToOption(x[3]), ToOption(x[4]), |x[5]| == 1,
                            TextOf(x[6]), TextOf(x[7]), BytesOf(x[8]), ToInt(x[9]), |x[10]| == 1))
    else None
  }

  lemma OptionReadsBack(t: Option<Text>)
    ensures ToOption(FromOption(t)) == t
  {
    if t.Some? { assert ([1] + t.value)[1..] == t.value; }
  }

  lemma PayloadReadsBack(p: Payload)
    ensures OfFields(ToFields(p)) == Some(p)
  {
    if p.Snapshot? {
      OptionReadsBack(p.title);
      OptionReadsBack(p.cwd);
    }
  }

  function Serialise(): Codec {
    Codec((p: Payload) => Runs(Flat(ToFields(p))), (x: seq<byte>) => OfFields(Fields(Numbers(x, 0))))
  }

  lemma CodecRoundTrips()
    ensures RoundTrips(Serialise())
  {
    hide Runs, Flat, ToFields, OfFields, Fields, Numbers;
    forall p: Payload ensures Serialise().decode(Serialise().encode(p)) == Some(p) {
      RunsReadBack(Flat(ToFields(p)));
      FieldsReadBack(ToFields(p));
      PayloadReadsBack(p);
    }
  }

  /** All laws at once, whatever the key material, the session and the parameters of the host. */
  lemma HonestIsConsistent(material: seq<byte>, session: seq<byte>, name: Text, cmd: Text, input: bool)
    ensures exists aead: Aead :: Honest(Env(Emulate(), Serialise(), aead, material, session, name, cmd, input))
  {
    hide Lawful, RoundTrips, Correct;
    EmulatorIsLawful();
    CodecRoundTrips();
    CorrectIsConsistent();
    var aead: Aead :| Correct(aead);
    assert Honest(Env(Emulate(), Serialise(), aead, material, session, name, cmd, input));
  }

  /** So there are fair runs and sharings, of any steps at all: the theorems about them speak of something. */
  lemma FairRunsExist(material: seq<byte>, session: seq<byte>, name: Text, cmd: Text, input: bool, writer: Writer,
      cap: nat, steps: seq<Replay.Step<Tiny>>, moves: seq<Sharing.Move>)
    ensures exists st: Agreement.Story<Tiny> :: Agreement.Fair(st) && st.steps == steps
    ensures exists sh: Sharing.Share<Tiny> :: Sharing.FairShare(sh) && sh.moves == moves
  {
    hide Honest, Decode;
    HonestIsConsistent(material, session, name, cmd, input);
    var aead: Aead :| Honest(Env(Emulate(), Serialise(), aead, material, session, name, cmd, input));
    var env := Env(Emulate(), Serialise(), aead, material, session, name, cmd, input);
    var screen := Producer.ScreenState(Tiny(80, 24, RESET_LAST), [], 80, 24, None, None, None);
    LastDecode([]);
    assert Producer.ScreenOk(env.emu, screen);
    assert Agreement.Fair(Agreement.Story(env, screen, writer, input, cap, steps));
    assert Sharing.FairShare(Sharing.Share(env, screen, session, writer, moves));
  }
}
