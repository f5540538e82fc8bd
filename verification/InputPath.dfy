/** From a viewer's keyboard to the host: what the page seals is what the producer accepts. */
module InputPath {
  import opened Bytes
  import opened Crypto
  import opened Proto
  import opened Sgr
  import Agreement
  import InputReplay
  import Invariant
  import W = Viewer

  function ContextOf<V>(env: Env<V>): InputReplay.Context {
    InputReplay.Context(env.aead, env.codec, env.material, env.session)
  }

  /** The frames of consecutive inputs, in order; those that cannot be sealed are missing. */
  function Frames<V>(env: Env<V>, c: W.CipherState, inputs: seq<seq<byte>>): seq<seq<byte>>
    decreases |inputs|
  {
    if |inputs| == 0 then []
    else
      var f := W.InputFrame(env, c, inputs[0]);
      (if f.Ok? then [f.value] else []) + Frames(env, W.CipherAfterInput(c), inputs[1..])
  }

  /** The inputs that can be sealed under consecutive numbers from `n` on, and are not empty: those whose
      payload leaves room for header and tag, for as long as there are numbers. */
  function Sealable<V>(env: Env<V>, epoch: Text, n: nat, inputs: seq<seq<byte>>): seq<seq<byte>>
    decreases |inputs|
  {
    if |inputs| == 0 || n >= U64_MAX then []
    else
      var payload := Payload.Input(epoch, inputs[0]);
      (if |inputs[0]| > 0 && |env.codec.encode(payload)| + 46 <= 0x80_0000 then [inputs[0]] else [])
      + Sealable(env, epoch, n + 1, inputs[1..])
  }

  /** What is written to the child: every accepted input but the empty ones. */
  function Written(accepts: seq<InputReplay.Accept>): seq<seq<byte>>
    decreases |accepts|
  {
    if |accepts| == 0 then []
    else (if |accepts[0].bytes| > 0 then [accepts[0].bytes] else []) + Written(accepts[1..])
  }

  /** What the host writes on a connection: nothing at all unless it shares its session for input. */
  function HostWrites<V>(env: Env<V>, r: InputReplay.Receiver, frames: seq<seq<byte>>): seq<seq<byte>> {
    if env.input then Written(InputReplay.Accepted(ContextOf(env), r, frames)) else []
  }

  /** The channel to the child: absent, or closed after some writes. */
  type Writes = Option<nat>

  /** What gets through to the child of the writes that are due. */
  function Through(writes: Writes, due: seq<seq<byte>>): seq<seq<byte>> {
    if writes.None? then [] else if |due| <= writes.value then due else due[..writes.value]
  }

  /** Without a channel nothing is written; otherwise the writes due, in order, up to the first that fails. */
  lemma ThroughExactly(n: nat, due: seq<seq<byte>>)
    ensures Through(None, due) == []
    ensures Through(Some(n), due) <= due && |Through(Some(n), due)| == if n < |due| then n else |due|
  {}

  /** The loop's answer to binary messages, one after the other, up to a write that fails; `ended` tells
      whether one did, which ends the sharing. */
  method HostReads<V>(env: Env<V>, receiver: InputReplay.InputReceiver, frames: seq<seq<byte>>, writes: Writes)
    returns (written: seq<seq<byte>>, ended: bool)
    modifies receiver
    ensures var due := HostWrites(env, old(receiver.State()), frames);
      written == Through(writes, due) && (ended <==> writes.Some? && |due| > writes.value)
    ensures env.input && !ended ==>
      receiver.State() == InputReplay.Final(ContextOf(env), old(receiver.State()), frames)
    ensures !env.input ==> receiver.State() == old(receiver.State())
  {
    hide InputReplay.Verdict, InputReplay.After, InputReplay.Accepted, InputReplay.Final, Written;
    written, ended := [], false;
    if !env.input { return; }
    var ctx := ContextOf(env);
    var i := 0;
    ghost var due := Written(InputReplay.Accepted(ctx, receiver.State(), frames));
    ghost var seen: seq<seq<byte>> := [];
    assert frames[0..] == frames;
    while i < |frames|
      invariant 0 <= i <= |frames|
      invariant seen + Written(InputReplay.Accepted(ctx, receiver.State(), frames[i..])) == due
      invariant written == if writes.None? then [] else seen
      invariant env.input && !ended
      invariant writes.Some? ==> |seen| <= writes.value
      invariant InputReplay.Final(ctx, receiver.State(), frames[i..])
                == InputReplay.Final(ctx, old(receiver.State()), frames)
    {
      ghost var r, rest := receiver.State(), frames[i..];
      assert rest[0] == frames[i] && rest[1..] == frames[i + 1..];
      AcceptedStep(ctx, r, rest);
      var bytes := receiver.Receive(ctx, frames[i]);
      if bytes.Ok? && |bytes.value| > 0 {
        if writes.Some? {
          if |written| == writes.value {
            TakePrefix(seen, bytes.value, Written(InputReplay.Accepted(ctx, receiver.State(), frames[i + 1..])));
            return written, true;
          }
          written := written + [bytes.value];
        }
        seen := seen + [bytes.value];
      }
      i := i + 1;
    }
    NothingLeft(ctx, receiver.State(), frames[i..]);
    assert seen + [] == seen;
  }

  lemma TakePrefix(seen: seq<seq<byte>>, next: seq<byte>, rest: seq<seq<byte>>)
    ensures var due := seen + ([next] + rest); due[..|seen|] == seen && |due| > |seen|
  {}

  lemma NothingLeft(ctx: InputReplay.Context, r: InputReplay.Receiver, frames: seq<seq<byte>>)
    requires |frames| == 0
    ensures Written(InputReplay.Accepted(ctx, r, frames)) == [] && InputReplay.Final(ctx, r, frames) == r
  {}

  lemma AcceptedStep(ctx: InputReplay.Context, r: InputReplay.Receiver, frames: seq<seq<byte>>)
    requires |frames| > 0
    ensures var v := InputReplay.Verdict(ctx, r, frames[0]);
      var rest := Written(InputReplay.Accepted(ctx, InputReplay.After(r, v), frames[1..]));
      Written(InputReplay.Accepted(ctx, r, frames))
      == (if v.Ok? && |v.value.bytes| > 0 then [v.value.bytes] else []) + rest
    ensures var v := InputReplay.Verdict(ctx, r, frames[0]);
      InputReplay.Final(ctx, r, frames) == InputReplay.Final(ctx, InputReplay.After(r, v), frames[1..])
  {
    hide InputReplay.Verdict, InputReplay.After;
    var v := InputReplay.Verdict(ctx, r, frames[0]);
    var rest := InputReplay.Accepted(ctx, InputReplay.After(r, v), frames[1..]);
    if v.Ok? { assert ([v.value] + rest)[1..] == rest; } else { assert [] + rest == rest; }
  }

  /** The page has the receiver's epoch, the receiver has room for the page's writer, and has not seen
      the page's next number. */
  ghost predicate InStep(r: InputReplay.Receiver, c: W.CipherState) {
    && c.epoch == Some(r.epoch)
    && (if c.own in r.writers then r.writers[c.own] < c.sendSequence else |r.writers| < 1024)
  }

  /** An input that is sealed is accepted under the page's writer id and number, and page and receiver
      are in step for the next one. */
  lemma InputIsAccepted<V(!new)>(env: Env<V>, r: InputReplay.Receiver, c: W.CipherState, bytes: seq<byte>)
    requires RoundTrips(env.codec) && Correct(env.aead) && InStep(r, c) && W.InputFrame(env, c, bytes).Ok?
    ensures var v := InputReplay.Verdict(ContextOf(env), r, W.InputFrame(env, c, bytes).value);
      && v == Ok(InputReplay.Accept(r.epoch, c.own, c.sendSequence, bytes))
      && InStep(InputReplay.After(r, v), W.CipherAfterInput(c))
  {
    hide Correct, SealFrame, OpenFrame;
    var plain := env.codec.encode(Payload.Input(c.epoch.value, bytes));
    SealedFrameOpens(env.aead, W.InputSender(env, c), INPUT, plain);
  }

  lemma UnsealedKeepsStep<V>(env: Env<V>, r: InputReplay.Receiver, c: W.CipherState)
    requires InStep(r, c)
    ensures InStep(r, W.CipherAfterInput(c))
  {}

  lemma {:induction false} SpentSendsNothing<V>(env: Env<V>, c: W.CipherState, inputs: seq<seq<byte>>)
    requires c.sendSequence == U64_MAX
    ensures Frames(env, c, inputs) == []
    decreases |inputs|
  {
    if |inputs| > 0 {
      hide W.InputFrame, W.CipherAfterInput;
      W.InputExactly(env, c, inputs[0]);
      SpentSendsNothing(env, c, inputs[1..]);
    }
  }

  /** The receiver after the first of some inputs. */
  function AfterFirst<V>(env: Env<V>, r: InputReplay.Receiver, c: W.CipherState, bytes: seq<byte>)
    : InputReplay.Receiver
  {
    var f := W.InputFrame(env, c, bytes);
    if f.Ok? then InputReplay.After(r, InputReplay.Verdict(ContextOf(env), r, f.value)) else r
  }

  lemma FirstArrives<V(!new)>(env: Env<V>, r: InputReplay.Receiver, c: W.CipherState, inputs: seq<seq<byte>>)
    requires RoundTrips(env.codec) && Correct(env.aead) && InStep(r, c) && env.input
    requires |inputs| > 0 && c.sendSequence < U64_MAX
    ensures var r', next := AfterFirst(env, r, c, inputs[0]), W.CipherAfterInput(c);
      && InStep(r', next) && next.sendSequence == c.sendSequence + 1 && r'.epoch == r.epoch
      && HostWrites(env, r, Frames(env, c, inputs))
         == (if |inputs[0]| > 0 && |env.codec.encode(Payload.Input(r.epoch, inputs[0]))| + 46 <= 0x80_0000
             then [inputs[0]] else [])
            + HostWrites(env, r', Frames(env, next, inputs[1..]))
  {
    InStepHasEpoch(r, c);
    W.InputExactly(env, c, inputs[0]);
    hide RoundTrips, Correct, InStep, InputReplay.Verdict, InputReplay.Accepted, W.InputFrame, W.CipherAfterInput,
        Written;
    var f, next := W.InputFrame(env, c, inputs[0]), W.CipherAfterInput(c);
    var rest := Frames(env, next, inputs[1..]);
    if f.Ok? {
      InputIsAccepted(env, r, c, inputs[0]);
      assert ([f.value] + rest)[0] == f.value && ([f.value] + rest)[1..] == rest;
      AcceptedStep(ContextOf(env), r, [f.value] + rest);
    } else {
      UnsealedKeepsStep(env, r, c);
      assert [] + rest == rest;
    }
  }

  /** Over a relay that delivers in order, a host that shares its session for input writes exactly the
      inputs that could be sealed and are not empty, each once and in the order they were typed; any
      other host writes nothing. */
  lemma {:induction false} InputsArrive<V(!new)>(env: Env<V>, r: InputReplay.Receiver, c: W.CipherState,
      inputs: seq<seq<byte>>)
    requires RoundTrips(env.codec) && Correct(env.aead) && InStep(r, c)
    ensures HostWrites(env, r, Frames(env, c, inputs))
            == if env.input then Sealable(env, r.epoch, c.sendSequence, inputs) else []
    decreases |inputs|
  {
    hide RoundTrips, Correct, InStep, InputReplay.Accepted, W.InputFrame, W.CipherAfterInput, AfterFirst;
    if |inputs| > 0 && env.input && c.sendSequence < U64_MAX {
      hide HostWrites, Frames;
      FirstArrives(env, r, c, inputs);
      InputsArrive(env, AfterFirst(env, r, c, inputs[0]), W.CipherAfterInput(c), inputs[1..]);
    } else {
      if c.sendSequence == U64_MAX { SpentSendsNothing(env, c, inputs); }
      NothingWritten(env, r);
    }
  }

  lemma NothingWritten<V>(env: Env<V>, r: InputReplay.Receiver)
    ensures HostWrites(env, r, []) == []
  {}

  lemma InStepHasEpoch(r: InputReplay.Receiver, c: W.CipherState)
    requires InStep(r, c)
    ensures c.epoch == Some(r.epoch)
  {}

  // In step, in every run

  /** The receiver of a connection, after anything it has been delivered, is in step with a page that has its
      epoch: it has seen only numbers the page has spent. */
  lemma ReceiverIsInStep<V>(env: Env<V>, epoch: Text, frames: seq<seq<byte>>, sealed: set<Sealing>, c: W.CipherState)
    requires InputReplay.AllAuthentic(ContextOf(env), sealed, frames) && c.epoch == Some(epoch)
    requires SealedBefore(env, c, sealed)
    requires HasRoom(InputReplay.Accepted(ContextOf(env), InputReplay.Receiver(epoch, map[]), frames), c.own)
    ensures InStep(InputReplay.Final(ContextOf(env), InputReplay.Receiver(epoch, map[]), frames), c)
  {
    hide InputReplay.Accepted, InputReplay.Final, InputReplay.AllAuthentic, NextSealing;
    var ctx, r := ContextOf(env), InputReplay.Receiver(epoch, map[]);
    var f, accepts := InputReplay.Final(ctx, r, frames), InputReplay.Accepted(ctx, r, frames);
    InputReplay.TableIsHighest(ctx, r, frames);
    InputReplay.AcceptedWasSealed(ctx, sealed, r, frames);
    assert f.writers.Keys == InputReplay.WritersOf(accepts);
    assert |f.writers| == |f.writers.Keys|;
    if c.own in f.writers {
      var a :| a in accepts && a.writer == c.own && a.sequence == f.writers[c.own];
      assert InputReplay.WasSealed(ctx, sealed, a);
    }
  }

  /** All that was sealed under the page's own key so far has a number the page has spent. */
  ghost predicate SealedBefore<V>(env: Env<V>, c: W.CipherState, sealed: set<Sealing>) {
    forall n: u64, plain: seq<byte> ::
      NextSealing(SenderState(env.material, env.session, c.own, n, true), INPUT, plain) in sealed ==> n < c.sendSequence
  }

  /** The page's writer was accepted before, or is among the first 1024 of the connection. */
  predicate HasRoom(accepts: seq<InputReplay.Accept>, own: Writer) {
    own in InputReplay.WritersOf(accepts) || |InputReplay.WritersOf(accepts)| < 1024
  }

  /** In every run of the step system: while the producer is connected and the relay has read all it sent, a
      viewer that handles what is under way to it can type. Whatever the relay has delivered to the host on
      this connection before, if it then delivers this viewer's inputs in order, the host writes exactly
      those that could be sealed and are not empty, if it shares its session for input. */
  lemma CaughtUpViewerTypes<V(!new)>(st: Agreement.Story<V>, id: nat, frames: seq<seq<byte>>, sealed: set<Sealing>,
      inputs: seq<seq<byte>>)
    requires Agreement.Fair(st) && id in st.End().viewers
    requires st.End().producer.phase.Streaming? && st.End().link.Some? && st.End().link.value.frames == []
    requires InputReplay.AllAuthentic(ContextOf(st.env), sealed, frames)
    requires SealedBefore(st.env, Current(st, id).cipher, sealed)
    requires HasRoom(InputReplay.Accepted(ContextOf(st.env), Connection(st), frames), Current(st, id).cipher.own)
    ensures var r := InputReplay.Final(ContextOf(st.env), Connection(st), frames);
      HostWrites(st.env, r, Frames(st.env, Current(st, id).cipher, inputs))
      == if st.env.input then Sealable(st.env, r.epoch, Current(st, id).cipher.sendSequence, inputs) else []
  {
    hide Agreement.Fair, InStep, InputReplay.AllAuthentic, SealedBefore, HasRoom, HostWrites, Frames, Sealable,
        Invariant.Shows, Agreement.ReadAll, Honest, Agreement.Story.After;
    Agreement.CaughtUp(st, id);
    Agreement.FairIsHonest(st);
    var c := Current(st, id).cipher;
    ReceiverIsInStep(st.env, st.End().producer.phase.epoch, frames, sealed, c);
    var r := InputReplay.Final(ContextOf(st.env), Connection(st), frames);
    HonestParts(st.env);
    InputsArrive(st.env, r, c, inputs);
  }

  lemma HonestParts<V(!new)>(env: Env<V>)
    requires Honest(env)
    ensures RoundTrips(env.codec) && Correct(env.aead)
  {}

  /** The viewer's page after all that is under way to it. */
  function Current<V>(st: Agreement.Story<V>, id: nat): W.Page<V>
    requires id in st.End().viewers
  {
    var v, sent := st.End().viewers[id], st.End().relay.sent;
    if v.next <= |sent| then Agreement.ReadAll(st.env, v.page, Invariant.Pending(sent, v)) else v.page
  }

  /** The receiver the producer made for its present connection. */
  function Connection<V>(st: Agreement.Story<V>): InputReplay.Receiver
    requires st.End().producer.phase.Streaming?
  {
    InputReplay.Receiver(st.End().producer.phase.epoch, map[])
  }
}
