/** Viewer input as the producer accepts it, against a relay that drops, reorders, duplicates or
    makes up frames. */
module InputReplay {
  import opened Bytes
  import opened Sgr
  import opened Crypto
  import opened Proto
  import Nonces

  const MAX_WRITERS := 1024

  /** What does not change while a session is shared. */
  datatype Context = Context(aead: Aead, codec: Codec, material: seq<byte>, session: seq<byte>)

  datatype Receiver = Receiver(epoch: Text, writers: map<Writer, u64>)

  datatype Refused = Envelope(error: Error) | BadPayload | NotInput | ExpiredEpoch | Replayed | TooManyWriters

  /** The authenticated header and the payload, before any replay check. */
  function Unwrap(ctx: Context, frame: seq<byte>): Result<(Header, Payload), Refused> {
    var o := OpenFrame(ctx.aead, ctx.material, ctx.session, frame, true);
    if o.Err? then Err(Envelope(o.error))
    else
      var payload := ctx.codec.decode(o.value.1);
      if payload.None? then Err(BadPayload) else Ok((o.value.0, payload.value))
  }

  /** Why an authentic input is refused. */
  function Objection(r: Receiver, h: Header, payload: Payload): Option<Refused> {
    if !payload.Input? then Some(NotInput)
    else if payload.epoch != r.epoch then Some(ExpiredEpoch)
    else if h.writer in r.writers then
      if h.sequence <= r.writers[h.writer] then Some(Replayed) else None
    else if |r.writers| >= MAX_WRITERS then Some(TooManyWriters)
    else None
  }

  datatype Accept = Accept(epoch: Text, writer: Writer, sequence: u64, bytes: seq<byte>)

  function Verdict(ctx: Context, r: Receiver, frame: seq<byte>): Result<Accept, Refused> {
    var u := Unwrap(ctx, frame);
    if u.Err? then Err(u.error)
    else
      var (h, payload) := u.value;
      var o := Objection(r, h, payload);
      if o.Some? then Err(o.value) else Ok(Accept(r.epoch, h.writer, h.sequence, payload.bytes))
  }

  function After(r: Receiver, verdict: Result<Accept, Refused>): Receiver {
    if verdict.Err? then r else r.(writers := r.writers[verdict.value.writer := verdict.value.sequence])
  }

  class InputReceiver {
    const epoch: Text
    var writers: map<Writer, u64>

    function State(): Receiver
      reads this
    {
      Receiver(epoch, writers)
    }

    constructor (epoch: Text)
      ensures State() == Receiver(epoch, map[])
    {
      this.epoch := epoch;
      writers := map[];
    }

    method Receive(ctx: Context, frame: seq<byte>) returns (r: Result<seq<byte>, Refused>)
      modifies this
      ensures State() == After(old(State()), Verdict(ctx, old(State()), frame))
      ensures match Verdict(ctx, old(State()), frame)
        case Ok(a) => r == Ok(a.bytes)
        case Err(e) => r == Err(e)
    {
      hide OpenFrame;
      var o := OpenFrame(ctx.aead, ctx.material, ctx.session, frame, true);
      if o.Err? { return Err(Envelope(o.error)); }
      var (header, plaintext) := o.value;
      var payload := ctx.codec.decode(plaintext);
      if payload.None? { return Err(BadPayload); }
      if !payload.value.Input? { return Err(NotInput); }
      if payload.value.epoch != epoch { return Err(ExpiredEpoch); }
      if header.writer in writers {
        if header.sequence <= writers[header.writer] { return Err(Replayed); }
      } else if |writers| >= MAX_WRITERS {
        return Err(TooManyWriters);
      }
      writers := writers[header.writer := header.sequence];
      return Ok(payload.value.bytes);
    }
  }

  // One connection

  /** What a receiver accepts of the frames the relay chooses to deliver, in that order. */
  function Accepted(ctx: Context, r: Receiver, frames: seq<seq<byte>>): seq<Accept>
    decreases |frames|
  {
    if |frames| == 0 then []
    else
      var v := Verdict(ctx, r, frames[0]);
      (if v.Ok? then [v.value] else []) + Accepted(ctx, After(r, v), frames[1..])
  }

  function Final(ctx: Context, r: Receiver, frames: seq<seq<byte>>): Receiver
    decreases |frames|
  {
    if |frames| == 0 then r else Final(ctx, After(r, Verdict(ctx, r, frames[0])), frames[1..])
  }

  /** `a` is newer than anything the receiver remembers of its writer. */
  ghost predicate Newer(r: Receiver, a: Accept) {
    a.epoch == r.epoch && (a.writer in r.writers ==> r.writers[a.writer] < a.sequence)
  }

  ghost predicate Increasing(accepts: seq<Accept>) {
    forall i, j ::
      0 <= i < j < |accepts| && accepts[i].epoch == accepts[j].epoch && accepts[i].writer == accepts[j].writer ==>
      accepts[i].sequence < accepts[j].sequence
  }

  lemma VerdictIsNewer(ctx: Context, r: Receiver, frame: seq<byte>)
    ensures var v := Verdict(ctx, r, frame);
      && (v.Err? ==> After(r, v) == r)
      && (v.Ok? ==> Newer(r, v.value) && After(r, v) == r.(writers := r.writers[v.value.writer := v.value.sequence]))
  {
    hide Unwrap;
  }

  lemma {:induction false} AcceptedIsIncreasing(ctx: Context, r: Receiver, frames: seq<seq<byte>>)
    ensures forall a :: a in Accepted(ctx, r, frames) ==> Newer(r, a)
    ensures Increasing(Accepted(ctx, r, frames))
    decreases |frames|
  {
    if |frames| > 0 {
      hide Verdict, After;
      var v := Verdict(ctx, r, frames[0]);
      var r' := After(r, v);
      var rest := Accepted(ctx, r', frames[1..]);
      VerdictIsNewer(ctx, r, frames[0]);
      AcceptedIsIncreasing(ctx, r', frames[1..]);
      forall a | a in rest
        ensures Newer(r, a) && (v.Ok? && a.writer == v.value.writer ==> v.value.sequence < a.sequence)
      {
        assert Newer(r', a);
      }
      if v.Ok? { IncreasingCons(v.value, rest); }
    }
  }

  lemma IncreasingCons(first: Accept, rest: seq<Accept>)
    requires Increasing(rest)
    requires forall a :: a in rest && a.writer == first.writer ==> first.sequence < a.sequence
    ensures Increasing([first] + rest)
  {
    var all := [first] + rest;
    forall i, j | 0 <= i < j < |all| && all[i].epoch == all[j].epoch && all[i].writer == all[j].writer
      ensures all[i].sequence < all[j].sequence
    {
      assert all[j] == rest[j - 1] && all[j] in rest;
      assert i > 0 ==> all[i] == rest[i - 1];
    }
  }

  /** The table stays within its bound, forgets no writer and lowers no number. */
  lemma {:induction false} TableOnlyGrows(ctx: Context, r: Receiver, frames: seq<seq<byte>>)
    requires |r.writers| <= 1024
    ensures var f := Final(ctx, r, frames);
      && |f.writers| <= 1024 && f.epoch == r.epoch
      && forall w :: w in r.writers ==> w in f.writers && r.writers[w] <= f.writers[w]
    decreases |frames|
  {
    if |frames| > 0 {
      hide Unwrap;
      var v := Verdict(ctx, r, frames[0]);
      var r' := After(r, v);
      if v.Ok? {
        assert r'.writers.Keys == r.writers.Keys + {v.value.writer};
      }
      TableOnlyGrows(ctx, r', frames[1..]);
      assert Final(ctx, r, frames) == Final(ctx, r', frames[1..]);
    }
  }

  /** Exactly which frames get through, and that the others change nothing. */
  lemma AcceptanceIsExact(ctx: Context, r: Receiver, frame: seq<byte>)
    ensures var v := Verdict(ctx, r, frame);
      && (v.Ok? <==> exists h: Header, bytes: seq<byte> ::
          && Unwrap(ctx, frame) == Ok((h, Input(r.epoch, bytes)))
          && (if h.writer in r.writers then r.writers[h.writer] < h.sequence else |r.writers| < 1024))
      && (v.Err? ==> After(r, v) == r)
      && (v.Ok? ==> After(r, v).writers.Keys == r.writers.Keys + {v.value.writer}
                    && After(r, v).writers[v.value.writer] == v.value.sequence)
  {
    hide Unwrap;
    var v := Verdict(ctx, r, frame);
    if v.Ok? {
      var (h, payload) := Unwrap(ctx, frame).value;
      assert payload == Input(r.epoch, payload.bytes);
    }
  }

  /** Why an authentic frame is refused, in the order of the checks. */
  lemma RefusedExactly(ctx: Context, r: Receiver, frame: seq<byte>)
    requires Unwrap(ctx, frame).Ok?
    ensures var v, (h, p) := Verdict(ctx, r, frame), Unwrap(ctx, frame).value;
      && (v == Err(NotInput) <==> !p.Input?)
      && (v == Err(ExpiredEpoch) <==> p.Input? && p.epoch != r.epoch)
      && (v == Err(Replayed) <==>
            p.Input? && p.epoch == r.epoch && h.writer in r.writers && h.sequence <= r.writers[h.writer])
      && (v == Err(TooManyWriters) <==>
            p.Input? && p.epoch == r.epoch && h.writer !in r.writers && |r.writers| >= 1024)
      && (v.Err? ==> v.error in {NotInput, ExpiredEpoch, Replayed, TooManyWriters})
  {
    hide Unwrap;
  }

  function WritersOf(accepts: seq<Accept>): set<Writer> {
    set a | a in accepts :: a.writer
  }

  /** The table remembers of every writer the highest number accepted, and of no one else anything. */
  ghost predicate Remembers(r: Receiver, f: Receiver, accepts: seq<Accept>) {
    && f.epoch == r.epoch && f.writers.Keys == r.writers.Keys + WritersOf(accepts)
    && (forall a :: a in accepts ==> a.sequence <= f.writers[a.writer])
    && (forall w :: w in f.writers ==>
          (w in r.writers && f.writers[w] == r.writers[w])
          || exists a :: a in accepts && a.writer == w && a.sequence == f.writers[w])
  }

  lemma RemembersMore(r: Receiver, r': Receiver, f: Receiver, a: Accept, rest: seq<Accept>)
    requires r' == r.(writers := r.writers[a.writer := a.sequence]) && Newer(r, a)
    requires Remembers(r', f, rest) && a.writer in f.writers && f.writers[a.writer] >= a.sequence
    ensures Remembers(r, f, [a] + rest)
  {
    var all := [a] + rest;
    assert a == all[0];
    assert forall b :: b in rest ==> b in all;
    assert WritersOf(all) == {a.writer} + WritersOf(rest);
    forall w | w in f.writers
      ensures (w in r.writers && f.writers[w] == r.writers[w])
              || exists b :: b in all && b.writer == w && b.sequence == f.writers[w]
    {
      if b :| b in rest && b.writer == w && b.sequence == f.writers[w] { assert b in all; }
    }
  }

  lemma RemembersNothing(r: Receiver)
    ensures Remembers(r, r, [])
  {
    assert WritersOf([]) == {};
  }

  lemma {:induction false} TableIsHighest(ctx: Context, r: Receiver, frames: seq<seq<byte>>)
    ensures Remembers(r, Final(ctx, r, frames), Accepted(ctx, r, frames))
    ensures var f := Final(ctx, r, frames);
      forall w :: w in r.writers ==> w in f.writers && r.writers[w] <= f.writers[w]
    decreases |frames|
  {
    hide Verdict, After, Remembers;
    if |frames| == 0 {
      RemembersNothing(r);
    } else {
      var v := Verdict(ctx, r, frames[0]);
      var r' := After(r, v);
      var rest := Accepted(ctx, r', frames[1..]);
      VerdictIsNewer(ctx, r, frames[0]);
      TableIsHighest(ctx, r', frames[1..]);
      if v.Ok? {
        assert v.value.writer in r'.writers && r'.writers[v.value.writer] == v.value.sequence;
        RemembersMore(r, r', Final(ctx, r', frames[1..]), v.value, rest);
      } else {
        assert [] + rest == rest;
      }
    }
  }

  /** Above all accepted numbers of its writer, and from a known writer or one of the first 1024. */
  predicate Admissible(before: seq<Accept>, h: Header) {
    && (forall a :: a in before && a.writer == h.writer ==> a.sequence < h.sequence)
    && (h.writer in WritersOf(before) || |WritersOf(before)| < 1024)
  }

  lemma AdmissibleByTable(epoch: Text, f: Receiver, before: seq<Accept>, h: Header)
    requires Remembers(Receiver(epoch, map[]), f, before)
    ensures Admissible(before, h)
            <==> if h.writer in f.writers then f.writers[h.writer] < h.sequence else |f.writers| < 1024
  {
    assert f.writers.Keys == WritersOf(before);
    assert |f.writers| == |f.writers.Keys|;
    if h.writer in f.writers {
      var a :| a in before && a.writer == h.writer && a.sequence == f.writers[h.writer];
    } else {
      forall a | a in before ensures a.writer != h.writer { assert a.writer in WritersOf(before); }
    }
  }

  /** Which frame is accepted after which, without the table: one that authenticates as input of this
      epoch and is admissible after all that were accepted before. */
  lemma AcceptedExactly(ctx: Context, epoch: Text, frames: seq<seq<byte>>, next: seq<byte>)
    ensures var r := Receiver(epoch, map[]);
      Verdict(ctx, Final(ctx, r, frames), next).Ok? <==> exists h: Header, bytes: seq<byte> ::
        Unwrap(ctx, next) == Ok((h, Input(epoch, bytes))) && Admissible(Accepted(ctx, r, frames), h)
  {
    hide Unwrap, Verdict, After, Accepted, Final, Admissible;
    var r := Receiver(epoch, map[]);
    var f, before := Final(ctx, r, frames), Accepted(ctx, r, frames);
    TableIsHighest(ctx, r, frames);
    AcceptanceIsExact(ctx, f, next);
    if Unwrap(ctx, next).Ok? { AdmissibleByTable(epoch, f, before, Unwrap(ctx, next).value.0); }
  }

  // Whole runs

  /** One connection of the producer: its fresh epoch and all the relay delivers on it. */
  datatype Connection = Connection(epoch: Text, frames: seq<seq<byte>>)

  function AcceptedOn(ctx: Context, c: Connection): seq<Accept> {
    Accepted(ctx, Receiver(c.epoch, map[]), c.frames)
  }

  function AcceptedInAll(ctx: Context, connections: seq<Connection>): seq<Accept>
    decreases |connections|
  {
    if |connections| == 0 then [] else AcceptedOn(ctx, connections[0]) + AcceptedInAll(ctx, connections[1..])
  }

  /** All connections count, one after the other. */
  lemma {:induction false} EveryConnectionCounts(ctx: Context, a: seq<Connection>, c: Connection, b: seq<Connection>)
    ensures AcceptedInAll(ctx, a + [c] + b) == AcceptedInAll(ctx, a) + AcceptedOn(ctx, c) + AcceptedInAll(ctx, b)
    decreases |a|
  {
    hide AcceptedOn;
    var all := a + [c] + b;
    if |a| == 0 {
      assert all[0] == c && all[1..] == b;
    } else {
      assert all[0] == a[0] && all[1..] == a[1..] + [c] + b;
      EveryConnectionCounts(ctx, a[1..], c, b);
    }
  }

  /** The randomness assumption: no two connections draw the same epoch. */
  ghost predicate FreshEpochs(connections: seq<Connection>) {
    forall i, j :: 0 <= i < j < |connections| ==> connections[i].epoch != connections[j].epoch
  }

  lemma {:induction false} EpochsOf(ctx: Context, connections: seq<Connection>)
    ensures forall a :: a in AcceptedInAll(ctx, connections) ==> exists c :: c in connections && c.epoch == a.epoch
    decreases |connections|
  {
    hide Accepted;
    if |connections| > 0 {
      var c := connections[0];
      EpochsOf(ctx, connections[1..]);
      AcceptedIsIncreasing(ctx, Receiver(c.epoch, map[]), c.frames);
    }
  }

  /** At most once and in order, over every reconnect and against any delivery: within an epoch the
      accepted numbers of a writer strictly increase, so no (epoch, writer, sequence) comes twice. */
  lemma {:induction false} AtMostOnce(ctx: Context, connections: seq<Connection>)
    requires FreshEpochs(connections)
    ensures Increasing(AcceptedInAll(ctx, connections))
    ensures var all := AcceptedInAll(ctx, connections);
      forall i, j :: 0 <= i < j < |all| ==>
        all[i].epoch != all[j].epoch || all[i].writer != all[j].writer || all[i].sequence != all[j].sequence
    decreases |connections|
  {
    hide Accepted;
    if |connections| > 0 {
      var c, rest := connections[0], connections[1..];
      AtMostOnce(ctx, rest);
      AcceptedIsIncreasing(ctx, Receiver(c.epoch, map[]), c.frames);
      EpochsOf(ctx, rest);
      var x, y := AcceptedOn(ctx, c), AcceptedInAll(ctx, rest);
      forall b | b in y ensures b.epoch != c.epoch {
        var d :| d in rest && d.epoch == b.epoch;
        var k :| 0 <= k < |rest| && rest[k] == d;
        assert connections[k + 1] == d;
      }
      JoinIncreasing(x, y, c.epoch);
    }
  }

  lemma JoinIncreasing(x: seq<Accept>, y: seq<Accept>, epoch: Text)
    requires Increasing(x) && Increasing(y)
    requires forall a :: a in x ==> a.epoch == epoch
    requires forall b :: b in y ==> b.epoch != epoch
    ensures Increasing(x + y)
  {
    var all := x + y;
    forall i, j | 0 <= i < j < |all| && all[i].epoch == all[j].epoch && all[i].writer == all[j].writer
      ensures all[i].sequence < all[j].sequence
    {
      assert i < |x| ==> all[i] in x;
      assert j >= |x| ==> all[j] in y;
    }
  }

  /** A sender of this session's input sealed exactly these bytes for exactly this epoch. */
  ghost predicate WasSealed(ctx: Context, sealed: set<Sealing>, a: Accept) {
    exists plain ::
      && NextSealing(SenderState(ctx.material, ctx.session, a.writer, a.sequence, true), INPUT, plain) in sealed
      && ctx.codec.decode(plain) == Some(Input(a.epoch, a.bytes))
  }

  /** None of the frames that are delivered, in whatever order and however often, is a forgery. */
  ghost predicate AllAuthentic(ctx: Context, sealed: set<Sealing>, frames: seq<seq<byte>>) {
    forall f :: f in frames ==> Authentic(ctx.aead, sealed, ctx.material, ctx.session, f, true)
  }

  lemma VerdictWasSealed(ctx: Context, sealed: set<Sealing>, r: Receiver, frame: seq<byte>)
    requires Authentic(ctx.aead, sealed, ctx.material, ctx.session, frame, true) && Verdict(ctx, r, frame).Ok?
    ensures WasSealed(ctx, sealed, Verdict(ctx, r, frame).value)
  {
    OpenedWasSealed(ctx.aead, sealed, ctx.material, ctx.session, frame, true);
    assert OpenFrame(ctx.aead, ctx.material, ctx.session, frame, true).value.0.kind == INPUT;
  }

  lemma {:induction false} AcceptedWasSealed(ctx: Context, sealed: set<Sealing>, r: Receiver, frames: seq<seq<byte>>)
    requires AllAuthentic(ctx, sealed, frames)
    ensures forall a :: a in Accepted(ctx, r, frames) ==> WasSealed(ctx, sealed, a)
    decreases |frames|
  {
    if |frames| > 0 {
      hide Verdict, WasSealed, Authentic;
      var v := Verdict(ctx, r, frames[0]);
      if v.Ok? { VerdictWasSealed(ctx, sealed, r, frames[0]); }
      AcceptedWasSealed(ctx, sealed, After(r, v), frames[1..]);
    }
  }

  /** Nothing is accepted, on any connection, that was not sealed for the epoch accepting it. */
  lemma {:induction false} OnlySealedInput(ctx: Context, sealed: set<Sealing>, connections: seq<Connection>)
    requires forall c :: c in connections ==> AllAuthentic(ctx, sealed, c.frames)
    ensures forall a :: a in AcceptedInAll(ctx, connections) ==> WasSealed(ctx, sealed, a)
    decreases |connections|
  {
    hide Accepted, WasSealed, AllAuthentic;
    if |connections| > 0 {
      AcceptedWasSealed(ctx, sealed, Receiver(connections[0].epoch, map[]), connections[0].frames);
      OnlySealedInput(ctx, sealed, connections[1..]);
    }
  }

  /** All that the senders of a run handed to the cipher. */
  function SealedIn(w: Nonces.World): set<Sealing> {
    set e | e in w.log :: e.sealing
  }

  /** Every frame an input sender of this session sealed at some step of a run may be delivered, at any
      time and any number of times: it is authentic. */
  lemma SealedFrameQualifies(ctx: Context, ops: seq<Nonces.Op>, i: nat)
    requires Correct(ctx.aead) && i < |ops| && ops[i].Seal? && ops[i].who < |Nonces.Run(ops[..i]).senders|
    requires var s := Nonces.Run(ops[..i]).senders[ops[i].who];
      s.material == ctx.material && s.session == ctx.session && s.input
    requires SealFrame(ctx.aead, Nonces.Run(ops[..i]).senders[ops[i].who], ops[i].kind, ops[i].plain).Ok?
    ensures var s := Nonces.Run(ops[..i]).senders[ops[i].who];
      var frame := SealFrame(ctx.aead, s, ops[i].kind, ops[i].plain).value;
      Authentic(ctx.aead, SealedIn(Nonces.Run(ops)), ctx.material, ctx.session, frame, true)
  {
    hide NextSealing, Authentic, Correct;
    var w, op := Nonces.Run(ops[..i]), ops[i];
    var s, log := w.senders[op.who], Nonces.Run(ops).log;
    Nonces.LogGrows(ops, i + 1);
    assert ops[..i + 1][..i] == ops[..i];
    var entry := Nonces.Entry(op.who, s.sequence, NextSealing(s, op.kind, op.plain));
    assert Nonces.Run(ops[..i + 1]).log == w.log + [entry];
    assert log[|w.log|] == entry;
    SealedIsAuthentic(ctx.aead, SealedIn(Nonces.Run(ops)), s, op.kind, op.plain);
  }

  lemma SealingIsUnique(ops: seq<Nonces.Op>, x: Sealing, y: Sealing)
    requires Nonces.FreshWriters(ops)
    requires x in SealedIn(Nonces.Run(ops)) && y in SealedIn(Nonces.Run(ops))
    requires x.key == y.key && x.nonce == y.nonce
    ensures x == y
  {
    hide Nonces.Run, Nonces.FreshWriters;
    var log := Nonces.Run(ops).log;
    var a :| 0 <= a < |log| && log[a].sealing == x;
    var b :| 0 <= b < |log| && log[b].sealing == y;
    if a < b { Nonces.NoncesUnique(ops, a, b); }
    if b < a { Nonces.NoncesUnique(ops, b, a); }
  }

  /** Senders and producer together: over all connections no (writer, sequence) is accepted twice, not
      even under different epochs, because the one sealing under that pair names one epoch. */
  lemma EachInputActsOnce(ctx: Context, ops: seq<Nonces.Op>, connections: seq<Connection>, i: nat, j: nat)
    requires Nonces.FreshWriters(ops) && FreshEpochs(connections)
    requires forall c :: c in connections ==> AllAuthentic(ctx, SealedIn(Nonces.Run(ops)), c.frames)
    requires i < j < |AcceptedInAll(ctx, connections)|
    ensures var a, b := AcceptedInAll(ctx, connections)[i], AcceptedInAll(ctx, connections)[j];
      a.writer != b.writer || a.sequence != b.sequence
  {
    hide AcceptedInAll, SealedIn, Nonces.Run, Nonces.FreshWriters, AllAuthentic, Nonce, Aad, PrintHeader, Derive,
        FreshEpochs;
    var all := AcceptedInAll(ctx, connections);
    var a, b := all[i], all[j];
    var sealed := SealedIn(Nonces.Run(ops));
    OnlySealedInput(ctx, sealed, connections);
    AtMostOnce(ctx, connections);
    assert a in all && b in all;
    assert WasSealed(ctx, sealed, a) && WasSealed(ctx, sealed, b);
    if a.writer == b.writer && a.sequence == b.sequence {
      var s := SenderState(ctx.material, ctx.session, a.writer, a.sequence, true);
      var p :| NextSealing(s, INPUT, p) in sealed && ctx.codec.decode(p) == Some(Input(a.epoch, a.bytes));
      var q :| NextSealing(s, INPUT, q) in sealed && ctx.codec.decode(q) == Some(Input(b.epoch, b.bytes));
      SealingIsUnique(ops, NextSealing(s, INPUT, p), NextSealing(s, INPUT, q));
    }
  }
}
