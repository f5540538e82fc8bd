/** Nonce discipline over whole runs: every sender there ever was, reconnects included. */
module Nonces {
  import opened Bytes
  import opened Crypto

  /** What can happen to senders: one is created under a random writer id, one seals or is refused,
      or a viewer's counter is spent on an input that turns out too large. */
  datatype Op =
    | Start(material: seq<byte>, session: seq<byte>, input: bool, writer: Writer)
    | Seal(who: nat, kind: byte, plain: seq<byte>)
    | Spend(who: nat)

  datatype Entry = Entry(who: nat, number: u64, sealing: Sealing)
  datatype World = World(senders: seq<SenderState>, log: seq<Entry>)

  function Next(w: World, op: Op): World {
    match op
    case Start(material, session, input, writer) =>
      w.(senders := w.senders + [NewSender(material, session, input, writer)])
    case Seal(who, kind, plain) =>
      if who >= |w.senders| || Refusal(w.senders[who], kind, |plain|).Some? then w
      else
        var s := w.senders[who];
        var entry := Entry(who, s.sequence, NextSealing(s, kind, plain));
        World(w.senders[who := AfterSeal(s, kind, |plain|)], w.log + [entry])
    case Spend(who) =>
      if who >= |w.senders| || w.senders[who].sequence == U64_MAX then w
      else w.(senders := w.senders[who := w.senders[who].(sequence := w.senders[who].sequence + 1)])
  }

  function Run(ops: seq<Op>): World
    decreases |ops|
  {
    if |ops| == 0 then World([], []) else Next(Run(ops[..|ops| - 1]), ops[|ops| - 1])
  }

  /** All writer ids drawn in a run. */
  function Drawn(ops: seq<Op>): set<Writer>
    decreases |ops|
  {
    if |ops| == 0 then {}
    else
      var op := ops[|ops| - 1];
      Drawn(ops[..|ops| - 1]) + (if op.Start? then {op.writer} else {})
  }

  /** The randomness assumption: no writer id is drawn twice. */
  predicate FreshWriters(ops: seq<Op>)
    decreases |ops|
  {
    |ops| == 0 ||
    (var before, op := ops[..|ops| - 1], ops[|ops| - 1];
     FreshWriters(before) && (op.Start? ==> op.writer !in Drawn(before)))
  }

  ghost predicate DistinctWriters(w: World) {
    forall i, j :: 0 <= i < j < |w.senders| ==> w.senders[i].writer != w.senders[j].writer
  }

  /** Every entry was sealed by its sender under a number the sender has moved past. */
  ghost predicate Accounted(w: World) {
    forall e :: e in w.log ==>
      && e.who < |w.senders| && e.number < w.senders[e.who].sequence
      && e.sealing.key == w.senders[e.who].Key() && e.sealing.nonce == Nonce(e.number)
  }

  ghost predicate NumbersDistinct(w: World) {
    forall a, b :: 0 <= a < b < |w.log| ==> w.log[a].who != w.log[b].who || w.log[a].number != w.log[b].number
  }

  lemma NextAccounted(w: World, op: Op)
    requires Accounted(w) && NumbersDistinct(w)
    ensures Accounted(Next(w, op)) && NumbersDistinct(Next(w, op))
  {
    hide Nonce, Derive, PrintHeader, Aad;
    var n := Next(w, op);
    forall e | e in w.log ensures e.who < |n.senders| && e.number < n.senders[e.who].sequence
      && e.sealing.key == n.senders[e.who].Key() {}
    if op.Seal? && |n.log| > |w.log| {
      var s := w.senders[op.who];
      forall a | 0 <= a < |w.log| ensures w.log[a].who != op.who || w.log[a].number != s.sequence {
        assert w.log[a] in w.log;
      }
    }
  }

  lemma NextWriters(w: World, op: Op, drawn: set<Writer>)
    requires DistinctWriters(w) && (forall s :: s in w.senders ==> s.writer in drawn)
    requires op.Start? ==> op.writer !in drawn
    ensures DistinctWriters(Next(w, op))
    ensures forall s :: s in Next(w, op).senders ==> s.writer in drawn + (if op.Start? then {op.writer} else {})
  {
    hide Nonce, Derive, PrintHeader, Aad;
    var n := Next(w, op);
    forall i | 0 <= i < |n.senders| && i < |w.senders| ensures n.senders[i].writer == w.senders[i].writer {}
    forall i | 0 <= i < |w.senders| ensures w.senders[i].writer in drawn {
      assert w.senders[i] in w.senders;
    }
  }

  lemma {:induction false} RunInvariant(ops: seq<Op>)
    requires FreshWriters(ops)
    ensures Accounted(Run(ops)) && NumbersDistinct(Run(ops)) && DistinctWriters(Run(ops))
    ensures forall s :: s in Run(ops).senders ==> s.writer in Drawn(ops)
    decreases |ops|
  {
    if |ops| > 0 {
      hide Accounted, NumbersDistinct, DistinctWriters, Next;
      var before, op := ops[..|ops| - 1], ops[|ops| - 1];
      RunInvariant(before);
      NextAccounted(Run(before), op);
      NextWriters(Run(before), op, Drawn(before));
    }
  }

  /** No two sealings of a run, by whatever senders, share both key and nonce. */
  lemma NoncesUnique(ops: seq<Op>, a: nat, b: nat)
    requires FreshWriters(ops) && a < b < |Run(ops).log|
    ensures var x, y := Run(ops).log[a].sealing, Run(ops).log[b].sealing; x.key != y.key || x.nonce != y.nonce
  {
    hide Run, Next, Nonce, Info;
    RunInvariant(ops);
    var w := Run(ops);
    var x, y := w.log[a], w.log[b];
    assert x in w.log && y in w.log;
    if x.sealing.key == y.sealing.key && x.sealing.nonce == y.sealing.nonce {
      NonceInjective(x.number, y.number);
      var s, t := w.senders[x.who], w.senders[y.who];
      InfoInjective(s.writer, s.input, t.writer, t.input);
    }
  }

  /** At its end the counter refuses: nothing is sealed and nothing moves. */
  lemma CounterNeverWraps(w: World, who: nat, kind: byte, plain: seq<byte>)
    requires who < |w.senders| && w.senders[who].sequence == U64_MAX
    ensures Next(w, Seal(who, kind, plain)) == w && Next(w, Spend(who)) == w
    ensures Refusal(w.senders[who], kind, |plain|).Some?
  {}

  /** Counters only grow, by at most one, and exactly the sealed frames are logged. */
  lemma CounterSteps(w: World, op: Op, who: nat)
    requires who < |w.senders|
    ensures var n := Next(w, op);
      && who < |n.senders| && n.senders[who].Key() == w.senders[who].Key()
      && w.senders[who].sequence <= n.senders[who].sequence <= w.senders[who].sequence + 1
      && w.log <= n.log && |n.log| <= |w.log| + 1
      && (w.senders[who].sequence == U64_MAX ==> |n.log| == |w.log| || n.log[|w.log|].who != who)
  {
    hide Nonce, Derive, PrintHeader, Aad;
    if op.Seal? && op.who == who && w.senders[who].sequence == U64_MAX {
      CounterNeverWraps(w, who, op.kind, op.plain);
    }
  }

  /** Between two moments of a run senders keep their keys, counters never fall back, sealings are never
      forgotten, and a sender whose counter is spent seals nothing more: the counter fails, it never wraps. */
  lemma {:induction false} SpentSenderIsSilent(ops: seq<Op>, k: nat, who: nat)
    requires k <= |ops| && who < |Run(ops[..k]).senders|
    ensures var a, b := Run(ops[..k]), Run(ops);
      && who < |b.senders| && b.senders[who].Key() == a.senders[who].Key()
      && a.senders[who].sequence <= b.senders[who].sequence && a.log <= b.log
      && (a.senders[who].sequence == U64_MAX ==> forall i :: |a.log| <= i < |b.log| ==> b.log[i].who != who)
    decreases |ops|
  {
    if k == |ops| {
      assert ops[..k] == ops;
    } else {
      hide Next;
      var before, op := ops[..|ops| - 1], ops[|ops| - 1];
      assert before[..k] == ops[..k];
      SpentSenderIsSilent(before, k, who);
      CounterSteps(Run(before), op, who);
    }
  }

  lemma {:induction false} LogGrows(ops: seq<Op>, k: nat)
    requires k <= |ops|
    ensures Run(ops[..k]).log <= Run(ops).log
    decreases |ops|
  {
    if k == |ops| {
      assert ops[..k] == ops;
    } else {
      hide Nonce, Derive, PrintHeader, Aad;
      var before := ops[..|ops| - 1];
      assert before[..k] == ops[..k];
      LogGrows(before, k);
    }
  }
}
