/** The relay's two socket handlers of an encrypted session: the one that reads a producer connection and
    the one that serves a viewer. */
module Handlers {
  import opened Bytes
  import opened Crypto
  import opened Relay

  // The producer's connection

  /** `Details` are the controls of plaintext sessions, `Noise` what the handler skips. */
  datatype Incoming = Frame(bytes: seq<byte>) | ExitNotice(code: int) | Details | Noise | Closing

  /** A message, what others do to the session before the handler looks at its epoch, and what they do
      between that look and the action: the lock is not held in between. */
  datatype Arrival = Arrival(before: seq<Op>, message: Incoming, between: seq<Op>)

  /** What one message does: to the session, whether the handler reads on, and whether it is the end of
      the sharing. */
  function Processed<V>(s: State<V>, epoch: nat, m: Incoming): (State<V>, bool, bool) {
    match m
    case Frame(bytes) => (FedEncrypted(s, epoch, bytes), Accepts(s, epoch, bytes), false)
    case ExitNotice(code) => (Exited(s, code), true, true)
    case Details => (s, false, false)
    case Noise => (s, true, false)
    case Closing => (s, false, false)
  }

  function Arrived<V>(s: State<V>, epoch: nat, a: Arrival): (State<V>, bool, bool) {
    var seen := Run(s, a.before);
    if seen.epoch != epoch then (seen, false, false) else Processed(Run(seen, a.between), epoch, a.message)
  }

  /** The session after all that the handler reads of `arrivals`, and whether an exit notice was among it. */
  function Pumped<V>(s: State<V>, epoch: nat, arrivals: seq<Arrival>, clean: bool): (State<V>, bool)
    decreases |arrivals|
  {
    if |arrivals| == 0 then (s, clean)
    else
      var t := Arrived(s, epoch, arrivals[0]);
      if t.1 then Pumped(t.0, epoch, arrivals[1..], clean || t.2) else (t.0, clean)
  }

  /** What the handler does when it has stopped reading. */
  function Ended<V>(s: State<V>, epoch: nat): State<V> {
    Disconnected(Detached(s, epoch), epoch)
  }

  /** Another handler at work. */
  method Act<V(!new)>(session: Session<V>, op: Op)
    requires session.encrypted
    modifies session
    ensures session.Value() == Next(old(session.Value()), op)
  {
    hide FedEncrypted;
    match op {
      case Feed(epoch, chunk) => var accepted := session.FeedEncrypted(epoch, chunk);
      case Resume(allowInput) => session.ResumeLocked(allowInput);
      case Announce => session.Announce();
      case Attach(epoch, channel) => session.AttachInput(epoch, channel);
      case Detach(epoch) => session.DetachInput(epoch);
      case Disconnect(epoch) => session.MarkDisconnected(epoch);
      case MarkExit(code) => session.MarkExit(code);
    }
  }

  method Meanwhile<V(!new)>(session: Session<V>, ops: seq<Op>)
    requires session.encrypted
    modifies session
    ensures session.Value() == Run(old(session.Value()), ops)
  {
    hide Next;
    for i := 0 to |ops|
      invariant session.Value() == Run(old(session.Value()), ops[..i])
    {
      assert ops[..i + 1] == ops[..i] + [ops[i]];
      RunSnoc(old(session.Value()), ops[..i], ops[i]);
      Act(session, ops[i]);
    }
    assert ops[..|ops|] == ops;
  }

  /** The loop of a handler, over whatever others do meanwhile. */
  method Pump<V(!new)>(session: Session<V>, epoch: nat, arrivals: seq<Arrival>) returns (clean: bool)
    requires session.encrypted
    modifies session
    ensures (session.Value(), clean) == Pumped(old(session.Value()), epoch, arrivals, false)
  {
    hide FedEncrypted, Accepts, Run;
    clean := false;
    var i := 0;
    while i < |arrivals|
      invariant 0 <= i <= |arrivals|
      invariant Pumped(session.Value(), epoch, arrivals[i..], clean)
                == Pumped(old(session.Value()), epoch, arrivals, false)
    {
      assert arrivals[i..][0] == arrivals[i] && arrivals[i..][1..] == arrivals[i + 1..];
      Meanwhile(session, arrivals[i].before);
      if session.epoch != epoch { break; }
      Meanwhile(session, arrivals[i].between);
      match arrivals[i].message {
        case Frame(bytes) =>
          var accepted := session.FeedEncrypted(epoch, bytes);
          if !accepted { break; }
        case ExitNotice(code) =>
          session.MarkExit(code);
          clean := true;
        case Details => break;
        case Noise =>
        case Closing => break;
      }
      i := i + 1;
    }
  }

  /** The session has ended, or a later connection has taken over. */
  predicate Over<V>(s: State<V>, epoch: nat) {
    epoch < s.epoch || (s.epoch == epoch && s.status == Status.Ended)
  }

  lemma {:induction false} StaysOver<V>(s: State<V>, epoch: nat, ops: seq<Op>)
    requires Over(s, epoch)
    ensures Over(Run(s, ops), epoch)
    decreases |ops|
  {
    if |ops| > 0 {
      hide KindIs;
      StaysOver(s, epoch, ops[..|ops| - 1]);
    }
  }

  lemma ArrivedOver<V>(s: State<V>, epoch: nat, a: Arrival)
    requires epoch <= s.epoch
    ensures var t := Arrived(s, epoch, a);
      && epoch <= t.0.epoch && (Over(s, epoch) || t.2 ==> Over(t.0, epoch))
  {
    hide KindIs, Run;
    EpochsGrow(s, a.before);
    EpochsGrow(Run(s, a.before), a.between);
    if Over(s, epoch) {
      StaysOver(s, epoch, a.before);
      StaysOver(Run(s, a.before), epoch, a.between);
    }
  }

  /** After an exit notice the session has ended, or a later connection has taken over, whatever others
      do; so it makes no difference that the handler then skips the mark. */
  lemma {:induction false} CleanMeansOver<V>(s: State<V>, epoch: nat, arrivals: seq<Arrival>, clean: bool)
    requires epoch <= s.epoch && (clean ==> Over(s, epoch))
    ensures var t := Pumped(s, epoch, arrivals, clean); t.1 ==> Over(t.0, epoch)
    decreases |arrivals|
  {
    hide Arrived, Over;
    if |arrivals| > 0 {
      var t := Arrived(s, epoch, arrivals[0]);
      ArrivedOver(s, epoch, arrivals[0]);
      if t.1 { CleanMeansOver(t.0, epoch, arrivals[1..], clean || t.2); }
    }
  }

  lemma OverNeedsNoMark<V>(s: State<V>, epoch: nat)
    requires Over(s, epoch)
    ensures Disconnected(s, epoch) == s
  {}

  /** The session when the handler of the connection made under `epoch` has returned. `late` is what others
      do before it detaches, `last` what they do between that and the mark. If the acknowledgement cannot be
      sent, the handler returns at once. */
  function Returned<V>(s: State<V>, epoch: nat, acked: bool, tx: Channel, arrivals: seq<Arrival>, late: seq<Op>,
      last: seq<Op>): State<V>
  {
    if !acked then s
    else
      var read := Pumped(Attached(s, epoch, tx), epoch, arrivals, false).0;
      Disconnected(Run(Detached(Run(read, late), epoch), last), epoch)
  }

  /** A whole connection of the producer, from its attachment to the session on. */
  method Handle<V(!new)>(session: Session<V>, epoch: nat, acked: bool, tx: Channel, arrivals: seq<Arrival>,
      late: seq<Op>, last: seq<Op>)
    requires session.encrypted && epoch <= session.epoch
    modifies session
    ensures session.Value() == Returned(old(session.Value()), epoch, acked, tx, arrivals, late, last)
  {
    if !acked { return; }
    hide Pumped, Run, Over, Disconnected;
    session.AttachInput(epoch, tx);
    CleanMeansOver(session.Value(), epoch, arrivals, false);
    var clean := Pump(session, epoch, arrivals);
    ghost var read := session.Value();
    Meanwhile(session, late);
    session.DetachInput(epoch);
    ghost var detached := session.Value();
    Meanwhile(session, last);
    if !clean {
      session.MarkDisconnected(epoch);
    } else {
      StaysOver(read, epoch, late);
      DetachedStaysOver(Run(read, late), epoch);
      StaysOver(detached, epoch, last);
      OverNeedsNoMark(session.Value(), epoch);
    }
  }

  lemma DetachedStaysOver<V>(s: State<V>, epoch: nat)
    requires Over(s, epoch)
    ensures Over(Detached(s, epoch), epoch)
  {}

  /** A handler whose producer has resumed elsewhere, before the handler looks or only before it acts,
      leaves the session to the others: its message changes nothing, unless it is an exit notice that
      slips in between the look and the action. */
  lemma LateHandlerIsFencedExactly<V>(s: State<V>, epoch: nat, a: Arrival)
    requires Run(Run(s, a.before), a.between).epoch > epoch
    ensures var seen := Run(s, a.before);
      if seen.epoch != epoch then Arrived(s, epoch, a) == (seen, false, false)
      else
        var others := Run(seen, a.between);
        Arrived(s, epoch, a).0 == (if a.message.ExitNotice? then Exited(others, a.message.code) else others)
  {
    hide KindIs, Run;
  }

  // Handlers as runs of the session

  /** The operation a message comes down to: under the handler's epoch, or an exit notice. */
  function Own(epoch: nat, m: Incoming): (ops: seq<Op>)
    ensures forall op :: op in ops ==> Claims(op) == Some(epoch) || op.MarkExit?
  {
    match m
    case Frame(bytes) => [Feed(epoch, bytes)]
    case ExitNotice(code) => [MarkExit(code)]
    case _ => []
  }

  /** All that happens to the session while a handler reads: what others do, and its own operations. */
  function Trace<V>(s: State<V>, epoch: nat, arrivals: seq<Arrival>): seq<Op>
    decreases |arrivals|
  {
    if |arrivals| == 0 then []
    else
      var a := arrivals[0];
      var t := Arrived(s, epoch, a);
      if Run(s, a.before).epoch != epoch then a.before
      else
        var here := a.before + a.between + Own(epoch, a.message);
        if t.1 then here + Trace(t.0, epoch, arrivals[1..]) else here
  }

  lemma {:induction false} RunAppend<V>(s: State<V>, a: seq<Op>, b: seq<Op>)
    ensures Run(s, a + b) == Run(Run(s, a), b)
    decreases |b|
  {
    hide Next;
    if |b| == 0 {
      assert a + b == a;
    } else {
      var before, op := b[..|b| - 1], b[|b| - 1];
      RunAppend(s, a, before);
      assert a + b == (a + before) + [op];
      RunSnoc(s, a + before, op);
    }
  }

  lemma OwnIsRun<V>(s: State<V>, epoch: nat, m: Incoming)
    ensures Processed(s, epoch, m).0 == Run(s, Own(epoch, m))
  {
    hide FedEncrypted;
    var own := Own(epoch, m);
    if |own| == 1 { assert own[..0] == []; }
  }

  lemma {:induction false} PumpIsRun<V>(s: State<V>, epoch: nat, arrivals: seq<Arrival>, clean: bool)
    ensures Pumped(s, epoch, arrivals, clean).0 == Run(s, Trace(s, epoch, arrivals))
    decreases |arrivals|
  {
    hide Processed, Own, Run;
    if |arrivals| == 0 {
      RunNothing(s);
    } else {
      var a, t := arrivals[0], Arrived(s, epoch, arrivals[0]);
      if Run(s, a.before).epoch == epoch {
        var own := Own(epoch, a.message);
        OwnIsRun(Run(Run(s, a.before), a.between), epoch, a.message);
        RunAppend(s, a.before, a.between);
        RunAppend(s, a.before + a.between, own);
        if t.1 {
          PumpIsRun(t.0, epoch, arrivals[1..], clean || t.2);
          RunAppend(s, a.before + a.between + own, Trace(t.0, epoch, arrivals[1..]));
        }
      }
    }
  }

  lemma RunNothing<V>(s: State<V>)
    ensures Run(s, []) == s
  {}

  /** A whole connection is a run of the session's operations, its own ones under its own epoch but for
      exit notices; so everything proved of runs holds whatever handlers do and however they interleave. */
  lemma HandleIsRun<V>(s: State<V>, epoch: nat, tx: Channel, arrivals: seq<Arrival>, late: seq<Op>, last: seq<Op>)
    ensures var start := Attached(s, epoch, tx);
      Returned(s, epoch, true, tx, arrivals, late, last)
      == Run(s, [Attach(epoch, tx)] + Trace(start, epoch, arrivals) + late
                + [Detach(epoch)] + last + [Disconnect(epoch)])
  {
    hide Pumped, Trace, Attached, Detached, Disconnected, Run;
    var start := Attached(s, epoch, tx);
    var ops := [Attach(epoch, tx)] + Trace(start, epoch, arrivals);
    RunNothing(s);
    RunSnoc(s, [], Attach(epoch, tx));
    assert [] + [Attach(epoch, tx)] == [Attach(epoch, tx)];
    PumpIsRun(start, epoch, arrivals, false);
    RunAppend(s, [Attach(epoch, tx)], Trace(start, epoch, arrivals));
    RunAppend(s, ops, late);
    RunSnoc(s, ops + late, Detach(epoch));
    RunAppend(s, ops + late + [Detach(epoch)], last);
    RunSnoc(s, ops + late + [Detach(epoch)] + last, Disconnect(epoch));
  }

  // How far a handler reads

  /** The handler, still of the latest connection when it looks, reads on behind frames the session takes,
      exit notices and noise. */
  predicate GoesOn<V>(s: State<V>, epoch: nat, a: Arrival) {
    && Run(s, a.before).epoch == epoch
    && (if a.message.Frame? then Accepts(Run(Run(s, a.before), a.between), epoch, a.message.bytes)
        else a.message.ExitNotice? || a.message.Noise?)
  }

  function Performed(epoch: nat, arrivals: seq<Arrival>): seq<Op> {
    if |arrivals| == 0 then []
    else arrivals[0].before + arrivals[0].between + Own(epoch, arrivals[0].message) + Performed(epoch, arrivals[1..])
  }

  ghost predicate ReadsAll<V>(s: State<V>, epoch: nat, arrivals: seq<Arrival>)
    decreases |arrivals|
  {
    |arrivals| > 0 ==>
      GoesOn(s, epoch, arrivals[0]) && ReadsAll(Run(s, Performed(epoch, arrivals[..1])), epoch, arrivals[1..])
  }

  ghost predicate HasExit(arrivals: seq<Arrival>) {
    exists i :: 0 <= i < |arrivals| && arrivals[i].message.ExitNotice?
  }

  lemma OneArrival<V>(s: State<V>, epoch: nat, a: Arrival)
    ensures Performed(epoch, [a]) == a.before + a.between + Own(epoch, a.message)
    ensures GoesOn(s, epoch, a) ==>
      Arrived(s, epoch, a) == (Run(s, Performed(epoch, [a])), true, a.message.ExitNotice?)
    ensures !GoesOn(s, epoch, a) ==>
      !Arrived(s, epoch, a).1
      && Arrived(s, epoch, a).0 == Run(s, if Run(s, a.before).epoch == epoch then Performed(epoch, [a]) else a.before)
  {
    hide Run, FedEncrypted, Accepts, Own;
    var own := Own(epoch, a.message);
    assert Performed(epoch, []) == [] && [a][1..] == [];
    assert a.before + a.between + own + [] == a.before + a.between + own;
    RunAppend(s, a.before, a.between);
    RunAppend(s, a.before + a.between, own);
    OwnIsRun(Run(Run(s, a.before), a.between), epoch, a.message);
  }

  /** A handler gets through all that lets it read on, doing what each message asks for amid what others do. */
  lemma {:induction false} HandlerReadsOn<V>(s: State<V>, epoch: nat, read: seq<Arrival>, rest: seq<Arrival>,
      clean: bool)
    requires ReadsAll(s, epoch, read)
    ensures Pumped(s, epoch, read + rest, clean)
      == Pumped(Run(s, Performed(epoch, read)), epoch, rest, clean || HasExit(read))
    decreases |read|
  {
    hide Run, Arrived, GoesOn, Own;
    if |read| == 0 {
      assert read + rest == rest;
      RunNothing(s);
    } else {
      var a, t := read[0], Run(s, Performed(epoch, read[..1]));
      assert read[..1] == [a] && (read + rest)[1..] == read[1..] + rest;
      OneArrival(s, epoch, a);
      HandlerReadsOn(t, epoch, read[1..], rest, clean || a.message.ExitNotice?);
      assert Performed(epoch, read) == Performed(epoch, [a]) + Performed(epoch, read[1..]);
      RunAppend(s, Performed(epoch, [a]), Performed(epoch, read[1..]));
      assert HasExit(read) <==> a.message.ExitNotice? || HasExit(read[1..]) by {
        if a.message.ExitNotice? { assert read[0].message.ExitNotice?; }
        if HasExit(read[1..]) {
          var i :| 0 <= i < |read[1..]| && read[1..][i].message.ExitNotice?;
          assert read[i + 1].message.ExitNotice?;
        }
        if i :| 0 < i < |read| && read[i].message.ExitNotice? { assert read[1..][i - 1].message.ExitNotice?; }
      }
    }
  }

  /** Behind any other message nothing more is read: not behind one that comes for an earlier connection,
      which is dropped, a frame that is refused, the controls of plaintext sessions and the end. */
  lemma HandlerStops<V>(s: State<V>, epoch: nat, a: Arrival, rest: seq<Arrival>, clean: bool)
    requires !GoesOn(s, epoch, a)
    ensures Pumped(s, epoch, [a] + rest, clean)
      == (Run(s, if Run(s, a.before).epoch == epoch then Performed(epoch, [a]) else a.before), clean)
  {
    hide Run, Arrived, GoesOn, Performed;
    OneArrival(s, epoch, a);
  }

  /** What viewers see of a message. */
  function Seen(m: Incoming): seq<Message> {
    if m.Frame? then [Data(m.bytes)] else if m.ExitNotice? then [Ctrl(Exit(m.code))] else []
  }

  function Relayed(messages: seq<Incoming>): seq<Message> {
    if |messages| == 0 then [] else Seen(messages[0]) + Relayed(messages[1..])
  }

  function Undisturbed(messages: seq<Incoming>): seq<Arrival> {
    seq(|messages|, i requires 0 <= i < |messages| => Arrival([], messages[i], []))
  }

  /** What a handler reads on behind while nobody else acts reaches the viewers, once each and in order. */
  lemma {:induction false} ReadingIsRelayed<V>(s: State<V>, epoch: nat, messages: seq<Incoming>)
    requires ReadsAll(s, epoch, Undisturbed(messages))
    ensures Pumped(s, epoch, Undisturbed(messages), false).0.sent == s.sent + Relayed(messages)
    ensures Pumped(s, epoch, Undisturbed(messages), false).1 <==>
      exists i :: 0 <= i < |messages| && messages[i].ExitNotice?
    decreases |messages|
  {
    hide KindIs, Own, ReadsAll, Pumped;
    var all := Undisturbed(messages);
    assert all + [] == all;
    HandlerReadsOn(s, epoch, all, [], false);
    PumpedNothing(Run(s, Performed(epoch, all)), epoch, HasExit(all));
    PerformedIsRelayed(s, epoch, messages);
    assert HasExit(all) <==> exists i :: 0 <= i < |messages| && messages[i].ExitNotice? by {
      if HasExit(all) {
        var i :| 0 <= i < |all| && all[i].message.ExitNotice?;
        assert messages[i].ExitNotice?;
      }
      if i :| 0 <= i < |messages| && messages[i].ExitNotice? { assert all[i].message.ExitNotice?; }
    }
  }

  lemma PumpedNothing<V>(s: State<V>, epoch: nat, clean: bool)
    ensures Pumped(s, epoch, [], clean) == (s, clean)
  {}

  lemma {:induction false} PerformedIsRelayed<V>(s: State<V>, epoch: nat, messages: seq<Incoming>)
    requires ReadsAll(s, epoch, Undisturbed(messages))
    ensures Run(s, Performed(epoch, Undisturbed(messages))).sent == s.sent + Relayed(messages)
    decreases |messages|
  {
    hide Run, Performed, ReadsAll, Seen, Undisturbed;
    if |messages| == 0 {
      PerformedNothing(epoch);
      RunNothing(s);
    } else {
      var t := ReadsFirst(s, epoch, messages);
      PerformedIsRelayed(t, epoch, messages[1..]);
      AppendAssoc(s.sent, Seen(messages[0]), Relayed(messages[1..]));
    }
  }

  lemma ReadsFirst<V>(s: State<V>, epoch: nat, messages: seq<Incoming>) returns (t: State<V>)
    requires |messages| > 0 && ReadsAll(s, epoch, Undisturbed(messages))
    ensures t.sent == s.sent + Seen(messages[0]) && ReadsAll(t, epoch, Undisturbed(messages[1..]))
    ensures Run(s, Performed(epoch, Undisturbed(messages))) == Run(t, Performed(epoch, Undisturbed(messages[1..])))
  {
    var all, a := Undisturbed(messages), Arrival([], messages[0], []);
    assert all[..1] == [a] && all[1..] == Undisturbed(messages[1..]);
    t := Run(s, Performed(epoch, [a]));
    hide Run, Arrived, GoesOn, Performed, Own, Undisturbed, Seen;
    OneArrival(s, epoch, a);
    OneIsRelayed(s, epoch, messages[0]);
    PerformedCons(epoch, all);
    RunAppend(s, Performed(epoch, [a]), Performed(epoch, all[1..]));
  }

  lemma PerformedNothing(epoch: nat)
    ensures Undisturbed([]) == [] && Performed(epoch, []) == []
  {}

  lemma PerformedCons(epoch: nat, arrivals: seq<Arrival>)
    requires |arrivals| > 0
    ensures Performed(epoch, arrivals) == Performed(epoch, [arrivals[0]]) + Performed(epoch, arrivals[1..])
  {
    assert Performed(epoch, []) == [] && [arrivals[0]][1..] == [];
  }

  lemma OneIsRelayed<V>(s: State<V>, epoch: nat, m: Incoming)
    requires GoesOn(s, epoch, Arrival([], m, []))
    ensures Arrived(s, epoch, Arrival([], m, [])).0.sent
      == s.sent + Seen(m)
  {
    hide KindIs;
    RunNothing(s);
  }

  // Sessions nobody serves

  /** Connection `epoch` no longer keeps the session live. */
  predicate Left<V>(s: State<V>, epoch: nat) {
    epoch < s.epoch || (s.epoch == epoch && s.status != Live)
  }

  lemma {:induction false} StaysLeft<V>(s: State<V>, epoch: nat, ops: seq<Op>)
    requires Left(s, epoch)
    ensures Left(Run(s, ops), epoch)
    decreases |ops|
  {
    if |ops| > 0 {
      hide KindIs;
      StaysLeft(s, epoch, ops[..|ops| - 1]);
    }
  }

  /** Whatever went before and whatever follows, once a handler has marked its connection as lost the
      session is not live again but by a later resume. */
  lemma LostStaysLost<V>(s: State<V>, epoch: nat, before: seq<Op>, rest: seq<Op>)
    requires epoch <= Run(s, before).epoch
    ensures Left(Run(s, before + [Disconnect(epoch)] + rest), epoch)
  {
    hide Run;
    RunSnoc(s, before, Disconnect(epoch));
    RunAppend(s, before + [Disconnect(epoch)], rest);
    StaysLeft(Run(s, before + [Disconnect(epoch)]), epoch, rest);
  }

  /** A live session whose latest connection has returned stays live, with nobody serving it, whatever
      connections before it still do, if and only if that connection could not be acknowledged. */
  lemma LeftLiveExactly<V>(s: State<V>, acked: bool, tx: Channel, arrivals: seq<Arrival>, late: seq<Op>, last: seq<Op>,
      rest: seq<Op>)
    requires s.status == Live && forall op :: op in rest ==> Claims(op).Some? && Claims(op).value < s.epoch
    ensures var t := Run(Returned(s, s.epoch, acked, tx, arrivals, late, last), rest);
      !Left(t, s.epoch) <==> !acked
    ensures !acked ==> Run(Returned(s, s.epoch, acked, tx, arrivals, late, last), rest) == s
  {
    hide Run, Pumped, Trace, Own;
    if acked {
      var ops := [Attach(s.epoch, tx)] + Trace(Attached(s, s.epoch, tx), s.epoch, arrivals) + late
        + [Detach(s.epoch)] + last;
      HandleIsRun(s, s.epoch, tx, arrivals, late, last);
      EpochsGrow(s, ops);
      RunSnoc(s, ops, Disconnect(s.epoch));
      StaysLeft(Run(s, ops + [Disconnect(s.epoch)]), s.epoch, rest);
    } else {
      RunNothing(s);
      LateIsNothing(s, [], rest);
      assert [] + rest == rest;
    }
  }

  /** A producer resumes, but the acknowledgement of its connection cannot be sent: the session is live
      although no handler serves it, and only live sessions are kept without a deadline. */
  lemma UnacknowledgedStaysLive<V>(tx: Channel)
    ensures var s := Next(NewSession<V>(None, true, 0), Resume(true));
      Returned(s, 1, false, tx, [], [], []).status == Live && s.epoch == 1 && s.input.None?
  {}

  // A viewer's connection

  const BROADCAST_CAPACITY := 2048

  function DataOf(frames: seq<seq<byte>>): seq<Message> {
    if |frames| == 0 then [] else [Data(frames[0])] + DataOf(frames[1..])
  }

  /** Join banner and payload, in the order they are sent. */
  function Payloads(j: Join): seq<Message> {
    (if j.banner.Some? then [Ctrl(j.banner.value)] else []) + DataOf(j.payload)
  }

  /** One turn of a viewer whose place in the broadcast is `next`: what it is sent and its new place. It
      is the next broadcast or, for one that has fallen too far behind, a new join. */
  function Served<V>(s: State<V>, next: nat): (seq<Message>, nat)
    requires s.encrypted
  {
    if next >= |s.sent| then ([], next)
    else if |s.sent| - next > BROADCAST_CAPACITY then
      var j := Joined(s);
      ([Ctrl(StatusIs(s.status))] + Payloads(j), j.next)
    else ([s.sent[next]], next + 1)
  }

  lemma {:induction false} DataSnoc(frames: seq<seq<byte>>, last: seq<byte>)
    ensures DataOf(frames + [last]) == DataOf(frames) + [Data(last)]
    decreases |frames|
  {
    if |frames| == 0 {
      assert frames + [last] == [last];
    } else {
      assert (frames + [last])[1..] == frames[1..] + [last];
      DataSnoc(frames[1..], last);
    }
  }

  lemma {:induction false} DataExactly(frames: seq<seq<byte>>)
    ensures |DataOf(frames)| == |frames| && forall i :: 0 <= i < |frames| ==> DataOf(frames)[i] == Data(frames[i])
    decreases |frames|
  {
    if |frames| > 0 { DataExactly(frames[1..]); }
  }

  /** Banner or nothing, then the history. */
  lemma PayloadsExactly<V>(s: State<V>)
    requires s.encrypted
    ensures var all, n := Payloads(Joined(s)), if s.replayReady then 0 else 1;
      && |all| == n + |s.history| && (n == 1 ==> all[0] == Ctrl(ReplayUnavailable))
      && forall i :: 0 <= i < |s.history| ==> all[n + i] == Data(s.history[i])
  {
    hide DataOf;
    DataExactly(s.history);
  }

  /** What a viewer is sent by `turns` turns while the session does not change, and its place then. */
  function ServedTimes<V>(s: State<V>, next: nat, turns: nat): (seq<Message>, nat)
    requires s.encrypted
    decreases turns
  {
    if turns == 0 then ([], next)
    else
      var before := ServedTimes(s, next, turns - 1);
      var now := Served(s, before.1);
      (before.0 + now.0, now.1)
  }

  /** A viewer that is at most 2048 broadcasts behind is sent each of them, once and in order, and then
      waits. */
  lemma {:induction false} KeepsUp<V>(s: State<V>, next: nat, turns: nat)
    requires s.encrypted && next <= |s.sent| <= next + 2048
    ensures var n := if next + turns <= |s.sent| then next + turns else |s.sent|;
      ServedTimes(s, next, turns) == (s.sent[next..n], n)
    decreases turns
  {
    hide Joined, Payloads;
    if turns > 0 {
      var n := if next + turns - 1 <= |s.sent| then next + turns - 1 else |s.sent|;
      KeepsUp(s, next, turns - 1);
      assert ServedTimes(s, next, turns) == (s.sent[next..n] + Served(s, n).0, Served(s, n).1);
      if n < |s.sent| {
        assert s.sent[next..n] + [s.sent[n]] == s.sent[next..n + 1];
      } else {
        assert s.sent[next..n] + [] == s.sent[next..n];
      }
    } else {
      assert s.sent[next..next] == [];
    }
  }

  /** One that is further behind is not sent the broadcasts it missed but the status, whether there is a
      replay, and all of the replay; then it is up to date. */
  lemma LagExactly<V>(s: State<V>, next: nat)
    requires s.encrypted && next + 2048 < |s.sent|
    ensures var turn, n := Served(s, next), if s.replayReady then 1 else 2;
      && turn.1 == |s.sent| && |turn.0| == n + |s.history|
      && turn.0[0] == Ctrl(StatusIs(s.status)) && (n == 2 ==> turn.0[1] == Ctrl(ReplayUnavailable))
      && forall i :: 0 <= i < |s.history| ==> turn.0[n + i] == Data(s.history[i])
  {
    hide Payloads;
    PayloadsExactly(s);
    var turn, all, n := Served(s, next), Payloads(Joined(s)), if s.replayReady then 1 else 2;
    assert turn.0 == [Ctrl(StatusIs(s.status))] + all;
    forall i | 0 <= i < |s.history| ensures turn.0[n + i] == Data(s.history[i]) {
      assert turn.0[n + i] == all[n - 1 + i];
    }
  }

  /** `sink` is all that was sent to the viewer after the initial control. */
  class Watcher<V(!new)> {
    const session: Session<V>
    var sink: seq<Message>
    var rx: nat

    constructor (session: Session<V>)
      requires session.encrypted
      ensures this.session == session
      ensures sink == Payloads(Joined(session.Value())) && rx == |session.sent|
    {
      this.session := session;
      sink := [];
      rx := 0;
      new;
      var join := session.JoinEncrypted();
      rx := join.next;
      if join.banner.Some? { sink := sink + [Ctrl(join.banner.value)]; }
      SendAll(join.payload);
    }

    method SendAll(payload: seq<seq<byte>>)
      modifies `sink
      ensures sink == old(sink) + DataOf(payload)
    {
      var i := 0;
      while i < |payload|
        invariant 0 <= i <= |payload|
        invariant sink == old(sink) + DataOf(payload[..i])
      {
        assert payload[..i + 1] == payload[..i] + [payload[i]];
        DataSnoc(payload[..i], payload[i]);
        sink := sink + [Data(payload[i])];
        i := i + 1;
      }
      assert payload[..i] == payload;
    }

    method Turn()
      requires session.encrypted
      modifies this
      ensures sink == old(sink) + Served(session.Value(), old(rx)).0 && rx == Served(session.Value(), old(rx)).1
    {
      if rx >= |session.sent| { return; }
      if |session.sent| - rx > BROADCAST_CAPACITY {
        var join := session.JoinEncrypted();
        rx := join.next;
        sink := sink + [Ctrl(StatusIs(join.init.status))];
        if join.banner.Some? { sink := sink + [Ctrl(join.banner.value)]; }
        SendAll(join.payload);
      } else {
        sink := sink + [session.sent[rx]];
        rx := rx + 1;
      }
    }
  }
}
