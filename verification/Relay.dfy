/** A session as the relay keeps it: bounded replay history, epoch fencing, input channel, broadcast. */
module Relay {
  import opened Bytes
  import opened Utf8
  import opened Sgr
  import opened Crypto
  import opened Terminal

  datatype Status = Live | Ended | Stale

  /** What the initial control says besides status and input permission. */
  datatype Details = Details(
    cols: nat, rows: nat, name: Text, cmd: Text, title: Option<Text>, cwd: Option<Text>, encryption: Option<nat>)

  /** "Encrypted session" */
  const PLACEHOLDER: Text := [0x45, 0x6e, 0x63, 0x72, 0x79, 0x70, 0x74, 0x65, 0x64, 0x20,
                              0x73, 0x65, 0x73, 0x73, 0x69, 0x6f, 0x6e]
  const ENCRYPTED_VERSION := 2

  /** The relay knows nothing about the terminal of an encrypted session, and nothing ever changes that. */
  const OPAQUE := Details(80, 24, PLACEHOLDER, [], None, None, Some(ENCRYPTED_VERSION))

  datatype Control =
    | Init(status: Status, input: bool, details: Details)
    | ReplayUnavailable
    | StatusIs(status: Status)
    | Exit(code: int)

  datatype Message = Data(chunk: seq<byte>) | Ctrl(control: Control)

  /** The sending half of the channel to one producer connection. */
  type Channel = nat

  /** What the mutex protects, and everything broadcast so far. */
  datatype State<V> = State(
    encrypted: bool,
    vt: Option<V>, carry: seq<byte>,
    replayReady: bool, history: seq<seq<byte>>, historyLen: nat, cap: nat,
    epoch: nat, status: Status, exitCode: Option<int>, allowInput: bool, input: Option<Channel>,
    sent: seq<Message>)

  function NewSession<V>(vt: Option<V>, allowInput: bool, cap: nat): State<V> {
    State(vt.None?, vt, [], false, [], 0, cap, 0, Live, None, allowInput, None, [])
  }

  function Total(chunks: seq<seq<byte>>): nat {
    if |chunks| == 0 then 0 else |chunks[0]| + Total(chunks[1..])
  }

  // Encrypted frames

  predicate KindIs(chunk: seq<byte>, kind: byte) {
    ParseHeader(chunk).Ok? && ParseHeader(chunk).value.kind == kind
  }

  /** A frame the session looks at: an output or snapshot of the current connection. */
  predicate Relevant<V>(s: State<V>, epoch: nat, chunk: seq<byte>) {
    (KindIs(chunk, SNAPSHOT) || KindIs(chunk, OUTPUT)) && s.encrypted && s.epoch == epoch
  }

  /** A snapshot needs room for itself, an output a history to go after and room behind it. */
  predicate Fits<V>(s: State<V>, chunk: seq<byte>) {
    if KindIs(chunk, SNAPSHOT) then |chunk| <= s.cap else s.replayReady && s.historyLen + |chunk| <= s.cap
  }

  predicate Accepts<V>(s: State<V>, epoch: nat, chunk: seq<byte>) {
    Relevant(s, epoch, chunk) && Fits(s, chunk)
  }

  function FedEncrypted<V>(s: State<V>, epoch: nat, chunk: seq<byte>): State<V> {
    if !Relevant(s, epoch, chunk) then s
    else if !Fits(s, chunk) then
      s.(history := [], historyLen := 0, replayReady := false, sent := s.sent + [Ctrl(ReplayUnavailable)])
    else
      var before := if KindIs(chunk, SNAPSHOT) then [] else s.history;
      var len := if KindIs(chunk, SNAPSHOT) then 0 else s.historyLen;
      s.(history := before + [chunk], historyLen := len + |chunk|, replayReady := true, sent := s.sent + [Data(chunk)])
  }

  // Plaintext output

  /** The eviction loop. */
  function Evict(history: seq<seq<byte>>, cap: nat): seq<seq<byte>>
    decreases |history|
  {
    if Total(history) > cap && |history| > 1 then Evict(history[1..], cap) else history
  }

  function FedPlain<V>(emu: Emulator<V>, s: State<V>, chunk: seq<byte>): State<V>
    requires s.encrypted || s.vt.Some?
  {
    if s.encrypted then s
    else
      var d := Write(emu, Display(s.vt.value, s.carry), chunk);
      var history := Evict(s.history + [chunk], s.cap);
      s.(vt := Some(d.vt), carry := d.carry, history := history, historyLen := Total(history),
         sent := s.sent + [Data(chunk)])
  }

  // Connections and input

  /** The locked part of a resume. */
  function Resumed<V>(s: State<V>, allowInput: bool): State<V> {
    s.(epoch := s.epoch + 1, allowInput := allowInput, input := None, status := Live, exitCode := None, carry := [])
  }

  /** The broadcast of a resume, after the lock has been given up. */
  function Announced<V>(s: State<V>): State<V> {
    s.(sent := s.sent + [Ctrl(StatusIs(Live))])
  }

  function Attached<V>(s: State<V>, epoch: nat, channel: Channel): State<V> {
    if s.epoch == epoch then s.(input := Some(channel)) else s
  }

  function Detached<V>(s: State<V>, epoch: nat): State<V> {
    if s.epoch == epoch then s.(input := None) else s
  }

  function Disconnected<V>(s: State<V>, epoch: nat): State<V> {
    if s.epoch != epoch || s.status != Live then s
    else s.(input := None, status := Stale, sent := s.sent + [Ctrl(StatusIs(Stale))])
  }

  function Exited<V>(s: State<V>, code: int): State<V> {
    s.(status := Ended, exitCode := Some(code), input := None, sent := s.sent + [Ctrl(Exit(code))])
  }

  /** Where viewer input goes, if anywhere. */
  function InputTarget<V>(s: State<V>): Option<Channel> {
    if s.allowInput && s.status == Live then s.input else None
  }

  /** What a joining viewer is sent first; broadcasts from `next` on follow. */
  datatype Join = Join(init: Control, banner: Option<Control>, payload: seq<seq<byte>>, next: nat)

  function Joined<V>(s: State<V>): Join
    requires s.encrypted
  {
    var banner := if s.replayReady then None else Some(ReplayUnavailable);
    Join(Init(s.status, s.allowInput, OPAQUE), banner, s.history, |s.sent|)
  }

  class Session<V(!new)> {
    const encrypted: bool
    const cap: nat
    var vt: Option<V>
    var carry: seq<byte>
    var replayReady: bool
    var history: seq<seq<byte>>
    var historyLen: nat
    var epoch: nat
    var status: Status
    var exitCode: Option<int>
    var allowInput: bool
    var input: Option<Channel>
    var sent: seq<Message>

    function Value(): State<V>
      reads this
    {
      State(encrypted, vt, carry, replayReady, history, historyLen, cap,
            epoch, status, exitCode, allowInput, input, sent)
    }

    constructor (vt: Option<V>, allowInput: bool, cap: nat)
      ensures Value() == NewSession(vt, allowInput, cap)
    {
      this.encrypted := vt.None?;
      this.cap := cap;
      this.vt := vt;
      this.allowInput := allowInput;
      carry, replayReady, history, historyLen := [], false, [], 0;
      epoch, status, exitCode, input, sent := 0, Live, None, None, [];
    }

    method FeedEncrypted(epoch: nat, chunk: seq<byte>) returns (accepted: bool)
      modifies this
      ensures accepted == Accepts(old(Value()), epoch, chunk)
      ensures Value() == FedEncrypted(old(Value()), epoch, chunk)
    {
      hide ParseHeader;
      var header := ParseHeader(chunk);
      if header.Err? { return false; }
      KindIsKnown(chunk);
      if header.value.kind == INPUT { return false; }
      if !encrypted || this.epoch != epoch { return false; }
      if header.value.kind == SNAPSHOT {
        history := [];
        historyLen := 0;
        replayReady := |chunk| <= cap;
      }
      if !replayReady || historyLen + |chunk| > cap {
        history := [];
        historyLen := 0;
        replayReady := false;
        sent := sent + [Ctrl(ReplayUnavailable)];
        return false;
      }
      historyLen := historyLen + |chunk|;
      history := history + [chunk];
      sent := sent + [Data(chunk)];
      return true;
    }

    method Feed(emu: Emulator<V>, chunk: seq<byte>)
      requires Streams(emu) && (encrypted || vt.Some?)
      requires !encrypted ==> historyLen == Total(history)
      modifies this
      ensures Value() == FedPlain(emu, old(Value()), chunk)
    {
      hide Streams, Decode;
      if encrypted { return; }
      var rest := carry + chunk;
      WriteSettles(emu, Display(vt.value, carry), chunk);
      var fed;
      fed, rest := DecodeInto(emu, vt.value, rest);
      vt := Some(fed);
      if |rest| > 8 {
        assert false;
        rest := [];
      }
      carry := rest;
      TotalSnoc(history, chunk);
      historyLen := historyLen + |chunk|;
      history := history + [chunk];
      ghost var pushed := Value();
      hide Write, Total;
      while historyLen > cap && |history| > 1
        invariant Value() == pushed.(history := history, historyLen := Total(history))
        invariant Evict(history, cap) == Evict(old(history) + [chunk], cap)
        decreases |history|
      {
        TotalCons(history);
        EvictStep(history, cap);
        var front := history[0];
        history := history[1..];
        historyLen := historyLen - |front|;
      }
      sent := sent + [Data(chunk)];
    }

    method JoinEncrypted() returns (join: Join)
      requires encrypted
      ensures join == Joined(Value())
    {
      var banner := None;
      if !replayReady { banner := Some(ReplayUnavailable); }
      join := Join(Init(status, allowInput, OPAQUE), banner, history, |sent|);
    }

    /** What `resume` does while it holds the lock. */
    method ResumeLocked(allowInput: bool)
      modifies this
      ensures Value() == Resumed(old(Value()), allowInput)
    {
      epoch := epoch + 1;
      this.allowInput := allowInput;
      input := None;
      status := Live;
      exitCode := None;
      carry := [];
    }

    method Announce()
      modifies this
      ensures Value() == Announced(old(Value()))
    {
      sent := sent + [Ctrl(StatusIs(Live))];
    }

    method Resume(allowInput: bool) returns (e: nat)
      modifies this
      ensures Value() == Announced(Resumed(old(Value()), allowInput)) && e == epoch
    {
      ResumeLocked(allowInput);
      e := epoch;
      Announce();
    }

    method AttachInput(epoch: nat, tx: Channel)
      modifies this
      ensures Value() == Attached(old(Value()), epoch, tx)
    {
      if this.epoch == epoch { input := Some(tx); }
    }

    method DetachInput(epoch: nat)
      modifies this
      ensures Value() == Detached(old(Value()), epoch)
    {
      if this.epoch == epoch { input := None; }
    }

    /** `listening` tells which receiving halves still exist; the result, where the bytes went. */
    method SendInput(bytes: seq<byte>, listening: set<Channel>) returns (delivered: Option<Channel>)
      ensures var target := InputTarget(Value());
        delivered == if target.Some? && target.value in listening then target else None
    {
      if !allowInput || status != Live { return None; }
      match input {
        case Some(tx) => delivered := if tx in listening then Some(tx) else None;
        case None => delivered := None;
      }
    }

    method MarkDisconnected(epoch: nat)
      modifies this
      ensures Value() == Disconnected(old(Value()), epoch)
    {
      if this.epoch != epoch || status != Live { return; }
      input := None;
      status := Stale;
      sent := sent + [Ctrl(StatusIs(Stale))];
    }

    method MarkExit(code: int)
      modifies this
      ensures Value() == Exited(old(Value()), code)
    {
      status := Ended;
      input := None;
      exitCode := Some(code);
      sent := sent + [Ctrl(Exit(code))];
    }
  }

  lemma KindIsKnown(chunk: seq<byte>)
    requires ParseHeader(chunk).Ok?
    ensures KnownKind(ParseHeader(chunk).value.kind)
  {
    hide U64From;
  }

  lemma TotalCons(chunks: seq<seq<byte>>)
    requires |chunks| > 0
    ensures Total(chunks) == |chunks[0]| + Total(chunks[1..])
  {}

  lemma EvictStep(history: seq<seq<byte>>, cap: nat)
    requires Total(history) > cap && |history| > 1
    ensures Evict(history, cap) == Evict(history[1..], cap)
  {
    hide Total;
  }

  lemma {:induction false} TotalSnoc(chunks: seq<seq<byte>>, last: seq<byte>)
    ensures Total(chunks + [last]) == Total(chunks) + |last|
    decreases |chunks|
  {
    if |chunks| == 0 {
      assert chunks + [last] == [last];
      assert [last][1..] == [];
    } else {
      assert (chunks + [last])[1..] == chunks[1..] + [last];
      TotalSnoc(chunks[1..], last);
    }
  }

  // Runs of the relay, driven by anyone

  datatype Op =
    | Feed(epoch: nat, chunk: seq<byte>)
    | Resume(allowInput: bool)
    | Announce
    | Attach(epoch: nat, channel: Channel)
    | Detach(epoch: nat)
    | Disconnect(epoch: nat)
    | MarkExit(code: int)

  function Next<V>(s: State<V>, op: Op): State<V> {
    match op
    case Feed(epoch, chunk) => FedEncrypted(s, epoch, chunk)
    case Resume(allowInput) => Resumed(s, allowInput)
    case Announce => Announced(s)
    case Attach(epoch, channel) => Attached(s, epoch, channel)
    case Detach(epoch) => Detached(s, epoch)
    case Disconnect(epoch) => Disconnected(s, epoch)
    case MarkExit(code) => Exited(s, code)
  }

  function Run<V>(s: State<V>, ops: seq<Op>): State<V>
    decreases |ops|
  {
    if |ops| == 0 then s else Next(Run(s, ops[..|ops| - 1]), ops[|ops| - 1])
  }

  // The history, whatever is sent

  /** The history is empty, or one snapshot followed by outputs; its length is counted right and within
      the cap. */
  ghost predicate HistoryInv<V>(s: State<V>) {
    && s.historyLen == Total(s.history) <= s.cap
    && (if s.replayReady then
          |s.history| > 0 && KindIs(s.history[0], SNAPSHOT)
          && forall i :: 0 < i < |s.history| ==> KindIs(s.history[i], OUTPUT)
        else s.history == [])
  }

  lemma NextKeepsHistory<V>(s: State<V>, op: Op)
    requires s.encrypted && HistoryInv(s)
    ensures HistoryInv(Next(s, op)) && Next(s, op).encrypted && Next(s, op).cap == s.cap
  {
    hide KindIs, Total;
    if op.Feed? && Accepts(s, op.epoch, op.chunk) {
      var before := if KindIs(op.chunk, SNAPSHOT) then [] else s.history;
      TotalSnoc(before, op.chunk);
      TotalNothing();
    } else {
      TotalNothing();
    }
  }

  lemma TotalNothing()
    ensures Total([]) == 0
  {}

  /** In every reachable state, for any frames under any epochs, hostile ones included. */
  lemma {:induction false} HistoryAlwaysSound<V>(allowInput: bool, cap: nat, ops: seq<Op>)
    ensures var s := Run(NewSession<V>(None, allowInput, cap), ops);
      HistoryInv(s) && s.encrypted && s.cap == cap
    decreases |ops|
  {
    if |ops| == 0 {
      TotalNothing();
    } else {
      hide HistoryInv, Next;
      HistoryAlwaysSound<V>(allowInput, cap, ops[..|ops| - 1]);
      NextKeepsHistory(Run(NewSession<V>(None, allowInput, cap), ops[..|ops| - 1]), ops[|ops| - 1]);
    }
  }

  /** In every reachable state a viewer that joins is sent a snapshot followed by outputs only, or is told
      that there is no replay, never both or neither, and never more than the cap. */
  lemma JoinIsComplete<V>(allowInput: bool, cap: nat, ops: seq<Op>)
    ensures Run(NewSession<V>(None, allowInput, cap), ops).encrypted
    ensures var j := Joined(Run(NewSession<V>(None, allowInput, cap), ops));
      && (j.payload == [] <==> j.banner == Some(ReplayUnavailable))
      && (j.payload != [] ==>
            j.banner.None? && KindIs(j.payload[0], SNAPSHOT)
            && forall i :: 0 < i < |j.payload| ==> KindIs(j.payload[i], OUTPUT))
      && Total(j.payload) <= cap
      && j.init.status == Standing(Live, 0, ops) && j.init.input == Permission(allowInput, ops)
      && (j.init.details.cols, j.init.details.rows) == (80, 24) && j.init.details.encryption == Some(2)
      && Spells(j.init.details.name, "Encrypted session") && j.init.details.title == j.init.details.cwd == None
  {
    hide KindIs, Total, Run, Standing, Permission;
    HistoryAlwaysSound<V>(allowInput, cap, ops);
    StandingExactly(NewSession<V>(None, allowInput, cap), ops);
  }

  // What is broadcast

  /** What an operation makes the session say. */
  function Says<V>(s: State<V>, op: Op): seq<Message> {
    match op
    case Feed(epoch, chunk) =>
      if !Relevant(s, epoch, chunk) then []
      else if Accepts(s, epoch, chunk) then [Data(chunk)]
      else [Ctrl(ReplayUnavailable)]
    case Announce => [Ctrl(StatusIs(Live))]
    case Disconnect(epoch) => if s.epoch == epoch && s.status == Live then [Ctrl(StatusIs(Stale))] else []
    case MarkExit(code) => [Ctrl(Exit(code))]
    case _ => []
  }

  function Said<V>(s: State<V>, ops: seq<Op>): seq<Message>
    decreases |ops|
  {
    if |ops| == 0 then []
    else
      var before := ops[..|ops| - 1];
      Said(s, before) + Says(Run(s, before), ops[|ops| - 1])
  }

  lemma NextSays<V>(s: State<V>, op: Op)
    ensures Next(s, op).sent == s.sent + Says(s, op)
  {
    hide KindIs;
  }

  /** In every run each accepted frame, each exit with its code, each loss and each announcement is
      broadcast, once and in order, a refused frame is reported as a missing replay, and nothing else is
      said. */
  lemma {:induction false} BroadcastExactly<V>(s: State<V>, ops: seq<Op>)
    ensures Run(s, ops).sent == s.sent + Said(s, ops)
    decreases |ops|
  {
    if |ops| > 0 {
      hide Next, Says;
      var before, op := ops[..|ops| - 1], ops[|ops| - 1];
      BroadcastExactly(s, before);
      NextSays(Run(s, before), op);
      AppendAssoc(s.sent, Said(s, before), Says(Run(s, before), op));
    } else {
      assert s.sent + [] == s.sent;
    }
  }

  /** What somebody who has heard all of a broadcast would replay: the frames since the latest snapshot,
      unless the replay has been called off since. */
  function Replayable(sent: seq<Message>): seq<seq<byte>>
    decreases |sent|
  {
    if |sent| == 0 then []
    else
      var before, last := Replayable(sent[..|sent| - 1]), sent[|sent| - 1];
      match last
      case Data(f) => if KindIs(f, SNAPSHOT) then [f] else before + [f]
      case Ctrl(control) => if control.ReplayUnavailable? then [] else before
  }

  ghost predicate HistoryFollows<V>(s: State<V>) {
    s.history == Replayable(s.sent) && (s.replayReady <==> s.history != [])
  }

  lemma NextFollows<V>(s: State<V>, op: Op)
    requires s.encrypted && HistoryFollows(s)
    ensures HistoryFollows(Next(s, op))
  {
    hide KindIs;
    NextSays(s, op);
    var n := Next(s, op);
    if |n.sent| > |s.sent| {
      assert n.sent[..|n.sent| - 1] == s.sent;
    } else {
      assert n.sent == s.sent;
    }
  }

  /** In every run a joining viewer is replayed exactly what those who listened all along would keep. */
  lemma {:induction false} HistoryFollowsBroadcast<V>(allowInput: bool, cap: nat, ops: seq<Op>)
    ensures var s := Run(NewSession<V>(None, allowInput, cap), ops); s.encrypted && HistoryFollows(s)
    decreases |ops|
  {
    HistoryAlwaysSound<V>(allowInput, cap, ops);
    if |ops| > 0 {
      hide HistoryFollows, Next, HistoryInv;
      HistoryFollowsBroadcast<V>(allowInput, cap, ops[..|ops| - 1]);
      NextFollows(Run(NewSession<V>(None, allowInput, cap), ops[..|ops| - 1]), ops[|ops| - 1]);
    }
  }

  // Standing

  /** How often a producer has resumed. */
  function Resumes(ops: seq<Op>): nat
    decreases |ops|
  {
    if |ops| == 0 then 0 else Resumes(ops[..|ops| - 1]) + (if ops[|ops| - 1].Resume? then 1 else 0)
  }

  /** Live from a resume on, ended from an exit on, and stale once the latest connection is lost while live. */
  function Standing(first: Status, epoch: nat, ops: seq<Op>): Status
    decreases |ops|
  {
    if |ops| == 0 then first
    else
      var before := Standing(first, epoch, ops[..|ops| - 1]);
      match ops[|ops| - 1]
      case Resume(_) => Live
      case MarkExit(_) => Ended
      case Disconnect(e) => if before == Live && e == epoch + Resumes(ops[..|ops| - 1]) then Stale else before
      case _ => before
  }

  /** The code of the latest exit, if no producer has resumed since. */
  function LastExit(first: Option<int>, ops: seq<Op>): Option<int>
    decreases |ops|
  {
    if |ops| == 0 then first
    else
      match ops[|ops| - 1]
      case MarkExit(code) => Some(code)
      case Resume(_) => None
      case _ => LastExit(first, ops[..|ops| - 1])
  }

  lemma NextStanding<V>(s: State<V>, op: Op)
    ensures var n := Next(s, op);
      && n.epoch == (if op.Resume? then s.epoch + 1 else s.epoch)
      && n.status == (match op
                      case Resume(_) => Live
                      case MarkExit(_) => Ended
                      case Disconnect(e) => if s.status == Live && e == s.epoch then Stale else s.status
                      case _ => s.status)
      && n.exitCode == (match op case MarkExit(code) => Some(code) case Resume(_) => None case _ => s.exitCode)
      && n.allowInput == (if op.Resume? then op.allowInput else s.allowInput)
  {
    hide KindIs;
  }

  /** Epoch, status, permission and exit code of a session in every run. */
  lemma {:induction false} StandingExactly<V>(s: State<V>, ops: seq<Op>)
    ensures var t := Run(s, ops);
      && t.epoch == s.epoch + Resumes(ops) && t.status == Standing(s.status, s.epoch, ops)
      && t.exitCode == LastExit(s.exitCode, ops) && t.allowInput == Permission(s.allowInput, ops)
    decreases |ops|
  {
    if |ops| > 0 {
      hide Next;
      StandingExactly(s, ops[..|ops| - 1]);
      NextStanding(Run(s, ops[..|ops| - 1]), ops[|ops| - 1]);
    }
  }

  // Epoch fencing

  /** The connection an operation is made for, where the session checks it. */
  function Claims(op: Op): Option<nat> {
    if op.Resume? || op.Announce? || op.MarkExit? then None else Some(op.epoch)
  }

  lemma StaleChangesNothing<V>(s: State<V>, op: Op)
    requires Claims(op).Some? && Claims(op).value != s.epoch
    ensures Next(s, op) == s
    ensures op.Feed? ==> !Accepts(s, op.epoch, op.chunk)
  {
    hide KindIs;
  }

  /** The operations of a run without those of connections before epoch `e`. */
  function Without(ops: seq<Op>, e: nat): seq<Op>
    decreases |ops|
  {
    if |ops| == 0 then []
    else
      var op := ops[|ops| - 1];
      Without(ops[..|ops| - 1], e) + (if Claims(op).Some? && Claims(op).value < e then [] else [op])
  }

  /** Exactly those of earlier connections are left out. */
  lemma {:induction false} WithoutExactly(ops: seq<Op>, e: nat)
    ensures forall op :: op in Without(ops, e) <==> op in ops && (Claims(op).Some? ==> Claims(op).value >= e)
    decreases |ops|
  {
    if |ops| > 0 {
      hide Claims;
      WithoutExactly(ops[..|ops| - 1], e);
      assert ops == ops[..|ops| - 1] + [ops[|ops| - 1]];
    }
  }

  lemma {:induction false} EpochsGrow<V>(s: State<V>, ops: seq<Op>)
    ensures s.epoch <= Run(s, ops).epoch
    decreases |ops|
  {
    if |ops| > 0 { EpochsGrow(s, ops[..|ops| - 1]); }
  }

  lemma RunSnoc<V>(s: State<V>, ops: seq<Op>, op: Op)
    ensures Run(s, ops + [op]) == Next(Run(s, ops), op)
  {
    hide Next;
    assert (ops + [op])[..|ops|] == ops;
  }

  /** In every interleaving, once the session is at epoch `e` everything that handlers of earlier
      connections still do might as well not happen: the run ends in the very same state without it. */
  lemma {:induction false} OldConnectionsAreFenced<V>(s: State<V>, ops: seq<Op>, e: nat)
    requires e <= s.epoch
    ensures Run(s, ops) == Run(s, Without(ops, e))
    decreases |ops|
  {
    if |ops| > 0 {
      hide Next, Claims;
      var before, op := ops[..|ops| - 1], ops[|ops| - 1];
      OldConnectionsAreFenced(s, before, e);
      EpochsGrow(s, before);
      if Claims(op).Some? && Claims(op).value < e {
        StaleChangesNothing(Run(s, before), op);
        assert Without(before, e) + [] == Without(before, e);
      } else {
        RunSnoc(s, Without(before, e), op);
      }
    }
  }

  /** `channel` was attached at step `i` of the run under the epoch the run ends in, and no producer has
      resumed since. */
  ghost predicate AttachedLast(ops: seq<Op>, i: nat, epoch: nat, channel: Channel) {
    i < |ops| && ops[i] == Attach(epoch, channel) && forall j :: i < j < |ops| ==> !ops[j].Resume?
  }

  lemma NextInput<V>(s: State<V>, op: Op)
    ensures var n := Next(s, op);
      n.input.Some? ==>
        n.epoch == s.epoch && !op.Resume? && (n.input == s.input || op == Attach(s.epoch, n.input.value))
  {
    hide KindIs;
  }

  lemma {:induction false} InputBelongsToCurrentEpoch<V>(s: State<V>, ops: seq<Op>)
    requires s.input.None?
    ensures Run(s, ops).input.Some? ==>
      exists i :: AttachedLast(ops, i, Run(s, ops).epoch, Run(s, ops).input.value)
    decreases |ops|
  {
    if |ops| > 0 {
      hide Next;
      var before, op := ops[..|ops| - 1], ops[|ops| - 1];
      InputBelongsToCurrentEpoch(s, before);
      var r, n := Run(s, before), Run(s, ops);
      NextInput(r, op);
      if n.input.Some? {
        if op == Attach(r.epoch, n.input.value) {
          assert AttachedLast(ops, |ops| - 1, n.epoch, n.input.value);
        } else {
          var i :| AttachedLast(before, i, r.epoch, r.input.value);
          assert AttachedLast(ops, i, n.epoch, n.input.value);
        }
      }
    }
  }

  /** What the latest producer connection allows. */
  function Permission(first: bool, ops: seq<Op>): bool
    decreases |ops|
  {
    if |ops| == 0 then first
    else if ops[|ops| - 1].Resume? then ops[|ops| - 1].allowInput
    else Permission(first, ops[..|ops| - 1])
  }

  lemma {:induction false} PermissionIsLatest<V>(s: State<V>, ops: seq<Op>)
    ensures Run(s, ops).allowInput == Permission(s.allowInput, ops)
    decreases |ops|
  {
    if |ops| > 0 {
      hide KindIs;
      PermissionIsLatest(s, ops[..|ops| - 1]);
    }
  }

  /** Viewer input reaches at most one channel, the one attached under the current epoch, and only
      while the session is live and its latest producer connection allows input. */
  lemma InputIsFenced<V>(allowInput: bool, cap: nat, ops: seq<Op>)
    ensures var s := Run(NewSession<V>(None, allowInput, cap), ops);
      InputTarget(s).Some? ==>
        && s.status == Live && Permission(allowInput, ops)
        && exists i :: AttachedLast(ops, i, s.epoch, InputTarget(s).value)
  {
    hide Run, Permission, AttachedLast;
    var s := NewSession<V>(None, allowInput, cap);
    InputBelongsToCurrentEpoch(s, ops);
    PermissionIsLatest(s, ops);
  }

  /** A producer that resumes and attaches its channel gets viewer input exactly if it allows input,
      until its connection detaches or is lost, or the exit is reported; operations of earlier
      connections in between change nothing. */
  lemma InputFlowsExactly<V>(s: State<V>, allowInput: bool, channel: Channel, late: seq<Op>)
    requires forall op :: op in late ==> Claims(op).Some? && Claims(op).value <= s.epoch
    ensures var e := s.epoch + 1;
      var live := Run(s, [Resume(allowInput), Attach(e, channel)] + late);
      && InputTarget(live) == (if allowInput then Some(channel) else None)
      && Next(live, Detach(e)).input.None? && Next(live, Disconnect(e)).input.None?
      && (forall code :: Next(live, MarkExit(code)).input.None?)
  {
    hide KindIs;
    var e := s.epoch + 1;
    var start := [Resume(allowInput), Attach(e, channel)];
    assert start == [Resume(allowInput)] + [Attach(e, channel)];
    assert [Resume(allowInput)] == [] + [Resume(allowInput)];
    RunSnoc(s, [], Resume(allowInput));
    RunSnoc(s, [Resume(allowInput)], Attach(e, channel));
    LateIsNothing(s, start, late);
  }

  lemma {:induction false} LateIsNothing<V>(s: State<V>, ops: seq<Op>, late: seq<Op>)
    requires forall op :: op in late ==> Claims(op).Some? && Claims(op).value < Run(s, ops).epoch
    ensures Run(s, ops + late) == Run(s, ops)
    decreases |late|
  {
    if |late| == 0 {
      assert ops + late == ops;
    } else {
      hide Run, Next, Claims;
      var before, op := late[..|late| - 1], late[|late| - 1];
      LateIsNothing(s, ops, before);
      assert ops + late == (ops + before) + [op];
      RunSnoc(s, ops + before, op);
      StaleChangesNothing(Run(s, ops), op);
    }
  }

  // The exit notice

  /** What viewers and their input depend on. */
  predicate SameStanding<V>(s: State<V>, t: State<V>) {
    s.status == t.status && InputTarget(s) == InputTarget(t)
  }

  predicate Resets(op: Op) { op.Resume? || op.MarkExit? }

  /** Epoch and permission agree, and either nothing sets the two apart any more, or the one session has
      been told of an exit and the other has not. */
  ghost predicate Apart<V>(s: State<V>, t: State<V>, reset: bool) {
    && s.epoch == t.epoch && s.allowInput == t.allowInput
    && (if reset then s.status == t.status && (s.status == Ended || s.input == t.input)
        else s.status == Ended && t.status != Ended)
  }

  lemma NextApart<V>(s: State<V>, t: State<V>, op: Op, reset: bool)
    requires Apart(s, t, reset)
    ensures Apart(Next(s, op), Next(t, op), reset || Resets(op))
  {
    hide KindIs;
  }

  lemma {:induction false} RunApart<V>(s: State<V>, t: State<V>, ops: seq<Op>, reset: bool)
    requires Apart(s, t, reset)
    ensures Apart(Run(s, ops), Run(t, ops), reset || exists i :: 0 <= i < |ops| && Resets(ops[i]))
    decreases |ops|
  {
    if |ops| > 0 {
      hide Next, Apart;
      var before, op := ops[..|ops| - 1], ops[|ops| - 1];
      var was := reset || exists i :: 0 <= i < |before| && Resets(before[i]);
      RunApart(s, t, before, reset);
      NextApart(Run(s, before), Run(t, before), op, was);
      if exists i :: 0 <= i < |before| && Resets(before[i]) {
        var i :| 0 <= i < |before| && Resets(before[i]);
        assert Resets(ops[i]);
      }
      if Resets(op) { assert Resets(ops[|ops| - 1]); }
    }
  }

  /** The session does not ask which connection reports an exit. Whoever reports one, at whatever moment,
      it makes no difference in the end to the status of the session and to viewer input, if and only if
      the session had ended anyway, or a resume or another report follows. */
  lemma ExitIsFencedExactly<V>(s: State<V>, code: int, ops: seq<Op>)
    ensures SameStanding(Run(Next(s, MarkExit(code)), ops), Run(s, ops))
            <==> s.status == Ended || exists i :: 0 <= i < |ops| && Resets(ops[i])
  {
    hide Run;
    RunApart(Next(s, MarkExit(code)), s, ops, s.status == Ended);
  }

  /** A producer has resumed and attached its input; the handler of its connection before is late with an
      exit notice. The live session ends and viewer input is cut. */
  lemma LateExitEndsLiveSession<V>(channel: Channel, code: int)
    ensures var live := Run(NewSession<V>(None, true, 0), [Resume(true), Attach(1, channel)]);
      && live.status == Live && InputTarget(live) == Some(channel)
      && Next(live, MarkExit(code)).status == Ended && InputTarget(Next(live, MarkExit(code))).None?
  {
    InputFlowsExactly(NewSession<V>(None, true, 0), true, channel, []);
    assert [Resume(true), Attach(1, channel)] + [] == [Resume(true), Attach(1, channel)];
  }

  // The plaintext ring

  function RunFeeds<V>(emu: Emulator<V>, s: State<V>, chunks: seq<seq<byte>>): State<V>
    requires s.vt.Some?
    ensures RunFeeds(emu, s, chunks).vt.Some?
    decreases |chunks|
  {
    if |chunks| == 0 then s else FedPlain(emu, RunFeeds(emu, s, chunks[..|chunks| - 1]), chunks[|chunks| - 1])
  }

  /** From any plaintext session, each chunk is broadcast, once and in order, and nothing else. */
  lemma {:induction false} FeedsAreBroadcast<V>(emu: Emulator<V>, s: State<V>, chunks: seq<seq<byte>>)
    requires !s.encrypted && s.vt.Some?
    ensures var t := RunFeeds(emu, s, chunks);
      && !t.encrypted && |t.sent| == |s.sent| + |chunks| && t.sent[..|s.sent|] == s.sent
      && forall i :: 0 <= i < |chunks| ==> t.sent[|s.sent| + i] == Data(chunks[i])
    decreases |chunks|
  {
    if |chunks| > 0 {
      hide FedPlain;
      var before, last := chunks[..|chunks| - 1], chunks[|chunks| - 1];
      FeedsAreBroadcast(emu, s, before);
      var r, t := RunFeeds(emu, s, before), RunFeeds(emu, s, chunks);
      FeedIsBroadcast(emu, r, last);
      hide RunFeeds;
      assert t.sent == r.sent + [Data(last)];
      forall i | 0 <= i < |chunks| ensures t.sent[|s.sent| + i] == Data(chunks[i]) {
        if i < |before| { assert r.sent[|s.sent| + i] == Data(before[i]); }
      }
    }
  }

  lemma FeedIsBroadcast<V>(emu: Emulator<V>, s: State<V>, chunk: seq<byte>)
    requires !s.encrypted && s.vt.Some?
    ensures var t := FedPlain(emu, s, chunk); !t.encrypted && t.vt.Some? && t.sent == s.sent + [Data(chunk)]
  {
    hide Write, Evict, Total;
  }

  /** After a resume the decoder starts anew: what the lost connection left of a character is forgotten, and
      all that follows is decoded as one stream. */
  lemma {:induction false} ResumeStartsClean<V(!new)>(emu: Emulator<V>, s: State<V>, allowInput: bool,
      chunks: seq<seq<byte>>)
    requires Streams(emu) && !s.encrypted && s.vt.Some?
    ensures var t := RunFeeds(emu, Resumed(s, allowInput), chunks);
      && !t.encrypted && t.carry == Decode(Concat(chunks)).carry
      && t.vt == Some(emu.feed(s.vt.value, Decode(Concat(chunks)).text))
    decreases |chunks|
  {
    if |chunks| == 0 {
      assert Concat(chunks) == [];
    } else {
      hide Total, Evict, Decode, Streams;
      var before, last := chunks[..|chunks| - 1], chunks[|chunks| - 1];
      assert chunks == before + [last];
      ResumeStartsClean(emu, s, allowInput, before);
      var t := RunFeeds(emu, Resumed(s, allowInput), before);
      ConcatSnoc(before, last);
      DecodeAppend(Concat(before), last);
      FeedMore(emu, s.vt.value, Decode(Concat(before)).text, Decode(t.carry + last).text);
    }
  }

  /** `history` is the longest suffix of `chunks` that fits, or the last chunk alone if that does not. */
  ghost predicate LongestSuffix(history: seq<seq<byte>>, chunks: seq<seq<byte>>, cap: nat) {
    exists k :: 0 <= k <= |chunks| && history == chunks[k..]
      && (Total(history) <= cap || k == |chunks| - 1)
      && (forall j :: 0 <= j < k ==> Total(chunks[j..]) > cap)
      && (|chunks| > 0 ==> k < |chunks|)
  }

  lemma {:induction false} EvictFinds(chunks: seq<seq<byte>>, k: nat, cap: nat)
    requires k < |chunks| && forall j :: 0 <= j < k ==> Total(chunks[j..]) > cap
    ensures LongestSuffix(Evict(chunks[k..], cap), chunks, cap)
    decreases |chunks| - k
  {
    hide Total;
    var h := chunks[k..];
    if Total(h) > cap && |h| > 1 {
      assert h[1..] == chunks[k + 1..];
      EvictFinds(chunks, k + 1, cap);
    } else {
      assert h == chunks[k..];
    }
  }

  lemma PushKeepsLongest(history: seq<seq<byte>>, chunks: seq<seq<byte>>, last: seq<byte>, cap: nat)
    requires LongestSuffix(history, chunks, cap)
    ensures LongestSuffix(Evict(history + [last], cap), chunks + [last], cap)
  {
    hide Total, Evict;
    var k :| 0 <= k <= |chunks| && history == chunks[k..]
      && (Total(history) <= cap || k == |chunks| - 1)
      && (forall j :: 0 <= j < k ==> Total(chunks[j..]) > cap)
      && (|chunks| > 0 ==> k < |chunks|);
    var all := chunks + [last];
    assert history + [last] == all[k..];
    forall j | 0 <= j < k ensures Total(all[j..]) > cap {
      assert all[j..] == chunks[j..] + [last];
      TotalSnoc(chunks[j..], last);
    }
    EvictFinds(all, k, cap);
  }

  /** After any sequence of feeds the ring holds the longest suffix that fits, its length is exact (so
      the eviction never underflows), and the screen has been fed everything. */
  lemma {:induction false} RingHoldsLongestSuffix<V(!new)>(emu: Emulator<V>, vt: V, allowInput: bool, cap: nat,
      chunks: seq<seq<byte>>)
    requires Streams(emu)
    ensures var s := RunFeeds(emu, NewSession(Some(vt), allowInput, cap), chunks);
      && !s.encrypted && s.cap == cap && s.historyLen == Total(s.history)
      && LongestSuffix(s.history, chunks, cap)
      && s.vt == Some(emu.feed(vt, Decode(Concat(chunks)).text)) && s.carry == Decode(Concat(chunks)).carry
    decreases |chunks|
  {
    var s0 := NewSession(Some(vt), allowInput, cap);
    if |chunks| == 0 {
      assert chunks[0..] == [];
      assert Concat(chunks) == [];
      TotalNothing();
    } else {
      hide Total, Evict, Decode, LongestSuffix, Streams;
      var before, last := chunks[..|chunks| - 1], chunks[|chunks| - 1];
      assert chunks == before + [last];
      RingHoldsLongestSuffix(emu, vt, allowInput, cap, before);
      var s := RunFeeds(emu, s0, before);
      PushKeepsLongest(s.history, before, last, cap);
      ConcatSnoc(before, last);
      DecodeAppend(Concat(before), last);
      FeedMore(emu, vt, Decode(Concat(before)).text, Decode(s.carry + last).text);
    }
  }
}
