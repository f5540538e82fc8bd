/** The producer: the host's own copy of the screen, and how one connection turns terminal events into
    numbered snapshot and output frames under a byte budget. */
module Producer {
  import opened Bytes
  import opened Utf8
  import opened Sgr
  import opened Crypto
  import opened Terminal
  import opened Proto

  const MAX_COLS := 1000
  const MAX_ROWS := 500

  function Clamp(n: nat, high: nat): nat
    requires high >= 1
  {
    if n < 1 then 1 else if n > high then high else n
  }

  // The screen

  datatype ScreenState<V> = ScreenState(
    vt: V, carry: seq<byte>, cols: nat, rows: nat, title: Option<Text>, cwd: Option<Text>, exit: Option<int>)
  {
    function Shown(): Display<V> { Display(vt, carry) }
  }

  datatype Event =
    | Printed(bytes: seq<byte>)
    | Resized(cols: nat, rows: nat)
    | Reported(title: Option<Text>, cwd: Option<Text>)
    | Ended(code: int)

  function Updated<V>(emu: Emulator<V>, s: ScreenState<V>, event: Event): ScreenState<V> {
    match event
    case Printed(bytes) =>
      var d := Write(emu, s.Shown(), bytes);
      s.(vt := d.vt, carry := d.carry)
    case Resized(cols, rows) =>
      var c, r := Clamp(cols, MAX_COLS), Clamp(rows, MAX_ROWS);
      s.(cols := c, rows := r, vt := emu.resize(s.vt, c, r))
    case Reported(title, cwd) =>
      s.(title := if title.Some? then title else s.title, cwd := if cwd.Some? then cwd else s.cwd)
    case Ended(code) => s.(exit := Some(code))
  }

  /** The emulator has the recorded size, the size is legal, and the carry is cut off, not complete. */
  ghost predicate ScreenOk<V>(emu: Emulator<V>, s: ScreenState<V>) {
    && emu.size(s.vt) == (s.cols, s.rows) && 1 <= s.cols <= MAX_COLS && 1 <= s.rows <= MAX_ROWS
    && Settled(s.carry)
  }

  lemma UpdatedOk<V(!new)>(emu: Emulator<V>, s: ScreenState<V>, event: Event)
    requires KeepsSizes(emu) && ScreenOk(emu, s)
    ensures ScreenOk(emu, Updated(emu, s, event))
  {
    hide Settled, Decode;
    if event.Printed? { WriteSettles(emu, s.Shown(), event.bytes); }
  }

  /** Terminal contents and size. */
  ghost predicate SameTerminal<V>(a: ScreenState<V>, b: ScreenState<V>) {
    a.Shown() == b.Shown() && a.cols == b.cols && a.rows == b.rows
  }

  function SnapshotOf<V>(env: Env<V>, s: ScreenState<V>, epoch: Text, checkpoint: bool): (p: Payload)
    ensures p.Snapshot?
  {
    Payload.Snapshot(s.cols, s.rows, env.name, env.cmd, s.title, s.cwd, env.input, epoch,
                     DumpText(env.emu, s.vt), s.carry, s.exit, checkpoint)
  }

  /** The screen after some events. */
  function Played<V>(emu: Emulator<V>, s: ScreenState<V>, events: seq<Event>): ScreenState<V>
    decreases |events|
  {
    if |events| == 0 then s else Updated(emu, Played(emu, s, events[..|events| - 1]), events[|events| - 1])
  }

  predicate Titles(e: Event) { e.Reported? && e.title.Some? }

  predicate Moves(e: Event) { e.Reported? && e.cwd.Some? }

  /** Title, directory, exit code and size are those of the latest event that set them. */
  lemma {:induction false} LatestWins<V>(emu: Emulator<V>, s: ScreenState<V>, events: seq<Event>, i: nat)
    requires i < |events|
    ensures var e, p := events[i], Played(emu, s, events);
      && (Titles(e) && (forall j :: i < j < |events| ==> !Titles(events[j])) ==> p.title == e.title)
      && (Moves(e) && (forall j :: i < j < |events| ==> !Moves(events[j])) ==> p.cwd == e.cwd)
      && (e.Ended? && (forall j :: i < j < |events| ==> !events[j].Ended?) ==> p.exit == Some(e.code))
      && (e.Resized? && (forall j :: i < j < |events| ==> !events[j].Resized?) ==>
            p.cols == Clamp(e.cols, MAX_COLS) && p.rows == Clamp(e.rows, MAX_ROWS))
    decreases |events|
  {
    hide Write, Clamp;
    var before, last := events[..|events| - 1], events[|events| - 1];
    if i < |before| {
      LatestWins(emu, s, before, i);
      assert before[i] == events[i] && forall j :: i < j < |before| ==> before[j] == events[j];
      OthersStay(emu, Played(emu, s, before), last);
    }
  }

  lemma OthersStay<V>(emu: Emulator<V>, s: ScreenState<V>, e: Event)
    ensures var n := Updated(emu, s, e);
      && (!Titles(e) ==> n.title == s.title) && (!Moves(e) ==> n.cwd == s.cwd) && (!e.Ended? ==> n.exit == s.exit)
      && (!e.Resized? ==> n.cols == s.cols && n.rows == s.rows)
  {
    hide Write, Clamp;
  }

  /** Output is a stream: two chunks in a row leave the screen that one chunk of both leaves. */
  lemma OutputIsStream<V(!new)>(emu: Emulator<V>, s: ScreenState<V>, a: seq<byte>, b: seq<byte>)
    requires Streams(emu)
    ensures Updated(emu, Updated(emu, s, Printed(a)), Printed(b)) == Updated(emu, s, Printed(a + b))
  {
    hide Write;
    WriteAppend(emu, s.Shown(), a, b);
  }

  function Distance(a: int, b: int): nat { if a < b then b - a else a - b }

  /** Clamping takes the nearest legal size. */
  lemma ClampIsNearest(n: nat, m: nat)
    ensures 1 <= Clamp(n, MAX_COLS) <= 1000 && 1 <= Clamp(n, MAX_ROWS) <= 500
    ensures 1 <= m <= 1000 ==> Distance(n, Clamp(n, MAX_COLS)) <= Distance(n, m)
    ensures 1 <= m <= 500 ==> Distance(n, Clamp(n, MAX_ROWS)) <= Distance(n, m)
  {}

  /** Only output and resizes touch the terminal; a legal resize is one of the emulator, and output is fed
      to it as decoded behind what was carried. */
  lemma TerminalFollows<V>(emu: Emulator<V>, s: ScreenState<V>, event: Event)
    ensures var n := Updated(emu, s, event);
      && (event.Reported? || event.Ended? ==> n.Shown() == s.Shown())
      && (event.Resized? && 1 <= event.cols <= 1000 && 1 <= event.rows <= 500 ==>
            n.Shown() == Display(emu.resize(s.vt, event.cols, event.rows), s.carry))
      && (event.Printed? ==>
            var d := Decode(s.carry + event.bytes); n.Shown() == Display(emu.feed(s.vt, d.text), d.carry))
  {
    hide Decode;
  }

  // Sealing

  function KindOf(payload: Payload): byte {
    match payload case Snapshot(_,_,_,_,_,_,_,_,_,_,_,_) => SNAPSHOT case Output(_) => OUTPUT case Input(_, _) => INPUT
  }

  function SealPayload<V>(env: Env<V>, sender: SenderState, payload: Payload): Result<seq<byte>, Error> {
    SealFrame(env.aead, sender, KindOf(payload), env.codec.encode(payload))
  }

  function SenderAfter<V>(env: Env<V>, sender: SenderState, payload: Payload): SenderState {
    AfterSeal(sender, KindOf(payload), |env.codec.encode(payload)|)
  }

  function SealedLen<V>(env: Env<V>, payload: Payload): nat {
    |env.codec.encode(payload)| + HEADER_LEN + TAG_LEN
  }

  // One connection

  datatype Phase =
    | Idle
    | Connecting
    | Streaming(budget: nat, historyLen: nat, dirty: bool, epoch: Text)
    | Finished
    | Failed

  datatype State<V> = State(screen: ScreenState<V>, sender: SenderState, phase: Phase)

  datatype Emission = Emission(frame: seq<byte>, payload: Payload)

  /** Seal a payload and stay on the connection with the given count, or give up for good. */
  function Emit<V>(env: Env<V>, p: State<V>, payload: Payload, phase: Phase): (State<V>, Option<Emission>)
    requires phase.Streaming?
  {
    var sealed := SealPayload(env, p.sender, payload);
    var sender := SenderAfter(env, p.sender, payload);
    if sealed.Err? || (payload.Snapshot? && |sealed.value| > phase.budget) then (State(p.screen, sender, Failed), None)
    else (State(p.screen, sender, phase), Some(Emission(sealed.value, payload)))
  }

  function EmitSnapshot<V>(env: Env<V>, p: State<V>, budget: nat, epoch: Text, checkpoint: bool): (State<V>,
      Option<Emission>) {
    var payload := SnapshotOf(env, p.screen, epoch, checkpoint);
    Emit(env, p, payload, Streaming(budget, SealedLen(env, payload), false, epoch))
  }

  function Min(a: nat, b: nat): nat { if a < b then a else b }

  /** The connection is up and the relay offers `historyBytes` of replay. */
  function Opened<V>(env: Env<V>, p: State<V>, historyBytes: nat, epoch: Text): (State<V>, Option<Emission>) {
    var budget := Min(historyBytes, MAX_ENCRYPTED_FRAME);
    if budget <= HEADER_LEN + TAG_LEN then (p.(phase := Failed), None)
    else EmitSnapshot(env, p, budget, epoch, false)
  }

  /** A terminal event, on a connection or off it. */
  function Happened<V>(env: Env<V>, p: State<V>, event: Event): (State<V>, Option<Emission>) {
    var q := p.(screen := Updated(env.emu, p.screen, event));
    if !p.phase.Streaming? then (q, None)
    else
      var link := p.phase;
      if event.Printed? then
        var payload := Payload.Output(event.bytes);
        var len := link.historyLen + SealedLen(env, payload);
        if len <= link.budget then Emit(env, q, payload, link.(historyLen := len, dirty := true))
        else EmitSnapshot(env, q, link.budget, link.epoch, false)
      else EmitSnapshot(env, q, link.budget, link.epoch, event.Reported? || event.Ended?)
  }

  /** The two-second timer, which only fires after output. */
  function Ticked<V>(env: Env<V>, p: State<V>): (State<V>, Option<Emission>) {
    if !(p.phase.Streaming? && p.phase.dirty) then (p, None)
    else EmitSnapshot(env, p, p.phase.budget, p.phase.epoch, true)
  }

  /** After the attempt to send a frame: a failed send ends the connection, an exit ends the sharing
      once its notice is out. */
  function Sent<V>(p: State<V>, sendOk: bool, noticeOk: bool): State<V> {
    if !sendOk then p.(phase := Idle)
    else if p.screen.exit.None? then p
    else if noticeOk then p.(phase := Finished)
    else p.(phase := Idle)
  }

  // What a turn sends

  /** The payload can be sealed, which takes 46 octets more, and fits `room` and the largest frame. */
  predicate CanSend<V>(env: Env<V>, sender: SenderState, payload: Payload, room: nat) {
    var len := |env.codec.encode(payload)| + 46;
    sender.sequence < U64_MAX && len <= room && len <= 0x80_0000
  }

  /** The turn sends `payload`, if it can, and counts it, or ends the sharing. */
  ghost predicate SendsOrFails<V>(env: Env<V>, p: State<V>, turn: (State<V>, Option<Emission>), payload: Payload,
      room: nat, counted: nat, dirty: bool, epoch: Text)
  {
    if CanSend(env, p.sender, payload, room) then
      && turn.1.Some? && turn.1.value.payload == payload
      && turn.0.sender == p.sender.(sequence := p.sender.sequence + 1)
      && turn.0.phase.Streaming? && turn.0.phase.dirty == dirty && turn.0.phase.epoch == epoch
      && turn.0.phase.historyLen == counted + |env.codec.encode(payload)| + 46
    else turn.1.None? && turn.0.phase == Failed
  }

  /** A connection that offers enough replay opens with the present screen, which is no checkpoint. */
  lemma OpeningExactly<V(!new)>(env: Env<V>, p: State<V>, historyBytes: nat, epoch: Text)
    requires Correct(env.aead) && !p.sender.input
    ensures var turn := Opened(env, p, historyBytes, epoch);
      && turn.0.screen == p.screen
      && (if historyBytes > 46 then
            && SendsOrFails(env, p, turn, SnapshotOf(env, p.screen, epoch, false), historyBytes, 0, false, epoch)
            && (turn.1.Some? ==> turn.0.phase.budget == if historyBytes < 0x80_0000 then historyBytes else 0x80_0000)
          else turn.1.None? && turn.0.phase == Failed)
  {
    hide SnapshotOf, SealFrame;
    SealsExactly(env, p.sender, SnapshotOf(env, p.screen, epoch, false));
  }

  /** On a connection every event sends exactly one frame, or ends the sharing because that cannot be sent:
      output as it is while it fits the budget, and otherwise the new screen, marked as a checkpoint after
      metadata and an exit. */
  lemma EventExactly<V(!new)>(env: Env<V>, p: State<V>, event: Event)
    requires Correct(env.aead) && !p.sender.input && p.phase.Streaming? && p.phase.budget <= MAX_ENCRYPTED_FRAME
    ensures var turn := Happened(env, p, event);
      var screen, link := Updated(env.emu, p.screen, event), p.phase;
      var snapshot := SnapshotOf(env, screen, link.epoch, event.Reported? || event.Ended?);
      && turn.0.screen == screen && (turn.1.Some? ==> turn.0.phase.budget == link.budget)
      && (if event.Printed?
             && link.historyLen + |env.codec.encode(Payload.Output(event.bytes))| + 46 <= link.budget then
            SendsOrFails(env, p, turn, Payload.Output(event.bytes), link.budget, link.historyLen, true, link.epoch)
          else
            SendsOrFails(env, p, turn, snapshot, link.budget, 0, false, link.epoch))
  {
    hide SnapshotOf, SealFrame, Updated;
    var screen := Updated(env.emu, p.screen, event);
    SealsExactly(env, p.sender, SnapshotOf(env, screen, p.phase.epoch, event.Reported? || event.Ended?));
    if event.Printed? { SealsExactly(env, p.sender, Payload.Output(event.bytes)); }
  }

  /** Off a connection nothing is sent, and events only change the screen. */
  lemma OfflineExactly<V>(env: Env<V>, p: State<V>, event: Event)
    requires !p.phase.Streaming?
    ensures Happened(env, p, event) == (p.(screen := Updated(env.emu, p.screen, event)), None)
    ensures Ticked(env, p) == (p, None)
  {
    hide Updated;
  }

  /** The timer sends the present screen as a checkpoint after output, and nothing otherwise. */
  lemma TickExactly<V(!new)>(env: Env<V>, p: State<V>)
    requires Correct(env.aead) && !p.sender.input && p.phase.Streaming?
    ensures var turn, link := Ticked(env, p), p.phase;
      && turn.0.screen == p.screen && (turn.1.Some? ==> turn.0.phase.budget == link.budget)
      && (if link.dirty then
            SendsOrFails(env, p, turn, SnapshotOf(env, p.screen, link.epoch, true), link.budget, 0, false, link.epoch)
          else turn == (p, None))
  {
    hide SnapshotOf, SealFrame;
    SealsExactly(env, p.sender, SnapshotOf(env, p.screen, p.phase.epoch, true));
  }

  lemma SealsExactly<V(!new)>(env: Env<V>, sender: SenderState, payload: Payload)
    requires Correct(env.aead) && !sender.input && !payload.Input?
    ensures var sealed, len := SealPayload(env, sender, payload), |env.codec.encode(payload)|;
      && (sealed.Ok? <==> sender.sequence < U64_MAX && len + 46 <= 0x80_0000)
      && (sealed.Ok? ==> |sealed.value| == len + 46)
      && (sealed.Ok? ==> SenderAfter(env, sender, payload) == sender.(sequence := sender.sequence + 1))
      && SealedLen(env, payload) == len + 46
  {
    hide PrintHeader, Nonce, Aad, Derive;
    SnapshotLen(env, sender, payload);
  }

  /** After a frame: a failed send ends the connection, to be tried again; an exit ends the sharing for good
      once its notice is out; otherwise the connection goes on. */
  lemma SendingExactly<V>(p: State<V>, sendOk: bool, noticeOk: bool)
    ensures var q := Sent(p, sendOk, noticeOk);
      && q == p.(phase := q.phase)
      && (q.phase == p.phase || q.phase == Idle || q.phase == Finished)
      && (sendOk && p.screen.exit.None? ==> q.phase == p.phase)
      && (sendOk && p.screen.exit.Some? ==> q.phase == if noticeOk then Finished else Idle)
      && (!sendOk ==> q.phase == Idle)
  {}

  class Screen<V(!new)> {
    var vt: V
    var carry: seq<byte>
    var cols: nat
    var rows: nat
    var title: Option<Text>
    var cwd: Option<Text>
    var exit: Option<int>

    function Value(): ScreenState<V>
      reads this
    {
      ScreenState(vt, carry, cols, rows, title, cwd, exit)
    }

    /** `blank` builds an empty emulator of a given size. */
    constructor (blank: (nat, nat) -> V, cols: nat, rows: nat, cwd: Option<Text>)
      ensures var c, r := Clamp(cols, MAX_COLS), Clamp(rows, MAX_ROWS);
        Value() == ScreenState(blank(c, r), [], c, r, None, cwd, None)
    {
      var c, r := Clamp(cols, MAX_COLS), Clamp(rows, MAX_ROWS);
      vt := blank(c, r);
      carry := [];
      this.cols, this.rows := c, r;
      title := None;
      this.cwd := cwd;
      exit := None;
    }

    method Update(emu: Emulator<V>, event: Event) returns (echo: Option<seq<byte>>)
      requires Streams(emu)
      modifies this
      ensures Value() == Updated(emu, old(Value()), event)
      ensures echo == if event.Printed? then Some(event.bytes) else None
    {
      hide Decode, Streams;
      match event {
        case Printed(bytes) =>
          carry := carry + bytes;
          var v, rest := DecodeInto(emu, vt, carry);
          vt, carry := v, rest;
          return Some(bytes);
        case Resized(c, r) =>
          cols, rows := Clamp(c, MAX_COLS), Clamp(r, MAX_ROWS);
          vt := emu.resize(vt, cols, rows);
          return None;
        case Reported(t, d) =>
          if t.Some? { title := t; }
          if d.Some? { cwd := d; }
          return None;
        case Ended(code) =>
          exit := Some(code);
          return None;
      }
    }

    method Snapshot(env: Env<V>, epoch: Text, sender: Sender, budget: nat, checkpoint: bool)
      returns (frame: Option<seq<byte>>)
      modifies sender
      ensures var payload := SnapshotOf(env, Value(), epoch, checkpoint);
        var sealed := SealPayload(env, old(sender.State()), payload);
        && sender.State() == SenderAfter(env, old(sender.State()), payload)
        && frame == if sealed.Ok? && |sealed.value| <= budget then Some(sealed.value) else None
    {
      hide SealFrame, Normalize;
      var text := NormalizeSgr(env.emu.dump(vt));
      var payload := Payload.Snapshot(cols, rows, env.name, env.cmd, title, cwd, env.input, epoch,
                                      RESET + text, carry, exit, checkpoint);
      assert payload == SnapshotOf(env, Value(), epoch, checkpoint);
      var sealed := sender.Seal(env.aead, SNAPSHOT, env.codec.encode(payload));
      frame := if sealed.Ok? && |sealed.value| <= budget then Some(sealed.value) else None;
    }
  }

  /** What `run` keeps from one connection to the next. */
  class Host {
    const material: seq<byte>
    var session: Option<seq<byte>>
    var sender: Sender?

    ghost predicate Valid()
      reads this
    {
      if session.None? then sender == null
      else sender != null && sender.material == material && sender.session == session.value && !sender.input
    }

    constructor (material: seq<byte>)
      ensures Valid() && this.material == material && session.None?
    {
      this.material := material;
      session := None;
      sender := null;
    }

    /** A connection is up. A resumed session keeps its sender, and with it the numbers already used; any
        other session gets a new one under the writer id drawn for it. */
    method Connected(ackSession: seq<byte>, historyBytes: Option<nat>, writer: Writer) returns (budget: Option<nat>)
      requires Valid()
      modifies this
      ensures Valid() && session == Some(ackSession) && sender != null
      ensures old(session) == Some(ackSession) ==> sender == old(sender)
      ensures old(session) != Some(ackSession) ==>
        fresh(sender) && sender.State() == NewSender(material, ackSession, false, writer)
      ensures historyBytes.None? || historyBytes.value <= 46 ==> budget == None
      ensures historyBytes.Some? && historyBytes.value > 46 ==>
        budget == Some(if historyBytes.value < 0x80_0000 then historyBytes.value else 0x80_0000)
    {
      if session != Some(ackSession) {
        sender := new Sender(material, ackSession, false, writer);
      }
      session := Some(ackSession);
      var offer := Min(if historyBytes.Some? then historyBytes.value else 0, MAX_ENCRYPTED_FRAME);
      budget := if offer > HEADER_LEN + TAG_LEN then Some(offer) else None;
    }
  }

  /** `pump`: the loop of one connection, one method per turn. */
  class Pump<V(!new)> {
    const env: Env<V>
    const screen: Screen<V>
    const sender: Sender
    const historyBytes: nat
    const budget: nat := Min(historyBytes, MAX_ENCRYPTED_FRAME)
    const epoch: Text
    var historyLen: nat
    var dirty: bool
    var failed: bool

    function Value(): State<V>
      reads this, screen, sender
    {
      State(screen.Value(), sender.State(), if failed then Failed else Streaming(budget, historyLen, dirty, epoch))
    }

    /** `&mut Screen` and `&mut Sender` are lent to the loop for as long as the connection lasts. */
    constructor (env: Env<V>, screen: Screen<V>, sender: Sender, historyBytes: nat, epoch: Text)
      ensures this.env == env && this.screen == screen && this.sender == sender
      ensures this.historyBytes == historyBytes && this.epoch == epoch
      ensures !failed && historyLen == 0 && !dirty
    {
      this.env, this.screen, this.sender, this.historyBytes, this.epoch := env, screen, sender, historyBytes, epoch;
      historyLen, dirty, failed := 0, false, false;
    }

    method Open() returns (frame: Option<seq<byte>>)
      requires Correct(env.aead) && !failed && historyLen == 0 && !dirty
      modifies this, sender
      ensures var turn := Opened(env, old(Value()), historyBytes, epoch);
        && Value() == turn.0 && (frame.Some? <==> turn.1.Some?) && (frame.Some? ==> frame.value == turn.1.value.frame)
    {
      hide SealFrame, SnapshotOf, Correct;
      if budget <= HEADER_LEN + TAG_LEN {
        failed := true;
        return None;
      }
      SnapshotLen(env, sender.State(), SnapshotOf(env, screen.Value(), epoch, false));
      frame := screen.Snapshot(env, epoch, sender, budget, false);
      if frame.None? { failed := true; } else { historyLen := |frame.value|; }
    }

    method OnTick() returns (frame: Option<seq<byte>>)
      requires Correct(env.aead) && !failed
      modifies this, sender
      ensures var turn := Ticked(env, old(Value()));
        && Value() == turn.0 && (frame.Some? <==> turn.1.Some?) && (frame.Some? ==> frame.value == turn.1.value.frame)
    {
      hide SealFrame, SnapshotOf, Correct;
      if !dirty { return None; }
      dirty := false;
      SnapshotLen(env, sender.State(), SnapshotOf(env, screen.Value(), epoch, true));
      frame := screen.Snapshot(env, epoch, sender, budget, true);
      if frame.None? { failed := true; } else { historyLen := |frame.value|; }
    }

    method OnEvent(event: Event) returns (frame: Option<seq<byte>>)
      requires Correct(env.aead) && Streams(env.emu) && !failed
      modifies this, screen, sender
      ensures var turn := Happened(env, old(Value()), event);
        && Value() == turn.0 && (frame.Some? <==> turn.1.Some?) && (frame.Some? ==> frame.value == turn.1.value.frame)
    {
      hide SealFrame, SnapshotOf, Correct, Updated, Streams;
      var checkpoint := event.Reported? || event.Ended?;
      var echo := screen.Update(env.emu, event);
      if echo.Some? {
        dirty := true;
        var plaintext := env.codec.encode(Payload.Output(echo.value));
        var frameLen := |plaintext| + HEADER_LEN + TAG_LEN;
        if historyLen + frameLen <= budget {
          historyLen := historyLen + frameLen;
          var sealed := sender.Seal(env.aead, OUTPUT, plaintext);
          if sealed.Err? { failed := true; return None; }
          return Some(sealed.value);
        }
        checkpoint := false;
      }
      dirty := false;
      SnapshotLen(env, sender.State(), SnapshotOf(env, screen.Value(), epoch, checkpoint));
      frame := screen.Snapshot(env, epoch, sender, budget, checkpoint);
      if frame.None? { failed := true; } else { historyLen := |frame.value|; }
    }
  }

  /** What the counter adds before sealing is what the frame then measures. */
  lemma SnapshotLen<V(!new)>(env: Env<V>, sender: SenderState, payload: Payload)
    requires Correct(env.aead)
    ensures var sealed := SealPayload(env, sender, payload); sealed.Ok? ==> |sealed.value| == SealedLen(env, payload)
  {
    hide PrintHeader, Nonce, Aad, Derive, ParseHeader, OpenFrame, SealFrame;
    if SealPayload(env, sender, payload).Ok? {
      SealedFrameOpens(env.aead, sender, KindOf(payload), env.codec.encode(payload));
    }
  }
}
