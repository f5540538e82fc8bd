/** Producer, relay and viewers of one encrypted session as a single step system. */
module Replay {
  import opened Bytes
  import opened Utf8
  import opened Sgr
  import opened Crypto
  import opened Terminal
  import opened Proto
  import P = Producer
  import R = Relay
  import H = Handlers
  import W = Viewer

  // The system

  /** A frame as it was sealed: its payload, the producer's screen at that moment, and whether it was
      the first of its connection. The log of these is history, no party reads it. */
  datatype Record<V> = Record(frame: seq<byte>, payload: Payload, screen: P.ScreenState<V>, opening: bool)

  /** What the producer has sent on the current connection and the relay has not read yet. */
  datatype Link = Link(frames: seq<seq<byte>>, exitNotice: bool)

  /** A viewer: its page, what is on its socket, and its place in the broadcast. */
  datatype Viewer<V> = Viewer(page: W.Page<V>, wire: seq<R.Message>, next: nat)

  /** `base` is where the log stood when the current connection was made, `from` the next log entry its
      handler reads, `snap` and `acc` delimit what the relay has accepted since the latest snapshot. */
  datatype Sys<V> = Sys(
    producer: P.State<V>, relay: R.State<V>, link: Option<Link>, viewers: map<nat, Viewer<V>>,
    log: seq<Record<V>>, base: nat, from: nat, snap: nat, acc: nat)

  /** The fate of a frame: whether sending seems to work, whether it reaches the relay even if not, and
      the same for the exit notice after it. */
  datatype Send = Send(ok: bool, arrives: bool, noticeOk: bool, noticeArrives: bool)

  /** What can happen next, in any order. */
  datatype Step<V> =
    | Happen(event: P.Event, send: Send)
    | Tick(send: Send)
    // The producer reconnects, drops its connection or attempt, starts streaming, or stops for good.
    | Connect(allowInput: bool)
    | Lose
    | Begin(raw: seq<byte>, send: Send)
    | Stop
    // The relay's handler of the current connection reads a message, attaches the input channel, ends.
    | Deliver
    | AttachInput(channel: R.Channel)
    | Close
    // A handler of another connection acts.
    | Stale(op: R.Op)
    // Viewers come and go, are sent the next thing, and show it.
    | Join(id: nat, page: W.Page<V>)
    | Leave(id: nat)
    | Forward(id: nat)
    | Show(id: nat)

  /** A connection has been made for a new session, of which nobody has seen anything. */
  function Init<V>(env: Env<V>, screen: P.ScreenState<V>, writer: Writer, allowInput: bool, cap: nat): Sys<V> {
    Sys(P.State(screen, NewSender(env.material, env.session, false, writer), P.Connecting),
        R.NewSession(None, allowInput, cap), Some(Link([], false)), map[], [], 0, 0, 0, 0)
  }

  function Dispatched<V>(s: Sys<V>, turn: (P.State<V>, Option<P.Emission>), send: Send, opening: bool): Sys<V> {
    if turn.1.None? then s.(producer := turn.0)
    else
      var e := turn.1.value;
      var notice := send.ok && turn.0.screen.exit.Some? && (send.noticeOk || send.noticeArrives);
      s.(producer := P.Sent(turn.0, send.ok, send.noticeOk),
         link := if s.link.Some? && (send.ok || send.arrives)
                 then Some(Link(s.link.value.frames + [e.frame], s.link.value.exitNotice || notice)) else s.link,
         log := s.log + [Record(e.frame, e.payload, turn.0.screen, opening)])
  }

  /** The producer resumes its session: the relay moves to a new epoch, what was under way on the old
      connection can only arrive stale. */
  function Connected<V>(s: Sys<V>, allowInput: bool): Sys<V> {
    s.(producer := s.producer.(phase := P.Connecting), relay := R.Resumed(s.relay, allowInput),
       link := Some(Link([], false)), base := |s.log|, from := |s.log|)
  }

  /** The handler reads one message. A refused frame ends the connection. */
  function Delivered<V>(s: Sys<V>): Sys<V>
    requires s.link.Some?
  {
    var l := s.link.value;
    if |l.frames| > 0 then
      var f := l.frames[0];
      var t := H.Processed(s.relay, s.relay.epoch, H.Frame(f));
      var read := s.(relay := t.0, from := s.from + 1);
      if !t.1 then read.(link := None)
      else read.(link := Some(l.(frames := l.frames[1..])), acc := s.from + 1,
                 snap := if R.KindIs(f, SNAPSHOT) then s.from else s.snap)
    else if l.exitNotice then
      s.(relay := H.Processed(s.relay, s.relay.epoch, H.ExitNotice(0)).0, link := Some(l.(exitNotice := false)))
    else s
  }

  /** One turn of the viewer handler. */
  function Forwarded<V>(relay: R.State<V>, v: Viewer<V>): Viewer<V>
    requires relay.encrypted
  {
    var t := H.Served(relay, v.next);
    v.(wire := v.wire + t.0, next := t.1)
  }

  /** A page whose socket has just been initialised, over any previous screen. */
  predicate Blank<V>(page: W.Page<V>) {
    && !page.failed && !page.input && !page.allowInput
    && page.cipher.writer.None? && page.cipher.last.None?
  }

  /** The handler ends: it lets go of the input channel and of the session, if they are still its own. */
  function Closed<V>(s: Sys<V>): Sys<V> {
    s.(link := None, relay := H.Ended(s.relay, s.relay.epoch))
  }

  /** A handler of another connection acts: late, under its own epoch or with an exit notice, which is not
      fenced; with the broadcast a resume still owes; or by attaching an attempt the producer has already
      abandoned, which fences off the connection in use. */
  function Intruded<V>(s: Sys<V>, op: R.Op): Sys<V> {
    var t := s.(relay := R.Next(s.relay, op));
    if op.Resume? then t.(link := None)
    else if R.Claims(op).None? || R.Claims(op).value < s.relay.epoch then t
    else s
  }

  function WithViewer<V>(s: Sys<V>, id: nat, page: W.Page<V>): Sys<V>
    requires s.relay.encrypted
  {
    if id !in s.viewers && Blank(page)
    then s.(viewers := s.viewers[id := Viewer(page, H.Payloads(R.Joined(s.relay)), |s.relay.sent|)]) else s
  }

  function ForwardedTo<V>(s: Sys<V>, id: nat): Sys<V>
    requires s.relay.encrypted
  {
    if id in s.viewers then s.(viewers := s.viewers[id := Forwarded(s.relay, s.viewers[id])]) else s
  }

  /** The page handles the first message on its socket. */
  function Handled<V>(env: Env<V>, v: Viewer<V>): Viewer<V>
    requires |v.wire| > 0
  {
    v.(page := W.Received(env, v.page, v.wire[0]), wire := v.wire[1..])
  }

  function ShownTo<V>(env: Env<V>, s: Sys<V>, id: nat): Sys<V> {
    if id in s.viewers && |s.viewers[id].wire| > 0
    then s.(viewers := s.viewers[id := Handled(env, s.viewers[id])]) else s
  }

  function Next<V>(env: Env<V>, s: Sys<V>, step: Step<V>): (t: Sys<V>)
    requires s.relay.encrypted
    ensures t.relay.encrypted
  {
    match step
    case Happen(event, send) => Dispatched(s, P.Happened(env, s.producer, event), send, false)
    case Tick(send) => Dispatched(s, P.Ticked(env, s.producer), send, false)
    case Connect(allowInput) => if s.producer.phase.Idle? then Connected(s, allowInput) else s
    case Lose =>
      if s.producer.phase.Connecting? || s.producer.phase.Streaming?
      then s.(producer := s.producer.(phase := P.Idle)) else s
    case Begin(raw, send) =>
      if s.producer.phase.Connecting? && |raw| == 32
      then Dispatched(s, P.Opened(env, s.producer, s.relay.cap, Encode64(raw)), send, true) else s
    case Stop => if s.producer.phase.Failed? then s else s.(producer := s.producer.(phase := P.Finished))
    case Deliver => if s.link.Some? then Delivered(s) else s
    case Close => Closed(s)
    case Stale(op) => Intruded(s, op)
    case AttachInput(channel) => s.(relay := R.Attached(s.relay, s.relay.epoch, channel))
    case Join(id, page) => WithViewer(s, id, page)
    case Leave(id) => s.(viewers := s.viewers - {id})
    case Forward(id) => ForwardedTo(s, id)
    case Show(id) => ShownTo(env, s, id)
  }

  function Run<V>(env: Env<V>, s: Sys<V>, steps: seq<Step<V>>): Sys<V>
    requires s.relay.encrypted
    ensures Run(env, s, steps).relay.encrypted
    decreases |steps|
  {
    if |steps| == 0 then s else Next(env, Run(env, s, steps[..|steps| - 1]), steps[|steps| - 1])
  }
}
