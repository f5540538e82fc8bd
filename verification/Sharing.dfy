/** A host that shares its terminal through any relay at all: which connections succeed, which session each
    is said to belong to and how much replay it is offered is the relay's choice, anew every time. */
module Sharing {
  import opened Bytes
  import opened Utf8
  import opened Sgr
  import opened Crypto
  import opened Terminal
  import opened Proto
  import Replay
  import opened Invariant
  import P = Producer

  /** All that one sender has sealed. */
  datatype Stream<V> = Stream(session: seq<byte>, writer: Writer, log: seq<Replay.Record<V>>)

  /** The producer with its present sender, and what that and all senders before have sealed. `base` is
      where the log stood when the current connection was made. */
  datatype Host<V> = Host(producer: P.State<V>, past: seq<Stream<V>>, log: seq<Replay.Record<V>>, base: nat) {
    function Streams(): seq<Stream<V>> {
      past + [Stream(producer.sender.session, producer.sender.writer, log)]
    }
  }

  /** `ok` and `noticeOk` tell whether sending a frame, and the exit notice after it, seems to work. */
  datatype Move =
    | Happen(event: P.Event, ok: bool, noticeOk: bool)
    | Tick(ok: bool, noticeOk: bool)
    // An attempt to connect is acknowledged. `writer` and `raw` are drawn at random.
    | Acknowledged(session: seq<byte>, historyBytes: nat, writer: Writer, raw: seq<byte>, ok: bool, noticeOk: bool)
    | Lose
    | Stop

  /** Before the first acknowledgement nothing has been sealed. */
  function Init<V>(env: Env<V>, screen: P.ScreenState<V>, session: seq<byte>, writer: Writer): Host<V> {
    Host(P.State(screen, NewSender(env.material, session, false, writer), P.Idle), [], [], 0)
  }

  /** The environment as the present sender sees it. */
  function Here<V>(env: Env<V>, h: Host<V>): Env<V> {
    env.(session := h.producer.sender.session)
  }

  function Dispatched<V>(h: Host<V>, turn: (P.State<V>, Option<P.Emission>), ok: bool, noticeOk: bool, opening: bool)
    : Host<V>
  {
    if turn.1.None? then h.(producer := turn.0)
    else
      var e := turn.1.value;
      h.(producer := P.Sent(turn.0, ok, noticeOk),
         log := h.log + [Replay.Record(e.frame, e.payload, turn.0.screen, opening)])
  }

  /** A resumed session keeps its sender, any other gets a new one. */
  function Connected<V>(env: Env<V>, h: Host<V>, session: seq<byte>, writer: Writer): Host<V> {
    if session == h.producer.sender.session then
      h.(producer := h.producer.(phase := P.Connecting), base := |h.log|)
    else
      var sender := NewSender(env.material, session, false, writer);
      Host(P.State(h.producer.screen, sender, P.Connecting), h.Streams(), [], 0)
  }

  predicate Unused<V>(h: Host<V>, writer: Writer) {
    forall k :: 0 <= k < |h.Streams()| ==> h.Streams()[k].writer != writer
  }

  /** A new sender draws a writer id that has not been drawn before. */
  predicate MayConnect<V>(h: Host<V>, m: Move) {
    && m.Acknowledged? && h.producer.phase.Idle? && |m.raw| == 32
    && (m.session == h.producer.sender.session || Unused(h, m.writer))
  }

  function Next<V>(env: Env<V>, h: Host<V>, m: Move): Host<V> {
    match m
    case Happen(event, ok, noticeOk) => Dispatched(h, P.Happened(Here(env, h), h.producer, event), ok, noticeOk, false)
    case Tick(ok, noticeOk) => Dispatched(h, P.Ticked(Here(env, h), h.producer), ok, noticeOk, false)
    case Acknowledged(session, historyBytes, writer, raw, ok, noticeOk) =>
      if MayConnect(h, m) then
        var c := Connected(env, h, session, writer);
        Dispatched(c, P.Opened(Here(env, c), c.producer, historyBytes, Encode64(raw)), ok, noticeOk, true)
      else h
    case Lose => if h.producer.phase.Streaming? then h.(producer := h.producer.(phase := P.Idle)) else h
    case Stop => if h.producer.phase.Failed? then h else h.(producer := h.producer.(phase := P.Finished))
  }

  function Run<V>(env: Env<V>, h: Host<V>, moves: seq<Move>): Host<V>
    decreases |moves|
  {
    if |moves| == 0 then h else Next(env, Run(env, h, moves[..|moves| - 1]), moves[|moves| - 1])
  }

  /** A sharing: the host's first screen, the session and writer of its first connection, and all moves. */
  datatype Share<!V> = Share(
    env: Env<V>, screen: P.ScreenState<V>, session: seq<byte>, writer: Writer, moves: seq<Move>) {
    function After(k: nat): Host<V>
      requires k <= |moves|
    {
      Run(env, Init(env, screen, session, writer), moves[..k])
    }

    function End(): Host<V> {
      After(|moves|)
    }

    function Streams(): seq<Stream<V>> {
      End().Streams()
    }
  }

  ghost predicate FairShare<V(!new)>(sh: Share<V>) {
    Honest(sh.env) && P.ScreenOk(sh.env.emu, sh.screen)
  }

  // The invariant

  /** Every entry is genuine and tells its screen, and no connection ever counted beyond the largest frame. */
  ghost predicate StreamOk<V>(env: Env<V>, st: Stream<V>) {
    LogOk(env.(session := st.session), st.writer, MAX_ENCRYPTED_FRAME, st.log)
  }

  ghost predicate StreamsOk<V>(env: Env<V>, streams: seq<Stream<V>>) {
    && (forall k :: 0 <= k < |streams| ==> StreamOk(env, streams[k]))
    && (forall j, k :: 0 <= j < k < |streams| ==> streams[j].writer != streams[k].writer)
  }

  ghost predicate HostOk<V>(env: Env<V>, h: Host<V>) {
    var budget := if h.producer.phase.Streaming? then h.producer.phase.budget else 0;
    && StreamsOk(env, h.Streams()) && budget <= MAX_ENCRYPTED_FRAME
    && ProducerOk(Here(env, h), h.producer, h.log, h.base, budget)
  }

  lemma LastStream<V>(env: Env<V>, h: Host<V>)
    requires StreamsOk(env, h.Streams())
    ensures LogOk(Here(env, h), h.producer.sender.writer, MAX_ENCRYPTED_FRAME, h.log)
  {
    hide LogOk;
    assert StreamOk(env, h.Streams()[|h.past|]);
  }

  lemma LastStreamChanges<V>(env: Env<V>, h: Host<V>, n: Host<V>)
    requires StreamsOk(env, h.Streams()) && n.past == h.past
    requires SameSender(h.producer, n.producer)
    requires LogOk(Here(env, h), h.producer.sender.writer, MAX_ENCRYPTED_FRAME, n.log)
    ensures StreamsOk(env, n.Streams())
  {
    hide LogOk;
    var a, b := h.Streams(), n.Streams();
    assert forall k :: 0 <= k < |b| ==> b[k].writer == a[k].writer && (k < |h.past| ==> b[k] == a[k]);
  }

  lemma DispatchKeeps<V>(env: Env<V>, h: Host<V>, turn: (P.State<V>, Option<P.Emission>), budget: nat, ok: bool,
      noticeOk: bool, opening: bool)
    requires StreamsOk(env, h.Streams()) && budget <= MAX_ENCRYPTED_FRAME && h.base <= |h.log|
    requires TurnOk(Here(env, h), h.producer, turn, h.log, budget, MAX_ENCRYPTED_FRAME, opening)
    ensures HostOk(env, Dispatched(h, turn, ok, noticeOk, opening))
  {
    hide LogOk, StreamsOk, P.ScreenOk, ValidToken, HistLen, EpochAt, Host.Streams;
    var n := Dispatched(h, turn, ok, noticeOk, opening);
    if turn.1.None? { LastStream(env, h); }
    LastStreamChanges(env, h, n);
  }

  lemma ConnectKeeps<V>(env: Env<V>, h: Host<V>, session: seq<byte>, writer: Writer)
    requires HostOk(env, h) && h.producer.phase.Idle?
    requires session == h.producer.sender.session || Unused(h, writer)
    ensures var c := Connected(env, h, session, writer);
      && StreamsOk(env, c.Streams()) && c.base == |c.log| && c.producer.phase.Connecting?
      && Ready(Here(env, c), c.producer, c.log)
      && LogOk(Here(env, c), c.producer.sender.writer, MAX_ENCRYPTED_FRAME, c.log)
  {
    hide P.ScreenOk, Genuine, Tells, HistLen, EpochAt;
    LastStream(env, h);
  }

  lemma TurnKeeps<V(!new)>(env: Env<V>, h: Host<V>, m: Move)
    requires Honest(env) && HostOk(env, h) && (m.Happen? || m.Tick?)
    ensures HostOk(env, Next(env, h, m))
  {
    hide Dispatched, LogOk, StreamsOk, TurnOk, P.ScreenOk, P.Updated, P.EmitSnapshot, P.Emit, HistLen, EpochAt,
        ValidToken, Lawful, RoundTrips, Correct, Host.Streams;
    LastStream(env, h);
    var e, p := Here(env, h), h.producer;
    if m.Happen? {
      var turn := P.Happened(e, p, m.event);
      if p.phase.Streaming? {
        HappenedTurn(e, p, h.log, h.base, p.phase.budget, MAX_ENCRYPTED_FRAME, m.event);
        DispatchKeeps(env, h, turn, p.phase.budget, m.ok, m.noticeOk, false);
      } else {
        UpdatedOk(env.emu, p.screen, m.event);
        Silent(h, turn, m.ok, m.noticeOk, false);
        LastStreamChanges(env, h, h.(producer := turn.0));
      }
    } else {
      var turn := P.Ticked(e, p);
      if p.phase.Streaming? && p.phase.dirty {
        TickedTurn(e, p, h.log, h.base, p.phase.budget, MAX_ENCRYPTED_FRAME);
        DispatchKeeps(env, h, turn, p.phase.budget, m.ok, m.noticeOk, false);
      } else {
        Silent(h, turn, m.ok, m.noticeOk, false);
        assert h.(producer := turn.0) == h;
      }
    }
  }

  lemma Silent<V>(h: Host<V>, turn: (P.State<V>, Option<P.Emission>), ok: bool, noticeOk: bool, opening: bool)
    requires turn.1.None?
    ensures Dispatched(h, turn, ok, noticeOk, opening) == h.(producer := turn.0)
  {}

  lemma AcknowledgedKeeps<V(!new)>(env: Env<V>, h: Host<V>, m: Move)
    requires Honest(env) && HostOk(env, h) && m.Acknowledged?
    ensures HostOk(env, Next(env, h, m))
  {
    hide Dispatched, Connected, LogOk, StreamsOk, ProducerOk, TurnOk, P.ScreenOk, P.Opened, Encode64, Lawful,
        RoundTrips, Correct, Unused;
    if MayConnect(h, m) {
      var c := Connected(env, h, m.session, m.writer);
      ConnectKeeps(env, h, m.session, m.writer);
      var e := Here(env, c);
      OpenedTurn(e, c.producer, c.log, m.historyBytes, MAX_ENCRYPTED_FRAME, m.raw);
      var turn := P.Opened(e, c.producer, m.historyBytes, Encode64(m.raw));
      DispatchKeeps(env, c, turn, Budget(m.historyBytes), m.ok, m.noticeOk, true);
    }
  }

  lemma LeavingKeeps<V>(env: Env<V>, h: Host<V>, phase: P.Phase)
    requires HostOk(env, h) && !h.producer.phase.Failed? && (phase.Idle? || phase.Finished?)
    ensures HostOk(env, h.(producer := h.producer.(phase := phase)))
  {
    hide LogOk, StreamsOk, P.ScreenOk, HistLen, EpochAt, Host.Streams;
    var n := h.(producer := h.producer.(phase := phase));
    LastStream(env, h);
    LastStreamChanges(env, h, n);
  }

  lemma NextKeeps<V(!new)>(env: Env<V>, h: Host<V>, m: Move)
    requires Honest(env) && HostOk(env, h)
    ensures HostOk(env, Next(env, h, m))
  {
    hide Honest, HostOk, Dispatched, Connected, P.Happened, P.Ticked, P.Opened, MayConnect, Encode64;
    match m
    case Happen(_, _, _) => TurnKeeps(env, h, m);
    case Tick(_, _) => TurnKeeps(env, h, m);
    case Acknowledged(_, _, _, _, _, _) => AcknowledgedKeeps(env, h, m);
    case Lose => if h.producer.phase.Streaming? { LeavingKeeps(env, h, P.Idle); }
    case Stop => if !h.producer.phase.Failed? { LeavingKeeps(env, h, P.Finished); }
  }

  lemma InitOk<V>(env: Env<V>, screen: P.ScreenState<V>, session: seq<byte>, writer: Writer)
    requires P.ScreenOk(env.emu, screen)
    ensures HostOk(env, Init(env, screen, session, writer))
  {
    hide P.ScreenOk, HistLen, EpochAt;
  }

  lemma {:induction false} RunKeeps<V(!new)>(env: Env<V>, h: Host<V>, moves: seq<Move>)
    requires Honest(env) && HostOk(env, h)
    ensures HostOk(env, Run(env, h, moves))
    decreases |moves|
  {
    if |moves| > 0 {
      hide Honest, HostOk, Next;
      RunKeeps(env, h, moves[..|moves| - 1]);
      NextKeeps(env, Run(env, h, moves[..|moves| - 1]), moves[|moves| - 1]);
    }
  }

  /** Whatever relay a host shares through, everything it ever sealed under any sender is genuine, numbered
      from zero, tells the screen of its moment, and no two senders have the same writer id. */
  lemma AllSealedIsSound<V(!new)>(sh: Share<V>)
    requires FairShare(sh)
    ensures StreamsOk(sh.env, sh.Streams())
  {
    hide Honest, P.ScreenOk, StreamsOk, ProducerOk, Run, Host.Streams;
    InitOk(sh.env, sh.screen, sh.session, sh.writer);
    RunKeeps(sh.env, Init(sh.env, sh.screen, sh.session, sh.writer), sh.moves[..|sh.moves|]);
  }

  // Which move sealed what

  /** How much stream `k` holds. */
  function Count<V>(h: Host<V>, k: nat): nat {
    if k < |h.Streams()| then |h.Streams()[k].log| else 0
  }

  /** Streams are kept, and only added to. */
  ghost predicate GrowsInto<V>(a: seq<Stream<V>>, b: seq<Stream<V>>) {
    && |a| <= |b|
    && forall k :: 0 <= k < |a| ==>
         a[k].session == b[k].session && a[k].writer == b[k].writer && a[k].log <= b[k].log
  }

  /** From `h` to `n` at most one frame has been sealed, from the screen the producer has in `n`. */
  ghost predicate AddsOne<V>(h: Host<V>, n: Host<V>) {
    && GrowsInto(h.Streams(), n.Streams())
    && forall k: nat, i: nat :: NewAt(h, n, k, i)
  }

  ghost predicate NewAt<V>(h: Host<V>, n: Host<V>, k: nat, i: nat) {
    Count(h, k) <= i < Count(n, k) ==>
      i == Count(h, k) && n.Streams()[k].log[i].screen == n.producer.screen
  }

  lemma DispatchAdds<V>(h: Host<V>, turn: (P.State<V>, Option<P.Emission>), ok: bool, noticeOk: bool, opening: bool)
    requires turn.0.sender.session == h.producer.sender.session && turn.0.sender.writer == h.producer.sender.writer
    ensures AddsOne(h, Dispatched(h, turn, ok, noticeOk, opening))
  {
    LastGrows(h, Dispatched(h, turn, ok, noticeOk, opening));
  }

  /** Only the last stream changes, by one record of the present screen at most. */
  lemma LastGrows<V>(h: Host<V>, n: Host<V>)
    requires n.past == h.past && SameSender(h.producer, n.producer)
    requires n.log == h.log || exists r :: n.log == h.log + [r] && r.screen == n.producer.screen
    ensures AddsOne(h, n)
  {
    var a, b := h.Streams(), n.Streams();
    forall k | 0 <= k < |a|
      ensures a[k].session == b[k].session && a[k].writer == b[k].writer && a[k].log <= b[k].log
      ensures k < |h.past| ==> a[k] == b[k]
    {
      if k < |h.past| {
        assert a[k] == h.past[k] == b[k];
      } else {
        assert a[k].log == h.log && b[k].log == n.log && h.log <= n.log;
      }
    }
    assert GrowsInto(a, b);
    forall k: nat, i: nat ensures NewAt(h, n, k, i) {
      if Count(h, k) <= i < Count(n, k) {
        assert k == |h.past| && b[k].log == n.log && a[k].log == h.log;
      }
    }
  }

  lemma TurnKeepsSender<V>(env: Env<V>, p: P.State<V>)
    ensures forall event :: SameSender(p, P.Happened(env, p, event).0)
    ensures SameSender(p, P.Ticked(env, p).0)
    ensures forall bytes, epoch :: SameSender(p, P.Opened(env, p, bytes, epoch).0)
  {
    hide P.Updated, P.SnapshotOf, P.SealPayload;
  }

  predicate SameSender<V>(p: P.State<V>, q: P.State<V>) {
    q.sender.session == p.sender.session && q.sender.writer == p.sender.writer
  }

  lemma ConnectAdds<V>(env: Env<V>, h: Host<V>, session: seq<byte>, writer: Writer)
    ensures var c := Connected(env, h, session, writer);
      GrowsInto(h.Streams(), c.Streams()) && forall k: nat :: Count(c, k) == Count(h, k)
  {}

  lemma NextAdds<V>(env: Env<V>, h: Host<V>, m: Move)
    ensures AddsOne(h, Next(env, h, m))
  {
    hide P.Happened, P.Ticked, P.Opened, Dispatched, Connected, Encode64, MayConnect, AddsOne, GrowsInto, Count;
    match m
    case Happen(event, ok, noticeOk) =>
      TurnKeepsSender(Here(env, h), h.producer);
      assert SameSender(h.producer, P.Happened(Here(env, h), h.producer, event).0);
      DispatchAdds(h, P.Happened(Here(env, h), h.producer, event), ok, noticeOk, false);
    case Tick(ok, noticeOk) =>
      TurnKeepsSender(Here(env, h), h.producer);
      DispatchAdds(h, P.Ticked(Here(env, h), h.producer), ok, noticeOk, false);
    case Acknowledged(session, historyBytes, writer, raw, ok, noticeOk) =>
      if MayConnect(h, m) {
        var c := Connected(env, h, session, writer);
        var turn := P.Opened(Here(env, c), c.producer, historyBytes, Encode64(raw));
        TurnKeepsSender(Here(env, c), c.producer);
        assert SameSender(c.producer, turn.0);
        DispatchAdds(c, turn, ok, noticeOk, true);
        ConnectAdds(env, h, session, writer);
        AddsOneAfter(h, c, Dispatched(c, turn, ok, noticeOk, true));
      } else {
        AddsNothing(h, h);
      }
    case Lose => AddsNothing(h, Next(env, h, m));
    case Stop => AddsNothing(h, Next(env, h, m));
  }

  lemma AddsNothing<V>(h: Host<V>, n: Host<V>)
    requires n.past == h.past && n.log == h.log && SameSender(h.producer, n.producer)
    ensures AddsOne(h, n)
  {
    hide AddsOne;
    LastGrows(h, n);
  }

  lemma AddsOneAfter<V>(h: Host<V>, c: Host<V>, n: Host<V>)
    requires GrowsInto(h.Streams(), c.Streams()) && (forall k: nat :: Count(c, k) == Count(h, k))
    requires AddsOne(c, n)
    ensures AddsOne(h, n)
  {
    hide Host.Streams, GrowsInto;
    GrowsFurther(h.Streams(), c.Streams(), n.Streams());
    forall k: nat, i: nat ensures NewAt(h, n, k, i) { assert NewAt(c, n, k, i); }
  }

  lemma GrowsFurther<V>(a: seq<Stream<V>>, b: seq<Stream<V>>, c: seq<Stream<V>>)
    requires GrowsInto(a, b) && GrowsInto(b, c)
    ensures GrowsInto(a, c)
  {}

  lemma OneMove<V>(sh: Share<V>, j: nat)
    requires j < |sh.moves|
    ensures sh.After(j + 1) == Next(sh.env, sh.After(j), sh.moves[j])
  {
    hide Next, Init;
    assert sh.moves[..j + 1][..j] == sh.moves[..j];
  }

  lemma {:induction false} StreamsOnlyGrow<V>(sh: Share<V>, i: nat, j: nat)
    requires i <= j <= |sh.moves|
    ensures GrowsInto(sh.After(i).Streams(), sh.After(j).Streams())
    decreases j - i
  {
    if i < j {
      hide Next, Share.After, GrowsInto;
      StreamsOnlyGrow(sh, i, j - 1);
      OneMove(sh, j - 1);
      NextAdds(sh.env, sh.After(j - 1), sh.moves[j - 1]);
      GrowsFurther(sh.After(i).Streams(), sh.After(j - 1).Streams(), sh.After(j).Streams());
    }
  }

  /** Entry `i` of stream `k` was sealed by move `j`, from the screen the producer then had. */
  ghost predicate SealedBy<V>(sh: Share<V>, k: nat, i: nat, j: nat) {
    && j < |sh.moves| && Count(sh.After(j), k) == i && Count(sh.After(j + 1), k) == i + 1
    && i < Count(sh.End(), k) && sh.Streams()[k].log[i].screen == sh.After(j + 1).producer.screen
  }

  lemma NothingAtFirst<V>(sh: Share<V>, k: nat, j: nat)
    requires j <= |sh.moves|
    ensures Count(sh.After(j), k) > 0 ==> j > 0
  {
    hide Next;
  }

  lemma NewEntry<V>(sh: Share<V>, k: nat, i: nat, j: nat)
    requires j < |sh.moves| && Count(sh.After(j), k) <= i < Count(sh.After(j + 1), k)
    ensures SealedBy(sh, k, i, j)
  {
    hide Next, Share.After, Host.Streams;
    OneMove(sh, j);
    NextAdds(sh.env, sh.After(j), sh.moves[j]);
    StreamsOnlyGrow(sh, j + 1, |sh.moves|);
    var now, last := sh.After(j + 1).Streams(), sh.Streams();
    assert NewAt(sh.After(j), sh.After(j + 1), k, i) && NewAt(sh.After(j), sh.After(j + 1), k, i + 1);
    assert now[k].log <= last[k].log;
    assert last[k].log[i] == now[k].log[i];
  }

  lemma {:induction false} SealingMove<V>(sh: Share<V>, k: nat, i: nat, j: nat)
    requires j <= |sh.moves| && i < Count(sh.After(j), k)
    ensures exists m: nat :: SealedBy(sh, k, i, m)
    decreases j
  {
    hide Next, Share.After, SealedBy, Count;
    NothingAtFirst(sh, k, j);
    if i < Count(sh.After(j - 1), k) {
      SealingMove(sh, k, i, j - 1);
    } else {
      NewEntry(sh, k, i, j - 1);
    }
  }

  // Connections

  /** An acknowledged connection whose opening frame fits seals the present screen for the session it was told:
      a resumed session goes on under its sender, any other gets a sender of its own, and what was sealed
      before stays with the session it was sealed for. */
  lemma AcknowledgedExactly<V(!new)>(env: Env<V>, h: Host<V>, m: Move)
    requires Honest(env) && HostOk(env, h) && MayConnect(h, m) && m.historyBytes > 46
    requires var same := m.session == h.producer.sender.session;
      P.CanSend(env, if same then h.producer.sender else NewSender(env.material, m.session, false, m.writer),
                P.SnapshotOf(env, h.producer.screen, Encode64(m.raw), false), m.historyBytes)
    ensures var n, same := Next(env, h, m), m.session == h.producer.sender.session;
      && n.producer.sender.session == m.session && n.producer.screen == h.producer.screen
      && n.producer.sender.writer == (if same then h.producer.sender.writer else m.writer)
      && n.past == (if same then h.past else h.Streams())
      && |n.log| == (if same then |h.log| + 1 else 1) && (same ==> n.log[..|h.log|] == h.log)
      && n.log[|n.log| - 1].payload == P.SnapshotOf(env, h.producer.screen, Encode64(m.raw), false)
  {
    hide StreamsOk, P.ScreenOk, HistLen, P.Opened, P.SnapshotOf, Lawful, RoundTrips, Correct, Encode64;
    var c := Connected(env, h, m.session, m.writer);
    SameSnapshot(env, Here(env, c), h.producer.screen, Encode64(m.raw));
    P.OpeningExactly(Here(env, c), c.producer, m.historyBytes, Encode64(m.raw));
  }

  /** Snapshots do not depend on the session. */
  lemma SameSnapshot<V>(env: Env<V>, here: Env<V>, screen: P.ScreenState<V>, epoch: Text)
    requires here == env.(session := here.session)
    ensures P.SnapshotOf(env, screen, epoch, false) == P.SnapshotOf(here, screen, epoch, false)
  {
    hide DumpText;
  }
}
