/** That screens arrive: a turn whose frame can be sent puts the producer's screen under way, and what is under
    way reaches every viewer. */
module Progress {
  import opened Bytes
  import opened Utf8
  import opened Sgr
  import opened Crypto
  import opened Terminal
  import opened Proto
  import opened Replay
  import opened Invariant
  import opened Agreement
  import P = Producer
  import R = Relay
  import H = Handlers
  import W = Viewer

  /** The latest frame tells the producer's screen, and the relay has read it or will. */
  ghost predicate Underway<V>(s: Sys<V>) {
    && s.link.Some? && s.from + |s.link.value.frames| == |s.log| && s.base < |s.log|
    && s.log[|s.log| - 1].screen == s.producer.screen
  }

  // More steps

  function Repeat<V>(step: Step<V>, n: nat): (steps: seq<Step<V>>)
    ensures |steps| == n
  {
    if n == 0 then [] else Repeat(step, n - 1) + [step]
  }

  lemma Again<V>(env: Env<V>, s: Sys<V>, step: Step<V>, n: nat)
    requires s.relay.encrypted && n > 0
    ensures Run(env, s, Repeat(step, n)) == Next(env, Run(env, s, Repeat(step, n - 1)), step)
  {
    hide Next;
    assert Repeat(step, n)[..n - 1] == Repeat(step, n - 1);
  }

  lemma NotAtAll<V>(env: Env<V>, s: Sys<V>, step: Step<V>)
    requires s.relay.encrypted
    ensures Run(env, s, Repeat(step, 0)) == s
  {}

  lemma DeliverOne<V>(env: Env<V>, s: Sys<V>)
    requires Inv(env, s) && s.relay.encrypted && s.link.Some? && |s.link.value.frames| > 0
    ensures var t := Next(env, s, Deliver);
      && Inv(env, t) && t.link.Some? && |t.link.value.frames| == |s.link.value.frames| - 1
      && t == s.(relay := t.relay, link := t.link, from := s.from + 1, snap := t.snap, acc := t.acc)
  {
    hide Inv, R.FedEncrypted, R.Accepts;
    DeliverKeeps(env, s);
  }

  lemma {:induction false} DeliverAll<V>(env: Env<V>, s: Sys<V>, n: nat)
    requires Inv(env, s) && s.relay.encrypted && s.link.Some? && n <= |s.link.value.frames|
    ensures var t := Run(env, s, Repeat(Deliver, n));
      && Inv(env, t) && t.link.Some? && |t.link.value.frames| == |s.link.value.frames| - n
      && t == s.(relay := t.relay, link := t.link, from := s.from + n, snap := t.snap, acc := t.acc)
    decreases n
  {
    hide Inv, Next, Run;
    if n == 0 {
      NotAtAll(env, s, Deliver);
    } else {
      DeliverAll(env, s, n - 1);
      Again(env, s, Deliver, n);
      DeliverOne(env, Run(env, s, Repeat(Deliver, n - 1)));
    }
  }

  lemma ForwardOne<V>(env: Env<V>, s: Sys<V>, id: nat)
    requires Inv(env, s) && s.relay.encrypted && id in s.viewers
    ensures var t := Next(env, s, Forward(id));
      && Inv(env, t) && t == s.(viewers := t.viewers) && id in t.viewers
      && t.viewers[id].page == s.viewers[id].page
      && s.viewers[id].next <= t.viewers[id].next <= |s.relay.sent|
      && (s.viewers[id].next < |s.relay.sent| ==> s.viewers[id].next < t.viewers[id].next)
  {
    hide LogOk, ProducerOk, LinkOk, HistoryOk, BroadcastOk, PageOk, Deliverable, Cursor, H.Payloads, R.Joined;
    assert ViewerOk(env, s.producer.sender.writer, s.log, s.relay.sent, s.acc, s.viewers[id]);
    ForwardKeeps(env, s, id);
    JoinedNext(s.relay);
  }

  lemma JoinedNext<V>(r: R.State<V>)
    requires r.encrypted
    ensures R.Joined(r).next == |r.sent|
  {}

  lemma {:induction false} ForwardAll<V>(env: Env<V>, s: Sys<V>, id: nat, n: nat)
    requires Inv(env, s) && s.relay.encrypted && id in s.viewers
    ensures var t := Run(env, s, Repeat(Forward(id), n));
      && Inv(env, t) && t == s.(viewers := t.viewers) && id in t.viewers
      && t.viewers[id].page == s.viewers[id].page && t.viewers[id].next <= |s.relay.sent|
      && (t.viewers[id].next == |s.relay.sent| || s.viewers[id].next + n <= t.viewers[id].next)
    decreases n
  {
    hide LogOk, ProducerOk, LinkOk, HistoryOk, BroadcastOk, PageOk, Deliverable, Cursor, Next, Run;
    if n == 0 {
      NotAtAll(env, s, Forward(id));
      assert ViewerOk(env, s.producer.sender.writer, s.log, s.relay.sent, s.acc, s.viewers[id]);
    } else {
      ForwardAll(env, s, id, n - 1);
      Again(env, s, Forward(id), n);
      ForwardOne(env, Run(env, s, Repeat(Forward(id), n - 1)), id);
    }
  }

  lemma {:induction false} ReadAllSnoc<V>(env: Env<V>, page: W.Page<V>, msgs: seq<R.Message>, last: R.Message)
    ensures ReadAll(env, page, msgs + [last]) == W.Received(env, ReadAll(env, page, msgs), last)
    decreases |msgs|
  {
    hide W.Received;
    if |msgs| == 0 {
      assert msgs + [last] == [last] && [last][1..] == [];
    } else {
      assert (msgs + [last])[1..] == msgs[1..] + [last];
      ReadAllSnoc(env, W.Received(env, page, msgs[0]), msgs[1..], last);
    }
  }

  lemma ShowOne<V>(env: Env<V>, s: Sys<V>, id: nat)
    requires s.relay.encrypted && id in s.viewers && |s.viewers[id].wire| > 0
    ensures var t := Next(env, s, Show(id));
      t == s.(viewers := t.viewers) && id in t.viewers && t.viewers[id] == Handled(env, s.viewers[id])
  {
    hide Handled;
  }

  lemma {:induction false} ShowAll<V>(env: Env<V>, s: Sys<V>, id: nat, n: nat)
    requires s.relay.encrypted && id in s.viewers && n <= |s.viewers[id].wire|
    ensures var t, v := Run(env, s, Repeat(Show(id), n)), s.viewers[id];
      && t == s.(viewers := t.viewers) && id in t.viewers
      && t.viewers[id] == Viewer(ReadAll(env, v.page, v.wire[..n]), v.wire[n..], v.next)
    decreases n
  {
    hide Next, Run, W.Received;
    if n == 0 {
      NotAtAll(env, s, Show(id));
    } else {
      var v := s.viewers[id];
      ShowAll(env, s, id, n - 1);
      Again(env, s, Show(id), n);
      ShowOne(env, Run(env, s, Repeat(Show(id), n - 1)), id);
      assert v.wire[..n] == v.wire[..n - 1] + [v.wire[n - 1]];
      ReadAllSnoc(env, v.page, v.wire[..n - 1], v.wire[n - 1]);
    }
  }

  // What is under way arrives

  /** The relay reads all frames under way, the viewer's handler sends all that viewer has not been sent, and
      the page handles it. */
  ghost function Drained<V>(env: Env<V>, s: Sys<V>, id: nat): (t: Sys<V>)
    requires s.relay.encrypted && s.link.Some?
  {
    var read := Run(env, s, Repeat(Deliver, |s.link.value.frames|));
    var sent := Run(env, read, Repeat(Forward(id), |read.relay.sent|));
    Run(env, sent, Repeat(Show(id), if id in sent.viewers then |sent.viewers[id].wire| else 0))
  }

  /** Once the latest frame is under way every viewer ends up showing the producer's screen, and can type if
      the host shares for input, whatever it was up to before. */
  lemma UnderwayArrives<V(!new)>(env: Env<V>, s: Sys<V>, id: nat)
    requires Honest(env) && Inv(env, s) && s.relay.encrypted && Underway(s) && id in s.viewers
    ensures var t := Drained(env, s, id);
      && t.producer == s.producer && id in t.viewers
      && !t.viewers[id].page.failed && Shows(env, t.viewers[id].page, s.producer.screen)
      && t.viewers[id].page.cipher.last == Some(|s.log| - 1) && t.viewers[id].page.allowInput == env.input
  {
    hide Honest, LogOk, ProducerOk, HistoryOk, BroadcastOk, Shows, Deliverable, Cursor, HistLen, ReadAll, Run;
    var read := Run(env, s, Repeat(Deliver, |s.link.value.frames|));
    DeliverAll(env, s, |s.link.value.frames|);
    var sent := Run(env, read, Repeat(Forward(id), |read.relay.sent|));
    ForwardAll(env, read, id, |read.relay.sent|);
    var v, writer := sent.viewers[id], s.producer.sender.writer;
    assert ViewerOk(env, writer, s.log, sent.relay.sent, sent.acc, v);
    assert Pending(sent.relay.sent, v) == v.wire;
    AllAreTaken(env, writer, Budget(s.relay.cap), s.log, v.page, v.wire);
    ShowAll(env, sent, id, |v.wire|);
    assert v.wire[..|v.wire|] == v.wire;
    InputIsHosts(env, writer, s.log, ReadAll(env, v.page, v.wire));
  }

  // Turns put the screen under way

  /** The frame of the opening turn fits what the relay offers. */
  ghost predicate OpeningFits<V>(env: Env<V>, p: P.State<V>, cap: nat, epoch: Text) {
    cap > 46 && P.CanSend(env, p.sender, P.SnapshotOf(env, p.screen, epoch, false), cap)
  }

  /** The frame of the turn on an event fits: as output behind all that has been sent, or as a snapshot. */
  ghost predicate EventFits<V>(env: Env<V>, p: P.State<V>, event: P.Event)
    requires p.phase.Streaming?
  {
    var room := p.phase.budget;
    if event.Printed? && p.phase.historyLen + |env.codec.encode(Payload.Output(event.bytes))| + 46 <= room then
      p.sender.sequence < U64_MAX
    else
      P.CanSend(env, p.sender, P.SnapshotOf(env, P.Updated(env.emu, p.screen, event), p.phase.epoch,
                                            event.Reported? || event.Ended?), room)
  }

  /** The frame of a turn is put on a link that holds all that has been sealed since the connection was made. */
  lemma DispatchedIsUnderway<V>(s: Sys<V>, turn: (P.State<V>, Option<P.Emission>), send: Send, opening: bool)
    requires s.link.Some? && s.from + |s.link.value.frames| == |s.log| && s.base <= |s.log|
    requires turn.1.Some? && send.ok
    ensures var t := Dispatched(s, turn, send, opening);
      && Underway(t) && t.producer.screen == turn.0.screen
      && t == s.(producer := t.producer, link := t.link, log := t.log) && |t.log| == |s.log| + 1
      && t.log[|s.log|].payload == turn.1.value.payload
      && t.link.value.frames == s.link.value.frames + [t.log[|s.log|].frame]
      && t.link.value.exitNotice
         == (s.link.value.exitNotice || (turn.0.screen.exit.Some? && (send.noticeOk || send.noticeArrives)))
      && (turn.0.screen.exit.None? ==> t.producer == turn.0)
  {}

  lemma OpeningIsUnderway<V(!new)>(env: Env<V>, s: Sys<V>, raw: seq<byte>, send: Send)
    requires Honest(env) && Inv(env, s) && s.relay.encrypted
    requires s.producer.phase.Connecting? && s.link.Some? && |raw| == 32 && send.ok
    requires OpeningFits(env, s.producer, s.relay.cap, Encode64(raw))
    ensures var t := Next(env, s, Begin(raw, send));
      && Inv(env, t) && Underway(t) && t.producer.screen == s.producer.screen
      && t == s.(producer := t.producer, link := t.link, log := t.log)
      && |t.log| == |s.log| + 1
      && t.log[|s.log|].payload == P.SnapshotOf(env, s.producer.screen, Encode64(raw), false)
      && t.link.value.frames == s.link.value.frames + [t.log[|s.log|].frame]
      && (s.producer.screen.exit.None? ==> t.producer.phase.Streaming? && t.producer.phase.epoch == Encode64(raw))
  {
    hide LogOk, HistoryOk, BroadcastOk, ViewersOk, P.ScreenOk, HistLen, P.Opened, P.SnapshotOf, Dispatched, Encode64,
        Lawful, RoundTrips, Correct;
    BeginKeeps(env, s, raw, send);
    P.OpeningExactly(env, s.producer, s.relay.cap, Encode64(raw));
    DispatchedIsUnderway(s, P.Opened(env, s.producer, s.relay.cap, Encode64(raw)), send, true);
  }

  lemma EventIsUnderway<V(!new)>(env: Env<V>, s: Sys<V>, event: P.Event, send: Send)
    requires Honest(env) && Inv(env, s) && s.relay.encrypted
    requires s.producer.phase.Streaming? && s.link.Some? && send.ok && EventFits(env, s.producer, event)
    ensures var t := Next(env, s, Happen(event, send));
      && Inv(env, t) && Underway(t) && t.producer.screen == P.Updated(env.emu, s.producer.screen, event)
      && t == s.(producer := t.producer, link := t.link, log := t.log)
      && (t.producer.screen.exit.None? ==> t.producer.phase.Streaming?)
  {
    hide LogOk, HistoryOk, BroadcastOk, ViewersOk, P.ScreenOk, HistLen, P.Happened, P.SnapshotOf, P.Updated,
        Dispatched, Lawful, RoundTrips, Correct;
    HappenKeeps(env, s, event, send);
    P.EventExactly(env, s.producer, event);
    DispatchedIsUnderway(s, P.Happened(env, s.producer, event), send, false);
  }

  lemma TickIsUnderway<V(!new)>(env: Env<V>, s: Sys<V>, send: Send)
    requires Honest(env) && Inv(env, s) && s.relay.encrypted
    requires s.producer.phase.Streaming? && s.producer.phase.dirty && s.link.Some? && send.ok
    requires P.CanSend(env, s.producer.sender, P.SnapshotOf(env, s.producer.screen, s.producer.phase.epoch, true),
                       s.producer.phase.budget)
    ensures var t := Next(env, s, Tick(send));
      && Inv(env, t) && Underway(t) && t.producer.screen == s.producer.screen
      && t == s.(producer := t.producer, link := t.link, log := t.log)
      && t.log[|t.log| - 1].payload.Snapshot? && t.log[|t.log| - 1].payload.checkpoint
  {
    hide LogOk, HistoryOk, BroadcastOk, ViewersOk, P.ScreenOk, HistLen, P.Ticked, P.Updated,
        Dispatched, Lawful, RoundTrips, Correct;
    TickKeeps(env, s, send);
    P.TickExactly(env, s.producer);
    DispatchedIsUnderway(s, P.Ticked(env, s.producer), send, false);
  }

  // Over runs

  /** After any run, what happens on a live connection arrives: if the frame of the turn fits and is sent,
      every viewer, whatever it has missed, ends up showing the screen with the event in it. */
  lemma EventsArrive<V(!new)>(st: Story<V>, event: P.Event, send: Send, id: nat)
    requires Fair(st) && id in st.End().viewers && st.End().producer.phase.Streaming? && st.End().link.Some?
    requires send.ok && EventFits(st.env, st.End().producer, event)
    ensures var s := st.End();
      && Next(st.env, s, Happen(event, send)).link.Some?
      && var t := Drained(st.env, Next(st.env, s, Happen(event, send)), id);
      && id in t.viewers && !t.viewers[id].page.failed
      && Shows(st.env, t.viewers[id].page, P.Updated(st.env.emu, s.producer.screen, event))
  {
    hide Fair, Honest, Inv, Next, Shows, Underway, Drained, EventFits, P.Updated, Story.After;
    var s := st.End();
    AlwaysInv(st, |st.steps|);
    FairIsHonest(st);
    EventIsUnderway(st.env, s, event, send);
    var t := Next(st.env, s, Happen(event, send));
    UnderwayLink(t);
    UnderwayArrives(st.env, t, id);
  }

  lemma UnderwayLink<V>(s: Sys<V>)
    requires Underway(s)
    ensures s.link.Some? && |s.log| > 0 && s.log[|s.log| - 1].screen == s.producer.screen
  {}

  /** The same for a viewer that was there before the producer came back: the opening snapshot resynchronises it. */
  lemma ReconnectArrives<V(!new)>(st: Story<V>, allowInput: bool, raw: seq<byte>, send: Send, id: nat)
    requires Fair(st) && id in st.End().viewers && st.End().producer.phase.Idle? && |raw| == 32 && send.ok
    requires OpeningFits(st.env, st.End().producer, st.End().relay.cap, Encode64(raw))
    ensures var s := st.End();
      var back := Next(st.env, Next(st.env, s, Connect(allowInput)), Begin(raw, send));
      && back.link.Some?
      && var t := Drained(st.env, back, id);
      && id in t.viewers && !t.viewers[id].page.failed && Shows(st.env, t.viewers[id].page, s.producer.screen)
  {
    hide Fair, Honest, Inv, Shows, Underway, Drained, OpeningFits, Story.After, Encode64, Dispatched;
    var s := st.End();
    AlwaysInv(st, |st.steps|);
    FairIsHonest(st);
    ConnectKeeps(st.env, s, allowInput);
    var up := Next(st.env, s, Connect(allowInput));
    StillFits(st.env, s, allowInput, Encode64(raw));
    OpeningIsUnderway(st.env, up, raw, send);
    var back := Next(st.env, up, Begin(raw, send));
    hide Next;
    UnderwayLink(back);
    UnderwayArrives(st.env, back, id);
  }

  lemma StillFits<V>(env: Env<V>, s: Sys<V>, allowInput: bool, epoch: Text)
    requires OpeningFits(env, s.producer, s.relay.cap, epoch)
    ensures OpeningFits(env, Connected(s, allowInput).producer, Connected(s, allowInput).relay.cap, epoch)
  {
    hide P.SnapshotOf;
  }

  // The first screen

  /** The relay accepts a snapshot, and a viewer that joins then is sent just that. */
  lemma JoinAfterSnapshot<V>(r: R.State<V>, f: seq<byte>)
    requires R.KindIs(f, SNAPSHOT) && R.Accepts(r, r.epoch, f)
    ensures var t := R.FedEncrypted(r, r.epoch, f);
      t.encrypted && H.Payloads(R.Joined(t)) == [R.Data(f)]
  {
    hide ParseHeader, H.Payloads;
    var t := R.FedEncrypted(r, r.epoch, f);
    assert t.history == [f];
    H.PayloadsExactly(t);
    var all := H.Payloads(R.Joined(t));
    assert |all| == 1 && all[0 + 0] == R.Data(t.history[0]);
  }

  lemma DeliverOpening<V>(env: Env<V>, s: Sys<V>)
    requires Inv(env, s) && s.relay.encrypted && s.link.Some? && |s.link.value.frames| > 0
    requires s.from < |s.log| && s.log[s.from].payload.Snapshot?
    ensures var t := Next(env, s, Deliver);
      && Inv(env, t) && t.relay.encrypted && H.Payloads(R.Joined(t.relay)) == [R.Data(s.log[s.from].frame)]
      && t.log == s.log && t.producer == s.producer && t.viewers == s.viewers && t.relay.cap == s.relay.cap
  {
    hide LogOk, ProducerOk, HistoryOk, BroadcastOk, ViewersOk, R.FedEncrypted, R.Accepts, R.KindIs, H.Payloads,
        R.Joined;
    var f := s.log[s.from + 0].frame;
    assert s.link.value.frames[0] == f;
    RelayAccepts(env, s.producer.sender.writer, s.relay.cap, s.log, s.relay, s.snap, s.acc, s.from);
    JoinAfterSnapshot(s.relay, f);
    DeliverKeeps(env, s);
  }

  lemma BlankIsSound<V>(env: Env<V>, writer: Writer, log: seq<Record<V>>, page: W.Page<V>)
    requires Blank(page)
    ensures PageOk(env, writer, log, page) && MayType(page) && Past(page) == 0
  {}

  /** After any run of a producer that is not connected: it connects, opens with a screen that fits and a send
      that works, the relay reads one message, a viewer joins and handles one message. It shows the screen the
      producer has, seals its input for the epoch of this connection, and lets its user type if the host
      shares for input. */
  lemma FirstScreen<V(!new)>(st: Story<V>, allowInput: bool, raw: seq<byte>, send: Send, id: nat, page: W.Page<V>)
    requires Fair(st) && st.End().producer.phase.Idle? && id !in st.End().viewers && Blank(page)
    requires |raw| == 32 && send.ok && OpeningFits(st.env, st.End().producer, st.End().relay.cap, Encode64(raw))
    ensures var s := st.End();
      var steps := [Connect(allowInput), Begin(raw, send), Deliver, Join(id, page), Show(id)];
      var t := Run(st.env, s, steps);
      && id in t.viewers && t.viewers[id].wire == []
      && var shown := t.viewers[id].page;
      && !shown.failed && Shows(st.env, shown, s.producer.screen)
      && shown.cipher.epoch == Some(Encode64(raw)) && shown.allowInput == st.env.input
  {
    hide Fair, Honest, Inv, Shows, Underway, OpeningFits, Story.After, Encode64, Next, Run, Blank, P.SnapshotOf;
    var s := st.End();
    AlwaysInv(st, |st.steps|);
    FairIsHonest(st);
    FiveSteps(st.env, s, Connect(allowInput), Begin(raw, send), Deliver, Join(id, page), Show(id));
    var up := Next(st.env, s, Connect(allowInput));
    Reconnects(st.env, s, allowInput);
    StillFits(st.env, s, allowInput, Encode64(raw));
    OpeningIsUnderway(st.env, up, raw, send);
    var open := Next(st.env, up, Begin(raw, send));
    SnapshotIsSnapshot(st.env, s.producer.screen, Encode64(raw), false);
    UnderwayLink(open);
    DeliverOpening(st.env, open);
    var read := Next(st.env, open, Deliver);
    JoinShows(st.env, read, |s.log|, id, page);
  }

  lemma SnapshotIsSnapshot<V>(env: Env<V>, screen: P.ScreenState<V>, epoch: Text, checkpoint: bool)
    ensures var p := P.SnapshotOf(env, screen, epoch, checkpoint); p.Snapshot? && p.epoch == epoch
  {}

  lemma Reconnects<V>(env: Env<V>, s: Sys<V>, allowInput: bool)
    requires Inv(env, s) && s.relay.encrypted && s.producer.phase.Idle?
    ensures var t := Next(env, s, Connect(allowInput));
      && t == Connected(s, allowInput) && Inv(env, t) && t.producer.phase.Connecting? && t.link == Some(Link([], false))
      && t.from == |t.log| && t.log == s.log && t.viewers == s.viewers && t.producer.screen == s.producer.screen
  {
    hide Inv;
    ConnectKeeps(env, s, allowInput);
  }

  /** A viewer that joins while the replay is one snapshot shows it with its first message. */
  lemma JoinShows<V(!new)>(env: Env<V>, s: Sys<V>, i: nat, id: nat, page: W.Page<V>)
    requires Honest(env) && Inv(env, s) && s.relay.encrypted && id !in s.viewers && Blank(page)
    requires i < |s.log| && s.log[i].payload.Snapshot?
    requires H.Payloads(R.Joined(s.relay)) == [R.Data(s.log[i].frame)]
    ensures var t := Next(env, Next(env, s, Join(id, page)), Show(id));
      && id in t.viewers && t.viewers[id].wire == []
      && var shown := t.viewers[id].page;
      && !shown.failed && Shows(env, shown, s.log[i].screen)
      && shown.cipher.epoch == Some(s.log[i].payload.epoch) && shown.allowInput == env.input
  {
    hide LogOk, ProducerOk, LinkOk, HistoryOk, BroadcastOk, ViewersOk, Honest, Shows, Blank, MayType, H.Payloads,
        R.Joined, W.ReceivedFrame;
    var writer, f := s.producer.sender.writer, s.log[i].frame;
    var v := Viewer(page, [R.Data(f)], |s.relay.sent|);
    assert WithViewer(s, id, page).viewers[id] == v;
    BlankIsSound(env, writer, s.log, page);
    PageTakes(env, writer, Budget(s.relay.cap), s.log, page, i);
    var next := W.ReceivedFrame(env, page, f);
    NoErrorYet(env, writer, s.log, next);
    FrameKeepsPermission(env, page, f);
    InputIsHosts(env, writer, s.log, next);
    assert Handled(env, v) == Viewer(next, [], |s.relay.sent|);
  }

  lemma FiveSteps<V>(env: Env<V>, s: Sys<V>, a: Step<V>, b: Step<V>, c: Step<V>, d: Step<V>, e: Step<V>)
    requires s.relay.encrypted
    ensures Run(env, s, [a, b, c, d, e]) == Next(env, Next(env, Next(env, Next(env, Next(env, s, a), b), c), d), e)
  {
    hide Next;
    var run1 := [a];
    var run2 := [a, b];
    var run3 := [a, b, c];
    var run4 := [a, b, c, d];
    var run5 := [a, b, c, d, e];
    assert run1[..0] == [] && run2[..1] == run1 && run3[..2] == run2 && run4[..3] == run3 && run5[..4] == run4;
    assert Run(env, s, run1) == Next(env, s, a);
    assert Run(env, s, run2) == Next(env, Run(env, s, run1), b);
    assert Run(env, s, run3) == Next(env, Run(env, s, run2), c);
    assert Run(env, s, run4) == Next(env, Run(env, s, run3), d);
  }

  // The exit

  ghost predicate NoticeIsTrue<V>(s: Sys<V>) {
    s.link.Some? && s.link.value.exitNotice ==> s.producer.screen.exit.Some?
  }

  /** No turn forgets the exit. */
  lemma TurnsKeepExit<V>(env: Env<V>, p: P.State<V>, event: P.Event, offer: nat, epoch: Text)
    requires p.screen.exit.Some?
    ensures P.Happened(env, p, event).0.screen.exit.Some?
    ensures P.Ticked(env, p).0.screen.exit.Some? && P.Opened(env, p, offer, epoch).0.screen.exit.Some?
  {
    hide P.SealPayload, P.SenderAfter, P.SnapshotOf, Write;
  }

  lemma DispatchedIsTrue<V>(s: Sys<V>, turn: (P.State<V>, Option<P.Emission>), send: Send, opening: bool)
    requires NoticeIsTrue(s) && (s.producer.screen.exit.Some? ==> turn.0.screen.exit.Some?)
    ensures NoticeIsTrue(Dispatched(s, turn, send, opening))
  {}

  lemma NextIsTrue<V>(env: Env<V>, s: Sys<V>, step: Step<V>)
    requires s.relay.encrypted && NoticeIsTrue(s)
    ensures NoticeIsTrue(Next(env, s, step))
  {
    hide R.FedEncrypted, R.Accepts, R.Next, H.Payloads, Forwarded, Handled, Encode64, P.Happened, P.Ticked, P.Opened,
        Dispatched;
    var exited := s.producer.screen.exit.Some?;
    match step
    case Happen(event, send) =>
      if exited { TurnsKeepExit(env, s.producer, event, 0, []); }
      DispatchedIsTrue(s, P.Happened(env, s.producer, event), send, false);
    case Tick(send) =>
      if exited { TurnsKeepExit(env, s.producer, P.Ended(0), 0, []); }
      DispatchedIsTrue(s, P.Ticked(env, s.producer), send, false);
    case Begin(raw, send) =>
      if exited { TurnsKeepExit(env, s.producer, P.Ended(0), s.relay.cap, Encode64(raw)); }
      DispatchedIsTrue(s, P.Opened(env, s.producer, s.relay.cap, Encode64(raw)), send, true);
    case _ =>
  }

  /** In every run an exit notice is only on its way once the child has exited. */
  lemma {:induction false} NoticesAreTrue<V>(st: Story<V>, k: nat)
    requires k <= |st.steps|
    ensures NoticeIsTrue(st.After(k))
    decreases k
  {
    if k > 0 {
      hide Next, NoticeIsTrue, Story.After;
      NoticesAreTrue(st, k - 1);
      OneStep(st, k - 1);
      NextIsTrue(st.env, st.After(k - 1), st.steps[k - 1]);
    } else {
      hide Next;
    }
  }

  /** Once the relay has read all frames, it reads the notice: the session has ended, viewers are told so once,
      and nobody types any more. */
  lemma NoticeArrives<V>(env: Env<V>, s: Sys<V>)
    requires s.relay.encrypted && s.link.Some? && s.link.value == Link([], true)
    ensures var t := Next(env, s, Deliver);
      && t.relay.status == R.Ended && R.InputTarget(t.relay).None?
      && t.relay.sent == s.relay.sent + [R.Ctrl(R.Exit(0))] && t.link == Some(Link([], false))
  {}

  // The relay's part

  /** What a step does at the relay. */
  function RelayOps<V>(s: Sys<V>, step: Step<V>): seq<R.Op> {
    var e := s.relay.epoch;
    match step
    case Connect(allowInput) => if s.producer.phase.Idle? then [R.Resume(allowInput)] else []
    case Deliver =>
      if s.link.None? then []
      else if |s.link.value.frames| > 0 then [R.Feed(e, s.link.value.frames[0])]
      else if s.link.value.exitNotice then [R.MarkExit(0)]
      else []
    case AttachInput(channel) => [R.Attach(e, channel)]
    case Close => [R.Detach(e), R.Disconnect(e)]
    case Stale(op) => if R.Claims(op).None? || R.Claims(op).value < e then [op] else []
    case _ => []
  }

  /** The steps of a run are operations of the session, made in the handler's name or by others; a refused frame,
      the end of the handler and a resume by somebody else end the connection. */
  lemma RelayStep<V>(env: Env<V>, s: Sys<V>, step: Step<V>)
    requires s.relay.encrypted
    ensures var t := Next(env, s, step);
      && t.relay == R.Run(s.relay, RelayOps(s, step))
      && (step.Close? || (step.Stale? && step.op.Resume?) ==> t.link.None?)
      && (step.Deliver? && s.link.Some? && |s.link.value.frames| > 0 ==>
            (t.link.None? <==> !R.Accepts(s.relay, s.relay.epoch, s.link.value.frames[0])))
      && (step.Leave? ==> step.id !in t.viewers)
  {
    hide R.FedEncrypted, R.Accepts, R.Next, R.Run, H.Payloads, Forwarded, Handled, P.Happened, P.Ticked, P.Opened,
        Encode64;
    var ops := RelayOps(s, step);
    H.RunNothing(s.relay);
    if |ops| == 1 {
      R.RunSnoc(s.relay, [], ops[0]);
      assert [] + [ops[0]] == ops;
      OneOp(s.relay, ops[0]);
    } else if |ops| == 2 {
      R.RunSnoc(s.relay, [], ops[0]);
      R.RunSnoc(s.relay, [ops[0]], ops[1]);
      assert [] + [ops[0]] == [ops[0]] && [ops[0]] + [ops[1]] == ops;
      OneOp(s.relay, ops[0]);
      OneOp(R.Next(s.relay, ops[0]), ops[1]);
    }
  }

  lemma OneOp<V>(r: R.State<V>, op: R.Op)
    ensures op.Resume? ==> R.Next(r, op) == R.Resumed(r, op.allowInput)
    ensures op.Feed? ==> R.Next(r, op) == R.FedEncrypted(r, op.epoch, op.chunk)
    ensures op.MarkExit? ==> R.Next(r, op) == R.Exited(r, op.code)
    ensures op.Attach? ==> R.Next(r, op) == R.Attached(r, op.epoch, op.channel)
    ensures op.Detach? ==> R.Next(r, op) == R.Detached(r, op.epoch)
    ensures op.Disconnect? ==> R.Next(r, op) == R.Disconnected(r, op.epoch)
  {
    hide R.FedEncrypted;
  }

  /** All that happens at the relay in the first `k` steps. */
  function AllOps<V>(st: Story<V>, k: nat): seq<R.Op>
    requires k <= |st.steps|
    decreases k
  {
    if k == 0 then [] else AllOps(st, k - 1) + RelayOps(st.After(k - 1), st.steps[k - 1])
  }

  /** In every run the relay is where a run of the session's operations takes it, so that all that is proved of
      those holds of it. */
  lemma {:induction false} RelayOfRun<V>(st: Story<V>, k: nat)
    requires k <= |st.steps|
    ensures st.After(k).relay == R.Run(R.NewSession(None, st.allowInput, st.cap), AllOps(st, k))
    decreases k
  {
    var start := R.NewSession<V>(None, st.allowInput, st.cap);
    if k == 0 {
      H.RunNothing(start);
    } else {
      hide Next, Story.After, RelayOps, R.Run;
      RelayOfRun(st, k - 1);
      OneStep(st, k - 1);
      var s, step := st.After(k - 1), st.steps[k - 1];
      RelayStep(st.env, s, step);
      H.RunAppend(start, AllOps(st, k - 1), RelayOps(s, step));
    }
  }
}
