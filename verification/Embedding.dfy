/** Every run of the step system, whose relay is honest, is one of the sharings any relay can bring about. */
module Embedding {
  import opened Bytes
  import opened Sgr
  import opened Crypto
  import opened Terminal
  import opened Proto
  import opened Agreement
  import P = Producer
  import Replay
  import S = Sharing

  /** What a step of the system is to the host. An attempt to connect matters once it is acknowledged. */
  function Image<V>(env: Env<V>, s: Replay.Sys<V>, step: Replay.Step<V>): seq<S.Move> {
    match step
    case Happen(event, send) => [S.Happen(event, send.ok, send.noticeOk)]
    case Tick(send) => [S.Tick(send.ok, send.noticeOk)]
    case Begin(raw, send) =>
      if s.producer.phase.Connecting?
      then [S.Acknowledged(env.session, s.relay.cap, s.producer.sender.writer, raw, send.ok, send.noticeOk)] else []
    case Lose => [S.Lose]
    case Stop => [S.Stop]
    case _ => []
  }

  function Images<V>(st: Story<V>, k: nat): seq<S.Move>
    requires k <= |st.steps|
  {
    if k == 0 then [] else Images(st, k - 1) + Image(st.env, st.After(k - 1), st.steps[k - 1])
  }

  function Settled(phase: P.Phase): P.Phase {
    if phase.Connecting? then P.Idle else phase
  }

  /** The host of the system, seen as one that has had a single sender. */
  ghost predicate Matches<V>(env: Env<V>, s: Replay.Sys<V>, h: S.Host<V>) {
    && h.past == [] && h.log == s.log && s.producer.sender.session == env.session
    && h.producer == s.producer.(phase := Settled(s.producer.phase))
  }

  lemma RunSnoc<V>(env: Env<V>, h: S.Host<V>, moves: seq<S.Move>, m: S.Move)
    ensures S.Run(env, h, moves + [m]) == S.Next(env, S.Run(env, h, moves), m)
  {
    hide S.Next;
    assert (moves + [m])[..|moves|] == moves;
  }

  lemma TurnMatches<V>(env: Env<V>, s: Replay.Sys<V>, h: S.Host<V>, turn: (P.State<V>, Option<P.Emission>),
      send: Replay.Send, opening: bool)
    requires h.past == [] && h.log == s.log && turn.0.sender.session == env.session
    requires turn.1.Some? ==> turn.0.phase.Streaming?
    ensures var t := Replay.Dispatched(s, turn, send, opening);
      turn.1.Some? ==> Matches(env, t, S.Dispatched(h, turn, send.ok, send.noticeOk, opening))
  {}

  lemma TurnsKeep<V>(env: Env<V>, p: P.State<V>)
    ensures forall event :: KeepsOn(p, P.Happened(env, p, event))
    ensures KeepsOn(p, P.Ticked(env, p))
    ensures forall bytes, epoch :: KeepsOn(p, P.Opened(env, p, bytes, epoch))
  {
    hide P.Updated, P.SnapshotOf, P.SealPayload;
  }

  ghost predicate KeepsOn<V>(p: P.State<V>, turn: (P.State<V>, Option<P.Emission>)) {
    && turn.0.sender.session == p.sender.session && (turn.1.Some? ==> turn.0.phase.Streaming?)
    && (turn.1.None? ==> turn.0.phase == p.phase || turn.0.phase.Failed?)
  }

  lemma QuietEvent<V>(env: Env<V>, p: P.State<V>, q: P.State<V>, event: P.Event)
    requires q == p.(phase := Settled(p.phase))
    ensures p.phase.Streaming? ==> q == p
    ensures !p.phase.Streaming? ==>
      && P.Happened(env, p, event).1.None? && P.Happened(env, q, event).1.None?
      && P.Happened(env, q, event).0 == P.Happened(env, p, event).0.(phase := q.phase)
      && P.Happened(env, p, event).0.phase == p.phase
      && P.Happened(env, p, event).0.sender == p.sender
      && P.Ticked(env, p) == (p, None) && P.Ticked(env, q) == (q, None)
  {
    hide P.Updated;
  }

  lemma HappenMatches<V>(env: Env<V>, s: Replay.Sys<V>, h: S.Host<V>, event: P.Event, send: Replay.Send)
    requires s.relay.encrypted && Matches(env, s, h)
    ensures Matches(env, Replay.Next(env, s, Replay.Happen(event, send)),
                    S.Next(env, h, S.Happen(event, send.ok, send.noticeOk)))
  {
    hide P.Happened;
    var p := s.producer;
    assert S.Here(env, h) == env;
    TurnsKeep(env, p);
    assert KeepsOn(p, P.Happened(env, p, event));
    QuietEvent(env, p, h.producer, event);
    TurnMatches(env, s, h, P.Happened(env, p, event), send, false);
  }

  lemma TickMatches<V>(env: Env<V>, s: Replay.Sys<V>, h: S.Host<V>, send: Replay.Send)
    requires s.relay.encrypted && Matches(env, s, h)
    ensures Matches(env, Replay.Next(env, s, Replay.Tick(send)), S.Next(env, h, S.Tick(send.ok, send.noticeOk)))
  {
    hide P.Ticked;
    var p := s.producer;
    assert S.Here(env, h) == env;
    TurnsKeep(env, p);
    QuietEvent(env, p, h.producer, P.Ended(0));
    TurnMatches(env, s, h, P.Ticked(env, p), send, false);
  }

  lemma LeavingMatches<V>(env: Env<V>, s: Replay.Sys<V>, h: S.Host<V>)
    requires s.relay.encrypted && Matches(env, s, h)
    ensures Matches(env, Replay.Next(env, s, Replay.Lose), S.Next(env, h, S.Lose))
    ensures Matches(env, Replay.Next(env, s, Replay.Stop), S.Next(env, h, S.Stop))
  {}

  lemma OthersMatch<V>(env: Env<V>, s: Replay.Sys<V>, h: S.Host<V>, step: Replay.Step<V>)
    requires s.relay.encrypted && Matches(env, s, h)
    requires !step.Happen? && !step.Tick? && !step.Begin? && !step.Lose? && !step.Stop?
    ensures Matches(env, Replay.Next(env, s, step), S.Run(env, h, []))
  {}

  lemma BeginMatches<V>(env: Env<V>, s: Replay.Sys<V>, h: S.Host<V>, raw: seq<byte>, send: Replay.Send)
    requires s.relay.encrypted && Matches(env, s, h)
    ensures var step := Replay.Begin(raw, send);
      Matches(env, Replay.Next(env, s, step), S.Run(env, h, Image(env, s, step)))
  {
    hide P.Opened, Encode64;
    var p, image := s.producer, Image(env, s, Replay.Begin(raw, send));
    if p.phase.Connecting? {
      RunSnoc(env, h, [], image[0]);
      assert [] + [image[0]] == image;
      var c := S.Connected(env, h, env.session, p.sender.writer);
      assert S.Here(env, c) == env && c.producer == p;
      var turn := P.Opened(env, p, s.relay.cap, Encode64(raw));
      TurnsKeep(env, p);
      assert KeepsOn(p, turn);
      OpenedEnds(env, p, s.relay.cap, Encode64(raw));
      TurnMatches(env, s, c, turn, send, true);
    }
  }

  lemma OpenedEnds<V>(env: Env<V>, p: P.State<V>, bytes: nat, epoch: Text)
    ensures P.Opened(env, p, bytes, epoch).1.None? ==> P.Opened(env, p, bytes, epoch).0.phase.Failed?
  {
    hide P.SnapshotOf, P.SealPayload;
  }

  lemma StepMatches<V>(env: Env<V>, s: Replay.Sys<V>, h: S.Host<V>, step: Replay.Step<V>)
    requires s.relay.encrypted && Matches(env, s, h)
    ensures Matches(env, Replay.Next(env, s, step), S.Run(env, h, Image(env, s, step)))
  {
    hide Replay.Next, S.Next, Matches, Encode64;
    var image := Image(env, s, step);
    if |image| == 1 {
      RunSnoc(env, h, [], image[0]);
      assert [] + [image[0]] == image;
    }
    match step
    case Happen(event, send) => HappenMatches(env, s, h, event, send);
    case Tick(send) => TickMatches(env, s, h, send);
    case Begin(raw, send) => BeginMatches(env, s, h, raw, send);
    case Lose => LeavingMatches(env, s, h);
    case Stop => LeavingMatches(env, s, h);
    case _ => OthersMatch(env, s, h, step);
  }

  lemma RunAppend<V>(env: Env<V>, h: S.Host<V>, a: seq<S.Move>, b: seq<S.Move>)
    requires |b| <= 1
    ensures S.Run(env, h, a + b) == S.Run(env, S.Run(env, h, a), b)
  {
    hide S.Next;
    if |b| == 0 {
      assert a + b == a;
    } else {
      RunSnoc(env, h, a, b[0]);
      RunSnoc(env, S.Run(env, h, a), [], b[0]);
      assert [b[0]] == b && [] + [b[0]] == b;
    }
  }

  lemma {:induction false} RunMatches<V>(st: Story<V>, k: nat)
    requires k <= |st.steps|
    ensures var h := S.Init(st.env, st.screen, st.env.session, st.writer);
      Matches(st.env, st.After(k), S.Run(st.env, h, Images(st, k)))
    decreases k
  {
    var h := S.Init(st.env, st.screen, st.env.session, st.writer);
    if k > 0 {
      hide Replay.Next, S.Run, Image, Matches, Story.After;
      RunMatches(st, k - 1);
      OneStep(st, k - 1);
      var image := Image(st.env, st.After(k - 1), st.steps[k - 1]);
      StepMatches(st.env, st.After(k - 1), S.Run(st.env, h, Images(st, k - 1)), st.steps[k - 1]);
      ImageIsShort(st.env, st.After(k - 1), st.steps[k - 1]);
      RunAppend(st.env, h, Images(st, k - 1), image);
    }
  }

  lemma ImageIsShort<V>(env: Env<V>, s: Replay.Sys<V>, step: Replay.Step<V>)
    ensures |Image(env, s, step)| <= 1
  {}

  function AsShare<V>(st: Story<V>): S.Share<V> {
    S.Share(st.env, st.screen, st.env.session, st.writer, Images(st, |st.steps|))
  }

  /** The host of a run of the step system has sealed exactly what it would have sealed as the host of a
      sharing with a single sender; what holds against any relay holds there too. */
  lemma RunIsSharing<V(!new)>(st: Story<V>)
    ensures AsShare(st).Streams() == [S.Stream(st.env.session, st.writer, st.End().log)]
    ensures AsShare(st).End().producer.screen == st.End().producer.screen
    ensures Fair(st) ==> S.FairShare(AsShare(st))
  {
    hide Honest, P.ScreenOk, S.Run, Replay.Next, Replay.Run, Images;
    var moves := Images(st, |st.steps|);
    assert moves[..|moves|] == moves;
    RunMatches(st, |st.steps|);
    SenderStays(st, |st.steps|);
  }

  lemma {:induction false} SenderStays<V>(st: Story<V>, k: nat)
    requires k <= |st.steps|
    ensures st.After(k).producer.sender.writer == st.writer
    decreases k
  {
    if k > 0 {
      hide Replay.Next, Story.After;
      SenderStays(st, k - 1);
      OneStep(st, k - 1);
      NextKeepsWriter(st.env, st.After(k - 1), st.steps[k - 1]);
    }
  }

  lemma NextKeepsWriter<V>(env: Env<V>, s: Replay.Sys<V>, step: Replay.Step<V>)
    requires s.relay.encrypted
    ensures Replay.Next(env, s, step).producer.sender.writer == s.producer.sender.writer
  {
    hide P.Happened, P.Ticked, P.Opened, Encode64;
    S.TurnKeepsSender(env, s.producer);
    match step
    case Happen(event, send) => assert S.SameSender(s.producer, P.Happened(env, s.producer, event).0);
    case Begin(raw, send) =>
      assert S.SameSender(s.producer, P.Opened(env, s.producer, s.relay.cap, Encode64(raw)).0);
    case _ =>
  }
}
