/** What every run of honest parties guarantees, over connections that die, resumes, viewers that join at
    any moment and viewers that fall behind. */
module Agreement {
  import opened Bytes
  import opened Utf8
  import opened Sgr
  import opened Crypto
  import opened Terminal
  import opened Proto
  import opened Replay
  import opened Invariant
  import P = Producer
  import R = Relay
  import H = Handlers
  import W = Viewer

  /** A run: the producer's first screen, its writer id, what the relay was asked for, and all steps. */
  datatype Story<!V> = Story(env: Env<V>, screen: P.ScreenState<V>, writer: Writer, allowInput: bool, cap: nat,
      steps: seq<Step<V>>) {
    function After(k: nat): (s: Sys<V>)
      requires k <= |steps|
      ensures s.relay.encrypted
    {
      Run(env, Init(env, screen, writer, allowInput, cap), steps[..k])
    }

    function End(): (s: Sys<V>)
      ensures s.relay.encrypted
    {
      After(|steps|)
    }
  }

  ghost predicate Fair<V(!new)>(st: Story<V>) {
    Honest(st.env) && P.ScreenOk(st.env.emu, st.screen)
  }

  lemma AlwaysInv<V(!new)>(st: Story<V>, k: nat)
    requires Fair(st) && k <= |st.steps|
    ensures Inv(st.env, st.After(k))
  {
    hide Inv, Honest, P.ScreenOk, Run;
    InitOk(st.env, st.screen, st.writer, st.allowInput, st.cap);
    RunKeeps(st.env, Init(st.env, st.screen, st.writer, st.allowInput, st.cap), st.steps[..k]);
  }

  // The log is history

  /** A step seals at most one frame, and records the screen the producer then has. */
  lemma OneRecordAtATime<V>(env: Env<V>, s: Sys<V>, step: Step<V>)
    requires s.relay.encrypted
    ensures var t := Next(env, s, step);
      t.log == s.log || (exists r: Record<V> :: t.log == s.log + [r] && r.screen == t.producer.screen)
  {
    hide P.Happened, P.Ticked, P.Opened, R.Attached, R.Resumed, R.FedEncrypted, R.Accepts, R.Next, H.Payloads,
        Forwarded, Handled, Encode64;
    var t := Next(env, s, step);
    if t.log != s.log {
      var r := t.log[|s.log|];
      assert t.log == s.log + [r] && r.screen == t.producer.screen;
    }
  }

  lemma OneStep<V>(st: Story<V>, k: nat)
    requires k < |st.steps|
    ensures st.After(k + 1) == Next(st.env, st.After(k), st.steps[k])
  {
    hide Next, Init;
    assert st.steps[..k + 1][..k] == st.steps[..k];
  }

  /** Entry `i` of the log was sealed by step `k`, when the producer's screen was the recorded one. */
  ghost predicate SealedBy<V>(st: Story<V>, i: nat, k: nat) {
    && k < |st.steps| && |st.After(k).log| == i && |st.After(k + 1).log| == i + 1
    && i < |st.End().log| && st.After(k + 1).log[i] == st.End().log[i]
    && st.End().log[i].screen == st.After(k + 1).producer.screen
  }

  lemma {:induction false} LogOnlyGrows<V>(st: Story<V>, j: nat, k: nat)
    requires j <= k <= |st.steps|
    ensures st.After(j).log <= st.After(k).log
    decreases k - j
  {
    if j < k {
      hide Next, Story.After;
      LogOnlyGrows(st, j, k - 1);
      OneStep(st, k - 1);
      OneRecordAtATime(st.env, st.After(k - 1), st.steps[k - 1]);
    }
  }

  lemma NothingAtFirst<V>(st: Story<V>, k: nat)
    requires k <= |st.steps|
    ensures |st.After(k).log| > 0 ==> k > 0
  {
    hide Next;
  }

  lemma NewEntry<V>(st: Story<V>, k: nat)
    requires k < |st.steps| && |st.After(k).log| < |st.After(k + 1).log|
    ensures SealedBy(st, |st.After(k).log|, k) && |st.After(k + 1).log| == |st.After(k).log| + 1
  {
    hide Next, Story.After;
    OneStep(st, k);
    OneRecordAtATime(st.env, st.After(k), st.steps[k]);
    LogOnlyGrows(st, k + 1, |st.steps|);
  }

  lemma {:induction false} SealingStep<V>(st: Story<V>, i: nat, k: nat)
    requires k <= |st.steps| && i < |st.After(k).log|
    ensures exists j: nat :: SealedBy(st, i, j)
    decreases k
  {
    hide Next, Story.After, SealedBy;
    NothingAtFirst(st, k);
    if i < |st.After(k - 1).log| {
      SealingStep(st, i, k - 1);
    } else {
      NewEntry(st, k - 1);
    }
  }

  // Viewers

  /** The page shows the screen the producer had when some step of the run sealed frame `n`. */
  ghost predicate ShowsSealed<V>(st: Story<V>, page: W.Page<V>, n: nat) {
    exists k: nat :: SealedBy(st, n, k) && Shows(st.env, page, st.After(k + 1).producer.screen)
  }

  /** At any moment of any run, a viewer has raised no error, and if the last frame it took was number
      `n` it shows exactly the screen the producer had when it sealed frame `n`, and lets its user type if
      and only if the host shares for input. Before the first frame nobody can type. */
  lemma ViewersAgree<V(!new)>(st: Story<V>, id: nat)
    requires Fair(st) && id in st.End().viewers
    ensures var page := st.End().viewers[id].page;
      && !page.failed && page.allowInput == (page.cipher.last.Some? && st.env.input)
      && (page.cipher.last.Some? ==> ShowsSealed(st, page, page.cipher.last.value))
  {
    hide Fair, LogOk, ProducerOk, LinkOk, HistoryOk, BroadcastOk, Shows, Deliverable, Cursor, Story.After,
        ShowsSealed, SealedBy;
    var s := st.End();
    AlwaysInv(st, |st.steps|);
    var v := s.viewers[id];
    assert ViewerOk(st.env, s.producer.sender.writer, s.log, s.relay.sent, s.acc, v);
    EntryWasSealed(st, s.producer.sender.writer, v.page);
    InputIsHosts(st.env, s.producer.sender.writer, s.log, v.page);
  }

  lemma InputIsHosts<V>(env: Env<V>, writer: Writer, log: seq<Record<V>>, page: W.Page<V>)
    requires PageOk(env, writer, log, page) && MayType(page)
    ensures page.allowInput == (page.cipher.last.Some? && env.input)
  {}

  lemma EntryWasSealed<V>(st: Story<V>, writer: Writer, page: W.Page<V>)
    requires PageOk(st.env, writer, st.End().log, page)
    ensures page.cipher.last.Some? ==> ShowsSealed(st, page, page.cipher.last.value)
  {
    hide Shows, Story.After;
    if page.cipher.last.Some? { SealingStep(st, page.cipher.last.value, |st.steps|); }
  }

  /** Whatever frame comes next on a viewer's socket is one of the log, its cipher opens it, and it is a
      duplicate, the next number or a snapshot. A duplicate leaves the page alone; any other frame leaves
      it showing the screen that was sealed. */
  lemma EveryFrameIsTaken<V(!new)>(st: Story<V>, id: nat)
    requires Fair(st) && id in st.End().viewers
    requires |st.End().viewers[id].wire| > 0 && st.End().viewers[id].wire[0].Data?
    ensures var s, page, frame := st.End(), st.End().viewers[id].page, st.End().viewers[id].wire[0].chunk;
      var next, n := Handled(st.env, s.viewers[id]).page, Number(frame);
      && n < |s.log| && s.log[n].frame == frame
      && W.OpenedBy(st.env, page.cipher, frame).Ok? && !next.failed
      && (n < Past(page) || s.log[n].payload.Snapshot? || 0 < n == Past(page))
      && (n < Past(page) ==> next == page)
      && (n >= Past(page) ==> next.cipher.last == Some(n) && Shows(st.env, next, s.log[n].screen))
  {
    hide Fair, Honest, LogOk, ProducerOk, LinkOk, HistoryOk, BroadcastOk, Shows, Number, Cursor, W.OpenedBy,
        W.CipherAfter, W.ShowSnapshot, Write, Story.After;
    var s := st.End();
    AlwaysInv(st, |st.steps|);
    FairIsHonest(st);
    var v, writer := s.viewers[id], s.producer.sender.writer;
    assert ViewerOk(st.env, writer, s.log, s.relay.sent, s.acc, v);
    assert Pending(s.relay.sent, v)[0] == v.wire[0];
    PageTakes(st.env, writer, Budget(s.relay.cap), s.log, v.page, Number(v.wire[0].chunk));
  }

  lemma FairIsHonest<V(!new)>(st: Story<V>)
    requires Fair(st)
    ensures Honest(st.env)
  {}

  /** A page after handling all of some messages. */
  function ReadAll<V>(env: Env<V>, page: W.Page<V>, msgs: seq<R.Message>): W.Page<V>
    decreases |msgs|
  {
    if |msgs| == 0 then page else ReadAll(env, W.Received(env, page, msgs[0]), msgs[1..])
  }

  lemma FirstIsTaken<V(!new)>(env: Env<V>, writer: Writer, budget: nat, log: seq<Record<V>>, page: W.Page<V>,
      msgs: seq<R.Message>)
    requires Honest(env) && LogOk(env, writer, budget, log) && PageOk(env, writer, log, page)
    requires |msgs| > 0 && Deliverable(log, Past(page), msgs) && MayType(page)
    ensures var next := W.Received(env, page, msgs[0]);
      && PageOk(env, writer, log, next) && MayType(next) && Deliverable(log, Past(next), msgs[1..])
      && Cursor(Past(page), msgs) == Cursor(Past(next), msgs[1..])
  {
    hide Honest, LogOk, PageOk, Number, Takes, W.ReceivedFrame, W.ReceivedControl, MayType;
    match msgs[0] {
      case Data(f) =>
        PageTakes(env, writer, budget, log, page, Number(f));
        NoErrorYet(env, writer, log, W.Received(env, page, msgs[0]));
        FrameKeepsPermission(env, page, f);
      case Ctrl(control) =>
        NoErrorYet(env, writer, log, page);
        ControlKeepsPage(env, writer, log, page, control);
        ControlKeepsPermission(page, control);
    }
  }

  lemma {:induction false} AllAreTaken<V(!new)>(env: Env<V>, writer: Writer, budget: nat, log: seq<Record<V>>,
      page: W.Page<V>, msgs: seq<R.Message>)
    requires Honest(env) && LogOk(env, writer, budget, log) && PageOk(env, writer, log, page)
    requires Deliverable(log, Past(page), msgs) && MayType(page)
    ensures var last := ReadAll(env, page, msgs);
      PageOk(env, writer, log, last) && MayType(last) && Past(last) == Cursor(Past(page), msgs)
    decreases |msgs|
  {
    if |msgs| > 0 {
      hide Honest, LogOk, PageOk, Past, Deliverable, Cursor, W.Received, MayType;
      FirstIsTaken(env, writer, budget, log, page, msgs);
      AllAreTaken(env, writer, budget, log, W.Received(env, page, msgs[0]), msgs[1..]);
    }
  }

  /** While the producer is connected and the relay has read all it sent, every viewer that handles what
      is under way to it, lag or no lag, shows the producer's screen of this moment, and seals its input for
      the epoch of this connection. */
  lemma CaughtUp<V(!new)>(st: Story<V>, id: nat)
    requires Fair(st) && id in st.End().viewers
    requires st.End().producer.phase.Streaming? && st.End().link.Some? && st.End().link.value.frames == []
    ensures var s := st.End();
      && s.viewers[id].next <= |s.relay.sent|
      && var page := ReadAll(st.env, s.viewers[id].page, Pending(s.relay.sent, s.viewers[id]));
      && !page.failed && Shows(st.env, page, s.producer.screen)
      && page.cipher.epoch == Some(s.producer.phase.epoch) && page.allowInput == st.env.input
  {
    hide Fair, Honest, LogOk, HistoryOk, BroadcastOk, Shows, Deliverable, Cursor, HistLen, ReadAll, Story.After;
    var s := st.End();
    AlwaysInv(st, |st.steps|);
    FairIsHonest(st);
    var v, writer := s.viewers[id], s.producer.sender.writer;
    assert ViewerOk(st.env, writer, s.log, s.relay.sent, s.acc, v);
    AllAreTaken(st.env, writer, Budget(s.relay.cap), s.log, v.page, Pending(s.relay.sent, v));
    InputIsHosts(st.env, writer, s.log, ReadAll(st.env, v.page, Pending(s.relay.sent, v)));
  }

  // Budget

  /** The relay reads frames of its current connection. */
  function FedAll<V>(r: R.State<V>, frames: seq<seq<byte>>): R.State<V>
    decreases |frames|
  {
    if |frames| == 0 then r else FedAll(R.FedEncrypted(r, r.epoch, frames[0]), frames[1..])
  }

  predicate AllAccepted<V>(r: R.State<V>, frames: seq<seq<byte>>)
    decreases |frames|
  {
    |frames| == 0 ||
    (R.Accepts(r, r.epoch, frames[0]) && AllAccepted(R.FedEncrypted(r, r.epoch, frames[0]), frames[1..]))
  }

  lemma {:induction false} FedAllAgrees<V>(env: Env<V>, writer: Writer, cap: nat, log: seq<Record<V>>, r: R.State<V>,
      snap: nat, acc: nat, from: nat, frames: seq<seq<byte>>)
    requires LogOk(env, writer, Budget(cap), log) && HistoryOk(r, log, snap, acc) && r.cap == cap
    requires Mirrors(frames, log, from)
    requires if |frames| == 0 then 0 < acc == from else log[from].payload.Snapshot? || 0 < acc == from
    ensures AllAccepted(r, frames) && FedAll(r, frames).historyLen == HistLen(log, from + |frames|)
    decreases |frames|
  {
    if |frames| > 0 {
      hide LogOk, HistoryOk, HistLen, R.FedEncrypted, R.Accepts, R.KindIs;
      var f, rest := frames[0], frames[1..];
      assert f == log[from + 0].frame;
      RelayAccepts(env, writer, cap, log, r, snap, acc, from);
      assert Mirrors(rest, log, from + 1) by {
        forall j | 0 <= j < |rest| ensures rest[j] == log[from + 1 + j].frame { assert rest[j] == frames[j + 1]; }
      }
      var start := if R.KindIs(f, SNAPSHOT) then from else snap;
      FedAllAgrees(env, writer, cap, log, R.FedEncrypted(r, r.epoch, f), start, from + 1, from + 1, rest);
    }
  }

  /** The two counters agree: after reading what is still under way on a live connection, and refusing
      none of it, the relay has counted exactly what the producer has. */
  lemma CountersAgree<V(!new)>(st: Story<V>)
    requires Fair(st) && st.End().producer.phase.Streaming? && st.End().link.Some?
    ensures var s := st.End();
      && AllAccepted(s.relay, s.link.value.frames)
      && FedAll(s.relay, s.link.value.frames).historyLen == s.producer.phase.historyLen <= s.relay.cap
  {
    hide Fair, LogOk, HistoryOk, BroadcastOk, ViewersOk, HistLen, AllAccepted, FedAll, Mirrors, P.ScreenOk,
        ValidToken, Story.After;
    var s := st.End();
    AlwaysInv(st, |st.steps|);
    var frames := s.link.value.frames;
    if |frames| > 0 { NextIsAcceptable(st.env, s); }
    LastFits(st.env, s);
    FedAllAgrees(st.env, s.producer.sender.writer, s.relay.cap, s.log, s.relay, s.snap, s.acc, s.from, frames);
  }

  lemma LastFits<V>(env: Env<V>, s: Sys<V>)
    requires Inv(env, s) && s.producer.phase.Streaming?
    ensures s.producer.phase.historyLen <= s.relay.cap
  {
    hide LogOk, LinkOk, HistoryOk, BroadcastOk, ViewersOk, HistLen;
    var n := |s.log| - 1;
    EntryOk(env, s.producer.sender.writer, Budget(s.relay.cap), s.log, n);
    EntryFits(env, s.producer.sender.writer, Budget(s.relay.cap), s.log, n);
  }

  lemma EntryFits<V>(env: Env<V>, writer: Writer, budget: nat, log: seq<Record<V>>, i: nat)
    requires i < |log| && RecordOk(env, writer, budget, log, i)
    ensures HistLen(log, i + 1) <= budget
  {
    hide HistLen, Genuine, P.ScreenOk, Tells;
  }

  /** No honest frame is refused: the handler of the live connection accepts whatever it reads, and
      viewers are never told by broadcast that the replay is gone. */
  lemma NothingIsRefused<V(!new)>(st: Story<V>)
    requires Fair(st)
    ensures var s := st.End();
      && R.Ctrl(R.ReplayUnavailable) !in s.relay.sent
      && (s.link.Some? && |s.link.value.frames| > 0 ==>
            R.Accepts(s.relay, s.relay.epoch, s.link.value.frames[0]) && Delivered(s).link.Some?)
  {
    hide Fair, LogOk, ProducerOk, LinkOk, HistoryOk, ViewersOk, R.Accepts, Delivered, Story.After;
    var s := st.End();
    AlwaysInv(st, |st.steps|);
    if s.link.Some? { DeliverKeeps(st.env, s); }
  }

  // Checkpoints

  /** A snapshot marked as a checkpoint repeats the terminal contents and size of the frame before it,
      and a connection opens with a snapshot that is not one. */
  lemma CheckpointsAreRedundant<V(!new)>(st: Story<V>, i: nat)
    requires Fair(st) && i < |st.End().log|
    ensures var log := st.End().log;
      && (log[i].payload.Snapshot? && log[i].payload.checkpoint ==>
            i > 0 && P.SameTerminal(log[i - 1].screen, log[i].screen))
      && (log[i].opening || i == st.End().base ==> log[i].payload.Snapshot? && !log[i].payload.checkpoint)
  {
    hide Fair, LogOk, ProducerOk, HistoryOk, BroadcastOk, ViewersOk, Genuine, P.SnapshotOf, P.Updated, P.ScreenOk,
        P.SameTerminal, HistLen, ValidToken, Mirrors, Story.After;
    var s := st.End();
    AlwaysInv(st, |st.steps|);
    EntryOk(st.env, s.producer.sender.writer, Budget(s.relay.cap), s.log, i);
  }
}
