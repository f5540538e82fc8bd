/** The invariant of the step system, and that every step keeps it. */
module Invariant {
  import opened Bytes
  import opened Utf8
  import opened Sgr
  import opened Crypto
  import opened Terminal
  import opened Proto
  import opened Replay
  import P = Producer
  import R = Relay
  import H = Handlers
  import W = Viewer

  // What a viewer ought to show

  ghost predicate Shows<V>(env: Env<V>, page: W.Page<V>, screen: P.ScreenState<V>) {
    && page.term == screen.Shown()
    && env.emu.size(page.term.vt) == (screen.cols, screen.rows)
    && page.title == (if screen.title.Some? then screen.title.value else [])
    && page.cwd == (if screen.cwd.Some? then screen.cwd.value else [])
    && page.exit == screen.exit
    && page.name == env.name && page.cmd == env.cmd && page.input == env.input
  }

  // The log

  /** The relay's count after accepting the first `k` frames of the log. */
  function HistLen<V>(log: seq<Record<V>>, k: nat): nat
    requires k <= |log|
  {
    if k == 0 then 0
    else |log[k - 1].frame| + (if log[k - 1].payload.Snapshot? then 0 else HistLen(log, k - 1))
  }

  /** The input epoch of the latest snapshot up to entry `n`. */
  function EpochAt<V>(log: seq<Record<V>>, n: nat): Text
    requires n < |log|
  {
    if log[n].payload.Snapshot? then log[n].payload.epoch else if n == 0 then [] else EpochAt(log, n - 1)
  }

  /** The frame carries number `i` of this stream and opens to the recorded payload. */
  ghost predicate Genuine<V>(env: Env<V>, writer: Writer, i: nat, r: Record<V>) {
    && i <= U64_MAX && |r.frame| == P.SealedLen(env, r.payload)
    && ParseHeader(r.frame) == Ok(Header(P.KindOf(r.payload), writer, i))
    && OpenFrame(env.aead, env.material, env.session, r.frame, false)
       == Ok((Header(P.KindOf(r.payload), writer, i), env.codec.encode(r.payload)))
  }

  /** The payload of entry `i` tells the screen of entry `i`, a checkpoint is redundant, and an output
      turns the screen of the entry before into this one. */
  ghost predicate Tells<V>(env: Env<V>, log: seq<Record<V>>, i: nat)
    requires i < |log|
  {
    var r := log[i];
    match r.payload
    case Snapshot(_,_,_,_,_,_,_,epoch,_,_,_,checkpoint) =>
      && r.payload == P.SnapshotOf(env, r.screen, epoch, checkpoint) && ValidToken(epoch)
      && (checkpoint ==> i > 0 && !r.opening && P.SameTerminal(log[i - 1].screen, r.screen))
    case Output(bytes) => i > 0 && !r.opening && r.screen == P.Updated(env.emu, log[i - 1].screen, P.Printed(bytes))
    case Input(_, _) => false
  }

  ghost predicate RecordOk<V>(env: Env<V>, writer: Writer, budget: nat, log: seq<Record<V>>, i: nat)
    requires i < |log|
  {
    && Genuine(env, writer, i, log[i]) && P.ScreenOk(env.emu, log[i].screen)
    && Tells(env, log, i) && HistLen(log, i + 1) <= budget
  }

  ghost predicate LogOk<V>(env: Env<V>, writer: Writer, budget: nat, log: seq<Record<V>>) {
    forall i :: 0 <= i < |log| ==> RecordOk(env, writer, budget, log, i)
  }

  // Producer and connection

  ghost predicate ProducerOk<V>(env: Env<V>, p: P.State<V>, log: seq<Record<V>>, base: nat, budget: nat) {
    && P.ScreenOk(env.emu, p.screen)
    && p.sender.material == env.material && p.sender.session == env.session && !p.sender.input
    && (!p.phase.Failed? ==> p.sender.sequence == |log|)
    && (p.phase.Connecting? ==> base == |log|)
    && (p.phase.Streaming? ==>
          && base < |log| && log[|log| - 1].screen == p.screen && ValidToken(p.phase.epoch)
          && p.phase.budget == budget && p.phase.historyLen == HistLen(log, |log|)
          && p.phase.epoch == EpochAt(log, |log| - 1))
  }

  ghost predicate Mirrors<V>(frames: seq<seq<byte>>, log: seq<Record<V>>, k: nat) {
    k + |frames| <= |log| && forall j :: 0 <= j < |frames| ==> frames[j] == log[k + j].frame
  }

  ghost predicate LinkOk<V>(phase: P.Phase, link: Option<Link>, log: seq<Record<V>>, base: nat, from: nat, acc: nat) {
    && base <= |log| && (base < |log| ==> log[base].opening)
    && (link.Some? ==>
          && base <= from && Mirrors(link.value.frames, log, from)
          && acc <= from && (from > base ==> acc == from)
          && (phase.Streaming? || phase.Connecting? ==> from + |link.value.frames| == |log|))
  }

  // Relay

  ghost predicate HistoryOk<V>(r: R.State<V>, log: seq<Record<V>>, snap: nat, acc: nat) {
    && r.encrypted && acc <= |log|
    && (if acc == 0 then r.history == [] && !r.replayReady
        else
          && r.replayReady && snap < acc && log[snap].payload.Snapshot?
          && |r.history| == acc - snap && Mirrors(r.history, log, snap) && r.historyLen == HistLen(log, acc))
  }

  /** Only the join of a viewer may say that there is no replay; it is never broadcast. */
  predicate Harmless(m: R.Message) {
    m.Data? || m.control.StatusIs? || m.control.Exit?
  }

  ghost predicate BroadcastOk<V>(r: R.State<V>) {
    forall m :: m in r.sent ==> Harmless(m)
  }

  // Viewers

  function Number(frame: seq<byte>): nat {
    var h := ParseHeader(frame);
    if h.Ok? then h.value.sequence else 0
  }

  function Max(a: nat, b: nat): nat { if a < b then b else a }

  /** How many frames of the log a viewer is past after more messages. */
  function Cursor(c: nat, msgs: seq<R.Message>): nat
    decreases |msgs|
  {
    if |msgs| == 0 then c
    else Cursor(if msgs[0].Data? then Max(c, Number(msgs[0].chunk) + 1) else c, msgs[1..])
  }

  /** A viewer past `c` frames can take entry `i`: it has seen it, it is a snapshot, or it is next. */
  ghost predicate Takes<V>(log: seq<Record<V>>, c: nat, i: nat) {
    i < |log| && (i < c || log[i].payload.Snapshot? || (0 < c && i == c))
  }

  ghost predicate Deliverable<V>(log: seq<Record<V>>, c: nat, msgs: seq<R.Message>)
    decreases |msgs|
  {
    |msgs| == 0 ||
    match msgs[0]
    case Data(f) =>
      Takes(log, c, Number(f)) && log[Number(f)].frame == f && Deliverable(log, Max(c, Number(f) + 1), msgs[1..])
    case Ctrl(control) => !control.Init? && (control.ReplayUnavailable? ==> c == 0) && Deliverable(log, c, msgs[1..])
  }

  function Past<V>(page: W.Page<V>): nat {
    if page.cipher.last.None? then 0 else page.cipher.last.value + 1
  }

  ghost predicate PageOk<V>(env: Env<V>, writer: Writer, log: seq<Record<V>>, page: W.Page<V>) {
    && !page.failed
    && (page.cipher.last.None? ==> page.cipher.writer.None?)
    && (page.cipher.last.Some? ==>
          var n := page.cipher.last.value;
          && n < |log| && page.cipher.writer == Some(writer) && page.cipher.epoch == Some(EpochAt(log, n))
          && Shows(env, page, log[n].screen))
  }

  function Pending<V>(sent: seq<R.Message>, v: Viewer<V>): seq<R.Message>
    requires v.next <= |sent|
  {
    v.wire + sent[v.next..]
  }

  /** The page lets its user type if the snapshots it has taken say so, and not before the first. */
  predicate MayType<V>(page: W.Page<V>) {
    page.allowInput == page.input && (page.cipher.last.None? ==> !page.input)
  }

  /** Everything under way to the viewer can be taken in turn, and ends where the relay is. */
  ghost predicate ViewerOk<V>(env: Env<V>, writer: Writer, log: seq<Record<V>>, sent: seq<R.Message>, acc: nat,
      v: Viewer<V>) {
    && v.next <= |sent| && PageOk(env, writer, log, v.page) && MayType(v.page)
    && Deliverable(log, Past(v.page), Pending(sent, v)) && Cursor(Past(v.page), Pending(sent, v)) == acc
  }

  ghost predicate ViewersOk<V>(env: Env<V>, writer: Writer, log: seq<Record<V>>, sent: seq<R.Message>, acc: nat,
      viewers: map<nat, Viewer<V>>) {
    forall id :: id in viewers ==> ViewerOk(env, writer, log, sent, acc, viewers[id])
  }

  function Budget(cap: nat): nat { P.Min(cap, MAX_ENCRYPTED_FRAME) }

  ghost predicate Inv<V>(env: Env<V>, s: Sys<V>) {
    var writer, budget := s.producer.sender.writer, Budget(s.relay.cap);
    && LogOk(env, writer, budget, s.log)
    && ProducerOk(env, s.producer, s.log, s.base, budget)
    && LinkOk(s.producer.phase, s.link, s.log, s.base, s.from, s.acc)
    && HistoryOk(s.relay, s.log, s.snap, s.acc)
    && BroadcastOk(s.relay)
    && ViewersOk(env, writer, s.log, s.relay.sent, s.acc, s.viewers)
  }

  // Messages, appended

  lemma {:induction false} CursorAppend(c: nat, a: seq<R.Message>, b: seq<R.Message>)
    ensures Cursor(c, a + b) == Cursor(Cursor(c, a), b)
    ensures c <= Cursor(c, a)
    decreases |a|
  {
    hide Number;
    if |a| == 0 {
      assert a + b == b;
    } else {
      assert (a + b)[1..] == a[1..] + b;
      CursorAppend(if a[0].Data? then Max(c, Number(a[0].chunk) + 1) else c, a[1..], b);
    }
  }

  lemma {:induction false} DeliverableAppend<V>(log: seq<Record<V>>, c: nat, a: seq<R.Message>, b: seq<R.Message>)
    ensures Deliverable(log, c, a + b) <==> Deliverable(log, c, a) && Deliverable(log, Cursor(c, a), b)
    decreases |a|
  {
    hide Number, Takes;
    if |a| == 0 {
      assert a + b == b;
    } else {
      assert (a + b)[1..] == a[1..] + b && (a + b)[0] == a[0];
      DeliverableAppend(log, if a[0].Data? then Max(c, Number(a[0].chunk) + 1) else c, a[1..], b);
    }
  }

  lemma {:induction false} DeliverableGrows<V>(log: seq<Record<V>>, more: seq<Record<V>>, c: nat, msgs: seq<R.Message>)
    requires Deliverable(log, c, msgs)
    ensures Deliverable(log + more, c, msgs)
    decreases |msgs|
  {
    hide Number;
    if |msgs| > 0 {
      DeliverableGrows(log, more, if msgs[0].Data? then Max(c, Number(msgs[0].chunk) + 1) else c, msgs[1..]);
    }
  }

  lemma OneControl<V>(log: seq<Record<V>>, c: nat, control: R.Control)
    requires !control.Init? && (control.ReplayUnavailable? ==> c == 0)
    ensures Deliverable(log, c, [R.Ctrl(control)]) && Cursor(c, [R.Ctrl(control)]) == c
  {
    var m := [R.Ctrl(control)];
    assert m[1..] == [];
  }

  lemma OneFrame<V>(log: seq<Record<V>>, c: nat, i: nat)
    requires Takes(log, c, i) && Number(log[i].frame) == i
    ensures var m := [R.Data(log[i].frame)]; Deliverable(log, c, m) && Cursor(c, m) == Max(c, i + 1)
  {
    hide Number;
    var m := [R.Data(log[i].frame)];
    assert m[1..] == [];
  }

  lemma GenuineNumber<V>(env: Env<V>, writer: Writer, budget: nat, log: seq<Record<V>>, i: nat)
    requires LogOk(env, writer, budget, log) && i < |log|
    ensures Number(log[i].frame) == i
  {
    hide ParseHeader, OpenFrame, Tells;
    assert RecordOk(env, writer, budget, log, i);
  }

  /** A replay from entry `k` on can be taken by any viewer, if it starts with a snapshot or the viewer
      is already past all before it; duplicates are skipped, and the viewer ends up at the replay's end. */
  lemma {:induction false} ReplayIsDeliverable<V>(env: Env<V>, writer: Writer, budget: nat, log: seq<Record<V>>,
      c: nat, frames: seq<seq<byte>>, k: nat)
    requires LogOk(env, writer, budget, log) && Mirrors(frames, log, k)
    requires |frames| > 0 ==> log[k].payload.Snapshot? || 0 < k <= c
    ensures Deliverable(log, c, H.DataOf(frames))
    ensures Cursor(c, H.DataOf(frames)) == if |frames| == 0 then c else Max(c, k + |frames|)
    decreases |frames|
  {
    if |frames| > 0 {
      hide LogOk, Number, Deliverable, Cursor;
      var rest := frames[1..];
      GenuineNumber(env, writer, budget, log, k);
      OneFrame(log, c, k);
      assert frames[0] == log[k + 0].frame;
      assert Mirrors(rest, log, k + 1) by {
        forall j | 0 <= j < |rest| ensures rest[j] == log[k + 1 + j].frame { assert rest[j] == frames[j + 1]; }
      }
      ReplayIsDeliverable(env, writer, budget, log, Max(c, k + 1), rest, k + 1);
      DeliverableAppend(log, c, [R.Data(frames[0])], H.DataOf(rest));
      CursorAppend(c, [R.Data(frames[0])], H.DataOf(rest));
    }
  }

  // A page takes a frame

  /** A snapshot that is restored, or that finds its very screen on the page already, is shown. */
  lemma SnapshotIsShown<V(!new)>(env: Env<V>, page: W.Page<V>, screen: P.ScreenState<V>, epoch: Text,
      checkpoint: bool, restore: bool)
    requires Lawful(env.emu) && P.ScreenOk(env.emu, screen)
    requires restore || (page.term == screen.Shown() && env.emu.size(page.term.vt) == (screen.cols, screen.rows))
    ensures Shows(env, W.ShowSnapshot(env.emu, page, P.SnapshotOf(env, screen, epoch, checkpoint), restore), screen)
  {
    hide Restored, DumpText, Decode;
    var fits := env.emu.size(page.term.vt) == (screen.cols, screen.rows);
    var sized := if fits then page.term else page.term.(vt := env.emu.resize(page.term.vt, screen.cols, screen.rows));
    RestoreIsExact(env.emu, screen.Shown(), sized.vt);
  }

  lemma OutputIsShown<V(!new)>(env: Env<V>, page: W.Page<V>, screen: P.ScreenState<V>, bytes: seq<byte>)
    requires KeepsSizes(env.emu) && Shows(env, page, screen)
    ensures Shows(env, page.(term := Write(env.emu, page.term, bytes)), P.Updated(env.emu, screen, P.Printed(bytes)))
  {
    hide Decode;
  }

  /** What the cipher of a sound page makes of entry `i`. */
  lemma OpensEntry<V>(env: Env<V>, writer: Writer, page: W.Page<V>, i: nat, r: Record<V>)
    requires RoundTrips(env.codec) && Genuine(env, writer, i, r) && !r.payload.Input?
    requires page.cipher.writer.None? || page.cipher.writer == Some(writer)
    ensures W.OpenedBy(env, page.cipher, r.frame) == W.Judged(page.cipher.last, P.KindOf(r.payload), i, Some(r.payload))
    ensures W.Decrypted(env, page.cipher, r.frame)
            == Ok((Header(P.KindOf(r.payload), writer, i), env.codec.encode(r.payload)))
  {
    hide ParseHeader, OpenFrame, W.Judged;
  }

  /** A sound page takes any entry it can: a duplicate changes nothing, any other entry is shown, and no
      error is raised. */
  lemma PageTakes<V(!new)>(env: Env<V>, writer: Writer, budget: nat, log: seq<Record<V>>, page: W.Page<V>, i: nat)
    requires Honest(env) && LogOk(env, writer, budget, log) && PageOk(env, writer, log, page)
    requires Takes(log, Past(page), i)
    ensures var next := W.ReceivedFrame(env, page, log[i].frame);
      && PageOk(env, writer, log, next) && Past(next) == Max(Past(page), i + 1)
      && (i < Past(page) ==> next == page)
      && (i >= Past(page) ==> next.cipher.last == Some(i) && Shows(env, next, log[i].screen))
  {
    hide LogOk, Genuine, P.ScreenOk, Shows, Lawful, RoundTrips, Correct, W.ShowSnapshot, Write, W.OpenedBy,
        W.Decrypted, P.SnapshotOf, P.Updated, ValidToken;
    var r := log[i];
    EntryOk(env, writer, budget, log, i);
    OpensEntry(env, writer, page, i, r);
    if i >= Past(page) {
      if r.payload.Snapshot? {
        SnapshotEntry(env, writer, budget, log, page, i);
      } else {
        OutputEntry(env, writer, budget, log, page, i);
      }
    }
  }

  lemma EntryOk<V>(env: Env<V>, writer: Writer, budget: nat, log: seq<Record<V>>, i: nat)
    requires LogOk(env, writer, budget, log) && i < |log|
    ensures RecordOk(env, writer, budget, log, i)
    ensures !log[i].payload.Input? && i <= U64_MAX
  {
    hide ParseHeader, OpenFrame, P.ScreenOk, P.SnapshotOf, ValidToken;
  }

  lemma SnapshotEntry<V(!new)>(env: Env<V>, writer: Writer, budget: nat, log: seq<Record<V>>, page: W.Page<V>, i: nat)
    requires Honest(env) && LogOk(env, writer, budget, log) && PageOk(env, writer, log, page)
    requires Past(page) <= i < |log| && log[i].payload.Snapshot?
    ensures var next := W.ReceivedFrame(env, page, log[i].frame);
      && PageOk(env, writer, log, next) && next.cipher.last == Some(i) && Shows(env, next, log[i].screen)
  {
    hide LogOk, Genuine, Lawful, RoundTrips, Correct, W.ShowSnapshot, W.OpenedBy, W.Decrypted, P.SnapshotOf, ValidToken;
    var r := log[i];
    EntryOk(env, writer, budget, log, i);
    OpensEntry(env, writer, page, i, r);
    SnapshotIsValid(env, r.screen, r.payload.epoch, r.payload.checkpoint);
    var restore := !(r.payload.checkpoint && W.Follows(page.cipher.last, i));
    var taken := page.(cipher := W.CipherAfter(env, page.cipher, r.frame));
    SnapshotIsShown(env, taken, r.screen, r.payload.epoch, r.payload.checkpoint, restore);
  }

  lemma SnapshotIsValid<V>(env: Env<V>, screen: P.ScreenState<V>, epoch: Text, checkpoint: bool)
    requires P.ScreenOk(env.emu, screen) && ValidToken(epoch)
    ensures var p := P.SnapshotOf(env, screen, epoch, checkpoint);
      W.ValidSnapshot(p) && p.epoch == epoch && p.checkpoint == checkpoint
  {
    hide ValidToken, Decode, DumpText;
  }

  lemma OutputEntry<V(!new)>(env: Env<V>, writer: Writer, budget: nat, log: seq<Record<V>>, page: W.Page<V>, i: nat)
    requires Honest(env) && LogOk(env, writer, budget, log) && PageOk(env, writer, log, page)
    requires 0 < Past(page) == i < |log| && log[i].payload.Output?
    ensures var next := W.ReceivedFrame(env, page, log[i].frame);
      && PageOk(env, writer, log, next) && next.cipher.last == Some(i) && Shows(env, next, log[i].screen)
  {
    hide LogOk, Genuine, P.ScreenOk, RoundTrips, Correct, Write, W.OpenedBy, W.Decrypted, P.Updated, Streams,
        DumpRestores;
    var r := log[i];
    EntryOk(env, writer, budget, log, i);
    OpensEntry(env, writer, page, i, r);
    OutputIsShown(env, page.(cipher := W.CipherAfter(env, page.cipher, r.frame)), log[i - 1].screen, r.payload.bytes);
  }

  // The log grows

  lemma {:induction false} HistLenGrows<V>(log: seq<Record<V>>, more: seq<Record<V>>, k: nat)
    requires k <= |log|
    ensures HistLen(log + more, k) == HistLen(log, k)
    decreases k
  {
    if k > 0 { HistLenGrows(log, more, k - 1); }
  }

  lemma {:induction false} EpochAtGrows<V>(log: seq<Record<V>>, more: seq<Record<V>>, n: nat)
    requires n < |log|
    ensures EpochAt(log + more, n) == EpochAt(log, n)
    decreases n
  {
    if n > 0 { EpochAtGrows(log, more, n - 1); }
  }

  lemma LogGrows<V>(env: Env<V>, writer: Writer, budget: nat, log: seq<Record<V>>, r: Record<V>)
    requires LogOk(env, writer, budget, log)
    requires RecordOk(env, writer, budget, log + [r], |log|)
    ensures LogOk(env, writer, budget, log + [r])
  {
    hide Genuine, P.ScreenOk, P.SnapshotOf, P.Updated, ValidToken;
    var more := log + [r];
    forall i | 0 <= i < |more| ensures RecordOk(env, writer, budget, more, i) {
      if i < |log| {
        assert RecordOk(env, writer, budget, log, i);
        HistLenGrows(log, [r], i + 1);
      }
    }
  }

  lemma PageOkGrows<V>(env: Env<V>, writer: Writer, log: seq<Record<V>>, more: seq<Record<V>>, page: W.Page<V>)
    requires PageOk(env, writer, log, page)
    ensures PageOk(env, writer, log + more, page)
  {
    hide Shows, EpochAt;
    if page.cipher.last.Some? { EpochAtGrows(log, more, page.cipher.last.value); }
  }

  lemma PageGrows<V>(env: Env<V>, writer: Writer, log: seq<Record<V>>, more: seq<Record<V>>, sent: seq<R.Message>,
      acc: nat, viewers: map<nat, Viewer<V>>)
    requires ViewersOk(env, writer, log, sent, acc, viewers)
    ensures ViewersOk(env, writer, log + more, sent, acc, viewers)
  {
    hide Shows, Deliverable, Cursor, EpochAt;
    forall id | id in viewers ensures ViewerOk(env, writer, log + more, sent, acc, viewers[id]) {
      var v := viewers[id];
      assert ViewerOk(env, writer, log, sent, acc, v);
      PageOkGrows(env, writer, log, more, v.page);
      DeliverableGrows(log, more, Past(v.page), Pending(sent, v));
    }
  }

  lemma HistoryGrows<V>(r: R.State<V>, log: seq<Record<V>>, more: seq<Record<V>>, snap: nat, acc: nat)
    requires HistoryOk(r, log, snap, acc)
    ensures HistoryOk(r, log + more, snap, acc)
  {
    hide HistLen;
    HistLenGrows(log, more, acc);
  }

  // A frame is sealed

  lemma SealedIsGenuine<V(!new)>(env: Env<V>, sender: SenderState, payload: Payload, screen: P.ScreenState<V>,
      opening: bool)
    requires Correct(env.aead) && !payload.Input?
    requires sender.material == env.material && sender.session == env.session && !sender.input
    requires P.SealPayload(env, sender, payload).Ok?
    ensures var frame := P.SealPayload(env, sender, payload).value;
      Genuine(env, sender.writer, sender.sequence, Record(frame, payload, screen, opening))
    ensures P.SenderAfter(env, sender, payload) == sender.(sequence := sender.sequence + 1)
  {
    hide PrintHeader, Nonce, Aad, Derive, ParseHeader, OpenFrame;
    SealedFrameOpens(env.aead, sender, P.KindOf(payload), env.codec.encode(payload));
  }

  /** The producer is on, or about to be on, a connection and up to date with the log. */
  ghost predicate Ready<V>(env: Env<V>, p: P.State<V>, log: seq<Record<V>>) {
    && P.ScreenOk(env.emu, p.screen) && p.sender.sequence == |log|
    && p.sender.material == env.material && p.sender.session == env.session && !p.sender.input
  }

  /** A turn of the producer does one of two things: it stops for good, or it adds to the log an entry
      that tells its screen, and counts as the relay will. The budget of this connection is at most `limit`,
      within which the relay's count stayed on all connections so far. */
  ghost predicate TurnOk<V>(env: Env<V>, p: P.State<V>, turn: (P.State<V>, Option<P.Emission>), log: seq<Record<V>>,
      budget: nat, limit: nat, opening: bool) {
    var q := turn.0;
    && P.ScreenOk(env.emu, q.screen) && q.sender.writer == p.sender.writer
    && q.sender.material == env.material && q.sender.session == env.session && !q.sender.input
    && (turn.1.None? ==> q.phase.Failed?)
    && (turn.1.Some? ==>
          var more := log + [Record(turn.1.value.frame, turn.1.value.payload, q.screen, opening)];
          && LogOk(env, p.sender.writer, limit, more) && q.sender.sequence == |more|
          && (opening ==> turn.1.value.payload.Snapshot?)
          && q.phase.Streaming? && q.phase.budget == budget && q.phase.historyLen == HistLen(more, |more|)
          && ValidToken(q.phase.epoch) && q.phase.epoch == EpochAt(more, |more| - 1))
  }

  lemma SnapshotTurn<V(!new)>(env: Env<V>, p: P.State<V>, log: seq<Record<V>>, budget: nat, limit: nat,
      epoch: Text, checkpoint: bool, opening: bool)
    requires Honest(env) && LogOk(env, p.sender.writer, limit, log) && Ready(env, p, log) && ValidToken(epoch)
    requires checkpoint ==> |log| > 0 && !opening && P.SameTerminal(log[|log| - 1].screen, p.screen)
    requires budget <= limit
    ensures TurnOk(env, p, P.EmitSnapshot(env, p, budget, epoch, checkpoint), log, budget, limit, opening)
  {
    hide LogOk, Genuine, P.ScreenOk, P.SnapshotOf, ValidToken, P.SealPayload, Lawful, RoundTrips, Correct,
        P.SameTerminal;
    var payload := P.SnapshotOf(env, p.screen, epoch, checkpoint);
    var sealed := P.SealPayload(env, p.sender, payload);
    SnapshotFields(env, p.screen, epoch, checkpoint);
    if sealed.Ok? && |sealed.value| <= budget {
      SealedIsGenuine(env, p.sender, payload, p.screen, opening);
      var r := Record(sealed.value, payload, p.screen, opening);
      var more := log + [r];
      GenuineLen(env, p.sender.writer, |log|, r);
      assert Tells(env, more, |log|);
      LogGrows(env, p.sender.writer, limit, log, r);
    }
  }

  lemma SnapshotFields<V>(env: Env<V>, screen: P.ScreenState<V>, epoch: Text, checkpoint: bool)
    ensures var p := P.SnapshotOf(env, screen, epoch, checkpoint);
      p.Snapshot? && p.epoch == epoch && p.checkpoint == checkpoint
  {}

  lemma GenuineLen<V>(env: Env<V>, writer: Writer, i: nat, r: Record<V>)
    requires Genuine(env, writer, i, r)
    ensures |r.frame| == P.SealedLen(env, r.payload)
  {
    hide ParseHeader, OpenFrame;
  }

  lemma OutputTurn<V(!new)>(env: Env<V>, p: P.State<V>, log: seq<Record<V>>, limit: nat, bytes: seq<byte>,
      phase: P.Phase)
    requires Honest(env) && LogOk(env, p.sender.writer, limit, log) && Ready(env, p, log)
    requires |log| > 0 && p.screen == P.Updated(env.emu, log[|log| - 1].screen, P.Printed(bytes))
    requires phase.Streaming? && phase.budget <= limit && ValidToken(phase.epoch)
    requires phase.epoch == EpochAt(log, |log| - 1)
    requires phase.historyLen == HistLen(log, |log|) + P.SealedLen(env, Payload.Output(bytes)) <= phase.budget
    ensures TurnOk(env, p, P.Emit(env, p, Payload.Output(bytes), phase), log, phase.budget, limit, false)
  {
    hide LogOk, Genuine, P.ScreenOk, P.Updated, ValidToken, P.SealPayload, Lawful, RoundTrips, Correct;
    var payload := Payload.Output(bytes);
    var sealed := P.SealPayload(env, p.sender, payload);
    if sealed.Ok? {
      SealedIsGenuine(env, p.sender, payload, p.screen, false);
      var r := Record(sealed.value, payload, p.screen, false);
      var more := log + [r];
      GenuineLen(env, p.sender.writer, |log|, r);
      HistLenGrows(log, [r], |log|);
      EpochAtGrows(log, [r], |log| - 1);
      assert Tells(env, more, |log|);
      LogGrows(env, p.sender.writer, limit, log, r);
    }
  }

  lemma OpenedTurn<V(!new)>(env: Env<V>, p: P.State<V>, log: seq<Record<V>>, cap: nat, limit: nat,
      raw: seq<byte>)
    requires Honest(env) && LogOk(env, p.sender.writer, limit, log) && Ready(env, p, log) && |raw| == 32
    requires Budget(cap) <= limit
    ensures TurnOk(env, p, P.Opened(env, p, cap, Encode64(raw)), log, Budget(cap), limit, true)
  {
    hide LogOk, P.ScreenOk, ValidToken, P.EmitSnapshot, Lawful, RoundTrips, Correct, Encode64;
    EpochIsValid(raw);
    SnapshotTurn(env, p, log, Budget(cap), limit, Encode64(raw), false, true);
  }

  lemma TickedTurn<V(!new)>(env: Env<V>, p: P.State<V>, log: seq<Record<V>>, base: nat, budget: nat,
      limit: nat)
    requires Honest(env) && LogOk(env, p.sender.writer, limit, log) && ProducerOk(env, p, log, base, budget)
    requires p.phase.Streaming? && p.phase.dirty && budget <= limit
    ensures TurnOk(env, p, P.Ticked(env, p), log, budget, limit, false)
  {
    hide LogOk, P.ScreenOk, ValidToken, P.EmitSnapshot, Lawful, RoundTrips, Correct;
    SnapshotTurn(env, p, log, budget, limit, p.phase.epoch, true, false);
  }

  lemma HappenedTurn<V(!new)>(env: Env<V>, p: P.State<V>, log: seq<Record<V>>, base: nat, budget: nat,
      limit: nat, event: P.Event)
    requires Honest(env) && LogOk(env, p.sender.writer, limit, log) && ProducerOk(env, p, log, base, budget)
    requires p.phase.Streaming? && budget <= limit
    ensures TurnOk(env, p, P.Happened(env, p, event), log, budget, limit, false)
  {
    hide LogOk, P.ScreenOk, P.Updated, ValidToken, P.EmitSnapshot, P.Emit, Streams, KeepsSizes, DumpRestores,
        RoundTrips, Correct, P.SameTerminal;
    var q := p.(screen := P.Updated(env.emu, p.screen, event));
    UpdatedOk(env.emu, p.screen, event);
    var link := p.phase;
    if event.Printed? {
      var len := link.historyLen + P.SealedLen(env, Payload.Output(event.bytes));
      if len <= link.budget {
        OutputTurn(env, q, log, limit, event.bytes, link.(historyLen := len, dirty := true));
      } else {
        SnapshotTurn(env, q, log, budget, limit, link.epoch, false, false);
      }
    } else {
      MetadataKeepsTerminal(env.emu, p.screen, event);
      SnapshotTurn(env, q, log, budget, limit, link.epoch, event.Reported? || event.Ended?, false);
    }
  }

  lemma UpdatedOk<V(!new)>(emu: Emulator<V>, screen: P.ScreenState<V>, event: P.Event)
    requires Lawful(emu) && P.ScreenOk(emu, screen)
    ensures P.ScreenOk(emu, P.Updated(emu, screen, event))
  {
    hide P.ScreenOk, P.Updated, KeepsSizes;
    P.UpdatedOk(emu, screen, event);
  }

  lemma MetadataKeepsTerminal<V>(emu: Emulator<V>, screen: P.ScreenState<V>, event: P.Event)
    ensures event.Reported? || event.Ended? ==> P.SameTerminal(screen, P.Updated(emu, screen, event))
  {
    hide Decode;
  }

  // Every step keeps the invariant

  lemma DispatchKeeps<V>(env: Env<V>, s: Sys<V>, turn: (P.State<V>, Option<P.Emission>), send: Send, opening: bool)
    requires Inv(env, s)
    requires s.producer.phase.Streaming? || s.producer.phase.Connecting?
    requires opening <==> s.producer.phase.Connecting?
    requires TurnOk(env, s.producer, turn, s.log, Budget(s.relay.cap), Budget(s.relay.cap), opening)
    ensures Inv(env, Dispatched(s, turn, send, opening))
  {
    hide LogOk, P.ScreenOk, ValidToken, HistLen, HistoryOk, BroadcastOk, ViewersOk;
    var d := Dispatched(s, turn, send, opening);
    if turn.1.Some? {
      var r := Record(turn.1.value.frame, turn.1.value.payload, turn.0.screen, opening);
      HistoryGrows(s.relay, s.log, [r], s.snap, s.acc);
      PageGrows(env, s.producer.sender.writer, s.log, [r], s.relay.sent, s.acc, s.viewers);
    }
  }

  lemma QuietKeeps<V(!new)>(env: Env<V>, s: Sys<V>, event: P.Event)
    requires Honest(env) && Inv(env, s) && !s.producer.phase.Streaming?
    ensures Inv(env, s.(producer := s.producer.(screen := P.Updated(env.emu, s.producer.screen, event))))
  {
    hide LogOk, P.ScreenOk, P.Updated, ValidToken, HistLen, HistoryOk, LinkOk, BroadcastOk, ViewersOk, Lawful;
    UpdatedOk(env.emu, s.producer.screen, event);
  }

  /** A broadcast that a viewer at the relay's point can take reaches every viewer in order. */
  lemma BroadcastReaches<V>(env: Env<V>, writer: Writer, log: seq<Record<V>>, sent: seq<R.Message>, acc: nat,
      viewers: map<nat, Viewer<V>>, m: R.Message)
    requires ViewersOk(env, writer, log, sent, acc, viewers) && Deliverable(log, acc, [m])
    ensures ViewersOk(env, writer, log, sent + [m], Cursor(acc, [m]), viewers)
  {
    hide PageOk, Deliverable, Cursor;
    forall id | id in viewers ensures ViewerOk(env, writer, log, sent + [m], Cursor(acc, [m]), viewers[id]) {
      var v := viewers[id];
      assert ViewerOk(env, writer, log, sent, acc, v);
      assert Pending(sent + [m], v) == Pending(sent, v) + [m];
      DeliverableAppend(log, Past(v.page), Pending(sent, v), [m]);
      CursorAppend(Past(v.page), Pending(sent, v), [m]);
    }
  }

  /** The relay says something harmless, or nothing, and keeps its history. */
  ghost predicate SaysHarmless<V>(r: R.State<V>, q: R.State<V>) {
    && q.encrypted == r.encrypted && q.cap == r.cap
    && q.history == r.history && q.historyLen == r.historyLen && q.replayReady == r.replayReady
    && (q.sent == r.sent || exists c: R.Control :: (c.StatusIs? || c.Exit?) && q.sent == r.sent + [R.Ctrl(c)])
  }

  lemma HarmlessKeeps<V>(env: Env<V>, writer: Writer, log: seq<Record<V>>, r: R.State<V>, q: R.State<V>, snap: nat,
      acc: nat, viewers: map<nat, Viewer<V>>)
    requires HistoryOk(r, log, snap, acc) && BroadcastOk(r) && ViewersOk(env, writer, log, r.sent, acc, viewers)
    requires SaysHarmless(r, q)
    ensures HistoryOk(q, log, snap, acc) && BroadcastOk(q) && ViewersOk(env, writer, log, q.sent, acc, viewers)
  {
    hide ViewersOk, Mirrors, HistLen, Deliverable, Cursor;
    if q.sent != r.sent {
      var c: R.Control :| (c.StatusIs? || c.Exit?) && q.sent == r.sent + [R.Ctrl(c)];
      OneControl(log, acc, c);
      BroadcastReaches(env, writer, log, r.sent, acc, viewers, R.Ctrl(c));
    }
  }

  lemma Says<V>(r: R.State<V>, q: R.State<V>, c: R.Control)
    requires q.encrypted == r.encrypted && q.cap == r.cap
    requires q.history == r.history && q.historyLen == r.historyLen && q.replayReady == r.replayReady
    requires c.StatusIs? || c.Exit?
    requires q.sent == r.sent || q.sent == r.sent + [R.Ctrl(c)]
    ensures SaysHarmless(r, q)
  {}

  lemma ConnectKeeps<V>(env: Env<V>, s: Sys<V>, allowInput: bool)
    requires Inv(env, s) && s.producer.phase.Idle?
    ensures Inv(env, Connected(s, allowInput))
  {
    hide LogOk, P.ScreenOk, ValidToken, HistLen, HistoryOk, BroadcastOk, ViewersOk;
    assert s.acc <= |s.log| by { HistoryBound(s.relay, s.log, s.snap, s.acc); }
    var q := R.Resumed(s.relay, allowInput);
    Says(s.relay, q, R.StatusIs(R.Live));
    HarmlessKeeps(env, s.producer.sender.writer, s.log, s.relay, q, s.snap, s.acc, s.viewers);
  }

  lemma HistoryBound<V>(r: R.State<V>, log: seq<Record<V>>, snap: nat, acc: nat)
    requires HistoryOk(r, log, snap, acc)
    ensures acc <= |log|
  {}

  lemma CloseKeeps<V>(env: Env<V>, s: Sys<V>)
    requires Inv(env, s)
    ensures Inv(env, Closed(s))
  {
    hide LogOk, P.ScreenOk, ValidToken, HistLen, HistoryOk, BroadcastOk, ViewersOk;
    var q := H.Ended(s.relay, s.relay.epoch);
    Says(s.relay, q, R.StatusIs(R.Stale));
    HarmlessKeeps(env, s.producer.sender.writer, s.log, s.relay, q, s.snap, s.acc, s.viewers);
  }

  lemma StaleKeeps<V>(env: Env<V>, s: Sys<V>, op: R.Op)
    requires Inv(env, s)
    ensures Inv(env, Intruded(s, op))
  {
    hide LogOk, P.ScreenOk, ValidToken, HistLen, HistoryOk, BroadcastOk, ViewersOk, R.FedEncrypted;
    if R.Claims(op).None? {
      var q := R.Next(s.relay, op);
      Says(s.relay, q, if op.MarkExit? then R.Exit(op.code) else R.StatusIs(R.Live));
      HarmlessKeeps(env, s.producer.sender.writer, s.log, s.relay, q, s.snap, s.acc, s.viewers);
    } else if R.Claims(op).value < s.relay.epoch {
      R.StaleChangesNothing(s.relay, op);
    }
  }

  lemma AttachKeeps<V>(env: Env<V>, s: Sys<V>, channel: R.Channel)
    requires Inv(env, s)
    ensures Inv(env, s.(relay := R.Attached(s.relay, s.relay.epoch, channel)))
  {
    hide LogOk, P.ScreenOk, ValidToken, HistLen, HistoryOk, BroadcastOk, ViewersOk;
    var q := R.Attached(s.relay, s.relay.epoch, channel);
    Says(s.relay, q, R.StatusIs(R.Live));
    HarmlessKeeps(env, s.producer.sender.writer, s.log, s.relay, q, s.snap, s.acc, s.viewers);
  }

  /** The relay accepts the next frame of the log, and counts it as the producer did. */
  lemma RelayAccepts<V>(env: Env<V>, writer: Writer, cap: nat, log: seq<Record<V>>, r: R.State<V>, snap: nat,
      acc: nat, from: nat)
    requires LogOk(env, writer, Budget(cap), log) && HistoryOk(r, log, snap, acc) && r.cap == cap
    requires from < |log| && (log[from].payload.Snapshot? || (0 < acc == from))
    ensures var f := log[from].frame;
      && R.Accepts(r, r.epoch, f)
      && (R.KindIs(f, SNAPSHOT) <==> log[from].payload.Snapshot?)
      && R.FedEncrypted(r, r.epoch, f).sent == r.sent + [R.Data(f)]
      && R.FedEncrypted(r, r.epoch, f).cap == r.cap && R.FedEncrypted(r, r.epoch, f).epoch == r.epoch
      && HistoryOk(R.FedEncrypted(r, r.epoch, f), log, if R.KindIs(f, SNAPSHOT) then from else snap, from + 1)
  {
    hide LogOk, P.ScreenOk, Tells, Genuine;
    EntryOk(env, writer, Budget(cap), log, from);
    EntryKind(env, writer, from, log[from]);
  }

  lemma EntryKind<V>(env: Env<V>, writer: Writer, i: nat, r: Record<V>)
    requires Genuine(env, writer, i, r) && !r.payload.Input?
    ensures R.KindIs(r.frame, SNAPSHOT) <==> r.payload.Snapshot?
    ensures R.KindIs(r.frame, OUTPUT) <==> r.payload.Output?
  {
    hide ParseHeader, OpenFrame;
  }

  lemma DeliverKeeps<V>(env: Env<V>, s: Sys<V>)
    requires Inv(env, s) && s.link.Some?
    ensures Inv(env, Delivered(s))
    ensures |s.link.value.frames| > 0 ==>
      R.Accepts(s.relay, s.relay.epoch, s.link.value.frames[0]) && Delivered(s).link.Some?
  {
    hide LogOk, P.ScreenOk, ValidToken, HistLen, HistoryOk, ViewersOk, R.FedEncrypted, R.Accepts, R.KindIs,
        Deliverable, Cursor;
    var writer, l := s.producer.sender.writer, s.link.value;
    if |l.frames| > 0 {
      var i := s.from;
      assert l.frames[0] == s.log[i + 0].frame;
      NextIsAcceptable(env, s);
      RelayAccepts(env, writer, s.relay.cap, s.log, s.relay, s.snap, s.acc, i);
      GenuineNumber(env, writer, Budget(s.relay.cap), s.log, i);
      OneFrame(s.log, s.acc, i);
      BroadcastReaches(env, writer, s.log, s.relay.sent, s.acc, s.viewers, R.Data(s.log[i].frame));
      var rest := l.frames[1..];
      forall j | 0 <= j < |rest| ensures rest[j] == s.log[i + 1 + j].frame { assert rest[j] == l.frames[j + 1]; }
    } else if l.exitNotice {
      var q := R.Exited(s.relay, 0);
      Says(s.relay, q, R.Exit(0));
      HarmlessKeeps(env, writer, s.log, s.relay, q, s.snap, s.acc, s.viewers);
    }
  }

  /** The frame at the head of the link is a snapshot or follows what the relay accepted last. */
  lemma NextIsAcceptable<V>(env: Env<V>, s: Sys<V>)
    requires Inv(env, s) && s.link.Some? && |s.link.value.frames| > 0
    ensures s.from < |s.log| && (s.log[s.from].payload.Snapshot? || (0 < s.acc == s.from))
    ensures s.acc <= s.from
  {
    hide P.ScreenOk, ValidToken, HistLen, HistoryOk, ViewersOk, LogOk, Genuine, P.SnapshotOf, P.Updated;
    EntryOk(env, s.producer.sender.writer, Budget(s.relay.cap), s.log, s.from);
  }

  lemma JoinIsDeliverable<V>(env: Env<V>, writer: Writer, budget: nat, log: seq<Record<V>>, r: R.State<V>, snap: nat,
      acc: nat, c: nat)
    requires LogOk(env, writer, budget, log) && HistoryOk(r, log, snap, acc) && c <= acc
    ensures Deliverable(log, c, H.Payloads(R.Joined(r))) && Cursor(c, H.Payloads(R.Joined(r))) == acc
  {
    hide LogOk, HistLen, Deliverable, Cursor;
    var j := R.Joined(r);
    ReplayIsDeliverable(env, writer, budget, log, c, j.payload, if acc == 0 then 0 else snap);
    if j.banner.Some? {
      OneControl(log, c, j.banner.value);
      DeliverableAppend(log, c, [R.Ctrl(j.banner.value)], H.DataOf(j.payload));
      CursorAppend(c, [R.Ctrl(j.banner.value)], H.DataOf(j.payload));
    } else {
      assert [] + H.DataOf(j.payload) == H.DataOf(j.payload);
    }
  }

  lemma JoinKeeps<V>(env: Env<V>, s: Sys<V>, id: nat, page: W.Page<V>)
    requires s.relay.encrypted && Inv(env, s)
    ensures Inv(env, WithViewer(s, id, page))
  {
    hide LogOk, HistoryOk, ProducerOk, LinkOk, BroadcastOk, Deliverable, Cursor, H.Payloads;
    var v := Viewer(page, H.Payloads(R.Joined(s.relay)), |s.relay.sent|);
    JoinIsDeliverable(env, s.producer.sender.writer, Budget(s.relay.cap), s.log, s.relay, s.snap, s.acc, 0);
    assert Pending(s.relay.sent, v) == v.wire;
  }

  lemma ForwardKeeps<V>(env: Env<V>, s: Sys<V>, id: nat)
    requires s.relay.encrypted && Inv(env, s)
    ensures Inv(env, ForwardedTo(s, id))
  {
    hide LogOk, HistoryOk, ProducerOk, LinkOk, BroadcastOk, Forwarded;
    if id in s.viewers {
      assert ViewerOk(env, s.producer.sender.writer, s.log, s.relay.sent, s.acc, s.viewers[id]);
      ForwardedOk(env, s.producer.sender.writer, Budget(s.relay.cap), s.log, s.relay, s.snap, s.acc, s.viewers[id]);
    }
  }

  /** A viewer that fell behind is resynchronised: what it still has on its socket and the new replay
      make an unbroken delivery. */
  lemma ForwardedOk<V>(env: Env<V>, writer: Writer, budget: nat, log: seq<Record<V>>, r: R.State<V>, snap: nat,
      acc: nat, v: Viewer<V>)
    requires LogOk(env, writer, budget, log) && HistoryOk(r, log, snap, acc)
    requires ViewerOk(env, writer, log, r.sent, acc, v)
    ensures ViewerOk(env, writer, log, r.sent, acc, Forwarded(r, v))
  {
    hide LogOk, HistoryOk, PageOk, Deliverable, Cursor, H.Payloads;
    assert r.encrypted by { HistoryEncrypted(r, log, snap, acc); }
    var c, n := Past(v.page), Forwarded(r, v);
    if v.next < |r.sent| {
      if |r.sent| - v.next > H.BROADCAST_CAPACITY {
        DeliverableAppend(log, c, v.wire, r.sent[v.next..]);
        CursorAppend(c, v.wire, r.sent[v.next..]);
        CursorAppend(Cursor(c, v.wire), r.sent[v.next..], []);
        var d := Cursor(c, v.wire);
        var status, replay := [R.Ctrl(R.StatusIs(r.status))], H.Payloads(R.Joined(r));
        OneControl(log, d, R.StatusIs(r.status));
        JoinIsDeliverable(env, writer, budget, log, r, snap, acc, d);
        DeliverableAppend(log, d, status, replay);
        CursorAppend(d, status, replay);
        DeliverableAppend(log, c, v.wire, status + replay);
        CursorAppend(c, v.wire, status + replay);
        assert Pending(r.sent, n) == v.wire + (status + replay);
      } else {
        assert Pending(r.sent, n) == Pending(r.sent, v);
      }
    } else {
      assert v.wire + [] == v.wire;
    }
  }

  lemma HistoryEncrypted<V>(r: R.State<V>, log: seq<Record<V>>, snap: nat, acc: nat)
    requires HistoryOk(r, log, snap, acc)
    ensures r.encrypted
  {}

  lemma ShowKeeps<V(!new)>(env: Env<V>, s: Sys<V>, id: nat)
    requires Honest(env) && Inv(env, s)
    ensures Inv(env, ShownTo(env, s, id))
  {
    hide LogOk, HistoryOk, ProducerOk, LinkOk, BroadcastOk, ViewerOk, W.Received, Lawful, RoundTrips, Correct;
    if id in s.viewers && |s.viewers[id].wire| > 0 {
      ShownOk(env, s.producer.sender.writer, Budget(s.relay.cap), s.log, s.relay.sent, s.acc, s.viewers[id]);
    }
  }

  lemma ShownOk<V(!new)>(env: Env<V>, writer: Writer, budget: nat, log: seq<Record<V>>, sent: seq<R.Message>,
      acc: nat, v: Viewer<V>)
    requires Honest(env) && LogOk(env, writer, budget, log) && ViewerOk(env, writer, log, sent, acc, v) && |v.wire| > 0
    ensures ViewerOk(env, writer, log, sent, acc, Handled(env, v))
  {
    hide LogOk, PageOk, Honest, W.ReceivedFrame, W.ReceivedControl, Number, Takes, MayType;
    var m, n := v.wire[0], Handled(env, v);
    assert Pending(sent, v)[0] == m && Pending(sent, v)[1..] == Pending(sent, n);
    match m {
      case Data(f) =>
        PageTakes(env, writer, budget, log, v.page, Number(f));
        NoErrorYet(env, writer, log, n.page);
        FrameKeepsPermission(env, v.page, f);
      case Ctrl(control) =>
        NoErrorYet(env, writer, log, v.page);
        ControlKeepsPage(env, writer, log, v.page, control);
        ControlKeepsPermission(v.page, control);
    }
  }

  lemma NoErrorYet<V>(env: Env<V>, writer: Writer, log: seq<Record<V>>, page: W.Page<V>)
    requires PageOk(env, writer, log, page)
    ensures !page.failed
  {}

  lemma FrameKeepsPermission<V>(env: Env<V>, page: W.Page<V>, frame: seq<byte>)
    requires MayType(page) && !W.ReceivedFrame(env, page, frame).failed
    ensures MayType(W.ReceivedFrame(env, page, frame))
  {
    hide W.OpenedBy, W.Decrypted, Write, Restored;
  }

  lemma ControlKeepsPermission<V>(page: W.Page<V>, control: R.Control)
    requires MayType(page) && !page.failed && !control.Init? && (control.ReplayUnavailable? ==> page.cipher.last.None?)
    ensures MayType(W.ReceivedControl(page, control))
  {}

  lemma ControlKeepsPage<V>(env: Env<V>, writer: Writer, log: seq<Record<V>>, page: W.Page<V>, control: R.Control)
    requires PageOk(env, writer, log, page) && !control.Init?
    ensures PageOk(env, writer, log, W.ReceivedControl(page, control))
    ensures Past(W.ReceivedControl(page, control)) == Past(page)
  {}

  lemma HappenKeeps<V(!new)>(env: Env<V>, s: Sys<V>, event: P.Event, send: Send)
    requires Honest(env) && Inv(env, s)
    ensures Inv(env, Dispatched(s, P.Happened(env, s.producer, event), send, false))
  {
    hide Dispatched, LogOk, LinkOk, HistoryOk, BroadcastOk, ViewersOk, TurnOk, P.ScreenOk, P.Updated, Honest, HistLen;
    if s.producer.phase.Streaming? {
      HappenedTurn(env, s.producer, s.log, s.base, Budget(s.relay.cap), Budget(s.relay.cap), event);
      DispatchKeeps(env, s, P.Happened(env, s.producer, event), send, false);
    } else {
      QuietKeeps(env, s, event);
      Silent(s, P.Happened(env, s.producer, event), send, false);
    }
  }

  lemma Silent<V>(s: Sys<V>, turn: (P.State<V>, Option<P.Emission>), send: Send, opening: bool)
    requires turn.1.None?
    ensures Dispatched(s, turn, send, opening) == s.(producer := turn.0)
  {}

  lemma TickKeeps<V(!new)>(env: Env<V>, s: Sys<V>, send: Send)
    requires Honest(env) && Inv(env, s)
    ensures Inv(env, Dispatched(s, P.Ticked(env, s.producer), send, false))
  {
    hide Dispatched, LogOk, LinkOk, HistoryOk, BroadcastOk, ViewersOk, TurnOk, P.ScreenOk, Honest, HistLen,
        P.EmitSnapshot;
    if s.producer.phase.Streaming? && s.producer.phase.dirty {
      TickedTurn(env, s.producer, s.log, s.base, Budget(s.relay.cap), Budget(s.relay.cap));
      DispatchKeeps(env, s, P.Ticked(env, s.producer), send, false);
    } else {
      Silent(s, P.Ticked(env, s.producer), send, false);
    }
  }

  lemma BeginKeeps<V(!new)>(env: Env<V>, s: Sys<V>, raw: seq<byte>, send: Send)
    requires Honest(env) && Inv(env, s) && s.producer.phase.Connecting? && |raw| == 32
    ensures Inv(env, Dispatched(s, P.Opened(env, s.producer, s.relay.cap, Encode64(raw)), send, true))
  {
    hide Dispatched, LogOk, LinkOk, HistoryOk, BroadcastOk, ViewersOk, TurnOk, P.ScreenOk, Honest, HistLen, P.Opened,
        Encode64;
    OpenedTurn(env, s.producer, s.log, s.relay.cap, Budget(s.relay.cap), raw);
    DispatchKeeps(env, s, P.Opened(env, s.producer, s.relay.cap, Encode64(raw)), send, true);
  }

  /** The producer leaves its connection, to try again or for good. */
  lemma LeavingKeeps<V>(env: Env<V>, s: Sys<V>, phase: P.Phase)
    requires Inv(env, s) && !s.producer.phase.Failed? && (phase.Idle? || phase.Finished?)
    ensures Inv(env, s.(producer := s.producer.(phase := phase)))
  {
    hide LogOk, HistoryOk, BroadcastOk, ViewersOk, P.ScreenOk, HistLen;
  }

  lemma LeaveKeeps<V>(env: Env<V>, s: Sys<V>, id: nat)
    requires Inv(env, s)
    ensures Inv(env, s.(viewers := s.viewers - {id}))
  {
    hide LogOk, ProducerOk, LinkOk, HistoryOk, BroadcastOk, ViewerOk;
  }

  lemma NextKeeps<V(!new)>(env: Env<V>, s: Sys<V>, step: Step<V>)
    requires s.relay.encrypted && Honest(env) && Inv(env, s)
    ensures Inv(env, Next(env, s, step))
  {
    hide Inv, Honest, Dispatched, Connected, Delivered, Closed, Intruded, WithViewer, ForwardedTo, ShownTo,
         P.Happened, P.Ticked, P.Opened, R.Attached, Encode64;
    match step
    case Happen(event, send) => HappenKeeps(env, s, event, send);
    case Tick(send) => TickKeeps(env, s, send);
    case Connect(allowInput) => if s.producer.phase.Idle? { ConnectKeeps(env, s, allowInput); }
    case Lose => if s.producer.phase.Connecting? || s.producer.phase.Streaming? { LeavingKeeps(env, s, P.Idle); }
    case Begin(raw, send) =>
      if s.producer.phase.Connecting? && |raw| == 32 { BeginKeeps(env, s, raw, send); }
    case Stop => if !s.producer.phase.Failed? { LeavingKeeps(env, s, P.Finished); }
    case Deliver => if s.link.Some? { DeliverKeeps(env, s); }
    case Close => CloseKeeps(env, s);
    case Stale(op) => StaleKeeps(env, s, op);
    case AttachInput(channel) => AttachKeeps(env, s, channel);
    case Join(id, page) => JoinKeeps(env, s, id, page);
    case Leave(id) => LeaveKeeps(env, s, id);
    case Forward(id) => ForwardKeeps(env, s, id);
    case Show(id) => ShowKeeps(env, s, id);
  }

  lemma InitOk<V(!new)>(env: Env<V>, screen: P.ScreenState<V>, writer: Writer, allowInput: bool, cap: nat)
    requires P.ScreenOk(env.emu, screen)
    ensures Inv(env, Init(env, screen, writer, allowInput, cap))
  {
    hide P.ScreenOk, HistLen;
  }

  lemma {:induction false} RunKeeps<V(!new)>(env: Env<V>, s: Sys<V>, steps: seq<Step<V>>)
    requires s.relay.encrypted && Honest(env) && Inv(env, s)
    ensures Inv(env, Run(env, s, steps))
    decreases |steps|
  {
    if |steps| > 0 {
      hide Inv, Honest, Next;
      RunKeeps(env, s, steps[..|steps| - 1]);
      NextKeeps(env, Run(env, s, steps[..|steps| - 1]), steps[|steps| - 1]);
    }
  }
}
