/** What a viewer can be made to show by a relay that does whatever it likes: that acknowledges the host's
    connections with any session and any replay budget, cuts and reopens the viewer's sockets, and drops,
    repeats, reorders, withholds or makes up frames. */
module Integrity {
  import opened Bytes
  import opened Utf8
  import opened Sgr
  import opened Crypto
  import opened Terminal
  import opened Proto
  import opened Invariant
  import opened Sharing
  import Agreement
  import Replay
  import P = Producer
  import R = Relay
  import W = Viewer

  // Authentic frames

  /** What the cipher was given for entry `i` of a stream. */
  function EntrySealing<V>(env: Env<V>, st: Stream<V>, i: u64): Sealing
    requires i < |st.log|
  {
    var payload := st.log[i].payload;
    var sender := SenderState(env.material, st.session, st.writer, i, false);
    NextSealing(sender, P.KindOf(payload), env.codec.encode(payload))
  }

  /** All that the host has sealed and let out, under all its senders and for all sessions. */
  function Sealed<V>(env: Env<V>, streams: seq<Stream<V>>): set<Sealing> {
    set k, i | 0 <= k < |streams| && 0 <= i < |streams[k].log| && i <= U64_MAX :: EntrySealing(env, streams[k], i)
  }

  ghost predicate IsAuthentic<V>(env: Env<V>, streams: seq<Stream<V>>, f: seq<byte>) {
    Authentic(env.aead, Sealed(env, streams), env.material, env.session, f, false)
  }

  /** None of the frames a relay delivers is a forgery: any that opens was sealed by the host. */
  ghost predicate Unforged<V>(env: Env<V>, streams: seq<Stream<V>>, msgs: seq<R.Message>) {
    forall m :: m in msgs && m.Data? ==> IsAuthentic(env, streams, m.chunk)
  }

  /** The frame is one the host sealed for the page's session, under whichever sender. */
  ghost predicate WasSent<V>(env: Env<V>, streams: seq<Stream<V>>, f: seq<byte>) {
    exists k, i :: 0 <= k < |streams| && 0 <= i < |streams[k].log|
      && streams[k].session == env.session && streams[k].log[i].frame == f
  }

  lemma EntryQualifies<V>(env: Env<V>, streams: seq<Stream<V>>, k: nat, i: nat)
    requires StreamsOk(env, streams) && k < |streams| && streams[k].session == env.session && i < |streams[k].log|
    ensures IsAuthentic(env, streams, streams[k].log[i].frame)
  {
    hide LogOk, OpenFrame, ParseHeader, PrintHeader, Aad, Nonce, Derive, Tells, P.ScreenOk, HistLen;
    var st := streams[k];
    assert StreamOk(env, st) && env.(session := st.session) == env;
    EntryOk(env, st.writer, MAX_ENCRYPTED_FRAME, st.log, i);
    ParseInvertsPrint(st.log[i].frame, Header(P.KindOf(st.log[i].payload), st.writer, i));
    assert EntrySealing(env, st, i) in Sealed(env, streams);
  }

  /** All frames ever sealed for the page's session, under any of the host's senders and in any order,
      number and selection, octets that do not open, and any controls are what a relay without the key can
      send. */
  lemma ReplayedFramesQualify<V(!new)>(sh: Share<V>, msgs: seq<R.Message>)
    requires FairShare(sh)
    requires forall m :: m in msgs && m.Data? ==>
      || OpenFrame(sh.env.aead, sh.env.material, sh.env.session, m.chunk, false).Err?
      || WasSent(sh.env, sh.Streams(), m.chunk)
    ensures Unforged(sh.env, sh.Streams(), msgs)
  {
    hide FairShare, StreamsOk, OpenFrame, Sealed, Share.Streams;
    AllSealedIsSound(sh);
    var streams := sh.Streams();
    forall m | m in msgs && m.Data? ensures IsAuthentic(sh.env, streams, m.chunk) {
      if OpenFrame(sh.env.aead, sh.env.material, sh.env.session, m.chunk, false).Ok? {
        var k, i :| 0 <= k < |streams| && 0 <= i < |streams[k].log|
          && streams[k].session == sh.env.session && streams[k].log[i].frame == m.chunk;
        EntryQualifies(sh.env, streams, k, i);
      }
    }
  }

  /** Header and plaintext are those of entry `h.sequence` of a stream of the page's session. */
  ghost predicate IsEntry<V>(env: Env<V>, st: Stream<V>, h: Header, plain: seq<byte>) {
    && st.session == env.session && h.writer == st.writer && h.sequence < |st.log|
    && h.kind == P.KindOf(st.log[h.sequence].payload) && plain == env.codec.encode(st.log[h.sequence].payload)
  }

  /** What was sealed under a header is the one entry of that header. */
  lemma SealingIsEntry<V>(env: Env<V>, streams: seq<Stream<V>>, h: Header, plain: seq<byte>) returns (k: nat)
    requires NextSealing(SenderState(env.material, env.session, h.writer, h.sequence, false), h.kind, plain)
             in Sealed(env, streams)
    ensures k < |streams| && IsEntry(env, streams[k], h, plain)
  {
    hide PrintHeader, Aad, Nonce, Info;
    var x := NextSealing(SenderState(env.material, env.session, h.writer, h.sequence, false), h.kind, plain);
    var k', i :| 0 <= k' < |streams| && 0 <= i < |streams[k'].log| && i <= U64_MAX
      && x == EntrySealing(env, streams[k'], i);
    k := k';
    var g := Header(P.KindOf(streams[k].log[i].payload), streams[k].writer, i);
    InfoInjective(h.writer, false, streams[k].writer, false);
    NonceInjective(h.sequence, i);
    AadInjective(PrintHeader(h), env.session, PrintHeader(g), streams[k].session);
    HeaderFields(h);
    HeaderFields(g);
  }

  // One socket

  /** The page has raised no error and is somewhere on stream `k`, or has taken nothing. */
  ghost predicate OnStream<V>(env: Env<V>, streams: seq<Stream<V>>, k: nat, page: W.Page<V>) {
    k < |streams| && streams[k].session == env.session && PageOk(env, streams[k].writer, streams[k].log, page)
  }

  /** The page has raised no error, and if it has taken a frame it is on the stream of that frame. */
  ghost predicate Sound<V>(env: Env<V>, streams: seq<Stream<V>>, page: W.Page<V>) {
    && !page.failed && (page.cipher.last.None? ==> page.cipher.writer.None?)
    && (page.cipher.last.Some? ==> exists k: nat :: OnStream(env, streams, k, page))
  }

  /** Pages with a writer are on its one stream. */
  lemma OneStreamOnly<V>(env: Env<V>, streams: seq<Stream<V>>, page: W.Page<V>, j: nat, k: nat)
    requires StreamsOk(env, streams) && OnStream(env, streams, j, page) && k < |streams|
    requires page.cipher.last.Some? && page.cipher.writer == Some(streams[k].writer)
    ensures j == k
  {
    hide StreamOk, Shows, EpochAt;
  }

  lemma WriterIsPinned<V>(env: Env<V>, c: W.CipherState, f: seq<byte>)
    requires W.Decrypted(env, c, f).Ok? && c.writer.Some?
    ensures c.writer == Some(W.Decrypted(env, c, f).value.0.writer)
  {
    hide ParseHeader, OpenFrame;
    W.OpenKeepsHeader(env, f);
  }

  /** A frame that opens, whatever its octets, is a frame of a stream to the page. */
  lemma OpenedIsEntry<V>(env: Env<V>, streams: seq<Stream<V>>, page: W.Page<V>, f: seq<byte>) returns (k: nat, i: nat)
    requires RoundTrips(env.codec) && StreamsOk(env, streams) && Sound(env, streams, page)
    requires IsAuthentic(env, streams, f) && W.OpenedBy(env, page.cipher, f).Ok?
    ensures OnStream(env, streams, k, page)
    ensures i < |streams[k].log| && Takes(streams[k].log, Past(page), i)
    ensures LogOk(env, streams[k].writer, MAX_ENCRYPTED_FRAME, streams[k].log)
    ensures W.ReceivedFrame(env, page, f) == W.ReceivedFrame(env, page, streams[k].log[i].frame)
  {
    hide LogOk, Genuine, Shows, Authentic, RoundTrips, ParseHeader, OpenFrame, NextSealing, Sealed, W.ShowSnapshot,
        ValidToken, EpochAt, StreamsOk;
    OpenedWasSealed(env.aead, Sealed(env, streams), env.material, env.session, f, false);
    var (h, plain) := W.Decrypted(env, page.cipher, f).value;
    k := SealingIsEntry(env, streams, h, plain);
    i := h.sequence;
    StreamLog(env, streams, k);
    if page.cipher.last.Some? {
      var j: nat :| OnStream(env, streams, j, page);
      WriterIsPinned(env, page.cipher, f);
      OneStreamOnly(env, streams, page, j, k);
    }
    EntryOk(env, streams[k].writer, MAX_ENCRYPTED_FRAME, streams[k].log, i);
    OpensEntry(env, streams[k].writer, page, i, streams[k].log[i]);
  }

  lemma StreamLog<V>(env: Env<V>, streams: seq<Stream<V>>, k: nat)
    requires StreamsOk(env, streams) && k < |streams| && streams[k].session == env.session
    ensures LogOk(env, streams[k].writer, MAX_ENCRYPTED_FRAME, streams[k].log)
  {
    hide LogOk;
    assert StreamOk(env, streams[k]) && env.(session := streams[k].session) == env;
  }

  /** Where a page may get by one message, or several: to an error, or on along its stream; and what its
      terminal shows in the end is what it showed before or a screen the host sealed. */
  ghost predicate Advances<V>(env: Env<V>, streams: seq<Stream<V>>, page: W.Page<V>, next: W.Page<V>) {
    && (next.failed || Sound(env, streams, next))
    && (page.failed ==> next == page)
    && (!next.failed ==> Past(page) <= Past(next))
    && (!next.failed && page.cipher.last.Some? ==> next.cipher.writer == page.cipher.writer)
    && (next.term == page.term || IsSealedTerm(env, streams, next.term))
  }

  /** The terminal of a screen that was sealed for the page's session. */
  ghost predicate IsSealedTerm<V>(env: Env<V>, streams: seq<Stream<V>>, term: Display<V>) {
    exists k: nat, i: nat :: k < |streams| && i < |streams[k].log| && streams[k].session == env.session
      && term == streams[k].log[i].screen.Shown()
  }

  lemma AnyFrame<V(!new)>(env: Env<V>, streams: seq<Stream<V>>, page: W.Page<V>, f: seq<byte>)
    requires Honest(env) && StreamsOk(env, streams) && Sound(env, streams, page) && IsAuthentic(env, streams, f)
    ensures Advances(env, streams, page, W.ReceivedFrame(env, page, f))
  {
    hide LogOk, StreamsOk, IsAuthentic, Lawful, RoundTrips, Correct, W.OpenedBy, W.ShowSnapshot, Write, EpochAt,
        Restored;
    if W.OpenedBy(env, page.cipher, f).Ok? {
      var k, i := OpenedIsEntry(env, streams, page, f);
      PageTakes(env, streams[k].writer, MAX_ENCRYPTED_FRAME, streams[k].log, page, i);
      assert OnStream(env, streams, k, W.ReceivedFrame(env, page, f));
    }
  }

  lemma AnyControl<V>(env: Env<V>, streams: seq<Stream<V>>, page: W.Page<V>, control: R.Control)
    requires Sound(env, streams, page)
    ensures Advances(env, streams, page, W.ReceivedControl(page, control))
  {
    hide Shows, EpochAt;
    var next := W.ReceivedControl(page, control);
    if page.cipher.last.Some? && !control.Init? {
      var k: nat :| OnStream(env, streams, k, page);
      ControlKeepsPage(env, streams[k].writer, streams[k].log, page, control);
      assert OnStream(env, streams, k, next);
    }
  }

  lemma AdvancesOn<V>(env: Env<V>, streams: seq<Stream<V>>, a: W.Page<V>, b: W.Page<V>, c: W.Page<V>)
    requires Advances(env, streams, a, b) && Advances(env, streams, b, c)
    ensures Advances(env, streams, a, c)
  {
    hide Sound, IsSealedTerm;
  }

  lemma {:induction false} AnyMessages<V(!new)>(env: Env<V>, streams: seq<Stream<V>>, page: W.Page<V>,
      msgs: seq<R.Message>)
    requires Honest(env) && StreamsOk(env, streams) && Unforged(env, streams, msgs)
    requires page.failed || Sound(env, streams, page)
    ensures Advances(env, streams, page, Agreement.ReadAll(env, page, msgs))
    decreases |msgs|
  {
    hide Honest, StreamsOk, Sound, IsAuthentic, IsSealedTerm, W.ReceivedFrame, W.ReceivedControl;
    if |msgs| > 0 {
      var next := W.Received(env, page, msgs[0]);
      assert msgs[0] in msgs;
      FailureIsFinal(env, page, msgs[0]);
      if !page.failed {
        match msgs[0] {
          case Data(f) => AnyFrame(env, streams, page, f);
          case Ctrl(control) => AnyControl(env, streams, page, control);
        }
      }
      AnyMessages(env, streams, next, msgs[1..]);
      AdvancesOn(env, streams, page, next, Agreement.ReadAll(env, page, msgs));
    }
  }

  lemma FailureIsFinal<V>(env: Env<V>, page: W.Page<V>, message: R.Message)
    ensures page.failed ==> W.Received(env, page, message) == page
  {}

  // A tab, over all its sockets

  /** A socket of a tab: the writer id the page draws for its own input, the size the initial control
      names, and all that follows. */
  datatype Socket = Socket(own: Writer, cols: nat, rows: nat, msgs: seq<R.Message>)

  function Visit<V>(env: Env<V>, page: W.Page<V>, s: Socket): W.Page<V> {
    Agreement.ReadAll(env, W.Reopened(env.emu, page, s.own, s.cols, s.rows), s.msgs)
  }

  /** The page after one socket after the other. */
  function Visits<V>(env: Env<V>, page: W.Page<V>, sockets: seq<Socket>): W.Page<V>
    decreases |sockets|
  {
    if |sockets| == 0 then page
    else Visit(env, Visits(env, page, sockets[..|sockets| - 1]), sockets[|sockets| - 1])
  }

  ghost predicate AllUnforged<V>(env: Env<V>, streams: seq<Stream<V>>, sockets: seq<Socket>) {
    forall s :: s in sockets ==> Unforged(env, streams, s.msgs)
  }

  function Resized<V>(emu: Emulator<V>, term: Display<V>, sizes: seq<(nat, nat)>): Display<V>
    decreases |sizes|
  {
    if |sizes| == 0 then term
    else
      var before := Resized(emu, term, sizes[..|sizes| - 1]);
      before.(vt := emu.resize(before.vt, sizes[|sizes| - 1].0, sizes[|sizes| - 1].1))
  }

  /** What the terminal shows is what the tab began with or a screen the host sealed, but for the sizes
      initial controls have given it since. */
  ghost predicate IsLeftover<V(!new)>(env: Env<V>, streams: seq<Stream<V>>, first: Display<V>, term: Display<V>) {
    exists origin: Display<V>, sizes: seq<(nat, nat)> ::
      (origin == first || IsSealedTerm(env, streams, origin)) && term == Resized(env.emu, origin, sizes)
  }

  lemma ReopeningResizes<V(!new)>(env: Env<V>, streams: seq<Stream<V>>, first: Display<V>, page: W.Page<V>, s: Socket)
    requires IsLeftover(env, streams, first, page.term)
    ensures IsLeftover(env, streams, first, W.Reopened(env.emu, page, s.own, s.cols, s.rows).term)
  {
    hide IsSealedTerm;
    var origin: Display<V>, sizes: seq<(nat, nat)> :|
      (origin == first || IsSealedTerm(env, streams, origin)) && page.term == Resized(env.emu, origin, sizes);
    var more := sizes + [(s.cols, s.rows)];
    assert more[..|more| - 1] == sizes;
    assert Resized(env.emu, origin, more) == page.term.(vt := env.emu.resize(page.term.vt, s.cols, s.rows));
  }

  lemma SealedIsLeftover<V(!new)>(env: Env<V>, streams: seq<Stream<V>>, first: Display<V>, term: Display<V>)
    requires term == first || IsSealedTerm(env, streams, term)
    ensures IsLeftover(env, streams, first, term)
  {
    hide IsSealedTerm;
    assert term == Resized(env.emu, term, []);
  }

  lemma {:induction false} AnySockets<V(!new)>(env: Env<V>, streams: seq<Stream<V>>, page: W.Page<V>,
      sockets: seq<Socket>)
    requires Honest(env) && StreamsOk(env, streams) && AllUnforged(env, streams, sockets)
    requires Replay.Blank(page)
    ensures var last := Visits(env, page, sockets);
      && (last.failed || Sound(env, streams, last)) && Guarded(last)
      && IsLeftover(env, streams, page.term, last.term)
    decreases |sockets|
  {
    hide Honest, StreamsOk, Sound, Unforged, IsLeftover, IsSealedTerm, Agreement.ReadAll;
    if |sockets| == 0 {
      SealedIsLeftover(env, streams, page.term, page.term);
      BlankIsSound(env, streams, page);
    } else {
      var before, s := Visits(env, page, sockets[..|sockets| - 1]), sockets[|sockets| - 1];
      AnySockets(env, streams, page, sockets[..|sockets| - 1]);
      var blank := W.Reopened(env.emu, before, s.own, s.cols, s.rows);
      ReopeningResizes(env, streams, page.term, before, s);
      if !before.failed { BlankIsSound(env, streams, blank); }
      AnyMessages(env, streams, blank, s.msgs);
      StaysGuarded(env, blank, s.msgs);
      if Visit(env, before, s).term != blank.term {
        SealedIsLeftover(env, streams, page.term, Visit(env, before, s).term);
      }
    }
  }

  lemma BlankIsSound<V>(env: Env<V>, streams: seq<Stream<V>>, page: W.Page<V>)
    requires Replay.Blank(page)
    ensures Sound(env, streams, page)
  {}

  /** The page shows the screen the host had when some move of the sharing sealed the frame the page took
      last, under one of its senders for the page's session. */
  ghost predicate ShowsSealed<V>(sh: Share<V>, page: W.Page<V>) {
    page.cipher.last.Some? && exists k: nat, j: nat ::
      && k < |sh.Streams()| && sh.Streams()[k].session == sh.env.session
      && page.cipher.writer == Some(sh.Streams()[k].writer) && SealedBy(sh, k, page.cipher.last.value, j)
      && Shows(sh.env, page, sh.After(j + 1).producer.screen)
  }

  lemma SoundShowsSealed<V>(sh: Share<V>, page: W.Page<V>)
    requires Sound(sh.env, sh.Streams(), page) && page.cipher.last.Some?
    ensures ShowsSealed(sh, page)
  {
    hide Shows, EpochAt, Share.After, Host.Streams;
    var k: nat :| OnStream(sh.env, sh.Streams(), k, page);
    SealingMove(sh, k, page.cipher.last.value, |sh.moves|);
    var j: nat :| SealedBy(sh, k, page.cipher.last.value, j);
    assert Shows(sh.env, page, sh.After(j + 1).producer.screen);
  }

  /** Whatever relays without the key do to the host's connections and to the sockets of a tab, the tab ends
      in an error, or has taken nothing on its present socket, or shows exactly the screen the host had
      when it sealed the frame the tab took last. Even in an error, or before anything is taken, the
      terminal shows nothing but what the tab began with or a screen the host sealed, possibly resized. */
  lemma NothingForgedIsShown<V(!new)>(sh: Share<V>, page: W.Page<V>, sockets: seq<Socket>)
    requires FairShare(sh) && Replay.Blank(page) && AllUnforged(sh.env, sh.Streams(), sockets)
    ensures var last := Visits(sh.env, page, sockets);
      && (last.failed || last.cipher.last.None? || ShowsSealed(sh, last))
      && IsLeftover(sh.env, sh.Streams(), page.term, last.term)
  {
    hide Honest, P.ScreenOk, StreamsOk, Sound, AllUnforged, IsLeftover, ShowsSealed, Share.Streams, Visits;
    AllSealedIsSound(sh);
    AnySockets(sh.env, sh.Streams(), page, sockets);
    var last := Visits(sh.env, page, sockets);
    if !last.failed && last.cipher.last.Some? { SoundShowsSealed(sh, last); }
  }

  // The right to type

  /** A page that lets its user type has raised no error and taken a snapshot that said so. */
  predicate Guarded<V>(page: W.Page<V>) {
    && (page.allowInput ==> page.input && !page.failed)
    && (page.input ==> page.cipher.last.Some?)
  }

  lemma {:induction false} StaysGuarded<V>(env: Env<V>, page: W.Page<V>, msgs: seq<R.Message>)
    requires Guarded(page)
    ensures Guarded(Agreement.ReadAll(env, page, msgs))
    decreases |msgs|
  {
    if |msgs| > 0 {
      hide W.OpenedBy, Write, Restored;
      StaysGuarded(env, W.Received(env, page, msgs[0]), msgs[1..]);
    }
  }

  /** Whatever such relays do, a tab lets its user type only if the host shares its session for input, and
      only after the tab has taken, on its present socket, a snapshot the host sealed. */
  lemma InputIsAuthenticated<V(!new)>(sh: Share<V>, page: W.Page<V>, sockets: seq<Socket>)
    requires FairShare(sh) && Replay.Blank(page) && AllUnforged(sh.env, sh.Streams(), sockets)
    ensures var last := Visits(sh.env, page, sockets);
      last.allowInput ==> sh.env.input && !last.failed && ShowsSealed(sh, last)
  {
    hide Honest, P.ScreenOk, StreamsOk, Sound, AllUnforged, IsLeftover, ShowsSealed, Share.Streams, Visits;
    AllSealedIsSound(sh);
    AnySockets(sh.env, sh.Streams(), page, sockets);
    var last := Visits(sh.env, page, sockets);
    if last.allowInput {
      SoundShowsSealed(sh, last);
      SealedTellsInput(sh, last);
    }
  }

  lemma SealedTellsInput<V>(sh: Share<V>, page: W.Page<V>)
    requires ShowsSealed(sh, page)
    ensures page.input == sh.env.input
  {
    hide SealedBy, Share.Streams, Share.After;
  }

  // Rollback

  /** On one socket a relay cannot take a page back: it stays with the sender of its first frame and only
      ever moves on to later frames, or to an error. */
  lemma NothingIsRolledBack<V(!new)>(sh: Share<V>, page: W.Page<V>, sockets: seq<Socket>, s: Socket,
      more: seq<R.Message>)
    requires FairShare(sh) && Replay.Blank(page) && AllUnforged(sh.env, sh.Streams(), sockets)
    requires Unforged(sh.env, sh.Streams(), s.msgs) && Unforged(sh.env, sh.Streams(), more)
    ensures var before := Visit(sh.env, Visits(sh.env, page, sockets), s);
      var after := Agreement.ReadAll(sh.env, before, more);
      after.failed ||
      (&& !before.failed && Past(before) <= Past(after)
       && (before.cipher.last.Some? ==> after.cipher.writer == before.cipher.writer))
  {
    hide Honest, P.ScreenOk, StreamsOk, Sound, Unforged, AllUnforged, IsLeftover, IsSealedTerm, Share.Streams, Visits,
        Agreement.ReadAll;
    AllSealedIsSound(sh);
    AnySockets(sh.env, sh.Streams(), page, sockets);
    var start := Visits(sh.env, page, sockets);
    var blank := W.Reopened(sh.env.emu, start, s.own, s.cols, s.rows);
    if !start.failed { BlankIsSound(sh.env, sh.Streams(), blank); }
    AnyMessages(sh.env, sh.Streams(), blank, s.msgs);
    AnyMessages(sh.env, sh.Streams(), Visit(sh.env, start, s), more);
  }

  /** The page is sound and stands at entry `i` of stream `k`. */
  ghost predicate StandsAt<V>(env: Env<V>, streams: seq<Stream<V>>, page: W.Page<V>, k: nat, i: nat) {
    OnStream(env, streams, k, page) && Past(page) == i + 1
  }

  predicate Earlier(k: nat, i: nat, k': nat, i': nat) {
    k < k' || (k == k' && i < i')
  }

  /** `after` shows an older screen than `before`. */
  ghost predicate TakenBack<V>(env: Env<V>, streams: seq<Stream<V>>, before: W.Page<V>, after: W.Page<V>) {
    exists k: nat, i: nat, k': nat, i': nat ::
      StandsAt(env, streams, after, k, i) && StandsAt(env, streams, before, k', i') && Earlier(k, i, k', i')
  }

  /** At least two frames have been sealed for the page's session. */
  ghost predicate TwoSealed<V>(env: Env<V>, streams: seq<Stream<V>>) {
    exists k: nat, i: nat, k': nat, i': nat ::
      IsFrame(env, streams, k, i) && IsFrame(env, streams, k', i') && Earlier(k, i, k', i')
  }

  ghost predicate IsFrame<V>(env: Env<V>, streams: seq<Stream<V>>, k: nat, i: nat) {
    k < |streams| && streams[k].session == env.session && i < |streams[k].log|
  }

  /** The first frame of a stream, or the first two. */
  function Start<V>(st: Stream<V>, i: nat): seq<R.Message>
    requires i < |st.log| && i <= 1
  {
    if i == 0 then [R.Data(st.log[0].frame)] else [R.Data(st.log[0].frame), R.Data(st.log[1].frame)]
  }

  /** A fresh page can be brought to the first frame of any stream, and to the second if there is one. */
  lemma CanReach<V(!new)>(env: Env<V>, streams: seq<Stream<V>>, page: W.Page<V>, k: nat, i: nat)
    requires Honest(env) && StreamsOk(env, streams) && Replay.Blank(page) && IsFrame(env, streams, k, i) && i <= 1
    ensures var msgs := Start(streams[k], i);
      Unforged(env, streams, msgs) && StandsAt(env, streams, Agreement.ReadAll(env, page, msgs), k, i)
  {
    hide Honest, StreamsOk, LogOk, Shows, EpochAt, IsAuthentic, W.ReceivedFrame, Share.Streams;
    var st := streams[k];
    StreamLog(env, streams, k);
    FirstIsSnapshot(env, st.writer, st.log);
    EntryQualifies(env, streams, k, 0);
    PageTakes(env, st.writer, MAX_ENCRYPTED_FRAME, st.log, page, 0);
    var first := W.ReceivedFrame(env, page, st.log[0].frame);
    var one := R.Data(st.log[0].frame);
    ReadOne(env, page, one, []);
    if i == 0 {
      ReadNone(env, first);
    } else {
      var two := R.Data(st.log[1].frame);
      EntryQualifies(env, streams, k, 1);
      PageTakes(env, st.writer, MAX_ENCRYPTED_FRAME, st.log, first, 1);
      ReadOne(env, page, one, [two]);
      ReadOne(env, first, two, []);
      ReadNone(env, W.ReceivedFrame(env, first, st.log[1].frame));
    }
  }

  lemma ReadOne<V>(env: Env<V>, page: W.Page<V>, m: R.Message, rest: seq<R.Message>)
    ensures Agreement.ReadAll(env, page, [m] + rest) == Agreement.ReadAll(env, W.Received(env, page, m), rest)
  {
    hide W.Received;
    assert ([m] + rest)[1..] == rest;
  }

  lemma ReadNone<V>(env: Env<V>, page: W.Page<V>)
    ensures Agreement.ReadAll(env, page, []) == page
  {}

  lemma FirstIsSnapshot<V>(env: Env<V>, writer: Writer, log: seq<Replay.Record<V>>)
    requires LogOk(env, writer, MAX_ENCRYPTED_FRAME, log) && |log| > 0
    ensures log[0].payload.Snapshot?
  {
    hide Genuine, P.ScreenOk, P.SnapshotOf, P.Updated, HistLen;
    assert RecordOk(env, writer, MAX_ENCRYPTED_FRAME, log, 0);
  }

  /** Two frames, a lost socket, and the first frame again: the page is back at the first frame. */
  lemma SecondThenFirst<V(!new)>(sh: Share<V>, page: W.Page<V>, s: Socket, k: nat)
    requires FairShare(sh) && Replay.Blank(page) && IsFrame(sh.env, sh.Streams(), k, 1)
    ensures var two, one := Start(sh.Streams()[k], 1), Start(sh.Streams()[k], 0);
      var before := Agreement.ReadAll(sh.env, page, two);
      var after := Visit(sh.env, before, s.(msgs := one));
      && Unforged(sh.env, sh.Streams(), two) && Unforged(sh.env, sh.Streams(), one)
      && !before.failed && !after.failed && Past(before) == 2 && Past(after) == 1
  {
    hide Honest, P.ScreenOk, StreamsOk, Unforged, OnStream, Share.Streams, Agreement.ReadAll, Start;
    var env, streams := sh.env, sh.Streams();
    AllSealedIsSound(sh);
    CanReach(env, streams, page, k, 1);
    var before := Agreement.ReadAll(env, page, Start(streams[k], 1));
    StandingIsSound(env, streams, before, k, 1);
    var blank := W.Reopened(env.emu, before, s.own, s.cols, s.rows);
    CanReach(env, streams, blank, k, 0);
    StandingIsSound(env, streams, Agreement.ReadAll(env, blank, Start(streams[k], 0)), k, 0);
  }

  /** A page that connects again starts over, and can then be taken back, by frames that are all authentic
      and without any error, exactly if two frames have been sealed for its session. */
  lemma ReopeningForgetsExactly<V(!new)>(sh: Share<V>, page: W.Page<V>, s: Socket)
    requires FairShare(sh) && Replay.Blank(page)
    ensures (exists msgs, more ::
               && Unforged(sh.env, sh.Streams(), msgs) && Unforged(sh.env, sh.Streams(), more)
               && TakenBack(sh.env, sh.Streams(), Agreement.ReadAll(sh.env, page, msgs),
                            Visit(sh.env, Agreement.ReadAll(sh.env, page, msgs), s.(msgs := more))))
            <==> TwoSealed(sh.env, sh.Streams())
  {
    hide Honest, P.ScreenOk, StreamsOk, Unforged, OnStream, Share.Streams, Agreement.ReadAll, IsFrame, Start;
    var env, streams := sh.env, sh.Streams();
    AllSealedIsSound(sh);
    forall msgs, more | TakenBack(env, streams, Agreement.ReadAll(env, page, msgs),
                                  Visit(env, Agreement.ReadAll(env, page, msgs), s.(msgs := more)))
      ensures TwoSealed(env, streams)
    {
      TwoStandings(env, streams, Agreement.ReadAll(env, page, msgs),
                   Visit(env, Agreement.ReadAll(env, page, msgs), s.(msgs := more)));
    }
    if TwoSealed(env, streams) {
      var k, i, k', i' := LateAndEarly(env, streams);
      FrameExists(env, streams, k, i);
      FrameExists(env, streams, k', i');
      var msgs, more := Start(streams[k'], i'), Start(streams[k], i);
      CanReach(env, streams, page, k', i');
      var before := Agreement.ReadAll(env, page, msgs);
      StandingIsSound(env, streams, before, k', i');
      CanReach(env, streams, W.Reopened(env.emu, before, s.own, s.cols, s.rows), k, i);
      assert TakenBack(env, streams, before, Visit(env, before, s.(msgs := more)));
    }
  }

  lemma FrameExists<V>(env: Env<V>, streams: seq<Stream<V>>, k: nat, i: nat)
    requires IsFrame(env, streams, k, i)
    ensures k < |streams| && i < |streams[k].log|
  {}

  lemma StandingIsSound<V>(env: Env<V>, streams: seq<Stream<V>>, page: W.Page<V>, k: nat, i: nat)
    requires StandsAt(env, streams, page, k, i)
    ensures !page.failed && IsFrame(env, streams, k, i)
  {
    hide Shows, EpochAt;
  }

  lemma TwoStandings<V>(env: Env<V>, streams: seq<Stream<V>>, before: W.Page<V>, after: W.Page<V>)
    requires TakenBack(env, streams, before, after)
    ensures TwoSealed(env, streams)
  {
    hide OnStream, StandsAt, IsFrame;
    var k: nat, i: nat, k': nat, i': nat :|
      StandsAt(env, streams, after, k, i) && StandsAt(env, streams, before, k', i') && Earlier(k, i, k', i');
    StandingIsSound(env, streams, after, k, i);
    StandingIsSound(env, streams, before, k', i');
  }

  /** Two sealed frames give two that a fresh page can be brought to. */
  lemma LateAndEarly<V>(env: Env<V>, streams: seq<Stream<V>>) returns (k: nat, i: nat, k': nat, i': nat)
    requires TwoSealed(env, streams)
    ensures IsFrame(env, streams, k, i) && IsFrame(env, streams, k', i') && Earlier(k, i, k', i') && i <= 1 && i' <= 1
  {
    var a: nat, m: nat, a': nat, m': nat :|
      IsFrame(env, streams, a, m) && IsFrame(env, streams, a', m') && Earlier(a, m, a', m');
    k, i, k', i' := a, 0, a', if a == a' then 1 else 0;
  }
}
