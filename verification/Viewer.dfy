/** The browser: which frames its cipher lets through, and what the page does with them. */
module Viewer {
  import opened Bytes
  import opened Utf8
  import opened Sgr
  import opened Crypto
  import opened Terminal
  import opened Proto
  import opened Relay

  const MAX_COLS := 1000
  const MAX_ROWS := 500

  /** The closure variables of `create`. */
  datatype CipherState = CipherState(
    writer: Option<Writer>, last: Option<u64>, epoch: Option<Text>, own: Writer, sendSequence: u64)

  function NewCipher(own: Writer): CipherState {
    CipherState(None, None, None, own, 0)
  }

  datatype Problem =
    | InvalidFrame | IdentityChanged | CannotDecrypt | InvalidSnapshot | InvalidJson | IncompleteOutput
    | NoSnapshotYet | CounterSpent | InputTooLarge

  /** What `open` returns: nothing for a duplicate, otherwise a payload, and for a snapshot whether the
      screen is to be restored from it. */
  datatype Opened = Duplicate | Shown(payload: Payload, restore: bool)

  /** Header and plaintext of a frame in the output direction, from this stream's writer. */
  function Decrypted<V>(env: Env<V>, c: CipherState, frame: seq<byte>): Result<(Header, seq<byte>), Problem> {
    var parsed := ParseHeader(frame);
    if parsed.Err? || parsed.value.kind == INPUT then Err(InvalidFrame)
    else if c.writer.Some? && c.writer.value != parsed.value.writer then Err(IdentityChanged)
    else
      var o := OpenFrame(env.aead, env.material, env.session, frame, false);
      if o.Err? then Err(CannotDecrypt) else Ok(o.value)
  }

  predicate ValidSnapshot(p: Payload) {
    p.Snapshot? && 1 <= p.cols <= MAX_COLS && 1 <= p.rows <= MAX_ROWS && ValidToken(p.epoch)
  }

  predicate Follows(last: Option<u64>, sequence: u64) {
    last.Some? && sequence == last.value + 1
  }

  /** The verdict on an authentic payload under number `sequence`. */
  function Judged(last: Option<u64>, kind: byte, sequence: u64, payload: Option<Payload>): Result<Opened, Problem> {
    if last.Some? && sequence <= last.value then Ok(Duplicate)
    else if payload.None? then Err(InvalidJson)
    else if kind == SNAPSHOT then
      if !ValidSnapshot(payload.value) then Err(InvalidSnapshot)
      else Ok(Shown(payload.value, !(payload.value.checkpoint && Follows(last, sequence))))
    else if !(payload.value.Output? && Follows(last, sequence)) then Err(IncompleteOutput)
    else Ok(Shown(payload.value, false))
  }

  function OpenedBy<V>(env: Env<V>, c: CipherState, frame: seq<byte>): Result<Opened, Problem> {
    var d := Decrypted(env, c, frame);
    if d.Err? then Err(d.error)
    else Judged(c.last, d.value.0.kind, d.value.0.sequence, env.codec.decode(d.value.1))
  }

  function CipherAfter<V>(env: Env<V>, c: CipherState, frame: seq<byte>): CipherState {
    var o := OpenedBy(env, c, frame);
    if o.Err? || o.value.Duplicate? then c
    else
      var h := Decrypted(env, c, frame).value.0;
      c.(writer := Some(h.writer), last := Some(h.sequence),
         epoch := if o.value.payload.Snapshot? then Some(o.value.payload.epoch) else c.epoch)
  }

  /** What the viewer seals its input with. */
  function InputSender<V>(env: Env<V>, c: CipherState): SenderState {
    SenderState(env.material, env.session, c.own, c.sendSequence, true)
  }

  /** The counter is checked and spent before the length is. */
  function InputFrame<V>(env: Env<V>, c: CipherState, bytes: seq<byte>): Result<seq<byte>, Problem> {
    if c.epoch.None? then Err(NoSnapshotYet)
    else if c.sendSequence >= U64_MAX then Err(CounterSpent)
    else
      var plain := env.codec.encode(Payload.Input(c.epoch.value, bytes));
      var sealed := SealFrame(env.aead, InputSender(env, c), INPUT, plain);
      if sealed.Err? then Err(InputTooLarge) else Ok(sealed.value)
  }

  function CipherAfterInput(c: CipherState): CipherState {
    if c.epoch.None? || c.sendSequence >= U64_MAX then c else c.(sendSequence := c.sendSequence + 1)
  }

  /** An input is sealed exactly if a snapshot has been taken, the counter is not spent and its payload
      leaves room for 46 octets in the largest frame; every refusal has its own reason. */
  lemma InputExactly<V>(env: Env<V>, c: CipherState, bytes: seq<byte>)
    ensures var r := InputFrame(env, c, bytes);
      && (r == Err(NoSnapshotYet) <==> c.epoch.None?)
      && (r == Err(CounterSpent) <==> c.epoch.Some? && c.sendSequence == U64_MAX)
      && (r == Err(InputTooLarge) <==>
            c.epoch.Some? && c.sendSequence < U64_MAX && !Small(env, Payload.Input(c.epoch.value, bytes)))
      && (r.Ok? <==> c.epoch.Some? && c.sendSequence < U64_MAX && Small(env, Payload.Input(c.epoch.value, bytes)))
    ensures var next := CipherAfterInput(c);
      && next == c.(sendSequence := next.sendSequence)
      && next.sendSequence == if c.epoch.Some? && c.sendSequence < U64_MAX then c.sendSequence + 1 else c.sendSequence
  {
    hide PrintHeader, Nonce, Aad, Derive;
  }

  /** With header and tag the payload makes a frame of at most eight mebibytes. */
  predicate Small<V>(env: Env<V>, payload: Payload) {
    |env.codec.encode(payload)| + 46 <= 0x80_0000
  }

  /** What the cipher makes of a frame, case by case: octets that do not parse as a snapshot or output of
      this stream's writer or do not open; duplicates; snapshots, of legal form or not, which are restored
      unless they are checkpoints that come next; outputs that come next, and anything else. */
  lemma VerdictExactly<V>(env: Env<V>, c: CipherState, frame: seq<byte>)
    ensures var r, h, o := OpenedBy(env, c, frame), ParseHeader(frame),
                           OpenFrame(env.aead, env.material, env.session, frame, false);
      if h.Err? || h.value.kind == INPUT then r == Err(InvalidFrame)
      else if c.writer.Some? && c.writer.value != h.value.writer then r == Err(IdentityChanged)
      else if o.Err? then r == Err(CannotDecrypt)
      else
        var n, isNext := h.value.sequence, c.last.Some? && h.value.sequence == c.last.value + 1;
        if c.last.Some? && n <= c.last.value then r == Ok(Duplicate) && CipherAfter(env, c, frame) == c
        else match env.codec.decode(o.value.1)
          case None => r == Err(InvalidJson)
          case Some(p) =>
            if h.value.kind == SNAPSHOT then
              if p.Snapshot? && 1 <= p.cols <= 1000 && 1 <= p.rows <= 500 && ValidToken(p.epoch) then
                r == Ok(Shown(p, !p.checkpoint || !isNext))
                && CipherAfter(env, c, frame)
                   == c.(writer := Some(h.value.writer), last := Some(n), epoch := Some(p.epoch))
              else r == Err(InvalidSnapshot)
            else if p.Output? && isNext then
              r == Ok(Shown(p, false))
              && CipherAfter(env, c, frame) == c.(writer := Some(h.value.writer), last := Some(n))
            else r == Err(IncompleteOutput)
    ensures OpenedBy(env, c, frame).Err? ==> CipherAfter(env, c, frame) == c
  {
    hide ParseHeader, OpenFrame, ValidToken;
    if ParseHeader(frame).Ok? { OpenKeepsHeader(env, frame); }
  }

  class Cipher<V> {
    const env: Env<V>
    const writer: Writer
    var outputWriter: Option<Writer>
    var lastSequence: Option<u64>
    var epoch: Option<Text>
    var sendSequence: u64

    function Value(): CipherState
      reads this
    {
      CipherState(outputWriter, lastSequence, epoch, writer, sendSequence)
    }

    constructor (env: Env<V>, writer: Writer)
      ensures this.env == env && Value() == NewCipher(writer)
    {
      this.env, this.writer := env, writer;
      outputWriter, lastSequence, epoch, sendSequence := None, None, None, 0;
    }

    method Open(frame: seq<byte>) returns (r: Result<Opened, Problem>)
      modifies this
      ensures r == OpenedBy(env, old(Value()), frame)
      ensures Value() == CipherAfter(env, old(Value()), frame)
    {
      hide ParseHeader, OpenFrame, ValidToken;
      var header := ParseHeader(frame);
      if header.Err? || header.value.kind == INPUT { return Err(InvalidFrame); }
      OpenKeepsHeader(env, frame);
      if outputWriter.Some? && outputWriter.value != header.value.writer { return Err(IdentityChanged); }
      var o := OpenFrame(env.aead, env.material, env.session, frame, false);
      if o.Err? { return Err(CannotDecrypt); }
      var sequence := header.value.sequence;
      if lastSequence.Some? && sequence <= lastSequence.value { return Ok(Duplicate); }
      var payload := env.codec.decode(o.value.1);
      if payload.None? { return Err(InvalidJson); }
      var restore := false;
      if header.value.kind == SNAPSHOT {
        if !ValidSnapshot(payload.value) { return Err(InvalidSnapshot); }
        restore := !payload.value.checkpoint || lastSequence.None? || sequence != lastSequence.value + 1;
        epoch := Some(payload.value.epoch);
      } else if !payload.value.Output? || lastSequence.None? || sequence != lastSequence.value + 1 {
        return Err(IncompleteOutput);
      }
      outputWriter := Some(header.value.writer);
      lastSequence := Some(sequence);
      return Ok(Shown(payload.value, restore));
    }

    method Input(bytes: seq<byte>) returns (r: Result<seq<byte>, Problem>)
      modifies this
      ensures r == InputFrame(env, old(Value()), bytes)
      ensures Value() == CipherAfterInput(old(Value()))
    {
      hide PrintHeader, Nonce, Aad, Derive;
      if epoch.None? { return Err(NoSnapshotYet); }
      if sendSequence >= U64_MAX { return Err(CounterSpent); }
      var sequence := sendSequence;
      sendSequence := sendSequence + 1;
      var header := PrintHeader(Header(INPUT, writer, sequence));
      var plain := env.codec.encode(Payload.Input(epoch.value, bytes));
      if |plain| > MAX_ENCRYPTED_FRAME - HEADER_LEN - TAG_LEN { return Err(InputTooLarge); }
      var key := Derive(env.material, env.session, writer, true);
      var encrypted := env.aead.seal(key, Nonce(sequence), Aad(header, env.session), plain);
      return Ok(header + encrypted);
    }
  }

  /** The header that authenticates is the header that was parsed. */
  lemma OpenKeepsHeader<V>(env: Env<V>, frame: seq<byte>)
    requires ParseHeader(frame).Ok?
    ensures var o := OpenFrame(env.aead, env.material, env.session, frame, false);
      o.Ok? ==> o.value.0 == ParseHeader(frame).value
  {
    hide ParseHeader, Derive, Nonce, Aad;
  }

  // The page

  datatype Page<V> = Page(
    term: Display<V>, name: Text, cmd: Text, title: Text, cwd: Text,
    input: bool, exit: Option<int>, allowInput: bool, cipher: CipherState, failed: bool)

  /** `text || ''` */
  function OrEmpty(text: Option<Text>): Text {
    if text.Some? then text.value else []
  }

  function ShowSnapshot<V>(emu: Emulator<V>, page: Page<V>, p: Payload, restore: bool): (r: Page<V>)
    requires p.Snapshot?
    ensures r.cipher == page.cipher && r.failed == page.failed
  {
    var fits := emu.size(page.term.vt) == (p.cols, p.rows);
    var sized := if fits then page.term else page.term.(vt := emu.resize(page.term.vt, p.cols, p.rows));
    page.(term := if restore || !fits then Restored(emu, sized.vt, p.screen, p.carry) else sized,
          name := p.name, cmd := p.cmd, title := OrEmpty(p.title), cwd := OrEmpty(p.cwd),
          input := p.input, exit := p.exit, allowInput := p.input)
  }

  /** A page whose socket has just been initialised, over what was on the screen before. */
  function Fresh<V>(emu: Emulator<V>, term: Display<V>, cipher: CipherState, cols: nat, rows: nat): Page<V> {
    var sized := if emu.size(term.vt) == (cols, rows) then term else term.(vt := emu.resize(term.vt, cols, rows));
    Page(sized, PLACEHOLDER, [], [], [], false, None, false, cipher, false)
  }

  /** The initial control resizes the terminal only if the size differs, and keeps nothing of what was known
      before but the terminal: no details, no permission, no error. */
  lemma FreshExactly<V>(emu: Emulator<V>, term: Display<V>, cipher: CipherState, cols: nat, rows: nat)
    ensures var page := Fresh(emu, term, cipher, cols, rows);
      && (emu.size(term.vt) == (cols, rows) ==> page.term == term)
      && (emu.size(term.vt) != (cols, rows) ==> page.term == Display(emu.resize(term.vt, cols, rows), term.carry))
      && !page.failed && !page.input && !page.allowInput && page.exit == None && page.cipher == cipher
      && page.title == page.cwd == page.cmd == []
      && Spells(page.name, "Encrypted session")
  {}

  /** The socket was lost and the page has connected again, which it does unless an error was raised. */
  function Reopened<V>(emu: Emulator<V>, page: Page<V>, own: Writer, cols: nat, rows: nat): Page<V> {
    if page.failed then page else Fresh(emu, page.term, NewCipher(own), cols, rows)
  }

  function ReceivedFrame<V>(env: Env<V>, page: Page<V>, frame: seq<byte>): Page<V> {
    if page.failed then page
    else
      var o := OpenedBy(env, page.cipher, frame);
      var next := page.(cipher := CipherAfter(env, page.cipher, frame));
      if o.Err? then next.(failed := true, allowInput := false)
      else match o.value
        case Duplicate => next
        case Shown(payload, restore) =>
          if payload.Snapshot? then ShowSnapshot(env.emu, next, payload, restore)
          else if payload.Output? then next.(term := Write(env.emu, next.term, payload.bytes))
          else next
  }

  /** Controls after the initial one touch the input permission only. */
  function ReceivedControl<V>(page: Page<V>, control: Control): Page<V> {
    if page.failed then page
    else match control
      case StatusIs(_) => page.(allowInput := page.input)
      case Exit(_) => page.(allowInput := page.input)
      case ReplayUnavailable => page.(allowInput := false)
      case Init(_, _, _) => page.(failed := true, allowInput := false)
  }

  function Received<V>(env: Env<V>, page: Page<V>, message: Message): Page<V> {
    match message
    case Data(chunk) => ReceivedFrame(env, page, chunk)
    case Ctrl(control) => ReceivedControl(page, control)
  }

  /** A snapshot takes all details along, and touches the terminal only if its size differs or it is to be
      restored: then the emulator is resized if need be, reset, and sent contents and cut-off character. */
  lemma ShowExactly<V>(emu: Emulator<V>, page: Page<V>, p: Payload, restore: bool)
    requires p.Snapshot?
    ensures var n, fits := ShowSnapshot(emu, page, p, restore), emu.size(page.term.vt) == (p.cols, p.rows);
      && n.name == p.name && n.cmd == p.cmd && n.exit == p.exit && n.input == n.allowInput == p.input
      && n.title == (if p.title.Some? then p.title.value else [])
      && n.cwd == (if p.cwd.Some? then p.cwd.value else [])
      && (fits && !restore ==> n.term == page.term)
      && (fits && restore ==> n.term == Restored(emu, page.term.vt, p.screen, p.carry))
      && (!fits ==> n.term == Restored(emu, emu.resize(page.term.vt, p.cols, p.rows), p.screen, p.carry))
  {
    hide Restored;
  }

  /** What is received after an error changes nothing; neither does a duplicate. An error ends all typing and
      leaves the screen; output changes the terminal only. */
  lemma ReceivingExactly<V>(env: Env<V>, page: Page<V>, frame: seq<byte>)
    ensures var r, o := ReceivedFrame(env, page, frame), OpenedBy(env, page.cipher, frame);
      && (page.failed || o == Ok(Duplicate) ==> r == page)
      && (!page.failed && o.Err? ==> r == page.(failed := true, allowInput := false))
      && (!page.failed && o.Ok? && o.value.Shown? && o.value.payload.Output? ==>
            r == page.(cipher := r.cipher, term := Write(env.emu, page.term, o.value.payload.bytes)))
  {
    hide Decrypted, Write, Judged, Restored;
  }

  /** Controls leave the screen alone. While there is no replay nobody types; a status or an exit gives back
      what the snapshots allow; the initial control must not come twice. */
  lemma ControlExactly<V>(page: Page<V>, control: Control)
    ensures var r := ReceivedControl(page, control);
      && r == page.(failed := r.failed, allowInput := r.allowInput)
      && (r.failed <==> page.failed || control.Init?)
      && (!page.failed ==> r.allowInput == ((control.StatusIs? || control.Exit?) && page.input))
  {}

  /** `receive`, from the point where the socket has been initialised. */
  class Tab<V(!new)> {
    const env: Env<V>
    const cipher: Cipher<V>
    var term: Display<V>
    var name: Text
    var cmd: Text
    var title: Text
    var cwd: Text
    var authenticatedInput: bool
    var authenticatedExit: Option<int>
    var allowInput: bool
    var cryptoFailed: bool

    function Value(): Page<V>
      reads this, cipher
    {
      Page(term, name, cmd, title, cwd, authenticatedInput, authenticatedExit, allowInput, cipher.Value(), cryptoFailed)
    }

    /** What the initial control of a socket leaves: a fresh cipher and no details, over whatever was on
        the screen, resized to what the control says. */
    constructor (env: Env<V>, cipher: Cipher<V>, term: Display<V>, cols: nat, rows: nat)
      requires cipher.env == env
      ensures this.env == env && this.cipher == cipher
      ensures Value() == Fresh(env.emu, term, cipher.Value(), cols, rows)
    {
      this.env, this.cipher := env, cipher;
      var resized := env.emu.size(term.vt) != (cols, rows);
      this.term := if resized then term.(vt := env.emu.resize(term.vt, cols, rows)) else term;
      name, cmd, title, cwd := PLACEHOLDER, [], [], [];
      authenticatedInput, authenticatedExit, allowInput, cryptoFailed := false, None, false, false;
    }

    method Show(payload: Payload, redraw: bool)
      requires payload.Snapshot?
      modifies this
      ensures Value() == ShowSnapshot(env.emu, old(Value()), payload, redraw)
    {
      hide Write, EncodeAll, OrEmpty;
      var resized := env.emu.size(term.vt) != (payload.cols, payload.rows);
      var restore := redraw || resized;
      name, cmd := payload.name, payload.cmd;
      title, cwd := OrEmpty(payload.title), OrEmpty(payload.cwd);
      authenticatedInput, authenticatedExit := payload.input, payload.exit;
      allowInput := authenticatedInput;
      var screen := term;
      if resized {
        screen := screen.(vt := env.emu.resize(screen.vt, payload.cols, payload.rows));
      }
      if restore {
        screen := Display(env.emu.reset(screen.vt), []);
        screen := Write(env.emu, screen, EncodeAll(payload.screen));
        if |payload.carry| > 0 { screen := Write(env.emu, screen, payload.carry); }
      }
      term := screen;
    }

    method Control(control: Control)
      modifies this
      ensures Value() == ReceivedControl(old(Value()), control)
    {
      if cryptoFailed { return; }
      match control {
        case StatusIs(_) => allowInput := authenticatedInput;
        case Exit(_) => allowInput := authenticatedInput;
        case ReplayUnavailable => allowInput := false;
        case Init(_, _, _) =>
          cryptoFailed := true;
          allowInput := false;
      }
    }

    method Binary(chunk: seq<byte>)
      requires cipher.env == env
      modifies this, cipher
      ensures Value() == ReceivedFrame(env, old(Value()), chunk)
    {
      hide OpenedBy, CipherAfter, Write, ShowSnapshot;
      if cryptoFailed { return; }
      var frame := cipher.Open(chunk);
      if frame.Err? {
        cryptoFailed := true;
        allowInput := false;
        return;
      }
      if frame.value.Duplicate? { return; }
      var payload := frame.value.payload;
      if payload.Snapshot? {
        Show(payload, frame.value.restore);
      } else if payload.Output? {
        term := Write(env.emu, term, payload.bytes);
      }
    }

    method Receive(message: Message)
      requires cipher.env == env
      modifies this, cipher
      ensures Value() == Received(env, old(Value()), message)
    {
      hide ReceivedFrame, ReceivedControl;
      match message {
        case Data(chunk) => Binary(chunk);
        case Ctrl(control) => Control(control);
      }
    }
  }
}
