# A verified model of tcomp

tcomp shares a terminal through a relay that, in an encrypted session, must not be trusted with what is
on the screen. This project models the parts of it where that gets difficult and proves what they are for:

- **The replay protocol.** The host (`Producer`) turns terminal events into numbered snapshot and output
  frames under a byte budget; the relay (`Relay`, `Handlers`) keeps a bounded, opaque history, fences old
  connections by epoch, broadcasts, and resynchronises viewers that lag; the page (`Viewer`) drops
  duplicates, demands contiguous output and skips redundant snapshots. `Replay` joins the three in one
  step system with connections that die with frames under way, resumes, late handlers of old connections,
  viewers that join at any moment, fall behind and leave. `Invariant` is its inductive invariant and
  `Agreement` what follows for every run: screens that are shown are right. `Progress` adds that they arrive:
  which turns send a frame, and that it reaches every viewer. `Sharing` is the host alone, under a relay that names any session
  and any replay budget on every connection, and `Integrity` what such a relay can make a tab show, over all
  the sockets the tab opens; by `Embedding` every run of the step system is such a sharing.
- **Envelopes and input.** Header, nonce, associated data and key derivation inputs (`Crypto`), nonce
  discipline over whole runs (`Nonces`), replay protection of viewer input against any relay
  (`InputReplay`), and the way of an input from keyboard to host (`InputPath`).
- **The host's terminal.** The gate that keeps the watch link readable (`Gate`), the escape-sequence
  scanner (`Modes`) with the printer that undoes what it recorded (`Cleanup`), incremental UTF-8 (`Utf8`,
  `Terminal`), the colour normaliser of screen dumps (`Sgr`) and percent encoding (`Percent`).

Objects the source updates in place are classes. Each of their methods is proved to make exactly the
transition that a function on values describes, for results and new state alike; the protocol theorems are
about those functions. Loops of the source are loops here.

## Assumptions

They are parameters and predicates, never axioms.

- The emulator is opaque: five functions with `Terminal.Lawful`. Feeding it is a stream, it keeps its size,
  and a dump fed to a reset screen of the same size restores the screen it was taken from. Host and page
  are taken to have the same emulator and the same treatment of ill-formed UTF-8, and the page's reset
  also forgets a cut-off character, which the escape at the start of a dump makes its decoder drop.
- The cipher is opaque: `Crypto.Correct` (a tag of 16 octets, opening inverts sealing) and, where somebody
  hostile delivers frames, `Crypto.Authentic` of every frame delivered: if it opens, then to something a
  sender sealed under the header it carries. That is asked of delivered frames only, since the cipher itself
  would open the sealing of any plaintext. `Crypto.SealedIsAuthentic`, `InputReplay.SealedFrameQualifies` and
  `Integrity.ReplayedFramesQualify` show that sealed frames in any order, number and selection, and whatever
  does not open, meet it. Derived keys are equal only if key material, session and `info` are.
- The JSON form of payloads is opaque and round-trips (`Proto.RoundTrips`).
- Writer ids are never drawn twice (`Nonces.FreshWriters`), nor are input epochs (`InputReplay.FreshEpochs`).
- A browser handles the messages of one socket one after the other, and a socket loses only a tail.

`Consistency` exhibits an emulator, a codec and a cipher that meet all laws at once, so that there are fair
runs and sharings of any steps (`Consistency.FairRunsExist`).

## Where the code and expectations part

- A linger that starts while the gate is already open does not look back at bytes already written, so a
  switch whose beginning was written before may be completed during the linger. `Gate.SwitchSlipsThrough` is
  an example; `Gate.LateLingerIsSafeExactly` proves that this cannot happen, whatever follows, if and only if
  the bytes written so far do not end inside a switch.
- A directory report is not independent of how output is cut into chunks: a malformed report overwrites a
  good one of the same chunk but not one of an earlier chunk. `Modes.CwdDependsOnChunks` is the example,
  `Modes.CwdChunkingExactly` the exact condition.
- Encoding does not always invert percent decoding: a plus sign is taken for the first hexadecimal digit,
  and escapes of plain bytes or in lower case decode as well. `Percent.EncodeDoesNotAlwaysInvert` gives
  examples, `Percent.EncodeInvertsExactly` the exact condition.
- The exit notice is not fenced by epoch inside the session, only by the handler's look before it acts.
  `Relay.LateExitEndsLiveSession` is an example, `Relay.ExitIsFencedExactly` proves when a report makes no
  difference in the end: exactly if the session had ended anyway, or a resume or another report follows. Of
  all that a late handler does only such a report gets through, and only between its look and its action
  (`Handlers.LateHandlerIsFencedExactly`). The step system lets other handlers report an exit at any time.

- A page that has lost its socket connects again with a fresh cipher, so what holds on one socket does not
  hold across two: `Integrity.SecondThenFirst` takes a tab from a second frame back to the first, with
  authentic frames and no error. `Integrity.ReopeningForgetsExactly` proves that this is possible exactly if
  two frames were sealed for the session; on one socket it never is (`Integrity.NothingIsRolledBack`). What a
  tab shows is a screen the host had in either case.
- A connection whose acknowledgement cannot be sent leaves its session live with no handler to mark it, and
  live sessions have no deadline. `Handlers.UnacknowledgedStaysLive` is an example, `Handlers.LeftLiveExactly`
  proves that it is the only way for a session to stay live after its latest connection has returned.

## Model

| member | source | states |
|---|---|---|
| Agreement.ViewersAgree | web/session.html:624-655 | In every run of honest parties no viewer has raised an error, a viewer whose last frame is number n shows terminal, partial character, size, title, directory, exit and permissions exactly as the producer had them in the step that sealed frame n, and its user can type exactly if it has taken a frame and the host shares for input. |
| Agreement.EveryFrameIsTaken | web/static/crypto.js:68-108 | In every run, the next frame on a viewer's socket is authentic and is a duplicate (the page stays as it is), the next number, or a snapshot; in the last two cases the page then shows the sealed screen. "Incomplete" is never raised. |
| Agreement.CaughtUp | src/server/view.rs:66-102 | While the producer is connected and the relay has read all it sent, a viewer that handles what is under way to it, lagging or not, shows the producer's present screen and has the input epoch of the present connection; its user can type exactly if the host shares for input. |
| Agreement.CountersAgree | src/encrypted.rs:192-255 | On a live connection the relay accepts all that is under way, and then has counted exactly the producer's `history_len`, within the cap. |
| Agreement.NothingIsRefused | src/server/session.rs:144-158 | In every run the handler of the live connection accepts each frame it reads, and `ReplayUnavailable` is never broadcast. |
| Agreement.CheckpointsAreRedundant | src/encrypted.rs:192-255 | A snapshot sealed as a checkpoint repeats the terminal contents and size of the frame before it, and every connection opens with a snapshot that is not a checkpoint. |
| Agreement.SealingStep | src/crypto.rs:119-122 | Every frame of a run was sealed by one step of it, under the number of frames sealed before, from the screen the producer then had. |
| Progress.FirstScreen | src/encrypted.rs:192-196 | After any run: a producer that is off the air connects and opens with a screen that fits and a send that works, the relay reads one message, a viewer joins and handles one message; it then shows the producer's screen, has the input epoch of this connection, and its user can type exactly if the host shares for input. |
| Progress.EventsArrive | src/encrypted.rs:232-262 | After any run, on a live connection: an event whose frame fits and is sent ends up on every viewer, whatever that viewer has missed, exits included. |
| Progress.ReconnectArrives | src/encrypted.rs:192-196 | After any run, viewers that stayed while the producer was away show its screen again once it is back and its opening frame fits and is sent. |
| Progress.TickIsUnderway | src/encrypted.rs:226-231 | After output the timer's checkpoint, if it fits and is sent, is on its way with the producer's screen. |
| Progress.UnderwayArrives | src/server/view.rs:66-102 | From any reachable state whose latest frame has been sent: once the relay has read what is under way, the viewer's handler has caught up and the page has handled it all, the page shows the producer's screen, for every viewer. |
| Progress.NoticesAreTrue | src/encrypted.rs:260-269 | In every run an exit notice is on its way only once the child has exited. |
| Progress.NoticeArrives | src/server/produce.rs:156-159 | When the relay reads it, the session has ended, viewers are told so once, and nobody types any more. |
| Progress.RelayOfRun | src/server/produce.rs:110-168 | In every run of the step system the relay's session is exactly where a run of its own operations takes it, so all that is proved of those holds of it. |
| Integrity.NothingForgedIsShown | web/static/crypto.js:68-108 | Whatever relays without the key do to the connections of a host and to the sockets of a tab, the tab ends in an error, has taken nothing on its present socket, or shows exactly a screen the host sealed for that session; even in an error its terminal shows only what it began with or such a screen, possibly resized. |
| Integrity.NothingIsRolledBack | web/static/crypto.js:73-85 | On one socket, after any sockets before, such a relay cannot take a page back to an earlier frame or to another sender. |
| Integrity.ReopeningForgetsExactly | web/session.html:590-603 | Across a reopened socket a tab can be taken back, by authentic frames and without an error, if and only if two frames have been sealed for its session. |
| Integrity.SecondThenFirst | web/session.html:663-692 | Two frames, a lost socket and the first frame again leave a tab at the first frame. |
| Integrity.InputIsAuthenticated | web/session.html:603-643 | Whatever such relays do, a tab lets its user type only if the host shares its session for input, and only after the tab took on its present socket a snapshot the host sealed and raised no error. |
| Integrity.ReplayedFramesQualify | src/crypto.rs:140-161 | All frames a host ever sealed for a session, under whichever of its senders and in any order, number and selection, octets that do not open and any controls are covered by the results about hostile relays. |
| Sharing.AllSealedIsSound | src/encrypted.rs:94-179 | Whatever session and replay budget a relay names on every connection, all that a host seals under any sender is genuine, numbered from zero and tells the screen of its moment, counts stay within the largest frame, and no two senders share a writer id. |
| Sharing.AcknowledgedExactly | src/encrypted.rs:120-193 | A connection whose opening frame fits seals the present screen for the session it was told: a resumed session goes on under its sender, any other gets one of its own, and what was sealed before is kept. |
| Sharing.SealingMove | src/encrypted.rs:192-262 | Every frame of every sender was sealed by one move of the sharing, from the screen the host then had. |
| Embedding.RunIsSharing | src/encrypted.rs:94-264 | The host of a run of the step system seals exactly what it would as the host of a sharing with one sender. |
| Invariant.RunKeeps | src/encrypted.rs:94-179 | The invariant that ties log, counters, link, history, broadcast and every viewer's deliveries together holds after any steps. |
| Invariant.NextKeeps | src/encrypted.rs:192-262 | Every single step keeps it: events, timers, connects, losses, deliveries, late handlers, joins, lags, pages. |
| Invariant.PageTakes | web/session.html:624-655 | A page that shows entry n takes any entry it may meet: a duplicate changes nothing, a restored snapshot, a skipped checkpoint or the next output leaves it showing that entry. |
| Invariant.SnapshotIsShown | web/session.html:628-652 | A snapshot that is restored over any screen of any size, or that finds its very screen on the page, leaves the page showing the snapshot's screen and details. |
| Invariant.RelayAccepts | src/server/session.rs:133-162 | The relay accepts the next frame of the log and its history stays the part of the log since the latest snapshot, its length the producer's count. |
| Invariant.ForwardedOk | src/server/view.rs:66-94 | A viewer that lagged and is resynchronised can take, in turn, all that was still on its socket and all of the new replay. |
| Invariant.JoinIsDeliverable | src/server/session.rs:230-268 | The replay a joining viewer is sent can be taken in turn from any position up to the relay's, and ends at the relay's. |
| Invariant.HappenedTurn | src/encrypted.rs:232-255 | An event on a connection seals an entry that tells the new screen and is counted as the relay will count it, or ends the sharing. |
| Invariant.TickedTurn | src/encrypted.rs:226-231 | The two-second checkpoint likewise, and it is redundant. |
| Invariant.OpenedTurn | src/encrypted.rs:192-193 | The opening snapshot likewise, and it is never a checkpoint. |
| Producer.Screen.constructor | src/encrypted.rs:22-36 | A new screen: blank emulator of the clamped size, nothing carried, the host's directory. |
| Producer.Screen.Update | src/encrypted.rs:38-64 | The screen after an event, and the bytes of an output event and of no other. |
| Producer.Screen.Snapshot | src/encrypted.rs:66-91 | Seals exactly the screen's state under the next number and returns the frame if it fits the budget; the number is spent either way. |
| Producer.Host.Connected | src/encrypted.rs:120-141 | A resumed session keeps its sender and so its numbers, any other gets a new sender; the budget is the relay's offer up to the largest frame, if that leaves room for a payload. |
| Producer.Pump.Open | src/encrypted.rs:192-193 | The opening snapshot of a connection and the count it starts with. |
| Producer.Pump.OnTick | src/encrypted.rs:226-231 | The checkpoint after output, and only then. |
| Producer.Pump.OnEvent | src/encrypted.rs:232-255 | An output frame while it fits the budget, otherwise a full snapshot; a snapshot for every other event. |
| Producer.OpeningExactly | src/encrypted.rs:135-193 | If the offer exceeds 46 octets, the opening turn sends the present screen, no checkpoint, exactly if a number is left and its payload with 46 octets more fits the offer and eight mebibytes; otherwise the sharing fails. |
| Producer.EventExactly | src/encrypted.rs:232-255 | Every event on a connection sends exactly one named frame: output as it is while count, payload and 46 octets fit the budget, otherwise the new screen, a checkpoint after metadata and an exit; it fails exactly if that cannot be sealed or does not fit, and only output leaves it dirty. |
| Producer.TickExactly | src/encrypted.rs:226-231 | The timer sends the present screen as a checkpoint after output, if it fits, and nothing otherwise. |
| Producer.OfflineExactly | src/encrypted.rs:113-118 | Off a connection events change the screen and nothing is sent. |
| Producer.SendingExactly | src/encrypted.rs:257-269 | A failed send ends the connection, an exit ends the sharing once its notice is out, and otherwise the connection goes on. |
| Producer.ClampIsNearest | src/screen.rs:7-9 | A size is set to the nearest one from 1 to 1000 columns and from 1 to 500 rows. |
| Producer.TerminalFollows | src/encrypted.rs:38-63 | Only output and resizes touch the terminal; output is fed to it as decoded behind the carry, a legal resize resizes it. |
| Producer.UpdatedOk | src/screen.rs:7-9 | Sizes stay legal and equal to the emulator's, the carry stays a cut-off character. |
| Producer.LatestWins | src/encrypted.rs:38-63 | Title, directory, exit code and size after any events are those of the latest event that set them. |
| Producer.OutputIsStream | src/encrypted.rs:40-44 | Two chunks of output leave the screen that one chunk of both leaves. |
| Relay.Session.constructor | src/server/session.rs:66-127 | A new session, encrypted if it has no screen. |
| Relay.Session.FeedEncrypted | src/server/session.rs:133-162 | Which frames are accepted and the whole session afterwards, for any octets under any epoch. |
| Relay.Session.Feed | src/server/session.rs:164-187 | Screen, carry, ring and broadcast after plaintext output; the branch that clears a long carry is proved dead. |
| Relay.Session.JoinEncrypted | src/server/session.rs:230-268 | Initial control with the placeholder details, banner, replay and place in the broadcast of a joining viewer. |
| Relay.Session.ResumeLocked | src/server/session.rs:306-317 | What a resume does under the lock: next epoch, new permission, live again, no exit code, no input channel, no carry. |
| Relay.Session.Resume | src/server/session.rs:306-323 | The same, the epoch returned, and the broadcast that follows once the lock is given up. |
| Relay.Session.AttachInput | src/server/session.rs:329-334 | The channel of the current epoch only. |
| Relay.Session.DetachInput | src/server/session.rs:336-341 | By a handler of the current epoch only. |
| Relay.Session.SendInput | src/server/session.rs:343-352 | Where viewer input goes, if anywhere. |
| Relay.Session.MarkDisconnected | src/server/session.rs:293-304 | Only a live session of the current epoch becomes stale. |
| Relay.Session.MarkExit | src/server/session.rs:281-291 | The session ends with its exit code, and its input is cut. |
| Relay.HistoryAlwaysSound | src/server/session.rs:133-162 | In every reachable state, hostile frames included: the length is the sum of the stored lengths and within the cap; a ready history is one snapshot followed only by outputs, any other is empty. |
| Relay.JoinIsComplete | src/server/session.rs:249-266 | In every reachable state a joining viewer is sent a snapshot followed by outputs within the cap, or is told that there is no replay, never both or neither, together with the present status and permission and the placeholder details. |
| Relay.BroadcastExactly | src/server/session.rs:133-162 | Over any run each accepted frame, each exit with its code, each loss and each announcement is broadcast once and in order, a refused frame as a missing replay, and nothing else is. |
| Relay.HistoryFollowsBroadcast | src/server/session.rs:230-268 | In every run a joining viewer is replayed exactly the frames that one who listened all along would keep: those since the latest snapshot, unless the replay has been called off. |
| Relay.StandingExactly | src/server/session.rs:281-323 | Epoch, status, exit code and permission after any run: resumes are counted, the latest resume or exit decides, and only the loss of the latest connection makes a live session stale. |
| Relay.FeedsAreBroadcast | src/server/session.rs:164-187 | From any plaintext session each chunk is broadcast once and in order, and nothing else. |
| Relay.ResumeStartsClean | src/server/session.rs:306-317 | After a resume all plaintext output is decoded as one new stream: what the lost connection left of a character is forgotten. |
| Relay.OldConnectionsAreFenced | src/server/produce.rs:90-120 | In every interleaving, a run from epoch e on ends in the very same state with and without all frames, attaches, detaches and disconnects of earlier connections. |
| Relay.WithoutExactly | src/server/session.rs:293-341 | What is left out there: exactly the operations made under earlier epochs. |
| Relay.InputIsFenced | src/server/session.rs:329-352 | In every run viewer input goes to at most one channel, attached under the current epoch with no resume since, while the session is live and its latest connection allows input. |
| Relay.InputFlowsExactly | src/server/session.rs:306-352 | From a resume and attach on, whatever frames, attaches, detaches and disconnects of earlier connections still arrive, input flows to that channel exactly if allowed, and stops at a detach, a loss or an exit. |
| Relay.ExitIsFencedExactly | src/server/session.rs:281-291 | A report of an exit makes no difference in the end to status and viewer input if and only if the session had ended anyway, or a resume or another report follows, for all states and all that others do. |
| Relay.LateExitEndsLiveSession | src/server/produce.rs:138-159 | A resumed, live session with its input attached is ended by a late report of the connection before. |
| Relay.RingHoldsLongestSuffix | src/server/session.rs:178-184 | After any feeds the ring is the longest suffix of the chunks that fits the cap, or the last chunk alone if that does not fit; its length is exact, and the screen has been fed everything. |
| Handlers.Pump | src/server/produce.rs:122-168 | The handler's loop, over whatever others do before each look at the epoch and between look and action: which messages it acts on, where it stops, and whether the end was clean. |
| Handlers.Handle | src/server/produce.rs:58-119 | A whole connection with others acting at every gap: nothing if it cannot be acknowledged, otherwise attach, loop, detach and, unless clean, mark. |
| Handlers.CleanMeansOver | src/server/produce.rs:112-119 | After a clean end, whatever others did, the session has ended or belongs to a later connection, so that skipping the disconnect mark makes no difference. |
| Handlers.HandleIsRun | src/server/produce.rs:90-168 | A whole connection, with others acting at every gap, is a run of the session's operations, the handler's own under its own epoch but for exit notices; what is proved of runs thus holds of handlers however they interleave. |
| Handlers.HandlerReadsOn | src/server/produce.rs:129-166 | Behind frames the session takes, exit notices and noise a handler reads on, doing what each message asks for amid what others do; it ends clean exactly if an exit notice was among them. |
| Handlers.HandlerStops | src/server/produce.rs:129-166 | Behind any other message it stops, and one that comes for an earlier connection is dropped. |
| Handlers.ReadingIsRelayed | src/server/produce.rs:122-168 | What a handler reads on behind while nobody else acts reaches the viewers, once each and in order. |
| Handlers.LateHandlerIsFencedExactly | src/server/produce.rs:138-159 | A message of a handler whose producer has resumed elsewhere, before the look or only after it, changes nothing, except an exit notice that slips in between look and action. |
| Handlers.LostStaysLost | src/server/session.rs:293-304 | Whatever went before and follows, once a handler has marked its connection as lost the session is not live again but by a later resume. |
| Handlers.LeftLiveExactly | src/server/produce.rs:58-120 | A live session whose latest connection has returned stays live, whatever earlier connections still do, if and only if that connection could not be acknowledged. |
| Handlers.UnacknowledgedStaysLive | src/server/produce.rs:60-68 | A resumed session whose acknowledgement is lost: live, and served by nobody. |
| Handlers.Watcher.constructor | src/server/view.rs:45-64 | What a joining viewer is sent, and its place in the broadcast. |
| Handlers.Watcher.Turn | src/server/view.rs:66-102 | One turn for a viewer: the next broadcast, or after more than 2048 missed ones status, banner and replay of a new join. |
| Handlers.KeepsUp | src/server/view.rs:66-69 | A viewer at most 2048 broadcasts behind is sent each of them, once and in order, and then waits. |
| Handlers.LagExactly | src/server/view.rs:70-94 | One further behind is sent the status, the notice if there is no replay, and all of the replay, and is then up to date. |
| Viewer.Cipher.Open | web/static/crypto.js:68-108 | The verdict on any octets and the closure variables afterwards; a refused or repeated frame changes none of them. |
| Viewer.Cipher.Input | web/static/crypto.js:109-124 | The sealed input and the counter, which an input that is too large spends as well. |
| Viewer.VerdictExactly | web/static/crypto.js:68-108 | Which octets are refused and why, which are duplicates, which snapshots are restored, and what the cipher remembers, case by case. |
| Viewer.InputExactly | web/static/crypto.js:109-124 | An input is sealed exactly if a snapshot has been taken, a number is left and its payload with 46 octets more fits eight mebibytes; each refusal has exactly its own condition. |
| Viewer.Tab.Show | web/session.html:628-652 | The page after a snapshot: details always, the screen if it is restored or its size differs. |
| Viewer.Tab.Control | web/session.html:607-617 | Controls touch the input permission only; any other control is an error. |
| Viewer.Tab.Binary | web/session.html:624-655 | The page after a binary message. |
| Viewer.Tab.Receive | web/session.html:581-661 | The page after any message; after an error nothing changes. |
| Viewer.FreshExactly | web/session.html:593-600 | What the initial control leaves: the terminal, resized only if its size differs, placeholder details, no permission, no error. |
| Viewer.ShowExactly | web/session.html:628-652 | A snapshot takes all details along and touches the terminal only if its size differs or it is to be restored. |
| Viewer.ReceivingExactly | web/session.html:624-655 | Nothing changes after an error or by a duplicate, an error ends typing and leaves the screen, output changes the terminal only. |
| Viewer.ControlExactly | web/session.html:607-617 | Nobody types while there is no replay; a status or an exit gives back what the snapshots allow. |
| Crypto.ParseInvertsPrint | src/crypto.rs:57-75 | A frame parses to a header exactly when its size is legal and its first 30 octets are what `seal` prints for that header. |
| Crypto.NonceInjective | src/crypto.rs:77-81 | Different numbers give different nonces. |
| Crypto.AadInjective | src/crypto.rs:83-85 | The associated data determines session and header, whatever the session. |
| Crypto.InfoInjective | src/crypto.rs:30-35 | The `info` of the key expansion determines writer and direction. |
| Crypto.U64RoundTrip | src/crypto.rs:73-79 | Sequence numbers read back from their eight octets. |
| Crypto.Sender.Seal | src/crypto.rs:110-137 | The frame or the refusal, and the counter, which moves by one exactly when a frame is sealed. |
| Crypto.SealedFrameOpens | src/crypto.rs:110-161 | A sealed frame is 46 octets longer than its plaintext and opens, in its session and direction, to that plaintext under the header printed. |
| Crypto.OpenedWasSealed | src/crypto.rs:140-161 | An authentic frame opens only to what a sender of that session and direction sealed, under the very header the frame carries. |
| Crypto.SealedIsAuthentic | src/crypto.rs:110-161 | What a sender seals is authentic wherever and however often it is delivered in its session and direction. |
| Crypto.LayoutExactly | src/crypto.rs:57-75 | The octets of a header: letters, version, kind, writer, and the number with its most significant octet first. |
| Crypto.InputsExactly | src/crypto.rs:77-85 | The octets of a nonce, and the labels that key derivation and associated data are made of. |
| Crypto.ParseExactly | src/crypto.rs:57-75 | Which octets parse, and which of the three errors any others raise. |
| Crypto.SealExactly | src/crypto.rs:110-122 | Which plaintexts are sealed, which of the three errors any others raise, and that only a sealed frame uses a number. |
| Crypto.OpenExactly | src/crypto.rs:140-161 | Which of the checks decides about a frame. |
| Nonces.NoncesUnique | src/crypto.rs:95-137 | No two sealings of a run, over all senders and reconnects, share key and nonce (section 8 of NIST SP 800-38D). |
| Nonces.SpentSenderIsSilent | src/crypto.rs:119-122 | Over any stretch of a run keys stay, counters never fall back, sealings are never forgotten, and a sender whose counter is spent seals nothing more: it fails rather than wraps. |
| InputReplay.InputReceiver.Receive | src/crypto.rs:180-193 | Bytes or refusal, and the writer table, for any octets; a refused frame changes nothing. |
| InputReplay.AcceptedExactly | src/crypto.rs:180-193 | A frame is accepted after others exactly if it authenticates as input of this epoch, its number is above all accepted of its writer, and its writer was accepted before or is among the first 1024. |
| InputReplay.RefusedExactly | src/crypto.rs:180-193 | The exact condition of each refusal of an authentic frame. |
| InputReplay.AcceptedIsIncreasing | src/crypto.rs:187-191 | On one connection, against any delivery, the accepted numbers of a writer strictly increase. |
| InputReplay.TableOnlyGrows | src/crypto.rs:187-191 | The table never exceeds 1024 writers, forgets none and lowers no number. |
| InputReplay.TableIsHighest | src/crypto.rs:187-191 | The table holds exactly the writers accepted so far, each with the highest number accepted of it. |
| InputReplay.AtMostOnce | src/encrypted.rs:143-155 | Over all connections no epoch, writer and number are accepted twice. |
| InputReplay.EveryConnectionCounts | src/encrypted.rs:143-155 | All connections count, each with a receiver of its own, one after the other. |
| InputReplay.OnlySealedInput | src/crypto.rs:180-193 | Over all connections, whatever is delivered, every accepted input was sealed, with these bytes, for the epoch that accepted it. |
| InputReplay.SealedFrameQualifies | src/crypto.rs:110-137 | Every frame an input sender sealed at any step of a run may be delivered at any time and any number of times. |
| InputReplay.EachInputActsOnce | src/crypto.rs:163-194 | Senders and producer together: no sealed input acts twice, not even across reconnects. |
| InputPath.InputIsAccepted | web/static/crypto.js:109-124 | What the page seals, the host accepts under the page's writer and number, and both stay in step. |
| InputPath.ReceiverIsInStep | src/crypto.rs:180-193 | After any authentic deliveries the receiver of a connection is in step with a page of its epoch that is among its writers or one of the first 1024. |
| InputPath.HostReads | src/encrypted.rs:208-216 | The loop over binary messages: what is written to the child through a channel that may be absent or close, when that ends the sharing, and the receiver afterwards; nothing at all without input permission, and no empty writes. |
| InputPath.ThroughExactly | src/encrypted.rs:212-214 | Without a channel nothing is written, otherwise the writes due in order up to the first that fails. |
| InputPath.InputsArrive | src/encrypted.rs:208-216 | Over a relay that delivers in order a host that shares for input writes exactly the inputs that are not empty and whose payload with 46 octets more fits eight mebibytes, for as long as there are numbers, each once, in the order they were typed; any other host writes nothing. |
| InputPath.CaughtUpViewerTypes | src/encrypted.rs:143-155 | In every run a caught-up viewer can type: after any authentic deliveries on the present connection, its inputs delivered in order, but for empty and too large ones, are written to the child, each once and in order. |
| Proto.EpochIsValid | src/crypto.rs:169-174 | Every epoch a producer makes passes the page's check of an epoch. |
| Proto.TokensExactly | web/static/crypto.js:19-24 | The page takes exactly the texts that 32 octets are written as, and different octets are written differently. |
| Proto.AlphabetExactly | src/crypto.rs:169-174 | The digits are the URL-safe alphabet of section 5 of RFC 4648, and read back. |
| Gate.Output.LingerChunk | src/term.rs:92-125 | A chunk during a linger: everything in front of the first complete or possible switch is written, the rest is held. |
| Gate.Output.StartLinger | src/term.rs:127-147 | A new linger examines what was held while waiting; a running one is extended. |
| Gate.Output.OpenGate | src/term.rs:84-90 | Opening writes what was held. |
| Gate.Output.ChildOutput | src/term.rs:157-167 | Child output is held, examined or written. |
| Gate.Output.GiveUp | src/term.rs:169-175 | Only a waiting gate opens. |
| Gate.Output.LingerOver | src/term.rs:177-186 | Only a linger whose time has come ends. |
| Gate.Output.NoteWithUrl | src/term.rs:207-218 | A note with a link starts a linger. |
| Gate.SearchesFindHoldPoint | src/term.rs:52-77 | The two searches together find the least position where a switch stands or may have begun. |
| Gate.AltScreenAtIsFirst | src/term.rs:52-61 | The first search finds the first complete switch of any of the three kinds. |
| Gate.HoldPointAppend | src/term.rs:63-77 | Looking at the held tail and the new bytes finds the hold point of the whole stream. |
| Gate.NothingLost | src/term.rs:79-190 | In every run bytes written, then bytes held, are the child's output in order. |
| Gate.GateOpensExactly | src/term.rs:79-190 | In every run the gate is open exactly after a deadline that was met, a wait given up or a release with no link printed since, and then everything is written; while it waits nothing is. |
| Gate.EverythingComesOut | src/term.rs:169-190 | When the second after the latest link is over the timer opens the gate and everything is written, before that it changes nothing; giving up opens a waiting gate, a release any. |
| Gate.OpenPassesAll | src/term.rs:157-167 | An open gate stays open and writes all output at once, until a link is printed. |
| Gate.LineStartExactly | src/term.rs:40-50 | Between notes the cursor counts as at the start of a line exactly if nothing was written since the note or the last byte written is a line feed. |
| Gate.LineStartAtFirst | src/term.rs:29-50 | The same before the first note, from a terminal at the start of a line. |
| Gate.SwitchesSpelled | src/term.rs:12-12 | The three switches. |
| Gate.ChunkingIsInvisible | src/term.rs:92-125 | Two chunks leave the gate, the written bytes and the line-start flag exactly as one does. |
| Gate.LingerLetsNoSwitchThrough | src/term.rs:92-147 | From the start of a linger until the gate opens exactly the stream up to its hold point is written, and it contains no switch, however the output was cut. |
| Gate.BoundaryIsSafeExactly | src/term.rs:139-146 | After any output, what a linger lets through of any further output completes no switch, whatever follows, if and only if the output before does not end inside a switch. |
| Gate.LateLingerIsSafeExactly | src/term.rs:127-147 | The same of the gate: a linger that starts on an open gate completes no switch, over all that a child may write and however it is cut, if and only if the bytes written before do not end inside one. |
| Gate.SwitchSlipsThrough | src/term.rs:139-146 | A switch cut in two by the printing of the link is written during the linger. |
| Modes.MeasureSequence | src/modes.rs:62-91 | The length of the sequence at the front, if it is complete. |
| Modes.Scanner.Observe | src/modes.rs:38-60 | Modes, depth, pending bytes and reports after a chunk. |
| Modes.SequenceLenIsStable | src/modes.rs:62-91 | A complete sequence stays the same sequence whatever follows. |
| Modes.ScanAppend | src/modes.rs:38-60 | Scanning a stream in two parts is scanning it in one. |
| Modes.SequenceLenExactly | src/modes.rs:62-91 | What is measured is exactly the one whole control sequence, command string or two-byte escape at the front. |
| Modes.TextIsPassedOver | src/modes.rs:42-46 | Text without escapes changes nothing. |
| Modes.PendingExactly | src/modes.rs:55-58 | The unfinished tail is kept up to 1024 bytes and dropped beyond. |
| Modes.ReportsExactly | src/modes.rs:144-164 | Which reports set a title, which a directory, and which nothing, under either terminator. |
| Modes.PathReadsBack | src/modes.rs:166-189 | A directory reported as a file URL with any host and its path percent-encoded is that directory. |
| Modes.NoPath | src/modes.rs:166-169 | A text that is no file URL or has no path reports none. |
| Modes.ChunkingIsInvisible | src/modes.rs:38-60 | Two chunks leave modes, depth, pending bytes and latest title of one, if the tail between them is at most 1024 bytes. |
| Modes.ScanSeen | src/modes.rs:144-164 | Of several reports in one chunk the last title counts, and the last directory even if it is malformed. |
| Modes.CwdChunkingExactly | src/modes.rs:161-161 | For directories one chunk reports what two do, unless the first had a good one and the last report of the second is malformed; then it does not. |
| Modes.CwdDependsOnChunks | src/modes.rs:161-161 | A good and a malformed report: kept in two chunks, lost in one. |
| Cleanup.Clean | src/modes.rs:192-225 | The bytes printed, and the globals cleared. |
| Cleanup.CleanupEffect | src/modes.rs:192-225 | From any state at all, scanning the printed bytes switches off exactly the modes that were on, pops exactly min(depth, 16) levels and leaves no tail. |
| Cleanup.CleanupUndoes | src/modes.rs:192-225 | From the state before, it leaves no mode on and depth - min(depth, 16). |
| Cleanup.OnlyActiveModesReset | src/modes.rs:192-225 | No reset is printed for a mode that was not on. |
| Cleanup.QuietIffNothingOn | src/modes.rs:220-222 | Nothing is printed exactly when nothing was on. |
| Cleanup.SwitchIsSeen | src/modes.rs:107-127 | Each of the twelve private modes is recorded, and nothing else, when its switch is scanned. |
| Cleanup.SwitchedExactly | src/modes.rs:108-127 | Of any list of parameters exactly the listed modes are switched, unknown ones are ignored, and nothing else changes. |
| Cleanup.SwitchesOneByOne | src/modes.rs:108-127 | One sequence with several parameters does what a sequence for each does, one after the other. |
| Cleanup.OthersAreIgnored | src/modes.rs:107-141 | Control sequences of any other form change nothing. |
| Cleanup.PopIsCounted | src/modes.rs:131-135 | A pop lowers the depth by one, but not below zero. |
| Cleanup.TableSpelled | src/modes.rs:202-215 | The twelve resets, by number and final character. |
| Cleanup.SequencesSpelled | src/modes.rs:196-222 | The other sequences that are printed. |
| Cleanup.StyleIsReset | src/modes.rs:220-222 | Whatever is printed ends by resetting the style. |
| Cleanup.PushIsCounted | src/modes.rs:128-130 | Pushing keyboard flags raises the depth by one in 32 bits. |
| Cleanup.ModifyKeysIsSeen | src/modes.rs:136-139 | Which settings of `modifyOtherKeys` count as on. |
| Utf8.CharIsEncoding | src/screen.rs:56-84 | A character that is read is the encoding of its value (section 4 of RFC 3629). |
| Utf8.IncompleteIsCutOff | src/screen.rs:76-79 | What is carried is exactly a proper, non-empty part of some encoding. |
| Utf8.BadIsMaximalSubpart | src/screen.rs:71-75 | What is replaced is a maximal subpart (section 3.9 of the Unicode Standard). |
| Utf8.ChunkingIsInvisible | src/screen.rs:56-84 | However a byte stream is cut, the same text reaches the terminal and at most three bytes are carried. |
| Utf8.CarryIsCutOff | src/screen.rs:76-79 | The carry is at most three bytes, a cut-off character, and stays what it is when read again. |
| Utf8.DecodeEncodeAll | src/screen.rs:56-84 | Decoding an encoded text gives the text back. |
| Utf8.DecodeStep | src/screen.rs:56-84 | A whole character is decoded to its value and an ill-formed run to one U+FFFD. |
| Utf8.ValidExactly | src/modes.rs:188-188 | `String::from_utf8` accepts exactly the encodings of texts. |
| Utf8.FromUtf8Decodes | src/screen.rs:58-81 | Going on behind each error of the standard decoder decodes the whole. |
| Terminal.DecodeInto | src/screen.rs:56-84 | The loop feeds the emulator exactly the decoded text, leaves exactly the carry, and terminates. |
| Terminal.WriteSettles | src/server/session.rs:169-175 | The carry is at most three bytes, so the reset of a carry over eight never happens. |
| Terminal.WriteAppend | src/screen.rs:56-84 | Two writes are one write of both. |
| Terminal.RestoreIsExact | web/session.html:646-650 | A screen of any contents and the right size that is reset and sent dump and carry becomes the original. |
| Terminal.DumpResets | src/screen.rs:11-15 | A dump starts with the reset of the terminal. |
| Sgr.NormalizeSgr | src/screen.rs:17-38 | The loop computes the normal form of the dump, and terminates. |
| Sgr.BoundariesKept | src/screen.rs:17-38 | Length is kept, only colons change, each to a semicolon, and every control sequence keeps its place and final character. |
| Sgr.ChangesOnlyColours | src/screen.rs:28-32 | A character changes only inside the parameters of a complete sequence that ends in `m`. |
| Sgr.ColourIsRewritten | src/screen.rs:40-54 | `38`, `48` and `58` colours in the forms `2:r:g:b` and `5:n` get semicolons throughout. |
| Sgr.NoColonColours | src/screen.rs:17-54 | After normalising no such colour is left in colon form. |
| Sgr.ParamExactly | src/screen.rs:40-54 | A parameter is changed exactly if it is such a colour in colon form. |
| Sgr.ParamsOneByOne | src/screen.rs:40-54 | Each of several parameters is treated by itself. |
| Sgr.NormalizedExactly | src/screen.rs:17-38 | Behind text, the first complete sequence has its parameters normalised if it ends in `m` and is copied otherwise, and the rest of the dump is treated by itself. |
| Sgr.UnfinishedIsKept | src/screen.rs:17-27 | Text without a sequence, and a sequence that is not complete, are copied. |
| Sgr.ParamsIdempotent | src/screen.rs:40-54 | Normalising parameters twice is normalising them once. |
| Sgr.NormalizeIdempotent | src/screen.rs:17-38 | Normalising a dump twice is normalising it once. |
| Percent.Decode | src/modes.rs:171-189 | The loop decodes or rejects as specified, for any text. |
| Percent.RoundTrip | src/server/mod.rs:229-238 | Decoding what the relay encodes gives back every valid string, and nothing for bytes that are none. |
| Percent.EncodedIsPlain | src/server/mod.rs:229-238 | Encoded paths need no further quoting (section 2.1 of RFC 3986). |
| Percent.PlainExactly | src/server/mod.rs:229-238 | The characters that stand for themselves are letters, digits, four marks and the slash. |
| Percent.ByteExactly | src/server/mod.rs:229-238 | Any other byte becomes a percent sign and two upper-case digits. |
| Percent.DigitsExactly | src/modes.rs:176-182 | Digits of either case are read, and nothing else but a plus sign in front, which counts for nothing. |
| Percent.DecodedExactly | src/modes.rs:171-189 | An escape is one byte, any other character itself; a broken escape or bytes that are no string spoil the whole. |
| Percent.EncodeInvertsExactly | src/modes.rs:171-189 | Encoding gives back a text that decodes if and only if the text consists of plain bytes and upper-case escapes of other bytes. |
| Percent.EncodeDoesNotAlwaysInvert | src/modes.rs:180-181 | A plus sign taken for a digit, and the escape of a plain byte: two texts that decode but do not read back. |

## Left out

- The terminal emulators, AES-GCM, HKDF and serde/JSON: opaque parameters with the laws stated above.
- Plaintext lag resync: it sends a dump but keeps the old receiver, so what is already in the dump is sent again; viewer agreement is stated for encrypted sessions.
- Plaintext join and dump: the dump omits a cut-off character, so no exactness is claimed; the plaintext model is the ring and the screen only.
- Relay.Session.Resume: does not model timestamps and the plaintext resize it triggers, because clocks are no part of the protocol and an encrypted session ignores the resize.
- Relay.Session.JoinEncrypted: does not model the join of a plaintext session; in the step system the initial control itself is folded into the joining of a fresh page.
- Relay.Session.MarkExit: does not model timestamps.
- Handlers.Pump: does not model the plaintext branches of the loop and its timeout, which is the end of its input.
- Relay.OldConnectionsAreFenced: does not cover plaintext `feed`, where the session does not check an epoch; for `mark_exit`, where it does not either, `Relay.ExitIsFencedExactly` says what follows.
- Gate.Output.LingerChunk: does not model a failing write to stdout, because the source then drops the bytes it had taken.
- Gate.Output.NoteWithUrl: does not model what the note looks like.
- Integrity.NothingForgedIsShown: counts as sealed what left the producer; a snapshot over the budget is sealed, never sent, and ends the sharing. A page that is loaded anew is a new tab.
- Replay: one session id with one key; a relay that lost the session hands out a new one, which is a new run with a new sender (`Sharing` has all senders of a host). Epochs of the relay and lengths in memory are unbounded numbers, so the 64-bit epoch counter and the saturating additions of the source are exact.
- The page's rendering of status, notices and details, its reconnect timer and its key storage; in the step system a viewer that reconnects is one that leaves and one that joins.
- Sockets, ptys, signals, timers, threads, logging and routing; timers are steps that may happen at any moment.
- Authorization, configuration, reconnect backoff, token files, session expiry and previews: short and easy facts.
- Renaming of hosts between connections: name, command and the input permission of the host stay the same for a session.
