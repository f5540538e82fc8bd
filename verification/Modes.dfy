/** The escape-sequence scanner of the host: terminal modes the child has on, and titles and
    directories it reports. The shape of control sequences is that of section 5.4 of ECMA-48. */
module Modes {
  import opened Bytes
  import opened Utf8
  import Percent

  datatype Mode =
    | Alt1049 | Alt1047 | Alt47 | Bracketed
    | Mouse1000 | Mouse1002 | Mouse1003 | Mouse1005 | Mouse1006 | Mouse1015
    | CursorHidden | ModifyKeys | NoAutowrap

  const MAX_PENDING := 1024
  const MAX_OSC := 512
  const TWO_32 := 0x1_0000_0000

  const BEL: byte := 0x07
  const BACKSLASH: byte := 0x5c
  const OPEN: byte := 0x5b
  const CLOSE: byte := 0x5d
  const QUESTION: byte := 0x3f
  const GREATER: byte := 0x3e
  const LESS: byte := 0x3c
  const SEMICOLON: byte := 0x3b
  const SLASH: byte := 0x2f
  const LOWER_H: byte := 0x68
  const LOWER_L: byte := 0x6c
  const LOWER_M: byte := 0x6d
  const LOWER_U: byte := 0x75
  /** `file://` */
  const FILE_URL: seq<byte> := [0x66, 0x69, 0x6c, 0x65, 0x3a, 0x2f, 0x2f]

  type u32 = n: nat | n < TWO_32

  /** The two global atomics. */
  datatype Active = Active(on: set<Mode>, depth: u32)

  datatype Seen = Seen(title: Option<seq<byte>>, cwd: Option<seq<byte>>)
  const NOTHING := Seen(None, None)

  // Delimiting a sequence

  predicate IsParameter(b: byte) { 0x20 <= b <= 0x3f }

  function CsiEnd(x: seq<byte>, i: nat): (r: Option<nat>)
    ensures r.Some? ==> i < r.value <= |x|
    decreases |x| - i
  {
    if i >= |x| then None
    else if IsParameter(x[i]) then CsiEnd(x, i + 1)
    else if 0x40 <= x[i] <= 0x7e then Some(i + 1)
    else None
  }

  function OscEnd(x: seq<byte>, i: nat): (r: Option<nat>)
    ensures r.Some? ==> i < r.value <= |x|
    decreases |x| - i
  {
    if i >= |x| then None
    else if x[i] == BEL then Some(i + 1)
    else if x[i] == ESC && i + 1 < |x| && x[i + 1] == BACKSLASH then Some(i + 2)
    else OscEnd(x, i + 1)
  }

  /** Length of the complete sequence at the front of `x`, which starts with an escape. */
  function SequenceLen(x: seq<byte>): (r: Option<nat>)
    ensures r.Some? ==> 2 <= r.value <= |x|
  {
    if |x| < 2 then None
    else if x[1] == OPEN then CsiEnd(x, 2)
    else if x[1] == CLOSE then OscEnd(x, 2)
    else Some(2)
  }

  method MeasureSequence(bytes: seq<byte>) returns (len: Option<nat>)
    ensures len == SequenceLen(bytes)
  {
    if |bytes| < 2 { return None; }
    var i := 2;
    if bytes[1] == OPEN {
      while i < |bytes| && IsParameter(bytes[i])
        invariant i <= |bytes| && CsiEnd(bytes, 2) == CsiEnd(bytes, i)
      {
        i := i + 1;
      }
      if i == |bytes| { return None; }
      return if 0x40 <= bytes[i] <= 0x7e then Some(i + 1) else None;
    } else if bytes[1] == CLOSE {
      while i < |bytes|
        invariant i <= |bytes| && OscEnd(bytes, 2) == OscEnd(bytes, i)
      {
        if bytes[i] == BEL { return Some(i + 1); }
        if bytes[i] == ESC && i + 1 < |bytes| && bytes[i + 1] == BACKSLASH { return Some(i + 2); }
        i := i + 1;
      }
      return None;
    } else {
      return Some(2);
    }
  }

  // Acting on a sequence

  function Set(on: set<Mode>, mode: Mode, value: bool): set<Mode> {
    if value then on + {mode} else on - {mode}
  }

  /** One parameter of a private mode sequence. */
  function SetParameter(on: set<Mode>, param: seq<byte>, value: bool): set<Mode> {
    if param == [0x31, 0x30, 0x34, 0x39] then Set(on, Alt1049, value)
    else if param == [0x31, 0x30, 0x34, 0x37] then Set(on, Alt1047, value)
    else if param == [0x34, 0x37] then Set(on, Alt47, value)
    else if param == [0x32, 0x30, 0x30, 0x34] then Set(on, Bracketed, value)
    else if param == [0x31, 0x30, 0x30, 0x30] then Set(on, Mouse1000, value)
    else if param == [0x31, 0x30, 0x30, 0x32] then Set(on, Mouse1002, value)
    else if param == [0x31, 0x30, 0x30, 0x33] then Set(on, Mouse1003, value)
    else if param == [0x31, 0x30, 0x30, 0x35] then Set(on, Mouse1005, value)
    else if param == [0x31, 0x30, 0x30, 0x36] then Set(on, Mouse1006, value)
    else if param == [0x31, 0x30, 0x31, 0x35] then Set(on, Mouse1015, value)
    else if param == [0x32, 0x35] then Set(on, CursorHidden, !value)
    else if param == [0x37] then Set(on, NoAutowrap, !value)
    else on
  }

  function SetParameters(on: set<Mode>, params: seq<seq<byte>>, value: bool): set<Mode>
    decreases |params|
  {
    if |params| == 0 then on else SetParameters(SetParameter(on, params[0], value), params[1..], value)
  }

  predicate EndsWithZero(x: seq<byte>) {
    |x| >= 2 && x[|x| - 2] == SEMICOLON && x[|x| - 1] == 0x30
  }

  /** A control sequence with the given body and final byte. */
  function ApplyCsi(a: Active, body: seq<byte>, final: byte): Active {
    if |body| == 0 then a
    else if body[0] == QUESTION && (final == LOWER_H || final == LOWER_L) then
      a.(on := SetParameters(a.on, Split(body[1..], SEMICOLON), final == LOWER_H))
    else if body[0] == GREATER && final == LOWER_U then a.(depth := (a.depth + 1) % TWO_32)
    else if body[0] == LESS && final == LOWER_U then a.(depth := if a.depth == 0 then 0 else a.depth - 1)
    else if body[0] == GREATER && final == LOWER_M then
      a.(on := Set(a.on, ModifyKeys, !(|body| == 1 || EndsWithZero(body[1..]))))
    else a
  }

  function ApplyModes(a: Active, s: seq<byte>): Active {
    if |s| < 3 || s[1] != OPEN then a else ApplyCsi(a, s[2..|s| - 1], s[|s| - 1])
  }

  function PathFromFileUrl(url: seq<byte>): Option<seq<byte>> {
    if !(FILE_URL <= url) then None
    else
      var rest := url[|FILE_URL|..];
      var slash := IndexOf(rest, SLASH);
      if slash == |rest| then None else Percent.PercentDecode(rest[slash..])
  }

  /** The body of an operating system command without its terminator. */
  function OscBody(s: seq<byte>): seq<byte>
    requires |s| >= 2
  {
    var body := s[2..];
    if |body| > 0 && body[|body| - 1] == BEL then body[..|body| - 1]
    else if |body| >= 2 && body[|body| - 2] == ESC && body[|body| - 1] == BACKSLASH then body[..|body| - 2]
    else body
  }

  /** Key and payload of an operating system command the scanner looks at. */
  function OscParts(s: seq<byte>): Option<(seq<byte>, seq<byte>)> {
    if |s| < 3 || s[1] != CLOSE || |OscBody(s)| > MAX_OSC then None
    else
      var body := OscBody(s);
      var split := IndexOf(body, SEMICOLON);
      if split == |body| || !Valid(body[split + 1..]) then None else Some((body[..split], body[split + 1..]))
  }

  function TitleOf(s: seq<byte>): Option<seq<byte>> {
    var p := OscParts(s);
    if p.Some? && (p.value.0 == [0x30] || p.value.0 == [0x32]) then Some(p.value.1) else None
  }

  /** Whether a sequence reports a directory, and if so what comes of it. */
  function CwdReport(s: seq<byte>): Option<Option<seq<byte>>> {
    var p := OscParts(s);
    if p.Some? && p.value.0 == [0x37] then Some(PathFromFileUrl(p.value.1)) else None
  }

  function ApplySeen(seen: Seen, s: seq<byte>): Seen {
    Seen(if TitleOf(s).Some? then TitleOf(s) else seen.title,
         if CwdReport(s).Some? then CwdReport(s).value else seen.cwd)
  }

  // Scanning

  datatype Scanned = Scanned(active: Active, seen: Seen, tail: seq<byte>)

  /** All complete sequences of `x` in order, and the tail that is not complete. */
  function Scan(a: Active, seen: Seen, x: seq<byte>): Scanned
    decreases |x|
  {
    if |x| == 0 then Scanned(a, seen, [])
    else if x[0] != ESC then Scan(a, seen, x[1..])
    else
      var len := SequenceLen(x);
      if len.None? then Scanned(a, seen, x)
      else Scan(ApplyModes(a, x[..len.value]), ApplySeen(seen, x[..len.value]), x[len.value..])
  }

  function Retained(tail: seq<byte>): seq<byte> {
    if |tail| > MAX_PENDING then [] else tail
  }

  datatype ScannerState = ScannerState(active: Active, pending: seq<byte>)

  function Observed(s: ScannerState, chunk: seq<byte>): (ScannerState, Seen) {
    var r := Scan(s.active, NOTHING, s.pending + chunk);
    (ScannerState(r.active, Retained(r.tail)), r.seen)
  }

  class Scanner {
    var on: set<Mode>
    var depth: u32
    var buf: seq<byte>

    function State(): ScannerState
      reads this
    {
      ScannerState(Active(on, depth), buf)
    }

    constructor ()
      ensures State() == ScannerState(Active({}, 0), [])
    {
      on, depth, buf := {}, 0, [];
    }

    method Observe(chunk: seq<byte>) returns (seen: Seen)
      modifies this
      ensures State() == Observed(old(State()), chunk).0
      ensures seen == Observed(old(State()), chunk).1
    {
      hide SequenceLen, ApplyModes, ApplySeen;
      seen := NOTHING;
      buf := buf + chunk;
      ghost var whole := Scan(Active(on, depth), seen, buf);
      var at := 0;
      assert buf[0..] == buf;
      while at < |buf|
        invariant at <= |buf| && buf == old(buf) + chunk
        invariant Scan(Active(on, depth), seen, buf[at..]) == whole
        decreases |buf| - at
      {
        if buf[at] != ESC {
          DropDrop(buf, at, 1);
          at := at + 1;
          continue;
        }
        var len := MeasureSequence(buf[at..]);
        if len.None? { break; }
        var sequence := buf[at..at + len.value];
        assert sequence == buf[at..][..len.value];
        DropDrop(buf, at, len.value);
        var next := ApplyModes(Active(on, depth), sequence);
        seen := ApplySeen(seen, sequence);
        on, depth := next.on, next.depth;
        at := at + len.value;
      }
      buf := buf[at..];
      if |buf| > MAX_PENDING {
        buf := [];
      }
    }
  }

  // Chunking

  lemma {:induction false} CsiEndIsStable(x: seq<byte>, y: seq<byte>, i: nat)
    requires CsiEnd(x, i).Some?
    ensures CsiEnd(x + y, i) == CsiEnd(x, i)
    decreases |x| - i
  {
    assert (x + y)[i] == x[i];
    if IsParameter(x[i]) { CsiEndIsStable(x, y, i + 1); }
  }

  lemma {:induction false} OscEndIsStable(x: seq<byte>, y: seq<byte>, i: nat)
    requires OscEnd(x, i).Some?
    ensures OscEnd(x + y, i) == OscEnd(x, i)
    decreases |x| - i
  {
    assert (x + y)[i] == x[i];
    if i + 1 < |x| {
      assert (x + y)[i + 1] == x[i + 1];
      if x[i] != BEL && !(x[i] == ESC && x[i + 1] == BACKSLASH) { OscEndIsStable(x, y, i + 1); }
    }
  }

  /** A sequence that is complete stays the same sequence whatever follows. */
  lemma SequenceLenIsStable(x: seq<byte>, y: seq<byte>)
    requires SequenceLen(x).Some?
    ensures SequenceLen(x + y) == SequenceLen(x)
  {
    hide CsiEnd, OscEnd;
    assert (x + y)[1] == x[1];
    if x[1] == OPEN { CsiEndIsStable(x, y, 2); } else if x[1] == CLOSE { OscEndIsStable(x, y, 2); }
  }

  lemma ScanStep(a: Active, seen: Seen, x: seq<byte>)
    requires |x| > 0
    ensures x[0] != ESC ==> Scan(a, seen, x) == Scan(a, seen, x[1..])
    ensures x[0] == ESC && SequenceLen(x).None? ==> Scan(a, seen, x) == Scanned(a, seen, x)
    ensures x[0] == ESC && SequenceLen(x).Some? ==>
      var n := SequenceLen(x).value;
      Scan(a, seen, x) == Scan(ApplyModes(a, x[..n]), ApplySeen(seen, x[..n]), x[n..])
  {
    hide SequenceLen, ApplyModes, ApplySeen;
  }

  lemma {:induction false} ScanAppend(a: Active, seen: Seen, x: seq<byte>, y: seq<byte>)
    ensures var r := Scan(a, seen, x); Scan(a, seen, x + y) == Scan(r.active, r.seen, r.tail + y)
    decreases |x|
  {
    hide SequenceLen, ApplyModes, ApplySeen, Scan;
    if |x| == 0 {
      assert x + y == y && [] + y == y;
      ScanNothing(a, seen, x);
    } else {
      ScanStep(a, seen, x);
      ScanStep(a, seen, x + y);
      if x[0] != ESC {
        assert (x + y)[1..] == x[1..] + y;
        ScanAppend(a, seen, x[1..], y);
      } else if SequenceLen(x).Some? {
        var n := SequenceLen(x).value;
        SequenceLenIsStable(x, y);
        assert (x + y)[..n] == x[..n] && (x + y)[n..] == x[n..] + y;
        ScanAppend(ApplyModes(a, x[..n]), ApplySeen(seen, x[..n]), x[n..], y);
      }
    }
  }

  lemma ScanNothing(a: Active, seen: Seen, x: seq<byte>)
    requires |x| == 0
    ensures Scan(a, seen, x) == Scanned(a, seen, [])
  {}

  function Later<T>(first: Option<T>, second: Option<T>): Option<T> {
    if second.Some? then second else first
  }

  /** What the last report of a directory in a scanned text was, if there was one. */
  function LastReport(x: seq<byte>): Option<Option<seq<byte>>>
    decreases |x|
  {
    if |x| == 0 then None
    else if x[0] != ESC then LastReport(x[1..])
    else if SequenceLen(x).None? then None
    else Later(CwdReport(x[..SequenceLen(x).value]), LastReport(x[SequenceLen(x).value..]))
  }

  lemma LastReportStep(x: seq<byte>)
    requires |x| > 0
    ensures x[0] != ESC ==> LastReport(x) == LastReport(x[1..])
    ensures x[0] == ESC && SequenceLen(x).None? ==> LastReport(x) == None
    ensures x[0] == ESC && SequenceLen(x).Some? ==>
      var n := SequenceLen(x).value; LastReport(x) == Later(CwdReport(x[..n]), LastReport(x[n..]))
  {
    hide SequenceLen, CwdReport;
  }

  /** Modes and tail do not depend on what was seen before, a later title replaces an earlier one, and
      the last report of a directory replaces any earlier directory, even when it is malformed. */
  lemma {:induction false} ScanSeen(a: Active, seen: Seen, x: seq<byte>)
    ensures var r, s := Scan(a, seen, x), Scan(a, NOTHING, x);
      && r.active == s.active && r.tail == s.tail
      && r.seen.title == Later(seen.title, s.seen.title)
      && r.seen.cwd == (if LastReport(x).Some? then LastReport(x).value else seen.cwd)
    decreases |x|
  {
    hide SequenceLen, ApplyModes, TitleOf, CwdReport, Scan, LastReport;
    if |x| == 0 {
      ScanNothing(a, seen, x);
      ScanNothing(a, NOTHING, x);
      NoReport(x);
    } else {
      ScanStep(a, seen, x);
      ScanStep(a, NOTHING, x);
      LastReportStep(x);
      if x[0] != ESC {
        ScanSeen(a, seen, x[1..]);
      } else if SequenceLen(x).Some? {
        var n := SequenceLen(x).value;
        var b := ApplyModes(a, x[..n]);
        ScanSeen(b, ApplySeen(seen, x[..n]), x[n..]);
        ScanSeen(b, ApplySeen(NOTHING, x[..n]), x[n..]);
      }
    }
  }

  lemma NoReport(x: seq<byte>)
    requires |x| == 0
    ensures LastReport(x) == None
  {}

  /** Two chunks are scanned like one, unless the tail between them was so long it was dropped. */
  lemma ChunkingIsInvisible(s: ScannerState, a: seq<byte>, b: seq<byte>)
    requires |Scan(s.active, NOTHING, s.pending + a).tail| <= MAX_PENDING
    ensures var (one, seenA) := Observed(s, a); var (two, seenB) := Observed(one, b);
      var (whole, seen) := Observed(s, a + b);
      two == whole && seen.title == Later(seenA.title, seenB.title)
  {
    hide Scan, LastReport;
    var r := Scan(s.active, NOTHING, s.pending + a);
    assert s.pending + (a + b) == s.pending + a + b;
    ScanAppend(s.active, NOTHING, s.pending + a, b);
    ScanSeen(r.active, r.seen, r.tail + b);
  }

  /** For the directory it matters how the output is cut: the host keeps the latest directory reported
      by any chunk, and that differs from what one chunk reports exactly when the second chunk ends its
      reports with a malformed one although the first chunk had a good one. */
  lemma CwdChunkingExactly(s: ScannerState, a: seq<byte>, b: seq<byte>)
    requires |Scan(s.active, NOTHING, s.pending + a).tail| <= MAX_PENDING
    ensures var (one, seenA) := Observed(s, a); var seenB := Observed(one, b).1;
      Observed(s, a + b).1.cwd == Later(seenA.cwd, seenB.cwd)
      <==> !(seenA.cwd.Some? && LastReport(one.pending + b) == Some(None))
  {
    hide Scan, LastReport;
    var r := Scan(s.active, NOTHING, s.pending + a);
    assert s.pending + (a + b) == s.pending + a + b;
    ScanAppend(s.active, NOTHING, s.pending + a, b);
    ScanSeen(r.active, r.seen, r.tail + b);
    ScanSeen(r.active, NOTHING, r.tail + b);
  }

  // Single sequences

  /** A text that is one sequence takes effect and leaves nothing behind. */
  lemma OneSequence(a: Active, seen: Seen, s: seq<byte>)
    requires |s| > 0 && s[0] == ESC && SequenceLen(s) == Some(|s|)
    ensures Scan(a, seen, s) == Scanned(ApplyModes(a, s), ApplySeen(seen, s), [])
  {
    hide SequenceLen, ApplyModes, ApplySeen, Scan;
    ScanStep(a, seen, s);
    assert s[..|s|] == s;
    ScanNothing(ApplyModes(a, s), ApplySeen(seen, s), s[|s|..]);
  }

  lemma {:induction false} OscEndAt(x: seq<byte>, i: nat, k: nat)
    requires i <= k < |x| && x[k] == BEL
    requires forall j :: i <= j < k ==> x[j] != BEL && x[j] != ESC
    ensures OscEnd(x, i) == Some(k + 1)
    decreases k - i
  {
    if i < k { OscEndAt(x, i + 1, k); }
  }

  lemma {:induction false} AsciiIsValid(x: seq<byte>)
    requires forall i :: 0 <= i < |x| ==> x[i] < 0x80
    ensures Valid(x)
    decreases |x|
  {
    if |x| > 0 {
      assert First(x) == Char(x[0], 1);
      hide First;
      AsciiIsValid(x[1..]);
    }
  }

  /** `ESC ] 7 ; url BEL` */
  function CwdSequence(url: seq<byte>): seq<byte> {
    [ESC, CLOSE, 0x37, SEMICOLON] + url + [BEL]
  }

  lemma CwdSequenceReports(a: Active, seen: Seen, url: seq<byte>)
    requires |url| < MAX_OSC - 2 && forall i :: 0 <= i < |url| ==> url[i] < 0x80 && url[i] != BEL && url[i] != ESC
    ensures Scan(a, seen, CwdSequence(url)) == Scanned(a, seen.(cwd := PathFromFileUrl(url)), [])
  {
    hide Scan, PathFromFileUrl, OscEnd, Valid;
    var s := CwdSequence(url);
    assert s[2] == 0x37 && s[3] == SEMICOLON;
    assert forall j :: 4 <= j < |s| - 1 ==> s[j] == url[j - 4];
    OscEndAt(s, 2, |s| - 1);
    OneSequence(a, seen, s);
    assert OscBody(s) == [0x37, SEMICOLON] + url;
    assert IndexOf([0x37, SEMICOLON] + url, SEMICOLON) == 1 by {
      assert ([0x37, SEMICOLON] + url)[1..][0] == SEMICOLON;
    }
    AsciiIsValid(url);
    assert ([0x37, SEMICOLON] + url)[2..] == url;
    assert ([0x37, SEMICOLON] + url)[..1] == [0x37];
  }

  /** In one chunk a malformed report wipes out the good one before it; in two the good one is kept. */
  lemma CwdDependsOnChunks()
    ensures var start := ScannerState(Active({}, 0), []);
      var good, bad := CwdSequence(FILE_URL + [SLASH]), CwdSequence([]);
      var (one, seen) := Observed(start, good);
      && seen.cwd == Some([SLASH]) && Observed(one, bad).1.cwd == None && Observed(start, good + bad).1.cwd == None
  {
    hide Scan, CwdSequence;
    var url, none := FILE_URL + [SLASH], Active({}, 0);
    var good, bad := CwdSequence(url), CwdSequence([]);
    CwdSequenceReports(none, NOTHING, url);
    CwdSequenceReports(none, NOTHING, []);
    CwdSequenceReports(none, Seen(None, Some([SLASH])), []);
    RootUrl();
    assert [] + good == good && [] + bad == bad && [] + (good + bad) == good + bad;
    ScanAppend(none, NOTHING, good, bad);
  }

  lemma RootUrl()
    ensures PathFromFileUrl(FILE_URL + [SLASH]) == Some([SLASH]) && PathFromFileUrl([]) == None
  {
    assert (FILE_URL + [SLASH])[|FILE_URL|..] == [SLASH];
    assert [SLASH][0..] == [SLASH];
    AsciiIsValid([SLASH]);
    assert [SLASH][1..] == [];
    assert Percent.DecodeBytes([SLASH]) == Some([SLASH] + []);
    assert [SLASH] + [] == [SLASH];
  }

  // What a sequence is

  /** `x[..n]` is a command string that ends in a bell or in `ESC \\`. */
  predicate Terminated(x: seq<byte>, n: nat) {
    2 < n <= |x| && (x[n - 1] == 0x07 || (n > 3 && x[n - 2] == 0x1b && x[n - 1] == 0x5c))
  }

  /** `x[..n]` is one whole sequence: introducer, parameters and intermediates and a final byte (section 5.4
      of ECMA-48), a command string up to its first terminator, or two bytes. */
  predicate IsSequence(x: seq<byte>, n: nat) {
    && 2 <= n <= |x|
    && (if x[1] == 0x5b then
          n > 2 && 0x40 <= x[n - 1] <= 0x7e && forall i :: 2 <= i < n - 1 ==> 0x20 <= x[i] <= 0x3f
        else if x[1] == 0x5d then Terminated(x, n) && forall m :: 2 < m < n ==> !Terminated(x, m)
        else n == 2)
  }

  lemma {:induction false} CsiEndExactly(x: seq<byte>, i: nat, n: nat)
    requires 2 <= i
    ensures CsiEnd(x, i) == Some(n) <==>
      i < n <= |x| && 0x40 <= x[n - 1] <= 0x7e && forall j :: i <= j < n - 1 ==> 0x20 <= x[j] <= 0x3f
    decreases |x| - i
  {
    if i < |x| && IsParameter(x[i]) { CsiEndExactly(x, i + 1, n); }
  }

  lemma {:induction false} OscEndExactly(x: seq<byte>, i: nat, n: nat)
    requires 2 <= i && forall m :: 2 < m <= i ==> !Terminated(x, m)
    requires i < |x| && x[i] == 0x5c ==> i == 2 || x[i - 1] != 0x1b
    ensures OscEnd(x, i) == Some(n) <==> i < n && Terminated(x, n) && forall m :: i < m < n ==> !Terminated(x, m)
    decreases |x| - i
  {
    if i < |x| {
      if x[i] == BEL {
        assert Terminated(x, i + 1);
      } else if x[i] == ESC && i + 1 < |x| && x[i + 1] == BACKSLASH {
        assert Terminated(x, i + 2) && !Terminated(x, i + 1);
      } else {
        assert !Terminated(x, i + 1);
        OscEndExactly(x, i + 1, n);
      }
    }
  }

  /** What is measured is the one whole sequence at the front, if there is one. */
  lemma SequenceLenExactly(x: seq<byte>, n: nat)
    ensures SequenceLen(x) == Some(n) <==> IsSequence(x, n)
  {
    hide CsiEnd, OscEnd;
    if |x| >= 2 {
      if x[1] == OPEN { CsiEndExactly(x, 2, n); }
      if x[1] == CLOSE { OscEndExactly(x, 2, n); }
    }
  }

  /** Text without escapes is passed over. */
  lemma {:induction false} TextIsPassedOver(a: Active, seen: Seen, x: seq<byte>)
    requires ESC !in x
    ensures Scan(a, seen, x) == Scanned(a, seen, [])
    decreases |x|
  {
    hide SequenceLen, ApplyModes, ApplySeen, Scan;
    if |x| == 0 {
      ScanNothing(a, seen, x);
    } else {
      ScanStep(a, seen, x);
      TextIsPassedOver(a, seen, x[1..]);
    }
  }

  /** An unfinished tail is kept for the next chunk, unless it is longer than 1024 bytes. */
  lemma PendingExactly(s: ScannerState, chunk: seq<byte>)
    ensures var tail := Scan(s.active, NOTHING, s.pending + chunk).tail;
      Observed(s, chunk).0.pending == if |tail| <= 1024 then tail else []
  {
    hide Scan;
  }

  // What reports say

  /** `ESC ] key ; text`, ended by a bell or by `ESC \\`. */
  function Report(key: seq<byte>, text: seq<byte>, bell: bool): seq<byte> {
    [0x1b, 0x5d] + (key + [0x3b] + text) + (if bell then [0x07] else [0x1b, 0x5c])
  }

  /** What a report comes to: a title under the keys `0` and `2`, a directory under `7`, and nothing under
      any other key, beyond 512 bytes, or when the text is no UTF-8. */
  function Reported(seen: Seen, key: seq<byte>, text: seq<byte>): Seen {
    if |key| + 1 + |text| > 512 || !Valid(text) then seen
    else if key == [0x30] || key == [0x32] then Seen(Some(text), seen.cwd)
    else if key == [0x37] then Seen(seen.title, PathFromFileUrl(text))
    else seen
  }

  lemma {:induction false} OscEndAtSt(x: seq<byte>, i: nat, k: nat)
    requires i <= k && k + 1 < |x| && x[k] == ESC && x[k + 1] == BACKSLASH
    requires forall j :: i <= j < k ==> x[j] != BEL && x[j] != ESC
    ensures OscEnd(x, i) == Some(k + 2)
    decreases k - i
  {
    if i < k { OscEndAtSt(x, i + 1, k); }
  }

  lemma ReportsExactly(a: Active, seen: Seen, key: seq<byte>, text: seq<byte>, bell: bool)
    requires SEMICOLON !in key && BEL !in key && ESC !in key && BEL !in text && ESC !in text
    ensures Scan(a, seen, Report(key, text, bell)) == Scanned(a, Reported(seen, key, text), [])
  {
    hide Scan, PathFromFileUrl, OscEnd, Valid, IndexOf;
    var s, body := Report(key, text, bell), key + [SEMICOLON] + text;
    var end := 2 + |body|;
    forall j | 2 <= j < end ensures s[j] != BEL && s[j] != ESC { assert s[j] == body[j - 2]; }
    if bell { OscEndAt(s, 2, end); } else { OscEndAtSt(s, 2, end); }
    OneSequence(a, seen, s);
    assert s[2..end] == body;
    BodyIsBody(s, body, bell);
    assert body[..|key|] == key && body[|key|] == SEMICOLON && body[|key| + 1..] == text;
    IndexIsLeast(body, SEMICOLON, |key|);
  }

  lemma BodyIsBody(s: seq<byte>, body: seq<byte>, bell: bool)
    requires s == [ESC, CLOSE] + body + (if bell then [BEL] else [ESC, BACKSLASH])
    ensures OscBody(s) == body
  {
    var rest := s[2..];
    assert rest == body + (if bell then [BEL] else [ESC, BACKSLASH]);
    if bell { assert rest[..|rest| - 1] == body; } else { assert rest[..|rest| - 2] == body; }
  }

  /** A directory reported as a file URL, with its path percent-encoded and any host, is that directory. */
  lemma PathReadsBack(scheme: seq<byte>, host: seq<byte>, path: seq<byte>)
    requires Spells(scheme, "file://") && 0x2f !in host && |path| > 0 && path[0] == 0x2f && Valid(path)
    ensures PathFromFileUrl(scheme + host + Percent.PercentEncode(path)) == Some(path)
  {
    SchemeIs(scheme);
    hide Percent.PercentDecode, IndexOf, Valid;
    var encoded := Percent.PercentEncode(path);
    var url, rest := scheme + host + encoded, host + encoded;
    Percent.RoundTrip(path);
    assert encoded[0] == SLASH;
    assert url[..|FILE_URL|] == FILE_URL && url[|FILE_URL|..] == rest;
    assert rest[..|host|] == host && rest[|host|] == SLASH && rest[|host|..] == encoded;
    IndexIsLeast(rest, SLASH, |host|);
  }

  lemma SchemeIs(scheme: seq<byte>)
    requires Spells(scheme, "file://")
    ensures scheme == FILE_URL
  {}

  /** Any other text reports no directory: one that is no file URL, or one without a path. */
  lemma NoPath(scheme: seq<byte>, url: seq<byte>)
    requires Spells(scheme, "file://")
    ensures !(scheme <= url) ==> PathFromFileUrl(url) == None
    ensures scheme <= url && 0x2f !in url[7..] ==> PathFromFileUrl(url) == None
  {
    SchemeIs(scheme);
    hide Percent.PercentDecode;
    if FILE_URL <= url && IndexOf(url[|FILE_URL|..], SLASH) < |url[|FILE_URL|..]| {
      assert url[|FILE_URL|..][IndexOf(url[|FILE_URL|..], SLASH)] == SLASH;
    }
  }
}
