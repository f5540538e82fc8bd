/** The gate on the host's stdout: child output is withheld until the watch link has been printed, and
    while the link lingers no switch to the alternate screen gets through. */
module Gate {
  import opened Bytes

  /** `ESC [ ? 1049 h`, `ESC [ ? 1047 h`, `ESC [ ? 47 h` */
  const ALT_1049: seq<byte> := [0x1b, 0x5b, 0x3f, 0x31, 0x30, 0x34, 0x39, 0x68]
  const ALT_1047: seq<byte> := [0x1b, 0x5b, 0x3f, 0x31, 0x30, 0x34, 0x37, 0x68]
  const ALT_47: seq<byte> := [0x1b, 0x5b, 0x3f, 0x34, 0x37, 0x68]
  const NEWLINE: byte := 0x0a
  const LINK_LINGER := 1000

  predicate IsSwitch(p: seq<byte>) { p == ALT_1049 || p == ALT_1047 || p == ALT_47 }

  // What counts as a switch

  /** `s` from `i` on agrees with `p` as far as both reach. */
  predicate Fits(s: seq<byte>, i: nat, p: seq<byte>) {
    forall k :: 0 <= k < |p| && i + k < |s| ==> s[i + k] == p[k]
  }

  /** A switch stands at `i`, or has begun there and is cut off by the end of `s`. */
  predicate Pending(s: seq<byte>, i: nat) {
    i < |s| && (Fits(s, i, ALT_1049) || Fits(s, i, ALT_1047) || Fits(s, i, ALT_47))
  }

  predicate Stands(s: seq<byte>, i: nat, p: seq<byte>) {
    i + |p| <= |s| && Fits(s, i, p)
  }

  predicate Complete(s: seq<byte>, i: nat) {
    Stands(s, i, ALT_1049) || Stands(s, i, ALT_1047) || Stands(s, i, ALT_47)
  }

  /** No complete switch anywhere. */
  ghost predicate Clean(s: seq<byte>) {
    forall i: nat :: i < |s| ==> !Complete(s, i)
  }

  /** The first position from `i` on that has to be held back, or the length. */
  function HoldFrom(s: seq<byte>, i: nat): (h: nat)
    requires i <= |s|
    ensures i <= h <= |s| && (h < |s| ==> Pending(s, h))
    decreases |s| - i
  {
    if i == |s| || Pending(s, i) then i else HoldFrom(s, i + 1)
  }

  lemma {:induction false} HoldFromIsLeast(s: seq<byte>, i: nat, k: nat)
    requires i <= |s| && i <= k < HoldFrom(s, i)
    ensures !Pending(s, k)
    decreases |s| - i
  {
    hide Pending;
    if i < k { HoldFromIsLeast(s, i + 1, k); }
  }

  /** The least position with a given property is where `HoldFrom` stops. */
  lemma {:induction false} HoldFromAt(s: seq<byte>, i: nat, h: nat)
    requires i <= h <= |s| && (h < |s| ==> Pending(s, h))
    requires forall k :: i <= k < h ==> !Pending(s, k)
    ensures HoldFrom(s, i) == h
    decreases h - i
  {
    hide Pending;
    if i < h { HoldFromAt(s, i + 1, h); }
  }

  function HoldPoint(s: seq<byte>): (h: nat)
    ensures h <= |s|
  {
    HoldFrom(s, 0)
  }

  // Growing streams

  lemma PendingGrows(a: seq<byte>, b: seq<byte>, i: nat)
    requires i < |a| && !Pending(a, i)
    ensures !Pending(a + b, i)
  {
    assert forall k :: 0 <= k < |a| ==> (a + b)[k] == a[k];
  }

  lemma CompleteGrows(a: seq<byte>, b: seq<byte>, i: nat)
    requires i < |a| && Complete(a, i)
    ensures Complete(a + b, i)
  {}

  lemma PendingShifts(s: seq<byte>, h: nat, i: nat)
    requires h <= |s|
    ensures Pending(s[h..], i) <==> Pending(s, h + i)
    ensures Complete(s[h..], i) <==> Complete(s, h + i)
  {
    var t := s[h..];
    assert forall k :: 0 <= k < |t| ==> t[k] == s[h + k];
    FitsShifts(s, h, i, ALT_1049);
    FitsShifts(s, h, i, ALT_1047);
    FitsShifts(s, h, i, ALT_47);
  }

  lemma FitsShifts(s: seq<byte>, h: nat, i: nat, p: seq<byte>)
    requires h <= |s|
    ensures Fits(s[h..], i, p) <==> Fits(s, h + i, p)
  {
    var t := s[h..];
    if Fits(t, i, p) {
      forall k | 0 <= k < |p| && h + i + k < |s| ensures s[h + i + k] == p[k] {
        assert t[i + k] == s[h + i + k];
      }
    }
    if Fits(s, h + i, p) {
      forall k | 0 <= k < |p| && i + k < |t| ensures t[i + k] == p[k] {
        assert t[i + k] == s[h + i + k];
      }
    }
  }

  /** Holding back is incremental: what was let through stays let through, and the point for the whole
      stream is found by looking at the withheld tail and the new bytes only. */
  lemma HoldPointAppend(a: seq<byte>, b: seq<byte>)
    ensures var h := HoldPoint(a);
      HoldPoint(a + b) == h + HoldPoint(a[h..] + b)
  {
    hide Pending;
    var h := HoldPoint(a);
    var s, t := a + b, a[h..] + b;
    var k := HoldPoint(t);
    assert s[h..] == t;
    forall i | 0 <= i < h + k ensures !Pending(s, i) {
      if i < h {
        HoldFromIsLeast(a, 0, i);
        PendingGrows(a, b, i);
      } else {
        HoldFromIsLeast(t, 0, i - h);
        PendingShifts(s, h, i - h);
      }
    }
    PendingShifts(s, h, k);
    HoldFromAt(s, 0, h + k);
  }

  lemma CompleteInside(s: seq<byte>, i: nat)
    requires Complete(s, i)
    ensures Pending(s, i)
  {}

  lemma CompleteInPrefix(s: seq<byte>, h: nat, i: nat)
    requires h <= |s| && Complete(s[..h], i)
    ensures i < h && Pending(s, i)
  {
    CompleteInside(s[..h], i);
    CompleteGrows(s[..h], s[h..], i);
    assert s[..h] + s[h..] == s;
    CompleteInside(s, i);
  }

  /** What is let through contains no switch. */
  lemma PassedIsClean(s: seq<byte>)
    ensures Clean(s[..HoldPoint(s)])
  {
    hide HoldFrom, Complete, Pending;
    var h := HoldPoint(s);
    forall i: nat | i < h ensures !Complete(s[..h], i) {
      HoldFromIsLeast(s, 0, i);
      if Complete(s[..h], i) { CompleteInPrefix(s, h, i); }
    }
  }

  /** What is cut off is shorter than a switch. */
  lemma PendingTail(s: seq<byte>, i: nat)
    requires Pending(s, i) && !Complete(s, i)
    ensures i < |s| && |s| - i < |ALT_1049|
  {}

  lemma StartsWithEscape(s: seq<byte>, i: nat)
    requires Pending(s, i)
    ensures s[i] == ESC
  {
    assert ALT_1049[0] == ALT_1047[0] == ALT_47[0] == ESC;
    assert s[i + 0] == s[i];
  }

  lemma NoFurtherEscape(s: seq<byte>, i: nat, at: nat)
    requires i < at < |s| && Pending(s, i) && !Complete(s, i)
    ensures s[at] != ESC
  {
    var p := if Fits(s, i, ALT_1049) then ALT_1049 else if Fits(s, i, ALT_1047) then ALT_1047 else ALT_47;
    assert s[i + (at - i)] == p[at - i];
  }

  /** A switch starts with the only escape it contains, so switches never overlap. */
  lemma NoOverlap(s: seq<byte>, i: nat, at: nat)
    requires i < at < |s| && Complete(s, at) && Pending(s, i)
    ensures Complete(s, i)
  {
    hide Pending, Complete;
    CompleteInside(s, at);
    StartsWithEscape(s, at);
    if !Complete(s, i) { NoFurtherEscape(s, i, at); }
  }

  // The search of the source

  /** `windows(len).position(..)` from `i` on. */
  function PositionFrom(chunk: seq<byte>, p: seq<byte>, i: nat): Option<nat>
    decreases |chunk| - i
  {
    if i + |p| > |chunk| || i >= |chunk| then None
    else if chunk[i..i + |p|] == p then Some(i)
    else PositionFrom(chunk, p, i + 1)
  }

  function Least(a: Option<nat>, b: Option<nat>): Option<nat> {
    if a.None? then b else if b.None? then a else Some(if a.value <= b.value then a.value else b.value)
  }

  function AltScreenAt(chunk: seq<byte>): Option<nat> {
    Least(Least(PositionFrom(chunk, ALT_1049, 0), PositionFrom(chunk, ALT_1047, 0)), PositionFrom(chunk, ALT_47, 0))
  }

  predicate Begins(x: seq<byte>) { x <= ALT_1049 || x <= ALT_1047 || x <= ALT_47 }

  /** The first length from `n` down to one whose suffix begins a switch, or zero. */
  function LongestBeginning(chunk: seq<byte>, n: nat): nat {
    if n == 0 then 0
    else if n <= |chunk| && Begins(chunk[|chunk| - n..]) then n
    else LongestBeginning(chunk, n - 1)
  }

  function AltPrefixLen(chunk: seq<byte>): nat {
    LongestBeginning(chunk, |ALT_1049| - 1)
  }

  lemma {:induction false} PositionIsFirst(chunk: seq<byte>, p: seq<byte>, i: nat)
    requires |p| > 0
    ensures var r := PositionFrom(chunk, p, i);
      && (r.Some? ==> i <= r.value && Stands(chunk, r.value, p))
      && forall k: nat :: i <= k && (r.Some? ==> k < r.value) ==> !Stands(chunk, k, p)
    decreases |chunk| - i
  {
    if i + |p| <= |chunk| {
      var w := chunk[i..i + |p|];
      assert w == p <==> Fits(chunk, i, p) by {
        assert forall k :: 0 <= k < |p| ==> w[k] == chunk[i + k];
      }
      if w != p { PositionIsFirst(chunk, p, i + 1); }
    }
  }

  /** `alt_screen_at` is the position of the first complete switch. */
  lemma AltScreenAtIsFirst(chunk: seq<byte>)
    ensures var r := AltScreenAt(chunk);
      && (r.Some? ==> r.value < |chunk| && Complete(chunk, r.value))
      && forall k: nat :: (r.Some? ==> k < r.value) ==> !Complete(chunk, k)
  {
    hide Fits, PositionFrom;
    PositionIsFirst(chunk, ALT_1049, 0);
    PositionIsFirst(chunk, ALT_1047, 0);
    PositionIsFirst(chunk, ALT_47, 0);
  }

  lemma BeginsIsPending(chunk: seq<byte>, n: nat)
    requires 0 < n <= |chunk| && n < |ALT_1049|
    requires !Complete(chunk, |chunk| - n)
    ensures Begins(chunk[|chunk| - n..]) <==> Pending(chunk, |chunk| - n)
  {
    var i := |chunk| - n;
    BeginsFits(chunk, i, ALT_1049);
    BeginsFits(chunk, i, ALT_1047);
    BeginsFits(chunk, i, ALT_47);
  }

  lemma BeginsFits(chunk: seq<byte>, i: nat, p: seq<byte>)
    requires i < |chunk|
    ensures Fits(chunk, i, p) && !Stands(chunk, i, p) ==> chunk[i..] <= p
    ensures chunk[i..] <= p ==> Fits(chunk, i, p)
  {
    var x := chunk[i..];
    assert forall k :: 0 <= k < |x| ==> x[k] == chunk[i + k];
  }

  lemma {:induction false} LongestBeginningIsLongest(chunk: seq<byte>, n: nat)
    requires n < |ALT_1049| && forall k: nat :: k < |chunk| ==> !Complete(chunk, k)
    ensures var r := LongestBeginning(chunk, n);
      && r <= n && r <= |chunk| && (r > 0 ==> Pending(chunk, |chunk| - r))
      && forall k: nat :: |chunk| - n <= k < |chunk| - r ==> !Pending(chunk, k)
    decreases n
  {
    hide Pending, Begins, Complete;
    if n > 0 {
      if n <= |chunk| { BeginsIsPending(chunk, n); }
      LongestBeginningIsLongest(chunk, n - 1);
    }
  }

  lemma FoundIsHoldPoint(s: seq<byte>, at: nat)
    requires at < |s| && Complete(s, at) && forall k: nat :: k < at ==> !Complete(s, k)
    ensures HoldPoint(s) == at
  {
    hide HoldFrom, Complete, Pending;
    CompleteInside(s, at);
    forall k | 0 <= k < at ensures !Pending(s, k) {
      if Pending(s, k) { NoOverlap(s, k, at); }
    }
    HoldFromAt(s, 0, at);
  }

  lemma CutOffIsHoldPoint(s: seq<byte>)
    requires forall k: nat :: !Complete(s, k)
    ensures AltPrefixLen(s) <= |s| && |s| - AltPrefixLen(s) == HoldPoint(s)
  {
    hide HoldFrom, Complete, Pending, LongestBeginning;
    LongestBeginningIsLongest(s, |ALT_1049| - 1);
    var r := AltPrefixLen(s);
    forall k: nat | k < |s| - r ensures !Pending(s, k) {
      if Pending(s, k) { PendingTail(s, k); }
    }
    HoldFromAt(s, 0, |s| - r);
  }

  /** The two searches together find the hold point. */
  lemma SearchesFindHoldPoint(s: seq<byte>)
    ensures match AltScreenAt(s)
      case Some(at) => at == HoldPoint(s) && at < |s| && Complete(s, at)
      case None => AltPrefixLen(s) <= |s| && |s| - AltPrefixLen(s) == HoldPoint(s) && !Complete(s, HoldPoint(s))
  {
    hide AltScreenAt, AltPrefixLen, HoldPoint, Complete;
    AltScreenAtIsFirst(s);
    if AltScreenAt(s).Some? {
      FoundIsHoldPoint(s, AltScreenAt(s).value);
    } else {
      CutOffIsHoldPoint(s);
    }
  }

  // The gate

  datatype State = Waiting(held: seq<byte>) | Linger(until: int, held: seq<byte>, blocked: bool) | Open

  /** Gate, everything written to stdout so far, and whether it ended in a newline. */
  datatype Out = Out(gate: State, written: seq<byte>, atLineStart: bool)

  function Held(g: State): seq<byte> {
    if g.Open? then [] else g.held
  }

  function Written(o: Out, bytes: seq<byte>): Out {
    if |bytes| == 0 then o
    else o.(written := o.written + bytes, atLineStart := bytes[|bytes| - 1] == NEWLINE)
  }

  function Opened(o: Out): Out {
    Written(o.(gate := Open), Held(o.gate))
  }

  /** A chunk during a linger: everything in front of the hold point of tail and chunk is written. */
  function Lingered(o: Out, chunk: seq<byte>): Out
    requires o.gate.Linger?
  {
    var s := o.gate.held + chunk;
    if o.gate.blocked then o.(gate := o.gate.(held := s))
    else
      var h := HoldPoint(s);
      Written(o, s[..h]).(gate := Linger(o.gate.until, s[h..], Complete(s, h)))
  }

  function LingerStarted(o: Out, now: int): Out {
    match o.gate
    case Linger(_, held, blocked) => o.(gate := Linger(now + LINK_LINGER, held, blocked))
    case _ => Lingered(o.(gate := Linger(now + LINK_LINGER, [], false)), Held(o.gate))
  }

  datatype Op =
    | Child(chunk: seq<byte>)
    | Note(url: bool, now: int)
    | EndLinger(now: int)
    | GiveUpWaiting
    | Release

  function Next(o: Out, op: Op): Out {
    match op
    case Child(chunk) =>
      (match o.gate
       case Waiting(held) => o.(gate := Waiting(held + chunk))
       case Linger(_, _, _) => Lingered(o, chunk)
       case Open => Written(o, chunk))
    case Note(url, now) =>
      var noted := o.(atLineStart := true);
      if url then LingerStarted(noted, now) else noted
    case EndLinger(now) => if o.gate.Linger? && o.gate.until <= now then Opened(o) else o
    case GiveUpWaiting => if o.gate.Waiting? then Opened(o) else o
    case Release => Opened(o)
  }

  class Output {
    var gate: State
    var atLineStart: bool
    var written: seq<byte>

    function State(): Out
      reads this
    {
      Out(gate, written, atLineStart)
    }

    constructor ()
      ensures State() == Out(Waiting([]), [], true)
    {
      gate := Waiting([]);
      atLineStart := true;
      written := [];
    }

    method WriteOut(bytes: seq<byte>)
      modifies this
      ensures State() == Written(old(State()), bytes)
    {
      if |bytes| == 0 { return; }
      written := written + bytes;
      atLineStart := bytes[|bytes| - 1] == NEWLINE;
    }

    method OpenGate()
      modifies this
      ensures State() == Opened(old(State()))
    {
      var held := Held(gate);
      gate := Open;
      WriteOut(held);
    }

    method LingerChunk(chunk: seq<byte>)
      requires gate.Linger?
      modifies this
      ensures State() == Lingered(old(State()), chunk)
    {
      hide AltScreenAt, LongestBeginning, HoldFrom, Complete;
      var held := gate.held;
      if gate.blocked {
        gate := gate.(held := held + chunk);
        return;
      }
      gate := gate.(held := []);
      held := held + chunk;
      SearchesFindHoldPoint(held);
      var found := AltScreenAt(held);
      if found.Some? {
        var at := found.value;
        WriteOut(held[..at]);
        gate := gate.(held := gate.held + held[at..], blocked := true);
        assert gate.held == held[at..];
        return;
      }
      var split := |held| - AltPrefixLen(held);
      WriteOut(held[..split]);
      gate := gate.(held := gate.held + held[split..]);
      assert gate.held == held[split..];
    }

    method StartLinger(now: int)
      modifies this
      ensures State() == LingerStarted(old(State()), now)
    {
      hide HoldFrom, Complete;
      var held := [];
      match gate {
        case Waiting(bytes) => held := bytes;
        case Linger(_, bytes, blocked) =>
          gate := Linger(now + LINK_LINGER, bytes, blocked);
          return;
        case Open =>
      }
      gate := Linger(now + LINK_LINGER, [], false);
      LingerChunk(held);
    }

    method ChildOutput(chunk: seq<byte>)
      modifies this
      ensures State() == Next(old(State()), Child(chunk))
    {
      hide HoldFrom, Complete;
      match gate {
        case Waiting(held) => gate := Waiting(held + chunk);
        case Linger(_, _, _) => LingerChunk(chunk);
        case Open => WriteOut(chunk);
      }
    }

    method NoteWithUrl(url: bool, now: int)
      modifies this
      ensures State() == Next(old(State()), Note(url, now))
    {
      hide HoldFrom, Complete;
      atLineStart := true;
      if url { StartLinger(now); }
    }

    method GiveUp()
      modifies this
      ensures State() == Next(old(State()), GiveUpWaiting)
    {
      if gate.Waiting? { OpenGate(); }
    }

    method LingerOver(now: int)
      modifies this
      ensures State() == Next(old(State()), EndLinger(now))
    {
      if gate.Linger? {
        if gate.until > now { return; }
        OpenGate();
      }
    }
  }

  // Whole runs

  function Run(o: Out, ops: seq<Op>): Out
    decreases |ops|
  {
    if |ops| == 0 then o else Run(Next(o, ops[0]), ops[1..])
  }

  /** All the child wrote during a run. */
  function ChildBytes(ops: seq<Op>): seq<byte>
    decreases |ops|
  {
    if |ops| == 0 then [] else (if ops[0].Child? then ops[0].chunk else []) + ChildBytes(ops[1..])
  }

  lemma LingeredConserves(o: Out, chunk: seq<byte>)
    requires o.gate.Linger?
    ensures var n := Lingered(o, chunk);
      n.written + Held(n.gate) == o.written + Held(o.gate) + chunk
  {
    hide HoldPoint, Complete;
    var s := o.gate.held + chunk;
    var h := HoldPoint(s);
    assert o.written + s[..h] + s[h..] == o.written + s;
  }

  lemma NextConserves(o: Out, op: Op)
    ensures var n := Next(o, op);
      n.written + Held(n.gate) == o.written + Held(o.gate) + (if op.Child? then op.chunk else [])
  {
    hide Lingered;
    match op {
      case Child(chunk) => if o.gate.Linger? { LingeredConserves(o, chunk); }
      case Note(url, now) =>
        LingeredConserves(o.(gate := Linger(now + LINK_LINGER, [], false), atLineStart := true), Held(o.gate));
      case _ =>
    }
  }

  /** No byte is lost, repeated or reordered: what is written, then what is held, is the child's output. */
  lemma {:induction false} NothingLost(o: Out, ops: seq<Op>)
    ensures var n := Run(o, ops);
      n.written + Held(n.gate) == o.written + Held(o.gate) + ChildBytes(ops)
    decreases |ops|
  {
    if |ops| > 0 {
      hide Next;
      NextConserves(o, ops[0]);
      NothingLost(Next(o, ops[0]), ops[1..]);
      AppendAssoc(o.written + Held(o.gate), if ops[0].Child? then ops[0].chunk else [], ChildBytes(ops[1..]));
    }
  }

  /** Two chunks have the effect of one. */
  lemma ChunkingIsInvisible(o: Out, a: seq<byte>, b: seq<byte>)
    requires o.gate.Linger?
    ensures Lingered(Lingered(o, a), b) == Lingered(o, a + b)
  {
    hide HoldPoint, Complete;
    var s := o.gate.held + a;
    assert o.gate.held + (a + b) == s + b;
    if !o.gate.blocked {
      SplitAppend(s, b);
      AppendAssoc(o.written, s[..HoldPoint(s)], (s[HoldPoint(s)..] + b)[..HoldPoint(s[HoldPoint(s)..] + b)]);
    }
  }

  /** Hold points, the parts they delimit, and the standing of a switch, for a stream that grows. */
  lemma SplitAppend(s: seq<byte>, b: seq<byte>)
    ensures var h := HoldPoint(s); var t := s[h..] + b; var k := HoldPoint(t); var g := HoldPoint(s + b);
      && g == h + k
      && (s + b)[..g] == s[..h] + t[..k] && (s + b)[g..] == t[k..]
      && (Complete(s + b, g) <==> Complete(t, k))
      && (Complete(s, h) ==> g == h && Complete(s + b, g))
  {
    hide HoldFrom, Complete, Pending;
    var h := HoldPoint(s);
    var t := s[h..] + b;
    HoldPointAppend(s, b);
    assert (s + b)[h..] == t;
    PendingShifts(s + b, h, HoldPoint(t));
    if Complete(s, h) {
      CompleteIsInside(s, h);
      BlockedStays(s, b);
    }
  }

  lemma CompleteIsInside(s: seq<byte>, i: nat)
    requires Complete(s, i)
    ensures i < |s|
  {}

  /** Once a switch stands at the hold point, nothing more passes. */
  lemma BlockedStays(s: seq<byte>, b: seq<byte>)
    requires HoldPoint(s) < |s| && Complete(s, HoldPoint(s))
    ensures HoldPoint(s + b) == HoldPoint(s) && Complete(s + b, HoldPoint(s))
  {
    hide HoldFrom, Complete, Pending;
    var h := HoldPoint(s);
    CompleteGrows(s, b, h);
    CompleteInside(s + b, h);
    forall i | 0 <= i < h ensures !Pending(s + b, i) {
      HoldFromIsLeast(s, 0, i);
      PendingGrows(s, b, i);
    }
    HoldFromAt(s + b, 0, h);
  }

  // When the gate opens

  const START := Out(Waiting([]), [], true)

  /** Where the gate has got to, whatever the child writes: it lingers for a second after every note with a
      link, and opens when that second is over, when waiting is given up, or when it is released. */
  datatype Stage = Shut | Lingering(deadline: int) | Done

  function StageOf(ops: seq<Op>): Stage
    decreases |ops|
  {
    if |ops| == 0 then Shut
    else
      var before := StageOf(ops[..|ops| - 1]);
      match ops[|ops| - 1]
      case Child(_) => before
      case Note(url, now) => if url then Lingering(now + 1000) else before
      case EndLinger(now) => if before.Lingering? && before.deadline <= now then Done else before
      case GiveUpWaiting => if before == Shut then Done else before
      case Release => Done
  }

  lemma {:induction false} RunSnoc(o: Out, ops: seq<Op>, op: Op)
    ensures Run(o, ops + [op]) == Next(Run(o, ops), op)
    decreases |ops|
  {
    hide Next;
    if |ops| == 0 {
      assert ops + [op] == [op] && [op][1..] == [];
    } else {
      assert (ops + [op])[1..] == ops[1..] + [op];
      RunSnoc(Next(o, ops[0]), ops[1..], op);
    }
  }

  predicate AtStage(o: Out, stage: Stage) {
    match stage
    case Shut => o.gate.Waiting? && o.written == []
    case Lingering(deadline) => o.gate.Linger? && o.gate.until == deadline
    case Done => o.gate.Open?
  }

  lemma {:induction false} RunIsAtStage(ops: seq<Op>)
    ensures AtStage(Run(START, ops), StageOf(ops))
    decreases |ops|
  {
    if |ops| > 0 {
      hide HoldPoint, Complete, Run;
      var before, op := ops[..|ops| - 1], ops[|ops| - 1];
      assert ops == before + [op];
      RunSnoc(START, before, op);
      RunIsAtStage(before);
    }
  }

  /** In every run: the gate is open exactly after a deadline that was met, a wait that was given up or a
      release, with no link printed since, and then all that the child wrote has been written; while it
      waits nothing has been. */
  lemma GateOpensExactly(ops: seq<Op>)
    ensures var o := Run(START, ops);
      && (o.gate.Open? <==> StageOf(ops) == Done) && (o.gate.Open? ==> o.written == ChildBytes(ops))
      && (o.gate.Waiting? <==> StageOf(ops) == Shut) && (o.gate.Waiting? ==> o.written == [])
      && (o.gate.Linger? ==> StageOf(ops) == Lingering(o.gate.until))
  {
    hide Run, ChildBytes, StageOf;
    RunIsAtStage(ops);
    NothingLost(START, ops);
    assert [] + ChildBytes(ops) == ChildBytes(ops);
  }

  /** When the second after the latest link is over, the gate is open and everything is written; before, the
      timer changes nothing. Giving up opens a gate that waits, and a release any gate. */
  lemma EverythingComesOut(ops: seq<Op>, now: int)
    ensures StageOf(ops).Lingering? && StageOf(ops).deadline <= now ==>
      var n := Run(START, ops + [EndLinger(now)]); n.gate.Open? && n.written == ChildBytes(ops)
    ensures StageOf(ops).Lingering? && now < StageOf(ops).deadline ==>
      Run(START, ops + [EndLinger(now)]) == Run(START, ops)
    ensures StageOf(ops) == Shut ==>
      var n := Run(START, ops + [GiveUpWaiting]); n.gate.Open? && n.written == ChildBytes(ops)
    ensures var n := Run(START, ops + [Release]); n.gate.Open? && n.written == ChildBytes(ops)
  {
    hide Run, ChildBytes, Lingered;
    RunIsAtStage(ops);
    NothingLost(START, ops);
    assert [] + ChildBytes(ops) == ChildBytes(ops);
    RunSnoc(START, ops, EndLinger(now));
    RunSnoc(START, ops, GiveUpWaiting);
    RunSnoc(START, ops, Release);
  }

  /** An open gate stays open and passes everything on at once, until a link is printed. */
  lemma {:induction false} OpenPassesAll(o: Out, ops: seq<Op>)
    requires o.gate.Open? && forall op :: op in ops ==> !(op.Note? && op.url)
    ensures var n := Run(o, ops); n.gate.Open? && n.written == o.written + ChildBytes(ops)
    decreases |ops|
  {
    if |ops| > 0 {
      assert ops[0] in ops;
      OpenPassesAll(Next(o, ops[0]), ops[1..]);
      AppendAssoc(o.written, if ops[0].Child? then ops[0].chunk else [], ChildBytes(ops[1..]));
    } else {
      assert o.written + [] == o.written;
    }
  }

  // Notes on lines of their own

  /** The cursor is at the start of a line exactly if nothing has been written since `base`, where a note
      ended its line, or the last byte written ends one. */
  ghost predicate LineStartIs(o: Out, base: seq<byte>) {
    && base <= o.written
    && (o.atLineStart <==> |o.written| == |base| || o.written[|o.written| - 1] == 0x0a)
  }

  lemma WrittenLine(o: Out, base: seq<byte>, bytes: seq<byte>)
    requires LineStartIs(o, base)
    ensures LineStartIs(Written(o, bytes), base)
  {}

  lemma NextLine(o: Out, base: seq<byte>, op: Op)
    requires LineStartIs(o, base) && !op.Note?
    ensures LineStartIs(Next(o, op), base)
  {
    hide HoldPoint, Complete, Written;
    if op.Child? {
      if o.gate.Open? { WrittenLine(o, base, op.chunk); }
      if o.gate.Linger? && !o.gate.blocked {
        var s := o.gate.held + op.chunk;
        WrittenLine(o, base, s[..HoldPoint(s)]);
      }
    } else {
      WrittenLine(o.(gate := Open), base, Held(o.gate));
    }
  }

  /** After a note whether the cursor is at the start of a line is known exactly, up to the next note; a
      note with a link may itself let out what was held. */
  lemma {:induction false} LineStartExactly(o: Out, url: bool, now: int, ops: seq<Op>)
    requires forall op :: op in ops ==> !op.Note?
    ensures LineStartIs(Run(Next(o, Note(url, now)), ops), o.written)
    decreases |ops|
  {
    if |ops| == 0 {
      hide HoldPoint, Complete;
      var noted := o.(atLineStart := true);
      if url && !o.gate.Linger? {
        var lingering := noted.(gate := Linger(now + LINK_LINGER, [], false));
        var s := [] + Held(o.gate);
        WrittenLine(lingering, o.written, s[..HoldPoint(s)]);
      }
    } else {
      hide Next;
      var before, op := ops[..|ops| - 1], ops[|ops| - 1];
      assert ops == before + [op] && op in ops;
      LineStartExactly(o, url, now, before);
      RunSnoc(Next(o, Note(url, now)), before, op);
      NextLine(Run(Next(o, Note(url, now)), before), o.written, op);
    }
  }

  /** The same before the first note. */
  lemma {:induction false} LineStartAtFirst(ops: seq<Op>)
    requires forall op :: op in ops ==> !op.Note?
    ensures LineStartIs(Run(START, ops), [])
    decreases |ops|
  {
    if |ops| > 0 {
      hide Next;
      var before, op := ops[..|ops| - 1], ops[|ops| - 1];
      assert ops == before + [op] && op in ops;
      LineStartAtFirst(before);
      RunSnoc(START, before, op);
      NextLine(Run(START, before), [], op);
    }
  }

  /** The gate is lingering now and after every step. */
  predicate StaysLingering(o: Out, ops: seq<Op>)
    decreases |ops|
  {
    o.gate.Linger? && (|ops| == 0 || StaysLingering(Next(o, ops[0]), ops[1..]))
  }

  /** The linger that began when `base` had been written has seen the stream `s`. */
  ghost predicate HasSeen(o: Out, base: seq<byte>, s: seq<byte>) {
    && o.gate.Linger?
    && o.written == base + s[..HoldPoint(s)]
    && o.gate.held == s[HoldPoint(s)..]
    && (o.gate.blocked <==> HoldPoint(s) < |s| && Complete(s, HoldPoint(s)))
  }

  lemma LingeredSees(o: Out, chunk: seq<byte>, base: seq<byte>, s: seq<byte>)
    requires HasSeen(o, base, s)
    ensures HasSeen(Lingered(o, chunk), base, s + chunk)
  {
    hide HoldPoint, Complete;
    SplitAppend(s, chunk);
    var h := HoldPoint(s);
    var t := s[h..] + chunk;
    if o.gate.blocked {
      assert (s + chunk)[..h] == s[..h];
    } else {
      AppendAssoc(base, s[..h], t[..HoldPoint(t)]);
      if Complete(t, HoldPoint(t)) { CompleteIsInside(t, HoldPoint(t)); }
    }
  }

  lemma NextSees(o: Out, op: Op, base: seq<byte>, s: seq<byte>)
    requires HasSeen(o, base, s) && Next(o, op).gate.Linger?
    ensures HasSeen(Next(o, op), base, s + (if op.Child? then op.chunk else []))
  {
    hide HoldPoint, Complete, Lingered;
    if op.Child? {
      LingeredSees(o, op.chunk, base, s);
    } else {
      assert s + [] == s;
    }
  }

  lemma {:induction false} RunSees(o: Out, ops: seq<Op>, base: seq<byte>, s: seq<byte>)
    requires HasSeen(o, base, s) && StaysLingering(o, ops)
    ensures HasSeen(Run(o, ops), base, s + ChildBytes(ops))
    decreases |ops|
  {
    if |ops| == 0 {
      assert s + [] == s;
    } else {
      hide Next, HasSeen;
      var more := if ops[0].Child? then ops[0].chunk else [];
      NextSees(o, ops[0], base, s);
      RunSees(Next(o, ops[0]), ops[1..], base, s + more);
      AppendAssoc(s, more, ChildBytes(ops[1..]));
    }
  }

  /** From the start of a linger until the gate opens, however the output is cut into chunks: exactly
      the stream up to its hold point has been written, and that contains no alternate-screen switch. */
  lemma LingerLetsNoSwitchThrough(o: Out, now: int, ops: seq<Op>)
    requires !o.gate.Linger? && StaysLingering(LingerStarted(o, now), ops)
    ensures var n := Run(LingerStarted(o, now), ops);
      var s := Held(o.gate) + ChildBytes(ops);
      HasSeen(n, o.written, s) && n.written[|o.written|..] == s[..HoldPoint(s)] && Clean(n.written[|o.written|..])
  {
    hide HoldPoint, Complete, Run, StaysLingering, Clean;
    var start, held := LingerStarted(o, now), Held(o.gate);
    assert [] + held == held;
    if Complete(held, HoldPoint(held)) { CompleteIsInside(held, HoldPoint(held)); }
    assert HasSeen(start, o.written, held);
    RunSees(start, ops, o.written, held);
    PassedIsClean(held + ChildBytes(ops));
  }

  // Across the start of a linger

  /** The last `n` bytes of `w` are the beginning of the switch `p`, but not all of it. */
  predicate Unfinished(w: seq<byte>, n: nat, p: seq<byte>) {
    IsSwitch(p) && 0 < n < |p| && n <= |w| && w[|w| - n..] == p[..n]
  }

  predicate EndsInside(w: seq<byte>) {
    exists n: nat, p :: p in {ALT_1049, ALT_1047, ALT_47} && n < |p| && Unfinished(w, n, p)
  }

  /** No switch in `w + x` reaches into `x`. */
  ghost predicate CleanAcross(w: seq<byte>, x: seq<byte>) {
    forall i: nat, p :: IsSwitch(p) && i + |p| > |w| ==> !Stands(w + x, i, p)
  }

  lemma StandsInRest(w: seq<byte>, x: seq<byte>, i: nat, p: seq<byte>)
    requires |w| <= i && IsSwitch(p) && Stands(w + x, i, p)
    ensures !Clean(x)
  {
    assert (w + x)[|w|..] == x;
    FitsShifts(w + x, |w|, i - |w|, p);
    assert Complete(x, i - |w|);
  }

  lemma StandsAcross(w: seq<byte>, x: seq<byte>, i: nat, p: seq<byte>)
    requires i < |w| < i + |p| && IsSwitch(p) && Stands(w + x, i, p)
    ensures EndsInside(w)
  {
    var n := |w| - i;
    assert w[i..] == p[..n] by {
      forall k | 0 <= k < n ensures w[i..][k] == p[k] { assert (w + x)[i + k] == w[i + k]; }
    }
    assert Unfinished(w, n, p);
  }

  lemma NoneUnfinished(w: seq<byte>, s: seq<byte>)
    requires !EndsInside(w)
    ensures CleanAcross(w, s[..HoldPoint(s)])
  {
    hide HoldPoint, Stands, EndsInside;
    var x := s[..HoldPoint(s)];
    PassedIsClean(s);
    forall i: nat, p | IsSwitch(p) && i + |p| > |w| ensures !Stands(w + x, i, p) {
      if Stands(w + x, i, p) {
        if i < |w| { StandsAcross(w, x, i, p); } else { StandsInRest(w, x, i, p); }
      }
    }
  }

  lemma RestHasNoEscape(p: seq<byte>, n: nat)
    requires IsSwitch(p) && 0 < n < |p|
    ensures HoldPoint(p[n..]) == |p[n..]|
  {
    var s := p[n..];
    assert forall k :: 0 <= k < |s| ==> s[k] == p[n + k] != ESC;
    hide ALT_1049, ALT_1047, ALT_47, Pending;
    forall k | 0 <= k < |s| ensures !Pending(s, k) {
      if Pending(s, k) { StartsWithEscape(s, k); }
    }
    HoldFromAt(s, 0, |s|);
  }

  lemma UnfinishedEnds(w: seq<byte>, n: nat, p: seq<byte>)
    requires Unfinished(w, n, p)
    ensures 0 < n <= |w| && n < |p| && w[|w| - n..] == p[..n] && IsSwitch(p)
  {}

  /** The missing rest of a switch holds no escape, so nothing of it is held back. */
  lemma RestPasses(w: seq<byte>, n: nat, p: seq<byte>)
    requires Unfinished(w, n, p)
    ensures HoldPoint(p[n..]) == |p[n..]| && !CleanAcross(w, p[n..])
  {
    RestHasNoEscape(p, n);
    hide HoldPoint, Unfinished, ALT_1049, ALT_1047, ALT_47;
    var s, i := p[n..], |w| - n;
    assert w[i..] == p[..n] by { UnfinishedEnds(w, n, p); }
    assert Stands(w + s, i, p) by {
      forall k | 0 <= k < |p| ensures (w + s)[i + k] == p[k] {
        assert k < n ==> w[i..][k] == p[..n][k];
      }
    }
  }

  /** A linger that starts on an open gate does not look back: whatever the child goes on to write, no
      switch is completed, if and only if the output so far does not end inside one. */
  lemma BoundaryIsSafeExactly(w: seq<byte>)
    ensures (forall s :: CleanAcross(w, s[..HoldPoint(s)])) <==> !EndsInside(w)
  {
    hide HoldPoint, CleanAcross;
    if EndsInside(w) {
      var n: nat, p :| p in {ALT_1049, ALT_1047, ALT_47} && n < |p| && Unfinished(w, n, p);
      RestPasses(w, n, p);
      assert p[n..][..HoldPoint(p[n..])] == p[n..];
    } else {
      forall s ensures CleanAcross(w, s[..HoldPoint(s)]) { NoneUnfinished(w, s); }
    }
  }

  /** What the gate writes in a linger it starts when open. */
  function LateLinger(o: Out, now: int, ops: seq<Op>): Out {
    Run(Next(o, Note(true, now)), ops)
  }

  lemma LateLingerWrites(o: Out, now: int, ops: seq<Op>)
    requires o.gate.Open? && StaysLingering(Next(o, Note(true, now)), ops)
    ensures var s := ChildBytes(ops); LateLinger(o, now, ops).written == o.written + s[..HoldPoint(s)]
  {
    hide HoldPoint, Run, StaysLingering, ChildBytes, Complete;
    LateStart(o, now);
    RunSees(Next(o, Note(true, now)), ops, o.written, []);
    assert [] + ChildBytes(ops) == ChildBytes(ops);
  }

  lemma LateStart(o: Out, now: int)
    requires o.gate.Open?
    ensures HasSeen(Next(o, Note(true, now)), o.written, [])
  {
    assert HoldPoint([]) == 0;
  }

  lemma OneChunk(o: Out, now: int, chunk: seq<byte>)
    requires o.gate.Open?
    ensures StaysLingering(Next(o, Note(true, now)), [Child(chunk)]) && ChildBytes([Child(chunk)]) == chunk
  {
    hide HoldPoint, Complete;
    var ops := [Child(chunk)];
    assert ops[1..] == [];
    assert chunk + [] == chunk;
  }

  /** The same of the gate itself, for all that a child may write and however it is cut: on an open gate
      a linger completes no switch, if and only if the bytes written before do not end inside one. */
  lemma LateLingerIsSafeExactly(o: Out, now: int)
    requires o.gate.Open?
    ensures (forall ops :: StaysLingering(Next(o, Note(true, now)), ops) ==>
               o.written <= LateLinger(o, now, ops).written
               && CleanAcross(o.written, LateLinger(o, now, ops).written[|o.written|..]))
            <==> !EndsInside(o.written)
  {
    hide HoldPoint, CleanAcross, StaysLingering, LateLinger, Next, ChildBytes, EndsInside;
    forall ops | StaysLingering(Next(o, Note(true, now)), ops)
      ensures o.written <= LateLinger(o, now, ops).written
      ensures var s := ChildBytes(ops); LateLinger(o, now, ops).written[|o.written|..] == s[..HoldPoint(s)]
    {
      LateLingerWrites(o, now, ops);
    }
    BoundaryIsSafeExactly(o.written);
    if EndsInside(o.written) {
      var s :| !CleanAcross(o.written, s[..HoldPoint(s)]);
      var ops := [Child(s)];
      OneChunk(o, now, s);
      assert LateLinger(o, now, ops).written[|o.written|..] == s[..HoldPoint(s)];
    }
  }

  /** `ESC [ ? 1 0`, then the link, then `4 9 h`: the switch is written during the linger. */
  lemma SwitchSlipsThrough(now: int)
    ensures var o := Next(Out(Open, [], true), Child(ALT_1049[..5]));
      LateLinger(o, now, [Child(ALT_1049[5..])]).written == ALT_1049
  {
    var head, tail := ALT_1049[..5], ALT_1049[5..];
    var o := Next(Out(Open, [], true), Child(head));
    assert [] + head == head;
    assert head[0..] == head;
    hide HoldPoint, LateLinger, StaysLingering, ChildBytes, Next, CleanAcross;
    RestPasses(head, 5, ALT_1049);
    OneChunk(o, now, tail);
    LateLingerWrites(o, now, [Child(tail)]);
    assert tail[..|tail|] == tail && head + tail == ALT_1049;
  }

  /** The three sequences that enter the alternate screen. */
  lemma SwitchesSpelled()
    ensures ALT_1049[0] == ALT_1047[0] == ALT_47[0] == 0x1b
    ensures Spells(ALT_1049[1..], "[?1049h") && Spells(ALT_1047[1..], "[?1047h") && Spells(ALT_47[1..], "[?47h")
  {}
}
