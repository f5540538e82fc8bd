/** The bytes that undo what the scanner recorded. */
module Cleanup {
  import opened Bytes
  import opened Modes

  const MAX_POPS := 16

  /** `ESC [ < u`, `ESC [ > 4 ; 0 m`, `ESC [ 0 m` */
  const POP: seq<byte> := [ESC, OPEN, LESS, LOWER_U]
  const RESET_KEYS: seq<byte> := [ESC, OPEN, GREATER, 0x34, SEMICOLON, 0x30, LOWER_M]
  const RESET_STYLE: seq<byte> := [ESC, OPEN, 0x30, LOWER_M]

  /** `ESC [ ? param final` */
  function Private(param: seq<byte>, final: byte): seq<byte> {
    [ESC, OPEN, QUESTION] + param + [final]
  }

  datatype Reset = Reset(mode: Mode, param: seq<byte>, final: byte)

  /** The table of the source, in its order. */
  const TABLE: seq<Reset> := [
    Reset(Mouse1000, [0x31, 0x30, 0x30, 0x30], LOWER_L),
    Reset(Mouse1002, [0x31, 0x30, 0x30, 0x32], LOWER_L),
    Reset(Mouse1003, [0x31, 0x30, 0x30, 0x33], LOWER_L),
    Reset(Mouse1005, [0x31, 0x30, 0x30, 0x35], LOWER_L),
    Reset(Mouse1006, [0x31, 0x30, 0x30, 0x36], LOWER_L),
    Reset(Mouse1015, [0x31, 0x30, 0x31, 0x35], LOWER_L),
    Reset(Bracketed, [0x32, 0x30, 0x30, 0x34], LOWER_L),
    Reset(NoAutowrap, [0x37], LOWER_H),
    Reset(CursorHidden, [0x32, 0x35], LOWER_H),
    Reset(Alt47, [0x34, 0x37], LOWER_L),
    Reset(Alt1047, [0x31, 0x30, 0x34, 0x37], LOWER_L),
    Reset(Alt1049, [0x31, 0x30, 0x34, 0x39], LOWER_L)]

  function Pops(n: nat): seq<byte> {
    if n == 0 then [] else Pops(n - 1) + POP
  }

  /** The resets of the first `n` rows that are on. */
  function Resets(on: set<Mode>, n: nat): seq<byte>
    requires n <= |TABLE|
  {
    if n == 0 then []
    else Resets(on, n - 1) + (if TABLE[n - 1].mode in on then Private(TABLE[n - 1].param, TABLE[n - 1].final) else [])
  }

  function Min(a: nat, b: nat): nat { if a < b then a else b }

  function Unstyled(a: Active): seq<byte> {
    Pops(Min(a.depth, MAX_POPS)) + (if ModifyKeys in a.on then RESET_KEYS else []) + Resets(a.on, |TABLE|)
  }

  function CleanupBytes(a: Active): seq<byte> {
    var out := Unstyled(a);
    if out == [] then [] else out + RESET_STYLE
  }

  /** `cleanup` on the scanner's globals, which it clears. */
  method Clean(scanner: Scanner) returns (out: seq<byte>)
    modifies scanner
    ensures out == CleanupBytes(old(scanner.State()).active)
    ensures scanner.State() == old(scanner.State()).(active := Active({}, 0))
  {
    hide Private;
    var active := scanner.on;
    out := [];
    var pops := Min(scanner.depth, MAX_POPS);
    scanner.depth := 0;
    for i := 0 to pops
      invariant out == Pops(i)
    {
      out := out + POP;
    }
    if ModifyKeys in active {
      out := out + RESET_KEYS;
    }
    ghost var before := out;
    assert before == Pops(pops) + (if ModifyKeys in active then RESET_KEYS else []);
    for i := 0 to |TABLE|
      invariant out == before + Resets(active, i)
    {
      if TABLE[i].mode in active {
        out := out + Private(TABLE[i].param, TABLE[i].final);
      }
    }
    if out != [] {
      out := out + RESET_STYLE;
    }
    scanner.on := {};
  }

  // What the scanner makes of it

  /** Scanning `x` from any state only has the given effect on it and leaves no tail. */
  ghost predicate Effect(x: seq<byte>, off: set<Mode>, pops: nat) {
    forall a: Active, seen: Seen :: Scan(a, seen, x) == Scanned(Lowered(a, off, pops), seen, [])
  }

  function Lowered(a: Active, off: set<Mode>, pops: nat): Active {
    Active(a.on - off, if a.depth < pops then 0 else a.depth - pops)
  }

  lemma EffectAppend(x: seq<byte>, y: seq<byte>, off: set<Mode>, off': set<Mode>, pops: nat, pops': nat)
    requires Effect(x, off, pops) && Effect(y, off', pops')
    ensures Effect(x + y, off + off', pops + pops')
  {
    hide Scan;
    forall a: Active, seen: Seen
      ensures Scan(a, seen, x + y) == Scanned(Lowered(a, off + off', pops + pops'), seen, [])
    {
      ScanAppend(a, seen, x, y);
      assert [] + y == y;
      assert a.on - off - off' == a.on - (off + off');
    }
  }

  lemma EffectOfNothing()
    ensures Effect([], {}, 0)
  {
    forall a: Active, seen: Seen ensures Scan(a, seen, []) == Scanned(Lowered(a, {}, 0), seen, []) {
      assert a.on - {} == a.on;
    }
  }

  lemma {:induction false} CsiEndAt(x: seq<byte>, i: nat, k: nat)
    requires i <= k < |x| && 0x40 <= x[k] <= 0x7e
    requires forall j :: i <= j < k ==> IsParameter(x[j])
    ensures CsiEnd(x, i) == Some(k + 1)
    decreases k - i
  {
    if i < k { CsiEndAt(x, i + 1, k); }
  }

  /** A control sequence is delimited by its final byte and acts through its body only. */
  lemma CsiEffect(a: Active, seen: Seen, body: seq<byte>, final: byte)
    requires 0x40 <= final <= 0x7e && forall j :: 0 <= j < |body| ==> IsParameter(body[j])
    ensures Scan(a, seen, [ESC, OPEN] + body + [final]) == Scanned(ApplyCsi(a, body, final), seen, [])
  {
    hide Scan, ApplyCsi, CsiEnd;
    var s := [ESC, OPEN] + body + [final];
    assert s[0] == ESC && s[1] == OPEN && s[|s| - 1] == final;
    assert s[2..|s| - 1] == body;
    forall j | 2 <= j < |s| - 1 ensures IsParameter(s[j]) {
      assert s[j] == body[j - 2];
    }
    CsiEndAt(s, 2, |s| - 1);
    OneSequence(a, seen, s);
  }

  lemma PopEffect()
    ensures Effect(POP, {}, 1)
  {
    hide Scan;
    forall a: Active, seen: Seen ensures Scan(a, seen, POP) == Scanned(Lowered(a, {}, 1), seen, []) {
      assert POP == [ESC, OPEN] + [LESS] + [LOWER_U];
      CsiEffect(a, seen, [LESS], LOWER_U);
      assert a.on - {} == a.on;
    }
  }

  lemma EmptySum()
    ensures var none: set<Mode> := {}; none + none == none
  {}

  lemma {:induction false} PopsEffect(n: nat)
    ensures Effect(Pops(n), {}, n)
  {
    hide Effect;
    if n == 0 {
      EffectOfNothing();
    } else {
      PopsEffect(n - 1);
      PopEffect();
      EffectAppend(Pops(n - 1), POP, {}, {}, n - 1, 1);
      EmptySum();
    }
  }

  lemma ResetKeysEffect()
    ensures Effect(RESET_KEYS, {ModifyKeys}, 0)
  {
    hide Scan;
    forall a: Active, seen: Seen ensures Scan(a, seen, RESET_KEYS) == Scanned(Lowered(a, {ModifyKeys}, 0), seen, []) {
      var body := [GREATER, 0x34, SEMICOLON, 0x30];
      assert RESET_KEYS == [ESC, OPEN] + body + [LOWER_M];
      CsiEffect(a, seen, body, LOWER_M);
      assert body[1..] == [0x34, SEMICOLON, 0x30];
    }
  }

  lemma ResetStyleEffect()
    ensures Effect(RESET_STYLE, {}, 0)
  {
    hide Scan;
    forall a: Active, seen: Seen ensures Scan(a, seen, RESET_STYLE) == Scanned(Lowered(a, {}, 0), seen, []) {
      assert RESET_STYLE == [ESC, OPEN] + [0x30] + [LOWER_M];
      CsiEffect(a, seen, [0x30], LOWER_M);
      assert a.on - {} == a.on;
    }
  }

  /** Each row of the table switches its own mode off and no other. */
  lemma RowClears(on: set<Mode>, n: nat)
    requires n < |TABLE|
    ensures SetParameter(on, TABLE[n].param, TABLE[n].final == LOWER_H) == on - {TABLE[n].mode}
  {}

  lemma RowEffect(n: nat)
    requires n < |TABLE|
    ensures Effect(Private(TABLE[n].param, TABLE[n].final), {TABLE[n].mode}, 0)
  {
    hide Scan, SetParameter;
    var row := TABLE[n];
    var x, body := Private(row.param, row.final), [QUESTION] + row.param;
    assert x == [ESC, OPEN] + body + [row.final];
    assert body[1..] == row.param;
    assert forall j :: 0 <= j < |row.param| ==> 0x30 <= row.param[j] <= 0x39;
    forall a: Active, seen: Seen ensures Scan(a, seen, x) == Scanned(Lowered(a, {row.mode}, 0), seen, []) {
      CsiEffect(a, seen, body, row.final);
      SingleParameter(a.on, row.param, row.final == LOWER_H);
      RowClears(a.on, n);
    }
  }

  lemma SingleParameter(on: set<Mode>, param: seq<byte>, value: bool)
    requires SEMICOLON !in param
    ensures SetParameters(on, Split(param, SEMICOLON), value) == SetParameter(on, param, value)
  {
    hide SetParameter;
    assert Split(param, SEMICOLON) == [param];
    assert [param][1..] == [];
  }

  /** The modes of the first `n` rows that are on. */
  function Covered(on: set<Mode>, n: nat): set<Mode>
    requires n <= |TABLE|
  {
    if n == 0 then {}
    else Covered(on, n - 1) + (if TABLE[n - 1].mode in on then {TABLE[n - 1].mode} else {})
  }

  lemma {:induction false} ResetsEffect(on: set<Mode>, n: nat)
    requires n <= |TABLE|
    ensures Effect(Resets(on, n), Covered(on, n), 0)
    decreases n
  {
    hide Effect, Private;
    if n == 0 {
      EffectOfNothing();
    } else {
      ResetsEffect(on, n - 1);
      if TABLE[n - 1].mode in on {
        RowEffect(n - 1);
        var row := TABLE[n - 1];
        EffectAppend(Resets(on, n - 1), Private(row.param, row.final), Covered(on, n - 1), {row.mode}, 0, 0);
      } else {
        assert Resets(on, n - 1) + [] == Resets(on, n - 1);
        assert Covered(on, n - 1) + {} == Covered(on, n - 1);
      }
    }
  }

  lemma {:induction false} CoveredHas(on: set<Mode>, n: nat, i: nat)
    requires i < n <= |TABLE|
    ensures TABLE[i].mode in on ==> TABLE[i].mode in Covered(on, n)
    decreases n
  {
    if i < n - 1 { CoveredHas(on, n - 1, i); }
  }

  lemma {:induction false} CoveredWithin(on: set<Mode>, n: nat)
    requires n <= |TABLE|
    ensures Covered(on, n) <= on - {ModifyKeys}
    decreases n
  {
    if n > 0 {
      CoveredWithin(on, n - 1);
      RowIsNoKeyMode(n - 1);
    }
  }

  lemma RowIsNoKeyMode(n: nat)
    requires n < |TABLE|
    ensures TABLE[n].mode != ModifyKeys
  {}

  /** The table has a row for every mode but the one that is reset on its own. */
  lemma TableIsComplete(mode: Mode)
    requires mode != ModifyKeys
    ensures exists i :: 0 <= i < |TABLE| && TABLE[i].mode == mode
  {
    assert TABLE[0].mode == Mouse1000 && TABLE[1].mode == Mouse1002 && TABLE[2].mode == Mouse1003
        && TABLE[3].mode == Mouse1005 && TABLE[4].mode == Mouse1006 && TABLE[5].mode == Mouse1015
        && TABLE[6].mode == Bracketed && TABLE[7].mode == NoAutowrap && TABLE[8].mode == CursorHidden
        && TABLE[9].mode == Alt47 && TABLE[10].mode == Alt1047 && TABLE[11].mode == Alt1049;
  }

  lemma CoversAll(on: set<Mode>)
    ensures Covered(on, |TABLE|) == on - {ModifyKeys}
  {
    hide Covered;
    CoveredWithin(on, |TABLE|);
    forall mode | mode in on - {ModifyKeys} ensures mode in Covered(on, |TABLE|) {
      TableIsComplete(mode);
      var i :| 0 <= i < |TABLE| && TABLE[i].mode == mode;
      CoveredHas(on, |TABLE|, i);
    }
  }

  lemma UnstyledEffect(a: Active)
    ensures Effect(Unstyled(a), a.on, Min(a.depth, MAX_POPS))
  {
    hide Effect, Pops, Resets, Covered;
    var n := Min(a.depth, MAX_POPS);
    var keys := if ModifyKeys in a.on then RESET_KEYS else [];
    var off := if ModifyKeys in a.on then {ModifyKeys} else {};
    PopsEffect(n);
    ResetKeysEffect();
    EffectOfNothing();
    ResetsEffect(a.on, |TABLE|);
    CoversAll(a.on);
    EffectAppend(Pops(n), keys, {}, off, n, 0);
    EffectAppend(Pops(n) + keys, Resets(a.on, |TABLE|), {} + off, a.on - {ModifyKeys}, n, 0);
    assert {} + off + (a.on - {ModifyKeys}) == a.on;
  }

  /** Scanned from any state at all, the cleanup for `a` switches off exactly the modes that are on in
      `a`, pops exactly min(depth, 16) keyboard levels, reports nothing and leaves no tail. */
  lemma CleanupEffect(a: Active)
    ensures Effect(CleanupBytes(a), a.on, if a.depth < 16 then a.depth else 16)
  {
    hide Effect, Unstyled;
    UnstyledEffect(a);
    ResetStyleEffect();
    EffectAppend(Unstyled(a), RESET_STYLE, a.on, {}, Min(a.depth, MAX_POPS), 0);
    assert a.on + {} == a.on;
  }

  /** From the state it was made for, cleanup clears every mode and leaves depth - min(depth, 16). */
  lemma CleanupUndoes(a: Active, seen: Seen)
    ensures Scan(a, seen, CleanupBytes(a))
            == Scanned(Active({}, if a.depth < 16 then 0 else a.depth - 16), seen, [])
  {
    hide Scan, CleanupBytes;
    CleanupEffect(a);
    assert a.on - a.on == {};
  }

  /** No reset is sent for a mode that was not on: another terminal's modes survive a foreign cleanup. */
  lemma OnlyActiveModesReset(a: Active, other: Active, seen: Seen, mode: Mode)
    requires mode !in a.on
    ensures mode in Scan(other, seen, CleanupBytes(a)).active.on <==> mode in other.on
    ensures a == Active({}, 0) <==> CleanupBytes(a) == []
  {
    hide Scan, CleanupBytes;
    CleanupEffect(a);
    QuietIffNothingOn(a);
  }

  lemma QuietIffNothingOn(a: Active)
    ensures a == Active({}, 0) <==> CleanupBytes(a) == []
  {
    hide Effect, Scan, Resets, Pops;
    CleanupEffect(a);
    if CleanupBytes(a) == [] {
      EffectOfNothing();
      EffectIsUnique([], a, a.on, Min(a.depth, MAX_POPS));
    }
    if a == Active({}, 0) { QuietOutput(); }
  }

  lemma EffectIsUnique(x: seq<byte>, a: Active, off: set<Mode>, pops: nat)
    requires Effect(x, off, pops) && Effect(x, {}, 0) && off == a.on && pops == Min(a.depth, MAX_POPS)
    ensures a == Active({}, 0)
  {
    assert Scan(a, NOTHING, x) == Scanned(Lowered(a, off, pops), NOTHING, []);
    assert Scan(a, NOTHING, x) == Scanned(Lowered(a, {}, 0), NOTHING, []);
    hide Scan;
    assert a.on - a.on == {} && a.on - {} == a.on;
  }

  lemma {:induction false} NoResets(n: nat)
    requires n <= |TABLE|
    ensures Resets({}, n) == []
    decreases n
  {
    if n > 0 { NoResets(n - 1); }
  }

  lemma QuietOutput()
    ensures Unstyled(Active({}, 0)) == []
  {
    hide Resets;
    NoResets(|TABLE|);
  }

  // The scanner sees what cleanup undoes

  function Opposite(final: byte): byte {
    if final == LOWER_H then LOWER_L else LOWER_H
  }

  lemma RowSets(on: set<Mode>, n: nat)
    requires n < |TABLE|
    ensures SetParameter(on, TABLE[n].param, Opposite(TABLE[n].final) == LOWER_H) == on + {TABLE[n].mode}
  {}

  /** The counterpart of every row, alone in a chunk or anywhere in one, is recorded as the row's mode
      being on, and nothing else. */
  lemma SwitchIsSeen(a: Active, seen: Seen, n: nat)
    requires n < |TABLE|
    ensures Scan(a, seen, Private(TABLE[n].param, Opposite(TABLE[n].final)))
            == Scanned(Active(a.on + {TABLE[n].mode}, a.depth), seen, [])
  {
    hide Scan, SetParameter;
    var row := TABLE[n];
    var final := Opposite(row.final);
    var body := [QUESTION] + row.param;
    assert Private(row.param, final) == [ESC, OPEN] + body + [final];
    assert body[1..] == row.param;
    assert forall j :: 0 <= j < |row.param| ==> 0x30 <= row.param[j] <= 0x39;
    CsiEffect(a, seen, body, final);
    SingleParameter(a.on, row.param, final == LOWER_H);
    RowSets(a.on, n);
  }

  /** Pushing keyboard flags raises the depth by one, in 32 bits, whatever the flags. */
  lemma PushIsCounted(a: Active, seen: Seen, flags: seq<byte>)
    requires forall j :: 0 <= j < |flags| ==> IsParameter(flags[j])
    ensures Scan(a, seen, [ESC, OPEN, GREATER] + flags + [LOWER_U])
            == Scanned(a.(depth := if a.depth == 0xFFFF_FFFF then 0 else a.depth + 1), seen, [])
  {
    hide Scan;
    var body := [GREATER] + flags;
    assert [ESC, OPEN, GREATER] + flags + [LOWER_U] == [ESC, OPEN] + body + [LOWER_U];
    CsiEffect(a, seen, body, LOWER_U);
  }

  /** `modifyOtherKeys` is on after any setting but the bare reset and those that end in a zero. */
  lemma ModifyKeysIsSeen(a: Active, seen: Seen, setting: seq<byte>)
    requires forall j :: 0 <= j < |setting| ==> IsParameter(setting[j])
    ensures var off := setting == [] || (|setting| >= 2 && setting[|setting| - 2..] == [0x3b, 0x30]);
      Scan(a, seen, [ESC, OPEN, GREATER] + setting + [LOWER_M])
      == Scanned(a.(on := if off then a.on - {ModifyKeys} else a.on + {ModifyKeys}), seen, [])
  {
    hide Scan;
    var body := [GREATER] + setting;
    assert [ESC, OPEN, GREATER] + setting + [LOWER_M] == [ESC, OPEN] + body + [LOWER_M];
    assert body[1..] == setting;
    CsiEffect(a, seen, body, LOWER_M);
  }

  // Several parameters at once

  /** `ESC [ ? p1 ; .. ; pn final` */
  function Switches(params: seq<seq<byte>>, final: byte): seq<byte>
    requires |params| >= 1
  {
    [ESC, OPEN, QUESTION] + Join(params, SEMICOLON) + [final]
  }

  predicate IsPlain(param: seq<byte>) {
    forall j :: 0 <= j < |param| ==> IsParameter(param[j]) && param[j] != SEMICOLON
  }

  /** Row `n` is on after the parameters, if one of them is its own and `final` is not the one that resets it,
      or if none is and it was on before. */
  predicate RowAfter(on: set<Mode>, params: seq<seq<byte>>, final: byte, n: nat)
    requires n < |TABLE|
  {
    if TABLE[n].param in params then final != TABLE[n].final else TABLE[n].mode in on
  }

  lemma ParameterExactly(on: set<Mode>, param: seq<byte>, final: byte, n: nat)
    requires n < |TABLE| && (final == LOWER_H || final == LOWER_L)
    ensures TABLE[n].mode in SetParameter(on, param, final == LOWER_H) <==> RowAfter(on, [param], final, n)
    ensures ModifyKeys in SetParameter(on, param, final == LOWER_H) <==> ModifyKeys in on
  {
    var k := RowOf(on, param, final);
    hide SetParameter;
    if k < |TABLE| {
      RowIsNoKeyMode(k);
      RowsDiffer(n, k);
      if final == TABLE[k].final { RowClears(on, k); } else { RowSets(on, k); }
    }
  }

  /** The row a parameter belongs to; one that belongs to none has no effect. */
  lemma RowOf(on: set<Mode>, param: seq<byte>, final: byte) returns (k: nat)
    ensures k < |TABLE| ==> TABLE[k].param == param
    ensures k >= |TABLE| ==> SetParameter(on, param, final == LOWER_H) == on
    ensures k >= |TABLE| ==> forall i :: 0 <= i < |TABLE| ==> TABLE[i].param != param
  {
    k := 0;
    while k < |TABLE| && TABLE[k].param != param
      invariant k <= |TABLE| && forall i :: 0 <= i < k ==> TABLE[i].param != param
    {
      k := k + 1;
    }
    if k == |TABLE| { NoRow(on, param, final); }
  }

  lemma NoRow(on: set<Mode>, param: seq<byte>, final: byte)
    requires forall i :: 0 <= i < |TABLE| ==> TABLE[i].param != param
    ensures SetParameter(on, param, final == LOWER_H) == on
  {
    assert TABLE[0].param != param && TABLE[1].param != param && TABLE[2].param != param && TABLE[3].param != param
        && TABLE[4].param != param && TABLE[5].param != param && TABLE[6].param != param && TABLE[7].param != param
        && TABLE[8].param != param && TABLE[9].param != param && TABLE[10].param != param && TABLE[11].param != param;
  }

  lemma RowsDiffer(n: nat, k: nat)
    requires n < |TABLE| && k < |TABLE|
    ensures n != k ==> TABLE[n].mode != TABLE[k].mode && TABLE[n].param != TABLE[k].param
    ensures TABLE[n].final == LOWER_H || TABLE[n].final == LOWER_L
  {}

  lemma {:induction false} ParametersExactly(on: set<Mode>, params: seq<seq<byte>>, final: byte, n: nat)
    requires n < |TABLE| && (final == LOWER_H || final == LOWER_L)
    ensures TABLE[n].mode in SetParameters(on, params, final == LOWER_H) <==> RowAfter(on, params, final, n)
    ensures ModifyKeys in SetParameters(on, params, final == LOWER_H) <==> ModifyKeys in on
    decreases |params|
  {
    if |params| > 0 {
      hide SetParameter;
      var once := SetParameter(on, params[0], final == LOWER_H);
      ParameterExactly(on, params[0], final, n);
      ParametersExactly(once, params[1..], final, n);
      assert params == [params[0]] + params[1..];
    }
  }

  lemma {:induction false} PlainJoin(params: seq<seq<byte>>)
    requires |params| >= 1 && forall p :: p in params ==> IsPlain(p)
    ensures forall j :: 0 <= j < |Join(params, SEMICOLON)| ==> IsParameter(Join(params, SEMICOLON)[j])
    decreases |params|
  {
    assert params[0] in params && IsPlain(params[0]);
    if |params| > 1 {
      hide IsPlain;
      var head, tail := params[0] + [SEMICOLON], Join(params[1..], SEMICOLON);
      PlainJoin(params[1..]);
      assert Join(params, SEMICOLON) == head + tail;
      forall j | 0 <= j < |head + tail| ensures IsParameter((head + tail)[j]) {
        assert (head + tail)[j] == if j < |head| then head[j] else tail[j - |head|];
      }
    }
  }

  lemma SwitchesScan(a: Active, seen: Seen, params: seq<seq<byte>>, final: byte)
    requires |params| >= 1 && (forall p :: p in params ==> IsPlain(p)) && (final == LOWER_H || final == LOWER_L)
    ensures Scan(a, seen, Switches(params, final))
            == Scanned(a.(on := SetParameters(a.on, params, final == LOWER_H)), seen, [])
  {
    hide Scan, SetParameters, Join, Split;
    var joined := Join(params, SEMICOLON);
    var body := [QUESTION] + joined;
    PlainJoin(params);
    assert Switches(params, final) == [ESC, OPEN] + body + [final];
    assert body[1..] == joined;
    CsiEffect(a, seen, body, final);
    SplitJoin(params, SEMICOLON);
  }

  /** Of any list of parameters each counts: exactly the rows whose parameters are listed are switched, those
      of no row are ignored, and nothing else changes. */
  lemma SwitchedExactly(a: Active, seen: Seen, params: seq<seq<byte>>, final: byte)
    requires |params| >= 1 && (forall p :: p in params ==> IsPlain(p)) && (final == LOWER_H || final == LOWER_L)
    ensures var r := Scan(a, seen, Switches(params, final));
      && r.active.depth == a.depth && r.seen == seen && r.tail == []
      && (ModifyKeys in r.active.on <==> ModifyKeys in a.on)
      && forall n :: 0 <= n < |TABLE| ==> (TABLE[n].mode in r.active.on <==> RowAfter(a.on, params, final, n))
  {
    hide Scan, SetParameters, RowAfter, Switches;
    SwitchesScan(a, seen, params, final);
    ParametersExactly(a.on, params, final, 0);
    forall n | 0 <= n < |TABLE|
      ensures TABLE[n].mode in SetParameters(a.on, params, final == LOWER_H) <==> RowAfter(a.on, params, final, n)
    {
      ParametersExactly(a.on, params, final, n);
    }
  }

  /** One sequence with all parameters does what a sequence for each does, one after the other. */
  lemma SwitchesOneByOne(a: Active, seen: Seen, first: seq<byte>, rest: seq<seq<byte>>, final: byte)
    requires |rest| >= 1 && IsPlain(first) && (forall p :: p in rest ==> IsPlain(p))
    requires final == LOWER_H || final == LOWER_L
    ensures Scan(a, seen, Switches([first] + rest, final))
            == Scan(a, seen, Switches([first], final) + Switches(rest, final))
  {
    hide Scan, SetParameter, Switches;
    var params := [first] + rest;
    SwitchesScan(a, seen, params, final);
    SwitchesScan(a, seen, [first], final);
    var once := Scan(a, seen, Switches([first], final));
    ScanAppend(a, seen, Switches([first], final), Switches(rest, final));
    assert [] + Switches(rest, final) == Switches(rest, final);
    SwitchesScan(once.active, once.seen, rest, final);
    assert params[0] == first && params[1..] == rest && [first][1..] == [];
  }

  /** Control sequences of any other form change nothing. */
  lemma OthersAreIgnored(a: Active, seen: Seen, body: seq<byte>, final: byte)
    requires 0x40 <= final <= 0x7e && forall j :: 0 <= j < |body| ==> IsParameter(body[j])
    requires |body| > 0 && body[0] == QUESTION ==> final != LOWER_H && final != LOWER_L
    requires |body| > 0 && body[0] == GREATER ==> final != LOWER_U && final != LOWER_M
    requires |body| > 0 && body[0] == LESS ==> final != LOWER_U
    ensures Scan(a, seen, [ESC, OPEN] + body + [final]) == Scanned(a, seen, [])
  {
    hide Scan;
    CsiEffect(a, seen, body, final);
  }

  /** Popping keyboard flags lowers the depth by one, whatever the flags, but never below zero. */
  lemma PopIsCounted(a: Active, seen: Seen, flags: seq<byte>)
    requires forall j :: 0 <= j < |flags| ==> IsParameter(flags[j])
    ensures Scan(a, seen, [ESC, OPEN, LESS] + flags + [LOWER_U])
            == Scanned(a.(depth := if a.depth == 0 then 0 else a.depth - 1), seen, [])
  {
    hide Scan;
    var body := [LESS] + flags;
    assert [ESC, OPEN, LESS] + flags + [LOWER_U] == [ESC, OPEN] + body + [LOWER_U];
    CsiEffect(a, seen, body, LOWER_U);
  }

  // The octets in question

  ghost predicate IsRow(i: nat, mode: Mode, param: string, final: char)
    requires i < |TABLE|
  {
    TABLE[i].mode == mode && Spells(TABLE[i].param, param) && TABLE[i].final == final as int
  }

  /** The modes that are reset, by number and final character. */
  lemma TableSpelled()
    ensures |TABLE| == 12
      && IsRow(0, Mouse1000, "1000", 'l') && IsRow(1, Mouse1002, "1002", 'l') && IsRow(2, Mouse1003, "1003", 'l')
      && IsRow(3, Mouse1005, "1005", 'l') && IsRow(4, Mouse1006, "1006", 'l') && IsRow(5, Mouse1015, "1015", 'l')
      && IsRow(6, Bracketed, "2004", 'l') && IsRow(7, NoAutowrap, "7", 'h') && IsRow(8, CursorHidden, "25", 'h')
      && IsRow(9, Alt47, "47", 'l') && IsRow(10, Alt1047, "1047", 'l') && IsRow(11, Alt1049, "1049", 'l')
  {}

  lemma SequencesSpelled()
    ensures forall param: seq<byte>, final: byte ::
      Private(param, final)[..3] == [0x1b, 0x5b, 0x3f] && Private(param, final)[3..] == param + [final]
    ensures POP[0] == RESET_KEYS[0] == RESET_STYLE[0] == 0x1b
    ensures Spells(POP[1..], "[<u") && Spells(RESET_KEYS[1..], "[>4;0m") && Spells(RESET_STYLE[1..], "[0m")
  {}

  /** What is printed at all ends by resetting the style. */
  lemma StyleIsReset(a: Active)
    ensures var out := CleanupBytes(a); out != [] ==> |out| > 4 && out[|out| - 4..] == [0x1b, 0x5b, 0x30, 0x6d]
  {
    hide Unstyled;
    var out := Unstyled(a) + RESET_STYLE;
    assert out[|out| - 4..] == RESET_STYLE;
  }
}
