/** Rewriting `38:2:r:g:b` and `38:5:n` colours of a terminal dump to the semicolon form. */
module Sgr {
  import opened Bytes
  import opened Utf8

  type Text = seq<Scalar>

  const COLON: Scalar := 0x3a
  const SEMICOLON: Scalar := 0x3b
  const LETTER_M: Scalar := 0x6d
  const CSI: Text := [0x1b, 0x5b]

  // The normaliser

  predicate IsColour(parts: seq<Text>) {
    && |parts| >= 3
    && parts[0] in {[0x33, 0x38], [0x34, 0x38], [0x35, 0x38]}
    && ((|parts| == 5 && parts[1] == [0x32]) || (|parts| == 3 && parts[1] == [0x35]))
  }

  function NormalizeParam(param: Text): Text {
    var parts := Split(param, COLON);
    if IsColour(parts) then Join(parts, SEMICOLON) else param
  }

  function NormalizeAll(params: seq<Text>): (r: seq<Text>)
    ensures |r| == |params|
  {
    if |params| == 0 then [] else [NormalizeParam(params[0])] + NormalizeAll(params[1..])
  }

  function NormalizeParams(params: Text): Text {
    Join(NormalizeAll(Split(params, SEMICOLON)), SEMICOLON)
  }

  /** Position at or after `i` of the first control sequence introducer, or the length. */
  function FindCsi(s: Text, i: nat): (k: nat)
    requires i <= |s|
    ensures i <= k <= |s| && (k < |s| ==> k + 1 < |s| && s[k] == CSI[0] && s[k + 1] == CSI[1])
    decreases |s| - i
  {
    if i + 1 >= |s| then |s|
    else if s[i] == CSI[0] && s[i + 1] == CSI[1] then i
    else FindCsi(s, i + 1)
  }

  predicate IsFinal(c: Scalar) { 0x40 <= c <= 0x7e }

  /** Position at or after `i` of the first final character, or the length. */
  function FindFinal(s: Text, i: nat): (k: nat)
    requires i <= |s|
    ensures i <= k <= |s| && (k < |s| ==> IsFinal(s[k]))
    decreases |s| - i
  {
    if i == |s| || IsFinal(s[i]) then i else FindFinal(s, i + 1)
  }

  /** A complete control sequence: introducer at `start`, final character at `end`. */
  datatype Sequence = Sequence(start: nat, end: nat, final: Scalar)

  /** The first complete control sequence from `i` on, if the first introducer opens one. */
  function Locate(s: Text, i: nat): (q: Option<Sequence>)
    requires i <= |s|
    ensures q.Some? ==> i <= q.value.start && q.value.start + 2 <= q.value.end < |s| && s[q.value.end] == q.value.final
  {
    var start := FindCsi(s, i);
    if start == |s| then None
    else
      var end := FindFinal(s, start + 2);
      if end == |s| then None else Some(Sequence(start, end, s[end]))
  }

  /** Parameters are normalised in front of an `m` only. */
  function Params(params: Text, final: Scalar): Text {
    if final == LETTER_M then NormalizeParams(params) else params
  }

  /** The text from `i` up to and including the sequence `q`, its parameters normalised if it is an SGR. */
  function Rewritten(s: Text, i: nat, q: Sequence): Text
    requires i <= q.start && q.start + 2 <= q.end < |s|
  {
    s[i..q.start + 2] + Params(s[q.start + 2..q.end], q.final) + [q.final]
  }

  /** The normal form of `s[i..]`. */
  function Normalize(s: Text, i: nat): Text
    requires i <= |s|
    decreases |s| - i
  {
    var q := Locate(s, i);
    if q.None? then s[i..] else Rewritten(s, i, q.value) + Normalize(s, q.value.end + 1)
  }

  lemma NormalizeNone(s: Text, i: nat)
    requires i <= |s|
    requires FindCsi(s, i) == |s| || FindFinal(s, FindCsi(s, i) + 2) == |s|
    ensures Normalize(s, i) == s[i..]
  {
    hide FindCsi, FindFinal, Rewritten, Params;
  }

  lemma NormalizeSome(s: Text, i: nat, start: nat, end: nat)
    requires i <= |s| && start == FindCsi(s, i) < |s| && end == FindFinal(s, start + 2) < |s|
    ensures Normalize(s, i) == s[i..start] + CSI + Params(s[start + 2..end], s[end]) + [s[end]] + Normalize(s, end + 1)
  {
    hide FindCsi, FindFinal, Params;
    assert s[i..start] + CSI == s[i..start + 2];
  }

  /** The loop of the source; `at` is where its `rest` starts in the dump. */
  method NormalizeSgr(dump: Text) returns (out: Text)
    ensures out == Normalize(dump, 0)
  {
    hide FindCsi, FindFinal, Normalize, NormalizeParams;
    out := [];
    var at := 0;
    while FindCsi(dump, at) < |dump|
      invariant at <= |dump| && out + Normalize(dump, at) == Normalize(dump, 0)
      decreases |dump| - at
    {
      var start := FindCsi(dump, at);
      ghost var before := out;
      out := out + dump[at..start];
      var end := FindFinal(dump, start + 2);
      if end == |dump| {
        out := out + dump[start..];
        NormalizeNone(dump, at);
        assert out == before + dump[at..];
        return;
      }
      out := out + CSI;
      if dump[end] == LETTER_M {
        out := out + NormalizeParams(dump[start + 2..end]);
      } else {
        out := out + dump[start + 2..end];
      }
      out := out + [dump[end]];
      NormalizeSome(dump, at, start, end);
      ghost var turn := dump[at..start] + CSI + Params(dump[start + 2..end], dump[end]) + [dump[end]];
      assert out == before + turn;
      AppendAssoc(before, turn, Normalize(dump, end + 1));
      at := end + 1;
    }
    NormalizeNone(dump, at);
    out := out + dump[at..];
  }

  // What the normaliser may change

  /** `b` is `a` with some colons turned into semicolons. */
  ghost predicate Softens(a: Text, b: Text) {
    |a| == |b| && forall i :: 0 <= i < |a| ==> a[i] == b[i] || (a[i] == COLON && b[i] == SEMICOLON)
  }

  lemma SoftensConcat(a: Text, b: Text, c: Text, d: Text)
    requires Softens(a, b) && Softens(c, d)
    ensures Softens(a + c, b + d)
  {}

  lemma SplitCons(s: Text, c: Scalar)
    requires IndexOf(s, c) < |s|
    ensures var i := IndexOf(s, c);
      Split(s, c) == [s[..i]] + Split(s[i + 1..], c) && Split(s, c)[1..] == Split(s[i + 1..], c)
  {
    hide IndexOf;
  }

  lemma JoinCons(head: Text, parts: seq<Text>, c: Scalar)
    requires |parts| >= 1
    ensures Join([head] + parts, c) == head + [c] + Join(parts, c)
  {
    assert ([head] + parts)[1..] == parts;
  }

  /** Splitting loses nothing and leaves no separator in a part. */
  lemma {:induction false} SplitParts(s: Text, c: Scalar)
    ensures Join(Split(s, c), c) == s
    ensures forall p :: p in Split(s, c) ==> c !in p
    decreases |s|
  {
    hide IndexOf;
    var i := IndexOf(s, c);
    if i == |s| {
      assert s[..i] == s;
      SinglePart(s, c);
    } else {
      SplitCons(s, c);
      hide Split, Join;
      var rest := s[i + 1..];
      SplitParts(rest, c);
      JoinCons(s[..i], Split(rest, c), c);
      assert s == s[..i] + [c] + rest;
    }
  }

  lemma {:induction false} JoinSoftens(parts: seq<Text>)
    requires |parts| >= 1
    ensures Softens(Join(parts, COLON), Join(parts, SEMICOLON))
    decreases |parts|
  {
    if |parts| > 1 {
      JoinSoftens(parts[1..]);
      SoftensConcat(parts[0] + [COLON], parts[0] + [SEMICOLON], Join(parts[1..], COLON), Join(parts[1..], SEMICOLON));
    }
  }

  lemma ParamSoftens(param: Text)
    ensures Softens(param, NormalizeParam(param))
  {
    SplitParts(param, COLON);
    JoinSoftens(Split(param, COLON));
  }

  lemma {:induction false} AllSoften(params: seq<Text>)
    requires |params| >= 1
    ensures Softens(Join(params, SEMICOLON), Join(NormalizeAll(params), SEMICOLON))
    decreases |params|
  {
    ParamSoftens(params[0]);
    if |params| > 1 {
      AllSoften(params[1..]);
      var r := NormalizeAll(params);
      assert r[1..] == NormalizeAll(params[1..]);
      SoftensConcat(params[0] + [SEMICOLON], r[0] + [SEMICOLON], Join(params[1..], SEMICOLON), Join(r[1..], SEMICOLON));
    }
  }

  lemma ParamsSoften(params: Text)
    ensures Softens(params, NormalizeParams(params))
  {
    SplitParts(params, SEMICOLON);
    AllSoften(Split(params, SEMICOLON));
  }

  lemma RewrittenSoftens(s: Text, i: nat, q: Sequence)
    requires i <= q.start && q.start + 2 <= q.end < |s| && s[q.end] == q.final
    ensures Softens(s[i..q.end + 1], Rewritten(s, i, q))
  {
    hide NormalizeParams;
    var params := s[q.start + 2..q.end];
    ParamsSoften(params);
    SoftensConcat(s[i..q.start + 2], s[i..q.start + 2], params, Params(params, q.final));
    SoftensConcat(s[i..q.start + 2] + params, s[i..q.start + 2] + Params(params, q.final), [q.final], [q.final]);
    assert s[i..q.end + 1] == s[i..q.start + 2] + params + [q.final];
  }

  lemma {:induction false} NormalizeSoftens(s: Text, i: nat)
    requires i <= |s|
    ensures Softens(s[i..], Normalize(s, i))
    decreases |s| - i
  {
    hide Locate, Rewritten;
    if Locate(s, i).Some? {
      var q := Locate(s, i).value;
      RewrittenSoftens(s, i, q);
      NormalizeSoftens(s, q.end + 1);
      SoftensConcat(s[i..q.end + 1], Rewritten(s, i, q), s[q.end + 1..], Normalize(s, q.end + 1));
      assert s[i..] == s[i..q.end + 1] + s[q.end + 1..];
    }
  }

  // Sequence boundaries

  /** The complete control sequences of `s` from `i` on. */
  function Sequences(s: Text, i: nat): seq<Sequence>
    requires i <= |s|
    decreases |s| - i
  {
    var q := Locate(s, i);
    if q.None? then [] else [q.value] + Sequences(s, q.value.end + 1)
  }

  lemma {:induction false} FindCsiSoftened(a: Text, b: Text, i: nat)
    requires Softens(a, b) && i <= |a|
    ensures FindCsi(a, i) == FindCsi(b, i)
    decreases |a| - i
  {
    if i + 1 < |a| { FindCsiSoftened(a, b, i + 1); }
  }

  lemma {:induction false} FindFinalSoftened(a: Text, b: Text, i: nat)
    requires Softens(a, b) && i <= |a|
    ensures FindFinal(a, i) == FindFinal(b, i)
    decreases |a| - i
  {
    if i < |a| { FindFinalSoftened(a, b, i + 1); }
  }

  lemma LocateSoftened(a: Text, b: Text, i: nat)
    requires Softens(a, b) && i <= |a|
    ensures Locate(a, i) == Locate(b, i)
  {
    hide FindCsi, FindFinal;
    FindCsiSoftened(a, b, i);
    if FindCsi(a, i) < |a| { FindFinalSoftened(a, b, FindCsi(a, i) + 2); }
  }

  lemma {:induction false} SequencesSoftened(a: Text, b: Text, i: nat)
    requires Softens(a, b) && i <= |a|
    ensures Sequences(a, i) == Sequences(b, i)
    decreases |a| - i
  {
    hide Locate;
    LocateSoftened(a, b, i);
    if Locate(a, i).Some? { SequencesSoftened(a, b, Locate(a, i).value.end + 1); }
  }

  /** Length is kept, only colons change, every one to a semicolon, and every control sequence keeps
      its place and its final character. */
  lemma BoundariesKept(s: Text)
    ensures Softens(s, Normalize(s, 0))
    ensures Sequences(Normalize(s, 0), 0) == Sequences(s, 0)
  {
    NormalizeSoftens(s, 0);
    assert s[0..] == s;
    SequencesSoftened(s, Normalize(s, 0), 0);
  }

  ghost predicate InColourSequence(seqs: seq<Sequence>, i: int) {
    exists q :: q in seqs && q.start + 2 <= i < q.end && q.final == LETTER_M
  }

  lemma SequencesCons(s: Text, i: nat, q: Sequence)
    requires i <= |s| && Locate(s, i) == Some(q)
    ensures q in Sequences(s, i)
    ensures forall p :: p in Sequences(s, q.end + 1) ==> p in Sequences(s, i)
  {
    hide Locate;
  }

  lemma {:induction false} ChangesFrom(s: Text, i: nat, k: nat)
    requires i <= k < |s| && |Normalize(s, i)| == |s| - i && Normalize(s, i)[k - i] != s[k]
    ensures InColourSequence(Sequences(s, i), k)
    decreases |s| - i
  {
    hide Locate, Rewritten, Sequences;
    var q := Locate(s, i).value;
    RewrittenSoftens(s, i, q);
    NormalizeSoftens(s, q.end + 1);
    SequencesCons(s, i, q);
    if k <= q.end {
      assert Normalize(s, i)[k - i] == Rewritten(s, i, q)[k - i];
      RewrittenKeeps(s, i, q, k);
    } else {
      assert Normalize(s, i)[k - i] == Normalize(s, q.end + 1)[k - (q.end + 1)];
      ChangesFrom(s, q.end + 1, k);
    }
  }

  lemma RewrittenKeeps(s: Text, i: nat, q: Sequence, k: nat)
    requires i <= q.start && q.start + 2 <= q.end < |s| && s[q.end] == q.final && i <= k <= q.end
    ensures |Rewritten(s, i, q)| == q.end + 1 - i
    ensures Rewritten(s, i, q)[k - i] != s[k] ==> q.start + 2 <= k < q.end && q.final == LETTER_M
  {
    hide NormalizeParams;
    ParamsSoften(s[q.start + 2..q.end]);
  }

  /** A character changes only between the introducer and the `m` of a complete sequence. */
  lemma ChangesOnlyColours(s: Text, k: nat)
    requires k < |s|
    ensures |Normalize(s, 0)| == |s|
    ensures Normalize(s, 0)[k] != s[k] ==>
      s[k] == COLON && Normalize(s, 0)[k] == SEMICOLON && InColourSequence(Sequences(s, 0), k)
  {
    NormalizeSoftens(s, 0);
    assert s[0..] == s;
    if Normalize(s, 0)[k] != s[k] { ChangesFrom(s, 0, k); }
  }

  // Idempotence

  lemma {:induction false} NormalizeAllAppend(a: seq<Text>, b: seq<Text>)
    ensures NormalizeAll(a + b) == NormalizeAll(a) + NormalizeAll(b)
  {
    if a == [] {
      assert a + b == b;
    } else {
      assert (a + b)[1..] == a[1..] + b;
      NormalizeAllAppend(a[1..], b);
    }
  }

  lemma {:induction false} JoinAppend(a: seq<Text>, b: seq<Text>, c: Scalar)
    requires |a| >= 1 && |b| >= 1
    ensures Join(a + b, c) == Join(a, c) + [c] + Join(b, c)
    decreases |a|
  {
    if |a| == 1 {
      assert (a + b)[1..] == b;
    } else {
      assert (a + b)[1..] == a[1..] + b;
      JoinAppend(a[1..], b, c);
    }
  }

  lemma ParamsCompose(a: Text, b: Text)
    ensures NormalizeParams(a + [SEMICOLON] + b) == NormalizeParams(a) + [SEMICOLON] + NormalizeParams(b)
  {
    SplitConcat(a, b, SEMICOLON);
    NormalizeAllAppend(Split(a, SEMICOLON), Split(b, SEMICOLON));
    JoinAppend(NormalizeAll(Split(a, SEMICOLON)), NormalizeAll(Split(b, SEMICOLON)), SEMICOLON);
  }

  lemma SingleParam(p: Text)
    requires SEMICOLON !in p
    ensures NormalizeParams(p) == NormalizeParam(p)
  {
    SinglePart(p, SEMICOLON);
    assert NormalizeAll([p]) == [NormalizeParam(p)];
  }

  lemma {:induction false} PlainPartsFixed(parts: seq<Text>)
    requires |parts| >= 1
    requires forall p :: p in parts ==> COLON !in p && SEMICOLON !in p
    ensures NormalizeParams(Join(parts, SEMICOLON)) == Join(parts, SEMICOLON)
    decreases |parts|
  {
    SinglePart(parts[0], COLON);
    SingleParam(parts[0]);
    if |parts| > 1 {
      PlainPartsFixed(parts[1..]);
      ParamsCompose(parts[0], Join(parts[1..], SEMICOLON));
    }
  }

  lemma ParamFixed(p: Text)
    requires SEMICOLON !in p
    ensures NormalizeParams(NormalizeParam(p)) == NormalizeParam(p)
  {
    var parts := Split(p, COLON);
    if IsColour(parts) {
      SplitParts(p, COLON);
      forall q | q in parts ensures SEMICOLON !in q {
        PartOf(parts, q, COLON);
      }
      PlainPartsFixed(parts);
    } else {
      SingleParam(p);
    }
  }

  lemma {:induction false} PartOf(parts: seq<Text>, q: Text, c: Scalar)
    requires |parts| >= 1 && q in parts
    ensures forall x :: x in q ==> x in Join(parts, c)
    decreases |parts|
  {
    if |parts| > 1 && q in parts[1..] { PartOf(parts[1..], q, c); }
  }

  lemma {:induction false} AllFixed(params: seq<Text>)
    requires |params| >= 1 && forall p :: p in params ==> SEMICOLON !in p
    ensures var r := Join(NormalizeAll(params), SEMICOLON); NormalizeParams(r) == r
    decreases |params|
  {
    ParamFixed(params[0]);
    if |params| > 1 {
      AllFixed(params[1..]);
      assert NormalizeAll(params)[1..] == NormalizeAll(params[1..]);
      ParamsCompose(NormalizeParam(params[0]), Join(NormalizeAll(params[1..]), SEMICOLON));
    }
  }

  lemma ParamsIdempotent(params: Text)
    ensures NormalizeParams(NormalizeParams(params)) == NormalizeParams(params)
  {
    SplitParts(params, SEMICOLON);
    AllFixed(Split(params, SEMICOLON));
  }

  lemma RewrittenFixed(s: Text, n: Text, i: nat, q: Sequence)
    requires i <= q.start && q.start + 2 <= q.end < |s| && s[q.end] == q.final && |n| == |s|
    requires n[i..q.end + 1] == Rewritten(s, i, q)
    ensures Rewritten(n, i, q) == n[i..q.end + 1]
  {
    hide NormalizeParams;
    var head, params := s[i..q.start + 2], s[q.start + 2..q.end];
    var r := Params(params, q.final);
    ParamsSoften(params);
    ParamsIdempotent(params);
    ThreeParts(head, r, [q.final]);
    SliceSlice(n, i, q.end + 1, 0, |head|);
    SliceSlice(n, i, q.end + 1, |head|, |head| + |r|);
    assert n[i..q.start + 2] == head && n[q.start + 2..q.end] == r;
  }

  lemma TwoParts(n: Text, i: nat, a: Text, b: Text)
    requires i <= |n| && n[i..] == a + b
    ensures i + |a| <= |n| && n[i..i + |a|] == a && n[i + |a|..] == b
  {
    ThreeParts(a, b, []);
    SliceSlice(n, i, |n|, 0, |a|);
    DropDrop(n, i, |a|);
    assert n[i..][..|a|] == a && n[i..][|a|..] == b;
  }

  lemma NormalizeCons(s: Text, i: nat, q: Sequence)
    requires i <= |s| && Locate(s, i) == Some(q)
    ensures Normalize(s, i) == Rewritten(s, i, q) + Normalize(s, q.end + 1)
  {
    hide Locate, Rewritten;
  }

  lemma {:induction false} IdempotentFrom(s: Text, n: Text, i: nat)
    requires Softens(s, n) && i <= |s| && n[i..] == Normalize(s, i)
    ensures Normalize(n, i) == n[i..]
    decreases |s| - i
  {
    hide Locate, Rewritten;
    LocateSoftened(s, n, i);
    if Locate(s, i).Some? {
      var q := Locate(s, i).value;
      RewrittenSoftens(s, i, q);
      TwoParts(n, i, Rewritten(s, i, q), Normalize(s, q.end + 1));
      hide Normalize;
      RewrittenFixed(s, n, i, q);
      IdempotentFrom(s, n, q.end + 1);
      NormalizeCons(n, i, q);
      assert n[i..] == n[i..q.end + 1] + n[q.end + 1..];
    }
  }

  lemma NormalizeIdempotent(s: Text)
    ensures Normalize(Normalize(s, 0), 0) == Normalize(s, 0)
  {
    BoundariesKept(s);
    var n := Normalize(s, 0);
    assert n[0..] == n;
    IdempotentFrom(s, n, 0);
  }

  // What is left

  lemma {:induction false} JoinInjective(a: seq<Text>, b: seq<Text>, c: Scalar)
    requires |a| == |b| >= 1 && Join(a, c) == Join(b, c)
    requires forall i :: 0 <= i < |a| ==> |a[i]| == |b[i]|
    ensures a == b
    decreases |a|
  {
    if |a| > 1 {
      ThreeParts(a[0], [c], Join(a[1..], c));
      ThreeParts(b[0], [c], Join(b[1..], c));
      JoinInjective(a[1..], b[1..], c);
      assert a == [a[0]] + a[1..] && b == [b[0]] + b[1..];
    }
  }

  /** A parameter in colon form is never a fixed point. */
  lemma ColourChanges(p: Text)
    requires IsColour(Split(p, COLON))
    ensures NormalizeParam(p) != p
  {
    var parts := Split(p, COLON);
    SplitParts(p, COLON);
    assert Join(parts, COLON)[|parts[0]|] == COLON;
    assert Join(parts, SEMICOLON)[|parts[0]|] == SEMICOLON;
  }

  predicate Plain(params: Text) {
    forall p :: p in Split(params, SEMICOLON) ==> !IsColour(Split(p, COLON))
  }

  lemma {:induction false} AllAt(params: seq<Text>, i: nat)
    requires i < |params|
    ensures NormalizeAll(params)[i] == NormalizeParam(params[i])
  {
    if i > 0 { AllAt(params[1..], i - 1); }
  }

  lemma FixedIsPlain(params: Text)
    requires NormalizeParams(params) == params
    ensures Plain(params)
  {
    hide IsColour, NormalizeParam;
    var parts := Split(params, SEMICOLON);
    var all := NormalizeAll(parts);
    SplitParts(params, SEMICOLON);
    forall i | 0 <= i < |parts| ensures |all[i]| == |parts[i]| && all[i] == NormalizeParam(parts[i]) {
      AllAt(parts, i);
      ParamSoftens(parts[i]);
    }
    JoinInjective(all, parts, SEMICOLON);
    forall i | 0 <= i < |parts| ensures !IsColour(Split(parts[i], COLON)) {
      if IsColour(Split(parts[i], COLON)) { ColourChanges(parts[i]); }
    }
  }

  lemma SequencesStep(s: Text, i: nat, q: Sequence)
    requires i <= |s| && q in Sequences(s, i)
    ensures Locate(s, i).Some? && (q == Locate(s, i).value || q in Sequences(s, Locate(s, i).value.end + 1))
  {
    hide Locate;
  }

  /** A fixed text is fixed sequence by sequence. */
  lemma FixedHere(n: Text, i: nat, q: Sequence)
    requires i <= |n| && Normalize(n, i) == n[i..] && Locate(n, i) == Some(q)
    ensures Normalize(n, q.end + 1) == n[q.end + 1..]
    ensures q.final == LETTER_M ==> NormalizeParams(n[q.start + 2..q.end]) == n[q.start + 2..q.end]
  {
    hide Locate, NormalizeParams, Normalize;
    var head, params := n[i..q.start + 2], n[q.start + 2..q.end];
    var r := Params(params, q.final);
    NormalizeCons(n, i, q);
    RewrittenKeeps(n, i, q, i);
    TwoParts(n, i, Rewritten(n, i, q), Normalize(n, q.end + 1));
    ThreeParts(head, r, [q.final]);
    ParamsSoften(params);
    SliceSlice(n, i, q.end + 1, |head|, |head| + |params|);
  }

  lemma {:induction false} FixedSequences(n: Text, i: nat, q: Sequence)
    requires i <= |n| && Normalize(n, i) == n[i..] && q in Sequences(n, i) && q.final == LETTER_M
    ensures q.start + 2 <= q.end <= |n| && NormalizeParams(n[q.start + 2..q.end]) == n[q.start + 2..q.end]
    decreases |n| - i
  {
    hide Locate, NormalizeParams, Normalize, Sequences;
    SequencesStep(n, i, q);
    var first := Locate(n, i).value;
    FixedHere(n, i, first);
    if q != first { FixedSequences(n, first.end + 1, q); }
  }

  /** After normalising no complete sequence that ends in `m` holds a colour in colon form. */
  lemma NoColonColours(s: Text, q: Sequence)
    requires q in Sequences(Normalize(s, 0), 0) && q.final == LETTER_M
    ensures q.start + 2 <= q.end <= |Normalize(s, 0)| && Plain(Normalize(s, 0)[q.start + 2..q.end])
  {
    hide Normalize, Sequences, NormalizeParams, Plain;
    var n := Normalize(s, 0);
    NormalizeIdempotent(s);
    assert n[0..] == n;
    FixedSequences(n, 0, q);
    FixedIsPlain(n[q.start + 2..q.end]);
  }

  lemma ColourParts(parts: seq<Text>)
    requires IsColour(parts) && forall p :: p in parts ==> COLON !in p && SEMICOLON !in p
    ensures NormalizeParams(Join(parts, COLON)) == Join(parts, SEMICOLON)
  {
    hide NormalizeParams, Join, Split;
    PartsAreSplit(parts);
  }

  /** Which parameters are rewritten, and to what: foreground, background and underline colours given as
      `kind:2:r:g:b` or `kind:5:n`, whatever stands in the colour's own places. */
  lemma ColourIsRewritten(kind: Text, colour: seq<Text>)
    requires kind in {[0x33, 0x38], [0x34, 0x38], [0x35, 0x38]}
    requires forall x :: x in colour ==> 0x3a !in x && 0x3b !in x
    ensures |colour| == 3 ==>
      NormalizeParams(Join([kind, [0x32]] + colour, 0x3a)) == Join([kind, [0x32]] + colour, 0x3b)
    ensures |colour| == 1 ==>
      NormalizeParams(Join([kind, [0x35]] + colour, 0x3a)) == Join([kind, [0x35]] + colour, 0x3b)
  {
    hide NormalizeParams, Join;
    if |colour| == 3 { ColourParts([kind, [0x32]] + colour); }
    if |colour| == 1 { ColourParts([kind, [0x35]] + colour); }
  }

  lemma PartsAreSplit(parts: seq<Text>)
    requires |parts| >= 1 && forall p :: p in parts ==> COLON !in p && SEMICOLON !in p
    ensures NormalizeParams(Join(parts, COLON)) == NormalizeParam(Join(parts, COLON))
    ensures Split(Join(parts, COLON), COLON) == parts
  {
    hide NormalizeParams, NormalizeParam;
    SplitJoin(parts, COLON);
    NotInJoin(parts);
    SingleParam(Join(parts, COLON));
  }

  lemma {:induction false} NotInJoin(parts: seq<Text>)
    requires |parts| >= 1 && forall p :: p in parts ==> SEMICOLON !in p
    ensures SEMICOLON !in Join(parts, COLON)
    decreases |parts|
  {
    if |parts| > 1 { NotInJoin(parts[1..]); }
  }

  // Exactly the colours

  /** `kind:2:r:g:b` or `kind:5:n` with kind 38, 48 or 58. */
  ghost predicate IsColourForm(p: Text) {
    exists kind: Text, colour: seq<Text> ::
      && kind in {[0x33, 0x38], [0x34, 0x38], [0x35, 0x38]} && (forall x :: x in colour ==> 0x3a !in x)
      && (|| (|colour| == 3 && p == Join([kind, [0x32]] + colour, 0x3a))
          || (|colour| == 1 && p == Join([kind, [0x35]] + colour, 0x3a)))
  }

  lemma ColourHasForm(p: Text)
    requires IsColour(Split(p, COLON))
    ensures IsColourForm(p)
  {
    hide Join;
    var parts := Split(p, COLON);
    SplitParts(p, COLON);
    var kind, colour := parts[0], parts[2..];
    assert parts == [kind, parts[1]] + colour;
    forall x | x in colour ensures COLON !in x { assert x in parts; }
  }

  lemma FormIsColour(p: Text)
    requires IsColourForm(p)
    ensures IsColour(Split(p, COLON))
  {
    hide Join, Split;
    var kind: Text, colour: seq<Text> :|
      && kind in {[0x33, 0x38], [0x34, 0x38], [0x35, 0x38]} && (forall x :: x in colour ==> COLON !in x)
      && (|| (|colour| == 3 && p == Join([kind, [0x32]] + colour, COLON))
          || (|colour| == 1 && p == Join([kind, [0x35]] + colour, COLON)));
    var parts := [kind, if |colour| == 3 then [0x32] else [0x35]] + colour;
    SplitJoin(parts, COLON);
  }

  /** A parameter is changed exactly if it is a colour in colon form; any other keeps its colons. */
  lemma ParamExactly(p: Text)
    requires 0x3b !in p
    ensures NormalizeParams(p) != p <==> IsColourForm(p)
  {
    hide NormalizeParams, IsColour, IsColourForm, Split, Join;
    SingleParam(p);
    if IsColour(Split(p, COLON)) {
      ColourChanges(p);
      ColourHasForm(p);
    } else if IsColourForm(p) {
      FormIsColour(p);
    }
  }

  /** Each of several parameters is treated by itself. */
  lemma ParamsOneByOne(a: Text, b: Text)
    ensures NormalizeParams(a + [0x3b] + b) == NormalizeParams(a) + [0x3b] + NormalizeParams(b)
  {
    ParamsCompose(a, b);
  }

  // Dumps, piece by piece

  predicate IntroducedAt(s: Text, k: nat) { k + 1 < |s| && s[k] == 0x1b && s[k + 1] == 0x5b }

  predicate EndsAt(s: Text, k: nat) { k < |s| && 0x40 <= s[k] <= 0x7e }

  lemma {:induction false} FindCsiIs(s: Text, i: nat, k: nat)
    requires i <= k <= |s| && (k < |s| ==> IntroducedAt(s, k)) && forall j :: i <= j < k ==> !IntroducedAt(s, j)
    ensures FindCsi(s, i) == k
    decreases |s| - i
  {
    AtIntroducer(s, i);
    if i < k {
      assert !IntroducedAt(s, i);
      FindCsiIs(s, i + 1, k);
    }
  }

  lemma AtIntroducer(s: Text, i: nat)
    requires i <= |s|
    ensures IntroducedAt(s, i) ==> FindCsi(s, i) == i
    ensures EndsAt(s, i) ==> FindFinal(s, i) == i
  {}

  lemma {:induction false} FindCsiLeast(s: Text, i: nat, j: nat)
    requires i <= |s| && i <= j < FindCsi(s, i)
    ensures !IntroducedAt(s, j)
    decreases j - i
  {
    if i < j {
      FindCsiLeast(s, i + 1, j);
    } else {
      AtIntroducer(s, i);
    }
  }

  lemma {:induction false} FindFinalIs(s: Text, i: nat, k: nat)
    requires i <= k <= |s| && (k < |s| ==> EndsAt(s, k)) && forall j :: i <= j < k ==> !EndsAt(s, j)
    ensures FindFinal(s, i) == k
    decreases |s| - i
  {
    AtIntroducer(s, i);
    if i < k {
      assert !EndsAt(s, i);
      FindFinalIs(s, i + 1, k);
    }
  }

  lemma {:induction false} FindFinalLeast(s: Text, i: nat, j: nat)
    requires i <= |s| && i <= j < FindFinal(s, i)
    ensures !EndsAt(s, j)
    decreases j - i
  {
    if i < j { FindFinalLeast(s, i + 1, j); }
  }

  lemma CsiShift(s: Text, i: nat)
    requires i <= |s|
    ensures FindCsi(s, i) == i + FindCsi(s[i..], 0)
  {
    var t, k := s[i..], FindCsi(s[i..], 0);
    forall j | i <= j < i + k ensures !IntroducedAt(s, j) {
      FindCsiLeast(t, 0, j - i);
      assert j + 1 < |s| ==> t[j - i] == s[j] && t[j - i + 1] == s[j + 1];
    }
    hide FindCsi;
    FindCsiIs(s, i, i + k);
  }

  lemma FinalShift(s: Text, i: nat, b: nat)
    requires i + b <= |s|
    ensures FindFinal(s, i + b) == i + FindFinal(s[i..], b)
  {
    var t, k := s[i..], FindFinal(s[i..], b);
    forall j | i + b <= j < i + k ensures !EndsAt(s, j) {
      FindFinalLeast(t, b, j - i);
      assert t[j - i] == s[j];
    }
    hide FindFinal;
    FindFinalIs(s, i + b, i + k);
  }

  lemma {:induction false} NormalizeShift(s: Text, i: nat)
    requires i <= |s|
    ensures Normalize(s, i) == Normalize(s[i..], 0)
    decreases |s| - i
  {
    hide Normalize, Params, FindCsi, FindFinal;
    var t, start := s[i..], FindCsi(s, i);
    CsiShift(s, i);
    if start == |s| {
      NormalizeNone(s, i);
      NormalizeNone(t, 0);
    } else {
      FinalShift(s, i, start + 2 - i);
      var end := FindFinal(s, start + 2);
      if end == |s| {
        NormalizeNone(s, i);
        NormalizeNone(t, 0);
      } else {
        NormalizeShift(s, end + 1);
        NormalizeShift(t, end - i + 1);
        ShiftOne(s, i, start, end);
      }
    }
  }

  lemma ShiftOne(s: Text, i: nat, start: nat, end: nat)
    requires i <= |s| && start == FindCsi(s, i) < |s| && end == FindFinal(s, start + 2) < |s|
    requires var t := s[i..]; FindCsi(t, 0) == start - i && FindFinal(t, start - i + 2) == end - i
    requires Normalize(s, end + 1) == Normalize(s[i..][end - i + 1..], 0) == Normalize(s[i..], end - i + 1)
    ensures Normalize(s, i) == Normalize(s[i..], 0)
  {
    hide Normalize, Params, FindCsi, FindFinal;
    var t := s[i..];
    NormalizeSome(s, i, start, end);
    NormalizeSome(t, 0, start - i, end - i);
    SliceShift(s, i, i, start);
    SliceShift(s, i, start + 2, end);
  }

  lemma SliceShift(s: Text, i: nat, a: nat, b: nat)
    requires i <= a <= b <= |s|
    ensures s[i..][a - i..b - i] == s[a..b]
  {}

  /** The first introducer behind text without one. */
  lemma FirstCsi(text: Text, more: Text)
    requires forall k :: !IntroducedAt(text, k)
    ensures FindCsi(text + CSI + more, 0) == |text| && FindCsi(text, 0) == |text|
  {
    var s := text + CSI + more;
    forall j | 0 <= j < |text| ensures !IntroducedAt(s, j) {
      assert s[j] == text[j];
      if j + 1 < |text| { assert !IntroducedAt(text, j) && s[j + 1] == text[j + 1]; }
    }
    hide FindCsi;
    FindCsiIs(s, 0, |text|);
    FindCsiIs(text, 0, |text|);
  }

  lemma FirstFinal(before: Text, params: Text, more: Text)
    requires (forall k :: !EndsAt(params, k)) && (|more| > 0 ==> EndsAt(more, 0))
    ensures FindFinal(before + params + more, |before|) == |before| + |params|
  {
    var s, b := before + params + more, |before|;
    forall j | b <= j < b + |params| ensures !EndsAt(s, j) {
      assert s[j] == params[j - b] && !EndsAt(params, j - b);
    }
    if |more| > 0 { assert s[b + |params|] == more[0]; }
    hide FindFinal;
    FindFinalIs(s, b, b + |params|);
  }

  /** Text without an introducer is left alone, and so is a sequence that is not complete. */
  lemma UnfinishedIsKept(text: Text, params: Text)
    requires (forall k :: !IntroducedAt(text, k)) && (forall k :: !EndsAt(params, k))
    ensures Normalize(text, 0) == text && Normalize(text + CSI + params, 0) == text + CSI + params
  {
    hide FindCsi, FindFinal, Normalize, IntroducedAt, EndsAt;
    var s := text + CSI + params;
    FirstCsi(text, params);
    FirstFinal(text + CSI, params, []);
    assert s + [] == s && s[0..] == s && text[0..] == text;
    NormalizeNone(text, 0);
    NormalizeNone(s, 0);
  }

  /** Text, then a complete sequence, then the rest of the dump: the parameters are normalised if the sequence
      ends in `m`, and the rest is treated by itself. */
  lemma NormalizedExactly(text: Text, params: Text, final: Scalar, rest: Text)
    requires (forall k :: !IntroducedAt(text, k)) && (forall k :: !EndsAt(params, k)) && 0x40 <= final <= 0x7e
    ensures Normalize(text + CSI + params + [final] + rest, 0)
      == text + CSI + (if final == 0x6d then NormalizeParams(params) else params) + [final] + Normalize(rest, 0)
  {
    hide FindCsi, FindFinal, Normalize, NormalizeParams, IntroducedAt;
    var s, k, more := text + CSI + params + [final] + rest, |text|, [final] + rest;
    var end := k + 2 + |params|;
    assert s == text + CSI + (params + more) && s == text + CSI + params + more;
    FirstCsi(text, params + more);
    assert EndsAt(more, 0);
    FirstFinal(text + CSI, params, more);
    SequenceAt(s, text, params, final, rest);
    NormalizeSome(s, 0, k, end);
    NormalizeShift(s, end + 1);
  }

  lemma SequenceAt(s: Text, text: Text, params: Text, final: Scalar, rest: Text)
    requires s == text + CSI + params + [final] + rest
    ensures var k, end := |text|, |text| + 2 + |params|;
      s[0..k] == text && s[k + 2..end] == params && s[end] == final && s[end + 1..] == rest
  {}
}
