/** Octets, the two result types and the few sequence helpers shared by every component. */
module Bytes {
  type byte = b: int | 0 <= b < 256

  datatype Option<+T> = None | Some(value: T)
  datatype Result<+T, +E> = Ok(value: T) | Err(error: E)

  const ESC: byte := 0x1b

  /** The elements of all chunks, in order. */
  function Concat<T>(chunks: seq<seq<T>>): seq<T> {
    if |chunks| == 0 then [] else chunks[0] + Concat(chunks[1..])
  }

  lemma ConcatSnoc<T>(chunks: seq<seq<T>>, last: seq<T>)
    ensures Concat(chunks + [last]) == Concat(chunks) + last
  {
    if chunks == [] {
      assert chunks + [last] == [last];
      assert Concat([last]) == last + Concat([last][1..]);
    } else {
      assert (chunks + [last])[1..] == chunks[1..] + [last];
      ConcatSnoc(chunks[1..], last);
    }
  }

  lemma DropDrop<T>(s: seq<T>, n: nat, m: nat)
    requires n + m <= |s|
    ensures s[n..][m..] == s[n + m..]
  {
    assert s[n..][m..] == s[n + m..];
  }

  lemma AppendAssoc<T>(a: seq<T>, b: seq<T>, c: seq<T>)
    ensures (a + b) + c == a + (b + c)
  {
    assert (a + b) + c == a + (b + c);
  }

  lemma SliceSlice<T>(s: seq<T>, i: nat, e: nat, a: nat, b: nat)
    requires i <= e <= |s| && a <= b <= e - i
    ensures s[i..e][a..b] == s[i + a..i + b]
  {
    var w, x, y := s[i..e], s[i..e][a..b], s[i + a..i + b];
    assert forall k :: 0 <= k < b - a ==> x[k] == w[a + k] == s[i + a + k] == y[k];
  }

  lemma ThreeParts<T>(a: seq<T>, b: seq<T>, c: seq<T>)
    ensures (a + b + c)[..|a|] == a
    ensures (a + b + c)[|a|..|a| + |b|] == b
    ensures (a + b + c)[|a| + |b|..] == c
  {
    var w := a + b + c;
    assert w[..|a|] == a;
    assert w[|a|..|a| + |b|] == b;
    assert w[|a| + |b|..] == c;
  }

  // Splitting at a separator

  function IndexOf<T(==)>(s: seq<T>, c: T): (i: nat)
    ensures i <= |s| && c !in s[..i] && (i < |s| ==> s[i] == c)
  {
    if |s| == 0 || s[0] == c then 0
    else
      var i := IndexOf(s[1..], c);
      assert s[..i + 1] == [s[0]] + s[1..][..i];
      i + 1
  }

  function Split<T(==)>(s: seq<T>, c: T): (parts: seq<seq<T>>)
    ensures |parts| >= 1
    decreases |s|
  {
    var i := IndexOf(s, c);
    if i == |s| then [s] else [s[..i]] + Split(s[i + 1..], c)
  }

  function Join<T>(parts: seq<seq<T>>, c: T): seq<T>
    requires |parts| >= 1
  {
    if |parts| == 1 then parts[0] else parts[0] + [c] + Join(parts[1..], c)
  }

  lemma {:induction false} IndexIsLeast<T>(s: seq<T>, c: T, i: nat)
    requires i < |s| && s[i] == c && c !in s[..i]
    ensures IndexOf(s, c) == i
    decreases i
  {
    if i > 0 {
      assert s[..i][0] == s[0];
      assert s[1..][..i - 1] == s[..i][1..];
      IndexIsLeast(s[1..], c, i - 1);
    }
  }

  lemma {:induction false} SplitConcat<T>(a: seq<T>, b: seq<T>, c: T)
    ensures Split(a + [c] + b, c) == Split(a, c) + Split(b, c)
    decreases |a|
  {
    hide IndexOf;
    var s, i := a + [c] + b, IndexOf(a, c);
    assert s[..i] == a[..i] && s[i] == c;
    IndexIsLeast(s, c, i);
    if i == |a| {
      assert s[..i] == a && s[i + 1..] == b;
    } else {
      var rest := a[i + 1..];
      assert s[i + 1..] == rest + [c] + b;
      SplitConcat(rest, b, c);
      AppendAssoc([a[..i]], Split(rest, c), Split(b, c));
    }
  }

  /** A text without the separator is one part. */
  lemma SinglePart<T>(p: seq<T>, c: T)
    requires c !in p
    ensures Split(p, c) == [p]
  {}

  lemma {:induction false} SplitJoin<T>(parts: seq<seq<T>>, c: T)
    requires |parts| >= 1 && forall p :: p in parts ==> c !in p
    ensures Split(Join(parts, c), c) == parts
    decreases |parts|
  {
    SinglePart(parts[0], c);
    if |parts| > 1 {
      SplitJoin(parts[1..], c);
      SplitConcat(parts[0], Join(parts[1..], c), c);
      assert parts == [parts[0]] + parts[1..];
    }
  }

  /** The codes are those of the characters of `text`. */
  ghost predicate Spells(codes: seq<int>, text: string) {
    |codes| == |text| && forall i :: 0 <= i < |text| ==> codes[i] == text[i] as int
  }
}
