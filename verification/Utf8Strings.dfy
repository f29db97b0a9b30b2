/**
 * String operations of the C runtime, which work on bytes (micai/src/cgen.rs), and what they mean in
 * characters, which is how the interpreter computes them (micai/src/interp.rs). The ghost parameters
 * name the characters that the bytes encode.
 */
module Utf8Strings {
  import opened Utf8

  datatype Option<T> = None | Some(value: T)

  /** Counts the characters that start in the first `bytes` bytes. */
  method Utf8Len(p: seq<Byte>, bytes: nat) returns (n: nat)
    requires bytes <= |p|
    ensures n == Leads(p[..bytes])
  {
    n := 0;
    for i := 0 to bytes
      invariant n == Leads(p[..i])
    {
      assert p[..i + 1][..i] == p[..i];
      if !Cont(p[i]) {
        n := n + 1;
      }
    }
  }

  /** The place of character `at`: the first boundary with `at` characters before it, or the end. */
  method CharToByte(s: seq<Byte>, at: nat, ghost cs: seq<Point>) returns (i: nat)
    requires s == Encode(cs) && at <= |cs|
    ensures i == Pos(cs, at)
  {
    PosIsBoundary(cs, at);
    CutAt(cs, at);
    var n := 0;
    i := 0;
    while i < |s|
      invariant 0 <= i <= Pos(cs, at) && n == Leads(s[..i])
    {
      LeadsNext(s, i);
      if !Cont(s[i]) {
        if n == at {
          BoundaryIsPos(cs, i);
          return;
        }
        n := n + 1;
      }
      i := i + 1;
    }
  }

  lemma LeadsNext(s: seq<Byte>, i: nat)
    requires i < |s|
    ensures Leads(s[..i + 1]) == Leads(s[..i]) + if Cont(s[i]) then 0 else 1
  {
    assert s[..i + 1][..i] == s[..i];
  }

  /** `r` is the first place where `ds` occurs in `cs`, or -1. */
  ghost predicate IsFirst<T>(cs: seq<T>, ds: seq<T>, r: int) {
    if r == -1 then forall k :: 0 <= k <= |cs| ==> !MatchAt(cs, k, ds)
    else 0 <= r <= |cs| && MatchAt(cs, r, ds) && forall k :: 0 <= k < r ==> !MatchAt(cs, k, ds)
  }

  lemma FirstByteIsFirstChar(cs: seq<Point>, ds: seq<Point>, i: nat)
    requires ds != [] && i <= |Encode(cs)| && MatchAt(Encode(cs), i, Encode(ds))
    requires forall j :: 0 <= j < i ==> !MatchAt(Encode(cs), j, Encode(ds))
    ensures IsFirst(cs, ds, Leads(Encode(cs)[..i]))
  {
    ByteMatch(cs, ds, i);
    var r := Leads(Encode(cs)[..i]);
    forall k | 0 <= k < r ensures !MatchAt(cs, k, ds) {
      if MatchAt(cs, k, ds) {
        CharMatch(cs, ds, k);
        PosGrows(cs, k, r);
      }
    }
  }

  lemma NoByteNoChar(cs: seq<Point>, ds: seq<Point>)
    requires forall j :: 0 <= j <= |Encode(cs)| ==> !MatchAt(Encode(cs), j, Encode(ds))
    ensures IsFirst(cs, ds, -1)
  {
    forall k | 0 <= k <= |cs| ensures !MatchAt(cs, k, ds) {
      if MatchAt(cs, k, ds) {
        CutAt(cs, k);
        CharMatch(cs, ds, k);
      }
    }
  }

  /** Comparing bytes finds the first match of characters, and counts characters to say where. */
  method StrFind(s: seq<Byte>, sub: seq<Byte>, ghost cs: seq<Point>, ghost ds: seq<Point>) returns (r: int)
    requires s == Encode(cs) && sub == Encode(ds)
    ensures IsFirst(cs, ds, r)
  {
    if |sub| == 0 {
      assert ds == [] by { PrefixDecodes([], ds); }
      assert MatchAt(cs, 0, ds);
      return 0;
    }
    var i := 0;
    while i + |sub| <= |s|
      invariant forall j :: 0 <= j < i ==> !MatchAt(s, j, sub)
    {
      if s[i..i + |sub|] == sub {
        FirstByteIsFirstChar(cs, ds, i);
        r := Utf8Len(s, i);
        return;
      }
      i := i + 1;
    }
    NoByteNoChar(cs, ds);
    return -1;
  }

  /** How the interpreter clamps the bounds of a slice. */
  function SliceBounds(a: int, b: int, n: nat): (r: (nat, nat))
    ensures r.0 <= r.1 <= n
  {
    var lo := if a < 0 then 0 else if a > n then n else a;
    var hi := if b < lo then lo else if b > n then n else b;
    (lo, hi)
  }

  ghost predicate InRange(from: int, to: int, k: int) {
    from <= k && k < to
  }

  /** A slice of characters: just those whose index is in the range asked for. It never cuts one. */
  method StrSlice(s: seq<Byte>, from: int, to: int, ghost cs: seq<Point>) returns (t: seq<Byte>)
    requires s == Encode(cs)
    ensures var (lo, hi) := SliceBounds(from, to, |cs|);
      t == Encode(cs[lo..hi]) && forall k :: 0 <= k < |cs| ==> (InRange(lo, hi, k) <==> InRange(from, to, k))
  {
    var a, b := from, to;
    LeadsOfAll(cs);
    assert s[..|s|] == s;
    var n := Utf8Len(s, |s|);
    if a < 0 { a := 0; }
    if a > n { a := n; }
    if b < a { b := a; }
    if b > n { b := n; }
    var ba := CharToByte(s, a, cs);
    var bb := CharToByte(s, b, cs);
    Between(cs, a, b);
    t := s[ba..bb];
  }

  /** The character at an index, or nothing when the index is out of range. */
  method StrIndex(s: seq<Byte>, i: int, ghost cs: seq<Point>) returns (t: Option<seq<Byte>>)
    requires s == Encode(cs)
    ensures t == if 0 <= i < |cs| then Some(Encode([cs[i]])) else None
  {
    LeadsOfAll(cs);
    assert s[..|s|] == s;
    var n := Utf8Len(s, |s|);
    if i < 0 || i >= n {
      return None;
    }
    var a := CharToByte(s, i, cs);
    var z := CharToByte(s, i + 1, cs);
    Between(cs, i, i + 1);
    assert cs[i..i + 1] == [cs[i]];
    t := Some(s[a..z]);
  }

  /** The number of bytes of the character that starts at byte `i`. */
  method Utf8Step(s: seq<Byte>, i: nat, ghost cs: seq<Point>, ghost k: nat) returns (n: nat)
    requires s == Encode(cs) && k < |cs| && i == Pos(cs, k)
    ensures i + n == Pos(cs, k + 1)
  {
    CharLies(cs, k);
    FirstByte(cs[k]);
    PosIsBoundary(cs, k + 1);
    n := 1;
    ContinuesAt(cs, k, n);
    while i + n < |s| && Cont(s[i + n])
      invariant 1 <= n <= Width(cs[k])
      invariant n < Width(cs[k]) ==> i + n < |s| && Cont(s[i + n])
      decreases |s| - (i + n)
    {
      assert n < Width(cs[k]);
      n := n + 1;
      ContinuesAt(cs, k, n);
    }
  }

  lemma ContinuesAt(cs: seq<Point>, k: nat, n: nat)
    requires k < |cs| && 0 < n
    ensures n < Width(cs[k]) ==> Pos(cs, k) + n < |Encode(cs)| && Cont(Encode(cs)[Pos(cs, k) + n])
  {
    CharLies(cs, k);
    FirstByte(cs[k]);
    if n < Width(cs[k]) { assert Encode(cs)[Pos(cs, k) + n] == Encode1(cs[k])[n]; }
  }

  /** The bytes of character `k`. */
  lemma CharLies(cs: seq<Point>, k: nat)
    requires k < |cs|
    ensures Pos(cs, k + 1) == Pos(cs, k) + Width(cs[k]) <= |Encode(cs)|
    ensures Encode(cs)[Pos(cs, k)..Pos(cs, k + 1)] == Encode1(cs[k])
    ensures forall j :: 0 <= j < Width(cs[k]) ==> Encode(cs)[Pos(cs, k) + j] == Encode1(cs[k])[j]
  {
    Between(cs, k, k + 1);
    assert cs[k..k + 1] == [cs[k]];
    EncodeOne(cs[k]);
    var s, a, b := Encode(cs), Pos(cs, k), Pos(cs, k + 1);
    forall j | 0 <= j < Width(cs[k]) ensures s[a + j] == Encode1(cs[k])[j] {
      assert s[a + j] == s[a..b][j];
    }
  }

  // ------------------------------------------------------------------ code points and back

  lemma FoldStep(v: nat, e: seq<Byte>, j: nat)
    requires j < |e|
    ensures Fold(v, e[j..]) == Fold(v * 64 + e[j] % 64, e[j + 1..])
  {
    assert e[j..][1..] == e[j + 1..];
  }

  /** The character that starts at byte `i`, and how many bytes its first byte promises. */
  method DecodeOne(s: seq<Byte>, i: nat, ghost cs: seq<Point>, ghost k: nat) returns (cp: nat, width: nat)
    requires s == Encode(cs) && k < |cs| && i == Pos(cs, k)
    ensures cp == cs[k] && i + width == Pos(cs, k + 1)
  {
    CharLies(cs, k);
    FirstByte(cs[k]);
    ghost var e := Encode1(cs[k]);
    assert forall n :: 0 <= n < |e| ==> s[i + n] == e[n];
    var c := s[i];
    assert c == s[i + 0] == e[0];
    if c < 0x80 {
      cp, width := c, 1;
    } else if 0xC0 <= c < 0xE0 {
      cp, width := c % 32, 2;
    } else if 0xE0 <= c < 0xF0 {
      cp, width := c % 16, 3;
    } else {
      cp, width := c % 8, 4;
    }
    Decode1(cs[k]);
    cp := AddBits(s, i, cp, width, e);
  }

  /** Adds the bits of the bytes that follow the first one. */
  method AddBits(s: seq<Byte>, i: nat, first: nat, width: nat, ghost e: seq<Byte>) returns (cp: nat)
    requires 1 <= width == |e| && i + width <= |s| && forall n :: 0 <= n < |e| ==> s[i + n] == e[n]
    ensures cp == Fold(first, e[1..])
  {
    cp := first;
    var j := 1;
    while j < width && i + j < |s|
      invariant 1 <= j <= width
      invariant Fold(cp, e[j..]) == Fold(first, e[1..])
    {
      FoldStep(cp, e, j);
      cp := cp * 64 + s[i + j] % 64;
      j := j + 1;
    }
  }

  /** Decodes a string into a buffer with room for exactly its characters. */
  method Utf8Decode(s: seq<Byte>, ghost cs: seq<Point>) returns (buf: array<nat>, k: nat)
    requires s == Encode(cs)
    ensures fresh(buf) && k == |cs| <= buf.Length
    ensures forall j :: 0 <= j < k ==> buf[j] == cs[j]
  {
    LeadsOfAll(cs);
    assert s[..|s|] == s;
    var n := Utf8Len(s, |s|);
    buf := new nat[if n > 0 then n else 1];
    k := 0;
    var i := 0;
    while i < |s|
      invariant 0 <= k <= |cs| && i == Pos(cs, k) <= |s|
      invariant forall j :: 0 <= j < k ==> buf[j] == cs[j]
      decreases |s| - i
    {
      PosIsBoundary(cs, k);
      var cp, width := DecodeOne(s, i, cs, k);
      PosGrows(cs, k, k + 1);
      CutAt(cs, k + 1);
      buf[k] := cp;
      k := k + 1;
      i := i + width;
    }
    PosIsBoundary(cs, k);
  }

  /** Same bytes, same text. */
  method StrEq(a: seq<Byte>, b: seq<Byte>, ghost cs: seq<Point>, ghost ds: seq<Point>) returns (r: bool)
    requires a == Encode(cs) && b == Encode(ds)
    ensures r <==> cs == ds
  {
    EncodeInjective(cs, ds);
    r := |a| == |b| && a == b;
  }

  method PutPoint(buf: array<Byte>, k: nat, c: Point) returns (end: nat)
    requires k + 4 <= buf.Length
    modifies buf
    ensures end == k + Width(c) && buf[..end] == old(buf[..k]) + Encode1(c)
  {
    if c < 0x80 {
      buf[k] := c;
      end := k + 1;
    } else if c < 0x800 {
      buf[k] := 0xC0 + c / 64;
      buf[k + 1] := 0x80 + c % 64;
      end := k + 2;
    } else if c < 0x1_0000 {
      buf[k] := 0xE0 + c / 4096;
      buf[k + 1] := 0x80 + c / 64 % 64;
      buf[k + 2] := 0x80 + c % 64;
      end := k + 3;
    } else {
      buf[k] := 0xF0 + c / 0x4_0000;
      buf[k + 1] := 0x80 + c / 4096 % 64;
      buf[k + 2] := 0x80 + c / 64 % 64;
      buf[k + 3] := 0x80 + c % 64;
      end := k + 4;
    }
  }

  /** Encodes characters `a` to `b` into a buffer that always has room. */
  method Utf8Encode(cp: seq<Point>, a: nat, to: int) returns (t: seq<Byte>)
    requires a <= |cp| && to <= |cp|
    ensures t == Encode(cp[a..if to < a then a else to])
  {
    var b := to;
    if b < a { b := a; }
    var buf := new Byte[(b - a) * 4 + 1];
    var k := 0;
    for i := a to b
      invariant 0 <= k <= (i - a) * 4 && buf[..k] == Encode(cp[a..i])
    {
      EncodeJoin(cp[a..i], [cp[i]]);
      EncodeOne(cp[i]);
      assert cp[a..i] + [cp[i]] == cp[a..i + 1];
      k := PutPoint(buf, k, cp[i]);
    }
    buf[k] := 0;
    t := buf[..k];
  }
}
