/**
 * UTF-8 (section 3 of RFC 3629) as the C runtime uses it (micai/src/cgen.rs): what the bytes of a
 * string are, where its characters start, and why looking at bytes gives the answers about characters.
 * Masks and shifts of single bytes are written as division and remainder.
 */
module Utf8 {

  type Byte = b: int | 0 <= b < 256

  /** A Unicode scalar value. */
  type Point = c: int | 0 <= c < 0xD800 || 0xE000 <= c < 0x11_0000

  function Width(c: Point): (n: nat)
    ensures 1 <= n <= 4
  {
    if c < 0x80 then 1 else if c < 0x800 then 2 else if c < 0x1_0000 then 3 else 4
  }

  function Encode1(c: Point): (r: seq<Byte>)
    ensures |r| == Width(c)
  {
    if c < 0x80 then [c]
    else if c < 0x800 then [0xC0 + c / 64, 0x80 + c % 64]
    else if c < 0x1_0000 then [0xE0 + c / 4096, 0x80 + c / 64 % 64, 0x80 + c % 64]
    else [0xF0 + c / 0x4_0000, 0x80 + c / 4096 % 64, 0x80 + c / 64 % 64, 0x80 + c % 64]
  }

  function Encode(cs: seq<Point>): seq<Byte> {
    if cs == [] then [] else Encode1(cs[0]) + Encode(cs[1..])
  }

  /** A byte that continues a character. */
  predicate Cont(b: Byte) {
    0x80 <= b < 0xC0
  }

  /** The number of characters that start in `p`. */
  function Leads(p: seq<Byte>): nat {
    if p == [] then 0 else Leads(p[..|p| - 1]) + if Cont(p[|p| - 1]) then 0 else 1
  }

  /** The byte at which character `k` starts. */
  function Pos(cs: seq<Point>, k: nat): nat
    requires k <= |cs|
  {
    if k == 0 then 0 else Width(cs[0]) + Pos(cs[1..], k - 1)
  }

  // ------------------------------------------------------------------ one character

  /** The width of a character, from its first byte. */
  function WidthOf(b: Byte): nat {
    if b < 0x80 then 1 else if 0xC0 <= b < 0xE0 then 2 else if 0xE0 <= b < 0xF0 then 3 else 4
  }

  /** The bits of the first byte that belong to the character. */
  function FirstBits(b: Byte): nat {
    if b < 0x80 then b else if 0xC0 <= b < 0xE0 then b % 32 else if 0xE0 <= b < 0xF0 then b % 16 else b % 8
  }

  /** Takes in the six low bits of each byte. */
  function Fold(v: nat, p: seq<Byte>): nat
    decreases |p|
  {
    if p == [] then v else Fold(v * 64 + p[0] % 64, p[1..])
  }

  lemma FirstByte(c: Point)
    ensures !Cont(Encode1(c)[0]) && WidthOf(Encode1(c)[0]) == Width(c)
    ensures forall j :: 0 < j < Width(c) ==> Cont(Encode1(c)[j])
  {
  }

  /** The bits of `c`, in sixes behind the mark of the first byte. */
  ghost predicate Spread(e: seq<int>, c: int) {
    if |e| == 1 then 0 <= e[0] <= 0x7F && c == e[0]
    else if |e| == 2 then
      0xC2 <= e[0] <= 0xDF && 0x80 <= e[1] <= 0xBF && c == (e[0] - 0xC0) * 0x40 + (e[1] - 0x80)
    else if |e| == 3 then
      0xE0 <= e[0] <= 0xEF && 0x80 <= e[1] <= 0xBF && 0x80 <= e[2] <= 0xBF && (e[0] == 0xE0 ==> e[1] >= 0xA0) && (e[0] == 0xED ==> e[1] <= 0x9F) &&
      c == (e[0] - 0xE0) * 0x1000 + (e[1] - 0x80) * 0x40 + (e[2] - 0x80)
    else
      |e| == 4 && 0xF0 <= e[0] <= 0xF4 && 0x80 <= e[1] <= 0xBF && 0x80 <= e[2] <= 0xBF && 0x80 <= e[3] <= 0xBF &&
      (e[0] == 0xF0 ==> e[1] >= 0x90) && (e[0] == 0xF4 ==> e[1] <= 0x8F) &&
      c == (e[0] - 0xF0) * 0x4_0000 + (e[1] - 0x80) * 0x1000 + (e[2] - 0x80) * 0x40 + (e[3] - 0x80)
  }

  /** Every character is encoded by the table of section 4 of RFC 3629. */
  lemma EncodedByTable(c: Point)
    ensures Spread(Encode1(c), c)
  {
    SixBits(c);
    SixBits(c / 64);
  }

  lemma SixBits(v: nat)
    ensures v == v / 64 * 64 + v % 64 && (0x80 + v % 64) % 64 == v % 64
    ensures v / 4096 == v / 64 / 64 && v / 0x4_0000 == v / 64 / 64 / 64
  {
  }

  lemma Decode4(c: Point)
    requires c >= 0x1_0000
    ensures Fold(FirstBits(Encode1(c)[0]), Encode1(c)[1..]) == c
  {
    var e := Encode1(c);
    var q := c / 64;
    SixBits(c);
    SixBits(q);
    SixBits(q / 64);
    assert FirstBits(e[0]) == q / 64 / 64;
    assert e[1..] == [e[1], e[2], e[3]];
    Fold3(q / 64 / 64, e[1], e[2], e[3]);
  }

  /** Decoding undoes encoding. */
  lemma Decode1(c: Point)
    ensures Fold(FirstBits(Encode1(c)[0]), Encode1(c)[1..]) == c
  {
    var e := Encode1(c);
    SixBits(c);
    if c < 0x80 {
    } else if c < 0x800 {
      assert e[1..] == [e[1]];
      Fold1(c / 64, e[1]);
    } else if c < 0x1_0000 {
      Decode3(c);
    } else {
      Decode4(c);
    }
  }

  lemma Decode3(c: Point)
    requires 0x800 <= c < 0x1_0000
    ensures Fold(FirstBits(Encode1(c)[0]), Encode1(c)[1..]) == c
  {
    var e := Encode1(c);
    SixBits(c);
    SixBits(c / 64);
    assert FirstBits(e[0]) == c / 64 / 64;
    assert e[1..] == [e[1], e[2]];
    Fold2(c / 64 / 64, e[1], e[2]);
  }

  lemma Fold1(v: nat, a: Byte)
    ensures Fold(v, [a]) == v * 64 + a % 64
  {
    assert [a][1..] == [];
  }

  lemma Fold2(v: nat, a: Byte, b: Byte)
    ensures Fold(v, [a, b]) == (v * 64 + a % 64) * 64 + b % 64
  {
    assert [a, b][1..] == [b];
    Fold1(v * 64 + a % 64, b);
  }

  lemma Fold3(v: nat, a: Byte, b: Byte, c: Byte)
    ensures Fold(v, [a, b, c]) == ((v * 64 + a % 64) * 64 + b % 64) * 64 + c % 64
  {
    assert [a, b, c][1..] == [b, c];
    Fold2(v * 64 + a % 64, b, c);
  }

  /** No character's bytes are a prefix of another's. */
  lemma PrefixFree(c: Point, d: Point, x: seq<Byte>, y: seq<Byte>)
    requires Encode1(c) + x <= Encode1(d) + y || Encode1(d) + y <= Encode1(c) + x
    ensures c == d
  {
    var e, f := Encode1(c), Encode1(d);
    var a, b := e + x, f + y;
    assert a[0] == e[0] && b[0] == f[0];
    FirstByte(c);
    FirstByte(d);
    assert e == f by {
      forall j | 0 <= j < Width(c) ensures e[j] == f[j] {
        assert a[j] == e[j] && b[j] == f[j];
      }
    }
    Decode1(c);
    Decode1(d);
  }

  // ------------------------------------------------------------------ whole strings

  lemma {:induction false} LeadsJoin(a: seq<Byte>, b: seq<Byte>)
    ensures Leads(a + b) == Leads(a) + Leads(b)
    decreases |b|
  {
    if b == [] {
      assert a + b == a;
    } else {
      LeadsJoin(a, b[..|b| - 1]);
      assert (a + b)[..|a + b| - 1] == a + b[..|b| - 1];
    }
  }

  lemma {:induction false} NoLeads(p: seq<Byte>)
    requires forall j :: 0 <= j < |p| ==> Cont(p[j])
    ensures Leads(p) == 0
  {
    if p != [] {
      NoLeads(p[..|p| - 1]);
    }
  }

  lemma LeadsOf1(c: Point)
    ensures Leads(Encode1(c)) == 1
  {
    var e := Encode1(c);
    FirstByte(c);
    NoLeads(e[1..]);
    assert Leads([e[0]]) == 1 by { assert [e[0]][..0] == []; }
    LeadsJoin([e[0]], e[1..]);
    assert e == [e[0]] + e[1..];
  }

  /** Counting the bytes that start a character counts the characters. */
  lemma {:induction false} LeadsOfAll(cs: seq<Point>)
    ensures Leads(Encode(cs)) == |cs|
  {
    if cs != [] {
      LeadsOf1(cs[0]);
      LeadsOfAll(cs[1..]);
      LeadsJoin(Encode1(cs[0]), Encode(cs[1..]));
    }
  }

  lemma {:induction false} EncodeJoin(a: seq<Point>, b: seq<Point>)
    ensures Encode(a + b) == Encode(a) + Encode(b)
    decreases |a|
  {
    if a == [] {
      assert a + b == b;
    } else {
      EncodeJoin(a[1..], b);
      assert (a + b)[1..] == a[1..] + b;
      assert Encode1(a[0]) + (Encode(a[1..]) + Encode(b)) == Encode(a) + Encode(b);
    }
  }

  lemma EncodeOne(c: Point)
    ensures Encode([c]) == Encode1(c)
  {
    assert [c][1..] == [];
    assert Encode1(c) + [] == Encode1(c);
  }

  lemma {:induction false} PosIsLength(cs: seq<Point>, k: nat)
    requires k <= |cs|
    ensures Pos(cs, k) == |Encode(cs[..k])|
    decreases k
  {
    if k > 0 {
      PosIsLength(cs[1..], k - 1);
      assert cs[..k][1..] == cs[1..][..k - 1];
    }
  }

  /** The bytes before and after the start of a character. */
  lemma CutAt(cs: seq<Point>, k: nat)
    requires k <= |cs|
    ensures Pos(cs, k) <= |Encode(cs)|
    ensures Encode(cs)[..Pos(cs, k)] == Encode(cs[..k])
    ensures Encode(cs)[Pos(cs, k)..] == Encode(cs[k..])
    ensures Leads(Encode(cs)[..Pos(cs, k)]) == k
  {
    PosIsLength(cs, k);
    EncodeSplit(cs, k);
    LeadsOfAll(cs[..k]);
    Halves(Encode(cs), Encode(cs[..k]), Encode(cs[k..]));
  }

  lemma EncodeSplit(cs: seq<Point>, k: nat)
    requires k <= |cs|
    ensures Encode(cs) == Encode(cs[..k]) + Encode(cs[k..])
  {
    SplitIs(cs, k);
    JoinAs(cs, cs[..k], cs[k..]);
  }

  lemma SplitIs<T>(s: seq<T>, k: nat)
    requires k <= |s|
    ensures s == s[..k] + s[k..]
  {
  }

  lemma JoinAs(cs: seq<Point>, a: seq<Point>, b: seq<Point>)
    requires cs == a + b
    ensures Encode(cs) == Encode(a) + Encode(b)
  {
    EncodeJoin(a, b);
  }

  lemma Halves(e: seq<Byte>, a: seq<Byte>, b: seq<Byte>)
    requires e == a + b
    ensures |a| <= |e| && e[..|a|] == a && e[|a|..] == b
  {
  }

  lemma Between(cs: seq<Point>, a: nat, b: nat)
    requires a <= b <= |cs|
    ensures Pos(cs, a) <= Pos(cs, b) <= |Encode(cs)|
    ensures Encode(cs)[Pos(cs, a)..Pos(cs, b)] == Encode(cs[a..b])
  {
    CutAt(cs, b);
    CutAt(cs[..b], a);
    PosIsLength(cs, a);
    PosIsLength(cs[..b], a);
    assert cs[..b][..a] == cs[..a];
    assert cs[..b][a..] == cs[a..b];
    assert Encode(cs)[Pos(cs, a)..Pos(cs, b)] == Encode(cs)[..Pos(cs, b)][Pos(cs, a)..];
  }

  /** A place where the next byte, if there is one, starts a character. */
  predicate Boundary(s: seq<Byte>, i: nat) {
    i == |s| || (i < |s| && !Cont(s[i]))
  }

  /** Every boundary is the start of the character that its count of characters says. */
  lemma {:induction false} BoundaryIsPos(cs: seq<Point>, i: nat)
    requires Boundary(Encode(cs), i)
    ensures Leads(Encode(cs)[..i]) <= |cs| && i == Pos(cs, Leads(Encode(cs)[..i]))
    decreases |cs|
  {
    var s := Encode(cs);
    if i == 0 {
    } else if cs != [] {
      var w := Width(cs[0]);
      FirstByte(cs[0]);
      var rest := Encode(cs[1..]);
      assert i >= w;
      assert i - w < |rest| ==> s[i] == rest[i - w];
      BoundaryIsPos(cs[1..], i - w);
      assert s[..i] == Encode1(cs[0]) + rest[..i - w];
      LeadsJoin(Encode1(cs[0]), rest[..i - w]);
      LeadsOf1(cs[0]);
    }
  }

  lemma PosIsBoundary(cs: seq<Point>, k: nat)
    requires k <= |cs|
    ensures Boundary(Encode(cs), Pos(cs, k))
    ensures Pos(cs, k) == |Encode(cs)| <==> k == |cs|
  {
    CutAt(cs, k);
    var rest := Encode(cs[k..]);
    if k < |cs| {
      FirstByte(cs[k]);
      assert rest[0] == Encode1(cs[k])[0];
      assert Encode(cs)[Pos(cs, k)] == Encode(cs)[Pos(cs, k)..][0];
    }
  }

  // ------------------------------------------------------------------ matches

  ghost predicate MatchAt<T>(s: seq<T>, i: nat, t: seq<T>) {
    i + |t| <= |s| && s[i..i + |t|] == t
  }

  lemma {:induction false} PrefixDecodes(cs: seq<Point>, ds: seq<Point>)
    requires Encode(ds) <= Encode(cs)
    ensures ds <= cs
    decreases |ds|
  {
    if ds != [] {
      var e := Encode1(ds[0]);
      if cs == [] {
        assert false;
      } else {
        PrefixFree(ds[0], cs[0], Encode(ds[1..]), Encode(cs[1..]));
        assert Encode(ds)[|e|..] == Encode(ds[1..]) && Encode(cs)[|e|..] == Encode(cs[1..]);
        assert Encode(ds[1..]) <= Encode(cs[1..]);
        PrefixDecodes(cs[1..], ds[1..]);
        assert ds == [ds[0]] + ds[1..] && cs == [cs[0]] + cs[1..];
      }
    }
  }

  /** Texts are equal exactly when their bytes are. */
  lemma EncodeInjective(cs: seq<Point>, ds: seq<Point>)
    ensures Encode(cs) == Encode(ds) <==> cs == ds
  {
    if Encode(cs) == Encode(ds) {
      PrefixDecodes(cs, ds);
      PrefixDecodes(ds, cs);
    }
  }

  lemma MatchStartsHere(cs: seq<Point>, ds: seq<Point>, i: nat)
    requires ds != [] && MatchAt(Encode(cs), i, Encode(ds))
    ensures Boundary(Encode(cs), i)
  {
    var s, t := Encode(cs), Encode(ds);
    FirstByte(ds[0]);
    assert t[0] == Encode1(ds[0])[0];
    assert s[i] == s[i..i + |t|][0];
  }

  lemma MatchIsPrefix<T>(s: seq<T>, i: nat, t: seq<T>)
    requires i <= |s|
    ensures MatchAt(s, i, t) <==> t <= s[i..]
  {
    if i + |t| <= |s| {
      assert s[i..][..|t|] == s[i..i + |t|];
    }
  }

  /** A match of bytes falls on a character, and is a match of characters there; and the reverse. */
  lemma ByteMatch(cs: seq<Point>, ds: seq<Point>, i: nat)
    requires ds != [] && MatchAt(Encode(cs), i, Encode(ds))
    ensures var k := Leads(Encode(cs)[..i]); k <= |cs| && i == Pos(cs, k) && MatchAt(cs, k, ds)
  {
    MatchStartsHere(cs, ds, i);
    BoundaryIsPos(cs, i);
    MatchOfRest(cs, ds, i, Leads(Encode(cs)[..i]));
  }

  lemma MatchOfRest(cs: seq<Point>, ds: seq<Point>, i: nat, k: nat)
    requires k <= |cs| && i == Pos(cs, k) && MatchAt(Encode(cs), i, Encode(ds))
    ensures MatchAt(cs, k, ds)
  {
    CutAt(cs, k);
    MatchIsPrefix(Encode(cs), i, Encode(ds));
    PrefixDecodes(cs[k..], ds);
    MatchIsPrefix(cs, k, ds);
  }

  lemma CharMatch(cs: seq<Point>, ds: seq<Point>, k: nat)
    requires MatchAt(cs, k, ds)
    ensures MatchAt(Encode(cs), Pos(cs, k), Encode(ds))
    ensures Pos(cs, k) + |Encode(ds)| == Pos(cs, k + |ds|)
  {
    Between(cs, k, k + |ds|);
  }

  lemma {:induction false} PosGrows(cs: seq<Point>, a: nat, b: nat)
    requires a < b <= |cs|
    ensures Pos(cs, a) < Pos(cs, b)
    decreases a
  {
    if a > 0 {
      PosGrows(cs[1..], a - 1, b - 1);
    }
  }
}
