/**
 * Splitting, joining and replacing (micai/src/cgen.rs). The specification works for sequences of
 * anything, so it can be read over bytes, as the C runtime works, and over characters, as it is meant.
 */
module StringSplit {
  import opened Texts
  import opened Utf8

  // ------------------------------------------------------------------ what splitting means

  lemma SameIs<T>(s: seq<T>, i: nat, t: seq<T>)
    requires i + |t| <= |s|
    ensures Same(s, i, t, 0) <==> MatchAt(s, i, t)
  {
    SameIsSlice(s, i, t, 0);
    assert t[0..] == t;
  }

  /** The first match of `t` at or after `i`, or -1. */
  function First<T(==)>(s: seq<T>, t: seq<T>, i: nat): (r: int)
    ensures r == -1 || (i <= r && r + |t| <= |s|)
    decreases |s| - i
  {
    if i + |t| > |s| then -1 else if Same(s, i, t, 0) then i else First(s, t, i + 1)
  }

  /** The text from `start` on, cut at every match, going on after each. */
  function Cut<T(==)>(s: seq<T>, sep: seq<T>, start: nat): (r: seq<seq<T>>)
    requires sep != [] && start <= |s|
    ensures r != []
    decreases |s| - start
  {
    var k := First(s, sep, start);
    if k == -1 then [s[start..]] else [s[start..k]] + Cut(s, sep, k + |sep|)
  }

  function Pieces<T(==)>(s: seq<T>, sep: seq<T>): (r: seq<seq<T>>)
    requires sep != []
  {
    Cut(s, sep, 0)
  }

  function Join<T>(parts: seq<seq<T>>, sep: seq<T>): seq<T> {
    if parts == [] then []
    else if |parts| == 1 then parts[0]
    else parts[0] + sep + Join(parts[1..], sep)
  }

  ghost predicate Contains<T>(s: seq<T>, t: seq<T>) {
    exists k: nat :: MatchAt(s, k, t)
  }

  lemma {:induction false} FirstIsFirst<T>(s: seq<T>, t: seq<T>, i: nat)
    ensures First(s, t, i) != -1 ==> MatchAt(s, First(s, t, i), t)
    ensures forall k :: i <= k && (First(s, t, i) == -1 || k < First(s, t, i)) ==> !MatchAt(s, k, t)
    decreases |s| - i
  {
    if i + |t| <= |s| {
      SameIs(s, i, t);
      if !Same(s, i, t, 0) { FirstIsFirst(s, t, i + 1); }
    }
  }

  // ------------------------------------------------------------------ laws

  lemma JoinCons<T>(x: seq<T>, ps: seq<seq<T>>, sep: seq<T>)
    requires ps != []
    ensures Join([x] + ps, sep) == x + sep + Join(ps, sep)
  {
    assert ([x] + ps)[1..] == ps;
  }

  lemma {:induction false} JoinCut<T>(s: seq<T>, sep: seq<T>, start: nat)
    requires sep != [] && start <= |s|
    ensures Join(Cut(s, sep, start), sep) == s[start..]
    decreases |s| - start
  {
    var k := First(s, sep, start);
    if k != -1 {
      JoinCut(s, sep, k + |sep|);
      JoinCons(s[start..k], Cut(s, sep, k + |sep|), sep);
      FirstIsFirst(s, sep, start);
      Sections(s, start, k, k + |sep|);
    }
  }

  lemma Sections<T>(s: seq<T>, a: nat, b: nat, c: nat)
    requires a <= b <= c <= |s|
    ensures s[a..b] + s[b..c] + s[c..] == s[a..]
  {
  }

  /** Joining the pieces with what they were cut at gives the text back. */
  lemma JoinPieces<T>(s: seq<T>, sep: seq<T>)
    requires sep != []
    ensures Join(Pieces(s, sep), sep) == s
  {
    JoinCut(s, sep, 0);
    assert s[0..] == s;
  }

  lemma InsideSection<T>(s: seq<T>, t: seq<T>, a: nat, b: nat)
    requires a <= b <= |s| && Contains(s[a..b], t)
    ensures exists k: nat :: a <= k && k + |t| <= b && MatchAt(s, k, t)
  {
    var m: nat :| MatchAt(s[a..b], m, t);
    var k := a + m;
    assert k + |t| <= b;
    SliceOfSlice(s, a, b, m, m + |t|);
    assert MatchAt(s, k, t);
  }

  lemma SliceOfSlice<T>(s: seq<T>, a: nat, b: nat, m: nat, n: nat)
    requires a <= b <= |s| && m <= n <= b - a
    ensures s[a..b][m..n] == s[a + m..a + n]
  {
    var r, x, y := s[a..b], s[a..b][m..n], s[a + m..a + n];
    forall j | 0 <= j < |x| ensures x[j] == y[j] {
      assert x[j] == r[m + j] == s[a + (m + j)];
    }
    assert x == y;
  }

  lemma {:induction false} CutIsClean<T>(s: seq<T>, sep: seq<T>, start: nat, j: nat)
    requires sep != [] && start <= |s| && j < |Cut(s, sep, start)|
    ensures !Contains(Cut(s, sep, start)[j], sep)
    decreases |s| - start
  {
    var k := First(s, sep, start);
    if k != -1 && j > 0 {
      CutIsClean(s, sep, k + |sep|, j - 1);
    } else {
      FirstIsFirst(s, sep, start);
      var end := if k == -1 then |s| else k;
      assert Cut(s, sep, start)[j] == s[start..end];
      if Contains(s[start..end], sep) {
        InsideSection(s, sep, start, end);
        assert false;
      }
    }
  }

  /** No piece contains the separator. */
  lemma PiecesAreClean<T>(s: seq<T>, sep: seq<T>, j: nat)
    requires sep != [] && j < |Pieces(s, sep)|
    ensures !Contains(Pieces(s, sep)[j], sep)
  {
    CutIsClean(s, sep, 0, j);
  }

  /** The pieces found by looking from `i` on, when the piece that is open began at `start`. */
  function Scan<T(==)>(s: seq<T>, sep: seq<T>, start: nat, i: nat): (r: seq<seq<T>>)
    requires sep != [] && start <= i <= |s|
    decreases |s| - i
  {
    if i + |sep| > |s| then [s[start..]]
    else if Same(s, i, sep, 0) then [s[start..i]] + Scan(s, sep, i + |sep|, i + |sep|)
    else Scan(s, sep, start, i + 1)
  }

  /** The same, by the first match. */
  function Opened<T(==)>(s: seq<T>, sep: seq<T>, start: nat, i: nat): (r: seq<seq<T>>)
    requires sep != [] && start <= i <= |s|
  {
    var k := First(s, sep, i);
    if k == -1 then [s[start..]] else [s[start..k]] + Cut(s, sep, k + |sep|)
  }

  lemma OpenedHere<T>(s: seq<T>, sep: seq<T>, start: nat, i: nat)
    requires sep != [] && start <= i && i + |sep| <= |s| && Same(s, i, sep, 0)
    ensures Opened(s, sep, start, i) == [s[start..i]] + Cut(s, sep, i + |sep|)
  {
    assert First(s, sep, i) == i;
  }

  lemma OpenedOn<T>(s: seq<T>, sep: seq<T>, start: nat, i: nat)
    requires sep != [] && start <= i && i + |sep| <= |s| && !Same(s, i, sep, 0)
    ensures Opened(s, sep, start, i) == Opened(s, sep, start, i + 1)
  {
    assert First(s, sep, i) == First(s, sep, i + 1);
  }

  lemma {:induction false} ScanIsCut<T>(s: seq<T>, sep: seq<T>, start: nat, i: nat)
    requires sep != [] && start <= i <= |s|
    ensures Scan(s, sep, start, i) == Opened(s, sep, start, i)
    decreases |s| - i
  {
    if i + |sep| > |s| {
      assert First(s, sep, i) == -1;
    } else if Same(s, i, sep, 0) {
      var j := i + |sep|;
      ScanIsCut(s, sep, j, j);
      OpenedIsCut(s, sep, j);
      OpenedHere(s, sep, start, i);
      assert Scan(s, sep, start, i) == [s[start..i]] + Scan(s, sep, j, j);
    } else {
      ScanIsCut(s, sep, start, i + 1);
      OpenedOn(s, sep, start, i);
    }
  }

  lemma OpenedIsCut<T>(s: seq<T>, sep: seq<T>, i: nat)
    requires sep != [] && i <= |s|
    ensures Opened(s, sep, i, i) == Cut(s, sep, i)
  {
  }

  // ------------------------------------------------------------------ splitting and joining

  method Split(s: seq<Byte>, sep: seq<Byte>) returns (out: seq<seq<Byte>>)
    ensures out == if sep == [] then [s] else Pieces(s, sep)
  {
    if |sep| == 0 {
      return [s];
    }
    out := [];
    var start, i := 0, 0;
    ScanIsCut(s, sep, 0, 0);
    OpenedIsCut(s, sep, 0);
    ghost var all := Pieces(s, sep);
    while i + |sep| <= |s|
      invariant 0 <= start <= i <= |s|
      invariant out + Scan(s, sep, start, i) == all
      decreases |s| - i
    {
      SameIs(s, i, sep);
      if s[i..i + |sep|] == sep {
        Append(out, s[start..i], Scan(s, sep, i + |sep|, i + |sep|));
        out := out + [s[start..i]];
        i := i + |sep|;
        start := i;
      } else {
        i := i + 1;
      }
    }
    assert Scan(s, sep, start, i) == [s[start..]];
    out := out + [s[start..]];
  }

  lemma Append<T>(a: seq<T>, x: T, b: seq<T>)
    ensures a + [x] + b == a + ([x] + b)
  {
  }

  /** The bytes of the first `i` parts with separators between them. */
  function JoinedSize(parts: seq<seq<Byte>>, sep: seq<Byte>, i: nat): nat
    requires i <= |parts|
  {
    if i == 0 then 0 else JoinedSize(parts, sep, i - 1) + |parts[i - 1]| + if i > 1 then |sep| else 0
  }

  lemma {:induction false} JoinLast<T>(parts: seq<seq<T>>, sep: seq<T>)
    requires parts != []
    ensures Join(parts, sep) ==
      if |parts| == 1 then parts[0] else Join(parts[..|parts| - 1], sep) + sep + parts[|parts| - 1]
    decreases |parts|
  {
    if |parts| > 1 {
      var rest := parts[1..];
      JoinLast(rest, sep);
      var init := parts[..|parts| - 1];
      assert init[1..] == rest[..|rest| - 1];
      if |parts| == 2 {
        assert init == [parts[0]];
      } else {
        assert parts[0] + sep + (Join(init[1..], sep) + sep + rest[|rest| - 1]) ==
          (parts[0] + sep + Join(init[1..], sep)) + sep + rest[|rest| - 1];
      }
    }
  }

  /** Copies `t` into the buffer at `at`. */
  method Copy(buf: array<Byte>, at: nat, t: seq<Byte>) returns (end: nat)
    requires at + |t| <= buf.Length
    modifies buf
    ensures end == at + |t| && buf[..end] == old(buf[..at]) + t
  {
    for j := 0 to |t|
      invariant buf[..at + j] == old(buf[..at]) + t[..j]
    {
      buf[at + j] := t[j];
      assert buf[..at + j + 1] == buf[..at + j] + [t[j]];
      assert t[..j + 1] == t[..j] + [t[j]];
    }
    assert t[..|t|] == t;
    end := at + |t|;
  }

  /** Measures first, then fills a buffer of exactly that size. */
  method JoinStrings(parts: seq<seq<Byte>>, sep: seq<Byte>) returns (t: seq<Byte>)
    ensures t == Join(parts, sep)
  {
    var total := 0;
    for i := 0 to |parts|
      invariant total == JoinedSize(parts, sep, i)
    {
      total := total + |parts[i]| + if i > 0 then |sep| else 0;
    }
    var buf := new Byte[total];
    var at := 0;
    for i := 0 to |parts|
      invariant 0 <= at == JoinedSize(parts, sep, i) <= total
      invariant buf[..at] == Join(parts[..i], sep)
    {
      SizeGrows(parts, sep, i + 1, |parts|);
      JoinLast(parts[..i + 1], sep);
      assert parts[..i + 1][..i] == parts[..i];
      if i > 0 {
        at := Copy(buf, at, sep);
      }
      at := Copy(buf, at, parts[i]);
    }
    assert parts[..|parts|] == parts;
    assert buf[..total] == buf[..];
    t := buf[..];
  }

  lemma {:induction false} SizeGrows(parts: seq<seq<Byte>>, sep: seq<Byte>, i: nat, j: nat)
    requires i <= j <= |parts|
    ensures JoinedSize(parts, sep, i) <= JoinedSize(parts, sep, j)
    decreases j
  {
    if i < j {
      SizeGrows(parts, sep, i, j - 1);
    }
  }

  // ------------------------------------------------------------------ replacing

  /** The text from `src` on with every match of `a` replaced. */
  function Replaced<T(==)>(s: seq<T>, a: seq<T>, b: seq<T>, src: nat): seq<T>
    requires a != [] && src <= |s|
    decreases |s| - src
  {
    var k := First(s, a, src);
    if k == -1 then s[src..] else s[src..k] + b + Replaced(s, a, b, k + |a|)
  }

  /** How many matches there are from `src` on, going on after each. */
  function Matches<T(==)>(s: seq<T>, a: seq<T>, src: nat): nat
    requires a != [] && src <= |s|
    decreases |s| - src
  {
    var k := First(s, a, src);
    if k == -1 then 0 else 1 + Matches(s, a, k + |a|)
  }

  lemma ReplacedStep<T>(s: seq<T>, a: seq<T>, b: seq<T>, src: nat, k: nat)
    requires a != [] && src <= |s| && First(s, a, src) == k
    ensures Replaced(s, a, b, src) == s[src..k] + b + Replaced(s, a, b, k + |a|)
  {
  }

  /** Replacing is splitting and joining with something else. */
  lemma {:induction false} ReplacedIsJoin<T>(s: seq<T>, a: seq<T>, b: seq<T>, src: nat)
    requires a != [] && src <= |s|
    ensures Replaced(s, a, b, src) == Join(Cut(s, a, src), b)
    decreases |s| - src
  {
    var k := First(s, a, src);
    if k != -1 {
      ReplacedIsJoin(s, a, b, k + |a|);
      JoinCons(s[src..k], Cut(s, a, k + |a|), b);
    }
  }

  lemma OneMore(n: nat, x: int)
    ensures (1 + n) * x == x + n * x
  {
  }

  /** The size that the counting pass works out. */
  lemma {:induction false} ReplacedSize<T>(s: seq<T>, a: seq<T>, b: seq<T>, src: nat)
    requires a != [] && src <= |s|
    ensures |Replaced(s, a, b, src)| == |s| - src + Matches(s, a, src) * (|b| - |a|)
    decreases |s| - src
  {
    var k := First(s, a, src);
    if k != -1 {
      ReplacedSize(s, a, b, k + |a|);
      OneMore(Matches(s, a, k + |a|), |b| - |a|);
      assert Replaced(s, a, b, src) == s[src..k] + b + Replaced(s, a, b, k + |a|);
    }
  }

  method FindFrom(s: seq<Byte>, t: seq<Byte>, from: nat) returns (found: bool, at: nat)
    requires t != []
    ensures found <==> First(s, t, from) != -1
    ensures found ==> at == First(s, t, from)
  {
    var i := from;
    while i + |t| <= |s|
      invariant First(s, t, i) == First(s, t, from)
      decreases |s| - i
    {
      SameIs(s, i, t);
      if s[i..i + |t|] == t {
        return true, i;
      }
      i := i + 1;
    }
    return false, 0;
  }

  method CountMatches(s: seq<Byte>, a: seq<Byte>) returns (count: nat)
    requires a != []
    ensures count == Matches(s, a, 0)
  {
    count := 0;
    var i := 0;
    var found, at := FindFrom(s, a, i);
    while found
      invariant 0 <= i <= |s| && count + Matches(s, a, i) == Matches(s, a, 0)
      invariant found <==> First(s, a, i) != -1
      invariant found ==> at == First(s, a, i)
      decreases |s| - i, found
    {
      count := count + 1;
      i := at + |a|;
      found, at := FindFrom(s, a, i);
    }
  }

  /**
   * The counting pass sizes the buffer; the second pass fills it from end to end and no further.
   */
  method ReplaceAll(s: seq<Byte>, a: seq<Byte>, b: seq<Byte>) returns (t: seq<Byte>)
    ensures t == if a == [] then s else Join(Pieces(s, a), b)
  {
    if |a| == 0 {
      return s;
    }
    var count := CountMatches(s, a);
    ReplacedSize(s, a, b, 0);
    var total := |s| + count * (|b| - |a|);
    var buf := new Byte[total];
    Fill(buf, s, a, b);
    ReplacedIsJoin(s, a, b, 0);
    t := buf[..];
  }

  method Fill(buf: array<Byte>, s: seq<Byte>, a: seq<Byte>, b: seq<Byte>)
    requires a != [] && buf.Length == |Replaced(s, a, b, 0)|
    modifies buf
    ensures buf[..] == Replaced(s, a, b, 0)
  {
    var src, dst := 0, 0;
    var found, at := FindFrom(s, a, src);
    ghost var whole := Replaced(s, a, b, 0);
    assert buf[..0] + whole == whole;
    while found
      invariant 0 <= src <= |s| && 0 <= dst <= buf.Length
      invariant buf[..dst] + Replaced(s, a, b, src) == whole
      invariant found <==> First(s, a, src) != -1
      invariant found ==> at == First(s, a, src)
      decreases |s| - src, found
    {
      ReplacedStep(s, a, b, src, at);
      dst := CopyTwo(buf, dst, s[src..at], b, Replaced(s, a, b, at + |a|), whole);
      src := at + |a|;
      found, at := FindFrom(s, a, src);
    }
    dst := Copy(buf, dst, s[src..]);
    assert buf[..dst] == buf[..];
  }

  /** Copies two pieces of what is left of `whole` to write. */
  method CopyTwo(buf: array<Byte>, at: nat, t: seq<Byte>, u: seq<Byte>, ghost rest: seq<Byte>, ghost whole: seq<Byte>)
    returns (end: nat)
    requires at <= buf.Length == |whole| && buf[..at] + (t + u + rest) == whole
    modifies buf
    ensures at <= end <= buf.Length && buf[..end] + rest == whole
  {
    Regroup(buf[..at], t, u, rest);
    end := Copy(buf, at, t);
    end := Copy(buf, end, u);
  }

  lemma Regroup<T>(p: seq<T>, x: seq<T>, y: seq<T>, z: seq<T>)
    ensures p + (x + y + z) == p + x + y + z
    ensures |p + (x + y + z)| == |p| + |x| + |y| + |z|
  {
  }

  // ------------------------------------------------------------------ bytes and characters

  function EncodeEach(ps: seq<seq<Point>>): seq<seq<Byte>> {
    if ps == [] then [] else [Encode(ps[0])] + EncodeEach(ps[1..])
  }

  /** The first match of bytes from a character on is the first match of characters. */
  lemma FirstOfBytes(cs: seq<Point>, ds: seq<Point>, a: nat)
    requires ds != [] && a <= |cs|
    ensures var k := First(cs, ds, a);
      k <= |cs| && First(Encode(cs), Encode(ds), Pos(cs, a)) == if k == -1 then -1 else Pos(cs, k)
  {
    var s, t := Encode(cs), Encode(ds);
    var k, i := First(cs, ds, a), First(s, t, Pos(cs, a));
    FirstIsFirst(cs, ds, a);
    FirstIsFirst(s, t, Pos(cs, a));
    if k != -1 {
      CharMatch(cs, ds, k);
      PosOrder(cs, a, k);
    }
    if i != -1 {
      ByteMatch(cs, ds, i);
      var r := Leads(s[..i]);
      PosOrder(cs, a, r);
      if k != -1 { PosOrder(cs, k, r); }
    }
  }

  lemma PosOrder(cs: seq<Point>, a: nat, b: nat)
    requires a <= |cs| && b <= |cs|
    ensures a <= b <==> Pos(cs, a) <= Pos(cs, b)
    ensures a == b <==> Pos(cs, a) == Pos(cs, b)
  {
    if a < b { PosGrows(cs, a, b); }
    if b < a { PosGrows(cs, b, a); }
  }

  lemma EncodeNonEmpty(ds: seq<Point>)
    ensures Encode(ds) == [] <==> ds == []
  {
  }

  lemma EncodeEachCons(x: seq<Point>, ps: seq<seq<Point>>)
    ensures EncodeEach([x] + ps) == [Encode(x)] + EncodeEach(ps)
  {
    assert ([x] + ps)[1..] == ps;
  }

  lemma CutMore(s: seq<Byte>, t: seq<Byte>, p: nat, q: nat, e: nat, cs: seq<Point>, ds: seq<Point>, a: nat, k: nat)
    requires t != [] && p <= q && q + |t| == e <= |s| && First(s, t, p) == q
    requires ds != [] && a <= k && k + |ds| <= |cs| && First(cs, ds, a) == k
    requires s[p..q] == Encode(cs[a..k]) && Cut(s, t, e) == EncodeEach(Cut(cs, ds, k + |ds|))
    ensures Cut(s, t, p) == EncodeEach(Cut(cs, ds, a))
  {
    EncodeEachCons(cs[a..k], Cut(cs, ds, k + |ds|));
    CutStep(s, t, p, q);
    CutStep(cs, ds, a, k);
  }

  lemma CutStep<T>(s: seq<T>, t: seq<T>, i: nat, k: nat)
    requires t != [] && i <= k && k + |t| <= |s| && First(s, t, i) == k
    ensures Cut(s, t, i) == [s[i..k]] + Cut(s, t, k + |t|)
  {
  }

  /** Where the next cut is, in characters and in bytes. */
  lemma NextCut(cs: seq<Point>, ds: seq<Point>, a: nat)
    requires ds != [] && a <= |cs| && First(cs, ds, a) != -1
    ensures var k := First(cs, ds, a);
      First(Encode(cs), Encode(ds), Pos(cs, a)) == Pos(cs, k) && Pos(cs, a) <= Pos(cs, k) &&
      Pos(cs, k) + |Encode(ds)| == Pos(cs, k + |ds|) <= |Encode(cs)| &&
      Encode(cs)[Pos(cs, a)..Pos(cs, k)] == Encode(cs[a..k])
  {
    var k := First(cs, ds, a);
    FirstIsFirst(cs, ds, a);
    Between(cs, a, k);
    NeedleEnds(cs, ds, k);
    FirstOfBytes(cs, ds, a);
  }

  lemma NeedleEnds(cs: seq<Point>, ds: seq<Point>, k: nat)
    requires MatchAt(cs, k, ds)
    ensures Pos(cs, k) + |Encode(ds)| == Pos(cs, k + |ds|) <= |Encode(cs)|
  {
    CharMatch(cs, ds, k);
  }

  lemma NoMoreCuts(cs: seq<Point>, ds: seq<Point>, a: nat)
    requires ds != [] && Encode(ds) != [] && a <= |cs| && First(cs, ds, a) == -1 && Pos(cs, a) <= |Encode(cs)|
    ensures Cut(Encode(cs), Encode(ds), Pos(cs, a)) == EncodeEach(Cut(cs, ds, a))
  {
    FirstOfBytes(cs, ds, a);
    CutAt(cs, a);
    EncodeEachCons(cs[a..], []);
    assert [cs[a..]] + [] == [cs[a..]];
  }

  lemma {:induction false} CutOfBytes(cs: seq<Point>, ds: seq<Point>, a: nat)
    requires ds != [] && a <= |cs|
    ensures Encode(ds) != [] && Pos(cs, a) <= |Encode(cs)|
    ensures Cut(Encode(cs), Encode(ds), Pos(cs, a)) == EncodeEach(Cut(cs, ds, a))
    decreases |cs| - a
  {
    EncodeNonEmpty(ds);
    PosInside(cs, a);
    var k := First(cs, ds, a);
    if k == -1 {
      NoMoreCuts(cs, ds, a);
    } else {
      FirstIsFirst(cs, ds, a);
      CutOfBytes(cs, ds, k + |ds|);
      CutOn(cs, ds, a, k);
    }
  }

  lemma PosInside(cs: seq<Point>, a: nat)
    requires a <= |cs|
    ensures Pos(cs, a) <= |Encode(cs)|
  {
    CutAt(cs, a);
  }

  lemma CutOn(cs: seq<Point>, ds: seq<Point>, a: nat, k: nat)
    requires ds != [] && Encode(ds) != [] && a <= k && k + |ds| <= |cs| && First(cs, ds, a) == k
    requires Pos(cs, a) <= |Encode(cs)| && Pos(cs, k + |ds|) <= |Encode(cs)|
    requires Cut(Encode(cs), Encode(ds), Pos(cs, k + |ds|)) == EncodeEach(Cut(cs, ds, k + |ds|))
    ensures Cut(Encode(cs), Encode(ds), Pos(cs, a)) == EncodeEach(Cut(cs, ds, a))
  {
    NextCut(cs, ds, a);
    CutMore(Encode(cs), Encode(ds), Pos(cs, a), Pos(cs, k), Pos(cs, k + |ds|), cs, ds, a, k);
  }

  /** Splitting the bytes is splitting the characters: no piece cuts a character. */
  lemma SplitOfBytes(cs: seq<Point>, ds: seq<Point>)
    requires ds != []
    ensures Encode(ds) != []
    ensures Pieces(Encode(cs), Encode(ds)) == EncodeEach(Pieces(cs, ds))
  {
    CutOfBytes(cs, ds, 0);
  }

  lemma {:induction false} JoinOfBytes(ps: seq<seq<Point>>, ds: seq<Point>)
    ensures Join(EncodeEach(ps), Encode(ds)) == Encode(Join(ps, ds))
    decreases |ps|
  {
    if |ps| > 1 {
      JoinOfBytes(ps[1..], ds);
      EncodeJoin(ps[0] + ds, Join(ps[1..], ds));
      EncodeJoin(ps[0], ds);
      var es := EncodeEach(ps);
      assert es[0] == Encode(ps[0]) && es[1..] == EncodeEach(ps[1..]);
      assert |es[1..]| > 0;
    }
  }

  /** Replacing in the bytes is replacing in the characters. */
  lemma ReplaceOfBytes(cs: seq<Point>, from: seq<Point>, to: seq<Point>)
    requires from != []
    ensures Encode(from) != []
    ensures Join(Pieces(Encode(cs), Encode(from)), Encode(to)) == Encode(Join(Pieces(cs, from), to))
  {
    SplitOfBytes(cs, from);
    JoinOfBytes(Pieces(cs, from), to);
  }
}
