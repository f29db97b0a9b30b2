/**
 * How the strings and numbers of JSON text are spelled, said by characters and apart from the reader
 * (micai/src/json.rs).
 */
module JsonLexemes {
  import opened JsonText
  import opened Texts

  // ------------------------------------------------------------------ white space

  /** A space, a tab, or one of the two characters of line ends. */
  ghost predicate Blank(s: string, i: nat) {
    i < |s| && (s[i] as int == 32 || s[i] as int == 9 || s[i] as int == 10 || s[i] as int == 13)
  }

  /** Nothing but white space from `i` to `j`. */
  ghost predicate Space(s: string, i: nat, j: nat)
    decreases j - i
  {
    i <= j <= |s| && (i == j || (Blank(s, i) && Space(s, i + 1, j)))
  }

  /** A character that is no white space. */
  ghost predicate Solid(s: string, j: nat) {
    j < |s| && !Blank(s, j)
  }

  lemma {:induction false} SpaceJoin(s: string, a: nat, b: nat, c: nat)
    requires Space(s, a, b) && Space(s, b, c)
    ensures Space(s, a, c)
    decreases b - a
  {
    if a < b { SpaceJoin(s, a + 1, b, c); }
  }

  lemma {:induction false} SkipOver(s: string, i: nat, j: nat)
    requires Space(s, i, j) && (j == |s| || Solid(s, j))
    ensures Skip(s, i) == j
    decreases j - i
  {
    if i < j {
      SkipOver(s, i + 1, j);
    }
  }

  lemma {:induction false} SkipIsSpace(s: string, i: nat)
    requires i <= |s|
    ensures Space(s, i, Skip(s, i)) && (Skip(s, i) == |s| || Solid(s, Skip(s, i)))
    decreases |s| - i
  {
    if i < |s| && IsSpace(s[i]) {
      SkipIsSpace(s, i + 1);
    }
  }

  // ------------------------------------------------------------------ strings

  /** How one character of a string is written: as itself, after a backslash, or by four hexadecimal digits. */
  datatype Bit = Raw(c: char) | Short(letter: char) | Hex(text: string, v: nat)

  function BitText(b: Bit): string {
    match b
    case Raw(c) => [c]
    case Short(x) => ['\\', x]
    case Hex(t, _) => "\\u" + t
  }

  /** A hexadecimal digit of either case. */
  ghost predicate HexStandsFor(c: char, v: nat) {
    v < 16 && (c == "0123456789abcdef"[v] || c == "0123456789ABCDEF"[v])
  }

  /** Everything but a quote and a backslash may stand for itself. */
  ghost predicate BitOk(b: Bit) {
    match b
    case Raw(c) => c != '"' && c != '\\'
    case Short(x) => x in "\"\\/bfnrt"
    case Hex(t, v) =>
      |t| == 4 && v < 0x1_0000 && HexStandsFor(t[0], v / 0x1000) && HexStandsFor(t[1], v / 0x100 % 0x10) &&
      HexStandsFor(t[2], v / 0x10 % 0x10) && HexStandsFor(t[3], v % 0x10)
  }

  /** `b` stands for `c`. Half of a surrogate pair stands for U+FFFD. */
  ghost predicate BitMeans(b: Bit, c: char) {
    match b
    case Raw(d) => c == d
    case Short(x) =>
      if x == 'n' then c as int == 10 else if x == 't' then c as int == 9 else if x == 'r' then c as int == 13
      else if x == 'b' then c as int == 8 else if x == 'f' then c as int == 12 else c == x
    case Hex(_, v) => c as int == if 0xD800 <= v < 0xE000 then 0xFFFD else v
  }

  function BitsText(bs: seq<Bit>): string {
    if bs == [] then "" else BitText(bs[0]) + BitsText(bs[1..])
  }

  ghost predicate BitsMean(bs: seq<Bit>, t: string) {
    if bs == [] then t == "" else t != "" && BitOk(bs[0]) && BitMeans(bs[0], t[0]) && BitsMean(bs[1..], t[1..])
  }

  lemma HexIs(c: char, v: nat)
    ensures HexStandsFor(c, v) <==> v < 16 && HexValue(c) == v
  {
    if v < 16 {
      if v < 10 {
        assert "0123456789abcdef"[v] as int == '0' as int + v && "0123456789ABCDEF"[v] as int == '0' as int + v;
      } else {
        assert "0123456789abcdef"[v] as int == 'a' as int + (v - 10) && "0123456789ABCDEF"[v] as int == 'A' as int + (v - 10);
      }
    }
  }

  /** Four digits make the number. */
  lemma FourHex(s: string, i: nat, a: nat, b: nat, c: nat, d: nat)
    requires i + 4 <= |s| && a < 16 && b < 16 && c < 16 && d < 16
    requires HexValue(s[i]) == a && HexValue(s[i + 1]) == b && HexValue(s[i + 2]) == c && HexValue(s[i + 3]) == d
    ensures HexDigits(s, i, 4, 0) == Good(a * 0x1000 + b * 0x100 + c * 0x10 + d, i + 4)
  {
    assert HexDigits(s, i + 3, 1, a * 0x100 + b * 0x10 + c) == Good(a * 0x1000 + b * 0x100 + c * 0x10 + d, i + 4);
    assert HexDigits(s, i + 2, 2, a * 0x10 + b) == HexDigits(s, i + 3, 1, a * 0x100 + b * 0x10 + c);
    assert HexDigits(s, i + 1, 3, a) == HexDigits(s, i + 2, 2, a * 0x10 + b);
    assert HexDigits(s, i, 4, 0) == HexDigits(s, i + 1, 3, a);
  }

  lemma FourHexBack(s: string, i: nat)
    requires i <= |s| && HexDigits(s, i, 4, 0).Good?
    ensures i + 4 <= |s| && HexValue(s[i]) < 16 && HexValue(s[i + 1]) < 16 && HexValue(s[i + 2]) < 16 && HexValue(s[i + 3]) < 16
  {
    assert HexDigits(s, i, 4, 0) == HexDigits(s, i + 1, 3, HexValue(s[i]));
    assert HexDigits(s, i + 1, 3, HexValue(s[i])) == HexDigits(s, i + 2, 2, HexValue(s[i]) * 16 + HexValue(s[i + 1]));
    var v := HexValue(s[i]) * 16 + HexValue(s[i + 1]);
    assert HexDigits(s, i + 2, 2, v) == HexDigits(s, i + 3, 1, v * 16 + HexValue(s[i + 2]));
  }

  lemma Digits4(a: nat, b: nat, c: nat, d: nat, v: nat)
    requires a < 16 && b < 16 && c < 16 && d < 16 && v == a * 0x1000 + b * 0x100 + c * 0x10 + d
    ensures v < 0x1_0000 && v / 0x1000 == a && v / 0x100 % 0x10 == b && v / 0x10 % 0x10 == c && v % 0x10 == d
  {
    assert v / 0x10 == a * 0x100 + b * 0x10 + c;
    assert v / 0x100 == a * 0x10 + b;
  }

  lemma Whole4(v: nat)
    requires v < 0x1_0000
    ensures v == v / 0x1000 * 0x1000 + v / 0x100 % 0x10 * 0x100 + v / 0x10 % 0x10 * 0x10 + v % 0x10
    ensures v / 0x1000 < 16
  {
    assert v / 0x10 / 0x10 == v / 0x100 && v / 0x100 / 0x10 == v / 0x1000;
  }

  /** A bit in place is read as what it means. */
  lemma BitReads(s: string, i: nat, b: Bit, c: char)
    requires BitOk(b) && BitMeans(b, c) && Has(s, i, BitText(b))
    ensures i < |s| && s[i] != '"' && CharHere(s, i) == Good(c, i + |BitText(b)|)
  {
    var t := BitText(b);
    HasChar(s, i, t, 0);
    if b.Short? {
      HasChar(s, i, t, 1);
    } else if b.Hex? {
      HexReads(s, i, b, c);
    }
  }

  lemma HexReads(s: string, i: nat, b: Bit, c: char)
    requires b.Hex? && BitOk(b) && BitMeans(b, c) && Has(s, i, BitText(b))
    ensures i < |s| && CharHere(s, i) == Good(c, i + 6)
  {
    var t, v := BitText(b), b.v;
    HasChar(s, i, t, 0);
    HasChar(s, i, t, 1);
    HasChar(s, i, t, 2);
    HasChar(s, i, t, 3);
    HasChar(s, i, t, 4);
    HasChar(s, i, t, 5);
    Whole4(v);
    HexIs(s[i + 2], v / 0x1000);
    HexIs(s[i + 3], v / 0x100 % 0x10);
    HexIs(s[i + 4], v / 0x10 % 0x10);
    HexIs(s[i + 5], v % 0x10);
    FourHex(s, i + 2, v / 0x1000, v / 0x100 % 0x10, v / 0x10 % 0x10, v % 0x10);
  }

  lemma HasIt(s: string, i: nat, x: string)
    requires i + |x| <= |s| && forall k :: 0 <= k < |x| ==> s[i + k] == x[k]
    ensures Has(s, i, x)
  {
    HasIsSlice(s, i, x);
    assert s[i..i + |x|] == x;
  }

  lemma HasTwo(s: string, i: nat, a: string, b: string)
    requires Has(s, i, a) && Has(s, i + |a|, b)
    ensures Has(s, i, a + b)
  {
    HasIsSlice(s, i, a);
    HasIsSlice(s, i + |a|, b);
    HasIsSlice(s, i, a + b);
    assert s[i..i + |a + b|] == s[i..i + |a|] + s[i + |a|..i + |a| + |b|];
  }

  /** Whatever is read as a character is a bit in place. */
  lemma BitFound(s: string, i: nat) returns (b: Bit)
    requires i < |s| && s[i] != '"' && CharHere(s, i).Good?
    ensures BitOk(b) && Has(s, i, BitText(b)) && BitMeans(b, CharHere(s, i).value) && CharHere(s, i).next == i + |BitText(b)|
  {
    if s[i] != '\\' {
      b := Raw(s[i]);
      HasIt(s, i, BitText(b));
    } else if IsSimpleEscape(s[i + 1]) {
      b := Short(s[i + 1]);
      ShortLetters(s[i + 1]);
      HasIt(s, i, BitText(b));
    } else {
      b := HexFound(s, i);
    }
  }

  lemma ShortLetters(x: char)
    ensures IsSimpleEscape(x) <==> x in "\"\\/bfnrt"
  {
    var t := "\"\\/bfnrt";
    assert t[0] == '"' && t[1] == '\\' && t[2] == '/' && t[3] == 'b' && t[4] == 'f' && t[5] == 'n' && t[6] == 'r' && t[7] == 't';
  }

  lemma HexFound(s: string, i: nat) returns (b: Bit)
    requires i + 1 < |s| && s[i] == '\\' && s[i + 1] == 'u' && HexDigits(s, i + 2, 4, 0).Good?
    ensures b.Hex? && BitOk(b) && Has(s, i, BitText(b)) && BitMeans(b, CharOf(HexDigits(s, i + 2, 4, 0).value)) && |BitText(b)| == 6
  {
    FourHexBack(s, i + 2);
    var x, y, z, w := HexValue(s[i + 2]), HexValue(s[i + 3]), HexValue(s[i + 4]), HexValue(s[i + 5]);
    FourHex(s, i + 2, x, y, z, w);
    var t := [s[i + 2], s[i + 3], s[i + 4], s[i + 5]];
    b := HexBit(t, x, y, z, w);
    HexInPlace(s, i, t, b.v);
  }

  lemma HexBit(t: string, x: nat, y: nat, z: nat, w: nat) returns (b: Bit)
    requires |t| == 4 && x < 16 && y < 16 && z < 16 && w < 16
    requires HexValue(t[0]) == x && HexValue(t[1]) == y && HexValue(t[2]) == z && HexValue(t[3]) == w
    ensures b == Hex(t, x * 0x1000 + y * 0x100 + z * 0x10 + w) && BitOk(b) && BitMeans(b, CharOf(b.v))
  {
    var v := x * 0x1000 + y * 0x100 + z * 0x10 + w;
    Digits4(x, y, z, w, v);
    HexIs(t[0], x);
    HexIs(t[1], y);
    HexIs(t[2], z);
    HexIs(t[3], w);
    b := Hex(t, v);
  }

  lemma HexInPlace(s: string, i: nat, t: string, v: nat)
    requires i + 5 < |s| && s[i] == '\\' && s[i + 1] == 'u' && t == [s[i + 2], s[i + 3], s[i + 4], s[i + 5]]
    ensures Has(s, i, BitText(Hex(t, v))) && |BitText(Hex(t, v))| == 6
  {
    HasIt(s, i, "\\u");
    HasIt(s, i + 2, t);
    HasTwo(s, i, "\\u", t);
  }

  lemma CharsStep(s: string, i: nat, c: char, j: nat)
    requires i < |s| && s[i] != '"' && CharHere(s, i) == Good(c, j)
    ensures j <= |s| && (Chars(s, i).Good? <==> Chars(s, j).Good?)
    ensures Chars(s, j).Good? ==> Chars(s, i) == Good([c] + Chars(s, j).value, Chars(s, j).next)
  {
  }

  lemma {:induction false} BitsRead(s: string, i: nat, bs: seq<Bit>, t: string)
    requires BitsMean(bs, t) && Has(s, i, BitsText(bs)) && CharAt(s, i + |BitsText(bs)|, '"')
    ensures Chars(s, i) == Good(t, i + |BitsText(bs)| + 1)
    decreases |bs|
  {
    if bs != [] {
      var x := BitText(bs[0]);
      HasParts(s, i, x, BitsText(bs[1..]));
      BitReads(s, i, bs[0], t[0]);
      BitsRead(s, i + |x|, bs[1..], t[1..]);
      CharsStep(s, i, t[0], i + |x|);
      assert t == [t[0]] + t[1..];
    }
  }

  /** The text from `i` to the quote at `end` is written in bits that mean `t`. */
  ghost predicate Written(s: string, i: nat, bs: seq<Bit>, t: string, end: nat) {
    BitsMean(bs, t) && Has(s, i, BitsText(bs)) && end == i + |BitsText(bs)| && CharAt(s, end, '"')
  }

  lemma {:induction false} BitsFound(s: string, i: nat) returns (bs: seq<Bit>)
    requires i <= |s| && Chars(s, i).Good?
    ensures Written(s, i, bs, Chars(s, i).value, Chars(s, i).next - 1)
    decreases |s| - i
  {
    if s[i] == '"' {
      bs := [];
      NoBits(s, i);
    } else {
      var b := BitFound(s, i);
      var c, j := CharHere(s, i).value, i + |BitText(b)|;
      CharsStep(s, i, c, j);
      var rest := BitsFound(s, j);
      bs := MoreWritten(s, i, b, c, rest, Chars(s, j).value, Chars(s, j).next - 1);
    }
  }

  lemma NoBits(s: string, i: nat)
    requires CharAt(s, i, '"')
    ensures Written(s, i, [], "", i)
  {
    HasIt(s, i, "");
  }

  lemma MoreWritten(s: string, i: nat, b: Bit, c: char, rest: seq<Bit>, t: string, end: nat) returns (bs: seq<Bit>)
    requires BitOk(b) && BitMeans(b, c) && Has(s, i, BitText(b)) && Written(s, i + |BitText(b)|, rest, t, end)
    ensures Written(s, i, bs, [c] + t, end)
  {
    bs := BitsPut(s, i, b, rest);
    assert ([c] + t)[1..] == t;
  }

  lemma BitsPut(s: string, i: nat, b: Bit, rest: seq<Bit>) returns (bs: seq<Bit>)
    requires Has(s, i, BitText(b)) && Has(s, i + |BitText(b)|, BitsText(rest))
    ensures bs == [b] + rest && bs[1..] == rest && Has(s, i, BitsText(bs)) && |BitsText(bs)| == |BitText(b)| + |BitsText(rest)|
  {
    bs := [b] + rest;
    assert bs[1..] == rest;
    HasTwo(s, i, BitText(b), BitsText(rest));
  }

  // ------------------------------------------------------------------ numbers

  /** Figures and nothing else from `i` to `j`. */
  ghost predicate Figures(t: string, i: nat, j: nat) {
    i <= j <= |t| && forall k :: i <= k < j ==> '0' <= t[k] && t[k] <= '9'
  }

  function Power10(n: nat): nat {
    if n == 0 then 1 else 10 * Power10(n - 1)
  }

  /** What the figures stand for, the first one counting most. */
  ghost function Amount(t: string): int {
    if t == "" then 0 else (t[0] as int - '0' as int) * Power10(|t| - 1) + Amount(t[1..])
  }

  /** The sign, if there is one, ends at `a`. */
  ghost predicate SignUpto(t: string, from: nat, a: nat) {
    a == from || (a == from + 1 && from < |t| && (t[from] == '-' || t[from] == '+'))
  }

  /** An optional sign and figures. */
  ghost predicate SpellsInt(t: string, n: int) {
    exists a: nat :: a < |t| && SignUpto(t, 0, a) && Figures(t, a, |t|) && n == if a == 1 && t[0] == '-' then -Amount(t[a..]) else Amount(t[a..])
  }

  /** Figures from `a` to `b`, perhaps a point and figures up to `c`, at least one figure in all. */
  ghost predicate FractionAt(t: string, a: nat, b: nat, c: nat) {
    Figures(t, a, b) && (c == b || (b < c && CharAt(t, b, '.') && Figures(t, b + 1, c))) && (b > a || c > b + 1)
  }

  /** The exponent, from its letter at `c` on: an optional sign up to `d`, and figures. Or none. */
  ghost predicate ExponentAt(t: string, c: nat, d: nat) {
    c == |t| || ((CharAt(t, c, 'e') || CharAt(t, c, 'E')) && SignUpto(t, c + 1, d) && d < |t| && Figures(t, d, |t|))
  }

  ghost predicate SpellsFloat(t: string) {
    exists a: nat, b: nat, c: nat, d: nat :: SignUpto(t, 0, a) && FractionAt(t, a, b, c) && ExponentAt(t, c, d)
  }

  const LOW: int := -0x8000_0000_0000_0000
  const HIGH: int := 0x7fff_ffff_ffff_ffff

  /** A whole number of 64 bits is an integer; every other number keeps its text as a float. */
  ghost predicate SpellsNumber(t: string, v: Json) {
    if v.Int? then SpellsInt(t, v.n as int)
    else v.Float? && v.text == t && SpellsFloat(t) && forall n :: LOW <= n <= HIGH ==> !SpellsInt(t, n)
  }

  ghost predicate InNumber(c: char) {
    ('0' <= c && c <= '9') || c == '.' || c == 'e' || c == 'E' || c == '+' || c == '-'
  }

  lemma {:induction false} AmountIs(t: string)
    requires AllDigits(t)
    ensures Amount(t) == Natural(t)
    decreases |t|
  {
    if t != "" {
      AmountSnoc(t);
      AmountIs(t[..|t| - 1]);
    }
  }

  lemma {:induction false} AmountSnoc(t: string)
    requires t != ""
    ensures Amount(t) == Amount(t[..|t| - 1]) * 10 + (t[|t| - 1] as int - '0' as int)
    decreases |t|
  {
    if |t| == 1 {
      assert t[1..] == "" && t[..0] == "";
    } else {
      AmountSnoc(t[1..]);
      var init := t[..|t| - 1];
      assert t[1..][..|t| - 2] == init[1..];
      assert Power10(|t| - 1) == 10 * Power10(|init| - 1);
    }
  }

  lemma SignedIs(t: string, n: int)
    ensures SpellsInt(t, n) <==> Signed(t) == Whole(n)
  {
    if SpellsInt(t, n) { SignedOfInt(t, n); }
    if Signed(t) == Whole(n) { IntOfSigned(t, n); }
  }

  lemma SignedOfInt(t: string, n: int)
    requires SpellsInt(t, n)
    ensures Signed(t) == Whole(n)
  {
    var a: nat :| a < |t| && SignUpto(t, 0, a) && Figures(t, a, |t|) && n == if a == 1 && t[0] == '-' then -Amount(t[a..]) else Amount(t[a..]);
    SignedFrom(t, a);
    AmountIs(t[a..]);
  }

  lemma SignedFrom(t: string, a: nat)
    requires a < |t| && SignUpto(t, 0, a) && Figures(t, a, |t|)
    ensures AllDigits(t[a..]) && Signed(t) == Whole(if a == 1 && t[0] == '-' then 0 - Natural(t[a..]) else Natural(t[a..]))
  {
    assert t[0..] == t;
  }

  lemma IntOfSigned(t: string, n: int)
    requires Signed(t) == Whole(n)
    ensures SpellsInt(t, n)
  {
    var a: nat := if t[0] == '-' || t[0] == '+' then 1 else 0;
    if a == 0 { assert t[0..] == t; }
    var ds := t[a..];
    AmountIs(ds);
    forall k | a <= k < |t| ensures IsDigit(t[k]) { assert ds[k - a] == t[k]; }
    assert SignUpto(t, 0, a) && Figures(t, a, |t|);
  }

  // ---- fractions and exponents

  lemma {:induction false} SkipDigitsTo(t: string, i: nat, j: nat)
    requires i <= j <= |t| && (forall k :: i <= k < j ==> IsDigit(t[k])) && (j < |t| ==> !IsDigit(t[j]))
    ensures SkipDigits(t, i) == j
    decreases j - i
  {
    if i < j { SkipDigitsTo(t, i + 1, j); }
  }

  lemma {:induction false} DigitsSkipped(t: string, i: nat)
    requires i <= |t|
    ensures var j := SkipDigits(t, i); (forall k :: i <= k < j ==> IsDigit(t[k])) && (j < |t| ==> !IsDigit(t[j]))
    decreases |t| - i
  {
    if i < |t| && IsDigit(t[i]) { DigitsSkipped(t, i + 1); }
  }

  lemma FractionShape(t: string, a: nat, b: nat, c: nat)
    requires FractionAt(t, a, b, c) && (c == |t| || CharAt(t, c, 'e') || CharAt(t, c, 'E'))
    ensures SkipDigits(t, a) == b && c == if b < |t| && t[b] == '.' then SkipDigits(t, b + 1) else b
  {
    SkipDigitsTo(t, a, b);
    if c > b { SkipDigitsTo(t, b + 1, c); }
  }

  lemma FloatHasShape(t: string)
    requires SpellsFloat(t)
    ensures FloatShape(t)
  {
    var a: nat, b: nat, c: nat, d: nat :| SignUpto(t, 0, a) && FractionAt(t, a, b, c) && ExponentAt(t, c, d);
    FractionShape(t, a, b, c);
    if c < |t| { SkipDigitsTo(t, d, |t|); }
  }

  lemma ShapeHasFloat(t: string)
    requires FloatShape(t)
    ensures SpellsFloat(t)
  {
    var a: nat := if SignAt(t, 0) then 1 else 0;
    var b := SkipDigits(t, a);
    DigitsSkipped(t, a);
    var c := if b < |t| && t[b] == '.' then SkipDigits(t, b + 1) else b;
    if b < |t| && t[b] == '.' { DigitsSkipped(t, b + 1); }
    var d := if SignAt(t, c + 1) then c + 2 else c + 1;
    if c < |t| { DigitsSkipped(t, d); }
    assert SignUpto(t, 0, a) && FractionAt(t, a, b, c) && ExponentAt(t, c, d);
  }

  /** What the text of a number reads as is what it spells. */
  lemma NumeralIs(t: string, at: nat, next: nat, v: Json)
    ensures Numeral(t, at, next) == Good(v, next) <==> SpellsNumber(t, v)
  {
    FloatIs(t);
    NoNumber(at, next, v);
    if FitsI64(Signed(t)) {
      WholeNumeral(t, at, next, v);
    } else {
      forall n | LOW <= n <= HIGH ensures !SpellsInt(t, n) { SignedIs(t, n); }
      if v.Int? { SignedIs(t, v.n as int); }
    }
  }

  lemma FloatIs(t: string)
    ensures FloatShape(t) <==> SpellsFloat(t)
  {
    if FloatShape(t) { ShapeHasFloat(t); }
    if SpellsFloat(t) { FloatHasShape(t); }
  }

  lemma NoNumber(at: nat, next: nat, v: Json)
    ensures !SpellsNumber("", v) && !SpellsNumber("-", v)
  {
    FloatIs("");
    FloatIs("-");
    if v.Int? {
      SignedIs("", v.n as int);
      SignedIs("-", v.n as int);
    }
  }

  lemma WholeNumeral(t: string, at: nat, next: nat, v: Json)
    requires FitsI64(Signed(t))
    ensures Numeral(t, at, next) == Good(Int(Signed(t).n as I64), next)
    ensures SpellsNumber(t, v) <==> v == Int(Signed(t).n as I64)
  {
    var n := Signed(t).n;
    SignedIs(t, n);
    WholeHasNoPoint(t, n);
    if v.Int? { SignedIs(t, v.n as int); }
  }

  lemma WholeHasNoPoint(t: string, n: int)
    requires SpellsInt(t, n)
    ensures t != "" && t != "-" && '.' !in t && 'e' !in t && 'E' !in t
  {
    var a: nat :| a < |t| && SignUpto(t, 0, a) && Figures(t, a, |t|) && n == if a == 1 && t[0] == '-' then -Amount(t[a..]) else Amount(t[a..]);
    forall k | 0 <= k < |t| ensures t[k] != '.' && t[k] != 'e' && t[k] != 'E' {
      assert k < a ==> k == 0;
    }
  }

  lemma {:induction false} SkipNumberTo(s: string, i: nat, j: nat)
    requires i <= j <= |s| && (forall k :: i <= k < j ==> InNumber(s[k])) && (j < |s| ==> !InNumber(s[j]))
    ensures SkipNumber(s, i) == j
    decreases j - i
  {
    if i < j { SkipNumberTo(s, i + 1, j); }
  }

  lemma {:induction false} NumberSkipped(s: string, i: nat)
    requires i <= |s|
    ensures var j := SkipNumber(s, i); (forall k :: i <= k < j ==> InNumber(s[k])) && (j < |s| ==> !InNumber(s[j]))
    decreases |s| - i
  {
    if i < |s| && NumberChar(s[i]) { NumberSkipped(s, i + 1); }
  }

  /** A number is made of the characters that go on a number. */
  lemma NumberChars(t: string, v: Json)
    requires SpellsNumber(t, v)
    ensures t != "" && forall k :: 0 <= k < |t| ==> InNumber(t[k])
  {
    if v.Int? {
      IntChars(t, v.n as int);
    } else {
      FloatChars(t);
    }
  }

  lemma IntChars(t: string, n: int)
    requires SpellsInt(t, n)
    ensures t != "" && forall k :: 0 <= k < |t| ==> InNumber(t[k])
  {
    var a: nat :| a < |t| && SignUpto(t, 0, a) && Figures(t, a, |t|) && n == if a == 1 && t[0] == '-' then -Amount(t[a..]) else Amount(t[a..]);
    forall k | 0 <= k < |t| ensures InNumber(t[k]) {
      assert k < a ==> k == 0;
    }
  }

  lemma FloatChars(t: string)
    requires SpellsFloat(t)
    ensures t != "" && forall k :: 0 <= k < |t| ==> InNumber(t[k])
  {
    var a: nat, b: nat, c: nat, d: nat :| SignUpto(t, 0, a) && FractionAt(t, a, b, c) && ExponentAt(t, c, d);
    forall k | 0 <= k < |t| ensures InNumber(t[k]) {
      assert k < a ==> k == 0;
      assert b <= k < c ==> k == b || b + 1 <= k < c;
      assert c <= k < d ==> k == c || k == c + 1;
    }
  }

  /** A number in place, with nothing after it that would go on it, is read as what it spells; and nothing else is. */
  lemma NumberIs(s: string, i: nat, j: nat, v: Json)
    requires i <= j <= |s| && (j < |s| ==> !InNumber(s[j])) && forall k :: i <= k < j ==> InNumber(s[k])
    ensures Number(s, i) == Good(v, j) <==> SpellsNumber(s[i..j], v)
  {
    SkipNumberTo(s, i, j);
    NumeralIs(s[i..j], i, j, v);
  }
}
