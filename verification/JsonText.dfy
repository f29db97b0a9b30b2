/** What JSON text means to the reader and what the writer produces (micai/src/json.rs). */
module JsonText {
  import opened Texts

  /** An `Int` has 64 bits. */
  newtype I64 = n: int | -0x8000_0000_0000_0000 <= n < 0x8000_0000_0000_0000

  /** A float is kept as the text it was read from: its value is not modelled. */
  datatype Json =
    | Null
    | Bool(b: bool)
    | Int(n: I64)
    | Float(text: string)
    | Str(s: string)
    | List(items: seq<Json>)
    | Dict(pairs: seq<Pair>)

  datatype Pair = Pair(key: string, value: Json)

  datatype Error =
    | UnexpectedEnd
    | Trailing(at: nat)
    | ExpectedWord(at: nat)
    | KeysMustBeQuoted(at: nat)
    | ExpectedColon(at: nat)
    | ExpectedCommaOrEnd(at: nat)
    | Unterminated
    | ShortEscape
    | NotHex
    | BadEscape(c: char)
    | NotANumber(at: nat)
    | BadNumber(text: string)

  datatype Parsed<T> = Good(value: T, next: nat) | Bad(error: Error)

  // ------------------------------------------------------------------ reading

  predicate IsSpace(c: char) {
    c == ' ' || c == '\t' || c == '\n' || c == '\r'
  }

  function Skip(s: string, i: nat): (j: nat)
    requires i <= |s|
    ensures i <= j <= |s|
    decreases |s| - i
  {
    if i < |s| && IsSpace(s[i]) then Skip(s, i + 1) else i
  }

  predicate IsDigit(c: char) {
    '0' <= c <= '9'
  }

  predicate NumberChar(c: char) {
    IsDigit(c) || c == '.' || c == 'e' || c == 'E' || c == '+' || c == '-'
  }

  function SkipNumber(s: string, i: nat): (j: nat)
    requires i <= |s|
    ensures i <= j <= |s|
    decreases |s| - i
  {
    if i < |s| && NumberChar(s[i]) then SkipNumber(s, i + 1) else i
  }

  function DigitValue(c: char): nat
    requires IsDigit(c)
  {
    c as int - '0' as int
  }

  predicate AllDigits(t: string) {
    forall i :: 0 <= i < |t| ==> IsDigit(t[i])
  }

  function Natural(t: string): nat
    requires AllDigits(t)
  {
    if t == "" then 0 else Natural(t[..|t| - 1]) * 10 + DigitValue(t[|t| - 1])
  }

  /** The value of `t` as a signed decimal number, when it is one. */
  datatype Whole = Whole(n: int) | NotWhole

  function Signed(t: string): Whole {
    var digits := if t != "" && (t[0] == '-' || t[0] == '+') then t[1..] else t;
    if digits == "" || !AllDigits(digits) then NotWhole
    else Whole(if t[0] == '-' then 0 - Natural(digits) else Natural(digits))
  }

  predicate FitsI64(w: Whole) {
    w.Whole? && -0x8000_0000_0000_0000 <= w.n < 0x8000_0000_0000_0000
  }

  function SkipDigits(t: string, i: nat): (j: nat)
    requires i <= |t|
    ensures i <= j <= |t|
    decreases |t| - i
  {
    if i < |t| && IsDigit(t[i]) then SkipDigits(t, i + 1) else i
  }

  predicate SignAt(t: string, i: nat) {
    i < |t| && (t[i] == '-' || t[i] == '+')
  }

  /** Digits with an optional point, at least one digit, and an optional exponent. */
  predicate FloatShape(t: string) {
    var a := if SignAt(t, 0) then 1 else 0;
    var b := SkipDigits(t, a);
    var c := if b < |t| && t[b] == '.' then SkipDigits(t, b + 1) else b;
    (b > a || c > b + 1) &&
    (c == |t| ||
     ((t[c] == 'e' || t[c] == 'E') &&
      var d := if SignAt(t, c + 1) then c + 2 else c + 1;
      d < |t| && SkipDigits(t, d) == |t|))
  }

  /** What the text of a number stands for. A whole number too large for 64 bits is read as a float. */
  function Numeral(t: string, at: nat, next: nat): Parsed<Json> {
    if t == "" || t == "-" then Bad(NotANumber(at))
    else if '.' !in t && 'e' !in t && 'E' !in t && FitsI64(Signed(t)) then Good(Int(Signed(t).n as I64), next)
    else if FloatShape(t) then Good(Float(t), next)
    else Bad(BadNumber(t))
  }

  function Number(s: string, i: nat): (r: Parsed<Json>)
    requires i <= |s|
    ensures r.Good? ==> i < r.next <= |s|
  {
    Numeral(s[i..SkipNumber(s, i)], i, SkipNumber(s, i))
  }

  /** The value of a hexadecimal digit, or 16. */
  function HexValue(c: char): nat {
    if '0' <= c <= '9' then c as int - '0' as int
    else if 'a' <= c <= 'f' then c as int - 'a' as int + 10
    else if 'A' <= c <= 'F' then c as int - 'A' as int + 10
    else 16
  }

  /** `k` more hexadecimal digits after those that make `v`. */
  function HexDigits(s: string, i: nat, k: nat, v: nat): (r: Parsed<nat>)
    requires i <= |s|
    ensures r.Good? ==> r.next == i + k <= |s|
    decreases k
  {
    if k == 0 then Good(v, i)
    else if i == |s| then Bad(ShortEscape)
    else if HexValue(s[i]) == 16 then Bad(NotHex)
    else HexDigits(s, i + 1, k - 1, v * 16 + HexValue(s[i]))
  }

  /** A number that is no character (half a surrogate pair) becomes U+FFFD. */
  function CharOf(v: nat): char {
    if v < 0xD800 || 0xE000 <= v < 0x11_0000 then v as char else '\U{FFFD}'
  }

  predicate IsSimpleEscape(c: char) {
    c == 'n' || c == 't' || c == 'r' || c == 'b' || c == 'f' || c == '/' || c == '"' || c == '\\'
  }

  function SimpleEscape(c: char): char
    requires IsSimpleEscape(c)
  {
    if c == 'n' then '\n' else if c == 't' then '\t' else if c == 'r' then '\r'
    else if c == 'b' then 8 as char else if c == 'f' then 12 as char else c
  }

  /** The one character after a backslash at `i - 1`. */
  function Escaped(s: string, i: nat): (r: Parsed<char>)
    requires i <= |s|
    ensures r.Good? ==> i < r.next <= |s|
  {
    if i == |s| then Bad(Unterminated)
    else if IsSimpleEscape(s[i]) then Good(SimpleEscape(s[i]), i + 1)
    else if s[i] == 'u' then
      var h := HexDigits(s, i + 1, 4, 0);
      if h.Bad? then Bad(h.error) else Good(CharOf(h.value), h.next)
    else Bad(BadEscape(s[i]))
  }

  /** The character that the text at `i` stands for inside a string. */
  function CharHere(s: string, i: nat): (r: Parsed<char>)
    requires i < |s|
    ensures r.Good? ==> i < r.next <= |s|
  {
    if s[i] == '\\' then Escaped(s, i + 1) else Good(s[i], i + 1)
  }

  /** The rest of a string, up to its closing quote. */
  function Chars(s: string, i: nat): (r: Parsed<string>)
    requires i <= |s|
    ensures r.Good? ==> i < r.next <= |s|
    decreases |s| - i
  {
    if i == |s| then Bad(Unterminated)
    else if s[i] == '"' then Good("", i + 1)
    else
      var c := CharHere(s, i);
      if c.Bad? then Bad(c.error)
      else
        var rest := Chars(s, c.next);
        if rest.Bad? then rest else Good([c.value] + rest.value, rest.next)
  }

  /** If the same key appears again, the later value takes the place of the earlier one. */
  function Put(out: seq<Pair>, k: string, v: Json): seq<Pair> {
    if out == [] then [Pair(k, v)]
    else if out[0].key == k then [Pair(k, v)] + out[1..]
    else [out[0]] + Put(out[1..], k, v)
  }

  function PutAll(out: seq<Pair>, ps: seq<Pair>): seq<Pair>
    decreases |ps|
  {
    if ps == [] then out else PutAll(Put(out, ps[0].key, ps[0].value), ps[1..])
  }

  function Word(s: string, i: nat, word: string, v: Json): Parsed<Json> {
    if Has(s, i, word) then Good(v, i + |word|) else Bad(ExpectedWord(i))
  }

  /** A value that is not made of other values. */
  function Plain(s: string, i: nat): (r: Parsed<Json>)
    requires i < |s|
    ensures r.Good? ==> i < r.next <= |s|
  {
    if s[i] == '"' then
      var r := Chars(s, i + 1);
      if r.Bad? then Bad(r.error) else Good(Str(r.value), r.next)
    else if s[i] == 't' then Word(s, i, "true", Bool(true))
    else if s[i] == 'f' then Word(s, i, "false", Bool(false))
    else if s[i] == 'n' then Word(s, i, "null", Null)
    else Number(s, i)
  }

  function Value(s: string, i: nat): (r: Parsed<Json>)
    requires i <= |s|
    ensures r.Good? ==> i < r.next <= |s|
    decreases |s| - i, 2
  {
    var j := Skip(s, i);
    if j == |s| then Bad(UnexpectedEnd)
    else if s[j] == '{' then Object(s, j)
    else if s[j] == '[' then Array(s, j)
    else Plain(s, j)
  }

  function Array(s: string, i: nat): (r: Parsed<Json>)
    requires i < |s|
    ensures r.Good? ==> i < r.next <= |s|
    decreases |s| - i, 1
  {
    var j := Skip(s, i + 1);
    if j < |s| && s[j] == ']' then Good(List([]), j + 1)
    else
      var r := Elements(s, j);
      if r.Bad? then Bad(r.error) else Good(List(r.value), r.next)
  }

  /** One element or more, and the closing bracket. */
  function Elements(s: string, i: nat): (r: Parsed<seq<Json>>)
    requires i <= |s|
    ensures r.Good? ==> i < r.next <= |s|
    decreases |s| - i, 3
  {
    var v := Value(s, i);
    if v.Bad? then Bad(v.error)
    else
      var j := Skip(s, v.next);
      if j < |s| && s[j] == ']' then Good([v.value], j + 1)
      else if j < |s| && s[j] == ',' then
        var rest := Elements(s, j + 1);
        if rest.Bad? then rest else Good([v.value] + rest.value, rest.next)
      else Bad(ExpectedCommaOrEnd(j))
  }

  function Object(s: string, i: nat): (r: Parsed<Json>)
    requires i < |s|
    ensures r.Good? ==> i < r.next <= |s|
    decreases |s| - i, 1
  {
    var j := Skip(s, i + 1);
    if j < |s| && s[j] == '}' then Good(Dict([]), j + 1)
    else
      var r := Members(s, j);
      if r.Bad? then Bad(r.error) else Good(Dict(PutAll([], r.value)), r.next)
  }

  /** One member or more, repeated keys and all, and the closing bracket. */
  function Members(s: string, i: nat): (r: Parsed<seq<Pair>>)
    requires i <= |s|
    ensures r.Good? ==> i < r.next <= |s|
    decreases |s| - i, 4
  {
    var k := Key(s, i);
    if k.Bad? then Bad(k.error)
    else
      var v := Value(s, k.next);
      if v.Bad? then Bad(v.error)
      else
        var j := Skip(s, v.next);
        if j < |s| && s[j] == '}' then Good([Pair(k.value, v.value)], j + 1)
        else if j < |s| && s[j] == ',' then
          var rest := Members(s, j + 1);
          if rest.Bad? then rest else Good([Pair(k.value, v.value)] + rest.value, rest.next)
        else Bad(ExpectedCommaOrEnd(j))
  }

  /** A quoted name and its colon. */
  function Key(s: string, i: nat): (r: Parsed<string>)
    requires i <= |s|
    ensures r.Good? ==> i < r.next <= |s|
  {
    var a := Skip(s, i);
    if a == |s| || s[a] != '"' then Bad(KeysMustBeQuoted(a))
    else
      var k := Chars(s, a + 1);
      if k.Bad? then k
      else
        var b := Skip(s, k.next);
        if b == |s| || s[b] != ':' then Bad(ExpectedColon(b)) else Good(k.value, b + 1)
  }

  datatype Result = Read(value: Json) | Failed(error: Error)

  function Parse(s: string): Result {
    var v := Value(s, 0);
    if v.Bad? then Failed(v.error)
    else
      var j := Skip(s, v.next);
      if j < |s| then Failed(Trailing(j)) else Read(v.value)
  }

  // ------------------------------------------------------------------ writing

  function Digit(d: nat): char
    requires d < 10
  {
    ('0' as int + d) as char
  }

  function Decimal(n: nat): (t: string)
    ensures t != "" && AllDigits(t)
  {
    if n < 10 then [Digit(n)] else Decimal(n / 10) + [Digit(n % 10)]
  }

  function Shown(n: int): string {
    if n < 0 then "-" + Decimal(-n) else Decimal(n)
  }

  function HexDigit(d: nat): char
    requires d < 16
  {
    if d < 10 then ('0' as int + d) as char else ('a' as int + d - 10) as char
  }

  /** Characters that are written as a backslash and a letter. */
  predicate IsShort(c: char) {
    c == '"' || c == '\\' || c == '\n' || c == '\t' || c == '\r'
  }

  function ShortLetter(c: char): char {
    if c == '\n' then 'n' else if c == '\t' then 't' else if c == '\r' then 'r' else c
  }

  function EscapeWidth(c: char): nat {
    if IsShort(c) then 2 else if c < ' ' then 6 else 1
  }

  function EscapeChar(c: char): (r: string)
    ensures |r| == EscapeWidth(c)
  {
    if IsShort(c) then ['\\', ShortLetter(c)]
    else if c < ' ' then "\\u00" + [HexDigit(c as int / 16), HexDigit(c as int % 16)]
    else [c]
  }

  function EscapeAll(s: string): string {
    if s == "" then "" else EscapeChar(s[0]) + EscapeAll(s[1..])
  }

  function Quote(s: string): string {
    "\"" + EscapeAll(s) + "\""
  }

  function Text(v: Json): string
    decreases v
  {
    match v
    case Null => "null"
    case Bool(b) => if b then "true" else "false"
    case Int(n) => Shown(n as int)
    case Float(t) => t
    case Str(s) => Quote(s)
    case List(vs) => "[" + ListText(vs) + "]"
    case Dict(ps) => "{" + DictText(ps) + "}"
  }

  function ListText(vs: seq<Json>): string
    decreases vs
  {
    if vs == [] then "" else Text(vs[0]) + MoreText(vs[1..])
  }

  /** The elements that are not the first: each with a comma before it. */
  function MoreText(vs: seq<Json>): string
    decreases vs
  {
    if vs == [] then "" else "," + Text(vs[0]) + MoreText(vs[1..])
  }

  function PairText(p: Pair): string
    decreases p
  {
    Quote(p.key) + ":" + Text(p.value)
  }

  function DictText(ps: seq<Pair>): string
    decreases ps
  {
    if ps == [] then "" else PairText(ps[0]) + MorePairs(ps[1..])
  }

  function MorePairs(ps: seq<Pair>): string
    decreases ps
  {
    if ps == [] then "" else "," + PairText(ps[0]) + MorePairs(ps[1..])
  }
}
