/** Where the pieces of a written value lie in a text (micai/src/json.rs). */
module JsonSpelling {
  import opened JsonText
  import opened Texts

  // ------------------------------------------------------------------ a value spelled out

  /** One character, escaped. */
  ghost predicate EscapeAt(s: string, i: nat, c: char) {
    i + EscapeWidth(c) <= |s| &&
    if IsShort(c) then s[i] == '\\' && s[i + 1] == ShortLetter(c)
    else if c < ' ' then
      s[i] == '\\' && s[i + 1] == 'u' && s[i + 2] == '0' && s[i + 3] == '0' &&
      s[i + 4] == HexDigit(c as int / 16) && s[i + 5] == HexDigit(c as int % 16)
    else s[i] == c
  }

  /** The characters of a string, escaped one after the other. */
  ghost predicate CharsAt(s: string, i: nat, t: string)
    decreases |t|
  {
    t == "" || (EscapeAt(s, i, t[0]) && CharsAt(s, i + EscapeWidth(t[0]), t[1..]))
  }

  ghost function EndChars(i: nat, t: string): nat
    decreases |t|
  {
    if t == "" then i else EndChars(i + EscapeWidth(t[0]), t[1..])
  }

  ghost predicate Four(s: string, i: nat, a: char, b: char, c: char, d: char) {
    i + 4 <= |s| && s[i] == a && s[i + 1] == b && s[i + 2] == c && s[i + 3] == d
  }

  ghost predicate QuoteAt(s: string, i: nat, t: string) {
    CharAt(s, i, '"') && CharsAt(s, i + 1, t) && CharAt(s, EndChars(i + 1, t), '"')
  }

  ghost function EndQuote(i: nat, t: string): nat {
    EndChars(i + 1, t) + 1
  }

  /** A value that is not made of other values. */
  ghost predicate PlainAt(s: string, i: nat, v: Json)
    requires !v.List? && !v.Dict?
  {
    match v
    case Null => Four(s, i, 'n', 'u', 'l', 'l')
    case Bool(b) => if b then Four(s, i, 't', 'r', 'u', 'e') else Four(s, i, 'f', 'a', 'l', 's') && CharAt(s, i + 4, 'e')
    case Int(n) => Has(s, i, Shown(n as int))
    case Float(t) => Has(s, i, t)
    case Str(t) => QuoteAt(s, i, t)
  }

  ghost function EndPlain(i: nat, v: Json): nat
    requires !v.List? && !v.Dict?
  {
    match v
    case Null => i + 4
    case Bool(b) => if b then i + 4 else i + 5
    case Int(n) => i + |Shown(n as int)|
    case Float(t) => i + |t|
    case Str(t) => EndQuote(i, t)
  }

  /** `v` is written in `s` at `i`. */
  ghost predicate At(s: string, i: nat, v: Json)
    decreases v
  {
    if v.List? then CharAt(s, i, '[') && AllAt(s, i + 1, v.items) && CharAt(s, EndAll(i + 1, v.items), ']')
    else if v.Dict? then CharAt(s, i, '{') && PairsAt(s, i + 1, v.pairs) && CharAt(s, EndPairs(i + 1, v.pairs), '}')
    else PlainAt(s, i, v)
  }

  ghost function End(i: nat, v: Json): nat
    decreases v
  {
    if v.List? then EndAll(i + 1, v.items) + 1
    else if v.Dict? then EndPairs(i + 1, v.pairs) + 1
    else EndPlain(i, v)
  }

  ghost predicate AllAt(s: string, i: nat, vs: seq<Json>)
    decreases vs
  {
    vs == [] ||
    (At(s, i, vs[0]) && (|vs| > 1 ==> CharAt(s, End(i, vs[0]), ',') && AllAt(s, End(i, vs[0]) + 1, vs[1..])))
  }

  ghost function EndAll(i: nat, vs: seq<Json>): nat
    decreases vs
  {
    if vs == [] then i else if |vs| == 1 then End(i, vs[0]) else EndAll(End(i, vs[0]) + 1, vs[1..])
  }

  ghost predicate PairAt(s: string, i: nat, p: Pair)
    decreases p
  {
    QuoteAt(s, i, p.key) && CharAt(s, EndQuote(i, p.key), ':') && At(s, EndQuote(i, p.key) + 1, p.value)
  }

  ghost function EndPair(i: nat, p: Pair): nat
    decreases p
  {
    End(EndQuote(i, p.key) + 1, p.value)
  }

  ghost predicate PairsAt(s: string, i: nat, ps: seq<Pair>)
    decreases ps
  {
    ps == [] ||
    (PairAt(s, i, ps[0]) && (|ps| > 1 ==> CharAt(s, EndPair(i, ps[0]), ',') && PairsAt(s, EndPair(i, ps[0]) + 1, ps[1..])))
  }

  ghost function EndPairs(i: nat, ps: seq<Pair>): nat
    decreases ps
  {
    if ps == [] then i else if |ps| == 1 then EndPair(i, ps[0]) else EndPairs(EndPair(i, ps[0]) + 1, ps[1..])
  }

  // ------------------------------------------------------------------ the writer spells values out

  lemma EscapeSpelled(s: string, i: nat, c: char)
    requires Has(s, i, EscapeChar(c))
    ensures EscapeAt(s, i, c)
  {
    var t := EscapeChar(c);
    HasChar(s, i, t, 0);
    if |t| > 1 { HasChar(s, i, t, 1); }
    if |t| > 2 {
      HasChar(s, i, t, 2);
      HasChar(s, i, t, 3);
      HasChar(s, i, t, 4);
      HasChar(s, i, t, 5);
    }
  }

  lemma FourSpelled(s: string, i: nat, t: string)
    requires |t| >= 4 && Has(s, i, t)
    ensures Four(s, i, t[0], t[1], t[2], t[3])
  {
    HasChar(s, i, t, 0);
    HasChar(s, i, t, 1);
    HasChar(s, i, t, 2);
    HasChar(s, i, t, 3);
  }

  lemma {:induction false} CharsSpelled(s: string, i: nat, t: string)
    requires Has(s, i, EscapeAll(t))
    ensures CharsAt(s, i, t) && EndChars(i, t) == i + |EscapeAll(t)|
    decreases |t|
  {
    if t != "" {
      HasParts(s, i, EscapeChar(t[0]), EscapeAll(t[1..]));
      EscapeSpelled(s, i, t[0]);
      CharsSpelled(s, i + EscapeWidth(t[0]), t[1..]);
    }
  }

  lemma QuoteSpelled(s: string, i: nat, t: string)
    requires Has(s, i, Quote(t))
    ensures QuoteAt(s, i, t) && EndQuote(i, t) == i + |Quote(t)|
  {
    HasBetween(s, i, "\"", EscapeAll(t), "\"");
    CharsSpelled(s, i + 1, t);
  }

  lemma {:induction false} Spelled(s: string, i: nat, v: Json)
    requires Has(s, i, Text(v))
    ensures At(s, i, v) && End(i, v) == i + |Text(v)|
    decreases v, 2
  {
    match v
    case Null => FourSpelled(s, i, "null");
    case Bool(b) =>
      FourSpelled(s, i, if b then "true" else "false");
      if !b { HasChar(s, i, "false", 4); }
    case Int(_) =>
    case Float(_) =>
    case Str(t) => QuoteSpelled(s, i, t);
    case List(vs) =>
      HasBetween(s, i, "[", ListText(vs), "]");
      AllSpelled(s, i + 1, vs);
    case Dict(ps) =>
      HasBetween(s, i, "{", DictText(ps), "}");
      PairsSpelled(s, i + 1, ps);
  }

  lemma {:induction false} AllSpelled(s: string, i: nat, vs: seq<Json>)
    requires Has(s, i, ListText(vs))
    ensures AllAt(s, i, vs) && EndAll(i, vs) == i + |ListText(vs)|
    decreases vs, 0
  {
    if vs != [] {
      var rest := vs[1..];
      HasParts(s, i, Text(vs[0]), MoreText(rest));
      Spelled(s, i, vs[0]);
      if rest != [] {
        var j := i + |Text(vs[0])|;
        MoreIsList(rest);
        HasParts(s, j, ",", ListText(rest));
        HasChar(s, j, ",", 0);
        AllSpelled(s, j + 1, rest);
      }
    }
  }

  lemma MoreIsList(vs: seq<Json>)
    requires vs != []
    ensures MoreText(vs) == "," + ListText(vs)
  {
  }

  lemma PairPieces(s: string, i: nat, p: Pair)
    requires Has(s, i, PairText(p))
    ensures var j := i + |Quote(p.key)|;
      Has(s, i, Quote(p.key)) && CharAt(s, j, ':') && Has(s, j + 1, Text(p.value)) && i + |PairText(p)| == j + 1 + |Text(p.value)|
  {
    HasThree(s, i, Quote(p.key), ":", Text(p.value));
    HasChar(s, i + |Quote(p.key)|, ":", 0);
  }

  lemma {:induction false} PairSpelled(s: string, i: nat, p: Pair)
    requires Has(s, i, PairText(p))
    ensures PairAt(s, i, p) && EndPair(i, p) == i + |PairText(p)|
    decreases p, 3
  {
    PairPieces(s, i, p);
    QuoteSpelled(s, i, p.key);
    Spelled(s, i + |Quote(p.key)| + 1, p.value);
  }

  lemma {:induction false} PairsSpelled(s: string, i: nat, ps: seq<Pair>)
    requires Has(s, i, DictText(ps))
    ensures PairsAt(s, i, ps) && EndPairs(i, ps) == i + |DictText(ps)|
    decreases ps, 0
  {
    if ps != [] {
      var rest := ps[1..];
      HasParts(s, i, PairText(ps[0]), MorePairs(rest));
      PairSpelled(s, i, ps[0]);
      if rest != [] {
        var j := i + |PairText(ps[0])|;
        MorePairsIsDict(rest);
        HasParts(s, j, ",", DictText(rest));
        HasChar(s, j, ",", 0);
        PairsSpelled(s, j + 1, rest);
      }
    }
  }

  lemma MorePairsIsDict(ps: seq<Pair>)
    requires ps != []
    ensures MorePairs(ps) == "," + DictText(ps)
  {
  }
}
