/** Reading what was written: the reader and the writer undo each other (micai/src/json.rs). */
module JsonRoundTrip {
  import opened JsonText
  import opened Texts
  import opened JsonSpelling

  // ------------------------------------------------------------------ numbers

  lemma {:induction false} NaturalOfDecimal(n: nat)
    ensures Natural(Decimal(n)) == n
    ensures |Decimal(n)| > 1 ==> Decimal(n)[0] != '-'
  {
    if n < 10 {
      assert [Digit(n)][..0] == "";
    } else {
      NaturalOfDecimal(n / 10);
      assert Decimal(n)[..|Decimal(n)| - 1] == Decimal(n / 10);
    }
  }

  lemma SignedOfShown(n: int)
    ensures Signed(Shown(n)) == Whole(n)
    ensures Shown(n) != "" && Shown(n) != "-"
    ensures forall k :: 0 <= k < |Shown(n)| ==> IsDigit(Shown(n)[k]) || Shown(n)[k] == '-'
  {
    if n < 0 {
      NaturalOfDecimal(-n);
      assert Shown(n)[1..] == Decimal(-n);
    } else {
      NaturalOfDecimal(n);
      assert IsDigit(Shown(n)[0]);
    }
  }

  ghost predicate NumberText(t: string) {
    forall k :: 0 <= k < |t| ==> NumberChar(t[k])
  }

  /** The reader takes exactly the characters that can be part of a number. */
  lemma {:induction false} SkipNumberOver(s: string, i: nat, t: string)
    requires Has(s, i, t) && NumberText(t)
    requires i + |t| == |s| || !NumberChar(s[i + |t|])
    ensures SkipNumber(s, i) == i + |t|
    decreases |t|
  {
    if t != "" {
      HasChar(s, i, t, 0);
      assert t == [t[0]] + t[1..];
      HasParts(s, i, [t[0]], t[1..]);
      SkipNumberOver(s, i + 1, t[1..]);
    }
  }

  lemma ShownIsInt(n: I64, at: nat, next: nat)
    ensures Numeral(Shown(n as int), at, next) == Good(Int(n), next)
    ensures NumberText(Shown(n as int))
  {
    var t := Shown(n as int);
    SignedOfShown(n as int);
    assert '.' !in t && 'e' !in t && 'E' !in t;
  }

  lemma PlainIsNumber(s: string, i: nat)
    requires i < |s| && (IsDigit(s[i]) || s[i] == '-')
    ensures Plain(s, i) == Number(s, i)
  {
  }

  lemma NumberReads(s: string, i: nat, n: I64)
    requires Has(s, i, Shown(n as int))
    requires i + |Shown(n as int)| == |s| || !NumberChar(s[i + |Shown(n as int)|])
    ensures Plain(s, i) == Good(Int(n), i + |Shown(n as int)|)
  {
    var t := Shown(n as int);
    SignedOfShown(n as int);
    HasChar(s, i, t, 0);
    PlainIsNumber(s, i);
    NumberTaken(s, i, n);
  }

  lemma NumberTaken(s: string, i: nat, n: I64)
    requires Has(s, i, Shown(n as int))
    requires i + |Shown(n as int)| == |s| || !NumberChar(s[i + |Shown(n as int)|])
    ensures Number(s, i) == Good(Int(n), i + |Shown(n as int)|)
  {
    var t := Shown(n as int);
    var next := i + |t|;
    ShownIsInt(n, i, next);
    SkipNumberOver(s, i, t);
    HasIsSlice(s, i, t);
    assert Number(s, i) == Numeral(t, i, next);
  }

  // ------------------------------------------------------------------ strings

  lemma HexReads(s: string, i: nat, n: nat)
    requires n < 32 && i + 4 <= |s| && s[i] == '0' && s[i + 1] == '0'
    requires s[i + 2] == HexDigit(n / 16) && s[i + 3] == HexDigit(n % 16)
    ensures HexDigits(s, i, 4, 0) == Good(n, i + 4)
  {
    assert HexValue(s[i + 2]) == n / 16 && HexValue(s[i + 3]) == n % 16;
    assert HexDigits(s, i + 4, 0, n) == Good(n, i + 4);
    assert HexDigits(s, i + 3, 1, n / 16) == Good(n, i + 4);
    assert HexDigits(s, i + 2, 2, 0) == Good(n, i + 4);
    assert HexDigits(s, i + 1, 3, 0) == Good(n, i + 4);
  }

  lemma CharReads(s: string, i: nat, c: char)
    requires EscapeAt(s, i, c)
    ensures s[i] != '"'
    ensures CharHere(s, i) == Good(c, i + EscapeWidth(c))
  {
    if !IsShort(c) && c < ' ' {
      HexReads(s, i + 2, c as int);
    }
  }

  lemma CharsStep(s: string, i: nat, c: char, j: nat)
    requires i < |s| && s[i] != '"' && j <= |s|
    requires CharHere(s, i) == Good(c, j)
    ensures Chars(s, j).Good? ==> Chars(s, i) == Good([c] + Chars(s, j).value, Chars(s, j).next)
  {
  }

  lemma {:induction false} CharsRead(s: string, i: nat, t: string)
    requires i <= |s| && CharsAt(s, i, t) && CharAt(s, EndChars(i, t), '"')
    ensures Chars(s, i) == Good(t, EndChars(i, t) + 1)
    decreases |t|
  {
    if t != "" {
      var j := i + EscapeWidth(t[0]);
      CharReads(s, i, t[0]);
      CharsRead(s, j, t[1..]);
      CharsStep(s, i, t[0], j);
      assert [t[0]] + t[1..] == t;
    }
  }

  lemma QuoteReads(s: string, i: nat, t: string)
    requires QuoteAt(s, i, t)
    ensures Chars(s, i + 1) == Good(t, EndQuote(i, t))
  {
    CharsRead(s, i + 1, t);
  }

  // ------------------------------------------------------------------ whole values

  ghost predicate FloatFree(v: Json)
    decreases v
  {
    match v
    case Null => true
    case Bool(_) => true
    case Int(_) => true
    case Float(_) => false
    case Str(_) => true
    case List(vs) => AllFloatFree(vs)
    case Dict(ps) => PairsFloatFree(ps)
  }

  ghost predicate AllFloatFree(vs: seq<Json>)
    decreases vs
  {
    vs == [] || (FloatFree(vs[0]) && AllFloatFree(vs[1..]))
  }

  ghost predicate PairsFloatFree(ps: seq<Pair>)
    decreases ps
  {
    ps == [] || (PairFloatFree(ps[0]) && PairsFloatFree(ps[1..]))
  }

  ghost predicate PairFloatFree(p: Pair)
    decreases p
  {
    FloatFree(p.value)
  }

  /** The tree with repeated keys settled the way the reader settles them. */
  ghost function Settled(v: Json): Json
    decreases v
  {
    match v
    case Null => v
    case Bool(_) => v
    case Int(_) => v
    case Float(_) => v
    case Str(_) => v
    case List(vs) => List(SettledAll(vs))
    case Dict(ps) => Dict(PutAll([], SettledPairs(ps)))
  }

  ghost function SettledAll(vs: seq<Json>): seq<Json>
    decreases vs
  {
    if vs == [] then [] else [Settled(vs[0])] + SettledAll(vs[1..])
  }

  ghost function SettledPair(p: Pair): Pair
    decreases p
  {
    Pair(p.key, Settled(p.value))
  }

  ghost function SettledPairs(ps: seq<Pair>): seq<Pair>
    decreases ps
  {
    if ps == [] then [] else [SettledPair(ps[0])] + SettledPairs(ps[1..])
  }

  /** What may follow a value: anything, except that a number must not run on. */
  ghost predicate Delimited(s: string, j: nat, v: Json) {
    v.Int? ==> j >= |s| || !NumberChar(s[j])
  }

  lemma SkipNone(s: string, i: nat)
    requires i < |s| && !IsSpace(s[i])
    ensures Skip(s, i) == i
  {
  }

  /** A value starts with a character that is neither a space nor a closing bracket. */
  lemma Starts(s: string, i: nat, v: Json)
    requires FloatFree(v) && At(s, i, v)
    ensures i < |s| && !IsSpace(s[i]) && s[i] != ']' && s[i] != '}'
    ensures s[i] == '[' <==> v.List?
    ensures s[i] == '{' <==> v.Dict?
  {
    match v
    case Null =>
    case Bool(_) =>
    case Int(n) =>
      SignedOfShown(n as int);
      HasChar(s, i, Shown(n as int), 0);
    case Str(_) =>
    case List(_) =>
    case Dict(_) =>
  }

  lemma FourIs(s: string, i: nat, t: string)
    requires |t| == 4 && Four(s, i, t[0], t[1], t[2], t[3])
    ensures Has(s, i, t)
  {
    HasIsSlice(s, i, t);
    assert s[i..i + 4] == t;
  }

  lemma WordReads(s: string, i: nat, v: Json)
    requires (v.Null? || v.Bool?) && At(s, i, v)
    ensures i < |s| && Plain(s, i) == Good(v, End(i, v))
  {
    if v.Null? {
      FourIs(s, i, "null");
    } else if v.b {
      FourIs(s, i, "true");
    } else {
      HasIsSlice(s, i, "false");
      assert s[i..i + 5] == "false";
    }
  }

  lemma PlainReads(s: string, i: nat, v: Json)
    requires FloatFree(v) && !v.List? && !v.Dict? && At(s, i, v) && Delimited(s, End(i, v), v)
    ensures i < |s| && Plain(s, i) == Good(v, End(i, v))
  {
    Starts(s, i, v);
    match v
    case Null => WordReads(s, i, v);
    case Bool(_) => WordReads(s, i, v);
    case Int(n) => NumberReads(s, i, n);
    case Str(t) => QuoteReads(s, i, t);
  }

  /** Reading at a written value consumes exactly that value. */
  lemma {:induction false} ReadsBack(s: string, i: nat, v: Json)
    requires FloatFree(v) && At(s, i, v) && Delimited(s, End(i, v), v)
    ensures Value(s, i) == Good(Settled(v), End(i, v))
    decreases v, 1
  {
    Starts(s, i, v);
    SkipNone(s, i);
    if v.List? {
      ListReads(s, i, v.items);
    } else if v.Dict? {
      DictReads(s, i, v.pairs);
    } else {
      PlainReads(s, i, v);
    }
  }

  lemma {:induction false} ListReads(s: string, i: nat, vs: seq<Json>)
    requires AllFloatFree(vs) && At(s, i, List(vs))
    ensures Array(s, i) == Good(Settled(List(vs)), End(i, List(vs)))
    decreases vs, 1
  {
    if vs != [] {
      Starts(s, i + 1, vs[0]);
      SkipNone(s, i + 1);
      ElementsRead(s, i + 1, vs);
    } else {
      SkipNone(s, i + 1);
    }
  }

  lemma {:induction false} ElementsRead(s: string, i: nat, vs: seq<Json>)
    requires vs != [] && AllFloatFree(vs)
    requires i <= |s| && AllAt(s, i, vs) && CharAt(s, EndAll(i, vs), ']')
    ensures Elements(s, i) == Good(SettledAll(vs), EndAll(i, vs) + 1)
    decreases vs, 0
  {
    var j := End(i, vs[0]);
    ReadsBack(s, i, vs[0]);
    ElementStep(s, i, Settled(vs[0]), j);
    if |vs| > 1 {
      ElementsRead(s, j + 1, vs[1..]);
    } else {
      assert SettledAll(vs) == [Settled(vs[0])];
    }
  }

  /** After an element comes a comma and the rest, or the end. */
  lemma ElementStep(s: string, i: nat, v: Json, j: nat)
    requires i <= |s| && Value(s, i) == Good(v, j) && j < |s|
    ensures s[j] == ']' ==> Elements(s, i) == Good([v], j + 1)
    ensures s[j] == ',' && Elements(s, j + 1).Good? ==>
      Elements(s, i) == Good([v] + Elements(s, j + 1).value, Elements(s, j + 1).next)
  {
    if !IsSpace(s[j]) { SkipNone(s, j); }
  }

  lemma {:induction false} DictReads(s: string, i: nat, ps: seq<Pair>)
    requires PairsFloatFree(ps) && At(s, i, Dict(ps))
    ensures Object(s, i) == Good(Settled(Dict(ps)), End(i, Dict(ps)))
    decreases ps, 1
  {
    if ps == [] {
      SkipNone(s, i + 1);
    } else {
      assert PairAt(s, i + 1, ps[0]);
      SkipNone(s, i + 1);
      MembersRead(s, i + 1, ps);
    }
  }

  lemma KeyReads(s: string, i: nat, k: string)
    requires QuoteAt(s, i, k) && CharAt(s, EndQuote(i, k), ':')
    ensures Key(s, i) == Good(k, EndQuote(i, k) + 1)
  {
    QuoteReads(s, i, k);
    SkipNone(s, i);
    SkipNone(s, EndQuote(i, k));
  }

  lemma {:induction false} PairReads(s: string, i: nat, p: Pair)
    requires PairFloatFree(p) && PairAt(s, i, p) && Delimited(s, EndPair(i, p), p.value)
    ensures Key(s, i) == Good(p.key, EndQuote(i, p.key) + 1)
    ensures Value(s, EndQuote(i, p.key) + 1) == Good(Settled(p.value), EndPair(i, p))
    decreases p, 0
  {
    KeyReads(s, i, p.key);
    ReadsBack(s, EndQuote(i, p.key) + 1, p.value);
  }

  lemma {:induction false} MembersRead(s: string, i: nat, ps: seq<Pair>)
    requires ps != [] && PairsFloatFree(ps)
    requires i <= |s| && PairsAt(s, i, ps) && CharAt(s, EndPairs(i, ps), '}')
    ensures Members(s, i) == Good(SettledPairs(ps), EndPairs(i, ps) + 1)
    decreases ps, 0
  {
    PairsUnfold(s, i, ps);
    MemberReads(s, i, ps[0]);
    if |ps| > 1 {
      MembersRead(s, EndPair(i, ps[0]) + 1, ps[1..]);
    }
  }

  lemma PairsUnfold(s: string, i: nat, ps: seq<Pair>)
    requires ps != [] && PairsAt(s, i, ps)
    ensures SettledPairs(ps) == [SettledPair(ps[0])] + SettledPairs(ps[1..])
    ensures |ps| == 1 ==> EndPairs(i, ps) == EndPair(i, ps[0]) && SettledPairs(ps) == [SettledPair(ps[0])]
    ensures |ps| > 1 ==> EndPairs(i, ps) == EndPairs(EndPair(i, ps[0]) + 1, ps[1..]) && CharAt(s, EndPair(i, ps[0]), ',')
  {
  }

  lemma {:induction false} MemberReads(s: string, i: nat, p: Pair)
    requires PairFloatFree(p) && PairAt(s, i, p) && i <= |s|
    ensures var j := EndPair(i, p);
      CharAt(s, j, '}') ==> Members(s, i) == Good([SettledPair(p)], j + 1)
    ensures var j := EndPair(i, p);
      CharAt(s, j, ',') && Members(s, j + 1).Good? ==>
        Members(s, i) == Good([SettledPair(p)] + Members(s, j + 1).value, Members(s, j + 1).next)
    decreases p, 1
  {
    var j := EndPair(i, p);
    if CharAt(s, j, '}') || CharAt(s, j, ',') {
      PairReads(s, i, p);
      MemberStep(s, i, p.key, EndQuote(i, p.key) + 1, Settled(p.value), j);
    }
  }

  lemma MemberStep(s: string, i: nat, k: string, m: nat, v: Json, j: nat)
    requires i <= |s| && Key(s, i) == Good(k, m) && Value(s, m) == Good(v, j) && j < |s|
    ensures s[j] == '}' ==> Members(s, i) == Good([Pair(k, v)], j + 1)
    ensures s[j] == ',' && Members(s, j + 1).Good? ==>
      Members(s, i) == Good([Pair(k, v)] + Members(s, j + 1).value, Members(s, j + 1).next)
  {
    if !IsSpace(s[j]) { SkipNone(s, j); }
  }

  // ------------------------------------------------------------------ trees that come back unchanged

  ghost predicate KeysOnce(ps: seq<Pair>) {
    forall a, b :: 0 <= a < b < |ps| ==> ps[a].key != ps[b].key
  }

  ghost predicate DistinctKeys(v: Json)
    decreases v
  {
    match v
    case Null => true
    case Bool(_) => true
    case Int(_) => true
    case Float(_) => true
    case Str(_) => true
    case List(vs) => forall k :: 0 <= k < |vs| ==> DistinctKeys(vs[k])
    case Dict(ps) => KeysOnce(ps) && forall k :: 0 <= k < |ps| ==> DistinctKeys(ps[k].value)
  }

  lemma {:induction false} PutNew(out: seq<Pair>, k: string, v: Json)
    requires forall a :: 0 <= a < |out| ==> out[a].key != k
    ensures Put(out, k, v) == out + [Pair(k, v)]
  {
    if out != [] {
      PutNew(out[1..], k, v);
    }
  }

  lemma {:induction false} PutAllNew(out: seq<Pair>, ps: seq<Pair>)
    requires KeysOnce(out + ps)
    ensures PutAll(out, ps) == out + ps
    decreases |ps|
  {
    if ps == [] {
      assert out + ps == out;
    } else {
      forall a | 0 <= a < |out| ensures out[a].key != ps[0].key {
        assert (out + ps)[a] == out[a] && (out + ps)[|out|] == ps[0];
      }
      PutNew(out, ps[0].key, ps[0].value);
      assert Pair(ps[0].key, ps[0].value) == ps[0];
      assert out + [ps[0]] + ps[1..] == out + ps;
      PutAllNew(out + [ps[0]], ps[1..]);
    }
  }

  /** Every key is there once, and every value has distinct keys itself. */
  ghost predicate Tidy(ps: seq<Pair>) {
    KeysOnce(ps) && forall a :: 0 <= a < |ps| ==> DistinctKeys(ps[a].value)
  }

  /** A key is put once: in its old place, or at the end. */
  lemma {:induction false} PutKeepsOnce(out: seq<Pair>, k: string, v: Json)
    requires Tidy(out) && DistinctKeys(v)
    ensures Tidy(Put(out, k, v))
    ensures forall a :: 0 <= a < |Put(out, k, v)| ==>
      Put(out, k, v)[a].key == k || exists b :: 0 <= b < |out| && out[b].key == Put(out, k, v)[a].key
  {
    if out != [] && out[0].key != k {
      var rest := Put(out[1..], k, v);
      PutKeepsOnce(out[1..], k, v);
      forall a | 0 <= a < |rest| && rest[a].key != k
        ensures exists b :: 0 < b < |out| && out[b].key == rest[a].key
      {
        var b :| 0 <= b < |out[1..]| && out[1..][b].key == rest[a].key;
        assert out[b + 1].key == rest[a].key;
      }
    }
  }

  lemma {:induction false} PutAllTidy(out: seq<Pair>, ps: seq<Pair>)
    requires Tidy(out) && forall a :: 0 <= a < |ps| ==> DistinctKeys(ps[a].value)
    ensures Tidy(PutAll(out, ps))
    decreases |ps|
  {
    if ps != [] {
      PutKeepsOnce(out, ps[0].key, ps[0].value);
      PutAllTidy(Put(out, ps[0].key, ps[0].value), ps[1..]);
    }
  }

  lemma {:induction false} SettledIsDistinct(v: Json)
    ensures DistinctKeys(Settled(v))
    decreases v
  {
    if v.List? {
      AllSettledDistinct(v.items);
    } else if v.Dict? {
      PairsSettledDistinct(v.pairs);
      PutAllTidy([], SettledPairs(v.pairs));
    }
  }

  lemma {:induction false} AllSettledDistinct(vs: seq<Json>)
    ensures forall k :: 0 <= k < |SettledAll(vs)| ==> DistinctKeys(SettledAll(vs)[k])
    decreases vs
  {
    if vs != [] {
      SettledIsDistinct(vs[0]);
      AllSettledDistinct(vs[1..]);
    }
  }

  lemma {:induction false} PairsSettledDistinct(ps: seq<Pair>)
    ensures forall k :: 0 <= k < |SettledPairs(ps)| ==> DistinctKeys(SettledPairs(ps)[k].value)
    decreases ps
  {
    if ps != [] {
      SettledIsDistinct(ps[0].value);
      PairsSettledDistinct(ps[1..]);
    }
  }

  lemma {:induction false} DistinctIsSettled(v: Json)
    requires DistinctKeys(v)
    ensures Settled(v) == v
    decreases v
  {
    if v.List? {
      AllDistinctSettled(v.items);
    } else if v.Dict? {
      PairsDistinctSettled(v.pairs);
      assert [] + v.pairs == v.pairs;
      PutAllNew([], v.pairs);
    }
  }

  lemma {:induction false} AllDistinctSettled(vs: seq<Json>)
    requires forall k :: 0 <= k < |vs| ==> DistinctKeys(vs[k])
    ensures SettledAll(vs) == vs
    decreases vs
  {
    if vs != [] {
      DistinctIsSettled(vs[0]);
      AllDistinctSettled(vs[1..]);
    }
  }

  lemma {:induction false} PairsDistinctSettled(ps: seq<Pair>)
    requires forall k :: 0 <= k < |ps| ==> DistinctKeys(ps[k].value)
    ensures SettledPairs(ps) == ps
    decreases ps
  {
    if ps != [] {
      DistinctIsSettled(ps[0].value);
      PairsDistinctSettled(ps[1..]);
    }
  }

  // ------------------------------------------------------------------ the theorems

  lemma HasSelf(t: string, rest: string)
    ensures Has(t + rest, 0, t)
  {
    HasIsSlice(t + rest, 0, t);
    assert (t + rest)[0..0 + |t|] == t;
  }

  /** A written value followed by anything that does not run on: reading takes exactly the value. */
  lemma ReadsJustTheValue(v: Json, rest: string)
    requires FloatFree(v) && (v.Int? && rest != "" ==> !NumberChar(rest[0]))
    ensures Value(Text(v) + rest, 0) == Good(Settled(v), |Text(v)|)
  {
    HasSelf(Text(v), rest);
    Spelled(Text(v) + rest, 0, v);
    ReadsBack(Text(v) + rest, 0, v);
  }

  /**
   * Parsing what was written gives back the tree, with repeated keys settled. So it gives back the
   * very same tree exactly when no dictionary in it has a key twice.
   */
  lemma RoundTrip(v: Json)
    requires FloatFree(v)
    ensures Parse(Text(v)) == Read(Settled(v))
    ensures Parse(Text(v)) == Read(v) <==> DistinctKeys(v)
  {
    assert Text(v) + "" == Text(v);
    ReadsJustTheValue(v, "");
    if DistinctKeys(v) {
      DistinctIsSettled(v);
    } else {
      SettledIsDistinct(v);
    }
  }

  /** Whatever the reader accepts has no key twice, at any depth. */
  lemma {:induction false} ReadIsDistinct(s: string, i: nat)
    requires i <= |s| && Value(s, i).Good?
    ensures DistinctKeys(Value(s, i).value)
    decreases |s| - i, 2
  {
    var j := Skip(s, i);
    if s[j] == '[' {
      var k := Skip(s, j + 1);
      if !(k < |s| && s[k] == ']') { ElementsDistinct(s, k); }
    } else if s[j] == '{' {
      var k := Skip(s, j + 1);
      if !(k < |s| && s[k] == '}') {
        MembersDistinct(s, k);
        PutAllTidy([], Members(s, k).value);
      }
    }
  }

  lemma {:induction false} ElementsDistinct(s: string, i: nat)
    requires i <= |s| && Elements(s, i).Good?
    ensures forall k :: 0 <= k < |Elements(s, i).value| ==> DistinctKeys(Elements(s, i).value[k])
    decreases |s| - i, 3
  {
    ReadIsDistinct(s, i);
    var j := Skip(s, Value(s, i).next);
    if s[j] == ',' { ElementsDistinct(s, j + 1); }
  }

  lemma {:induction false} MembersDistinct(s: string, i: nat)
    requires i <= |s| && Members(s, i).Good?
    ensures forall k :: 0 <= k < |Members(s, i).value| ==> DistinctKeys(Members(s, i).value[k].value)
    decreases |s| - i, 3
  {
    var m := Key(s, i).next;
    ReadIsDistinct(s, m);
    var j := Skip(s, Value(s, m).next);
    if s[j] == ',' { MembersDistinct(s, j + 1); }
  }

  /** Any accepted text without floats: writing the tree and reading it again changes nothing. */
  lemma AcceptedTextSettles(s: string)
    requires Parse(s).Read? && FloatFree(Parse(s).value)
    ensures Parse(Text(Parse(s).value)) == Parse(s)
  {
    ReadIsDistinct(s, 0);
    RoundTrip(Parse(s).value);
  }

  // ------------------------------------------------------------------ what is never written raw

  ghost predicate NoControls(t: string) {
    forall k :: 0 <= k < |t| ==> t[k] >= ' '
  }

  lemma {:induction false} EscapedIsClean(t: string)
    ensures NoControls(EscapeAll(t))
  {
    if t != "" {
      EscapedIsClean(t[1..]);
    }
  }

  /** No control character reaches the text unescaped (section 7 of RFC 8259). */
  lemma {:induction false} TextIsClean(v: Json)
    requires FloatFree(v)
    ensures NoControls(Text(v))
    decreases v
  {
    match v
    case Null =>
    case Bool(_) =>
    case Int(n) =>
      SignedOfShown(n as int);
    case Str(t) => EscapedIsClean(t);
    case List(vs) => if vs != [] { TextIsClean(vs[0]); MoreIsClean(vs[1..]); }
    case Dict(ps) => if ps != [] { PairIsClean(ps[0]); MorePairsAreClean(ps[1..]); }
  }

  lemma {:induction false} MoreIsClean(vs: seq<Json>)
    requires AllFloatFree(vs)
    ensures NoControls(MoreText(vs))
    decreases vs
  {
    if vs != [] {
      TextIsClean(vs[0]);
      MoreIsClean(vs[1..]);
    }
  }

  lemma {:induction false} PairIsClean(p: Pair)
    requires PairFloatFree(p)
    ensures NoControls(PairText(p))
    decreases p
  {
    EscapedIsClean(p.key);
    TextIsClean(p.value);
  }

  lemma {:induction false} MorePairsAreClean(ps: seq<Pair>)
    requires PairsFloatFree(ps)
    ensures NoControls(MorePairs(ps))
    decreases ps
  {
    if ps != [] {
      PairIsClean(ps[0]);
      MorePairsAreClean(ps[1..]);
    }
  }

  // ------------------------------------------------------------------ what is written, by characters

  /** Every character that is written otherwise than as itself, by its code. */
  lemma EscapesAre(c: char)
    ensures var n := c as int;
      EscapeChar(c) ==
        if n == 34 then "\\\"" else if n == 92 then "\\\\" else if n == 10 then "\\n" else if n == 9 then "\\t"
        else if n == 13 then "\\r" else if n < 16 then "\\u000" + ["0123456789abcdef"[n]]
        else if n < 32 then "\\u001" + ["0123456789abcdef"[n - 16]] else [c]
  {
    var n := c as int;
    if n < 32 && !IsShort(c) {
      LowHex(n % 16);
      assert EscapeChar(c) == "\\u00" + [HexDigit(n / 16), HexDigit(n % 16)];
      assert "\\u000" == "\\u00" + "0" && "\\u001" == "\\u00" + "1";
    }
  }

  lemma LowHex(d: nat)
    requires d < 16
    ensures HexDigit(d) == "0123456789abcdef"[d]
  {
  }

  /** Integers have no leading zeros, and the other plain values are words. */
  lemma {:induction false} WordsAre(n: nat)
    ensures Text(Null) == "null" && Text(Bool(true)) == "true" && Text(Bool(false)) == "false"
    ensures n > 0 ==> Decimal(n)[0] != '0'
    ensures Decimal(0) == "0"
  {
    if n >= 10 { WordsAre(n / 10); }
  }

  /** One more element comes after a comma, and nothing else is between them. */
  lemma {:induction false} OneMoreItem(vs: seq<Json>, v: Json)
    ensures Text(List([])) == "[]" && Text(List([v])) == "[" + Text(v) + "]"
    ensures vs != [] ==> ListText(vs + [v]) == ListText(vs) + ("," + Text(v))
  {
    assert [v][1..] == [] && MoreText([]) == "" && ListText([]) == "";
    assert ListText([v]) == Text(v);
    if vs != [] {
      MoreItems(vs[1..], v);
      assert (vs + [v])[1..] == vs[1..] + [v];
      Regroup(Text(vs[0]), MoreText(vs[1..]), "," + Text(v));
    }
  }

  lemma {:induction false} MoreItems(vs: seq<Json>, v: Json)
    ensures MoreText(vs + [v]) == MoreText(vs) + ("," + Text(v))
    decreases |vs|
  {
    var all := vs + [v];
    if vs == [] {
      assert all == [v] && [v][1..] == [] && MoreText([]) == "";
    } else {
      MoreItems(vs[1..], v);
      assert all[1..] == vs[1..] + [v] && all[0] == vs[0];
      Regroup("," + Text(vs[0]), MoreText(vs[1..]), "," + Text(v));
    }
  }

  /** The same for members: a quoted key, a colon and the value. */
  lemma {:induction false} OneMoreMember(ps: seq<Pair>, k: string, v: Json)
    ensures Text(Dict([])) == "{}" && Text(Dict([Pair(k, v)])) == "{" + (Quote(k) + ":" + Text(v)) + "}"
    ensures ps != [] ==> DictText(ps + [Pair(k, v)]) == DictText(ps) + ("," + (Quote(k) + ":" + Text(v)))
  {
    var p := Pair(k, v);
    assert [p][1..] == [] && MorePairs([]) == "" && DictText([]) == "";
    assert DictText([p]) == PairText(p);
    if ps != [] {
      MoreMembers(ps[1..], p);
      assert (ps + [p])[1..] == ps[1..] + [p];
      Regroup(PairText(ps[0]), MorePairs(ps[1..]), "," + PairText(p));
    }
  }

  lemma {:induction false} MoreMembers(ps: seq<Pair>, p: Pair)
    ensures MorePairs(ps + [p]) == MorePairs(ps) + ("," + PairText(p))
    decreases |ps|
  {
    var all := ps + [p];
    if ps == [] {
      assert all == [p] && [p][1..] == [] && MorePairs([]) == "";
    } else {
      MoreMembers(ps[1..], p);
      assert all[1..] == ps[1..] + [p] && all[0] == ps[0];
      Regroup("," + PairText(ps[0]), MorePairs(ps[1..]), "," + PairText(p));
    }
  }

  lemma Regroup(a: string, b: string, c: string)
    ensures a + b + c == a + (b + c)
  {
  }
}
