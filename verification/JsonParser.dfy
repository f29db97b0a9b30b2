/** The reader and the writer as they run: a cursor over the text and a growing buffer (micai/src/json.rs). */
module JsonParser {
  import opened JsonText
  import opened Texts
  import JsonGrammar

  datatype Turn<T> = More(out: T) | Done(out: T) | Fault(error: Error)

  class Parser {
    const s: string
    var i: nat

    ghost predicate Valid()
      reads this
    {
      i <= |s|
    }

    constructor (text: string)
      ensures s == text && i == 0
    {
      s, i := text, 0;
    }

    method Ws()
      requires Valid()
      modifies this
      ensures Valid() && i == Skip(s, old(i))
    {
      while i < |s| && IsSpace(s[i])
        invariant Valid() && Skip(s, i) == Skip(s, old(i))
      {
        i := i + 1;
      }
    }

    method Lit(word: string) returns (found: bool)
      requires Valid()
      modifies this
      ensures Valid() && found == Has(s, old(i), word) && i == if found then old(i) + |word| else old(i)
    {
      HasIsSlice(s, i, word);
      found := i + |word| <= |s| && s[i..i + |word|] == word;
      if found {
        i := i + |word|;
      }
    }

    method Value() returns (r: Result)
      requires Valid()
      modifies this
      ensures Valid() && Ends(JsonText.Value(s, old(i)), r)
      decreases |s| - i, 2
    {
      Ws();
      if i == |s| {
        return Failed(UnexpectedEnd);
      }
      var c := s[i];
      if c == '{' {
        r := Object();
      } else if c == '[' {
        r := Array();
      } else if c == '"' {
        var t := String();
        r := if t.Bad? then Failed(t.error) else Read(Str(t.value));
      } else if c == 't' {
        r := Named("true", Bool(true));
      } else if c == 'f' {
        r := Named("false", Bool(false));
      } else if c == 'n' {
        r := Named("null", Null);
      } else {
        r := Number();
      }
    }

    /** What a finished call promises: the value and the place the text says, or its error. */
    ghost predicate Ends(p: Parsed<Json>, r: Result)
      reads this
    {
      if p.Good? then r == Read(p.value) && i == p.next else r == Failed(p.error)
    }

    method Named(word: string, v: Json) returns (r: Result)
      requires Valid()
      modifies this
      ensures Valid() && Ends(Word(s, old(i), word, v), r)
    {
      var found := Lit(word);
      r := if found then Read(v) else Failed(ExpectedWord(i));
    }

    method Object() returns (r: Result)
      requires Valid() && i < |s| && s[i] == '{'
      modifies this
      ensures Valid() && Ends(JsonText.Object(s, old(i)), r)
      decreases |s| - i, 1
    {
      ghost var start := i;
      i := i + 1;
      var out: seq<Pair> := [];
      Ws();
      if i < |s| && s[i] == '}' {
        i := i + 1;
        return Read(Dict(out));
      }
      ghost var all := Members(s, i);
      while true
        invariant Valid() && start < i && PairsLeft(all, out)
        decreases |s| - i
      {
        var t := Member(out);
        if t.Fault? {
          return Failed(t.error);
        }
        out := t.out;
        if t.Done? {
          break;
        }
      }
      r := Read(Dict(out));
    }

    /** `all` is what was left to read at the start, `out` what has been read since. */
    ghost predicate PairsLeft(all: Parsed<seq<Pair>>, out: seq<Pair>)
      requires i <= |s|
      reads this
    {
      var left := Members(s, i);
      if left.Good? then all.Good? && all.next == left.next && PutAll([], all.value) == PutAll(out, left.value)
      else all == left
    }

    /** One turn of the loop: a member, and what comes after it. */
    method Member(out: seq<Pair>) returns (r: Turn<seq<Pair>>)
      requires Valid()
      modifies this
      ensures Valid() && (r.More? ==> i > old(i))
      ensures var was := Members(s, old(i));
        match r
        case Fault(e) => was == Bad(e)
        case Done(o) => was.Good? && was.next == i && PutAll(out, was.value) == o
        case More(o) =>
          var left := Members(s, i);
          if left.Good? then was.Good? && was.next == left.next && PutAll(out, was.value) == PutAll(o, left.value)
          else was == left
      decreases |s| - i, 4
    {
      var k := Name();
      if k.Bad? {
        return Fault(k.error);
      }
      var v := Value();
      if v.Failed? {
        return Fault(v.error);
      }
      var next := SetKey(out, k.value, v.value);
      Ws();
      if i < |s| && s[i] == ',' {
        i := i + 1;
        r := More(next);
      } else if i < |s| && s[i] == '}' {
        i := i + 1;
        r := Done(next);
      } else {
        r := Fault(ExpectedCommaOrEnd(i));
      }
    }

    /** A quoted name and its colon. */
    method Name() returns (r: Parsed<string>)
      requires Valid()
      modifies this
      ensures Valid() && r == Key(s, old(i)) && (r.Good? ==> i == r.next)
    {
      Ws();
      if i == |s| || s[i] != '"' {
        return Bad(KeysMustBeQuoted(i));
      }
      r := String();
      if r.Bad? {
        return;
      }
      Ws();
      if i == |s| || s[i] != ':' {
        return Bad(ExpectedColon(i));
      }
      i := i + 1;
      r := Good(r.value, i);
    }

    method Array() returns (r: Result)
      requires Valid() && i < |s| && s[i] == '['
      modifies this
      ensures Valid() && Ends(JsonText.Array(s, old(i)), r)
      decreases |s| - i, 1
    {
      ghost var start := i;
      i := i + 1;
      var out: seq<Json> := [];
      Ws();
      if i < |s| && s[i] == ']' {
        i := i + 1;
        return Read(List(out));
      }
      ghost var all := Elements(s, i);
      while true
        invariant Valid() && start < i && ItemsLeft(all, out)
        decreases |s| - i
      {
        var t := Element(out);
        if t.Fault? {
          return Failed(t.error);
        }
        out := t.out;
        if t.Done? {
          break;
        }
      }
      r := Read(List(out));
    }

    ghost predicate ItemsLeft(all: Parsed<seq<Json>>, out: seq<Json>)
      requires i <= |s|
      reads this
    {
      var left := Elements(s, i);
      if left.Good? then all.Good? && all.next == left.next && all.value == out + left.value else all == left
    }

    method Element(out: seq<Json>) returns (r: Turn<seq<Json>>)
      requires Valid()
      modifies this
      ensures Valid() && (r.More? ==> i > old(i))
      ensures var was := Elements(s, old(i));
        match r
        case Fault(e) => was == Bad(e)
        case Done(o) => was.Good? && was.next == i && out + was.value == o
        case More(o) =>
          var left := Elements(s, i);
          if left.Good? then was.Good? && was.next == left.next && out + was.value == o + left.value else was == left
      decreases |s| - i, 4
    {
      var v := Value();
      if v.Failed? {
        return Fault(v.error);
      }
      var next := out + [v.value];
      Ws();
      if i < |s| && s[i] == ',' {
        i := i + 1;
        r := More(next);
      } else if i < |s| && s[i] == ']' {
        i := i + 1;
        r := Done(next);
      } else {
        r := Fault(ExpectedCommaOrEnd(i));
      }
    }

    method String() returns (r: Parsed<string>)
      requires Valid() && i < |s| && s[i] == '"'
      modifies this
      ensures Valid() && r == Chars(s, old(i) + 1) && (r.Good? ==> i == r.next)
    {
      i := i + 1;
      var out := "";
      ghost var all := Chars(s, i);
      while i < |s| && s[i] != '"'
        invariant Valid() && old(i) < i && CharsLeft(all, out)
        decreases |s| - i
      {
        ghost var at := i;
        var c := OneChar();
        if c.Bad? {
          return Bad(c.error);
        }
        CharsOn(s, at, c.value, i, out);
        out := out + [c.value];
      }
      if i == |s| {
        return Bad(Unterminated);
      }
      i := i + 1;
      assert out + "" == out;
      r := Good(out, i);
    }

    ghost predicate CharsLeft(all: Parsed<string>, out: string)
      requires i <= |s|
      reads this
    {
      var left := Chars(s, i);
      if left.Good? then all.Good? && all.next == left.next && all.value == out + left.value else all == left
    }

    /** A character as it stands, or the one that a backslash and what follows stand for. */
    method OneChar() returns (r: Parsed<char>)
      requires Valid() && i < |s|
      modifies this
      ensures Valid() && r == CharHere(s, old(i)) && (r.Good? ==> i == r.next)
    {
      var c := s[i];
      i := i + 1;
      if c == '\\' {
        r := Escape();
      } else {
        r := Good(c, i);
      }
    }

    method Escape() returns (r: Parsed<char>)
      requires Valid()
      modifies this
      ensures Valid() && r == Escaped(s, old(i)) && (r.Good? ==> i == r.next)
    {
      if i == |s| {
        return Bad(Unterminated);
      }
      var e := s[i];
      i := i + 1;
      if IsSimpleEscape(e) {
        r := Good(SimpleEscape(e), i);
      } else if e == 'u' {
        var h := Hex4();
        r := if h.Bad? then Bad(h.error) else Good(CharOf(h.value), i);
      } else {
        r := Bad(BadEscape(e));
      }
    }

    method Hex4() returns (r: Parsed<nat>)
      requires Valid()
      modifies this
      ensures Valid() && r == HexDigits(s, old(i), 4, 0) && (r.Good? ==> i == r.next)
    {
      var v := 0;
      for k := 0 to 4
        invariant Valid() && HexDigits(s, i, 4 - k, v) == HexDigits(s, old(i), 4, 0)
      {
        if i == |s| {
          return Bad(ShortEscape);
        }
        var d := HexValue(s[i]);
        if d == 16 {
          return Bad(NotHex);
        }
        i := i + 1;
        v := v * 16 + d;
      }
      r := Good(v, i);
    }

    method Number() returns (r: Result)
      requires Valid()
      modifies this
      ensures Valid() && Ends(JsonText.Number(s, old(i)), r)
    {
      var start := i;
      if i < |s| && s[i] == '-' {
        i := i + 1;
      }
      var isFloat := false;
      while i < |s| && NumberChar(s[i])
        invariant Valid() && start <= i && SkipNumber(s, i) == SkipNumber(s, start)
        invariant isFloat <==> exists k :: start <= k < i && s[k] in ['.', 'e', 'E']
      {
        isFloat := isFloat || s[i] == '.' || s[i] == 'e' || s[i] == 'E';
        i := i + 1;
      }
      var text := s[start..i];
      MarksOfFloat(s, start, i);
      if text == "" || text == "-" {
        return Failed(NotANumber(start));
      }
      if !isFloat && FitsI64(Signed(text)) {
        r := Read(Int(Signed(text).n as I64));
      } else if FloatShape(text) {
        r := Read(Float(text));
      } else {
        r := Failed(BadNumber(text));
      }
    }
  }

  lemma MarksOfFloat(s: string, a: nat, b: nat)
    requires a <= b <= |s|
    ensures (exists k :: a <= k < b && s[k] in ['.', 'e', 'E']) <==> ('.' in s[a..b] || 'e' in s[a..b] || 'E' in s[a..b])
  {
    var t := s[a..b];
    if k :| a <= k < b && s[k] in ['.', 'e', 'E'] {
      assert t[k - a] == s[k];
    }
    if '.' in t || 'e' in t || 'E' in t {
      var k :| 0 <= k < |t| && t[k] in ['.', 'e', 'E'];
      assert s[a + k] == t[k];
    }
  }

  /** Looks for the key from the front, as the reader does. */
  method SetKey(out: seq<Pair>, k: string, v: Json) returns (r: seq<Pair>)
    ensures r == Put(out, k, v)
  {
    var j := 0;
    while j < |out| && out[j].key != k
      invariant 0 <= j <= |out| && out[..j] + Put(out[j..], k, v) == Put(out, k, v)
    {
      assert out[j..][1..] == out[j + 1..];
      assert out[..j] + [out[j]] == out[..j + 1];
      j := j + 1;
    }
    if j < |out| {
      assert out[j..][1..] == out[j + 1..];
      r := out[..j] + [Pair(k, v)] + out[j + 1..];
    } else {
      assert out[..j] == out;
      r := out + [Pair(k, v)];
    }
  }

  method ParseText(text: string) returns (r: Result)
    ensures r == Parse(text)
    ensures forall v :: r == Read(v) <==> JsonGrammar.Spells(text, v)
  {
    forall v ensures Parse(text) == Read(v) <==> JsonGrammar.Spells(text, v) { JsonGrammar.ReadIffSpelled(text, v); }
    var p := new Parser(text);
    p.Ws();
    SkipTwice(text, 0);
    r := p.Value();
    if r.Read? {
      p.Ws();
      if p.i < |text| {
        r := Failed(Trailing(p.i));
      }
    }
  }

  lemma {:induction false} SkipTwice(s: string, i: nat)
    requires i <= |s|
    ensures Skip(s, Skip(s, i)) == Skip(s, i)
    decreases |s| - i
  {
    if i < |s| && IsSpace(s[i]) {
      SkipTwice(s, i + 1);
    }
  }

  lemma CharsOn(s: string, at: nat, c: char, next: nat, out: string)
    requires at < |s| && s[at] != '"' && CharHere(s, at) == Good(c, next)
    ensures next <= |s|
    ensures Chars(s, next).Bad? ==> Chars(s, at) == Chars(s, next)
    ensures Chars(s, next).Good? ==>
      Chars(s, at).Good? && Chars(s, at).next == Chars(s, next).next &&
      out + Chars(s, at).value == out + [c] + Chars(s, next).value
  {
  }

  lemma Regroup(out: string, a: string, b: string, rest: string)
    ensures (out + a + b) + rest == out + (a + b + rest)
  {
  }

  lemma NextChar(s: string, k: nat)
    requires k < |s|
    ensures EscapeAll(s[k..]) == EscapeChar(s[k]) + EscapeAll(s[k + 1..])
  {
    assert s[k..][1..] == s[k + 1..];
  }

  /** What is still to be written from element `k` on. */
  ghost function ItemsFrom(vs: seq<Json>, k: nat): string
    requires k <= |vs|
  {
    if k == 0 then ListText(vs) else MoreText(vs[k..])
  }

  ghost function PairsFrom(ps: seq<Pair>, k: nat): string
    requires k <= |ps|
  {
    if k == 0 then DictText(ps) else MorePairs(ps[k..])
  }

  lemma NextItem(vs: seq<Json>, k: nat)
    requires k < |vs|
    ensures ItemsFrom(vs, k) == (if k > 0 then "," else "") + Text(vs[k]) + ItemsFrom(vs, k + 1)
  {
    assert vs[k..][1..] == vs[k + 1..];
  }

  lemma NextPair(ps: seq<Pair>, k: nat)
    requires k < |ps|
    ensures PairsFrom(ps, k) == (if k > 0 then "," else "") + PairText(ps[k]) + PairsFrom(ps, k + 1)
  {
    assert ps[k..][1..] == ps[k + 1..];
  }

  class Writer {
    var out: string

    constructor ()
      ensures out == ""
    {
      out := "";
    }

    method Push(t: string)
      modifies this
      ensures out == old(out) + t
    {
      out := out + t;
    }

    method Escape(s: string)
      modifies this
      ensures out == old(out) + Quote(s)
    {
      Push("\"");
      EscapeChars(s);
      Push("\"");
      Regroup(old(out), "\"", EscapeAll(s), "\"");
    }

    /** Writes the next piece of what is left of `whole`. */
    method Piece(t: string, ghost rest: string, ghost whole: string)
      requires out + (t + rest) == whole
      modifies this
      ensures out == old(out) + t && out + rest == whole
    {
      assert out + (t + rest) == out + t + rest;
      out := out + t;
    }

    method EscapeChars(s: string)
      modifies this
      ensures out == old(out) + EscapeAll(s)
    {
      ghost var whole := out + EscapeAll(s);
      assert s[0..] == s;
      for k := 0 to |s|
        invariant out + EscapeAll(s[k..]) == whole
      {
        NextChar(s, k);
        Piece(EscapeChar(s[k]), EscapeAll(s[k + 1..]), whole);
      }
    }

    method Write(v: Json)
      modifies this
      ensures out == old(out) + Text(v)
      decreases v, 0
    {
      match v
      case Null => Push("null");
      case Bool(b) => Push(if b then "true" else "false");
      case Int(n) => Push(Shown(n as int));
      case Float(t) => Push(t);
      case Str(t) => Escape(t);
      case List(vs) =>
        Push("[");
        WriteItems(vs);
        Push("]");
        Regroup(old(out), "[", ListText(vs), "]");
      case Dict(ps) =>
        Push("{");
        WritePairs(ps);
        Push("}");
        Regroup(old(out), "{", DictText(ps), "}");
    }

    method WriteItems(vs: seq<Json>)
      modifies this
      ensures out == old(out) + ListText(vs)
      decreases vs
    {
      ghost var whole := out + ListText(vs);
      for k := 0 to |vs|
        invariant out + ItemsFrom(vs, k) == whole
      {
        NextItem(vs, k);
        WriteItem(k > 0, vs[k], ItemsFrom(vs, k + 1), whole);
      }
      assert ItemsFrom(vs, |vs|) == "";
    }

    /** An element, after a comma unless it is the first. */
    method WriteItem(comma: bool, v: Json, ghost rest: string, ghost whole: string)
      requires out + ((if comma then "," else "") + Text(v) + rest) == whole
      modifies this
      ensures out + rest == whole
      decreases v, 1
    {
      Regroup(out, if comma then "," else "", Text(v), rest);
      if comma {
        Push(",");
      }
      Write(v);
    }

    method WritePairs(ps: seq<Pair>)
      modifies this
      ensures out == old(out) + DictText(ps)
      decreases ps
    {
      ghost var whole := out + DictText(ps);
      for k := 0 to |ps|
        invariant out + PairsFrom(ps, k) == whole
      {
        NextPair(ps, k);
        WriteMember(k > 0, ps[k], PairsFrom(ps, k + 1), whole);
      }
      assert PairsFrom(ps, |ps|) == "";
    }

    method WriteMember(comma: bool, p: Pair, ghost rest: string, ghost whole: string)
      requires out + ((if comma then "," else "") + PairText(p) + rest) == whole
      modifies this
      ensures out + rest == whole
      decreases p, 1
    {
      Regroup(out, if comma then "," else "", PairText(p), rest);
      if comma {
        Push(",");
      }
      WritePair(p);
    }

    method WritePair(p: Pair)
      modifies this
      ensures out == old(out) + PairText(p)
      decreases p, 0
    {
      Escape(p.key);
      Push(":");
      Write(p.value);
      Regroup(old(out), Quote(p.key), ":", Text(p.value));
    }
  }

  method Stringify(v: Json) returns (t: string)
    ensures t == Text(v)
  {
    var w := new Writer();
    w.Write(v);
    t := w.out;
  }
}
