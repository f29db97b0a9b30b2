/**
 * The grammar of JSON text apart from the reader (micai/src/json.rs): which texts spell which values.
 * A text is accepted exactly when it spells a value, and then as that value.
 */
module JsonGrammar {
  import opened JsonText
  import opened JsonLexemes
  import opened Texts

  // ------------------------------------------------------------------ keys that come again

  ghost predicate HasKey(ps: seq<Pair>, k: string) {
    exists i :: 0 <= i < |ps| && ps[i].key == k
  }

  /** Where a key comes first. */
  function FirstAt(ps: seq<Pair>, k: string): nat {
    if ps == [] || ps[0].key == k then 0 else FirstAt(ps[1..], k) + 1
  }

  /** The last pair with the key of `p` is `p`. */
  ghost predicate IsLast(ps: seq<Pair>, p: Pair) {
    exists i :: 0 <= i < |ps| && ps[i] == p && forall j :: i < j < |ps| ==> ps[j].key != p.key
  }

  /** Each key once, in the order of their first places, and with the value of their last. */
  ghost predicate Settles(ps: seq<Pair>, out: seq<Pair>) {
    (forall i, j :: 0 <= i < j < |out| ==> FirstAt(ps, out[i].key) < FirstAt(ps, out[j].key)) &&
    (forall i :: 0 <= i < |out| ==> IsLast(ps, out[i])) &&
    (forall i :: 0 <= i < |ps| ==> HasKey(out, ps[i].key))
  }

  lemma {:induction false} PutAllOne(out: seq<Pair>, ps: seq<Pair>, p: Pair)
    ensures PutAll(out, ps + [p]) == Put(PutAll(out, ps), p.key, p.value)
    decreases |ps|
  {
    if ps == [] {
      assert ps + [p] == [p] && [p][1..] == [];
    } else {
      assert (ps + [p])[0] == ps[0] && (ps + [p])[1..] == ps[1..] + [p];
      PutAllOne(Put(out, ps[0].key, ps[0].value), ps[1..], p);
    }
  }

  /** A key that is there keeps its place; a new one goes to the end. */
  lemma {:induction false} PutAt(out: seq<Pair>, k: string, v: Json)
    ensures var i := FirstAt(out, k);
      i <= |out| && (i < |out| ==> out[i].key == k) && (forall j :: 0 <= j < i ==> out[j].key != k) &&
      Put(out, k, v) == if i < |out| then out[i := Pair(k, v)] else out + [Pair(k, v)]
    decreases |out|
  {
    if out != [] && out[0].key != k {
      PutAt(out[1..], k, v);
    }
  }

  lemma {:induction false} FirstAtMore(ps: seq<Pair>, p: Pair, k: string)
    ensures FirstAt(ps, k) <= |ps| && (FirstAt(ps, k) < |ps| <==> HasKey(ps, k))
    ensures FirstAt(ps + [p], k) == if HasKey(ps, k) then FirstAt(ps, k) else if p.key == k then |ps| else |ps| + 1
    decreases |ps|
  {
    if ps == [] {
      assert (ps + [p])[1..] == [];
    } else {
      assert (ps + [p])[1..] == ps[1..] + [p];
      FirstAtMore(ps[1..], p, k);
      HasKeyRest(ps, k);
    }
  }

  lemma HasKeyRest(ps: seq<Pair>, k: string)
    requires ps != []
    ensures HasKey(ps, k) <==> ps[0].key == k || HasKey(ps[1..], k)
  {
    if HasKey(ps[1..], k) {
      var i :| 0 <= i < |ps| - 1 && ps[1..][i].key == k;
      assert ps[i + 1].key == k;
    }
    if HasKey(ps, k) && ps[0].key != k {
      var i :| 0 <= i < |ps| && ps[i].key == k;
      assert ps[1..][i - 1].key == k;
    }
  }

  lemma LastMore(ps: seq<Pair>, p: Pair, q: Pair)
    ensures q.key != p.key && IsLast(ps, q) ==> IsLast(ps + [p], q)
    ensures IsLast(ps + [p], p)
  {
    var r := ps + [p];
    assert r[|ps|] == p;
    if q.key != p.key && IsLast(ps, q) {
      var i :| 0 <= i < |ps| && ps[i] == q && forall j :: i < j < |ps| ==> ps[j].key != q.key;
      assert r[i] == q;
    }
  }

  /** Settled keys all come from the pairs. */
  lemma LastHasKey(ps: seq<Pair>, p: Pair)
    requires IsLast(ps, p)
    ensures HasKey(ps, p.key)
  {
  }

  lemma PutSettles(ps: seq<Pair>, out: seq<Pair>, p: Pair)
    requires Settles(ps, out)
    ensures Settles(ps + [p], Put(out, p.key, p.value))
  {
    var r, at := Put(out, p.key, p.value), FirstAt(out, p.key);
    PutAt(out, p.key, p.value);
    KeysAlike(ps, out, p.key);
    forall i | 0 <= i < |r| ensures IsLast(ps + [p], r[i]) {
      LastMore(ps, p, if i < |out| then out[i] else p);
      if i < |out| && out[i].key == p.key { OnlyOnce(ps, out, i, at); }
    }
    forall i, j | 0 <= i < j < |r| ensures FirstAt(ps + [p], r[i].key) < FirstAt(ps + [p], r[j].key) {
      FirstAtMore(ps, p, r[i].key);
      FirstAtMore(ps, p, r[j].key);
      LastHasKey(ps, out[i]);
      if j < |out| { LastHasKey(ps, out[j]); }
    }
    forall i | 0 <= i < |ps + [p]| ensures HasKey(r, (ps + [p])[i].key) {
      StillThere(out, p, (ps + [p])[i].key);
      if i < |ps| { assert (ps + [p])[i] == ps[i]; }
    }
  }

  lemma StillThere(out: seq<Pair>, p: Pair, k: string)
    ensures HasKey(out, k) || k == p.key ==> HasKey(Put(out, p.key, p.value), k)
  {
    var r, at := Put(out, p.key, p.value), FirstAt(out, p.key);
    PutAt(out, p.key, p.value);
    if k == p.key {
      assert r[if at < |out| then at else |out|].key == k;
    } else if HasKey(out, k) {
      var i :| 0 <= i < |out| && out[i].key == k;
      assert r[i].key == k;
    }
  }

  lemma KeysAlike(ps: seq<Pair>, out: seq<Pair>, k: string)
    requires Settles(ps, out)
    ensures HasKey(ps, k) <==> HasKey(out, k)
    ensures HasKey(out, k) <==> FirstAt(out, k) < |out|
  {
    if HasKey(out, k) {
      var i :| 0 <= i < |out| && out[i].key == k;
      LastHasKey(ps, out[i]);
    }
    PutAt(out, k, Null);
  }

  lemma OnlyOnce(ps: seq<Pair>, out: seq<Pair>, i: nat, j: nat)
    requires Settles(ps, out) && i < |out| && j < |out| && out[i].key == out[j].key
    ensures i == j
  {
  }

  lemma {:induction false} PutAllSettles(ps: seq<Pair>)
    ensures Settles(ps, PutAll([], ps))
    decreases |ps|
  {
    if ps != [] {
      var init, p := ps[..|ps| - 1], ps[|ps| - 1];
      assert ps == init + [p];
      PutAllSettles(init);
      PutAllOne([], init, p);
      PutSettles(init, PutAll([], init), p);
    }
  }

  lemma LastIsOne(ps: seq<Pair>, p: Pair, q: Pair)
    requires IsLast(ps, p) && IsLast(ps, q) && p.key == q.key
    ensures p == q
  {
    var i :| 0 <= i < |ps| && ps[i] == p && forall j :: i < j < |ps| ==> ps[j].key != p.key;
    var m :| 0 <= m < |ps| && ps[m] == q && forall j :: m < j < |ps| ==> ps[j].key != q.key;
    assert i == m;
  }

  /** The `i`-th keys of two settled dictionaries of the same pairs are the same. */
  lemma {:induction false} SameAt(ps: seq<Pair>, a: seq<Pair>, b: seq<Pair>, i: nat)
    requires Settles(ps, a) && Settles(ps, b) && i < |a|
    ensures i < |b| && a[..i + 1] == b[..i + 1]
  {
    if i > 0 { SameAt(ps, a, b, i - 1); }
    var m := PlaceIn(ps, b, a[i]);
    NotBefore(ps, a, b, i, m);
    var n := PlaceIn(ps, a, b[i]);
    NotBefore(ps, b, a, i, n);
    assert m == i;
    LastIsOne(ps, a[i], b[i]);
    assert a[..i + 1] == a[..i] + [a[i]] && b[..i + 1] == b[..i] + [b[i]];
  }

  lemma NotBefore(ps: seq<Pair>, a: seq<Pair>, b: seq<Pair>, i: nat, m: nat)
    requires Settles(ps, a) && i < |a| && m < |b| && i <= |b| && b[m].key == a[i].key && a[..i] == b[..i]
    ensures m >= i
  {
    assert forall k :: 0 <= k < i ==> a[k] == a[..i][k] && b[k] == b[..i][k];
  }

  lemma PlaceIn(ps: seq<Pair>, out: seq<Pair>, p: Pair) returns (m: nat)
    requires Settles(ps, out) && IsLast(ps, p)
    ensures m < |out| && out[m].key == p.key
  {
    LastHasKey(ps, p);
    KeysAlike(ps, out, p.key);
    m :| 0 <= m < |out| && out[m].key == p.key;
  }

  /** Repeated keys are settled in one way only, and that is what putting one after the other comes to. */
  lemma SettlesIff(ps: seq<Pair>, out: seq<Pair>)
    ensures Settles(ps, out) <==> out == PutAll([], ps)
  {
    PutAllSettles(ps);
    var r := PutAll([], ps);
    if Settles(ps, out) {
      if out != [] { SameAt(ps, out, r, |out| - 1); }
      if r != [] { SameAt(ps, r, out, |r| - 1); }
      assert out[..|out|] == out && r[..|r|] == r;
    }
  }

  // ------------------------------------------------------------------ rows of values

  /** Where a value in a row lies, and where the comma or bracket after it stands. */
  datatype Spot = Spot(from: nat, to: nat, sep: nat)

  function QuoteText(bits: seq<Bit>): string {
    "\"" + BitsText(bits) + "\""
  }

  /** Between its quotes, the text from `i` to `j` spells the string `t`. */
  ghost predicate QuotedAt(s: string, i: nat, j: nat, t: string) {
    exists bits :: BitsMean(bits, t) && Has(s, i, QuoteText(bits)) && j == i + |QuoteText(bits)|
  }

  ghost predicate SpotAt(s: string, i: nat, x: Spot) {
    Space(s, i, x.from) && Solid(s, x.from) && x.from < x.to && Space(s, x.to, x.sep) && x.sep < |s|
  }

  /** A quoted key, a colon and the value's spot. */
  ghost predicate EntryAt(s: string, i: nat, key: string, x: Spot) {
    exists at: nat, end: nat, colon: nat :: KeyAt(s, i, at, end, colon, key) && SpotAt(s, colon + 1, x)
  }

  ghost predicate KeyAt(s: string, i: nat, at: nat, end: nat, colon: nat, key: string) {
    Space(s, i, at) && QuotedAt(s, at, end, key) && Space(s, end, colon) && CharAt(s, colon, ':')
  }

  /** Values with commas between them, from `i` to the bracket at `close`. */
  ghost predicate Row(s: string, i: nat, xs: seq<Spot>, close: nat, bracket: char)
    decreases |xs|
  {
    xs != [] && SpotAt(s, i, xs[0]) &&
    if |xs| == 1 then xs[0].sep == close && s[close] == bracket
    else s[xs[0].sep] == ',' && Row(s, xs[0].sep + 1, xs[1..], close, bracket)
  }

  /** The same with a key and a colon before each value. */
  ghost predicate KeyedRow(s: string, i: nat, ks: seq<string>, xs: seq<Spot>, close: nat)
    decreases |xs|
  {
    xs != [] && |ks| == |xs| && EntryAt(s, i, ks[0], xs[0]) &&
    if |xs| == 1 then xs[0].sep == close && CharAt(s, close, '}')
    else CharAt(s, xs[0].sep, ',') && KeyedRow(s, xs[0].sep + 1, ks[1..], xs[1..], close)
  }

  function Pairs(ks: seq<string>, vs: seq<Json>): seq<Pair>
    requires |ks| == |vs|
  {
    if ks == [] then [] else [Pair(ks[0], vs[0])] + Pairs(ks[1..], vs[1..])
  }

  // ---- reading a row

  ghost predicate Gives<T>(r: Parsed<T>, value: T, next: nat) {
    r.Good? && r.value == value && r.next == next
  }

  /** The value of each spot is read there. */
  ghost predicate AllRead(s: string, xs: seq<Spot>, vs: seq<Json>)
    decreases |xs|
  {
    |xs| == |vs| && (xs == [] || (xs[0].from <= |s| && Value(s, xs[0].from) == Good(vs[0], xs[0].to) && AllRead(s, xs[1..], vs[1..])))
  }

  /** What is spelled between quotes is read as a string. */
  lemma QuotedReads(s: string, i: nat, j: nat, t: string)
    requires QuotedAt(s, i, j, t)
    ensures CharAt(s, i, '"') && i + 1 < j <= |s| && Chars(s, i + 1) == Good(t, j)
  {
    var bits :| BitsMean(bits, t) && Has(s, i, QuoteText(bits)) && j == i + |QuoteText(bits)|;
    HasBetween(s, i, "\"", BitsText(bits), "\"");
    BitsRead(s, i + 1, bits, t);
  }

  /** What is read as a string is spelled between quotes. */
  lemma QuotedFound(s: string, i: nat)
    requires CharAt(s, i, '"') && Chars(s, i + 1).Good?
    ensures QuotedAt(s, i, Chars(s, i + 1).next, Chars(s, i + 1).value)
  {
    var bits := BitsFound(s, i + 1);
    QuoteInPlace(s, i, bits);
    assert BitsMean(bits, Chars(s, i + 1).value) && Has(s, i, QuoteText(bits));
  }

  lemma QuoteInPlace(s: string, i: nat, bits: seq<Bit>)
    requires CharAt(s, i, '"') && Has(s, i + 1, BitsText(bits)) && CharAt(s, i + 1 + |BitsText(bits)|, '"')
    ensures Has(s, i, QuoteText(bits)) && |QuoteText(bits)| == |BitsText(bits)| + 2
  {
    HasIt(s, i, "\"");
    HasTwo(s, i, "\"", BitsText(bits));
    HasIt(s, i + 1 + |BitsText(bits)|, "\"");
    HasTwo(s, i, "\"" + BitsText(bits), "\"");
  }

  /** White space before a value makes no difference. */
  lemma ValueFrom(s: string, i: nat, j: nat)
    requires Space(s, i, j) && Solid(s, j)
    ensures Value(s, i) == Value(s, j)
  {
    SkipOver(s, i, j);
    SkipOver(s, j, j);
  }

  lemma ElementStep(s: string, i: nat, x: Spot, v: Json)
    requires SpotAt(s, i, x) && Value(s, x.from) == Good(v, x.to) && (s[x.sep] == ']' || s[x.sep] == ',')
    ensures i <= |s| && var rest := Elements(s, x.sep + 1);
      if s[x.sep] == ']' then Elements(s, i) == Good([v], x.sep + 1)
      else rest.Good? ==> Elements(s, i) == Good([v] + rest.value, rest.next)
  {
    ValueFrom(s, i, x.from);
    SkipOver(s, x.to, x.sep);
    OneElement(s, i, v, x.to, x.sep);
  }

  lemma OneElement(s: string, i: nat, v: Json, to: nat, sep: nat)
    requires i <= |s| && Value(s, i) == Good(v, to) && Skip(s, to) == sep < |s|
    ensures s[sep] == ']' ==> Elements(s, i) == Good([v], sep + 1)
    ensures var rest := Elements(s, sep + 1);
      s[sep] == ',' && rest.Good? ==> Elements(s, i) == Good([v] + rest.value, rest.next)
  {
  }

  lemma {:induction false} ElementsRead(s: string, i: nat, xs: seq<Spot>, vs: seq<Json>, close: nat)
    requires Row(s, i, xs, close, ']') && AllRead(s, xs, vs)
    ensures i <= |s| && Elements(s, i) == Good(vs, close + 1)
    decreases |xs|
  {
    ElementStep(s, i, xs[0], vs[0]);
    if |xs| == 1 {
      assert vs == [vs[0]];
    } else {
      ElementsRead(s, xs[0].sep + 1, xs[1..], vs[1..], close);
      assert vs == [vs[0]] + vs[1..];
    }
  }

  lemma KeyReads(s: string, i: nat, at: nat, end: nat, colon: nat, key: string)
    requires KeyAt(s, i, at, end, colon, key)
    ensures i <= |s| && Key(s, i) == Good(key, colon + 1)
  {
    QuotedReads(s, at, end, key);
    SkipOver(s, i, at);
    SkipOver(s, end, colon);
  }

  lemma EntryReads(s: string, i: nat, key: string, x: Spot) returns (a: nat)
    requires EntryAt(s, i, key, x) && (CharAt(s, x.sep, '}') || CharAt(s, x.sep, ','))
    ensures i <= |s| && Key(s, i) == Good(key, a) && a <= |s| && Value(s, a) == Value(s, x.from) && x.to <= |s| && Skip(s, x.to) == x.sep
  {
    var at: nat, end: nat, colon: nat :| KeyAt(s, i, at, end, colon, key) && SpotAt(s, colon + 1, x);
    KeyReads(s, i, at, end, colon, key);
    a := colon + 1;
    SpotReads(s, a, x);
  }

  lemma SpotReads(s: string, a: nat, x: Spot)
    requires SpotAt(s, a, x) && (CharAt(s, x.sep, ',') || CharAt(s, x.sep, ']') || CharAt(s, x.sep, '}'))
    ensures Value(s, a) == Value(s, x.from) && Skip(s, x.to) == x.sep
  {
    ValueFrom(s, a, x.from);
    SkipOver(s, x.to, x.sep);
  }

  /** A key and a value have been read, and the comma or bracket after them is at `sep`. */
  ghost predicate MemberRead(s: string, i: nat, key: string, v: Json, sep: nat) {
    i <= |s| && Key(s, i).Good? && Key(s, i).value == key &&
    var r := Value(s, Key(s, i).next);
    r.Good? && r.value == v && Skip(s, r.next) == sep < |s|
  }

  lemma EntryIsRead(s: string, i: nat, key: string, x: Spot, v: Json)
    requires EntryAt(s, i, key, x) && x.from <= |s| && Value(s, x.from) == Good(v, x.to) && (CharAt(s, x.sep, '}') || CharAt(s, x.sep, ','))
    ensures MemberRead(s, i, key, v, x.sep)
  {
    var a := EntryReads(s, i, key, x);
  }

  lemma OneMember(s: string, i: nat, key: string, v: Json, sep: nat)
    requires MemberRead(s, i, key, v, sep)
    ensures s[sep] == '}' ==> Gives(Members(s, i), [Pair(key, v)], sep + 1)
    ensures var rest := Members(s, sep + 1);
      s[sep] == ',' && rest.Good? ==> Gives(Members(s, i), [Pair(key, v)] + rest.value, rest.next)
  {
  }

  lemma {:induction false} MembersRead(s: string, i: nat, ks: seq<string>, xs: seq<Spot>, vs: seq<Json>, close: nat)
    requires KeyedRow(s, i, ks, xs, close) && AllRead(s, xs, vs)
    ensures i <= |s| && Gives(Members(s, i), Pairs(ks, vs), close + 1)
    decreases |xs|, 1
  {
    EntryIsRead(s, i, ks[0], xs[0], vs[0]);
    if |xs| == 1 {
      OneMember(s, i, ks[0], vs[0], xs[0].sep);
      PairsOne(ks, vs);
    } else {
      MoreMembersRead(s, i, ks, xs, vs, close);
    }
  }

  lemma PairsOne(ks: seq<string>, vs: seq<Json>)
    requires |ks| == |vs| == 1
    ensures Pairs(ks, vs) == [Pair(ks[0], vs[0])]
  {
    assert ks[1..] == [];
  }

  lemma {:induction false} MoreMembersRead(s: string, i: nat, ks: seq<string>, xs: seq<Spot>, vs: seq<Json>, close: nat)
    requires KeyedRow(s, i, ks, xs, close) && AllRead(s, xs, vs) && |xs| > 1 && MemberRead(s, i, ks[0], vs[0], xs[0].sep)
    ensures i <= |s| && Gives(Members(s, i), Pairs(ks, vs), close + 1)
    decreases |xs|, 0
  {
    MembersRead(s, xs[0].sep + 1, ks[1..], xs[1..], vs[1..], close);
    OneMember(s, i, ks[0], vs[0], xs[0].sep);
  }

  // ---- the row that is read

  /** The first value of what was read as elements. */
  lemma ElementsTaken(s: string, i: nat) returns (x: Spot, v: Json)
    requires i <= |s| && Elements(s, i).Good?
    ensures SpotAt(s, i, x) && Value(s, x.from) == Good(v, x.to)
    ensures var r, rest := Elements(s, i), Elements(s, x.sep + 1);
      if s[x.sep] == ']' then r == Good([v], x.sep + 1)
      else s[x.sep] == ',' && rest.Good? && r == Good([v] + rest.value, rest.next)
  {
    var r := Value(s, i);
    SkipIsSpace(s, i);
    SkipIsSpace(s, r.next);
    ValueSpot(s, i);
    ValueFrom(s, i, Skip(s, i));
    x, v := Spot(Skip(s, i), r.next, Skip(s, r.next)), r.value;
  }

  lemma RowPut(s: string, i: nat, x: Spot, xs: seq<Spot>, close: nat, bracket: char)
    requires SpotAt(s, i, x)
    requires if xs == [] then x.sep == close && s[close] == bracket else s[x.sep] == ',' && Row(s, x.sep + 1, xs, close, bracket)
    ensures Row(s, i, [x] + xs, close, bracket)
  {
    assert ([x] + xs)[1..] == xs;
  }

  lemma ReadPut(s: string, x: Spot, v: Json, xs: seq<Spot>, vs: seq<Json>)
    requires x.from <= |s| && Value(s, x.from) == Good(v, x.to) && AllRead(s, xs, vs)
    ensures AllRead(s, [x] + xs, [v] + vs)
  {
    assert ([x] + xs)[1..] == xs && ([v] + vs)[1..] == vs;
  }

  /** The row from `i` to the bracket at `close` is read as the values. */
  ghost predicate RowHas(s: string, i: nat, close: nat, vs: seq<Json>) {
    exists xs :: Row(s, i, xs, close, ']') && AllRead(s, xs, vs)
  }

  lemma RowHasMore(s: string, i: nat, x: Spot, v: Json, close: nat, vs: seq<Json>)
    requires SpotAt(s, i, x) && Value(s, x.from) == Good(v, x.to)
    requires if s[x.sep] == ']' then x.sep == close && vs == [] else s[x.sep] == ',' && RowHas(s, x.sep + 1, close, vs)
    ensures RowHas(s, i, close, [v] + vs)
  {
    var xs: seq<Spot> := [];
    if s[x.sep] != ']' { xs :| Row(s, x.sep + 1, xs, close, ']') && AllRead(s, xs, vs); }
    RowPut(s, i, x, xs, close, ']');
    ReadPut(s, x, v, xs, vs);
    assert Row(s, i, [x] + xs, close, ']') && AllRead(s, [x] + xs, [v] + vs);
  }

  lemma {:induction false} RowFound(s: string, i: nat) returns (close: nat, vs: seq<Json>)
    requires i <= |s| && Elements(s, i).Good?
    ensures Elements(s, i) == Good(vs, close + 1) && RowHas(s, i, close, vs)
    decreases |s| - i
  {
    var x, v := ElementsTaken(s, i);
    var rest: seq<Json> := [];
    close := x.sep;
    if s[x.sep] != ']' { close, rest := RowFound(s, x.sep + 1); }
    vs := [v] + rest;
    assert rest == [] ==> vs == [v];
    RowHasMore(s, i, x, v, close, rest);
  }

  /** A value ends after its first character. */
  lemma ValueSpot(s: string, i: nat)
    requires i <= |s| && Value(s, i).Good?
    ensures Skip(s, i) < |s| && Skip(s, i) < Value(s, i).next
  {
  }

  lemma KeyFound(s: string, i: nat) returns (at: nat, end: nat, colon: nat)
    requires i <= |s| && Key(s, i).Good?
    ensures KeyAt(s, i, at, end, colon, Key(s, i).value) && Key(s, i).next == colon + 1
  {
    at := Skip(s, i);
    SkipIsSpace(s, i);
    QuotedFound(s, at);
    end := Chars(s, at + 1).next;
    SkipIsSpace(s, end);
    colon := Skip(s, end);
  }

  /** The first member of what was read as members. */
  lemma MembersTaken(s: string, i: nat) returns (k: string, x: Spot, v: Json)
    requires i <= |s| && Members(s, i).Good?
    ensures EntryAt(s, i, k, x) && Value(s, x.from) == Good(v, x.to) && x.sep < |s|
    ensures var r, rest := Members(s, i), Members(s, x.sep + 1);
      if s[x.sep] == '}' then Gives(r, [Pair(k, v)], x.sep + 1)
      else s[x.sep] == ',' && rest.Good? && Gives(r, [Pair(k, v)] + rest.value, rest.next)
  {
    var at, end, colon := KeyFound(s, i);
    var a := colon + 1;
    var r := Value(s, a);
    SkipIsSpace(s, a);
    SkipIsSpace(s, r.next);
    ValueSpot(s, a);
    ValueFrom(s, a, Skip(s, a));
    k, x, v := Key(s, i).value, Spot(Skip(s, a), r.next, Skip(s, r.next)), r.value;
    assert KeyAt(s, i, at, end, colon, k) && SpotAt(s, colon + 1, x);
  }

  lemma KeyedRowPut(s: string, i: nat, k: string, x: Spot, ks: seq<string>, xs: seq<Spot>, close: nat)
    requires EntryAt(s, i, k, x) && |ks| == |xs|
    requires if xs == [] then x.sep == close && CharAt(s, close, '}') else CharAt(s, x.sep, ',') && KeyedRow(s, x.sep + 1, ks, xs, close)
    ensures KeyedRow(s, i, [k] + ks, [x] + xs, close)
  {
    var ls, ys := [k] + ks, [x] + xs;
    assert ls[0] == k && ys[0] == x && ls[1..] == ks && ys[1..] == xs;
  }

  lemma PairsPut(k: string, v: Json, ks: seq<string>, vs: seq<Json>)
    requires |ks| == |vs|
    ensures Pairs([k] + ks, [v] + vs) == [Pair(k, v)] + Pairs(ks, vs)
  {
    assert ([k] + ks)[1..] == ks && ([v] + vs)[1..] == vs;
  }

  /** The keyed row from `i` to the bracket at `close` is read as the pairs. */
  ghost predicate KeyedRowHas(s: string, i: nat, close: nat, ps: seq<Pair>) {
    exists ks, xs, vs :: KeyedRow(s, i, ks, xs, close) && AllRead(s, xs, vs) && |ks| == |vs| && ps == Pairs(ks, vs)
  }

  lemma KeyedRowHasOne(s: string, i: nat, k: string, x: Spot, v: Json)
    requires EntryAt(s, i, k, x) && x.from <= |s| && Value(s, x.from) == Good(v, x.to) && CharAt(s, x.sep, '}')
    ensures KeyedRowHas(s, i, x.sep, [Pair(k, v)])
  {
    KeyedRowPut(s, i, k, x, [], [], x.sep);
    ReadPut(s, x, v, [], []);
    PairsPut(k, v, [], []);
    assert [k] + [] == [k] && [x] + [] == [x] && [v] + [] == [v] && [Pair(k, v)] + [] == [Pair(k, v)];
    assert KeyedRow(s, i, [k], [x], x.sep) && AllRead(s, [x], [v]);
  }

  lemma KeyedRowHasMore(s: string, i: nat, k: string, x: Spot, v: Json, close: nat, ps: seq<Pair>)
    requires EntryAt(s, i, k, x) && x.from <= |s| && Value(s, x.from) == Good(v, x.to)
    requires CharAt(s, x.sep, ',') && KeyedRowHas(s, x.sep + 1, close, ps)
    ensures KeyedRowHas(s, i, close, [Pair(k, v)] + ps)
  {
    var ks: seq<string>, xs: seq<Spot>, vs: seq<Json> :|
      KeyedRow(s, x.sep + 1, ks, xs, close) && AllRead(s, xs, vs) && |ks| == |vs| && ps == Pairs(ks, vs);
    KeyedRowPut(s, i, k, x, ks, xs, close);
    ReadPut(s, x, v, xs, vs);
    PairsPut(k, v, ks, vs);
    KeyedRowIs(s, i, close, [k] + ks, [x] + xs, [v] + vs);
  }

  lemma KeyedRowIs(s: string, i: nat, close: nat, ks: seq<string>, xs: seq<Spot>, vs: seq<Json>)
    requires KeyedRow(s, i, ks, xs, close) && AllRead(s, xs, vs) && |ks| == |vs|
    ensures KeyedRowHas(s, i, close, Pairs(ks, vs))
  {
  }

  lemma {:induction false} KeyedRowFound(s: string, i: nat) returns (close: nat, ps: seq<Pair>)
    requires i <= |s| && Members(s, i).Good?
    ensures Gives(Members(s, i), ps, close + 1) && KeyedRowHas(s, i, close, ps)
    decreases |s| - i
  {
    var k, x, v := MembersTaken(s, i);
    EntryIs(s, i, k, x);
    if s[x.sep] == '}' {
      close, ps := x.sep, [Pair(k, v)];
      KeyedRowHasOne(s, i, k, x, v);
    } else {
      var rest: seq<Pair>;
      close, rest := KeyedRowFound(s, x.sep + 1);
      ps := [Pair(k, v)] + rest;
      KeyedRowHasMore(s, i, k, x, v, close, rest);
    }
  }

  /** Where the value of an entry lies. */
  lemma EntryIs(s: string, i: nat, k: string, x: Spot)
    requires EntryAt(s, i, k, x)
    ensures i < x.from && Solid(s, x.from) && x.from < x.to && Space(s, x.to, x.sep) && x.sep < |s|
  {
  }

  // ------------------------------------------------------------------ derivations

  /** A stretch of a text that spells `v`, and how. */
  datatype Node = Node(from: nat, to: nat, v: Json, how: How)

  datatype How =
    | Word
    | Quoted
    | Figure
    | Bracketed(parts: seq<Node>, spots: seq<Spot>)
    | Braced(parts: seq<Node>, keys: seq<string>, spots: seq<Spot>)

  function Tops(ps: seq<Node>): (vs: seq<Json>)
    ensures |vs| == |ps|
  {
    if ps == [] then [] else [ps[0].v] + Tops(ps[1..])
  }

  /** White space may stand around values, keys, commas and colons, and nowhere else. */
  ghost predicate Derives(s: string, n: Node)
    decreases n
  {
    Solid(s, n.from) && n.from < n.to <= |s| &&
    match n.how
    case Word =>
      (n.v == Null && n.to == n.from + 4 && Has(s, n.from, "null")) || (n.v == Bool(true) && n.to == n.from + 4 && Has(s, n.from, "true")) ||
      (n.v == Bool(false) && n.to == n.from + 5 && Has(s, n.from, "false"))
    case Quoted => n.v.Str? && QuotedAt(s, n.from, n.to, n.v.s)
    case Figure => SpellsNumber(s[n.from..n.to], n.v)
    case Bracketed(ps, xs) =>
      n.v.List? && s[n.from] == '[' && n.v.items == Tops(ps) && PartsAt(s, ps, xs) &&
      if ps == [] then Space(s, n.from + 1, n.to - 1) && s[n.to - 1] == ']' else Row(s, n.from + 1, xs, n.to - 1, ']')
    case Braced(ps, ks, xs) =>
      n.v.Dict? && s[n.from] == '{' && |ks| == |ps| && Settles(Pairs(ks, Tops(ps)), n.v.pairs) && PartsAt(s, ps, xs) &&
      if ps == [] then Space(s, n.from + 1, n.to - 1) && s[n.to - 1] == '}' else KeyedRow(s, n.from + 1, ks, xs, n.to - 1)
  }

  ghost predicate PartsAt(s: string, ps: seq<Node>, xs: seq<Spot>)
    decreases ps
  {
    |ps| == |xs| &&
    (ps == [] || (ps[0].from == xs[0].from && ps[0].to == xs[0].to && Derives(s, ps[0]) && PartsAt(s, ps[1..], xs[1..])))
  }

  /** The text from `i` to `j` spells `v`. */
  ghost predicate SpelledAt(s: string, i: nat, j: nat, v: Json) {
    exists n: Node :: n.from == i && n.to == j && n.v == v && Derives(s, n)
  }

  /** The whole text does, white space around it and all. */
  ghost predicate Spells(s: string, v: Json) {
    exists i: nat, j: nat :: Space(s, 0, i) && SpelledAt(s, i, j, v) && Space(s, j, |s|)
  }

  // ------------------------------------------------------------------ what is spelled is read

  /** Nothing after the value goes on a number. */
  ghost predicate Ends(s: string, j: nat) {
    j >= |s| || !InNumber(s[j])
  }

  ghost predicate AllEnd(s: string, xs: seq<Spot>) {
    forall k :: 0 <= k < |xs| ==> Ends(s, xs[k].to)
  }

  lemma SpaceEnds(s: string, i: nat, j: nat)
    requires Space(s, i, j) && (j == |s| || s[j] == ',' || s[j] == ']' || s[j] == '}')
    ensures Ends(s, i)
  {
  }

  lemma {:induction false} RowEnds(s: string, i: nat, xs: seq<Spot>, close: nat, bracket: char)
    requires Row(s, i, xs, close, bracket) && (bracket == ']' || bracket == '}')
    ensures AllEnd(s, xs)
    decreases |xs|
  {
    SpaceEnds(s, xs[0].to, xs[0].sep);
    if |xs| > 1 {
      RowEnds(s, xs[0].sep + 1, xs[1..], close, bracket);
      AllEndFirst(s, xs);
    }
  }

  lemma {:induction false} KeyedRowEnds(s: string, i: nat, ks: seq<string>, xs: seq<Spot>, close: nat)
    requires KeyedRow(s, i, ks, xs, close)
    ensures AllEnd(s, xs)
    decreases |xs|
  {
    EntryIs(s, i, ks[0], xs[0]);
    SpaceEnds(s, xs[0].to, xs[0].sep);
    if |xs| > 1 {
      KeyedRowEnds(s, xs[0].sep + 1, ks[1..], xs[1..], close);
      AllEndFirst(s, xs);
    }
  }

  lemma AllEndFirst(s: string, xs: seq<Spot>)
    requires xs != [] && Ends(s, xs[0].to) && AllEnd(s, xs[1..])
    ensures AllEnd(s, xs)
  {
    forall k | 0 <= k < |xs| ensures Ends(s, xs[k].to) {
      if k > 0 { assert xs[k] == xs[1..][k - 1]; }
    }
  }

  lemma PlainReads(s: string, n: Node)
    requires Derives(s, n) && (n.how.Word? || n.how.Quoted? || n.how.Figure?) && Ends(s, n.to)
    ensures Plain(s, n.from) == Good(n.v, n.to) && s[n.from] != '[' && s[n.from] != '{'
  {
    if n.how.Word? {
      HasChar(s, n.from, if n.v.Null? then "null" else if n.v.b then "true" else "false", 0);
    } else if n.how.Quoted? {
      QuotedReads(s, n.from, n.to, n.v.s);
    } else {
      NumberReads(s, n.from, n.to, n.v);
    }
  }

  lemma NumberReads(s: string, i: nat, j: nat, v: Json)
    requires i < j <= |s| && SpellsNumber(s[i..j], v) && Ends(s, j)
    ensures Plain(s, i) == Good(v, j) && s[i] != '[' && s[i] != '{'
  {
    NumberInPlace(s, i, j, v);
    NumberIs(s, i, j, v);
    NumberIsPlain(s, i);
  }

  lemma NumberInPlace(s: string, i: nat, j: nat, v: Json)
    requires i < j <= |s| && SpellsNumber(s[i..j], v)
    ensures forall k :: i <= k < j ==> InNumber(s[k])
  {
    var t := s[i..j];
    NumberChars(t, v);
    forall k | i <= k < j ensures InNumber(s[k]) { assert InNumber(t[k - i]); }
  }

  lemma NumberIsPlain(s: string, i: nat)
    requires i < |s| && InNumber(s[i])
    ensures Plain(s, i) == JsonText.Number(s, i) && s[i] != '[' && s[i] != '{'
  {
  }

  /** What is spelled in place is read up to its end. */
  lemma {:induction false} NodeReads(s: string, n: Node)
    requires Derives(s, n) && Ends(s, n.to)
    ensures Value(s, n.from) == Good(n.v, n.to)
    decreases n, 1
  {
    SkipOver(s, n.from, n.from);
    if n.how.Bracketed? {
      ArrayReads(s, n, n.how.parts, n.how.spots);
    } else if n.how.Braced? {
      ObjectReads(s, n, n.how.parts, n.how.keys, n.how.spots);
    } else {
      PlainReads(s, n);
    }
  }

  lemma {:induction false} PartsRead(s: string, ps: seq<Node>, xs: seq<Spot>)
    requires PartsAt(s, ps, xs) && AllEnd(s, xs)
    ensures AllRead(s, xs, Tops(ps))
    decreases ps
  {
    if ps != [] {
      NodeReads(s, ps[0]);
      PartsRead(s, ps[1..], xs[1..]);
    }
  }

  lemma {:induction false} ArrayReads(s: string, n: Node, ps: seq<Node>, xs: seq<Spot>)
    requires n.how == Bracketed(ps, xs) && Derives(s, n)
    ensures Array(s, n.from) == Good(n.v, n.to)
    decreases n, 0
  {
    if ps == [] {
      EmptyArray(s, n.from, n.to - 1);
    } else {
      RowEnds(s, n.from + 1, xs, n.to - 1, ']');
      PartsRead(s, ps, xs);
      NotEmpty(s, ps[0]);
      RowReads(s, n.from, xs, Tops(ps), n.to - 1);
    }
  }

  lemma EmptyArray(s: string, i: nat, close: nat)
    requires Space(s, i + 1, close) && CharAt(s, close, ']')
    ensures i < |s| && Array(s, i) == Good(List([]), close + 1)
  {
    SkipOver(s, i + 1, close);
  }

  lemma EmptyObject(s: string, i: nat, close: nat)
    requires Space(s, i + 1, close) && CharAt(s, close, '}')
    ensures i < |s| && Object(s, i) == Good(Dict([]), close + 1)
  {
    SkipOver(s, i + 1, close);
  }

  /** No value begins like the end of a list or a dictionary. */
  lemma NotEmpty(s: string, n: Node)
    requires Derives(s, n)
    ensures s[n.from] != ']' && s[n.from] != '}'
  {
    if n.how.Word? {
      HasChar(s, n.from, if n.v.Null? then "null" else if n.v.b then "true" else "false", 0);
    } else if n.how.Quoted? {
      QuotedReads(s, n.from, n.to, n.v.s);
    } else if n.how.Figure? {
      NumberChars(s[n.from..n.to], n.v);
      assert InNumber(s[n.from..n.to][0]);
    }
  }

  lemma RowReads(s: string, i: nat, xs: seq<Spot>, vs: seq<Json>, close: nat)
    requires i < |s| && Row(s, i + 1, xs, close, ']') && AllRead(s, xs, vs) && s[xs[0].from] != ']'
    ensures Array(s, i) == Good(List(vs), close + 1)
  {
    var j := xs[0].from;
    SkipOver(s, i + 1, j);
    assert Row(s, j, xs, close, ']');
    ElementsRead(s, j, xs, vs, close);
  }

  lemma {:induction false} ObjectReads(s: string, n: Node, ps: seq<Node>, ks: seq<string>, xs: seq<Spot>)
    requires n.how == Braced(ps, ks, xs) && Derives(s, n)
    ensures Object(s, n.from) == Good(n.v, n.to)
    decreases n, 0
  {
    SettlesIff(Pairs(ks, Tops(ps)), n.v.pairs);
    if ps == [] {
      EmptyObject(s, n.from, n.to - 1);
    } else {
      KeyedRowEnds(s, n.from + 1, ks, xs, n.to - 1);
      PartsRead(s, ps, xs);
      KeyedRowReads(s, n.from, ks, xs, Tops(ps), n.to - 1);
    }
  }

  /** An entry may be looked at from its key on. */
  lemma EntryHere(s: string, i: nat, k: string, x: Spot) returns (at: nat)
    requires EntryAt(s, i, k, x)
    ensures Space(s, i, at) && CharAt(s, at, '"') && EntryAt(s, at, k, x)
  {
    var end: nat, colon: nat;
    at, end, colon :| KeyAt(s, i, at, end, colon, k) && SpotAt(s, colon + 1, x);
    QuotedReads(s, at, end, k);
    assert KeyAt(s, at, at, end, colon, k);
  }

  lemma KeyedRowReads(s: string, i: nat, ks: seq<string>, xs: seq<Spot>, vs: seq<Json>, close: nat)
    requires i < |s| && KeyedRow(s, i + 1, ks, xs, close) && AllRead(s, xs, vs)
    ensures Object(s, i) == Good(Dict(PutAll([], Pairs(ks, vs))), close + 1)
  {
    var j := EntryHere(s, i + 1, ks[0], xs[0]);
    SkipOver(s, i + 1, j);
    MembersRead(s, j, ks, xs, vs, close);
  }

  // ------------------------------------------------------------------ what is read is spelled

  /** The spots lie behind `lo`. */
  ghost predicate Behind(lo: nat, xs: seq<Spot>)
    decreases |xs|
  {
    xs == [] || (lo < xs[0].from && Behind(lo, xs[1..]))
  }

  lemma {:induction false} RowBehind(s: string, lo: nat, i: nat, xs: seq<Spot>, close: nat, bracket: char)
    requires Row(s, i, xs, close, bracket) && lo < i
    ensures Behind(lo, xs)
    decreases |xs|
  {
    if |xs| > 1 { RowBehind(s, lo, xs[0].sep + 1, xs[1..], close, bracket); }
  }

  lemma {:induction false} KeyedRowBehind(s: string, lo: nat, i: nat, ks: seq<string>, xs: seq<Spot>, close: nat)
    requires KeyedRow(s, i, ks, xs, close) && lo < i
    ensures Behind(lo, xs)
    decreases |xs|
  {
    EntryIs(s, i, ks[0], xs[0]);
    if |xs| > 1 { KeyedRowBehind(s, lo, xs[0].sep + 1, ks[1..], xs[1..], close); }
  }

  ghost predicate AllSolid(s: string, xs: seq<Spot>)
    decreases |xs|
  {
    xs == [] || (Solid(s, xs[0].from) && AllSolid(s, xs[1..]))
  }

  lemma {:induction false} RowSolid(s: string, i: nat, xs: seq<Spot>, close: nat, bracket: char)
    requires Row(s, i, xs, close, bracket)
    ensures AllSolid(s, xs)
    decreases |xs|
  {
    if |xs| > 1 { RowSolid(s, xs[0].sep + 1, xs[1..], close, bracket); }
  }

  lemma {:induction false} KeyedRowSolid(s: string, i: nat, ks: seq<string>, xs: seq<Spot>, close: nat)
    requires KeyedRow(s, i, ks, xs, close)
    ensures AllSolid(s, xs)
    decreases |xs|
  {
    EntryIs(s, i, ks[0], xs[0]);
    if |xs| > 1 { KeyedRowSolid(s, xs[0].sep + 1, ks[1..], xs[1..], close); }
  }

  lemma {:induction false} ValueFound(s: string, i: nat)
    requires Solid(s, i) && Value(s, i).Good?
    ensures SpelledAt(s, i, Value(s, i).next, Value(s, i).value)
    decreases |s| - i, 2
  {
    SkipOver(s, i, i);
    if s[i] == '{' {
      ObjectFound(s, i);
    } else if s[i] == '[' {
      ArrayFound(s, i);
    } else {
      PlainFound(s, i);
    }
  }

  /** The values of the spots are spelled there. */
  ghost predicate AllSpelled(s: string, xs: seq<Spot>, vs: seq<Json>) {
    exists ps :: PartsAt(s, ps, xs) && Tops(ps) == vs
  }

  lemma AllSpelledMore(s: string, x: Spot, v: Json, xs: seq<Spot>, vs: seq<Json>)
    requires SpelledAt(s, x.from, x.to, v) && AllSpelled(s, xs, vs)
    ensures AllSpelled(s, [x] + xs, [v] + vs)
  {
    var p: Node :| p.from == x.from && p.to == x.to && p.v == v && Derives(s, p);
    var ps :| PartsAt(s, ps, xs) && Tops(ps) == vs;
    assert ([p] + ps)[1..] == ps && ([x] + xs)[1..] == xs;
    assert PartsAt(s, [p] + ps, [x] + xs) && Tops([p] + ps) == [v] + vs;
  }

  lemma {:induction false} PartsFound(s: string, lo: nat, xs: seq<Spot>, vs: seq<Json>)
    requires lo < |s| && Behind(lo, xs) && AllSolid(s, xs) && AllRead(s, xs, vs)
    ensures AllSpelled(s, xs, vs)
    decreases |s| - lo, 0, |xs|
  {
    if xs == [] {
      assert PartsAt(s, [], xs) && Tops([]) == vs;
    } else {
      ValueFound(s, xs[0].from);
      PartsFound(s, lo, xs[1..], vs[1..]);
      AllSpelledMore(s, xs[0], vs[0], xs[1..], vs[1..]);
      assert [xs[0]] + xs[1..] == xs && [vs[0]] + vs[1..] == vs;
    }
  }

  lemma PlainFound(s: string, i: nat)
    requires Solid(s, i) && Plain(s, i).Good?
    ensures SpelledAt(s, i, Plain(s, i).next, Plain(s, i).value)
  {
    var r := Plain(s, i);
    if s[i] == '"' {
      QuotedFound(s, i);
      assert Derives(s, Node(i, r.next, r.value, Quoted));
    } else if s[i] == 't' || s[i] == 'f' || s[i] == 'n' {
      assert Derives(s, Node(i, r.next, r.value, Word));
    } else {
      NumberFound(s, i);
    }
  }

  lemma NumberFound(s: string, i: nat)
    requires Solid(s, i) && JsonText.Number(s, i).Good?
    ensures SpelledAt(s, i, JsonText.Number(s, i).next, JsonText.Number(s, i).value)
  {
    var j, v := SkipNumber(s, i), JsonText.Number(s, i).value;
    NumberSkipped(s, i);
    NumberIs(s, i, j, v);
    assert Derives(s, Node(i, j, v, Figure));
  }

  lemma {:induction false} ArrayFound(s: string, i: nat)
    requires CharAt(s, i, '[') && Array(s, i).Good?
    ensures SpelledAt(s, i, Array(s, i).next, Array(s, i).value)
    decreases |s| - i, 1
  {
    var j := Skip(s, i + 1);
    SkipIsSpace(s, i + 1);
    if j < |s| && s[j] == ']' {
      assert Derives(s, Node(i, j + 1, List([]), Bracketed([], [])));
    } else {
      var close, vs := RowFound(s, j);
      var xs :| Row(s, j, xs, close, ']') && AllRead(s, xs, vs);
      RowIsBehind(s, i, j, xs, close);
      PartsFound(s, i, xs, vs);
      ListNode(s, i, xs, vs, close);
    }
  }

  lemma RowWider(s: string, i: nat, j: nat, xs: seq<Spot>, close: nat)
    requires Space(s, i, j) && Row(s, j, xs, close, ']')
    ensures Row(s, i, xs, close, ']')
  {
    SpaceJoin(s, i, j, xs[0].from);
  }

  lemma RowIsBehind(s: string, i: nat, j: nat, xs: seq<Spot>, close: nat)
    requires Space(s, i + 1, j) && Row(s, j, xs, close, ']')
    ensures Row(s, i + 1, xs, close, ']') && Behind(i, xs) && AllSolid(s, xs)
  {
    RowWider(s, i + 1, j, xs, close);
    RowBehind(s, i, i + 1, xs, close, ']');
    RowSolid(s, i + 1, xs, close, ']');
  }

  lemma ListNode(s: string, i: nat, xs: seq<Spot>, vs: seq<Json>, close: nat)
    requires CharAt(s, i, '[') && Row(s, i + 1, xs, close, ']') && AllSpelled(s, xs, vs) && i < close < |s|
    ensures SpelledAt(s, i, close + 1, List(vs))
  {
    var ps :| PartsAt(s, ps, xs) && Tops(ps) == vs;
    assert Derives(s, Node(i, close + 1, List(vs), Bracketed(ps, xs)));
  }

  lemma {:induction false} ObjectFound(s: string, i: nat)
    requires CharAt(s, i, '{') && Object(s, i).Good?
    ensures SpelledAt(s, i, Object(s, i).next, Object(s, i).value)
    decreases |s| - i, 1
  {
    var j := Skip(s, i + 1);
    SkipIsSpace(s, i + 1);
    if j < |s| && s[j] == '}' {
      SettlesIff([], []);
      assert Derives(s, Node(i, j + 1, Dict([]), Braced([], [], [])));
    } else {
      var close, ps := KeyedRowFound(s, j);
      var ks, xs, vs :| KeyedRow(s, j, ks, xs, close) && AllRead(s, xs, vs) && |ks| == |vs| && ps == Pairs(ks, vs);
      KeyedBehind(s, i, j, ks, xs, close);
      PartsFound(s, i, xs, vs);
      DictNode(s, i, ks, xs, vs, close);
    }
  }

  lemma EntryWider(s: string, i: nat, j: nat, k: string, x: Spot)
    requires Space(s, i, j) && EntryAt(s, j, k, x)
    ensures EntryAt(s, i, k, x)
  {
    var at: nat, end: nat, colon: nat :| KeyAt(s, j, at, end, colon, k) && SpotAt(s, colon + 1, x);
    SpaceJoin(s, i, j, at);
    assert KeyAt(s, i, at, end, colon, k);
  }

  lemma KeyedRowWider(s: string, i: nat, j: nat, ks: seq<string>, xs: seq<Spot>, close: nat)
    requires Space(s, i, j) && KeyedRow(s, j, ks, xs, close)
    ensures KeyedRow(s, i, ks, xs, close)
  {
    EntryWider(s, i, j, ks[0], xs[0]);
  }

  lemma KeyedBehind(s: string, i: nat, j: nat, ks: seq<string>, xs: seq<Spot>, close: nat)
    requires Space(s, i + 1, j) && KeyedRow(s, j, ks, xs, close)
    ensures KeyedRow(s, i + 1, ks, xs, close) && Behind(i, xs) && AllSolid(s, xs)
  {
    KeyedRowWider(s, i + 1, j, ks, xs, close);
    KeyedRowBehind(s, i, i + 1, ks, xs, close);
    KeyedRowSolid(s, i + 1, ks, xs, close);
  }

  lemma DictNode(s: string, i: nat, ks: seq<string>, xs: seq<Spot>, vs: seq<Json>, close: nat)
    requires CharAt(s, i, '{') && KeyedRow(s, i + 1, ks, xs, close) && AllSpelled(s, xs, vs) && |ks| == |vs| && i < close < |s|
    ensures SpelledAt(s, i, close + 1, Dict(PutAll([], Pairs(ks, vs))))
  {
    var ps :| PartsAt(s, ps, xs) && Tops(ps) == vs;
    SettlesIff(Pairs(ks, vs), PutAll([], Pairs(ks, vs)));
    BracedNode(s, i, ks, xs, ps, close, PutAll([], Pairs(ks, vs)));
  }

  lemma BracedNode(s: string, i: nat, ks: seq<string>, xs: seq<Spot>, ps: seq<Node>, close: nat, out: seq<Pair>)
    requires CharAt(s, i, '{') && KeyedRow(s, i + 1, ks, xs, close) && PartsAt(s, ps, xs) && |ks| == |ps| && i < close < |s|
    requires Settles(Pairs(ks, Tops(ps)), out)
    ensures SpelledAt(s, i, close + 1, Dict(out))
  {
    assert Derives(s, Node(i, close + 1, Dict(out), Braced(ps, ks, xs)));
  }

  /** The reader accepts exactly the texts that spell a value, and reads them as that value. */
  lemma ReadIffSpelled(s: string, v: Json)
    ensures Parse(s) == Read(v) <==> Spells(s, v)
  {
    if Parse(s) == Read(v) {
      var i, j := Skip(s, 0), Value(s, 0).next;
      SkipIsSpace(s, 0);
      ValueSpot(s, 0);
      ValueFrom(s, 0, i);
      ValueFound(s, i);
      SkipIsSpace(s, j);
      assert Space(s, 0, i) && SpelledAt(s, i, j, v) && Space(s, j, |s|);
    }
    if Spells(s, v) {
      var i: nat, j: nat :| Space(s, 0, i) && SpelledAt(s, i, j, v) && Space(s, j, |s|);
      var n: Node :| n.from == i && n.to == j && n.v == v && Derives(s, n);
      SpaceEnds(s, n.to, |s|);
      NodeReads(s, n);
      ValueFrom(s, 0, n.from);
      SkipOver(s, n.to, |s|);
    }
  }
}
